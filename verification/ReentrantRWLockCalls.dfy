/**
 What a caller of the reentrant lock gets: a call that has returned has changed the thread's stack of
 guards by exactly what it is for, whatever ran in between, and what undisturbed calls do to the lock.
*/
module ReentrantRWLockCalls {
  import opened Common
  import opened ReentrantRWLockSpec
  import opened ReentrantRWLockTheorems
  import opened ReentrantRWLockWaiters

  // ---------------------------------------------------------------- calls over any run

  // A call and the guards of its thread, outermost first, when it was made.
  datatype Call = NoCall | Made(act: Action, before: seq<Guard>)

  predicate StartsCall(s: State, e: Event, t: Tid) {
    e.t == t && Of(s, t).pc.Idle? && !e.act.Advance? && (e.act.CallUnlock? ==> Of(s, t).guards != [])
  }

  // The last call that t has made.
  function LastCall(s0: State, es: seq<Event>, t: Tid): Call {
    if es == [] then NoCall else
    var p, e := es[..|es| - 1], es[|es| - 1];
    if StartsCall(Run(s0, p), e, t) then Made(e.act, Of(Run(s0, p), t).guards) else LastCall(s0, p, t)
  }

  predicate LocksForReading(pc: Pc) {
    pc.ReadTestId? || pc.ReadLoad? || pc.ReadTest? || pc.ReadCas?
  }

  predicate LocksForWriting(pc: Pc) {
    pc.WriteTestId? || pc.WriteNest? || pc.WriteAdd? || pc.WriteCas? || pc.WriteSetId? || pc.WriteSub?
  }

  // Where a thread can be with a call, and the guards that it is inside. The guard object is gone
  // with the fetch_add of the outermost WriteUnlock, one access before that call returns.
  predicate Matches(l: Local, call: Call) {
    match call
    case NoCall => l == Local(Idle, [])
    case Made(act, before) =>
      match act
      case CallRead => if l.pc.Idle? then l.guards == before + [R] else LocksForReading(l.pc) && l.guards == before
      case CallWrite => if l.pc.Idle? then l.guards == before + [W] else LocksForWriting(l.pc) && l.guards == before
      case CallUnlock =>
        before != [] &&
        if before[|before| - 1] == R
        then l == Local(Idle, before[..|before| - 1])
             || l == Local(ReadUnlockTestId, before) || l == Local(ReadUnlockSub, before)
        else l == Local(Idle, before[..|before| - 1]) || l == Local(WriteUnlockClearId, before[..|before| - 1])
             || l == Local(WriteUnlockAdd, before)
      case Advance(_) => false
  }

  lemma CallMatches(s: State, e: Event, call: Call)
    requires Matches(Of(s, e.t), call) && !e.act.Advance?
    ensures Matches(Of(Step(s, e), e.t), if StartsCall(s, e, e.t) then Made(e.act, Of(s, e.t).guards) else call)
  {
    hide Step;
    CallMoves(s, e);
  }

  lemma ReadMatches(s: State, e: Event, call: Call)
    requires Matches(Of(s, e.t), call) && e.act.Advance? && Reading(Of(s, e.t).pc)
    ensures Matches(Of(Step(s, e), e.t), call)
  {
    hide Step;
    ReadMoves(s, e);
  }

  lemma WriteMatches(s: State, e: Event, call: Call)
    requires Matches(Of(s, e.t), call) && e.act.Advance? && !Reading(Of(s, e.t).pc)
    ensures Matches(Of(Step(s, e), e.t), call)
  {
    hide Step;
    WriteMoves(s, e);
  }

  // In every run a thread that is not in a call has exactly one guard more, or less, than when it
  // made its last call: the innermost one, which this call was to enter or to leave. A thread that is
  // in a lock call has the guards that it had when it made it.
  lemma {:induction false} CallsChangeOneGuard(writeFirst: bool, atomicUnlock: bool, es: seq<Event>, t: Tid)
    ensures var s0 := Init(writeFirst, atomicUnlock); Matches(Of(Run(s0, es), t), LastCall(s0, es, t))
  {
    hide Step;
    var s0 := Init(writeFirst, atomicUnlock);
    if es == [] {
    } else {
      hide Matches;
      var p, e := es[..|es| - 1], es[|es| - 1];
      CallsChangeOneGuard(writeFirst, atomicUnlock, p, t);
      var s, call := Run(s0, p), LastCall(s0, p, t);
      if e.t != t {
        OthersStand(s, e, t);
      } else if !e.act.Advance? {
        CallMatches(s, e, call);
      } else if Reading(Of(s, t).pc) {
        ReadMatches(s, e, call);
      } else {
        WriteMatches(s, e, call);
      }
    }
  }

  // ---------------------------------------------------------------- undisturbed calls

  function Alone(s: State, t: Tid, n: nat): State
    decreases n
  {
    if n == 0 then s else Alone(Step(s, Event(t, Advance(false))), t, n - 1)
  }

  // A call that is made and followed by n accesses of its thread.
  function CallAlone(s: State, t: Tid, act: Action, n: nat): State {
    Alone(Step(s, Event(t, act)), t, n)
  }

  // Nothing keeps a new reader out.
  predicate Open(s: State) {
    s.lockNum >= RW_LOCK_FREE && !(s.writeFirst && s.waitNum > 0)
  }

  lemma Follow(s: State, t: Tid, n: nat, r: State)
    requires 1 <= n && Step(s, Event(t, Advance(false))) == r
    ensures Alone(s, t, n) == Alone(r, t, n - 1)
  {
    hide Step;
  }

  lemma Follow0(s: State, t: Tid)
    ensures Alone(s, t, 0) == s
  {
  }

  lemma SetKnown(s: State, t: Tid, pc: Pc, gs: seq<Guard>)
    ensures var r := Set(s, t, pc, gs);
            && Of(r, t) == Local(pc, gs)
            && r.lockNum == s.lockNum && r.waitNum == s.waitNum && r.writeThreadId == s.writeThreadId
            && r.writeFirst == s.writeFirst && r.atomicUnlock == s.atomicUnlock
            && r.readers == s.readers && r.holder == s.holder && r.leaked == s.leaked
  {
  }

  lemma SetTwice(s: State, t: Tid, pc: Pc, gs: seq<Guard>, pc': Pc, gs': seq<Guard>)
    ensures Set(Set(s, t, pc, gs), t, pc', gs') == Set(s, t, pc', gs')
  {
    assert s.threads[t := Local(pc, gs)][t := Local(pc', gs')] == s.threads[t := Local(pc', gs')];
  }

  // The accesses of ReadLock by a thread that is alone.
  lemma ReadTestIdStep(s: State, t: Tid, gs: seq<Guard>)
    ensures Step(Set(s, t, ReadTestId, gs), Event(t, Advance(false))) ==
            if s.writeThreadId == Some(t) then Set(s, t, Idle, gs + [R]) else Set(s, t, ReadLoad, gs)
  {
    hide WriteGuards, Inner, Set, Of;
    SetKnown(s, t, ReadTestId, gs);
    SetTwice(s, t, ReadTestId, gs, Idle, gs + [R]);
    SetTwice(s, t, ReadTestId, gs, ReadLoad, gs);
  }

  lemma ReadLoadStep(s: State, t: Tid, gs: seq<Guard>)
    ensures Step(Set(s, t, ReadLoad, gs), Event(t, Advance(false))) ==
            Set(s, t, ReadTest(s.lockNum), gs)
  {
    hide WriteGuards, Inner, Set, Of;
    SetKnown(s, t, ReadLoad, gs);
    SetTwice(s, t, ReadLoad, gs, ReadTest(s.lockNum), gs);
  }

  lemma ReadTestStep(s: State, t: Tid, gs: seq<Guard>)
    ensures Step(Set(s, t, ReadTest(s.lockNum), gs), Event(t, Advance(false))) ==
            Set(s, t, if Open(s) then ReadCas(s.lockNum) else ReadLoad, gs)
  {
    hide WriteGuards, Inner, Set, Of;
    SetKnown(s, t, ReadTest(s.lockNum), gs);
    SetTwice(s, t, ReadTest(s.lockNum), gs, ReadCas(s.lockNum), gs);
    SetTwice(s, t, ReadTest(s.lockNum), gs, ReadLoad, gs);
  }

  lemma ReadCasStep(s: State, t: Tid, gs: seq<Guard>)
    ensures Step(Set(s, t, ReadCas(s.lockNum), gs), Event(t, Advance(false))) ==
            Set(s, t, Idle, gs + [R]).(lockNum := s.lockNum + 1, readers := s.readers + multiset{t})
  {
    hide WriteGuards, Inner, Set, Of;
    SetKnown(s, t, ReadCas(s.lockNum), gs);
    SetTwice(s, t, ReadCas(s.lockNum), gs, Idle, gs + [R]);
  }

  // An undisturbed ReadLock: the write holder gets its guard for free; anybody else is counted in
  // one round if nothing keeps readers out, and is back before its load with the lock unchanged if not.
  lemma ReadLockAlone(s: State, t: Tid)
    requires Of(s, t).pc.Idle?
    ensures var gs := Of(s, t).guards;
            if s.writeThreadId == Some(t) then
              CallAlone(s, t, CallRead, 1) == Set(s, t, Idle, gs + [R])
            else if Open(s) then
              CallAlone(s, t, CallRead, 4) ==
              Set(s, t, Idle, gs + [R]).(lockNum := s.lockNum + 1, readers := s.readers + multiset{t})
            else
              CallAlone(s, t, CallRead, 3) == Set(s, t, ReadLoad, gs)
  {
    hide WriteGuards, Alone;
    var gs := Of(s, t).guards;
    var s1 := Set(s, t, ReadTestId, gs);
    assert Step(s, Event(t, CallRead)) == s1;
    hide Step, Set;
    ReadTestIdStep(s, t, gs);
    ReadLoadStep(s, t, gs);
    ReadTestStep(s, t, gs);
    if s.writeThreadId == Some(t) {
      Follow(s1, t, 1, Set(s, t, Idle, gs + [R]));
      Follow0(Set(s, t, Idle, gs + [R]), t);
    } else {
      var load, test := Set(s, t, ReadLoad, gs), Set(s, t, ReadTest(s.lockNum), gs);
      var n := if Open(s) then 4 else 3;
      Follow(s1, t, n, load);
      Follow(load, t, n - 1, test);
      if Open(s) {
        var cas := Set(s, t, ReadCas(s.lockNum), gs);
        Follow(test, t, 2, cas);
        ReadCasStep(s, t, gs);
        Follow(cas, t, 1, Step(cas, Event(t, Advance(false))));
        Follow0(Step(cas, Event(t, Advance(false))), t);
      } else {
        Follow(test, t, 1, load);
        Follow0(load, t);
      }
    }
  }

  // The accesses of WriteLock by a thread that is alone.
  lemma WriteTestIdStep(s: State, t: Tid, gs: seq<Guard>)
    ensures Step(Set(s, t, WriteTestId, gs), Event(t, Advance(false))) ==
            Set(s, t, if s.writeThreadId == Some(t) then WriteNest else WriteAdd, gs)
  {
    hide WriteGuards, Inner, Set, Of;
    SetKnown(s, t, WriteTestId, gs);
    SetTwice(s, t, WriteTestId, gs, WriteNest, gs);
    SetTwice(s, t, WriteTestId, gs, WriteAdd, gs);
  }

  lemma WriteNestStep(s: State, t: Tid, gs: seq<Guard>)
    ensures Step(Set(s, t, WriteNest, gs), Event(t, Advance(false))) ==
            Set(s, t, Idle, gs + [W]).(lockNum := s.lockNum - 1)
  {
    hide WriteGuards, Inner, Set, Of;
    SetKnown(s, t, WriteNest, gs);
    SetTwice(s, t, WriteNest, gs, Idle, gs + [W]);
  }

  lemma WriteAddStep(s: State, t: Tid, gs: seq<Guard>)
    ensures Step(Set(s, t, WriteAdd, gs), Event(t, Advance(false))) ==
            Set(s, t, WriteCas, gs).(waitNum := s.waitNum + 1)
  {
    hide WriteGuards, Inner, Set, Of;
    SetKnown(s, t, WriteAdd, gs);
    SetTwice(s, t, WriteAdd, gs, WriteCas, gs);
  }

  lemma WriteCasStep(s: State, t: Tid, gs: seq<Guard>)
    requires s.lockNum == RW_LOCK_FREE
    ensures Step(Set(s, t, WriteCas, gs), Event(t, Advance(false))) ==
            Set(s, t, WriteSetId, gs).(lockNum := WRITE_EXCLUSIVE, holder := Some(t))
  {
    hide WriteGuards, Inner, Set, Of;
    SetKnown(s, t, WriteCas, gs);
    SetTwice(s, t, WriteCas, gs, WriteSetId, gs);
  }

  lemma WriteSetIdStep(s: State, t: Tid, gs: seq<Guard>)
    ensures Step(Set(s, t, WriteSetId, gs), Event(t, Advance(false))) ==
            Set(s, t, WriteSub, gs).(writeThreadId := Some(t))
  {
    hide WriteGuards, Inner, Set, Of;
    SetKnown(s, t, WriteSetId, gs);
    SetTwice(s, t, WriteSetId, gs, WriteSub, gs);
  }

  lemma WriteSubStep(s: State, t: Tid, gs: seq<Guard>)
    ensures Step(Set(s, t, WriteSub, gs), Event(t, Advance(false))) ==
            Set(s, t, Idle, gs + [W]).(waitNum := s.waitNum - 1)
  {
    hide WriteGuards, Inner, Set, Of;
    SetKnown(s, t, WriteSub, gs);
    SetTwice(s, t, WriteSub, gs, Idle, gs + [W]);
  }

  lemma WriteEnds(s: State, t: Tid, gs: seq<Guard>)
    requires s.lockNum == RW_LOCK_FREE
    ensures Alone(Set(s, t, WriteCas, gs), t, 3) ==
            Set(s, t, Idle, gs + [W]).(lockNum := WRITE_EXCLUSIVE, waitNum := s.waitNum - 1,
                                       writeThreadId := Some(t), holder := Some(t))
  {
    hide Step, Alone;
    var s1 := s.(lockNum := WRITE_EXCLUSIVE, holder := Some(t));
    var s2 := s1.(writeThreadId := Some(t));
    WriteCasStep(s, t, gs);
    Follow(Set(s, t, WriteCas, gs), t, 3, Set(s1, t, WriteSetId, gs));
    WriteSetIdStep(s1, t, gs);
    Follow(Set(s1, t, WriteSetId, gs), t, 2, Set(s2, t, WriteSub, gs));
    WriteSubStep(s2, t, gs);
    var s3 := Set(s2, t, Idle, gs + [W]).(waitNum := s2.waitNum - 1);
    Follow(Set(s2, t, WriteSub, gs), t, 1, s3);
    Follow0(s3, t);
  }

  lemma {:induction false} WriterSpins(s: State, t: Tid, n: nat)
    requires Of(s, t).pc.WriteCas? && s.lockNum != RW_LOCK_FREE
    ensures Alone(s, t, n) == s
    decreases n
  {
    hide WriteGuards, Inner;
    if n == 0 {
    } else {
      WriterSpins(s, t, n - 1);
    }
  }

  // An undisturbed WriteLock: the write holder goes one deeper; anybody else gets the free lock with
  // its id on it, or is counted as waiting and tries again for ever if the lock is not free.
  lemma WriteLockAlone(s: State, t: Tid)
    requires Of(s, t).pc.Idle?
    ensures var gs := Of(s, t).guards;
            if s.writeThreadId == Some(t) then
              CallAlone(s, t, CallWrite, 2) == Set(s, t, Idle, gs + [W]).(lockNum := s.lockNum - 1)
            else if s.lockNum == RW_LOCK_FREE then
              CallAlone(s, t, CallWrite, 5) ==
              Set(s, t, Idle, gs + [W]).(lockNum := WRITE_EXCLUSIVE, writeThreadId := Some(t), holder := Some(t))
            else
              forall n: nat :: 2 <= n ==>
                CallAlone(s, t, CallWrite, n) == Set(s, t, WriteCas, gs).(waitNum := s.waitNum + 1)
  {
    hide WriteGuards, Alone;
    var gs := Of(s, t).guards;
    var s1 := Set(s, t, WriteTestId, gs);
    assert Step(s, Event(t, CallWrite)) == s1;
    hide Step;
    WriteTestIdStep(s, t, gs);
    WriteNestStep(s, t, gs);
    WriteAddStep(s, t, gs);
    if s.writeThreadId == Some(t) {
      var s3 := Set(s, t, Idle, gs + [W]).(lockNum := s.lockNum - 1);
      Follow(s1, t, 2, Set(s, t, WriteNest, gs));
      Follow(Set(s, t, WriteNest, gs), t, 1, s3);
      Follow0(s3, t);
    } else {
      var s2, s3 := Set(s, t, WriteAdd, gs), Set(s, t, WriteCas, gs).(waitNum := s.waitNum + 1);
      if s.lockNum == RW_LOCK_FREE {
        Follow(s1, t, 5, s2);
        Follow(s2, t, 4, s3);
        WriteEnds(s.(waitNum := s.waitNum + 1), t, gs);
      } else {
        forall n: nat | 2 <= n ensures CallAlone(s, t, CallWrite, n) == s3 {
          Follow(s1, t, n, s2);
          Follow(s2, t, n - 1, s3);
          WriterSpins(s3, t, n - 2);
        }
      }
    }
  }

  // The accesses of the two unlocks by a thread that is alone.
  lemma ReadUnlockTestIdStep(s: State, t: Tid, gs: seq<Guard>)
    ensures Step(Set(s, t, ReadUnlockTestId, gs), Event(t, Advance(false))) ==
            if s.writeThreadId == Some(t) then Set(s, t, Idle, Inner(gs)) else Set(s, t, ReadUnlockSub, gs)
  {
    hide WriteGuards, Inner, Set, Of;
    SetKnown(s, t, ReadUnlockTestId, gs);
    SetTwice(s, t, ReadUnlockTestId, gs, Idle, Inner(gs));
    SetTwice(s, t, ReadUnlockTestId, gs, ReadUnlockSub, gs);
  }

  lemma ReadUnlockSubStep(s: State, t: Tid, gs: seq<Guard>)
    ensures Step(Set(s, t, ReadUnlockSub, gs), Event(t, Advance(false))) ==
            Set(s, t, Idle, Inner(gs)).(lockNum := s.lockNum - 1, readers := s.readers - multiset{t},
              leaked := s.leaked + if s.holder == Some(t) then 1 else 0)
  {
    hide WriteGuards, Inner, Set, Of;
    SetKnown(s, t, ReadUnlockSub, gs);
    SetTwice(s, t, ReadUnlockSub, gs, Idle, Inner(gs));
  }

  lemma WriteUnlockAddStep(s: State, t: Tid, gs: seq<Guard>)
    ensures Step(Set(s, t, WriteUnlockAdd, gs), Event(t, Advance(false))) ==
            Set(s, t, if s.lockNum == WRITE_EXCLUSIVE && !s.atomicUnlock then WriteUnlockClearId else Idle, Inner(gs)).(
              lockNum := s.lockNum + 1,
              writeThreadId := if s.lockNum == WRITE_EXCLUSIVE && s.atomicUnlock then None else s.writeThreadId,
              holder := if WriteGuards(Inner(gs)) == 0 then None else s.holder)
  {
    hide WriteGuards, Inner, Set, Of;
    SetKnown(s, t, WriteUnlockAdd, gs);
    SetTwice(s, t, WriteUnlockAdd, gs, WriteUnlockClearId, Inner(gs));
    SetTwice(s, t, WriteUnlockAdd, gs, Idle, Inner(gs));
  }

  lemma WriteUnlockClearIdStep(s: State, t: Tid, gs: seq<Guard>)
    ensures Step(Set(s, t, WriteUnlockClearId, gs), Event(t, Advance(false))) ==
            Set(s, t, Idle, gs).(writeThreadId := None)
  {
    hide WriteGuards, Inner, Set, Of;
    SetKnown(s, t, WriteUnlockClearId, gs);
    SetTwice(s, t, WriteUnlockClearId, gs, Idle, gs);
  }

  // An undisturbed unlock of the innermost guard: a read guard inside the own write guards costs
  // nothing and any other one is taken off the count; a write guard takes the depth one back, and
  // the outermost one takes the id off the lock.
  lemma UnlockAlone(s: State, t: Tid)
    requires Of(s, t).pc.Idle? && Of(s, t).guards != []
    ensures var gs := Of(s, t).guards;
            var inner := gs[..|gs| - 1];
            if gs[|gs| - 1] == R then
              if s.writeThreadId == Some(t) then
                CallAlone(s, t, CallUnlock, 1) == Set(s, t, Idle, inner)
              else
                var r := CallAlone(s, t, CallUnlock, 2);
                r == Set(s, t, Idle, inner).(lockNum := s.lockNum - 1, readers := s.readers - multiset{t},
                       leaked := r.leaked)
            else
              var last := s.lockNum == WRITE_EXCLUSIVE;
              var r := CallAlone(s, t, CallUnlock, if last && !s.atomicUnlock then 2 else 1);
              r == Set(s, t, Idle, inner).(lockNum := s.lockNum + 1, holder := r.holder,
                     writeThreadId := if last then None else s.writeThreadId)
  {
    hide WriteGuards, Alone;
    var gs := Of(s, t).guards;
    var s1 := Set(s, t, if gs[|gs| - 1] == R then ReadUnlockTestId else WriteUnlockAdd, gs);
    assert Step(s, Event(t, CallUnlock)) == s1 && Inner(gs) == gs[..|gs| - 1];
    hide Step, Set;
    if gs[|gs| - 1] == R {
      ReadUnlockAlone(s, t, gs);
    } else {
      WriteUnlockAlone(s, t, gs);
    }
  }

  lemma ReadUnlockAlone(s: State, t: Tid, gs: seq<Guard>)
    ensures var s1 := Set(s, t, ReadUnlockTestId, gs);
            if s.writeThreadId == Some(t) then Alone(s1, t, 1) == Set(s, t, Idle, Inner(gs))
            else
              var r := Alone(s1, t, 2);
              r == Set(s, t, Idle, Inner(gs)).(lockNum := s.lockNum - 1, readers := s.readers - multiset{t},
                     leaked := r.leaked)
  {
    hide Step, Alone, Set;
    var s1, s2 := Set(s, t, ReadUnlockTestId, gs), Set(s, t, ReadUnlockSub, gs);
    ReadUnlockTestIdStep(s, t, gs);
    ReadUnlockSubStep(s, t, gs);
    if s.writeThreadId == Some(t) {
      Follow(s1, t, 1, Set(s, t, Idle, Inner(gs)));
      Follow0(Set(s, t, Idle, Inner(gs)), t);
    } else {
      Follow(s1, t, 2, s2);
      Follow(s2, t, 1, Step(s2, Event(t, Advance(false))));
      Follow0(Step(s2, Event(t, Advance(false))), t);
    }
  }

  lemma WriteUnlockAlone(s: State, t: Tid, gs: seq<Guard>)
    ensures var last := s.lockNum == WRITE_EXCLUSIVE;
            var r := Alone(Set(s, t, WriteUnlockAdd, gs), t, if last && !s.atomicUnlock then 2 else 1);
            r == Set(s, t, Idle, Inner(gs)).(lockNum := s.lockNum + 1, holder := r.holder,
                   writeThreadId := if last then None else s.writeThreadId)
  {
    hide Step, Alone;
    var s1 := Set(s, t, WriteUnlockAdd, gs);
    var s2 := Step(s1, Event(t, Advance(false)));
    WriteUnlockAddStep(s, t, gs);
    if s.lockNum == WRITE_EXCLUSIVE && !s.atomicUnlock {
      var s0 := s.(lockNum := s.lockNum + 1, holder := s2.holder);
      Follow(s1, t, 2, s2);
      assert s2 == Set(s0, t, WriteUnlockClearId, Inner(gs));
      WriteUnlockClearIdStep(s0, t, Inner(gs));
      Follow(s2, t, 1, Step(s2, Event(t, Advance(false))));
      Follow0(Step(s2, Event(t, Advance(false))), t);
    } else {
      Follow(s1, t, 1, s2);
      Follow0(s2, t);
    }
  }

  // ---------------------------------------------------------------- unlocking undoes locking

  // An undisturbed WriteLock of the free lock and its unlock leave it free and without an id; inside
  // the own write guards they leave the depth as it was.
  lemma WriteLockThenUnlock(s: State, t: Tid)
    requires Inv(s) && Of(s, t).pc.Idle? && (s.lockNum == RW_LOCK_FREE || s.writeThreadId == Some(t))
    ensures var own := s.writeThreadId == Some(t);
            var locked := CallAlone(s, t, CallWrite, if own then 2 else 5);
            var r := CallAlone(locked, t, CallUnlock, if own || s.atomicUnlock then 1 else 2);
            && Of(locked, t) == Local(Idle, Of(s, t).guards + [W])
            && Of(r, t) == Of(s, t) && r.lockNum == s.lockNum && r.waitNum == s.waitNum && r.readers == s.readers
            && r.writeThreadId == (if own then s.writeThreadId else None)
  {
    hide Inv, Step, CallAlone;
    var gs := Of(s, t).guards;
    assert (gs + [W])[..|gs + [W]| - 1] == gs;
    WriteLockAlone(s, t);
    if s.writeThreadId == Some(t) {
      OwnIdIsInside(s, t);
      UnlockAlone(CallAlone(s, t, CallWrite, 2), t);
    } else {
      UnlockAlone(CallAlone(s, t, CallWrite, 5), t);
    }
  }

  // An idle thread whose id is on the lock holds it, one level deep at least.
  lemma OwnIdIsInside(s: State, t: Tid)
    requires Inv(s) && Of(s, t).pc.Idle? && s.writeThreadId == Some(t)
    ensures s.holder == Some(t) && s.lockNum < RW_LOCK_FREE
  {
    hide WriteGuards;
    assert ThreadOk(s, t);
    LockNumFacts(s, t);
    NestingKnown(Of(s, t).guards);
  }

  // An undisturbed ReadLock and its unlock leave the lock as it was.
  lemma ReadLockThenUnlock(s: State, t: Tid)
    requires Of(s, t).pc.Idle? && (Open(s) || s.writeThreadId == Some(t))
    ensures var own := s.writeThreadId == Some(t);
            var locked := CallAlone(s, t, CallRead, if own then 1 else 4);
            var r := CallAlone(locked, t, CallUnlock, if own then 1 else 2);
            && Of(locked, t) == Local(Idle, Of(s, t).guards + [R])
            && Of(r, t) == Of(s, t) && r.lockNum == s.lockNum && r.waitNum == s.waitNum
            && r.readers == s.readers && r.writeThreadId == s.writeThreadId
  {
    hide Step, CallAlone;
    var gs := Of(s, t).guards;
    assert (gs + [R])[..|gs + [R]| - 1] == gs;
    ReadLockAlone(s, t);
    if s.writeThreadId == Some(t) {
      UnlockAlone(CallAlone(s, t, CallRead, 1), t);
    } else {
      UnlockAlone(CallAlone(s, t, CallRead, 4), t);
    }
  }
}
