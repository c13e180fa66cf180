/**
 Whether a lock call inside a guard returns: exactly when it can, how it comes about that it
 cannot, and that it then never will.
*/
module ReentrantRWLockNesting {
  import opened Common
  import opened ReentrantRWLockSpec
  import opened ReentrantRWLockTheorems
  import opened ReentrantRWLockWaiters

  ghost predicate Inside(s: State, t: Tid) {
    WriteGuards(Of(s, t).guards) >= 1
  }

  // Inside read guards only, which are counted.
  ghost predicate Counted(s: State, t: Tid) {
    Of(s, t).guards != [] && WriteGuards(Of(s, t).guards) == 0
  }

  // Some writer waits on a write-first lock, so that no reader passes the check.
  predicate Preferred(s: State) {
    s.writeFirst && s.waitNum > 0
  }

  // In ReadLock, in front of the check or at it.
  predicate BeforeCas(pc: Pc) {
    pc.ReadTestId? || pc.ReadLoad? || pc.ReadTest?
  }

  // In a lock call inside a guard that cannot return any more: the write holder has lost its id
  // at the test of the id, or waits for its own guard; a counted reader calls WriteLock, or
  // calls ReadLock while a preferred writer waits.
  ghost predicate Stuck(s: State, t: Tid) {
    var l := Of(s, t);
    || (Inside(s, t) && (l.pc.ReadTestId? || l.pc.WriteTestId?) && s.writeThreadId != Some(t))
    || (Inside(s, t) && (l.pc.ReadLoad? || l.pc.ReadTest? || l.pc.ReadCas? || l.pc.WriteAdd? || l.pc.WriteCas?))
    || (Counted(s, t) && (l.pc.WriteTestId? || l.pc.WriteAdd? || l.pc.WriteCas?))
    || (Counted(s, t) && BeforeCas(l.pc) && Preferred(s))
  }

  // ---------------------------------------------------------------- what is known there

  // While a counted read guard is held nobody has the lock for writing.
  lemma ReaderKnown(s: State, t: Tid)
    requires Inv(s) && Counted(s, t)
    ensures s.lockNum > RW_LOCK_FREE && s.holder.None?
    ensures forall u: Tid :: WriteGuards(Of(s, u).guards) == 0 && !Entering(Of(s, u).pc)
  {
    hide NestingOf, WriteGuards;
    assert ThreadOk(s, t);
    NestingKnown(Of(s, t).guards);
    assert t in s.readers;
    forall u: Tid ensures WriteGuards(Of(s, u).guards) == 0 && !Entering(Of(s, u).pc) {
      assert ThreadOk(s, u);
      NestingKnown(Of(s, u).guards);
    }
  }

  // A counted reader is not the thread that write_thread_id_ names, unless it has still to clear it.
  lemma CountedId(s: State, t: Tid)
    requires Inv(s) && Counted(s, t)
    ensures !Of(s, t).pc.WriteUnlockClearId? && !Of(s, t).pc.WriteNest? && s.writeThreadId != Some(t)
  {
    hide NestingOf, WriteGuards;
    ReaderKnown(s, t);
    NestingKnown(Of(s, t).guards);
    ThreadIs(s, t);
  }

  // What the lock shows to a thread inside a guard.
  lemma StuckKnown(s: State, t: Tid)
    requires Inv(s) && (Inside(s, t) || Counted(s, t))
    ensures s.lockNum != RW_LOCK_FREE && (Inside(s, t) ==> s.lockNum < RW_LOCK_FREE) && LocalOk(Of(s, t))
    ensures forall u: Tid :: u != t ==> WriteGuards(Of(s, u).guards) == 0 && !Entering(Of(s, u).pc)
    ensures Inside(s, t) ==> forall u: Tid :: u != t ==> Of(s, u).guards == []
  {
    hide NestingOf, WriteGuards, Inv;
    ThreadIs(s, t);
    NestingKnown(Of(s, t).guards);
    if Inside(s, t) {
      InsideKnown(s, t);
      forall u: Tid | u != t ensures WriteGuards(Of(s, u).guards) == 0 {
        NestingKnown(Of(s, u).guards);
      }
    } else {
      ReaderKnown(s, t);
    }
  }

  // ---------------------------------------------------------------- stuck for ever

  // A preferred writer keeps waiting while a counted read guard is held.
  lemma PreferredStays(s: State, t: Tid, e: Event)
    requires Inv(s) && Counted(s, t) && Preferred(s)
    ensures Preferred(Step(s, e))
  {
    hide Inv, Step, WriteGuards;
    ReaderKnown(s, t);
    SharedMoves(s, e);
  }

  lemma OwnStuckStays(s: State, t: Tid, e: Event)
    requires Inv(s) && Stuck(s, t) && e.t == t
    ensures Stuck(Step(s, e), t) && Of(Step(s, e), t).guards == Of(s, t).guards
  {
    hide Inv, Step, WriteGuards, Preferred;
    StuckKnown(s, t);
    if Counted(s, t) {
      CountedId(s, t);
      if Preferred(s) { PreferredStays(s, t, e); }
    }
    SharedMoves(s, e);
    if !e.act.Advance? {
      CallMoves(s, e);
    } else if Reading(Of(s, t).pc) {
      ReadMoves(s, e);
      if Preferred(s) { PreferredIs(s); }
    } else {
      WriteMoves(s, e);
    }
  }

  lemma PreferredIs(s: State)
    ensures Preferred(s) <==> s.writeFirst && s.waitNum > 0
  {
  }

  lemma StuckStays(s: State, t: Tid, e: Event)
    requires Inv(s) && Stuck(s, t)
    ensures Stuck(Step(s, e), t) && Of(Step(s, e), t).guards == Of(s, t).guards
  {
    hide Inv, Step, WriteGuards, Preferred;
    if e.t == t {
      OwnStuckStays(s, t, e);
    } else {
      OthersStand(s, e, t);
      SharedMoves(s, e);
      if Counted(s, t) && Preferred(s) { PreferredStays(s, t, e); }
    }
  }

  // Once stuck, a call never returns, whatever the other threads do: its thread keeps its guards,
  // and the lock is lost for every writer, after a nested call of the holder for everybody.
  lemma {:induction false} StuckForever(s: State, t: Tid, es: seq<Event>)
    requires Inv(s) && Stuck(s, t)
    ensures var r := Run(s, es);
            && Inv(r) && Stuck(r, t) && Of(r, t).guards == Of(s, t).guards && r.lockNum != RW_LOCK_FREE
            && (forall u: Tid :: u != t ==> WriteGuards(Of(r, u).guards) == 0 && !Entering(Of(r, u).pc))
            && (Inside(s, t) ==> r.lockNum < RW_LOCK_FREE && forall u: Tid :: u != t ==> Of(r, u).guards == [])
  {
    hide Inv, Step, Stuck;
    if es == [] {
    } else {
      var p, e := es[..|es| - 1], es[|es| - 1];
      StuckForever(s, t, p);
      StepInv(Run(s, p), e);
      StuckStays(Run(s, p), t, e);
    }
    StuckIsInside(Run(s, es), t);
    StuckKnown(Run(s, es), t);
  }

  lemma StuckIsInside(s: State, t: Tid)
    requires Stuck(s, t)
    ensures Inside(s, t) || Counted(s, t)
  {
  }

  // ---------------------------------------------------------------- how a thread gets stuck

  // The steps that make thread t stuck. Its own: the write holder calls without its id, a counted
  // reader calls WriteLock, or ReadLock while a preferred writer waits, or fails its CAS then.
  // Those of others: a writer queues while t is in front of the check of a nested ReadLock, or
  // the id of t is cleared while t is about to test it.
  ghost predicate GetsStuck(s: State, e: Event, t: Tid) {
    var pc := Of(s, t).pc;
    if e.t == t then
      || (Inside(s, t) && pc.Idle? && (e.act.CallRead? || e.act.CallWrite?) && s.writeThreadId != Some(t))
      || (Counted(s, t) && pc.Idle? && e.act.CallWrite?)
      || (Counted(s, t) && pc.Idle? && e.act.CallRead? && Preferred(s))
      || (Counted(s, t) && pc.ReadCas? && e.act.Advance? && (e.act.spurious || s.lockNum != pc.n) && Preferred(s))
    else
      || (Counted(s, t) && BeforeCas(pc) && s.writeFirst && e.act.Advance? && Of(s, e.t).pc.WriteAdd?)
      || (Inside(s, t) && (pc.ReadTestId? || pc.WriteTestId?) && e.act.Advance? && Of(s, e.t).pc.WriteUnlockClearId?)
  }

  lemma OwnCallSticks(s: State, e: Event)
    requires Inv(s) && !Stuck(s, e.t) && !e.act.Advance?
    ensures Stuck(Step(s, e), e.t) <==> GetsStuck(s, e, e.t)
  {
    hide Inv, Step, WriteGuards, Preferred;
    CallMoves(s, e);
    SharedMoves(s, e);
    PreferredIs(s);
    PreferredIs(Step(s, e));
  }

  lemma OwnReadSticks(s: State, e: Event)
    requires Inv(s) && !Stuck(s, e.t) && e.act.Advance? && Reading(Of(s, e.t).pc)
    ensures Stuck(Step(s, e), e.t) <==> GetsStuck(s, e, e.t)
  {
    hide Inv, Step, WriteGuards, Preferred;
    ReadMoves(s, e);
    SharedMoves(s, e);
    PreferredIs(s);
    PreferredIs(Step(s, e));
    if Counted(s, e.t) { CountedId(s, e.t); }
  }

  lemma OwnWriteSticks(s: State, e: Event)
    requires Inv(s) && !Stuck(s, e.t) && e.act.Advance? && !Reading(Of(s, e.t).pc)
    ensures Stuck(Step(s, e), e.t) <==> GetsStuck(s, e, e.t)
  {
    hide Inv, Step, WriteGuards, Preferred;
    WriteMoves(s, e);
    if Of(s, e.t).pc.WriteTestId? || Of(s, e.t).pc.WriteAdd? || Of(s, e.t).pc.WriteCas? {
      NoGuards(s, e.t);
    }
  }

  lemma NoGuards(s: State, t: Tid)
    ensures !Inside(s, t) && !Counted(s, t) <==> Of(s, t).guards == []
  {
  }

  // A thread that is not the holder does not make the holder's id another one than None.
  lemma OtherStep(s: State, t: Tid, e: Event)
    requires Inv(s) && e.t != t && (Inside(s, t) || Counted(s, t))
    ensures Inside(s, t) ==> !(Of(s, e.t).pc.WriteSetId? || Of(s, e.t).pc.WriteUnlockAdd?)
  {
    hide Inv, NestingOf, WriteGuards;
    StuckKnown(s, t);
    ThreadIs(s, e.t);
    NestingKnown(Of(s, e.t).guards);
  }

  lemma OtherSticks(s: State, e: Event, t: Tid)
    requires Inv(s) && WaitCounts(s) && !Stuck(s, t) && e.t != t
    ensures Stuck(Step(s, e), t) <==> GetsStuck(s, e, t)
  {
    hide Inv, Step, WriteGuards, Preferred;
    OthersStand(s, e, t);
    SharedMoves(s, e);
    PreferredIs(s);
    PreferredIs(Step(s, e));
    if Inside(s, t) || Counted(s, t) {
      OtherStep(s, t, e);
      AddAndClear(s, e);
    }
  }

  lemma AddAndClear(s: State, e: Event)
    requires WaitCounts(s)
    ensures s.waitNum >= 0
    ensures e.act.Advance? && Of(s, e.t).pc.WriteAdd? ==> Step(s, e).waitNum == s.waitNum + 1
    ensures e.act.Advance? && Of(s, e.t).pc.WriteUnlockClearId? ==> Step(s, e).writeThreadId == None
  {
  }

  lemma StepStuck(s: State, e: Event, t: Tid)
    requires Inv(s) && WaitCounts(s)
    ensures Stuck(Step(s, e), t) <==> Stuck(s, t) || GetsStuck(s, e, t)
  {
    hide Inv, Step, Stuck, GetsStuck;
    if Stuck(s, t) {
      StuckStays(s, t, e);
    } else if e.t != t {
      OtherSticks(s, e, t);
    } else if !e.act.Advance? {
      OwnCallSticks(s, e);
    } else if Reading(Of(s, t).pc) {
      OwnReadSticks(s, e);
    } else {
      OwnWriteSticks(s, e);
    }
  }

  // Over a whole run a thread is stuck exactly when one of those steps was taken.
  lemma {:induction false} StuckExactly(writeFirst: bool, atomicUnlock: bool, es: seq<Event>, t: Tid)
    ensures Stuck(Run(Init(writeFirst, atomicUnlock), es), t) <==>
            exists k :: 0 <= k < |es| && GetsStuck(Run(Init(writeFirst, atomicUnlock), es[..k]), es[k], t)
  {
    hide Inv, Step, Stuck, GetsStuck;
    var s0 := Init(writeFirst, atomicUnlock);
    if es == [] {
      assert !Stuck(s0, t) by { NobodyStuck(writeFirst, atomicUnlock, t); }
    } else {
      var p, e := es[..|es| - 1], es[|es| - 1];
      StuckExactly(writeFirst, atomicUnlock, p, t);
      var s := Known(writeFirst, atomicUnlock, p);
      WaitMeaning(writeFirst, atomicUnlock, p);
      StepStuck(s, e, t);
      forall k | 0 <= k < |p| ensures p[..k] == es[..k] && p[k] == es[k] {}
      if Stuck(s, t) {
        var k :| 0 <= k < |p| && GetsStuck(Run(s0, p[..k]), p[k], t);
        assert GetsStuck(Run(s0, es[..k]), es[k], t);
      } else if Stuck(Run(s0, es), t) {
        assert es[..|p|] == p && GetsStuck(Run(s0, es[..|p|]), es[|p|], t);
      }
    }
  }

  lemma NobodyStuck(writeFirst: bool, atomicUnlock: bool, t: Tid)
    ensures !Stuck(Init(writeFirst, atomicUnlock), t)
  {
  }

  // ---------------------------------------------------------------- when a nested call returns

  predicate ReadCall(pc: Pc) {
    BeforeCas(pc) || pc.ReadCas?
  }

  predicate WriteCall(pc: Pc) {
    pc.WriteTestId? || pc.WriteNest? || pc.WriteAdd? || pc.WriteCas?
  }

  // In r the call that t is in at s has returned with the new guard.
  predicate Returned(s: State, t: Tid, r: State) {
    var l := Of(s, t);
    Of(r, t) == Local(Idle, l.guards + [if ReadCall(l.pc) then R else W])
  }

  lemma {:induction false} RunFrom(s: State, e: Event, es: seq<Event>)
    ensures Run(s, [e] + es) == Run(Step(s, e), es)
  {
    hide Step;
    if es == [] {
      assert [e] + es == [e] && [e][..0] == [];
      assert Run(s, [e]) == Step(Run(s, []), e);
    } else {
      RunFrom(s, e, es[..|es| - 1]);
      assert ([e] + es)[..|es|] == [e] + es[..|es| - 1];
    }
  }

  lemma {:induction false} RunConcat(s: State, es: seq<Event>, more: seq<Event>)
    ensures Run(s, es + more) == Run(Run(s, es), more)
  {
    hide Step;
    if more == [] {
      assert es + more == es;
    } else {
      RunConcat(s, es, more[..|more| - 1]);
      assert (es + more)[..|es + more| - 1] == es + more[..|more| - 1];
    }
  }

  // The steps of a counted reader alone until it has its nested guard.
  function EnterDistance(s: State, t: Tid): nat {
    match Of(s, t).pc
    case ReadTestId => 5
    case ReadLoad => 3
    case ReadTest(n) => if n == s.lockNum then 2 else 4
    case ReadCas(n) => if n == s.lockNum then 1 else 3
    case _ => 0
  }

  lemma ReaderCloser(s: State, t: Tid)
    requires Inv(s) && Counted(s, t) && ReadCall(Of(s, t).pc) && !Preferred(s)
    ensures var r := Step(s, Event(t, Advance(false)));
            if EnterDistance(s, t) == 1 then Returned(s, t, r)
            else && Inv(r) && Counted(r, t) && ReadCall(Of(r, t).pc) && !Preferred(r)
                 && Of(r, t).guards == Of(s, t).guards && EnterDistance(r, t) < EnterDistance(s, t)
  {
    hide Inv, Step, WriteGuards;
    var e := Event(t, Advance(false));
    CountedId(s, t);
    ReaderKnown(s, t);
    ThreadIs(s, t);
    StepInv(s, e);
    ReadMoves(s, e);
    SharedMoves(s, e);
    if EnterDistance(s, t) != 1 { LockNumStands(s, e); }
  }

  lemma LockNumStands(s: State, e: Event)
    requires e.act.Advance?
    requires BeforeCas(Of(s, e.t).pc) || (Of(s, e.t).pc.ReadCas? && s.lockNum != Of(s, e.t).pc.n)
    ensures Step(s, e).lockNum == s.lockNum
  {
    hide WriteGuards, Inner;
  }

  lemma {:induction false} ReaderEnters(s: State, t: Tid) returns (es: seq<Event>)
    requires Inv(s) && Counted(s, t) && ReadCall(Of(s, t).pc) && !Preferred(s)
    ensures Returned(s, t, Run(s, es))
    decreases EnterDistance(s, t)
  {
    hide Inv, Step, WriteGuards, Preferred;
    var e := Event(t, Advance(false));
    ReaderCloser(s, t);
    if EnterDistance(s, t) == 1 {
      es := [e] + [];
      RunFrom(s, e, []);
    } else {
      var rest := ReaderEnters(Step(s, e), t);
      es := [e] + rest;
      RunFrom(s, e, rest);
    }
  }

  // The write holder enters with its next step, or the next two, while the id is its own.
  lemma HolderEnters(s: State, t: Tid)
    requires WriteGuards(Of(s, t).guards) >= 1
    requires var pc := Of(s, t).pc;
             pc.WriteNest? || ((pc.ReadTestId? || pc.WriteTestId?) && s.writeThreadId == Some(t))
    ensures exists es: seq<Event> :: 1 <= |es| <= 2 && Returned(s, t, Run(s, es))
  {
    hide Step, WriteGuards;
    var e := Event(t, Advance(false));
    RunFrom(s, e, []);
    if Of(s, t).pc.ReadTestId? {
      ReadMoves(s, e);
    } else {
      WriteMoves(s, e);
    }
    if Of(s, t).pc.WriteTestId? {
      WriteMoves(Step(s, e), e);
      RunFrom(s, e, [e] + []);
      RunFrom(Step(s, e), e, []);
      assert Returned(s, t, Run(s, [e] + ([e] + [])));
    } else {
      assert Returned(s, t, Run(s, [e] + []));
    }
  }

  // A lock call inside a guard can return, in some continuation of the run, exactly when its thread
  // is not stuck; a nested reader that has passed the check already is the subject of LastChance.
  lemma NestedCallReturnsExactly(s: State, t: Tid)
    requires Inv(s) && Of(s, t).guards != [] && (ReadCall(Of(s, t).pc) || WriteCall(Of(s, t).pc))
    requires Counted(s, t) && Of(s, t).pc.ReadCas? ==> !Preferred(s)
    ensures (exists es :: Returned(s, t, Run(s, es))) <==> !Stuck(s, t)
  {
    hide Inv, Step, Run, WriteGuards, Preferred;
    if Stuck(s, t) {
      forall es ensures !Returned(s, t, Run(s, es)) {
        StuckForever(s, t, es);
        assert |Of(Run(s, es), t).guards| == |Of(s, t).guards|;
      }
    } else {
      NoGuards(s, t);
      if Counted(s, t) { CountedId(s, t); }
      if Counted(s, t) && ReadCall(Of(s, t).pc) {
        var es := ReaderEnters(s, t);
      } else {
        HolderEnters(s, t);
      }
    }
  }

  // For the write holder: its call can return exactly when write_thread_id_ is its own at the test.
  lemma HolderReturnsExactly(s: State, t: Tid)
    requires Inv(s) && Inside(s, t) && (Of(s, t).pc.ReadTestId? || Of(s, t).pc.WriteTestId?)
    ensures (exists es :: Returned(s, t, Run(s, es))) <==> s.writeThreadId == Some(t)
  {
    hide Inv, Step, Run, WriteGuards, Returned;
    NoGuards(s, t);
    NestedCallReturnsExactly(s, t);
  }

  // For a counted reader: its nested ReadLock can return exactly when no preferred writer waits ...
  lemma NestedReadReturnsExactly(s: State, t: Tid)
    requires Inv(s) && Counted(s, t) && BeforeCas(Of(s, t).pc)
    ensures (exists es :: Returned(s, t, Run(s, es))) <==> !(s.writeFirst && s.waitNum > 0)
  {
    hide Inv, Step, Run, WriteGuards, Returned;
    NestedCallReturnsExactly(s, t);
  }

  // ... and then it does so with its own next steps, whatever it has loaded before.
  lemma NestedReadEntersAlone(s: State, t: Tid)
    requires Inv(s) && Counted(s, t) && Of(s, t).pc.ReadLoad?
    ensures var e := Event(t, Advance(false));
            Returned(s, t, Step(Step(Step(s, e), e), e)) <==> !(s.writeFirst && s.waitNum > 0)
  {
    hide Inv, Step, WriteGuards;
    var e := Event(t, Advance(false));
    ReaderKnown(s, t);
    var s1 := Step(s, e);
    var s2 := Step(s1, e);
    ReadMoves(s, e);
    SharedMoves(s, e);
    LockNumStands(s, e);
    ReadMoves(s1, e);
    SharedMoves(s1, e);
    LockNumStands(s1, e);
    ReadMoves(s2, e);
    assert |Of(s, t).guards + [R]| != |Of(s, t).guards|;
  }

  // Past the check while a preferred writer waits, a nested reader's next try decides: it enters
  // exactly if lock_num_ is still what it loaded, and is stuck otherwise.
  lemma LastChance(s: State, t: Tid)
    requires Inv(s) && Counted(s, t) && Of(s, t).pc.ReadCas? && Preferred(s)
    ensures var r := Step(s, Event(t, Advance(false)));
            && (Returned(s, t, r) <==> s.lockNum == Of(s, t).pc.n)
            && (Stuck(r, t) <==> s.lockNum != Of(s, t).pc.n)
  {
    hide Inv, Step, WriteGuards, Preferred;
    var e := Event(t, Advance(false));
    ReadMoves(s, e);
    PreferredStays(s, t, e);
    assert |Of(s, t).guards + [R]| != |Of(s, t).guards|;
  }

  // ---------------------------------------------------------------- one step in WriteUnlock

  // With the add and the clear of WriteUnlock merged, no nested call of the holder gets stuck.
  lemma {:induction false} MergedNestedCallsReturn(writeFirst: bool, es: seq<Event>, t: Tid)
    ensures var s := Run(Init(writeFirst, true), es);
            Inside(s, t) ==> s.writeThreadId == Some(t) && !Stuck(s, t)
  {
    hide Inv, Step, Stuck, GetsStuck;
    MergedUnlockIsExact(writeFirst, es, t);
    if es == [] {
      NobodyStuck(writeFirst, true, t);
    } else {
      var p, e := es[..|es| - 1], es[|es| - 1];
      var s := Known(writeFirst, true, p);
      MergedNestedCallsReturn(writeFirst, p, t);
      MergedUnlockIsExact(writeFirst, p, t);
      WaitMeaning(writeFirst, true, p);
      StepStuck(s, e, t);
      if Stuck(Step(s, e), t) && Inside(Step(s, e), t) { MergedStepSticks(s, e, t); }
    }
  }

  // Only a thread that is in a write guard already, and without its id, would get stuck there.
  lemma MergedStepSticks(s: State, e: Event, t: Tid)
    requires Inv(s) && s.atomicUnlock && Inside(Step(s, e), t) && (Stuck(s, t) || GetsStuck(s, e, t))
    ensures Inside(s, t) && (Stuck(s, t) || s.writeThreadId != Some(t))
  {
    hide Inv, WriteGuards, Step, Preferred;
    if Stuck(s, t) {
      StuckStays(s, t, e);
    } else {
      GuardsStay(s, e, t);
      MergedClears(s, e.t);
    }
  }

  lemma GuardsStay(s: State, e: Event, t: Tid)
    requires GetsStuck(s, e, t)
    ensures Of(Step(s, e), t).guards == Of(s, t).guards
  {
    hide WriteGuards, Step, Preferred;
    if e.t != t {
      OthersStand(s, e, t);
    } else if !e.act.Advance? {
      CallMoves(s, e);
    } else {
      ReadMoves(s, e);
    }
  }

  lemma MergedClears(s: State, t: Tid)
    requires Inv(s) && s.atomicUnlock
    ensures !Of(s, t).pc.WriteUnlockClearId?
  {
    hide NestingOf, WriteGuards;
    ThreadIs(s, t);
  }

  // ---------------------------------------------------------------- it happens

  // The holder can lose its id with write guards only: thread 1 has left its write guard but not
  // yet cleared the id when thread 2 enters one. After the clear, thread 2's nested WriteLock
  // waits for thread 2's own guard to go. No read guard is involved and no count has leaked.
  lemma SelfDeadlockHappens() returns (s: State)
    ensures Reachable(s, false) && Inv(s)
    ensures Stuck(s, 2) && Inside(s, 2) && s.leaked == 0 && s.holder == Some(2)
  {
    hide Reachable;
    s := Init(true, false);
    InitReachable(false);
    s := LockForWriting(s, false, 1);
    s := Reach(s, false, 1, CallUnlock);
    s := Reach(s, false, 1, Advance(false));
    assert s == State(0, 0, Some(1), true, false, map[1 := Local(WriteUnlockClearId, [])], multiset{}, None, 0);
    s := LockForWriting(s, false, 2);
    s := Reach(s, false, 1, Advance(false));
    assert s == State(-1, 0, None, true, false, map[1 := Local(Idle, []), 2 := Local(Idle, [W])], multiset{},
           Some(2), 0);
    s := CallNested(s);
    ReachableInv(s, false);
  }

  lemma CallNested(s0: State) returns (s: State)
    requires Reachable(s0, false)
    requires s0 == State(-1, 0, None, true, false, map[1 := Local(Idle, []), 2 := Local(Idle, [W])], multiset{},
             Some(2), 0)
    ensures Reachable(s, false)
    ensures s == s0.(threads := map[1 := Local(Idle, []), 2 := Local(WriteTestId, [W])])
    ensures WriteGuards([W]) == 1
  {
    hide Reachable;
    s := Reach(s0, false, 2, CallWrite);
  }

  // A whole undisturbed ReadLock of a free lock.
  lemma LockForReading(t: Tid) returns (s: State)
    ensures Reachable(s, true)
    ensures s == State(1, 0, None, true, false, map[t := Local(Idle, [R])], multiset{t}, None, 0)
    ensures WriteGuards([R]) == 0
  {
    hide Reachable;
    InitReachable(true);
    s := Reach(Init(true, false), true, t, CallRead);
    s := Reach(s, true, t, Advance(false));
    s := Reach(s, true, t, Advance(false));
    assert s.threads == map[t := Local(ReadTest(0), [])];
    assert s == State(0, 0, None, true, false, map[t := Local(ReadTest(0), [])], multiset{}, None, 0);
    s := PassCheck(s, t);
  }

  lemma PassCheck(s0: State, t: Tid) returns (s: State)
    requires Reachable(s0, true)
    requires s0 == State(0, 0, None, true, false, map[t := Local(ReadTest(0), [])], multiset{}, None, 0)
    ensures Reachable(s, true)
    ensures s == State(1, 0, None, true, false, map[t := Local(Idle, [R])], multiset{t}, None, 0)
  {
    hide Reachable;
    s := Reach(s0, true, t, Advance(false));
    s := Reach(s, true, t, Advance(false));
    assert [] + [R] == [R];
    assert s.threads == map[t := Local(Idle, [R])];
  }

  // Both ways of getting stuck inside a counted read guard happen: calling WriteLock there, ...
  lemma UpgradeHappens() returns (s: State)
    ensures Reachable(s, true) && Inv(s) && Counted(s, 0) && Of(s, 0).pc.WriteTestId? && Stuck(s, 0)
  {
    hide Reachable;
    s := LockForReading(0);
    s := Reach(s, true, 0, CallWrite);
    ReachableInv(s, true);
  }

  // ... and calling ReadLock there after a writer has queued.
  lemma ReaderBehindWriterHappens() returns (s: State)
    ensures Reachable(s, true) && Inv(s) && Counted(s, 0) && Of(s, 0).pc.ReadTestId? && Stuck(s, 0)
    ensures Of(s, 1) == Local(WriteCas, [])
  {
    hide Reachable;
    s := LockForReading(0);
    s := WaitForWriting(s, true, 1);
    assert s == State(1, 1, None, true, false, map[0 := Local(Idle, [R]), 1 := Local(WriteCas, [])], multiset{0},
           None, 0);
    s := Reach(s, true, 0, CallRead);
    ReachableInv(s, true);
  }

  // The preferred writer that a counted reader is stuck behind waits for that reader.
  lemma WriterWaitsForReader(s: State, t: Tid) returns (w: Tid)
    requires Inv(s) && WaitCounts(s) && Counted(s, t) && Preferred(s)
    ensures Of(s, w).pc.WriteCas? && s.lockNum != RW_LOCK_FREE
  {
    hide Inv, WriteGuards, WaitCounts, Waiters;
    ReaderKnown(s, t);
    assert Waiters(s) != {} by { SomeWaiter(s); }
    w :| w in Waiters(s);
    WaiterIsQueued(s);
  }

  // Neither of them ever gets on.
  lemma {:induction false} ReaderBehindWriter(s: State, t: Tid, w: Tid, es: seq<Event>)
    requires Inv(s) && Counted(s, t) && BeforeCas(Of(s, t).pc) && Preferred(s) && Of(s, w).pc.WriteCas?
    ensures var r := Run(s, es);
            && Inv(r) && Of(r, w).pc.WriteCas? && Stuck(r, t) && Of(r, t).guards == Of(s, t).guards
  {
    hide Inv, Step, WriteGuards, Preferred;
    StuckForever(s, t, es);
    if es == [] {
    } else {
      var p, e := es[..|es| - 1], es[|es| - 1];
      ReaderBehindWriter(s, t, w, p);
      StuckForever(s, t, p);
      if e.t != w {
        OthersStand(Run(s, p), e, w);
      } else if e.act.Advance? {
        WriteMoves(Run(s, p), e);
      } else {
        CallMoves(Run(s, p), e);
      }
    }
  }

  lemma SomeWaiter(s: State)
    requires WaitCounts(s) && s.waitNum > 0
    ensures Waiters(s) != {}
  {
  }
}
