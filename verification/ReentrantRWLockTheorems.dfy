/**
 What every run of the reentrant lock guarantees, and what it does not: exclusion always
 holds, but a read guard nested in a write guard can leave lock_num_ below zero for good.
*/
module ReentrantRWLockTheorems {
  import opened Common
  import opened ReentrantRWLockSpec

  lemma Known(writeFirst: bool, atomicUnlock: bool, es: seq<Event>) returns (s: State)
    ensures s == Run(Init(writeFirst, atomicUnlock), es) && Inv(s) && s.atomicUnlock == atomicUnlock
  {
    s := Run(Init(writeFirst, atomicUnlock), es);
    InitInv(writeFirst, atomicUnlock);
    RunInv(Init(writeFirst, atomicUnlock), es);
    ModeFixed(Init(writeFirst, atomicUnlock), es);
  }

  lemma {:induction false} ModeFixed(s: State, es: seq<Event>)
    ensures Run(s, es).atomicUnlock == s.atomicUnlock
  {
    hide Step;
    if es == [] {
    } else {
      ModeFixed(s, es[..|es| - 1]);
      StepKeepsMode(Run(s, es[..|es| - 1]), es[|es| - 1]);
    }
  }

  lemma StepKeepsMode(s: State, e: Event)
    ensures Step(s, e).atomicUnlock == s.atomicUnlock
  {
  }

  // Exclusion: a thread inside d >= 1 nested write guards keeps lock_num_ at -d or below, and no
  // other thread is inside any guard. It holds with the add and the clear of WriteUnlock apart.
  lemma NestedExclusion(writeFirst: bool, atomicUnlock: bool, es: seq<Event>, t: Tid)
    ensures var s := Run(Init(writeFirst, atomicUnlock), es);
            var d := WriteGuards(Of(s, t).guards);
            d >= 1 ==>
              && s.lockNum + d <= 0
              && forall u: Tid :: u != t ==> Of(s, u).guards == [] && !Entering(Of(s, u).pc)
  {
    hide Inv;
    var s := Known(writeFirst, atomicUnlock, es);
    if WriteGuards(Of(s, t).guards) >= 1 { InsideKnown(s, t); }
  }

  lemma InsideKnown(s: State, t: Tid)
    requires Inv(s) && WriteGuards(Of(s, t).guards) >= 1
    ensures s.holder == Some(t) && !Entering(Of(s, t).pc)
    ensures s.lockNum + WriteGuards(Of(s, t).guards) + s.leaked == 0
    ensures forall u: Tid :: u != t ==> Of(s, u).guards == [] && !Entering(Of(s, u).pc)
  {
    hide Inv, WriteGuards, NestingOf;
    ThreadKnown(s, t);
    NestingKnown(Of(s, t).guards);
    forall u: Tid | u != t ensures Of(s, u).guards == [] && !Entering(Of(s, u).pc) {
      ThreadKnown(s, u);
      NestingKnown(Of(s, u).guards);
    }
  }

  // The exact law: lock_num_ is the counted readers, minus the holder's nested write guards,
  // minus the leaked counts.
  lemma ExactCount(writeFirst: bool, atomicUnlock: bool, es: seq<Event>)
    ensures var s := Run(Init(writeFirst, atomicUnlock), es);
            && s.lockNum == |s.readers| - HolderDepth(s) - s.leaked
            && (s.holder.Some? || s.leaked > 0 ==> s.readers == multiset{})
            && (forall t: Tid :: WriteGuards(Of(s, t).guards) == 0 ==> s.readers[t] == |Of(s, t).guards|)
  {
    var s := Known(writeFirst, atomicUnlock, es);
    forall t: Tid | WriteGuards(Of(s, t).guards) == 0 ensures s.readers[t] == |Of(s, t).guards| {
      assert ThreadOk(s, t);
      NestingKnown(Of(s, t).guards);
    }
  }

  // Once every guard is gone the lock is free again exactly when nothing leaked.
  lemma FreeAgainIffNoLeak(writeFirst: bool, atomicUnlock: bool, es: seq<Event>)
    ensures var s := Run(Init(writeFirst, atomicUnlock), es);
            (forall t: Tid :: Of(s, t).guards == [] && !Entering(Of(s, t).pc)) ==>
              (s.lockNum == RW_LOCK_FREE <==> s.leaked == 0)
  {
    var s := Known(writeFirst, atomicUnlock, es);
    if forall t: Tid :: Of(s, t).guards == [] && !Entering(Of(s, t).pc) {
      if s.holder.Some? { HolderIsInside(s); }
      forall t: Tid ensures s.readers[t] == 0 { assert ThreadOk(s, t); }
      assert s.readers == multiset{};
    }
  }

  lemma HolderIsInside(s: State)
    requires Inv(s) && s.holder.Some?
    ensures var l := Of(s, s.holder.value); l.guards != [] || Entering(l.pc)
  {
    assert ThreadOk(s, s.holder.value);
  }

  predicate Leaks(s: State, e: Event) {
    e.act.Advance? && Of(s, e.t).pc.ReadUnlockSub? && s.holder == Some(e.t)
  }

  lemma StepLeaks(s: State, e: Event)
    ensures Step(s, e).leaked == s.leaked + if Leaks(s, e) then 1 else 0
  {
  }

  // A leak happens in one place only: the write holder reaches the fetch_sub of ReadUnlock,
  // because write_thread_id_ was not its own when it tested it.
  lemma LeakIsThatFetchSub(s: State, e: Event)
    requires Inv(s)
    ensures Step(s, e).leaked == s.leaked + if Leaks(s, e) then 1 else 0
    ensures Leaks(s, e) ==> s.writeThreadId == None && WriteGuards(Of(s, e.t).guards) >= 1
  {
    hide WriteGuards, NestingOf, Step, Inv;
    StepLeaks(s, e);
    ThreadKnown(s, e.t);
    NestingKnown(Of(s, e.t).guards);
  }

  // Nothing leaked exactly when no such step was taken in the whole run.
  lemma {:induction false} LeakedExactly(writeFirst: bool, atomicUnlock: bool, es: seq<Event>)
    ensures Run(Init(writeFirst, atomicUnlock), es).leaked == 0 <==>
            forall k :: 0 <= k < |es| ==> !Leaks(Run(Init(writeFirst, atomicUnlock), es[..k]), es[k])
  {
    hide Inv, Step, Leaks;
    var s0 := Init(writeFirst, atomicUnlock);
    if es == [] {
    } else {
      var p := es[..|es| - 1];
      LeakedExactly(writeFirst, atomicUnlock, p);
      var s := Known(writeFirst, atomicUnlock, p);
      StepLeaks(s, es[|es| - 1]);
      forall k | 0 <= k < |p| ensures p[..k] == es[..k] && p[k] == es[k] {}
    }
  }

  // ---------------------------------------------------------------- a discipline that is enough

  predicate Reading(pc: Pc) {
    pc.ReadTestId? || pc.ReadLoad? || pc.ReadTest? || pc.ReadCas? || pc.ReadUnlockTestId? || pc.ReadUnlockSub?
  }

  // A thread inside a write guard is inside write guards only and not about to read.
  predicate WritesOnly(l: Local) {
    WriteGuards(l.guards) >= 1 ==> R !in l.guards && !Reading(l.pc)
  }

  // A read guard is constructed inside a write guard.
  predicate NestsRead(s: State, e: Event) {
    e.act.CallRead? && WriteGuards(Of(s, e.t).guards) >= 1
  }

  lemma GuardMoves(gs: seq<Guard>)
    requires !NestingOf(gs).Mixed?
    ensures WriteGuards(gs + [R]) == WriteGuards(gs) && (R !in gs ==> R !in gs + [W])
    ensures WriteGuards(Inner(gs)) <= WriteGuards(gs) && (R !in gs ==> R !in Inner(gs))
    ensures gs == [] ==> WriteGuards(gs) == 0
    ensures NestingOf(gs).Outside? ==> gs == []
    ensures NestingOf(gs).UnderWrite? ==> WriteGuards(gs) >= 1
    ensures InnermostIs(gs, R) ==> R in gs
  {
    NestingKnown(gs);
    Push(gs, R);
    if gs != [] { Pop(gs); }
  }

  lemma ReadsWriteOnly(s: State, e: Event)
    requires LocalOk(Of(s, e.t)) && WritesOnly(Of(s, e.t)) && e.act.Advance? && Reading(Of(s, e.t).pc)
    ensures WritesOnly(Of(Step(s, e), e.t))
  {
    hide WriteGuards, NestingOf;
    GuardMoves(Of(s, e.t).guards);
    assert WriteGuards(Of(s, e.t).guards) == 0;
  }

  lemma WritesWriteOnly(s: State, e: Event)
    requires LocalOk(Of(s, e.t)) && WritesOnly(Of(s, e.t)) && e.act.Advance? && !Reading(Of(s, e.t).pc)
    requires Of(s, e.t).pc.WriteNest? ==> NestingOf(Of(s, e.t).guards).UnderWrite?
    ensures WritesOnly(Of(Step(s, e), e.t))
  {
    hide WriteGuards, NestingOf;
    GuardMoves(Of(s, e.t).guards);
  }

  lemma StepWritesOnly(s: State, e: Event)
    requires Inv(s) && WritesOnly(Of(s, e.t)) && !NestsRead(s, e)
    ensures WritesOnly(Of(Step(s, e), e.t))
  {
    hide Inv, WriteGuards, NestingOf;
    ThreadIs(s, e.t);
    GuardMoves(Of(s, e.t).guards);
    if e.act.Advance? {
      hide Step;
      if Reading(Of(s, e.t).pc) { ReadsWriteOnly(s, e); } else { WritesWriteOnly(s, e); }
    }
  }

  lemma ThreadIs(s: State, t: Tid)
    requires Inv(s)
    ensures ThreadOk(s, t)
  {
  }

  // If no read guard is ever constructed inside a write guard, nothing leaks.
  lemma {:induction false} WithoutNestedReads(writeFirst: bool, atomicUnlock: bool, es: seq<Event>)
    requires forall k :: 0 <= k < |es| ==> !NestsRead(Run(Init(writeFirst, atomicUnlock), es[..k]), es[k])
    ensures var s := Run(Init(writeFirst, atomicUnlock), es);
            s.leaked == 0 && forall t: Tid :: WritesOnly(Of(s, t))
  {
    hide Inv, WritesOnly, NestsRead, Step;
    if es == [] {
      NobodyWrites(writeFirst, atomicUnlock);
    } else {
      var p, e := es[..|es| - 1], es[|es| - 1];
      forall k | 0 <= k < |p| ensures p[..k] == es[..k] && p[k] == es[k] {}
      WithoutNestedReads(writeFirst, atomicUnlock, p);
      var s := Known(writeFirst, atomicUnlock, p);
      StepWritesOnly(s, e);
      WritesOnlyNoLeak(s, e);
      forall t: Tid ensures WritesOnly(Of(Step(s, e), t)) {
        if t != e.t { OthersStand(s, e, t); }
      }
    }
  }

  // Under that discipline the lock is free again whenever every guard is gone.
  lemma FreeAgainWithoutNestedReads(writeFirst: bool, atomicUnlock: bool, es: seq<Event>)
    requires forall k :: 0 <= k < |es| ==> !NestsRead(Run(Init(writeFirst, atomicUnlock), es[..k]), es[k])
    ensures var s := Run(Init(writeFirst, atomicUnlock), es);
            (forall t: Tid :: Of(s, t).guards == [] && !Entering(Of(s, t).pc)) ==> s.lockNum == RW_LOCK_FREE
  {
    hide Step;
    WithoutNestedReads(writeFirst, atomicUnlock, es);
    FreeAgainIffNoLeak(writeFirst, atomicUnlock, es);
  }

  lemma NobodyWrites(writeFirst: bool, atomicUnlock: bool)
    ensures forall t: Tid :: WritesOnly(Of(Init(writeFirst, atomicUnlock), t))
  {
  }

  lemma OthersStand(s: State, e: Event, t: Tid)
    requires t != e.t
    ensures Of(Step(s, e), t) == Of(s, t)
  {
    if e.act.Advance? {
      hide Step;
      if Reading(Of(s, e.t).pc) { OthersStandReading(s, e, t); } else { OthersStandWriting(s, e, t); }
    }
  }

  lemma OthersStandReading(s: State, e: Event, t: Tid)
    requires t != e.t && e.act.Advance? && Reading(Of(s, e.t).pc)
    ensures Of(Step(s, e), t) == Of(s, t)
  {
    hide WriteGuards, Inner;
  }

  lemma OthersStandWriting(s: State, e: Event, t: Tid)
    requires t != e.t && e.act.Advance? && !Reading(Of(s, e.t).pc)
    ensures Of(Step(s, e), t) == Of(s, t)
  {
    hide WriteGuards, Inner;
  }

  lemma WritesOnlyNoLeak(s: State, e: Event)
    requires Inv(s) && WritesOnly(Of(s, e.t))
    ensures Step(s, e).leaked == s.leaked
  {
    LeakIsThatFetchSub(s, e);
  }

  // With the add and the clear merged nothing leaks: lock_num_ is exactly -d, the id names the
  // holder once its WriteLock has returned, and leaving the outermost guard frees the lock.
  lemma MergedUnlockIsExact(writeFirst: bool, es: seq<Event>, t: Tid)
    ensures var s := Run(Init(writeFirst, true), es);
            var d := WriteGuards(Of(s, t).guards);
            && s.leaked == 0
            && (d >= 1 ==> s.lockNum + d == 0 && s.writeThreadId == Some(t))
            && (s.holder.None? ==> s.lockNum == |s.readers| && s.writeThreadId == None)
  {
    var s := Known(writeFirst, true, es);
    if WriteGuards(Of(s, t).guards) >= 1 {
      InsideKnown(s, t);
      assert ThreadOk(s, t);
    }
  }

  // With the merged step, leaving the outermost write guard restores 0 and clears the id.
  lemma OutermostUnlockFrees(s: State, t: Tid, spurious: bool)
    requires Inv(s) && s.atomicUnlock && Of(s, t).pc.WriteUnlockAdd? && WriteGuards(Inner(Of(s, t).guards)) == 0
    ensures var r := Step(s, Event(t, Advance(spurious)));
            r.lockNum == RW_LOCK_FREE && r.writeThreadId == None && r.holder == None && Of(r, t).guards == []
  {
    hide WriteGuards, NestingOf, Inv;
    MergedNeverLeaks(s);
    ThreadKnown(s, t);
    NestingKnown(Of(s, t).guards);
    InsideKnown(s, t);
    Pop(Of(s, t).guards);
  }

  lemma MergedNeverLeaks(s: State)
    requires Inv(s) && s.atomicUnlock
    ensures s.leaked == 0
  {
  }

  // After a leak, once the holder has left, the lock is lost: no Lock call ever returns again.
  lemma {:induction false} LostForever(s: State, es: seq<Event>)
    requires Inv(s) && s.leaked > 0 && s.holder.None?
    ensures var r := Run(s, es);
            && Inv(r) && r.holder.None? && r.leaked == s.leaked && r.lockNum == s.lockNum < RW_LOCK_FREE
            && forall t: Tid :: Of(r, t).guards == []
  {
    hide Inv;
    if es == [] {
    } else {
      LostForever(s, es[..|es| - 1]);
      var r := Run(s, es[..|es| - 1]);
      StepInv(r, es[|es| - 1]);
      LostStep(r, es[|es| - 1]);
    }
    NobodyInside(Run(s, es));
    NobodyInside(s);
  }

  lemma LostStep(s: State, e: Event)
    requires Inv(s) && s.leaked > 0 && s.holder.None? && s.lockNum < RW_LOCK_FREE
    requires Of(s, e.t).guards == []
    ensures var r := Step(s, e); r.holder.None? && r.leaked == s.leaked && r.lockNum == s.lockNum
  {
    assert ThreadOk(s, e.t);
  }

  lemma NobodyInside(s: State)
    requires Inv(s) && s.leaked > 0 && s.holder.None?
    ensures s.lockNum < RW_LOCK_FREE && forall t: Tid :: Of(s, t).guards == []
  {
    hide NestingOf, WriteGuards;
    forall t: Tid ensures Of(s, t).guards == [] {
      assert ThreadOk(s, t);
      NestingKnown(Of(s, t).guards);
    }
  }

  // Reachable, if need be without ever constructing a read guard.
  ghost predicate Reachable(s: State, mayRead: bool) {
    exists es: seq<Event> ::
      Run(Init(true, false), es) == s && (mayRead || forall i :: 0 <= i < |es| ==> !es[i].act.CallRead?)
  }

  lemma Reach(s: State, mayRead: bool, t: Tid, act: Action) returns (r: State)
    requires Reachable(s, mayRead) && (mayRead || !act.CallRead?)
    ensures r == Step(s, Event(t, act)) && Reachable(r, mayRead)
  {
    hide Step;
    r := Step(s, Event(t, act));
    var es: seq<Event> :|
      Run(Init(true, false), es) == s && (mayRead || forall i :: 0 <= i < |es| ==> !es[i].act.CallRead?);
    var more := es + [Event(t, act)];
    assert more[..|es|] == es;
    assert Run(Init(true, false), more) == r;
  }

  // A whole undisturbed WriteLock of a free lock.
  lemma LockForWriting(s: State, mayRead: bool, t: Tid) returns (r: State)
    requires Reachable(s, mayRead) && Of(s, t) == Local(Idle, []) && s.lockNum == RW_LOCK_FREE &&
             s.writeThreadId != Some(t)
    ensures Reachable(r, mayRead)
    ensures r == s.(lockNum := -1, writeThreadId := Some(t), threads := s.threads[t := Local(Idle, [W])],
            holder := Some(t))
  {
    hide Reachable, Step;
    r := WaitForWriting(s, mayRead, t);
    r := TakeForWriting(r, mayRead, t);
    assert s.threads[t := Local(WriteCas, [])][t := Local(Idle, [W])] == s.threads[t := Local(Idle, [W])];
  }

  lemma WaitForWriting(s: State, mayRead: bool, t: Tid) returns (r: State)
    requires Reachable(s, mayRead) && Of(s, t) == Local(Idle, []) && s.writeThreadId != Some(t)
    ensures Reachable(r, mayRead)
    ensures r == s.(waitNum := s.waitNum + 1, threads := s.threads[t := Local(WriteCas, [])])
  {
    hide Reachable;
    r := Reach(s, mayRead, t, CallWrite);
    r := Reach(r, mayRead, t, Advance(false));
    r := Reach(r, mayRead, t, Advance(false));
    assert r.threads == s.threads[t := Local(WriteCas, [])];
  }

  lemma TakeForWriting(s: State, mayRead: bool, t: Tid) returns (r: State)
    requires Reachable(s, mayRead) && Of(s, t) == Local(WriteCas, []) && s.lockNum == RW_LOCK_FREE
    ensures Reachable(r, mayRead)
    ensures r == s.(lockNum := -1, waitNum := s.waitNum - 1, writeThreadId := Some(t),
                    threads := s.threads[t := Local(Idle, [W])], holder := Some(t))
  {
    hide Reachable;
    r := Reach(s, mayRead, t, Advance(false));
    r := Reach(r, mayRead, t, Advance(false));
    r := Reach(r, mayRead, t, Advance(false));
    assert [] + [W] == [W];
    assert r.threads == s.threads[t := Local(Idle, [W])];
  }

  // The loss is reachable: thread 1 has left its write guard but not yet cleared the id when
  // thread 2 enters a write guard and a read guard nested in it. Thread 1's clear then erases
  // thread 2's id, thread 2's ReadUnlock takes one count too many, and its WriteUnlock leaves -1.
  lemma LossHappens() returns (s: State)
    ensures Reachable(s, true) && Inv(s)
    ensures s.leaked == 1 && s.holder.None? && s.lockNum == WRITE_EXCLUSIVE
    ensures forall t: Tid :: Of(s, t) == Local(Idle, [])
  {
    hide Reachable;
    s := Init(true, false);
    InitReachable(true);
    s := LockForWriting(s, true, 1);
    s := Reach(s, true, 1, CallUnlock);
    s := Reach(s, true, 1, Advance(false));
    assert s == State(0, 0, Some(1), true, false, map[1 := Local(WriteUnlockClearId, [])], multiset{}, None, 0);
    s := LockForWriting(s, true, 2);
    assert s == State(-1, 0, Some(2), true, false, map[1 := Local(WriteUnlockClearId, []), 2 := Local(Idle, [W])],
                      multiset{}, Some(2), 0);
    s := Reach(s, true, 2, CallRead);
    s := Reach(s, true, 2, Advance(false));
    s := Reach(s, true, 1, Advance(false));
    assert [W] + [R] == [W, R];
    assert s == State(-1, 0, None, true, false, map[1 := Local(Idle, []), 2 := Local(Idle, [W, R])], multiset{},
           Some(2), 0);
    s := LeaveNested(s);
    ReachableInv(s, true);
  }

  lemma LeaveNested(s0: State) returns (s: State)
    requires Reachable(s0, true)
    requires s0 == State(-1, 0, None, true, false, map[1 := Local(Idle, []), 2 := Local(Idle, [W, R])], multiset{},
             Some(2), 0)
    ensures Reachable(s, true)
    ensures s == State(-1, 0, None, true, false, map[1 := Local(Idle, []), 2 := Local(Idle, [])], multiset{}, None, 1)
  {
    hide Reachable;
    s := Reach(s0, true, 2, CallUnlock);
    s := Reach(s, true, 2, Advance(false));
    s := Reach(s, true, 2, Advance(false));
    assert Inner([W, R]) == [W] && Inner([W]) == [];
    assert s == State(-2, 0, None, true, false, map[1 := Local(Idle, []), 2 := Local(Idle, [W])], multiset{},
           Some(2), 1);
    s := Reach(s, true, 2, CallUnlock);
    s := Reach(s, true, 2, Advance(false));
  }

  lemma InitReachable(mayRead: bool)
    ensures Reachable(Init(true, false), mayRead)
  {
    assert Run(Init(true, false), []) == Init(true, false);
  }

  lemma ReachableInv(s: State, mayRead: bool)
    requires Reachable(s, mayRead)
    ensures Inv(s)
  {
    var es: seq<Event> :| Run(Init(true, false), es) == s;
    InitInv(true, false);
    RunInv(Init(true, false), es);
  }
}
