/**
 Guards inside guards of the reader/writer lock, which is not reentrant: when a lock call of a
 thread inside a guard returns, how it comes about that it cannot, and that it then never will.
*/
module AtomicRWLockNesting {
  import opened Common
  import opened AtomicRWLockSpec

  // Some writer waits on a write-first lock, so that no reader passes the check.
  predicate Preferred(s: State) {
    s.writeFirst && s.waitNum > 0
  }

  predicate InCall(pc: Pc) {
    Reading(pc) || pc.WriteAdd? || pc.WriteCas?
  }

  predicate HasGuard(l: Local) {
    l.writing || l.shared > 0
  }

  // In a lock call inside a guard that cannot return any more.
  predicate Stuck(s: State, t: Tid) {
    var l := Of(s, t);
    || (l.writing && InCall(l.pc))
    || (l.shared > 0 && (l.pc.WriteAdd? || l.pc.WriteCas?))
    || (l.shared > 0 && (l.pc.ReadLoad? || l.pc.ReadTest?) && Preferred(s))
  }

  // What the lock shows to a thread inside a guard.
  lemma GuardKnown(s: State, t: Tid)
    requires Inv(s) && HasGuard(Of(s, t))
    ensures Of(s, t).writing ==> s.lockNum == WRITE_EXCLUSIVE && Of(s, t).shared == 0
    ensures Of(s, t).shared > 0 ==> s.lockNum > RW_LOCK_FREE
    ensures Of(s, t).pc.ReadCas? ==> Of(s, t).pc.n >= 0
    ensures !Of(s, t).pc.WriteSub?
    ensures forall u: Tid :: u != t ==> !Of(s, u).writing && !Of(s, u).pc.WriteSub?
  {
    assert PcOk(s, t);
    if Of(s, t).shared > 0 { assert t in s.readers; }
    forall u: Tid | u != t ensures !Of(s, u).writing && !Of(s, u).pc.WriteSub? {
      assert PcOk(s, u);
    }
  }

  // A preferred writer keeps waiting while a read guard is held.
  lemma PreferredStays(s: State, t: Tid, e: Event)
    requires Inv(s) && Of(s, t).shared > 0 && Preferred(s)
    ensures Preferred(Step(s, e))
  {
    hide Inv, Step;
    GuardKnown(s, t);
    WaitMoves(s, e);
    WriteFirstStays(s, e);
  }

  lemma StuckStays(s: State, t: Tid, e: Event)
    requires Inv(s) && Stuck(s, t)
    ensures Stuck(Step(s, e), t)
    ensures Of(Step(s, e), t).shared == Of(s, t).shared && Of(Step(s, e), t).writing == Of(s, t).writing
  {
    hide Inv, Step;
    GuardKnown(s, t);
    if Of(s, t).shared > 0 && Preferred(s) { PreferredStays(s, t, e); }
    if e.t != t {
      OthersStand(s, e, t);
    } else if e.act.CallRead? || e.act.CallWrite? {
      CallMoves(s, e);
    } else if !e.act.Advance? {
      UnlockMoves(s, e);
    } else if Reading(Of(s, t).pc) {
      ReadMoves(s, e);
    } else {
      WriteMoves(s, e);
    }
  }

  // Once stuck, a call never returns, whatever the other threads do, and no writer gets the lock.
  lemma {:induction false} StuckForever(s: State, t: Tid, es: seq<Event>)
    requires Inv(s) && Stuck(s, t)
    ensures var r := Run(s, es);
            && Inv(r) && Stuck(r, t)
            && Of(r, t).shared == Of(s, t).shared && Of(r, t).writing == Of(s, t).writing
            && r.lockNum != RW_LOCK_FREE && forall u: Tid :: u != t ==> !Of(r, u).writing
  {
    hide Inv, Step, Stuck;
    if es == [] {
    } else {
      var p, e := es[..|es| - 1], es[|es| - 1];
      StuckForever(s, t, p);
      StepInv(Run(s, p), e);
      StuckStays(Run(s, p), t, e);
    }
    StuckHasGuard(Run(s, es), t);
    GuardKnown(Run(s, es), t);
  }

  lemma StuckHasGuard(s: State, t: Tid)
    requires Stuck(s, t)
    ensures HasGuard(Of(s, t)) && InCall(Of(s, t).pc)
  {
  }

  // ---------------------------------------------------------------- how a thread gets stuck

  // The steps that make thread t stuck. Its own: any call inside a write guard, a WriteLock inside
  // a read guard, a ReadLock there while a preferred writer waits, or a CAS that fails then.
  // Those of others: a writer queues while t is in front of the check of a nested ReadLock.
  predicate GetsStuck(s: State, e: Event, t: Tid) {
    var l := Of(s, t);
    if e.t == t then
      || (l.pc.Idle? && l.writing && (e.act.CallRead? || e.act.CallWrite?))
      || (l.pc.Idle? && l.shared > 0 && e.act.CallWrite?)
      || (l.pc.Idle? && l.shared > 0 && e.act.CallRead? && Preferred(s))
      || (l.pc.ReadCas? && l.shared > 0 && e.act.Advance? && (e.act.spurious || s.lockNum != l.pc.n) && Preferred(s))
    else
      l.shared > 0 && (l.pc.ReadLoad? || l.pc.ReadTest?) && s.writeFirst && e.act.Advance? && Of(s, e.t).pc.WriteAdd?
  }

  lemma OwnSticks(s: State, e: Event)
    requires Inv(s) && !Stuck(s, e.t)
    ensures Stuck(Step(s, e), e.t) <==> GetsStuck(s, e, e.t)
  {
    hide Inv, Step;
    WriteFirstStays(s, e);
    if HasGuard(Of(s, e.t)) { GuardKnown(s, e.t); }
    if e.act.CallRead? || e.act.CallWrite? {
      CallMoves(s, e);
    } else if !e.act.Advance? {
      UnlockMoves(s, e);
    } else if Reading(Of(s, e.t).pc) {
      ReadMoves(s, e);
    } else {
      WriteMoves(s, e);
    }
  }

  lemma OtherSticks(s: State, e: Event, t: Tid)
    requires Inv(s) && !Stuck(s, t) && e.t != t
    ensures Stuck(Step(s, e), t) <==> GetsStuck(s, e, t)
  {
    hide Step;
    OthersStand(s, e, t);
    WaitMoves(s, e);
    WriteFirstStays(s, e);
    if e.act.Advance? && Of(s, e.t).pc.WriteAdd? { WriteMoves(s, e); }
  }

  // Over a whole run a thread is stuck exactly when one of those steps was taken.
  lemma {:induction false} StuckExactly(writeFirst: bool, es: seq<Event>, t: Tid)
    ensures Stuck(Run(Init(writeFirst), es), t) <==>
            exists k :: 0 <= k < |es| && GetsStuck(Run(Init(writeFirst), es[..k]), es[k], t)
  {
    hide Inv, Step, Stuck, GetsStuck;
    var s0 := Init(writeFirst);
    if es == [] {
      assert !Stuck(s0, t) by { NobodyStuck(writeFirst, t); }
    } else {
      var p, e := es[..|es| - 1], es[|es| - 1];
      StuckExactly(writeFirst, p, t);
      var s := Run(s0, p);
      InitInv(writeFirst);
      RunInv(s0, p);
      forall k | 0 <= k < |p| ensures p[..k] == es[..k] && p[k] == es[k] {}
      if Stuck(s, t) {
        StuckStays(s, t, e);
        var k :| 0 <= k < |p| && GetsStuck(Run(s0, p[..k]), p[k], t);
        assert GetsStuck(Run(s0, es[..k]), es[k], t);
      } else {
        if e.t == t { OwnSticks(s, e); } else { OtherSticks(s, e, t); }
        assert es[..|p|] == p;
      }
    }
  }

  lemma InitInv(writeFirst: bool)
    ensures Inv(Init(writeFirst))
  {
  }

  lemma NobodyStuck(writeFirst: bool, t: Tid)
    ensures !Stuck(Init(writeFirst), t)
  {
  }

  // ---------------------------------------------------------------- when a nested call returns

  // In r the call that t is in at s has returned with the new guard.
  predicate Returned(s: State, t: Tid, r: State) {
    var l := Of(s, t);
    Of(r, t) == if Reading(l.pc) then Local(Idle, l.shared + 1, l.writing) else Local(Idle, l.shared, true)
  }

  // The steps of a reader alone until it has its nested guard.
  function EnterDistance(s: State, t: Tid): nat {
    match Of(s, t).pc
    case ReadLoad => 3
    case ReadTest(n) => if n == s.lockNum then 2 else 4
    case ReadCas(n) => if n == s.lockNum then 1 else 3
    case _ => 0
  }

  lemma ReaderCloser(s: State, t: Tid)
    requires Inv(s) && Of(s, t).shared > 0 && Reading(Of(s, t).pc) && !Preferred(s)
    ensures var r := Step(s, Event(t, Advance(false)));
            if EnterDistance(s, t) == 1 then Returned(s, t, r)
            else && Inv(r) && Reading(Of(r, t).pc) && !Preferred(r)
                 && Of(r, t) == Of(s, t).(pc := Of(r, t).pc) && EnterDistance(r, t) < EnterDistance(s, t)
  {
    hide Inv, Step;
    var e := Event(t, Advance(false));
    GuardKnown(s, t);
    StepInv(s, e);
    ReadMoves(s, e);
    WriteFirstStays(s, e);
  }

  lemma {:induction false} RunFrom(s: State, e: Event, es: seq<Event>)
    ensures Run(s, [e] + es) == Run(Step(s, e), es)
  {
    hide Step;
    if es == [] {
      assert [e] + es == [e] && [e][..0] == [];
      assert Run(s, [e]) == Step(Run(s, []), e);
    } else {
      RunFrom(s, e, es[..|es| - 1]);
      assert ([e] + es)[..|es|] == [e] + es[..|es| - 1];
    }
  }

  lemma {:induction false} ReaderEnters(s: State, t: Tid) returns (es: seq<Event>)
    requires Inv(s) && Of(s, t).shared > 0 && Reading(Of(s, t).pc) && !Preferred(s)
    ensures Returned(s, t, Run(s, es))
    decreases EnterDistance(s, t)
  {
    hide Inv, Step, Preferred;
    var e := Event(t, Advance(false));
    ReaderCloser(s, t);
    if EnterDistance(s, t) == 1 {
      es := [e] + [];
      RunFrom(s, e, []);
    } else {
      var rest := ReaderEnters(Step(s, e), t);
      es := [e] + rest;
      RunFrom(s, e, rest);
    }
  }

  // A lock call inside a guard can return, in some continuation of the run, exactly when its thread
  // is not stuck; a nested reader that has passed the check already is the subject of LastChance.
  lemma NestedCallReturnsExactly(s: State, t: Tid)
    requires Inv(s) && HasGuard(Of(s, t)) && InCall(Of(s, t).pc)
    requires Of(s, t).shared > 0 && Of(s, t).pc.ReadCas? ==> !Preferred(s)
    ensures (exists es :: Returned(s, t, Run(s, es))) <==> !Stuck(s, t)
  {
    hide Inv, Step, Run, Preferred;
    if Stuck(s, t) {
      forall es ensures !Returned(s, t, Run(s, es)) {
        StuckForever(s, t, es);
        StuckHasGuard(Run(s, es), t);
      }
    } else {
      var es := ReaderEnters(s, t);
    }
  }

  // For a thread inside a read guard: its ReadLock can return exactly when no preferred writer waits.
  lemma NestedReadReturnsExactly(s: State, t: Tid)
    requires Inv(s) && Of(s, t).shared > 0 && (Of(s, t).pc.ReadLoad? || Of(s, t).pc.ReadTest?)
    ensures (exists es :: Returned(s, t, Run(s, es))) <==> !(s.writeFirst && s.waitNum > 0)
  {
    hide Inv, Step, Run, Returned;
    GuardKnown(s, t);
    NestedCallReturnsExactly(s, t);
  }

  // Past the check while a preferred writer waits, a nested reader's next try decides: it enters
  // exactly if lock_num_ is still what it loaded, and is stuck otherwise.
  lemma LastChance(s: State, t: Tid)
    requires Inv(s) && Of(s, t).shared > 0 && Of(s, t).pc.ReadCas? && Preferred(s)
    ensures var r := Step(s, Event(t, Advance(false)));
            && (Returned(s, t, r) <==> s.lockNum == Of(s, t).pc.n)
            && (Stuck(r, t) <==> s.lockNum != Of(s, t).pc.n)
  {
    hide Inv, Step;
    var e := Event(t, Advance(false));
    GuardKnown(s, t);
    ReadMoves(s, e);
    PreferredStays(s, t, e);
  }

  ghost predicate Reachable(s: State) {
    exists es :: Run(Init(true), es) == s
  }

  lemma Reach(s: State, t: Tid, act: Action) returns (r: State)
    requires Reachable(s)
    ensures r == Step(s, Event(t, act)) && Reachable(r)
  {
    hide Step;
    r := Step(s, Event(t, act));
    var es :| Run(Init(true), es) == s;
    assert (es + [Event(t, act)])[..|es|] == es;
    assert Run(Init(true), es + [Event(t, act)]) == r;
  }

  lemma ReachableInv(s: State)
    requires Reachable(s)
    ensures Inv(s)
  {
    var es :| Run(Init(true), es) == s;
    InitInv(true);
    RunInv(Init(true), es);
  }

  lemma InitReachable()
    ensures Reachable(Init(true))
  {
    assert Run(Init(true), []) == Init(true);
  }

  // It happens on a lock that prefers writers: thread 0 reads, thread 1 queues, thread 0 reads again.
  lemma ReaderBehindWriterHappens() returns (s: State)
    ensures Reachable(s) && Inv(s) && Stuck(s, 0)
    ensures Of(s, 0) == Local(ReadLoad, 1, false) && Of(s, 1) == Local(WriteCas, 0, false)
  {
    hide Reachable, Inv;
    InitReachable();
    s := Reach(Init(true), 0, CallRead);
    s := Reach(s, 0, Advance(false));
    assert s == State(0, 0, true, map[0 := Local(ReadTest(0), 0, false)], multiset{}, None, {});
    s := Reach(s, 0, Advance(false));
    s := Reach(s, 0, Advance(false));
    assert s == State(1, 0, true, map[0 := Local(Idle, 1, false)], multiset{0}, None, {});
    s := Reach(s, 1, CallWrite);
    s := Reach(s, 1, Advance(false));
    assert s == State(1, 1, true, map[0 := Local(Idle, 1, false), 1 := Local(WriteCas, 0, false)], multiset{0},
           None, {1});
    s := Reach(s, 0, CallRead);
    ReachableInv(s);
  }
}
