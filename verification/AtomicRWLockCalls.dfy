/**
 What a caller of the reader/writer lock gets: a call that has returned has changed the thread's
 guards by exactly what it is for, whatever ran in between, and when an undisturbed call returns.
*/
module AtomicRWLockCalls {
  import opened Common
  import opened AtomicRWLockSpec

  // ---------------------------------------------------------------- calls over any run

  // A call and the guards of its thread when it was made.
  datatype Call = NoCall | Made(act: Action, before: Local)

  predicate StartsCall(s: State, e: Event, t: Tid) {
    var l := Of(s, t);
    e.t == t && l.pc.Idle? &&
    match e.act
    case CallRead => true
    case CallWrite => true
    case ReadUnlock => l.shared > 0
    case WriteUnlock => l.writing
    case Advance(_) => false
  }

  // The last call that t has made.
  function LastCall(s0: State, es: seq<Event>, t: Tid): Call {
    if es == [] then NoCall else
    var p, e := es[..|es| - 1], es[|es| - 1];
    if StartsCall(Run(s0, p), e, t) then Made(e.act, Of(Run(s0, p), t)) else LastCall(s0, p, t)
  }

  // Where a thread can be with a call, and the guards that it is inside.
  predicate Matches(l: Local, call: Call) {
    match call
    case NoCall => l == Local(Idle, 0, false)
    case Made(act, before) =>
      match act
      case CallRead =>
        if l.pc.Idle? then l == Local(Idle, before.shared + 1, before.writing)
        else Reading(l.pc) && l.shared == before.shared && l.writing == before.writing
      case CallWrite =>
        if l.pc.Idle? then l == Local(Idle, before.shared, true)
        else !Reading(l.pc) && l.shared == before.shared && l.writing == before.writing
      case ReadUnlock => before.shared > 0 && l == Local(Idle, before.shared - 1, before.writing)
      case WriteUnlock => before.writing && l == Local(Idle, before.shared, false)
      case Advance(_) => false
  }

  lemma StepMatches(s: State, e: Event, call: Call)
    requires Matches(Of(s, e.t), call)
    ensures Matches(Of(Step(s, e), e.t), if StartsCall(s, e, e.t) then Made(e.act, Of(s, e.t)) else call)
  {
    hide Step;
    if e.act.CallRead? || e.act.CallWrite? {
      CallMoves(s, e);
    } else if !e.act.Advance? {
      UnlockMoves(s, e);
    } else if Reading(Of(s, e.t).pc) {
      ReadMoves(s, e);
    } else {
      WriteMoves(s, e);
    }
  }

  // In every run a thread that is not in a call has exactly one guard more, or less, than when it
  // made its last call: the one that this call was to enter or to leave. A thread that is in a call
  // has the guards that it had when it made it.
  lemma {:induction false} CallsChangeOneGuard(writeFirst: bool, es: seq<Event>, t: Tid)
    ensures Matches(Of(Run(Init(writeFirst), es), t), LastCall(Init(writeFirst), es, t))
  {
    hide Step;
    var s0 := Init(writeFirst);
    if es == [] {
    } else {
      hide Matches, StartsCall;
      var p, e := es[..|es| - 1], es[|es| - 1];
      CallsChangeOneGuard(writeFirst, p, t);
      if e.t == t {
        StepMatches(Run(s0, p), e, LastCall(s0, p, t));
      } else {
        OthersStand(Run(s0, p), e, t);
        OthersCall(s0, es, t);
      }
    }
  }

  lemma OthersCall(s0: State, es: seq<Event>, t: Tid)
    requires es != [] && es[|es| - 1].t != t
    ensures LastCall(s0, es, t) == LastCall(s0, es[..|es| - 1], t)
  {
  }

  // ---------------------------------------------------------------- undisturbed calls

  function Alone(s: State, t: Tid, n: nat): State
    decreases n
  {
    if n == 0 then s else Alone(Step(s, Event(t, Advance(false))), t, n - 1)
  }

  // Nothing keeps a new reader out.
  predicate Open(s: State) {
    s.lockNum >= RW_LOCK_FREE && !(s.writeFirst && s.waitNum > 0)
  }

  lemma ThreeSteps(s: State, t: Tid)
    ensures Alone(s, t, 2) == Step(Alone(s, t, 1), Event(t, Advance(false)))
    ensures Alone(s, t, 3) == Step(Alone(s, t, 2), Event(t, Advance(false)))
    ensures Alone(s, t, 1) == Step(s, Event(t, Advance(false)))
  {
    hide Step;
    var e := Event(t, Advance(false));
    assert Alone(s, t, 1) == Alone(Step(s, e), t, 0);
    assert Alone(s, t, 2) == Alone(Step(s, e), t, 1) == Alone(Step(Step(s, e), e), t, 0);
    assert Alone(s, t, 3) == Alone(Step(s, e), t, 2) == Alone(Step(Step(s, e), e), t, 1);
    assert Alone(Step(Step(s, e), e), t, 1) == Alone(Step(Step(Step(s, e), e), e), t, 0);
  }

  // An undisturbed ReadLock enters in one round exactly when no writer is inside or, if writers are
  // preferred, waiting; otherwise the round ends where it began, with the lock unchanged.
  lemma ReadLockAlone(s: State, t: Tid)
    requires Of(s, t).pc.ReadLoad?
    ensures var l := Of(s, t);
            if Open(s) then
              var r := Alone(s, t, 3);
              && Of(r, t) == Local(Idle, l.shared + 1, l.writing)
              && r.lockNum == s.lockNum + 1 && SameWait(s, r) && r.writer == s.writer
            else
              var r := Alone(s, t, 2);
              Of(r, t) == l && SameLock(s, r) && SameWait(s, r)
  {
    hide Step, Alone;
    ThreeSteps(s, t);
    var e := Event(t, Advance(false));
    ReadMoves(s, e);
    WriteFirstStays(s, e);
    ReadMoves(Alone(s, t, 1), e);
    if Open(s) { ReadMoves(Alone(s, t, 2), e); }
  }

  // An undisturbed WriteLock enters in three accesses exactly when the lock is free; otherwise it is
  // counted as waiting and tries again for ever.
  lemma WriteLockAlone(s: State, t: Tid)
    requires Of(s, t).pc.WriteAdd?
    ensures var l := Of(s, t);
            if s.lockNum == RW_LOCK_FREE then
              var r := Alone(s, t, 3);
              && Of(r, t) == Local(Idle, l.shared, true)
              && r.lockNum == WRITE_EXCLUSIVE && r.waitNum == s.waitNum && r.writer == Some(t)
            else
              forall n: nat :: 1 <= n ==>
                var r := Alone(s, t, n);
                Of(r, t) == l.(pc := WriteCas) && SameLock(s, r) && r.waitNum == s.waitNum + 1
  {
    hide Step, Alone;
    ThreeSteps(s, t);
    var e := Event(t, Advance(false));
    WriteMoves(s, e);
    if s.lockNum == RW_LOCK_FREE {
      WriteMoves(Alone(s, t, 1), e);
      WriteMoves(Alone(s, t, 2), e);
    } else {
      forall n: nat | 1 <= n
        ensures var r := Alone(s, t, n);
                Of(r, t) == Of(s, t).(pc := WriteCas) && SameLock(s, r) && r.waitNum == s.waitNum + 1
      {
        AloneFirst(s, t, n);
        WriterSpins(Step(s, e), t, n - 1);
      }
    }
  }

  lemma AloneFirst(s: State, t: Tid, n: nat)
    requires 1 <= n
    ensures Alone(s, t, n) == Alone(Step(s, Event(t, Advance(false))), t, n - 1)
  {
  }

  lemma {:induction false} WriterSpins(s: State, t: Tid, n: nat)
    requires Of(s, t).pc.WriteCas? && s.lockNum != RW_LOCK_FREE
    ensures var r := Alone(s, t, n); Of(r, t) == Of(s, t) && SameLock(s, r) && SameWait(s, r)
    decreases n
  {
    hide Step;
    if n == 0 {
    } else {
      WriteMoves(s, Event(t, Advance(false)));
      WriterSpins(Step(s, Event(t, Advance(false))), t, n - 1);
    }
  }

  // A reader with an outdated copy of lock_num_.
  function ReadDistance(s: State, t: Tid): nat {
    match Of(s, t).pc
    case ReadLoad => 3
    case ReadTest(n) => if n == s.lockNum then 2 else 4
    case ReadCas(n) => if n == s.lockNum then 1 else 3
    case _ => 0
  }

  lemma ReaderCloser(s: State, t: Tid)
    requires Reading(Of(s, t).pc) && Open(s)
    ensures var r := Step(s, Event(t, Advance(false)));
            if Of(r, t).pc.Idle? then r.lockNum == s.lockNum + 1 && Of(r, t).shared == Of(s, t).shared + 1
            else
              && Reading(Of(r, t).pc) && Open(r) && ReadDistance(r, t) < ReadDistance(s, t)
              && r.lockNum == s.lockNum && Of(r, t).shared == Of(s, t).shared
  {
    hide Step;
    var e := Event(t, Advance(false));
    ReadMoves(s, e);
    WriteFirstStays(s, e);
  }

  // From any point of ReadLock, however outdated its copy of lock_num_, an undisturbed call enters
  // after at most four accesses if nothing keeps readers out.
  lemma {:induction false} ReadEndsAlone(s: State, t: Tid) returns (n: nat)
    requires Reading(Of(s, t).pc) && Open(s)
    ensures 1 <= n <= ReadDistance(s, t) <= 4
    ensures var r := Alone(s, t, n);
            Of(r, t).pc.Idle? && Of(r, t).shared == Of(s, t).shared + 1 && r.lockNum == s.lockNum + 1
    decreases ReadDistance(s, t)
  {
    hide Step;
    var r := Step(s, Event(t, Advance(false)));
    ReaderCloser(s, t);
    if Of(r, t).pc.Idle? {
      n := 1;
      assert Alone(r, t, 0) == r;
    } else {
      var m := ReadEndsAlone(r, t);
      n := m + 1;
    }
  }

  // ---------------------------------------------------------------- unlocking

  // Unlocking takes exactly the caller's guard off the lock: the writer leaves it free for everybody,
  // a reader leaves it to the other read guards.
  lemma UnlockGivesBack(s: State, t: Tid)
    requires Inv(s) && Of(s, t).pc.Idle?
    ensures Of(s, t).writing ==>
              var r := Step(s, Event(t, WriteUnlock));
              r.lockNum == RW_LOCK_FREE && r.writer.None? && Of(r, t) == Local(Idle, 0, false) && SameWait(s, r)
    ensures Of(s, t).shared > 0 ==>
              var r := Step(s, Event(t, ReadUnlock));
              && r.lockNum == s.lockNum - 1 == |s.readers| - 1
              && Of(r, t) == Local(Idle, Of(s, t).shared - 1, false) && SameWait(s, r)
  {
    assert PcOk(s, t);
  }

  // An undisturbed lock call followed by its unlock leaves the lock as it was.
  lemma LockThenUnlock(s: State, t: Tid, write: bool)
    requires Inv(s) && Of(s, t).pc.Idle?
    requires if write then s.lockNum == RW_LOCK_FREE else Open(s)
    ensures var r := Alone(Step(s, Event(t, if write then CallWrite else CallRead)), t, 3);
            var u := Step(r, Event(t, if write then WriteUnlock else ReadUnlock));
            && Of(r, t) == Local(Idle, Of(s, t).shared + (if write then 0 else 1), write)
            && Of(u, t) == Of(s, t) && u.lockNum == s.lockNum && u.waitNum == s.waitNum && u.writer == s.writer
  {
    hide Step;
    var call := Event(t, if write then CallWrite else CallRead);
    var c := Step(s, call);
    CallMoves(s, call);
    WriteFirstStays(s, call);
    NotWriting(s, t);
    if write {
      WriteLockAlone(c, t);
      UnlockMoves(Alone(c, t, 3), Event(t, WriteUnlock));
    } else {
      ReadLockAlone(c, t);
      UnlockMoves(Alone(c, t, 3), Event(t, ReadUnlock));
    }
  }

  lemma NotWriting(s: State, t: Tid)
    requires Inv(s) && s.lockNum >= RW_LOCK_FREE
    ensures s.writer.None? && !Of(s, t).writing
  {
    assert PcOk(s, t);
  }
}
