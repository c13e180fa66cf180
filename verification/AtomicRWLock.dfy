/**
 The reader/writer lock of cyber/base/atomic_rw_lock.h, one atomic access per step, for any
 number of threads that use it through guards (a thread unlocks only what it locked). A thread
 may construct a guard while it is inside another one.

 `readers`, `writer` and `waiters` are history: the read guards by thread, the thread inside a
 write guard, and the writers between their fetch_add and their fetch_sub.
*/
module AtomicRWLockSpec {
  import opened Common

  const RW_LOCK_FREE := 0
  const WRITE_EXCLUSIVE := -1

  // What a thread does next; `n` is its copy of lock_num_.
  datatype Pc =
    | Idle
    | ReadLoad
    | ReadTest(n: int)
    | ReadCas(n: int)
    | WriteAdd
    | WriteCas
    | WriteSub

  // A thread: where it is, how many read guards it is inside, and whether it is inside a write guard.
  datatype Local = Local(pc: Pc, shared: nat, writing: bool)

  datatype State = State(
    lockNum: int, waitNum: int, writeFirst: bool, threads: map<Tid, Local>,
    readers: multiset<Tid>, writer: Option<Tid>, waiters: set<Tid>)

  datatype Action = CallRead | CallWrite | ReadUnlock | WriteUnlock | Advance(spurious: bool)

  datatype Event = Event(t: Tid, act: Action)

  function Of(s: State, t: Tid): Local {
    if t in s.threads then s.threads[t] else Local(Idle, 0, false)
  }

  function Init(writeFirst: bool): State {
    State(RW_LOCK_FREE, 0, writeFirst, map[], multiset{}, None, {})
  }

  function Set(s: State, t: Tid, l: Local): State {
    s.(threads := s.threads[t := l])
  }

  function Goto(s: State, t: Tid, pc: Pc): State {
    Set(s, t, Of(s, t).(pc := pc))
  }

  function Step(s: State, e: Event): State {
    var t, l := e.t, Of(s, e.t);
    match e.act
    case CallRead => if l.pc.Idle? then Goto(s, t, ReadLoad) else s
    case CallWrite => if l.pc.Idle? then Goto(s, t, WriteAdd) else s
    case ReadUnlock =>
      if l.pc.Idle? && l.shared > 0
      then Set(s, t, l.(shared := l.shared - 1)).(lockNum := s.lockNum - 1, readers := s.readers - multiset{t})
      else s
    case WriteUnlock =>
      if l.pc.Idle? && l.writing
      then Set(s, t, l.(writing := false)).(lockNum := s.lockNum + 1, writer := None)
      else s
    case Advance(spurious) =>
      match l.pc
      case ReadLoad => Goto(s, t, ReadTest(s.lockNum))
      case ReadTest(n) =>
        if n < RW_LOCK_FREE || (s.writeFirst && s.waitNum > 0) then Goto(s, t, ReadLoad) else Goto(s, t, ReadCas(n))
      case ReadCas(n) =>
        if !spurious && s.lockNum == n
        then Set(s, t, Local(Idle, l.shared + 1, l.writing)).(lockNum := n + 1, readers := s.readers + multiset{t})
        else Goto(s, t, ReadTest(s.lockNum))
      case WriteAdd => Goto(s, t, WriteCas).(waitNum := s.waitNum + 1, waiters := s.waiters + {t})
      case WriteCas =>
        if !spurious && s.lockNum == RW_LOCK_FREE
        then Goto(s, t, WriteSub).(lockNum := WRITE_EXCLUSIVE, writer := Some(t))
        else s
      case WriteSub =>
        Set(s, t, Local(Idle, l.shared, true)).(waitNum := s.waitNum - 1, waiters := s.waiters - {t})
      case _ => s
  }

  function Run(s: State, es: seq<Event>): State {
    if es == [] then s else Step(Run(s, es[..|es| - 1]), es[|es| - 1])
  }

  // ---------------------------------------------------------------- invariant

  ghost predicate PcOk(s: State, t: Tid) {
    var l := Of(s, t);
    && s.readers[t] == l.shared
    && (s.writer == Some(t) <==> l.pc.WriteSub? || l.writing)
    && (t in s.waiters <==> l.pc.WriteCas? || l.pc.WriteSub?)
    && (l.pc.ReadCas? ==> 0 <= l.pc.n)
    && !(l.pc.WriteSub? && l.writing)
  }

  // lock_num_ counts the read guards, or is -1 for the one writer; the waiters are counted too.
  ghost predicate LockCounts(s: State) {
    && (s.writer.Some? ==> s.readers == multiset{})
    && s.lockNum == (if s.writer.Some? then WRITE_EXCLUSIVE else |s.readers|)
  }

  ghost predicate WaitCounts(s: State) {
    s.waitNum == |s.waiters|
  }

  ghost predicate Inv(s: State) {
    LockCounts(s) && WaitCounts(s) && forall t: Tid :: PcOk(s, t)
  }

  // ---------------------------------------------------------------- the moves of one thread

  predicate Reading(pc: Pc) {
    pc.ReadLoad? || pc.ReadTest? || pc.ReadCas?
  }

  predicate SameLock(s: State, r: State) {
    r.lockNum == s.lockNum && r.readers == s.readers && r.writer == s.writer
  }

  predicate SameWait(s: State, r: State) {
    r.waitNum == s.waitNum && r.waiters == s.waiters
  }

  lemma CallMoves(s: State, e: Event)
    requires e.act.CallRead? || e.act.CallWrite?
    ensures var l, r := Of(s, e.t), Step(s, e);
            && SameLock(s, r) && SameWait(s, r)
            && Of(r, e.t) == if l.pc.Idle? then l.(pc := if e.act.CallRead? then ReadLoad else WriteAdd) else l
  {
  }

  lemma UnlockMoves(s: State, e: Event)
    requires e.act.ReadUnlock? || e.act.WriteUnlock?
    ensures var l, r := Of(s, e.t), Step(s, e);
            && SameWait(s, r)
            && (if e.act.ReadUnlock? && l.pc.Idle? && l.shared > 0 then
                  && Of(r, e.t) == l.(shared := l.shared - 1)
                  && r.lockNum == s.lockNum - 1 && r.readers == s.readers - multiset{e.t} && r.writer == s.writer
                else if e.act.WriteUnlock? && l.pc.Idle? && l.writing then
                  && Of(r, e.t) == l.(writing := false)
                  && r.lockNum == s.lockNum + 1 && r.readers == s.readers && r.writer == None
                else SameLock(s, r) && Of(r, e.t) == l)
  {
  }

  lemma ReadMoves(s: State, e: Event)
    requires e.act.Advance? && Reading(Of(s, e.t).pc)
    ensures var l, r := Of(s, e.t), Step(s, e); var pc := l.pc;
            && SameWait(s, r)
            && (if pc.ReadCas? && !e.act.spurious && s.lockNum == pc.n then
                  && Of(r, e.t) == Local(Idle, l.shared + 1, l.writing)
                  && r.lockNum == s.lockNum + 1 && r.readers == s.readers + multiset{e.t} && r.writer == s.writer
                else
                  && SameLock(s, r)
                  && Of(r, e.t) == l.(pc :=
                       if pc.ReadTest? then
                         (if pc.n < RW_LOCK_FREE || (s.writeFirst && s.waitNum > 0) then ReadLoad else ReadCas(pc.n))
                       else ReadTest(s.lockNum)))
  {
  }

  lemma WriteMoves(s: State, e: Event)
    requires e.act.Advance? && !Reading(Of(s, e.t).pc)
    ensures var l, r := Of(s, e.t), Step(s, e);
            && r.readers == s.readers
            && match l.pc
               case WriteAdd =>
                 && Of(r, e.t) == l.(pc := WriteCas) && SameLock(s, r)
                 && r.waitNum == s.waitNum + 1 && r.waiters == s.waiters + {e.t}
               case WriteCas =>
                 && SameWait(s, r)
                 && (if !e.act.spurious && s.lockNum == RW_LOCK_FREE then
                       Of(r, e.t) == l.(pc := WriteSub) && r.lockNum == WRITE_EXCLUSIVE && r.writer == Some(e.t)
                     else SameLock(s, r) && Of(r, e.t) == l)
               case WriteSub =>
                 && Of(r, e.t) == Local(Idle, l.shared, true) && SameLock(s, r)
                 && r.waitNum == s.waitNum - 1 && r.waiters == s.waiters - {e.t}
               case _ => SameLock(s, r) && SameWait(s, r) && Of(r, e.t) == l
  {
  }

  lemma OthersStand(s: State, e: Event, u: Tid)
    requires u != e.t
    ensures Of(Step(s, e), u) == Of(s, u)
  {
    hide Step;
    if !e.act.Advance? {
      OthersStandCall(s, e, u);
    } else if Reading(Of(s, e.t).pc) {
      OthersStandReading(s, e, u);
    } else {
      OthersStandWriting(s, e, u);
    }
  }

  lemma OthersStandCall(s: State, e: Event, u: Tid)
    requires u != e.t && !e.act.Advance?
    ensures Of(Step(s, e), u) == Of(s, u)
  {
  }

  lemma OthersStandReading(s: State, e: Event, u: Tid)
    requires u != e.t && e.act.Advance? && Reading(Of(s, e.t).pc)
    ensures Of(Step(s, e), u) == Of(s, u)
  {
  }

  lemma OthersStandWriting(s: State, e: Event, u: Tid)
    requires u != e.t && e.act.Advance? && !Reading(Of(s, e.t).pc)
    ensures Of(Step(s, e), u) == Of(s, u)
  {
  }

  lemma WriteFirstStays(s: State, e: Event)
    ensures Step(s, e).writeFirst == s.writeFirst
  {
  }

  // Which steps change the number of waiting writers.
  lemma WaitMoves(s: State, e: Event)
    ensures Step(s, e).waitNum < s.waitNum ==> Of(s, e.t).pc.WriteSub?
    ensures Step(s, e).waitNum > s.waitNum ==> e.act.Advance? && Of(s, e.t).pc.WriteAdd?
  {
    hide Step;
    if e.act.CallRead? || e.act.CallWrite? {
      CallMoves(s, e);
    } else if !e.act.Advance? {
      UnlockMoves(s, e);
    } else if Reading(Of(s, e.t).pc) {
      ReadMoves(s, e);
    } else {
      WriteMoves(s, e);
    }
  }

  // ---------------------------------------------------------------- steps keep the invariant

  // The history follows the threads.
  lemma StepPcs(s: State, e: Event)
    requires Inv(s)
    ensures forall t: Tid :: PcOk(Step(s, e), t)
  {
    hide PcOk, Step, LockCounts, WaitCounts;
    assert PcOk(s, e.t);
    forall u: Tid ensures PcOk(Step(s, e), u) {
      assert PcOk(s, u);
      StepPc(s, e, u);
    }
  }

  lemma StepPc(s: State, e: Event, u: Tid)
    requires LockCounts(s) && PcOk(s, e.t) && PcOk(s, u)
    ensures PcOk(Step(s, e), u)
  {
    hide Step;
    if u != e.t { OthersStand(s, e, u); }
    if e.act.CallRead? || e.act.CallWrite? {
      CallMoves(s, e);
    } else if !e.act.Advance? {
      UnlockMoves(s, e);
    } else if Reading(Of(s, e.t).pc) {
      ReadMoves(s, e);
    } else {
      WriteMoves(s, e);
    }
  }

  // The counters follow the history.
  lemma StepLockCounts(s: State, e: Event)
    requires LockCounts(s) && PcOk(s, e.t)
    ensures LockCounts(Step(s, e))
  {
    hide Step;
    if e.act.CallRead? || e.act.CallWrite? {
      CallMoves(s, e);
    } else if !e.act.Advance? {
      UnlockMoves(s, e);
      if Of(s, e.t).shared > 0 { assert e.t in s.readers; }
    } else if Reading(Of(s, e.t).pc) {
      ReadMoves(s, e);
    } else {
      WriteMoves(s, e);
    }
  }

  lemma StepWaitCounts(s: State, e: Event)
    requires WaitCounts(s) && PcOk(s, e.t)
    ensures WaitCounts(Step(s, e))
  {
    hide Step;
    if e.act.CallRead? || e.act.CallWrite? {
      CallMoves(s, e);
    } else if !e.act.Advance? {
      UnlockMoves(s, e);
    } else if Reading(Of(s, e.t).pc) {
      ReadMoves(s, e);
    } else {
      WriteMoves(s, e);
      if Of(s, e.t).pc.WriteAdd? { AddOne(s.waiters, e.t); }
      if Of(s, e.t).pc.WriteSub? { RemoveOne(s.waiters, e.t); }
    }
  }

  lemma AddOne(a: set<Tid>, t: Tid)
    requires t !in a
    ensures |a + {t}| == |a| + 1
  {
  }

  lemma RemoveOne(a: set<Tid>, t: Tid)
    requires t in a
    ensures |a - {t}| == |a| - 1
  {
  }

  lemma StepInv(s: State, e: Event)
    requires Inv(s)
    ensures Inv(Step(s, e))
  {
    hide Step, PcOk, LockCounts, WaitCounts;
    StepPcs(s, e);
    StepLockCounts(s, e);
    StepWaitCounts(s, e);
  }

  lemma {:induction false} RunInv(s: State, es: seq<Event>)
    requires Inv(s)
    ensures Inv(Run(s, es))
  {
    if es == [] {
    } else {
      RunInv(s, es[..|es| - 1]);
      StepInv(Run(s, es[..|es| - 1]), es[|es| - 1]);
    }
  }
}

/** What every run of the reader/writer lock guarantees. */
module AtomicRWLockTheorems {
  import opened Common
  import opened AtomicRWLockSpec

  // In every reachable state the counters mean what they are for: lock_num_ is -1 with exactly
  // one thread writing and nobody reading, or it is the number of read guards with nobody writing.
  lemma LockMeaning(writeFirst: bool, es: seq<Event>)
    ensures var s := Run(Init(writeFirst), es);
            && (s.lockNum == WRITE_EXCLUSIVE || s.lockNum == |s.readers|)
            && (s.lockNum == WRITE_EXCLUSIVE <==> s.writer.Some?)
            && (s.writer.Some? ==> s.readers == multiset{})
            && (forall t: Tid :: s.writer == Some(t) <==> Of(s, t).writing || Of(s, t).pc.WriteSub?)
            && s.waitNum == |s.waiters|
            && (forall t: Tid :: s.readers[t] == Of(s, t).shared)
            && (forall t: Tid :: t in s.waiters <==> Of(s, t).pc.WriteCas? || Of(s, t).pc.WriteSub?)
  {
    var s := Run(Init(writeFirst), es);
    RunInv(Init(writeFirst), es);
    forall t: Tid
      ensures s.writer == Some(t) <==> Of(s, t).writing || Of(s, t).pc.WriteSub?
      ensures s.readers[t] == Of(s, t).shared
      ensures t in s.waiters <==> Of(s, t).pc.WriteCas? || Of(s, t).pc.WriteSub?
    {
      assert PcOk(s, t);
    }
  }

  // A writer is alone, and inside no read guard of its own.
  lemma Exclusion(writeFirst: bool, es: seq<Event>, t: Tid, u: Tid)
    requires t != u
    ensures var s := Run(Init(writeFirst), es);
            Of(s, t).writing ==>
              Of(s, t).shared == 0 && !Of(s, u).writing && !Of(s, u).pc.WriteSub? && Of(s, u).shared == 0
  {
    var s := Run(Init(writeFirst), es);
    RunInv(Init(writeFirst), es);
    assert PcOk(s, t) && PcOk(s, u);
  }

  // ---------------------------------------------------------------- writer preference

  // The readers that passed the check and may still try their CAS.
  ghost function Past(s: State): set<Tid> {
    set t | t in s.threads && s.threads[t].pc.ReadCas?
  }

  predicate Enters(s: State, e: Event) {
    Of(Step(s, e), e.t).shared > Of(s, e.t).shared
  }

  // The readers that enter during the run, in order.
  function Entries(s: State, es: seq<Event>): seq<Tid> {
    if es == [] then [] else
    var e := es[|es| - 1];
    Entries(s, es[..|es| - 1]) + if Enters(Run(s, es[..|es| - 1]), e) then [e.t] else []
  }

  // Some writer is waiting before, during and after the run.
  predicate WaitingThroughout(s: State, es: seq<Event>) {
    Run(s, es).waitNum > 0 && (es != [] ==> WaitingThroughout(s, es[..|es| - 1]))
  }

  // While a writer waits, no reader gets past the check, and every CAS attempt takes one out.
  lemma PastNeverGrows(s: State, e: Event)
    requires s.writeFirst && s.waitNum > 0
    ensures Past(Step(s, e)) <= Past(s)
    ensures Of(s, e.t).pc.ReadCas? && e.act.Advance? ==> e.t in Past(s) && Past(Step(s, e)) == Past(s) - {e.t}
    ensures Enters(s, e) ==> e.t in Past(s) && e.t !in Past(Step(s, e))
  {
    hide Step;
    var r := Step(s, e);
    forall u: Tid ensures u in Past(s) <==> Of(s, u).pc.ReadCas? {}
    forall u: Tid ensures u in Past(r) <==> Of(r, u).pc.ReadCas? {}
    forall u: Tid | u != e.t ensures Of(r, u) == Of(s, u) { OthersStand(s, e, u); }
    if e.act.CallRead? || e.act.CallWrite? {
      CallMoves(s, e);
    } else if !e.act.Advance? {
      UnlockMoves(s, e);
    } else if Reading(Of(s, e.t).pc) {
      ReadMoves(s, e);
    } else {
      WriteMoves(s, e);
    }
  }

  lemma {:induction false} WriteFirstFixed(s: State, es: seq<Event>)
    ensures Run(s, es).writeFirst == s.writeFirst
  {
    hide Step;
    if es == [] {
    } else {
      WriteFirstFixed(s, es[..|es| - 1]);
      WriteFirstStays(Run(s, es[..|es| - 1]), es[|es| - 1]);
    }
  }

  // Bounded bypass: while writers wait, a reader enters at most once, only if it had already
  // passed the check, so at most |Past| readers get in front of the writer.
  lemma {:induction false} BoundedBypass(s: State, es: seq<Event>)
    requires s.writeFirst && WaitingThroughout(s, es)
    ensures var r, es' := Run(s, es), Entries(s, es);
            && Past(r) <= Past(s)
            && (forall i, j :: 0 <= i < j < |es'| ==> es'[i] != es'[j])
            && (forall i :: 0 <= i < |es'| ==> es'[i] in Past(s) && es'[i] !in Past(r))
            && |es'| + |Past(r)| <= |Past(s)|
  {
    if es == [] {
    } else {
      var p, e := es[..|es| - 1], es[|es| - 1];
      BoundedBypass(s, p);
      WriteFirstFixed(s, p);
      PastNeverGrows(Run(s, p), e);
    }
    EntriesFit(Entries(s, es), Past(s), Past(Run(s, es)));
  }

  lemma EntriesFit(ts: seq<Tid>, before: set<Tid>, after: set<Tid>)
    requires after <= before
    requires forall i, j :: 0 <= i < j < |ts| ==> ts[i] != ts[j]
    requires forall i :: 0 <= i < |ts| ==> ts[i] in before && ts[i] !in after
    ensures |ts| + |after| <= |before|
  {
    var entered := Elements(ts);
    assert entered !! after && entered + after <= before;
    Smaller(entered + after, before);
  }

  lemma {:induction false} Smaller(a: set<Tid>, b: set<Tid>)
    requires a <= b
    ensures |a| <= |b|
  {
    assert b == a + (b - a);
  }

  // Once every such reader has had its try, the readers inside only leave: nobody enters before
  // the waiting writer.
  lemma NoEntryAfterPast(s: State, es: seq<Event>)
    requires s.writeFirst && WaitingThroughout(s, es) && Past(s) == {}
    ensures Entries(s, es) == []
  {
    BoundedBypass(s, es);
  }
}

/** The lock object: its two counters, changed in place. */
module AtomicRWLocks {
  import opened Common
  import opened AtomicRWLockSpec

  class AtomicRWLock {
    var lock_num_: int
    var write_lock_wait_num_: int
    const write_first_: bool
    var threads: map<Tid, Local>  // where each thread is, and the guards it is inside
    ghost var readers: multiset<Tid>
    ghost var writer: Option<Tid>
    ghost var waiters: set<Tid>

    ghost function View(): State
      reads this
    {
      State(lock_num_, write_lock_wait_num_, write_first_, threads, readers, writer, waiters)
    }

    ghost predicate Valid()
      reads this
    {
      Inv(View())
    }

    constructor (write_first: bool)
      ensures Valid() && View() == Init(write_first)
    {
      lock_num_, write_lock_wait_num_, write_first_, threads := RW_LOCK_FREE, 0, write_first, map[];
      readers, writer, waiters := multiset{}, None, {};
    }

    // A thread starts to construct a guard.
    method Call(t: Tid, write: bool)
      requires Valid() && Of(View(), t).pc.Idle?
      modifies this`threads
      ensures Valid() && View() == Step(old(View()), Event(t, if write then CallWrite else CallRead))
    {
      hide Inv;
      StepInv(View(), Event(t, if write then CallWrite else CallRead));
      var l := if t in threads then threads[t] else Local(Idle, 0, false);
      threads := threads[t := l.(pc := if write then WriteAdd else ReadLoad)];
    }

    method ReadLockStep(t: Tid, spurious: bool)
      requires Valid() && t in threads && (threads[t].pc.ReadLoad? || threads[t].pc.ReadTest? || threads[t].pc.ReadCas?)
      modifies this
      ensures Valid() && View() == Step(old(View()), Event(t, Advance(spurious)))
    {
      hide Inv;
      StepInv(View(), Event(t, Advance(spurious)));
      var l := threads[t];
      match l.pc
      case ReadLoad => threads := threads[t := l.(pc := ReadTest(lock_num_))];
      case ReadTest(n) =>
        if n < RW_LOCK_FREE || (write_first_ && write_lock_wait_num_ > 0) {
          threads := threads[t := l.(pc := ReadLoad)];
        } else {
          threads := threads[t := l.(pc := ReadCas(n))];
        }
      case ReadCas(n) =>
        if !spurious && lock_num_ == n {
          lock_num_ := n + 1;
          readers := readers + multiset{t};
          threads := threads[t := Local(Idle, l.shared + 1, l.writing)];
        } else {
          threads := threads[t := l.(pc := ReadTest(lock_num_))];
        }
    }

    method WriteLockStep(t: Tid, spurious: bool)
      requires Valid() && t in threads && (threads[t].pc.WriteAdd? || threads[t].pc.WriteCas? ||
               threads[t].pc.WriteSub?)
      modifies this
      ensures Valid() && View() == Step(old(View()), Event(t, Advance(spurious)))
    {
      hide Inv;
      StepInv(View(), Event(t, Advance(spurious)));
      var l := threads[t];
      match l.pc
      case WriteAdd =>
        write_lock_wait_num_ := write_lock_wait_num_ + 1;
        waiters := waiters + {t};
        threads := threads[t := l.(pc := WriteCas)];
      case WriteCas =>
        if !spurious && lock_num_ == RW_LOCK_FREE {
          lock_num_ := WRITE_EXCLUSIVE;
          writer := Some(t);
          threads := threads[t := l.(pc := WriteSub)];
        }
      case WriteSub =>
        write_lock_wait_num_ := write_lock_wait_num_ - 1;
        waiters := waiters - {t};
        threads := threads[t := Local(Idle, l.shared, true)];
    }

    method ReadUnlock(t: Tid)
      requires Valid() && t in threads && threads[t].pc.Idle? && threads[t].shared > 0
      modifies this
      ensures Valid() && View() == Step(old(View()), Event(t, Action.ReadUnlock))
    {
      hide Inv;
      StepInv(View(), Event(t, Action.ReadUnlock));
      lock_num_ := lock_num_ - 1;
      readers := readers - multiset{t};
      threads := threads[t := threads[t].(shared := threads[t].shared - 1)];
    }

    method WriteUnlock(t: Tid)
      requires Valid() && t in threads && threads[t].pc.Idle? && threads[t].writing
      modifies this
      ensures Valid() && View() == Step(old(View()), Event(t, Action.WriteUnlock))
    {
      hide Inv;
      StepInv(View(), Event(t, Action.WriteUnlock));
      lock_num_ := lock_num_ + 1;
      writer := None;
      threads := threads[t := threads[t].(writing := false)];
    }
  }
}
