/**
 The reentrant reader/writer lock of cyber/base/reentrant_rw_lock.h, one shared access per
 step, for any number of threads whose guards are released in LIFO order.

 `readers`, `holder`, `leaked` are history: the counted read guards by thread, the thread
 that owns the lock for writing, and how often the write holder ran the fetch_sub of
 ReadUnlock. `atomicUnlock` merges the two accesses of the outermost WriteUnlock into one
 step; the source has them apart (false).
*/
module ReentrantRWLockSpec {
  import opened Common

  const RW_LOCK_FREE := 0
  const WRITE_EXCLUSIVE := -1

  datatype Guard = R | W

  // What a thread does next; `n` is its copy of lock_num_.
  datatype Pc =
    | Idle
    | ReadTestId
    | ReadLoad
    | ReadTest(n: int)
    | ReadCas(n: int)
    | WriteTestId
    | WriteNest
    | WriteAdd
    | WriteCas
    | WriteSetId
    | WriteSub
    | ReadUnlockTestId
    | ReadUnlockSub
    | WriteUnlockAdd
    | WriteUnlockClearId

  // A thread: where it is and the guards it is inside, outermost first.
  datatype Local = Local(pc: Pc, guards: seq<Guard>)

  datatype State = State(
    lockNum: int, waitNum: int, writeThreadId: Option<Tid>, writeFirst: bool, atomicUnlock: bool,
    threads: map<Tid, Local>, readers: multiset<Tid>, holder: Option<Tid>, leaked: nat)

  datatype Action = CallRead | CallWrite | CallUnlock | Advance(spurious: bool)

  datatype Event = Event(t: Tid, act: Action)

  function Of(s: State, t: Tid): Local {
    if t in s.threads then s.threads[t] else Local(Idle, [])
  }

  function Init(writeFirst: bool, atomicUnlock: bool): State {
    State(RW_LOCK_FREE, 0, None, writeFirst, atomicUnlock, map[], multiset{}, None, 0)
  }

  function Set(s: State, t: Tid, pc: Pc, guards: seq<Guard>): State {
    s.(threads := s.threads[t := Local(pc, guards)])
  }

  function Inner(guards: seq<Guard>): seq<Guard> {
    if guards == [] then [] else guards[..|guards| - 1]
  }

  // How many write guards a thread is inside, counting one that is being entered.
  function WriteGuards(guards: seq<Guard>): nat {
    if guards == [] then 0
    else WriteGuards(guards[..|guards| - 1]) + if guards[|guards| - 1] == W then 1 else 0
  }

  function Depth(l: Local): nat {
    WriteGuards(l.guards) + if l.pc.WriteSetId? || l.pc.WriteSub? then 1 else 0
  }

  function Step(s: State, e: Event): State {
    var t, l := e.t, Of(s, e.t);
    var gs := l.guards;
    match e.act
    case CallRead => if l.pc.Idle? then Set(s, t, ReadTestId, gs) else s
    case CallWrite => if l.pc.Idle? then Set(s, t, WriteTestId, gs) else s
    case CallUnlock =>
      if l.pc.Idle? && gs != []
      then Set(s, t, if gs[|gs| - 1] == R then ReadUnlockTestId else WriteUnlockAdd, gs)
      else s
    case Advance(spurious) =>
      match l.pc
      case ReadTestId =>
        if s.writeThreadId == Some(t) then Set(s, t, Idle, gs + [R]) else Set(s, t, ReadLoad, gs)
      case ReadLoad => Set(s, t, ReadTest(s.lockNum), gs)
      case ReadTest(n) =>
        if n < RW_LOCK_FREE || (s.writeFirst && s.waitNum > 0)
        then Set(s, t, ReadLoad, gs)
        else Set(s, t, ReadCas(n), gs)
      case ReadCas(n) =>
        if !spurious && s.lockNum == n
        then Set(s, t, Idle, gs + [R]).(lockNum := n + 1, readers := s.readers + multiset{t})
        else Set(s, t, ReadTest(s.lockNum), gs)
      case WriteTestId =>
        if s.writeThreadId == Some(t) then Set(s, t, WriteNest, gs) else Set(s, t, WriteAdd, gs)
      case WriteNest => Set(s, t, Idle, gs + [W]).(lockNum := s.lockNum - 1)
      case WriteAdd => Set(s, t, WriteCas, gs).(waitNum := s.waitNum + 1)
      case WriteCas =>
        if !spurious && s.lockNum == RW_LOCK_FREE
        then Set(s, t, WriteSetId, gs).(lockNum := WRITE_EXCLUSIVE, holder := Some(t))
        else s
      case WriteSetId => Set(s, t, WriteSub, gs).(writeThreadId := Some(t))
      case WriteSub => Set(s, t, Idle, gs + [W]).(waitNum := s.waitNum - 1)
      case ReadUnlockTestId =>
        if s.writeThreadId == Some(t) then Set(s, t, Idle, Inner(gs)) else Set(s, t, ReadUnlockSub, gs)
      case ReadUnlockSub =>
        Set(s, t, Idle, Inner(gs)).(
          lockNum := s.lockNum - 1,
          readers := s.readers - multiset{t},
          leaked := s.leaked + if s.holder == Some(t) then 1 else 0)
      case WriteUnlockAdd =>
        var last := s.lockNum == WRITE_EXCLUSIVE;
        Set(s, t, if last && !s.atomicUnlock then WriteUnlockClearId else Idle, Inner(gs)).(
          lockNum := s.lockNum + 1,
          writeThreadId := if last && s.atomicUnlock then None else s.writeThreadId,
          holder := if WriteGuards(Inner(gs)) == 0 then None else s.holder)
      case WriteUnlockClearId => Set(s, t, Idle, gs).(writeThreadId := None)
      case _ => s
  }

  function Run(s: State, es: seq<Event>): State {
    if es == [] then s else Step(Run(s, es[..|es| - 1]), es[|es| - 1])
  }

  // ---------------------------------------------------------------- invariant

  predicate Entering(pc: Pc) {
    pc.WriteSetId? || pc.WriteSub?
  }

  // What the guards of one thread can look like: none, counted reads only, or a write guard outermost.
  datatype Nesting = Outside | ReadsOnly | UnderWrite | Mixed

  function NestingOf(gs: seq<Guard>): Nesting {
    if gs == [] then Outside
    else if gs[0] == W then UnderWrite
    else if WriteGuards(gs) == 0 then ReadsOnly
    else Mixed
  }

  predicate InnermostIs(gs: seq<Guard>, g: Guard) {
    gs != [] && gs[|gs| - 1] == g
  }

  // What is known of one thread by itself.
  predicate LocalOk(l: Local) {
    && !NestingOf(l.guards).Mixed?
    && (Entering(l.pc) || l.pc.WriteUnlockClearId? ==> NestingOf(l.guards).Outside?)
    && (l.pc.ReadCas? ==> 0 <= l.pc.n)
    && (l.pc.ReadUnlockTestId? || l.pc.ReadUnlockSub? ==> InnermostIs(l.guards, R))
    && (l.pc.WriteUnlockAdd? ==> InnermostIs(l.guards, W))
  }

  // ... and with respect to the history of the lock.
  ghost predicate RoleOk(s: State, t: Tid) {
    var l := Of(s, t);
    && (s.holder == Some(t) <==> Entering(l.pc) || NestingOf(l.guards).UnderWrite?)
    && s.readers[t] == (if NestingOf(l.guards).ReadsOnly? then |l.guards| else 0)
    && (l.pc.WriteNest? ==> s.holder == Some(t))
  }

  // ... and to write_thread_id_, which is the holder's, lost, or that of a thread still to clear it.
  ghost predicate IdOk(s: State, t: Tid) {
    var pc := Of(s, t).pc;
    && (pc.ReadUnlockSub? ==> s.writeThreadId != Some(t))
    && (pc.WriteUnlockClearId? ==> !s.atomicUnlock)
    && (s.writeThreadId == Some(t) ==> (s.holder == Some(t) && !pc.WriteSetId?) || pc.WriteUnlockClearId?)
    && (s.holder == Some(t) && !pc.WriteSetId? ==>
          s.writeThreadId == Some(t) || (s.writeThreadId == None && !s.atomicUnlock))
  }

  ghost predicate ThreadOk(s: State, t: Tid) {
    LocalOk(Of(s, t)) && RoleOk(s, t) && IdOk(s, t)
  }

  ghost function HolderDepth(s: State): nat {
    if s.holder.None? then 0 else Depth(Of(s, s.holder.value))
  }

  // The exact meaning of lock_num_.
  ghost predicate Counts(s: State) {
    s.lockNum == |s.readers| - HolderDepth(s) - s.leaked
  }

  // Readers, a write holder and a leaked count exclude each other; a leak needs a lost id.
  ghost predicate Excludes(s: State) {
    && (s.holder.Some? || s.leaked > 0 ==> s.readers == multiset{})
    && (s.holder.Some? ==> HolderDepth(s) > 0)
    && (s.leaked > 0 ==> s.writeThreadId == None && !s.atomicUnlock)
    && (s.leaked > 0 && s.holder.Some? ==> !Of(s, s.holder.value).pc.WriteSetId?)
    && (s.atomicUnlock && s.holder.None? ==> s.writeThreadId == None)
  }

  ghost predicate Inv(s: State) {
    Counts(s) && Excludes(s) && forall t: Tid :: ThreadOk(s, t)
  }

  lemma InitInv(writeFirst: bool, atomicUnlock: bool)
    ensures Inv(Init(writeFirst, atomicUnlock))
  {
  }

  // ---------------------------------------------------------------- guards

  lemma {:induction false} NestingKnown(gs: seq<Guard>)
    ensures NestingOf(gs).UnderWrite? ==> WriteGuards(gs) >= 1
    ensures NestingOf(gs).ReadsOnly? || NestingOf(gs).Outside? ==> WriteGuards(gs) == 0
    ensures NestingOf(gs).Outside? <==> gs == []
    ensures InnermostIs(gs, W) ==> WriteGuards(gs) >= 1
  {
    if |gs| <= 1 {
    } else {
      NestingKnown(gs[..|gs| - 1]);
    }
  }

  // Entering a guard.
  lemma Push(gs: seq<Guard>, g: Guard)
    ensures WriteGuards(gs + [g]) == WriteGuards(gs) + (if g == W then 1 else 0)
    ensures |gs + [g]| == |gs| + 1
    ensures NestingOf(gs + [g]) ==
            match NestingOf(gs)
            case Outside => if g == W then UnderWrite else ReadsOnly
            case ReadsOnly => if g == W then Mixed else ReadsOnly
            case n => n
  {
    assert (gs + [g])[..|gs|] == gs;
    NestingKnown(gs);
  }

  // Leaving the innermost guard.
  lemma Pop(gs: seq<Guard>)
    requires gs != [] && !NestingOf(gs).Mixed?
    ensures |Inner(gs)| == |gs| - 1
    ensures WriteGuards(Inner(gs)) == WriteGuards(gs) - (if InnermostIs(gs, W) then 1 else 0)
    ensures NestingOf(gs).ReadsOnly? ==> NestingOf(Inner(gs)) == if |gs| == 1 then Outside else ReadsOnly
    ensures NestingOf(gs).UnderWrite? ==>
              NestingOf(Inner(gs)) == if |gs| == 1 then Outside else UnderWrite
    ensures NestingOf(gs).UnderWrite? ==> (WriteGuards(Inner(gs)) == 0 <==> |gs| == 1)
    ensures NestingOf(gs).UnderWrite? && InnermostIs(gs, R) ==> |gs| > 1
    ensures NestingOf(gs).ReadsOnly? ==> InnermostIs(gs, R)
  {
    NestingKnown(gs);
    NestingKnown(Inner(gs));
  }

  // What the value of lock_num_ says to thread t.
  lemma LockNumFacts(s: State, t: Tid)
    requires Counts(s) && Excludes(s) && ThreadOk(s, t)
    ensures s.lockNum >= 0 ==> s.holder.None? && s.leaked == 0 && s.lockNum == |s.readers|
    ensures s.lockNum == 0 ==> s.readers == multiset{}
    ensures s.holder == Some(t) && !Entering(Of(s, t).pc) ==> s.lockNum + WriteGuards(Of(s, t).guards) + s.leaked == 0
    ensures s.holder == Some(t) && Entering(Of(s, t).pc) ==> s.lockNum == -1 - s.leaked && s.readers == multiset{}
  {
    hide WriteGuards, NestingOf;
    NestingKnown(Of(s, t).guards);
  }

  // ---------------------------------------------------------------- steps keep the invariant

  // The facts of every thread but t carry over when the shared fields change only as listed.
  lemma OthersKeep(s: State, r: State, t: Tid, l: Local)
    requires forall u: Tid :: ThreadOk(s, u)
    requires r.threads == s.threads[t := l] && r.atomicUnlock == s.atomicUnlock
    requires r.holder == s.holder || (s.holder.None? && r.holder == Some(t)) || (s.holder == Some(t) && r.holder.None?)
    requires forall u: Tid :: u != t ==> r.readers[u] == s.readers[u]
    requires r.writeThreadId == s.writeThreadId || (r.writeThreadId == Some(t) && r.holder == Some(t))
             || (r.writeThreadId == None && (!s.atomicUnlock || s.holder == Some(t)))
    requires ThreadOk(r, t)
    ensures forall u: Tid :: ThreadOk(r, u)
  {
    hide NestingOf, WriteGuards;
    forall u: Tid ensures ThreadOk(r, u) {
      assert ThreadOk(s, u) && ThreadOk(s, t);
      if u != t { assert Of(r, u) == Of(s, u); }
    }
  }

  // A step that moves t without changing its guards, lock_num_ or the id.
  lemma MoveInv(s: State, t: Tid, pc: Pc, waitNum: int)
    requires Inv(s) && !Entering(Of(s, t).pc) && !Of(s, t).pc.WriteUnlockClearId?
    requires !Entering(pc) && !pc.WriteUnlockClearId? && LocalOk(Local(pc, Of(s, t).guards))
    requires pc.WriteNest? ==> s.holder == Some(t)
    requires pc.ReadUnlockSub? ==> s.writeThreadId != Some(t)
    ensures Inv(Set(s, t, pc, Of(s, t).guards).(waitNum := waitNum))
  {
    hide NestingOf, WriteGuards;
    var l := Local(pc, Of(s, t).guards);
    var r := Set(s, t, pc, l.guards).(waitNum := waitNum);
    assert ThreadOk(s, t);
    OthersKeep(s, r, t, l);
    if s.holder.Some? { assert ThreadOk(s, s.holder.value); }
  }

  // t enters or leaves a read guard inside its write guards.
  lemma FreeReadInv(s: State, t: Tid, gs: seq<Guard>)
    requires Inv(s) && s.holder == Some(t) && !Entering(Of(s, t).pc)
    requires NestingOf(gs).UnderWrite? && WriteGuards(gs) == WriteGuards(Of(s, t).guards)
    ensures Inv(Set(s, t, Idle, gs))
  {
    hide NestingOf, WriteGuards;
    var r := Set(s, t, Idle, gs);
    assert ThreadOk(s, t);
    OthersKeep(s, r, t, Local(Idle, gs));
  }

  // t leaves a read guard inside its write guards with its id lost: one count too many is taken.
  lemma LeakInv(s: State, t: Tid, gs: seq<Guard>)
    requires Inv(s) && s.holder == Some(t) && Of(s, t).pc.ReadUnlockSub?
    requires NestingOf(gs).UnderWrite? && WriteGuards(gs) == WriteGuards(Of(s, t).guards)
    ensures Inv(Set(s, t, Idle, gs).(lockNum := s.lockNum - 1, leaked := s.leaked + 1))
  {
    hide NestingOf, WriteGuards;
    var r := Set(s, t, Idle, gs).(lockNum := s.lockNum - 1, leaked := s.leaked + 1);
    assert ThreadOk(s, t);
    OthersKeep(s, r, t, Local(Idle, gs));
  }

  // t enters a counted read guard.
  lemma ReadEnterInv(s: State, t: Tid, gs: seq<Guard>)
    requires Inv(s) && s.lockNum >= 0 && Of(s, t).pc.ReadCas?
    requires NestingOf(gs).ReadsOnly? && |gs| == |Of(s, t).guards| + 1
    ensures Inv(Set(s, t, Idle, gs).(lockNum := s.lockNum + 1, readers := s.readers + multiset{t}))
  {
    hide NestingOf, WriteGuards;
    var r := Set(s, t, Idle, gs).(lockNum := s.lockNum + 1, readers := s.readers + multiset{t});
    assert ThreadOk(s, t);
    NestingKnown(Of(s, t).guards);
    LockNumFacts(s, t);
    OthersKeep(s, r, t, Local(Idle, gs));
  }

  // t leaves a counted read guard.
  lemma ReadLeaveInv(s: State, t: Tid, gs: seq<Guard>)
    requires Inv(s) && Of(s, t).pc.ReadUnlockSub? && NestingOf(Of(s, t).guards).ReadsOnly?
    requires (NestingOf(gs).ReadsOnly? || gs == []) && |gs| == |Of(s, t).guards| - 1
    ensures Inv(Set(s, t, Idle, gs).(lockNum := s.lockNum - 1, readers := s.readers - multiset{t}))
  {
    hide NestingOf, WriteGuards;
    var r := Set(s, t, Idle, gs).(lockNum := s.lockNum - 1, readers := s.readers - multiset{t});
    assert ThreadOk(s, t);
    NestingKnown(gs);
    NestingKnown(Of(s, t).guards);
    OthersKeep(s, r, t, Local(Idle, gs));
  }

  // t, already holding, enters another write guard.
  lemma WriteNestInv(s: State, t: Tid, gs: seq<Guard>)
    requires Inv(s) && Of(s, t).pc.WriteNest?
    requires NestingOf(gs).UnderWrite? && WriteGuards(gs) == WriteGuards(Of(s, t).guards) + 1
    ensures Inv(Set(s, t, Idle, gs).(lockNum := s.lockNum - 1))
  {
    hide NestingOf, WriteGuards;
    var r := Set(s, t, Idle, gs).(lockNum := s.lockNum - 1);
    assert ThreadOk(s, t);
    OthersKeep(s, r, t, Local(Idle, gs));
  }

  // The CAS from free to exclusive: nobody is inside any guard.
  lemma AcquireInv(s: State, t: Tid)
    requires Inv(s) && Of(s, t).pc.WriteCas? && s.lockNum == RW_LOCK_FREE
    ensures Inv(Set(s, t, WriteSetId, Of(s, t).guards).(lockNum := WRITE_EXCLUSIVE, holder := Some(t)))
  {
    hide NestingOf;
    var gs := Of(s, t).guards;
    var r := Set(s, t, WriteSetId, gs).(lockNum := WRITE_EXCLUSIVE, holder := Some(t));
    assert ThreadOk(s, t);
    LockNumFacts(s, t);
    NestingKnown(gs);
    assert gs == [];
    forall u: Tid ensures ThreadOk(s, u) && s.readers[u] == 0 {}
    OthersKeep(s, r, t, Local(WriteSetId, gs));
  }

  lemma SetIdInv(s: State, t: Tid)
    requires Inv(s) && Of(s, t).pc.WriteSetId?
    ensures Inv(Set(s, t, WriteSub, Of(s, t).guards).(writeThreadId := Some(t)))
  {
    hide NestingOf, WriteGuards;
    var gs := Of(s, t).guards;
    var r := Set(s, t, WriteSub, gs).(writeThreadId := Some(t));
    assert ThreadOk(s, t);
    OthersKeep(s, r, t, Local(WriteSub, gs));
  }

  // WriteLock returns: t is inside its first write guard.
  lemma WriteEnterInv(s: State, t: Tid)
    requires Inv(s) && Of(s, t).pc.WriteSub?
    ensures Inv(Set(s, t, Idle, Of(s, t).guards + [W]).(waitNum := s.waitNum - 1))
  {
    hide NestingOf, WriteGuards;
    var gs := Of(s, t).guards;
    var r := Set(s, t, Idle, gs + [W]).(waitNum := s.waitNum - 1);
    assert ThreadOk(s, t);
    Push(gs, W);
    NestingKnown(gs);
    OthersKeep(s, r, t, Local(Idle, gs + [W]));
  }

  // t leaves a write guard that is not its outermost.
  lemma WriteLeaveInnerInv(s: State, t: Tid, gs: seq<Guard>)
    requires Inv(s) && s.holder == Some(t) && Of(s, t).pc.WriteUnlockAdd?
    requires NestingOf(gs).UnderWrite? && WriteGuards(gs) == WriteGuards(Of(s, t).guards) - 1
    ensures Inv(Set(s, t, Idle, gs).(lockNum := s.lockNum + 1))
  {
    hide NestingOf, WriteGuards;
    var r := Set(s, t, Idle, gs).(lockNum := s.lockNum + 1);
    assert ThreadOk(s, t);
    NestingKnown(gs);
    OthersKeep(s, r, t, Local(Idle, gs));
  }

  // t leaves its outermost write guard: it owes the clearing of the id unless that is merged
  // with the add, or a leak kept lock_num_ below -1.
  lemma WriteLeaveInv(s: State, t: Tid, pc: Pc, id: Option<Tid>)
    requires Inv(s) && s.holder == Some(t) && Of(s, t).pc.WriteUnlockAdd? && WriteGuards(Of(s, t).guards) == 1
    requires pc == (if s.leaked == 0 && !s.atomicUnlock then WriteUnlockClearId else Idle)
    requires id == (if s.leaked == 0 && s.atomicUnlock then None else s.writeThreadId)
    ensures Inv(Set(s, t, pc, []).(lockNum := s.lockNum + 1, writeThreadId := id, holder := None))
  {
    hide NestingOf, WriteGuards;
    var r := Set(s, t, pc, []).(lockNum := s.lockNum + 1, writeThreadId := id, holder := None);
    assert ThreadOk(s, t);
    NestingKnown([]);
    OthersKeep(s, r, t, Local(pc, []));
  }

  lemma ClearIdInv(s: State, t: Tid)
    requires Inv(s) && Of(s, t).pc.WriteUnlockClearId?
    ensures Inv(Set(s, t, Idle, Of(s, t).guards).(writeThreadId := None))
  {
    hide NestingOf, WriteGuards;
    var gs := Of(s, t).guards;
    var r := Set(s, t, Idle, gs).(writeThreadId := None);
    assert ThreadOk(s, t);
    OthersKeep(s, r, t, Local(Idle, gs));
    if s.holder.Some? { assert ThreadOk(s, s.holder.value); }
  }

  lemma ThreadKnown(s: State, t: Tid)
    requires Inv(s)
    ensures ThreadOk(s, t)
    ensures s.lockNum >= 0 ==> s.holder.None? && s.leaked == 0
    ensures s.holder == Some(t) && !Entering(Of(s, t).pc) ==> s.lockNum + WriteGuards(Of(s, t).guards) + s.leaked == 0
    ensures s.holder.Some? ==> s.readers == multiset{}
  {
    assert ThreadOk(s, t);
    LockNumFacts(s, t);
  }

  lemma ReadLockInv(s: State, t: Tid, spurious: bool)
    requires Inv(s) && (Of(s, t).pc.ReadTestId? || Of(s, t).pc.ReadLoad? || Of(s, t).pc.ReadTest? ||
             Of(s, t).pc.ReadCas?)
    ensures Inv(Step(s, Event(t, Advance(spurious))))
  {
    hide Inv, NestingOf, WriteGuards;
    var l := Of(s, t);
    ThreadKnown(s, t);
    Push(l.guards, R);
    match l.pc
    case ReadTestId =>
      if s.writeThreadId == Some(t) { FreeReadInv(s, t, l.guards + [R]); } else { MoveInv(s, t, ReadLoad, s.waitNum); }
    case ReadLoad => MoveInv(s, t, ReadTest(s.lockNum), s.waitNum);
    case ReadTest(n) =>
      if n < RW_LOCK_FREE || (s.writeFirst && s.waitNum > 0) {
        MoveInv(s, t, ReadLoad, s.waitNum);
      } else {
        MoveInv(s, t, ReadCas(n), s.waitNum);
      }
    case ReadCas(n) =>
      if !spurious && s.lockNum == n {
        ReadEnterInv(s, t, l.guards + [R]);
      } else {
        MoveInv(s, t, ReadTest(s.lockNum), s.waitNum);
      }
  }

  lemma WriteLockInv(s: State, t: Tid, spurious: bool)
    requires Inv(s)
    requires var pc := Of(s, t).pc;
             pc.WriteTestId? || pc.WriteNest? || pc.WriteAdd? || pc.WriteCas? || Entering(pc)
    ensures Inv(Step(s, Event(t, Advance(spurious))))
  {
    hide Inv, NestingOf, WriteGuards;
    var l := Of(s, t);
    ThreadKnown(s, t);
    Push(l.guards, W);
    match l.pc
    case WriteTestId => MoveInv(s, t, if s.writeThreadId == Some(t) then WriteNest else WriteAdd, s.waitNum);
    case WriteNest => WriteNestInv(s, t, l.guards + [W]);
    case WriteAdd => MoveInv(s, t, WriteCas, s.waitNum + 1);
    case WriteCas => if !spurious && s.lockNum == RW_LOCK_FREE { AcquireInv(s, t); }
    case WriteSetId => SetIdInv(s, t);
    case WriteSub => WriteEnterInv(s, t);
  }

  lemma ReadUnlockInv(s: State, t: Tid, spurious: bool)
    requires Inv(s) && (Of(s, t).pc.ReadUnlockTestId? || Of(s, t).pc.ReadUnlockSub?)
    ensures Inv(Step(s, Event(t, Advance(spurious))))
  {
    hide Inv, NestingOf, WriteGuards, Inner;
    var l := Of(s, t);
    ThreadKnown(s, t);
    Pop(l.guards);
    NestingKnown(l.guards);
    NestingKnown(Inner(l.guards));
    match l.pc
    case ReadUnlockTestId =>
      if s.writeThreadId == Some(t) {
        FreeReadInv(s, t, Inner(l.guards));
      } else {
        MoveInv(s, t, ReadUnlockSub, s.waitNum);
      }
    case ReadUnlockSub =>
      if s.holder == Some(t) {
        assert s.readers - multiset{t} == s.readers;
        LeakInv(s, t, Inner(l.guards));
      } else {
        ReadLeaveInv(s, t, Inner(l.guards));
      }
  }

  lemma WriteUnlockInv(s: State, t: Tid, spurious: bool)
    requires Inv(s) && (Of(s, t).pc.WriteUnlockAdd? || Of(s, t).pc.WriteUnlockClearId?)
    ensures Inv(Step(s, Event(t, Advance(spurious))))
  {
    hide Inv, NestingOf, WriteGuards, Inner;
    var l := Of(s, t);
    ThreadKnown(s, t);
    NestingKnown(l.guards);
    match l.pc
    case WriteUnlockAdd =>
      Pop(l.guards);
      NestingKnown(Inner(l.guards));
      if WriteGuards(Inner(l.guards)) == 0 {
        WriteLeaveInv(s, t, if s.leaked == 0 && !s.atomicUnlock then WriteUnlockClearId else Idle,
                      if s.leaked == 0 && s.atomicUnlock then None else s.writeThreadId);
      } else {
        WriteLeaveInnerInv(s, t, Inner(l.guards));
      }
    case WriteUnlockClearId => ClearIdInv(s, t);
  }

  lemma StepInv(s: State, e: Event)
    requires Inv(s)
    ensures Inv(Step(s, e))
  {
    hide Inv, NestingOf, WriteGuards;
    var t, l := e.t, Of(s, e.t);
    ThreadKnown(s, t);
    NestingKnown(l.guards);
    match e.act
    case CallRead => if l.pc.Idle? { MoveInv(s, t, ReadTestId, s.waitNum); }
    case CallWrite => if l.pc.Idle? { MoveInv(s, t, WriteTestId, s.waitNum); }
    case CallUnlock =>
      if l.pc.Idle? && l.guards != [] {
        MoveInv(s, t, if l.guards[|l.guards| - 1] == R then ReadUnlockTestId else WriteUnlockAdd, s.waitNum);
      }
    case Advance(spurious) =>
      if l.pc.ReadTestId? || l.pc.ReadLoad? || l.pc.ReadTest? || l.pc.ReadCas? {
        ReadLockInv(s, t, spurious);
      } else if l.pc.ReadUnlockTestId? || l.pc.ReadUnlockSub? {
        ReadUnlockInv(s, t, spurious);
      } else if l.pc.WriteUnlockAdd? || l.pc.WriteUnlockClearId? {
        WriteUnlockInv(s, t, spurious);
      } else if !l.pc.Idle? {
        WriteLockInv(s, t, spurious);
      }
  }

  lemma {:induction false} RunInv(s: State, es: seq<Event>)
    requires Inv(s)
    ensures Inv(Run(s, es))
  {
    if es == [] {
    } else {
      RunInv(s, es[..|es| - 1]);
      StepInv(Run(s, es[..|es| - 1]), es[|es| - 1]);
    }
  }
}
