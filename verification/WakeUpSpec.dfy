/**
 The wake-up protocol of a one-channel routine: threads that dispatch messages, processors
 that pick the routine up, and the routine's own loop, one shared access per step
 (cyber/croutine/croutine.h, cyber/croutine/croutine.cpp, cyber/croutine/routine_factory.h,
 cyber/data/data_dispatcher.h, cyber/data/data_notifier.h, cyber/scheduler).

 The callback clears updated_ at least when it reads DATA_WAIT. `owner` is history: the
 processor that holds the routine's lock. `fetched` counts the successful TryFetch calls.
*/
module WakeUpSpec {
  import opened Common
  import opened Channels

  datatype RoutineState = READY | FINISHED | SLEEP | IO_WAIT | DATA_WAIT

  // Where a processor is: from Acquire, through UpdateState and Resume, to Release. While the
  // routine runs, the processor's place is the routine's place in its loop.
  datatype ProcPc =
    | Out
    | TestAndSet
    | SetReady(wasClear: bool)
    | Resume
    | RunSetWait
    | RunTryFetch
    | RunCallback
    | RunYieldReady
    | RunYield
    | Release

  // Where a dispatching thread is: it has filled the ring, and then has read the routine's state.
  datatype DispPc = Away | Filled | Clearing

  datatype State = State(
    tail: nat, size: nat, next: nat, routine: RoutineState, updated: bool, locked: bool,
    procs: map<Tid, ProcPc>, disps: map<Tid, DispPc>, owner: Option<Tid>, fetched: nat)

  // A dispatcher's `clearAnyway` lets its callback clear the flag without need.
  datatype Event = Processor(p: Tid) | Dispatcher(d: Tid, clearAnyway: bool)

  function ProcOf(s: State, p: Tid): ProcPc {
    if p in s.procs then s.procs[p] else Out
  }

  function DispOf(s: State, d: Tid): DispPc {
    if d in s.disps then s.disps[d] else Away
  }

  // A fresh routine is READY, its flag is set and nobody has it.
  function Init(size: nat): State {
    State(0, size, 0, READY, true, false, map[], map[], None, 0)
  }

  function Proc(s: State, p: Tid, pc: ProcPc): State {
    s.(procs := s.procs[p := pc])
  }

  function Disp(s: State, d: Tid, pc: DispPc): State {
    s.(disps := s.disps[d := pc])
  }

  function ProcessorStep(s: State, p: Tid): State {
    match ProcOf(s, p)
    case Out => if s.locked then s else Proc(s, p, TestAndSet).(locked := true, owner := Some(p))
    case TestAndSet => Proc(s, p, SetReady(!s.updated)).(updated := true)
    case SetReady(wasClear) =>
      var st := if wasClear && (s.routine == DATA_WAIT || s.routine == IO_WAIT) then READY else s.routine;
      Proc(s, p, if st == READY then Resume else Release).(routine := st)
    case Resume => Proc(s, p, if s.routine == READY then RunSetWait else Release)
    case RunSetWait => Proc(s, p, RunTryFetch).(routine := DATA_WAIT)
    case RunTryFetch =>
      (match FetchAnswer(s.tail, s.size, s.next)
       case Nothing => Proc(s, p, RunYield)
       case Found(pos, _) => Proc(s, p, RunCallback).(next := pos + 1, fetched := s.fetched + 1))
    case RunCallback => Proc(s, p, RunYieldReady)
    case RunYieldReady => Proc(s, p, Release).(routine := READY)
    case RunYield => Proc(s, p, Release)
    case Release => Proc(s, p, Out).(locked := false, owner := None)
  }

  function DispatcherStep(s: State, d: Tid, clearAnyway: bool): State {
    match DispOf(s, d)
    case Away => Disp(s, d, Filled).(tail := s.tail + 1)
    case Filled => Disp(s, d, if s.routine == DATA_WAIT || clearAnyway then Clearing else Away)
    case Clearing => Disp(s, d, Away).(updated := false)
  }

  function Step(s: State, e: Event): State {
    match e
    case Processor(p) => ProcessorStep(s, p)
    case Dispatcher(d, clearAnyway) => DispatcherStep(s, d, clearAnyway)
  }

  function Run(s: State, es: seq<Event>): State {
    if es == [] then s else Step(Run(s, es[..|es| - 1]), es[|es| - 1])
  }

  // ---------------------------------------------------------------- invariant

  // A TryFetch would succeed now.
  predicate Pending(s: State) {
    FetchAnswer(s.tail, s.size, s.next).Found?
  }

  // Some thread is between its Fill and the end of its callback.
  ghost predicate Dispatching(s: State) {
    exists d: Tid :: DispOf(s, d) != Away
  }

  function OwnerPc(s: State): ProcPc {
    if s.owner.None? then Out else ProcOf(s, s.owner.value)
  }

  // The routine will look at the ring again: it is READY, or runs before its TryFetch or after a
  // successful one, or waits with its flag clear (or with the clear flag just consumed).
  predicate WillLook(s: State) {
    || s.routine == READY
    || OwnerPc(s).RunTryFetch? || OwnerPc(s).RunCallback? || OwnerPc(s).RunYieldReady?
    || (s.routine == DATA_WAIT && (!s.updated || OwnerPc(s) == SetReady(true)))
  }

  // Exactly the lock holder is between Acquire and Release.
  ghost predicate LockInv(s: State) {
    && (s.locked <==> s.owner.Some?)
    && (forall p: Tid :: ProcOf(s, p) != Out <==> s.owner == Some(p))
  }

  // What the holder's place says about the routine.
  predicate RoutineInv(s: State) {
    && (s.routine == READY || s.routine == DATA_WAIT)
    && (OwnerPc(s).Resume? || OwnerPc(s).RunSetWait? ==> s.routine == READY)
    && (OwnerPc(s).RunTryFetch? || OwnerPc(s).RunCallback? || OwnerPc(s).RunYieldReady? || OwnerPc(s).RunYield? ==>
          s.routine == DATA_WAIT)
    && s.next <= s.tail + 1
  }

  ghost predicate Inv(s: State) {
    && LockInv(s)
    && RoutineInv(s)
    && (Pending(s) ==> Dispatching(s) || WillLook(s))
  }

  lemma ProcessorLock(s: State, p: Tid)
    requires LockInv(s)
    ensures LockInv(ProcessorStep(s, p))
    ensures ProcessorStep(s, p) == s || OwnerPc(ProcessorStep(s, p)) == ProcOf(ProcessorStep(s, p), p)
    ensures s.owner == None || ProcessorStep(s, p) == s || OwnerPc(s) == ProcOf(s, p)
    ensures Dispatching(s) ==> Dispatching(ProcessorStep(s, p))
  {
    var r := ProcessorStep(s, p);
    forall q: Tid ensures ProcOf(r, q) == if q == p then ProcOf(r, p) else ProcOf(s, q) {}
    forall d: Tid ensures DispOf(r, d) == DispOf(s, d) {}
    assert ProcOf(s, p) != Out <==> s.owner == Some(p);
  }

  lemma ProcessorInv(s: State, p: Tid)
    requires Inv(s)
    ensures Inv(ProcessorStep(s, p))
  {
    hide LockInv, Dispatching;
    ProcessorLock(s, p);
    OutMeansNotOwner(s, p);
  }

  lemma OutMeansNotOwner(s: State, p: Tid)
    requires LockInv(s)
    ensures ProcOf(s, p) != Out <==> s.owner == Some(p)
    ensures s.locked <==> s.owner.Some?
  {
  }

  lemma DispatcherInv(s: State, d: Tid, clearAnyway: bool)
    requires Inv(s)
    ensures Inv(DispatcherStep(s, d, clearAnyway))
  {
    var r := DispatcherStep(s, d, clearAnyway);
    forall q: Tid ensures ProcOf(r, q) == ProcOf(s, q) {}
    if DispOf(s, d).Away? {
      assert DispOf(r, d) != Away;
    } else if DispOf(r, d).Clearing? {
      assert DispOf(r, d) != Away;
    }
  }

  lemma StepInv(s: State, e: Event)
    requires Inv(s)
    ensures Inv(Step(s, e))
  {
    match e
    case Processor(p) => ProcessorInv(s, p);
    case Dispatcher(d, clearAnyway) => DispatcherInv(s, d, clearAnyway);
  }

  lemma {:induction false} RunInv(s: State, es: seq<Event>)
    requires Inv(s)
    ensures Inv(Run(s, es))
  {
    if es == [] {
    } else {
      RunInv(s, es[..|es| - 1]);
      StepInv(Run(s, es[..|es| - 1]), es[|es| - 1]);
    }
  }
}

module WakeUpTheorems {
  import opened Common
  import opened WakeUpSpec

  // No lost wake-up: whenever a message waits and no thread is between its Fill and the end of
  // its callback, the routine is bound to look at the ring again.
  lemma NoLostWakeUp(size: nat, es: seq<Event>)
    ensures var s := Run(Init(size), es);
            Pending(s) && !Dispatching(s) ==> WillLook(s)
  {
    RunInv(Init(size), es);
  }

  // At most one processor is anywhere between Acquire and Release of the routine.
  lemma OneProcessor(size: nat, es: seq<Event>, p: Tid, q: Tid)
    requires p != q
    ensures var s := Run(Init(size), es); ProcOf(s, p) == Out || ProcOf(s, q) == Out
  {
    RunInv(Init(size), es);
    var s := Run(Init(size), es);
    assert ProcOf(s, p) != Out <==> s.owner == Some(p);
    assert ProcOf(s, q) != Out <==> s.owner == Some(q);
  }

  // A processor's step that is not a failed attempt to take the routine.
  predicate Moves(s: State, e: Event) {
    e.Processor? && (s.owner.None? || s.owner == Some(e.p))
  }

  // Such steps until the waiting message is fetched.
  function Distance(s: State): nat {
    match OwnerPc(s)
    case RunTryFetch => 1
    case RunSetWait => 2
    case Resume => 3
    case SetReady(wasClear) => if wasClear || s.routine == READY then 4 else 8
    case TestAndSet => 5
    case Out => 6
    case Release => 7
    case RunYield => 8
    case RunYieldReady => 8
    case RunCallback => 9
  }

  ghost predicate Awaited(s: State) {
    Inv(s) && Pending(s) && WillLook(s)
  }

  lemma OwnerIs(s: State, p: Tid)
    requires LockInv(s)
    ensures s.owner == Some(p) ==> OwnerPc(s) == ProcOf(s, p) && s.locked
    ensures s.owner == None ==> ProcOf(s, p) == Out && OwnerPc(s) == Out && !s.locked
    ensures s.owner.Some? && s.owner != Some(p) ==> ProcOf(s, p) == Out && s.locked
  {
  }

  // Every such step comes exactly one closer to the fetch and loses neither the message nor the
  // wake-up.
  lemma OneCloser(s: State, e: Event)
    requires Awaited(s) && Moves(s, e)
    ensures var r := Step(s, e);
            if Distance(s) == 1 then r.fetched == s.fetched + 1
            else r.fetched == s.fetched && Awaited(r) && Distance(r) == Distance(s) - 1
  {
    hide LockInv, Dispatching;
    ProcessorInv(s, e.p);
    ProcessorLock(s, e.p);
    OwnerIs(s, e.p);
  }

  // Dispatching threads, and processors that find the routine taken, change nothing about that.
  lemma OthersDoNotHinder(s: State, e: Event)
    requires Awaited(s) && !Moves(s, e)
    ensures var r := Step(s, e); r.fetched == s.fetched && Awaited(r) && Distance(r) == Distance(s)
  {
    hide LockInv, Dispatching;
    StepInv(s, e);
    if e.Processor? { OwnerIs(s, e.p); }
  }

  function Count(s: State, es: seq<Event>): nat {
    if es == [] then 0
    else Count(s, es[..|es| - 1]) + if Moves(Run(s, es[..|es| - 1]), es[|es| - 1]) then 1 else 0
  }

  lemma StepFetches(s: State, e: Event)
    ensures Step(s, e).fetched >= s.fetched
  {
  }

  // The wake-up reaches its goal over any interleaving of processors and dispatching threads: a
  // message is fetched with the computed number, at most nine, of the processors' steps.
  lemma {:induction false} WakeUpDelivers(s: State, es: seq<Event>)
    requires Awaited(s)
    ensures 1 <= Distance(s) <= 9
    ensures var r := Run(s, es);
            if Count(s, es) < Distance(s)
            then r.fetched == s.fetched && Awaited(r) && Distance(r) == Distance(s) - Count(s, es)
            else r.fetched > s.fetched
  {
    hide Awaited, Step;
    if es == [] {
    } else {
      var p, e := es[..|es| - 1], es[|es| - 1];
      var q := Run(s, p);
      WakeUpDelivers(s, p);
      if Count(s, p) < Distance(s) {
        if Moves(q, e) { OneCloser(q, e); } else { OthersDoNotHinder(q, e); }
      } else {
        StepFetches(q, e);
      }
    }
  }
}
