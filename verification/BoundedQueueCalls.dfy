/**
 What a caller of the bounded queue gets: every call takes effect exactly once, with its own
 element and the answer it returns, false is answered for one reason only, and a call that
 runs undisturbed from any point ends.
*/
module BoundedQueueCalls {
  import opened Common
  import opened BoundedQueueSpec
  import opened BoundedQueueTheorems
  import opened RingSlots

  // ---------------------------------------------------------------- answers belong to calls

  datatype Call<T> = NoCall | Enqueue(x: T) | Dequeue

  predicate StartsCall<T>(s: State<T>, e: Event<T>, t: Tid) {
    e.t == t && !e.act.Advance? && CanCall(PcOf(s, t))
  }

  // The last call that t has made.
  function LastCall<T>(s0: State<T>, es: seq<Event<T>>, t: Tid): Call<T>
    requires 2 <= |s0.pool|
  {
    if es == [] then NoCall else
    var p, e := es[..|es| - 1], es[|es| - 1];
    if !StartsCall(Run(s0, p), e, t) then LastCall(s0, p, t)
    else if e.act.CallEnqueue? then Enqueue(e.act.x) else Dequeue
  }

  // What t's steps since that call have decided: its part of the trace that Linearizable replays.
  function Decided<T>(s0: State<T>, es: seq<Event<T>>, t: Tid): seq<Label<T>>
    requires 2 <= |s0.pool|
  {
    if es == [] then [] else
    var p, e := es[..|es| - 1], es[|es| - 1];
    if StartsCall(Run(s0, p), e, t) then []
    else if e.t == t && LabelOf(Run(s0, p), e) != Silent then Decided(s0, p, t) + [LabelOf(Run(s0, p), e)]
    else Decided(s0, p, t)
  }

  // Where a thread can be with a call and what its steps have decided.
  predicate Matches<T(==)>(pc: Pc<T>, call: Call<T>, ls: seq<Label<T>>, t: Tid) {
    match pc
    case Idle => call == NoCall && ls == []
    case EnqLoadTail(x) => call == Enqueue(x) && ls == []
    case EnqLoadHead(x, _) => call == Enqueue(x) && ls == []
    case EnqCasTail(x, _) => call == Enqueue(x) && ls == []
    case EnqWrite(x, _) => call == Enqueue(x) && ls == []
    case EnqCommit(x, _) => call == Enqueue(x) && ls == []
    case EnqReturn(ok) => call.Enqueue? && ls == [if ok then Enqueued(t, call.x) else FoundFull(t)]
    case DeqLoadHead => call == Dequeue && ls == []
    case DeqLoadCommit(_) => call == Dequeue && ls == []
    case DeqReadSlot(_) => call == Dequeue && ls == []
    case DeqCasHead(_, _) => call == Dequeue && ls == []
    case DeqReturn(got) => call == Dequeue && ls == [if got.Some? then Dequeued(t, got.value) else FoundEmpty(t)]
  }

  lemma OthersStand<T>(s: State<T>, e: Event<T>, t: Tid)
    requires 2 <= |s.pool| && e.t != t
    ensures PcOf(Step(s, e), t) == PcOf(s, t)
  {
    hide Slot;
  }

  lemma StepMatches<T>(s: State<T>, e: Event<T>, call: Call<T>, ls: seq<Label<T>>)
    requires 2 <= |s.pool| && Matches(PcOf(s, e.t), call, ls, e.t)
    ensures var t := e.t;
            var started := StartsCall(s, e, t);
            var call' := if !started then call else if e.act.CallEnqueue? then Enqueue(e.act.x) else Dequeue;
            var l := LabelOf(s, e);
            Matches(PcOf(Step(s, e), t), call', if started then [] else if l != Silent then ls + [l] else ls, t)
  {
    hide Slot;
    assert forall l: Label<T> :: [] + [l] == [l];
  }

  // Every call that has returned was decided by exactly one step of its own since it was made, with
  // the element that it was given and the answer that it returns; one that has not, by none.
  lemma {:induction false} AnswersOfCalls<T>(size: nat, zero: T, es: seq<Event<T>>, t: Tid)
    ensures var s0 := Init(size, zero);
            Matches(PcOf(Run(s0, es), t), LastCall(s0, es, t), Decided(s0, es, t), t)
  {
    hide Step, LabelOf, Matches;
    var s0 := Init(size, zero);
    if es == [] {
      NothingCalled<T>(t);
    } else {
      var p, e := es[..|es| - 1], es[|es| - 1];
      AnswersOfCalls(size, zero, p, t);
      if e.t == t {
        StepMatches(Run(s0, p), e, LastCall(s0, p, t), Decided(s0, p, t));
      } else {
        OthersStand(Run(s0, p), e, t);
      }
    }
  }

  lemma NothingCalled<T>(t: Tid)
    ensures Matches<T>(Idle, NoCall, [], t)
  {
  }

  // ---------------------------------------------------------------- the reason for false

  // A step decides that Enqueue answers false exactly when it is the load of head_, and either the
  // queue is full and the tail current, or the head has overtaken an outdated tail by whole laps.
  // In particular no failing CAS ends a call.
  lemma FalseExactly<T>(s: State<T>, e: Event<T>)
    requires Inv(s) && 2 <= |s.pool|
    ensures LabelOf(s, e).FoundFull? <==>
            && e.act.Advance? && PcOf(s, e.t).EnqLoadHead?
            && var oldTail, n := PcOf(s, e.t).oldTail, |s.pool|;
               || (oldTail == s.tail && s.tail - s.head - 1 == n - 2)
               || (oldTail < s.head && (oldTail + 1) % n == s.head % n)
  {
    hide Inv, Slot;
    if e.act.Advance? && PcOf(s, e.t).EnqLoadHead? {
      EnqueueFalseExactly(s, e.t, e.act.spurious);
    }
  }

  // ---------------------------------------------------------------- undisturbed calls end

  function DequeueDistance<T>(s: State<T>, t: Tid): nat {
    match PcOf(s, t)
    case DeqLoadHead => 4
    case DeqLoadCommit(h) => if h == s.head then 3 else 6
    case DeqReadSlot(h) => if h == s.head then 2 else 5
    case DeqCasHead(h, _) => if h == s.head then 1 else 4
    case _ => 0
  }

  predicate InDequeue<T>(pc: Pc<T>) {
    pc.DeqLoadHead? || pc.DeqLoadCommit? || pc.DeqReadSlot? || pc.DeqCasHead?
  }

  lemma DequeueCloser<T>(s: State<T>, t: Tid)
    requires 2 <= |s.pool| && InDequeue(PcOf(s, t))
    ensures var r := Step(s, Event(t, Advance(false)));
            PcOf(r, t).DeqReturn? || (InDequeue(PcOf(r, t)) && DequeueDistance(r, t) < DequeueDistance(s, t))
  {
    hide Slot;
  }

  lemma AloneFirst<T>(s: State<T>, t: Tid, n: nat)
    requires 2 <= |s.pool|
    ensures Alone(Step(s, Event(t, Advance(false))), t, n) == Alone(s, t, n + 1)
  {
    hide Step;
    AloneSplits(s, t, 1, n);
    assert Alone(s, t, 1) == Step(Alone(s, t, 0), Event(t, Advance(false)));
  }

  // From any point of Dequeue, however outdated what it has loaded, the call returns after at most
  // six steps of its own if nobody interferes.
  lemma {:induction false} DequeueEndsAlone<T>(s: State<T>, t: Tid) returns (n: nat)
    requires 2 <= |s.pool| && InDequeue(PcOf(s, t))
    ensures 1 <= n <= DequeueDistance(s, t) <= 6 && PcOf(Alone(s, t, n), t).DeqReturn?
    decreases DequeueDistance(s, t)
  {
    hide Step;
    var r := Step(s, Event(t, Advance(false)));
    DequeueCloser(s, t);
    AloneFirst(s, t, 0);
    if PcOf(r, t).DeqReturn? {
      n := 1;
      assert Alone(r, t, 0) == r;
    } else {
      var m := DequeueEndsAlone(r, t);
      n := m + 1;
      AloneFirst(s, t, m);
    }
  }

  predicate InEnqueue<T>(pc: Pc<T>) {
    pc.EnqLoadTail? || pc.EnqLoadHead? || pc.EnqCasTail? || OwnsTicket(pc)
  }

  function EnqueueDistance<T>(s: State<T>, t: Tid): nat {
    match PcOf(s, t)
    case EnqLoadTail(_) => 5
    case EnqLoadHead(_, k) => if k == s.tail then 4 else 6
    case EnqCasTail(_, k) => if k == s.tail then 3 else 5
    case EnqWrite(_, _) => 2
    case EnqCommit(_, _) => 1
    case _ => 0
  }

  // No ticket of another producer is outstanding.
  ghost predicate OthersCommitted<T>(s: State<T>, t: Tid) {
    s.commit == s.tail || (OwnsTicket(PcOf(s, t)) && s.commit == PcOf(s, t).ticket && s.tail == s.commit + 1)
  }

  lemma EnqueueCloser<T>(s: State<T>, t: Tid)
    requires Inv(s) && 2 <= |s.pool| && InEnqueue(PcOf(s, t)) && OthersCommitted(s, t)
    ensures var r := Step(s, Event(t, Advance(false)));
            || PcOf(r, t).EnqReturn?
            || (InEnqueue(PcOf(r, t)) && OthersCommitted(r, t) && EnqueueDistance(r, t) < EnqueueDistance(s, t))
  {
    hide Slot, Inv;
    PcKnown(s, t);
  }

  // From any point of Enqueue, if no ticket of another producer is outstanding, the call returns
  // after at most six steps of its own if nobody interferes.
  lemma {:induction false} EnqueueEndsAlone<T>(s: State<T>, t: Tid) returns (n: nat)
    requires Inv(s) && 2 <= |s.pool| && InEnqueue(PcOf(s, t)) && OthersCommitted(s, t)
    ensures 1 <= n <= EnqueueDistance(s, t) <= 6 && PcOf(Alone(s, t, n), t).EnqReturn?
    decreases EnqueueDistance(s, t)
  {
    hide Step, Inv, OthersCommitted;
    var r := Step(s, Event(t, Advance(false)));
    EnqueueCloser(s, t);
    StepInv(s, Event(t, Advance(false)));
    AloneFirst(s, t, 0);
    if PcOf(r, t).EnqReturn? {
      n := 1;
      assert Alone(r, t, 0) == r;
    } else {
      var m := EnqueueEndsAlone(r, t);
      n := m + 1;
      AloneFirst(s, t, m);
    }
  }
}
