/**
 What every run of the bounded queue guarantees: linearizability, ring ownership, exact
 failure answers and progress of commits.
*/
module BoundedQueueTheorems {
  import opened Common
  import opened BoundedQueueSpec
  import opened RingSlots

  // ---------------------------------------------------------------- linearizability

  // What a finished call tells its caller.
  datatype Label<T> = Silent | Enqueued(t: Tid, x: T) | Dequeued(t: Tid, x: T) | FoundEmpty(t: Tid) | FoundFull(t: Tid)

  // The answer given by this step, if it is the step that decides a call.
  function LabelOf<T>(s: State<T>, e: Event<T>): Label<T>
    requires 2 <= |s.pool|
  {
    var before, after := PcOf(s, e.t), PcOf(Step(s, e), e.t);
    if CanCall(before) then Silent else
    match after
    case EnqReturn(ok) =>
      if !ok then FoundFull(e.t) else if before.EnqCommit? then Enqueued(e.t, before.x) else Silent
    case DeqReturn(got) => if got.Some? then Dequeued(e.t, got.value) else FoundEmpty(e.t)
    case _ => Silent
  }

  function Trace<T>(s: State<T>, es: seq<Event<T>>): seq<Label<T>>
    requires 2 <= |s.pool|
  {
    if es == [] then []
    else Trace(s, es[..|es| - 1]) + [LabelOf(Run(s, es[..|es| - 1]), es[|es| - 1])]
  }

  // A sequential bounded FIFO queue; None when it could not have given that answer.
  ghost function Apply<T>(q: seq<T>, l: Label<T>, size: nat): Option<seq<T>> {
    match l
    case Silent => Some(q)
    case Enqueued(_, x) => if |q| < size then Some(q + [x]) else None
    case Dequeued(_, x) => if q != [] && q[0] == x then Some(q[1..]) else None
    case FoundEmpty(_) => if q == [] then Some(q) else None
    case FoundFull(_) => Some(q)
  }

  ghost function Replay<T>(ls: seq<Label<T>>, size: nat): Option<seq<T>> {
    if ls == [] then Some([])
    else
      var q := Replay(ls[..|ls| - 1], size);
      if q.None? then None else Apply(q.value, ls[|ls| - 1], size)
  }

  // The elements a consumer can obtain now, oldest first.
  ghost function Contents<T>(s: State<T>): seq<T>
    requires Counters(s)
  {
    s.enq[s.head..s.commit - 1]
  }

  lemma InvCounters<T>(s: State<T>)
    requires Inv(s)
    ensures Counters(s) && 2 <= |s.pool|
  {
  }

  // A successful commit CAS appends the caller's element.
  lemma CommitRefines<T>(s: State<T>, t: Tid)
    requires Counters(s) && PcOf(s, t).EnqCommit? && PcOk(s, PcOf(s, t)) && PcOf(s, t).ticket == s.commit
    ensures var r := Step(s, Event(t, Advance(false)));
            Counters(r) && |Contents(s)| < |s.pool| - 2 && Contents(r) == Contents(s) + [PcOf(s, t).x]
  {
  }

  // Any other step, except a successful CAS on head_, leaves the contents alone and answers truly.
  lemma OthersRefine<T>(s: State<T>, e: Event<T>)
    requires Counters(s) && Counters(Step(s, e)) && PcOk(s, PcOf(s, e.t))
    requires e.act == Advance(false) ==>
               && !(PcOf(s, e.t).EnqCommit? && PcOf(s, e.t).ticket == s.commit)
               && !(PcOf(s, e.t).DeqCasHead? && PcOf(s, e.t).oldHead == s.head)
    ensures Contents(Step(s, e)) == Contents(s)
    ensures Apply(Contents(s), LabelOf(s, e), |s.pool| - 2) == Some(Contents(s))
  {
    var r := Step(s, e);
    assert s.enq <= r.enq && s.head == r.head && s.commit == r.commit;
    assert Contents(r) == Contents(s);
  }

  // One step of any thread is one step of the sequential queue.
  lemma StepRefines<T>(s: State<T>, e: Event<T>)
    requires Inv(s) && Counters(s)
    ensures Inv(Step(s, e)) && Counters(Step(s, e))
    ensures Apply(Contents(s), LabelOf(s, e), |s.pool| - 2) == Some(Contents(Step(s, e)))
  {
    hide Inv, Counters, Contents, PcOk;
    InvCounters(s);
    StepInv(s, e);
    var t, pc := e.t, PcOf(s, e.t);
    InvCounters(Step(s, e));
    PcKnown(s, t);
    if e.act == Advance(false) && pc.EnqCommit? && pc.ticket == s.commit {
      CommitRefines(s, t);
    } else if e.act == Advance(false) && pc.DeqCasHead? && pc.oldHead == s.head {
      TakeRefines(s, t);
    } else {
      OthersRefine(s, e);
    }
  }

  // A successful CAS on head_ hands out the oldest element.
  lemma TakeRefines<T>(s: State<T>, t: Tid)
    requires Inv(s) && Counters(s) && PcOf(s, t).DeqCasHead? && PcOf(s, t).oldHead == s.head
    ensures var r := Step(s, Event(t, Advance(false)));
            Counters(r) && Contents(s) == [PcOf(s, t).value] + Contents(r)
  {
    hide Inv;
    PcKnown(s, t);
    TakeInv(s, t);
  }

  // Main theorem: in every interleaving of any number of threads the answers, in the order of
  // the deciding steps, are answers of one sequential FIFO queue of `size` elements.
  lemma {:induction false} Linearizable<T>(size: nat, zero: T, es: seq<Event<T>>)
    ensures var s := Run(Init(size, zero), es);
            Inv(s) && Replay(Trace(Init(size, zero), es), size) == Some(Contents(s))
  {
    hide Inv;
    var s0 := Init(size, zero);
    if es == [] {
      InitInv(size, zero);
      InvCounters(s0);
    } else {
      var prefix := es[..|es| - 1];
      Linearizable(size, zero, prefix);
      InvCounters(Run(s0, prefix));
      StepRefines(Run(s0, prefix), es[|es| - 1]);
      var ls := Trace(s0, es);
      assert ls[..|ls| - 1] == Trace(s0, prefix);
    }
  }

  // Values come out in ticket order: the n-th value handed out is the element of ticket n.
  lemma TicketOrder<T>(size: nat, zero: T, es: seq<Event<T>>)
    ensures var s := Run(Init(size, zero), es);
            |s.deq| == s.head && |s.enq| == s.tail - 1 && s.deq <= s.enq
  {
    InitInv(size, zero);
    RunInv(Init(size, zero), es);
  }

  // ---------------------------------------------------------------- ring ownership

  // In every reachable state the live window fits the ring, and a producer about to write
  // touches neither a committed unconsumed slot nor the slot of another producer.
  lemma RingOwnership<T>(size: nat, zero: T, es: seq<Event<T>>, t: Tid)
    ensures var s := Run(Init(size, zero), es);
            && s.head < s.commit <= s.tail && s.tail - s.head <= size + 1
            && (PcOf(s, t).EnqWrite? ==>
                  && (forall p {:trigger Slot(p, size + 2)} :: s.head < p < s.commit ==>
                        Slot(p, size + 2) != Slot(PcOf(s, t).ticket, size + 2))
                  && (forall u :: u != t && OwnsTicket(PcOf(s, u)) ==>
                        Slot(PcOf(s, u).ticket, size + 2) != Slot(PcOf(s, t).ticket, size + 2)))
  {
    var s := Run(Init(size, zero), es);
    InitInv(size, zero);
    RunInv(Init(size, zero), es);
    if PcOf(s, t).EnqWrite? {
      OthersElsewhere(s, t);
    }
  }

  lemma OthersElsewhere<T>(s: State<T>, t: Tid)
    requires Counters(s) && TicketsOwned(s) && OwnsTicket(PcOf(s, t))
    ensures forall p {:trigger Slot(p, |s.pool|)} :: s.head < p < s.tail && p != PcOf(s, t).ticket ==>
              Slot(p, |s.pool|) != Slot(PcOf(s, t).ticket, |s.pool|)
    ensures forall u :: u != t && OwnsTicket(PcOf(s, u)) ==>
              s.head < PcOf(s, u).ticket < s.tail && PcOf(s, u).ticket != PcOf(s, t).ticket
  {
    var k := PcOf(s, t).ticket;
    forall p {:trigger Slot(p, |s.pool|)} | s.head < p < s.tail && p != k
      ensures Slot(p, |s.pool|) != Slot(k, |s.pool|)
    {
      if p < k { DistinctSlots(|s.pool|, p, k); } else { DistinctSlots(|s.pool|, k, p); }
    }
  }

  // ---------------------------------------------------------------- failure answers

  // Dequeue answers false exactly when its head is current and nothing is committed behind it.
  lemma DequeueEmptyExactly<T>(s: State<T>, t: Tid, spurious: bool)
    requires Inv(s) && PcOf(s, t).DeqLoadCommit?
    ensures PcOf(Step(s, Event(t, Advance(spurious))), t) == DeqReturn(None)
            <==> PcOf(s, t).oldHead == s.head && Contents(s) == []
  {
    hide Inv;
    PcKnown(s, t);
  }

  // With a current tail, Enqueue answers false exactly when `size` tickets are outstanding.
  // With an outdated one it may answer false below that: see FullAnswerOnEmptyQueue.
  lemma EnqueueFullExactly<T>(s: State<T>, t: Tid, spurious: bool)
    requires Inv(s) && PcOf(s, t).EnqLoadHead? && PcOf(s, t).oldTail == s.tail
    ensures PcOf(Step(s, Event(t, Advance(spurious))), t) == EnqReturn(false)
            <==> s.tail - s.head - 1 == |s.pool| - 2
  {
    hide Inv;
    PcKnown(s, t);
    var n := |s.pool|;
    if s.tail + 1 < s.head + n {
      DistinctSlots(n, s.head, s.tail + 1);
    } else {
      assert Slot(s.head + n, n) == Slot(s.head, n);
    }
  }

  // The two reasons for answering false: the queue is full, or tail_ has moved since it was loaded
  // and head_ has overtaken that old tail by a whole number of laps. Only the first is a true "full".
  lemma EnqueueFalseExactly<T>(s: State<T>, t: Tid, spurious: bool)
    requires Inv(s) && PcOf(s, t).EnqLoadHead?
    ensures var oldTail, n := PcOf(s, t).oldTail, |s.pool|;
            PcOf(Step(s, Event(t, Advance(spurious))), t) == EnqReturn(false)
            <==> || (oldTail == s.tail && s.tail - s.head - 1 == n - 2)
                 || (oldTail < s.head && (oldTail + 1) % n == s.head % n)
  {
    hide Inv;
    PcKnown(s, t);
    var oldTail, n := PcOf(s, t).oldTail, |s.pool|;
    SlotIsRemainder(oldTail + 1, n);
    SlotIsRemainder(s.head, n);
    if oldTail == s.tail {
      EnqueueFullExactly(s, t, spurious);
    } else if s.head <= oldTail {
      DistinctSlots(n, s.head, oldTail + 1);
    }
  }

  // ---------------------------------------------------------------- progress

  // Thread t takes `n` steps on its own, no CAS failing spuriously.
  function Alone<T>(s: State<T>, t: Tid, n: nat): (r: State<T>)
    requires 2 <= |s.pool|
    ensures |r.pool| == |s.pool|
  {
    if n == 0 then s else Step(Alone(s, t, n - 1), Event(t, Advance(false)))
  }

  // commit_ moves exactly when the owner of that ticket performs its commit CAS, by one.
  lemma OnlyOwnerCommits<T>(s: State<T>, e: Event<T>)
    requires Inv(s)
    ensures Step(s, e).commit != s.commit <==>
            e.act == Advance(false) && s.commit < s.tail && e.t == Owner(s, s.commit) && PcOf(s, e.t).EnqCommit?
    ensures Step(s, e).commit != s.commit ==> Step(s, e).commit == s.commit + 1
  {
  }

  // The owner of the oldest uncommitted ticket commits it in at most two steps of its own.
  lemma OwnerCanCommit<T>(s: State<T>) returns (n: nat)
    requires Inv(s) && s.commit < s.tail
    ensures 1 <= n <= 2
    ensures var r := Alone(s, Owner(s, s.commit), n);
            r.commit == s.commit + 1 && r.tail == s.tail && r.head == s.head
  {
    var t := Owner(s, s.commit);
    assert OwnsTicket(PcOf(s, t)) && PcOf(s, t).ticket == s.commit;
    n := if PcOf(s, t).EnqWrite? then 2 else 1;
    assert Alone(s, t, 1) == Step(Alone(s, t, 0), Event(t, Advance(false)));
  }

  lemma {:induction false} AloneInv<T>(s: State<T>, t: Tid, n: nat)
    requires Inv(s)
    ensures Inv(Alone(s, t, n))
  {
    if n == 0 {
    } else {
      AloneInv(s, t, n - 1);
      StepInv(Alone(s, t, n - 1), Event(t, Advance(false)));
    }
  }

  // `owners[i]` in turn takes `counts[i]` steps alone.
  function InTurn<T>(s: State<T>, turns: seq<(Tid, nat)>): (r: State<T>)
    requires 2 <= |s.pool|
    ensures |r.pool| == |s.pool|
    decreases |turns|
  {
    if turns == [] then s else InTurn(Alone(s, turns[0].0, turns[0].1), turns[1..])
  }

  // The commit spin cannot deadlock: from any reachable state, producers that already hold
  // tickets can commit all of them, one after the other in ticket order, with at most two steps each.
  lemma {:induction false} AllTicketsCommit<T>(s: State<T>) returns (turns: seq<(Tid, nat)>)
    requires Inv(s)
    ensures |turns| == s.tail - s.commit
    ensures forall i :: 0 <= i < |turns| ==> 1 <= turns[i].1 <= 2
    ensures |s.owners| == s.tail - 1 && s.commit >= 1
    ensures forall i :: 0 <= i < |turns| ==> turns[i].0 == s.owners[s.commit + i - 1]
    ensures var r := InTurn(s, turns);
            Inv(r) && r.commit == r.tail == s.tail && r.head == s.head
    decreases s.tail - s.commit
  {
    hide Inv;
    InvCounters(s);
    if s.commit == s.tail {
      turns := [];
    } else {
      var t := Owner(s, s.commit);
      var n := OwnerCanCommit(s);
      AloneInv(s, t, n);
      InvCounters(Alone(s, t, n));
      AloneKeepsOwners(s, t, n);
      var rest := AllTicketsCommit(Alone(s, t, n));
      turns := [(t, n)] + rest;
      assert turns[1..] == rest;
      assert Alone(s, t, n).owners == s.owners;
    }
  }

  lemma {:induction false} AloneKeepsOwners<T>(s: State<T>, t: Tid, n: nat)
    requires 2 <= |s.pool|
    ensures s.owners <= Alone(s, t, n).owners
  {
    if n == 0 {
    } else { AloneKeepsOwners(s, t, n - 1); }
  }

  // A step of the producer whose ticket is next to commit, its CAS not failing spuriously.
  predicate AdvancesCommit<T>(s: State<T>, e: Event<T>) {
    1 <= s.commit <= |s.owners| && e.act == Advance(false) && e.t == Owner(s, s.commit)
  }

  function CommitSteps<T>(s: State<T>, es: seq<Event<T>>): nat
    requires 2 <= |s.pool|
  {
    if es == [] then 0
    else CommitSteps(s, es[..|es| - 1]) + if AdvancesCommit(Run(s, es[..|es| - 1]), es[|es| - 1]) then 1 else 0
  }

  // Such steps until ticket `goal` - 1 is committed: two for each ticket, one less if the next
  // owner has written its slot.
  function CommitDistance<T>(s: State<T>, goal: nat): nat {
    if goal <= s.commit then 0
    else 2 * (goal - s.commit) - if 1 <= s.commit <= |s.owners| && PcOf(s, Owner(s, s.commit)).EnqCommit? then 1 else 0
  }

  lemma OwnerKnown<T>(s: State<T>)
    requires Inv(s) && s.commit < s.tail
    ensures Counters(s) && OwnsTicket(PcOf(s, Owner(s, s.commit))) && PcOf(s, Owner(s, s.commit)).ticket == s.commit
  {
  }

  lemma CommitCloser<T>(s: State<T>, e: Event<T>, goal: nat)
    requires Inv(s) && s.commit < goal <= s.tail
    ensures var r := Step(s, e);
            && s.commit <= r.commit && r.tail >= s.tail
            && CommitDistance(r, goal) <= CommitDistance(s, goal) - if AdvancesCommit(s, e) then 1 else 0
  {
    hide Inv, Slot;
    OwnerKnown(s);
    PcKnown(s, e.t);
    OnlyOwnerCommits(s, e);
    var r, t := Step(s, e), Owner(s, s.commit);
    if r.commit == s.commit {
      assert Owner(r, r.commit) == t;
      assert e.t != t ==> PcOf(r, t) == PcOf(s, t);
    }
  }

  lemma CommitNeverFallsBack<T>(s: State<T>, e: Event<T>)
    requires Inv(s)
    ensures s.commit <= Step(s, e).commit && s.tail <= Step(s, e).tail
  {
    OnlyOwnerCommits(s, e);
  }

  // Commit progress over any interleaving: whatever other threads do, every outstanding ticket
  // below `goal` is committed once the owners in turn have made that many steps.
  lemma {:induction false} CommitsOverAnyRun<T>(s: State<T>, es: seq<Event<T>>, goal: nat)
    requires Inv(s) && s.commit <= goal <= s.tail
    ensures CommitDistance(s, goal) <= 2 * (goal - s.commit)
    ensures var r := Run(s, es);
            && Inv(r) && s.commit <= r.commit && s.tail <= r.tail
            && (r.commit < goal ==> CommitDistance(r, goal) + CommitSteps(s, es) <= CommitDistance(s, goal))
            && (CommitSteps(s, es) >= CommitDistance(s, goal) ==> goal <= r.commit)
  {
    hide Inv, Step, AdvancesCommit;
    InvCounters(s);
    if es == [] {
      DistancePositive(s, goal);
    } else {
      var p, e := es[..|es| - 1], es[|es| - 1];
      var q := Run(s, p);
      CommitsOverAnyRun(s, p, goal);
      StepInv(q, e);
      CommitNeverFallsBack(q, e);
      if q.commit < goal { CommitCloser(q, e, goal); }
      DistancePositive(Run(s, es), goal);
    }
  }

  lemma DistancePositive<T>(s: State<T>, goal: nat)
    ensures s.commit < goal ==> CommitDistance(s, goal) >= 1
  {
  }

  // ---------------------------------------------------------------- undisturbed calls

  // Once no enqueue is in flight, a call that runs undisturbed is exactly the sequential operation.
  function EnqueueAlone<T>(s: State<T>, t: Tid, x: T): (r: State<T>)
    requires 2 <= |s.pool|
    ensures |r.pool| == |s.pool|
  {
    Alone(Step(s, Event(t, CallEnqueue(x))), t, 5)
  }

  function DequeueAlone<T>(s: State<T>, t: Tid): (r: State<T>)
    requires 2 <= |s.pool|
    ensures |r.pool| == |s.pool|
  {
    Alone(Step(s, Event(t, CallDequeue)), t, 4)
  }

  lemma GotoTwice<T>(s: State<T>, t: Tid, a: Pc<T>, b: Pc<T>)
    ensures Goto(Goto(s, t, a), t, b) == Goto(s, t, b)
  {
    assert s.pcs[t := a][t := b] == s.pcs[t := b];
  }

  // Up to the head test, the call has only moved its own program counter.
  lemma EnqueueAloneLoads<T>(s: State<T>, t: Tid, x: T)
    requires 2 <= |s.pool| && CanCall(PcOf(s, t))
    ensures var s1 := Step(s, Event(t, CallEnqueue(x)));
            Alone(s1, t, 1) == Goto(s, t, EnqLoadHead(x, s.tail))
  {
    var s1 := Step(s, Event(t, CallEnqueue(x)));
    Unroll(s1, t);
    GotoTwice(s, t, EnqLoadTail(x), EnqLoadHead(x, s.tail));
  }

  lemma EnqueueAloneWrites<T>(s: State<T>, t: Tid, x: T)
    requires 2 <= |s.pool| && PcOf(s, t) == EnqLoadHead(x, s.tail) && s.commit == s.tail
    requires Slot(s.tail + 1, |s.pool|) != Slot(s.head, |s.pool|)
    ensures Alone(s, t, 4) == Goto(s, t, EnqReturn(true)).(
              tail := s.tail + 1, commit := s.tail + 1, pool := s.pool[Slot(s.tail, |s.pool|) := x],
              enq := s.enq + [x], owners := s.owners + [t])
  {
    hide Slot;
    Unroll(s, t);
    GotoTwice(s, t, EnqCasTail(x, s.tail), EnqWrite(x, s.tail));
    GotoTwice(s, t, EnqWrite(x, s.tail), EnqCommit(x, s.tail));
    GotoTwice(s, t, EnqCommit(x, s.tail), EnqReturn(true));
    assert Alone(s, t, 1) == Goto(s, t, EnqCasTail(x, s.tail));
    var a := Goto(s, t, EnqWrite(x, s.tail)).(tail := s.tail + 1, enq := s.enq + [x], owners := s.owners + [t]);
    assert Alone(s, t, 2) == a;
    var b := Goto(s, t, EnqCommit(x, s.tail)).(
              tail := s.tail + 1, pool := s.pool[Slot(s.tail, |s.pool|) := x], enq := s.enq + [x],
                  owners := s.owners + [t]);
    assert Alone(s, t, 3) == b;
  }

  lemma {:induction false} AloneSplits<T>(s: State<T>, t: Tid, m: nat, n: nat)
    requires 2 <= |s.pool|
    ensures Alone(Alone(s, t, m), t, n) == Alone(s, t, m + n)
  {
    hide Step;
    if n == 0 {
    } else { AloneSplits(s, t, m, n - 1); }
  }

  lemma {:induction false} AloneIdles<T>(s: State<T>, t: Tid, n: nat)
    requires 2 <= |s.pool| && CanCall(PcOf(s, t))
    ensures Alone(s, t, n) == s
  {
    if n == 0 {
    } else { AloneIdles(s, t, n - 1); }
  }

  // An undisturbed Enqueue with other tickets outstanding draws its own, writes, and waits.
  lemma EnqueueAloneSpins<T>(s: State<T>, t: Tid, x: T)
    requires 2 <= |s.pool| && PcOf(s, t) == EnqLoadHead(x, s.tail) && s.commit != s.tail
    requires Slot(s.tail + 1, |s.pool|) != Slot(s.head, |s.pool|)
    ensures Alone(s, t, 4) == Goto(s, t, EnqCommit(x, s.tail)).(
              tail := s.tail + 1, pool := s.pool[Slot(s.tail, |s.pool|) := x],
              enq := s.enq + [x], owners := s.owners + [t])
  {
    hide Slot;
    Unroll(s, t);
    GotoTwice(s, t, EnqCasTail(x, s.tail), EnqWrite(x, s.tail));
    GotoTwice(s, t, EnqWrite(x, s.tail), EnqCommit(x, s.tail));
    assert Alone(s, t, 1) == Goto(s, t, EnqCasTail(x, s.tail));
    var a := Goto(s, t, EnqWrite(x, s.tail)).(tail := s.tail + 1, enq := s.enq + [x], owners := s.owners + [t]);
    assert Alone(s, t, 2) == a;
  }

  // An undisturbed Enqueue answers false exactly when `size` tickets are outstanding or unconsumed.
  // Otherwise it appends, or, if another producer has yet to commit, waits for that one.
  lemma EnqueueAloneAnswers<T>(s: State<T>, t: Tid, x: T)
    requires Inv(s) && Counters(s) && CanCall(PcOf(s, t))
    ensures var r := EnqueueAlone(s, t, x); var full := s.tail - s.head - 1 == |s.pool| - 2;
            && Inv(r) && Counters(r) && r.head == s.head
            && (full ==> r.pcs == s.pcs[t := EnqReturn(false)] && r.tail == s.tail && Contents(r) == Contents(s))
            && (!full && s.commit == s.tail ==>
                  r.pcs == s.pcs[t := EnqReturn(true)] && r.commit == r.tail && Contents(r) == Contents(s) + [x])
            && (!full && s.commit != s.tail ==>
                  r.pcs == s.pcs[t := EnqCommit(x, s.tail)] && r.commit == s.commit && Contents(r) == Contents(s))
  {
    hide Inv, Slot, Step;
    var s1 := Step(s, Event(t, CallEnqueue(x)));
    var s2 := Goto(s, t, EnqLoadHead(x, s.tail));
    EnqueueAloneLoads(s, t, x);
    StepInv(s, Event(t, CallEnqueue(x)));
    AloneInv(s1, t, 5);
    InvCounters(Alone(s1, t, 5));
    AloneInv(s1, t, 1);
    AloneSplits(s1, t, 1, 4);
    EnqueueFullExactly(s2, t, false);
    FullTest(s2, t);
    if s.tail - s.head - 1 == |s.pool| - 2 {
      GotoTwice(s, t, EnqLoadHead(x, s.tail), EnqReturn(false));
      AloneSplits(s2, t, 1, 3);
      Unroll(s2, t);
      AloneIdles(Alone(s2, t, 1), t, 3);
    } else if s.commit == s.tail {
      EnqueueAloneWrites(s2, t, x);
      GotoTwice(s, t, EnqLoadHead(x, s.tail), EnqReturn(true));
    } else {
      EnqueueAloneSpins(s2, t, x);
      GotoTwice(s, t, EnqLoadHead(x, s.tail), EnqCommit(x, s.tail));
    }
  }

  lemma FullTest<T>(s: State<T>, t: Tid)
    requires 2 <= |s.pool| && PcOf(s, t).EnqLoadHead?
    ensures Step(s, Event(t, Advance(false))) ==
            if Slot(PcOf(s, t).oldTail + 1, |s.pool|) == Slot(s.head, |s.pool|) then Goto(s, t, EnqReturn(false))
            else Goto(s, t, EnqCasTail(PcOf(s, t).x, PcOf(s, t).oldTail))
  {
  }

  lemma DequeueAloneLoads<T>(s: State<T>, t: Tid)
    requires 2 <= |s.pool| && CanCall(PcOf(s, t))
    ensures Alone(Step(s, Event(t, CallDequeue)), t, 1) == Goto(s, t, DeqLoadCommit(s.head))
  {
    var s1 := Step(s, Event(t, CallDequeue));
    Unroll(s1, t);
    GotoTwice(s, t, DeqLoadHead, DeqLoadCommit(s.head));
  }

  lemma DequeueAloneFindsNone<T>(s: State<T>, t: Tid)
    requires 2 <= |s.pool| && PcOf(s, t) == DeqLoadCommit(s.head) && s.head + 1 == s.commit
    ensures Alone(s, t, 3) == Goto(s, t, DeqReturn(None))
  {
    hide Slot;
    Unroll(s, t);
    assert Alone(s, t, 1) == Goto(s, t, DeqReturn(None));
    AloneSplits(s, t, 1, 2);
    AloneIdles(Alone(s, t, 1), t, 2);
  }

  lemma DequeueAloneTakes<T>(s: State<T>, t: Tid, v: T)
    requires 2 <= |s.pool| && PcOf(s, t) == DeqLoadCommit(s.head) && s.head + 1 != s.commit
    requires s.pool[Slot(s.head + 1, |s.pool|)] == v
    ensures Alone(s, t, 3) == Goto(s, t, DeqReturn(Some(v))).(head := s.head + 1, deq := s.deq + [v])
  {
    hide Slot;
    Unroll(s, t);
    GotoTwice(s, t, DeqReadSlot(s.head), DeqCasHead(s.head, v));
    GotoTwice(s, t, DeqCasHead(s.head, v), DeqReturn(Some(v)));
    assert Alone(s, t, 1) == Goto(s, t, DeqReadSlot(s.head));
    assert Alone(s, t, 2) == Goto(s, t, DeqCasHead(s.head, v));
  }

  // An undisturbed Dequeue hands out the oldest element and answers false exactly when there is none.
  lemma DequeueAloneAnswers<T>(s: State<T>, t: Tid)
    requires Inv(s) && Counters(s) && CanCall(PcOf(s, t))
    ensures var r := DequeueAlone(s, t);
            && Inv(r) && Counters(r) && r.commit == s.commit && r.tail == s.tail
            && (if Contents(s) == [] then r.head == s.head && r.pcs == s.pcs[t := DeqReturn(None)]
                else && r.head == s.head + 1
                     && r.pcs == s.pcs[t := DeqReturn(Some(Contents(s)[0]))]
                     && Contents(r) == Contents(s)[1..])
  {
    hide Inv, Slot, Step, Alone;
    var s1 := Step(s, Event(t, CallDequeue));
    var s2 := Goto(s, t, DeqLoadCommit(s.head));
    StepInv(s, Event(t, CallDequeue));
    AloneInv(s1, t, 4);
    InvCounters(Alone(s1, t, 4));
    DequeueAloneLoads(s, t);
    AloneSplits(s1, t, 1, 3);
    if Contents(s) == [] {
      DequeueAloneFindsNone(s2, t);
      GotoTwice(s, t, DeqLoadCommit(s.head), DeqReturn(None));
    } else {
      var v := Elem(s, s.head + 1);
      SlotHolds(s, s.head + 1);
      DequeueAloneTakes(s2, t, v);
      GotoTwice(s, t, DeqLoadCommit(s.head), DeqReturn(Some(v)));
    }
  }

  lemma Unroll<T>(s: State<T>, t: Tid)
    requires 2 <= |s.pool|
    ensures Alone(s, t, 0) == s
    ensures Alone(s, t, 1) == Step(Alone(s, t, 0), Event(t, Advance(false)))
    ensures Alone(s, t, 2) == Step(Alone(s, t, 1), Event(t, Advance(false)))
    ensures Alone(s, t, 3) == Step(Alone(s, t, 2), Event(t, Advance(false)))
    ensures Alone(s, t, 4) == Step(Alone(s, t, 3), Event(t, Advance(false)))
    ensures Alone(s, t, 5) == Step(Alone(s, t, 4), Event(t, Advance(false)))
  {
  }

  // ---------------------------------------------------------------- a false "full"

  ghost predicate Reachable<T(!new)>(size: nat, zero: T, s: State<T>) {
    exists es :: Run(Init(size, zero), es) == s
  }

  lemma StepReachable<T(!new)>(size: nat, zero: T, s: State<T>, e: Event<T>)
    requires Reachable(size, zero, s) && 2 <= |s.pool|
    ensures Reachable(size, zero, Step(s, e))
  {
    var es :| Run(Init(size, zero), es) == s;
    assert (es + [e])[..|es|] == es;
    assert Run(Init(size, zero), es + [e]) == Step(s, e);
  }

  lemma {:induction false} AloneReachable<T(!new)>(size: nat, zero: T, s: State<T>, t: Tid, n: nat)
    requires Reachable(size, zero, s) && 2 <= |s.pool|
    ensures Reachable(size, zero, Alone(s, t, n))
  {
    if n == 0 {
    } else {
      AloneReachable(size, zero, s, t, n - 1);
      StepReachable(size, zero, Alone(s, t, n - 1), Event(t, Advance(false)));
    }
  }

  // One element goes in and out again while every other thread stands still.
  lemma PassOneThrough<T(!new)>(size: nat, zero: T, s: State<T>, t: Tid, x: T) returns (r: State<T>)
    requires Reachable(size, zero, s) && Inv(s) && Counters(s)
    requires CanCall(PcOf(s, t)) && s.commit == s.tail == s.head + 1 && 2 < |s.pool|
    ensures Reachable(size, zero, r) && Inv(r) && Counters(r)
    ensures CanCall(PcOf(r, t)) && r.commit == r.tail == r.head + 1 && r.head == s.head + 1 && |r.pool| == |s.pool|
    ensures forall u :: u != t ==> PcOf(r, u) == PcOf(s, u)
  {
    hide Inv, Slot, Step, Alone, Reachable;
    assert Contents(s) == [];
    EnqueueAloneAnswers(s, t, x);
    StepReachable(size, zero, s, Event(t, CallEnqueue(x)));
    AloneReachable(size, zero, Step(s, Event(t, CallEnqueue(x))), t, 5);
    var m := EnqueueAlone(s, t, x);
    DequeueAloneAnswers(m, t);
    StepReachable(size, zero, m, Event(t, CallDequeue));
    AloneReachable(size, zero, Step(m, Event(t, CallDequeue)), t, 4);
    r := DequeueAlone(m, t);
  }

  // Not every "full" answer is one: with size 1, a producer that loaded tail_, then lost the
  // processor while two elements passed through, is told the queue is full although it is empty.
  lemma FullAnswerOnEmptyQueue<T(!new)>(zero: T, x: T) returns (s: State<T>)
    ensures Reachable(1, zero, s) && Inv(s) && Counters(s)
    ensures s.enq[s.head..] == [] && s.commit == s.tail
    ensures PcOf(s, 0).EnqLoadHead? && PcOf(Step(s, Event(0, Advance(false))), 0) == EnqReturn(false)
  {
    hide Inv;
    var s0 := Init(1, zero);
    InitInv(1, zero);
    assert Run(s0, []) == s0;
    var s1 := Step(s0, Event(0, CallEnqueue(x)));
    StepReachable(1, zero, s0, Event(0, CallEnqueue(x)));
    StepInv(s0, Event(0, CallEnqueue(x)));
    AloneReachable(1, zero, s1, 0, 1);
    AloneInv(s1, 0, 1);
    EnqueueAloneLoads(s0, 0, x);
    InvCounters(Alone(s1, 0, 1));
    var s2 := PassOneThrough(1, zero, Alone(s1, 0, 1), 1, x);
    s := PassOneThrough(1, zero, s2, 1, x);
    assert PcOf(s, 0) == PcOf(s2, 0) == EnqLoadHead(x, 1);
    FullTest(s, 0);
  }
}
