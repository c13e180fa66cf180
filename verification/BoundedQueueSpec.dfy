/**
 The bounded multi-producer, multi-consumer ring of cyber/base/bounded_queue.h, one
 atomic access per step, for any number of threads.

 `enq`, `deq` and `owners` are history: the elements in ticket order, the values handed
 out in order, and the thread that drew each ticket. No step reads them.
*/
module BoundedQueueSpec {
  import opened Common
  import opened RingSlots

  // What a thread does next.
  datatype Pc<T> =
    | Idle
    | EnqLoadTail(x: T)
    | EnqLoadHead(x: T, oldTail: nat)
    | EnqCasTail(x: T, oldTail: nat)
    | EnqWrite(x: T, ticket: nat)
    | EnqCommit(x: T, ticket: nat)
    | EnqReturn(ok: bool)
    | DeqLoadHead
    | DeqLoadCommit(oldHead: nat)
    | DeqReadSlot(oldHead: nat)
    | DeqCasHead(oldHead: nat, value: T)
    | DeqReturn(got: Option<T>)

  datatype State<T> = State(
    head: nat, tail: nat, commit: nat, pool: seq<T>, pcs: map<Tid, Pc<T>>,
    enq: seq<T>, deq: seq<T>, owners: seq<Tid>)

  // `Advance` performs the thread's next access; `spurious` is the weak CAS failing for no reason.
  datatype Action<T> = CallEnqueue(x: T) | CallDequeue | Advance(spurious: bool)

  datatype Event<T> = Event(t: Tid, act: Action<T>)

  function PcOf<T>(s: State<T>, t: Tid): Pc<T> {
    if t in s.pcs then s.pcs[t] else Idle
  }

  predicate CanCall<T>(pc: Pc<T>) {
    pc.Idle? || pc.EnqReturn? || pc.DeqReturn?
  }

  // The state after Init(size): the ring has `size + 2` default elements.
  function Init<T>(size: nat, zero: T): (s: State<T>)
    ensures |s.pool| == size + 2
  {
    State(0, 1, 1, seq(size + 2, _ => zero), map[], [], [], [])
  }

  function Goto<T>(s: State<T>, t: Tid, pc: Pc<T>): State<T> {
    s.(pcs := s.pcs[t := pc])
  }

  function Step<T>(s: State<T>, e: Event<T>): (r: State<T>)
    requires 2 <= |s.pool|
    ensures |r.pool| == |s.pool|
  {
    var t, pc := e.t, PcOf(s, e.t);
    match e.act
    case CallEnqueue(x) => if CanCall(pc) then Goto(s, t, EnqLoadTail(x)) else s
    case CallDequeue => if CanCall(pc) then Goto(s, t, DeqLoadHead) else s
    case Advance(spurious) =>
      match pc
      case EnqLoadTail(x) => Goto(s, t, EnqLoadHead(x, s.tail))
      case EnqLoadHead(x, oldTail) =>
        if Slot(oldTail + 1, |s.pool|) == Slot(s.head, |s.pool|)
        then Goto(s, t, EnqReturn(false))
        else Goto(s, t, EnqCasTail(x, oldTail))
      case EnqCasTail(x, oldTail) =>
        if !spurious && s.tail == oldTail
        then Goto(s, t, EnqWrite(x, oldTail)).(tail := oldTail + 1, enq := s.enq + [x], owners := s.owners + [t])
        else Goto(s, t, EnqLoadHead(x, s.tail))
      case EnqWrite(x, ticket) =>
        Goto(s, t, EnqCommit(x, ticket)).(pool := s.pool[Slot(ticket, |s.pool|) := x])
      case EnqCommit(x, ticket) =>
        if !spurious && s.commit == ticket
        then Goto(s, t, EnqReturn(true)).(commit := ticket + 1)
        else s
      case DeqLoadHead => Goto(s, t, DeqLoadCommit(s.head))
      case DeqLoadCommit(oldHead) =>
        if oldHead + 1 == s.commit then Goto(s, t, DeqReturn(None)) else Goto(s, t, DeqReadSlot(oldHead))
      case DeqReadSlot(oldHead) =>
        Goto(s, t, DeqCasHead(oldHead, s.pool[Slot(oldHead + 1, |s.pool|)]))
      case DeqCasHead(oldHead, value) =>
        if !spurious && s.head == oldHead
        then Goto(s, t, DeqReturn(Some(value))).(head := oldHead + 1, deq := s.deq + [value])
        else Goto(s, t, DeqLoadCommit(s.head))
      case _ => s
  }

  function Run<T>(s: State<T>, es: seq<Event<T>>): (r: State<T>)
    requires 2 <= |s.pool|
    ensures |r.pool| == |s.pool|
  {
    if es == [] then s else Step(Run(s, es[..|es| - 1]), es[|es| - 1])
  }

  // ---------------------------------------------------------------- invariant

  // The element and the producer of a ticket; tickets start at 1.
  function Elem<T>(s: State<T>, k: nat): T
    requires 1 <= k <= |s.enq|
  {
    s.enq[k - 1]
  }

  function Owner<T>(s: State<T>, k: nat): Tid
    requires 1 <= k <= |s.owners|
  {
    s.owners[k - 1]
  }

  predicate OwnsTicket<T>(pc: Pc<T>) {
    pc.EnqWrite? || pc.EnqCommit?
  }

  // The counters: the window head..tail fits the ring with one slot to spare.
  predicate Counters<T>(s: State<T>) {
    && 2 <= |s.pool|
    && s.head < s.commit <= s.tail
    && s.tail - s.head <= |s.pool| - 1
    && |s.enq| == |s.owners| == s.tail - 1
    && |s.deq| == s.head
  }

  // What each program point knows, whatever other threads did since its loads.
  ghost predicate PcOk<T>(s: State<T>, pc: Pc<T>)
    requires Counters(s)
  {
    match pc
    case EnqLoadHead(_, oldTail) => 1 <= oldTail <= s.tail
    case EnqCasTail(_, oldTail) =>
      1 <= oldTail <= s.tail && (oldTail == s.tail ==> oldTail + 1 - s.head <= |s.pool| - 1)
    case EnqWrite(x, k) => s.commit <= k < s.tail && Elem(s, k) == x
    case EnqCommit(x, k) => s.commit <= k < s.tail && Elem(s, k) == x && s.pool[Slot(k, |s.pool|)] == x
    case DeqLoadCommit(oldHead) => oldHead <= s.head
    case DeqReadSlot(oldHead) => oldHead <= s.head && (oldHead == s.head ==> oldHead + 1 < s.commit)
    case DeqCasHead(oldHead, v) =>
      oldHead <= s.head &&
      (oldHead == s.head ==> oldHead + 1 < s.commit && v == Elem(s, oldHead + 1))
    case _ => true
  }

  // Every ticket drawn and not yet committed belongs to the producer that drew it, and to no other.
  ghost predicate TicketsOwned<T>(s: State<T>)
    requires Counters(s)
  {
    && (forall k :: s.commit <= k < s.tail ==>
          OwnsTicket(PcOf(s, Owner(s, k))) && PcOf(s, Owner(s, k)).ticket == k)
    && (forall t :: OwnsTicket(PcOf(s, t)) ==>
          s.commit <= PcOf(s, t).ticket < s.tail && Owner(s, PcOf(s, t).ticket) == t)
  }

  ghost predicate Inv<T>(s: State<T>) {
    && Counters(s)
    && s.deq == s.enq[..s.head]
    && (forall p :: s.head < p < s.commit ==> s.pool[Slot(p, |s.pool|)] == Elem(s, p))
    && TicketsOwned(s)
    && (forall t :: PcOk(s, PcOf(s, t)))
  }

  lemma InitInv<T>(size: nat, zero: T)
    ensures Inv(Init(size, zero))
  {
  }

  lemma PcKnown<T>(s: State<T>, t: Tid)
    requires Inv(s)
    ensures Counters(s) && PcOk(s, PcOf(s, t))
  {
  }

  lemma SlotHolds<T>(s: State<T>, p: nat)
    requires Inv(s) && s.head < p < s.commit
    ensures s.pool[Slot(p, |s.pool|)] == Elem(s, p)
  {
  }

  // A step that only moves thread t to a program point that owns no ticket.
  lemma GotoInv<T>(s: State<T>, t: Tid, pc: Pc<T>)
    requires Inv(s) && PcOk(s, pc) && !OwnsTicket(pc) && !OwnsTicket(PcOf(s, t))
    ensures Inv(Goto(s, t, pc))
  {
    var r := Goto(s, t, pc);
    forall u ensures PcOf(r, u) == if u == t then pc else PcOf(s, u) {}
    forall k | r.commit <= k < r.tail
      ensures OwnsTicket(PcOf(r, Owner(r, k))) && PcOf(r, Owner(r, k)).ticket == k
    {
      assert k < s.tail ==> OwnsTicket(PcOf(s, Owner(s, k))) && Owner(r, k) == Owner(s, k);
    }
  }

  // A successful CAS on tail_: the head test made before it is still good enough.
  lemma DrawTicketInv<T>(s: State<T>, t: Tid)
    requires Inv(s) && PcOf(s, t).EnqCasTail? && PcOf(s, t).oldTail == s.tail
    ensures Inv(Step(s, Event(t, Advance(false))))
  {
    var r := Step(s, Event(t, Advance(false)));
    forall u ensures PcOf(r, u) == if u == t then EnqWrite(PcOf(s, t).x, s.tail) else PcOf(s, u) {}
    assert PcOk(s, PcOf(s, t));
    assert r.enq[..r.head] == s.enq[..s.head];
    forall u ensures PcOk(r, PcOf(r, u)) {
      assert PcOk(s, PcOf(s, u));
    }
    forall k | r.commit <= k < r.tail
      ensures OwnsTicket(PcOf(r, Owner(r, k))) && PcOf(r, Owner(r, k)).ticket == k
    {
      assert k < s.tail ==> OwnsTicket(PcOf(s, Owner(s, k))) && Owner(r, k) == Owner(s, k);
    }
  }

  // A slot write: it hits neither a committed, unconsumed slot nor another producer's slot.
  lemma WriteInv<T>(s: State<T>, t: Tid, spurious: bool)
    requires Inv(s) && PcOf(s, t).EnqWrite?
    ensures Inv(Step(s, Event(t, Advance(spurious))))
  {
    var r := Step(s, Event(t, Advance(spurious)));
    var EnqWrite(x, k) := PcOf(s, t);
    var n := |s.pool|;
    forall u ensures PcOf(r, u) == if u == t then EnqCommit(x, k) else PcOf(s, u) {}
    assert PcOk(s, PcOf(s, t));
    forall p | s.head < p < s.tail && p != k
      ensures r.pool[Slot(p, n)] == s.pool[Slot(p, n)]
    {
      if p < k { DistinctSlots(n, p, k); } else { DistinctSlots(n, k, p); }
    }
    forall u ensures PcOk(r, PcOf(r, u)) {
      assert PcOk(s, PcOf(s, u));
    }
    forall k | r.commit <= k < r.tail
      ensures OwnsTicket(PcOf(r, Owner(r, k))) && PcOf(r, Owner(r, k)).ticket == k
    {
      assert k < s.tail ==> OwnsTicket(PcOf(s, Owner(s, k))) && Owner(r, k) == Owner(s, k);
    }
  }

  lemma CommitInv<T>(s: State<T>, t: Tid)
    requires Inv(s) && PcOf(s, t).EnqCommit? && PcOf(s, t).ticket == s.commit
    ensures Inv(Step(s, Event(t, Advance(false))))
  {
    var r := Step(s, Event(t, Advance(false)));
    forall u ensures PcOf(r, u) == if u == t then EnqReturn(true) else PcOf(s, u) {}
    assert PcOk(s, PcOf(s, t));
    forall u ensures PcOk(r, PcOf(r, u)) {
      assert PcOk(s, PcOf(s, u));
    }
    forall k | r.commit <= k < r.tail
      ensures OwnsTicket(PcOf(r, Owner(r, k))) && PcOf(r, Owner(r, k)).ticket == k
    {
      assert k < s.tail ==> OwnsTicket(PcOf(s, Owner(s, k))) && Owner(r, k) == Owner(s, k);
    }
  }

  // A successful CAS on head_: the value read before it is the element of that ticket.
  lemma TakeInv<T>(s: State<T>, t: Tid)
    requires Inv(s) && PcOf(s, t).DeqCasHead? && PcOf(s, t).oldHead == s.head
    ensures Inv(Step(s, Event(t, Advance(false))))
    ensures PcOf(s, t).value == Elem(s, s.head + 1)
  {
    var r := Step(s, Event(t, Advance(false)));
    forall u ensures PcOf(r, u) == if u == t then DeqReturn(Some(PcOf(s, t).value)) else PcOf(s, u) {}
    assert PcOk(s, PcOf(s, t));
    assert s.enq[..s.head] + [s.enq[s.head]] == s.enq[..s.head + 1];
    forall u ensures PcOk(r, PcOf(r, u)) {
      assert PcOk(s, PcOf(s, u));
    }
    forall k | r.commit <= k < r.tail
      ensures OwnsTicket(PcOf(r, Owner(r, k))) && PcOf(r, Owner(r, k)).ticket == k
    {
      assert k < s.tail ==> OwnsTicket(PcOf(s, Owner(s, k))) && Owner(r, k) == Owner(s, k);
    }
  }

  lemma EnqueueStepInv<T>(s: State<T>, t: Tid, spurious: bool)
    requires Inv(s)
    requires PcOf(s, t).EnqLoadTail? || PcOf(s, t).EnqLoadHead? || PcOf(s, t).EnqCasTail? || OwnsTicket(PcOf(s, t))
    ensures Inv(Step(s, Event(t, Advance(spurious))))
  {
    hide Inv;
    PcKnown(s, t);
    var pc, n := PcOf(s, t), |s.pool|;
    match pc
    case EnqLoadTail(x) => GotoInv(s, t, EnqLoadHead(x, s.tail));
    case EnqLoadHead(x, oldTail) =>
      if Slot(oldTail + 1, n) == Slot(s.head, n) {
        GotoInv(s, t, EnqReturn(false));
      } else {
        assert Slot(s.head + n, n) == Slot(s.head, n);
        GotoInv(s, t, EnqCasTail(x, oldTail));
      }
    case EnqCasTail(x, oldTail) =>
      if !spurious && s.tail == oldTail { DrawTicketInv(s, t); } else { GotoInv(s, t, EnqLoadHead(x, s.tail)); }
    case EnqWrite(_, _) => WriteInv(s, t, spurious);
    case EnqCommit(_, k) => if !spurious && s.commit == k { CommitInv(s, t); }
  }

  lemma DequeueStepInv<T>(s: State<T>, t: Tid, spurious: bool)
    requires Inv(s)
    requires PcOf(s, t).DeqLoadHead? || PcOf(s, t).DeqLoadCommit? || PcOf(s, t).DeqReadSlot? || PcOf(s, t).DeqCasHead?
    ensures Inv(Step(s, Event(t, Advance(spurious))))
  {
    hide Inv;
    PcKnown(s, t);
    var pc, n := PcOf(s, t), |s.pool|;
    match pc
    case DeqLoadHead => GotoInv(s, t, DeqLoadCommit(s.head));
    case DeqLoadCommit(oldHead) =>
      if oldHead + 1 == s.commit { GotoInv(s, t, DeqReturn(None)); } else { GotoInv(s, t, DeqReadSlot(oldHead)); }
    case DeqReadSlot(oldHead) =>
      if oldHead == s.head { SlotHolds(s, oldHead + 1); }
      GotoInv(s, t, DeqCasHead(oldHead, s.pool[Slot(oldHead + 1, n)]));
    case DeqCasHead(oldHead, _) =>
      if !spurious && s.head == oldHead { TakeInv(s, t); } else { GotoInv(s, t, DeqLoadCommit(s.head)); }
  }

  lemma StepInv<T>(s: State<T>, e: Event<T>)
    requires Inv(s)
    ensures Inv(Step(s, e))
  {
    hide Inv;
    PcKnown(s, e.t);
    var t, pc := e.t, PcOf(s, e.t);
    match e.act
    case CallEnqueue(x) => if CanCall(pc) { GotoInv(s, t, EnqLoadTail(x)); }
    case CallDequeue => if CanCall(pc) { GotoInv(s, t, DeqLoadHead); }
    case Advance(spurious) =>
      if CanCall(pc) {
      } else if pc.DeqLoadHead? || pc.DeqLoadCommit? || pc.DeqReadSlot? || pc.DeqCasHead? {
        DequeueStepInv(s, t, spurious);
      } else {
        EnqueueStepInv(s, t, spurious);
      }
  }

  lemma {:induction false} RunInv<T>(s: State<T>, es: seq<Event<T>>)
    requires Inv(s)
    ensures Inv(Run(s, es))
  {
    if es == [] {
    } else {
      RunInv(s, es[..|es| - 1]);
      StepInv(Run(s, es[..|es| - 1]), es[|es| - 1]);
    }
  }
}
