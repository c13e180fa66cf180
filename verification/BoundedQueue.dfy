/**
 The queue object of cyber/base/bounded_queue.h: its counters and its slot array, changed in
 place. Each method is one atomic access of one thread and is tied to the step function of
 BoundedQueueSpec, so everything proved of runs there holds of this object.
*/
module BoundedQueues {
  import opened Common
  import opened BoundedQueueSpec
  import opened RingSlots

  class BoundedQueue<T> {
    var head_: nat
    var tail_: nat
    var commit_: nat
    const pool_: array<T>
    var pcs: map<Tid, Pc<T>>  // where each thread is inside Enqueue or Dequeue
    ghost var enq: seq<T>
    ghost var deq: seq<T>
    ghost var owners: seq<Tid>

    ghost function View(): State<T>
      reads this, pool_
    {
      State(head_, tail_, commit_, pool_[..], pcs, enq, deq, owners)
    }

    ghost predicate Valid()
      reads this, pool_
    {
      Inv(View())
    }

    constructor Init(size: nat, zero: T)
      ensures Valid() && fresh(pool_)
      ensures View() == BoundedQueueSpec.Init(size, zero)
    {
      head_, tail_, commit_ := 0, 1, 1;
      pool_ := new T[size + 2](_ => zero);
      pcs := map[];
      enq, deq, owners := [], [], [];
      new;
      assert pool_[..] == seq(size + 2, _ => zero);
      InitInv(size, zero);
    }

    method GetIndex(num: nat) returns (i: nat)
      requires 0 < pool_.Length
      ensures i < pool_.Length && i == Slot(num, pool_.Length)
    {
      SlotIsGetIndex(num, pool_.Length);
      i := num - num / pool_.Length * pool_.Length;
    }

    method CallEnqueue(t: Tid, x: T)
      requires Valid() && CanCall(PcOf(View(), t))
      modifies this
      ensures Valid() && View() == Step(old(View()), Event(t, Action.CallEnqueue(x)))
    {
      StepInv(View(), Event(t, Action.CallEnqueue(x)));
      pcs := pcs[t := EnqLoadTail(x)];
    }

    method CallDequeue(t: Tid)
      requires Valid() && CanCall(PcOf(View(), t))
      modifies this
      ensures Valid() && View() == Step(old(View()), Event(t, Action.CallDequeue))
    {
      StepInv(View(), Event(t, Action.CallDequeue));
      pcs := pcs[t := DeqLoadHead];
    }

    // The next access of a thread inside Enqueue; `spurious` makes a weak CAS fail for no reason.
    method StepEnqueue(t: Tid, spurious: bool)
      requires Valid() && t in pcs
      requires pcs[t].EnqLoadTail? || pcs[t].EnqLoadHead? || pcs[t].EnqCasTail? || OwnsTicket(pcs[t])
      modifies this, pool_
      ensures Valid() && View() == Step(old(View()), Event(t, Advance(spurious)))
    {
      hide Inv, Slot;
      StepInv(View(), Event(t, Advance(spurious)));
      PcKnown(View(), t);
      match pcs[t]
      case EnqLoadTail(x) => pcs := pcs[t := EnqLoadHead(x, tail_)];
      case EnqLoadHead(x, oldTail) =>
        var newIndex := GetIndex(oldTail + 1);
        var headIndex := GetIndex(head_);
        pcs := pcs[t := if newIndex == headIndex then EnqReturn(false) else EnqCasTail(x, oldTail)];
      case EnqCasTail(x, oldTail) =>
        if !spurious && tail_ == oldTail {
          tail_ := oldTail + 1;
          enq, owners := enq + [x], owners + [t];
          pcs := pcs[t := EnqWrite(x, oldTail)];
        } else {
          pcs := pcs[t := EnqLoadHead(x, tail_)];
        }
      case EnqWrite(x, ticket) =>
        var i := GetIndex(ticket);
        pool_[i] := x;
        pcs := pcs[t := EnqCommit(x, ticket)];
      case EnqCommit(x, ticket) =>
        if !spurious && commit_ == ticket {
          commit_ := ticket + 1;
          pcs := pcs[t := EnqReturn(true)];
        }
    }

    // The next access of a thread inside Dequeue.
    method StepDequeue(t: Tid, spurious: bool)
      requires Valid() && t in pcs
      requires pcs[t].DeqLoadHead? || pcs[t].DeqLoadCommit? || pcs[t].DeqReadSlot? || pcs[t].DeqCasHead?
      modifies this
      ensures Valid() && View() == Step(old(View()), Event(t, Advance(spurious)))
    {
      hide Inv, Slot;
      StepInv(View(), Event(t, Advance(spurious)));
      PcKnown(View(), t);
      match pcs[t]
      case DeqLoadHead => pcs := pcs[t := DeqLoadCommit(head_)];
      case DeqLoadCommit(oldHead) =>
        pcs := pcs[t := if oldHead + 1 == commit_ then DeqReturn(None) else DeqReadSlot(oldHead)];
      case DeqReadSlot(oldHead) =>
        var i := GetIndex(oldHead + 1);
        pcs := pcs[t := DeqCasHead(oldHead, pool_[i])];
      case DeqCasHead(oldHead, value) =>
        if !spurious && head_ == oldHead {
          head_ := oldHead + 1;
          deq := deq + [value];
          pcs := pcs[t := DeqReturn(Some(value))];
        } else {
          pcs := pcs[t := DeqLoadCommit(head_)];
        }
    }
  }
}
