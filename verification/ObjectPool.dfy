/**
 The pool object of cyber/base/concurrent_object_pool.h: the arena's `next` fields and the
 counted head, changed in place. Each method is one atomic access of one thread.
*/
module ObjectPools {
  import opened Common
  import opened ObjectPoolSpec

  class CCObjectPool {
    var free_head_count: nat
    var free_head_node: Option<Node>
    const node_arena_next: array<Option<Node>>
    var pcs: map<Tid, Pc>  // where each thread is inside GetObject or ReleaseObject
    ghost var chain: seq<Node>
    ghost var place: seq<Place>

    ghost function View(): State
      reads this, node_arena_next
    {
      State(free_head_count, free_head_node, node_arena_next[..], pcs, chain, place)
    }

    ghost predicate Valid()
      reads this, node_arena_next
    {
      Inv(View())
    }

    // Links every node to the following one and the last one to null.
    constructor (size: nat)
      requires 0 < size
      ensures Valid() && fresh(node_arena_next)
      ensures View() == Init(size)
    {
      node_arena_next := new Option<Node>[size](_ => None);
      new;
      for i := 0 to size - 1
        invariant forall k :: 0 <= k < i ==> node_arena_next[k] == Some(k + 1)
      {
        node_arena_next[i] := Some(i + 1);
      }
      node_arena_next[size - 1] := None;
      free_head_count, free_head_node, pcs := 0, Some(0), map[];
      chain, place := seq(size, i => i), seq(size, _ => Free);
      assert node_arena_next[..] == Init(size).next && chain == Init(size).chain && place == Init(size).place;
      InitInv(size);
    }

    method CallGet(t: Tid)
      requires Valid() && CanCall(PcOf(View(), t))
      modifies this`pcs
      ensures Valid() && View() == Step(old(View()), Event(t, Action.CallGet))
    {
      StepInv(View(), Event(t, Action.CallGet));
      pcs := pcs[t := GetLoadHead];
    }

    // ReleaseObject is called with a node that some caller holds.
    method CallRelease(t: Tid, node: Node)
      requires Valid() && CanCall(PcOf(View(), t)) && node < |place| && place[node] == Held
      modifies this`pcs, this`place
      ensures Valid() && View() == Step(old(View()), Event(t, Action.CallRelease(node)))
    {
      StepInv(View(), Event(t, Action.CallRelease(node)));
      place := place[node := Releasing(t)];
      pcs := pcs[t := PutLoadHead(node)];
    }

    method StepGet(t: Tid, spurious: bool)
      requires Valid() && t in pcs && (pcs[t].GetLoadHead? || pcs[t].GetLoadNext? || pcs[t].GetCas?)
      modifies this
      ensures Valid() && View() == Step(old(View()), Event(t, Advance(spurious)))
    {
      hide Inv;
      StepInv(View(), Event(t, Advance(spurious)));
      PcKnown(View(), t);
      match pcs[t]
      case GetLoadHead =>
        pcs := pcs[t := if free_head_node.None? then GetReturn(None)
            else GetLoadNext(free_head_count, free_head_node.value)];
      case GetLoadNext(count, node) =>
        pcs := pcs[t := GetCas(count, node, node_arena_next[node])];
      case GetCas(count, node, newTop) =>
        if !spurious && free_head_count == count && free_head_node == Some(node) {
          free_head_count, free_head_node := count + 1, newTop;
          chain, place := Tail(chain), Put(place, node, Held);
          pcs := pcs[t := GetReturn(Some(node))];
        } else {
          pcs := pcs[t := if free_head_node.None? then GetReturn(None)
              else GetLoadNext(free_head_count, free_head_node.value)];
        }
    }

    method StepRelease(t: Tid, spurious: bool)
      requires Valid() && t in pcs && IsReleasing(pcs[t])
      modifies this, node_arena_next
      ensures Valid() && View() == Step(old(View()), Event(t, Advance(spurious)))
    {
      hide Inv;
      StepInv(View(), Event(t, Advance(spurious)));
      PcKnown(View(), t);
      match pcs[t]
      case PutLoadHead(node) => pcs := pcs[t := PutStoreNext(node, free_head_count, free_head_node)];
      case PutStoreNext(node, count, top) =>
        node_arena_next[node] := top;
        pcs := pcs[t := PutCas(node, count, top)];
      case PutCas(node, count, top) =>
        if !spurious && free_head_count == count && free_head_node == top {
          free_head_count, free_head_node := count + 1, Some(node);
          chain, place := [node] + chain, Put(place, node, Free);
          pcs := pcs[t := PutReturn];
        } else {
          pcs := pcs[t := PutStoreNext(node, free_head_count, free_head_node)];
        }
    }
  }
}
