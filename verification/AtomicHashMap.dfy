/**
 The table object of cyber/base/atomic_hash_map.h. Its fields are the memory of
 AtomicHashMapSpec, changed in place; each method is one atomic access of one thread.
*/
module AtomicHashMaps {
  import opened Common
  import opened AtomicHashMapSpec

  class AtomicHashMap<V(!new)> {
    const tableSize: nat
    var heap: map<Addr, Entry>
    var cells: map<Addr, V>
    var brk: Addr
    var pcs: map<Tid, Pc<V>>  // where each thread is inside Has, Get or Set
    ghost var index: map<Key, Addr>

    ghost function View(): State<V>
      reads this
    {
      State(tableSize, heap, cells, brk, pcs, index)
    }

    ghost predicate Valid()
      reads this
    {
      Inv(View())
    }

    constructor (tableSize: nat)
      requires 0 < tableSize
      ensures Valid() && View() == Init(tableSize)
    {
      this.tableSize := tableSize;
      heap := map a | a in Below(tableSize) :: Entry(0, None, None);
      cells, brk, pcs, index := map[], tableSize, map[], map[];
      InitInv<V>(tableSize);
    }

    method CallHas(t: Tid, key: Key)
      requires Valid() && CanCall(PcOf(View(), t))
      modifies this
      ensures Valid() && View() == Step(old(View()), Event(t, Action.CallHas(key)))
    {
      hide Inv, Bucket;
      StepInv(View(), Event(t, Action.CallHas(key)));
      pcs := pcs[t := Walk(Has(key), Bucket(key, tableSize))];
    }

    method CallGet(t: Tid, key: Key)
      requires Valid() && CanCall(PcOf(View(), t))
      modifies this
      ensures Valid() && View() == Step(old(View()), Event(t, Action.CallGet(key)))
    {
      hide Inv, Bucket;
      StepInv(View(), Event(t, Action.CallGet(key)));
      pcs := pcs[t := Walk(Get(key), Bucket(key, tableSize))];
    }

    // Set builds the entry, with its own value cell, and a second cell before it looks for the key.
    method CallSet(t: Tid, key: Key, x: V)
      requires Valid() && CanCall(PcOf(View(), t))
      modifies this
      ensures Valid() && View() == Step(old(View()), Event(t, Action.CallSet(key, x)))
    {
      hide Inv, Bucket;
      StepInv(View(), Event(t, Action.CallSet(key, x)));
      var node, cell := brk, brk + 1;
      brk := brk + 2;
      cells := cells[node := x][cell := x];
      heap := heap[node := Entry(key, Some(node), None)];
      pcs := pcs[t := Walk(Insert(key, x, node, cell), Bucket(key, tableSize))];
    }

    // One iteration of the traversal loop of Has and Find.
    method StepWalk(t: Tid)
      requires Valid() && t in pcs && pcs[t].Walk?
      modifies this`pcs
      ensures Valid() && View() == Step(old(View()), Event(t, Advance))
    {
      hide Inv;
      StepInv(View(), Event(t, Advance));
      PcKnown(View(), t);
      var Walk(op, prev) := pcs[t];
      NextKnown(View(), prev);
      var target := heap[prev].next;
      if target.Some? && heap[target.value].key < op.key {
        pcs := pcs[t := Walk(op, target.value)];
        return;
      }
      var found := target.Some? && heap[target.value].key == op.key;
      match op
      case Has(_) => pcs := pcs[t := HasReturn(found)];
      case Get(key) => pcs := pcs[t := if found then GetLoadValue(key, target.value) else GetReturn(None)];
      case Insert(_, _, _, _) =>
        pcs := pcs[t := if found then SetLoadValue(op, target.value) else SetStoreNext(op, prev, target)];
    }

    // Get, once the key is found: load value_ptr, then copy the value.
    method StepGet(t: Tid)
      requires Valid() && t in pcs && (pcs[t].GetLoadValue? || pcs[t].GetDeref?)
      modifies this`pcs
      ensures Valid() && View() == Step(old(View()), Event(t, Advance))
    {
      hide Inv;
      StepInv(View(), Event(t, Advance));
      PcKnown(View(), t);
      match pcs[t]
      case GetLoadValue(key, target) => pcs := pcs[t := GetDeref(key, heap[target].value.value)];
      case GetDeref(_, cell) => pcs := pcs[t := GetReturn(Some(cells[cell]))];
    }

    // Set, once the key is found: replace the value unless another thread did since the load.
    method StepUpdate(t: Tid)
      requires Valid() && t in pcs && (pcs[t].SetLoadValue? || pcs[t].SetCasValue?)
      modifies this
      ensures Valid() && View() == Step(old(View()), Event(t, Advance))
    {
      hide Inv, Bucket;
      StepInv(View(), Event(t, Advance));
      PcKnown(View(), t);
      match pcs[t]
      case SetLoadValue(op, target) => pcs := pcs[t := SetCasValue(op, target, heap[target].value)];
      case SetCasValue(op, target, oldCell) =>
        if heap[target].value == oldCell {
          heap := heap[target := heap[target].(value := Some(op.cell))];
          pcs := pcs[t := SetReturn];
        } else {
          pcs := pcs[t := Walk(op, Bucket(op.key, tableSize))];
        }
    }

    // Set, once the key is known to be absent: link the new entry unless the place has changed.
    method StepLink(t: Tid)
      requires Valid() && t in pcs && (pcs[t].SetStoreNext? || pcs[t].SetCasNext?)
      modifies this
      ensures Valid() && View() == Step(old(View()), Event(t, Advance))
    {
      hide Inv, Bucket;
      StepInv(View(), Event(t, Advance));
      PcKnown(View(), t);
      match pcs[t]
      case SetStoreNext(op, prev, succ) =>
        heap := heap[op.node := heap[op.node].(next := succ)];
        pcs := pcs[t := SetCasNext(op, prev, succ)];
      case SetCasNext(op, prev, succ) =>
        if heap[prev].next == succ {
          heap := heap[prev := heap[prev].(next := Some(op.node))];
          index := index[op.key := op.node];
          pcs := pcs[t := SetReturn];
        } else {
          pcs := pcs[t := Walk(op, Bucket(op.key, tableSize))];
        }
    }
  }
}
