/**
 The lock-free hash table of cyber/base/atomic_hash_map.h: one sorted, insert-only list per
 bucket, one atomic access per step, for any number of threads.

 Entries live at addresses: `0 .. tableSize` are the buckets' head entries, the others come
 from a counter and are never reused. Values live in cells that are written once.
 `index` is history: the address of the entry published for each key.
*/
module AtomicHashMapSpec {
  import opened Common

  type Addr = nat
  type Key = int

  datatype Entry = Entry(key: Key, value: Option<Addr>, next: Option<Addr>)

  // A call in progress. Insert has built its entry (with its own value cell) and a second cell.
  datatype Op<V> =
    | Has(key: Key)
    | Get(key: Key)
    | Insert(key: Key, x: V, node: Addr, cell: Addr)

  // What a thread does next.
  datatype Pc<V> =
    | Idle
    | Walk(op: Op<V>, prev: Addr)                                         // load prev->next
    | GetLoadValue(key: Key, target: Addr)
    | GetDeref(key: Key, cell: Addr)
    | SetLoadValue(op: Op<V>, target: Addr)
    | SetCasValue(op: Op<V>, target: Addr, oldCell: Option<Addr>)
    | SetStoreNext(op: Op<V>, prev: Addr, succ: Option<Addr>)
    | SetCasNext(op: Op<V>, prev: Addr, succ: Option<Addr>)
    | HasReturn(found: bool)
    | GetReturn(got: Option<V>)
    | SetReturn

  datatype State<V> = State(
    tableSize: nat, heap: map<Addr, Entry>, cells: map<Addr, V>, brk: Addr, pcs: map<Tid, Pc<V>>,
    index: map<Key, Addr>)

  datatype Action<V> = CallHas(key: Key) | CallGet(key: Key) | CallSet(key: Key, x: V) | Advance

  datatype Event<V> = Event(t: Tid, act: Action<V>)

  function PcOf<V>(s: State<V>, t: Tid): Pc<V> {
    if t in s.pcs then s.pcs[t] else Idle
  }

  predicate CanCall<V>(pc: Pc<V>) {
    pc.Idle? || pc.HasReturn? || pc.GetReturn? || pc.SetReturn?
  }

  // key & mode_num_, for a table whose size is a power of two.
  function Bucket(key: Key, tableSize: nat): (b: Addr)
    requires 0 < tableSize
    ensures b < tableSize
  {
    key % tableSize
  }

  function At<V>(s: State<V>, a: Addr): Entry {
    if a in s.heap then s.heap[a] else Entry(0, None, None)
  }

  function Init<V>(tableSize: nat): State<V> {
    State(tableSize, map a | a in Below(tableSize) :: Entry(0, None, None), map[], tableSize, map[], map[])
  }

  function Goto<V>(s: State<V>, t: Tid, pc: Pc<V>): State<V> {
    s.(pcs := s.pcs[t := pc])
  }

  // The value of prev->next is `target`: compare keys and decide (no access to shared memory).
  function Decide<V>(s: State<V>, op: Op<V>, prev: Addr, target: Option<Addr>): Pc<V> {
    if target.Some? && At(s, target.value).key < op.key then Walk(op, target.value)
    else
      var found := target.Some? && At(s, target.value).key == op.key;
      match op
      case Has(_) => HasReturn(found)
      case Get(key) => if found then GetLoadValue(key, target.value) else GetReturn(None)
      case Insert(_, _, _, _) => if found then SetLoadValue(op, target.value) else SetStoreNext(op, prev, target)
  }

  function Step<V>(s: State<V>, e: Event<V>): (r: State<V>)
    requires 0 < s.tableSize
    ensures r.tableSize == s.tableSize
  {
    var t, pc := e.t, PcOf(s, e.t);
    match e.act
    case CallHas(key) => if CanCall(pc) then Goto(s, t, Walk(Has(key), Bucket(key, s.tableSize))) else s
    case CallGet(key) => if CanCall(pc) then Goto(s, t, Walk(Get(key), Bucket(key, s.tableSize))) else s
    case CallSet(key, x) =>
      if CanCall(pc)
      then Goto(s, t, Walk(Insert(key, x, s.brk, s.brk + 1), Bucket(key, s.tableSize))).(
             heap := s.heap[s.brk := Entry(key, Some(s.brk), None)],
             cells := s.cells[s.brk := x][s.brk + 1 := x],
             brk := s.brk + 2)
      else s
    case Advance =>
      match pc
      case Walk(op, prev) => Goto(s, t, Decide(s, op, prev, At(s, prev).next))
      case GetLoadValue(key, target) =>
        var cell := At(s, target).value;
        if cell.Some? then Goto(s, t, GetDeref(key, cell.value)) else s
      case GetDeref(_, cell) =>
        if cell in s.cells then Goto(s, t, GetReturn(Some(s.cells[cell]))) else s
      case SetLoadValue(op, target) => Goto(s, t, SetCasValue(op, target, At(s, target).value))
      case SetCasValue(op, target, oldCell) =>
        if op.Insert? && At(s, target).value == oldCell
        then Goto(s, t, SetReturn).(heap := s.heap[target := At(s, target).(value := Some(op.cell))])
        else Goto(s, t, Walk(op, Bucket(op.key, s.tableSize)))
      case SetStoreNext(op, prev, succ) =>
        if op.Insert?
        then Goto(s, t, SetCasNext(op, prev, succ)).(heap := s.heap[op.node := At(s, op.node).(next := succ)])
        else s
      case SetCasNext(op, prev, succ) =>
        if op.Insert? && At(s, prev).next == succ
        then Goto(s, t, SetReturn).(
               heap := s.heap[prev := At(s, prev).(next := Some(op.node))],
               index := s.index[op.key := op.node])
        else Goto(s, t, Walk(op, Bucket(op.key, s.tableSize)))
      case _ => s
  }

  function Run<V>(s: State<V>, es: seq<Event<V>>): (r: State<V>)
    requires 0 < s.tableSize
    ensures r.tableSize == s.tableSize
  {
    if es == [] then s else Step(Run(s, es[..|es| - 1]), es[|es| - 1])
  }

  // ---------------------------------------------------------------- invariant

  // In the table for good: a bucket's head entry, or the entry that `index` records for its key.
  ghost predicate Published<V>(s: State<V>, a: Addr) {
    a < s.tableSize || (a in s.heap && s.heap[a].key in s.index && s.index[s.heap[a].key] == a)
  }

  // The list an entry belongs to.
  ghost function ListOf<V>(s: State<V>, a: Addr): Addr
    requires 0 < s.tableSize
  {
    if a < s.tableSize then a else Bucket(At(s, a).key, s.tableSize)
  }

  // The place of `key` is behind the entry at `a` (head entries are in front of every key).
  ghost predicate Before<V>(s: State<V>, a: Addr, key: Key) {
    a < s.tableSize || At(s, a).key < key
  }

  // `target` is a possible successor of a place for `key`: nothing, or a published larger key of its list.
  ghost predicate After<V>(s: State<V>, target: Option<Addr>, b: Addr, key: Key)
    requires 0 < s.tableSize
  {
    target.Some? ==>
      s.tableSize <= target.value && Published(s, target.value) && ListOf(s, target.value) == b &&
          key < At(s, target.value).key
  }

  ghost predicate Formed<V>(s: State<V>) {
    && 0 < s.tableSize <= s.brk
    && (forall a: Addr :: a < s.tableSize ==> a in s.heap && s.heap[a].value == None)
    && (forall a :: a in s.heap ==> a < s.brk)
    && (forall c :: c in s.cells ==> c < s.brk)
    && (forall k :: k in s.index ==> s.tableSize <= s.index[k] && s.index[k] in s.heap && s.heap[s.index[k]].key == k)
    && (forall a :: a in s.heap && s.tableSize <= a ==> s.heap[a].value.Some? && s.heap[a].value.value in s.cells)
  }

  // Following `next` from a published entry goes up in key order, inside the list, over published entries.
  ghost predicate Sorted<V>(s: State<V>)
    requires 0 < s.tableSize
  {
    forall a :: Published(s, a) && At(s, a).next.Some? ==>
      var b := At(s, a).next.value;
      s.tableSize <= b && Published(s, b) && ListOf(s, b) == ListOf(s, a) && Before(s, a, At(s, b).key)
  }

  // ... and it skips no published key.
  ghost predicate NoGap<V>(s: State<V>)
    requires 0 < s.tableSize
  {
    forall a, k :: Published(s, a) && k in s.index && ListOf(s, a) == Bucket(k, s.tableSize) && Before(s, a, k) ==>
      At(s, a).next.Some? && At(s, At(s, a).next.value).key <= k
  }

  ghost predicate PlaceOk<V>(s: State<V>, prev: Addr, key: Key)
    requires 0 < s.tableSize
  {
    Published(s, prev) && ListOf(s, prev) == Bucket(key, s.tableSize) && Before(s, prev, key)
  }

  ghost predicate TargetOk<V>(s: State<V>, target: Addr, key: Key) {
    s.tableSize <= target && Published(s, target) && At(s, target).key == key
  }

  // The operation a thread is in the middle of.
  ghost function OpOf<V>(pc: Pc<V>): Option<Op<V>> {
    match pc
    case Walk(op, _) => Some(op)
    case SetLoadValue(op, _) => Some(op)
    case SetCasValue(op, _, _) => Some(op)
    case SetStoreNext(op, _, _) => Some(op)
    case SetCasNext(op, _, _) => Some(op)
    case _ => None
  }

  ghost predicate Inserting<V>(pc: Pc<V>) {
    OpOf(pc).Some? && OpOf(pc).value.Insert?
  }

  // What Insert built stays private to it: the entry is unpublished and no entry uses the second cell.
  ghost predicate PrivateOk<V>(s: State<V>, op: Op<V>)
    requires op.Insert?
  {
    && s.tableSize <= op.node && op.node in s.heap && !Published(s, op.node)
    && s.heap[op.node].key == op.key
    && s.heap[op.node].value.Some? && s.heap[op.node].value.value in s.cells &&
        s.cells[s.heap[op.node].value.value] == op.x
    && op.cell in s.cells && s.cells[op.cell] == op.x
    && (forall a :: a in s.heap ==> s.heap[a].value != Some(op.cell))
    && (forall a :: Published(s, a) ==> At(s, a).next != Some(op.node))
  }

  ghost predicate PcOk<V(!new)>(s: State<V>, pc: Pc<V>)
    requires 0 < s.tableSize
  {
    && (Inserting(pc) ==> PrivateOk(s, OpOf(pc).value))
    && match pc
       case Walk(op, prev) => PlaceOk(s, prev, op.key)
       case GetLoadValue(key, target) => TargetOk(s, target, key)
       case GetDeref(_, cell) => cell in s.cells
       case SetLoadValue(op, target) => op.Insert? && TargetOk(s, target, op.key)
       case SetCasValue(op, target, _) => op.Insert? && TargetOk(s, target, op.key)
       case SetStoreNext(op, prev, succ) =>
         op.Insert? && PlaceOk(s, prev, op.key) && After(s, succ, Bucket(op.key, s.tableSize), op.key)
       case SetCasNext(op, prev, succ) =>
         op.Insert? && PlaceOk(s, prev, op.key) && After(s, succ, Bucket(op.key, s.tableSize), op.key)
         && At(s, op.node).next == succ
       case _ => true
  }

  // Two inserts in progress built different entries and cells.
  ghost predicate Apart<V>(p: Pc<V>, q: Pc<V>) {
    Inserting(p) && Inserting(q) ==>
      OpOf(p).value.node != OpOf(q).value.node && OpOf(p).value.cell != OpOf(q).value.cell
  }

  ghost predicate PcsOk<V(!new)>(s: State<V>)
    requires 0 < s.tableSize
  {
    && (forall t :: PcOk(s, PcOf(s, t)))
    && (forall t, u :: t != u ==> Apart(PcOf(s, t), PcOf(s, u)))
  }

  ghost predicate Inv<V(!new)>(s: State<V>) {
    Formed(s) && Sorted(s) && NoGap(s) && PcsOk(s)
  }

  lemma InitInv<V(!new)>(tableSize: nat)
    requires 0 < tableSize
    ensures Inv(Init<V>(tableSize))
  {
  }

  // ---------------------------------------------------------------- steps keep the invariant

  lemma PcKnown<V(!new)>(s: State<V>, t: Tid)
    requires Inv(s)
    ensures Formed(s) && PcOk(s, PcOf(s, t))
  {
  }

  lemma HeadIsPlace<V(!new)>(s: State<V>, key: Key)
    requires Formed(s)
    ensures PlaceOk(s, Bucket(key, s.tableSize), key)
  {
  }

  lemma NextKnown<V(!new)>(s: State<V>, a: Addr)
    requires Inv(s) && Published(s, a)
    ensures a in s.heap && (s.heap[a].next.Some? ==> s.heap[a].next.value in s.heap)
  {
    if At(s, a).next.Some? { assert Published(s, At(s, a).next.value); }
  }

  // Entries keep their keys, published entries and written cells stay.
  ghost predicate Grows<V>(s: State<V>, r: State<V>) {
    && r.tableSize == s.tableSize
    && (forall a :: a in s.heap ==> a in r.heap && r.heap[a].key == s.heap[a].key)
    && (forall k :: k in s.index ==> k in r.index && r.index[k] == s.index[k])
    && (forall c :: c in s.cells ==> c in r.cells && r.cells[c] == s.cells[c])
  }

  // The lists only depend on the keys and next fields of published entries.
  lemma ShapeStays<V>(s: State<V>, r: State<V>)
    requires 0 < s.tableSize == r.tableSize && s.index == r.index && Formed(s) && Sorted(s) && NoGap(s)
    requires forall a :: Published(r, a) <==> Published(s, a)
    requires forall a :: Published(s, a) ==> At(r, a).key == At(s, a).key && At(r, a).next == At(s, a).next
    ensures Sorted(r) && NoGap(r)
  {
    hide Bucket;
    assert forall a :: Published(s, a) ==> ListOf(r, a) == ListOf(s, a);
    assert Sorted(r);
    forall a, k | Published(r, a) && k in r.index && ListOf(r, a) == Bucket(k, r.tableSize) && Before(r, a, k)
      ensures At(r, a).next.Some? && At(r, At(r, a).next.value).key <= k
    {
      assert Published(s, a) && Published(s, At(s, a).next.value);
    }
  }

  // What another thread knew about published entries it still knows.
  lemma PcOkStays<V(!new)>(s: State<V>, r: State<V>, pc: Pc<V>)
    requires Formed(s) && Grows(s, r) && PcOk(s, pc)
    requires Inserting(pc) ==>
               PrivateOk(r, OpOf(pc).value) && At(r, OpOf(pc).value.node).next == At(s, OpOf(pc).value.node).next
    ensures PcOk(r, pc)
  {
    hide Bucket, PrivateOk;
  }

  // All threads but t are where they were; t is at a point it may be at.
  lemma PcsOkAfter<V(!new)>(s: State<V>, r: State<V>, t: Tid, pc: Pc<V>)
    requires Formed(s) && PcsOk(s) && Grows(s, r) && r.pcs == s.pcs[t := pc] && PcOk(r, pc)
    requires forall u :: u != t && Inserting(PcOf(s, u)) ==>
               var op := OpOf(PcOf(s, u)).value; PrivateOk(r, op) && At(r, op.node).next == At(s, op.node).next
    requires forall u :: u != t ==> Apart(pc, PcOf(s, u))
    ensures PcsOk(r)
  {
    hide PrivateOk, PcOk;
    forall u ensures PcOf(r, u) == if u == t then pc else PcOf(s, u) {}
    forall u ensures PcOk(r, PcOf(r, u)) {
      if u != t { PcOkStays(s, r, PcOf(s, u)); }
    }
    forall u, w | u != w ensures Apart(PcOf(r, u), PcOf(r, w)) {
      assert Apart(PcOf(s, u), PcOf(s, w)) && Apart(PcOf(s, w), PcOf(s, u));
    }
  }

  // A step that only moves thread t inside its call.
  lemma GotoInv<V(!new)>(s: State<V>, t: Tid, pc: Pc<V>)
    requires Inv(s) && PcOk(s, pc)
    requires Inserting(pc) ==> OpOf(pc) == OpOf(PcOf(s, t))
    ensures Inv(Goto(s, t, pc))
  {
    hide Bucket, PrivateOk, Sorted, NoGap;
    var r := Goto(s, t, pc);
    assert forall a :: At(r, a) == At(s, a) && Published(r, a) == Published(s, a);
    ShapeStays(s, r);
    PrivateSame(s, r);
    PcOkStays(s, r, pc);
    forall u | u != t ensures Apart(pc, PcOf(s, u)) {
      assert Apart(PcOf(s, t), PcOf(s, u));
    }
    forall u | u != t && Inserting(PcOf(s, u)) ensures PrivateOk(r, OpOf(PcOf(s, u)).value) {
      assert PcOk(s, PcOf(s, u));
    }
    PcsOkAfter(s, r, t, pc);
  }

  lemma PrivateSame<V>(s: State<V>, r: State<V>)
    requires r.heap == s.heap && r.cells == s.cells && r.index == s.index && r.tableSize == s.tableSize
    ensures forall op: Op<V> :: op.Insert? ==> PrivateOk(r, op) == PrivateOk(s, op)
  {
    assert forall a :: At(r, a) == At(s, a) && Published(r, a) == Published(s, a);
  }

  lemma FreshIsPrivate<V>(s: State<V>)
    requires Formed(s) && Sorted(s)
    ensures !Published(s, s.brk) && forall a :: Published(s, a) ==> At(s, a).next != Some(s.brk)
  {
  }

  // What Insert allocates is private to it.
  lemma BuiltIsPrivate<V(!new)>(s: State<V>, t: Tid, key: Key, x: V)
    requires Inv(s) && CanCall(PcOf(s, t))
    ensures var r := Step(s, Event(t, CallSet(key, x)));
            && Formed(r) && Grows(s, r) && PrivateOk(r, Insert(key, x, s.brk, s.brk + 1))
            && (forall a :: Published(r, a) <==> Published(s, a))
            && (forall a :: a != s.brk ==> At(r, a) == At(s, a))
  {
    hide Bucket, Sorted, NoGap, PcsOk;
    FreshIsPrivate(s);
    var r := Step(s, Event(t, CallSet(key, x)));
    assert r.heap == s.heap[s.brk := Entry(key, Some(s.brk), None)];
    assert forall a :: a != s.brk ==> At(r, a) == At(s, a);
    assert forall a :: Published(r, a) <==> Published(s, a);
  }

  lemma CallSetInv<V(!new)>(s: State<V>, t: Tid, key: Key, x: V)
    requires Inv(s) && CanCall(PcOf(s, t))
    ensures Inv(Step(s, Event(t, CallSet(key, x))))
  {
    hide Bucket, Sorted, NoGap;
    var r := Step(s, Event(t, CallSet(key, x)));
    var pc := Walk(Insert(key, x, s.brk, s.brk + 1), Bucket(key, s.tableSize));
    BuiltIsPrivate(s, t, key, x);
    ShapeStays(s, r);
    HeadIsPlace(r, key);
    forall u | u != t && Inserting(PcOf(s, u)) ensures PrivateOk(r, OpOf(PcOf(s, u)).value) && Apart(pc, PcOf(s, u)) {
      assert PcOk(s, PcOf(s, u));
    }
    PcsOkAfter(s, r, t, pc);
  }

  // Storing into the private entry's next.
  lemma StoreNextPrivate<V(!new)>(s: State<V>, t: Tid, u: Tid)
    requires Inv(s) && PcOf(s, t).SetStoreNext? && u != t && Inserting(PcOf(s, u))
    ensures var op := OpOf(PcOf(s, u)).value;
            PrivateOk(Step(s, Event(t, Advance)), op) && op.node != PcOf(s, t).op.node
  {
    hide Bucket, Sorted, NoGap;
    var r := Step(s, Event(t, Advance));
    assert PcOk(s, PcOf(s, t)) && PcOk(s, PcOf(s, u)) && Apart(PcOf(s, u), PcOf(s, t));
    assert forall a :: Published(r, a) <==> Published(s, a);
    assert forall a :: a != PcOf(s, t).op.node ==> At(r, a) == At(s, a);
  }

  lemma StoreNextInv<V(!new)>(s: State<V>, t: Tid)
    requires Inv(s) && PcOf(s, t).SetStoreNext?
    ensures Inv(Step(s, Event(t, Advance)))
  {
    hide Bucket, Sorted, NoGap;
    var r := Step(s, Event(t, Advance));
    var SetStoreNext(op, prev, succ) := PcOf(s, t);
    assert PcOk(s, PcOf(s, t));
    assert forall a :: Published(r, a) <==> Published(s, a);
    assert forall a :: a != op.node ==> At(r, a) == At(s, a);
    ShapeStays(s, r);
    forall u | u != t && Inserting(PcOf(s, u))
      ensures PrivateOk(r, OpOf(PcOf(s, u)).value) && OpOf(PcOf(s, u)).value.node != op.node
    {
      StoreNextPrivate(s, t, u);
    }
    forall u | u != t ensures Apart(SetCasNext(op, prev, succ), PcOf(s, u)) {
      assert Apart(PcOf(s, t), PcOf(s, u));
    }
    PcsOkAfter(s, r, t, SetCasNext(op, prev, succ));
  }

  // The CAS on value_ptr that replaces the value of an existing key.
  lemma UpdateInv<V(!new)>(s: State<V>, t: Tid)
    requires Inv(s) && PcOf(s, t).SetCasValue? && At(s, PcOf(s, t).target).value == PcOf(s, t).oldCell
    ensures Inv(Step(s, Event(t, Advance)))
  {
    hide Bucket, Sorted, NoGap;
    var r := Step(s, Event(t, Advance));
    var SetCasValue(op, target, oldCell) := PcOf(s, t);
    assert PcOk(s, PcOf(s, t));
    assert forall a :: Published(r, a) <==> Published(s, a);
    assert forall a :: At(r, a).key == At(s, a).key && At(r, a).next == At(s, a).next;
    assert forall a :: a != target ==> At(r, a) == At(s, a);
    ShapeStays(s, r);
    forall u | u != t && Inserting(PcOf(s, u)) ensures PrivateOk(r, OpOf(PcOf(s, u)).value) {
      assert PcOk(s, PcOf(s, u)) && Apart(PcOf(s, u), PcOf(s, t));
    }
    PcsOkAfter(s, r, t, SetReturn);
  }

  // At a successful CAS on prev->next the key is absent, so the new entry fills exactly that place.
  lemma PlaceIsFree<V(!new)>(s: State<V>, t: Tid)
    requires Inv(s) && PcOf(s, t).SetCasNext? && At(s, PcOf(s, t).prev).next == PcOf(s, t).succ
    ensures PcOf(s, t).op.key !in s.index
  {
    hide Bucket;
    assert PcOk(s, PcOf(s, t));
  }

  // Linking `node` between `prev` and its successor.
  ghost predicate Links<V>(s: State<V>, r: State<V>, op: Op<V>, prev: Addr)
    requires 0 < s.tableSize == r.tableSize && op.Insert?
  {
    && op.key !in s.index && r.index == s.index[op.key := op.node]
    && s.tableSize <= op.node && At(s, op.node).key == op.key && At(s, op.node).next == At(s, prev).next
    && PlaceOk(s, prev, op.key) && After(s, At(s, prev).next, Bucket(op.key, s.tableSize), op.key)
    && (forall a :: Published(r, a) <==> Published(s, a) || a == op.node)
    && (forall a :: At(r, a).key == At(s, a).key)
    && (forall a :: At(r, a).next == if a == prev then Some(op.node) else At(s, a).next)
  }

  lemma LinkSorted<V>(s: State<V>, r: State<V>, op: Op<V>, prev: Addr)
    requires 0 < s.tableSize == r.tableSize && op.Insert? && Links(s, r, op, prev) && Sorted(s)
    ensures Sorted(r)
  {
    hide Bucket;
    assert forall a :: ListOf(r, a) == ListOf(s, a);
    forall a | Published(r, a) && At(r, a).next.Some?
      ensures var b := At(r, a).next.value;
              r.tableSize <= b && Published(r, b) && ListOf(r, b) == ListOf(r, a) && Before(r, a, At(r, b).key)
    {
      if a != op.node && a != prev { assert Published(s, a); }
    }
  }

  lemma LinkNoGapAt<V>(s: State<V>, r: State<V>, op: Op<V>, prev: Addr, a: Addr, k: Key)
    requires 0 < s.tableSize == r.tableSize && op.Insert? && Links(s, r, op, prev) && NoGap(s) && Formed(s) && Sorted(s)
    requires Published(r, a) && k in r.index && ListOf(r, a) == Bucket(k, r.tableSize) && Before(r, a, k)
    ensures At(r, a).next.Some? && At(r, At(r, a).next.value).key <= k
  {
    hide Bucket, NoGap, Sorted, Formed;
    if a == op.node {
      NoGapKey(s, prev, k);
    } else if k != op.key {
      NoGapKey(s, a, k);
      if a == prev { NoGapBehind(s, prev, op.key, k); }
    } else if a != prev {
      NextIsAtMostPlace(s, a, prev, op);
    }
  }

  // Between two keys behind the same place there is no third one in front of both.
  lemma NoGapBehind<V>(s: State<V>, prev: Addr, key: Key, k: Key)
    requires Formed(s) && PlaceOk(s, prev, key) && After(s, At(s, prev).next, Bucket(key, s.tableSize), key)
    requires At(s, prev).next.Some? && At(s, At(s, prev).next.value).key <= k
    ensures key < k
  {
  }

  lemma LinkNoGap<V>(s: State<V>, r: State<V>, op: Op<V>, prev: Addr)
    requires 0 < s.tableSize == r.tableSize && op.Insert? && Links(s, r, op, prev) && NoGap(s) && Formed(s) && Sorted(s)
    ensures NoGap(r)
  {
    hide Bucket, Links, Published, ListOf, Before, Formed, Sorted;
    forall a, k | Published(r, a) && k in r.index && ListOf(r, a) == Bucket(k, r.tableSize) && Before(r, a, k)
      ensures At(r, a).next.Some? && At(r, At(r, a).next.value).key <= k
    {
      LinkNoGapAt(s, r, op, prev, a, k);
    }
  }

  lemma NoGapKey<V>(s: State<V>, a: Addr, k: Key)
    requires 0 < s.tableSize && NoGap(s) && Published(s, a) && k in s.index
    requires ListOf(s, a) == Bucket(k, s.tableSize) && Before(s, a, k)
    ensures At(s, a).next.Some? && At(s, At(s, a).next.value).key <= k
  {
  }

  lemma NoGapAt<V>(s: State<V>, a: Addr, c: Addr)
    requires Formed(s) && NoGap(s) && Published(s, a) && s.tableSize <= c && Published(s, c)
    requires ListOf(s, a) == ListOf(s, c) && Before(s, a, At(s, c).key)
    ensures At(s, a).next.Some? && At(s, At(s, a).next.value).key <= At(s, c).key
  {
  }

  // Any other published entry in front of the place for a new key is followed by one not behind `prev`.
  lemma NextIsAtMostPlace<V>(s: State<V>, a: Addr, prev: Addr, op: Op<V>)
    requires Formed(s) && Sorted(s) && NoGap(s)
    requires op.key !in s.index && PlaceOk(s, prev, op.key) &&
             After(s, At(s, prev).next, Bucket(op.key, s.tableSize), op.key)
    requires a != prev && PlaceOk(s, a, op.key)
    ensures At(s, a).next.Some? && At(s, At(s, a).next.value).key <= op.key
  {
    hide Bucket, NoGap, Sorted;
    if s.tableSize <= a && (prev < s.tableSize || At(s, prev).key < At(s, a).key) {
      NoGapAt(s, prev, a);
    } else {
      NoGapAt(s, a, prev);
    }
  }

  // Linking keeps the list sorted and without gaps.
  lemma LinkShape<V(!new)>(s: State<V>, t: Tid)
    requires Inv(s) && PcOf(s, t).SetCasNext? && At(s, PcOf(s, t).prev).next == PcOf(s, t).succ
    ensures var r := Step(s, Event(t, Advance)); Formed(r) && Sorted(r) && NoGap(r)
  {
    hide Bucket, Sorted, NoGap, PcsOk;
    var r := Step(s, Event(t, Advance));
    var SetCasNext(op, prev, succ) := PcOf(s, t);
    PlaceIsFree(s, t);
    PcKnown(s, t);
    assert Links(s, r, op, prev);
    LinkSorted(s, r, op, prev);
    LinkNoGap(s, r, op, prev);
  }

  lemma LinkPrivate<V(!new)>(s: State<V>, t: Tid, u: Tid)
    requires Inv(s) && PcOf(s, t).SetCasNext? && At(s, PcOf(s, t).prev).next == PcOf(s, t).succ
    requires u != t && Inserting(PcOf(s, u))
    ensures var r := Step(s, Event(t, Advance)); var op := OpOf(PcOf(s, u)).value;
            PrivateOk(r, op) && At(r, op.node).next == At(s, op.node).next
  {
    hide Bucket, Sorted, NoGap;
    var r := Step(s, Event(t, Advance));
    var SetCasNext(op, prev, succ) := PcOf(s, t);
    PlaceIsFree(s, t);
    assert PcOk(s, PcOf(s, t)) && PcOk(s, PcOf(s, u)) && Apart(PcOf(s, u), PcOf(s, t));
    assert forall a :: Published(r, a) <==> Published(s, a) || a == op.node;
    assert forall a :: a != prev ==> At(r, a) == At(s, a);
  }

  lemma LinkInv<V(!new)>(s: State<V>, t: Tid)
    requires Inv(s) && PcOf(s, t).SetCasNext? && At(s, PcOf(s, t).prev).next == PcOf(s, t).succ
    ensures Inv(Step(s, Event(t, Advance)))
  {
    hide Bucket, Sorted, NoGap, PrivateOk, PlaceOk;
    var r := Step(s, Event(t, Advance));
    PlaceIsFree(s, t);
    LinkShape(s, t);
    PcKnown(s, t);
    LinkGrows(s, t);
    forall u | u != t && Inserting(PcOf(s, u))
      ensures var op := OpOf(PcOf(s, u)).value; PrivateOk(r, op) && At(r, op.node).next == At(s, op.node).next
    {
      LinkPrivate(s, t, u);
    }
    PcsOkAfter(s, r, t, SetReturn);
  }

  lemma LinkGrows<V(!new)>(s: State<V>, t: Tid)
    requires Inv(s) && PcOf(s, t).SetCasNext? && At(s, PcOf(s, t).prev).next == PcOf(s, t).succ
    ensures Grows(s, Step(s, Event(t, Advance))) && Step(s, Event(t, Advance)).pcs == s.pcs[t := SetReturn]
  {
    hide Bucket, Sorted, NoGap;
    PlaceIsFree(s, t);
    PcKnown(s, t);
  }

  lemma DecideOk<V(!new)>(s: State<V>, op: Op<V>, prev: Addr)
    requires Inv(s) && PlaceOk(s, prev, op.key) && (op.Insert? ==> PrivateOk(s, op))
    ensures PcOk(s, Decide(s, op, prev, At(s, prev).next))
  {
    hide Bucket;
  }

  lemma AdvanceInv<V(!new)>(s: State<V>, t: Tid)
    requires Inv(s)
    ensures Inv(Step(s, Event(t, Advance)))
  {
    hide Bucket, Inv, PrivateOk, PlaceOk, Formed, Decide;
    var pc := PcOf(s, t);
    PcKnown(s, t);
    match pc
    case Walk(op, prev) =>
      DecideOk(s, op, prev);
      DecideSameOp(s, op, prev);
      GotoInv(s, t, Decide(s, op, prev, At(s, prev).next));
    case GetLoadValue(key, target) => ValueKnown(s, target); GotoInv(s, t, GetDeref(key, At(s, target).value.value));
    case GetDeref(_, cell) => GotoInv(s, t, GetReturn(Some(s.cells[cell])));
    case SetLoadValue(op, target) => GotoInv(s, t, SetCasValue(op, target, At(s, target).value));
    case SetCasValue(op, target, oldCell) =>
      HeadIsPlace(s, op.key);
      if At(s, target).value == oldCell {
        UpdateInv(s, t);
      } else {
        GotoInv(s, t, Walk(op, Bucket(op.key, s.tableSize)));
      }
    case SetStoreNext(op, prev, succ) => StoreNextInv(s, t);
    case SetCasNext(op, prev, succ) =>
      HeadIsPlace(s, op.key);
      if At(s, prev).next == succ { LinkInv(s, t); } else { GotoInv(s, t, Walk(op, Bucket(op.key, s.tableSize))); }
    case _ =>
  }

  lemma ValueKnown<V(!new)>(s: State<V>, target: Addr)
    requires Formed(s) && s.tableSize <= target && Published(s, target)
    ensures At(s, target).value.Some? && At(s, target).value.value in s.cells
  {
  }

  lemma DecideSameOp<V(!new)>(s: State<V>, op: Op<V>, prev: Addr)
    ensures Inserting(Decide(s, op, prev, At(s, prev).next)) ==> OpOf(Decide(s, op, prev, At(s, prev).next)) == Some(op)
  {
  }

  lemma StepInv<V(!new)>(s: State<V>, e: Event<V>)
    requires Inv(s)
    ensures Inv(Step(s, e))
  {
    hide Inv, Bucket, PlaceOk;
    PcKnown(s, e.t);
    match e.act
    case CallHas(key) =>
      HeadIsPlace(s, key);
      if CanCall(PcOf(s, e.t)) { GotoInv(s, e.t, Walk(Has(key), Bucket(key, s.tableSize))); }
    case CallGet(key) =>
      HeadIsPlace(s, key);
      if CanCall(PcOf(s, e.t)) { GotoInv(s, e.t, Walk(Get(key), Bucket(key, s.tableSize))); }
    case CallSet(key, x) => if CanCall(PcOf(s, e.t)) { CallSetInv(s, e.t, key, x); }
    case Advance => AdvanceInv(s, e.t);
  }

  lemma {:induction false} RunInv<V(!new)>(s: State<V>, es: seq<Event<V>>)
    requires Inv(s)
    ensures Inv(Run(s, es))
  {
    if es == [] {
    } else {
      RunInv(s, es[..|es| - 1]);
      StepInv(Run(s, es[..|es| - 1]), es[|es| - 1]);
    }
  }
}
