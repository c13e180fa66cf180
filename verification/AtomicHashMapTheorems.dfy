/**
 What every run of the hash table guarantees: it is linearizable to a plain map, its lists
 stay sorted and complete, and nothing that is thrown away was ever visible.
*/
module AtomicHashMapTheorems {
  import opened Common
  import opened AtomicHashMapSpec

  // ---------------------------------------------------------------- linearizability

  // What a call tells its caller, at the step that decides it.
  datatype Label<V> =
    | Silent
    | Put(t: Tid, key: Key, x: V)
    | Hit(t: Tid, key: Key, x: V)
    | Miss(t: Tid, key: Key)
    | HasAnswer(t: Tid, key: Key, found: bool)

  function LabelOf<V>(s: State<V>, e: Event<V>): Label<V>
    requires 0 < s.tableSize
  {
    var before, after := PcOf(s, e.t), PcOf(Step(s, e), e.t);
    if e.act != Advance then Silent else
    match before
    case GetLoadValue(key, _) =>
      if after.GetDeref? && after.cell in s.cells then Hit(e.t, key, s.cells[after.cell]) else Silent
    case Walk(op, _) =>
      if after.HasReturn? then HasAnswer(e.t, op.key, after.found)
      else if after.GetReturn? then Miss(e.t, op.key)
      else Silent
    case SetCasValue(op, _, _) => if after.SetReturn? && op.Insert? then Put(e.t, op.key, op.x) else Silent
    case SetCasNext(op, _, _) => if after.SetReturn? && op.Insert? then Put(e.t, op.key, op.x) else Silent
    case _ => Silent
  }

  function Trace<V>(s: State<V>, es: seq<Event<V>>): seq<Label<V>>
    requires 0 < s.tableSize
  {
    if es == [] then []
    else Trace(s, es[..|es| - 1]) + [LabelOf(Run(s, es[..|es| - 1]), es[|es| - 1])]
  }

  // A plain map; None when it would not have given that answer.
  ghost function Apply<V>(m: map<Key, V>, l: Label<V>): Option<map<Key, V>> {
    match l
    case Silent => Some(m)
    case Put(_, key, x) => Some(m[key := x])
    case Hit(_, key, x) => if key in m && m[key] == x then Some(m) else None
    case Miss(_, key) => if key !in m then Some(m) else None
    case HasAnswer(_, key, found) => if found == (key in m) then Some(m) else None
  }

  ghost function Replay<V>(ls: seq<Label<V>>): Option<map<Key, V>> {
    if ls == [] then Some(map[])
    else
      var m := Replay(ls[..|ls| - 1]);
      if m.None? then None else Apply(m.value, ls[|ls| - 1])
  }

  // The map the table represents: each published key with the value in its entry's cell.
  ghost function Table<V>(s: State<V>): map<Key, V>
    requires Formed(s)
  {
    map k | k in s.index :: s.cells[s.heap[s.index[k]].value.value]
  }

  // A traversal's verdict is right at its last `next` load, however long ago it passed the head.
  lemma VerdictIsCurrent<V>(s: State<V>, key: Key, prev: Addr)
    requires Formed(s) && Sorted(s) && NoGap(s) && PlaceOk(s, prev, key)
    requires At(s, prev).next.Some? ==> key <= At(s, At(s, prev).next.value).key
    ensures key in s.index <==> At(s, prev).next.Some? && At(s, At(s, prev).next.value).key == key
    ensures key in s.index ==> At(s, prev).next == Some(s.index[key])
  {
    hide Bucket;
  }

  lemma WalkRefines<V(!new)>(s: State<V>, t: Tid)
    requires Inv(s) && Formed(s) && PcOf(s, t).Walk?
    ensures Apply(Table(s), LabelOf(s, Event(t, Advance))) == Some(Table(s))
  {
    hide Bucket, PcsOk, PrivateOk;
    PcKnown(s, t);
    var Walk(op, prev) := PcOf(s, t);
    var next := At(s, prev).next;
    if next.None? || op.key <= At(s, next.value).key {
      VerdictIsCurrent(s, op.key, prev);
    }
  }

  lemma UpdateRefines<V(!new)>(s: State<V>, t: Tid)
    requires Inv(s) && Formed(s) && PcOf(s, t).SetCasValue? && At(s, PcOf(s, t).target).value == PcOf(s, t).oldCell
    ensures var r := Step(s, Event(t, Advance)); var op := PcOf(s, t).op;
            Formed(r) && op.Insert? && Table(r) == Table(s)[op.key := op.x]
  {
    hide Bucket, PcsOk, Sorted, NoGap;
    PcKnown(s, t);
    StepInv(s, Event(t, Advance));
    var r := Step(s, Event(t, Advance));
    var SetCasValue(op, target, _) := PcOf(s, t);
    forall k | k in s.index && k != op.key ensures Table(r)[k] == Table(s)[k] {
      assert s.index[k] != target;
    }
  }

  lemma LinkRefines<V(!new)>(s: State<V>, t: Tid)
    requires Inv(s) && PcOf(s, t).SetCasNext? && At(s, PcOf(s, t).prev).next == PcOf(s, t).succ
    ensures var r := Step(s, Event(t, Advance)); var op := PcOf(s, t).op;
            Formed(s) && Formed(r) && op.Insert? && op.key !in Table(s) && Table(r) == Table(s)[op.key := op.x]
  {
    hide Bucket, PcsOk, Sorted, NoGap;
    PcKnown(s, t);
    PlaceIsFree(s, t);
    StepInv(s, Event(t, Advance));
    var r := Step(s, Event(t, Advance));
    var SetCasNext(op, prev, _) := PcOf(s, t);
    assert forall a :: At(r, a).value == At(s, a).value;
    forall k | k in s.index ensures Table(r)[k] == Table(s)[k] {}
  }

  lemma CallSetRefines<V(!new)>(s: State<V>, t: Tid, key: Key, x: V)
    requires Inv(s) && Formed(s)
    ensures var r := Step(s, Event(t, CallSet(key, x))); Formed(r) && Table(r) == Table(s)
  {
    hide Inv, Bucket, PrivateOk;
    if CanCall(PcOf(s, t)) {
      BuiltIsPrivate(s, t, key, x);
      var r := Step(s, Event(t, CallSet(key, x)));
      assert r.index == s.index;
      forall k | k in s.index ensures Table(r)[k] == Table(s)[k] {
        assert At(r, s.index[k]) == At(s, s.index[k]);
      }
    }
  }

  lemma StoreNextRefines<V(!new)>(s: State<V>, t: Tid)
    requires Inv(s) && Formed(s) && PcOf(s, t).SetStoreNext?
    ensures var r := Step(s, Event(t, Advance)); Formed(r) && Table(r) == Table(s)
  {
    hide PcsOk, Sorted, NoGap, Bucket;
    StepInv(s, Event(t, Advance));
    assert forall a :: At(Step(s, Event(t, Advance)), a).value == At(s, a).value;
  }

  // One step of any thread is one step of the plain map.
  lemma StepRefines<V(!new)>(s: State<V>, e: Event<V>)
    requires Inv(s) && Formed(s)
    ensures Inv(Step(s, e)) && Formed(Step(s, e))
    ensures Apply(Table(s), LabelOf(s, e)) == Some(Table(Step(s, e)))
  {
    hide Inv, Bucket, PrivateOk, PlaceOk, Formed, Table;
    PcKnown(s, e.t);
    StepInv(s, e);
    PcKnown(Step(s, e), e.t);
    var t, pc := e.t, PcOf(s, e.t);
    match e.act
    case CallSet(key, x) => CallSetRefines(s, t, key, x);
    case Advance =>
      match pc {
        case Walk(_, _) => WalkRefines(s, t); SameTable(s, Step(s, e));
        case GetLoadValue(key, target) => LoadRefines(s, t);
        case SetCasValue(op, target, oldCell) =>
          if At(s, target).value == oldCell { UpdateRefines(s, t); } else { SameTable(s, Step(s, e)); }
        case SetStoreNext(_, _, _) => StoreNextRefines(s, t);
        case SetCasNext(op, prev, succ) =>
          if At(s, prev).next == succ { LinkRefines(s, t); } else { SameTable(s, Step(s, e)); }
        case _ => SameTable(s, Step(s, e));
      }
    case _ => SameTable(s, Step(s, e));
  }

  lemma SameTable<V>(s: State<V>, r: State<V>)
    requires Formed(s) && Formed(r) && r.heap == s.heap && r.index == s.index && r.cells == s.cells
    ensures Table(r) == Table(s)
  {
  }

  lemma LoadRefines<V(!new)>(s: State<V>, t: Tid)
    requires Inv(s) && Formed(s) && PcOf(s, t).GetLoadValue?
    ensures var r := Step(s, Event(t, Advance));
            Formed(r) && Table(r) == Table(s) && Apply(Table(s), LabelOf(s, Event(t, Advance))) == Some(Table(s))
  {
    hide PcsOk, Sorted, NoGap;
    PcKnown(s, t);
  }

  // Main theorem: in every interleaving of any number of threads the answers, in the order of
  // the deciding steps, are those of one plain map in which each Set counts exactly once.
  lemma {:induction false} Linearizable<V(!new)>(tableSize: nat, es: seq<Event<V>>)
    requires 0 < tableSize
    ensures var s := Run(Init<V>(tableSize), es);
            Inv(s) && Formed(s) && Replay(Trace(Init<V>(tableSize), es)) == Some(Table(s))
  {
    hide Inv, Formed, Table;
    var s0 := Init<V>(tableSize);
    if es == [] {
      InitInv<V>(tableSize);
      PcKnown(s0, 0);
      EmptyTable<V>(tableSize);
    } else {
      var prefix := es[..|es| - 1];
      Linearizable(tableSize, prefix);
      StepRefines(Run(s0, prefix), es[|es| - 1]);
      var ls := Trace(s0, es);
      assert ls[..|ls| - 1] == Trace(s0, prefix);
    }
  }

  lemma EmptyTable<V>(tableSize: nat)
    requires Formed(Init<V>(tableSize))
    ensures Table(Init<V>(tableSize)) == map[]
  {
  }

  // Get decides when it loads value_ptr and dereferences later: the cell still holds that value.
  lemma {:induction false} DerefReturnsLoadedValue<V(!new)>(s: State<V>, es: seq<Event<V>>, cell: Addr)
    requires Inv(s) && cell in s.cells
    ensures Inv(Run(s, es)) && cell in Run(s, es).cells && Run(s, es).cells[cell] == s.cells[cell]
  {
    if es == [] {
    } else {
      var r, e := Run(s, es[..|es| - 1]), es[|es| - 1];
      DerefReturnsLoadedValue(s, es[..|es| - 1], cell);
      StepInv(r, e);
      CellsAreWrittenOnce(r, e);
    }
  }

  lemma CellsAreWrittenOnce<V(!new)>(s: State<V>, e: Event<V>)
    requires Inv(s)
    ensures forall c :: c in s.cells ==> c in Step(s, e).cells && Step(s, e).cells[c] == s.cells[c]
    ensures forall k :: k in s.index ==> k in Step(s, e).index && Step(s, e).index[k] == s.index[k]
  {
    hide Sorted, NoGap, Bucket;
    PcKnown(s, e.t);
    if e.act == Advance && PcOf(s, e.t).SetCasNext? && At(s, PcOf(s, e.t).prev).next == PcOf(s, e.t).succ {
      PlaceIsFree(s, e.t);
    }
  }

  // ---------------------------------------------------------------- shape of the lists

  // The published keys of a's list that are behind a.
  ghost function KeysBehind<V>(s: State<V>, a: Addr): set<Key>
    requires 0 < s.tableSize
  {
    set k | k in s.index && Bucket(k, s.tableSize) == ListOf(s, a) && Before(s, a, k)
  }

  lemma NextIsCloser<V>(s: State<V>, a: Addr)
    requires Formed(s) && Sorted(s) && Published(s, a) && At(s, a).next.Some?
    ensures var b := At(s, a).next.value; Published(s, b) && KeysBehind(s, b) < KeysBehind(s, a)
  {
    hide Bucket;
    var b := At(s, a).next.value;
    assert At(s, b).key in KeysBehind(s, a) && At(s, b).key !in KeysBehind(s, b);
  }

  // The keys met by following `next` from a published entry: the walk ends, so the list has no cycle.
  ghost function KeysFrom<V>(s: State<V>, a: Addr): seq<Key>
    requires Formed(s) && Sorted(s) && Published(s, a)
    decreases KeysBehind(s, a)
  {
    var next := At(s, a).next;
    if next.None? then [] else
    NextIsCloser(s, a);
    [At(s, next.value).key] + KeysFrom(s, next.value)
  }

  ghost predicate StrictlyIncreasing(ks: seq<Key>) {
    forall i, j :: 0 <= i < j < |ks| ==> ks[i] < ks[j]
  }

  lemma {:induction false} KeysFromShape<V>(s: State<V>, a: Addr)
    requires Formed(s) && Sorted(s) && NoGap(s) && Published(s, a)
    ensures StrictlyIncreasing(KeysFrom(s, a))
    ensures forall k :: k in KeysFrom(s, a) <==> k in KeysBehind(s, a)
    decreases KeysBehind(s, a)
  {
    hide Bucket;
    var next := At(s, a).next;
    if next.Some? {
      NextIsCloser(s, a);
      KeysFromShape(s, next.value);
      var key, rest := At(s, next.value).key, KeysFrom(s, next.value);
      forall k ensures k in KeysBehind(s, a) <==> k == key || k in rest {
        if k in KeysBehind(s, a) { assert key <= k; }
      }
      forall i | 0 <= i < |rest| ensures key < rest[i] {
        assert rest[i] in rest;
      }
    }
  }

  // In every reachable state each bucket's list is finite, strictly increasing and holds exactly
  // the keys of the table that hash to that bucket, once each.
  lemma BucketShape<V(!new)>(tableSize: nat, es: seq<Event<V>>, b: Addr)
    requires b < tableSize
    ensures var s := Run(Init<V>(tableSize), es);
            && Formed(s) && Sorted(s) && Published(s, b)
            && StrictlyIncreasing(KeysFrom(s, b))
            && forall k :: k in KeysFrom(s, b) <==> k in Table(s) && Bucket(k, tableSize) == b
  {
    var s := Run(Init<V>(tableSize), es);
    InitInv<V>(tableSize);
    RunInv(Init<V>(tableSize), es);
    KeysFromShape(s, b);
  }

  // ---------------------------------------------------------------- discarded memory

  // Insert deletes its entry when it updated a value, and its second cell when it linked the
  // entry. Right after that CAS no entry of the table leads to what is deleted; for all later
  // states, and for the threads, see AtomicHashMapDiscard.
  lemma DiscardedNeverVisible<V(!new)>(s: State<V>, t: Tid)
    requires Inv(s) && Inserting(PcOf(s, t)) && PcOf(Step(s, Event(t, Advance)), t).SetReturn?
    ensures var r := Step(s, Event(t, Advance));
            var op := OpOf(PcOf(s, t)).value;
            && (PcOf(s, t).SetCasValue? ==>
                  !Published(r, op.node) && forall a :: Published(r, a) ==> At(r, a).next != Some(op.node))
            && (PcOf(s, t).SetCasNext? ==>
                  forall a :: a in r.heap ==> r.heap[a].value != Some(op.cell))
  {
    hide Sorted, NoGap, Bucket, PcsOk;
    PcKnown(s, t);
    var r := Step(s, Event(t, Advance));
    assert PcOf(s, t).SetCasValue? ==>
             forall a :: At(r, a).next == At(s, a).next && (Published(r, a) <==> Published(s, a));
  }

  // A linking CAS only fails because another thread has linked an entry in that very place
  // since the traversal, so whenever one Set retries another Set has succeeded.
  lemma FailedLinkMeansProgress<V(!new)>(s: State<V>, t: Tid)
    requires Inv(s) && PcOf(s, t).SetCasNext? && !PcOf(Step(s, Event(t, Advance)), t).SetReturn?
    ensures var SetCasNext(op, prev, succ) := PcOf(s, t);
            && At(s, prev).next.Some?
            && var k := At(s, At(s, prev).next.value).key;
               k in s.index && s.index[k] == At(s, prev).next.value && Before(s, prev, k)
               && (succ.Some? ==> k < At(s, succ.value).key)
  {
    hide PcsOk, Bucket, PrivateOk;
    PcKnown(s, t);
    var SetCasNext(op, prev, succ) := PcOf(s, t);
    if succ.Some? { NoGapAt(s, prev, succ.value); }
  }
}
