/**
 What Insert deletes is never used again: from the CAS that decides the call on, no entry and no
 thread names the deleted entry or value, whatever runs later.
*/
module AtomicHashMapDiscard {
  import opened Common
  import opened AtomicHashMapSpec

  // The value a thread has loaded from value_ptr and will follow or compare.
  function Loaded<V>(pc: Pc<V>): Option<Addr> {
    match pc
    case GetDeref(_, cell) => Some(cell)
    case SetCasValue(_, _, oldCell) => oldCell
    case _ => None
  }

  ghost predicate NoneLoaded<V>(s: State<V>, c: Addr) {
    forall w: Tid :: Loaded(PcOf(s, w)) != Some(c)
  }

  // The values that Insert has built belong to no other entry.
  ghost predicate ValuesApart<V>(s: State<V>, op: Op<V>)
    requires op.Insert?
  {
    op.cell !in s.heap && forall a :: a in s.heap && a != op.node ==> s.heap[a].value != Some(op.node)
  }

  ghost predicate SecretOf<V>(s: State<V>, u: Tid) {
    Inserting(PcOf(s, u)) ==>
      var op := OpOf(PcOf(s, u)).value;
      ValuesApart(s, op) && NoneLoaded(s, op.node) && NoneLoaded(s, op.cell)
  }

  // Every `next` leads to a published entry, and what an Insert has built is known to it only.
  ghost predicate Secret<V>(s: State<V>) {
    && (forall a :: a in s.heap && s.heap[a].next.Some? ==> Published(s, s.heap[a].next.value))
    && (forall w: Tid :: Loaded(PcOf(s, w)).Some? ==> Loaded(PcOf(s, w)).value < s.brk)
    && (forall u: Tid :: SecretOf(s, u))
  }

  lemma InitSecret<V>(tableSize: nat)
    requires 0 < tableSize
    ensures Secret(Init<V>(tableSize))
  {
  }

  // All threads but t are where they were, and t has loaded no value that an Insert has built.
  lemma SecretAfter<V(!new)>(s: State<V>, r: State<V>, t: Tid, pc: Pc<V>)
    requires Secret(s) && r.pcs == s.pcs[t := pc] && s.brk <= r.brk
    requires forall a :: a in r.heap && r.heap[a].next.Some? ==> Published(r, r.heap[a].next.value)
    requires Loaded(pc).Some? ==> Loaded(pc).value < r.brk
    requires forall u: Tid :: u != t && Inserting(PcOf(s, u)) ==>
               var op := OpOf(PcOf(s, u)).value;
               ValuesApart(r, op) && Loaded(pc) != Some(op.node) && Loaded(pc) != Some(op.cell)
    requires Inserting(pc) ==>
               var op := OpOf(pc).value;
               && ValuesApart(r, op) && Loaded(pc) != Some(op.node) && Loaded(pc) != Some(op.cell)
               && NoneLoaded(s, op.node) && NoneLoaded(s, op.cell)
    ensures Secret(r)
  {
    hide ValuesApart, Published;
    forall u: Tid ensures PcOf(r, u) == if u == t then pc else PcOf(s, u) {}
    forall u: Tid ensures SecretOf(r, u) {
      assert SecretOf(s, u);
    }
  }

  // What t loads from the value_ptr of a published entry was built by no Insert in progress.
  lemma LoadIsKnown<V(!new)>(s: State<V>, target: Addr, u: Tid)
    requires Inv(s) && Secret(s) && s.tableSize <= target && Published(s, target) && Inserting(PcOf(s, u))
    ensures var op := OpOf(PcOf(s, u)).value;
            At(s, target).value.Some? && At(s, target).value != Some(op.node) && At(s, target).value != Some(op.cell)
  {
    hide Sorted, NoGap, Bucket;
    PcKnown(s, u);
    assert SecretOf(s, u);
  }

  // A step that only moves t, with nothing loaded or with the value of a published entry.
  lemma GotoSecret<V(!new)>(s: State<V>, t: Tid, pc: Pc<V>)
    requires Inv(s) && Secret(s)
    requires Inserting(pc) ==> OpOf(pc) == OpOf(PcOf(s, t))
    requires Loaded(pc).Some? ==>
               exists target :: s.tableSize <= target && Published(s, target) && At(s, target).value == Loaded(pc)
    ensures Secret(Goto(s, t, pc))
  {
    hide Sorted, NoGap, Bucket, PcsOk;
    var r := Goto(s, t, pc);
    forall a ensures Published(r, a) == Published(s, a) {}
    assert forall op: Op<V> :: op.Insert? ==> ValuesApart(r, op) == ValuesApart(s, op);
    assert SecretOf(s, t);
    if Loaded(pc).Some? {
      var target :| s.tableSize <= target && Published(s, target) && At(s, target).value == Loaded(pc);
      PcKnown(s, t);
      ValueKnown(s, target);
      forall u: Tid | Inserting(PcOf(s, u))
        ensures Loaded(pc) != Some(OpOf(PcOf(s, u)).value.node) && Loaded(pc) != Some(OpOf(PcOf(s, u)).value.cell)
      {
        LoadIsKnown(s, target, u);
      }
    }
    forall u: Tid | u != t && Inserting(PcOf(s, u)) ensures ValuesApart(s, OpOf(PcOf(s, u)).value) {
      assert SecretOf(s, u);
    }
    SecretAfter(s, r, t, pc);
  }

  lemma CallSetSecret<V(!new)>(s: State<V>, t: Tid, key: Key, x: V)
    requires Inv(s) && Secret(s) && CanCall(PcOf(s, t))
    ensures Secret(Step(s, Event(t, CallSet(key, x))))
  {
    hide Sorted, NoGap, Bucket;
    var r := Step(s, Event(t, CallSet(key, x)));
    BuiltIsPrivate(s, t, key, x);
    forall u: Tid | u != t && Inserting(PcOf(s, u)) ensures ValuesApart(r, OpOf(PcOf(s, u)).value) {
      assert SecretOf(s, u) && PcOk(s, PcOf(s, u));
    }
    SecretAfter(s, r, t, Walk(Insert(key, x, s.brk, s.brk + 1), Bucket(key, s.tableSize)));
  }

  lemma StoreNextSecret<V(!new)>(s: State<V>, t: Tid)
    requires Inv(s) && Secret(s) && PcOf(s, t).SetStoreNext?
    ensures Secret(Step(s, Event(t, Advance)))
  {
    hide Sorted, NoGap, Bucket;
    var r := Step(s, Event(t, Advance));
    var SetStoreNext(op, prev, succ) := PcOf(s, t);
    assert PcOk(s, PcOf(s, t)) && SecretOf(s, t);
    forall a ensures Published(r, a) == Published(s, a) {}
    forall u: Tid | u != t && Inserting(PcOf(s, u)) ensures ValuesApart(r, OpOf(PcOf(s, u)).value) {
      assert SecretOf(s, u);
    }
    SecretAfter(s, r, t, SetCasNext(op, prev, succ));
  }

  lemma UpdateSecret<V(!new)>(s: State<V>, t: Tid)
    requires Inv(s) && Secret(s) && PcOf(s, t).SetCasValue? && At(s, PcOf(s, t).target).value == PcOf(s, t).oldCell
    ensures Secret(Step(s, Event(t, Advance)))
  {
    hide Sorted, NoGap, Bucket;
    var r := Step(s, Event(t, Advance));
    var SetCasValue(op, target, _) := PcOf(s, t);
    assert PcOk(s, PcOf(s, t)) && SecretOf(s, t);
    forall a ensures Published(r, a) == Published(s, a) {}
    forall u: Tid | u != t && Inserting(PcOf(s, u)) ensures ValuesApart(r, OpOf(PcOf(s, u)).value) {
      assert SecretOf(s, u) && PcOk(s, PcOf(s, u));
    }
    SecretAfter(s, r, t, SetReturn);
  }

  lemma LinkSecret<V(!new)>(s: State<V>, t: Tid)
    requires Inv(s) && Secret(s) && PcOf(s, t).SetCasNext? && At(s, PcOf(s, t).prev).next == PcOf(s, t).succ
    ensures Secret(Step(s, Event(t, Advance)))
  {
    hide Sorted, NoGap, Bucket;
    var r := Step(s, Event(t, Advance));
    var SetCasNext(op, prev, _) := PcOf(s, t);
    PlaceIsFree(s, t);
    assert PcOk(s, PcOf(s, t)) && SecretOf(s, t);
    forall a ensures Published(r, a) == (Published(s, a) || a == op.node) {}
    forall u: Tid | u != t && Inserting(PcOf(s, u)) ensures ValuesApart(r, OpOf(PcOf(s, u)).value) {
      assert SecretOf(s, u);
    }
    SecretAfter(s, r, t, SetReturn);
  }

  lemma AdvanceSecret<V(!new)>(s: State<V>, t: Tid)
    requires Inv(s) && Secret(s)
    ensures Secret(Step(s, Event(t, Advance)))
  {
    hide Inv, Secret, Bucket, PrivateOk, PlaceOk, Formed, Decide, Published;
    PcKnown(s, t);
    match PcOf(s, t)
    case Walk(op, prev) =>
      DecideSameOp(s, op, prev);
      DecideLoadsNothing(s, op, prev);
      GotoSecret(s, t, Decide(s, op, prev, At(s, prev).next));
    case GetLoadValue(key, target) =>
      ValueKnown(s, target);
      GotoSecret(s, t, GetDeref(key, At(s, target).value.value));
    case GetDeref(_, cell) => GotoSecret(s, t, GetReturn(Some(s.cells[cell])));
    case SetLoadValue(op, target) => GotoSecret(s, t, SetCasValue(op, target, At(s, target).value));
    case SetCasValue(op, target, oldCell) =>
      if At(s, target).value == oldCell {
        UpdateSecret(s, t);
      } else {
        GotoSecret(s, t, Walk(op, Bucket(op.key, s.tableSize)));
      }
    case SetStoreNext(_, _, _) => StoreNextSecret(s, t);
    case SetCasNext(op, prev, succ) =>
      if At(s, prev).next == succ {
        LinkSecret(s, t);
      } else {
        GotoSecret(s, t, Walk(op, Bucket(op.key, s.tableSize)));
      }
    case _ =>
  }

  lemma DecideLoadsNothing<V>(s: State<V>, op: Op<V>, prev: Addr)
    ensures Loaded(Decide(s, op, prev, At(s, prev).next)) == None
  {
  }

  lemma StepSecret<V(!new)>(s: State<V>, e: Event<V>)
    requires Inv(s) && Secret(s)
    ensures Secret(Step(s, e))
  {
    hide Inv, Secret, Bucket;
    PcKnown(s, e.t);
    if CanCall(PcOf(s, e.t)) {
      match e.act
      case CallHas(key) => GotoSecret(s, e.t, Walk(Has(key), Bucket(key, s.tableSize)));
      case CallGet(key) => GotoSecret(s, e.t, Walk(Get(key), Bucket(key, s.tableSize)));
      case CallSet(key, x) => CallSetSecret(s, e.t, key, x);
      case Advance => AdvanceSecret(s, e.t);
    } else if e.act.Advance? {
      AdvanceSecret(s, e.t);
    }
  }

  // ---------------------------------------------------------------- deleted addresses

  // Nothing leads to the address: it is not in the table, no Insert in progress owns it, it is
  // the value of no entry but, perhaps, the deleted one at that address, and no thread loaded it.
  ghost predicate Gone<V>(s: State<V>, d: Addr) {
    && s.tableSize <= d < s.brk && !Published(s, d)
    && (forall u: Tid :: Inserting(PcOf(s, u)) ==> OpOf(PcOf(s, u)).value.node != d && OpOf(PcOf(s, u)).value.cell != d)
    && (forall a :: a in s.heap && a != d ==> s.heap[a].value != Some(d))
    && NoneLoaded(s, d)
  }

  // The addresses of entries a thread can read or write next, or compare with.
  ghost predicate Names<V>(pc: Pc<V>, d: Addr) {
    || Loaded(pc) == Some(d)
    || (Inserting(pc) && (OpOf(pc).value.node == d || OpOf(pc).value.cell == d))
    || match pc
       case Walk(_, prev) => prev == d
       case GetLoadValue(_, target) => target == d
       case SetLoadValue(_, target) => target == d
       case SetCasValue(_, target, _) => target == d
       case SetStoreNext(_, prev, succ) => prev == d || succ == Some(d)
       case SetCasNext(_, prev, succ) => prev == d || succ == Some(d)
       case _ => false
  }

  // No thread and no other entry names the address.
  ghost predicate Unnamed<V>(s: State<V>, d: Addr) {
    && (forall u: Tid :: !Names(PcOf(s, u), d))
    && (forall a :: a in s.heap ==> s.heap[a].next != Some(d) && (a != d ==> s.heap[a].value != Some(d)))
  }

  lemma GoneIsUnnamed<V(!new)>(s: State<V>, d: Addr)
    requires Inv(s) && Secret(s) && Gone(s, d)
    ensures Unnamed(s, d)
  {
    hide Sorted, NoGap, Bucket, PrivateOk;
    forall u: Tid ensures !Names(PcOf(s, u), d) {
      assert PcOk(s, PcOf(s, u));
    }
  }

  lemma GoneAfter<V(!new)>(s: State<V>, r: State<V>, t: Tid, pc: Pc<V>, d: Addr)
    requires Gone(s, d) && r.pcs == s.pcs[t := pc] && s.brk <= r.brk && r.tableSize == s.tableSize
    requires !Published(r, d) && Loaded(pc) != Some(d)
    requires Inserting(pc) ==> OpOf(pc).value.node != d && OpOf(pc).value.cell != d
    requires forall a :: a in r.heap && a != d ==> r.heap[a].value != Some(d)
    ensures Gone(r, d)
  {
    hide Published;
    forall u: Tid ensures PcOf(r, u) == if u == t then pc else PcOf(s, u) {}
  }

  lemma GoneGoto<V(!new)>(s: State<V>, t: Tid, pc: Pc<V>, d: Addr)
    requires Inv(s) && Gone(s, d) && (Inserting(pc) ==> OpOf(pc) == OpOf(PcOf(s, t)))
    requires Loaded(pc).Some? ==>
               exists target :: s.tableSize <= target && Published(s, target) && At(s, target).value == Loaded(pc)
    ensures Gone(Goto(s, t, pc), d)
  {
    hide Inv;
    PcKnown(s, t);
    assert Published(Goto(s, t, pc), d) == Published(s, d);
    if Loaded(pc).Some? {
      var target :| s.tableSize <= target && Published(s, target) && At(s, target).value == Loaded(pc);
      assert target in s.heap && target != d;
    }
    GoneAfter(s, Goto(s, t, pc), t, pc, d);
  }

  lemma GoneCallSet<V(!new)>(s: State<V>, t: Tid, key: Key, x: V, d: Addr)
    requires Inv(s) && CanCall(PcOf(s, t)) && Gone(s, d)
    ensures Gone(Step(s, Event(t, CallSet(key, x))), d)
  {
    hide Sorted, NoGap, Bucket, PcsOk;
    BuiltIsPrivate(s, t, key, x);
    GoneAfter(s, Step(s, Event(t, CallSet(key, x))), t,
              Walk(Insert(key, x, s.brk, s.brk + 1), Bucket(key, s.tableSize)), d);
  }

  lemma GoneChange<V(!new)>(s: State<V>, t: Tid, d: Addr)
    requires Inv(s) && Gone(s, d)
    requires var pc := PcOf(s, t);
             || (pc.SetCasValue? && At(s, pc.target).value == pc.oldCell)
             || pc.SetStoreNext?
             || (pc.SetCasNext? && At(s, pc.prev).next == pc.succ)
    ensures Gone(Step(s, Event(t, Advance)), d)
  {
    hide Sorted, NoGap, Bucket, Inv;
    PcKnown(s, t);
    var r := Step(s, Event(t, Advance));
    assert PcOf(s, t).SetCasNext? ==> forall a :: Published(r, a) ==> Published(s, a) || a == PcOf(s, t).op.node;
    assert !PcOf(s, t).SetCasNext? ==> forall a :: Published(r, a) == Published(s, a);
    GoneAfter(s, r, t, PcOf(r, t), d);
  }

  lemma GoneAdvance<V(!new)>(s: State<V>, t: Tid, d: Addr)
    requires Inv(s) && Gone(s, d)
    ensures Gone(Step(s, Event(t, Advance)), d)
  {
    hide Inv, Gone, Bucket, PrivateOk, PlaceOk, Formed, Decide, Published;
    PcKnown(s, t);
    match PcOf(s, t)
    case Walk(op, prev) =>
      DecideSameOp(s, op, prev);
      DecideLoadsNothing(s, op, prev);
      GoneGoto(s, t, Decide(s, op, prev, At(s, prev).next), d);
    case GetLoadValue(key, target) =>
      ValueKnown(s, target);
      GoneGoto(s, t, GetDeref(key, At(s, target).value.value), d);
    case GetDeref(_, cell) => GoneGoto(s, t, GetReturn(Some(s.cells[cell])), d);
    case SetLoadValue(op, target) => GoneGoto(s, t, SetCasValue(op, target, At(s, target).value), d);
    case SetCasValue(op, target, oldCell) =>
      if At(s, target).value == oldCell {
        GoneChange(s, t, d);
      } else {
        GoneGoto(s, t, Walk(op, Bucket(op.key, s.tableSize)), d);
      }
    case SetStoreNext(_, _, _) => GoneChange(s, t, d);
    case SetCasNext(op, prev, succ) =>
      if At(s, prev).next == succ {
        GoneChange(s, t, d);
      } else {
        GoneGoto(s, t, Walk(op, Bucket(op.key, s.tableSize)), d);
      }
    case _ =>
  }

  lemma GoneStep<V(!new)>(s: State<V>, e: Event<V>, d: Addr)
    requires Inv(s) && Gone(s, d)
    ensures Gone(Step(s, e), d)
  {
    hide Inv, Gone, Bucket;
    PcKnown(s, e.t);
    if CanCall(PcOf(s, e.t)) {
      match e.act
      case CallHas(key) => GoneGoto(s, e.t, Walk(Has(key), Bucket(key, s.tableSize)), d);
      case CallGet(key) => GoneGoto(s, e.t, Walk(Get(key), Bucket(key, s.tableSize)), d);
      case CallSet(key, x) => GoneCallSet(s, e.t, key, x, d);
      case Advance => GoneAdvance(s, e.t, d);
    } else if e.act.Advance? {
      GoneAdvance(s, e.t, d);
    }
  }

  // The step at which Insert has decided what to delete: its entry with the entry's value when
  // it has updated a value, its second value when it has linked the entry.
  predicate Discards<V>(s: State<V>, e: Event<V>, d: Addr)
    requires 0 < s.tableSize
  {
    var pc := PcOf(s, e.t);
    && e.act == Advance && PcOf(Step(s, e), e.t).SetReturn?
    && ((pc.SetCasValue? && pc.op.Insert? && d == pc.op.node) || (pc.SetCasNext? && pc.op.Insert? && d == pc.op.cell))
  }

  lemma DiscardedIsGone<V(!new)>(s: State<V>, e: Event<V>, d: Addr)
    requires Inv(s) && Secret(s) && Discards(s, e, d)
    ensures Gone(Step(s, e), d)
  {
    if PcOf(s, e.t).SetCasValue? { DiscardedEntryIsGone(s, e.t); } else { DiscardedValueIsGone(s, e.t); }
  }

  lemma OthersBuiltElsewhere<V(!new)>(s: State<V>, t: Tid, r: State<V>)
    requires Inv(s) && Secret(s) && Inserting(PcOf(s, t)) && r.pcs == s.pcs[t := SetReturn]
    ensures var op := OpOf(PcOf(s, t)).value;
            && NoneLoaded(r, op.node) && NoneLoaded(r, op.cell)
            && forall u: Tid :: Inserting(PcOf(r, u)) ==>
                 var other := OpOf(PcOf(r, u)).value;
                 other.node != op.node && other.cell != op.node && other.node != op.cell && other.cell != op.cell
  {
    hide Inv, Published, ValuesApart;
    assert SecretOf(s, t);
    forall u: Tid ensures PcOf(r, u) == if u == t then SetReturn else PcOf(s, u) {}
    forall u: Tid | u != t && Inserting(PcOf(s, u))
      ensures var op, other := OpOf(PcOf(s, t)).value, OpOf(PcOf(s, u)).value;
              other.node != op.node && other.cell != op.node && other.node != op.cell && other.cell != op.cell
    {
      BuiltApart(s, t, u);
    }
  }

  lemma DiscardedEntryIsGone<V(!new)>(s: State<V>, t: Tid)
    requires Inv(s) && Secret(s) && PcOf(s, t).SetCasValue? && PcOf(s, t).op.Insert?
    requires At(s, PcOf(s, t).target).value == PcOf(s, t).oldCell
    ensures Gone(Step(s, Event(t, Advance)), PcOf(s, t).op.node)
  {
    hide Sorted, NoGap, Bucket, Inv, NoneLoaded;
    PcKnown(s, t);
    assert SecretOf(s, t);
    var r := Step(s, Event(t, Advance));
    OthersBuiltElsewhere(s, t, r);
    assert Published(r, PcOf(s, t).op.node) == Published(s, PcOf(s, t).op.node);
  }

  lemma DiscardedValueIsGone<V(!new)>(s: State<V>, t: Tid)
    requires Inv(s) && Secret(s) && PcOf(s, t).SetCasNext? && PcOf(s, t).op.Insert?
    requires At(s, PcOf(s, t).prev).next == PcOf(s, t).succ
    ensures Gone(Step(s, Event(t, Advance)), PcOf(s, t).op.cell)
  {
    hide Sorted, NoGap, Bucket, Inv, NoneLoaded;
    PcKnown(s, t);
    assert SecretOf(s, t);
    var r := Step(s, Event(t, Advance));
    OthersBuiltElsewhere(s, t, r);
    ValueOutsideTable(s, PcOf(s, t).op);
  }

  lemma ValueOutsideTable<V>(s: State<V>, op: Op<V>)
    requires Formed(s) && op.Insert? && PrivateOk(s, op) && ValuesApart(s, op)
    ensures s.tableSize <= op.cell < s.brk
  {
  }

  // Two inserts in progress have built four different addresses.
  lemma BuiltApart<V(!new)>(s: State<V>, t: Tid, u: Tid)
    requires Inv(s) && Secret(s) && t != u && Inserting(PcOf(s, t)) && Inserting(PcOf(s, u))
    ensures var a, b := OpOf(PcOf(s, t)).value, OpOf(PcOf(s, u)).value;
            a.node != b.node && a.node != b.cell && a.cell != b.node && a.cell != b.cell
  {
    hide Sorted, NoGap, Bucket;
    assert Apart(PcOf(s, t), PcOf(s, u)) && PcOk(s, PcOf(s, t)) && PcOk(s, PcOf(s, u));
    assert SecretOf(s, t) && SecretOf(s, u);
  }

  lemma {:induction false} GoneForever<V(!new)>(s: State<V>, es: seq<Event<V>>, d: Addr)
    requires Inv(s) && Secret(s) && Gone(s, d)
    ensures Inv(Run(s, es)) && Secret(Run(s, es)) && Gone(Run(s, es), d)
  {
    hide Inv, Secret, Gone, Step;
    PcKnown(s, 0);
    if es == [] {
    } else {
      var p, e := es[..|es| - 1], es[|es| - 1];
      GoneForever(s, p, d);
      StepInv(Run(s, p), e);
      StepSecret(Run(s, p), e);
      GoneStep(Run(s, p), e, d);
    }
  }

  lemma {:induction false} RunSecret<V(!new)>(tableSize: nat, es: seq<Event<V>>)
    requires 0 < tableSize
    ensures Inv(Run(Init<V>(tableSize), es)) && Secret(Run(Init<V>(tableSize), es))
  {
    hide Inv, Secret, Step;
    if es == [] {
      InitInv<V>(tableSize);
      InitSecret<V>(tableSize);
    } else {
      RunSecret<V>(tableSize, es[..|es| - 1]);
      StepInv(Run(Init<V>(tableSize), es[..|es| - 1]), es[|es| - 1]);
      StepSecret(Run(Init<V>(tableSize), es[..|es| - 1]), es[|es| - 1]);
    }
  }

  // What Insert deletes in a run is named by no thread and by no other entry in any later state:
  // it is never read, written, compared with or deleted again.
  lemma DiscardedNeverUsed<V(!new)>(tableSize: nat, es: seq<Event<V>>, e: Event<V>, later: seq<Event<V>>, d: Addr)
    requires 0 < tableSize && Discards(Run(Init<V>(tableSize), es), e, d)
    ensures Unnamed(Run(Step(Run(Init<V>(tableSize), es), e), later), d)
  {
    hide Inv, Secret, Gone, Step, Discards, Unnamed;
    var s := Run(Init<V>(tableSize), es);
    RunSecret<V>(tableSize, es);
    DiscardedIsGone(s, e, d);
    StepInv(s, e);
    StepSecret(s, e);
    GoneForever(Step(s, e), later, d);
    GoneIsUnnamed(Run(Step(s, e), later), d);
  }
}
