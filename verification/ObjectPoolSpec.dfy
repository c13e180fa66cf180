/**
 The lock-free object pool of cyber/base/concurrent_object_pool.h: a stack of free arena
 nodes whose head carries a counter, one atomic access per step, for any number of threads.

 Nodes are arena indexes. `chain` and `place` are history: the free nodes from the head
 down, and where each node is. No step of the pool reads them; a caller releases only nodes callers hold.
*/
module ObjectPoolSpec {
  import opened Common

  type Node = nat

  datatype Place = Free | Held | Releasing(owner: Tid)

  // What a thread does next. `count` and `top` are its copy of free_head_.
  datatype Pc =
    | Idle
    | GetLoadHead
    | GetLoadNext(count: nat, node: Node)
    | GetCas(count: nat, node: Node, newTop: Option<Node>)
    | GetReturn(got: Option<Node>)
    | PutLoadHead(node: Node)
    | PutStoreNext(node: Node, count: nat, top: Option<Node>)
    | PutCas(node: Node, count: nat, top: Option<Node>)
    | PutReturn

  datatype State = State(
    count: nat, top: Option<Node>, next: seq<Option<Node>>, pcs: map<Tid, Pc>,
    chain: seq<Node>, place: seq<Place>)

  datatype Action = CallGet | CallRelease(node: Node) | Advance(spurious: bool)

  datatype Event = Event(t: Tid, act: Action)

  function PcOf(s: State, t: Tid): Pc {
    if t in s.pcs then s.pcs[t] else Idle
  }

  predicate CanCall(pc: Pc) {
    pc.Idle? || pc.GetReturn? || pc.PutReturn?
  }

  // s with element i replaced, if there is one.
  function Put<T>(s: seq<T>, i: nat, x: T): seq<T> {
    if i < |s| then s[i := x] else s
  }

  function Tail<T>(s: seq<T>): seq<T> {
    if s == [] then [] else s[1..]
  }

  function Init(capacity: nat): State
    requires 0 < capacity
  {
    State(0, Some(0), seq(capacity, i => if i + 1 < capacity then Some(i + 1) else None), map[],
          seq(capacity, i => i), seq(capacity, _ => Free))
  }

  function Goto(s: State, t: Tid, pc: Pc): State {
    s.(pcs := s.pcs[t := pc])
  }

  // FindFreeHead after (re)loading free_head_: give up on a null head, otherwise follow it.
  function Loaded(s: State): Pc {
    if s.top.None? then GetReturn(None) else GetLoadNext(s.count, s.top.value)
  }

  function Step(s: State, e: Event): State {
    var t, pc := e.t, PcOf(s, e.t);
    match e.act
    case CallGet => if CanCall(pc) then Goto(s, t, GetLoadHead) else s
    case CallRelease(node) =>
      if CanCall(pc) && node < |s.place| && s.place[node] == Held
      then Goto(s, t, PutLoadHead(node)).(place := s.place[node := Releasing(t)])
      else s
    case Advance(spurious) =>
      match pc
      case GetLoadHead => Goto(s, t, Loaded(s))
      case GetLoadNext(count, node) =>
        if node < |s.next| then Goto(s, t, GetCas(count, node, s.next[node])) else s
      case GetCas(count, node, newTop) =>
        if !spurious && s.count == count && s.top == Some(node)
        then Goto(s, t, GetReturn(Some(node))).(
               count := count + 1, top := newTop, chain := Tail(s.chain), place := Put(s.place, node, Held))
        else Goto(s, t, Loaded(s))
      case PutLoadHead(node) => Goto(s, t, PutStoreNext(node, s.count, s.top))
      case PutStoreNext(node, count, top) =>
        Goto(s, t, PutCas(node, count, top)).(next := Put(s.next, node, top))
      case PutCas(node, count, top) =>
        if !spurious && s.count == count && s.top == top
        then Goto(s, t, PutReturn).(
               count := count + 1, top := Some(node), chain := [node] + s.chain, place := Put(s.place, node, Free))
        else Goto(s, t, PutStoreNext(node, s.count, s.top))
      case _ => s
  }

  function Run(s: State, es: seq<Event>): State {
    if es == [] then s else Step(Run(s, es[..|es| - 1]), es[|es| - 1])
  }

  // ---------------------------------------------------------------- invariant

  predicate IsReleasing(pc: Pc) {
    pc.PutLoadHead? || pc.PutStoreNext? || pc.PutCas?
  }

  // The node after chain[i] is what its `next` field says.
  ghost predicate LinkOk(next: seq<Option<Node>>, chain: seq<Node>, i: nat)
    requires i < |chain|
  {
    chain[i] < |next| && next[chain[i]] == if i + 1 < |chain| then Some(chain[i + 1]) else None
  }

  // `next` links the free nodes in the order of `chain`, from `top` to null, without repetition.
  ghost predicate Linked(top: Option<Node>, next: seq<Option<Node>>, chain: seq<Node>) {
    && top == (if chain == [] then None else Some(chain[0]))
    && (forall i: nat :: i < |chain| ==> LinkOk(next, chain, i))
    && (forall i, j :: 0 <= i < j < |chain| ==> chain[i] != chain[j])
  }

  // Every node is in exactly one place: in the chain, with a caller, or in one thread's ReleaseObject.
  ghost predicate Partitioned(s: State)
    requires |s.place| == |s.next|
  {
    && (forall n: Node :: n < |s.place| ==> (s.place[n] == Free <==> n in s.chain))
    && (forall n: Node :: n < |s.place| && s.place[n].Releasing? ==>
          IsReleasing(PcOf(s, s.place[n].owner)) && PcOf(s, s.place[n].owner).node == n)
    && (forall t :: IsReleasing(PcOf(s, t)) ==>
          PcOf(s, t).node < |s.place| && s.place[PcOf(s, t).node] == Releasing(t))
  }

  // The counter argument: a copy of free_head_ with the current count is the current head, and a
  // successor read after it is still the successor.
  ghost predicate PcOk(s: State, pc: Pc) {
    match pc
    case GetLoadNext(count, node) => node < |s.next| && count <= s.count && (count == s.count ==> s.top == Some(node))
    case GetCas(count, node, newTop) =>
      node < |s.next| && count <= s.count && (count == s.count ==> s.top == Some(node) && newTop == s.next[node])
    case PutStoreNext(node, count, top) => count <= s.count && (count == s.count ==> s.top == top)
    case PutCas(node, count, top) =>
      node < |s.next| && s.next[node] == top && count <= s.count && (count == s.count ==> s.top == top)
    case _ => true
  }

  ghost predicate Inv(s: State) {
    |s.place| == |s.next| && Linked(s.top, s.next, s.chain) && Partitioned(s) && forall t :: PcOk(s, PcOf(s, t))
  }

  lemma InitInv(capacity: nat)
    requires 0 < capacity
    ensures Inv(Init(capacity))
  {
    var s := Init(capacity);
    forall n: Node | n < capacity ensures n in s.chain { assert s.chain[n] == n; }
  }

  lemma PcKnown(s: State, t: Tid)
    requires Inv(s)
    ensures |s.place| == |s.next| && PcOk(s, PcOf(s, t))
    ensures IsReleasing(PcOf(s, t)) ==> PcOf(s, t).node < |s.place| && s.place[PcOf(s, t).node] == Releasing(t)
  {
  }

  // A step that only moves t inside its call.
  lemma GotoInv(s: State, t: Tid, pc: Pc)
    requires Inv(s) && PcOk(s, pc)
    requires IsReleasing(pc) <==> IsReleasing(PcOf(s, t))
    requires IsReleasing(pc) ==> pc.node == PcOf(s, t).node
    ensures Inv(Goto(s, t, pc))
  {
    var r := Goto(s, t, pc);
    forall u ensures PcOf(r, u) == if u == t then pc else PcOf(s, u) {}
    forall u ensures PcOk(r, PcOf(r, u)) { assert PcOk(s, PcOf(s, u)); }
    forall n: Node | n < |r.place| && r.place[n].Releasing?
      ensures IsReleasing(PcOf(r, r.place[n].owner)) && PcOf(r, r.place[n].owner).node == n
    {
      assert IsReleasing(PcOf(s, s.place[n].owner));
    }
  }

  lemma CallReleaseInv(s: State, t: Tid, node: Node)
    requires Inv(s) && CanCall(PcOf(s, t)) && node < |s.place| && s.place[node] == Held
    ensures Inv(Step(s, Event(t, CallRelease(node))))
  {
    var r := Step(s, Event(t, CallRelease(node)));
    forall u ensures PcOf(r, u) == if u == t then PutLoadHead(node) else PcOf(s, u) {}
    forall u ensures PcOk(r, PcOf(r, u)) { assert PcOk(s, PcOf(s, u)); }
    forall n: Node | n < |r.place| && r.place[n].Releasing?
      ensures IsReleasing(PcOf(r, r.place[n].owner)) && PcOf(r, r.place[n].owner).node == n
    {
      if n != node { assert IsReleasing(PcOf(s, s.place[n].owner)); }
    }
  }

  // The pop: because the count matched, `newTop` is the current successor of the head.
  lemma PopInv(s: State, t: Tid)
    requires Inv(s) && PcOf(s, t).GetCas? && PcOf(s, t).count == s.count
    ensures s.chain != [] && s.top == Some(PcOf(s, t).node) && PcOf(s, t).newTop == s.next[s.chain[0]]
    ensures Inv(Step(s, Event(t, Advance(false))))
  {
    var r := Step(s, Event(t, Advance(false)));
    var GetCas(count, node, newTop) := PcOf(s, t);
    PcKnown(s, t);
    assert s.chain[0] == node;
    forall u ensures PcOf(r, u) == if u == t then GetReturn(Some(node)) else PcOf(s, u) {}
    forall u ensures PcOk(r, PcOf(r, u)) { assert PcOk(s, PcOf(s, u)); }
    assert s.chain == [node] + r.chain;
    forall i: nat | i < |r.chain| ensures LinkOk(r.next, r.chain, i) {
      assert LinkOk(s.next, s.chain, i + 1);
    }
    assert LinkOk(s.next, s.chain, 0);
    PopPartition(s, r, t, node);
  }

  lemma PopPartition(s: State, r: State, t: Tid, node: Node)
    requires Linked(s.top, s.next, s.chain) && |s.place| == |s.next| && Partitioned(s) && |r.next| == |s.next|
    requires s.chain == [node] + r.chain && node < |s.place| && r.place == s.place[node := Held]
    requires !IsReleasing(PcOf(s, t)) && forall u :: if u == t then !IsReleasing(PcOf(r, u))
             else PcOf(r, u) == PcOf(s, u)
    ensures Partitioned(r)
  {
    forall n: Node | n < |r.place| ensures r.place[n] == Free <==> n in r.chain {
      assert n in s.chain <==> n == node || n in r.chain;
      forall i | 0 <= i < |r.chain| ensures r.chain[i] != node {
        assert s.chain[0] == node && s.chain[i + 1] == r.chain[i];
      }
    }
    forall n: Node | n < |r.place| && r.place[n].Releasing?
      ensures IsReleasing(PcOf(r, r.place[n].owner)) && PcOf(r, r.place[n].owner).node == n
    {
      assert IsReleasing(PcOf(s, s.place[n].owner));
    }
  }

  lemma StoreNextInv(s: State, t: Tid, spurious: bool)
    requires Inv(s) && PcOf(s, t).PutStoreNext?
    ensures Inv(Step(s, Event(t, Advance(spurious))))
  {
    var r := Step(s, Event(t, Advance(spurious)));
    var PutStoreNext(node, count, top) := PcOf(s, t);
    PcKnown(s, t);
    forall i: nat | i < |s.chain| ensures LinkOk(r.next, s.chain, i) {
      assert LinkOk(s.next, s.chain, i) && s.chain[i] in s.chain;
    }
    forall u ensures PcOf(r, u) == if u == t then PutCas(node, count, top) else PcOf(s, u) {}
    forall u ensures PcOk(r, PcOf(r, u)) {
      assert PcOk(s, PcOf(s, u));
      PcKnown(s, u);
      if PcOf(s, u).GetCas? && PcOf(s, u).count == s.count { assert s.chain[0] == PcOf(s, u).node; }
    }
    forall n: Node | n < |r.place| && r.place[n].Releasing?
      ensures IsReleasing(PcOf(r, r.place[n].owner)) && PcOf(r, r.place[n].owner).node == n
    {
      assert IsReleasing(PcOf(s, s.place[n].owner));
    }
  }

  lemma PushInv(s: State, t: Tid)
    requires Inv(s) && PcOf(s, t).PutCas? && PcOf(s, t).count == s.count
    ensures s.top == PcOf(s, t).top
    ensures Inv(Step(s, Event(t, Advance(false))))
  {
    var r := Step(s, Event(t, Advance(false)));
    var PutCas(node, count, top) := PcOf(s, t);
    PcKnown(s, t);
    assert node !in s.chain;
    forall u ensures PcOf(r, u) == if u == t then PutReturn else PcOf(s, u) {}
    forall u ensures PcOk(r, PcOf(r, u)) { assert PcOk(s, PcOf(s, u)); }
    forall n: Node | n < |r.place| && r.place[n].Releasing?
      ensures IsReleasing(PcOf(r, r.place[n].owner)) && PcOf(r, r.place[n].owner).node == n
    {
      assert IsReleasing(PcOf(s, s.place[n].owner));
    }
    forall i: nat | i < |r.chain| ensures LinkOk(r.next, r.chain, i) {
      if i > 0 { assert LinkOk(s.next, s.chain, i - 1); }
    }
  }

  lemma LoadedOk(s: State)
    requires Inv(s)
    ensures PcOk(s, Loaded(s))
  {
    if s.chain != [] { assert LinkOk(s.next, s.chain, 0); }
  }

  lemma StepInv(s: State, e: Event)
    requires Inv(s)
    ensures Inv(Step(s, e))
  {
    hide Inv;
    var t, pc := e.t, PcOf(s, e.t);
    PcKnown(s, t);
    LoadedOk(s);
    match e.act
    case CallGet => if CanCall(pc) { GotoInv(s, t, GetLoadHead); }
    case CallRelease(node) =>
      if CanCall(pc) && node < |s.place| && s.place[node] == Held { CallReleaseInv(s, t, node); }
    case Advance(spurious) =>
      match pc
      case GetLoadHead => GotoInv(s, t, Loaded(s));
      case GetLoadNext(count, node) => GotoInv(s, t, GetCas(count, node, s.next[node]));
      case GetCas(count, node, _) =>
        if !spurious && count == s.count { PopInv(s, t); } else { GotoInv(s, t, Loaded(s)); }
      case PutLoadHead(node) => GotoInv(s, t, PutStoreNext(node, s.count, s.top));
      case PutStoreNext(_, _, _) => StoreNextInv(s, t, spurious);
      case PutCas(node, count, _) =>
        if !spurious && count == s.count { PushInv(s, t); } else { GotoInv(s, t, PutStoreNext(node, s.count, s.top)); }
      case _ =>
  }

  lemma {:induction false} RunInv(s: State, es: seq<Event>)
    requires Inv(s)
    ensures Inv(Run(s, es))
  {
    if es == [] {
    } else {
      RunInv(s, es[..|es| - 1]);
      StepInv(Run(s, es[..|es| - 1]), es[|es| - 1]);
    }
  }
}
