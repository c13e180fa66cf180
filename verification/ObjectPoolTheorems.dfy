/**
 What every run of the object pool guarantees: it is linearizable to a stack of free nodes,
 no node is ever in two hands, and the head's counter is what makes this true.
*/
module ObjectPoolTheorems {
  import opened Common
  import opened ObjectPoolSpec

  datatype Label =
    | Silent
    | Got(t: Tid, node: Node)
    | FoundNone(t: Tid)
    | GivenBack(t: Tid, node: Node)
    | Freed(t: Tid, node: Node)

  // What this step decides, read off the caller's program counter.
  function LabelOf(s: State, e: Event): Label {
    var before, after := PcOf(s, e.t), PcOf(Step(s, e), e.t);
    match after
    case GetReturn(got) =>
      if CanCall(before) then Silent else if got.Some? then Got(e.t, got.value) else FoundNone(e.t)
    case PutLoadHead(node) => if CanCall(before) then GivenBack(e.t, node) else Silent
    case PutReturn => if before.PutCas? then Freed(e.t, before.node) else Silent
    case _ => Silent
  }

  function Trace(s: State, es: seq<Event>): seq<Label> {
    if es == [] then []
    else Trace(s, es[..|es| - 1]) + [LabelOf(Run(s, es[..|es| - 1]), es[|es| - 1])]
  }

  // A sequential pool: a stack of free nodes and the nodes out with callers.
  datatype Pool = Pool(free: seq<Node>, held: set<Node>, between: set<Node>)

  ghost function Apply(p: Pool, l: Label): Option<Pool> {
    match l
    case Silent => Some(p)
    case Got(_, node) =>
      if p.free != [] && p.free[0] == node && node !in p.held && node !in p.between
      then Some(p.(free := p.free[1..], held := p.held + {node})) else None
    case FoundNone(_) => if p.free == [] then Some(p) else None
    case GivenBack(_, node) =>
      if node in p.held then Some(p.(held := p.held - {node}, between := p.between + {node})) else None
    case Freed(_, node) =>
      if node in p.between && node !in p.free
      then Some(p.(free := [node] + p.free, between := p.between - {node})) else None
  }

  ghost function Replay(p: Pool, ls: seq<Label>): Option<Pool> {
    if ls == [] then Some(p)
    else
      var q := Replay(p, ls[..|ls| - 1]);
      if q.None? then None else Apply(q.value, ls[|ls| - 1])
  }

  ghost function HeldNodes(s: State): set<Node> {
    set n: Node | n < |s.place| && s.place[n] == Held
  }

  ghost function BetweenNodes(s: State): set<Node> {
    set n: Node | n < |s.place| && s.place[n].Releasing?
  }

  ghost function View(s: State): Pool {
    Pool(s.chain, HeldNodes(s), BetweenNodes(s))
  }

  lemma PopRefines(s: State, t: Tid)
    requires Inv(s) && PcOf(s, t).GetCas? && PcOf(s, t).count == s.count
    ensures var e := Event(t, Advance(false)); Apply(View(s), LabelOf(s, e)) == Some(View(Step(s, e)))
  {
    hide Inv;
    PopInv(s, t);
    PcKnown(s, t);
    var r, node := Step(s, Event(t, Advance(false))), PcOf(s, t).node;
    HeadIsFree(s);
    assert HeldNodes(r) == HeldNodes(s) + {node};
    assert BetweenNodes(r) == BetweenNodes(s);
  }

  lemma HeadIsFree(s: State)
    requires Inv(s) && s.chain != []
    ensures s.top == Some(s.chain[0]) && s.chain[0] < |s.place| && s.place[s.chain[0]] == Free
  {
    assert LinkOk(s.next, s.chain, 0) && s.chain[0] in s.chain;
  }

  lemma PushRefines(s: State, t: Tid)
    requires Inv(s) && PcOf(s, t).PutCas? && PcOf(s, t).count == s.count
    ensures var e := Event(t, Advance(false)); Apply(View(s), LabelOf(s, e)) == Some(View(Step(s, e)))
  {
    PushInv(s, t);
    PcKnown(s, t);
    var r, node := Step(s, Event(t, Advance(false))), PcOf(s, t).node;
    assert node !in s.chain;
    assert HeldNodes(r) == HeldNodes(s);
    assert BetweenNodes(r) == BetweenNodes(s) - {node};
  }

  // null is the answer exactly when no node is free at the load of free_head_.
  lemma LoadedAnswers(s: State)
    requires Inv(s)
    ensures Loaded(s) == GetReturn(None) <==> s.chain == []
  {
  }

  // One step of any thread is one step of the sequential pool.
  lemma StepRefines(s: State, e: Event)
    requires Inv(s)
    ensures Inv(Step(s, e))
    ensures Apply(View(s), LabelOf(s, e)) == Some(View(Step(s, e)))
  {
    hide Inv, HeldNodes, BetweenNodes;
    StepInv(s, e);
    PcKnown(s, e.t);
    LoadedAnswers(s);
    var t, pc := e.t, PcOf(s, e.t);
    if e.act == Advance(false) && pc.GetCas? && pc.count == s.count {
      PopRefines(s, t);
    } else if e.act == Advance(false) && pc.PutCas? && pc.count == s.count {
      PushRefines(s, t);
    } else if e.act.CallRelease? {
      CallReleaseRefines(s, t, e.act.node);
    } else {
      assert Step(s, e).chain == s.chain && Step(s, e).place == s.place;
      SameSets(s, Step(s, e));
    }
  }

  lemma SameSets(s: State, r: State)
    requires r.place == s.place
    ensures HeldNodes(r) == HeldNodes(s) && BetweenNodes(r) == BetweenNodes(s)
  {
  }

  lemma CallReleaseRefines(s: State, t: Tid, node: Node)
    requires Inv(s)
    ensures var e := Event(t, CallRelease(node)); Apply(View(s), LabelOf(s, e)) == Some(View(Step(s, e)))
  {
    hide Inv;
    PcKnown(s, t);
    var r := Step(s, Event(t, CallRelease(node)));
    if CanCall(PcOf(s, t)) && node < |s.place| && s.place[node] == Held {
      assert HeldNodes(r) == HeldNodes(s) - {node};
      assert BetweenNodes(r) == BetweenNodes(s) + {node};
    }
  }

  // Main theorem: in every interleaving the answers are those of a sequential stack of free
  // nodes; GetObject never returns a node that a caller holds or is still giving back.
  lemma {:induction false} Linearizable(capacity: nat, es: seq<Event>)
    requires 0 < capacity
    ensures var s := Run(Init(capacity), es);
            Inv(s) && Replay(Pool(seq(capacity, i => i), {}, {}), Trace(Init(capacity), es)) == Some(View(s))
  {
    hide Inv, HeldNodes, BetweenNodes;
    var s0 := Init(capacity);
    if es == [] {
      InitInv(capacity);
      NothingOut(s0);
    } else {
      var prefix := es[..|es| - 1];
      Linearizable(capacity, prefix);
      StepRefines(Run(s0, prefix), es[|es| - 1]);
      var ls := Trace(s0, es);
      assert ls[..|ls| - 1] == Trace(s0, prefix);
    }
  }

  lemma NothingOut(s: State)
    requires forall n: Node :: n < |s.place| ==> s.place[n] == Free
    ensures HeldNodes(s) == {} && BetweenNodes(s) == {}
  {
  }

  // No node is lost: free, held and half-released nodes always add up to the arena.
  lemma NoNodeLost(capacity: nat, es: seq<Event>)
    requires 0 < capacity
    ensures var s := Run(Init(capacity), es);
            |s.chain| + |HeldNodes(s)| + |BetweenNodes(s)| == capacity
  {
    var s := Run(Init(capacity), es);
    InitInv(capacity);
    RunInv(Init(capacity), es);
    ArenaFixed(capacity, es);
    PlacesAddUp(s);
  }

  lemma ChainIsFree(s: State)
    requires Inv(s)
    ensures forall i, j :: 0 <= i < j < |s.chain| ==> s.chain[i] != s.chain[j]
    ensures forall n: Node :: n in s.chain <==> n < |s.place| && s.place[n] == Free
  {
    forall n | n in s.chain ensures n < |s.place| {
      var i: nat :| i < |s.chain| && s.chain[i] == n;
      assert LinkOk(s.next, s.chain, i);
    }
  }

  lemma PlacesAddUp(s: State)
    requires Inv(s)
    ensures |s.chain| + |HeldNodes(s)| + |BetweenNodes(s)| == |s.place|
  {
    hide Inv;
    ChainIsFree(s);
    var free := Elements(s.chain);
    var held, between, all := HeldNodes(s), BetweenNodes(s), Below(|s.place|);
    forall n: Node ensures n in all <==> n in free || n in held || n in between {}
    forall n: Node ensures !(n in free && n in held) && !(n in free && n in between) && !(n in held && n in between) {}
    ThreeParts(free, held, between, all);
  }

  lemma ThreeParts(a: set<Node>, b: set<Node>, c: set<Node>, all: set<Node>)
    requires forall n :: n in all <==> n in a || n in b || n in c
    requires forall n :: !(n in a && n in b) && !(n in a && n in c) && !(n in b && n in c)
    ensures |a| + |b| + |c| == |all|
  {
    assert a + b + c == all;
    assert a !! b && (a + b) !! c;
  }

  lemma {:induction false} ArenaFixed(capacity: nat, es: seq<Event>)
    requires 0 < capacity
    ensures |Run(Init(capacity), es).place| == capacity
  {
    if es == [] {
    } else {
      ArenaFixed(capacity, es[..|es| - 1]);
    }
  }

  // The counter grows by one at every successful CAS and never otherwise.
  lemma CountCountsSuccesses(s: State, e: Event)
    requires Inv(s)
    ensures Step(s, e).count == s.count + (if LabelOf(s, e).Got? || LabelOf(s, e).Freed? then 1 else 0)
  {
    hide Inv;
    PcKnown(s, e.t);
  }

  ghost predicate Reachable(capacity: nat, s: State)
    requires 0 < capacity
  {
    exists es :: Run(Init(capacity), es) == s
  }

  lemma Reach(capacity: nat, s: State, t: Tid, act: Action) returns (r: State)
    requires 0 < capacity && Reachable(capacity, s)
    ensures r == Step(s, Event(t, act)) && Reachable(capacity, r)
  {
    r := Step(s, Event(t, act));
    var es :| Run(Init(capacity), es) == s;
    assert (es + [Event(t, act)])[..|es|] == es;
    assert Run(Init(capacity), es + [Event(t, act)]) == r;
  }

  // The counter is needed: a thread can be about to CAS with the current head *pointer* and a
  // successor that is already held by a caller. Comparing pointers alone would free that node.
  lemma PointerAloneIsNotEnough() returns (s: State)
    ensures Reachable(2, s) && Inv(s) && |s.place| == |s.next| == 2
    ensures PcOf(s, 0) == GetCas(0, 0, Some(1))
    ensures s.top == Some(0) && s.count == 3 && s.place[1] == Held && s.next[0] == None
  {
    hide Reachable, Inv, Step;
    s := WaitWithSuccessor();
    s := TakeOne(2, s, 1);
    s := TakeOne(2, s, 2);
    s := GiveBack(2, s, 1, 0);
    ReachableInv(2, s);
    PcKnown(s, 0);
  }

  // Thread 0 has read the head (node 0) and its successor (node 1), and is about to CAS.
  lemma WaitWithSuccessor() returns (s: State)
    ensures Reachable(2, s)
    ensures s == State(0, Some(0), [Some(1), None], map[0 := GetCas(0, 0, Some(1))], [0, 1], [Free, Free])
  {
    hide Reachable;
    s := Init(2);
    assert Reachable(2, s) by { InitReachable(2); }
    assert s == State(0, Some(0), [Some(1), None], map[], [0, 1], [Free, Free]);
    s := Reach(2, s, 0, CallGet);
    s := Reach(2, s, 0, Advance(false));
    s := Reach(2, s, 0, Advance(false));
  }

  lemma InitReachable(capacity: nat)
    requires 0 < capacity
    ensures Reachable(capacity, Init(capacity))
  {
    assert Run(Init(capacity), []) == Init(capacity);
  }

  lemma ReachableInv(capacity: nat, s: State)
    requires 0 < capacity && Reachable(capacity, s)
    ensures Inv(s)
  {
    var es :| Run(Init(capacity), es) == s;
    InitInv(capacity);
    RunInv(Init(capacity), es);
  }

  // A whole undisturbed GetObject.
  lemma TakeOne(capacity: nat, s: State, t: Tid) returns (r: State)
    requires 0 < capacity && Reachable(capacity, s) && CanCall(PcOf(s, t)) && s.top.Some? && s.top.value < |s.next|
    ensures Reachable(capacity, r)
    ensures r == s.(count := s.count + 1, top := s.next[s.top.value], pcs := s.pcs[t := GetReturn(s.top)],
                    chain := Tail(s.chain), place := Put(s.place, s.top.value, Held))
  {
    hide Reachable;
    r := Reach(capacity, s, t, CallGet);
    r := Reach(capacity, r, t, Advance(false));
    r := Reach(capacity, r, t, Advance(false));
    r := Reach(capacity, r, t, Advance(false));
    assert r.pcs == s.pcs[t := GetReturn(s.top)];
  }

  // A whole undisturbed ReleaseObject.
  lemma GiveBack(capacity: nat, s: State, t: Tid, node: Node) returns (r: State)
    requires 0 < capacity && Reachable(capacity, s) && CanCall(PcOf(s, t))
    requires node < |s.place| && s.place[node] == Held
    ensures Reachable(capacity, r)
    ensures r == s.(count := s.count + 1, top := Some(node), next := Put(s.next, node, s.top),
            pcs := s.pcs[t := PutReturn],
                    chain := [node] + s.chain, place := Put(s.place, node, Free))
  {
    hide Reachable;
    r := Reach(capacity, s, t, CallRelease(node));
    r := Reach(capacity, r, t, Advance(false));
    r := Reach(capacity, r, t, Advance(false));
    r := Reach(capacity, r, t, Advance(false));
    assert r.pcs == s.pcs[t := PutReturn];
  }
}
