/**
 The path of a message from Dispatch to TryFetch: one visitor reads a ring that the dispatcher
 fills, while rings are registered and messages are dispatched on any channel.
*/
module MessagePath {
  import DispatchSpec
  import Visitors

  datatype Event<B, T> = Path(event: DispatchSpec.Event<B, T>) | TryFetch

  // The dispatcher, and the visitor of ring `b` as of its registration.
  datatype State<!B, T> = State(disp: DispatchSpec.State<B, T>, next: nat, delivered: seq<Visitors.Delivery<T>>,
      dropped: nat)

  function Init<B(==), T>(): State<B, T> {
    State(DispatchSpec.Init(), 0, [], 0)
  }

  // The visitor of ring b, which has nothing to read before b is registered.
  function VisitorOf<B, T>(s: State<B, T>, b: B, size: nat): Visitors.State<T> {
    Visitors.State(if b in s.disp.logs then s.disp.logs[b] else [], size, s.next, s.delivered, s.dropped)
  }

  function Step<B(==), T>(s: State<B, T>, e: Event<B, T>, b: B, size: nat): State<B, T> {
    match e
    case Path(event) => s.(disp := DispatchSpec.Step(s.disp, event))
    case TryFetch =>
      var v := Visitors.Step(VisitorOf(s, b, size), Visitors.TryFetch);
      s.(next := v.next, delivered := v.delivered, dropped := v.dropped)
  }

  function Run<B(==), T>(es: seq<Event<B, T>>, b: B, size: nat): State<B, T> {
    if es == [] then Init() else Step(Run(es[..|es| - 1], b, size), es[|es| - 1], b, size)
  }

  // What the dispatcher did in a run.
  function Paths<B, T>(es: seq<Event<B, T>>): seq<DispatchSpec.Event<B, T>> {
    if es == [] then [] else
    Paths(es[..|es| - 1]) + if es[|es| - 1].Path? then [es[|es| - 1].event] else []
  }

  lemma {:induction false} PathsDriveTheDispatcher<B, T>(es: seq<Event<B, T>>, b: B, size: nat)
    ensures Run(es, b, size).disp == DispatchSpec.Run(DispatchSpec.Init(), Paths(es))
  {
    if es == [] {
    } else {
      var p, e := es[..|es| - 1], es[|es| - 1];
      PathsDriveTheDispatcher(p, b, size);
      if e.Path? {
        assert Paths(es) == Paths(p) + [e.event];
        assert Paths(es)[..|Paths(es)| - 1] == Paths(p);
      } else {
        assert Paths(es) == Paths(p);
      }
    }
  }

  // Whatever the dispatcher does, a ring only ever grows at its end once it has a log.
  lemma VisitorKeepsUp<B(!new), T>(s: State<B, T>, e: Event<B, T>, b: B, size: nat)
    requires b in s.disp.logs && Visitors.Inv(VisitorOf(s, b, size))
    ensures b in Step(s, e, b, size).disp.logs && Visitors.Inv(VisitorOf(Step(s, e, b, size), b, size))
  {
    var v := VisitorOf(s, b, size);
    if e.Path? && e.event.Dispatch? && DispatchSpec.Receives(s.disp, e.event.chan, b) {
      Visitors.StepInv(v, Visitors.Fill(e.event.msg));
      assert VisitorOf(Step(s, e, b, size), b, size) == Visitors.Step(v, Visitors.Fill(e.event.msg));
    } else if e.TryFetch? {
      Visitors.StepInv(v, Visitors.TryFetch);
      assert VisitorOf(Step(s, e, b, size), b, size) == Visitors.Step(v, Visitors.TryFetch);
    }
  }

  // A ring enters the table empty, as a new visitor's ring is.
  ghost predicate StartsEmpty<B, T>(es: seq<DispatchSpec.Event<B, T>>, b: B) {
    forall i :: 0 <= i < |es| && es[i].AddBuffer? && es[i].buf == b ==> es[i].had == []
  }

  lemma {:induction false} VisitorInv<B(!new), T>(es: seq<Event<B, T>>, b: B, size: nat)
    requires StartsEmpty(Paths(es), b)
    ensures Visitors.Inv(VisitorOf(Run(es, b, size), b, size))
    ensures b !in Run(es, b, size).disp.logs ==> Run(es, b, size).delivered == []
  {
    hide Visitors.Inv;
    if es == [] {
      Visitors.RunInv(Visitors.Init<T>(size), []);
    } else {
      var p, e := es[..|es| - 1], es[|es| - 1];
      assert forall i :: 0 <= i < |Paths(p)| ==> Paths(es)[i] == Paths(p)[i];
      VisitorInv(p, b, size);
      var s := Run(p, b, size);
      if b in s.disp.logs {
        VisitorKeepsUp(s, e, b, size);
      } else {
        if e.Path? { assert Paths(es)[|Paths(p)|] == e.event; }
        assert VisitorOf(Run(es, b, size), b, size) == VisitorOf(s, b, size);
      }
    }
  }

  // A visitor only delivers a subsequence of its channel's log: what it delivers at position p is
  // the p-th message dispatched on the channel since its ring was registered, positions increase
  // strictly, and the cursor accounts for the rest as dropped.
  lemma DeliversTheChannelInOrder<B(!new), T>(es: seq<Event<B, T>>, k: nat, chan: DispatchSpec.Chan, b: B, size: nat)
    requires k < |Paths(es)| && Paths(es)[k] == DispatchSpec.AddBuffer(chan, b, [])
    requires b !in DispatchSpec.Run(DispatchSpec.Init<B, T>(), Paths(es)[..k]).logs
    requires DispatchSpec.Expire(b) !in Paths(es) && StartsEmpty(Paths(es), b)
    ensures var before := |DispatchSpec.Sent(Paths(es)[..k], chan)|;
            before <= |DispatchSpec.Sent(Paths(es), chan)|
    ensures var s := Run(es, b, size); var d := s.delivered;
            var since := DispatchSpec.Sent(Paths(es), chan)[|DispatchSpec.Sent(Paths(es)[..k], chan)|..];
            && (forall i, j :: 0 <= i < j < |d| ==> d[i].pos < d[j].pos)
            && (forall i :: 0 <= i < |d| ==> 1 <= d[i].pos <= |since| && d[i].value == since[d[i].pos - 1])
            && (d != [] ==> s.next - 1 == (d[0].pos - 1) + |d| + s.dropped)
  {
    hide Run, Paths, DispatchSpec.Sent, DispatchSpec.Run, DispatchSpec.Step, Visitors.Inv, StartsEmpty;
    PathsDriveTheDispatcher(es, b, size);
    DispatchSpec.FanOut(Paths(es), k, chan, b, []);
    VisitorInv(es, b, size);
    InvMeans(VisitorOf(Run(es, b, size), b, size));
    var since := DispatchSpec.Sent(Paths(es), chan)[|DispatchSpec.Sent(Paths(es)[..k], chan)|..];
    assert [] + since == since;
  }

  lemma InvMeans<T>(v: Visitors.State<T>)
    requires Visitors.Inv(v)
    ensures var d := v.delivered;
            && (forall i, j :: 0 <= i < j < |d| ==> d[i].pos < d[j].pos)
            && (forall i :: 0 <= i < |d| ==> 1 <= d[i].pos <= |v.log| && d[i].value == v.log[d[i].pos - 1])
            && (d != [] ==> v.next - 1 == (d[0].pos - 1) + |d| + v.dropped)
  {
  }
}
