/**
 What the routine of the wake-up protocol reads: over any run its fetches are those of a visitor
 whose ring is filled by the dispatching threads, so no message is delivered twice.
*/
module WakeUpReads {
  import opened Common
  import opened WakeUpSpec
  import opened WakeUpTheorems
  import Visitors

  // What a run of the protocol does to the ring; a message is its number.
  function Accesses(s0: State, es: seq<Event>): seq<Visitors.Event<nat>> {
    if es == [] then [] else
    var p, e := es[..|es| - 1], es[|es| - 1];
    Accesses(s0, p) + AccessOf(Run(s0, p), e)
  }

  function AccessOf(s: State, e: Event): seq<Visitors.Event<nat>> {
    match e
    case Dispatcher(d, _) => if DispOf(s, d).Away? then [Visitors.Fill(s.tail)] else []
    case Processor(p) => if ProcOf(s, p).RunTryFetch? then [Visitors.TryFetch] else []
  }

  ghost predicate Agree(s: State, v: Visitors.State<nat>) {
    && v.size == s.size && |v.log| == s.tail && v.next == s.next && |v.delivered| == s.fetched
    && (forall i :: 0 <= i < |v.log| ==> v.log[i] == i)
  }

  lemma StepAgrees(s: State, e: Event, v: Visitors.State<nat>)
    requires Agree(s, v) && Visitors.Inv(v)
    ensures Agree(Step(s, e), Visitors.Run(v, AccessOf(s, e)))
  {
    hide Visitors.Inv;
    Visitors.CursorInRange(v);
    var as' := AccessOf(s, e);
    if as' != [] { assert as'[..0] == []; }
  }

  lemma {:induction false} RunConcat<T>(v: Visitors.State<T>, es: seq<Visitors.Event<T>>, more: seq<Visitors.Event<T>>)
    ensures Visitors.Run(v, es + more) == Visitors.Run(Visitors.Run(v, es), more)
  {
    hide Visitors.Step;
    if more == [] {
      assert es + more == es;
    } else {
      RunConcat(v, es, more[..|more| - 1]);
      assert (es + more)[..|es + more| - 1] == es + more[..|more| - 1];
    }
  }

  lemma {:induction false} RoutineIsAVisitor(size: nat, es: seq<Event>)
    ensures var v := Visitors.Run(Visitors.Init<nat>(size), Accesses(Init(size), es));
            Agree(Run(Init(size), es), v) && Visitors.Inv(v)
  {
    hide Step, Agree, Visitors.Step, Visitors.Inv;
    var v0 := Visitors.Init<nat>(size);
    if es == [] {
      NothingRead(size);
    } else {
      var p, e := es[..|es| - 1], es[|es| - 1];
      RoutineIsAVisitor(size, p);
      StepAgrees(Run(Init(size), p), e, Visitors.Run(v0, Accesses(Init(size), p)));
      RunConcat(v0, Accesses(Init(size), p), AccessOf(Run(Init(size), p), e));
      Visitors.RunInv(v0, Accesses(Init(size), []));
      Visitors.RunInv(Visitors.Run(v0, Accesses(Init(size), p)), AccessOf(Run(Init(size), p), e));
    }
  }

  lemma NothingRead(size: nat)
    ensures Agree(Init(size), Visitors.Init<nat>(size)) && Visitors.Inv(Visitors.Init<nat>(size))
  {
  }

  // How often the routine's callback has run.
  function Callbacks(s0: State, es: seq<Event>): nat {
    if es == [] then 0 else
    var p, e := es[..|es| - 1], es[|es| - 1];
    Callbacks(s0, p) + One(e.Processor? && ProcOf(Run(s0, p), e.p).RunCallback?)
  }

  lemma StepCallsBack(s: State, e: Event)
    requires Inv(s)
    ensures var r := Step(s, e);
            r.fetched + One(OwnerPc(s).RunCallback?) ==
            s.fetched + One(e.Processor? && ProcOf(s, e.p).RunCallback?) + One(OwnerPc(r).RunCallback?)
  {
    hide LockInv, Dispatching;
    if e.Processor? {
      ProcessorLock(s, e.p);
      OwnerIs(s, e.p);
    } else {
      assert OwnerPc(Step(s, e)) == OwnerPc(s);
    }
  }

  lemma ReachableInv(size: nat, es: seq<Event>)
    ensures Inv(Run(Init(size), es))
  {
    RunInv(Init(size), es);
  }

  // Over any run the callback has run once for each fetch, except for a fetch that it has yet to follow.
  lemma {:induction false} CallsBackForEachFetch(size: nat, es: seq<Event>)
    ensures var s := Run(Init(size), es);
            Inv(s) && s.fetched == Callbacks(Init(size), es) + One(OwnerPc(s).RunCallback?)
  {
    hide Step, Inv;
    ReachableInv(size, es);
    if es == [] {
    } else {
      var p := es[..|es| - 1];
      CallsBackForEachFetch(size, p);
      StepCallsBack(Run(Init(size), p), es[|es| - 1]);
    }
  }

  // Over any run the routine has fetched as many different messages as fetches succeeded, in
  // increasing order, each one that a dispatching thread had filled by then.
  lemma FetchesEachOnce(size: nat, es: seq<Event>) returns (read: seq<nat>)
    ensures var s := Run(Init(size), es);
            && |read| == s.fetched <= s.tail
            && (forall i, j :: 0 <= i < j < |read| ==> read[i] < read[j])
            && (forall i :: 0 <= i < |read| ==> read[i] < s.tail)
            && (read != [] ==> read[|read| - 1] == s.next - 2)
  {
    hide Run, Accesses, Visitors.Run;
    RoutineIsAVisitor(size, es);
    var v := Visitors.Run(Visitors.Init<nat>(size), Accesses(Init(size), es));
    read := seq(|v.delivered|, i requires 0 <= i < |v.delivered| => v.delivered[i].value);
    AtMost(read, |v.log|);
  }

  lemma {:induction false} AtMost(xs: seq<nat>, n: nat)
    requires forall i, j :: 0 <= i < j < |xs| ==> xs[i] < xs[j]
    requires forall i :: 0 <= i < |xs| ==> xs[i] < n
    ensures |xs| <= n
  {
    if xs == [] {
    } else {
      AtMost(xs[..|xs| - 1], xs[|xs| - 1]);
    }
  }
}
