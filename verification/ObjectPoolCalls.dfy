/**
 What a caller of the object pool gets: every call takes effect exactly once, with its own node and
 the answer that it returns, and a call that runs undisturbed from any point ends in four steps.
*/
module ObjectPoolCalls {
  import opened Common
  import opened ObjectPoolSpec
  import opened ObjectPoolTheorems

  // ---------------------------------------------------------------- answers belong to calls

  datatype Call = NoCall | GetObject | ReleaseObject(node: Node)

  predicate StartsCall(s: State, e: Event, t: Tid) {
    e.t == t && CanCall(PcOf(s, t)) &&
    (e.act.CallGet? || (e.act.CallRelease? && e.act.node < |s.place| && s.place[e.act.node] == Held))
  }

  function CallOf(act: Action): Call {
    match act
    case CallGet => GetObject
    case CallRelease(node) => ReleaseObject(node)
    case Advance(_) => NoCall
  }

  // The last call that t has made.
  function LastCall(s0: State, es: seq<Event>, t: Tid): Call {
    if es == [] then NoCall else
    var p, e := es[..|es| - 1], es[|es| - 1];
    if StartsCall(Run(s0, p), e, t) then CallOf(e.act) else LastCall(s0, p, t)
  }

  function Add(ls: seq<Label>, l: Label): seq<Label> {
    if l == Silent then ls else ls + [l]
  }

  // What that call and t's steps since then have decided: its part of the trace that Linearizable replays.
  function Decided(s0: State, es: seq<Event>, t: Tid): seq<Label> {
    if es == [] then [] else
    var p, e := es[..|es| - 1], es[|es| - 1];
    if e.t != t then Decided(s0, p, t)
    else Add(if StartsCall(Run(s0, p), e, t) then [] else Decided(s0, p, t), LabelOf(Run(s0, p), e))
  }

  // Where a thread can be with a call and what its steps have decided.
  predicate Matches(pc: Pc, call: Call, ls: seq<Label>, t: Tid) {
    match pc
    case Idle => call == NoCall && ls == []
    case GetLoadHead => call == GetObject && ls == []
    case GetLoadNext(_, _) => call == GetObject && ls == []
    case GetCas(_, _, _) => call == GetObject && ls == []
    case GetReturn(got) => call == GetObject && ls == [if got.Some? then Got(t, got.value) else FoundNone(t)]
    case PutLoadHead(node) => call == ReleaseObject(node) && ls == [GivenBack(t, node)]
    case PutStoreNext(node, _, _) => call == ReleaseObject(node) && ls == [GivenBack(t, node)]
    case PutCas(node, _, _) => call == ReleaseObject(node) && ls == [GivenBack(t, node)]
    case PutReturn => call.ReleaseObject? && ls == [GivenBack(t, call.node), Freed(t, call.node)]
  }

  lemma OthersStand(s: State, e: Event, t: Tid)
    requires e.t != t
    ensures PcOf(Step(s, e), t) == PcOf(s, t)
  {
  }

  lemma StepMatches(s: State, e: Event, call: Call, ls: seq<Label>)
    requires Matches(PcOf(s, e.t), call, ls, e.t)
    ensures var started := StartsCall(s, e, e.t);
            Matches(PcOf(Step(s, e), e.t), if started then CallOf(e.act) else call,
                    Add(if started then [] else ls, LabelOf(s, e)), e.t)
  {
  }

  // Every call that has returned was decided by its own steps since it was made: GetObject took the
  // node that it returns, or found none, once; ReleaseObject gave back its node and freed it, once.
  lemma {:induction false} AnswersOfCalls(capacity: nat, es: seq<Event>, t: Tid)
    requires 0 < capacity
    ensures var s0 := Init(capacity);
            Matches(PcOf(Run(s0, es), t), LastCall(s0, es, t), Decided(s0, es, t), t)
  {
    hide Step, LabelOf;
    var s0 := Init(capacity);
    if es == [] {
    } else {
      hide Matches, Add, StartsCall;
      var p, e := es[..|es| - 1], es[|es| - 1];
      AnswersOfCalls(capacity, p, t);
      if e.t == t {
        StepMatches(Run(s0, p), e, LastCall(s0, p, t), Decided(s0, p, t));
      } else {
        OthersStand(Run(s0, p), e, t);
        OthersCallsStay(s0, es, t);
      }
    }
  }

  lemma OthersCallsStay(s0: State, es: seq<Event>, t: Tid)
    requires es != [] && es[|es| - 1].t != t
    ensures LastCall(s0, es, t) == LastCall(s0, es[..|es| - 1], t)
    ensures Decided(s0, es, t) == Decided(s0, es[..|es| - 1], t)
  {
  }

  // ---------------------------------------------------------------- undisturbed calls end

  function Alone(s: State, t: Tid, n: nat): State
    decreases n
  {
    if n == 0 then s else Alone(Step(s, Event(t, Advance(false))), t, n - 1)
  }

  function Distance(s: State, t: Tid): nat {
    match PcOf(s, t)
    case GetLoadHead => 3
    case GetLoadNext(count, _) => if count == s.count then 2 else 4
    case GetCas(count, _, _) => if count == s.count then 1 else 3
    case PutLoadHead(_) => 3
    case PutStoreNext(_, count, _) => if count == s.count then 2 else 4
    case PutCas(_, count, _) => if count == s.count then 1 else 3
    case _ => 0
  }

  lemma Closer(s: State, t: Tid)
    requires Inv(s) && !CanCall(PcOf(s, t))
    ensures var r := Step(s, Event(t, Advance(false)));
            && 0 < Distance(s, t)
            && (CanCall(PcOf(r, t)) || Distance(r, t) < Distance(s, t))
  {
    hide Inv;
    PcKnown(s, t);
  }

  // From any point of GetObject or ReleaseObject, however outdated the head that it has loaded, the
  // call returns after at most four steps of its own, if nobody interferes and no CAS fails spuriously.
  lemma {:induction false} EndsAlone(s: State, t: Tid) returns (n: nat)
    requires Inv(s) && !CanCall(PcOf(s, t))
    ensures 1 <= n <= Distance(s, t) <= 4 && CanCall(PcOf(Alone(s, t, n), t))
    decreases Distance(s, t)
  {
    hide Step, Inv;
    var r := Step(s, Event(t, Advance(false)));
    Closer(s, t);
    StepInv(s, Event(t, Advance(false)));
    if CanCall(PcOf(r, t)) {
      n := 1;
      assert Alone(r, t, 0) == r;
    } else {
      var m := EndsAlone(r, t);
      n := m + 1;
    }
  }
}
