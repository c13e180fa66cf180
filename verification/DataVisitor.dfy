/**
 One-channel delivery: cyber/data/data_visitor.h reading a ring with its own cursor while
 messages keep arriving.
*/
module Visitors {
  import opened Channels

  datatype Delivery<T> = Delivery(pos: nat, value: T)

  // `log` is every message filled; the ring shows the last `size`. `delivered` and `dropped`
  // (the sum of the reported intervals) are history.
  datatype State<T> = State(log: seq<T>, size: nat, next: nat, delivered: seq<Delivery<T>>, dropped: nat)

  datatype Event<T> = Fill(x: T) | TryFetch

  function Init<T>(size: nat): State<T> {
    State([], size, 0, [], 0)
  }

  function Answer<T>(s: State<T>): Fetched {
    FetchAnswer(|s.log|, s.size, s.next)
  }

  function Step<T>(s: State<T>, e: Event<T>): State<T> {
    match e
    case Fill(x) => s.(log := s.log + [x])
    case TryFetch =>
      match Answer(s)
      case Nothing => s
      case Found(pos, dropped) =>
        if 1 <= pos <= |s.log|
        then s.(next := pos + 1, delivered := s.delivered + [Delivery(pos, s.log[pos - 1])],
            dropped := s.dropped + dropped)
        else s
  }

  function Run<T>(s: State<T>, es: seq<Event<T>>): State<T> {
    if es == [] then s else Step(Run(s, es[..|es| - 1]), es[|es| - 1])
  }

  // ---------------------------------------------------------------- invariant

  ghost predicate Inv<T>(s: State<T>) {
    var d := s.delivered;
    && s.next <= |s.log| + 1
    && (s.next == 0 <==> d == [])
    && (d == [] ==> s.dropped == 0)
    && (forall i :: 0 <= i < |d| ==> 1 <= d[i].pos < s.next && d[i].value == s.log[d[i].pos - 1])
    && (forall i, j :: 0 <= i < j < |d| ==> d[i].pos < d[j].pos)
    && (d != [] ==> d[|d| - 1].pos == s.next - 1)
    && (d != [] ==> s.next - 1 == (d[0].pos - 1) + |d| + s.dropped)
  }

  lemma StepInv<T>(s: State<T>, e: Event<T>)
    requires Inv(s)
    ensures Inv(Step(s, e))
  {
    if e.TryFetch? {
      FetchInv(s);
    }
  }

  lemma FetchInv<T>(s: State<T>)
    requires Inv(s)
    ensures Inv(Step(s, TryFetch))
  {
    var r := Step(s, TryFetch);
    if Answer(s).Found? {
      assert s.delivered != [] ==> r.delivered[0] == s.delivered[0];
      assert forall i :: 0 <= i < |s.delivered| ==> r.delivered[i] == s.delivered[i];
    }
  }

  lemma {:induction false} RunInv<T>(s: State<T>, es: seq<Event<T>>)
    requires Inv(s)
    ensures Inv(Run(s, es))
  {
    if es == [] {
    } else {
      RunInv(s, es[..|es| - 1]);
      StepInv(Run(s, es[..|es| - 1]), es[|es| - 1]);
    }
  }

  lemma CursorInRange<T>(s: State<T>)
    requires Inv(s)
    ensures s.next <= |s.log| + 1
    ensures Answer(s).Found? ==> 1 <= Answer(s).pos <= |s.log| && s.next <= |s.log|
  {
  }

  // ---------------------------------------------------------------- theorems

  // Over any interleaving of fills and fetches: positions strictly increase, each value is the
  // one filled at its position, and the cursor accounts for every message as delivered or
  // reported as dropped since the first delivery.
  lemma DeliveryAccounts<T>(size: nat, es: seq<Event<T>>)
    ensures var s := Run(Init<T>(size), es); var d := s.delivered;
            && (forall i, j :: 0 <= i < j < |d| ==> d[i].pos < d[j].pos)
            && (forall i :: 0 <= i < |d| ==> 1 <= d[i].pos <= |s.log| && d[i].value == s.log[d[i].pos - 1])
            && (d != [] ==> s.next - 1 == (d[0].pos - 1) + |d| + s.dropped)
  {
    RunInv(Init<T>(size), es);
  }

  // A successful fetch continues without a gap exactly when the backlog fits the ring; otherwise
  // it jumps to the newest message and reports what it skipped.
  lemma GapExactlyOnOverflow<T>(s: State<T>)
    requires Inv(s) && s.next > 0 && Answer(s).Found?
    ensures var backlog := |s.log| - (s.next - 1);
            && backlog > 0
            && (backlog <= s.size ==> Answer(s) == Found(s.next, 0))
            && (backlog > s.size ==> Answer(s) == Found(|s.log|, backlog - 1))
  {
  }

  // TryFetch answers false exactly when everything filled so far was delivered or dropped.
  lemma NothingExactlyWhenCaughtUp<T>(s: State<T>)
    requires Inv(s)
    ensures Answer(s) == Nothing <==> s.log == [] || s.next == |s.log| + 1
  {
  }

  // The first fetch takes the newest message and reports nothing as dropped.
  lemma FirstFetchIsNewest<T>(s: State<T>)
    requires Inv(s) && s.next == 0 && s.log != []
    ensures var r := Step(s, TryFetch);
            r.delivered == [Delivery(|s.log|, s.log[|s.log| - 1])] && r.dropped == 0 && Answer(r) == Nothing
  {
    assert [] + [Delivery(|s.log|, s.log[|s.log| - 1])] == [Delivery(|s.log|, s.log[|s.log| - 1])];
  }

  function FetchTimes<T>(s: State<T>, n: nat): State<T>
    decreases n
  {
    if n == 0 then s else FetchTimes(Step(s, TryFetch), n - 1)
  }

  // How many fetches succeed before the first that does not, if nothing is filled meanwhile.
  function Ready<T>(s: State<T>): nat
    requires s.next <= |s.log| + 1
  {
    if s.log == [] || s.next == |s.log| + 1 then 0
    else if s.next == 0 || s.next < HeadOf(|s.log|, s.size) then 1
    else |s.log| + 1 - s.next
  }

  lemma OneFewerReady<T>(s: State<T>)
    requires Inv(s) && Ready(s) > 0
    ensures var r := Step(s, TryFetch);
            && r.next <= |r.log| + 1 && r.log == s.log && r.size == s.size
            && |r.delivered| == |s.delivered| + 1 && Ready(r) == Ready(s) - 1
  {
  }

  // With no fills, exactly Ready fetches succeed, each delivering one message, and the next one
  // does not; with a ring of at least one message that is at most `size` fetches.
  lemma {:induction false} Drains<T>(s: State<T>)
    requires Inv(s) && s.next <= |s.log| + 1
    ensures var r := FetchTimes(s, Ready(s));
            Inv(r) && Answer(r) == Nothing && r.log == s.log && |r.delivered| == |s.delivered| + Ready(s)
    ensures Ready(s) <= if s.size >= 1 then s.size else 1
    decreases Ready(s)
  {
    hide Inv, Step;
    if Ready(s) == 0 {
    } else {
      OneFewerReady(s);
      StepInv(s, TryFetch);
      Drains(Step(s, TryFetch));
    }
  }

  // ---------------------------------------------------------------- the visitor object

  class DataVisitor<T> {
    var next_msg_index_: nat
    const buffer_: ChannelBuffer<T>

    constructor (buffer: ChannelBuffer<T>)
      ensures next_msg_index_ == 0 && buffer_ == buffer
    {
      next_msg_index_, buffer_ := 0, buffer;
    }

    // The visitor's cursor and ring, with a given past, as a state of the model.
    ghost function View(delivered: seq<Delivery<T>>, dropped: nat): State<T>
      requires buffer_.buffer_.Valid()
      reads this, buffer_.buffer_, buffer_.buffer_.buffer_
    {
      State(buffer_.buffer_.log, buffer_.buffer_.capacity_ - 1, next_msg_index_, delivered, dropped)
    }

    // One TryFetch is one step of the model, whatever happened before; `m` keeps its value on failure.
    method TryFetch(m: T, ghost delivered: seq<Delivery<T>>, ghost dropped: nat) returns (ok: bool, m': T)
      requires buffer_.buffer_.Valid() && Inv(View(delivered, dropped))
      modifies this
      ensures ok == Answer(old(View(delivered, dropped))).Found?
      ensures var r := Step(old(View(delivered, dropped)), Event<T>.TryFetch);
              && Inv(r)
              && View(r.delivered, r.dropped) == r
              && (if ok then r.delivered[|r.delivered| - 1].value == m' else r.delivered == delivered && m' == m)
    {
      hide Inv;
      StepInv(View(delivered, dropped), Event<T>.TryFetch);
      CursorInRange(View(delivered, dropped));
      var index', reported;
      ok, index', m', reported := buffer_.Fetch(next_msg_index_, m);
      next_msg_index_ := index';
      if ok {
        next_msg_index_ := next_msg_index_ + 1;
      }
    }
  }
}
