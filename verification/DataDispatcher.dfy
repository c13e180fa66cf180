/**
 Fan-out of messages to rings (cyber/data/data_dispatcher.h) and of wake-ups to notifiers
 (cyber/data/data_notifier.h). Each call is one step; a ring is registered at most once.
*/
module DispatchSpec {
  type Chan = nat

  // The dispatcher: its table, what each registered ring was filled with, and which are gone.
  datatype State<!B, T> = State(channels: map<Chan, seq<B>>, logs: map<B, seq<T>>, expired: set<B>, shutdown: bool)

  // `had` is what the ring was filled with before it was registered.
  datatype Event<B, T> =
    | AddBuffer(chan: Chan, buf: B, had: seq<T>)
    | Dispatch(chan: Chan, msg: T)
    | Expire(buf: B)
    | Shutdown

  function Init<B(==), T>(): State<B, T> {
    State(map[], map[], {}, false)
  }

  predicate Receives<B(==), T>(s: State<B, T>, chan: Chan, b: B) {
    !s.shutdown && chan in s.channels && b in s.channels[chan] && b !in s.expired
  }

  function Step<B(==), T>(s: State<B, T>, e: Event<B, T>): State<B, T> {
    match e
    case AddBuffer(chan, buf, had) =>
      if buf in s.logs then s else
      s.(channels := s.channels[chan := (if chan in s.channels then s.channels[chan] else []) + [buf]],
         logs := s.logs[buf := had])
    case Dispatch(chan, msg) =>
      s.(logs := map b | b in s.logs :: if Receives(s, chan, b) then s.logs[b] + [msg] else s.logs[b])
    case Expire(buf) => s.(expired := s.expired + {buf})
    case Shutdown => s.(shutdown := true)
  }

  function Run<B(==), T>(s: State<B, T>, es: seq<Event<B, T>>): State<B, T> {
    if es == [] then s else Step(Run(s, es[..|es| - 1]), es[|es| - 1])
  }

  // The channel log: the messages dispatched on `chan` before shutdown.
  ghost function Sent<B, T>(es: seq<Event<B, T>>, chan: Chan): seq<T> {
    if es == [] then [] else
    var e := es[|es| - 1];
    Sent(es[..|es| - 1], chan) + if e.Dispatch? && e.chan == chan && Shutdown !in es[..|es| - 1] then [e.msg] else []
  }

  // Each ring is registered on one channel, and exactly the registered rings have a log.
  ghost predicate Inv<B(!new), T>(s: State<B, T>) {
    && (forall c, b :: c in s.channels && b in s.channels[c] ==> b in s.logs)
    && (forall c, d, b :: c in s.channels && d in s.channels && b in s.channels[c] && b in s.channels[d] ==> c == d)
  }

  lemma {:induction false} RunInv<B(!new), T>(es: seq<Event<B, T>>)
    ensures Inv(Run(Init<B, T>(), es))
    ensures Run(Init<B, T>(), es).shutdown <==> Shutdown in es
    ensures forall b :: b in Run(Init<B, T>(), es).expired <==> Expire(b) in es
  {
    if es == [] {
    } else {
      var p, e := es[..|es| - 1], es[|es| - 1];
      RunInv(p);
      assert es == p + [e];
      StepInv(Run(Init<B, T>(), p), e);
    }
  }

  lemma StepInv<B(!new), T>(s: State<B, T>, e: Event<B, T>)
    requires Inv(s)
    ensures Inv(Step(s, e))
  {
    var r := Step(s, e);
    if e.AddBuffer? && e.buf !in s.logs {
      forall c, b | c in r.channels && b in r.channels[c]
        ensures b == e.buf <==> c == e.chan && !(c in s.channels && b in s.channels[c])
      {
      }
    }
  }

  lemma NobodyReceives<B, T>(s: State<B, T>, chan: Chan, msg: T)
    requires s.shutdown || chan !in s.channels
    ensures Step(s, Dispatch(chan, msg)) == s
  {
  }

  // One more step adds to a registered live ring what it adds to its channel's log.
  lemma StepFills<B(!new), T>(s: State<B, T>, e: Event<B, T>, chan: Chan, b: B)
    requires Inv(s) && chan in s.channels && b in s.channels[chan] && b in s.logs && b !in s.expired
    ensures var r := Step(s, e);
            && chan in r.channels && b in r.channels[chan] && b in r.logs
            && r.logs[b] == s.logs[b] + if e.Dispatch? && e.chan == chan && !s.shutdown then [e.msg] else []
  {
    if e.Dispatch? && e.chan != chan {
      assert !Receives(s, e.chan, b);
    }
  }

  // A ring whose owner is gone, and after shutdown every ring, is never filled again.
  lemma {:induction false} StaysAsItWas<B(!new), T>(s: State<B, T>, es: seq<Event<B, T>>, b: B)
    requires b in s.logs && (s.shutdown || b in s.expired)
    ensures var r := Run(s, es); b in r.logs && r.logs[b] == s.logs[b] && (r.shutdown || b in r.expired)
  {
    if es == [] {
    } else {
      StaysAsItWas(s, es[..|es| - 1], b);
    }
  }

  lemma MoreAtTheEnd<T>(had: seq<T>, sent: seq<T>, n: nat, more: seq<T>)
    requires n <= |sent|
    ensures had + (sent + more)[n..] == had + sent[n..] + more
  {
    assert (sent + more)[n..] == sent[n..] + more;
  }

  // After its registration at step k, a live ring has received exactly the messages dispatched
  // on its channel since then, in order.
  lemma {:induction false} FanOut<B(!new), T>(es: seq<Event<B, T>>, k: nat, chan: Chan, b: B, had: seq<T>)
    requires k < |es| && es[k] == AddBuffer(chan, b, had)
    requires b !in Run(Init<B, T>(), es[..k]).logs
    requires Expire(b) !in es
    ensures var s := Run(Init<B, T>(), es);
            && chan in s.channels && b in s.channels[chan] && b in s.logs
            && Sent(es[..k], chan) <= Sent(es, chan)
            && s.logs[b] == had + Sent(es, chan)[|Sent(es[..k], chan)|..]
    decreases |es|
  {
    var p, e := es[..|es| - 1], es[|es| - 1];
    var s := Run(Init<B, T>(), p);
    RunInv<B, T>(p);
    if k == |es| - 1 {
      assert es[..k] == p;
    } else {
      assert p[k] == es[k] && p[..k] == es[..k];
      FanOut(p, k, chan, b, had);
      hide Inv, Step;
      StepFills(s, e, chan, b);
      var more := if e.Dispatch? && e.chan == chan && !s.shutdown then [e.msg] else [];
      MoreAtTheEnd(had, Sent(p, chan), |Sent(p[..k], chan)|, more);
    }
  }
}

module Dispatchers {
  import opened Channels
  import opened DispatchSpec

  // A registered wake-up; `callback` tells whether a callback was set.
  class Notifier {
    var callback: bool

    constructor ()
    {
      callback := false;
    }
  }

  // A callback that ran, and what its dispatcher looked like at that moment.
  datatype Invocation<S> = Invocation(notifier: Notifier, seen: S)

  class DataNotifier<S> {
    var notifies_map_: map<Chan, seq<Notifier>>
    ghost var invoked: seq<Invocation<S>>  // every callback ever invoked, in order

    constructor ()
      ensures notifies_map_ == map[] && invoked == []
    {
      notifies_map_, invoked := map[], [];
    }

    method AddNotifier(channel_id: Chan, notifier: Notifier)
      modifies this`notifies_map_
      ensures notifies_map_ == old(notifies_map_)[channel_id :=
                (if channel_id in old(notifies_map_) then old(notifies_map_)[channel_id] else []) + [notifier]]
    {
      if channel_id in notifies_map_ {
        notifies_map_ := notifies_map_[channel_id := notifies_map_[channel_id] + [notifier]];
      } else {
        assert [] + [notifier] == [notifier];
        notifies_map_ := notifies_map_[channel_id := [notifier]];
      }
    }

    // Invokes every callback that is set, once, in registration order.
    method Notify(channel_id: Chan, ghost seen: S) returns (ok: bool)
      modifies this`invoked
      ensures ok == (channel_id in notifies_map_)
      ensures old(invoked) <= invoked
      ensures ok ==> EachOnceInOrder(notifies_map_[channel_id], seen, invoked[|old(invoked)|..])
      ensures !ok ==> invoked == old(invoked)
    {
      if channel_id in notifies_map_ {
        var notifies := notifies_map_[channel_id];
        ghost var places: seq<nat> := [];
        for i := 0 to |notifies|
          invariant old(invoked) <= invoked
          invariant InvokedAt(places, notifies, i, seen, invoked[|old(invoked)|..])
        {
          ghost var before, was := places, invoked[|old(invoked)|..];
          if notifies[i].callback {
            invoked := invoked + [Invocation(notifies[i], seen)];
            places := places + [i];
            assert invoked[|old(invoked)|..] == was + [Invocation(notifies[i], seen)];
            assert forall k :: k in places <==> k in before || k == i;
          }
        }
        return true;
      }
      return false;
    }
  }

  // `done` are callbacks of the first n notifiers: those at `places`, one after the other, each in
  // the state `seen`, and no other one of them is set.
  ghost predicate InvokedAt<S>(places: seq<nat>, ns: seq<Notifier>, n: nat, seen: S, done: seq<Invocation<S>>)
    requires n <= |ns|
    reads ns
  {
    && |done| == |places|
    && (forall i :: 0 <= i < |places| ==> places[i] < n && done[i] == Invocation(ns[places[i]], seen))
    && (forall i, j :: 0 <= i < j < |places| ==> places[i] < places[j])
    && (forall k: nat :: k < n ==> (ns[k].callback <==> k in places))
  }

  ghost predicate EachOnceInOrder<S>(ns: seq<Notifier>, seen: S, done: seq<Invocation<S>>)
    reads ns
  {
    exists places: seq<nat> :: InvokedAt(places, ns, |ns|, seen, done)
  }

  // The rings of a table, and that each is registered once.
  ghost function InTable<B>(m: map<Chan, seq<B>>): set<B> {
    set c, i | c in m && 0 <= i < |m[c]| :: m[c][i]
  }

  ghost predicate RegisteredOnce<B>(m: map<Chan, seq<B>>) {
    forall c, i, d, j ::
      (c in m && d in m && 0 <= i < |m[c]| && 0 <= j < |m[d]| && m[c][i] == m[d][j]) ==> c == d && i == j
  }

  // The table after `b` was appended to channel `c`.
  function Append<B>(m: map<Chan, seq<B>>, c: Chan, b: B): map<Chan, seq<B>> {
    m[c := (if c in m then m[c] else []) + [b]]
  }

  lemma AppendRegisters<B>(m: map<Chan, seq<B>>, c: Chan, b: B)
    requires RegisteredOnce(m) && b !in InTable(m)
    ensures InTable(Append(m, c, b)) == InTable(m) + {b}
    ensures RegisteredOnce(Append(m, c, b))
  {
    var r := Append(m, c, b);
    forall x | x in InTable(m) + {b} ensures x in InTable(r) {
      if x in InTable(m) {
        var d, i :| d in m && 0 <= i < |m[d]| && m[d][i] == x;
        assert r[d][i] == x;
      } else {
        assert r[c][|r[c]| - 1] == x;
      }
    }
    forall d, i | d in r && 0 <= i < |r[d]| ensures r[d][i] in InTable(m) + {b} {
      if d in m && i < |m[d]| { assert r[d][i] == m[d][i]; }
    }
    assert forall d, i :: d in m && 0 <= i < |m[d]| ==> m[d][i] in InTable(m);
  }

  lemma ChannelIsDistinct<B>(m: map<Chan, seq<B>>, c: Chan)
    requires RegisteredOnce(m) && c in m
    ensures forall i, j :: 0 <= i < j < |m[c]| ==> m[c][i] != m[c][j]
    ensures forall b :: b in m[c] ==> b in InTable(m)
  {
  }

  class DataDispatcher<T> {
    var buffers_map_: map<Chan, seq<CacheBuffer<T>>>
    var expired: set<CacheBuffer<T>>  // rings whose owner is gone: their weak_ptr no longer locks
    const notifier_: DataNotifier<State<CacheBuffer<T>, T>>

    constructor (notifier: DataNotifier<State<CacheBuffer<T>, T>>)
      ensures Valid() && View(false) == Init() && notifier_ == notifier
    {
      buffers_map_, expired, notifier_ := map[], {}, notifier;
    }

    ghost function Buffers(): set<CacheBuffer<T>>
      reads this
    {
      InTable(buffers_map_)
    }

    ghost function Arrays(): set<array<T>>
      reads this
    {
      set b | b in Buffers() :: b.buffer_
    }

    ghost function View(shutdown: bool): State<CacheBuffer<T>, T>
      reads this, Buffers()
    {
      State(buffers_map_, map b | b in Buffers() :: b.log, expired, shutdown)
    }

    // Registered rings are well formed, registered once, and share no storage.
    ghost predicate Valid()
      reads this, Buffers(), Arrays()
    {
      && RegisteredOnce(buffers_map_)
      && (forall b :: b in Buffers() ==> b.Valid())
      && (forall a, b :: a in Buffers() && b in Buffers() && a != b ==> a.buffer_ != b.buffer_)
    }

    method AddBuffer(channel_id: Chan, buffer: CacheBuffer<T>)
      requires Valid() && buffer.Valid()
      requires buffer !in Buffers() && forall b :: b in Buffers() ==> b.buffer_ != buffer.buffer_
      modifies this`buffers_map_
      ensures Valid()
      ensures View(false) == Step(old(View(false)), DispatchSpec.AddBuffer(channel_id, buffer, buffer.log))
    {
      hide RegisteredOnce, InTable;
      AppendRegisters(buffers_map_, channel_id, buffer);
      if channel_id in buffers_map_ {
        buffers_map_ := buffers_map_[channel_id := buffers_map_[channel_id] + [buffer]];
      } else {
        assert [] + [buffer] == [buffer];
        buffers_map_ := buffers_map_[channel_id := [buffer]];
      }
    }

    // The loop of Dispatch: fills the rings that still lock.
    method FillAll(buffers: seq<CacheBuffer<T>>, msg: T)
      requires forall b :: b in buffers ==> b.Valid()
      requires forall i, j :: 0 <= i < j < |buffers| ==>
               buffers[i] != buffers[j] && buffers[i].buffer_ != buffers[j].buffer_
      modifies buffers, set b | b in buffers :: b.buffer_
      ensures forall b :: b in buffers ==> b.Valid()
      ensures forall b :: b in buffers ==> b.log == if b !in expired then old(b.log) + [msg] else old(b.log)
    {
      for k := 0 to |buffers|
        invariant forall i :: 0 <= i < |buffers| ==> buffers[i].Valid()
        invariant forall i :: 0 <= i < |buffers| ==>
                    buffers[i].log == if i < k && buffers[i] !in expired then old(buffers[i].log) + [msg]
                        else old(buffers[i].log)
      {
        if buffers[k] !in expired {
          buffers[k].Fill(msg);
        }
      }
    }

    // Fills every live ring of one channel; rings of other channels are left alone.
    method FillChannel(channel_id: Chan, msg: T)
      requires Valid() && channel_id in buffers_map_
      modifies Buffers(), Arrays()
      ensures Valid()
      ensures forall b :: b in Buffers() ==>
                b.log == if b in buffers_map_[channel_id] && b !in expired then old(b.log) + [msg] else old(b.log)
    {
      hide RegisteredOnce;
      var buffers := buffers_map_[channel_id];
      ChannelIsDistinct(buffers_map_, channel_id);
      forall b | b in buffers ensures b in Buffers() && b.buffer_ in Arrays() {}
      FillAll(buffers, msg);
      forall b | b in Buffers() && b !in buffers ensures b.Valid() && b.log == old(b.log) {}
    }

    // The fills of a Dispatch.
    method FillRings(channel_id: Chan, msg: T)
      requires Valid() && channel_id in buffers_map_
      modifies Buffers(), Arrays()
      ensures Valid()
      ensures View(false) == Step(old(View(false)), DispatchSpec.Dispatch(channel_id, msg))
    {
      hide RegisteredOnce, InTable;
      FillChannel(channel_id, msg);
    }

    // Fills the channel's live rings, then notifies: every callback runs when all are filled.
    method Dispatch(channel_id: Chan, msg: T, shutdown: bool) returns (ok: bool)
      requires Valid()
      modifies Buffers(), Arrays(), notifier_`invoked
      ensures Valid()
      ensures View(shutdown) == Step(old(View(shutdown)), DispatchSpec.Dispatch(channel_id, msg))
      ensures ok == (!shutdown && channel_id in buffers_map_ && channel_id in notifier_.notifies_map_)
      ensures old(notifier_.invoked) <= notifier_.invoked
      ensures ok ==> EachOnceInOrder(notifier_.notifies_map_[channel_id], View(false),
                                     notifier_.invoked[|old(notifier_.invoked)|..])
      ensures !ok ==> notifier_.invoked == old(notifier_.invoked)
    {
      hide RegisteredOnce, EachOnceInOrder;
      if shutdown || channel_id !in buffers_map_ {
        NobodyReceives(View(shutdown), channel_id, msg);
        return false;
      }
      FillRings(channel_id, msg);
      ok := notifier_.Notify(channel_id, View(false));
    }
  }
}
