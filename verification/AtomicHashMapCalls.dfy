/**
 What a caller of the hash table gets: every call takes effect exactly once, with its own key and
 value and the answer that it returns, and a call that runs undisturbed from any point ends.
*/
module AtomicHashMapCalls {
  import opened Common
  import opened AtomicHashMapSpec
  import opened AtomicHashMapTheorems

  // ---------------------------------------------------------------- answers belong to calls

  datatype Call<V> = NoCall | CalledHas(key: Key) | CalledGet(key: Key) | CalledSet(key: Key, x: V)

  predicate StartsCall<V>(s: State<V>, e: Event<V>, t: Tid) {
    e.t == t && !e.act.Advance? && CanCall(PcOf(s, t))
  }

  function CallOf<V>(act: Action<V>): Call<V> {
    match act
    case CallHas(key) => CalledHas(key)
    case CallGet(key) => CalledGet(key)
    case CallSet(key, x) => CalledSet(key, x)
    case Advance => NoCall
  }

  // The last call that t has made.
  function LastCall<V>(s0: State<V>, es: seq<Event<V>>, t: Tid): Call<V>
    requires 0 < s0.tableSize
  {
    if es == [] then NoCall else
    var p, e := es[..|es| - 1], es[|es| - 1];
    if StartsCall(Run(s0, p), e, t) then CallOf(e.act) else LastCall(s0, p, t)
  }

  // What t's steps since that call have decided: its part of the trace that Linearizable replays.
  function Decided<V>(s0: State<V>, es: seq<Event<V>>, t: Tid): seq<Label<V>>
    requires 0 < s0.tableSize
  {
    if es == [] then [] else
    var p, e := es[..|es| - 1], es[|es| - 1];
    if StartsCall(Run(s0, p), e, t) then []
    else if e.t == t && LabelOf(Run(s0, p), e) != Silent then Decided(s0, p, t) + [LabelOf(Run(s0, p), e)]
    else Decided(s0, p, t)
  }

  predicate Does<V(==)>(op: Op<V>, call: Call<V>) {
    match op
    case Has(key) => call == CalledHas(key)
    case Get(key) => call == CalledGet(key)
    case Insert(key, x, _, _) => call == CalledSet(key, x)
  }

  // Where a thread can be with a call and what its steps have decided.
  predicate Matches<V(==)>(s: State<V>, call: Call<V>, ls: seq<Label<V>>, t: Tid) {
    match PcOf(s, t)
    case Idle => call == NoCall && ls == []
    case Walk(op, _) => Does(op, call) && ls == []
    case GetLoadValue(key, _) => call == CalledGet(key) && ls == []
    case GetDeref(key, cell) => call == CalledGet(key) && cell in s.cells && ls == [Hit(t, key, s.cells[cell])]
    case SetLoadValue(op, _) => op.Insert? && Does(op, call) && ls == []
    case SetCasValue(op, _, _) => op.Insert? && Does(op, call) && ls == []
    case SetStoreNext(op, _, _) => op.Insert? && Does(op, call) && ls == []
    case SetCasNext(op, _, _) => op.Insert? && Does(op, call) && ls == []
    case HasReturn(found) => call.CalledHas? && ls == [HasAnswer(t, call.key, found)]
    case GetReturn(got) =>
      call.CalledGet? && ls == [if got.Some? then Hit(t, call.key, got.value) else Miss(t, call.key)]
    case SetReturn => call.CalledSet? && ls == [Put(t, call.key, call.x)]
  }

  lemma PcStands<V>(s: State<V>, e: Event<V>, t: Tid)
    requires 0 < s.tableSize && e.t != t
    ensures PcOf(Step(s, e), t) == PcOf(s, t)
  {
    hide Bucket, Decide, At;
  }

  lemma OthersStand<V(!new)>(s: State<V>, e: Event<V>, call: Call<V>, ls: seq<Label<V>>, t: Tid)
    requires Inv(s) && e.t != t && Matches(s, call, ls, t)
    ensures Matches(Step(s, e), call, ls, t)
  {
    hide Inv, Step;
    PcKnown(s, e.t);
    PcStands(s, e, t);
    CellsAreWrittenOnce(s, e);
  }

  lemma WalkMatches<V(!new)>(s: State<V>, call: Call<V>, ls: seq<Label<V>>, t: Tid)
    requires 0 < s.tableSize && Matches(s, call, ls, t) && PcOf(s, t).Walk?
    ensures var e := Event(t, Advance); var l := LabelOf(s, e);
            Matches(Step(s, e), call, if l == Silent then [] else [l], t) && ls == []
  {
    hide Bucket;
  }

  lemma GetMatches<V(!new)>(s: State<V>, call: Call<V>, ls: seq<Label<V>>, t: Tid)
    requires Inv(s) && Matches(s, call, ls, t) && (PcOf(s, t).GetLoadValue? || PcOf(s, t).GetDeref?)
    ensures var e := Event(t, Advance); var l := LabelOf(s, e);
            Matches(Step(s, e), call, if l == Silent then ls else [l], t) && (l == Silent || ls == [])
  {
    hide Bucket, Decide, Inv;
    PcKnown(s, t);
    if PcOf(s, t).GetLoadValue? { ValueKnown(s, PcOf(s, t).target); }
  }

  lemma SetMatches<V(!new)>(s: State<V>, call: Call<V>, ls: seq<Label<V>>, t: Tid)
    requires 0 < s.tableSize && Matches(s, call, ls, t)
    requires var pc := PcOf(s, t); !pc.Walk? && !pc.GetLoadValue? && !pc.GetDeref?
    ensures var e := Event(t, Advance); var l := LabelOf(s, e);
            Matches(Step(s, e), call, if l == Silent then ls else [l], t) && (l == Silent || ls == [])
  {
    hide Bucket, Decide;
  }

  lemma CallMatches<V(!new)>(s: State<V>, e: Event<V>, call: Call<V>, ls: seq<Label<V>>)
    requires Inv(s) && Matches(s, call, ls, e.t) && !e.act.Advance?
    ensures LabelOf(s, e) == Silent
    ensures if CanCall(PcOf(s, e.t)) then Matches(Step(s, e), CallOf(e.act), [], e.t)
            else Matches(Step(s, e), call, ls, e.t)
  {
    hide Bucket, Decide, Inv;
  }

  lemma StepMatches<V(!new)>(s: State<V>, e: Event<V>, call: Call<V>, ls: seq<Label<V>>)
    requires 0 < s.tableSize && Inv(s) && Matches(s, call, ls, e.t)
    ensures var started := StartsCall(s, e, e.t);
            var l := LabelOf(s, e);
            Matches(Step(s, e), if started then CallOf(e.act) else call,
                    if started then [] else if l != Silent then ls + [l] else ls, e.t)
  {
    hide Step, Inv, LabelOf, Matches;
    var l := LabelOf(s, e);
    assert [] + [l] == [l];
    if !e.act.Advance? {
      CallMatches(s, e, call, ls);
    } else if PcOf(s, e.t).Walk? {
      WalkMatches(s, call, ls, e.t);
    } else if PcOf(s, e.t).GetLoadValue? || PcOf(s, e.t).GetDeref? {
      GetMatches(s, call, ls, e.t);
    } else {
      SetMatches(s, call, ls, e.t);
    }
  }

  lemma NothingCalled<V(!new)>(tableSize: nat, t: Tid)
    requires 0 < tableSize
    ensures Matches(Init<V>(tableSize), NoCall, [], t)
  {
  }

  // Every call that has returned was decided by exactly one step of its own since it was made: Get
  // gives the value that this step found for the key of the call, or nothing if it found none, Has
  // gives what it found, and Set has put its value. A call that has not returned has put nothing.
  lemma {:induction false} AnswersOfCalls<V(!new)>(tableSize: nat, es: seq<Event<V>>, t: Tid)
    requires 0 < tableSize
    ensures var s0 := Init<V>(tableSize);
            Inv(Run(s0, es)) && Matches(Run(s0, es), LastCall(s0, es, t), Decided(s0, es, t), t)
  {
    hide Step, LabelOf, Matches, Inv;
    var s0 := Init<V>(tableSize);
    InitInv<V>(tableSize);
    if es == [] {
      NothingCalled<V>(tableSize, t);
    } else {
      var p, e := es[..|es| - 1], es[|es| - 1];
      AnswersOfCalls(tableSize, p, t);
      StepInv(Run(s0, p), e);
      if e.t == t {
        StepMatches(Run(s0, p), e, LastCall(s0, p, t), Decided(s0, p, t));
      } else {
        OthersStand(Run(s0, p), e, LastCall(s0, p, t), Decided(s0, p, t), t);
      }
    }
  }

  // ---------------------------------------------------------------- undisturbed calls end

  function Alone<V>(s: State<V>, t: Tid, n: nat): (r: State<V>)
    requires 0 < s.tableSize
    ensures r.tableSize == s.tableSize
    decreases n
  {
    if n == 0 then s else Alone(Step(s, Event(t, Advance)), t, n - 1)
  }

  predicate InCall<V>(pc: Pc<V>) {
    !CanCall(pc)
  }

  // How many entries a traversal from the head of the key's bucket can meet.
  ghost function FromHead<V>(s: State<V>, key: Key): nat
    requires 0 < s.tableSize
  {
    |KeysBehind(s, Bucket(key, s.tableSize))|
  }

  ghost function Distance<V>(s: State<V>, t: Tid): nat
    requires 0 < s.tableSize
  {
    match PcOf(s, t)
    case Walk(_, prev) => 3 + |KeysBehind(s, prev)|
    case GetLoadValue(_, _) => 2
    case GetDeref(_, _) => 1
    case SetLoadValue(_, _) => 2
    case SetCasValue(op, target, oldCell) => if At(s, target).value == oldCell then 1 else 4 + FromHead(s, op.key)
    case SetStoreNext(op, prev, succ) => if At(s, prev).next == succ then 2 else 5 + FromHead(s, op.key)
    case SetCasNext(op, prev, succ) => if At(s, prev).next == succ then 1 else 4 + FromHead(s, op.key)
    case _ => 0
  }

  lemma SmallerSet<K>(a: set<K>, b: set<K>)
    requires a <= b
    ensures |a| <= |b| && (a != b ==> |a| < |b|)
  {
    assert b == a + (b - a) && a !! (b - a);
    if a != b {
      var k :| k in b - a;
    }
  }

  lemma DistanceBound<V(!new)>(s: State<V>, t: Tid)
    requires 0 < s.tableSize
    ensures Distance(s, t) <= 5 + |s.index|
  {
    hide Bucket, Before, ListOf;
    forall a ensures |KeysBehind(s, a)| <= |s.index| {
      SmallerSet(KeysBehind(s, a), s.index.Keys);
    }
  }

  lemma GotoKeepsKeys<V(!new)>(s: State<V>, t: Tid, pc: Pc<V>, a: Addr)
    requires 0 < s.tableSize
    ensures KeysBehind(Goto(s, t, pc), a) == KeysBehind(s, a)
  {
    hide Bucket;
    assert At(Goto(s, t, pc), a) == At(s, a);
  }

  lemma InvSorted<V(!new)>(s: State<V>)
    requires Inv(s)
    ensures Formed(s) && Sorted(s)
  {
  }

  lemma WalkCloser<V(!new)>(s: State<V>, t: Tid)
    requires Inv(s) && PcOf(s, t).Walk?
    ensures var r := Step(s, Event(t, Advance));
            CanCall(PcOf(r, t)) || (InCall(PcOf(r, t)) && Distance(r, t) < Distance(s, t))
  {
    hide Inv, Bucket, KeysBehind, PcsOk, NoGap, PrivateOk;
    PcKnown(s, t);
    var Walk(op, prev) := PcOf(s, t);
    var r, next := Step(s, Event(t, Advance)), At(s, prev).next;
    InvSorted(s);
    if next.Some? {
      NextIsCloser(s, prev);
      SmallerSet(KeysBehind(s, next.value), KeysBehind(s, prev));
      GotoKeepsKeys(s, t, Decide(s, op, prev, next), next.value);
    }
  }

  lemma StoreNextCloser<V(!new)>(s: State<V>, t: Tid)
    requires Inv(s) && PcOf(s, t).SetStoreNext?
    ensures var r := Step(s, Event(t, Advance)); InCall(PcOf(r, t)) && Distance(r, t) < Distance(s, t)
  {
    hide Inv, Bucket, Sorted, NoGap, PcsOk;
    PcKnown(s, t);
    var SetStoreNext(op, prev, succ) := PcOf(s, t);
    var r, b := Step(s, Event(t, Advance)), Bucket(op.key, s.tableSize);
    assert KeysBehind(r, b) == KeysBehind(s, b);
  }

  lemma OthersCloser<V(!new)>(s: State<V>, t: Tid)
    requires Inv(s) && InCall(PcOf(s, t)) && !PcOf(s, t).Walk? && !PcOf(s, t).SetStoreNext?
    ensures var r := Step(s, Event(t, Advance));
            CanCall(PcOf(r, t)) || (InCall(PcOf(r, t)) && Distance(r, t) < Distance(s, t))
  {
    hide Inv, Bucket, KeysBehind, PrivateOk;
    PcKnown(s, t);
    match PcOf(s, t)
    case GetLoadValue(_, target) => ValueKnown(s, target);
    case SetCasValue(op, target, _) =>
      var head := Bucket(op.key, s.tableSize);
      GotoKeepsKeys(s, t, Walk(op, head), head);
    case SetCasNext(op, _, _) =>
      var head := Bucket(op.key, s.tableSize);
      GotoKeepsKeys(s, t, Walk(op, head), head);
    case _ =>
  }

  // From any point of Has, Get or Set, however outdated what it has loaded, the call returns after
  // a number of its own steps that the size of the table bounds, if nobody interferes.
  lemma {:induction false} EndsAlone<V(!new)>(s: State<V>, t: Tid) returns (n: nat)
    requires Inv(s) && InCall(PcOf(s, t))
    ensures 1 <= n <= Distance(s, t) <= 5 + |s.index| && CanCall(PcOf(Alone(s, t, n), t))
    decreases Distance(s, t)
  {
    hide Step, Inv, Distance;
    PcKnown(s, t);
    DistanceBound(s, t);
    var r := Step(s, Event(t, Advance));
    if PcOf(s, t).Walk? {
      WalkCloser(s, t);
    } else if PcOf(s, t).SetStoreNext? {
      StoreNextCloser(s, t);
    } else {
      OthersCloser(s, t);
    }
    StepInv(s, Event(t, Advance));
    DistanceIsPositive(s, t);
    if CanCall(PcOf(r, t)) {
      n := 1;
      assert Alone(r, t, 0) == r;
    } else {
      var m := EndsAlone(r, t);
      n := m + 1;
    }
  }

  lemma DistanceIsPositive<V(!new)>(s: State<V>, t: Tid)
    requires Inv(s) && InCall(PcOf(s, t))
    ensures 0 < Distance(s, t)
  {
    hide Inv;
  }
}
