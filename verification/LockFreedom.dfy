/**
 Lock-freedom over whole runs: every CAS that fails, and not spuriously, is paid for by one
 success of another thread, each success paying for at most one failure of a given thread.
*/
module BoundedQueueRetries {
  import opened Common
  import opened BoundedQueueSpec

  // The two counters that calls compete for: tail_ in Enqueue and head_ in Dequeue.
  datatype Counter = Tail | Head

  predicate AtCas<T>(pc: Pc<T>, c: Counter) {
    if c.Tail? then pc.EnqCasTail? else pc.DeqCasHead?
  }

  // Thread t is between its load of the counter and its CAS, and the counter has moved since.
  predicate Outdated<T>(s: State<T>, t: Tid, c: Counter) {
    match PcOf(s, t)
    case EnqLoadHead(_, oldTail) => c.Tail? && oldTail != s.tail
    case EnqCasTail(_, oldTail) => c.Tail? && oldTail != s.tail
    case DeqLoadCommit(oldHead) => c.Head? && oldHead != s.head
    case DeqReadSlot(oldHead) => c.Head? && oldHead != s.head
    case DeqCasHead(oldHead, _) => c.Head? && oldHead != s.head
    case _ => false
  }

  // A CAS on the counter that fails because the counter has moved, and one that succeeds.
  predicate Fails<T>(s: State<T>, e: Event<T>, c: Counter) {
    e.act == Advance(false) && AtCas(PcOf(s, e.t), c) && Outdated(s, e.t, c)
  }

  predicate Succeeds<T>(s: State<T>, e: Event<T>, c: Counter) {
    e.act == Advance(false) && AtCas(PcOf(s, e.t), c) && !Outdated(s, e.t, c)
  }

  function Failures<T>(s: State<T>, es: seq<Event<T>>, t: Tid, c: Counter): nat
    requires 2 <= |s.pool|
  {
    if es == [] then 0 else
    var p, e := es[..|es| - 1], es[|es| - 1];
    Failures(s, p, t, c) + One(e.t == t && Fails(Run(s, p), e, c))
  }

  function SuccessesOfOthers<T>(s: State<T>, es: seq<Event<T>>, t: Tid, c: Counter): nat
    requires 2 <= |s.pool|
  {
    if es == [] then 0 else
    var p, e := es[..|es| - 1], es[|es| - 1];
    SuccessesOfOthers(s, p, t, c) + One(e.t != t && Succeeds(Run(s, p), e, c))
  }

  lemma StepPays<T>(s: State<T>, e: Event<T>, t: Tid, c: Counter)
    requires 2 <= |s.pool|
    ensures One(e.t == t && Fails(s, e, c)) + One(Outdated(Step(s, e), t, c)) <=
            One(e.t != t && Succeeds(s, e, c)) + One(Outdated(s, t, c))
  {
    if e.t != t { assert PcOf(Step(s, e), t) == PcOf(s, t); }
  }

  // Over any interleaving from the start, a thread's failures are at most the successes of others.
  lemma {:induction false} RetriesArePaid<T>(size: nat, zero: T, es: seq<Event<T>>, t: Tid, c: Counter)
    ensures var s0 := Init(size, zero);
            Failures(s0, es, t, c) + One(Outdated(Run(s0, es), t, c)) <= SuccessesOfOthers(s0, es, t, c)
  {
    hide Step, Fails, Succeeds, Outdated;
    if es == [] {
      assert !Outdated(Init(size, zero), t, c) by { NobodyOutdated(size, zero, t, c); }
    } else {
      var p := es[..|es| - 1];
      RetriesArePaid(size, zero, p, t, c);
      StepPays(Run(Init(size, zero), p), es[|es| - 1], t, c);
    }
  }

  lemma NobodyOutdated<T>(size: nat, zero: T, t: Tid, c: Counter)
    ensures !Outdated(Init(size, zero), t, c)
  {
  }
}

module AtomicHashMapRetries {
  import opened Common
  import opened AtomicHashMapSpec

  // Thread t is between its load of a pointer and its CAS, and the pointer has changed since.
  predicate Outdated<V>(s: State<V>, t: Tid) {
    match PcOf(s, t)
    case SetCasValue(_, target, oldCell) => At(s, target).value != oldCell
    case SetStoreNext(_, prev, succ) => At(s, prev).next != succ
    case SetCasNext(_, prev, succ) => At(s, prev).next != succ
    case _ => false
  }

  predicate AtCas<V>(pc: Pc<V>) {
    pc.SetCasValue? || pc.SetCasNext?
  }

  // A CAS of Insert, on a value or on a link, that fails, and one that succeeds.
  predicate Fails<V>(s: State<V>, e: Event<V>) {
    e.act.Advance? && AtCas(PcOf(s, e.t)) && Outdated(s, e.t)
  }

  predicate Succeeds<V>(s: State<V>, e: Event<V>) {
    e.act.Advance? && AtCas(PcOf(s, e.t)) && !Outdated(s, e.t)
  }

  function Failures<V>(s: State<V>, es: seq<Event<V>>, t: Tid): nat
    requires 0 < s.tableSize
  {
    if es == [] then 0 else
    var p, e := es[..|es| - 1], es[|es| - 1];
    Failures(s, p, t) + One(e.t == t && Fails(Run(s, p), e))
  }

  function SuccessesOfOthers<V>(s: State<V>, es: seq<Event<V>>, t: Tid): nat
    requires 0 < s.tableSize
  {
    if es == [] then 0 else
    var p, e := es[..|es| - 1], es[|es| - 1];
    SuccessesOfOthers(s, p, t) + One(e.t != t && Succeeds(Run(s, p), e))
  }

  // A published entry is changed by a successful CAS only.
  lemma EntryStays<V(!new)>(s: State<V>, e: Event<V>, a: Addr)
    requires Inv(s) && Published(s, a) && !Succeeds(s, e)
    ensures At(Step(s, e), a) == At(s, a)
  {
    hide Sorted, NoGap, Bucket, Inv;
    PcKnown(s, e.t);
  }

  lemma OthersStand<V>(s: State<V>, e: Event<V>, t: Tid)
    requires 0 < s.tableSize && e.t != t
    ensures PcOf(Step(s, e), t) == PcOf(s, t)
  {
  }

  lemma OthersChange<V(!new)>(s: State<V>, e: Event<V>, t: Tid)
    requires Inv(s) && e.t != t && !Succeeds(s, e)
    ensures Outdated(Step(s, e), t) == Outdated(s, t)
  {
    hide Inv, Step, Succeeds, PrivateOk, Published;
    PcKnown(s, t);
    OthersStand(s, e, t);
    match PcOf(s, t)
    case SetCasValue(_, target, _) => EntryStays(s, e, target);
    case SetStoreNext(_, prev, _) => EntryStays(s, e, prev);
    case SetCasNext(_, prev, _) => EntryStays(s, e, prev);
    case _ =>
  }

  lemma OwnChange<V(!new)>(s: State<V>, e: Event<V>)
    requires Inv(s)
    ensures Outdated(Step(s, e), e.t) ==> Outdated(s, e.t) && !Fails(s, e)
  {
    hide Sorted, NoGap, Bucket, Inv;
    PcKnown(s, e.t);
  }

  lemma StepPays<V(!new)>(s: State<V>, e: Event<V>, t: Tid)
    requires Inv(s)
    ensures One(e.t == t && Fails(s, e)) + One(Outdated(Step(s, e), t)) <=
            One(e.t != t && Succeeds(s, e)) + One(Outdated(s, t))
  {
    hide Inv, Step, Outdated;
    if e.t == t {
      OwnChange(s, e);
    } else if !Succeeds(s, e) {
      OthersChange(s, e, t);
    }
  }

  // Over any interleaving from the start, the failures of a thread's CASes, on values and on
  // links, are at most the successes of others.
  lemma {:induction false} RetriesArePaid<V(!new)>(tableSize: nat, es: seq<Event<V>>, t: Tid)
    requires 0 < tableSize
    ensures var s0 := Init<V>(tableSize);
            && Inv(Run(s0, es))
            && Failures(s0, es, t) + One(Outdated(Run(s0, es), t)) <= SuccessesOfOthers(s0, es, t)
  {
    hide Inv, Step, Fails, Succeeds, Outdated;
    if es == [] {
      InitInv<V>(tableSize);
      assert !Outdated(Init<V>(tableSize), t) by { NobodyOutdated<V>(tableSize, t); }
    } else {
      var p := es[..|es| - 1];
      RetriesArePaid<V>(tableSize, p, t);
      StepInv(Run(Init<V>(tableSize), p), es[|es| - 1]);
      StepPays(Run(Init<V>(tableSize), p), es[|es| - 1], t);
    }
  }

  lemma NobodyOutdated<V>(tableSize: nat, t: Tid)
    requires 0 < tableSize
    ensures !Outdated(Init<V>(tableSize), t)
  {
  }
}

module ObjectPoolRetries {
  import opened Common
  import opened ObjectPoolSpec

  // Thread t is between its load of free_head_ and its CAS, and free_head_ has changed since.
  predicate Outdated(s: State, t: Tid) {
    match PcOf(s, t)
    case GetLoadNext(count, node) => count != s.count || s.top != Some(node)
    case GetCas(count, node, _) => count != s.count || s.top != Some(node)
    case PutStoreNext(_, count, top) => count != s.count || s.top != top
    case PutCas(_, count, top) => count != s.count || s.top != top
    case _ => false
  }

  predicate AtCas(pc: Pc) {
    pc.GetCas? || pc.PutCas?
  }

  // A CAS on free_head_ that fails because it has changed, and one that succeeds.
  predicate Fails(s: State, e: Event) {
    e.act == Advance(false) && AtCas(PcOf(s, e.t)) && Outdated(s, e.t)
  }

  predicate Succeeds(s: State, e: Event) {
    e.act == Advance(false) && AtCas(PcOf(s, e.t)) && !Outdated(s, e.t)
  }

  function Failures(s: State, es: seq<Event>, t: Tid): nat {
    if es == [] then 0 else
    var p, e := es[..|es| - 1], es[|es| - 1];
    Failures(s, p, t) + One(e.t == t && Fails(Run(s, p), e))
  }

  function SuccessesOfOthers(s: State, es: seq<Event>, t: Tid): nat {
    if es == [] then 0 else
    var p, e := es[..|es| - 1], es[|es| - 1];
    SuccessesOfOthers(s, p, t) + One(e.t != t && Succeeds(Run(s, p), e))
  }

  lemma StepPays(s: State, e: Event, t: Tid)
    ensures One(e.t == t && Fails(s, e)) + One(Outdated(Step(s, e), t)) <=
            One(e.t != t && Succeeds(s, e)) + One(Outdated(s, t))
  {
    if e.t != t { assert PcOf(Step(s, e), t) == PcOf(s, t); }
  }

  // Over any interleaving from the start, a thread's failures are at most the successes of others.
  lemma {:induction false} RetriesArePaid(capacity: nat, es: seq<Event>, t: Tid)
    requires 0 < capacity
    ensures var s0 := Init(capacity);
            Failures(s0, es, t) + One(Outdated(Run(s0, es), t)) <= SuccessesOfOthers(s0, es, t)
  {
    hide Step, Fails, Succeeds, Outdated;
    if es == [] {
      assert !Outdated(Init(capacity), t) by { NobodyOutdated(capacity, t); }
    } else {
      var p := es[..|es| - 1];
      RetriesArePaid(capacity, p, t);
      StepPays(Run(Init(capacity), p), es[|es| - 1], t);
    }
  }

  lemma NobodyOutdated(capacity: nat, t: Tid)
    requires 0 < capacity
    ensures !Outdated(Init(capacity), t)
  {
  }
}
