/**
 The counter of waiting writers of the reentrant lock, and the moves of one thread.
*/
module ReentrantRWLockWaiters {
  import opened Common
  import opened ReentrantRWLockSpec
  import opened ReentrantRWLockTheorems

  // ---------------------------------------------------------------- the waiting writers

  // Between the fetch_add and the fetch_sub of write_lock_wait_num_.
  predicate Queued(pc: Pc) {
    pc.WriteCas? || Entering(pc)
  }

  ghost function Waiters(s: State): set<Tid> {
    set t | t in s.threads && Queued(s.threads[t].pc)
  }

  ghost predicate WaitCounts(s: State) {
    s.waitNum == |Waiters(s)|
  }

  // The counter moves with the place of the thread that steps.
  lemma WaitNumMoves(s: State, e: Event)
    ensures Step(s, e).waitNum - s.waitNum == One(Queued(Of(Step(s, e), e.t).pc)) - One(Queued(Of(s, e.t).pc))
  {
    if e.act.Advance? {
      hide Step;
      if Reading(Of(s, e.t).pc) { ReadWaitNum(s, e); } else { WriteWaitNum(s, e); }
    }
  }

  lemma ReadWaitNum(s: State, e: Event)
    requires e.act.Advance? && Reading(Of(s, e.t).pc)
    ensures Step(s, e).waitNum == s.waitNum && !Queued(Of(Step(s, e), e.t).pc)
  {
    hide Step, WriteGuards;
    SharedMoves(s, e);
    ReadMoves(s, e);
  }

  lemma WriteWaitNum(s: State, e: Event)
    requires e.act.Advance? && !Reading(Of(s, e.t).pc)
    ensures Step(s, e).waitNum - s.waitNum == One(Queued(Of(Step(s, e), e.t).pc)) - One(Queued(Of(s, e.t).pc))
  {
    hide WriteGuards, Inner;
  }

  lemma OneElement(a: set<Tid>, b: set<Tid>, t: Tid)
    requires forall u: Tid :: u != t ==> (u in a <==> u in b)
    ensures |b| - |a| == One(t in b) - One(t in a)
  {
    assert a - {t} == b - {t};
    assert t in a ==> a == (a - {t}) + {t};
    assert t in b ==> b == (b - {t}) + {t};
    assert t !in a ==> a == a - {t};
    assert t !in b ==> b == b - {t};
  }

  lemma WaitersMove(s: State, r: State, t: Tid)
    requires forall u: Tid :: u != t ==> Of(r, u) == Of(s, u)
    ensures |Waiters(r)| - |Waiters(s)| == One(Queued(Of(r, t).pc)) - One(Queued(Of(s, t).pc))
  {
    hide Queued, Waiters, Of;
    WaiterIsQueued(s);
    WaiterIsQueued(r);
    OneElement(Waiters(s), Waiters(r), t);
  }

  lemma StepWaitCounts(s: State, e: Event)
    requires WaitCounts(s)
    ensures WaitCounts(Step(s, e))
  {
    hide Step, Queued;
    WaitNumMoves(s, e);
    forall u: Tid | u != e.t ensures Of(Step(s, e), u) == Of(s, u) { OthersStand(s, e, u); }
    WaitersMove(s, Step(s, e), e.t);
  }

  lemma WaiterIsQueued(s: State)
    ensures forall u: Tid :: u in Waiters(s) <==> Queued(Of(s, u).pc)
  {
  }

  // In every run write_lock_wait_num_ is the number of writers between their add and their sub.
  lemma {:induction false} WaitMeaning(writeFirst: bool, atomicUnlock: bool, es: seq<Event>)
    ensures WaitCounts(Run(Init(writeFirst, atomicUnlock), es))
  {
    hide Step;
    if es == [] {
      assert Waiters(Init(writeFirst, atomicUnlock)) == {};
    } else {
      WaitMeaning(writeFirst, atomicUnlock, es[..|es| - 1]);
      StepWaitCounts(Run(Init(writeFirst, atomicUnlock), es[..|es| - 1]), es[|es| - 1]);
    }
  }

  // ---------------------------------------------------------------- the moves of one thread

  lemma CallMoves(s: State, e: Event)
    requires !e.act.Advance?
    ensures var l, l' := Of(s, e.t), Of(Step(s, e), e.t);
            && l'.guards == l.guards
            && (!l.pc.Idle? ==> l' == l)
            && (l.pc.Idle? ==>
                  match e.act
                  case CallRead => l'.pc.ReadTestId?
                  case CallWrite => l'.pc.WriteTestId?
                  case Advance(_) => true
                  case CallUnlock =>
                    if l.guards == [] then l' == l
                    else if l.guards[|l.guards| - 1] == R then l'.pc.ReadUnlockTestId?
                    else l'.pc.WriteUnlockAdd?)
  {
    hide WriteGuards, Inner;
  }

  lemma ReadMoves(s: State, e: Event)
    requires e.act.Advance? && Reading(Of(s, e.t).pc)
    ensures var l, l' := Of(s, e.t), Of(Step(s, e), e.t);
            match l.pc
            case ReadTestId =>
              if s.writeThreadId == Some(e.t)
              then l' == Local(Idle, l.guards + [R])
              else l' == Local(ReadLoad, l.guards)
            case ReadLoad => l' == Local(ReadTest(s.lockNum), l.guards)
            case ReadTest(n) =>
              l' == Local(if n < RW_LOCK_FREE || (s.writeFirst && s.waitNum > 0) then ReadLoad
                  else ReadCas(n), l.guards)
            case ReadCas(n) =>
              if !e.act.spurious && s.lockNum == n then l' == Local(Idle, l.guards + [R])
              else l' == Local(ReadTest(s.lockNum), l.guards)
            case ReadUnlockTestId =>
              if s.writeThreadId == Some(e.t) then l' == Local(Idle, Inner(l.guards))
              else l' == Local(ReadUnlockSub, l.guards)
            case ReadUnlockSub => l' == Local(Idle, Inner(l.guards))
  {
    hide WriteGuards, Inner;
  }

  lemma WriteMoves(s: State, e: Event)
    requires e.act.Advance? && !Reading(Of(s, e.t).pc)
    ensures var l, l' := Of(s, e.t), Of(Step(s, e), e.t);
            match l.pc
            case WriteTestId => l' == Local(if s.writeThreadId == Some(e.t) then WriteNest else WriteAdd, l.guards)
            case WriteNest => l' == Local(Idle, l.guards + [W])
            case WriteAdd => l' == Local(WriteCas, l.guards)
            case WriteCas => l' == Local(if !e.act.spurious && s.lockNum == RW_LOCK_FREE then WriteSetId
                else WriteCas, l.guards)
            case WriteSetId => l' == Local(WriteSub, l.guards)
            case WriteSub => l' == Local(Idle, l.guards + [W])
            case WriteUnlockAdd =>
              l' == Local(if s.lockNum == WRITE_EXCLUSIVE && !s.atomicUnlock then WriteUnlockClearId else Idle,
                          Inner(l.guards))
            case WriteUnlockClearId => l' == Local(Idle, l.guards)
            case _ => l' == l
  {
    hide WriteGuards, Inner;
  }

  // The shared fields that decide whether a waiting thread can go on.
  lemma SharedMoves(s: State, e: Event)
    ensures var r := Step(s, e); var pc := Of(s, e.t).pc;
            && r.writeFirst == s.writeFirst && r.atomicUnlock == s.atomicUnlock
            && (r.writeThreadId != s.writeThreadId ==>
                  && e.act.Advance?
                  && ((pc.WriteSetId? && r.writeThreadId == Some(e.t))
                      || (pc.WriteUnlockClearId? && r.writeThreadId == None)
                      || (pc.WriteUnlockAdd? && s.atomicUnlock && r.writeThreadId == None)))
            && (r.waitNum < s.waitNum ==> e.act.Advance? && pc.WriteSub?)
            && (r.waitNum > s.waitNum ==> e.act.Advance? && pc.WriteAdd?)
  {
    hide WriteGuards, Inner;
  }
}
