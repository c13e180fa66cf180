/**
 What callers of the reentrant lock can rely on if they do not nest guards: under a write guard
 without nested guards the holder always leaves; without any nested guard everybody can finish.
*/
module ReentrantRWLockProgress {
  import opened Common
  import opened ReentrantRWLockSpec
  import opened ReentrantRWLockTheorems
  import opened ReentrantRWLockWaiters
  import opened ReentrantRWLockNesting

  // ---------------------------------------------------------------- no guard inside a write guard

  predicate Calls(e: Event) {
    e.act.CallRead? || e.act.CallWrite?
  }

  // A guard of either kind is constructed inside a write guard.
  ghost predicate NestsInWrite(s: State, e: Event) {
    Calls(e) && Inside(s, e.t)
  }

  predicate Flat(l: Local) {
    WriteGuards(l.guards) >= 1 ==> l.guards == [W] && (l.pc.Idle? || l.pc.WriteUnlockAdd?)
  }

  lemma OneGuard(g: Guard)
    ensures [] + [g] == [g] && Inner([g]) == [] && WriteGuards([g]) == (if g == W then 1 else 0)
    ensures WriteGuards([]) == 0 && Inner([]) == []
  {
  }

  lemma ReadsFlat(s: State, e: Event)
    requires LocalOk(Of(s, e.t)) && Flat(Of(s, e.t)) && e.act.Advance? && Reading(Of(s, e.t).pc)
    ensures Flat(Of(Step(s, e), e.t))
  {
    hide WriteGuards, NestingOf;
    GuardMoves(Of(s, e.t).guards);
  }

  lemma WritesFlat(s: State, e: Event)
    requires LocalOk(Of(s, e.t)) && Flat(Of(s, e.t)) && e.act.Advance? && !Reading(Of(s, e.t).pc)
    requires Of(s, e.t).pc.WriteNest? ==> NestingOf(Of(s, e.t).guards).UnderWrite?
    ensures Flat(Of(Step(s, e), e.t))
  {
    hide Step, WriteGuards, NestingOf;
    GuardMoves(Of(s, e.t).guards);
    if WriteCall(Of(s, e.t).pc) {
      WriteMoves(s, e);
    } else {
      WriteEndsFlat(s, e);
    }
  }

  lemma WriteEndsFlat(s: State, e: Event)
    requires LocalOk(Of(s, e.t)) && Flat(Of(s, e.t)) && e.act.Advance?
    requires !Reading(Of(s, e.t).pc) && !WriteCall(Of(s, e.t).pc)
    ensures Flat(Of(Step(s, e), e.t))
  {
    hide WriteGuards, NestingOf;
    GuardMoves(Of(s, e.t).guards);
    OneGuard(W);
  }

  lemma StepFlat(s: State, e: Event, t: Tid)
    requires Inv(s) && Flat(Of(s, t)) && !NestsInWrite(s, e)
    ensures Flat(Of(Step(s, e), t))
  {
    hide Inv, WriteGuards, NestingOf;
    if e.t != t {
      hide Step;
      OthersStand(s, e, t);
    } else {
      ThreadIs(s, t);
      GuardMoves(Of(s, t).guards);
      if e.act.Advance? {
        hide Step;
        if Reading(Of(s, t).pc) { ReadsFlat(s, e); } else { WritesFlat(s, e); }
      } else {
        OneGuard(W);
      }
    }
  }

  // What a thread without nested guards in a write guard can rely on, whatever others leak.
  ghost predicate KeepsOwn(s: State, t: Tid) {
    Flat(Of(s, t)) && (s.holder == Some(t) ==> s.leaked == 0)
  }

  lemma HolderComes(s: State, e: Event)
    ensures var r := Step(s, e);
            || r.holder == s.holder || r.holder == None
            || (r.holder == Some(e.t) && e.act == Advance(false) && Of(s, e.t).pc.WriteCas? &&
                s.lockNum == RW_LOCK_FREE)
  {
    hide WriteGuards, Inner;
  }

  lemma StepKeepsOwn(s: State, e: Event, t: Tid)
    requires Inv(s) && KeepsOwn(s, t) && (e.t == t ==> !NestsInWrite(s, e))
    ensures KeepsOwn(Step(s, e), t)
  {
    hide Inv, Step, Flat, NestsInWrite;
    if e.t == t { StepFlat(s, e, t); } else { OthersStand(s, e, t); }
    StepLeaks(s, e);
    HolderComes(s, e);
    ThreadKnown(s, e.t);
    if Of(s, t).pc.ReadUnlockSub? { FlatDoesNotLeak(s, t); }
  }

  lemma FlatDoesNotLeak(s: State, t: Tid)
    requires Inv(s) && Flat(Of(s, t)) && Of(s, t).pc.ReadUnlockSub?
    ensures s.holder != Some(t)
  {
    hide Inv, WriteGuards, NestingOf;
    ThreadIs(s, t);
    NestingKnown(Of(s, t).guards);
  }

  // A thread that constructs no guard of either kind inside a write guard is never stuck there, and
  // whenever it has the lock no count has been taken off too often, whatever other threads do.
  lemma {:induction false} WithoutNestingInWrite(writeFirst: bool, atomicUnlock: bool, es: seq<Event>, t: Tid)
    requires forall k :: 0 <= k < |es| && es[k].t == t ==>
               !NestsInWrite(Run(Init(writeFirst, atomicUnlock), es[..k]), es[k])
    ensures var s := Run(Init(writeFirst, atomicUnlock), es);
            && KeepsOwn(s, t)
            && (Inside(s, t) ==> !Stuck(s, t))
            && (s.holder == Some(t) ==> Holds(s, t))
  {
    hide Inv, KeepsOwn, NestsInWrite, Step;
    if es == [] {
      assert KeepsOwn(Init(writeFirst, atomicUnlock), t) by { NobodyNests(writeFirst, atomicUnlock, t); }
    } else {
      var p, e := es[..|es| - 1], es[|es| - 1];
      forall k | 0 <= k < |p| ensures p[..k] == es[..k] && p[k] == es[k] {}
      WithoutNestingInWrite(writeFirst, atomicUnlock, p, t);
      var s := Known(writeFirst, atomicUnlock, p);
      StepKeepsOwn(s, e, t);
    }
    var r := Known(writeFirst, atomicUnlock, es);
    KeepsOwnMeans(r, t);
  }

  lemma NobodyNests(writeFirst: bool, atomicUnlock: bool, t: Tid)
    ensures KeepsOwn(Init(writeFirst, atomicUnlock), t)
  {
  }

  lemma KeepsOwnMeans(s: State, t: Tid)
    requires Inv(s) && KeepsOwn(s, t)
    ensures Inside(s, t) ==> !Stuck(s, t)
    ensures s.holder == Some(t) ==> Holds(s, t)
  {
    hide Inv;
  }

  // ---------------------------------------------------------------- the holder leaves

  // What a thread does that only finishes: it destroys its guard or goes on with its call.
  function NextAct(l: Local): Action {
    if l.pc.Idle? && l.guards != [] then CallUnlock else Advance(false)
  }

  // The holder's own steps until it has given the lock back.
  function LeaveDistance(l: Local): nat {
    if l.pc.WriteSetId? then 4
    else if l.pc.WriteSub? then 3
    else if l.pc.Idle? then 2
    else 1
  }

  // Every step of t in the run finishes what t has begun.
  ghost predicate Finishes(s: State, t: Tid, es: seq<Event>) {
    forall k :: 0 <= k < |es| && es[k].t == t ==> es[k].act == NextAct(Of(Run(s, es[..k]), t))
  }

  function StepsOf(t: Tid, es: seq<Event>): nat {
    if es == [] then 0 else StepsOf(t, es[..|es| - 1]) + if es[|es| - 1].t == t then 1 else 0
  }

  ghost predicate Holds(s: State, t: Tid) {
    Inv(s) && s.holder == Some(t) && Flat(Of(s, t)) && s.leaked == 0
  }

  lemma HolderPlaces(s: State, t: Tid)
    requires Holds(s, t)
    ensures var l := Of(s, t);
            || (l.guards == [] && Entering(l.pc) && s.lockNum == -1)
            || (l.guards == [W] && (l.pc.Idle? || l.pc.WriteUnlockAdd?) && s.lockNum == -1)
  {
    hide NestingOf, WriteGuards, Inv;
    ThreadIs(s, t);
    ThreadKnown(s, t);
    NestingKnown(Of(s, t).guards);
    OneGuard(W);
    if Entering(Of(s, t).pc) { LockNumIs(s, t); }
  }

  lemma LockNumIs(s: State, t: Tid)
    requires Inv(s) && s.holder == Some(t) && Entering(Of(s, t).pc) && s.leaked == 0
    ensures s.lockNum == -1
  {
    hide NestingOf, WriteGuards;
    ThreadIs(s, t);
    LockNumFacts(s, t);
  }

  lemma HolderSteps(s: State, e: Event)
    requires Holds(s, e.t) && e.act == NextAct(Of(s, e.t))
    ensures var r := Step(s, e);
            if LeaveDistance(Of(s, e.t)) == 1 then r.holder == None && r.lockNum == RW_LOCK_FREE
            else r.holder == Some(e.t) && LeaveDistance(Of(r, e.t)) == LeaveDistance(Of(s, e.t)) - 1
  {
    hide NestingOf, Inv, WriteGuards;
    HolderPlaces(s, e.t);
    OneGuard(W);
  }

  lemma OthersKeepHolder(s: State, t: Tid, e: Event)
    requires Holds(s, t) && e.t != t
    ensures Step(s, e).holder == Some(t)
  {
    hide NestingOf, Inv, WriteGuards;
    HolderPlaces(s, t);
    ThreadIs(s, t);
    ThreadIs(s, e.t);
    NestingKnown(Of(s, e.t).guards);
  }

  lemma HoldsStays(s: State, t: Tid, e: Event)
    requires Holds(s, t) && (e.t == t ==> e.act == NextAct(Of(s, t)) && LeaveDistance(Of(s, t)) > 1)
    ensures Holds(Step(s, e), t)
    ensures e.t != t ==> Of(Step(s, e), t) == Of(s, t)
    ensures e.t == t ==> LeaveDistance(Of(Step(s, e), t)) == LeaveDistance(Of(s, t)) - 1
  {
    hide Inv, Step, Flat;
    StepInv(s, e);
    HolderPlaces(s, t);
    assert !NestsInWrite(s, e) || e.t != t;
    StepFlatOwn(s, e, t);
    HolderNoLeak(s, t, e);
    if e.t == t {
      HolderSteps(s, e);
    } else {
      OthersStand(s, e, t);
      OthersKeepHolder(s, t, e);
    }
  }

  lemma StepFlatOwn(s: State, e: Event, t: Tid)
    requires Inv(s) && Flat(Of(s, t)) && (e.t == t ==> !Calls(e))
    ensures Flat(Of(Step(s, e), t))
  {
    hide Inv, Step, Flat;
    if e.t == t { StepFlat(s, e, t); } else { OthersStand(s, e, t); }
  }

  lemma HolderNoLeak(s: State, t: Tid, e: Event)
    requires Holds(s, t)
    ensures Step(s, e).leaked == 0
  {
    hide Inv, Step;
    HolderPlaces(s, t);
    StepLeaks(s, e);
  }

  // Whatever the others do, a holder without nested guards gives the lock back with at most four
  // steps of its own, and the lock is free at that moment.
  lemma {:induction false} HolderLeaves(s: State, t: Tid, es: seq<Event>)
    requires Holds(s, t) && Finishes(s, t, es)
    ensures var d := LeaveDistance(Of(s, t));
            if StepsOf(t, es) < d
            then Holds(Run(s, es), t) && LeaveDistance(Of(Run(s, es), t)) == d - StepsOf(t, es)
            else exists k :: 0 <= k <= |es| && Run(s, es[..k]).holder == None && Run(s, es[..k]).lockNum == RW_LOCK_FREE
  {
    hide Holds, Step, LeaveDistance;
    if es == [] {
      assert LeaveDistance(Of(s, t)) >= 1 by { DistancePositive(Of(s, t)); }
    } else {
      var p, e := es[..|es| - 1], es[|es| - 1];
      forall k | 0 <= k <= |p| ensures p[..k] == es[..k] {}
      assert forall k :: 0 <= k < |p| ==> p[k] == es[k];
      HolderLeaves(s, t, p);
      var q, d := Run(s, p), LeaveDistance(Of(s, t));
      if StepsOf(t, p) < d {
        assert e.t == t ==> e.act == NextAct(Of(q, t));
        if e.t == t && LeaveDistance(Of(q, t)) == 1 {
          HolderSteps(q, e);
          assert es[..|es|] == es;
        } else {
          DistancePositive(Of(q, t));
          HoldsStays(q, t, e);
        }
      } else {
        var k :| 0 <= k <= |p| && Run(s, p[..k]).holder == None && Run(s, p[..k]).lockNum == RW_LOCK_FREE;
        assert Run(s, es[..k]).holder == None;
      }
    }
  }

  lemma DistancePositive(l: Local)
    ensures 1 <= LeaveDistance(l) <= 4
  {
  }

  // ---------------------------------------------------------------- guards that cannot block

  // No guard at all; one write guard and no call inside it; or read guards, with a nested
  // ReadLock in progress only if writers are not preferred.
  predicate Plain(writeFirst: bool, l: Local) {
    || l.guards == []
    || (l.guards == [W] && (l.pc.Idle? || l.pc.WriteUnlockAdd?))
    || (NestingOf(l.guards).ReadsOnly?
        && (l.pc.Idle? || l.pc.ReadUnlockTestId? || l.pc.ReadUnlockSub? || (!writeFirst && ReadCall(l.pc))))
  }

  // A guard is constructed inside another one, other than a read guard inside read guards when
  // writers are not preferred.
  ghost predicate Nests(s: State, e: Event) {
    Calls(e) && Of(s, e.t).guards != [] && !(e.act.CallRead? && Counted(s, e.t) && !s.writeFirst)
  }

  ghost predicate Ready(s: State) {
    && Inv(s) && s.leaked == 0 && WaitCounts(s)
    && forall t: Tid :: Plain(s.writeFirst, Of(s, t))
  }

  // What is known of such a thread.
  lemma PlainKnown(s: State, t: Tid)
    requires Inv(s) && Plain(s.writeFirst, Of(s, t))
    ensures var l := Of(s, t);
            && LocalOk(l) && !l.pc.WriteNest?
            && (s.holder == Some(t) <==> Entering(l.pc) || l.guards == [W])
            && (l.guards == [] ==> !l.pc.ReadUnlockTestId? && !l.pc.ReadUnlockSub? && !l.pc.WriteUnlockAdd?)
            && (Entering(l.pc) || l.pc.WriteUnlockClearId? ==> l.guards == [])
            && (Reading(l.pc) || WriteCall(l.pc) ==> s.writeThreadId != Some(t))
            && (NestingOf(l.guards).ReadsOnly? <==> Counted(s, t))
  {
    hide WriteGuards;
    OneGuard(W);
    ThreadIs(s, t);
    NestingKnown(Of(s, t).guards);
  }

  lemma ReadPush(gs: seq<Guard>)
    requires gs == [] || NestingOf(gs).ReadsOnly?
    ensures NestingOf(gs + [R]).ReadsOnly? && |gs + [R]| == |gs| + 1
    ensures gs != [] ==>
              InnermostIs(gs, R) && |Inner(gs)| == |gs| - 1 && (Inner(gs) == [] || NestingOf(Inner(gs)).ReadsOnly?)
  {
    NestingKnown(gs);
    Push(gs, R);
    if gs != [] { Pop(gs); }
  }

  // In ReadLock a thread either keeps its guards or comes out with one more.
  lemma ReadCallMoves(s: State, e: Event)
    requires e.act.Advance? && ReadCall(Of(s, e.t).pc)
    ensures var l, l' := Of(s, e.t), Of(Step(s, e), e.t);
            if l'.pc.Idle? then l'.guards == l.guards + [R] else l'.guards == l.guards && ReadCall(l'.pc)
  {
    hide Step, WriteGuards;
    ReadMoves(s, e);
  }

  lemma PlainReader(writeFirst: bool, l: Local)
    requires Plain(writeFirst, l) && ReadCall(l.pc)
    ensures l.guards == [] || (NestingOf(l.guards).ReadsOnly? && !writeFirst)
  {
  }

  lemma ReadsPlain(s: State, e: Event)
    requires Inv(s) && Plain(s.writeFirst, Of(s, e.t)) && e.act.Advance? && ReadCall(Of(s, e.t).pc)
    ensures Plain(s.writeFirst, Of(Step(s, e), e.t))
  {
    hide Inv, Step, WriteGuards, NestingOf, Plain;
    PlainReader(s.writeFirst, Of(s, e.t));
    ReadCallMoves(s, e);
    ReadPush(Of(s, e.t).guards);
    ReaderIsPlain(s.writeFirst, Of(Step(s, e), e.t));
  }

  lemma ReaderIsPlain(writeFirst: bool, l: Local)
    ensures NestingOf(l.guards).ReadsOnly? && (l.pc.Idle? || (!writeFirst && ReadCall(l.pc))) ==> Plain(writeFirst, l)
    ensures l.guards == [] ==> Plain(writeFirst, l)
  {
  }

  lemma UnlocksPlain(s: State, e: Event)
    requires Inv(s) && Plain(s.writeFirst, Of(s, e.t)) && e.act.Advance?
    requires Of(s, e.t).pc.ReadUnlockTestId? || Of(s, e.t).pc.ReadUnlockSub?
    ensures Plain(s.writeFirst, Of(Step(s, e), e.t))
  {
    hide Inv, WriteGuards, NestingOf;
    PlainKnown(s, e.t);
    ReadPush(Of(s, e.t).guards);
  }

  lemma WritesPlain(s: State, e: Event)
    requires Inv(s) && Plain(s.writeFirst, Of(s, e.t)) && e.act.Advance? && !Reading(Of(s, e.t).pc)
    ensures Plain(s.writeFirst, Of(Step(s, e), e.t))
  {
    hide Inv, WriteGuards, NestingOf;
    PlainKnown(s, e.t);
    OneGuard(W);
  }

  lemma CallsPlain(s: State, e: Event)
    requires Inv(s) && Plain(s.writeFirst, Of(s, e.t)) && !e.act.Advance? && !Nests(s, e)
    ensures Plain(s.writeFirst, Of(Step(s, e), e.t))
  {
    hide Inv, WriteGuards, NestingOf;
    PlainKnown(s, e.t);
    OneGuard(W);
    if Of(s, e.t).guards != [] && Of(s, e.t).guards != [W] { ReadPush(Of(s, e.t).guards); }
  }

  lemma OwnPlain(s: State, e: Event)
    requires Inv(s) && Plain(s.writeFirst, Of(s, e.t)) && !Nests(s, e)
    ensures Plain(s.writeFirst, Of(Step(s, e), e.t))
  {
    hide Inv, Step, Plain, Nests;
    if !e.act.Advance? {
      CallsPlain(s, e);
    } else if ReadCall(Of(s, e.t).pc) {
      ReadsPlain(s, e);
    } else if Reading(Of(s, e.t).pc) {
      UnlocksPlain(s, e);
    } else {
      WritesPlain(s, e);
    }
  }

  lemma StepReady(s: State, e: Event)
    requires Ready(s) && !Nests(s, e)
    ensures Ready(Step(s, e))
  {
    hide Inv, Step, Plain, Nests, WaitCounts;
    StepInv(s, e);
    StepWaitCounts(s, e);
    SharedMoves(s, e);
    StepLeaks(s, e);
    assert !Leaks(s, e) by { PlainNoLeak(s, e); }
    forall t: Tid ensures Plain(s.writeFirst, Of(Step(s, e), t)) {
      if t != e.t { OthersStand(s, e, t); } else { OwnPlain(s, e); }
    }
  }

  lemma PlainNoLeak(s: State, e: Event)
    requires Inv(s) && Plain(s.writeFirst, Of(s, e.t))
    ensures !Leaks(s, e)
  {
    hide Inv;
    PlainKnown(s, e.t);
  }

  lemma {:induction false} RunReady(writeFirst: bool, atomicUnlock: bool, es: seq<Event>)
    requires forall k :: 0 <= k < |es| ==> !Nests(Run(Init(writeFirst, atomicUnlock), es[..k]), es[k])
    ensures Ready(Run(Init(writeFirst, atomicUnlock), es))
  {
    hide Ready, Nests, Step;
    if es == [] {
      InitReady(writeFirst, atomicUnlock);
    } else {
      var p := es[..|es| - 1];
      forall k | 0 <= k < |p| ensures p[..k] == es[..k] && p[k] == es[k] {}
      RunReady(writeFirst, atomicUnlock, p);
      StepReady(Run(Init(writeFirst, atomicUnlock), p), es[|es| - 1]);
    }
  }

  lemma InitReady(writeFirst: bool, atomicUnlock: bool)
    ensures Ready(Init(writeFirst, atomicUnlock))
  {
    hide Inv;
    InitInv(writeFirst, atomicUnlock);
    assert Waiters(Init(writeFirst, atomicUnlock)) == {};
  }

  // ---------------------------------------------------------------- one thread finishes

  // A thread alone can go on to its end: it has the lock or is on its way out, or the lock is free
  // for it.
  predicate CanGo(s: State, t: Tid) {
    var pc := Of(s, t).pc;
    && (WriteCall(pc) ==> s.lockNum == RW_LOCK_FREE)
    && (ReadCall(pc) ==> s.lockNum >= RW_LOCK_FREE && !Preferred(s))
  }

  // Three steps for each guard to leave, and those to come in before that.
  function FinishDistance(s: State, t: Tid): nat {
    var l := Of(s, t);
    var n := 3 * |l.guards|;
    match l.pc
    case Idle => n
    case WriteTestId => 8
    case WriteNest => 0
    case WriteAdd => 7
    case WriteCas => 6
    case WriteSetId => 5
    case WriteSub => 4
    case WriteUnlockAdd => 2
    case WriteUnlockClearId => 1
    case ReadTestId => n + 8
    case ReadLoad => n + 6
    case ReadTest(m) => if m == s.lockNum then n + 5 else n + 7
    case ReadCas(m) => if m == s.lockNum then n + 4 else n + 6
    case ReadUnlockTestId => if n < 2 then 0 else n - 1
    case ReadUnlockSub => if n < 3 then 0 else n - 2
  }

  lemma EnteringReader(s: State, t: Tid)
    requires Inv(s) && Plain(s.writeFirst, Of(s, t)) && CanGo(s, t) && ReadCall(Of(s, t).pc)
    ensures var r := Step(s, Event(t, Advance(false)));
            FinishDistance(r, t) < FinishDistance(s, t) && CanGo(r, t)
  {
    hide Inv, Step, WriteGuards, NestingOf;
    var e := Event(t, Advance(false));
    PlainKnown(s, t);
    ReadMoves(s, e);
    SharedMoves(s, e);
    if ReadCall(Of(Step(s, e), t).pc) { LockNumStands(s, e); }
  }

  lemma LeavingReader(s: State, t: Tid)
    requires Inv(s) && Plain(s.writeFirst, Of(s, t)) && (Of(s, t).pc.ReadUnlockTestId? || Of(s, t).pc.ReadUnlockSub?)
    ensures var r := Step(s, Event(t, Advance(false)));
            FinishDistance(r, t) < FinishDistance(s, t) && CanGo(r, t)
  {
    hide Inv, WriteGuards, NestingOf;
    PlainKnown(s, t);
    ReadPush(Of(s, t).guards);
  }

  lemma EnteringWriter(s: State, t: Tid)
    requires CanGo(s, t) && WriteCall(Of(s, t).pc) && !Of(s, t).pc.WriteNest? && s.writeThreadId != Some(t)
    requires Of(s, t).guards == []
    ensures var r := Step(s, Event(t, Advance(false)));
            FinishDistance(r, t) < FinishDistance(s, t) && CanGo(r, t)
  {
    hide WriteGuards, Inner;
  }

  lemma EndOfGuard(s: State, t: Tid)
    requires Of(s, t).pc.Idle? && Of(s, t).guards != []
    ensures var r := Step(s, Event(t, CallUnlock));
            FinishDistance(r, t) < FinishDistance(s, t) && CanGo(r, t)
  {
    hide WriteGuards, Inner;
  }

  lemma LeavingWriter(s: State, t: Tid)
    requires var l := Of(s, t);
             || (l.guards == [] && (Entering(l.pc) || l.pc.WriteUnlockClearId?))
             || (l.guards == [W] && l.pc.WriteUnlockAdd?)
    ensures var r := Step(s, Event(t, Advance(false)));
            FinishDistance(r, t) < FinishDistance(s, t) && CanGo(r, t)
  {
    hide WriteGuards, Inner;
    OneGuard(W);
  }

  lemma Onward(s: State, t: Tid)
    requires Ready(s) && CanGo(s, t) && FinishDistance(s, t) > 0
    ensures var e := Event(t, NextAct(Of(s, t))); var r := Step(s, e);
            !Calls(e) && Ready(r) && FinishDistance(r, t) < FinishDistance(s, t) && CanGo(r, t)
  {
    hide Inv, Step, WaitCounts, CanGo, NestingOf;
    StepReady(s, Event(t, NextAct(Of(s, t))));
    PlainKnown(s, t);
    var pc := Of(s, t).pc;
    if ReadCall(pc) {
      EnteringReader(s, t);
    } else if Reading(pc) {
      LeavingReader(s, t);
    } else if WriteCall(pc) {
      EnteringWriter(s, t);
    } else if pc.Idle? {
      EndOfGuard(s, t);
    } else {
      LeavingWriter(s, t);
    }
  }

  // The run in which t alone finishes.
  lemma {:induction false} Finish(s: State, t: Tid) returns (es: seq<Event>)
    requires Ready(s) && CanGo(s, t)
    ensures Ready(Run(s, es)) && Of(Run(s, es), t) == Local(Idle, [])
    ensures forall u: Tid :: u != t ==> Of(Run(s, es), u) == Of(s, u)
    ensures forall i :: 0 <= i < |es| ==> es[i].t == t && !Calls(es[i])
    decreases FinishDistance(s, t)
  {
    hide Ready, Step, CanGo, FinishDistance, Calls;
    if FinishDistance(s, t) == 0 {
      es := [];
      AtTheEnd(s, t);
    } else {
      var e := Event(t, NextAct(Of(s, t)));
      Onward(s, t);
      var rest := Finish(Step(s, e), t);
      es := [e] + rest;
      RunFrom(s, e, rest);
      forall u: Tid | u != t ensures Of(Run(s, es), u) == Of(s, u) { OthersStand(s, e, u); }
    }
  }

  lemma AtTheEnd(s: State, t: Tid)
    requires Ready(s) && FinishDistance(s, t) == 0
    ensures Of(s, t) == Local(Idle, [])
  {
    hide Inv, NestingOf;
    PlainKnown(s, t);
    if Of(s, t).pc.ReadUnlockTestId? || Of(s, t).pc.ReadUnlockSub? {
      ReadPush(Of(s, t).guards);
    }
  }

  // ---------------------------------------------------------------- everybody finishes

  ghost function Busy(s: State): set<Tid> {
    set t | t in s.threads && s.threads[t] != Local(Idle, [])
  }

  // Some thread can go on: one that is inside or on its way out, else a writer, else a reader.
  lemma SomebodyCanGo(s: State) returns (t: Tid)
    requires Ready(s) && Busy(s) != {}
    ensures t in Busy(s) && CanGo(s, t)
  {
    hide Inv, Plain, Preferred;
    if u: Tid :| u in Busy(s) && (Of(s, u).guards != [] || (!WriteCall(Of(s, u).pc) && !ReadCall(Of(s, u).pc))) {
      t := u;
      InsideCanGo(s, t);
    } else {
      FreeWhenNobodyInside(s);
      if u: Tid :| u in Busy(s) && WriteCall(Of(s, u).pc) {
        t := u;
      } else {
        forall u: Tid ensures u !in Waiters(s) {
          assert u in Waiters(s) ==> u in Busy(s);
        }
        assert Waiters(s) == {};
        PreferredIs(s);
        t :| t in Busy(s);
      }
    }
  }

  lemma InsideCanGo(s: State, t: Tid)
    requires Ready(s) && (Of(s, t).guards != [] || (!WriteCall(Of(s, t).pc) && !ReadCall(Of(s, t).pc)))
    ensures CanGo(s, t)
  {
    hide Inv, NestingOf, WriteGuards;
    PlainKnown(s, t);
    if Counted(s, t) { ReaderKnown(s, t); }
  }

  lemma FreeWhenNobodyInside(s: State)
    requires Ready(s)
    requires forall u: Tid :: u in Busy(s) ==>
               Of(s, u).guards == [] && (WriteCall(Of(s, u).pc) || ReadCall(Of(s, u).pc))
    ensures s.lockNum == RW_LOCK_FREE
  {
    hide Inv;
    forall u: Tid ensures Of(s, u).guards == [] && !Entering(Of(s, u).pc) {
      assert u !in Busy(s) ==> Of(s, u) == Local(Idle, []);
    }
    NobodyInsideFree(s);
  }

  lemma NobodyInsideFree(s: State)
    requires Inv(s) && s.leaked == 0
    requires forall u: Tid :: Of(s, u).guards == [] && !Entering(Of(s, u).pc)
    ensures s.lockNum == RW_LOCK_FREE
  {
    if s.holder.Some? { HolderIsInside(s); }
    forall t: Tid ensures s.readers[t] == 0 { assert ThreadOk(s, t); }
    assert s.readers == multiset{};
  }

  lemma {:induction false} FinishAll(s: State) returns (es: seq<Event>)
    requires Ready(s)
    ensures var r := Run(s, es);
            && (forall t: Tid :: Of(r, t) == Local(Idle, []))
            && r.lockNum == RW_LOCK_FREE && r.waitNum == 0
    ensures forall i :: 0 <= i < |es| ==> !Calls(es[i])
    decreases |Busy(s)|
  {
    hide Step, CanGo, Calls;
    if Busy(s) == {} {
      es := [];
      AllDone(s);
    } else {
      hide Ready;
      var t := SomebodyCanGo(s);
      var first := Finish(s, t);
      var q := Run(s, first);
      BusyFalls(s, q, t);
      var rest := FinishAll(q);
      es := first + rest;
      RunConcat(s, first, rest);
    }
  }

  lemma BusyFalls(s: State, r: State, t: Tid)
    requires t in Busy(s) && Of(r, t) == Local(Idle, []) && forall u: Tid :: u != t ==> Of(r, u) == Of(s, u)
    ensures |Busy(r)| < |Busy(s)|
  {
    forall u: Tid ensures u in Busy(r) <==> u in Busy(s) && u != t {
      assert u in Busy(r) <==> Of(r, u) != Local(Idle, []);
      assert u in Busy(s) <==> Of(s, u) != Local(Idle, []);
    }
    assert Busy(r) == Busy(s) - {t};
  }

  lemma AllDone(s: State)
    requires Ready(s) && Busy(s) == {}
    ensures forall t: Tid :: Of(s, t) == Local(Idle, [])
    ensures s.lockNum == RW_LOCK_FREE && s.waitNum == 0
  {
    forall t: Tid ensures Of(s, t) == Local(Idle, []) { assert t !in Busy(s); }
    NobodyInsideFree(s);
    assert Waiters(s) == {};
  }

  // If no guard is constructed inside another one, or only read guards inside read guards on a lock
  // that does not prefer writers, nobody can be stuck: after any run every thread can finish what
  // it has begun, which leaves the lock free and no writer waiting.
  lemma EverybodyCanFinish(writeFirst: bool, atomicUnlock: bool, es: seq<Event>) returns (more: seq<Event>)
    requires forall k :: 0 <= k < |es| ==> !Nests(Run(Init(writeFirst, atomicUnlock), es[..k]), es[k])
    ensures var r := Run(Init(writeFirst, atomicUnlock), es + more);
            && (forall t: Tid :: Of(r, t) == Local(Idle, []))
            && r.lockNum == RW_LOCK_FREE && r.waitNum == 0
    ensures forall i :: 0 <= i < |more| ==> !Calls(more[i])
  {
    hide Ready, Step, Nests, Calls;
    RunReady(writeFirst, atomicUnlock, es);
    more := FinishAll(Run(Init(writeFirst, atomicUnlock), es));
    RunConcat(Init(writeFirst, atomicUnlock), es, more);
  }
}
