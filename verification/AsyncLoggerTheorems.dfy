// What the logger promises, over every run.
module AsyncLoggerTheorems {
  import opened Common
  import opened AsyncLoggerSpec

  // Nothing accepted is lost, doubled or reordered: it was handed over, or is in the rest of the
  // flushing buffer, or in the active one.
  lemma NothingLostOrReordered(group: string, es: seq<Event>)
    ensures var s := Run(Init(group), es);
            s.accepted == s.handed + Rest(s) + s.active.messages
  {
    RunInv(group, es);
  }

  // Each module's file has got, in order, exactly the messages for it among those handed over.
  lemma FilesByModule(group: string, es: seq<Event>, name: string)
    ensures var s := Run(Init(group), es);
            && |s.handed| <= |s.accepted|
            && FileOf(s.files, name).written == EntriesFor(s.accepted[..|s.handed|], name, group)
  {
    RunInv(group, es);
    GroupStays(group, es);
    var s := Run(Init(group), es);
    assert s.accepted[..|s.handed|] == s.handed;
    assert FileOk(FileOf(s.files, name), s.handed, s.safe, name, s.group);
  }

  lemma {:induction false} GroupStays(group: string, es: seq<Event>)
    ensures Run(Init(group), es).group == group
  {
    hide Step;
    if es == [] {
    } else {
      GroupStays(group, es[..|es| - 1]);
      StepKeepsGroup(Run(Init(group), es[..|es| - 1]), es[|es| - 1]);
    }
  }

  lemma StepKeepsGroup(s: State, e: Event)
    ensures Step(s, e).group == s.group
  {
    hide FlushFiles, WriteFile;
  }

  lemma {:induction false} EntriesOfMore(ms: seq<Msg>, n: nat, k: nat, name: string, group: string)
    requires n <= k <= |ms|
    ensures EntriesFor(ms[..n], name, group) <= EntriesFor(ms[..k], name, group)
  {
    hide RouteOf;
    if n < k {
      EntriesOfMore(ms, n, k - 1, name, group);
      assert ms[..k][..k - 1] == ms[..k - 1];
    }
  }

  // When Flush returns because two more rounds were counted, everything accepted before it took
  // the lock is in the module files and flushed.
  lemma FlushGuarantee(group: string, es: seq<Event>, t: Tid, name: string)
    requires var pc := FlushOf(Run(Init(group), es), t); pc.Returned? && pc.byCount
    ensures var s := Run(Init(group), es); var n := FlushOf(s, t).n;
            && n <= |s.handed| <= |s.accepted|
            && EntriesFor(s.accepted[..n], name, group) <= FileOf(s.files, name).written
            && |EntriesFor(s.accepted[..n], name, group)| <= FileOf(s.files, name).flushed
  {
    RunInv(group, es);
    GroupStays(group, es);
    hide EntriesFor;
    var s := Run(Init(group), es);
    var n := FlushOf(s, t).n;
    assert FlushOk(s, FlushOf(s, t));
    assert FileOk(FileOf(s.files, name), s.handed, s.safe, name, group);
    assert s.accepted[..n] == s.handed[..n];
    EntriesOfMore(s.handed, n, s.safe, name, group);
    EntriesOfMore(s.handed, n, |s.handed|, name, group);
    assert s.handed[..|s.handed|] == s.handed;
  }

  // What a caller can see: as long as nobody has stopped the logger, a Flush that has returned,
  // for whatever reason, has kept its promise.
  lemma FlushUnlessStopped(group: string, es: seq<Event>, t: Tid, name: string)
    requires var s := Run(Init(group), es); FlushOf(s, t).Returned? && s.state != STOPPED
    ensures var s := Run(Init(group), es); var n := FlushOf(s, t).n;
            && n <= |s.handed| <= |s.accepted|
            && EntriesFor(s.accepted[..n], name, group) <= FileOf(s.files, name).written
            && |EntriesFor(s.accepted[..n], name, group)| <= FileOf(s.files, name).flushed
  {
    hide Step;
    RunInv(group, es);
    var s := Run(Init(group), es);
    assert FlushOk(s, FlushOf(s, t));
    if FlushOf(s, t).byCount { FlushGuarantee(group, es, t, name); }
  }

  // Stopped meanwhile, Flush breaks it: the message that it was called for is not even handed over.
  function StoppedFlush(m: Msg): seq<Event> {
    [Start, Write(m, false, false), Flush(0), Stop, FlushWake(0)]
  }

  lemma StoppedFlushBreaksIt(m: Msg, group: string)
    ensures var s := Run(Init(group), StoppedFlush(m));
            && FlushOf(s, 0) == Returned(false, 1) && s.state == STOPPED && s.accepted == [m] && s.handed == []
  {
    hide FlushFiles, WriteFile, Run;
    var s0, es := Init(group), StoppedFlush(m);
    RunEmpty(s0);
    RunNext(s0, es, 0);
    RunNext(s0, es, 1);
    RunNext(s0, es, 2);
    RunNext(s0, es, 3);
    RunNext(s0, es, 4);
    assert es[..0] == [] && es[..5] == es && [] + [m] == [m];
    var s2 := s0.(state := RUNNING, bg := Begin, active := Buf([m], false), accepted := [m]);
    assert Step(Step(s0, Start), es[1]) == s2;
    var s3 := s2.(active := Buf([m], true), flushes := map[0 := InFlush(0, 1, false)]);
    assert Step(s2, es[2]) == s3;
    assert Step(s3, es[3]) == s3.(state := STOPPED, joining := true);
  }

  // ---------------------------------------------------------------- urgent messages

  // Every message above level 0 that was handed over is flushed in its file.
  ghost predicate UrgentOk(files: map<string, File>, handed: seq<Msg>, group: string) {
    forall k :: 0 <= k < |handed| && handed[k].level > 0 ==>
      var name := RouteOf(handed[k], group).name;
      |EntriesFor(handed[..k + 1], name, group)| <= FileOf(files, name).flushed
  }

  // Flushed lengths only grow.
  ghost predicate FlushedGrow(files: map<string, File>, files': map<string, File>) {
    forall name: string :: FileOf(files, name).flushed <= FileOf(files', name).flushed
  }

  lemma WriteFileGrows(files: map<string, File>, handed: seq<Msg>, safe: nat, m: Msg, group: string)
    requires FilesOk(files, handed, safe, group)
    ensures FlushedGrow(files, WriteFile(files, m, group))
  {
    hide EntriesFor, RouteOf;
    forall name: string ensures FileOf(files, name).flushed <= FileOf(WriteFile(files, m, group), name).flushed {
      assert FileOk(FileOf(files, name), handed, safe, name, group);
    }
  }

  lemma FlushFilesGrow(files: map<string, File>, handed: seq<Msg>, safe: nat, group: string)
    requires FilesOk(files, handed, safe, group)
    ensures FlushedGrow(files, FlushFiles(files))
  {
    hide EntriesFor, RouteOf;
    forall name: string ensures FileOf(files, name).flushed <= FileOf(FlushFiles(files), name).flushed {
      assert FileOk(FileOf(files, name), handed, safe, name, group);
    }
  }

  lemma UrgentWrite(files: map<string, File>, handed: seq<Msg>, safe: nat, m: Msg, group: string)
    requires FilesOk(files, handed, safe, group) && UrgentOk(files, handed, group)
    ensures UrgentOk(WriteFile(files, m, group), handed + [m], group)
  {
    hide EntriesFor, RouteOf, FilesOk;
    WriteFileGrows(files, handed, safe, m, group);
    WriteFileOk(files, handed, safe, m, group);
    var more := handed + [m];
    forall k | 0 <= k < |more| && more[k].level > 0
      ensures var name := RouteOf(more[k], group).name;
              |EntriesFor(more[..k + 1], name, group)| <= FileOf(WriteFile(files, m, group), name).flushed
    {
      if k < |handed| {
        EntriesOfPrefix(handed, m, k + 1);
      } else {
        assert more[..k + 1] == more;
        LastIsWhole(files, handed, safe, m, group);
      }
    }
  }

  lemma LastIsWhole(files: map<string, File>, handed: seq<Msg>, safe: nat, m: Msg, group: string)
    requires FilesOk(WriteFile(files, m, group), handed + [m], safe, group) && m.level > 0
    ensures var name := RouteOf(m, group).name;
            |EntriesFor(handed + [m], name, group)| <= FileOf(WriteFile(files, m, group), name).flushed
  {
    hide EntriesFor, RouteOf;
    var name := RouteOf(m, group).name;
    assert FileOk(FileOf(WriteFile(files, m, group), name), handed + [m], safe, name, group);
  }

  lemma UrgentStep(s: State, e: Event)
    requires Inv(s) && UrgentOk(s.files, s.handed, s.group)
    ensures var r := Step(s, e); UrgentOk(r.files, r.handed, r.group)
  {
    hide FlushInv, FilesOk, UrgentOk, WriteFile, FlushFiles, FlushedGrow;
    if e.Background? && !s.aborted && s.bg.Writing? {
      if s.bg.i < |s.flushing.messages| {
        UrgentWrite(s.files, s.handed, s.safe, s.flushing.messages[s.bg.i], s.group);
      } else if s.flushing.flush {
        FlushFilesGrow(s.files, s.handed, s.safe, s.group);
        UrgentStays(s.files, FlushFiles(s.files), s.handed, s.group);
      }
    }
  }

  lemma UrgentStays(files: map<string, File>, files': map<string, File>, handed: seq<Msg>, group: string)
    requires UrgentOk(files, handed, group) && FlushedGrow(files, files')
    ensures UrgentOk(files', handed, group)
  {
    hide EntriesFor, RouteOf;
  }

  // A message above level 0 is flushed, with all before it in its file, as soon as it is handed over.
  lemma {:induction false} UrgentAreFlushed(group: string, es: seq<Event>)
    ensures var s := Run(Init(group), es); s.group == group && UrgentOk(s.files, s.handed, group)
  {
    hide UrgentOk, Step, Inv;
    GroupStays(group, es);
    if es == [] {
      NothingUrgent(group);
    } else {
      var p := es[..|es| - 1];
      UrgentAreFlushed(group, p);
      RunInv(group, p);
      UrgentStep(Run(Init(group), p), es[|es| - 1]);
    }
  }

  lemma NothingUrgent(group: string)
    ensures UrgentOk(map[], [], group)
  {
  }

  predicate Accepts(s: State, e: Event) {
    !s.aborted && s.state == RUNNING && e.Write? && !e.full
  }

  // The background thread's wait runs out of time.
  predicate TimesOut(s: State, e: Event) {
    !s.aborted && s.bg == Waiting && e == Background(true)
  }

  // How many messages were accepted up to the last one with force_flush, or to the last timeout.
  function ForcedUpTo(group: string, es: seq<Event>): nat {
    if es == [] then 0 else
    var p, e := es[..|es| - 1], es[|es| - 1];
    ForcedNow(Run(Init(group), p), e, ForcedUpTo(group, p))
  }

  function ForcedNow(s: State, e: Event, f: nat): nat {
    if Accepts(s, e) && e.force then |s.accepted| + 1
    else if TimesOut(s, e) then |s.accepted|
    else f
  }

  predicate ForcedOk(s: State, f: nat) {
    && f <= |s.accepted|
    && (s.safe >= f || (s.bg.Writing? && s.flushing.flush && f <= |s.handed| + |Rest(s)|) || s.active.flush)
  }

  lemma ForcedBackground(s: State, timeout: bool, f: nat)
    requires BufferInv(s) && ForcedOk(s, f)
    ensures ForcedOk(BackgroundStep(s, timeout), if timeout && s.bg == Waiting then |s.accepted| else f)
  {
    hide FlushFiles, WriteFile;
  }

  lemma ForcedStep(s: State, e: Event, f: nat)
    requires BufferInv(s) && ForcedOk(s, f)
    ensures ForcedOk(Step(s, e), ForcedNow(s, e, f))
  {
    hide BackgroundStep;
    if e.Background? && !s.aborted { ForcedBackground(s, e.timeout, f); }
  }

  lemma {:induction false} ForcedInv(group: string, es: seq<Event>)
    ensures BufferInv(Run(Init(group), es)) && ForcedOk(Run(Init(group), es), ForcedUpTo(group, es))
  {
    hide Step, ForcedOk, ForcedNow, FlushInv, FilesOk;
    RunInv(group, es);
    if es == [] {
      assert ForcedOk(Init(group), 0) by { NothingForced(group); }
    } else {
      var p := es[..|es| - 1];
      ForcedInv(group, p);
      ForcedStep(Run(Init(group), p), es[|es| - 1], ForcedUpTo(group, p));
    }
  }

  lemma NothingForced(group: string)
    ensures ForcedOk(Init(group), 0)
  {
  }

  // The background thread never waits or ends on a message logged with force_flush, or on one that
  // was there when its wait ran out of time: unless a flush is already asked for, all messages up to
  // the last such one are handed over and flushed.
  lemma ForcedAreFlushed(group: string, es: seq<Event>, name: string)
    ensures var s, f := Run(Init(group), es), ForcedUpTo(group, es);
            !s.active.flush && !s.bg.Writing? ==>
              && f <= |s.handed| <= |s.accepted|
              && |EntriesFor(s.accepted[..f], name, group)| <= FileOf(s.files, name).flushed
  {
    hide EntriesFor, FlushInv;
    ForcedInv(group, es);
    RunInv(group, es);
    GroupStays(group, es);
    var s, f := Run(Init(group), es), ForcedUpTo(group, es);
    if !s.active.flush && !s.bg.Writing? {
      assert FileOk(FileOf(s.files, name), s.handed, s.safe, name, s.group);
      assert s.accepted[..f] == s.handed[..f];
      EntriesOfMore(s.handed, f, s.safe, name, group);
    }
  }

  // ---------------------------------------------------------------- two rounds are needed

  // One message is being handed over when another is accepted and Flush is called.
  function EarlyFlush(m1: Msg, m2: Msg): seq<Event> {
    [Start, Background(false), Write(m1, false, false), Background(false), Write(m2, false, false), Flush(0),
     Background(false), Background(false), Background(false)]
  }

  function Before(m1: Msg, m2: Msg, group: string): State {
    State(RUNNING, Buf([m2], true), Buf([m1], false), Writing(0), 0, map[0 := InFlush(0, 2, false)],
          false, false, map[], group, [m1, m2], [], 0)
  }

  lemma RunNext(s: State, es: seq<Event>, k: nat)
    requires k < |es|
    ensures Run(s, es[..k + 1]) == Step(Run(s, es[..k]), es[k])
  {
    assert es[..k + 1][..k] == es[..k];
  }

  lemma FlushCaughtMidRound(m1: Msg, m2: Msg, group: string)
    ensures Run(Init(group), EarlyFlush(m1, m2)[..6]) == Before(m1, m2, group)
  {
    hide FlushFiles, WriteFile, Run;
    var s0, es := Init(group), EarlyFlush(m1, m2);
    RunEmpty(s0);
    RunNext(s0, es, 0);
    RunNext(s0, es, 1);
    RunNext(s0, es, 2);
    RunNext(s0, es, 3);
    RunNext(s0, es, 4);
    RunNext(s0, es, 5);
    assert es[..0] == [];
    var s2 := s0.(state := RUNNING, bg := Waiting);
    assert Step(Step(s0, Start), Background(false)) == s2;
    assert [] + [m1] == [m1] && [] + [m2] == [m2] && [m1] + [m2] == [m1, m2];
    var s3 := s2.(active := Buf([m1], false), accepted := [m1]);
    assert Step(s2, es[2]) == s3;
    var s4 := s3.(active := EMPTY, flushing := Buf([m1], false), bg := Writing(0));
    assert Step(s3, es[3]) == s4;
    assert Step(s4, es[4]) == s4.(active := Buf([m2], false), accepted := [m1, m2]);
  }

  lemma RunEmpty(s: State)
    ensures Run(s, []) == s
  {
  }

  lemma OneRound(m1: Msg, m2: Msg, group: string)
    ensures var b := Background(false); var r := Step(Step(Step(Before(m1, m2, group), b), b), b);
            FlushOf(r, 0) == InFlush(0, 2, true) && r.flushCount == 1 && r.handed == [m1] && r.safe == 0
  {
    hide FlushFiles, WriteFile;
    var s, b := Before(m1, m2, group), Background(false);
    assert [] + [m1] == [m1];
    var s1 := s.(files := WriteFile(map[], m1, group), handed := [m1], bg := Writing(1));
    assert Step(s, b) == s1;
    var s2 := s1.(flushing := EMPTY, bg := Relock);
    assert Step(s1, b) == s2;
  }

  // After one more round the message is not even handed over: that is why Flush waits for two.
  lemma OneRoundIsNotEnough(m1: Msg, m2: Msg, group: string)
    ensures var s := Run(Init(group), EarlyFlush(m1, m2));
            && FlushOf(s, 0) == InFlush(0, 2, true)
            && s.flushCount == 1
            && s.handed == [m1] && s.safe == 0
  {
    hide Step, Run;
    var s0, es := Init(group), EarlyFlush(m1, m2);
    FlushCaughtMidRound(m1, m2, group);
    RunNext(s0, es, 6);
    RunNext(s0, es, 7);
    RunNext(s0, es, 8);
    assert es[..9] == es;
    OneRound(m1, m2, group);
  }

  // ---------------------------------------------------------------- Stop

  // The only way the process aborts is Start on a started logger or Stop on one that does not
  // run; the checks at the end of Stop never fail.
  lemma ChecksHold(s: State, e: Event)
    requires Inv(s)
    ensures Step(s, e).aborted <==> s.aborted || Misused(s, e)
  {
  }

  // When Stop has joined the thread, both buffers are empty and every accepted message was
  // handed to its file.
  lemma CleanStop(group: string, es: seq<Event>)
    ensures var s := Run(Init(group), es);
            s.bg == Exited ==> s.active == EMPTY && s.flushing == EMPTY && s.handed == s.accepted
  {
    RunInv(group, es);
  }

  // The background thread's own steps until it ends, once the logger is stopped.
  function StopRank(s: State): nat {
    match s.bg
    case NotStarted => 0
    case Begin => AtLoopHead(s.active)
    case Relock => AtLoopHead(s.active)
    case Waiting => |s.active.messages| + 3
    case Writing(i) => |Rest(s)| + 1 + AtLoopHead(s.active)
    case Exited => 0
  }

  function AtLoopHead(active: Buf): nat {
    if Needs(active) then |active.messages| + 3 else 1
  }

  lemma BackgroundRank(s: State, timeout: bool)
    requires BufferInv(s) && s.state == STOPPED && s.bg != Exited
    ensures StopRank(BackgroundStep(s, timeout)) == StopRank(s) - 1
    ensures BackgroundStep(s, timeout).state == STOPPED && BackgroundStep(s, timeout).aborted == s.aborted
  {
    hide FlushFiles, WriteFile;
  }

  lemma OthersKeepRank(s: State, e: Event)
    requires Inv(s) && s.state == STOPPED && !s.aborted && !e.Background? && !e.Start? && !e.Stop?
    ensures StopRank(Step(s, e)) == StopRank(s)
    ensures Step(s, e).state == STOPPED && !Step(s, e).aborted
  {
    ChecksHold(s, e);
  }

  function Backgrounds(es: seq<Event>): nat {
    if es == [] then 0 else Backgrounds(es[..|es| - 1]) + if es[|es| - 1].Background? then 1 else 0
  }

  lemma {:induction false} InvAlong(s: State, es: seq<Event>)
    requires Inv(s)
    ensures Inv(Run(s, es))
  {
    hide Inv;
    if es == [] {
    } else {
      InvAlong(s, es[..|es| - 1]);
      StepInv(Run(s, es[..|es| - 1]), es[|es| - 1]);
    }
  }

  lemma RankZero(s: State)
    requires Inv(s) && s.state == STOPPED
    ensures BufferInv(s)
    ensures StopRank(s) == 0 <==> s.bg == Exited
  {
  }

  // The thread that Stop joins ends after exactly that many of its steps, whatever the other
  // threads do meanwhile: it cannot be kept busy or waiting.
  lemma {:induction false} StopEnds(s: State, es: seq<Event>)
    requires Inv(s) && s.state == STOPPED && !s.aborted
    requires forall i :: 0 <= i < |es| ==> !es[i].Start? && !es[i].Stop?
    ensures var r := Run(s, es); var n := Backgrounds(es);
            && r.state == STOPPED && !r.aborted
            && StopRank(r) == (if n < StopRank(s) then StopRank(s) - n else 0)
            && (r.bg == Exited <==> n >= StopRank(s))
  {
    hide Inv, BufferInv, StopRank, BackgroundStep;
    RankZero(s);
    if es == [] {
    } else {
      var p, e := es[..|es| - 1], es[|es| - 1];
      StopEnds(s, p);
      InvAlong(s, p);
      var q := Run(s, p);
      RankZero(q);
      StepInv(q, e);
      if e.Background? {
        if q.bg == Exited {
          assert BackgroundStep(q, e.timeout) == q by { ExitedStays(q, e.timeout); }
        } else {
          BackgroundRank(q, e.timeout);
        }
      } else {
        OthersKeepRank(q, e);
      }
      RankZero(Run(s, es));
    }
  }

  lemma ExitedStays(s: State, timeout: bool)
    requires s.bg == Exited
    ensures BackgroundStep(s, timeout) == s
  {
  }

  // ---------------------------------------------------------------- Flush is served

  // How far the background thread is from counting a round: whether it still has to swap, and
  // what it has to hand over after that.
  datatype Distance = Distance(swap: bool, rest: nat)

  function RoundDistance(s: State): Distance {
    Distance(s.bg == NotStarted || s.bg == Begin || s.bg == Waiting || s.bg == Exited,
             if s.bg.Writing? then |Rest(s)| + 1 else 0)
  }

  predicate Closer(a: Distance, b: Distance) {
    (!a.swap && b.swap) || (a.swap == b.swap && a.rest < b.rest)
  }

  lemma RoundAdvances(s: State, timeout: bool)
    requires BufferInv(s) && (s.active.flush || s.bg.Writing? || s.bg.Relock?)
    ensures var r := BackgroundStep(s, timeout);
            || r.flushCount == s.flushCount + 1
            || (r.flushCount == s.flushCount && Closer(RoundDistance(r), RoundDistance(s)))
  {
    hide FlushFiles, WriteFile;
    if s.bg.Writing? && s.bg.i < |s.flushing.messages| {
      assert |s.flushing.messages[s.bg.i + 1..]| < |s.flushing.messages[s.bg.i..]|;
    }
  }

  // While a Flush waits that nobody notified yet, every step of the background thread brings it
  // closer to counting a round, or counts one.
  lemma BackgroundAdvances(s: State, t: Tid, timeout: bool)
    requires Inv(s) && FlushOf(s, t).InFlush? && !FlushOf(s, t).notified && !s.aborted
    ensures var r := Step(s, Background(timeout));
            || r.flushCount == s.flushCount + 1
            || (r.flushCount == s.flushCount && Closer(RoundDistance(r), RoundDistance(s)))
  {
    hide BackgroundStep, FilesOk, BufferInv, RoundDistance;
    assert FlushOk(s, FlushOf(s, t));
    RoundAdvances(s, timeout);
  }

  // No other thread can move it away from there, or notify the caller without a counted round.
  lemma OthersDoNotDelay(s: State, e: Event, t: Tid)
    requires Inv(s) && !e.Background? && FlushOf(s, t).InFlush?
    ensures RoundDistance(Step(s, e)) == RoundDistance(s) && Step(s, e).flushCount == s.flushCount
    ensures !(e.FlushWake? && e.t == t) ==> FlushOf(Step(s, e), t) == FlushOf(s, t)
  {
    assert FlushOk(s, FlushOf(s, t));
  }

  // A flush is asked for, or the background thread is in a round.
  predicate Served(s: State) {
    s.active.flush || s.bg.Writing? || s.bg.Relock?
  }

  predicate InRound(s: State) {
    s.bg.Writing? || s.bg.Relock?
  }

  // In a round: the background thread's steps until it is counted. Messages accepted meanwhile
  // do not add to them.
  function StepsLeft(s: State): nat {
    if s.bg.Writing? then |Rest(s)| + 2 else if s.bg.Relock? then 1 else 0
  }

  lemma EntersRound(s: State, timeout: bool)
    requires BufferInv(s) && Served(s) && !s.aborted
    ensures var r := Step(s, Background(timeout));
            r.flushCount > s.flushCount || (r.flushCount == s.flushCount && InRound(r))
  {
    hide FlushFiles, WriteFile;
  }

  lemma BackgroundInRound(s: State, timeout: bool)
    requires BufferInv(s) && InRound(s) && !s.aborted
    ensures var r := Step(s, Background(timeout));
            if StepsLeft(s) == 1 then r.flushCount == s.flushCount + 1
            else r.flushCount == s.flushCount && InRound(r) && StepsLeft(r) == StepsLeft(s) - 1
  {
    hide FlushFiles, WriteFile;
  }

  lemma OthersLetWork(s: State, e: Event)
    requires BufferInv(s) && !e.Background?
    ensures var r := Step(s, e);
            && r.flushCount == s.flushCount
            && (Served(s) ==> Served(r)) && (InRound(s) ==> InRound(r) && StepsLeft(r) == StepsLeft(s))
  {
    hide Step, Rest;
    OthersKeepRound(s, e);
    if Step(s, e).bg == s.bg { RestIs(s, Step(s, e)); }
  }

  lemma OthersKeepRound(s: State, e: Event)
    requires BufferInv(s) && !e.Background?
    ensures var r := Step(s, e);
            && r.flushCount == s.flushCount
            && (r.bg == s.bg || s.bg == NotStarted) && r.flushing == s.flushing
            && (s.active.flush ==> r.active.flush)
  {
    hide Rest;
  }

  lemma RestIs(s: State, r: State)
    requires r.flushing == s.flushing && r.bg == s.bg
    ensures Rest(r) == Rest(s)
  {
  }

  lemma StepCounts(s: State, e: Event)
    ensures Step(s, e).flushCount >= s.flushCount && (s.aborted ==> Step(s, e).aborted)
  {
    hide FlushFiles, WriteFile;
  }

  lemma BuffersKnown(s: State)
    requires Inv(s)
    ensures BufferInv(s)
  {
  }

  // Once a flush is asked for, the background thread cannot fall asleep or end before it has
  // counted a round.
  lemma {:induction false} StaysServed(s: State, es: seq<Event>)
    requires Inv(s) && Served(s) && !Run(s, es).aborted
    ensures var r := Run(s, es); Inv(r) && r.flushCount >= s.flushCount && (r.flushCount > s.flushCount || Served(r))
  {
    hide Inv, Step, Served, InRound;
    if es == [] {
    } else {
      var p, e := es[..|es| - 1], es[|es| - 1];
      var q := Run(s, p);
      StepCounts(q, e);
      StaysServed(s, p);
      StepInv(q, e);
      BuffersKnown(q);
      if e.Background? && q.flushCount == s.flushCount {
        EntersRound(q, e.timeout);
        RoundServes(Step(q, e));
      } else if !e.Background? {
        OthersLetWork(q, e);
      }
    }
  }

  lemma RoundServes(s: State)
    ensures InRound(s) ==> Served(s)
  {
  }

  // A round is counted after exactly the steps that were left, whatever the other threads do.
  lemma {:induction false} RoundEnds(s: State, es: seq<Event>)
    requires Inv(s) && InRound(s) && !Run(s, es).aborted
    ensures var r := Run(s, es);
            && Inv(r) && r.flushCount >= s.flushCount
            && (Backgrounds(es) < StepsLeft(s) ==>
                  r.flushCount == s.flushCount && InRound(r) && StepsLeft(r) == StepsLeft(s) - Backgrounds(es))
            && (Backgrounds(es) >= StepsLeft(s) ==> r.flushCount > s.flushCount)
  {
    hide Inv, Step, InRound, StepsLeft;
    SomeLeft(s);
    if es == [] {
    } else {
      var p, e := es[..|es| - 1], es[|es| - 1];
      var q := Run(s, p);
      StepCounts(q, e);
      RoundEnds(s, p);
      StepInv(q, e);
      BuffersKnown(q);
      if e.Background? {
        if Backgrounds(p) < StepsLeft(s) { BackgroundInRound(q, e.timeout); }
      } else {
        OthersLetWork(q, e);
      }
    }
  }

  lemma SomeLeft(s: State)
    ensures InRound(s) ==> StepsLeft(s) >= 1
  {
  }

  // After one of its steps in the run, the background thread makes as many as its round then needs.
  ghost predicate EnoughForRound(s: State, es: seq<Event>) {
    exists k :: 0 <= k < |es| && es[k].Background? && Backgrounds(es[k + 1..]) >= StepsLeft(Run(s, es[..k + 1]))
  }

  lemma {:induction false} RunConcat(s: State, es: seq<Event>, more: seq<Event>)
    ensures Run(s, es + more) == Run(Run(s, es), more)
  {
    hide Step;
    if more == [] {
      assert es + more == es;
    } else {
      RunConcat(s, es, more[..|more| - 1]);
      assert (es + more)[..|es + more| - 1] == es + more[..|more| - 1];
    }
  }

  lemma TwoParts(es: seq<Event>, k: nat)
    requires k <= |es|
    ensures es[..k] + es[k..] == es
  {
  }

  lemma RoundIsCounted(s: State, es: seq<Event>)
    requires Inv(s) && Served(s) && EnoughForRound(s, es) && !Run(s, es).aborted
    ensures Inv(Run(s, es)) && Run(s, es).flushCount > s.flushCount
  {
    hide Inv, Step, Served, InRound, StepsLeft, Run;
    var k :| 0 <= k < |es| && es[k].Background? && Backgrounds(es[k + 1..]) >= StepsLeft(Run(s, es[..k + 1]));
    var p, later := es[..k], es[k + 1..];
    var q, m := Run(s, p), Run(s, es[..k + 1]);
    RunNext(s, es, k);
    TwoParts(es, k + 1);
    RunConcat(s, es[..k + 1], later);
    NotAborted(m, later);
    StepCounts(q, es[k]);
    StaysServed(s, p);
    StepInv(q, es[k]);
    BuffersKnown(q);
    if q.flushCount == s.flushCount { EntersRound(q, es[k].timeout); }
    if m.flushCount == s.flushCount { RoundEnds(m, later); } else { CountsOn(m, later); }
  }

  lemma {:induction false} CountsOn(s: State, es: seq<Event>)
    requires Inv(s)
    ensures Inv(Run(s, es)) && Run(s, es).flushCount >= s.flushCount
  {
    hide Inv, Step;
    if es == [] {
    } else {
      var p, e := es[..|es| - 1], es[|es| - 1];
      CountsOn(s, p);
      StepInv(Run(s, p), e);
      StepCounts(Run(s, p), e);
    }
  }

  // t is still in the Flush it was in, or has returned from it.
  predicate SameFlush(s: State, r: State, t: Tid) {
    FlushOf(s, t).InFlush? ==>
      var pc := FlushOf(r, t); pc.Returned? || (pc.InFlush? && pc.orig == FlushOf(s, t).orig)
  }

  lemma FlushGoesOn(s: State, e: Event, t: Tid)
    requires e != Flush(t)
    ensures SameFlush(s, Step(s, e), t) && (FlushOf(s, t).Returned? ==> FlushOf(Step(s, e), t).Returned?)
  {
    if !(e.FlushWake? && e.t == t) && !(e.Flush? && e.t == t) {
      hide Step;
      OthersAfter(s, e, t);
    }
  }

  lemma {:induction false} FlushGoesOnAlong(s: State, es: seq<Event>, t: Tid)
    requires Flush(t) !in es && (FlushOf(s, t).InFlush? || FlushOf(s, t).Returned?)
    ensures SameFlush(s, Run(s, es), t) && (FlushOf(s, t).Returned? ==> FlushOf(Run(s, es), t).Returned?)
  {
    hide Step;
    if es == [] {
    } else {
      FlushGoesOnAlong(s, es[..|es| - 1], t);
      FlushGoesOn(Run(s, es[..|es| - 1]), es[|es| - 1], t);
    }
  }

  // Waking up, a caller returns or asks for a flush again.
  lemma WakesUp(s: State, t: Tid)
    requires FlushOf(s, t).InFlush? && !s.aborted
    ensures var r := Step(s, FlushWake(t));
            && r.flushCount == s.flushCount
            && (FlushOf(s, t).orig + 2 <= s.flushCount ==> FlushOf(r, t).Returned?)
            && (FlushOf(r, t).Returned? || (Served(r) && FlushOf(r, t).InFlush? &&
                FlushOf(r, t).orig == FlushOf(s, t).orig))
  {
  }

  // Flush returns: over any interleaving, a waiting caller is back once the background thread had
  // the steps of a round and the caller woke up, twice.
  lemma FlushReturns(s: State, t: Tid, es1: seq<Event>, es2: seq<Event>)
    requires Inv(s) && FlushOf(s, t).InFlush? && !FlushOf(s, t).notified
    requires Flush(t) !in es1 && Flush(t) !in es2
    requires var s2 := Step(Run(s, es1), FlushWake(t));
             EnoughForRound(s, es1) && EnoughForRound(s2, es2) && !Run(s2, es2).aborted
    ensures var s2 := Step(Run(s, es1), FlushWake(t));
            FlushOf(Step(Run(s2, es2), FlushWake(t)), t).Returned?
  {
    hide Inv, Step, Run, Served, SameFlush, EnoughForRound;
    var s1 := Run(s, es1);
    var s2 := Step(s1, FlushWake(t));
    var s3 := Run(s2, es2);
    NotAborted(s2, es2);
    StepCounts(s1, FlushWake(t));
    UnnotifiedIsServed(s, t);
    RoundIsCounted(s, es1);
    StepInv(s1, FlushWake(t));
    FlushSame(s, es1, t);
    if FlushOf(s1, t).InFlush? {
      WakesUp(s1, t);
    } else {
      FlushGoesOn(s1, FlushWake(t), t);
    }
    FlushSame(s2, es2, t);
    if FlushOf(s2, t).InFlush? {
      RoundIsCounted(s2, es2);
    }
    if FlushOf(s3, t).InFlush? {
      WakesUp(s3, t);
    } else {
      FlushGoesOn(s3, FlushWake(t), t);
    }
  }

  lemma FlushSame(s: State, es: seq<Event>, t: Tid)
    requires Flush(t) !in es && (FlushOf(s, t).InFlush? || FlushOf(s, t).Returned?)
    ensures var pc := FlushOf(Run(s, es), t);
            || pc.Returned?
            || (pc.InFlush? && FlushOf(s, t).InFlush? && pc.orig == FlushOf(s, t).orig)
  {
    FlushGoesOnAlong(s, es, t);
  }

  lemma UnnotifiedIsServed(s: State, t: Tid)
    requires Inv(s) && FlushOf(s, t).InFlush? && !FlushOf(s, t).notified
    ensures Served(s) && FlushOf(s, t).orig <= s.flushCount
  {
    assert FlushOk(s, FlushOf(s, t));
  }

  lemma {:induction false} NotAborted(s: State, es: seq<Event>)
    requires !Run(s, es).aborted
    ensures !s.aborted
  {
    hide Step;
    if es == [] {
    } else {
      StepCounts(Run(s, es[..|es| - 1]), es[|es| - 1]);
      NotAborted(s, es[..|es| - 1]);
    }
  }
}
