/**
 The double-buffered logger of cyber/logger/async_logger.cpp: threads that log and flush, one
 that stops the logger, and the background thread. One step is one stretch of code under the
 mutex, or one file operation of the background thread.

 `accepted`, `handed` and `safe` are history: the messages that entered a buffer, those handed
 to their file, and how many of these the last flush of all files covered.
*/
module AsyncLoggerSpec {
  import opened Common
  import opened LoggerUtil

  datatype RunState = INITTED | RUNNING | STOPPED

  datatype Msg = Msg(ts: int, message: string, level: int)

  datatype Buf = Buf(messages: seq<Msg>, flush: bool)

  // What a module's file was given, and how much of it was flushed.
  datatype Entry = Entry(ts: int, text: string)
  datatype File = File(written: seq<Entry>, flushed: nat)

  // The background thread: before its first lock, waiting for work, handing over message i of
  // the flushing buffer, about to lock again, or gone.
  datatype BgPc = NotStarted | Begin | Waiting | Writing(i: nat) | Relock | Exited

  // A caller of Flush: `n` messages were accepted and `orig` rounds were counted when it took
  // the lock.
  datatype FlushPc =
    | Away
    | InFlush(orig: nat, n: nat, notified: bool)
    | Returned(byCount: bool, n: nat)

  datatype State = State(
    state: RunState, active: Buf, flushing: Buf, bg: BgPc, flushCount: nat,
    flushes: map<Tid, FlushPc>, joining: bool, aborted: bool, files: map<string, File>, group: string,
    accepted: seq<Msg>, handed: seq<Msg>, safe: nat)

  // `full` is the unlocked look at the buffer size, which may be outdated; `timeout` says why a
  // wait of the background thread ended.
  datatype Event =
    | Start
    | Write(m: Msg, force: bool, full: bool)
    | Flush(t: Tid)
    | FlushWake(t: Tid)
    | Stop
    | Join
    | Background(timeout: bool)

  const EMPTY := Buf([], false)

  predicate Needs(b: Buf) {
    b.flush || b.messages != []
  }

  function FlushOf(s: State, t: Tid): FlushPc {
    if t in s.flushes then s.flushes[t] else Away
  }

  function FileOf(files: map<string, File>, name: string): File {
    if name in files then files[name] else File([], 0)
  }

  function Init(group: string): State {
    State(INITTED, EMPTY, EMPTY, NotStarted, 0, map[], false, false, map[], group, [], [], 0)
  }

  // ---------------------------------------------------------------- the background thread

  // The heads of both loops, under the mutex.
  function Outer(s: State): State {
    if s.state == RUNNING || Needs(s.active) then Inner(s) else s.(bg := Exited)
  }

  function Inner(s: State): State {
    if !Needs(s.active) && s.state == RUNNING then s.(bg := Waiting)
    else s.(active := s.flushing, flushing := s.active, bg := Writing(0))
  }

  function RouteOf(m: Msg, group: string): Routed {
    Route(m.message, "", group)
  }

  // A message is appended to its module's file; above level 0 that file is flushed at once.
  function WriteFile(files: map<string, File>, m: Msg, group: string): map<string, File> {
    var to := RouteOf(m, group);
    var written := FileOf(files, to.name).written + [Entry(m.ts, to.text)];
    files[to.name := File(written, if m.level > 0 then |written| else FileOf(files, to.name).flushed)]
  }

  function FlushFiles(files: map<string, File>): map<string, File> {
    map name | name in files :: File(files[name].written, |files[name].written|)
  }

  function HandOver(s: State, i: nat): State {
    if i < |s.flushing.messages| then
      var m := s.flushing.messages[i];
      s.(files := WriteFile(s.files, m, s.group), handed := s.handed + [m], bg := Writing(i + 1))
    else
      s.(files := if s.flushing.flush then FlushFiles(s.files) else s.files,
         safe := if s.flushing.flush then |s.handed| else s.safe,
         flushing := EMPTY, bg := Relock)
  }

  function Notified(pc: FlushPc): FlushPc {
    if pc.InFlush? then pc.(notified := true) else pc
  }

  function Counted(s: State): State {
    s.(flushCount := s.flushCount + 1, flushes := map t | t in s.flushes :: Notified(s.flushes[t]))
  }

  function BackgroundStep(s: State, timeout: bool): State {
    match s.bg
    case NotStarted => s
    case Begin => Outer(s)
    case Waiting => Inner(if timeout then s.(active := s.active.(flush := true)) else s)
    case Writing(i) => HandOver(s, i)
    case Relock => Outer(Counted(s))
    case Exited => s
  }

  // ---------------------------------------------------------------- the other threads

  function Add(b: Buf, m: Msg, force: bool): Buf {
    Buf(b.messages + [m], b.flush || force)
  }

  // The test of the loop in Flush, and the wait.
  function FlushLoop(s: State, t: Tid, orig: nat, n: nat): State {
    if s.flushCount < orig + 2 && s.state == RUNNING
    then s.(active := s.active.(flush := true), flushes := s.flushes[t := InFlush(orig, n, false)])
    else s.(flushes := s.flushes[t := Returned(s.flushCount >= orig + 2, n)])
  }

  // Start and Stop check the state and abort the process on the wrong one; Stop checks at the
  // end that both buffers are empty.
  predicate Misused(s: State, e: Event) {
    (e.Start? && s.state != INITTED) || (e.Stop? && s.state != RUNNING)
  }

  function Live(s: State, e: Event): State {
    match e
    case Start => s.(state := RUNNING, bg := Begin)
    case Write(m, force, full) =>
      if full || s.state != RUNNING then s
      else s.(active := Add(s.active, m, force), accepted := s.accepted + [m])
    case Flush(t) =>
      if FlushOf(s, t).InFlush? then s
      else if s.state != RUNNING then s.(flushes := s.flushes[t := Returned(false, |s.accepted|)])
      else FlushLoop(s, t, s.flushCount, |s.accepted|)
    case FlushWake(t) =>
      if FlushOf(s, t).InFlush? then FlushLoop(s, t, FlushOf(s, t).orig, FlushOf(s, t).n) else s
    case Stop => s.(state := STOPPED, joining := true)
    case Join =>
      if s.joining && s.bg == Exited
      then s.(joining := false, aborted := !(s.active.messages == [] && s.flushing.messages == []))
      else s
    case Background(timeout) => BackgroundStep(s, timeout)
  }

  function Step(s: State, e: Event): State {
    if s.aborted then s
    else if Misused(s, e) then s.(aborted := true)
    else Live(s, e)
  }

  function Run(s: State, es: seq<Event>): State {
    if es == [] then s else Step(Run(s, es[..|es| - 1]), es[|es| - 1])
  }

  // ---------------------------------------------------------------- invariant

  // What is still to be handed over of the buffer the background thread took.
  function Rest(s: State): seq<Msg> {
    if s.bg.Writing? && s.bg.i <= |s.flushing.messages| then s.flushing.messages[s.bg.i..] else []
  }

  predicate BufferInv(s: State) {
    && (s.bg.Writing? ==> s.bg.i <= |s.flushing.messages|)
    && (!s.bg.Writing? ==> s.flushing == EMPTY)
    && (s.bg == NotStarted <==> s.state == INITTED)
    && (s.bg == NotStarted || s.bg == Exited ==> s.active == EMPTY)
    && (s.bg == NotStarted ==> s.accepted == [])
    && (s.bg == Exited || s.joining ==> s.state == STOPPED)
    && s.accepted == s.handed + Rest(s) + s.active.messages
    && s.safe <= |s.handed|
  }

  // A waiting Flush: its messages are flushed already, or the background thread has them in a
  // buffer that it will flush after, or they will be in such a buffer.
  predicate WillBeSafe(s: State, orig: nat, n: nat) {
    || s.safe >= n
    || (s.bg.Writing? && s.flushing.flush && n <= |s.handed| + |Rest(s)| && s.flushCount <= orig + 1)
    || (s.active.flush && s.flushCount == orig)
  }

  predicate FlushOk(s: State, pc: FlushPc) {
    match pc
    case Away => true
    case InFlush(orig, n, notified) =>
      && orig <= s.flushCount && n <= |s.accepted| && s.bg != NotStarted
      && WillBeSafe(s, orig, n)
      && (!notified ==> s.active.flush || s.bg.Writing? || s.bg.Relock?)
    case Returned(byCount, n) => if byCount then s.safe >= n else n == 0 || s.state == STOPPED
  }

  ghost predicate FlushInv(s: State) {
    forall t: Tid :: FlushOk(s, FlushOf(s, t))
  }

  // The messages for one module, as its file gets them.
  function EntriesFor(ms: seq<Msg>, name: string, group: string): seq<Entry> {
    if ms == [] then [] else
    var m := ms[|ms| - 1];
    var to := RouteOf(m, group);
    EntriesFor(ms[..|ms| - 1], name, group) + if to.name == name then [Entry(m.ts, to.text)] else []
  }

  predicate FileOk(f: File, handed: seq<Msg>, safe: nat, name: string, group: string)
    requires safe <= |handed|
  {
    && f.written == EntriesFor(handed, name, group)
    && |EntriesFor(handed[..safe], name, group)| <= f.flushed <= |f.written|
  }

  ghost predicate FilesOk(files: map<string, File>, handed: seq<Msg>, safe: nat, group: string) {
    && safe <= |handed|
    && forall name: string :: FileOk(FileOf(files, name), handed, safe, name, group)
  }

  ghost predicate Inv(s: State) {
    BufferInv(s) && FlushInv(s) && FilesOk(s.files, s.handed, s.safe, s.group)
  }

  // ---------------------------------------------------------------- files

  lemma EntriesOfPrefix(ms: seq<Msg>, m: Msg, k: nat)
    requires k <= |ms|
    ensures (ms + [m])[..k] == ms[..k]
  {
  }

  lemma EntriesGrow(ms: seq<Msg>, m: Msg, name: string, group: string)
    ensures EntriesFor(ms + [m], name, group) == EntriesFor(ms, name, group) +
              if RouteOf(m, group).name == name then [Entry(m.ts, RouteOf(m, group).text)] else []
  {
    assert (ms + [m])[..|ms|] == ms;
  }

  lemma WriteFileOk(files: map<string, File>, handed: seq<Msg>, safe: nat, m: Msg, group: string)
    requires FilesOk(files, handed, safe, group)
    ensures FilesOk(WriteFile(files, m, group), handed + [m], safe, group)
  {
    hide EntriesFor, RouteOf;
    forall name: string
      ensures FileOk(FileOf(WriteFile(files, m, group), name), handed + [m], safe, name, group)
    {
      assert FileOk(FileOf(files, name), handed, safe, name, group);
      EntriesGrow(handed, m, name, group);
      EntriesOfPrefix(handed, m, safe);
    }
  }

  lemma FlushFilesOk(files: map<string, File>, handed: seq<Msg>, safe: nat, group: string)
    requires FilesOk(files, handed, safe, group)
    ensures FilesOk(FlushFiles(files), handed, |handed|, group)
  {
    hide EntriesFor;
    assert handed[..|handed|] == handed;
    forall name: string
      ensures FileOk(FileOf(FlushFiles(files), name), handed, |handed|, name, group)
    {
      assert FileOk(FileOf(files, name), handed, safe, name, group);
    }
  }

  // ---------------------------------------------------------------- buffers

  // Between two buffers nothing is lost: the rest and the active buffer together stay the same
  // when the empty flushing buffer is swapped for the active one.
  lemma SwapKeeps(s: State)
    requires BufferInv(s) && !s.bg.Writing? && s.bg != NotStarted && s.bg != Exited
    ensures BufferInv(Inner(s)) && BufferInv(Outer(s))
  {
    assert s.active.messages[0..] == s.active.messages;
  }

  lemma OneMoreHanded(handed: seq<Msg>, ms: seq<Msg>, i: nat, active: seq<Msg>)
    requires i < |ms|
    ensures handed + ms[i..] + active == handed + [ms[i]] + ms[i + 1..] + active
  {
    assert ms[i..] == [ms[i]] + ms[i + 1..];
  }

  lemma HandOverKeeps(s: State, i: nat)
    requires BufferInv(s) && s.bg == Writing(i)
    ensures BufferInv(HandOver(s, i))
  {
    hide FlushFiles, WriteFile;
    if i < |s.flushing.messages| {
      OneMoreHanded(s.handed, s.flushing.messages, i, s.active.messages);
    } else {
      NothingLeft(s.handed, s.flushing.messages, s.active.messages);
    }
  }

  lemma NothingLeft(handed: seq<Msg>, ms: seq<Msg>, active: seq<Msg>)
    ensures handed + ms[|ms|..] + active == handed + [] + active
  {
  }

  lemma BufferStep(s: State, e: Event)
    requires BufferInv(s)
    ensures BufferInv(Step(s, e))
  {
    if e.Background? && !s.aborted {
      hide BufferInv, Inner, Outer, HandOver;
      match s.bg {
        case NotStarted | Exited =>
        case Begin => SwapKeeps(s);
        case Waiting => TimeoutKeeps(s, e.timeout);
        case Writing(i) => HandOverKeeps(s, i);
        case Relock => CountKeeps(s);
      }
    } else {
      OthersKeepBuffers(s, e);
    }
  }

  lemma TimeoutKeeps(s: State, timeout: bool)
    requires BufferInv(s) && s.bg == Waiting
    ensures BufferInv(BackgroundStep(s, timeout))
  {
    SwapKeeps(if timeout then s.(active := s.active.(flush := true)) else s);
  }

  lemma CountKeeps(s: State)
    requires BufferInv(s) && s.bg == Relock
    ensures BufferInv(Outer(Counted(s)))
  {
    SwapKeeps(Counted(s));
  }

  lemma OthersKeepBuffers(s: State, e: Event)
    requires BufferInv(s) && (e.Background? ==> s.aborted)
    ensures BufferInv(Step(s, e))
  {
    if e.Write? && !s.aborted {
      assert s.handed + Rest(s) + s.active.messages + [e.m] == s.handed + Rest(s) + (s.active.messages + [e.m]);
    }
  }

  // ---------------------------------------------------------------- waiting flushes

  // What happens to a caller of Flush that does nothing itself in a step.
  function After(s: State, e: Event, pc: FlushPc): FlushPc {
    if e.Background? && s.bg.Relock? && !s.aborted then Notified(pc) else pc
  }

  lemma OthersAfter(s: State, e: Event, t: Tid)
    requires !((e.Flush? || e.FlushWake?) && e.t == t)
    ensures FlushOf(Step(s, e), t) == After(s, e, FlushOf(s, t))
  {
  }

  lemma HandOverKeepsFlush(s: State, i: nat, pc: FlushPc)
    requires BufferInv(s) && FlushOk(s, pc) && s.bg == Writing(i)
    ensures FlushOk(HandOver(s, i), pc)
  {
  }

  lemma LoopHeadKeepsFlush(s: State, pc: FlushPc)
    requires BufferInv(s) && FlushOk(s, pc) && (s.bg == Begin || s.bg == Waiting)
    ensures FlushOk(Inner(s), pc) && FlushOk(Outer(s), pc)
  {
  }

  // Counting a round uses up one of the two rounds that a caller waits for.
  lemma CountKeepsFlush(s: State, pc: FlushPc)
    requires BufferInv(s) && FlushOk(s, pc) && s.bg == Relock
    ensures FlushOk(Outer(Counted(s)), Notified(pc))
  {
  }

  lemma BackgroundKeepsFlush(s: State, timeout: bool, pc: FlushPc)
    requires BufferInv(s) && FlushOk(s, pc)
    ensures FlushOk(BackgroundStep(s, timeout), if s.bg.Relock? then Notified(pc) else pc)
  {
    hide Inner, Outer, HandOver, Counted, BufferInv, FlushOk;
    match s.bg {
      case NotStarted | Exited =>
      case Begin => BeginKeepsFlush(s, pc);
      case Waiting => TimeoutKeepsFlush(s, timeout, pc);
      case Writing(i) => HandOverKeepsFlush(s, i, pc);
      case Relock => CountKeepsFlush(s, pc);
    }
  }

  lemma BeginKeepsFlush(s: State, pc: FlushPc)
    requires BufferInv(s) && FlushOk(s, pc) && s.bg == Begin
    ensures FlushOk(Outer(s), pc)
  {
    LoopHeadKeepsFlush(s, pc);
  }

  lemma TimeoutKeepsFlush(s: State, timeout: bool, pc: FlushPc)
    requires BufferInv(s) && FlushOk(s, pc) && s.bg == Waiting
    ensures FlushOk(BackgroundStep(s, timeout), pc)
  {
    LoopHeadKeepsFlush(if timeout then s.(active := s.active.(flush := true)) else s, pc);
  }

  lemma FlushStays(s: State, e: Event, pc: FlushPc)
    requires BufferInv(s) && FlushOk(s, pc)
    ensures FlushOk(Step(s, e), After(s, e, pc))
  {
    hide BackgroundStep;
    if e.Background? && !s.aborted {
      BackgroundKeepsFlush(s, e.timeout, pc);
    }
  }

  lemma OwnFlush(s: State, e: Event)
    requires BufferInv(s) && FlushInv(s) && (e.Flush? || e.FlushWake?)
    ensures FlushOk(Step(s, e), FlushOf(Step(s, e), e.t))
  {
    assert FlushOk(s, FlushOf(s, e.t));
  }

  lemma FlushStep(s: State, e: Event)
    requires BufferInv(s) && FlushInv(s)
    ensures FlushInv(Step(s, e))
  {
    hide BufferInv, FlushOk, Step;
    forall t: Tid ensures FlushOk(Step(s, e), FlushOf(Step(s, e), t)) {
      assert FlushOk(s, FlushOf(s, t));
      if (e.Flush? || e.FlushWake?) && e.t == t {
        OwnFlush(s, e);
      } else {
        OthersAfter(s, e, t);
        FlushStays(s, e, FlushOf(s, t));
      }
    }
  }

  // ---------------------------------------------------------------- all steps

  lemma FileStep(s: State, e: Event)
    requires BufferInv(s) && FilesOk(s.files, s.handed, s.safe, s.group)
    ensures var r := Step(s, e); FilesOk(r.files, r.handed, r.safe, r.group)
  {
    hide FilesOk;
    if e.Background? && !s.aborted && s.bg.Writing? {
      if s.bg.i < |s.flushing.messages| {
        WriteFileOk(s.files, s.handed, s.safe, s.flushing.messages[s.bg.i], s.group);
      } else if s.flushing.flush {
        FlushFilesOk(s.files, s.handed, s.safe, s.group);
      }
    }
  }

  lemma StepInv(s: State, e: Event)
    requires Inv(s)
    ensures Inv(Step(s, e))
  {
    hide BufferInv, FlushInv, FilesOk, Step;
    BufferStep(s, e);
    FlushStep(s, e);
    FileStep(s, e);
  }

  lemma InitInv(group: string)
    ensures Inv(Init(group))
  {
    assert [] + [] + [] == Init(group).accepted;
  }

  lemma {:induction false} RunInv(group: string, es: seq<Event>)
    ensures Inv(Run(Init(group), es))
  {
    hide Inv;
    if es == [] {
      InitInv(group);
    } else {
      RunInv(group, es[..|es| - 1]);
      StepInv(Run(Init(group), es[..|es| - 1]), es[|es| - 1]);
    }
  }
}
