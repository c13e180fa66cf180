/**
 What a user of the logger can rely on, said from the events of a run and the texts of its messages:
 what is accepted, what the files contain, what Flush has done, and that messages get out.
*/
module AsyncLoggerPromises {
  import opened Common
  import opened LoggerUtil
  import opened AsyncLoggerSpec
  import opened AsyncLoggerTheorems

  // ---------------------------------------------------------------- what is accepted

  // The logger as its user sees it; Start and Stop at the wrong time end the process.
  datatype Life = NotYet | Runs | Stops | Died

  function LifeAfter(es: seq<Event>): Life {
    if es == [] then NotYet else
    var life := LifeAfter(es[..|es| - 1]);
    match es[|es| - 1]
    case Start => if life == NotYet then Runs else Died
    case Stop => if life == Runs then Stops else Died
    case _ => life
  }

  // The messages that were logged while the logger ran and the buffer did not look full.
  function Logged(es: seq<Event>): seq<Msg> {
    if es == [] then [] else
    var p, e := es[..|es| - 1], es[|es| - 1];
    Logged(p) + if e.Write? && !e.full && LifeAfter(p) == Runs then [e.m] else []
  }

  predicate Lives(s: State, life: Life) {
    match life
    case NotYet => !s.aborted && s.state == INITTED
    case Runs => !s.aborted && s.state == RUNNING
    case Stops => !s.aborted && s.state == STOPPED
    case Died => s.aborted
  }

  lemma StepLives(s: State, e: Event, life: Life)
    requires Inv(s) && Lives(s, life)
    ensures Lives(Step(s, e),
                  match e
                  case Start => if life == NotYet then Runs else Died
                  case Stop => if life == Runs then Stops else Died
                  case _ => life)
    ensures Step(s, e).accepted == s.accepted + if e.Write? && !e.full && life == Runs then [e.m] else []
  {
    hide FlushFiles, WriteFile, Inv;
    ChecksHold(s, e);
  }

  // In every run the accepted messages are exactly those, in the order in which they were logged.
  lemma {:induction false} AcceptedAreLogged(group: string, es: seq<Event>)
    ensures var s := Run(Init(group), es); Lives(s, LifeAfter(es)) && s.accepted == Logged(es)
  {
    hide Step, Inv, Lives;
    if es == [] {
      NotStartedYet(group);
    } else {
      var p := es[..|es| - 1];
      AcceptedAreLogged(group, p);
      RunInv(group, p);
      StepLives(Run(Init(group), p), es[|es| - 1], LifeAfter(p));
    }
  }

  lemma NotStartedYet(group: string)
    ensures Lives(Init(group), NotYet)
  {
  }

  // ---------------------------------------------------------------- what the files contain

  // What the file of a module gets of some messages.
  ghost function Meant(ms: seq<Msg>, name: string, group: string): seq<Entry> {
    if ms == [] then [] else
    var m := ms[|ms| - 1];
    Meant(ms[..|ms| - 1], name, group)
    + if ModuleOf(m.message, group) == name then [Entry(m.ts, WithoutBracket(m.message))] else []
  }

  lemma {:induction false} EntriesAreMeant(ms: seq<Msg>, name: string, group: string)
    ensures EntriesFor(ms, name, group) == Meant(ms, name, group)
  {
    hide Route, ModuleOf, WithoutBracket;
    if ms == [] {
    } else {
      EntriesAreMeant(ms[..|ms| - 1], name, group);
      RouteIsMeant(ms[|ms| - 1].message, group);
    }
  }

  // In every run the file of each module contains, in the order in which they were logged, exactly
  // the handed-over messages that name it in their first bracket, without that bracket; the process
  // group's file also gets those without one.
  lemma FilesAsMeant(group: string, es: seq<Event>, name: string)
    ensures var s := Run(Init(group), es);
            && |s.handed| <= |Logged(es)|
            && FileOf(s.files, name).written == Meant(Logged(es)[..|s.handed|], name, group)
  {
    hide Run, Init, EntriesFor, Meant;
    AcceptedAreLogged(group, es);
    FilesByModule(group, es, name);
    var s := Run(Init(group), es);
    EntriesAreMeant(s.accepted[..|s.handed|], name, group);
  }

  // Handing over a message appends its text to one file and changes no other.
  lemma WriteGoesThere(files: map<string, File>, m: Msg, group: string)
    ensures var to, files' := ModuleOf(m.message, group), WriteFile(files, m, group);
            var f, f' := FileOf(files, to), FileOf(files', to);
            && f'.written == f.written + [Entry(m.ts, WithoutBracket(m.message))]
            && f'.flushed == (if m.level > 0 then |f'.written| else f.flushed)
            && forall other: string :: other != to ==> FileOf(files', other) == FileOf(files, other)
  {
    hide Route, ModuleOf, WithoutBracket;
    RouteIsMeant(m.message, group);
  }

  // The same of the step that hands over a message with a module name in brackets ...
  lemma HandsOverToModule(s: State, i: nat, prefix: string, name: string, rest: string, timeout: bool)
    requires !s.aborted && s.bg == Writing(i) && i < |s.flushing.messages|
    requires '[' !in prefix && ']' !in name && s.flushing.messages[i].message == prefix + "[" + name + "]" + rest
    ensures var m, r := s.flushing.messages[i], Step(s, Background(timeout));
            var to := if name == "" then s.group else name;
            && FileOf(r.files, to).written == FileOf(s.files, to).written + [Entry(m.ts, prefix + rest)]
            && (forall other: string :: other != to ==> FileOf(r.files, other) == FileOf(s.files, other))
            && r.handed == s.handed + [m] && r.bg == Writing(i + 1)
  {
    hide WriteFile, FileOf, FlushFiles;
    WriteGoesThere(s.files, s.flushing.messages[i], s.group);
    OneReading(prefix, name, rest, s.group);
  }

  // ... and without one.
  lemma HandsOverToGroup(s: State, i: nat, timeout: bool)
    requires !s.aborted && s.bg == Writing(i) && i < |s.flushing.messages|
    requires !Bracketed(s.flushing.messages[i].message)
    ensures var m, r := s.flushing.messages[i], Step(s, Background(timeout));
            && FileOf(r.files, s.group).written == FileOf(s.files, s.group).written + [Entry(m.ts, m.message)]
            && (forall other: string :: other != s.group ==> FileOf(r.files, other) == FileOf(s.files, other))
            && r.handed == s.handed + [m] && r.bg == Writing(i + 1)
  {
    hide WriteFile, FileOf, FlushFiles;
    WriteGoesThere(s.files, s.flushing.messages[i], s.group);
  }

  // After the last message of a round every file is flushed to its end if that was asked for, and
  // none is touched if not; the buffer is empty again.
  lemma EndsRound(s: State, i: nat, timeout: bool)
    requires !s.aborted && s.bg == Writing(i) && i >= |s.flushing.messages|
    ensures var r := Step(s, Background(timeout));
            && r.flushing == EMPTY && r.bg == Relock && r.active == s.active && r.handed == s.handed
            && forall name: string ::
                 var f, f' := FileOf(s.files, name), FileOf(r.files, name);
                 f'.written == f.written
                 && f'.flushed == if s.flushing.flush && name in s.files then |f.written| else f.flushed
  {
  }

  // ---------------------------------------------------------------- what Flush has done

  // t is in that Flush, or has returned from it.
  predicate OfCall(pc: FlushPc, n: nat) {
    (pc.InFlush? || pc.Returned?) && pc.n == n
  }

  lemma CallCounts(s: State, t: Tid)
    requires Lives(s, Runs) && !FlushOf(s, t).InFlush?
    ensures FlushOf(Step(s, Flush(t)), t) == InFlush(s.flushCount, |s.accepted|, false)
    ensures Step(s, Flush(t)).active.flush && Step(s, Flush(t)).accepted == s.accepted
  {
  }

  lemma CallStays(s: State, e: Event, t: Tid, n: nat)
    requires e != Flush(t) && OfCall(FlushOf(s, t), n)
    ensures OfCall(FlushOf(Step(s, e), t), n)
  {
    if !(e.FlushWake? && e.t == t) && !(e.Flush? && e.t == t) {
      hide Step;
      OthersAfter(s, e, t);
    }
  }

  lemma {:induction false} CallStaysAlong(s: State, es: seq<Event>, t: Tid, n: nat)
    requires Flush(t) !in es && OfCall(FlushOf(s, t), n)
    ensures OfCall(FlushOf(Run(s, es), t), n)
  {
    hide Step, OfCall;
    if es == [] {
    } else {
      CallStaysAlong(s, es[..|es| - 1], t, n);
      CallStays(Run(s, es[..|es| - 1]), es[|es| - 1], t, n);
    }
  }

  lemma {:induction false} LoggedGrows(es: seq<Event>, k: nat)
    requires k <= |es|
    ensures Logged(es[..k]) <= Logged(es)
  {
    if k == |es| {
      assert es[..k] == es;
    } else {
      LoggedGrows(es[..|es| - 1], k);
      assert es[..|es| - 1][..k] == es[..k];
    }
  }

  // Flush keeps its promise: called on a running logger, it does not come back, as long as nobody
  // stops the logger, before everything logged until then is in the files of its modules and flushed.
  lemma FlushKeepsPromise(group: string, es: seq<Event>, k: nat, t: Tid, name: string)
    requires k < |es| && es[k] == Flush(t) && Flush(t) !in es[k + 1..]
    requires LifeAfter(es[..k]) == Runs && LifeAfter(es) != Stops && LifeAfter(es) != Died
    requires !FlushOf(Run(Init(group), es[..k]), t).InFlush? && FlushOf(Run(Init(group), es), t).Returned?
    ensures var f, before := FileOf(Run(Init(group), es).files, name), Meant(Logged(es[..k]), name, group);
            before <= f.written && |before| <= f.flushed
  {
    hide Step, Run, Logged, Meant, EntriesFor;
    var s0 := Init(group);
    var n := |Logged(es[..k])|;
    CallIsKnown(group, es, k, t);
    AcceptedAreLogged(group, es);
    LoggedGrows(es, k);
    FlushUnlessStopped(group, es, t, name);
    EntriesAreMeant(Logged(es[..k]), name, group);
    assert Run(s0, es).accepted[..n] == Logged(es[..k]);
  }

  lemma CallIsKnown(group: string, es: seq<Event>, k: nat, t: Tid)
    requires k < |es| && es[k] == Flush(t) && Flush(t) !in es[k + 1..]
    requires LifeAfter(es[..k]) == Runs && !FlushOf(Run(Init(group), es[..k]), t).InFlush?
    ensures OfCall(FlushOf(Run(Init(group), es), t), |Logged(es[..k])|)
  {
    hide Step, Run, Logged;
    var s0 := Init(group);
    AcceptedAreLogged(group, es[..k]);
    CallCounts(Run(s0, es[..k]), t);
    RunNext(s0, es, k);
    TwoParts(es, k + 1);
    RunConcat(s0, es[..k + 1], es[k + 1..]);
    CallStaysAlong(Run(s0, es[..k + 1]), es[k + 1..], t, |Logged(es[..k])|);
  }

  // On a logger that does not run Flush comes back at once and does nothing.
  lemma FlushOfStopped(s: State, t: Tid)
    requires !s.aborted && s.state != RUNNING && !FlushOf(s, t).InFlush?
    ensures var r := Step(s, Flush(t));
            FlushOf(r, t).Returned? && r == s.(flushes := s.flushes[t := FlushOf(r, t)])
  {
  }

  // ---------------------------------------------------------------- messages get out

  // The steps of the background thread until n messages are handed over.
  function StepsToHand(s: State, n: nat): nat {
    if n <= |s.handed| then 0
    else if n <= |s.handed| + |Rest(s)| then n - |s.handed|
    else n - |s.handed| + if s.bg.Writing? then 2 else 1
  }

  lemma HeadsKeep(s: State)
    ensures Inner(s).handed == s.handed && Inner(s).accepted == s.accepted
    ensures Outer(s).handed == s.handed && Outer(s).accepted == s.accepted
  {
  }

  lemma HandOverHands(s: State, i: nat, n: nat)
    requires BufferInv(s) && n <= |s.accepted| && |s.handed| < n && s.bg == Writing(i)
    ensures StepsToHand(HandOver(s, i), n) == StepsToHand(s, n) - 1
  {
    hide FlushFiles, WriteFile;
    var ms := s.flushing.messages;
    if i < |ms| { assert |ms[i + 1..]| == |ms[i..]| - 1; }
  }

  lemma HandOverOnly(s: State, i: nat)
    ensures var r := HandOver(s, i); |r.handed| >= |s.handed| && r.accepted == s.accepted
  {
    hide FlushFiles, WriteFile;
  }

  lemma BackgroundHands(s: State, timeout: bool, n: nat)
    requires BufferInv(s) && n <= |s.accepted| && |s.handed| < n
    ensures StepsToHand(BackgroundStep(s, timeout), n) == StepsToHand(s, n) - 1
  {
    hide Inner, Outer, HandOver, Counted, BufferInv, StepsToHand, Rest;
    BuffersSay(s, n);
    match s.bg {
      case Writing(i) => HandOverHands(s, i, n);
      case NotStarted | Exited =>
      case Begin => HeadSteps(s, s, n);
      case Waiting =>
        if timeout { HeadSteps(s, s.(active := s.active.(flush := true)), n); } else { HeadSteps(s, s, n); }
      case Relock => CountedSame(s); HeadSteps(s, Counted(s), n);
    }
  }

  // From `s`, whose loop head sees `q`.
  lemma HeadSteps(s: State, q: State, n: nat)
    requires BufferInv(s) && !s.bg.Writing? && n <= |s.accepted| && |s.handed| < n
    requires q.accepted == s.accepted && q.handed == s.handed && q.bg == s.bg && q.flushing == s.flushing
    requires q.active.messages == s.active.messages && s.bg != NotStarted && s.bg != Exited
    ensures StepsToHand(Inner(q), n) == StepsToHand(s, n) - 1 && Outer(q) == Inner(q)
  {
    hide Inner, Outer;
    RestIs(s, q);
    assert s.accepted == s.handed + s.active.messages;
    HeadsSwap(q);
  }

  lemma HeadsSwap(s: State)
    requires s.active.messages != []
    ensures Outer(s) == Inner(s) && Inner(s).bg.Writing? && Rest(Inner(s)) == s.active.messages
    ensures Inner(s).handed == s.handed && Inner(s).accepted == s.accepted
  {
    assert s.active.messages[0..] == s.active.messages;
  }

  lemma BuffersSay(s: State, n: nat)
    requires BufferInv(s) && n <= |s.accepted| && |s.handed| < n
    ensures s.bg != NotStarted && s.bg != Exited
  {
  }

  lemma CountedSame(s: State)
    ensures var r := Counted(s);
            r.accepted == s.accepted && r.handed == s.handed && r.bg == s.bg && r.flushing == s.flushing &&
            r.active == s.active
  {
  }

  lemma BackgroundIs(s: State, timeout: bool)
    ensures !s.aborted ==> Step(s, Background(timeout)) == BackgroundStep(s, timeout)
  {
  }

  lemma BackgroundKeeps(s: State, timeout: bool)
    ensures var r := BackgroundStep(s, timeout); |r.handed| >= |s.handed| && r.accepted == s.accepted
  {
    hide Inner, Outer, HandOver, Counted;
    HeadsKeep(s);
    HeadsKeep(s.(active := s.active.(flush := true)));
    HeadsKeep(Counted(s));
    CountedSame(s);
    if s.bg.Writing? { HandOverOnly(s, s.bg.i); }
  }

  lemma OthersKeepHanding(s: State, e: Event, n: nat)
    requires BufferInv(s) && !e.Background? && n <= |s.accepted|
    ensures var r := Step(s, e);
            |r.accepted| >= |s.accepted| && r.handed == s.handed && StepsToHand(r, n) == StepsToHand(s, n)
  {
    hide Step, Rest;
    OthersKeepRound(s, e);
    OthersHandNothing(s, e);
    if Step(s, e).bg == s.bg { RestIs(s, Step(s, e)); } else { NothingAccepted(s); }
  }

  lemma OthersHandNothing(s: State, e: Event)
    requires !e.Background?
    ensures Step(s, e).handed == s.handed && |Step(s, e).accepted| >= |s.accepted|
  {
  }

  lemma NothingAccepted(s: State)
    requires BufferInv(s)
    ensures s.bg == NotStarted ==> s.accepted == []
  {
  }

  // Whatever other threads do, each accepted message is handed to its file by the time that the
  // background thread has made that many steps, which is at most two more than there are messages.
  lemma {:induction false} MessagesGetOut(s: State, es: seq<Event>, n: nat)
    requires Inv(s) && n <= |s.accepted| && !Run(s, es).aborted
    ensures StepsToHand(s, n) <= n - |s.handed| + 2 || n <= |s.handed|
    ensures var r, steps := Run(s, es), StepsToHand(s, n);
            && Inv(r) && n <= |r.accepted|
            && StepsToHand(r, n) == (if Backgrounds(es) < steps then steps - Backgrounds(es) else 0)
            && (Backgrounds(es) >= steps ==> |r.handed| >= n)
  {
    hide Inv, Step, BufferInv, BackgroundStep;
    if es == [] {
    } else {
      var p, e := es[..|es| - 1], es[|es| - 1];
      var q := Run(s, p);
      StepCounts(q, e);
      MessagesGetOut(s, p, n);
      StepInv(q, e);
      BuffersKnown(q);
      if !e.Background? {
        OthersKeepHanding(q, e, n);
      } else {
        BackgroundIs(q, e.timeout);
        BackgroundKeeps(q, e.timeout);
        if |q.handed| < n { BackgroundHands(q, e.timeout, n); }
      }
    }
  }
}
