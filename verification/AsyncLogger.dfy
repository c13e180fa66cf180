/**
 The logger object of cyber/logger/async_logger.h: two buffers changed in place and swapped by
 pointer. Each method is one stretch of code under the mutex, or one file operation of the
 background thread.
*/
module AsyncLoggers {
  import opened Common
  import opened LoggerUtil
  import opened AsyncLoggerSpec

  // The estimate of the memory that messages take, `msgBytes` being the size of a bare one.
  function Estimate(messages: seq<Msg>, msgBytes: nat): nat {
    if messages == [] then 0
    else Estimate(messages[..|messages| - 1], msgBytes) + msgBytes + |messages[|messages| - 1].message|
  }

  class Buffer {
    var messages: seq<Msg>
    var size: nat
    var flush: bool
    const msgBytes: nat

    ghost predicate Valid()
      reads this
    {
      size == Estimate(messages, msgBytes)
    }

    function Contents(): Buf
      reads this
    {
      Buf(messages, flush)
    }

    constructor (msgBytes: nat)
      ensures Valid() && Contents() == EMPTY
    {
      messages, size, flush := [], 0, false;
      this.msgBytes := msgBytes;
    }

    method Clear()
      modifies this
      ensures Valid() && Contents() == EMPTY && size == 0
    {
      messages := [];
      size := 0;
      flush := false;
    }

    method Add(msg: Msg, force_flush: bool)
      requires Valid()
      modifies this
      ensures Valid() && Contents() == AsyncLoggerSpec.Add(old(Contents()), msg, force_flush)
    {
      size := size + msgBytes + |msg.message|;
      assert (messages + [msg])[..|messages|] == messages;
      messages := messages + [msg];
      flush := flush || force_flush;
    }

    predicate NeedsFlushOrWrite()
      reads this
    {
      flush || messages != []
    }
  }

  // The level that the first letter of a formatted message stands for.
  function LevelOf(message: string): int {
    if message == "" then -1
    else match message[0]
      case 'F' => 3
      case 'E' => 2
      case 'W' => 1
      case 'I' => 0
      case _ => -1
  }

  // Fatal messages, errors and warnings are above level 0, information is at it, all else below.
  lemma LevelsByLetter(rest: string)
    ensures LevelOf("F" + rest) == 3 && LevelOf("E" + rest) == 2 && LevelOf("W" + rest) == 1 && LevelOf("I" + rest) == 0
    ensures forall c: char :: c !in "FEWI" ==> LevelOf([c] + rest) == -1
    ensures LevelOf("") == -1
  {
    assert ("F" + rest)[0] == 'F' && ("E" + rest)[0] == 'E' && ("W" + rest)[0] == 'W' && ("I" + rest)[0] == 'I';
    forall c: char | c !in "FEWI" ensures LevelOf([c] + rest) == -1 {
      assert c != "FEWI"[0] && c != "FEWI"[1] && c != "FEWI"[2] && c != "FEWI"[3];
      assert ([c] + rest)[0] == c;
    }
  }

  // The estimate of more messages is theirs on top.
  lemma {:induction false} EstimateAdds(ms: seq<Msg>, more: seq<Msg>, msgBytes: nat)
    ensures Estimate(ms + more, msgBytes) == Estimate(ms, msgBytes) + Estimate(more, msgBytes)
    ensures forall m: Msg :: Estimate([m], msgBytes) == msgBytes + |m.message|
  {
    forall m: Msg ensures Estimate([m], msgBytes) == msgBytes + |m.message| {
      assert [m][..0] == [];
    }
    if more == [] {
      assert ms + more == ms;
    } else {
      EstimateAdds(ms, more[..|more| - 1], msgBytes);
      assert (ms + more)[..|ms + more| - 1] == ms + more[..|more| - 1];
    }
  }

  class AsyncLogger {
    const max_buffer_bytes_: nat
    var flush_count_: nat
    var active_buf_: Buffer
    var flushing_buf_: Buffer
    var state_: RunState
    var moduleLoggerMap: map<string, File>
    const processGroup: string
    var bg: BgPc       // where the background thread is
    var joining: bool  // Stop waits for the background thread
    var aborted: bool  // a CHECK failed
    ghost var accepted: seq<Msg>
    ghost var handed: seq<Msg>
    ghost var safe: nat
    ghost var flushes: map<Tid, FlushPc>  // where each caller of Flush is

    ghost function View(): State
      reads this, active_buf_, flushing_buf_
    {
      State(state_, active_buf_.Contents(), flushing_buf_.Contents(), bg, flush_count_, flushes, joining, aborted,
            moduleLoggerMap, processGroup, accepted, handed, safe)
    }

    ghost predicate Valid()
      reads this, active_buf_, flushing_buf_
    {
      && active_buf_ != flushing_buf_ && active_buf_.Valid() && flushing_buf_.Valid()
      && Inv(View())
    }

    constructor (max_buffer_bytes: int, msgBytes: nat, group: string)
      ensures Valid() && fresh(active_buf_) && fresh(flushing_buf_)
      ensures View() == Init(group)
      ensures max_buffer_bytes_ == if max_buffer_bytes <= 0 then 2097152 else max_buffer_bytes
    {
      max_buffer_bytes_ := if max_buffer_bytes <= 0 then 2 * 1024 * 1024 else max_buffer_bytes;
      flush_count_, state_, moduleLoggerMap, processGroup := 0, INITTED, map[], group;
      bg, flushes, joining, aborted := NotStarted, map[], false, false;
      accepted, handed, safe := [], [], 0;
      active_buf_ := new Buffer(msgBytes);
      flushing_buf_ := new Buffer(msgBytes);
      new;
      InitInv(group);
    }

    // The size field says what the messages of the buffer take.
    method BufferFull(buf: Buffer) returns (full: bool)
      requires buf.Valid()
      ensures full <==> Estimate(buf.messages, buf.msgBytes) > max_buffer_bytes_ / 2
    {
      full := buf.size > max_buffer_bytes_ / 2;
    }

    method Start()
      requires Valid() && !aborted
      modifies this`state_, this`bg, this`aborted
      ensures Valid() && View() == Step(old(View()), Event.Start)
      ensures !aborted <==> old(state_) == INITTED
      ensures !aborted ==> state_ == RUNNING && bg == Begin
    {
      hide Inv;
      StepInv(View(), Event.Start);
      if state_ != INITTED {
        aborted := true;
      } else {
        state_ := RUNNING;
        bg := Begin;
      }
    }

    // Stop up to the join.
    method Stop()
      requires Valid() && !aborted
      modifies this`state_, this`joining, this`aborted
      ensures Valid() && View() == Step(old(View()), Event.Stop)
      ensures !aborted <==> old(state_) == RUNNING
      ensures !aborted ==> state_ == STOPPED && joining
    {
      hide Inv;
      StepInv(View(), Event.Stop);
      if state_ != RUNNING {
        aborted := true;
      } else {
        state_ := STOPPED;
        joining := true;
      }
    }

    // The rest of Stop, when the thread has ended: its checks hold.
    method Join()
      requires Valid() && !aborted && joining && bg == Exited
      modifies this`joining, this`aborted
      ensures Valid() && View() == Step(old(View()), Event.Join)
      ensures !aborted
    {
      StepInv(View(), Event.Join);
      aborted := !(active_buf_.messages == [] && flushing_buf_.messages == []);
      joining := false;
    }

    // `full` is what BufferFull answered about the active buffer some time before the lock.
    method Write(force_flush: bool, timestamp: int, message: string, full: bool)
      requires Valid() && !aborted
      modifies this`accepted, active_buf_
      ensures Valid()
      ensures View() == Step(old(View()), Event.Write(Msg(timestamp, message, LevelOf(message)), force_flush, full))
      ensures active_buf_.messages == old(active_buf_.messages) +
                if !full && state_ == RUNNING then [Msg(timestamp, message, LevelOf(message))] else []
    {
      hide Inv, LevelOf;
      var msg := Msg(timestamp, message, LevelOf(message));
      StepInv(View(), Event.Write(msg, force_flush, full));
      if full || state_ != RUNNING {
        return;
      }
      active_buf_.Add(msg, force_flush);
      accepted := accepted + [msg];
    }

    // The test of the loop of Flush, up to the wait or the return.
    method FlushLoop(ghost t: Tid, orig_flush_count: nat, ghost n: nat) returns (waits: bool)
      modifies this`flushes, active_buf_`flush
      ensures waits == (flush_count_ < orig_flush_count + 2 && state_ == RUNNING)
      ensures flushes == old(flushes)[t := if waits then InFlush(orig_flush_count, n, false)
                                           else Returned(flush_count_ >= orig_flush_count + 2, n)]
      ensures active_buf_.flush == (old(active_buf_.flush) || waits)
    {
      waits := flush_count_ < orig_flush_count + 2 && state_ == RUNNING;
      if waits {
        active_buf_.flush := true;
        flushes := flushes[t := InFlush(orig_flush_count, n, false)];
      } else {
        flushes := flushes[t := Returned(flush_count_ >= orig_flush_count + 2, n)];
      }
    }

    method Flush(ghost t: Tid) returns (waits: bool)
      requires Valid() && !aborted && !FlushOf(View(), t).InFlush?
      modifies this`flushes, active_buf_`flush
      ensures Valid() && View() == Step(old(View()), Event.Flush(t))
      ensures waits == FlushOf(View(), t).InFlush?
      ensures waits <==> state_ == RUNNING
      ensures waits ==> FlushOf(View(), t) == InFlush(flush_count_, |accepted|, false) && active_buf_.flush
    {
      hide Inv;
      StepInv(View(), Event.Flush(t));
      if state_ != RUNNING {
        flushes := flushes[t := Returned(false, |accepted|)];
        return false;
      }
      waits := FlushLoop(t, flush_count_, |accepted|);
    }

    // A caller of Flush wakes up, for whatever reason.
    method FlushWake(ghost t: Tid, orig_flush_count: nat) returns (waits: bool)
      requires Valid() && !aborted && FlushOf(View(), t).InFlush? && FlushOf(View(), t).orig == orig_flush_count
      modifies this`flushes, active_buf_`flush
      ensures Valid() && View() == Step(old(View()), Event.FlushWake(t))
      ensures waits == FlushOf(View(), t).InFlush?
      ensures waits <==> flush_count_ < orig_flush_count + 2 && state_ == RUNNING
      ensures waits ==> active_buf_.flush
    {
      hide Inv;
      StepInv(View(), Event.FlushWake(t));
      waits := FlushLoop(t, orig_flush_count, flushes[t].n);
    }

    // The heads of the loops of RunThread, up to the wait, the unlock or the end.
    method LoopHead(outer: bool)
      requires active_buf_ != flushing_buf_
      modifies this`active_buf_, this`flushing_buf_, this`bg
      ensures {active_buf_, flushing_buf_} == old({active_buf_, flushing_buf_}) && active_buf_ != flushing_buf_
      ensures View() == if outer then Outer(old(View())) else Inner(old(View()))
    {
      if outer && !(state_ == RUNNING || active_buf_.NeedsFlushOrWrite()) {
        bg := Exited;
      } else if !active_buf_.NeedsFlushOrWrite() && state_ == RUNNING {
        bg := Waiting;
      } else {
        active_buf_, flushing_buf_ := flushing_buf_, active_buf_;
        bg := Writing(0);
      }
    }

    // One message to its module's file.
    method WriteOut(msg: Msg)
      modifies this`moduleLoggerMap
      ensures moduleLoggerMap == WriteFile(old(moduleLoggerMap), msg, processGroup)
      ensures var to := ModuleOf(msg.message, processGroup);
              && FileOf(moduleLoggerMap, to).written ==
                 old(FileOf(moduleLoggerMap, to).written) + [Entry(msg.ts, WithoutBracket(msg.message))]
              && forall other: string :: other != to ==>
                   FileOf(moduleLoggerMap, other) == old(FileOf(moduleLoggerMap, other))
    {
      hide Route, ModuleOf, WithoutBracket;
      RouteIsMeant(msg.message, processGroup);
      var message, module_name := FindModuleName(msg.message, "", processGroup);
      var fileobject := FileOf(moduleLoggerMap, module_name);
      var written := fileobject.written + [Entry(msg.ts, message)];
      var should_flush := msg.level > 0;
      moduleLoggerMap := moduleLoggerMap[module_name := File(written, if should_flush then |written|
          else fileobject.flushed)];
    }

    // RunThread from taking the mutex, or from the end of a wait, to the next wait or unlock.
    method RunLocked(timeout: bool)
      requires Valid() && !aborted && (bg == Begin || bg == Waiting || bg == Relock)
      modifies this, active_buf_`flush
      ensures Valid() && View() == Step(old(View()), Background(timeout))
      ensures {active_buf_, flushing_buf_} == old({active_buf_, flushing_buf_})
    {
      hide Inv, Outer, Inner;
      StepInv(View(), Background(timeout));
      match bg
      case Begin => LoopHead(true);
      case Waiting =>
        if timeout {
          active_buf_.flush := true;
        }
        LoopHead(false);
      case Relock =>
        flush_count_ := flush_count_ + 1;
        flushes := map t | t in flushes :: Notified(flushes[t]);
        LoopHead(true);
    }

    // RunThread between two locks: the next message goes to its file, or, after the last one, the
    // files are flushed if asked and the buffer is cleared.
    method RunUnlocked(timeout: bool)
      requires Valid() && !aborted && bg.Writing?
      modifies this`bg, this`moduleLoggerMap, this`handed, this`safe, flushing_buf_
      ensures Valid() && View() == Step(old(View()), Background(timeout))
    {
      hide Inv, WriteFile, FlushFiles;
      StepInv(View(), Background(timeout));
      if bg.i < |flushing_buf_.messages| {
        WriteOut(flushing_buf_.messages[bg.i]);
        handed := handed + [flushing_buf_.messages[bg.i]];
        bg := Writing(bg.i + 1);
      } else {
        if flushing_buf_.flush {
          moduleLoggerMap := FlushFiles(moduleLoggerMap);
          safe := |handed|;
        }
        flushing_buf_.Clear();
        bg := Relock;
      }
    }
  }
}
