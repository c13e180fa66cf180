/**
 The lock object of cyber/base/reentrant_rw_lock.h: its counters and its writer's id, changed
 in place. Each method is one shared access of one thread; the outermost unlock has two.
*/
module ReentrantRWLocks {
  import opened Common
  import opened ReentrantRWLockSpec

  class ReentrantRWLock {
    var lock_num_: int
    var write_lock_wait_num_: int
    var write_thread_id_: Option<Tid>
    const write_first_: bool
    var threads: map<Tid, Local>  // where each thread is, and the guards it is inside
    ghost var readers: multiset<Tid>
    ghost var holder: Option<Tid>
    ghost var leaked: nat

    ghost function View(): State
      reads this
    {
      State(lock_num_, write_lock_wait_num_, write_thread_id_, write_first_, false, threads, readers, holder, leaked)
    }

    ghost predicate Valid()
      reads this
    {
      Inv(View())
    }

    constructor (write_first: bool)
      ensures Valid() && View() == Init(write_first, false)
    {
      lock_num_, write_lock_wait_num_, write_thread_id_, write_first_ := RW_LOCK_FREE, 0, None, write_first;
      threads, readers, holder, leaked := map[], multiset{}, None, 0;
      new;
      InitInv(write_first, false);
    }

    // A guard is constructed, or the innermost one is destroyed.
    method Guarded(t: Tid, act: Action)
      requires Valid() && !act.Advance? && Of(View(), t).pc.Idle? && (act.CallUnlock? ==> Of(View(), t).guards != [])
      modifies this`threads
      ensures Valid() && View() == Step(old(View()), Event(t, act))
    {
      hide Inv;
      StepInv(View(), Event(t, act));
      var gs := if t in threads then threads[t].guards else [];
      var pc :=
        if act.CallRead? then ReadTestId
        else if act.CallWrite? then WriteTestId
        else if gs[|gs| - 1] == R then ReadUnlockTestId
        else WriteUnlockAdd;
      threads := threads[t := Local(pc, gs)];
    }

    method ReadLockStep(t: Tid, spurious: bool)
      requires Valid() && t in threads
      requires var pc := threads[t].pc; pc.ReadTestId? || pc.ReadLoad? || pc.ReadTest? || pc.ReadCas?
      modifies this
      ensures Valid() && View() == Step(old(View()), Event(t, Advance(spurious)))
    {
      hide Inv;
      StepInv(View(), Event(t, Advance(spurious)));
      var Local(pc, gs) := threads[t];
      match pc
      case ReadTestId =>
        threads := threads[t := if write_thread_id_ == Some(t) then Local(Idle, gs + [R]) else Local(ReadLoad, gs)];
      case ReadLoad => threads := threads[t := Local(ReadTest(lock_num_), gs)];
      case ReadTest(n) =>
        if n < RW_LOCK_FREE || (write_first_ && write_lock_wait_num_ > 0) {
          threads := threads[t := Local(ReadLoad, gs)];
        } else {
          threads := threads[t := Local(ReadCas(n), gs)];
        }
      case ReadCas(n) =>
        if !spurious && lock_num_ == n {
          lock_num_ := n + 1;
          readers := readers + multiset{t};
          threads := threads[t := Local(Idle, gs + [R])];
        } else {
          threads := threads[t := Local(ReadTest(lock_num_), gs)];
        }
    }

    method WriteLockStep(t: Tid, spurious: bool)
      requires Valid() && t in threads
      requires var pc := threads[t].pc;
               pc.WriteTestId? || pc.WriteNest? || pc.WriteAdd? || pc.WriteCas? || pc.WriteSetId? || pc.WriteSub?
      modifies this
      ensures Valid() && View() == Step(old(View()), Event(t, Advance(spurious)))
    {
      hide Inv;
      StepInv(View(), Event(t, Advance(spurious)));
      var Local(pc, gs) := threads[t];
      match pc
      case WriteTestId =>
        threads := threads[t := Local(if write_thread_id_ == Some(t) then WriteNest else WriteAdd, gs)];
      case WriteNest =>
        lock_num_ := lock_num_ - 1;
        threads := threads[t := Local(Idle, gs + [W])];
      case WriteAdd =>
        write_lock_wait_num_ := write_lock_wait_num_ + 1;
        threads := threads[t := Local(WriteCas, gs)];
      case WriteCas =>
        if !spurious && lock_num_ == RW_LOCK_FREE {
          lock_num_ := WRITE_EXCLUSIVE;
          holder := Some(t);
          threads := threads[t := Local(WriteSetId, gs)];
        }
      case WriteSetId =>
        write_thread_id_ := Some(t);
        threads := threads[t := Local(WriteSub, gs)];
      case WriteSub =>
        write_lock_wait_num_ := write_lock_wait_num_ - 1;
        threads := threads[t := Local(Idle, gs + [W])];
    }

    method ReadUnlockStep(t: Tid)
      requires Valid() && t in threads && (threads[t].pc.ReadUnlockTestId? || threads[t].pc.ReadUnlockSub?)
      modifies this
      ensures Valid() && View() == Step(old(View()), Event(t, Advance(false)))
    {
      hide Inv;
      StepInv(View(), Event(t, Advance(false)));
      var Local(pc, gs) := threads[t];
      match pc
      case ReadUnlockTestId =>
        threads := threads[t := if write_thread_id_ == Some(t) then Local(Idle, Inner(gs))
            else Local(ReadUnlockSub, gs)];
      case ReadUnlockSub =>
        lock_num_ := lock_num_ - 1;
        readers := readers - multiset{t};
        leaked := leaked + if holder == Some(t) then 1 else 0;
        threads := threads[t := Local(Idle, Inner(gs))];
    }

    method WriteUnlockStep(t: Tid)
      requires Valid() && t in threads && (threads[t].pc.WriteUnlockAdd? || threads[t].pc.WriteUnlockClearId?)
      modifies this
      ensures Valid() && View() == Step(old(View()), Event(t, Advance(false)))
    {
      hide Inv;
      StepInv(View(), Event(t, Advance(false)));
      var Local(pc, gs) := threads[t];
      match pc
      case WriteUnlockAdd =>
        var old_num := lock_num_;
        lock_num_ := lock_num_ + 1;
        holder := if WriteGuards(Inner(gs)) == 0 then None else holder;
        threads := threads[t := Local(if old_num == WRITE_EXCLUSIVE then WriteUnlockClearId else Idle, Inner(gs))];
      case WriteUnlockClearId =>
        write_thread_id_ := None;
        threads := threads[t := Local(Idle, gs)];
    }
  }
}
