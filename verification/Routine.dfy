/**
 The routine object of cyber/croutine/croutine.h with the cursor and ring of its visitor. Each
 method is one shared access of one processor or of one dispatching thread.
*/
module Routines {
  import opened Common
  import opened Channels
  import opened WakeUpSpec

  class CRoutine {
    var state_: RoutineState
    var updated_: bool          // atomic_flag: true is set
    var lock_: bool             // atomic_flag: true is set
    var next_msg_index_: nat    // the visitor's cursor
    var tail_: nat              // messages filled into the visitor's ring
    const size_: nat            // how many of them the ring shows
    var procs: map<Tid, ProcPc> // where each processor is
    var disps: map<Tid, DispPc> // where each dispatching thread is
    ghost var owner: Option<Tid>
    ghost var fetched: nat

    ghost function View(): State
      reads this
    {
      State(tail_, size_, next_msg_index_, state_, updated_, lock_, procs, disps, owner, fetched)
    }

    ghost predicate Valid()
      reads this
    {
      Inv(View())
    }

    constructor (size: nat)
      ensures Valid() && View() == Init(size)
    {
      state_, updated_, lock_ := READY, true, false;
      next_msg_index_, tail_, size_ := 0, 0, size;
      procs, disps, owner, fetched := map[], map[], None, 0;
    }

    // A processor tries to take the routine.
    method Acquire(p: Tid) returns (acquired: bool)
      requires Valid() && ProcOf(View(), p) == Out
      modifies this
      ensures Valid() && View() == Step(old(View()), Processor(p))
      ensures acquired == !old(lock_) && lock_
    {
      ProcessorInv(View(), p);
      acquired := !lock_;
      lock_ := true;
      if acquired {
        procs, owner := procs[p := TestAndSet], Some(p);
      }
    }

    // UpdateState: the flag is tested and set, then a routine that waits for data becomes READY
    // if the flag was clear; a routine that is not READY is released.
    method UpdateState(p: Tid)
      requires Valid() && (ProcOf(View(), p).TestAndSet? || ProcOf(View(), p).SetReady?)
      modifies this
      ensures Valid() && View() == Step(old(View()), Processor(p))
    {
      ProcessorInv(View(), p);
      match procs[p]
      case TestAndSet =>
        procs := procs[p := SetReady(!updated_)];
        updated_ := true;
      case SetReady(wasClear) =>
        if wasClear && (state_ == DATA_WAIT || state_ == IO_WAIT) {
          state_ := READY;
        }
        procs := procs[p := if state_ == READY then ProcPc.Resume else ProcPc.Release];
    }

    // Only a READY routine is switched to.
    method Resume(p: Tid)
      requires Valid() && ProcOf(View(), p).Resume?
      modifies this
      ensures Valid() && View() == Step(old(View()), Processor(p))
    {
      ProcessorInv(View(), p);
      procs := procs[p := if state_ == READY then RunSetWait else ProcPc.Release];
    }

    // The routine's endless loop: wait for data, try to fetch, call back, yield.
    method Loop(p: Tid)
      requires Valid()
      requires ProcOf(View(), p).RunSetWait? || ProcOf(View(), p).RunTryFetch? || ProcOf(View(), p).RunCallback?
            || ProcOf(View(), p).RunYieldReady? || ProcOf(View(), p).RunYield?
      modifies this
      ensures Valid() && View() == Step(old(View()), Processor(p))
    {
      hide Inv;
      ProcessorInv(View(), p);
      var pc := procs[p];
      if pc.RunSetWait? {
        state_ := DATA_WAIT;
        procs := procs[p := RunTryFetch];
      } else if pc.RunTryFetch? {
        match FetchAnswer(tail_, size_, next_msg_index_) {
          case Nothing => procs := procs[p := RunYield];
          case Found(pos, _) =>
            next_msg_index_, fetched := pos + 1, fetched + 1;
            procs := procs[p := RunCallback];
        }
      } else if pc.RunCallback? {
        procs := procs[p := RunYieldReady];
      } else {
        if pc.RunYieldReady? {
          state_ := READY;
        }
        procs := procs[p := ProcPc.Release];
      }
    }

    method Release(p: Tid)
      requires Valid() && ProcOf(View(), p).Release?
      modifies this
      ensures Valid() && View() == Step(old(View()), Processor(p))
      ensures !lock_
    {
      ProcessorInv(View(), p);
      lock_, owner := false, None;
      procs := procs[p := Out];
    }

    // A dispatching thread fills the ring, reads the routine's state, and clears the flag.
    method Dispatch(d: Tid, clearAnyway: bool)
      requires Valid()
      modifies this`tail_, this`updated_, this`disps
      ensures Valid() && View() == Step(old(View()), Dispatcher(d, clearAnyway))
    {
      hide Inv;
      DispatcherInv(View(), d, clearAnyway);
      if d !in disps || disps[d].Away? {
        tail_ := tail_ + 1;
        disps := disps[d := Filled];
      } else if disps[d].Filled? {
        disps := disps[d := if state_ == DATA_WAIT || clearAnyway then Clearing else Away];
      } else {
        updated_ := false;
        disps := disps[d := Away];
      }
    }
  }
}
