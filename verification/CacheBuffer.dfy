/**
 The message ring of cyber/data/cache_buffer.h and the reads that cyber/data/channel_buffer.h
 offers on it. The mutex of the buffer makes each of these methods one step.
*/
module Channels {
  import opened RingSlots

  // ---------------------------------------------------------------- what a read answers

  // Positions count from 1; `tail` messages were filled and the ring shows the last `size`.
  datatype Fetched = Nothing | Found(pos: nat, dropped: nat)

  // The oldest visible position, as Head() reports it.
  function HeadOf(tail: nat, size: nat): nat {
    if tail <= size then 1 else tail - size + 1
  }

  // Fetch, for a reader whose next position is `index` (0 before its first read).
  function FetchAnswer(tail: nat, size: nat, index: nat): Fetched {
    if tail == 0 || index == tail + 1 then Nothing
    else if index == 0 then Found(tail, 0)
    else if index < HeadOf(tail, size) then Found(tail, tail - index)
    else Found(index, 0)
  }

  // ---------------------------------------------------------------- the ring

  class CacheBuffer<T> {
    var head_: nat
    var tail_: nat
    const capacity_: nat
    const buffer_: array<T>
    ghost var log: seq<T>  // every value ever filled, in order

    ghost predicate Valid()
      reads this, buffer_
    {
      && 0 < capacity_ == buffer_.Length
      && |log| == tail_
      && head_ + 1 == HeadOf(tail_, capacity_ - 1)
      && forall p :: 1 <= p <= tail_ && head_ <= p ==> buffer_[Slot(p, capacity_)] == log[p - 1]
    }

    constructor (size: nat, zero: T)
      ensures Valid() && fresh(buffer_)
      ensures log == [] && capacity_ == size + 1
    {
      head_, tail_, capacity_ := 0, 0, size + 1;
      buffer_ := new T[size + 1](_ => zero);
      log := [];
    }

    function Head(): nat reads this { head_ + 1 }

    function Tail(): nat reads this { tail_ }

    function Size(): int reads this { tail_ - head_ }

    predicate Empty() reads this { tail_ == 0 }

    predicate Full() reads this { capacity_ - 1 == tail_ - head_ }

    method GetIndex(pos: nat) returns (i: nat)
      requires Valid()
      ensures i < buffer_.Length && i == Slot(pos, capacity_)
    {
      SlotIsRemainder(pos, capacity_);
      i := pos % capacity_;
    }

    // What is stored for a position: the value filled there, as long as it is not overwritten.
    method At(pos: nat) returns (value: T)
      requires Valid()
      ensures 1 <= pos <= |log| && HeadOf(|log|, capacity_ - 1) <= pos + 1 ==> value == log[pos - 1]
    {
      var i := GetIndex(pos);
      value := buffer_[i];
    }

    // Both branches store at logical position tail + 1; a full ring gives up its oldest position.
    method Fill(value: T)
      requires Valid()
      modifies this, buffer_
      ensures Valid() && log == old(log) + [value]
    {
      if Full() {
        var i := GetIndex(head_);
        assert Slot(tail_ + 1, capacity_) == Slot(head_, capacity_);
        OthersStay();
        buffer_[i] := value;
        head_ := head_ + 1;
        tail_ := tail_ + 1;
      } else {
        var i := GetIndex(tail_ + 1);
        OthersStay();
        buffer_[i] := value;
        tail_ := tail_ + 1;
      }
      log := log + [value];
    }

    lemma OthersStay()
      requires Valid()
      ensures forall p :: 1 <= p <= tail_ && head_ < p ==> Slot(p, capacity_) != Slot(tail_ + 1, capacity_)
      ensures tail_ - head_ < capacity_ - 1 ==>
                forall p :: 1 <= p <= tail_ && head_ <= p ==> Slot(p, capacity_) != Slot(tail_ + 1, capacity_)
    {
      forall p | 1 <= p <= tail_ && tail_ + 1 < p + capacity_ ensures Slot(p, capacity_) != Slot(tail_ + 1, capacity_) {
        DistinctSlots(capacity_, p, tail_ + 1);
      }
    }
  }

  // ---------------------------------------------------------------- reads

  class ChannelBuffer<T> {
    const channel_id_: nat
    const buffer_: CacheBuffer<T>

    constructor (channel_id: nat, buffer: CacheBuffer<T>)
      ensures channel_id_ == channel_id && buffer_ == buffer
    {
      channel_id_, buffer_ := channel_id, buffer;
    }

    // `index` and `m` are the caller's variables; `dropped` is the interval the warning reports.
    method Fetch(index: nat, m: T) returns (ok: bool, index': nat, m': T, dropped: nat)
      requires buffer_.Valid()
      ensures var f := FetchAnswer(|buffer_.log|, buffer_.capacity_ - 1, index);
              && ok == f.Found?
              && (ok ==> index' == f.pos && dropped == f.dropped)
              && (ok && index <= |buffer_.log| ==> m' == buffer_.log[index' - 1])
              && (!ok ==> index' == index && m' == m && dropped == 0)
    {
      ok, index', m', dropped := false, index, m, 0;
      if buffer_.Empty() {
        return;
      }
      if index == 0 {
        index' := buffer_.Tail();
      } else if index == buffer_.Tail() + 1 {
        return;
      } else if index < buffer_.Head() {
        dropped := buffer_.Tail() - index;
        index' := buffer_.Tail();
      }
      m' := buffer_.At(index');
      ok := true;
    }

    // The newest message, if there ever was one.
    method Latest(m: T) returns (ok: bool, m': T)
      requires buffer_.Valid()
      ensures ok == (buffer_.log != [])
      ensures m' == if ok then buffer_.log[|buffer_.log| - 1] else m
    {
      ok, m' := false, m;
      if buffer_.Empty() {
        return;
      }
      m' := buffer_.At(buffer_.Tail());
      ok := true;
    }

    // Appends the last min(Size, fetch_size) messages, oldest first.
    method FetchMulti(fetch_size: nat, vec: seq<T>) returns (ok: bool, vec': seq<T>)
      requires buffer_.Valid()
      ensures ok == (buffer_.log != [])
      ensures !ok ==> vec' == vec
      ensures ok ==>
                var visible := if |buffer_.log| < buffer_.capacity_ then |buffer_.log| else buffer_.capacity_ - 1;
                var num := if visible < fetch_size then visible else fetch_size;
                vec' == vec + buffer_.log[|buffer_.log| - num..]
    {
      ok, vec' := false, vec;
      if buffer_.Empty() {
        return;
      }
      var num := if buffer_.Size() < fetch_size then buffer_.Size() else fetch_size;
      var index := buffer_.Tail() - num + 1;
      ghost var first := index;
      while index <= buffer_.Tail()
        invariant first <= index <= buffer_.Tail() + 1
        invariant vec' == vec + buffer_.log[first - 1..index - 1]
      {
        var value := buffer_.At(index);
        vec' := vec' + [value];
        index := index + 1;
      }
      ok := true;
    }
  }
}
