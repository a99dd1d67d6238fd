/** The ring buffer as the two threads update it, against the buffered frames it stands for. */
module JitterRing {
  import opened Common
  import opened Jitter

  /** The slot that lies `i` behind a position. */
  function Slot(position: nat, i: nat, capacity: nat): (r: nat)
    requires position < capacity && i <= capacity
    ensures r < capacity
  {
    if position + i < capacity then position + i else position + i - capacity
  }

  lemma SlotIsModulo(position: nat, i: nat, capacity: nat)
    requires position < capacity && i <= capacity
    ensures (position + i) % capacity == Slot(position, i, capacity)
  {
    if position + i >= capacity {
      WrapOnce(position + i, capacity);
    }
  }

  lemma WrapOnce(x: nat, capacity: nat)
    requires 0 < capacity <= x < 2 * capacity
    ensures x % capacity == x - capacity
  {}

  class Ring {
    const rate: nat
    const buffer: array<Sample>
    var write: nat
    var read: nat
    var available: nat
    var prebuffering: bool
    var start: Option<Time>
    var delivered: nat
    ghost var captured: seq<Sample>
    ghost var consumed: nat
    ghost var unheard: nat
    ghost var overwritten: nat
    ghost var trimmed: nat

    /** write = (read + available) mod capacity; a ring for less than 50 frames a second has no slots. */
    ghost predicate Valid()
      reads this
    {
      && buffer.Length == Capacity(rate) && available <= buffer.Length
      && (buffer.Length > 0 ==> read < buffer.Length && write == Slot(read, available, buffer.Length))
    }

    ghost function Contents(): (c: seq<Sample>)
      requires Valid()
      reads this, buffer
      ensures |c| == available
    {
      seq(available, i requires 0 <= i < available reads this, buffer requires Valid() =>
        buffer[Slot(read, i, buffer.Length)])
    }

    ghost function Value(): State
      requires Valid()
      reads this, buffer
    {
      State(Contents(), prebuffering, start, delivered, captured, consumed, unheard, overwritten, trimmed)
    }

    /** The set-up in Start. */
    constructor (rate: nat)
      ensures Valid() && Value() == Initial() && this.rate == rate && fresh(buffer)
    {
      this.rate := rate;
      buffer := new Sample[Capacity(rate)](i => 0);
      write, read, available := 0, 0, 0;
      prebuffering, start, delivered := true, None, 0;
      captured, consumed, unheard, overwritten, trimmed := [], 0, 0, 0, 0;
    }

    method DropOldest()
      requires Valid() && available > 0
      modifies this`read, this`available, this`overwritten
      ensures Valid() && Contents() == old(Contents())[1..] && overwritten == old(overwritten) + 1
    {
      ghost var before := Contents();
      SlotIsModulo(read, 1, buffer.Length);
      read := (read + 1) % buffer.Length;
      available := available - 1;
      overwritten := overwritten + 1;
      assert Contents() == before[1..];
    }

    method Append(x: Sample)
      requires Valid() && available < buffer.Length
      modifies this`write, this`available, this`captured, buffer
      ensures Valid() && Contents() == old(Contents()) + [x] && captured == old(captured) + [x]
    {
      ghost var before := Contents();
      buffer[write] := x;
      assert Contents() == before;
      SlotIsModulo(write, 1, buffer.Length);
      write := (write + 1) % buffer.Length;
      available := available + 1;
      captured := captured + [x];
      assert Contents() == before + [x];
    }

    /** One frame under the lock of the capture thread. */
    method PushOne(x: Sample)
      requires Valid() && rate >= 50
      modifies this, buffer
      ensures Valid() && Value() == PushedOne(old(Value()), rate, x)
    {
      if available >= buffer.Length {
        DropOldest();
      }
      Append(x);
    }

    /** One packet of the capture thread. */
    method Push(frames: seq<Sample>)
      requires Valid() && rate >= 50
      modifies this, buffer
      ensures Valid() && Value() == Pushed(old(Value()), rate, frames)
    {
      for f := 0 to |frames|
        invariant Valid() && Value() == Pushed(old(Value()), rate, frames[..f])
      {
        PushOne(frames[f]);
        assert frames[..f + 1][..f] == frames[..f];
      }
      assert frames[..|frames|] == frames;
    }

    /** The hard cap. */
    method Trim()
      requires Valid()
      modifies this
      ensures Valid() && Value() == Trimmed(old(Value()), rate)
    {
      if available > MaxBuffered(rate) {
        ghost var before := Contents();
        var drop := available - MaxBuffered(rate);
        SlotIsModulo(read, drop, buffer.Length);
        read := (read + drop) % buffer.Length;
        available := available - drop;
        trimmed := trimmed + drop;
        assert Contents() == before[drop..];
      }
    }

    /** The copy loop; it only moves the read position. */
    method Copy(count: nat) returns (feed: seq<Sample>)
      requires Valid() && count <= available
      modifies this`read
      ensures buffer.Length > 0 ==> read == Slot(old(read), count, buffer.Length)
      ensures feed == old(Contents())[..count]
    {
      ghost var before := Contents();
      feed := [];
      for f := 0 to count
        invariant buffer.Length > 0 ==> read == Slot(old(read), f, buffer.Length)
        invariant feed == before[..f]
      {
        feed := feed + [buffer[read]];
        SlotIsModulo(read, 1, buffer.Length);
        read := (read + 1) % buffer.Length;
      }
    }

    /** Takes the oldest frames out of the ring. */
    method Take(count: nat) returns (feed: seq<Sample>)
      requires Valid() && count <= available
      modifies this`read, this`available
      ensures Valid() && Contents() == old(Contents())[count..] && feed == old(Contents())[..count]
    {
      ghost var before := Contents();
      feed := Copy(count);
      available := available - count;
      assert Contents() == before[count..];
    }

    /** Takes the next 10 ms out of the ring. */
    method Consume(attached: bool) returns (feed: seq<Sample>)
      requires Valid()
      modifies this
      ensures Valid() && Value() == Consumed(old(Value()), rate, attached) && feed == Feed(old(Value()), rate)
    {
      var copy := if available < FramesPer10ms(rate) then available else FramesPer10ms(rate);
      feed := Take(copy);
      if attached {
        consumed := consumed + copy;
        delivered := delivered + FramesPer10ms(rate);
      } else {
        unheard := unheard + copy;
      }
      feed := feed + Silence(FramesPer10ms(rate) - copy);
    }

    /** The drift check at the start of a tick. */
    method TooFarAhead(now: Time) returns (ahead: bool)
      requires Valid()
      ensures ahead == Ahead(Value(), rate, now)
    {
      if start.None? {
        return false;
      }
      var expected := if now <= start.value then 0 else (now - start.value) * rate / SECOND;
      return delivered > expected + FramesPer10ms(rate);
    }

    /** One tick of the feeder thread. */
    method Tick(now: Time, attached: bool) returns (outcome: Outcome)
      requires Valid()
      modifies this
      ensures Valid() && Value() == Ticked(old(Value()), rate, now, attached)
      ensures outcome == TickOutcome(old(Value()), rate, now, attached)
    {
      var ahead := TooFarAhead(now);
      if ahead {
        return DriftSkip;
      }
      Trim();
      if prebuffering {
        if available < Target(rate) {
          return Buffering;
        }
        prebuffering, start := false, Some(now);
      }
      var feed := Consume(attached);
      return if attached then Delivered(feed) else Unheard;
    }
  }
}
