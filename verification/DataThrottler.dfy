/** backend/pkg/data_throttler/data_throttler.go: a buffer of bounded length that is emptied all at once. */
module DataThrottlers {
  import opened Wrappers
  import opened Deques

  class DataThrottler<T(0)> {
    const buffer: Deque<T>
    const maxLength: nat
    var lastFlashAt: int

    // The deque was made as long as it can get: it is never reallocated.
    ghost predicate Valid()
      reads this, buffer, buffer.data
    {
      && 0 < maxLength
      && buffer.Valid()
      && buffer.data.Length == maxLength
      && buffer.copied == 0
    }

    ghost function Contents(): (s: seq<T>)
      requires Valid()
      reads this, buffer, buffer.data
      ensures |s| <= maxLength
    {
      buffer.Contents()
    }

    constructor (maxLength: nat)
      requires 0 < maxLength
      ensures Valid() && fresh(buffer) && fresh(buffer.data)
      ensures this.maxLength == maxLength && Contents() == []
    {
      this.maxLength := maxLength;
      buffer := new Deque<T>(maxLength);
      lastFlashAt := 0;
    }

    // None stands for the error that an unbounded throttler is not allowed.
    static method New(maxLength: nat) returns (r: Option<DataThrottler<T>>)
      ensures r == None <==> maxLength == 0
      ensures r.Some? ==>
                && fresh(r.value) && fresh(r.value.buffer) && fresh(r.value.buffer.data)
                && r.value.Valid() && r.value.maxLength == maxLength && r.value.Contents() == []
    {
      if maxLength == 0 {
        return None;
      }
      var d := new DataThrottler<T>(maxLength);
      return Some(d);
    }

    // Refuses the datum when full; in no case does the buffer move to other memory.
    method Push(datum: T) returns (added: bool)
      requires Valid()
      modifies buffer, buffer.data
      ensures Valid() && buffer.data == old(buffer.data)
      ensures added == (|old(Contents())| < maxLength)
      ensures Contents() == if added then old(Contents()) + [datum] else old(Contents())
    {
      var size := buffer.Size();
      if size == maxLength {
        return false;
      }
      buffer.Push(datum);
      return true;
    }

    // The data the callback is called with, in order.
    method IterateAndFlush(now: int) returns (visited: seq<T>)
      requires Valid()
      modifies this`lastFlashAt, buffer
      ensures Valid() && buffer.data == old(buffer.data)
      ensures visited == old(Contents()) && Contents() == [] && lastFlashAt == now
    {
      visited := [];
      var i := 0;
      var size := buffer.Size();
      while i < size
        invariant Valid() && buffer.data == old(buffer.data) && Contents() == old(Contents())
        invariant i <= size == |Contents()| && visited == Contents()[..i]
      {
        var e := buffer.Get(i);
        visited := visited + [e.value];
        i := i + 1;
        size := buffer.Size();
      }
      buffer.Flush();
      lastFlashAt := now;
    }

    method Size() returns (size: nat)
      requires Valid()
      ensures size == |Contents()|
    {
      size := buffer.Size();
    }

    method Flush(now: int) returns (s: seq<T>)
      requires Valid()
      modifies this`lastFlashAt, buffer
      ensures Valid() && buffer.data == old(buffer.data)
      ensures s == old(Contents()) && Contents() == [] && lastFlashAt == now
    {
      lastFlashAt := now;
      s := buffer.Slice();
      buffer.Flush();
    }
  }
}
