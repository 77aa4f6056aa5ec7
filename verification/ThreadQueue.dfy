/** The queue of one thread's lines in the merge utility: a growing ring of bytes that is a FIFO of strings. */
module ThreadQueues {

  const INITIAL_CAPACITY: nat := 1024 * 1024

  /** A queued line. */
  datatype Entry = Entry(time: int, text: string)

  // ----- the ring -----

  function Wrap(i: nat, capacity: nat): nat
    requires i < 2 * capacity
  {
    if i < capacity then i else i - capacity
  }

  /** `n` bytes of the ring from `start`. */
  function Ring(b: seq<char>, start: nat, n: nat): (r: seq<char>)
    requires start < |b| && n <= |b|
    ensures |r| == n && forall i :: 0 <= i < n ==> r[i] == b[Wrap(start + i, |b|)]
  {
    seq(n, i requires 0 <= i < n => b[Wrap(start + i, |b|)])
  }

  /** `c` holds `b` with `text` written from the end of the used part on, wrapping around. */
  ghost predicate Written(b: seq<char>, c: seq<char>, at: nat, text: string) {
    && |c| == |b| && at < |b| && |text| <= |b|
    && forall j :: 0 <= j < |b| ==>
         c[j] == if at <= j < at + |text| then text[j - at]
                 else if j + |b| < at + |text| then text[j + |b| - at]
                 else b[j]
  }

  lemma WriteExtendsRing(b: seq<char>, c: seq<char>, start: nat, n: nat, text: string)
    requires start < |b| && n + |text| <= |b|
    requires Written(b, c, Wrap(start + n, |b|), text)
    ensures Ring(c, start, n + |text|) == Ring(b, start, n) + text
  {
    var r := Ring(c, start, n + |text|);
    forall i | 0 <= i < |r| ensures r[i] == (Ring(b, start, n) + text)[i] {
      var j := Wrap(start + i, |b|);
    }
  }

  /** Copying the ring to the front of a larger buffer straightens it. */
  lemma StraightRing(b: seq<char>, c: seq<char>, start: nat, n: nat)
    requires start < |b| && n <= |b| && |c| > n
    requires c[..n] == Ring(b, start, n)
    ensures Ring(c, 0, n) == Ring(b, start, n)
  {
    assert forall i :: 0 <= i < n ==> c[i] == c[..n][i];
  }

  lemma SplitRing(b: seq<char>, start: nat, n: nat, k: nat)
    requires start < |b| && k <= n <= |b| && |b| > 0
    ensures Ring(b, start, k) == Ring(b, start, n)[..k]
    ensures Ring(b, Wrap(start + k, |b|), n - k) == Ring(b, start, n)[k..]
  {
    var tail := Ring(b, start, n)[k..];
    forall i | 0 <= i < n - k ensures Ring(b, Wrap(start + k, |b|), n - k)[i] == tail[i] {
      assert tail[i] == b[Wrap(start + (k + i), |b|)];
    }
  }

  /** The two copies that read a ring: up to the end of the buffer, then from its front. */
  lemma TwoCopies(b: seq<char>, start: nat, n: nat)
    requires start < |b| && n <= |b|
    ensures Ring(b, start, n) ==
            if n <= |b| - start then b[start..start + n] else b[start..] + b[..n - (|b| - start)]
  {
    var r := Ring(b, start, n);
    var t := if n <= |b| - start then b[start..start + n] else b[start..] + b[..n - (|b| - start)];
    assert |r| == |t| && forall i :: 0 <= i < n ==> r[i] == t[i];
  }

  lemma WrapAdd(start: nat, n: nat, k: nat, capacity: nat)
    requires start < capacity && n + k <= capacity
    ensures (Wrap(start + n, capacity) + k) % capacity == Wrap(start + n + k, capacity)
  {
  }

  // ----- the FIFO -----

  function Flatten(es: seq<Entry>): string {
    if es == [] then [] else es[0].text + Flatten(es[1..])
  }

  lemma {:induction false} FlattenAppend(es: seq<Entry>, e: Entry)
    ensures Flatten(es + [e]) == Flatten(es) + e.text
  {
    if es == [] {
      assert es + [e] == [e];
      assert [e][1..] == [];
    } else {
      assert (es + [e])[1..] == es[1..] + [e];
      FlattenAppend(es[1..], e);
    }
  }

  ghost predicate Increasing(es: seq<Entry>) {
    forall i, j :: 0 <= i < j < |es| ==> es[i].time < es[j].time
  }

  lemma IncreasingSnoc(es: seq<Entry>, e: Entry, max: int)
    requires Increasing(es) && (forall x :: x in es ==> x.time <= max) && e.time > max
    ensures Increasing(es + [e]) && forall x :: x in es + [e] ==> x.time <= e.time
  {
  }

  ghost predicate QueueOf(timeSize: seq<(int, nat)>, entries: seq<Entry>) {
    && |timeSize| == |entries|
    && (forall i :: 0 <= i < |entries| ==> timeSize[i] == (entries[i].time, |entries[i].text|))
  }

  lemma FlattenFirst(es: seq<Entry>)
    requires es != []
    ensures |es[0].text| <= |Flatten(es)|
    ensures Flatten(es)[..|es[0].text|] == es[0].text
    ensures Flatten(es)[|es[0].text|..] == Flatten(es[1..])
  {
  }

  class ThreadQueue {
    var buffer: array<char>
    var size: nat
    var nextInsert: nat
    var nextPop: nat
    var timeSize: seq<(int, nat)>
    var maxTimestamp: int
    var finished: bool
    ghost var entries: seq<Entry>

    ghost predicate ValidRing()
      reads this
    {
      && buffer.Length >= INITIAL_CAPACITY
      && size <= buffer.Length && nextPop < buffer.Length
      && nextInsert == Wrap(nextPop + size, buffer.Length)
    }

    ghost predicate Valid()
      reads this, buffer
    {
      && ValidRing()
      && QueueOf(timeSize, entries)
      && Ring(buffer[..], nextPop, size) == Flatten(entries)
      && Increasing(entries)
      && (forall e :: e in entries ==> e.time <= maxTimestamp)
    }

    constructor ()
      ensures Valid() && fresh(buffer) && entries == [] && maxTimestamp == 0 && !finished
    {
      buffer := new char[INITIAL_CAPACITY];
      size := 0;
      nextInsert := 0;
      nextPop := 0;
      timeSize := [];
      maxTimestamp := 0;
      finished := false;
      entries := [];
    }

    /** Appends a line that is later than every line before it. */
    method Enqueue(time: int, text: string) returns (wasEmpty: bool)
      requires Valid() && time > maxTimestamp && !finished
      requires |text| <= 3 * buffer.Length
      modifies this, buffer
      ensures Valid() && entries == old(entries) + [Entry(time, text)]
      ensures wasEmpty == (old(entries) == [])
      ensures maxTimestamp == time && !finished
      ensures buffer == old(buffer) || fresh(buffer)
    {
      hide Ring, Flatten;
      wasEmpty := timeSize == [];
      var spaceLeft := buffer.Length - size;
      if |text| > spaceLeft {
        EnlargeBuffer();
      }
      Append(text);
      FlattenAppend(entries, Entry(time, text));
      IncreasingSnoc(entries, Entry(time, text), maxTimestamp);
      maxTimestamp := time;
      timeSize := timeSize + [(time, |text|)];
      entries := entries + [Entry(time, text)];
    }

    /** Puts the bytes at the end of the used part: up to the end of the buffer, then from its front. */
    method Append(text: string)
      requires ValidRing() && size + |text| <= buffer.Length
      modifies this`size, this`nextInsert, buffer
      ensures ValidRing() && size == old(size) + |text|
      ensures Ring(buffer[..], nextPop, size) == old(Ring(buffer[..], nextPop, size)) + text
    {
      CopyIn(text);
      WriteExtendsRing(old(buffer[..]), buffer[..], nextPop, size, text);
      WrapAdd(nextPop, size, |text|, buffer.Length);
      size := size + |text|;
      nextInsert := (nextInsert + |text|) % buffer.Length;
    }

    method CopyIn(text: string)
      requires ValidRing() && size + |text| <= buffer.Length
      modifies buffer
      ensures Written(old(buffer[..]), buffer[..], nextInsert, text)
    {
      var copy1Idx := nextInsert;
      var copy1Len := if buffer.Length - copy1Idx < |text| then buffer.Length - copy1Idx else |text|;
      var copy2Len := |text| - copy1Len;
      forall i | 0 <= i < copy1Len {
        buffer[copy1Idx + i] := text[i];
      }
      forall i | 0 <= i < copy2Len {
        buffer[i] := text[copy1Len + i];
      }
    }

    /** Moves the contents to a buffer four times as large. */
    method EnlargeBuffer()
      requires ValidRing()
      modifies this`buffer, this`nextPop, this`nextInsert
      ensures ValidRing() && fresh(buffer) && buffer.Length == 4 * old(buffer.Length)
      ensures Ring(buffer[..], nextPop, size) == old(Ring(buffer[..], nextPop, size))
    {
      var newBuffer := new char[4 * buffer.Length];
      Straighten(newBuffer);
      StraightRing(buffer[..], newBuffer[..], nextPop, size);
      buffer := newBuffer;
      nextPop := 0;
      nextInsert := size;
    }

    method Straighten(newBuffer: array<char>)
      requires ValidRing() && newBuffer != buffer && newBuffer.Length > size
      modifies newBuffer
      ensures newBuffer[..size] == Ring(buffer[..], nextPop, size)
    {
      var copy1Len := if size < buffer.Length - nextPop then size else buffer.Length - nextPop;
      var copy2Len := size - copy1Len;
      forall i | 0 <= i < copy1Len {
        newBuffer[i] := buffer[nextPop + i];
      }
      forall i | 0 <= i < copy2Len {
        newBuffer[copy1Len + i] := buffer[i];
      }
    }

    /** Takes the oldest line, if there is one. */
    method Dequeue() returns (notEmpty: bool, time: int, text: string)
      requires Valid()
      modifies this`size, this`nextPop, this`timeSize, this`entries
      ensures Valid() && notEmpty == (old(entries) != [])
      ensures notEmpty ==> Entry(time, text) == old(entries)[0] && entries == old(entries)[1..]
      ensures !notEmpty ==> entries == old(entries)
    {
      if timeSize == [] {
        return false, 0, "";
      }
      var length := timeSize[0].1;
      time := timeSize[0].0;
      FlattenFirst(entries);
      text := Take(length);
      timeSize := timeSize[1..];
      entries := entries[1..];
      notEmpty := true;
    }

    /** Copies out the oldest bytes and drops them from the ring. */
    method Take(length: nat) returns (text: string)
      requires ValidRing() && length <= size
      modifies this`size, this`nextPop
      ensures ValidRing()
      ensures text == Ring(buffer[..], old(nextPop), old(size))[..length]
      ensures Ring(buffer[..], nextPop, size) == Ring(buffer[..], old(nextPop), old(size))[length..]
    {
      var copy1Idx := nextPop;
      var copy1Len := if length < buffer.Length - copy1Idx then length else buffer.Length - copy1Idx;
      var copy2Len := length - copy1Len;
      text := buffer[copy1Idx..copy1Idx + copy1Len] + buffer[..copy2Len];
      TwoCopies(buffer[..], nextPop, length);
      SplitRing(buffer[..], nextPop, size, length);
      WrapAdd(nextPop, 0, length, buffer.Length);
      size := size - length;
      nextPop := (nextPop + length) % buffer.Length;
    }

    /** The time of the oldest line, -1 if there is none. */
    method Peek() returns (time: int)
      requires Valid()
      ensures time == if entries == [] then -1 else entries[0].time
    {
      if timeSize == [] {
        return -1;
      }
      return timeSize[0].0;
    }

    /** The debugging check: the sizes on record add up to the used part of the buffer. */
    method CheckRepresentation() returns (ok: bool)
      requires Valid()
      ensures ok
    {
      var sum := 0;
      for i := 0 to |timeSize|
        invariant sum + |Flatten(entries[i..])| == |Flatten(entries)|
      {
        FlattenFirst(entries[i..]);
        assert entries[i..][1..] == entries[i + 1..];
        sum := sum + timeSize[i].1;
      }
      assert Flatten(entries[|timeSize|..]) == [];
      ok := sum == size;
    }

    method Finish()
      requires Valid()
      modifies this`finished
      ensures Valid() && finished
    {
      finished := true;
    }
  }
}
