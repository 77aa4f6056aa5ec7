/**
  Replaying a run in the order of its Lamport stamps: if accesses that share a byte are stamped in
  the order they executed, every order that respects the stamps gives the same reads and memory.
*/
module Replay {
  import opened Options
  import opened Access

  /** An executed access, the bytes it read, and its stamp once it has one. */
  datatype Entry = Entry(tid: nat, access: Access, got: seq<int>, stamp: Option<int>)

  ghost function RunFrom(m: Memory, s: seq<Entry>): Memory {
    if s == [] then m else RunFrom(Execute(s[0].access, m), s[1..])
  }

  /** Executed one at a time from `m`, every access reads what its entry says. */
  ghost predicate Reproduces(m: Memory, s: seq<Entry>) {
    s == [] || (s[0].got == ReadBytes(s[0].access, m) && Reproduces(Execute(s[0].access, m), s[1..]))
  }

  ghost predicate Stamped(s: seq<Entry>) {
    forall e :: e in s ==> e.stamp.Some?
  }

  ghost predicate ByStamp(s: seq<Entry>)
    requires Stamped(s)
  {
    forall i, j :: 0 <= i < j < |s| ==> s[i].stamp.value <= s[j].stamp.value
  }

  /** Same thread or a common byte: the order of the two is observable. */
  ghost predicate Conflict(a: Entry, b: Entry) {
    a.tid == b.tid || ShareByte(a.access, b.access)
  }

  /** Conflicting accesses are stamped strictly in the order of the log. */
  ghost predicate ConflictsInOrder(s: seq<Entry>) {
    forall i, j :: 0 <= i < j < |s| && Conflict(s[i], s[j]) && s[i].stamp.Some? && s[j].stamp.Some? ==>
      s[i].stamp.value < s[j].stamp.value
  }

  lemma {:induction false} RunAppend(m: Memory, s: seq<Entry>, e: Entry)
    ensures RunFrom(m, s + [e]) == Execute(e.access, RunFrom(m, s))
    ensures Reproduces(m, s + [e]) == (Reproduces(m, s) && e.got == ReadBytes(e.access, RunFrom(m, s)))
  {
    if s == [] {
      assert s + [e] == [e];
    } else {
      assert (s + [e])[1..] == s[1..] + [e];
      RunAppend(Execute(s[0].access, m), s[1..], e);
    }
  }

  /** The list without its element `k`. */
  function Without<T>(s: seq<T>, k: nat): seq<T>
    requires k < |s|
  {
    s[..k] + s[k + 1..]
  }

  lemma WithoutCounts<T>(s: seq<T>, k: nat)
    requires k < |s|
    ensures |Without(s, k)| == |s| - 1
    ensures multiset(s) == multiset(Without(s, k)) + multiset{s[k]}
    ensures multiset(Without(s, k)) == multiset(s) - multiset{s[k]}
  {
    assert s == s[..k] + [s[k]] + s[k + 1..];
  }

  lemma WithoutStamped(s: seq<Entry>, k: nat)
    requires Stamped(s) && k < |s|
    ensures Stamped(Without(s, k)) && forall e :: e in Without(s, k) ==> e in s
  {
    forall e | e in Without(s, k) ensures e in s {
      assert e in s[..k] || e in s[k + 1..];
    }
  }

  lemma WithoutOrdered(s: seq<Entry>, k: nat)
    requires k < |s|
    ensures ConflictsInOrder(s) ==> ConflictsInOrder(Without(s, k))
  {
    hide Conflict;
    var w := Without(s, k);
    assert forall i :: 0 <= i < |w| ==> w[i] == s[if i < k then i else i + 1];
  }

  lemma RunCons(m: Memory, e: Entry, s: seq<Entry>)
    ensures RunFrom(m, [e] + s) == RunFrom(Execute(e.access, m), s)
    ensures Reproduces(m, [e] + s) == (e.got == ReadBytes(e.access, m) && Reproduces(Execute(e.access, m), s))
  {
    assert ([e] + s)[1..] == s;
  }

  /** The first two accesses of a replay may be exchanged when they share no byte. */
  lemma Exchange(m: Memory, a: Entry, b: Entry, s: seq<Entry>)
    requires !ShareByte(a.access, b.access)
    ensures RunFrom(m, [a] + ([b] + s)) == RunFrom(m, [b] + ([a] + s))
    ensures Reproduces(m, [a] + ([b] + s)) == Reproduces(m, [b] + ([a] + s))
  {
    Commute(a.access, b.access, m);
    RunCons(m, a, [b] + s);
    RunCons(m, b, [a] + s);
    RunCons(Execute(a.access, m), b, s);
    RunCons(Execute(b.access, m), a, s);
  }

  lemma WithoutFirst(s: seq<Entry>, k: nat)
    requires 0 < k < |s|
    ensures s == [s[0]] + s[1..] && s[1..][k - 1] == s[k]
    ensures Without(s, k) == [s[0]] + Without(s[1..], k - 1)
  {
  }

  /** An access that shares no byte with those before it could have gone first. */
  lemma {:induction false} MoveToFront(m: Memory, s: seq<Entry>, k: nat)
    requires k < |s| && Reproduces(m, s)
    requires forall j :: 0 <= j < k ==> !ShareByte(s[j].access, s[k].access)
    ensures Reproduces(m, [s[k]] + Without(s, k))
    ensures RunFrom(m, [s[k]] + Without(s, k)) == RunFrom(m, s)
    decreases k
  {
    hide Execute, ReadBytes, ShareByte;
    if k == 0 {
      assert [s[0]] + Without(s, 0) == s;
    } else {
      var e, rest, tail := s[k], s[1..], Without(s[1..], k - 1);
      WithoutFirst(s, k);
      assert forall j :: 0 <= j < k - 1 ==> rest[j] == s[j + 1];
      MoveToFront(Execute(s[0].access, m), rest, k - 1);
      RunCons(m, s[0], rest);
      RunCons(m, s[0], [e] + tail);
      Exchange(m, s[0], e, tail);
    }
  }

  lemma WithoutKeeps(s: seq<Entry>, k: nat)
    requires k < |s| && Stamped(s)
    ensures Stamped(Without(s, k))
    ensures ConflictsInOrder(s) ==> ConflictsInOrder(Without(s, k))
    ensures multiset(Without(s, k)) == multiset(s) - multiset{s[k]}
  {
    hide Without, Stamped, ConflictsInOrder;
    WithoutCounts(s, k);
    WithoutStamped(s, k);
    WithoutOrdered(s, k);
  }

  lemma TailIsOrdered(s: seq<Entry>)
    requires s != [] && Stamped(s) && ByStamp(s)
    ensures Stamped(s[1..]) && ByStamp(s[1..]) && multiset(s[1..]) == multiset(s) - multiset{s[0]}
  {
    assert s == [s[0]] + s[1..];
  }

  /**
    The log of a run may be replayed in any order that respects its stamps: every access reads the
    bytes it read in the run, and memory ends as it did in the run.
  */
  lemma {:induction false} ReplayEquivalence(m: Memory, log: seq<Entry>, replay: seq<Entry>)
    requires Reproduces(m, log) && Stamped(log) && ConflictsInOrder(log)
    requires multiset(replay) == multiset(log) && Stamped(replay) && ByStamp(replay)
    ensures Reproduces(m, replay)
    ensures RunFrom(m, replay) == RunFrom(m, log)
    decreases |log|
  {
    hide Execute, ReadBytes, ConflictsInOrder;
    if replay == [] {
      assert |multiset(replay)| == |multiset(log)|;
    } else {
      var e, rest := replay[0], replay[1..];
      assert replay == [e] + rest;
      var k := FirstOfReplay(log, replay);
      MoveToFront(m, log, k);
      WithoutKeeps(log, k);
      TailIsOrdered(replay);
      RunCons(m, e, rest);
      RunCons(m, e, Without(log, k));
      ReplayEquivalence(Execute(e.access, m), Without(log, k), rest);
    }
  }

  /** The access replayed first shares no byte with those that were executed before it. */
  lemma FirstOfReplay(log: seq<Entry>, replay: seq<Entry>) returns (k: nat)
    requires Stamped(log) && ConflictsInOrder(log) && replay != []
    requires multiset(replay) == multiset(log) && Stamped(replay) && ByStamp(replay)
    ensures k < |log| && log[k] == replay[0]
    ensures forall j :: 0 <= j < k ==> !ShareByte(log[j].access, log[k].access)
  {
    assert replay[0] in multiset(replay);
    k :| 0 <= k < |log| && log[k] == replay[0];
    forall j | 0 <= j < k ensures !ShareByte(log[j].access, log[k].access) {
      assert log[j] in multiset(replay);
      var i :| 0 <= i < |replay| && replay[i] == log[j];
      assert log[k].stamp.value <= log[j].stamp.value;
    }
  }

  // ----- byte by byte -----

  /** The accesses that touch byte `x`, in order. */
  function Touching(s: seq<Entry>, x: int): seq<Entry> {
    if s == [] then [] else (if Touches(s[0].access, x) then [s[0]] else []) + Touching(s[1..], x)
  }

  lemma {:induction false} TouchingWithout(s: seq<Entry>, k: nat, x: int)
    requires k < |s|
    requires Touches(s[k].access, x) ==> forall j :: 0 <= j < k ==> !Touches(s[j].access, x)
    ensures Touching(s, x) == (if Touches(s[k].access, x) then [s[k]] else []) + Touching(Without(s, k), x)
    decreases k
  {
    hide Touches;
    if k == 0 {
      assert Without(s, 0) == s[1..];
    } else {
      WithoutFirst(s, k);
      assert Without(s, k)[1..] == Without(s[1..], k - 1);
      TouchingWithout(s[1..], k - 1, x);
    }
  }

  lemma NotBoth(a: Access, b: Access, x: int)
    requires !ShareByte(a, b)
    ensures !(Touches(a, x) && Touches(b, x))
  {
  }

  /** Every byte is touched in the same order in the run and in a replay that respects its stamps. */
  lemma {:induction false} ByteOrderKept(log: seq<Entry>, replay: seq<Entry>, x: int)
    requires Stamped(log) && ConflictsInOrder(log)
    requires multiset(replay) == multiset(log) && Stamped(replay) && ByStamp(replay)
    ensures Touching(replay, x) == Touching(log, x)
    decreases |log|
  {
    hide ConflictsInOrder, Touches;
    if replay == [] {
      assert |multiset(replay)| == |multiset(log)|;
    } else {
      var k := FirstOfReplay(log, replay);
      forall j | 0 <= j < k && Touches(log[k].access, x) ensures !Touches(log[j].access, x) {
        NotBoth(log[j].access, log[k].access, x);
      }
      TouchingWithout(log, k, x);
      WithoutKeeps(log, k);
      TailIsOrdered(replay);
      ByteOrderKept(Without(log, k), replay[1..], x);
    }
  }

  /** Every byte is touched by the same accesses in the same order. */
  ghost predicate SameByteOrder(s: seq<Entry>, t: seq<Entry>) {
    forall x: int :: Touching(s, x) == Touching(t, x)
  }
}
