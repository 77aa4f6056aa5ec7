/** Which accesses of a run, and which lines of its trace, a simulator looks at, and in which order. */
module SimulatorView {
  import opened TraceLine
  import opened TraceText
  import opened Access
  import opened Replay
  import opened TracerStore
  import opened TracerTrace
  import opened Tracer
  import S = Simulators

  // ----- the accesses that a simulator looks at -----

  /** What the trace shows of an executed access. */
  function EventOf(e: Entry): Event {
    MemoryEvent(e.access, ShownAsWrite(e))
  }

  /** A read-modify-write near the allocation; the compare-and-swap simulator also counts plain reads there. */
  predicate LooksAt(kind: S.Kind, e: Event, address: int, size: int) {
    && e.Memory? && e.read1.Some? && e.read2.None?
    && (e.write == e.read1 || (kind.CompareAndSwap? && e.write.None?))
    && S.Near(e.read1.value.address, e.read1.value.size, address, size)
  }

  function LookedAt(kind: S.Kind, s: seq<Entry>, address: int, size: int): seq<Entry> {
    if s == [] then []
    else (if LooksAt(kind, EventOf(s[0]), address, size) then [s[0]] else []) + LookedAt(kind, s[1..], address, size)
  }

  /** If they all touch one byte, they come in its order. */
  lemma {:induction false} LookedAtTouching(kind: S.Kind, s: seq<Entry>, address: int, size: int)
    requires forall e :: e in s && LooksAt(kind, EventOf(e), address, size) ==> Touches(e.access, address)
    ensures LookedAt(kind, s, address, size) == LookedAt(kind, Touching(s, address), address, size)
  {
    hide LooksAt, EventOf, Touches;
    if s != [] {
      assert s == [s[0]] + s[1..];
      assert s[0] in s;
      LookedAtTouching(kind, s[1..], address, size);
      var rest := Touching(s[1..], address);
      if Touches(s[0].access, address) {
        assert Touching(s, address) == [s[0]] + rest;
        assert ([s[0]] + rest)[1..] == rest;
      } else {
        assert Touching(s, address) == rest;
      }
    }
  }

  /** The threads of the entries shown as read-modify-writes. */
  function Writers(es: seq<Entry>, threads: map<Tid, ThreadData>): seq<int> {
    if es == [] then []
    else
      (if EventOf(es[0]).write.Some? && es[0].tid in threads then [threads[es[0].tid].uid] else [])
      + Writers(es[1..], threads)
  }

  function PlainReads(es: seq<Entry>): nat {
    if es == [] then 0 else (if EventOf(es[0]).write.None? then 1 else 0) + PlainReads(es[1..])
  }

  // ----- the same on lines -----

  function LineWriters(ls: seq<Line>, address: int, size: int): seq<int> {
    if ls == [] then []
    else
      var l := ls[0];
      (if LooksAt(S.FetchAdd, l.event, address, size) then [l.uid] else []) + LineWriters(ls[1..], address, size)
  }

  function LineReads(ls: seq<Line>, address: int, size: int): nat {
    if ls == [] then 0
    else
      var e := ls[0].event;
      (if LooksAt(S.CompareAndSwap, e, address, size) && e.write.None? then 1 else 0)
      + LineReads(ls[1..], address, size)
  }

  lemma {:induction false} RmwsFirst(s: S.Sim, c: MemoryCall, calls: seq<MemoryCall>)
    requires s.special.Some?
    ensures S.Rmws(s, [c] + calls) == (if S.NearRmw(s, c) then [c.threadId] else []) + S.Rmws(s, calls)
    ensures S.Reads(s, [c] + calls) == (if S.NearRead(s, c) then 1 else 0) + S.Reads(s, calls)
  {
    hide S.NearRmw, S.NearRead;
    if calls == [] {
      assert [c] + calls == [c];
      assert [c][..0] == [];
    } else {
      assert ([c] + calls)[..|calls|] == [c] + calls[..|calls| - 1];
      RmwsFirst(s, c, calls[..|calls| - 1]);
    }
  }

  lemma CallIsLookedAt(l: Line, before: Operands, address: int, size: int)
    requires LegalMemory(l.event)
    ensures var s, c := S.Ready(address, size, {}), CallFor(l, before);
            && (S.NearRmw(s, c) <==> LooksAt(S.FetchAdd, l.event, address, size))
            && (S.NearRead(s, c) <==> LooksAt(S.CompareAndSwap, l.event, address, size) && l.event.write.None?)
  {
  }

  /** What the simulator sees of memory lines does not depend on operands left from earlier lines. */
  lemma {:induction false} CallsOfLines(ls: seq<Line>, before: Operands, address: int, size: int)
    requires forall l :: l in ls ==> LegalMemory(l.event)
    ensures var s, calls := S.Ready(address, size, {}), ExpectedCalls(ls, before);
            S.Rmws(s, calls) == LineWriters(ls, address, size) && S.Reads(s, calls) == LineReads(ls, address, size)
    decreases |ls|
  {
    hide LooksAt, S.NearRmw, S.NearRead, S.Rmws, S.Reads;
    var s := S.Ready(address, size, {});
    if ls == [] {
      NothingSeen(s);
    } else {
      var c := CallFor(ls[0], before);
      CallIsLookedAt(ls[0], before, address, size);
      CallsOfLines(ls[1..], c.operands, address, size);
      RmwsFirst(s, c, ExpectedCalls(ls[1..], c.operands));
    }
  }

  lemma NothingSeen(s: S.Sim)
    requires s.special.Some?
    ensures S.Rmws(s, []) == [] && S.Reads(s, []) == 0
  {
  }

  lemma LookedAtFirst(kind: S.Kind, e: Entry, rest: seq<Entry>, threads: map<Tid, ThreadData>, address: int, size: int)
    ensures var all := LookedAt(kind, [e] + rest, address, size);
            && Writers(all, threads) ==
               (if LooksAt(kind, EventOf(e), address, size) && EventOf(e).write.Some? && e.tid in threads
                then [threads[e.tid].uid] else [])
               + Writers(LookedAt(kind, rest, address, size), threads)
            && PlainReads(all) ==
               (if LooksAt(kind, EventOf(e), address, size) && EventOf(e).write.None? then 1 else 0)
               + PlainReads(LookedAt(kind, rest, address, size))
  {
    hide LooksAt, EventOf;
    assert ([e] + rest)[1..] == rest;
    var more := LookedAt(kind, rest, address, size);
    assert ([e] + more)[1..] == more && [] + more == more;
  }

  lemma LooksAtWrite(e: Event, address: int, size: int)
    ensures LooksAt(S.FetchAdd, e, address, size) <==>
            LooksAt(S.CompareAndSwap, e, address, size) && e.Memory? && e.write.Some?
  {
  }

  /** The lines of a replay show what its entries are. */
  lemma {:induction false} LinesOfEntries(
    kind: S.Kind, ls: seq<Line>, es: seq<Entry>, threads: map<Tid, ThreadData>, address: int, size: int)
    requires Shows(ls, es, threads)
    ensures LineWriters(ls, address, size) == Writers(LookedAt(kind, es, address, size), threads)
    ensures kind.CompareAndSwap? ==> LineReads(ls, address, size) == PlainReads(LookedAt(kind, es, address, size))
    decreases |ls|
  {
    if ls != [] {
      hide LooksAt, EventOf;
      var e, uid := es[0], threads[es[0].tid].uid;
      assert ls[0] == LineOf(e, uid) && LineOf(e, uid).event == EventOf(e) by {
        LineShows(e, uid);
      }
      assert es == [e] + es[1..];
      LinesOfEntries(kind, ls[1..], es[1..], threads, address, size);
      LookedAtFirst(kind, e, es[1..], threads, address, size);
      LooksAtWrite(EventOf(e), address, size);
    }
  }

  lemma LineShows(e: Entry, uid: int)
    requires e.stamp.Some?
    ensures LineOf(e, uid).event == EventOf(e) && EventOf(e).Memory?
  {
  }

  lemma {:induction false} NobodyLooks(kind: S.Kind, ls: seq<Line>, address: int, size: int)
    requires forall l :: l in ls ==> !LooksAt(kind, l.event, address, size)
    ensures LineWriters(ls, address, size) == []
    ensures kind.CompareAndSwap? ==> LineReads(ls, address, size) == 0
  {
    if ls != [] {
      assert ls == [ls[0]] + ls[1..];
      NobodyLooks(kind, ls[1..], address, size);
      LooksAtWrite(ls[0].event, address, size);
      assert ls[0] in ls;
    }
  }

  lemma {:induction false} LinesAppend(a: seq<Line>, b: seq<Line>, address: int, size: int)
    ensures LineWriters(a + b, address, size) == LineWriters(a, address, size) + LineWriters(b, address, size)
    ensures LineReads(a + b, address, size) == LineReads(a, address, size) + LineReads(b, address, size)
  {
    hide LooksAt;
    if a == [] {
      assert a + b == b;
    } else {
      var ab := a + b;
      assert ab[1..] == a[1..] + b && ab[0] == a[0] && ab != [];
      LinesAppend(a[1..], b, address, size);
      var x := if LooksAt(S.FetchAdd, a[0].event, address, size) then [a[0].uid] else [];
      assert LineWriters(ab, address, size) == x + LineWriters(ab[1..], address, size);
      assert LineWriters(a, address, size) == x + LineWriters(a[1..], address, size);
    }
  }
}
