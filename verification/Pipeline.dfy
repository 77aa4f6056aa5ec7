/** From the traced run over the printed file and the merge utility to the comparer and the replay. */
module Pipeline {
  import opened Options
  import opened TraceLine
  import opened TraceOrder
  import opened Text
  import opened TraceText
  import opened MergeSpec
  import opened Access
  import opened Replay
  import opened TracerStore
  import opened TracerTrace
  import opened TracerResult
  import opened Tracer
  import opened TracerAtomic
  import Merge
  import Compare

  function PrintLines(f: seq<Line>): (ss: seq<string>)
    ensures |ss| == |f| && forall i :: 0 <= i < |f| ==> ss[i] == Print(f[i])
  {
    seq(|f|, i requires 0 <= i < |f| => Print(f[i]))
  }

  /** Every line as it is read from a file. */
  function Terminated(ss: seq<string>): (ts: seq<string>)
    ensures |ts| == |ss| && forall i :: 0 <= i < |ss| ==> ts[i] == ss[i] + "\n"
  {
    seq(|ss|, i requires 0 <= i < |ss| => ss[i] + "\n")
  }

  ghost predicate Short(f: seq<Line>) {
    forall l :: l in f ==> |Print(l)| <= LONGEST
  }

  // ----- the file as the merge utility reads it -----

  lemma PrintedIsReadable(f: seq<Line>)
    requires Short(f)
    ensures forall s :: s in PrintLines(f) ==> Readable(s)
    ensures LineHeads(PrintLines(f)) == Heads(f)
  {
    hide Print, ReadHead;
    forall i | 0 <= i < |f| ensures Readable(PrintLines(f)[i]) && LineHead(PrintLines(f)[i]) == HeadOf(f[i]) {
      PrintedHead(f[i]);
      assert f[i] in f;
    }
    assert forall s :: s in PrintLines(f) ==> exists i :: 0 <= i < |f| && PrintLines(f)[i] == s;
    assert forall s :: s in PrintLines(f) ==> Readable(s);
  }

  /** What the merge utility prints for a line, with `-t` or without. */
  function Shown(l: Line, keep: bool): string {
    if keep then Print(l) else PrintBody(l)
  }

  function ShownLines(f: seq<Line>, keep: bool): (ss: seq<string>)
    ensures |ss| == |f| && forall i :: 0 <= i < |f| ==> ss[i] == Shown(f[i], keep)
  {
    seq(|f|, i requires 0 <= i < |f| => Shown(f[i], keep))
  }

  function PrintItem(l: Line, keep: bool): Item {
    Item(l.uid, l.time, Shown(l, keep))
  }

  function PrintItems(f: seq<Line>, keep: bool): (xs: seq<Item>)
    ensures |xs| == |f| && forall i :: 0 <= i < |f| ==> xs[i] == PrintItem(f[i], keep)
  {
    seq(|f|, i requires 0 <= i < |f| => PrintItem(f[i], keep))
  }

  lemma RecordOfPrinted(l: Line, keep: bool)
    requires |Print(l)| <= LONGEST
    ensures Readable(Print(l)) && RecordOf(Print(l), keep) == Record(HeadOf(l), Shown(l, keep))
  {
    PrintedHead(l);
    hide Print, PrintBody, ReadHead;
  }

  lemma RecordsOfPrinted(f: seq<Line>, keep: bool)
    requires Short(f)
    ensures forall s :: s in PrintLines(f) ==> Readable(s)
    ensures var rs := Records(PrintLines(f), keep);
            |rs| == |f| && forall i :: 0 <= i < |f| ==> rs[i] == Record(HeadOf(f[i]), Shown(f[i], keep))
  {
    PrintedIsReadable(f);
    hide Print, Shown, ReadHead, Readable, RecordOf;
    forall i | 0 <= i < |f| ensures Records(PrintLines(f), keep)[i] == Record(HeadOf(f[i]), Shown(f[i], keep)) {
      RecordOfPrinted(f[i], keep);
    }
  }

  /** The items to be printed are those of the lines, `thread_sync` lines left out. */
  lemma {:induction false} ItemsOfRecords(f: seq<Line>, keep: bool, rs: seq<Record>, n: nat)
    requires n <= |f| == |rs| && forall i :: 0 <= i < |f| ==> rs[i] == Record(HeadOf(f[i]), Shown(f[i], keep))
    ensures ItemsTo(rs, n) == PrintItems(NonSync(f[..n]), keep)
  {
    hide Shown;
    if n > 0 {
      ItemsOfRecords(f, keep, rs, n - 1);
      assert f[..n][..n - 1] == f[..n - 1];
      assert TagOf(f[n - 1].event) == TagSync <==> f[n - 1].event.Sync?;
    }
  }

  lemma ItemsOfPrinted(f: seq<Line>, keep: bool)
    requires Short(f)
    ensures forall s :: s in PrintLines(f) ==> Readable(s)
    ensures Items(PrintLines(f), keep) == PrintItems(NonSync(f), keep)
  {
    RecordsOfPrinted(f, keep);
    ItemsOfRecords(f, keep, Records(PrintLines(f), keep), |f|);
    assert f[..|f|] == f;
  }

  // ----- an arrangement of images is the image of an arrangement -----

  lemma {:induction false} Arrange(f: seq<Line>, keep: bool, items: seq<Item>) returns (g: seq<Line>)
    requires multiset(items) == multiset(PrintItems(f, keep))
    ensures multiset(g) == multiset(f) && PrintItems(g, keep) == items
    decreases |f|
  {
    SameLength(items, PrintItems(f, keep));
    hide Without, PrintItem;
    if items == [] {
      g := [];
    } else {
      hide PrintItems;
      var k := FindItem(f, keep, items[0]);
      WithoutCounts(f, k);
      ItemsWithout(f, keep, items, k);
      var rest := Arrange(Without(f, k), keep, items[1..]);
      g := PutFirst(f[k], rest, keep, items);
    }
  }

  lemma PutFirst(l: Line, rest: seq<Line>, keep: bool, items: seq<Item>) returns (g: seq<Line>)
    requires items != [] && PrintItem(l, keep) == items[0] && PrintItems(rest, keep) == items[1..]
    ensures multiset(g) == multiset(rest) + multiset{l} && PrintItems(g, keep) == items
  {
    hide PrintItem;
    g := [l] + rest;
    PrintFirst(l, rest, keep);
  }

  lemma PrintFirst(l: Line, g: seq<Line>, keep: bool)
    ensures PrintItems([l] + g, keep) == [PrintItem(l, keep)] + PrintItems(g, keep)
  {
  }

  lemma FindItem(f: seq<Line>, keep: bool, x: Item) returns (k: nat)
    requires x in multiset(PrintItems(f, keep))
    ensures k < |f| && PrintItem(f[k], keep) == x
  {
    k :| 0 <= k < |f| && PrintItems(f, keep)[k] == x;
  }

  lemma ItemsOfLess(f: seq<Line>, keep: bool, k: nat)
    requires k < |f|
    ensures PrintItems(Without(f, k), keep) == Without(PrintItems(f, keep), k)
  {
    hide Shown;
  }

  lemma FirstLess(items: seq<Item>)
    requires items != []
    ensures Without(items, 0) == items[1..]
  {
  }

  lemma ItemsWithout(f: seq<Line>, keep: bool, items: seq<Item>, k: nat)
    requires multiset(items) == multiset(PrintItems(f, keep)) && items != []
    requires k < |f| && PrintItem(f[k], keep) == items[0]
    ensures multiset(items[1..]) == multiset(PrintItems(Without(f, k), keep))
  {
    ItemsOfLess(f, keep, k);
    FirstLess(items);
    WithoutCounts(PrintItems(f, keep), k);
    WithoutCounts(items, 0);
    assert PrintItems(f, keep)[k] == items[0];
    hide Shown, Without, PrintItems;
  }

  // ----- the merged file as the comparer reads it -----

  /** The comparer finds the time of a printed line. */
  lemma TimeOfPrinted(l: Line)
    ensures Compare.Time(Print(l) + "\n") == Some(l.time)
  {
    var t, s := PrintInt(l.time), Print(l) + "\n";
    PrintHasNoTab(l.time);
    assert s == t + ([TAB] + (PrintBody(l) + "\n"));
    assert s[0..] == s;
    FieldAt(s, 0, t, PrintBody(l) + "\n");
    assert s[..|t|] == t;
    PyIntOfPrint(l.time);
  }

  lemma PrintedTimes(f: seq<Line>)
    ensures forall i :: 0 <= i < |f| ==> Compare.Time(Terminated(PrintLines(f))[i]) == Some(f[i].time)
  {
    forall i | 0 <= i < |f| ensures Compare.Time(Terminated(PrintLines(f))[i]) == Some(f[i].time) {
      TimeOfPrinted(f[i]);
    }
  }

  ghost predicate Positive(f: seq<Line>) {
    forall i :: 0 <= i < |f| ==> f[i].time > 0
  }

  /** Printed lines in time order match any arrangement of themselves in time order. */
  lemma PrintedMatch(f: seq<Line>, g: seq<Line>)
    requires InTimeOrder(f) && InTimeOrder(g) && Positive(f) && Positive(g) && multiset(f) == multiset(g)
    ensures Compare.Matches(Terminated(PrintLines(f)), Terminated(PrintLines(g)), 0)
  {
    PrintedTimes(f);
    PrintedTimes(g);
    hide Print, Compare.Time;
    SamePrints(f, g);
  }

  lemma {:induction false} SamePrints(f: seq<Line>, g: seq<Line>)
    requires multiset(f) == multiset(g)
    ensures multiset(Terminated(PrintLines(f))) == multiset(Terminated(PrintLines(g)))
    decreases |f|
  {
    hide Terminated, PrintLines, Print, Without;
    SameLength(f, g);
    if f == [] {
      assert f == g;
    } else {
      var k := FindFirst(f, g);
      WithoutCounts(f, 0);
      WithoutCounts(g, k);
      SamePrints(Without(f, 0), Without(g, k));
      PrintsSplit(f, 0);
      PrintsSplit(g, k);
    }
  }

  lemma FindFirst(f: seq<Line>, g: seq<Line>) returns (k: nat)
    requires multiset(f) == multiset(g) && f != []
    ensures k < |g| && g[k] == f[0]
  {
    assert f[0] in multiset(g);
    k :| 0 <= k < |g| && g[k] == f[0];
  }

  lemma PrintsSplit(f: seq<Line>, k: nat)
    requires k < |f|
    ensures multiset(Terminated(PrintLines(f)))
            == multiset(Terminated(PrintLines(Without(f, k)))) + multiset{Print(f[k]) + "\n"}
  {
    var ts := Terminated(PrintLines(f));
    assert Terminated(PrintLines(Without(f, k))) == Without(ts, k);
    WithoutCounts(ts, k);
  }

  // ----- the whole way -----

  lemma LastIsPositive(g: seq<Line>, l: Line)
    requires Wf(Heads(g + [l]))
    ensures Wf(Heads(g)) && l.time > 0
  {
    HeadsAppend(g, [l]);
    assert Heads([l]) == [HeadOf(l)];
    Snoc(Heads(g), HeadOf(l));
  }

  lemma {:induction false} TimesArePositive(f: seq<Line>)
    requires Wf(Heads(f))
    ensures forall l :: l in f ==> l.time > 0
    decreases |f|
  {
    if f != [] {
      hide Heads, Wf;
      var g, l := f[..|f| - 1], f[|f| - 1];
      assert f == g + [l];
      LastIsPositive(g, l);
      TimesArePositive(g);
    }
  }

  lemma NonSyncPositive(f: seq<Line>, g: seq<Line>)
    requires Wf(Heads(f)) && multiset(g) == multiset(NonSync(f))
    ensures Positive(g)
  {
    TimesArePositive(f);
    forall i | 0 <= i < |g| ensures g[i].time > 0 {
      assert g[i] in multiset(g);
      CountNonSync(f, g[i]);
    }
  }

  lemma SortedItems(g: seq<Line>, keep: bool)
    requires Sorted(PrintItems(g, keep))
    ensures InTimeOrder(g) && Texts(PrintItems(g, keep)) == ShownLines(g, keep)
  {
    hide Shown;
    forall i, j | 0 <= i < j < |g| ensures g[i].time <= g[j].time {
      assert PrintItems(g, keep)[i].time <= PrintItems(g, keep)[j].time;
    }
  }

  /**
    Merging a legal trace of finished threads ends with an empty heap and prints a time-ordered
    arrangement of all its lines but the `thread_sync` ones, with times or without.
  */
  method MergeFile(lines: seq<string>, keep: bool, ghost f: seq<Line>)
    returns (out: seq<string>, heapEmpty: bool, ghost merged: seq<Line>)
    requires lines == PrintLines(f) && Short(f) && Wf(Heads(f)) && Active(Heads(f)) == map[]
    ensures heapEmpty && out == ShownLines(merged, keep)
    ensures multiset(merged) == multiset(NonSync(f)) && InTimeOrder(merged) && Positive(merged)
  {
    PrintedIsReadable(f);
    ItemsOfPrinted(f, keep);
    hide Shown, Readable, Wf, Active;
    ghost var items;
    out, heapEmpty, items := Merge.Run(lines, keep);
    merged := Arrange(NonSync(f), keep, items);
    NonSyncPositive(f, merged);
    SortedItems(merged, keep);
  }

  /**
    The whole way. Take any interleaving of the traced threads in which those that registered have
    finished, print its trace file, and merge it with `-t`. The merge ends with an empty heap; the
    comparer accepts its output against every arrangement `expected` of the file's lines in time order;
    and the memory lines of the output, executed one at a time in the order printed, read what the traced
    program read and leave the memory it left.
  */
  method TraceMergeCompare(ghost cfg: Config, ghost m: Memory, ghost run: seq<Label>,
                           lines: seq<string>, expected: seq<string>, ghost arrangement: seq<Line>)
    returns (out: seq<string>, heapEmpty: bool, verdict: Compare.Outcome,
             ghost merged: seq<Line>, ghost replay: seq<Entry>)
    requires Complete(cfg, m, run)
    requires var f := Final(cfg, Initial(cfg, m), run).core.store.file;
             && Short(f) && lines == PrintLines(f)
             && multiset(arrangement) == multiset(NonSync(f)) && InTimeOrder(arrangement)
    requires expected == Terminated(PrintLines(arrangement))
    ensures heapEmpty && verdict.Equal? && out == PrintLines(merged)
    ensures var s := Final(cfg, Initial(cfg, m), run);
            && multiset(merged) == multiset(NonSync(s.core.store.file)) && InTimeOrder(merged)
            && multiset(replay) == multiset(s.log) && Shows(MemoryLines(merged), replay, s.core.store.threads)
            && Reproduces(m, replay) && RunFrom(m, replay) == s.memory && SameByteOrder(replay, s.log)
  {
    ghost var f := Final(cfg, Initial(cfg, m), run).core.store.file;
    CompleteFile(cfg, m, run);
    hide Wf, Active, Print;
    out, heapEmpty, merged := MergeFile(lines, true, f);
    assert ShownLines(merged, true) == PrintLines(merged);
    NonSyncPositive(f, arrangement);
    PrintedMatch(merged, arrangement);
    verdict := Compare.CompareFiles(Terminated(out), expected);
    replay := MergedTraceReplays(cfg, m, run, merged);
  }

  // ----- the way to the simulators -----

  /** Names of traced functions hold no tab. */
  ghost predicate PlainNames(f: seq<Line>) {
    forall l :: l in f ==> (l.event.Call? || l.event.Return?) ==> NoTab(l.event.name)
  }

  lemma {:induction false} InMemoryLines(f: seq<Line>, l: Line)
    requires l in f && l.event.Memory?
    ensures l in MemoryLines(f)
  {
    if f[|f| - 1] != l {
      assert f == f[..|f| - 1] + [f[|f| - 1]];
      InMemoryLines(f[..|f| - 1], l);
    }
  }

  /** The line of an executed access has operands an instruction can have, also that of a swap that failed. */
  lemma LegalLine(e: Entry, uid: int)
    requires e.stamp.Some? && Legal(e.access)
    ensures LegalMemory(LineOf(e, uid).event)
  {
  }

  /** Every memory line that merging leaves can be parsed. */
  lemma MergedIsParsable(f: seq<Line>, merged: seq<Line>, replay: seq<Entry>, threads: map<Tid, ThreadData>)
    requires multiset(merged) == multiset(NonSync(f)) && PlainNames(f)
    requires Shows(MemoryLines(merged), replay, threads) && forall e :: e in replay ==> Legal(e.access)
    ensures AllParsable(merged) && (NoSwitch(merged) <==> NoSwitch(f))
  {
    hide Legal, LegalMemory;
    forall l: Line ensures l in merged <==> l in f && !l.event.Sync? {
      CountNonSync(f, l);
      assert l in multiset(merged) <==> l in multiset(NonSync(f));
    }
    forall l | l in merged ensures Parsable(l.event) {
      if l.event.Memory? {
        InMemoryLines(merged, l);
        var i :| 0 <= i < |MemoryLines(merged)| && MemoryLines(merged)[i] == l;
        assert replay[i] in replay;
        LegalLine(replay[i], threads[replay[i].tid].uid);
      }
    }
  }

  lemma LogIsLegal(cfg: Config, m: Memory, run: seq<Label>, replay: seq<Entry>)
    requires Sane(cfg) && ValidRun(cfg, Initial(cfg, m), run)
    requires multiset(replay) == multiset(Final(cfg, Initial(cfg, m), run).log)
    ensures forall e :: e in replay ==> Legal(e.access)
  {
    InitialInv(cfg, m);
    RunIsAtomic(cfg, Initial(cfg, m), run);
    var s := Final(cfg, Initial(cfg, m), run);
    forall e | e in replay ensures Legal(e.access) {
      assert e in multiset(s.log);
      var k :| 0 <= k < |s.log| && s.log[k] == e;
      assert EntryOk(s, k);
    }
  }

  lemma BodiesAreTerminated(f: seq<Line>)
    ensures Terminated(ShownLines(f, false)) == PrintBodies(f)
  {
    hide PrintBody;
  }

  /**
    The way to the simulators. Merge the trace file of any such run without `-t` and let the simulation
    framework read the output. It makes the callbacks of the merged lines in order; it comes to the end
    if and only if no context change was traced; and then the memory accesses it reports are those of a
    faithful replay of the run, operand by operand.
  */
  method TraceMergeSimulate(ghost cfg: Config, ghost m: Memory, ghost run: seq<Label>, lines: seq<string>)
    returns (callbacks: seq<Callback>, completed: bool, ghost merged: seq<Line>, ghost replay: seq<Entry>)
    requires Complete(cfg, m, run)
    requires var f := Final(cfg, Initial(cfg, m), run).core.store.file;
             Short(f) && lines == PrintLines(f) && PlainNames(f)
    ensures var s := Final(cfg, Initial(cfg, m), run);
            && multiset(merged) == multiset(NonSync(s.core.store.file)) && InTimeOrder(merged)
            && multiset(replay) == multiset(s.log) && Shows(MemoryLines(merged), replay, s.core.store.threads)
            && Reproduces(m, replay) && RunFrom(m, replay) == s.memory && SameByteOrder(replay, s.log)
            && (completed <==> NoSwitch(s.core.store.file))
    ensures AllParsable(BeforeSwitch(merged)) && callbacks == Meanings(BeforeSwitch(merged), ZEROS)
    ensures forall l :: l in MemoryLines(merged) ==> LegalMemory(l.event)
    ensures completed ==> MemoryCalls(callbacks) == ExpectedCalls(MemoryLines(merged), ZEROS)
  {
    ghost var f := Final(cfg, Initial(cfg, m), run).core.store.file;
    CompleteFile(cfg, m, run);
    hide Wf, Active, Complete, Reproduces, RunFrom, SameByteOrder, InTimeOrder, MemoryCalls, ExpectedCalls, Meanings;
    var out, heapEmpty;
    out, heapEmpty, merged := MergeFile(lines, false, f);
    assert Complete(cfg, m, run);
    replay := MergedTraceReplays(cfg, m, run, merged);
    LogIsLegal(cfg, m, run, replay);
    MergedIsParsable(f, merged, replay, Final(cfg, Initial(cfg, m), run).core.store.threads);
    BodiesAreTerminated(merged);
    callbacks, completed := RunTrace(Terminated(out));
    SimulatorSeesTrace(merged, ZEROS);
    BeforeSwitchParsable(merged);
    MemoryOfMeanings(merged, ZEROS);
  }
}
