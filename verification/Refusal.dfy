/** What the merge utility does with a trace file that is not legal for merging. */
module Refusal {
  import opened TraceLine
  import opened TraceOrder
  import opened TraceText
  import opened ThreadQueues
  import opened MergeSpec
  import opened Access
  import opened TracerStore
  import opened TracerFile
  import opened TracerCore
  import opened Tracer
  import opened TracerRuns
  import opened TracerMergeable
  import opened TracerAwake
  import opened Pipeline
  import Merge
  import Replay

  // ----- the first line that is not legal -----

  /** Line `k` comes too early: all threads have ended before it, and its time is behind the file. */
  ghost predicate EarlyAt(f: seq<Line>, k: nat) {
    && k < |f| && Wf(Heads(f[..k])) && Active(Heads(f[..k])) == map[] && EarlyHead(Heads(f[..k]), HeadOf(f[k]))
  }

  ghost predicate EarlyHead(f: seq<Head>, h: Head) {
    && h.time > 0 && (h.time < Top(f) || (h.uid == -1 && h.time <= LastSilent(f)))
    && (h.tag == TagOther || h.tag == TagRegister)
    && (h.uid == -1 || (h.tag == TagRegister && h.uid >= 0))
  }

  lemma EarlyStays(f: seq<Line>, g: seq<Line>, k: nat)
    requires EarlyAt(f, k) && f <= g
    ensures EarlyAt(g, k)
  {
    assert g[..k] == f[..k];
  }

  lemma BroadcastIsEarly(cfg: Config, s: Store, p: Tid, n: int, e: Event)
    requires p in s.threads && s.live <= s.threads.Keys && s.threads[p].buffer == [] && n > 0
    requires Wf(Heads(s.file)) && Active(Heads(s.file)) == map[]
    requires (s.threads[p].uid == -1 && TagOf(e) == TagOther) || (e.Register? && s.threads[p].uid >= 0)
    requires n < Top(Heads(s.file)) || (s.threads[p].uid == -1 && n <= LastSilent(Heads(s.file)))
    ensures EarlyAt(Broadcast(cfg, s, p, n, e).file, |s.file|)
  {
    var l, f := Line(n, s.threads[p].uid, e), Broadcast(cfg, s, p, n, e).file;
    hide Broadcast, Wf, Top, LastSilent, Active;
    BroadcastExtends(cfg, s, p, n, e);
    assert s.file + [] == s.file;
    assert f[..|s.file|] == s.file && f[|s.file|] == l;
  }

  lemma StepIsEarly(cfg: Config, c: Core, l: CoreLabel, b: int)
    requires AllInv(cfg, c, b) && CoreEnabled(cfg, c, l) && NeedsTop(cfg, c, l) && !Timely(c.store, l)
    ensures EarlyAt(CoreNext(cfg, c, l).store.file, |c.store.file|)
  {
    var s, n := c.store, NextTime(c.store);
    hide Broadcast, AwakeInv, SomeAwake, Wf, Top, LastSilent, Active, EarlyAt, Heads;
    FitsIsTimely(cfg, c, l, b);
    NobodyActive(c, b);
    match l
    case Announce(p, e) =>
      assert BufferOk(s, s.live, p);
      BroadcastIsEarly(cfg, s, p, n, e);
    case Join(p, uid) =>
      assert BufferOk(s, s.live, p);
      BroadcastIsEarly(cfg, Named(s, p, s.threads[p].(uid := uid)), p, n, Register);
    case Begin(p, uid) => BroadcastIsEarly(cfg, Named(s, p, ThreadData(uid, 0, [])), p, n, Register);
    case _ =>
  }

  /** A file that is not legal has a line that comes too early. */
  lemma {:induction false} RunIsEarly(cfg: Config, s: State, run: seq<Label>, b: int) returns (k: nat)
    requires AllInv(cfg, s.core, b) && ValidRun(cfg, s, run) && !TimelyRun(cfg, s, run)
    ensures EarlyAt(Final(cfg, s, run).core.store.file, k)
    decreases |run|
  {
    var t, c := Next(cfg, s, run[0]), CoreStep(cfg, s, run[0]);
    StepMovesCore(cfg, s, run[0]);
    hide AllInv, Enabled, Next, Timely, EarlyAt, CoreNext, CoreEnabled;
    if c.Some? && NeedsTop(cfg, s.core, c.value) && !Timely(s.core.store, c.value) {
      k := |s.core.store.file|;
      StepIsEarly(cfg, s.core, c.value, b);
      RunExtends(cfg, t, run[1..]);
      EarlyStays(t.core.store.file, Final(cfg, t, run[1..]).core.store.file, k);
    } else {
      var b' := StepKeepsAll(cfg, s, run[0], b);
      k := RunIsEarly(cfg, t, run[1..], b');
    }
  }

  // ----- what merging does at such a line -----

  /** The highest time read is that of a line to be printed, or of the last line of a thread still active. */
  ghost predicate TopIsAmong(rs: seq<Record>, n: nat)
    requires n <= |rs|
  {
    var f := RecordHeads(rs)[..n];
    || Top(f) == 0
    || (exists x :: x in ItemsTo(rs, n) && x.time == Top(f))
    || (exists u :: u in Active(f) && Active(f)[u] == Top(f))
  }

  lemma {:induction false} TopIsPrinted(rs: seq<Record>, n: nat)
    requires n <= |rs| && Wf(RecordHeads(rs)[..n])
    ensures TopIsAmong(rs, n)
    decreases n
  {
    if n > 0 {
      var f, g := RecordHeads(rs)[..n], RecordHeads(rs)[..n - 1];
      var Record(h, text) := rs[n - 1];
      assert f == g + [h];
      Snoc(g, h);
      TopIsPrinted(rs, n - 1);
      if h.time > Top(g) {
        if h.tag == TagSync {
          ActiveBounds(g, h.uid);
          assert h.uid in Active(f) && Active(f)[h.uid] == h.time;
        } else {
          assert Item(h.uid, h.time, text) in ItemsTo(rs, n);
        }
      } else {
        OldTop(rs, n);
      }
    }
  }

  lemma {:induction false} OldTop(rs: seq<Record>, n: nat)
    requires 0 < n <= |rs| && TopIsAmong(rs, n - 1)
    requires Wf(RecordHeads(rs)[..n]) && rs[n - 1].head.time <= Top(RecordHeads(rs)[..n - 1])
    ensures TopIsAmong(rs, n)
  {
    var f, g, h := RecordHeads(rs)[..n], RecordHeads(rs)[..n - 1], rs[n - 1].head;
    assert f == g + [h];
    Snoc(g, h);
    if x :| x in ItemsTo(rs, n - 1) && x.time == Top(g) {
      assert x in ItemsTo(rs, n);
    } else if u :| u in Active(g) && Active(g)[u] == Top(g) {
      ActiveBounds(g, u);
      assert u in Active(f) && Active(f)[u] == Top(f);
    }
  }

  /**
    Merging goes wrong at line `h`: the assertion on times in `enqueue` fails, or the line is written at
    once, behind a later one.
  */
  ghost predicate GoesWrong(m: MergeState, h: Head, text: string) {
    var t := Taken(m, h, text);
    || QueueFor(m.queued, h.uid).last >= h.time
    || (&& t.heap == multiset{(h.time, h.uid)} && (forall v :: v in Active(t.seen) ==> h.time <= Active(t.seen)[v])
        && !Sorted(Popped(t, h.time, h.uid).items))
  }

  lemma NotSorted(items: seq<Item>, x: Item, y: Item)
    requires x in items && y.time < x.time
    ensures !Sorted(items + [y])
  {
    var i :| 0 <= i < |items| && items[i] == x;
    assert (items + [y])[i] == x && (items + [y])[|items|] == y;
  }

  lemma NothingQueued(m: MergeState, u: int)
    requires MergeInv(m)
    ensures m.heap == multiset{} ==> QueueFor(m.queued, u).entries == []
  {
    if u in m.queued && m.queued[u].entries != [] {
      assert (m.queued[u].entries[0].time, u) in m.heap;
    }
  }

  /** Nothing is queued and a later line is already written: the line goes behind it. */
  lemma WrittenBehind(m: MergeState, h: Head, text: string, x: Item)
    requires m.heap == multiset{} && QueueFor(m.queued, h.uid).entries == []
    requires x in m.items && h.time < x.time
    requires forall v :: v in Active(m.seen + [h]) ==> h.time <= Active(m.seen + [h])[v]
    ensures GoesWrong(m, h, text)
  {
    hide Sorted, Active;
    var t := Taken(m, h, text);
    assert t.queued[h.uid].entries == [Entry(h.time, text)];
    NotSorted(m.items, x, Item(h.uid, h.time, text));
    assert Popped(t, h.time, h.uid).items == m.items + [Item(h.uid, h.time, text)];
  }

  lemma {:induction false} LatestIsWritten(m: MergeState, rs: seq<Record>, k: nat) returns (x: Item)
    requires MergeInv(m) && m.heap == multiset{} && k <= |rs|
    requires m.seen == RecordHeads(rs)[..k] && m.enqueued == ItemsTo(rs, k)
    requires Active(m.seen) == map[] && Top(m.seen) > 0
    ensures x in m.items && x.time == Top(m.seen)
  {
    TopIsPrinted(rs, k);
    AllWritten(m);
    x :| x in m.enqueued && x.time == Top(m.seen);
    assert x in multiset(m.items);
  }

  lemma {:induction false} EarlyGoesWrong(m: MergeState, rs: seq<Record>, k: nat)
    requires MergeInv(m) && m.heap == multiset{} && k < |rs|
    requires m.seen == RecordHeads(rs)[..k] && m.enqueued == ItemsTo(rs, k)
    requires Active(m.seen) == map[] && EarlyHead(m.seen, rs[k].head)
    ensures GoesWrong(m, rs[k].head, rs[k].text)
  {
    var h := rs[k].head;
    Snoc(m.seen, h);
    if h.time < Top(m.seen) {
      var x := LatestIsWritten(m, rs, k);
      NothingQueued(m, h.uid);
      hide MergeInv, GoesWrong, Top;
      WrittenBehind(m, h, rs[k].text, x);
    } else {
      assert SilentOk(m.seen, m.queued);
    }
  }

  /** In the trace file of a run that is not legal, some line comes too early. */
  lemma IllegalFile(cfg: Config, m: Memory, run: seq<Label>) returns (k: nat)
    requires Sane(cfg) && ValidRun(cfg, Initial(cfg, m), run)
    requires !Wf(Heads(Final(cfg, Initial(cfg, m), run).core.store.file))
    ensures EarlyAt(Final(cfg, Initial(cfg, m), run).core.store.file, k)
  {
    EmptyAllInv(cfg);
    MergeableWhenAwake(cfg, m, run);
    k := RunIsEarly(cfg, Initial(cfg, m), run, 0);
  }

  /** The merge utility after a legal beginning of its input. */
  method ReadLegal(lines: seq<string>, keep: bool, ghost rs: seq<Record>)
    returns (out: seq<string>, ghost m: MergeState)
    requires (forall l :: l in lines ==> Readable(l)) && rs == Records(lines, keep)
    requires Wf(RecordHeads(rs)) && Active(RecordHeads(rs)) == map[]
    ensures MergeInv(m) && m.heap == multiset{} && out == Texts(m.items)
    ensures m.seen == RecordHeads(rs) && m.enqueued == ItemsTo(rs, |rs|)
  {
    hide MergeInv;
    var merger := new Merge.Merger(keep);
    merger.ReadAll(lines, rs);
    assert RecordHeads(rs)[..|rs|] == RecordHeads(rs);
    m := merger.m;
    out := merger.out;
  }

  lemma PrintedRecords(f: seq<Line>, keep: bool, k: nat)
    requires Short(f) && k < |f|
    ensures forall s :: s in PrintLines(f) ==> Readable(s)
    ensures RecordHeads(Records(PrintLines(f), keep)) == Heads(f)
    ensures Records(PrintLines(f), keep)[k] == Record(HeadOf(f[k]), Shown(f[k], keep))
  {
    PrintedIsReadable(f);
    hide Print, PrintBody, ReadHead;
    assert f[k] in f;
    RecordOfPrinted(f[k], keep);
    assert forall i :: 0 <= i < |f| ==> RecordHeads(Records(PrintLines(f), keep))[i] == LineHeads(PrintLines(f))[i];
  }

  lemma {:induction false} ItemsOfPrefix(rs: seq<Record>, k: nat, n: nat)
    requires n <= k <= |rs|
    ensures ItemsTo(rs[..k], n) == ItemsTo(rs, n)
    decreases n
  {
    if n > 0 {
      ItemsOfPrefix(rs, k, n - 1);
    }
  }

  lemma RecordsOfPrefix(lines: seq<string>, keep: bool, rs: seq<Record>, hs: seq<Head>, k: nat)
    requires (forall s :: s in lines ==> Readable(s)) && k <= |lines|
    requires rs == Records(lines, keep) && hs == RecordHeads(rs)
    ensures forall s :: s in lines[..k] ==> Readable(s)
    ensures Records(lines[..k], keep) == rs[..k] && RecordHeads(rs[..k]) == hs[..k]
    ensures ItemsTo(rs[..k], k) == ItemsTo(rs, k)
  {
    hide Readable, RecordOf;
    ItemsOfPrefix(rs, k, k);
  }

  lemma TextsSplit(xs: seq<Item>, k: nat)
    requires k < |xs|
    ensures multiset(Texts(xs)) == multiset(Texts(Replay.Without(xs, k))) + multiset{xs[k].text}
  {
    Replay.WithoutCounts(Texts(xs), k);
    assert Texts(Replay.Without(xs, k)) == Replay.Without(Texts(xs), k);
  }

  lemma {:induction false} SameTexts(xs: seq<Item>, ys: seq<Item>)
    requires multiset(xs) == multiset(ys)
    ensures multiset(Texts(xs)) == multiset(Texts(ys))
    decreases |xs|
  {
    assert |multiset(xs)| == |xs| && |multiset(ys)| == |ys|;
    if xs == [] {
      assert ys == [];
    } else {
      assert xs[0] in multiset(ys);
      var k :| 0 <= k < |ys| && ys[k] == xs[0];
      hide Replay.Without, Texts;
      Replay.WithoutCounts(xs, 0);
      Replay.WithoutCounts(ys, k);
      SameTexts(Replay.Without(xs, 0), Replay.Without(ys, k));
      TextsSplit(xs, 0);
      TextsSplit(ys, k);
    }
  }

  /**
    Merging a trace file with a line that comes too early. Until then all goes well: all lines but
    `thread_sync` are written, in time order, and nothing waits. At that line merging goes wrong.
  */
  method MergeUpTo(lines: seq<string>, keep: bool, k: nat, ghost f: seq<Line>)
    returns (out: seq<string>, ghost m: MergeState)
    requires lines == PrintLines(f) && Short(f) && EarlyAt(f, k)
    ensures forall s :: s in lines[..k] ==> Readable(s)
    ensures out == Texts(m.items) && Sorted(m.items) && multiset(m.items) == multiset(Items(lines[..k], keep))
    ensures multiset(out) == multiset(Texts(Items(lines[..k], keep)))
    ensures GoesWrong(m, HeadOf(f[k]), Shown(f[k], keep))
  {
    PrintedRecords(f, keep, k);
    ghost var rs := Records(lines, keep);
    RecordsOfPrefix(lines, keep, rs, Heads(f), k);
    assert Heads(f)[..k] == Heads(f[..k]);
    hide MergeInv, GoesWrong, EarlyHead, Readable, Shown, Wf, Active, ItemsTo, Heads, Records;
    out, m := ReadLegal(lines[..k], keep, rs[..k]);
    EarlyGoesWrong(m, rs, k);
    Merge.AtTheEnd(m);
    SameTexts(m.items, Items(lines[..k], keep));
  }

  // ----- unregistered threads -----

  /** The last line of an unregistered thread is the latest of them. */
  lemma {:induction false} LatestSilent(f: seq<Head>)
    requires Wf(f)
    ensures LastSilent(f) >= 0 && forall h :: h in f && h.uid == -1 ==> h.time <= LastSilent(f)
    ensures LastSilent(f) > 0 ==> exists h :: h in f && h.uid == -1 && h.time == LastSilent(f)
  {
    if f != [] {
      var g, last := f[..|f| - 1], f[|f| - 1];
      assert f == g + [last];
      LatestSilent(g);
      assert last in f && forall h :: h in g ==> h in f;
    }
  }

  /**
    However far merging has come, a line of an unregistered thread passes the assertion on times in `enqueue`
    if and only if it is later than all lines of unregistered threads before it.
  */
  lemma RepeatedTimeRefused(m: MergeState, late: Head)
    requires MergeInv(m) && late.uid == -1 && late.time > 0
    ensures QueueFor(m.queued, late.uid).last < late.time <==>
            forall h :: h in m.seen && h.uid == -1 ==> h.time < late.time
  {
    assert SilentOk(m.seen, m.queued);
    LatestSilent(m.seen);
  }

  /** Merging stops at the second line of the file of two unregistered threads whose clocks fell back. */
  lemma FallBackIsRefused(cfg: Config, mem: Memory, m: MergeState)
    requires Sane(cfg) && cfg.registerThreads
    requires MergeInv(m) && m.seen == Heads([Line(1, -1, SOME_CALL)])
    ensures exists run ::
              && ValidRun(cfg, Initial(cfg, mem), run)
              && Final(cfg, Initial(cfg, mem), run).core.store.file == [Line(1, -1, SOME_CALL), Line(1, -1, SOME_CALL)]
    ensures QueueFor(m.queued, -1).last >= 1
  {
    ClocksCanFallBack(cfg, mem);
    hide ValidRun, Final, Initial, MergeInv;
    var h := HeadOf(Line(1, -1, SOME_CALL));
    assert m.seen[0] == h;
    RepeatedTimeRefused(m, h);
  }
}
