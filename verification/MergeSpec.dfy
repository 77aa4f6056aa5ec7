/**
  What the merge utility promises, on values: which lines are queued, which are in the output, and
  what every step of the merge keeps.
*/
module MergeSpec {
  import opened TraceLine
  import opened TraceOrder
  import opened Text
  import opened TraceText
  import opened ThreadQueues

  /** A line that is to appear in the output: its thread, its time, and the text to print. */
  datatype Item = Item(uid: int, time: int, text: string)

  /** The queue of one thread: its lines, the highest time it ever held, and whether its `tf` line is in. */
  datatype Queue = Queue(entries: seq<Entry>, last: int, closed: bool)

  /** The longest line that fits the read buffer. */
  const LONGEST: nat := 127

  predicate Readable(line: string) {
    |line| <= LONGEST && ReadHead(line).Some?
  }

  function LineHead(line: string): Head
    requires Readable(line)
  {
    ReadHead(line).value
  }

  function LineHeads(lines: seq<string>): (hs: seq<Head>)
    requires forall l :: l in lines ==> Readable(l)
    ensures |hs| == |lines| && forall i :: 0 <= i < |lines| ==> hs[i] == LineHead(lines[i])
  {
    seq(|lines|, i requires 0 <= i < |lines| => LineHead(lines[i]))
  }

  /** A line as the merge loop sees it: its head, and the text that is to be printed for it. */
  datatype Record = Record(head: Head, text: string)

  /** With `-t` the whole line is printed, otherwise what follows the timestamp. */
  function RecordOf(line: string, keepTimestamps: bool): Record
    requires Readable(line)
  {
    Record(LineHead(line), if keepTimestamps then line else line[FirstTab(line, 0) + 1..])
  }

  function Records(lines: seq<string>, keepTimestamps: bool): (rs: seq<Record>)
    requires forall l :: l in lines ==> Readable(l)
    ensures |rs| == |lines| && forall i :: 0 <= i < |lines| ==> rs[i] == RecordOf(lines[i], keepTimestamps)
  {
    seq(|lines|, i requires 0 <= i < |lines| => RecordOf(lines[i], keepTimestamps))
  }

  function RecordHeads(rs: seq<Record>): (hs: seq<Head>)
    ensures |hs| == |rs| && forall i :: 0 <= i < |rs| ==> hs[i] == rs[i].head
  {
    seq(|rs|, i requires 0 <= i < |rs| => rs[i].head)
  }

  /** The lines to be printed among the first `n`: all but `thread_sync`. */
  function ItemsTo(rs: seq<Record>, n: nat): seq<Item>
    requires n <= |rs|
  {
    if n == 0 then []
    else
      var Record(h, text) := rs[n - 1];
      ItemsTo(rs, n - 1) + (if h.tag == TagSync then [] else [Item(h.uid, h.time, text)])
  }

  function Items(lines: seq<string>, keepTimestamps: bool): seq<Item>
    requires forall l :: l in lines ==> Readable(l)
  {
    ItemsTo(Records(lines, keepTimestamps), |lines|)
  }

  function Texts(items: seq<Item>): (ts: seq<string>)
    ensures |ts| == |items| && forall i :: 0 <= i < |items| ==> ts[i] == items[i].text
  {
    seq(|items|, i requires 0 <= i < |items| => items[i].text)
  }

  ghost predicate Sorted(items: seq<Item>) {
    forall i, j :: 0 <= i < j < |items| ==> items[i].time <= items[j].time
  }

  // ----- the lines of one thread -----

  function ByThread(items: seq<Item>, u: int): seq<Entry> {
    if items == [] then []
    else
      var x := items[|items| - 1];
      ByThread(items[..|items| - 1], u) + (if x.uid == u then [Entry(x.time, x.text)] else [])
  }

  lemma ByThreadSnoc(items: seq<Item>, x: Item, u: int)
    ensures ByThread(items + [x], u) == ByThread(items, u) + (if x.uid == u then [Entry(x.time, x.text)] else [])
  {
    assert (items + [x])[..|items|] == items;
  }

  lemma {:induction false} CountByThread(items: seq<Item>, x: Item)
    ensures multiset(items)[x] == multiset(ByThread(items, x.uid))[Entry(x.time, x.text)]
  {
    if items != [] {
      assert items == items[..|items| - 1] + [items[|items| - 1]];
      CountByThread(items[..|items| - 1], x);
    }
  }

  function Queued(queued: map<int, Queue>, u: int): seq<Entry> {
    if u in queued then queued[u].entries else []
  }

  /** For every thread, the output and then the queue hold exactly the lines read, in order. */
  ghost predicate Delivered(enqueued: seq<Item>, items: seq<Item>, queued: map<int, Queue>) {
    forall u :: ByThread(enqueued, u) == ByThread(items, u) + Queued(queued, u)
  }

  lemma DeliveredCount(enqueued: seq<Item>, items: seq<Item>, queued: map<int, Queue>, x: Item)
    requires Delivered(enqueued, items, queued)
    ensures multiset(enqueued)[x] == multiset(items)[x] + multiset(Queued(queued, x.uid))[Entry(x.time, x.text)]
  {
    CountByThread(enqueued, x);
    CountByThread(items, x);
    assert ByThread(enqueued, x.uid) == ByThread(items, x.uid) + Queued(queued, x.uid);
  }

  /** What is in the output was read. */
  lemma OutputWasRead(enqueued: seq<Item>, items: seq<Item>, queued: map<int, Queue>)
    requires Delivered(enqueued, items, queued)
    ensures multiset(items) <= multiset(enqueued)
  {
    forall x: Item ensures multiset(items)[x] <= multiset(enqueued)[x] {
      DeliveredCount(enqueued, items, queued, x);
    }
  }

  lemma OutputIsShorter(m: MergeState)
    requires MergeInv(m)
    ensures |m.items| <= |m.enqueued|
  {
    OutputWasRead(m.enqueued, m.items, m.queued);
    SubCount(multiset(m.items), multiset(m.enqueued));
  }

  /** All that was read is in the output exactly when the heap is empty. */
  lemma AllWritten(m: MergeState)
    requires MergeInv(m)
    ensures m.heap == multiset{} <==> multiset(m.items) == multiset(m.enqueued)
  {
    if m.heap == multiset{} {
      forall x: Item ensures multiset(m.items)[x] == multiset(m.enqueued)[x] {
        DeliveredCount(m.enqueued, m.items, m.queued, x);
        assert Queued(m.queued, x.uid) == [];
      }
    } else {
      var x :| x in m.heap;
      assert HeadIs(m.queued, x.0, x.1);
      var e := m.queued[x.1].entries[0];
      DeliveredCount(m.enqueued, m.items, m.queued, Item(x.1, e.time, e.text));
    }
  }

  lemma SubCount<T>(a: multiset<T>, b: multiset<T>)
    requires a <= b
    ensures |a| <= |b|
  {
    assert b == a + (b - a);
  }

  // ----- the invariant -----

  ghost predicate HeadIs(queued: map<int, Queue>, time: int, u: int) {
    u in queued && queued[u].entries != [] && queued[u].entries[0].time == time
  }

  /** The heap holds exactly one pair for each nonempty queue: the time of its head, and the thread. */
  ghost predicate HeapOk(heap: multiset<(int, int)>, queued: map<int, Queue>) {
    && (forall x :: x in heap ==> heap[x] == 1 && HeadIs(queued, x.0, x.1))
    && (forall u :: u in queued && queued[u].entries != [] ==> (queued[u].entries[0].time, u) in heap)
  }

  ghost predicate QueueOk(seen: seq<Head>, u: int, q: Queue) {
    && Increasing(q.entries) && (forall e :: e in q.entries ==> 0 < e.time <= q.last) && q.last <= Top(seen)
    && (u in Active(seen) ==> q.last <= Active(seen)[u])
    && (q.closed <==> u != -1 && u !in Active(seen))
    && (q.closed ==> q.entries != [])
    && (u == -1 || u in Registered(seen))
  }

  /** No line still to come, queued or unread, can be earlier than `n`. */
  ghost predicate Below(n: int, seen: seq<Head>, queued: map<int, Queue>) {
    && n <= Top(seen)
    && (forall u :: u in Active(seen) ==> n <= Active(seen)[u])
    && (forall u, e :: u in queued && e in queued[u].entries ==> n <= e.time)
  }

  datatype MergeState = MergeState(
    seen: seq<Head>,
    enqueued: seq<Item>,
    items: seq<Item>,
    queued: map<int, Queue>,
    heap: multiset<(int, int)>)

  /** The queue of unregistered threads is never dropped and remembers the last time it held. */
  ghost predicate SilentOk(seen: seq<Head>, queued: map<int, Queue>) {
    QueueFor(queued, -1).last == LastSilent(seen) && !QueueFor(queued, -1).closed
  }

  ghost predicate MergeInv(m: MergeState) {
    && Wf(m.seen) && SilentOk(m.seen, m.queued)
    && Delivered(m.enqueued, m.items, m.queued)
    && HeapOk(m.heap, m.queued)
    && (forall u :: u in m.queued ==> QueueOk(m.seen, u, m.queued[u]))
    && Sorted(m.items) && (forall x :: x in m.items ==> Below(x.time, m.seen, m.queued))
  }

  const START := MergeState([], [], [], map[], multiset{})

  lemma StartInv()
    ensures MergeInv(START)
  {
  }

  // ----- reading a line -----

  lemma SeenQueue(seen: seq<Head>, h: Head, u: int, q: Queue)
    requires Wf(seen) && LineOk(seen, h) && QueueOk(seen, u, q) && h.tag != TagFinish
    ensures QueueOk(seen + [h], u, q)
  {
    Snoc(seen, h);
    if u in Active(seen) {
      ActiveBounds(seen, u);
    }
  }

  lemma SeenBelow(seen: seq<Head>, h: Head, n: int, queued: map<int, Queue>)
    requires Wf(seen) && LineOk(seen, h) && Below(n, seen, queued)
    ensures n <= h.time && Below(n, seen + [h], queued)
  {
    Snoc(seen, h);
  }

  /** A `thread_sync` line only moves its thread's time. */
  lemma SyncKeeps(m: MergeState, h: Head)
    requires MergeInv(m) && LineOk(m.seen, h) && h.tag == TagSync
    ensures MergeInv(m.(seen := m.seen + [h]))
    ensures Active(m.seen) != map[] && Active(m.seen + [h]) != map[]
  {
    Snoc(m.seen, h);
    assert h.uid in Active(m.seen) && h.uid in Active(m.seen + [h]);
    forall u | u in m.queued ensures QueueOk(m.seen + [h], u, m.queued[u]) {
      SeenQueue(m.seen, h, u, m.queued[u]);
    }
    forall x | x in m.items ensures Below(x.time, m.seen + [h], m.queued) {
      SeenBelow(m.seen, h, x.time, m.queued);
    }
  }

  /** The queue a line goes to, before the line is in it. */
  function QueueFor(queued: map<int, Queue>, u: int): Queue {
    if u in queued then queued[u] else Queue([], 0, false)
  }

  function QueueAfter(queued: map<int, Queue>, h: Head, text: string): Queue {
    var q := QueueFor(queued, h.uid);
    Queue(q.entries + [Entry(h.time, text)], h.time, q.closed || h.tag == TagFinish)
  }

  /** The line is read and queued. */
  function Taken(m: MergeState, h: Head, text: string): MergeState {
    var q := QueueFor(m.queued, h.uid);
    MergeState(
      m.seen + [h], m.enqueued + [Item(h.uid, h.time, text)], m.items,
      m.queued[h.uid := QueueAfter(m.queued, h, text)],
      if q.entries == [] then m.heap + multiset{(h.time, h.uid)} else m.heap)
  }

  /** The queue accepts the line: it is open and holds nothing as late. */
  lemma QueueAccepts(m: MergeState, h: Head)
    requires MergeInv(m) && LineOk(m.seen, h) && h.tag != TagSync
    ensures var q := QueueFor(m.queued, h.uid); !q.closed && q.last < h.time
  {
    if h.uid in m.queued {
      assert QueueOk(m.seen, h.uid, m.queued[h.uid]);
      if h.uid != -1 && h.tag == TagRegister && h.uid in Active(m.seen) {
        ActiveBounds(m.seen, h.uid);
      }
    }
  }

  lemma TakenQueue(m: MergeState, h: Head, text: string)
    requires MergeInv(m) && LineOk(m.seen, h) && h.tag != TagSync
    ensures QueueOk(m.seen + [h], h.uid, QueueAfter(m.queued, h, text))
  {
    var q, e := QueueFor(m.queued, h.uid), Entry(h.time, text);
    QueueAccepts(m, h);
    Snoc(m.seen, h);
    if h.uid in m.queued {
      assert QueueOk(m.seen, h.uid, q);
    }
    IncreasingSnoc(q.entries, e, q.last);
    if h.uid in Active(m.seen) {
      ActiveBounds(m.seen, h.uid);
    }
  }

  lemma OtherQueue(m: MergeState, h: Head, u: int)
    requires MergeInv(m) && LineOk(m.seen, h) && u in m.queued && u != h.uid
    ensures QueueOk(m.seen + [h], u, m.queued[u])
  {
    assert QueueOk(m.seen, u, m.queued[u]);
    Snoc(m.seen, h);
  }

  lemma TakenHeap(m: MergeState, h: Head, text: string)
    requires HeapOk(m.heap, m.queued)
    ensures HeapOk(Taken(m, h, text).heap, Taken(m, h, text).queued)
  {
    var t := Taken(m, h, text);
    forall x | x in t.heap ensures t.heap[x] == 1 && HeadIs(t.queued, x.0, x.1) {
      if x in m.heap {
        assert HeadIs(m.queued, x.0, x.1);
      }
    }
    forall u | u in t.queued && t.queued[u].entries != [] ensures (t.queued[u].entries[0].time, u) in t.heap {
      if u in m.queued && m.queued[u].entries != [] {
        assert (m.queued[u].entries[0].time, u) in m.heap;
      }
    }
  }

  lemma TakenDelivered(m: MergeState, h: Head, text: string)
    requires Delivered(m.enqueued, m.items, m.queued)
    ensures Delivered(Taken(m, h, text).enqueued, m.items, Taken(m, h, text).queued)
  {
    var t := Taken(m, h, text);
    forall u ensures ByThread(t.enqueued, u) == ByThread(m.items, u) + Queued(t.queued, u) {
      ByThreadSnoc(m.enqueued, Item(h.uid, h.time, text), u);
      assert ByThread(m.enqueued, u) == ByThread(m.items, u) + Queued(m.queued, u);
    }
  }

  lemma TakenBelow(m: MergeState, h: Head, text: string, n: int)
    requires MergeInv(m) && LineOk(m.seen, h) && Below(n, m.seen, m.queued)
    ensures Below(n, m.seen + [h], Taken(m, h, text).queued)
  {
    SeenBelow(m.seen, h, n, m.queued);
    var q := QueueFor(m.queued, h.uid);
    forall e | e in QueueAfter(m.queued, h, text).entries ensures n <= e.time {
      if e != Entry(h.time, text) {
        assert e in q.entries;
      }
    }
  }

  lemma TakenKeeps(m: MergeState, h: Head, text: string)
    requires MergeInv(m) && LineOk(m.seen, h) && h.tag != TagSync
    ensures MergeInv(Taken(m, h, text)) && Taken(m, h, text).heap != multiset{}
  {
    var t := Taken(m, h, text);
    Snoc(m.seen, h);
    TakenDelivered(m, h, text);
    TakenHeap(m, h, text);
    TakenQueue(m, h, text);
    forall u | u in t.queued ensures QueueOk(t.seen, u, t.queued[u]) {
      if u != h.uid {
        OtherQueue(m, h, u);
      }
    }
    forall x | x in t.items ensures Below(x.time, t.seen, t.queued) {
      TakenBelow(m, h, text, x.time);
    }
    assert (t.queued[h.uid].entries[0].time, h.uid) in t.heap;
  }

  // ----- writing a line -----

  /** The queues after the head of `u`'s queue is taken; a finished queue that is empty is gone. */
  function QueuesAfterPop(queued: map<int, Queue>, u: int): map<int, Queue>
    requires u in queued && queued[u].entries != []
  {
    var q := queued[u].(entries := queued[u].entries[1..]);
    if q.entries == [] && q.closed then queued - {u} else queued[u := q]
  }

  function Popped(m: MergeState, time: int, u: int): MergeState
    requires u in m.queued && m.queued[u].entries != []
  {
    var rest := m.queued[u].entries[1..];
    MergeState(
      m.seen, m.enqueued, m.items + [Item(u, time, m.queued[u].entries[0].text)],
      QueuesAfterPop(m.queued, u),
      m.heap - multiset{(time, u)} + (if rest == [] then multiset{} else multiset{(rest[0].time, u)}))
  }

  lemma PoppedQueues(queued: map<int, Queue>, u: int, v: int)
    requires u in queued && queued[u].entries != []
    ensures Queued(QueuesAfterPop(queued, u), v) == if v == u then queued[u].entries[1..] else Queued(queued, v)
  {
  }

  lemma PoppedThread(m: MergeState, time: int, u: int, v: int)
    requires Delivered(m.enqueued, m.items, m.queued) && HeadIs(m.queued, time, u)
    ensures ByThread(m.enqueued, v) == ByThread(Popped(m, time, u).items, v) + Queued(QueuesAfterPop(m.queued, u), v)
  {
    assert ByThread(m.enqueued, v) == ByThread(m.items, v) + Queued(m.queued, v);
    ByThreadSnoc(m.items, Item(u, time, m.queued[u].entries[0].text), v);
    PoppedQueues(m.queued, u, v);
    if v == u {
      MoveHead(ByThread(m.items, v), m.queued[u].entries);
    }
  }

  lemma MoveHead(done: seq<Entry>, waiting: seq<Entry>)
    requires waiting != []
    ensures done + waiting == done + [waiting[0]] + waiting[1..]
  {
    assert waiting == [waiting[0]] + waiting[1..];
  }

  lemma PoppedDelivered(m: MergeState, time: int, u: int)
    requires Delivered(m.enqueued, m.items, m.queued) && HeadIs(m.queued, time, u)
    ensures Delivered(m.enqueued, Popped(m, time, u).items, Popped(m, time, u).queued)
  {
    forall v
      ensures ByThread(m.enqueued, v) == ByThread(Popped(m, time, u).items, v) + Queued(QueuesAfterPop(m.queued, u), v)
    {
      PoppedThread(m, time, u, v);
    }
  }

  lemma PoppedHeap(m: MergeState, time: int, u: int)
    requires HeapOk(m.heap, m.queued) && (time, u) in m.heap
    requires u in m.queued && QueueOk(m.seen, u, m.queued[u])
    ensures HeadIs(m.queued, time, u) && HeapOk(Popped(m, time, u).heap, Popped(m, time, u).queued)
  {
    assert HeadIs(m.queued, time, u);
    var t, rest := Popped(m, time, u), m.queued[u].entries[1..];
    forall x | x in t.heap ensures t.heap[x] == 1 && HeadIs(t.queued, x.0, x.1) {
      if x in m.heap {
        assert HeadIs(m.queued, x.0, x.1);
      }
    }
    forall v | v in t.queued && t.queued[v].entries != [] ensures (t.queued[v].entries[0].time, v) in t.heap {
      if v != u {
        assert (m.queued[v].entries[0].time, v) in m.heap;
      }
    }
  }

  /** The head of an increasing queue comes first; the heads bound all that is queued. */
  lemma HeapMinimum(m: MergeState, time: int)
    requires MergeInv(m) && forall x :: x in m.heap ==> time <= x.0
    ensures forall v, e :: v in m.queued && e in m.queued[v].entries ==> time <= e.time
  {
    forall v, e | v in m.queued && e in m.queued[v].entries ensures time <= e.time {
      assert QueueOk(m.seen, v, m.queued[v]);
      assert (m.queued[v].entries[0].time, v) in m.heap;
      var i :| 0 <= i < |m.queued[v].entries| && m.queued[v].entries[i] == e;
    }
  }

  lemma PoppedQueueOk(m: MergeState, time: int, u: int)
    requires MergeInv(m) && HeadIs(m.queued, time, u)
    ensures var t := Popped(m, time, u); forall v :: v in t.queued ==> QueueOk(t.seen, v, t.queued[v])
  {
    var t := Popped(m, time, u);
    forall v | v in t.queued ensures QueueOk(t.seen, v, t.queued[v]) {
      assert QueueOk(m.seen, v, m.queued[v]);
    }
  }

  lemma PoppedBelow(m: MergeState, time: int, u: int, n: int)
    requires HeadIs(m.queued, time, u) && Below(n, m.seen, m.queued)
    ensures Below(n, m.seen, Popped(m, time, u).queued)
  {
    var t := Popped(m, time, u);
    forall v, e | v in t.queued && e in t.queued[v].entries ensures n <= e.time {
      assert e in m.queued[v].entries;
    }
  }

  lemma HeadInHeap(m: MergeState, time: int, u: int)
    requires MergeInv(m) && (time, u) in m.heap
    ensures HeadIs(m.queued, time, u) && time <= Top(m.seen)
  {
    assert HeadIs(m.queued, time, u);
    assert QueueOk(m.seen, u, m.queued[u]);
  }

  lemma PoppedSilent(m: MergeState, time: int, u: int)
    requires SilentOk(m.seen, m.queued) && HeadIs(m.queued, time, u)
    ensures SilentOk(m.seen, Popped(m, time, u).queued)
  {
  }

  /** Writing an earliest head keeps the output in order, if no active thread can still come earlier. */
  lemma PoppedKeeps(m: MergeState, time: int, u: int)
    requires MergeInv(m) && (time, u) in m.heap && forall x :: x in m.heap ==> time <= x.0
    requires forall v :: v in Active(m.seen) ==> time <= Active(m.seen)[v]
    ensures HeadIs(m.queued, time, u) && MergeInv(Popped(m, time, u))
  {
    hide SilentOk, Delivered, HeapOk, QueueOk;
    HeadInHeap(m, time, u);
    PoppedSilent(m, time, u);
    var t, e := Popped(m, time, u), m.queued[u].entries[0];
    PoppedDelivered(m, time, u);
    PoppedHeap(m, time, u);
    PoppedQueueOk(m, time, u);
    HeapMinimum(m, time);
    assert e in m.queued[u].entries;
    assert Below(time, m.seen, m.queued);
    forall x | x in t.items ensures Below(x.time, t.seen, t.queued) && x.time <= time {
      PoppedBelow(m, time, u, x.time);
      if x in m.items {
        assert Below(x.time, m.seen, m.queued);
      }
    }
    SortedSnoc(m.items, Item(u, time, e.text));
  }

  lemma SortedSnoc(items: seq<Item>, x: Item)
    requires Sorted(items) && forall y :: y in items ==> y.time <= x.time
    ensures Sorted(items + [x])
  {
  }

  lemma {:induction false} LeastExists(heap: multiset<(int, int)>)
    requires heap != multiset{}
    ensures exists x :: x in heap && forall y :: y in heap ==> x.0 <= y.0
    decreases |heap|
  {
    var x :| x in heap;
    var rest := heap - multiset{x};
    if rest != multiset{} {
      LeastExists(rest);
      var m :| m in rest && forall y :: y in rest ==> m.0 <= y.0;
      assert forall y :: y in heap ==> y == x || y in rest;
      assert m in heap;
      if x.0 <= m.0 {
        assert forall y :: y in heap ==> x.0 <= y.0;
      } else {
        assert forall y :: y in heap ==> m.0 <= y.0;
      }
    } else {
      assert heap == multiset{x};
    }
  }
}
