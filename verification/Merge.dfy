/**
  The merge utility: lines go to per-thread queues; a heap of queue heads and the safe timestamp
  decide when the earliest line may be written.
*/
module Merge {
  import opened TraceLine
  import opened TraceOrder
  import opened TraceText
  import opened ThreadQueues
  import opened SafeTimestamps
  import opened MergeSpec

  /** The global map from thread ids to queues. `queued` is what is in them. */
  class QueueMap {
    var queues: map<int, ThreadQueue>
    ghost var queued: map<int, Queue>
    ghost var Repr: set<object>

    ghost predicate Separate()
      reads this, Repr
    {
      && this in Repr
      && (forall u :: u in queues ==> queues[u] in Repr && queues[u].buffer in Repr)
      && (forall u, v :: u in queues && v in queues && u != v ==>
            queues[u] != queues[v] && queues[u].buffer != queues[v].buffer)
    }

    ghost predicate Valid()
      reads this, Repr
    {
      && Separate() && queues.Keys == queued.Keys
      && (forall u :: u in queues ==>
            queues[u].Valid() && queued[u] == Queue(queues[u].entries, queues[u].maxTimestamp, queues[u].finished))
    }

    constructor ()
      ensures Valid() && fresh(Repr) && queued == map[]
    {
      queues := map[];
      queued := map[];
      Repr := {this};
    }

    /** Gets the thread's queue, or makes one. */
    method Open(u: int)
      requires Valid()
      modifies this
      ensures Valid() && fresh(Repr - old(Repr))
      ensures u in queued && queued == old(queued)[u := QueueFor(old(queued), u)]
    {
      hide Ring, Flatten, QueueOf, Increasing;
      if u !in queues {
        var q := new ThreadQueue();
        queues := queues[u := q];
        queued := queued[u := Queue([], 0, false)];
        Repr := Repr + {q, q.buffer};
      }
    }

    /** Appends a line to the thread's queue. */
    method Enqueue(u: int, time: int, text: string) returns (wasEmpty: bool)
      requires Valid() && u in queued && !queued[u].closed && time > queued[u].last && |text| <= LONGEST
      modifies this`queued, this`Repr, queues[u], queues[u].buffer
      ensures Valid() && fresh(Repr - old(Repr))
      ensures wasEmpty == (old(queued)[u].entries == [])
      ensures queued == old(queued)[u := Queue(old(queued)[u].entries + [Entry(time, text)], time, false)]
    {
      hide Ring, Flatten, QueueOf, Increasing;
      var q := queues[u];
      wasEmpty := q.Enqueue(time, text);
      assert q.maxTimestamp == time && !q.finished;
      queued := queued[u := Queue(q.entries, time, false)];
      Repr := Repr + {q.buffer};
    }

    method Close(u: int)
      requires Valid() && u in queued
      modifies this`queued, queues[u]
      ensures Valid() && Repr == old(Repr)
      ensures queued == old(queued)[u := old(queued)[u].(closed := true)]
    {
      hide Ring, Flatten, QueueOf, Increasing;
      var q := queues[u];
      q.Finish();
      queued := queued[u := queued[u].(closed := true)];
    }

    lemma UpdateTwice(queued: map<int, Queue>, u: int, q: Queue, r: Queue)
      ensures queued[u := q][u := r] == queued[u := r]
    {
    }

    /** Appends a line to its thread's queue, made if need be, and closes the queue after a `tf` line. */
    method Add(u: int, time: int, text: string, isFinish: bool) returns (wasEmpty: bool)
      requires Valid() && !QueueFor(queued, u).closed && time > QueueFor(queued, u).last && |text| <= LONGEST
      modifies Repr
      ensures Valid() && fresh(Repr - old(Repr))
      ensures wasEmpty == (QueueFor(old(queued), u).entries == [])
      ensures queued == old(queued)[u := Queue(QueueFor(old(queued), u).entries + [Entry(time, text)], time, isFinish)]
    {
      hide ThreadQueue.Valid;
      Open(u);
      wasEmpty := Enqueue(u, time, text);
      UpdateTwice(old(queued), u, QueueFor(old(queued), u), queued[u]);
      if isFinish {
        UpdateTwice(old(queued), u, queued[u], queued[u].(closed := true));
        Close(u);
      }
    }

    /** Takes the oldest line of a queue. */
    method Dequeue(u: int) returns (time: int, text: string)
      requires Valid() && u in queued && queued[u].entries != []
      modifies Repr
      ensures Valid() && Repr == old(Repr)
      ensures Entry(time, text) == old(queued)[u].entries[0]
      ensures queued == old(queued)[u := old(queued)[u].(entries := old(queued)[u].entries[1..])]
    {
      hide Ring, Flatten, QueueOf, Increasing;
      var q := queues[u];
      var notEmpty;
      notEmpty, time, text := q.Dequeue();
      assert notEmpty;
      queued := queued[u := queued[u].(entries := q.entries)];
    }

    /** The time of the next line of a queue; a queue that is empty and finished is dropped. */
    method PeekOrDrop(u: int) returns (nextTime: int)
      requires Valid() && u in queued && forall e :: e in queued[u].entries ==> e.time > 0
      modifies this
      ensures Valid() && Repr == old(Repr)
      ensures nextTime == if old(queued)[u].entries == [] then -1 else old(queued)[u].entries[0].time
      ensures queued == if old(queued)[u].entries == [] && old(queued)[u].closed then old(queued) - {u} else old(queued)
    {
      hide Ring, Flatten, QueueOf, Increasing;
      var q := queues[u];
      nextTime := q.Peek();
      if nextTime == -1 && q.finished {
        queues := queues - {u};
        queued := queued - {u};
      }
    }

    /** Takes the oldest line of a queue and looks at the next one. */
    method Shift(u: int) returns (time: int, text: string, nextTime: int)
      requires Valid() && u in queued && queued[u].entries != [] && forall e :: e in queued[u].entries ==> e.time > 0
      modifies Repr
      ensures Valid() && Repr == old(Repr)
      ensures Entry(time, text) == old(queued)[u].entries[0] && queued == QueuesAfterPop(old(queued), u)
      ensures nextTime == if old(queued)[u].entries[1..] == [] then -1 else old(queued)[u].entries[1..][0].time
    {
      hide ThreadQueue.Valid;
      time, text := Dequeue(u);
      nextTime := PeekOrDrop(u);
    }
  }

  lemma SeenIsWf(m: MergeState)
    requires MergeInv(m)
    ensures Wf(m.seen)
  {
  }

  lemma PositiveTimes(m: MergeState, u: int)
    requires MergeInv(m) && u in m.queued
    ensures forall e :: e in m.queued[u].entries ==> e.time > 0
  {
    assert QueueOk(m.seen, u, m.queued[u]);
  }

  lemma ActiveSize(f: seq<Head>, h: Head)
    requires Wf(f) && LineOk(f, h)
    ensures |Active(f + [h])| ==
            if h.tag == TagRegister then |Active(f)| + 1
            else if h.tag == TagFinish then |Active(f)| - 1
            else |Active(f)|
  {
    Snoc(f, h);
    var before, after := Active(f), Active(f + [h]);
    if h.tag == TagRegister && h.uid in before {
      ActiveBounds(f, h.uid);
    }
    if h.tag == TagFinish {
      assert before.Keys == after.Keys + {h.uid};
    } else if h.uid >= 0 {
      assert after.Keys == before.Keys + {h.uid};
    }
  }

  /** The earliest of the last times never falls, and it stays within the times seen. */
  lemma MinimumRises(f: seq<Head>, h: Head, cache: int, m: int)
    requires Wf(f) && LineOk(f, h) && cache <= Top(f) && (Active(f) == map[] || IsMinimum(cache, Active(f)))
    requires IsMinimum(m, Active(f + [h]))
    ensures cache <= m <= Top(f + [h])
  {
    Snoc(f, h);
    var u :| u in Active(f + [h]) && Active(f + [h])[u] == m;
    ActiveBounds(f + [h], u);
    if u in Active(f) {
      assert cache <= Active(f)[u];
    }
  }

  lemma ActiveAfter(f: seq<Head>, h: Head)
    requires Wf(f) && LineOk(f, h)
    ensures Wf(f + [h]) && Top(f) <= Top(f + [h])
    ensures h.tag == TagFinish ==> h.uid in Active(f) && Active(f + [h]) == Active(f) - {h.uid}
    ensures h.tag != TagFinish && h.uid >= 0 ==> Active(f + [h]) == Active(f)[h.uid := h.time]
    ensures h.tag != TagFinish && h.uid < 0 ==> Active(f + [h]) == Active(f)
    ensures h.uid in Active(f) ==> Active(f)[h.uid] < h.time
  {
    Snoc(f, h);
    if h.uid in Active(f) {
      ActiveBounds(f, h.uid);
    }
  }

  lemma PrefixIsWf(f: seq<Head>, i: nat)
    requires Wf(f) && i < |f|
    ensures Wf(f[..i]) && LineOk(f[..i], f[i])
    decreases |f|
  {
    var g := f[..|f| - 1];
    if i < |f| - 1 {
      PrefixIsWf(g, i);
      assert g[..i] == f[..i];
    }
  }

  lemma NextRecord(rs: seq<Record>, i: nat)
    requires Wf(RecordHeads(rs)) && i < |rs|
    ensures LineOk(RecordHeads(rs)[..i], rs[i].head) && RecordHeads(rs)[..i + 1] == RecordHeads(rs)[..i] + [rs[i].head]
    ensures var Record(h, text) := rs[i];
            ItemsTo(rs, i + 1) == ItemsTo(rs, i) + (if h.tag == TagSync then [] else [Item(h.uid, h.time, text)])
  {
    PrefixIsWf(RecordHeads(rs), i);
  }

  /** The test of the merge loop: whether every active thread has come as far as `time`. */
  lemma NoActiveEarlier(active: map<int, int>, count: int, cache: int, time: int)
    requires count == |active| && (active == map[] || IsMinimum(cache, active))
    ensures (forall v :: v in active ==> time <= active[v]) <==> !(count > 0) || time <= cache
  {
    if active != map[] {
      var u :| u in active && active[u] == cache;
      assert count > 0;
    }
  }

  /** The state of the program: the globals of the merge utility, and in `m` what they stand for. */
  class Merger {
    const keepTimestamps: bool
    const queueMap: QueueMap
    const safe: SafeTimestamp
    var heap: multiset<(int, int)>
    var activeThreads: int
    var out: seq<string>
    ghost var m: MergeState

    /** The queues, the heap and the output are what `m` says. */
    ghost predicate InStep()
      reads this`m, this`heap, this`out, queueMap, queueMap.Repr
    {
      && queueMap.Valid() && this !in queueMap.Repr && safe !in queueMap.Repr
      && m.queued == queueMap.queued && m.heap == heap && out == Texts(m.items)
    }

    /**
      The safe timestamp is the earliest of the last times of the active threads, whenever there are any;
      its list has one entry for each of them.
    */
    ghost predicate ValidTimes(seen: seq<Head>)
      reads this`activeThreads, safe
    {
      && safe.Valid() && safe.Exact() && safe.times == Active(seen)
      && activeThreads == |Active(seen)| == |safe.list| && safe.cache <= Top(seen)
    }

    ghost predicate Valid()
      reads this, safe, queueMap, queueMap.Repr
    {
      InStep() && MergeInv(m) && ValidTimes(m.seen)
    }

    /** With no active thread left nothing waits. */
    ghost predicate Settled()
      reads this
    {
      Active(m.seen) == map[] ==> heap == multiset{}
    }

    constructor (keepTimestamps: bool)
      ensures Valid() && Settled() && fresh(queueMap.Repr) && fresh(safe) && m == START
      ensures this.keepTimestamps == keepTimestamps
    {
      this.keepTimestamps := keepTimestamps;
      queueMap := new QueueMap();
      safe := new SafeTimestamp();
      heap := multiset{};
      activeThreads := 0;
      out := [];
      m := START;
      new;
      StartInv();
      ListLength(safe.list, safe.times);
    }

    /** Counts the active threads. */
    method Count(h: Head)
      requires activeThreads == |Active(m.seen)| && Wf(m.seen) && LineOk(m.seen, h)
      modifies this`activeThreads
      ensures activeThreads == |Active(m.seen + [h])|
    {
      ActiveSize(m.seen, h);
      if h.tag == TagRegister {
        activeThreads := activeThreads + 1;
      } else if h.tag == TagFinish {
        activeThreads := activeThreads - 1;
      }
    }

    /** Notes the time of a line; nothing of this for unregistered threads. The safe timestamp never falls. */
    method NoteTime(h: Head)
      requires safe.Valid() && safe.Exact() && safe.times == Active(m.seen) && safe.cache <= Top(m.seen)
      requires Wf(m.seen) && LineOk(m.seen, h)
      modifies safe
      ensures safe.Valid() && safe.Exact() && safe.times == Active(m.seen + [h])
      ensures old(safe.cache) <= safe.cache <= Top(m.seen + [h])
    {
      ActiveAfter(m.seen, h);
      if h.tag == TagFinish {
        safe.FinishThread(h.uid);
      } else if h.uid >= 0 {
        safe.SetTime(h.uid, h.time);
        assert h.uid in safe.times;
      }
      if safe.times != map[] {
        MinimumRises(m.seen, h, old(safe.cache), safe.cache);
      } else {
        assert safe.cache == old(safe.cache);
      }
    }

    /** Counts the active threads and notes the time of a line. */
    method Observe(h: Head)
      requires ValidTimes(m.seen) && Wf(m.seen) && LineOk(m.seen, h)
      modifies this`activeThreads, safe
      ensures ValidTimes(m.seen + [h]) && safe.cache >= old(safe.cache)
    {
      Count(h);
      NoteTime(h);
      ListLength(safe.list, safe.times);
    }

    /** An entry with the least time; entries with equal times come in any order. */
    method Earliest() returns (top: (int, int))
      requires heap != multiset{}
      ensures top in heap && forall x :: x in heap ==> top.0 <= x.0
    {
      LeastExists(heap);
      top :| top in heap && forall x :: x in heap ==> top.0 <= x.0;
    }

    /** Moves the head of a queue to the output and its successor to the heap. */
    method Move(top: (int, int))
      requires queueMap.Valid() && this !in queueMap.Repr && HeadIs(queueMap.queued, top.0, top.1)
      requires forall e :: e in queueMap.queued[top.1].entries ==> e.time > 0
      modifies this`heap, this`out, queueMap.Repr
      ensures queueMap.Valid() && queueMap.Repr == old(queueMap.Repr)
      ensures queueMap.queued == QueuesAfterPop(old(queueMap.queued), top.1)
      ensures var rest := old(queueMap.queued)[top.1].entries[1..];
              heap == old(heap) - multiset{top} + (if rest == [] then multiset{} else multiset{(rest[0].time, top.1)})
      ensures out == old(out) + [old(queueMap.queued)[top.1].entries[0].text]
    {
      var time, text, nextTime := queueMap.Shift(top.1);
      assert time == top.0;
      label shifted:
      out := out + [text];
      heap := heap - multiset{top} + (if nextTime >= 0 then multiset{(nextTime, top.1)} else multiset{});
      assert unchanged@shifted(queueMap.Repr);
    }

    method Advance(top: (int, int), ghost next: MergeState)
      requires InStep() && HeadIs(m.queued, top.0, top.1) && forall e :: e in m.queued[top.1].entries ==> e.time > 0
      requires next == Popped(m, top.0, top.1)
      modifies this`heap, this`out, this`m, queueMap.Repr
      ensures InStep() && queueMap.Repr == old(queueMap.Repr) && m == next
    {
      assert top == (top.0, top.1);
      assert Texts(next.items) == out + [m.queued[top.1].entries[0].text];
      Move(top);
      label moved:
      m := next;
      assert unchanged@moved(queueMap.Repr);
    }

    /** Writes an earliest line, when no active thread can still come earlier. */
    method Write(top: (int, int))
      requires InStep() && MergeInv(m) && top in heap && forall x :: x in heap ==> top.0 <= x.0
      requires forall v :: v in Active(m.seen) ==> top.0 <= Active(m.seen)[v]
      modifies this`heap, this`out, this`m, queueMap.Repr
      ensures InStep() && MergeInv(m) && queueMap.Repr == old(queueMap.Repr)
      ensures HeadIs(old(m).queued, top.0, top.1) && m == Popped(old(m), top.0, top.1)
    {
      PoppedKeeps(m, top.0, top.1);
      PositiveTimes(m, top.1);
      Advance(top, Popped(m, top.0, top.1));
    }

    /** Nothing that is still queued may be written; with no active thread left, nothing is queued. */
    ghost predicate Prompt()
      reads this, safe
    {
      Settled() && forall x :: x in heap ==> x.0 > safe.cache
    }

    /** One round of the loop: writes an earliest line if it may be written. */
    method WriteNext() returns (keepMerging: bool)
      requires InStep() && MergeInv(m) && ValidTimes(m.seen) && heap != multiset{}
      modifies this`heap, this`out, this`m, queueMap.Repr
      ensures InStep() && MergeInv(m) && queueMap.Repr == old(queueMap.Repr)
      ensures m.seen == old(m.seen) && m.enqueued == old(m.enqueued) && old(m.items) <= m.items
      ensures if keepMerging then |m.items| == |old(m.items)| + 1
              else m == old(m) && Active(m.seen) != map[] && forall x :: x in heap ==> x.0 > safe.cache
    {
      hide MergeInv;
      var minEntry := Earliest();
      var anyThreadsActive := activeThreads > 0;
      keepMerging := !anyThreadsActive || minEntry.0 <= safe.cache;
      NoActiveEarlier(Active(m.seen), activeThreads, safe.cache, minEntry.0);
      if keepMerging {
        Write(minEntry);
      }
    }

    /** Writes as many lines as may be written. */
    method MergeReady()
      requires Valid() && heap != multiset{}
      modifies this`heap, this`out, this`m, queueMap.Repr
      ensures Valid() && Prompt() && queueMap.Repr == old(queueMap.Repr)
      ensures m.seen == old(m.seen) && m.enqueued == old(m.enqueued) && old(m.items) <= m.items
    {
      hide MergeInv, IsMinimum, Lists;
      var keepMerging := true;
      while keepMerging
        invariant InStep() && MergeInv(m) && ValidTimes(m.seen) && queueMap.Repr == old(queueMap.Repr)
        invariant m.seen == old(m.seen) && m.enqueued == old(m.enqueued) && old(m.items) <= m.items
        invariant if keepMerging then heap != multiset{} else Prompt()
        decreases |m.enqueued| - |m.items|, keepMerging
      {
        OutputIsShorter(m);
        keepMerging := WriteNext();
        keepMerging := keepMerging && heap != multiset{};
      }
    }

    /** Puts a line into its thread's queue. */
    method PutInQueue(h: Head, text: string)
      requires InStep() && !QueueFor(m.queued, h.uid).closed && QueueFor(m.queued, h.uid).last < h.time
      requires |text| <= LONGEST
      modifies this`heap, this`m, queueMap.Repr
      ensures InStep() && fresh(queueMap.Repr - old(queueMap.Repr)) && m == Taken(old(m), h, text)
    {
      ghost var next := Taken(m, h, text);
      var wasEmpty := queueMap.Add(h.uid, h.time, text, h.tag == TagFinish);
      label queued:
      if wasEmpty {
        heap := heap + multiset{(h.time, h.uid)};
      }
      m := next;
      assert unchanged@queued(queueMap.Repr);
    }

    /** Queues a line that is not a `thread_sync`, and merges. */
    method Accept(h: Head, text: string)
      requires InStep() && MergeInv(m) && ValidTimes(m.seen + [h]) && LineOk(m.seen, h) && h.tag != TagSync
      requires |text| <= LONGEST
      modifies this`heap, this`out, this`m, queueMap.Repr
      ensures InStep() && MergeInv(m) && ValidTimes(m.seen) && Prompt() && fresh(queueMap.Repr - old(queueMap.Repr))
      ensures m.seen == old(m.seen) + [h] && m.enqueued == old(m.enqueued) + [Item(h.uid, h.time, text)]
      ensures old(m.items) <= m.items
    {
      QueueAccepts(m, h);
      TakenKeeps(m, h, text);
      PutInQueue(h, text);
      MergeReady();
    }

    /** A `thread_sync` line only moves its thread's time. */
    ghost method Skip(h: Head)
      requires InStep() && MergeInv(m) && LineOk(m.seen, h) && h.tag == TagSync
      modifies this`m
      ensures InStep() && MergeInv(m) && m == old(m).(seen := old(m.seen) + [h]) && Active(m.seen) != map[]
    {
      SyncKeeps(m, h);
      m := m.(seen := m.seen + [h]);
      assert unchanged(queueMap.Repr);
    }

    /** What is known after reading the first `i` lines. */
    ghost predicate HasRead(records: seq<Record>, i: nat)
      requires i <= |records|
      reads this`m
    {
      m.seen == RecordHeads(records)[..i] && m.enqueued == ItemsTo(records, i)
    }

    /** One line of input. */
    method Process(h: Head, text: string)
      requires InStep() && MergeInv(m) && ValidTimes(m.seen) && LineOk(m.seen, h) && |text| <= LONGEST
      modifies this`heap, this`out, this`m, this`activeThreads, safe, queueMap.Repr
      ensures InStep() && MergeInv(m) && ValidTimes(m.seen) && Settled()
      ensures fresh(queueMap.Repr - old(queueMap.Repr)) && safe.cache >= old(safe.cache)
      ensures h.tag != TagSync ==> Prompt()
      ensures m.seen == old(m.seen) + [h] && old(m.items) <= m.items
      ensures m.enqueued == old(m.enqueued) + (if h.tag == TagSync then [] else [Item(h.uid, h.time, text)])
    {
      hide MergeInv, Wf, LineOk, Active, Top, SafeTimestamp.Valid, SafeTimestamp.Exact, QueueMap.Valid;
      SeenIsWf(m);
      label before:
      Observe(h);
      assert unchanged@before(queueMap.Repr);
      if h.tag == TagSync {
        Skip(h);
      } else {
        Accept(h, text);
      }
    }

    /** The head of a line and the text that is to be printed for it. */
    method Parse(line: string) returns (h: Head, text: string)
      requires Readable(line)
      ensures Record(h, text) == RecordOf(line, keepTimestamps) && |text| <= LONGEST
    {
      var pos1, timestamp, threadId, isRegister, isFinish, isSync := ParseLine(line);
      var tag :=
        if isRegister then TagRegister else if isFinish then TagFinish else if isSync then TagSync else TagOther;
      h := Head(timestamp, threadId, tag);
      text := if keepTimestamps then line else line[pos1 + 1..];
    }

    /** The driving loop. */
    method ReadAll(lines: seq<string>, ghost records: seq<Record>)
      requires (forall l :: l in lines ==> Readable(l)) && records == Records(lines, keepTimestamps)
      requires Wf(RecordHeads(records)) && HasRead(records, 0)
      requires InStep() && MergeInv(m) && ValidTimes(m.seen) && Settled()
      modifies this`heap, this`out, this`m, this`activeThreads, safe, queueMap.Repr
      ensures InStep() && MergeInv(m) && ValidTimes(m.seen) && Settled()
      ensures HasRead(records, |records|)
    {
      hide MergeInv, InStep, ValidTimes, RecordOf, ItemsTo;
      for i := 0 to |lines|
        invariant InStep() && MergeInv(m) && ValidTimes(m.seen) && Settled()
        invariant HasRead(records, i) && fresh(queueMap.Repr - old(queueMap.Repr))
      {
        var h, text := Parse(lines[i]);
        NextRecord(records, i);
        Process(h, text);
      }
    }
  }

  /** The end of the program: the heap is empty exactly when everything was written. */
  lemma AtTheEnd(m: MergeState)
    requires MergeInv(m)
    ensures Sorted(m.items) && multiset(m.items) <= multiset(m.enqueued)
    ensures forall u :: ByThread(m.items, u) <= ByThread(m.enqueued, u)
    ensures m.heap == multiset{} <==> multiset(m.items) == multiset(m.enqueued)
  {
    OutputWasRead(m.enqueued, m.items, m.queued);
    AllWritten(m);
    forall u ensures ByThread(m.items, u) <= ByThread(m.enqueued, u) {
      assert ByThread(m.enqueued, u) == ByThread(m.items, u) + Queued(m.queued, u);
    }
  }

  method MergeAll(lines: seq<string>, keepTimestamps: bool, ghost records: seq<Record>)
    returns (out: seq<string>, heapEmpty: bool, ghost items: seq<Item>)
    requires (forall l :: l in lines ==> Readable(l)) && records == Records(lines, keepTimestamps)
    requires Wf(RecordHeads(records))
    ensures var read := ItemsTo(records, |records|);
            && out == Texts(items) && Sorted(items) && multiset(items) <= multiset(read)
            && (heapEmpty <==> multiset(items) == multiset(read))
            && (forall u :: ByThread(items, u) <= ByThread(read, u))
    ensures Active(RecordHeads(records)) == map[] ==> heapEmpty
  {
    hide MergeInv;
    var merger := new Merger(keepTimestamps);
    merger.ReadAll(lines, records);
    AtTheEnd(merger.m);
    assert RecordHeads(records)[..|records|] == RecordHeads(records);
    out := merger.out;
    items := merger.m.items;
    heapEmpty := merger.heap == multiset{};
  }

  /**
    The whole program. On well-formed input the output is sorted by time, keeps the order of each thread's
    lines and contains no line that was not read; all lines but `thread_sync` are in it if and only if
    the heap ends up empty, as the assertion at the end demands, and that is so whenever every registered
    thread has finished.
  */
  method Run(lines: seq<string>, keepTimestamps: bool)
    returns (out: seq<string>, heapEmpty: bool, ghost items: seq<Item>)
    requires (forall l :: l in lines ==> Readable(l)) && Wf(LineHeads(lines))
    ensures out == Texts(items) && Sorted(items) && multiset(items) <= multiset(Items(lines, keepTimestamps))
    ensures heapEmpty <==> multiset(items) == multiset(Items(lines, keepTimestamps))
    ensures forall u :: ByThread(items, u) <= ByThread(Items(lines, keepTimestamps), u)
    ensures Active(LineHeads(lines)) == map[] ==> heapEmpty
  {
    ghost var records := Records(lines, keepTimestamps);
    assert RecordHeads(records) == LineHeads(lines);
    out, heapEmpty, items := MergeAll(lines, keepTimestamps, records);
  }
}
