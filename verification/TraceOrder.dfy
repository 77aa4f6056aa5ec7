/**
  When a sequence of line heads is a legal input for the merge utility.

  A thread's lines run from its `tr` to its `tf` in strictly increasing time, and so do the lines of
  unregistered threads (id -1), which share one queue. These lines and `tr` lines are not below any line
  before them in the file.
*/
module TraceOrder {
  import opened TraceLine

  /** The registered, unfinished threads after reading `f`, each with the time of its last line. */
  function Active(f: seq<Head>): map<int, int> {
    if f == [] then map[]
    else
      var before, h := Active(f[..|f| - 1]), f[|f| - 1];
      if h.tag == TagFinish then before - {h.uid}
      else if h.uid >= 0 then before[h.uid := h.time]
      else before
  }

  /** Every thread that has ever registered. */
  function Registered(f: seq<Head>): set<int> {
    if f == [] then {}
    else
      var before, h := Registered(f[..|f| - 1]), f[|f| - 1];
      if h.tag == TagRegister then before + {h.uid} else before
  }

  /** The highest time in `f`, 0 when there is none. */
  function Top(f: seq<Head>): (t: nat) {
    if f == [] then 0
    else
      var before, h := Top(f[..|f| - 1]), f[|f| - 1];
      if h.time > before then h.time else before
  }

  /** The time of the last line of an unregistered thread, 0 when there is none. */
  function LastSilent(f: seq<Head>): (t: int)
    ensures t <= Top(f)
  {
    if f == [] then 0
    else
      var before, h := LastSilent(f[..|f| - 1]), f[|f| - 1];
      if h.uid == -1 then h.time else before
  }

  lemma {:induction false} TopIsMaximum(f: seq<Head>)
    ensures forall h :: h in f ==> h.time <= Top(f)
    ensures Top(f) == 0 || exists h :: h in f && h.time == Top(f)
  {
    if f != [] {
      var g, h := f[..|f| - 1], f[|f| - 1];
      assert f == g + [h];
      TopIsMaximum(g);
      assert h in f;
      if Top(f) != 0 && h.time <= Top(g) {
        var m :| m in g && m.time == Top(g);
        assert m in f;
      }
    }
  }

  predicate LineOk(f: seq<Head>, h: Head) {
    && h.time > 0
    && if h.uid == -1 then h.tag == TagOther && h.time >= Top(f) && h.time > LastSilent(f)
       else if h.tag == TagRegister then h.uid >= 0 && h.uid !in Registered(f) && h.time >= Top(f)
       else h.uid in Active(f) && h.time > Active(f)[h.uid]
  }

  predicate Wf(f: seq<Head>) {
    f == [] || (Wf(f[..|f| - 1]) && LineOk(f[..|f| - 1], f[|f| - 1]))
  }

  lemma Snoc(f: seq<Head>, h: Head)
    ensures (f + [h])[..|f|] == f && (f + [h])[|f|] == h
    ensures Wf(f + [h]) == (Wf(f) && LineOk(f, h))
    ensures Active(f + [h]) == if h.tag == TagFinish then Active(f) - {h.uid}
                               else if h.uid >= 0 then Active(f)[h.uid := h.time] else Active(f)
    ensures Registered(f + [h]) == if h.tag == TagRegister then Registered(f) + {h.uid} else Registered(f)
    ensures Top(f + [h]) == if h.time > Top(f) then h.time else Top(f)
    ensures LastSilent(f + [h]) == if h.uid == -1 then h.time else LastSilent(f)
  {
    assert (f + [h])[..|f|] == f;
  }

  /** Active threads are registered, have a nonnegative id, and their last line is no later than the top. */
  lemma {:induction false} ActiveBounds(f: seq<Head>, u: int)
    requires Wf(f) && u in Active(f)
    ensures u >= 0 && u in Registered(f) && 0 < Active(f)[u] <= Top(f)
  {
    var g, h := f[..|f| - 1], f[|f| - 1];
    assert f == g + [h];
    Snoc(g, h);
    if u in Active(g) {
      ActiveBounds(g, u);
    }
    if h.uid in Active(g) {
      ActiveBounds(g, h.uid);
    }
  }

  /** Lines a registered thread may emit between its `tr` and its `tf`, in increasing time above `after`. */
  predicate Run(b: seq<Head>, uid: int, after: int) {
    b == []
    || (&& b[0].uid == uid && b[0].time > after && (b[0].tag == TagOther || b[0].tag == TagSync)
        && Run(b[1..], uid, b[0].time))
  }

  function LastTime(b: seq<Head>, after: int): int {
    if b == [] then after else b[|b| - 1].time
  }

  /** A whole buffer of an active thread may follow any legal file that ends below it. */
  lemma {:induction false} AppendRun(f: seq<Head>, b: seq<Head>, uid: int)
    requires Wf(f) && uid in Active(f) && Run(b, uid, Active(f)[uid])
    ensures Wf(f + b)
    ensures Active(f + b) == Active(f)[uid := LastTime(b, Active(f)[uid])]
    ensures Registered(f + b) == Registered(f)
    ensures Active(f)[uid] <= LastTime(b, Active(f)[uid])
    ensures Top(f) <= Top(f + b)
    ensures Top(f + b) <= Top(f) || Top(f + b) <= LastTime(b, Active(f)[uid])
    decreases |b|
  {
    if b == [] {
      assert f + b == f;
    } else {
      var g, t := f + [b[0]], Active(f)[uid];
      ActiveBounds(f, uid);
      assert LineOk(f, b[0]);
      Snoc(f, b[0]);
      assert f + b == g + b[1..];
      assert LastTime(b, t) == LastTime(b[1..], b[0].time);
      hide Wf, Active, Registered, Top, LineOk;
      AppendRun(g, b[1..], uid);
    }
  }

  lemma {:induction false} RunSnoc(b: seq<Head>, h: Head, uid: int, after: int)
    requires Run(b, uid, after) && h.uid == uid && h.time > LastTime(b, after)
    requires h.tag == TagOther || h.tag == TagSync
    ensures Run(b + [h], uid, after) && LastTime(b + [h], after) == h.time
    decreases |b|
  {
    if b == [] {
      assert b + [h] == [h];
    } else {
      assert (b + [h])[1..] == b[1..] + [h];
      assert LastTime(b[1..], b[0].time) == LastTime(b, after);
      RunSnoc(b[1..], h, uid, b[0].time);
    }
  }
}
