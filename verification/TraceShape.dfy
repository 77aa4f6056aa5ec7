/** The shape of a merged trace: threads start and finish in turn, and one allocation is shown. */
module TraceShape {
  import opened Options
  import opened TraceLine
  import opened TraceOrder
  import opened TraceText
  import opened Replay
  import opened TracerTrace
  import opened TracerResult
  import S = Simulators

  // ----- threads start and finish in turn -----

  /** How many lines of kind `tag` thread `u` has. */
  function CountLines(ls: seq<Line>, tag: Tag, u: int): nat {
    if ls == [] then 0
    else
      var l := ls[|ls| - 1];
      CountLines(ls[..|ls| - 1], tag, u) + (if TagOf(l.event) == tag && l.uid == u then 1 else 0)
  }

  lemma CountSnoc(ls: seq<Line>, l: Line, tag: Tag, u: int)
    ensures CountLines(ls + [l], tag, u)
            == CountLines(ls, tag, u) + (if TagOf(l.event) == tag && l.uid == u then 1 else 0)
  {
    assert (ls + [l])[..|ls|] == ls;
  }

  lemma {:induction false} CountWithout(ls: seq<Line>, k: nat, tag: Tag, u: int)
    requires k < |ls|
    ensures CountLines(ls, tag, u)
            == CountLines(Without(ls, k), tag, u) + (if TagOf(ls[k].event) == tag && ls[k].uid == u then 1 else 0)
    decreases |ls|
  {
    var n := |ls| - 1;
    if k == n {
      assert Without(ls, k) == ls[..n];
    } else {
      CountWithout(ls[..n], k, tag, u);
      assert Without(ls, k) == Without(ls[..n], k) + [ls[n]];
      CountSnoc(Without(ls[..n], k), ls[n], tag, u);
    }
  }

  /** The count does not depend on the order. */
  lemma {:induction false} CountSame(f: seq<Line>, g: seq<Line>, tag: Tag, u: int)
    requires multiset(f) == multiset(g)
    ensures CountLines(f, tag, u) == CountLines(g, tag, u)
    decreases |f|
  {
    SameLength(f, g);
    if f != [] {
      var k := FindLine(f, g);
      WithoutCounts(f, 0);
      WithoutCounts(g, k);
      CountWithout(f, 0, tag, u);
      CountWithout(g, k, tag, u);
      hide Without;
      CountSame(Without(f, 0), Without(g, k), tag, u);
    }
  }

  lemma {:induction false} CountNonSyncLines(f: seq<Line>, tag: Tag, u: int)
    requires tag != TagSync
    ensures CountLines(NonSync(f), tag, u) == CountLines(f, tag, u)
  {
    if f != [] {
      var g, l := f[..|f| - 1], f[|f| - 1];
      CountNonSyncLines(g, tag, u);
      CountSnoc(NonSync(g), l, tag, u);
      assert NonSync(g) + [] == NonSync(g);
    }
  }

  /** What the last line of a legal file does. */
  lemma LastLine(f: seq<Line>)
    requires f != [] && Wf(Heads(f))
    ensures var g, l := f[..|f| - 1], f[|f| - 1];
            var before, after, h := Heads(g), Heads(f), HeadOf(l);
            && f == g + [l] && Wf(before) && LineOk(before, h)
            && Active(after) == (if h.tag == TagFinish then Active(before) - {h.uid}
                                 else if h.uid >= 0 then Active(before)[h.uid := h.time] else Active(before))
            && Registered(after) == (if h.tag == TagRegister then Registered(before) + {h.uid} else Registered(before))
  {
    var g, l := f[..|f| - 1], f[|f| - 1];
    assert f == g + [l] && Heads(f) == Heads(g) + [HeadOf(l)];
    hide Wf, Active, Registered, Top, LastSilent, LineOk;
    Snoc(Heads(g), HeadOf(l));
  }

  /** In a legal file every thread registers and finishes at most once. */
  lemma {:induction false} OnceEach(f: seq<Line>, u: int)
    requires Wf(Heads(f))
    ensures var hs := Heads(f);
            && CountLines(f, TagRegister, u) == (if u in Registered(hs) then 1 else 0)
            && CountLines(f, TagFinish, u) == (if u in Registered(hs) && u !in Active(hs) then 1 else 0)
            && (u in Active(hs) ==> u in Registered(hs))
    decreases |f|
  {
    if f != [] {
      hide Heads, Wf, Active, Registered, Top, LastSilent;
      LastLine(f);
      OnceEach(f[..|f| - 1], u);
    } else {
      assert Heads(f) == [];
    }
  }

  /** The `tr` line of a thread whose last line so far is at `Active(Heads(f))[u]`. */
  lemma {:induction false} StartOf(f: seq<Line>, u: int) returns (l: Line)
    requires Wf(Heads(f)) && u in Active(Heads(f))
    ensures l in f && l.event.Register? && l.uid == u && l.time <= Active(Heads(f))[u]
    decreases |f|
  {
    var last := f[|f| - 1];
    LastLine(f);
    hide Heads, Wf, Active, Registered, Top, LastSilent;
    if last.uid == u && last.event.Register? {
      l := last;
    } else {
      l := StartOf(f[..|f| - 1], u);
    }
  }

  lemma {:induction false} StartBeforeFinish(f: seq<Line>, l: Line) returns (start: Line)
    requires Wf(Heads(f)) && l in f && l.event.Finish?
    ensures start in f && start.event.Register? && start.uid == l.uid && start.time < l.time
    decreases |f|
  {
    hide Heads, Wf, Active, Registered, Top, LastSilent;
    LastLine(f);
    if l == f[|f| - 1] {
      start := StartOf(f[..|f| - 1], l.uid);
    } else {
      start := StartBeforeFinish(f[..|f| - 1], l);
    }
  }

  ghost predicate StartsFirst(ls: seq<Line>, j: nat)
    requires j < |ls|
  {
    exists i :: 0 <= i < j && ls[i].event.Register? && ls[i].uid == ls[j].uid
  }

  ghost predicate InTurn(ls: seq<Line>) {
    && (forall u :: CountLines(ls, TagRegister, u) <= 1 && CountLines(ls, TagFinish, u) <= 1)
    && (forall j :: 0 <= j < |ls| && ls[j].event.Finish? ==> StartsFirst(ls, j))
  }

  lemma MergedInTurn(f: seq<Line>, merged: seq<Line>)
    requires Wf(Heads(f)) && multiset(merged) == multiset(NonSync(f)) && InTimeOrder(merged)
    ensures InTurn(merged)
  {
    forall u ensures CountLines(merged, TagRegister, u) <= 1 && CountLines(merged, TagFinish, u) <= 1 {
      OnceEach(f, u);
      CountSame(merged, NonSync(f), TagRegister, u);
      CountSame(merged, NonSync(f), TagFinish, u);
      CountNonSyncLines(f, TagRegister, u);
      CountNonSyncLines(f, TagFinish, u);
    }
    forall j | 0 <= j < |merged| && merged[j].event.Finish? ensures StartsFirst(merged, j) {
      MergedIn(f, merged, merged[j]);
      var start := StartBeforeFinish(f, merged[j]);
      MergedIn(f, merged, start);
      var i :| 0 <= i < |merged| && merged[i] == start;
      assert i < j;
    }
  }

  lemma MergedIn(f: seq<Line>, merged: seq<Line>, l: Line)
    requires multiset(merged) == multiset(NonSync(f))
    ensures l in merged <==> l in f && !l.event.Sync?
    ensures !l.event.Sync? ==> multiset(merged)[l] == multiset(f)[l]
  {
    CountNonSync(f, l);
    assert l in merged <==> l in multiset(merged);
    assert l in f <==> l in multiset(f);
  }

  lemma {:induction false} Counted(ls: seq<Line>, k: nat)
    requires k < |ls|
    ensures CountLines(ls, TagOf(ls[k].event), ls[k].uid) >= 1
  {
    CountWithout(ls, k, TagOf(ls[k].event), ls[k].uid);
  }

  lemma ShorterInTurn(ls: seq<Line>)
    requires ls != [] && InTurn(ls)
    ensures InTurn(ls[..|ls| - 1])
  {
    var g := ls[..|ls| - 1];
    assert forall u :: CountLines(g, TagRegister, u) <= CountLines(ls, TagRegister, u);
    assert forall u :: CountLines(g, TagFinish, u) <= CountLines(ls, TagFinish, u);
    forall j | 0 <= j < |g| && g[j].event.Finish? ensures StartsFirst(g, j) {
      assert StartsFirst(ls, j);
      var i :| 0 <= i < j && ls[i].event.Register? && ls[i].uid == ls[j].uid;
      assert g[i] == ls[i];
    }
  }

  /** Who is active after a trace: who has started and not finished. */
  ghost predicate RosterIs(ls: seq<Line>, r: Option<set<int>>) {
    r.Some? && forall u :: u in r.value <==> CountLines(ls, TagRegister, u) == 1 && CountLines(ls, TagFinish, u) == 0
  }

  lemma {:induction false} FindCounted(ls: seq<Line>, tag: Tag, u: int) returns (k: nat)
    requires CountLines(ls, tag, u) > 0
    ensures k < |ls| && TagOf(ls[k].event) == tag && ls[k].uid == u
  {
    var n := |ls| - 1;
    if TagOf(ls[n].event) == tag && ls[n].uid == u {
      k := n;
    } else {
      k := FindCounted(ls[..n], tag, u);
    }
  }

  lemma NoFinishYet(g: seq<Line>, l: Line)
    requires InTurn(g + [l]) && l.event.Register?
    ensures CountLines(g, TagFinish, l.uid) == 0
  {
    var ls := g + [l];
    CountSnoc(g, l, TagRegister, l.uid);
    if CountLines(g, TagFinish, l.uid) > 0 {
      var j := FindCounted(g, TagFinish, l.uid);
      assert ls[j] == g[j] && StartsFirst(ls, j);
      var i :| 0 <= i < j && ls[i].event.Register? && ls[i].uid == ls[j].uid;
      assert g[i] == ls[i];
      Counted(g, i);
      assert false;
    }
  }

  /** The callback of a line, if any, keeps the roster in step. */
  lemma RosterStep(g: seq<Line>, l: Line, r: Option<set<int>>, before: Operands)
    requires InTurn(g + [l]) && RosterIs(g, r) && Parsable(l.event)
    ensures RosterIs(g + [l], S.Roster(r.value, Made(Meaning(l, before))))
  {
    var ls := g + [l];
    assert forall u :: CountLines(ls, TagRegister, u) <= 1 && CountLines(ls, TagFinish, u) <= 1;
    forall tag, u
      ensures CountLines(ls, tag, u) == CountLines(g, tag, u) + (if TagOf(l.event) == tag && l.uid == u then 1 else 0)
    {
      CountSnoc(g, l, tag, u);
    }
    if l.event.Finish? {
      assert StartsFirst(ls, |g|);
      var i :| 0 <= i < |g| && ls[i].event.Register? && ls[i].uid == l.uid;
      Counted(g, i);
    } else if l.event.Register? {
      NoFinishYet(g, l);
    }
    OneCallback(r.value, l, before);
  }

  lemma OneCallback(active: set<int>, l: Line, before: Operands)
    requires Parsable(l.event)
    ensures S.Roster(active, Made(Meaning(l, before))) ==
            if l.event.Register? then if l.uid in active then None else Some(active + {l.uid})
            else if l.event.Finish? then if l.uid in active then Some(active - {l.uid}) else None
            else Some(active)
  {
    var cs := Made(Meaning(l, before));
    if cs != [] {
      assert cs[..0] == [];
    }
  }

  lemma {:induction false} RosterOfLines(ls: seq<Line>, before: Operands)
    requires AllParsable(ls) && InTurn(ls)
    ensures RosterIs(ls, S.Roster({}, Meanings(ls, before)))
    decreases |ls|
  {
    if ls != [] {
      var g, l := ls[..|ls| - 1], ls[|ls| - 1];
      assert ls == g + [l];
      ShorterInTurn(ls);
      RosterOfLines(g, before);
      MeaningsAppend(g, [l], before);
      OneMeaning(l, KeptAfter(g, before));
      hide InTurn, RosterIs, Meaning, S.Roster, Meanings, KeptAfter;
      S.RosterAppend({}, Meanings(g, before), Meanings([l], KeptAfter(g, before)));
      RosterStep(g, l, S.Roster({}, Meanings(g, before)), KeptAfter(g, before));
      assert S.Roster({}, Meanings(g, before)).Some? by {
        RosterExists(g, S.Roster({}, Meanings(g, before)));
      }
    }
  }

  lemma RosterExists(ls: seq<Line>, r: Option<set<int>>)
    requires RosterIs(ls, r)
    ensures r.Some?
  {
  }

  lemma OneMeaning(l: Line, before: Operands)
    requires Parsable(l.event)
    ensures AllParsable([l]) && Meanings([l], before) == Made(Meaning(l, before))
  {
    hide Meaning;
    assert Meanings([], Keep(Meaning(l, before), before)) == [];
  }

  // ----- the allocation -----

  /** The one allocation that a trace shows: its call, with the size, and later its return, with the address. */
  ghost predicate Allocation(f: seq<Line>, call: Line, ret: Line, address: int, size: int) {
    && call.event.Call? && call.event.name == S.MALLOC && call.event.arg1 == size >= 8
    && ret.event.Return? && ret.event.name == S.MALLOC && ret.event.value == address != 0
    && call.time < ret.time && multiset(f)[call] == 1 && multiset(f)[ret] == 1
    && forall l :: l in f && l != call && l != ret ==> FreesOnly(l.event)
  }

  predicate FreesOnly(e: Event) {
    e.Call? || e.Return? ==> e.name == S.FREE
  }

  /** A merged trace around the allocation. */
  datatype Parts = Parts(before: seq<Line>, between: seq<Line>, after: seq<Line>)

  function Whole(x: Parts, call: Line, ret: Line): seq<Line> {
    x.before + [call] + x.between + [ret] + x.after
  }

  ghost predicate Around(x: Parts, ret: Line) {
    && (forall l :: l in x.before || l in x.between || l in x.after ==> FreesOnly(l.event))
    && (forall l :: l in x.before || l in x.between ==> l.time <= ret.time)
  }

  lemma OnlyHere(ls: seq<Line>, k: nat, x: Line)
    requires k < |ls| && ls[k] == x && multiset(ls)[x] == 1
    ensures forall i :: 0 <= i < |ls| && i != k ==> ls[i] != x
  {
    WithoutCounts(ls, k);
    forall i | 0 <= i < |ls| && i != k ensures ls[i] != x {
      assert Without(ls, k)[if i < k then i else i - 1] == ls[i];
      assert ls[i] in multiset(Without(ls, k));
    }
  }

  lemma CutTwice(ls: seq<Line>, i: nat, j: nat)
    requires i < j < |ls|
    ensures ls == Whole(Parts(ls[..i], ls[i + 1..j], ls[j + 1..]), ls[i], ls[j])
  {
  }

  lemma PartsAround(ls: seq<Line>, i: nat, j: nat)
    requires i < j < |ls| && InTimeOrder(ls)
    requires forall k :: 0 <= k < |ls| && k != i && k != j ==> FreesOnly(ls[k].event)
    ensures Around(Parts(ls[..i], ls[i + 1..j], ls[j + 1..]), ls[j])
  {
    hide FreesOnly;
  }

  lemma SplitAround(f: seq<Line>, merged: seq<Line>, call: Line, ret: Line, address: int, size: int) returns (x: Parts)
    requires multiset(merged) == multiset(NonSync(f)) && InTimeOrder(merged) && Allocation(f, call, ret, address, size)
    ensures merged == Whole(x, call, ret) && Around(x, ret)
  {
    hide FreesOnly, Whole, Around, NonSync;
    MergedIn(f, merged, call);
    MergedIn(f, merged, ret);
    var i :| 0 <= i < |merged| && merged[i] == call;
    var j :| 0 <= j < |merged| && merged[j] == ret;
    assert i < j;
    OnlyHere(merged, i, call);
    OnlyHere(merged, j, ret);
    forall k | 0 <= k < |merged| && k != i && k != j ensures FreesOnly(merged[k].event) {
      MergedIn(f, merged, merged[k]);
    }
    x := Parts(merged[..i], merged[i + 1..j], merged[j + 1..]);
    CutTwice(merged, i, j);
    hide InTimeOrder;
    PartsAround(merged, i, j);
  }

  lemma {:induction false} FreesNothingElse(ls: seq<Line>, before: Operands)
    requires AllParsable(ls) && forall l :: l in ls ==> FreesOnly(l.event)
    ensures S.NoMalloc(Meanings(ls, before))
    decreases |ls|
  {
    if ls != [] {
      assert ls == [ls[0]] + ls[1..];
      assert FreesOnly(ls[0].event);
      FreesNothingElse(ls[1..], Keep(Meaning(ls[0], before), before));
    }
  }

  function CallbackOfCall(l: Line): Callback
    requires l.event.Call?
  {
    OnCall(l.event.name, l.uid, l.event.stackPointer, l.event.arg1, l.event.arg2, l.event.arg3)
  }

  function CallbackOfReturn(l: Line): Callback
    requires l.event.Return?
  {
    OnReturn(l.event.name, l.uid, l.event.stackPointer, l.event.value)
  }

  lemma OneLine(l: Line, before: Operands)
    requires Parsable(l.event)
    ensures AllParsable([l])
    ensures l.event.Call? ==> Meanings([l], before) == [CallbackOfCall(l)] && KeptAfter([l], before) == before
    ensures l.event.Return? ==> Meanings([l], before) == [CallbackOfReturn(l)] && KeptAfter([l], before) == before
  {
    OneMeaning(l, before);
    assert [l][1..] == [];
  }

  lemma PartsParsable(x: Parts, call: Line, ret: Line)
    requires AllParsable(Whole(x, call, ret))
    ensures AllParsable(x.before) && AllParsable(x.between) && AllParsable(x.after)
    ensures Parsable(call.event) && Parsable(ret.event)
  {
    var ls := Whole(x, call, ret);
    hide Parsable;
    assert forall l :: l in x.before || l in x.between || l in x.after || l == call || l == ret ==> l in ls;
  }

  lemma CallbacksOfWhole(x: Parts, call: Line, ret: Line) returns (o1: Operands, o2: Operands)
    requires AllParsable(x.before) && AllParsable(x.between) && AllParsable(x.after)
    requires Parsable(call.event) && Parsable(ret.event) && call.event.Call? && ret.event.Return?
    ensures AllParsable(Whole(x, call, ret))
    ensures Meanings(Whole(x, call, ret), ZEROS)
            == Meanings(x.before, ZEROS) + [CallbackOfCall(call)] + Meanings(x.between, o1) + [CallbackOfReturn(ret)]
               + Meanings(x.after, o2)
  {
    hide Parsable, Meaning, Meanings, KeptAfter;
    var a, b := x.before, x.between;
    o1 := KeptAfter(a, ZEROS);
    OneLine(call, o1);
    MeaningsAppend(a, [call], ZEROS);
    MeaningsAppend(a + [call], b, ZEROS);
    o2 := KeptAfter(a + [call] + b, ZEROS);
    OneLine(ret, o2);
    MeaningsAppend(a + [call] + b, [ret], ZEROS);
    MeaningsAppend(a + [call] + b + [ret], x.after, ZEROS);
  }

  /** The callbacks of a merged trace: up to the return of the allocation, and after it. */
  lemma CallbacksAround(x: Parts, call: Line, ret: Line, address: int, size: int)
    returns (u: S.Setup, cs: seq<Callback>, o: Operands)
    requires AllParsable(Whole(x, call, ret)) && Around(x, ret)
    requires call.event.Call? && call.event.name == S.MALLOC && call.event.arg1 == size >= 8
    requires ret.event.Return? && ret.event.name == S.MALLOC && ret.event.value == address
    ensures Meanings(Whole(x, call, ret), ZEROS) == S.CallbacksOf(u) + cs
    ensures S.Allocates(u, address, size) && S.NoMalloc(cs)
    ensures AllParsable(x.after) && cs == Meanings(x.after, o)
  {
    PartsParsable(x, call, ret);
    var o1;
    o1, o := CallbacksOfWhole(x, call, ret);
    FreesNothingElse(x.before, ZEROS);
    FreesNothingElse(x.between, o1);
    FreesNothingElse(x.after, o);
    cs := Meanings(x.after, o);
    u := S.Setup(Meanings(x.before, ZEROS), CallbackOfCall(call), Meanings(x.between, o1), CallbackOfReturn(ret));
    hide S.NoMalloc, Meanings;
  }
}
