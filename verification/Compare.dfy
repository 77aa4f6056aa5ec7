/** The comparer of two merged traces: it must accept exactly the traces that differ in the order of ties. */
module Compare {
  import opened Options
  import opened Text

  /** `get_time`: the number before the first tab. */
  function Time(line: string): Option<int> {
    PyInt(line[..FirstTab(line, 0)])
  }

  // ----- sorting a bunch of lines -----

  predicate LexLe(a: string, b: string) {
    a == [] || (b != [] && (a[0] < b[0] || (a[0] == b[0] && LexLe(a[1..], b[1..]))))
  }

  lemma {:induction false} LexTotal(a: string, b: string)
    ensures LexLe(a, b) || LexLe(b, a)
    ensures LexLe(a, b) && LexLe(b, a) ==> a == b
  {
    if a != [] && b != [] {
      LexTotal(a[1..], b[1..]);
      assert a == [a[0]] + a[1..] && b == [b[0]] + b[1..];
    }
  }

  lemma {:induction false} LexTransitive(a: string, b: string, c: string)
    requires LexLe(a, b) && LexLe(b, c)
    ensures LexLe(a, c)
  {
    if a != [] && a[0] == b[0] == c[0] {
      LexTransitive(a[1..], b[1..], c[1..]);
    }
  }

  function InsertLine(x: string, s: seq<string>): seq<string> {
    if s == [] || LexLe(x, s[0]) then [x] + s else [s[0]] + InsertLine(x, s[1..])
  }

  /** `sorted` */
  function Sort(s: seq<string>): seq<string> {
    if s == [] then [] else InsertLine(s[0], Sort(s[1..]))
  }

  ghost predicate Ascending(s: seq<string>) {
    s == [] || ((forall i :: 1 <= i < |s| ==> LexLe(s[0], s[i])) && Ascending(s[1..]))
  }

  lemma {:induction false} InsertKeeps(x: string, s: seq<string>)
    requires Ascending(s)
    ensures multiset(InsertLine(x, s)) == multiset(s) + multiset{x}
    ensures Ascending(InsertLine(x, s))
  {
    if s == [] {
    } else if LexLe(x, s[0]) {
      forall i | 1 <= i < |[x] + s| ensures LexLe(x, ([x] + s)[i]) {
        if i > 1 {
          LexTransitive(x, s[0], s[i - 1]);
        }
      }
      assert ([x] + s)[1..] == s;
    } else {
      LexTotal(x, s[0]);
      InsertKeeps(x, s[1..]);
      InsertBehind(x, s);
    }
  }

  lemma FirstIsLeast(s: seq<string>, x: string)
    requires Ascending(s) && x in s
    ensures LexLe(s[0], x)
  {
    var i :| 0 <= i < |s| && s[i] == x;
    if i == 0 {
      LexTotal(x, x);
    }
  }

  lemma BehindFirst(x: string, s: seq<string>, rest: seq<string>, y: string)
    requires s != [] && Ascending(s) && LexLe(s[0], x) && y in rest
    requires multiset(rest) == multiset(s[1..]) + multiset{x}
    ensures LexLe(s[0], y)
  {
    assert y in multiset(rest);
    if y != x {
      assert y in multiset(s[1..]);
      assert y in s[1..] && y in s;
      FirstIsLeast(s, y);
    }
  }

  lemma InsertBehind(x: string, s: seq<string>)
    requires s != [] && Ascending(s) && LexLe(s[0], x) && !LexLe(x, s[0])
    requires multiset(InsertLine(x, s[1..])) == multiset(s[1..]) + multiset{x} && Ascending(InsertLine(x, s[1..]))
    ensures multiset(InsertLine(x, s)) == multiset(s) + multiset{x} && Ascending(InsertLine(x, s))
  {
    var rest := InsertLine(x, s[1..]);
    var all := [s[0]] + rest;
    assert InsertLine(x, s) == all && s == [s[0]] + s[1..];
    hide LexLe, InsertLine;
    forall i | 1 <= i < |all| ensures LexLe(all[0], all[i]) {
      BehindFirst(x, s, rest, all[i]);
    }
    assert all[1..] == rest;
  }

  lemma {:induction false} SortKeeps(s: seq<string>)
    ensures multiset(Sort(s)) == multiset(s) && Ascending(Sort(s))
  {
    if s != [] {
      SortKeeps(s[1..]);
      InsertKeeps(s[0], Sort(s[1..]));
      assert s == [s[0]] + s[1..];
    }
  }

  lemma Size(s: seq<string>, t: seq<string>)
    requires multiset(s) == multiset(t)
    ensures |s| == |t|
  {
    assert |multiset(s)| == |s| && |multiset(t)| == |t|;
  }

  lemma TailCount(s: seq<string>)
    requires s != []
    ensures multiset(s[1..]) == multiset(s) - multiset{s[0]}
  {
    assert s == [s[0]] + s[1..];
  }

  lemma SameFirst(s: seq<string>, t: seq<string>)
    requires s != [] && t != [] && Ascending(s) && Ascending(t) && multiset(s) == multiset(t)
    ensures s[0] == t[0]
  {
    assert s[0] in multiset(t) && t[0] in multiset(s);
    FirstIsLeast(s, t[0]);
    FirstIsLeast(t, s[0]);
    LexTotal(s[0], t[0]);
  }

  /** There is one ascending arrangement of a multiset. */
  lemma {:induction false} AscendingUnique(s: seq<string>, t: seq<string>)
    requires Ascending(s) && Ascending(t) && multiset(s) == multiset(t)
    ensures s == t
  {
    Size(s, t);
    if s != [] {
      SameFirst(s, t);
      TailCount(s);
      TailCount(t);
      AscendingUnique(s[1..], t[1..]);
      assert s == [s[0]] + s[1..] && t == [t[0]] + t[1..];
    }
  }

  /** Comparing sorted bunches compares them as multisets. */
  lemma SortedEqual(s: seq<string>, t: seq<string>)
    ensures Sort(s) == Sort(t) <==> multiset(s) == multiset(t)
  {
    SortKeeps(s);
    SortKeeps(t);
    if multiset(s) == multiset(t) {
      AscendingUnique(Sort(s), Sort(t));
    }
  }

  // ----- what the comparison means -----

  ghost predicate Numbered(f: seq<string>) {
    forall i :: 0 <= i < |f| ==> Time(f[i]).Some?
  }

  /** Every line has a time above `after`, and times never fall. */
  ghost predicate InOrder(f: seq<string>, after: int)
    requires Numbered(f)
  {
    && (forall i :: 0 <= i < |f| ==> Time(f[i]).value > after)
    && (forall i, j :: 0 <= i < j < |f| ==> Time(f[i]).value <= Time(f[j]).value)
  }

  /** Both are ordered by time, above `after`, and hold the same lines. */
  ghost predicate Matches(f: seq<string>, g: seq<string>, after: int) {
    Numbered(f) && Numbered(g) && InOrder(f, after) && InOrder(g, after) && multiset(f) == multiset(g)
  }

  /** `n` lines at the front of `f` have the time `t` and the next line, if there is one, has another. */
  ghost predicate Bunch(f: seq<string>, n: nat, t: int) {
    && 0 < n <= |f|
    && (forall i :: 0 <= i < n ==> Time(f[i]) == Some(t))
    && (n < |f| ==> Time(f[n]).Some? && Time(f[n]) != Some(t))
  }

  lemma Recombine(f: seq<string>, n: nat)
    requires n <= |f|
    ensures f == f[..n] + f[n..] && multiset(f) == multiset(f[..n]) + multiset(f[n..])
  {
    assert f == f[..n] + f[n..];
  }

  lemma OrderSplits(f: seq<string>, n: nat, t: int, after: int)
    requires Bunch(f, n, t)
    ensures Numbered(f) && InOrder(f, after) <==> Numbered(f[n..]) && t > after && InOrder(f[n..], t)
  {
    hide Time;
    if Numbered(f) && InOrder(f, after) {
      assert Time(f[0]) == Some(t);
      forall i | 0 <= i < |f[n..]| ensures Time(f[n..][i]).Some? && Time(f[n..][i]).value > t {
        assert f[n..][i] == f[n + i];
        assert Time(f[n - 1]).value <= Time(f[n]).value <= Time(f[n + i]).value;
      }
    }
    if Numbered(f[n..]) && t > after && InOrder(f[n..], t) {
      assert forall i :: n <= i < |f| ==> f[i] == f[n..][i - n];
    }
  }

  /** In an ordered file the lines of the first time are its first bunch. */
  lemma BunchCounts(f: seq<string>, n: nat, t: int, after: int, x: string)
    requires Bunch(f, n, t) && Numbered(f) && InOrder(f, after)
    ensures multiset(f[..n])[x] == if Time(x) == Some(t) then multiset(f)[x] else 0
  {
    Recombine(f, n);
    OrderSplits(f, n, t, after);
    if x in multiset(f[..n]) {
      var i :| 0 <= i < n && f[..n][i] == x;
    }
    if x in multiset(f[n..]) {
      var i :| 0 <= i < |f[n..]| && f[n..][i] == x;
    }
  }

  lemma SameFirstTime(f: seq<string>, g: seq<string>, n: nat, m: nat, t: int, u: int, after: int)
    requires Bunch(f, n, t) && Bunch(g, m, u) && Matches(f, g, after)
    ensures t <= u
  {
    assert g[0] in multiset(g);
    assert g[0] in multiset(f);
    var i :| 0 <= i < |f| && f[i] == g[0];
    assert Time(f[0]).value <= Time(f[i]).value;
  }

  lemma BunchesAgree(f: seq<string>, g: seq<string>, n: nat, m: nat, t: int, u: int, after: int)
    requires Bunch(f, n, t) && Bunch(g, m, u) && Matches(f, g, after)
    ensures t == u && multiset(f[..n]) == multiset(g[..m]) && multiset(f[n..]) == multiset(g[m..])
  {
    SameFirstTime(f, g, n, m, t, u, after);
    SameFirstTime(g, f, m, n, u, t, after);
    forall x: string ensures multiset(f[..n])[x] == multiset(g[..m])[x] {
      BunchCounts(f, n, t, after, x);
      BunchCounts(g, m, u, after, x);
    }
    hide Bunch, Numbered, InOrder, Time;
    RestOf(f, n);
    RestOf(g, m);
  }

  lemma RestOf(f: seq<string>, n: nat)
    requires n <= |f|
    ensures multiset(f[n..]) == multiset(f) - multiset(f[..n])
  {
    Recombine(f, n);
  }

  /** Two files match exactly if their first bunches do and the rest matches above them. */
  lemma MatchBunch(f: seq<string>, g: seq<string>, n: nat, m: nat, t: int, u: int, after: int)
    requires Bunch(f, n, t) && Bunch(g, m, u)
    ensures Matches(f, g, after) <==>
            t == u && t > after && multiset(f[..n]) == multiset(g[..m]) && Matches(f[n..], g[m..], t)
  {
    Recombine(f, n);
    Recombine(g, m);
    OrderSplits(f, n, t, after);
    OrderSplits(g, m, u, after);
    hide Bunch, Numbered, InOrder, Time;
    if Matches(f, g, after) {
      BunchesAgree(f, g, n, m, t, u, after);
    }
  }

  // ----- the program -----

  /** What `compare` returns, or Malformed for the exception that `int` raises. */
  datatype Outcome =
    | Equal
    | Differ(time1: int, time2: int, line1: nat, line2: nat)
    | Malformed

  /** An open file: its lines, none of them empty, and how many were read. */
  class Reader {
    const lines: seq<string>
    var pos: nat

    ghost predicate Valid()
      reads this
    {
      pos <= |lines| && forall i :: 0 <= i < |lines| ==> lines[i] != ""
    }

    constructor (lines: seq<string>)
      requires forall l :: l in lines ==> l != ""
      ensures Valid() && this.lines == lines && pos == 0
    {
      this.lines := lines;
      pos := 0;
      new;
      assert forall i :: 0 <= i < |lines| ==> lines[i] in lines;
    }

    /** `readline`: the empty string at the end of the file. */
    method ReadLine() returns (line: string)
      requires Valid()
      modifies this
      ensures Valid()
      ensures if old(pos) < |lines| then line == lines[old(pos)] && pos == old(pos) + 1
              else line == "" && pos == old(pos)
    {
      if pos == |lines| {
        return "";
      }
      line := lines[pos];
      pos := pos + 1;
    }

    /** The caller holds line `at` in its hands, the empty string if there is no such line. */
    ghost predicate Holds(at: nat, line: string)
      reads this
    {
      Valid() && at <= |lines| && if at < |lines| then pos == at + 1 && line == lines[at] else pos == at && line == ""
    }
  }

  /** What a call of `create_bunch` leaves behind; nothing when a number could not be read. */
  datatype BunchResult = NoBunch | BunchResult(bunch: seq<string>, lastLine: string, time: int, lineNum: nat)

  lemma SliceGrows<T>(s: seq<T>, i: nat, j: nat)
    requires i <= j < |s|
    ensures s[i..j + 1] == s[i..j] + [s[j]]
  {
  }

  /** Reads on until a line has another time. `at` is the index of the line already read. */
  method CreateBunch(f: Reader, lastLine: string, lastLineNum: nat, ghost at: nat)
    returns (r: BunchResult, ghost n: nat)
    requires f.Holds(at, lastLine) && lastLine != "" && lastLineNum == at + 1
    modifies f
    ensures r.NoBunch? ==> !Numbered(f.lines[at..])
    ensures r.BunchResult? ==>
              && at + n <= |f.lines| && Bunch(f.lines[at..], n, r.time) && r.bunch == Sort(f.lines[at..at + n])
              && f.Holds(at + n, r.lastLine) && r.lineNum == at + n + 1
  {
    hide Time, Sort;
    var bunchTime := Time(lastLine);
    n := 0;
    if bunchTime.None? {
      assert f.lines[at..][0] == lastLine;
      return NoBunch, 0;
    }
    var lineNum := lastLineNum;
    var bunch := [lastLine];
    n := 1;
    var line := f.ReadLine();
    lineNum := lineNum + 1;
    while line != "" && Time(line) == bunchTime
      invariant 0 < n && at + n <= |f.lines| && f.Holds(at + n, line) && lineNum == at + n + 1
      invariant bunch == f.lines[at..at + n]
      invariant forall i :: at <= i < at + n ==> Time(f.lines[i]) == bunchTime
      decreases |f.lines| - n
    {
      assert at + n < |f.lines| && line == f.lines[at + n];
      SliceGrows(f.lines, at, at + n);
      bunch := bunch + [line];
      n := n + 1;
      line := f.ReadLine();
      lineNum := lineNum + 1;
    }
    if line != "" && Time(line).None? {
      assert f.lines[at..][n] == line;
      return NoBunch, 0;
    }
    r := BunchResult(Sort(bunch), line, bunchTime.value, lineNum);
  }

  // ----- how far two files agree -----

  ghost predicate EndsAt(f: seq<string>, t: int) {
    if f == [] then t == 0 else Time(f[|f| - 1]) == Some(t)
  }

  /** `n` lines of `f` and `m` lines of `g` match, and `t` is the last time in them. */
  ghost predicate AgreeTo(f: seq<string>, g: seq<string>, n: nat, m: nat, t: int) {
    n <= |f| && m <= |g| && Matches(f[..n], g[..m], 0) && EndsAt(f[..n], t) && EndsAt(g[..m], t)
  }

  lemma OrderExtends(f: seq<string>, at: nat, n: nat, t: int, u: int)
    requires at <= |f| && Numbered(f[..at]) && InOrder(f[..at], 0) && EndsAt(f[..at], t)
    requires Bunch(f[at..], n, u) && u > t
    ensures Numbered(f[..at + n]) && InOrder(f[..at + n], 0) && EndsAt(f[..at + n], u)
  {
    hide Time;
    var p := f[..at + n];
    forall i | 0 <= i < |p|
      ensures Time(p[i]).Some? && 0 < Time(p[i]).value <= u
      ensures if i < at then p[i] == f[..at][i] else Time(p[i]) == Some(u)
    {
      if i >= at {
        assert p[i] == f[at..][i - at];
        LastIsNonnegative(f[..at], t);
      } else {
        assert p[i] == f[..at][i];
        assert Time(f[..at][i]).value <= Time(f[..at][at - 1]).value;
      }
    }
  }

  lemma LastIsNonnegative(f: seq<string>, t: int)
    requires Numbered(f) && InOrder(f, 0) && EndsAt(f, t)
    ensures t >= 0
  {
  }

  lemma AgreementExtends(f: seq<string>, g: seq<string>, a: nat, b: nat, n: nat, m: nat, t: int, u: int)
    requires AgreeTo(f, g, a, b, t) && u > t && Bunch(f[a..], n, u) && Bunch(g[b..], m, u)
    requires multiset(f[a..a + n]) == multiset(g[b..b + m])
    ensures AgreeTo(f, g, a + n, b + m, u)
  {
    OrderExtends(f, a, n, t, u);
    OrderExtends(g, b, m, t, u);
    SliceCount(f, a, n);
    SliceCount(g, b, m);
  }

  lemma SliceCount(f: seq<string>, a: nat, n: nat)
    requires a + n <= |f|
    ensures multiset(f[..a + n]) == multiset(f[..a]) + multiset(f[a..a + n])
  {
    assert f[..a + n] == f[..a] + f[a..a + n];
  }

  /** One step of the comparison, on what is left of both files. */
  lemma MatchStep(f: seq<string>, g: seq<string>, a: nat, b: nat, n: nat, m: nat, t: int, u: int, after: int)
    requires a <= |f| && b <= |g| && Bunch(f[a..], n, t) && Bunch(g[b..], m, u)
    ensures a + n <= |f| && b + m <= |g|
    ensures Matches(f[a..], g[b..], after) <==>
            && t == u && t > after && multiset(f[a..a + n]) == multiset(g[b..b + m])
            && Matches(f[a + n..], g[b + m..], t)
  {
    MatchBunch(f[a..], g[b..], n, m, t, u, after);
    hide Matches, Bunch;
    assert f[a..][..n] == f[a..a + n] && g[b..][..m] == g[b..b + m];
    assert f[a..][n..] == f[a + n..] && g[b..][m..] == g[b + m..];
  }

  lemma OnlyOneEnds(f: seq<string>, g: seq<string>, after: int)
    requires (f == []) != (g == [])
    ensures !Matches(f, g, after)
  {
    if Matches(f, g, after) {
      Size(f, g);
    }
  }

  lemma NumberedRest(f: seq<string>, a: nat)
    requires a <= |f| && !Numbered(f[a..])
    ensures !Numbered(f)
  {
    hide Time;
    var i :| 0 <= i < |f[a..]| && Time(f[a..][i]).None?;
    assert f[a..][i] == f[a + i];
  }

  /** Line `n` does not continue the bunch before it. */
  ghost predicate Whole(f: seq<string>, n: nat) {
    n <= |f| && (0 < n < |f| ==> Time(f[n]) != Time(f[n - 1]))
  }

  /**
    Behind `n` lines of `f` and `m` lines of `g` the files part: one of them has ended, or their next
    bunches do not agree. `line1` and `line2` are the numbers of the first lines not looked at.
  */
  ghost predicate Apart(f: seq<string>, g: seq<string>, n: nat, m: nat, t: int, line1: nat, line2: nat) {
    && n <= |f| && m <= |g|
    && (|| ((n == |f|) != (m == |g|) && line1 == n + 1 && line2 == m + 1)
        || PartAt(f[n..], g[m..], t, line1 - 1 - n, line2 - 1 - m))
  }

  ghost predicate PartAt(f: seq<string>, g: seq<string>, t: int, k: int, l: int) {
    && 0 < k <= |f| && 0 < l <= |g|
    && exists u, v ::
         Bunch(f, k, u) && Bunch(g, l, v) && (u != v || u <= t || multiset(f[..k]) != multiset(g[..l]))
  }

  /** No further bunches agree. */
  ghost predicate LastAgreement(f: seq<string>, g: seq<string>, n: nat, m: nat, t: int) {
    && AgreeTo(f, g, n, m, t)
    && forall k: nat, l: nat, u ::
         AgreeTo(f, g, k, l, u) && Whole(f, k) && Whole(g, l) ==> k <= n && l <= m && u <= t
  }

  lemma AgreementSizes(f: seq<string>, g: seq<string>, n: nat, m: nat, t: int)
    requires AgreeTo(f, g, n, m, t)
    ensures n == m
  {
    Size(f[..n], g[..m]);
  }

  /** The lines of a longer ordered prefix come after a whole one. */
  lemma OrderOfRest(f: seq<string>, n: nat, k: nat, t: int)
    requires n <= k <= |f| && Numbered(f[..k]) && InOrder(f[..k], 0) && EndsAt(f[..n], t) && Whole(f, n)
    ensures Numbered(f[n..k]) && InOrder(f[n..k], t)
  {
    hide Time;
    forall i | 0 <= i < |f[n..k]| ensures Time(f[n..k][i]).Some? && Time(f[n..k][i]).value > t {
      assert f[n..k][i] == f[..k][n + i];
      if n > 0 {
        assert f[..n][n - 1] == f[..k][n - 1] && f[n] == f[..k][n];
        assert Time(f[..k][n - 1]).value <= Time(f[..k][n]).value <= Time(f[..k][n + i]).value;
      }
    }
    assert forall i :: 0 <= i < |f[n..k]| ==> f[n..k][i] == f[..k][n + i];
  }

  lemma RestMatches(f: seq<string>, g: seq<string>, n: nat, m: nat, t: int, k: nat, l: nat, u: int)
    requires AgreeTo(f, g, n, m, t) && Whole(f, n) && Whole(g, m) && AgreeTo(f, g, k, l, u) && n <= k && m <= l
    ensures Matches(f[n..k], g[m..l], t)
  {
    hide Time, Whole, EndsAt, Numbered, InOrder;
    OrderOfRest(f, n, k, t);
    OrderOfRest(g, m, l, t);
    SliceCount(f, n, k - n);
    SliceCount(g, m, l - m);
    assert multiset(f[n..k]) == multiset(f[..k]) - multiset(f[..n]);
    assert multiset(g[m..l]) == multiset(g[..l]) - multiset(g[..m]);
  }

  /** A whole longer prefix holds the next bunch whole. */
  lemma BunchInside(f: seq<string>, n: nat, k: nat, b: nat, u: int)
    requires n < k <= |f| && Whole(f, k) && Bunch(f[n..], b, u)
    ensures b <= k - n && Bunch(f[n..k], b, u) && f[n..k][..b] == f[n..][..b]
  {
    hide Time;
    assert forall i :: n <= i < n + b ==> f[i] == f[n..][i - n];
    assert forall i :: 0 <= i < k - n ==> f[n..k][i] == f[n..][i];
  }

  /** Where the files part no longer prefixes agree. */
  lemma AgreementIsLast(f: seq<string>, g: seq<string>, n: nat, m: nat, t: int, line1: nat, line2: nat)
    requires AgreeTo(f, g, n, m, t) && Whole(f, n) && Whole(g, m) && Apart(f, g, n, m, t, line1, line2)
    ensures LastAgreement(f, g, n, m, t)
  {
    hide AgreeTo, Whole, Apart;
    forall k: nat, l: nat, u | AgreeTo(f, g, k, l, u) && Whole(f, k) && Whole(g, l) ensures k <= n && l <= m && u <= t {
      AgreementSizes(f, g, n, m, t);
      AgreementSizes(f, g, k, l, u);
      NoneFurther(f, g, n, m, t, line1, line2, k, l, u);
      ShorterEndsBefore(f, g, n, m, t, k, l, u);
    }
  }

  lemma ShorterEndsBefore(f: seq<string>, g: seq<string>, n: nat, m: nat, t: int, k: nat, l: nat, u: int)
    requires AgreeTo(f, g, n, m, t) && AgreeTo(f, g, k, l, u) && k <= n
    ensures u <= t
  {
    hide Time;
    if k == 0 {
      LastIsNonnegative(f[..n], t);
    } else {
      assert f[..k][k - 1] == f[..n][k - 1];
      assert Time(f[..n][k - 1]).value <= Time(f[..n][n - 1]).value;
    }
  }

  lemma NoneFurther(f: seq<string>, g: seq<string>, n: nat, m: nat, t: int, line1: nat, line2: nat,
                    k: nat, l: nat, u: int)
    requires AgreeTo(f, g, n, m, t) && Whole(f, n) && Whole(g, m) && Apart(f, g, n, m, t, line1, line2)
    requires AgreeTo(f, g, k, l, u) && Whole(f, k) && Whole(g, l) && n == m && k == l
    ensures k <= n
  {
    hide Matches, EndsAt, Whole, PartAt, Time;
    if n < k {
      assert PartAt(f[n..], g[n..], t, line1 - 1 - n, line2 - 1 - m);
      RestMatches(f, g, n, m, t, k, l, u);
      PartedRest(f, g, n, k, t, line1 - 1 - n, line2 - 1 - m);
    }
  }

  /** Files that part behind `n` lines do not match behind them, however far they are read. */
  lemma PartedRest(f: seq<string>, g: seq<string>, n: nat, k: nat, t: int, a: int, b: int)
    requires n < k <= |f| && k <= |g| && Whole(f, k) && Whole(g, k) && PartAt(f[n..], g[n..], t, a, b)
    ensures !Matches(f[n..k], g[n..k], t)
  {
    var v, w :| Bunch(f[n..], a, v) && Bunch(g[n..], b, w)
                && (v != w || v <= t || multiset(f[n..][..a]) != multiset(g[n..][..b]));
    BunchInside(f, n, k, a, v);
    BunchInside(g, n, k, b, w);
    hide Whole, AgreeTo, Apart, Bunch, Matches;
    MatchBunch(f[n..k], g[n..k], a, b, v, w, t);
  }

  /** What the answer tells about the two files. */
  ghost predicate Justified(f: seq<string>, g: seq<string>, r: Outcome) {
    match r
    case Equal => Matches(f, g, 0)
    case Malformed => !Numbered(f) || !Numbered(g)
    case Differ(t, u, line1, line2) =>
      && !Matches(f, g, 0) && t == u
      && exists n: nat, m: nat :: LastAgreement(f, g, n, m, t) && Apart(f, g, n, m, t, line1, line2)
  }

  /**
    `compare` with `failassert` off. Equal is returned exactly for files that are both in order with
    positive times and hold the same lines. Otherwise the two times reported are the same one, that of the
    last lines up to which the files agree: behind them one file has ended or the next bunches differ.
  */
  method Compare(f1: Reader, f2: Reader) returns (r: Outcome)
    requires f1.Valid() && f2.Valid() && f1 != f2 && f1.pos == 0 && f2.pos == 0
    modifies f1, f2
    ensures Justified(f1.lines, f2.lines, r)
  {
    hide Time, Matches, Numbered, Bunch, Sort, AgreeTo, Whole, LastAgreement, Apart;
    var line1, line2 := 1, 1;
    var last1 := f1.ReadLine();
    if last1 != "" && Time(last1).None? {
      UnreadableLine(f1.lines, 0);
      return Malformed;
    }
    var last2 := f2.ReadLine();
    if last2 != "" && Time(last2).None? {
      UnreadableLine(f2.lines, 0);
      return Malformed;
    }
    var time1, time2 := 0, 0;
    ghost var a: nat, b: nat := 0, 0;
    NothingAgrees(f1.lines, f2.lines);
    while true
      invariant f1.Holds(a, last1) && f2.Holds(b, last2) && line1 == a + 1 && line2 == b + 1 && time1 == time2
      invariant AgreeTo(f1.lines, f2.lines, a, b, time1) && Whole(f1.lines, a) && Whole(f2.lines, b)
      invariant Matches(f1.lines, f2.lines, 0) <==> Matches(f1.lines[a..], f2.lines[b..], time1)
      decreases |f1.lines| - a
    {
      var cont1, cont2 := last1 != "", last2 != "";
      if cont1 != cont2 {
        OnlyOneEnds(f1.lines[a..], f2.lines[b..], time1);
        OneEndsApart(f1.lines, f2.lines, a, b, time1);
        return Differ(time1, time2, line1, line2);
      } else if !cont1 && !cont2 {
        NothingLeft(f1.lines[a..], f2.lines[b..], time1);
        return Equal;
      }
      var r1, n := CreateBunch(f1, last1, line1, a);
      if r1.NoBunch? {
        NumberedRest(f1.lines, a);
        return Malformed;
      }
      var r2, m := CreateBunch(f2, last2, line2, b);
      if r2.NoBunch? {
        NumberedRest(f2.lines, b);
        return Malformed;
      }
      last1, line1 := r1.lastLine, r1.lineNum;
      last2, line2 := r2.lastLine, r2.lineNum;
      MatchStep(f1.lines, f2.lines, a, b, n, m, r1.time, r2.time, time1);
      SortedEqual(f1.lines[a..a + n], f2.lines[b..b + m]);
      if r1.time <= time1 || r2.time <= time2 || r1.bunch != r2.bunch || r1.time != r2.time {
        BunchesPart(f1.lines, f2.lines, a, b, n, m, time1, r1.time, r2.time);
        return Differ(time1, time2, line1, line2);
      }
      AgreementExtends(f1.lines, f2.lines, a, b, n, m, time1, r1.time);
      BunchIsWhole(f1.lines, a, n, r1.time);
      BunchIsWhole(f2.lines, b, m, r2.time);
      time1, time2 := r1.time, r2.time;
      a, b := a + n, b + m;
    }
  }

  lemma UnreadableLine(f: seq<string>, i: nat)
    requires i < |f| && Time(f[i]).None?
    ensures !Numbered(f)
  {
  }

  lemma BunchIsWhole(f: seq<string>, a: nat, n: nat, t: int)
    requires a <= |f| && Bunch(f[a..], n, t)
    ensures n > 0 && Whole(f, a + n)
  {
    hide Time;
    assert f[a..][n - 1] == f[a + n - 1];
  }

  lemma OneEndsApart(f: seq<string>, g: seq<string>, a: nat, b: nat, t: int)
    requires AgreeTo(f, g, a, b, t) && Whole(f, a) && Whole(g, b) && (a == |f|) != (b == |g|)
    ensures LastAgreement(f, g, a, b, t) && Apart(f, g, a, b, t, a + 1, b + 1)
  {
    assert a <= |f| && b <= |g|;
    hide AgreeTo, Whole;
    AgreementIsLast(f, g, a, b, t, a + 1, b + 1);
  }

  lemma BunchesPart(f: seq<string>, g: seq<string>, a: nat, b: nat, n: nat, m: nat, t: int, u: int, v: int)
    requires AgreeTo(f, g, a, b, t) && Whole(f, a) && Whole(g, b)
    requires Bunch(f[a..], n, u) && Bunch(g[b..], m, v)
    requires u != v || u <= t || multiset(f[a..a + n]) != multiset(g[b..b + m])
    ensures LastAgreement(f, g, a, b, t) && Apart(f, g, a, b, t, a + n + 1, b + m + 1)
  {
    hide Whole, LastAgreement, PartAt, Bunch;
    assert a <= |f| && b <= |g|;
    hide AgreeTo;
    NextPart(f, g, a, b, n, m, t, u, v);
    AgreementIsLast(f, g, a, b, t, a + n + 1, b + m + 1);
  }

  lemma NextPart(f: seq<string>, g: seq<string>, a: nat, b: nat, n: nat, m: nat, t: int, u: int, v: int)
    requires a <= |f| && b <= |g| && Bunch(f[a..], n, u) && Bunch(g[b..], m, v)
    requires u != v || u <= t || multiset(f[a..a + n]) != multiset(g[b..b + m])
    ensures PartAt(f[a..], g[b..], t, n, m)
  {
    assert 0 < n <= |f[a..]| && 0 < m <= |g[b..]|;
    hide Time, Bunch;
    assert f[a..][..n] == f[a..a + n] && g[b..][..m] == g[b..b + m];
  }

  lemma NothingAgrees(f: seq<string>, g: seq<string>)
    ensures AgreeTo(f, g, 0, 0, 0) && f[0..] == f && g[0..] == g && Whole(f, 0) && Whole(g, 0)
  {
  }

  lemma NothingLeft(f: seq<string>, g: seq<string>, after: int)
    requires f == [] && g == []
    ensures Matches(f, g, after)
  {
  }

  /** Opens both files and compares them. */
  method CompareFiles(lines1: seq<string>, lines2: seq<string>) returns (r: Outcome)
    requires forall l :: l in lines1 || l in lines2 ==> l != ""
    ensures r.Equal? <==> Matches(lines1, lines2, 0)
    ensures r.Malformed? ==> !Numbered(lines1) || !Numbered(lines2)
    ensures r.Differ? ==>
              && r.time1 == r.time2
              && exists n: nat, m: nat ::
                   && LastAgreement(lines1, lines2, n, m, r.time1)
                   && Apart(lines1, lines2, n, m, r.time1, r.line1, r.line2)
  {
    var f1 := new Reader(lines1);
    var f2 := new Reader(lines2);
    r := Compare(f1, f2);
  }
}
