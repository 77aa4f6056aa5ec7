/** Decimal numbers and tab-separated fields, as the tracer prints them and its readers take them apart. */
module Text {
  import opened Options

  // ----- decimal numbers -----

  predicate IsDigit(c: char) {
    '0' <= c <= '9'
  }

  predicate IsSpace(c: char) {
    c == ' ' || c == '\t' || c == '\n' || c == '\r' || c == 11 as char || c == 12 as char
  }

  function DigitValue(c: char): nat
    requires IsDigit(c)
  {
    c as int - '0' as int
  }

  function DigitChar(d: nat): (c: char)
    requires d < 10
    ensures IsDigit(c) && DigitValue(c) == d
  {
    ('0' as int + d) as char
  }

  predicate AllDigits(s: string) {
    forall i :: 0 <= i < |s| ==> IsDigit(s[i])
  }

  /** The number written by a run of digits. */
  function Value(s: string): nat
    requires AllDigits(s)
  {
    if s == [] then 0 else 10 * Value(s[..|s| - 1]) + DigitValue(s[|s| - 1])
  }

  function PrintNat(n: nat): (s: string)
    ensures s != [] && AllDigits(s)
  {
    if n < 10 then [DigitChar(n)] else PrintNat(n / 10) + [DigitChar(n % 10)]
  }

  function PrintInt(n: int): string {
    if n < 0 then "-" + PrintNat(-n) else PrintNat(n)
  }

  /** The decimal digit `k` of `n`, counted from the right. */
  function Digit(n: nat, k: nat): nat {
    if k == 0 then n % 10 else Digit(n / 10, k - 1)
  }

  /** Numbers are printed in decimal, most significant digit first, without leading zeros. */
  lemma {:induction false} PrintedDigits(n: nat, k: nat)
    requires k < |PrintNat(n)|
    ensures PrintNat(n)[|PrintNat(n)| - 1 - k] as int == '0' as int + Digit(n, k)
    ensures PrintNat(n)[0] != '0' || n == 0
    decreases n
  {
    if n >= 10 {
      PrintedDigits(n / 10, if k == 0 then 0 else k - 1);
    }
  }

  lemma {:induction false} ValueOfPrint(n: nat)
    ensures Value(PrintNat(n)) == n
  {
    var s := PrintNat(n);
    if n >= 10 {
      ValueOfPrint(n / 10);
      assert s[..|s| - 1] == PrintNat(n / 10);
    } else {
      assert s[..|s| - 1] == [];
    }
  }

  /** The digits a string starts with. */
  function LeadingDigits(s: string): (d: string)
    ensures AllDigits(d)
  {
    if s == [] || !IsDigit(s[0]) then [] else [s[0]] + LeadingDigits(s[1..])
  }

  lemma {:induction false} LeadingOfDigits(d: string, rest: string)
    requires AllDigits(d) && (rest == [] || !IsDigit(rest[0]))
    ensures LeadingDigits(d + rest) == d
  {
    if d == [] {
      assert d + rest == rest;
    } else {
      assert (d + rest)[1..] == d[1..] + rest;
      LeadingOfDigits(d[1..], rest);
    }
  }

  function SkipSpace(s: string): string {
    if s != [] && IsSpace(s[0]) then SkipSpace(s[1..]) else s
  }

  /** `atoll`: white space, a sign, digits, and whatever follows them. */
  function Atoll(s: string): int {
    var t := SkipSpace(s);
    if t != [] && t[0] == '-' then 0 - Value(LeadingDigits(t[1..]))
    else if t != [] && t[0] == '+' then Value(LeadingDigits(t[1..]))
    else Value(LeadingDigits(t))
  }

  lemma Regroup(a: string, b: string, c: string)
    ensures a + (b + c) == (a + b) + c
  {
  }

  /** A number and what follows it, with a sign or without. */
  lemma AtollOfDigits(d: string, rest: string)
    requires d != [] && AllDigits(d) && (rest == [] || !IsDigit(rest[0]))
    ensures Atoll(d + rest) == Value(d)
    ensures Atoll("-" + (d + rest)) == 0 - Value(d)
  {
    LeadingOfDigits(d, rest);
    var s, t := d + rest, "-" + (d + rest);
    assert s[0] == d[0] && IsDigit(d[0]);
    assert t[0] == '-' && t[1..] == s;
    hide Value, LeadingDigits, AllDigits;
    assert SkipSpace(s) == s && SkipSpace(t) == t;
  }

  lemma AtollOfPrint(n: int, rest: string)
    requires rest == [] || !IsDigit(rest[0])
    ensures Atoll(PrintInt(n) + rest) == n
  {
    var m: nat := if n < 0 then -n else n;
    var d := PrintNat(m);
    ValueOfPrint(m);
    AtollOfDigits(d, rest);
    hide Atoll, Value, PrintNat;
    Regroup("-", d, rest);
  }

  // ----- what Python does with a line -----

  function StripRight(s: string): string {
    if s != [] && IsSpace(s[|s| - 1]) then StripRight(s[..|s| - 1]) else s
  }

  function Strip(s: string): string {
    StripRight(SkipSpace(s))
  }

  /** `int`: nothing when the string is no number. */
  function PyInt(s: string): Option<int> {
    var t := Strip(s);
    var d := if t != [] && (t[0] == '-' || t[0] == '+') then t[1..] else t;
    if d == [] || !AllDigits(d) then None
    else if t[0] == '-' then Some(0 - Value(d))
    else Some(Value(d))
  }

  lemma StripNothing(s: string)
    requires s != [] && !IsSpace(s[0]) && !IsSpace(s[|s| - 1])
    ensures Strip(s) == s
  {
  }

  lemma PyIntOfPrint(n: int)
    ensures PyInt(PrintInt(n)) == Some(n)
  {
    var m: nat := if n < 0 then -n else n;
    var d, s := PrintNat(m), PrintInt(n);
    ValueOfPrint(m);
    assert IsDigit(d[0]) && IsDigit(d[|d| - 1]);
    assert s[|s| - 1] == d[|d| - 1];
    hide PrintNat, Value, SkipSpace, StripRight;
    if n < 0 {
      assert s[0] == '-' && s[1..] == d;
    } else {
      assert s[0] == d[0];
    }
    StripNothing(s);
  }

  // ----- fields -----

  const TAB: char := '\t'

  predicate NoTab(s: string) {
    TAB !in s
  }

  /** `split('\t')`. */
  function Split(s: string): (fs: seq<string>)
    ensures fs != []
  {
    if s == [] then [[]]
    else
      var rest := Split(s[1..]);
      if s[0] == TAB then [[]] + rest else [[s[0]] + rest[0]] + rest[1..]
  }

  function Join(fs: seq<string>): string {
    if fs == [] then []
    else if |fs| == 1 then fs[0]
    else fs[0] + [TAB] + Join(fs[1..])
  }

  lemma {:induction false} SplitAtTab(f: string, s: string)
    requires NoTab(f)
    ensures Split(f + [TAB] + s) == [f] + Split(s)
    ensures Split(f) == [f]
  {
    if f == [] {
      assert f + [TAB] + s == [TAB] + s;
      assert ([TAB] + s)[1..] == s;
    } else {
      SplitAtTab(f[1..], s);
      assert (f + [TAB] + s)[1..] == f[1..] + [TAB] + s;
      assert [f[0]] + f[1..] == f;
    }
  }

  /** Fields without tabs come back as they were joined. */
  lemma {:induction false} SplitJoin(fs: seq<string>)
    requires fs != [] && forall i :: 0 <= i < |fs| ==> NoTab(fs[i])
    ensures Split(Join(fs)) == fs
  {
    if |fs| == 1 {
      SplitAtTab(fs[0], []);
    } else {
      SplitJoin(fs[1..]);
      SplitAtTab(fs[0], Join(fs[1..]));
    }
  }

  /** The first tab at or after `from`, the length if there is none. */
  function FirstTab(s: string, from: nat): (i: nat)
    requires from <= |s|
    ensures from <= i <= |s|
    ensures i < |s| ==> s[i] == TAB
    decreases |s| - from
  {
    if from == |s| || s[from] == TAB then from else FirstTab(s, from + 1)
  }

  lemma {:induction false} FirstTabIs(s: string, from: nat, i: nat)
    requires from <= i < |s| && s[i] == TAB && forall j :: from <= j < i ==> s[j] != TAB
    ensures FirstTab(s, from) == i
    decreases i - from
  {
    if from < i {
      FirstTabIs(s, from + 1, i);
    }
  }

  /** `strchr(s, '\t')` */
  method FindTab(s: string, from: nat) returns (i: nat)
    requires from <= |s|
    ensures i == FirstTab(s, from)
  {
    i := from;
    while i < |s| && s[i] != TAB
      invariant from <= i <= |s| && FirstTab(s, from) == FirstTab(s, i)
    {
      i := i + 1;
    }
  }

  lemma PrintHasNoTab(n: int)
    ensures NoTab(PrintInt(n))
  {
    var m: nat := if n < 0 then -n else n;
    assert AllDigits(PrintNat(m));
  }
}
