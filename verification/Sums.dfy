/** Sums over the threads of a program, and tallies of a list. */
module Sums {

  function Sum<T>(ts: seq<T>, f: T -> int): int {
    if ts == [] then 0 else f(ts[0]) + Sum(ts[1..], f)
  }

  lemma {:induction false} SumUpdate<T>(ts: seq<T>, i: nat, t: T, f: T -> int)
    requires i < |ts|
    ensures Sum(ts[i := t], f) == Sum(ts, f) - f(ts[i]) + f(t)
  {
    var us := ts[i := t];
    if i == 0 {
      assert us[1..] == ts[1..];
    } else {
      assert us[1..] == ts[1..][i - 1 := t];
      SumUpdate(ts[1..], i - 1, t, f);
    }
  }

  lemma OneMoreTime(a: int, n: nat)
    ensures a * (n + 1) == a + a * n
  {
  }

  lemma {:induction false} SumBounds<T>(ts: seq<T>, f: T -> int, low: int, high: int)
    requires forall t :: t in ts ==> low <= f(t) <= high
    ensures low * |ts| <= Sum(ts, f) <= high * |ts|
  {
    if ts != [] {
      assert ts[0] in ts;
      SumBounds(ts[1..], f, low, high);
      OneMoreTime(low, |ts[1..]|);
      OneMoreTime(high, |ts[1..]|);
    }
  }

  lemma {:induction false} SumSame<T>(ts: seq<T>, f: T -> int, g: T -> int)
    requires forall t :: t in ts ==> f(t) == g(t)
    ensures Sum(ts, f) == Sum(ts, g)
  {
    if ts != [] {
      assert ts[0] in ts;
      SumSame(ts[1..], f, g);
    }
  }

  lemma {:induction false} SumRepeat<T>(n: nat, t: T, f: T -> int)
    ensures Sum(seq(n, _ => t), f) == n * f(t)
  {
    if n > 0 {
      assert seq(n, _ => t)[1..] == seq(n - 1, _ => t);
      SumRepeat(n - 1, t, f);
    }
  }

  // ----- sums over thread ids -----

  function SumTo(f: nat -> nat, n: nat): nat {
    if n == 0 then 0 else SumTo(f, n - 1) + f(n - 1)
  }

  lemma {:induction false} SumChanges(f: nat -> nat, g: nat -> nat, p: nat, n: nat)
    requires forall q :: q != p ==> f(q) == g(q)
    ensures SumTo(g, n) == if p < n then SumTo(f, n) - f(p) + g(p) else SumTo(f, n)
  {
    if n > 0 {
      SumChanges(f, g, p, n - 1);
    }
  }

  lemma {:induction false} HighestTid(ps: set<nat>) returns (n: nat)
    ensures forall p :: p in ps ==> p < n
    decreases |ps|
  {
    n := 0;
    if p :| p in ps {
      assert forall q :: q in ps ==> q == p || q in ps - {p};
      n := HighestTid(ps - {p});
      if n <= p {
        n := p + 1;
      }
    }
  }

  // ----- tallies -----

  /** How often `t` is in the list. */
  function CountIn(log: seq<int>, t: int): nat {
    if log == [] then 0 else CountIn(log[..|log| - 1], t) + (if log[|log| - 1] == t then 1 else 0)
  }

  /** How often `t` is at an even place of the list. */
  function EvenIn(log: seq<int>, t: int): nat {
    if log == [] then 0
    else EvenIn(log[..|log| - 1], t) + (if log[|log| - 1] == t && (|log| - 1) % 2 == 0 then 1 else 0)
  }

  lemma InSnoc(log: seq<int>, u: int, t: int)
    ensures CountIn(log + [u], t) == CountIn(log, t) + (if u == t then 1 else 0)
    ensures EvenIn(log + [u], t) == EvenIn(log, t) + (if u == t && |log| % 2 == 0 then 1 else 0)
  {
    assert (log + [u])[..|log|] == log;
  }
}
