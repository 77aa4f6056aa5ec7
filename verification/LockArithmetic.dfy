/** Which address locks an instruction takes: shifts, blocks, indices, and the sorted lock list. */
module LockArithmetic {
  import opened TraceLine
  import opened Access

  // ----- powers of two -----

  function Pow2(k: nat): (p: nat)
    ensures p >= 1
  {
    if k == 0 then 1 else 2 * Pow2(k - 1)
  }

  /** Bitwise `&` of two naturals. */
  function BitAnd(a: nat, b: nat): nat {
    if a == 0 || b == 0 then 0
    else 2 * BitAnd(a / 2, b / 2) + (if a % 2 == 1 && b % 2 == 1 then 1 else 0)
  }

  /** `x >> k` of a natural. */
  function ShiftRight(x: nat, k: nat): nat {
    if k == 0 then x else ShiftRight(x / 2, k - 1)
  }

  predicate IsPower2(num: int) {
    num > 0 && BitAnd(num, num - 1) == 0
  }

  function Log2(num: int): nat {
    if num <= 1 then 0 else 1 + Log2(num / 2)
  }

  /** Shifts the number right until nothing is left and counts the shifts. */
  method BinaryLog(num: int) returns (l: nat)
    ensures l == Log2(num)
  {
    l := 0;
    if num <= 0 {
      return;
    }
    var unum := num / 2;
    while unum != 0
      invariant unum >= 0
      invariant Log2(num) == l + (if unum == 0 then 0 else 1 + Log2(unum))
    {
      l := l + 1;
      unum := unum / 2;
    }
  }

  lemma {:induction false} BitAndSelf(n: nat)
    ensures BitAnd(n, n) == n
  {
    if n != 0 {
      BitAndSelf(n / 2);
    }
  }

  /** The test accepts exactly the powers of two, and the logarithm finds the exponent. */
  lemma {:induction false} PowerTest(num: int)
    ensures IsPower2(num) <==> num >= 1 && num == Pow2(Log2(num))
    decreases num
  {
    if num >= 2 {
      var h := num / 2;
      PowerTest(h);
      assert Log2(num) == 1 + Log2(h) && Pow2(Log2(num)) == 2 * Pow2(Log2(h));
      if num % 2 == 0 {
        assert (num - 1) / 2 == h - 1;
      } else {
        assert (num - 1) / 2 == h;
        BitAndSelf(h);
      }
    }
  }

  lemma {:induction false} ShiftDivides(x: nat, k: nat)
    ensures ShiftRight(x, k) == x / Pow2(k)
  {
    if k > 0 {
      ShiftDivides(x / 2, k - 1);
      DivDiv(x, Pow2(k - 1));
    }
  }

  lemma DivDiv(x: nat, p: nat)
    requires p >= 1
    ensures x / 2 / p == x / (2 * p)
  {
    var q, r := x / (2 * p), x % (2 * p);
    assert x == 2 * (p * q) + r;
    assert x / 2 == p * q + r / 2;
    assert 0 <= r / 2 < p;
    QuotientIs(x / 2, p, q, r / 2);
  }

  lemma Distribute(p: int, a: int, b: int)
    ensures p * (a - b) == p * a - p * b
  {
  }

  lemma AtLeastOne(p: int, d: int)
    requires p >= 1
    ensures d >= 1 ==> p * d >= p
    ensures d <= -1 ==> p * d <= -p
  {
  }

  lemma DivMod(x: int, p: int)
    requires p >= 1
    ensures x == p * (x / p) + x % p && 0 <= x % p < p
  {
  }

  lemma QuotientIs(x: int, p: int, q: int, r: int)
    requires p >= 1 && x == p * q + r && 0 <= r < p
    ensures x / p == q && x % p == r
  {
    DivMod(x, p);
    Distribute(p, x / p, q);
    AtLeastOne(p, x / p - q);
    assert p * (x / p - q) == r - x % p;
  }

  /** Shifting by the logarithm of a power of two divides by it. */
  lemma ShiftByLog(x: nat, b: int)
    requires IsPower2(b)
    ensures ShiftRight(x, Log2(b)) == x / b
  {
    PowerTest(b);
    ShiftDivides(x, Log2(b));
  }

  // ----- the locks of one range -----

  /** The index of the lock that guards byte `x`. */
  function LockOf(x: nat, blockSize: int, numLocks: int): nat
    requires blockSize >= 1 && numLocks >= 1
  {
    x / blockSize % numLocks
  }

  /** `count` consecutive indices from `index`, wrapping at `numLocks`. */
  function IndexRun(index: nat, count: nat, numLocks: int): seq<nat>
    requires numLocks >= 1
    decreases count
  {
    if count == 0 then [] else [index] + IndexRun((index + 1) % numLocks, count - 1, numLocks)
  }

  function BlockCount(r: Range, blockSize: int): int
    requires blockSize >= 1 && r.size >= 1
  {
    (r.address + r.size - 1) / blockSize - r.address / blockSize + 1
  }

  function RangeLocks(r: Range, blockSize: int, numLocks: int): seq<nat>
    requires blockSize >= 1 && numLocks >= 1 && r.size >= 1
  {
    var count := BlockCount(r, blockSize);
    DivMonotone(r.address, r.address + r.size - 1, blockSize);
    IndexRun(LockOf(r.address, blockSize, numLocks), if count > numLocks then numLocks else count, numLocks)
  }

  lemma DivMonotone(x: int, y: int, b: int)
    requires b >= 1 && x <= y
    ensures x / b <= y / b
  {
    var d := y / b - x / b;
    assert x == b * (x / b) + x % b && y == b * (y / b) + y % b;
    assert b * d == y - x + x % b - y % b;
    assert d <= -1 ==> b * d <= -b;
  }

  /** The first lock index of a range and how many locks follow it. */
  method LockIndex(r: Range, blockSizeLog: nat, blockSize: int, numLocks: int) returns (index: nat, toLock: nat)
    requires IsPower2(blockSize) && blockSizeLog == Log2(blockSize) && numLocks >= 1 && r.size >= 1
    ensures IndexRun(index, toLock, numLocks) == RangeLocks(r, blockSize, numLocks)
    ensures index == r.address / blockSize % numLocks && 1 <= toLock <= numLocks
  {
    ShiftByLog(r.address, blockSize);
    ShiftByLog(r.address + r.size - 1, blockSize);
    DivMonotone(r.address, r.address + r.size - 1, blockSize);
    var removedBlocks := ShiftRight(r.address, blockSizeLog);
    var endRemovedBlocks := ShiftRight(r.address + r.size - 1, blockSizeLog);
    toLock := endRemovedBlocks - removedBlocks + 1;
    if toLock > numLocks {
      toLock := numLocks;
    }
    index := removedBlocks % numLocks;
  }

  lemma ModSucc(a: int, n: int)
    requires n >= 1
    ensures (a % n + 1) % n == (a + 1) % n
  {
    var q, r := a / n, a % n;
    if r + 1 < n {
      QuotientIs(a + 1, n, q, r + 1);
      QuotientIs(r + 1, n, 0, r + 1);
    } else {
      QuotientIs(a + 1, n, q + 1, 0);
      QuotientIs(r + 1, n, 1, 0);
    }
  }

  ghost predicate BlockWithin(lo: nat, count: nat, i: nat, n: int)
    requires n >= 1
  {
    exists b: nat :: lo <= b < lo + count && b % n == i
  }

  /** The run that starts at block `lo` visits the indices of `count` consecutive blocks. */
  lemma {:induction false} RunVisits(lo: nat, count: nat, n: int, i: nat)
    requires n >= 1
    ensures i in IndexRun(lo % n, count, n) <==> BlockWithin(lo, count, i, n)
    decreases count
  {
    if count > 0 {
      ModSucc(lo, n);
      RunVisits(lo + 1, count - 1, n, i);
      if BlockWithin(lo, count, i, n) {
        var b: nat :| lo <= b < lo + count && b % n == i;
        assert b == lo || (lo + 1 <= b < lo + 1 + (count - 1));
      }
      if BlockWithin(lo + 1, count - 1, i, n) {
        var b: nat :| lo + 1 <= b < lo + 1 + (count - 1) && b % n == i;
        assert lo <= b < lo + count;
      }
      if i == lo % n {
        assert lo <= lo < lo + count;
      }
    }
  }

  /** `n` consecutive blocks already meet every index, so the cap loses nothing. */
  lemma CapLosesNothing(lo: nat, count: nat, n: int, i: nat)
    requires n >= 1 && count > n
    ensures BlockWithin(lo, count, i, n) <==> BlockWithin(lo, n, i, n)
  {
    if BlockWithin(lo, count, i, n) {
      var b: nat :| lo <= b < lo + count && b % n == i;
      SameIndexNearby(lo, b, n);
      assert lo <= lo + (b - lo) % n < lo + n;
    }
    if BlockWithin(lo, n, i, n) {
      var b: nat :| lo <= b < lo + n && b % n == i;
      assert lo <= b < lo + count;
    }
  }

  lemma SameIndexNearby(lo: nat, b: nat, n: int)
    requires n >= 1 && lo <= b
    ensures (lo + (b - lo) % n) % n == b % n
  {
    var q, r := (b - lo) / n, (b - lo) % n;
    DivMod(b, n);
    DivMod(b - lo, n);
    Distribute(n, b / n, q);
    QuotientIs(lo + r, n, b / n - q, b % n);
  }

  lemma BlockStart(a: nat, bs: int, b: nat)
    requires bs >= 1
    ensures b <= a / bs ==> bs * b <= a
    ensures a / bs < b ==> a < bs * b
  {
    var q := a / bs;
    DivMod(a, bs);
    Distribute(bs, q, b);
    AtLeastOne(bs, q - b);
  }

  lemma BlockHasByte(r: Range, bs: int, b: nat)
    requires bs >= 1 && r.size >= 1 && r.address / bs <= b <= (r.address + r.size - 1) / bs
    ensures exists x: nat :: InRange(r, x) && x / bs == b
  {
    if b == r.address / bs {
      assert InRange(r, r.address) && r.address / bs == b;
    } else {
      BlockStart(r.address, bs, b);
      BlockStart(r.address + r.size - 1, bs, b);
      QuotientIs(bs * b, bs, b, 0);
      assert InRange(r, bs * b) && (bs * b) / bs == b;
    }
  }

  ghost predicate HasByteOf(r: Range, bs: int, b: nat)
    requires bs >= 1
  {
    exists x: nat :: InRange(r, x) && x / bs == b
  }

  /** A block lies between the first and the last of a range exactly when one of its bytes is in the range. */
  lemma BlocksAreOfBytes(r: Range, bs: int, b: nat)
    requires bs >= 1 && r.size >= 1
    ensures r.address / bs <= b <= (r.address + r.size - 1) / bs <==> HasByteOf(r, bs, b)
  {
    var last := r.address + r.size - 1;
    if r.address / bs <= b <= last / bs {
      BlockHasByte(r, bs, b);
    }
    if HasByteOf(r, bs, b) {
      var x: nat :| InRange(r, x) && x / bs == b;
      DivMonotone(r.address, x, bs);
      DivMonotone(x, last, bs);
    }
  }

  lemma BlockToByte(r: Range, bs: int, n: int, b: nat)
    requires bs >= 1 && n >= 1 && HasByteOf(r, bs, b)
    ensures exists x: nat :: InRange(r, x) && LockOf(x, bs, n) == b % n
  {
    var x: nat :| InRange(r, x) && x / bs == b;
    assert LockOf(x, bs, n) == b % n;
  }

  lemma ByteToBlock(r: Range, bs: int, n: int, x: nat)
    requires bs >= 1 && n >= 1 && r.size >= 1 && InRange(r, x) && r.address / bs <= (r.address + r.size - 1) / bs
    ensures BlockWithin(r.address / bs, BlockCount(r, bs), LockOf(x, bs, n), n)
  {
    var b := x / bs;
    assert HasByteOf(r, bs, b);
    BlocksAreOfBytes(r, bs, b);
    assert r.address / bs <= b < r.address / bs + BlockCount(r, bs) && b % n == LockOf(x, bs, n);
  }

  /** A block of the range is there for a byte of the range, and the other way round. */
  lemma BlocksOfRange(r: Range, bs: int, n: int, i: nat)
    requires bs >= 1 && n >= 1 && r.size >= 1
    ensures r.address / bs <= (r.address + r.size - 1) / bs
    ensures BlockWithin(r.address / bs, BlockCount(r, bs), i, n) <==>
            exists x: nat :: InRange(r, x) && LockOf(x, bs, n) == i
  {
    hide LockOf, HasByteOf, InRange;
    var lo, count := r.address / bs, BlockCount(r, bs);
    DivMonotone(r.address, r.address + r.size - 1, bs);
    if BlockWithin(lo, count, i, n) {
      var b: nat :| lo <= b < lo + count && b % n == i;
      BlocksAreOfBytes(r, bs, b);
      BlockToByte(r, bs, n, b);
    }
    if x: nat :| InRange(r, x) && LockOf(x, bs, n) == i {
      ByteToBlock(r, bs, n, x);
    }
  }

  /** The indices of a range are those of its bytes, wrap and cap included. */
  lemma RangeLocksCover(r: Range, bs: int, n: int, i: nat)
    requires bs >= 1 && n >= 1 && r.size >= 1
    ensures i in RangeLocks(r, bs, n) <==> exists x: nat :: InRange(r, x) && LockOf(x, bs, n) == i
  {
    var lo, count := r.address / bs, BlockCount(r, bs);
    BlocksOfRange(r, bs, n, i);
    RunVisits(lo, if count > n then n else count, n, i);
    if count > n {
      CapLosesNothing(lo, count, n, i);
    }
    assert RangeLocks(r, bs, n) == IndexRun(lo % n, if count > n then n else count, n);
    hide IndexRun, RangeLocks, BlockWithin, LockOf, InRange, BlockCount;
  }

  // ----- the lock list of an instruction -----

  function AllLocks(rs: seq<Range>, bs: int, n: int): seq<nat>
    requires bs >= 1 && n >= 1
    requires forall r :: r in rs ==> r.size >= 1
  {
    if rs == [] then [] else RangeLocks(rs[0], bs, n) + AllLocks(rs[1..], bs, n)
  }

  function InsertOrdered(s: seq<nat>, x: nat): seq<nat> {
    if s == [] || x <= s[0] then [x] + s else [s[0]] + InsertOrdered(s[1..], x)
  }

  /** The library sort. */
  function Sort(s: seq<nat>): seq<nat> {
    if s == [] then [] else InsertOrdered(Sort(s[1..]), s[0])
  }

  /** The library `unique`: of equal neighbours one is kept. */
  function Unique(s: seq<nat>): seq<nat> {
    if |s| <= 1 then s
    else if s[0] == s[1] then Unique(s[1..])
    else [s[0]] + Unique(s[1..])
  }

  /** The locks an instruction takes, in the order it takes them. */
  function LockList(a: Access, bs: int, n: int): seq<nat>
    requires bs >= 1 && n >= 1 && Legal(a)
  {
    Unique(Sort(AllLocks(Ranges(a), bs, n)))
  }

  predicate Ascending(s: seq<nat>) {
    forall i, j :: 0 <= i < j < |s| ==> s[i] <= s[j]
  }

  predicate StrictlyAscending(s: seq<nat>) {
    forall i, j :: 0 <= i < j < |s| ==> s[i] < s[j]
  }

  lemma {:induction false} InsertOrderedMeaning(s: seq<nat>, x: nat)
    requires Ascending(s)
    ensures Ascending(InsertOrdered(s, x))
    ensures forall y :: y in InsertOrdered(s, x) <==> y in s || y == x
  {
    if s != [] && x > s[0] {
      InsertOrderedMeaning(s[1..], x);
      var rest := InsertOrdered(s[1..], x);
      assert forall y :: y in s <==> y == s[0] || y in s[1..];
      assert forall i :: 0 <= i < |rest| ==> rest[i] in s[1..] || rest[i] == x;
    }
  }

  lemma {:induction false} SortMeaning(s: seq<nat>)
    ensures Ascending(Sort(s))
    ensures forall y :: y in Sort(s) <==> y in s
  {
    if s != [] {
      SortMeaning(s[1..]);
      InsertOrderedMeaning(Sort(s[1..]), s[0]);
      assert forall y :: y in s <==> y == s[0] || y in s[1..];
    }
  }

  lemma {:induction false} UniqueSame(s: seq<nat>)
    ensures forall y :: y in Unique(s) <==> y in s
  {
    if |s| > 1 {
      UniqueSame(s[1..]);
      assert forall y :: y in s <==> y == s[0] || y in s[1..];
      assert s[1] == s[1..][0];
    }
  }

  lemma AscendingHead(s: seq<nat>, y: nat)
    requires |s| > 1 && Ascending(s) && y in s[1..]
    ensures s[1] <= y
  {
    var j :| 0 <= j < |s[1..]| && s[1..][j] == y;
    assert s[j + 1] == y;
  }

  lemma {:induction false} UniqueMeaning(s: seq<nat>)
    requires Ascending(s)
    ensures StrictlyAscending(Unique(s))
    ensures forall y :: y in Unique(s) <==> y in s
  {
    UniqueSame(s);
    if |s| > 1 {
      UniqueMeaning(s[1..]);
      var rest := Unique(s[1..]);
      if s[0] != s[1] {
        forall i | 0 <= i < |rest| ensures s[0] < rest[i] {
          assert rest[i] in s[1..];
          AscendingHead(s, rest[i]);
        }
      }
    }
  }

  lemma {:induction false} AllLocksMeaning(rs: seq<Range>, bs: int, n: int, i: nat)
    requires bs >= 1 && n >= 1
    requires forall r :: r in rs ==> r.size >= 1
    ensures i in AllLocks(rs, bs, n) <==> exists r :: r in rs && i in RangeLocks(r, bs, n)
  {
    if rs != [] {
      AllLocksMeaning(rs[1..], bs, n, i);
      assert forall r :: r in rs <==> r == rs[0] || r in rs[1..];
    }
  }

  /** The lock of an instruction's byte, before sorting. */
  lemma AllLocksOfAccess(a: Access, bs: int, n: int, i: nat)
    requires bs >= 1 && n >= 1 && Legal(a)
    ensures i in AllLocks(Ranges(a), bs, n) <==> exists x: nat :: Touches(a, x) && LockOf(x, bs, n) == i
  {
    hide LockOf, RangeLocks, InRange, AllLocks;
    AllLocksMeaning(Ranges(a), bs, n, i);
    if i in AllLocks(Ranges(a), bs, n) {
      var r :| r in Ranges(a) && i in RangeLocks(r, bs, n);
      RangeLocksCover(r, bs, n, i);
      var x: nat :| InRange(r, x) && LockOf(x, bs, n) == i;
      assert Touches(a, x);
    }
    if x: nat :| Touches(a, x) && LockOf(x, bs, n) == i {
      var r :| r in Ranges(a) && InRange(r, x);
      RangeLocksCover(r, bs, n, i);
    }
  }

  /** The lock list is duplicate-free, in order, and holds exactly the locks of the bytes the instruction touches. */
  lemma LockListMeaning(a: Access, bs: int, n: int)
    requires bs >= 1 && n >= 1 && Legal(a)
    ensures StrictlyAscending(LockList(a, bs, n))
    ensures forall i :: i in LockList(a, bs, n) <==> exists x: nat :: Touches(a, x) && LockOf(x, bs, n) == i
  {
    var all := AllLocks(Ranges(a), bs, n);
    assert LockList(a, bs, n) == Unique(Sort(all));
    hide AllLocks, Sort, Unique, LockList, LockOf, Touches;
    SortMeaning(all);
    UniqueMeaning(Sort(all));
    forall i: nat ensures i in all <==> exists x: nat :: Touches(a, x) && LockOf(x, bs, n) == i {
      AllLocksOfAccess(a, bs, n, i);
    }
  }

  lemma LockListInBank(a: Access, bs: int, n: int)
    requires bs >= 1 && n >= 1 && Legal(a)
    ensures forall i :: i in LockList(a, bs, n) ==> i < n
  {
    LockListMeaning(a, bs, n);
  }

  /** Instructions with a common byte have a common lock. */
  lemma SharedByteSharedLock(a: Access, b: Access, bs: int, n: int)
    requires bs >= 1 && n >= 1 && Legal(a) && Legal(b) && ShareByte(a, b)
    ensures exists i :: i in LockList(a, bs, n) && i in LockList(b, bs, n)
  {
    var x: int :| Touches(a, x) && Touches(b, x);
    LockListMeaning(a, bs, n);
    LockListMeaning(b, bs, n);
    var i := LockOf(x, bs, n);
    assert i in LockList(a, bs, n) && i in LockList(b, bs, n);
  }

  // ----- building the list -----

  method PushRange(list: seq<nat>, r: Range, blockSizeLog: nat, bs: int, n: int) returns (longer: seq<nat>)
    requires IsPower2(bs) && blockSizeLog == Log2(bs) && n >= 1 && r.size >= 1
    ensures longer == list + RangeLocks(r, bs, n)
  {
    var first, toLock := LockIndex(r, blockSizeLog, bs, n);
    ghost var run := RangeLocks(r, bs, n);
    var index := first;
    longer := list;
    RunLength(first, toLock, n);
    for i := 0 to toLock
      invariant longer == list + run[..i]
      invariant i < toLock ==> index == run[i]
    {
      longer := longer + [index];
      RunStep(first, toLock, n, i);
      index := (index + 1) % n;
    }
    assert run[..toLock] == run;
  }

  lemma {:induction false} RunLength(index: nat, count: nat, n: int)
    requires n >= 1
    ensures |IndexRun(index, count, n)| == count
    ensures count > 0 ==> IndexRun(index, count, n)[0] == index
    decreases count
  {
    if count > 0 {
      RunLength((index + 1) % n, count - 1, n);
    }
  }

  /** Each index of a run follows the one before it, and the prefixes grow by it. */
  lemma {:induction false} RunStep(index: nat, count: nat, n: int, i: nat)
    requires n >= 1 && i < count && |IndexRun(index, count, n)| == count
    ensures var run := IndexRun(index, count, n);
            && run[..i + 1] == run[..i] + [run[i]]
            && (i + 1 < count ==> run[i + 1] == (run[i] + 1) % n)
    decreases count
  {
    var run, rest := IndexRun(index, count, n), IndexRun((index + 1) % n, count - 1, n);
    assert run == [index] + rest;
    if i > 0 {
      RunStep((index + 1) % n, count - 1, n, i - 1);
    } else {
      RunLength((index + 1) % n, count - 1, n);
    }
  }

  lemma {:induction false} AllLocksAppend(rs: seq<Range>, r: Range, bs: int, n: int)
    requires bs >= 1 && n >= 1 && r.size >= 1
    requires forall r :: r in rs ==> r.size >= 1
    ensures AllLocks(rs + [r], bs, n) == AllLocks(rs, bs, n) + RangeLocks(r, bs, n)
  {
    if rs == [] {
      assert rs + [r] == [r];
      assert [r][1..] == [];
    } else {
      assert (rs + [r])[1..] == rs[1..] + [r];
      AllLocksAppend(rs[1..], r, bs, n);
    }
  }

  /** Every unique lock of the operands, in index order. */
  method UniqueLocks(a: Access, blockSizeLog: nat, bs: int, n: int) returns (list: seq<nat>)
    requires IsPower2(bs) && blockSizeLog == Log2(bs) && n >= 1 && Legal(a)
    ensures list == LockList(a, bs, n)
  {
    ghost var rs := [];
    list := [];
    if a.read1.Some? {
      list := PushRange(list, a.read1.value, blockSizeLog, bs, n);
      AllLocksAppend(rs, a.read1.value, bs, n);
      rs := rs + [a.read1.value];
    }
    if a.read2.Some? {
      list := PushRange(list, Range(a.read2.value, a.read1.value.size), blockSizeLog, bs, n);
      AllLocksAppend(rs, Range(a.read2.value, a.read1.value.size), bs, n);
      rs := rs + [Range(a.read2.value, a.read1.value.size)];
    }
    if a.write.Some? {
      list := PushRange(list, a.write.value, blockSizeLog, bs, n);
      AllLocksAppend(rs, a.write.value, bs, n);
      rs := rs + [a.write.value];
    }
    assert rs == Ranges(a);
    list := Unique(Sort(list));
  }
}
