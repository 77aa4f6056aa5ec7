/** Memory accesses: what an instruction reads and writes, and what it does to memory. */
module Access {
  import opened Options
  import opened TraceLine

  /** The value of each byte; an address that is not listed holds 0. */
  type Memory = imap<int, int>

  ghost function Byte(m: Memory, x: int): int {
    if x in m then m[x] else 0
  }

  /**
    One instruction. The second read has the size of the first. `op` maps the bytes read to the
    bytes written; it answers None when nothing is written, as a failed compare-and-swap does.
    `stampedAfter` marks a compare-and-swap that is traced after it executed.
  */
  datatype Access = Access(
    read1: Option<Range>,
    read2: Option<nat>,
    write: Option<Range>,
    stampedAfter: bool,
    op: seq<int> -> Option<seq<int>>)

  /** The operand combinations an instruction can have. */
  predicate Legal(a: Access) {
    && (a.read1.Some? || a.write.Some?)
    && (a.read2.Some? ==> a.read1.Some?)
    && (a.read1.Some? ==> a.read1.value.size >= 1)
    && (a.write.Some? ==> a.write.value.size >= 1)
    && (a.stampedAfter ==> a.read1.Some? && a.write.Some?)
  }

  /** The ranges the tracer locks. */
  function Ranges(a: Access): seq<Range> {
    (if a.read1.Some? then [a.read1.value] else [])
    + (if a.read2.Some? && a.read1.Some? then [Range(a.read2.value, a.read1.value.size)] else [])
    + (if a.write.Some? then [a.write.value] else [])
  }

  predicate InRange(r: Range, x: int) {
    r.address <= x < r.address + r.size
  }

  predicate Touches(a: Access, x: int) {
    exists r :: r in Ranges(a) && InRange(r, x)
  }

  ghost predicate ShareByte(a: Access, b: Access) {
    exists x: int :: Touches(a, x) && Touches(b, x)
  }

  ghost function Load(m: Memory, r: Range): seq<int> {
    seq(r.size, i requires 0 <= i => Byte(m, r.address + i))
  }

  ghost function ReadBytes(a: Access, m: Memory): seq<int> {
    (if a.read1.Some? then Load(m, a.read1.value) else [])
    + (if a.read2.Some? && a.read1.Some? then Load(m, Range(a.read2.value, a.read1.value.size)) else [])
  }

  /** Whether the access writes when executed on `m`. */
  ghost predicate Writes(a: Access, m: Memory) {
    a.write.Some? && a.op(ReadBytes(a, m)).Some?
  }

  /** The byte that the access puts at `x` after reading `got`, if it writes there. */
  function WrittenAt(a: Access, got: seq<int>, x: int): Option<int> {
    if a.write.Some? && InRange(a.write.value, x) && a.op(got).Some? && x - a.write.value.address < |a.op(got).value|
    then Some(a.op(got).value[x - a.write.value.address])
    else None
  }

  ghost function Update(m: Memory, a: Access, got: seq<int>): Memory {
    imap x: int | true :: if WrittenAt(a, got, x).Some? then WrittenAt(a, got, x).value else Byte(m, x)
  }

  ghost function Execute(a: Access, m: Memory): Memory {
    Update(m, a, ReadBytes(a, m))
  }

  lemma LoadsAgree(m: Memory, n: Memory, r: Range)
    requires forall x: int :: InRange(r, x) ==> Byte(m, x) == Byte(n, x)
    ensures Load(m, r) == Load(n, r)
  {
    forall i | 0 <= i < r.size ensures Load(m, r)[i] == Load(n, r)[i] {
      assert InRange(r, r.address + i);
    }
  }

  /** What an access reads depends on the bytes it touches. */
  lemma ReadsAgree(a: Access, m: Memory, n: Memory)
    requires forall x: int :: Touches(a, x) ==> Byte(m, x) == Byte(n, x)
    ensures ReadBytes(a, m) == ReadBytes(a, n)
  {
    forall r | r in Ranges(a) ensures Load(m, r) == Load(n, r) {
      forall x: int | InRange(r, x) ensures Byte(m, x) == Byte(n, x) {
        assert Touches(a, x);
      }
      LoadsAgree(m, n, r);
    }
    if a.read1.Some? {
      assert Ranges(a)[0] == a.read1.value;
      if a.read2.Some? {
        assert Ranges(a)[1] == Range(a.read2.value, a.read1.value.size);
      }
    }
  }

  lemma WrittenIsTouched(a: Access, got: seq<int>, x: int)
    requires WrittenAt(a, got, x).Some?
    ensures Touches(a, x)
  {
    assert Ranges(a)[|Ranges(a)| - 1] == a.write.value;
  }

  /** What one access writes, another that shares no byte with it does not read. */
  lemma UpdateUnseen(a: Access, b: Access, got: seq<int>, m: Memory)
    requires !ShareByte(a, b)
    ensures ReadBytes(b, Update(m, a, got)) == ReadBytes(b, m)
  {
    forall x: int | Touches(b, x) ensures Byte(Update(m, a, got), x) == Byte(m, x) {
      if WrittenAt(a, got, x).Some? {
        WrittenIsTouched(a, got, x);
      }
    }
    ReadsAgree(b, Update(m, a, got), m);
  }

  lemma UpdatesCommute(a: Access, b: Access, ga: seq<int>, gb: seq<int>, m: Memory)
    requires !ShareByte(a, b)
    ensures Update(Update(m, a, ga), b, gb) == Update(Update(m, b, gb), a, ga)
  {
    forall x: int ensures WrittenAt(a, ga, x).None? || WrittenAt(b, gb, x).None? {
      if WrittenAt(a, ga, x).Some? && WrittenAt(b, gb, x).Some? {
        WrittenIsTouched(a, ga, x);
        WrittenIsTouched(b, gb, x);
      }
    }
  }

  /** Two accesses without a common byte commute. */
  lemma Commute(a: Access, b: Access, m: Memory)
    requires !ShareByte(a, b)
    ensures Execute(b, Execute(a, m)) == Execute(a, Execute(b, m))
    ensures ReadBytes(b, Execute(a, m)) == ReadBytes(b, m)
    ensures ReadBytes(a, Execute(b, m)) == ReadBytes(a, m)
  {
    var ga, gb := ReadBytes(a, m), ReadBytes(b, m);
    UpdateUnseen(a, b, ga, m);
    UpdateUnseen(b, a, gb, m);
    UpdatesCommute(a, b, ga, gb, m);
  }

  /** An access reads the bytes of its operands, first operand first. */
  lemma ReadsOperands(a: Access, m: Memory)
    requires Legal(a) && a.read1.Some?
    ensures var n, got := a.read1.value.size, ReadBytes(a, m);
            && |got| == (if a.read2.Some? then 2 * n else n)
            && forall k :: 0 <= k < |got| ==>
                 got[k] == Byte(m, if k < n then a.read1.value.address + k else a.read2.value + k - n)
  {
  }

  /** What it writes is in its range afterwards; every other byte is as before, and all are if it writes nothing. */
  lemma WriteThenRead(a: Access, m: Memory, x: int)
    ensures var bytes := a.op(ReadBytes(a, m));
            Byte(Execute(a, m), x) ==
            if a.write.Some? && bytes.Some? && a.write.value.address <= x < a.write.value.address + a.write.value.size
               && x < a.write.value.address + |bytes.value|
            then bytes.value[x - a.write.value.address] else Byte(m, x)
  {
  }
}
