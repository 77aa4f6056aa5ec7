/**
  The simulators that recompute the output of the increment programs from their traces. A simulator
  follows one allocation, the counter; its assertions become the result false.
*/
module Simulators {
  import opened Options
  import opened TraceText
  import opened Sums
  import Inc
  import IncCas

  // ----- dictionaries whose default is 0 -----

  function Get(m: map<int, int>, k: int): int {
    if k in m then m[k] else 0
  }

  function Bump(m: map<int, int>, k: int): map<int, int> {
    m[k := Get(m, k) + 1]
  }

  ghost function TotalOver(m: map<int, int>, ks: set<int>): int
    requires ks <= m.Keys
  {
    if exists k :: k in ks then
      var k :| k in ks;
      m[k] + TotalOver(m, ks - {k})
    else 0
  }

  /** `sum(m.values())` */
  ghost function Total(m: map<int, int>): int {
    TotalOver(m, m.Keys)
  }

  /** The order of the summands does not matter. */
  lemma {:induction false} TotalWithout(m: map<int, int>, ks: set<int>, k: int)
    requires ks <= m.Keys && k in ks
    ensures TotalOver(m, ks) == m[k] + TotalOver(m, ks - {k})
  {
    var j :| j in ks && TotalOver(m, ks) == m[j] + TotalOver(m, ks - {j});
    if j != k {
      TotalWithout(m, ks - {j}, k);
      TotalWithout(m, ks - {k}, j);
      assert ks - {j} - {k} == ks - {k} - {j};
    }
  }

  lemma {:induction false} TotalAgrees(m: map<int, int>, n: map<int, int>, ks: set<int>)
    requires ks <= m.Keys && ks <= n.Keys && forall k :: k in ks ==> m[k] == n[k]
    ensures TotalOver(m, ks) == TotalOver(n, ks)
  {
    if exists k :: k in ks {
      var k :| k in ks && TotalOver(m, ks) == m[k] + TotalOver(m, ks - {k});
      TotalAgrees(m, n, ks - {k});
      TotalWithout(n, ks, k);
    }
  }

  lemma TotalBump(m: map<int, int>, k: int)
    ensures Total(Bump(m, k)) == Total(m) + 1
  {
    var n := Bump(m, k);
    TotalWithout(n, n.Keys, k);
    TotalAgrees(m, n, m.Keys - {k});
    assert n.Keys - {k} == m.Keys - {k};
    if k in m {
      TotalWithout(m, m.Keys, k);
    } else {
      assert m.Keys - {k} == m.Keys;
    }
  }

  // ----- which accesses a simulator looks at -----

  predicate IsRmw(c: MemoryCall) {
    && c.haveRead1 && !c.haveRead2 && c.haveWrite
    && c.operands.read1Address == c.operands.writeAddress && c.operands.readSize == c.operands.writeSize
  }

  predicate IsRead(c: MemoryCall) {
    c.haveRead1 && !c.haveRead2 && !c.haveWrite
  }

  /** The overlap test, which also lets neighbours through. */
  predicate Near(address: int, size: int, special: int, specialSize: int) {
    || (address < special && address + size >= special)
    || (address >= special && address <= special + specialSize)
  }

  /** The counter: eight bytes at the start of the allocation. */
  predicate AtCounter(c: MemoryCall, special: int) {
    c.operands.read1Address == special && c.operands.readSize == 8
  }

  /** What both simulators hold. `tally` is the even increments in one and the reads in the other. */
  datatype Sim = Sim(
    special: Option<int>,
    specialSize: int,
    value: int,
    increments: map<int, int>,
    tally: map<int, int>,
    active: set<int>)

  function New(): Sim {
    Sim(None, 0, 0, map[], map[], {})
  }

  predicate Watching(s: Sim) {
    s.special.Some? && s.special.value != 0
  }

  predicate NearRmw(s: Sim, c: MemoryCall)
    requires s.special.Some?
  {
    IsRmw(c) && Near(c.operands.read1Address, c.operands.readSize, s.special.value, s.specialSize)
  }

  predicate NearRead(s: Sim, c: MemoryCall)
    requires s.special.Some?
  {
    IsRead(c) && Near(c.operands.read1Address, c.operands.readSize, s.special.value, s.specialSize)
  }

  /** `memory_access` of the fetch-and-add simulator; None where its assertion fails. */
  function IncAccess(s: Sim, c: MemoryCall): Option<Sim> {
    if !Watching(s) || !NearRmw(s, c) then Some(s)
    else if !AtCounter(c, s.special.value) then None
    else
      Some(s.(tally := if s.value % 2 == 0 then Bump(s.tally, c.threadId) else s.tally,
              increments := Bump(s.increments, c.threadId),
              value := s.value + 1))
  }

  /** `memory_access` of the compare-and-swap simulator. */
  function CasAccess(s: Sim, c: MemoryCall): Option<Sim> {
    if !Watching(s) then Some(s)
    else if NearRmw(s, c) then
      if !AtCounter(c, s.special.value) then None
      else
        Some(s.(increments := Bump(s.increments, c.threadId),
                value := s.value + 1,
                tally := Bump(s.tally, c.threadId)))
    else if NearRead(s, c) then Some(s.(tally := Bump(s.tally, c.threadId)))
    else Some(s)
  }

  const MALLOC := "atomic_trace::special_malloc"
  const FREE := "atomic_trace::special_free"

  /** The other callbacks, which are the same in both simulators. */
  function Housekeeping(s: Sim, c: Callback): Option<Sim>
    requires !c.OnMemory?
  {
    match c
    case OnStart(t) => if t in s.active then None else Some(s.(active := s.active + {t}))
    case OnFinish(t) => if t in s.active then Some(s.(active := s.active - {t})) else None
    case OnCall(name, _, _, size, _, _) =>
      if name == MALLOC then
        if Watching(s) || s.specialSize != 0 then None else Some(s.(specialSize := size))
      else if name == FREE then Some(s) else None
    case OnReturn(name, _, _, address) =>
      if name == MALLOC then
        if Watching(s) || s.specialSize < 8 then None else Some(s.(special := Some(address)))
      else if name == FREE then Some(s) else None
    case _ => Some(s)
  }

  datatype Kind = FetchAdd | CompareAndSwap

  function Access(kind: Kind, s: Sim, c: MemoryCall): Option<Sim> {
    if kind.FetchAdd? then IncAccess(s, c) else CasAccess(s, c)
  }

  /** One callback; None where an assertion fails. */
  function Step(kind: Kind, s: Sim, c: Callback): Option<Sim> {
    if c.OnMemory? then Access(kind, s, c.call) else Housekeeping(s, c)
  }

  /** The callbacks of a trace one after the other, up to the first failed assertion. */
  function Replay(kind: Kind, s: Sim, cs: seq<Callback>): Option<Sim> {
    if cs == [] then Some(s)
    else
      var before := Replay(kind, s, cs[..|cs| - 1]);
      if before.None? then None else Step(kind, before.value, cs[|cs| - 1])
  }

  lemma {:induction false} NoneStays(kind: Kind, s: Sim, cs: seq<Callback>, n: nat)
    requires n <= |cs| && Replay(kind, s, cs[..n]).None?
    ensures Replay(kind, s, cs).None?
    decreases |cs|
  {
    if n == |cs| {
      assert cs[..n] == cs;
    } else {
      assert cs[..|cs| - 1][..n] == cs[..n];
      NoneStays(kind, s, cs[..|cs| - 1], n);
    }
  }

  class IncSim {
    var special: Option<int>
    var specialSize: int
    var value: int
    var increments: map<int, int>
    var evenIncrements: map<int, int>
    var activeThreads: set<int>

    ghost function View(): Sim
      reads this
    {
      Sim(special, specialSize, value, increments, evenIncrements, activeThreads)
    }

    constructor ()
      ensures View() == New()
    {
      special, specialSize, value := None, 0, 0;
      increments, evenIncrements, activeThreads := map[], map[], {};
    }

    method MemoryAccess(c: MemoryCall) returns (ok: bool)
      modifies this
      ensures var after := IncAccess(old(View()), c);
              ok == after.Some? && View() == if ok then after.value else old(View())
    {
      if special.None? || special.value == 0 {
        return true;
      }
      var o := c.operands;
      if c.haveRead1 && !c.haveRead2 && c.haveWrite && o.read1Address == o.writeAddress && o.readSize == o.writeSize
        && ((o.writeAddress < special.value && o.writeAddress + o.writeSize >= special.value)
            || (o.writeAddress >= special.value && o.writeAddress <= special.value + specialSize))
      {
        if !(o.writeAddress == special.value && o.writeSize == 8) {
          return false;
        }
        if value % 2 == 0 {
          evenIncrements := Bump(evenIncrements, c.threadId);
        }
        increments := Bump(increments, c.threadId);
        value := value + 1;
      }
      return true;
    }

    method StartThread(thread: int) returns (ok: bool)
      modifies this`activeThreads
      ensures ok == (thread !in old(activeThreads))
      ensures activeThreads == old(activeThreads) + {thread}
    {
      ok := thread !in activeThreads;
      activeThreads := activeThreads + {thread};
    }

    method FinishThread(thread: int) returns (ok: bool)
      modifies this`activeThreads
      ensures ok == (thread in old(activeThreads))
      ensures activeThreads == old(activeThreads) - {thread}
    {
      ok := thread in activeThreads;
      activeThreads := activeThreads - {thread};
    }

    /** The call of `special_malloc` gives the size. */
    method FunctionCall(name: string, size: int) returns (ok: bool)
      modifies this`specialSize
      ensures ok == (name == FREE || (name == MALLOC && !Watching(old(View())) && old(specialSize) == 0))
      ensures specialSize == if ok && name == MALLOC then size else old(specialSize)
    {
      if name == MALLOC {
        ok := (special.None? || special.value == 0) && specialSize == 0;
        if ok {
          specialSize := size;
        }
      } else {
        ok := name == FREE;
      }
    }

    /** Its return gives the address. */
    method FunctionReturn(name: string, address: int) returns (ok: bool)
      modifies this`special
      ensures ok == (name == FREE || (name == MALLOC && !Watching(old(View())) && specialSize >= 8))
      ensures special == if ok && name == MALLOC then Some(address) else old(special)
    {
      if name == MALLOC {
        ok := (special.None? || special.value == 0) && specialSize >= 8;
        if ok {
          special := Some(address);
        }
      } else {
        ok := name == FREE;
      }
    }

    method Callback(c: Callback) returns (ok: bool)
      modifies this
      ensures var after := Step(FetchAdd, old(View()), c); ok == after.Some? && (ok ==> View() == after.value)
    {
      match c
      case OnMemory(call) => ok := MemoryAccess(call);
      case OnStart(t) => ok := StartThread(t);
      case OnFinish(t) => ok := FinishThread(t);
      case OnCall(name, _, _, size, _, _) => ok := FunctionCall(name, size);
      case OnReturn(name, _, _, address) => ok := FunctionReturn(name, address);
      case _ => ok := true;
    }

    /** The callbacks of a trace, up to the first failed assertion. */
    method Simulate(cs: seq<Callback>) returns (ok: bool)
      modifies this
      ensures ok == Replay(FetchAdd, old(View()), cs).Some?
      ensures ok ==> View() == Replay(FetchAdd, old(View()), cs).value
    {
      for i := 0 to |cs|
        invariant Replay(FetchAdd, old(View()), cs[..i]) == Some(View())
      {
        assert cs[..i + 1][..i] == cs[..i];
        ok := Callback(cs[i]);
        if !ok {
          NoneStays(FetchAdd, old(View()), cs, i + 1);
          return;
        }
      }
      assert cs[..|cs|] == cs;
      ok := true;
    }
  }

  class CasSim {
    var special: Option<int>
    var specialSize: int
    var value: int
    var increments: map<int, int>
    var readCounts: map<int, int>
    var activeThreads: set<int>

    ghost function View(): Sim
      reads this
    {
      Sim(special, specialSize, value, increments, readCounts, activeThreads)
    }

    constructor ()
      ensures View() == New()
    {
      special, specialSize, value := None, 0, 0;
      increments, readCounts, activeThreads := map[], map[], {};
    }

    method MemoryAccess(c: MemoryCall) returns (ok: bool)
      modifies this
      ensures var after := CasAccess(old(View()), c);
              ok == after.Some? && View() == if ok then after.value else old(View())
    {
      if special.None? || special.value == 0 {
        return true;
      }
      var o, at, size := c.operands, special.value, specialSize;
      var read1 := c.haveRead1 && !c.haveRead2 && !c.haveWrite;
      var rmw :=
        c.haveRead1 && !c.haveRead2 && c.haveWrite && o.read1Address == o.writeAddress && o.readSize == o.writeSize;
      var read1Special :=
        c.haveRead1
        && ((o.read1Address < at && o.read1Address + o.readSize >= at)
            || (o.read1Address >= at && o.read1Address <= at + size));
      var readFirst8 := c.haveRead1 && o.read1Address == at && o.readSize == 8;
      if rmw && read1Special {
        if !readFirst8 {
          return false;
        }
        increments := Bump(increments, c.threadId);
        value := value + 1;
        readCounts := Bump(readCounts, c.threadId);
      } else if read1 && read1Special {
        readCounts := Bump(readCounts, c.threadId);
      }
      return true;
    }

    /** The callbacks that are not for memory accesses, each with its assertions. */
    method OtherCallback(c: Callback) returns (ok: bool)
      requires !c.OnMemory?
      modifies this`special, this`specialSize, this`activeThreads
      ensures var after := Housekeeping(old(View()), c); ok == after.Some? && (ok ==> View() == after.value)
    {
      ok := true;
      match c
      case OnStart(t) =>
        ok := t !in activeThreads;
        activeThreads := activeThreads + {t};
      case OnFinish(t) =>
        ok := t in activeThreads;
        activeThreads := activeThreads - {t};
      case OnCall(name, _, _, size, _, _) =>
        if name != MALLOC {
          ok := name == FREE;
        } else if (special.Some? && special.value != 0) || specialSize != 0 {
          ok := false;
        } else {
          specialSize := size;
        }
      case OnReturn(name, _, _, address) =>
        if name != MALLOC {
          ok := name == FREE;
        } else if (special.Some? && special.value != 0) || specialSize < 8 {
          ok := false;
        } else {
          special := Some(address);
        }
      case _ =>
    }

    /** The callbacks of a trace, up to the first failed assertion. */
    method Simulate(cs: seq<Callback>) returns (ok: bool)
      modifies this
      ensures ok == Replay(CompareAndSwap, old(View()), cs).Some?
      ensures ok ==> View() == Replay(CompareAndSwap, old(View()), cs).value
    {
      for i := 0 to |cs|
        invariant Replay(CompareAndSwap, old(View()), cs[..i]) == Some(View())
      {
        assert cs[..i + 1][..i] == cs[..i];
        var c := cs[i];
        if c.OnMemory? {
          ok := MemoryAccess(c.call);
        } else {
          ok := OtherCallback(c);
        }
        if !ok {
          NoneStays(CompareAndSwap, old(View()), cs, i + 1);
          return;
        }
      }
      assert cs[..|cs|] == cs;
      ok := true;
    }
  }

  // ----- a whole trace -----

  /** The simulator once it knows the allocation. */
  function Ready(address: int, size: int, active: set<int>): Sim {
    Sim(Some(address), size, 0, map[], map[], active)
  }

  /** The threads that are active after a trace; None if one starts twice or finishes without a start. */
  function Roster(active: set<int>, cs: seq<Callback>): Option<set<int>> {
    if cs == [] then Some(active)
    else
      var before, c := Roster(active, cs[..|cs| - 1]), cs[|cs| - 1];
      if before.None? then None
      else if c.OnStart? then
        if c.threadId in before.value then None else Some(before.value + {c.threadId})
      else if c.OnFinish? then
        if c.threadId in before.value then Some(before.value - {c.threadId}) else None
      else before
  }

  /** No traced function but the one that frees the counter. */
  predicate NoMalloc(cs: seq<Callback>) {
    forall c :: c in cs && (c.OnCall? || c.OnReturn?) ==> c.name == FREE
  }

  lemma NoMallocSnoc(cs: seq<Callback>)
    requires cs != []
    ensures var c := cs[|cs| - 1];
            NoMalloc(cs) <==> NoMalloc(cs[..|cs| - 1]) && (c.OnCall? || c.OnReturn? ==> c.name == FREE)
  {
    assert cs == cs[..|cs| - 1] + [cs[|cs| - 1]];
  }

  lemma {:induction false} ReplayAppend(kind: Kind, s: Sim, a: seq<Callback>, b: seq<Callback>)
    ensures Replay(kind, s, a + b) ==
            if Replay(kind, s, a).None? then None else Replay(kind, Replay(kind, s, a).value, b)
  {
    hide Step;
    if b == [] {
      assert a + b == a;
    } else {
      assert (a + b)[..|a + b| - 1] == a + b[..|b| - 1];
      ReplayAppend(kind, s, a, b[..|b| - 1]);
    }
  }

  lemma {:induction false} RosterAppend(active: set<int>, a: seq<Callback>, b: seq<Callback>)
    ensures Roster(active, a + b) == if Roster(active, a).None? then None else Roster(Roster(active, a).value, b)
  {
    if b == [] {
      assert a + b == a;
    } else {
      assert (a + b)[..|a + b| - 1] == a + b[..|b| - 1];
      RosterAppend(active, a, b[..|b| - 1]);
    }
  }

  /** Before the allocation only the roster of threads changes. */
  lemma {:induction false} BeforeAllocation(kind: Kind, s: Sim, cs: seq<Callback>)
    requires s.special.None? && NoMalloc(cs)
    ensures Replay(kind, s, cs) ==
            var r := Roster(s.active, cs); if r.None? then None else Some(s.(active := r.value))
  {
    if cs != [] {
      NoMallocSnoc(cs);
      BeforeAllocation(kind, s, cs[..|cs| - 1]);
    }
  }

  /** A trace up to the return of the allocation. */
  datatype Setup = Setup(before: seq<Callback>, call: Callback, between: seq<Callback>, ret: Callback)

  function CallbacksOf(u: Setup): seq<Callback> {
    ((u.before + [u.call]) + u.between) + [u.ret]
  }

  /** One allocation, at `address`, of at least eight bytes. */
  predicate Allocates(u: Setup, address: int, size: int) {
    && NoMalloc(u.before) && NoMalloc(u.between)
    && u.call.OnCall? && u.call.name == MALLOC && u.call.arg1 == size && size >= 8
    && u.ret.OnReturn? && u.ret.name == MALLOC && u.ret.value == address
  }

  lemma Snoc(kind: Kind, active: set<int>, s: Sim, cs: seq<Callback>, c: Callback)
    ensures Replay(kind, s, cs + [c]) ==
            if Replay(kind, s, cs).None? then None else Step(kind, Replay(kind, s, cs).value, c)
    ensures !c.OnStart? && !c.OnFinish? ==> Roster(active, cs + [c]) == Roster(active, cs)
  {
    assert (cs + [c])[..|cs|] == cs;
  }

  /**
    The constructor and the callbacks up to the return of the allocation lead to the state in which the
    counter is watched, whatever else is traced meanwhile, if and only if threads start and finish in turn.
  */
  lemma AllocationWatched(kind: Kind, u: Setup, address: int, size: int)
    requires Allocates(u, address, size)
    ensures var r := Roster({}, CallbacksOf(u));
            Replay(kind, New(), CallbacksOf(u)) == if r.None? then None else Some(Ready(address, size, r.value))
  {
    var called := u.before + [u.call];
    BeforeAllocation(kind, New(), u.before);
    Snoc(kind, {}, New(), u.before, u.call);
    ReplayAppend(kind, New(), called, u.between);
    RosterAppend({}, called, u.between);
    Snoc(kind, {}, New(), called + u.between, u.ret);
    hide Replay, Roster, NoMalloc, Access;
    var s := Replay(kind, New(), called);
    if s.Some? {
      BeforeAllocation(kind, s.value, u.between);
    }
  }

  /** The threads of the read-modify-writes near the counter, in order. */
  function Rmws(s: Sim, calls: seq<MemoryCall>): seq<int>
    requires s.special.Some?
  {
    if calls == [] then []
    else Rmws(s, calls[..|calls| - 1]) + (if NearRmw(s, calls[|calls| - 1]) then [calls[|calls| - 1].threadId] else [])
  }

  /** How many plain reads near the counter there are. */
  function Reads(s: Sim, calls: seq<MemoryCall>): nat
    requires s.special.Some?
  {
    if calls == [] then 0 else Reads(s, calls[..|calls| - 1]) + (if NearRead(s, calls[|calls| - 1]) then 1 else 0)
  }

  /** The reads of the counter, outside swaps, by thread `u`. */
  function ReadsBy(s: Sim, calls: seq<MemoryCall>, u: int): nat
    requires s.special.Some?
  {
    if calls == [] then 0
    else
      var c := calls[|calls| - 1];
      ReadsBy(s, calls[..|calls| - 1], u) + (if NearRead(s, c) && c.threadId == u then 1 else 0)
  }

  lemma RmwsSnoc(s: Sim, calls: seq<MemoryCall>)
    requires s.special.Some? && calls != []
    ensures var before, after, c := Rmws(s, calls[..|calls| - 1]), Rmws(s, calls), calls[|calls| - 1];
            && |after| == |before| + (if NearRmw(s, c) then 1 else 0)
            && forall u ::
                 && CountIn(after, u) == CountIn(before, u) + (if NearRmw(s, c) && c.threadId == u then 1 else 0)
                 && EvenIn(after, u)
                    == EvenIn(before, u) + (if NearRmw(s, c) && c.threadId == u && |before| % 2 == 0 then 1 else 0)
  {
    var before, c := Rmws(s, calls[..|calls| - 1]), calls[|calls| - 1];
    assert Rmws(s, calls) == if NearRmw(s, c) then before + [c.threadId] else before;
    hide CountIn, EvenIn;
    forall u ensures NearRmw(s, c) ==>
        && CountIn(before + [c.threadId], u) == CountIn(before, u) + (if c.threadId == u then 1 else 0)
        && EvenIn(before + [c.threadId], u)
           == EvenIn(before, u) + (if c.threadId == u && |before| % 2 == 0 then 1 else 0)
    {
      InSnoc(before, c.threadId, u);
    }
  }

  /** The condition of both assertions. */
  predicate CountersOnly(s: Sim, calls: seq<MemoryCall>)
    requires s.special.Some?
  {
    forall c :: c in calls && NearRmw(s, c) ==> AtCounter(c, s.special.value)
  }

  lemma CountersOnlySnoc(s: Sim, calls: seq<MemoryCall>)
    requires s.special.Some? && calls != []
    ensures var c := calls[|calls| - 1];
            CountersOnly(s, calls) <==>
            CountersOnly(s, calls[..|calls| - 1]) && (NearRmw(s, c) ==> AtCounter(c, s.special.value))
  {
    assert calls == calls[..|calls| - 1] + [calls[|calls| - 1]];
  }

  lemma MemorySnocCalls(cs: seq<Callback>)
    requires cs != [] && cs[|cs| - 1].OnMemory?
    ensures var calls := MemoryCalls(cs);
            && calls != [] && calls[|calls| - 1] == cs[|cs| - 1].call
            && calls[..|calls| - 1] == MemoryCalls(cs[..|cs| - 1])
  {
  }

  /** When both simulators accept a trace that follows the allocation. */
  ghost predicate Acceptable(s: Sim, cs: seq<Callback>)
    requires s.special.Some?
  {
    CountersOnly(s, MemoryCalls(cs)) && NoMalloc(cs) && Roster(s.active, cs).Some?
  }

  /** The last callback is acceptable too. */
  ghost predicate AcceptsNext(s: Sim, active: set<int>, c: Callback)
    requires s.special.Some?
  {
    if c.OnMemory? then NearRmw(s, c.call) ==> AtCounter(c.call, s.special.value)
    else NoMalloc([c]) && Roster(active, [c]).Some?
  }

  lemma RosterSnoc(active: set<int>, cs: seq<Callback>)
    requires cs != []
    ensures var front, c := Roster(active, cs[..|cs| - 1]), cs[|cs| - 1];
            && Roster(active, cs) == (if front.None? then None else Roster(front.value, [c]))
            && (c.OnMemory? ==> Roster(active, cs) == front)
  {
    var c := cs[|cs| - 1];
    assert cs == cs[..|cs| - 1] + [c];
    RosterAppend(active, cs[..|cs| - 1], [c]);
  }

  lemma AcceptableSnoc(s: Sim, cs: seq<Callback>)
    requires s.special.Some? && cs != []
    ensures var front, c := cs[..|cs| - 1], cs[|cs| - 1];
            Acceptable(s, cs) <==> Acceptable(s, front) && AcceptsNext(s, Roster(s.active, front).value, c)
  {
    NoMallocSnoc(cs);
    RosterSnoc(s.active, cs);
    if cs[|cs| - 1].OnMemory? {
      MemorySnocCalls(cs);
      CountersOnlySnoc(s, MemoryCalls(cs));
    }
    hide CountersOnly, Roster, NearRmw, AtCounter;
  }

  /** A read counts for its thread, and so does a swap that succeeds. */
  ghost predicate ReadsTallied(s: Sim, calls: seq<MemoryCall>, tally: map<int, int>)
    requires s.special.Some?
  {
    forall u :: Get(tally, u) == ReadsBy(s, calls, u) + CountIn(Rmws(s, calls), u)
  }

  lemma ReadsTalliedSnoc(s: Sim, calls: seq<MemoryCall>, t: Sim)
    requires Watching(s) && calls != [] && ReadsTallied(s, calls[..|calls| - 1], t.tally)
    requires t.special == s.special && t.specialSize == s.specialSize
    ensures var after := CasAccess(t, calls[|calls| - 1]);
            after.Some? ==> ReadsTallied(s, calls, after.value.tally)
  {
    RmwsSnoc(s, calls);
    hide Rmws, CountIn, AtCounter, Near, IsRmw, IsRead;
  }

  /** What a simulator holds after the accesses `calls`. */
  ghost predicate Tallies(kind: Kind, s: Sim, calls: seq<MemoryCall>, t: Sim)
    requires s.special.Some?
  {
    && t.special == s.special && t.specialSize == s.specialSize && t.value == |Rmws(s, calls)|
    && (forall u :: Get(t.increments, u) == CountIn(Rmws(s, calls), u))
    && (kind.FetchAdd? ==> forall u :: Get(t.tally, u) == EvenIn(Rmws(s, calls), u))
    && (kind.CompareAndSwap? ==>
          Total(t.tally) == Reads(s, calls) + |Rmws(s, calls)| && ReadsTallied(s, calls, t.tally))
  }

  lemma IncTallies(s: Sim, calls: seq<MemoryCall>, t: Sim)
    requires Watching(s) && calls != [] && Tallies(FetchAdd, s, calls[..|calls| - 1], t)
    ensures var c := calls[|calls| - 1];
            var after := IncAccess(t, c);
            && (after.Some? <==> (NearRmw(s, c) ==> AtCounter(c, s.special.value)))
            && (after.Some? ==> Tallies(FetchAdd, s, calls, after.value) && after.value.active == t.active)
  {
    RmwsSnoc(s, calls);
    hide Rmws, Reads, CountIn, EvenIn, Total, ReadsTallied, Near, IsRmw, IsRead, AtCounter;
  }

  lemma CasTallies(s: Sim, calls: seq<MemoryCall>, t: Sim)
    requires Watching(s) && calls != [] && Tallies(CompareAndSwap, s, calls[..|calls| - 1], t)
    ensures var c := calls[|calls| - 1];
            var after := CasAccess(t, c);
            && (after.Some? <==> (NearRmw(s, c) ==> AtCounter(c, s.special.value)))
            && (after.Some? ==> Tallies(CompareAndSwap, s, calls, after.value) && after.value.active == t.active)
  {
    RmwsSnoc(s, calls);
    TotalBump(t.tally, calls[|calls| - 1].threadId);
    ReadsTalliedSnoc(s, calls, t);
    hide Rmws, CountIn, EvenIn, Total, ReadsTallied, Near, IsRmw, IsRead, AtCounter;
  }

  lemma AccessTallies(kind: Kind, s: Sim, calls: seq<MemoryCall>, t: Sim)
    requires Watching(s) && calls != [] && Tallies(kind, s, calls[..|calls| - 1], t)
    ensures var c := calls[|calls| - 1];
            var after := Access(kind, t, c);
            && (after.Some? <==> (NearRmw(s, c) ==> AtCounter(c, s.special.value)))
            && (after.Some? ==> Tallies(kind, s, calls, after.value) && after.value.active == t.active)
  {
    hide IncAccess, CasAccess, Tallies, NearRmw, AtCounter;
    if kind.FetchAdd? {
      IncTallies(s, calls, t);
    } else {
      CasTallies(s, calls, t);
    }
  }

  /** The other callbacks change the roster only, once the counter is watched. */
  lemma HousekeepingWatching(t: Sim, c: Callback)
    requires Watching(t) && !c.OnMemory?
    ensures var r := Roster(t.active, [c]);
            && (Housekeeping(t, c).Some? <==> r.Some? && NoMalloc([c]))
            && (Housekeeping(t, c).Some? ==> Housekeeping(t, c).value == t.(active := r.value))
  {
    assert [c][..0] == [];
    assert Roster(t.active, [c][..0]) == Some(t.active);
    assert forall d :: d in [c] ==> d == c;
    assert c in [c];
  }

  lemma MemoryTallies(kind: Kind, s: Sim, cs: seq<Callback>, t: Sim)
    requires Watching(s) && cs != [] && Tallies(kind, s, MemoryCalls(cs[..|cs| - 1]), t) && cs[|cs| - 1].OnMemory?
    ensures var c := cs[|cs| - 1];
            var after := Step(kind, t, c);
            && (after.Some? <==> AcceptsNext(s, t.active, c))
            && (after.Some? ==> Tallies(kind, s, MemoryCalls(cs), after.value))
            && (after.Some? ==> Roster(t.active, [c]) == Some(after.value.active))
  {
    var c := cs[|cs| - 1];
    MemorySnocCalls(cs);
    RosterSnoc(t.active, [c]);
    assert [c][..0] == [];
    assert Roster(t.active, []) == Some(t.active);
    hide Tallies, Access, NoMalloc, Watching, NearRmw, AtCounter, MemoryCalls, Roster;
    AccessTallies(kind, s, MemoryCalls(cs), t);
  }

  lemma OtherTallies(kind: Kind, s: Sim, cs: seq<Callback>, t: Sim)
    requires Watching(s) && cs != [] && Tallies(kind, s, MemoryCalls(cs[..|cs| - 1]), t) && !cs[|cs| - 1].OnMemory?
    ensures var c := cs[|cs| - 1];
            var after := Step(kind, t, c);
            && (after.Some? <==> AcceptsNext(s, t.active, c))
            && (after.Some? ==> Tallies(kind, s, MemoryCalls(cs), after.value))
            && (after.Some? ==> Roster(t.active, [c]) == Some(after.value.active))
  {
    assert MemoryCalls(cs) == MemoryCalls(cs[..|cs| - 1]);
    hide Housekeeping, Roster, NoMalloc, Watching, MemoryCalls, Tallies;
    TalliesWatch(kind, s, MemoryCalls(cs), t);
    HousekeepingWatching(t, cs[|cs| - 1]);
    var after := Step(kind, t, cs[|cs| - 1]);
    if after.Some? {
      RosterPlaysNoPart(kind, s, MemoryCalls(cs), t, after.value.active);
    }
  }

  lemma StepTallies(kind: Kind, s: Sim, cs: seq<Callback>, t: Sim)
    requires Watching(s) && cs != [] && Tallies(kind, s, MemoryCalls(cs[..|cs| - 1]), t)
    ensures var c := cs[|cs| - 1];
            var after := Step(kind, t, c);
            && (after.Some? <==> AcceptsNext(s, t.active, c))
            && (after.Some? ==> Tallies(kind, s, MemoryCalls(cs), after.value))
            && (after.Some? ==> Roster(t.active, [c]) == Some(after.value.active))
  {
    hide Watching, Tallies, Step, AcceptsNext, Roster, MemoryCalls;
    if cs[|cs| - 1].OnMemory? {
      MemoryTallies(kind, s, cs, t);
    } else {
      OtherTallies(kind, s, cs, t);
    }
  }

  lemma RosterPlaysNoPart(kind: Kind, s: Sim, calls: seq<MemoryCall>, t: Sim, active: set<int>)
    requires s.special.Some? && Tallies(kind, s, calls, t)
    ensures Tallies(kind, s, calls, t.(active := active))
  {
  }

  lemma TalliesWatch(kind: Kind, s: Sim, calls: seq<MemoryCall>, t: Sim)
    requires Watching(s) && Tallies(kind, s, calls, t)
    ensures Watching(t)
  {
  }

  /**
    Once it watches the counter, a simulator accepts a trace exactly if every read-modify-write near the
    counter is at the counter, nothing is allocated again, and threads start and finish in turn. It then
    knows the number of increments and how many each thread made; the fetch-and-add simulator also how many
    of these found an even value, the compare-and-swap simulator how often each thread read, swaps
    included.
  */
  lemma {:induction false} ReplayMeaning(kind: Kind, address: int, size: int, active: set<int>, cs: seq<Callback>)
    requires address != 0
    ensures var s, t := Ready(address, size, active), Replay(kind, Ready(address, size, active), cs);
            && (t.Some? <==> Acceptable(s, cs))
            && (t.Some? ==> Tallies(kind, s, MemoryCalls(cs), t.value) && Roster(active, cs) == Some(t.value.active))
  {
    var s := Ready(address, size, active);
    if cs == [] {
      assert Total(map[]) == 0;
    } else {
      var front := cs[..|cs| - 1];
      ReplayMeaning(kind, address, size, active, front);
      AcceptableSnoc(s, cs);
      RosterSnoc(active, cs);
      hide Tallies, Acceptable, AcceptsNext, Roster, Step, MemoryCalls;
      if Replay(kind, s, front).Some? {
        StepTallies(kind, s, cs, Replay(kind, s, front).value);
      }
    }
  }

  /** A whole trace: the allocation at `address`, then callbacks that the simulator accepts. */
  ghost predicate WholeTrace(u: Setup, address: int, size: int, cs: seq<Callback>) {
    && Allocates(u, address, size) && address != 0
    && Roster({}, CallbacksOf(u) + cs).Some? && NoMalloc(cs)
    && CountersOnly(Ready(address, size, {}), MemoryCalls(cs))
  }

  /** The simulator made for a whole trace comes to its end, with the tallies of the accesses after the allocation. */
  lemma WholeTraceReplayed(kind: Kind, u: Setup, address: int, size: int, cs: seq<Callback>)
    requires WholeTrace(u, address, size, cs)
    ensures var t := Replay(kind, New(), CallbacksOf(u) + cs);
            t.Some? && Tallies(kind, Ready(address, size, {}), MemoryCalls(cs), t.value)
  {
    hide Replay, Tallies, Roster, NoMalloc, CallbacksOf, Allocates, Rmws, Reads;
    AllocationWatched(kind, u, address, size);
    RosterAppend({}, CallbacksOf(u), cs);
    ReplayAppend(kind, New(), CallbacksOf(u), cs);
    var active := Roster({}, CallbacksOf(u)).value;
    SameCounters(address, size, active, MemoryCalls(cs));
    ReplayMeaning(kind, address, size, active, cs);
    SameTallies(kind, address, size, active, MemoryCalls(cs), Replay(kind, New(), CallbacksOf(u) + cs).value);
  }

  /** The roster has no part in the tallies. */
  lemma SameCounters(address: int, size: int, active: set<int>, calls: seq<MemoryCall>)
    ensures CountersOnly(Ready(address, size, {}), calls) <==> CountersOnly(Ready(address, size, active), calls)
  {
  }

  lemma {:induction false} SameRmws(address: int, size: int, active: set<int>, calls: seq<MemoryCall>)
    ensures Rmws(Ready(address, size, {}), calls) == Rmws(Ready(address, size, active), calls)
    ensures Reads(Ready(address, size, {}), calls) == Reads(Ready(address, size, active), calls)
    ensures forall u :: ReadsBy(Ready(address, size, {}), calls, u) == ReadsBy(Ready(address, size, active), calls, u)
  {
    if calls != [] {
      SameRmws(address, size, active, calls[..|calls| - 1]);
    }
  }

  lemma SameTallies(kind: Kind, address: int, size: int, active: set<int>, calls: seq<MemoryCall>, t: Sim)
    requires Tallies(kind, Ready(address, size, active), calls, t)
    ensures Tallies(kind, Ready(address, size, {}), calls, t)
  {
    SameRmws(address, size, active, calls);
    hide Rmws, Reads, ReadsBy, Total, CountIn, EvenIn;
  }

  // ----- the simulators recompute the output of the programs -----

  /** A trace of the fetch-and-add program: its increments in order, and accesses elsewhere. */
  ghost predicate TraceOfInc(u: Setup, address: int, size: int, cs: seq<Callback>, log: seq<nat>) {
    WholeTrace(u, address, size, cs) && Rmws(Ready(address, size, {}), MemoryCalls(cs)) == log
  }

  /** Replaying the increments in order gives every thread's count and even count. */
  lemma IncOutputReplayed(stop: int, n: nat, run: seq<nat>, u: Setup, address: int, size: int, cs: seq<Callback>)
    requires stop >= 0 && n > 0 && Inc.ValidRun(stop, Inc.Initial(n), run)
    requires Inc.AllFinished(Inc.Final(stop, Inc.Initial(n), run))
    requires TraceOfInc(u, address, size, cs, Inc.Final(stop, Inc.Initial(n), run).log)
    ensures var s, t := Inc.Final(stop, Inc.Initial(n), run), Replay(FetchAdd, New(), CallbacksOf(u) + cs);
            && t.Some? && t.value.value == s.counter && |s.threads| == n
            && forall k :: 0 <= k < n ==>
                 Get(t.value.increments, k) == s.threads[k].count && Get(t.value.tally, k) == s.threads[k].evenCount
  {
    Inc.FinalCounter(stop, n, run);
    Inc.InitialCounted(stop, n);
    Inc.RunKeeps(stop, Inc.Initial(n), run);
    WholeTraceReplayed(FetchAdd, u, address, size, cs);
    hide Inc.Final, Replay, Rmws, Roster, CallbacksOf, NoMalloc;
  }

  /** How an access to the counter is traced: a failed swap is a read, or a write too if failures are logged. */
  predicate TracedAsRmw(a: IncCas.Access, logCasFails: bool) {
    a.Swap? && (a.done || logCasFails)
  }

  function TracedRmws(log: seq<IncCas.Access>, logCasFails: bool): seq<int> {
    if log == [] then []
    else
      var a := log[|log| - 1];
      TracedRmws(log[..|log| - 1], logCasFails) + (if TracedAsRmw(a, logCasFails) then [a.thread] else [])
  }

  lemma {:induction false} TracedCounts(log: seq<IncCas.Access>)
    ensures TracedRmws(log, false) == IncCas.Increments(log)
    ensures |TracedRmws(log, false)| == IncCas.SwapsOf(log, true)
    ensures |TracedRmws(log, true)| == IncCas.SwapsOf(log, true) + IncCas.SwapsOf(log, false)
  {
    if log != [] {
      TracedCounts(log[..|log| - 1]);
    }
  }

  /** A trace of the compare-and-swap program: its accesses to the counter, and accesses elsewhere. */
  ghost predicate TraceOfCas(
    u: Setup, address: int, size: int, cs: seq<Callback>, log: seq<IncCas.Access>, logCasFails: bool)
  {
    var s := Ready(address, size, {});
    && WholeTrace(u, address, size, cs) && Rmws(s, MemoryCalls(cs)) == TracedRmws(log, logCasFails)
    && Reads(s, MemoryCalls(cs)) == |log| - |TracedRmws(log, logCasFails)|
  }

  /**
    The compare-and-swap simulator finds the counter, every thread's count, and in the reads it saw, minus
    twice the increments, all failures that the threads counted.
  */
  lemma CasOutputReplayed(stop: int, n: nat, run: seq<nat>, u: Setup, address: int, size: int, cs: seq<Callback>)
    requires stop >= 0 && n > 0 && IncCas.ValidRun(stop, IncCas.Initial(n), run)
    requires IncCas.AllFinished(IncCas.Final(stop, IncCas.Initial(n), run))
    requires TraceOfCas(u, address, size, cs, IncCas.Final(stop, IncCas.Initial(n), run).log, false)
    ensures var s, t := IncCas.Final(stop, IncCas.Initial(n), run), Replay(CompareAndSwap, New(), CallbacksOf(u) + cs);
            && t.Some? && t.value.value == s.counter && |s.threads| == n
            && (forall k :: 0 <= k < n ==> Get(t.value.increments, k) == s.threads[k].count)
            && Total(t.value.tally) - 2 * t.value.value == Sum(s.threads, (k: IncCas.Thread) => k.fails)
  {
    var s := IncCas.Final(stop, IncCas.Initial(n), run);
    IncCas.FinalCounter(stop, n, run);
    IncCas.LogLength(s.log);
    TracedCounts(s.log);
    WholeTraceReplayed(CompareAndSwap, u, address, size, cs);
    hide IncCas.Final, Replay, Rmws, Reads, Total, Sum, Roster, CallbacksOf, NoMalloc;
    forall k | 0 <= k < n
      ensures Get(Replay(CompareAndSwap, New(), CallbacksOf(u) + cs).value.increments, k) == s.threads[k].count
    {
      assert IncCas.ThreadCounted(s, k);
    }
  }

  /** With failures logged as writes the simulated counter is right only if no swap failed. */
  lemma LoggedFailuresBreakTheCount(
    stop: int, n: nat, run: seq<nat>, u: Setup, address: int, size: int, cs: seq<Callback>)
    requires stop >= 0 && n > 0 && IncCas.ValidRun(stop, IncCas.Initial(n), run)
    requires TraceOfCas(u, address, size, cs, IncCas.Final(stop, IncCas.Initial(n), run).log, true)
    ensures var s, t := IncCas.Final(stop, IncCas.Initial(n), run), Replay(CompareAndSwap, New(), CallbacksOf(u) + cs);
            t.Some? && (t.value.value == s.counter <==> IncCas.SwapsOf(s.log, false) == 0)
  {
    var s := IncCas.Final(stop, IncCas.Initial(n), run);
    IncCas.InitialCounted(stop, n);
    IncCas.RunKeeps(stop, IncCas.Initial(n), run);
    TracedCounts(s.log);
    WholeTraceReplayed(CompareAndSwap, u, address, size, cs);
    hide IncCas.Final, Replay, Rmws, Reads, Total, Roster, CallbacksOf, NoMalloc;
  }

  // ----- the overlap test -----

  predicate Within(x: int, address: int, size: int) {
    address <= x < address + size
  }

  ghost predicate Overlaps(address: int, size: int, special: int, specialSize: int) {
    exists x: int :: Within(x, address, size) && Within(x, special, specialSize)
  }

  /**
    The overlap test is too wide: it also holds of accesses that end where the counter starts, or
    start where it ends.
  */
  lemma NearMeaning(address: int, size: int, special: int, specialSize: int)
    requires size >= 1 && specialSize >= 1
    ensures Near(address, size, special, specialSize) <==>
            || Overlaps(address, size, special, specialSize)
            || address + size == special || address == special + specialSize
  {
    var x := if address < special then special else address;
    if Near(address, size, special, specialSize) && address + size != special && address != special + specialSize {
      assert Within(x, address, size) && Within(x, special, specialSize);
    }
  }

  /**
    Which read-modify-writes fail the assertion of both simulators: those that overlap the allocation, or
    are its neighbours, and are not the counter.
  */
  lemma NeighbourRejected(kind: Kind, address: int, size: int, active: set<int>, c: MemoryCall)
    requires address != 0 && size >= 8 && IsRmw(c) && c.operands.readSize >= 1
    ensures var o := c.operands;
            Step(kind, Ready(address, size, active), OnMemory(c)).None? <==>
            && !AtCounter(c, address)
            && (|| Overlaps(o.writeAddress, o.writeSize, address, size)
                || o.writeAddress + o.writeSize == address || o.writeAddress == address + size)
  {
    NearMeaning(c.operands.writeAddress, c.operands.writeSize, address, size);
  }
}
