/** The lines of a trace file: one event each, stamped with a Lamport time and a user thread id. */
module TraceLine {
  import opened Options

  /** `size` bytes starting at `address`. */
  datatype Range = Range(address: nat, size: nat)

  datatype Event =
    | Memory(read1: Option<Range>, read2: Option<nat>, write: Option<Range>)
    | Call(name: string, stackPointer: nat, arg1: nat, arg2: nat, arg3: nat)
    | Return(name: string, stackPointer: nat, value: nat)
    | Register
    | Finish
    | Sync
    | StartRoi
    | EndRoi
    | ContextChange

  datatype Line = Line(time: int, uid: int, event: Event)

  /** What the merge utility distinguishes: `tr`, `tf`, `thread_sync` and the rest. */
  datatype Tag = TagRegister | TagFinish | TagSync | TagOther

  datatype Head = Head(time: int, uid: int, tag: Tag)

  function TagOf(e: Event): Tag {
    match e
    case Register => TagRegister
    case Finish => TagFinish
    case Sync => TagSync
    case _ => TagOther
  }

  function HeadOf(l: Line): Head {
    Head(l.time, l.uid, TagOf(l.event))
  }

  function Heads(f: seq<Line>): (hs: seq<Head>)
    ensures |hs| == |f|
    ensures forall i :: 0 <= i < |f| ==> hs[i] == HeadOf(f[i])
  {
    seq(|f|, i requires 0 <= i < |f| => HeadOf(f[i]))
  }

  lemma HeadsAppend(f: seq<Line>, g: seq<Line>)
    ensures Heads(f + g) == Heads(f) + Heads(g)
  {
  }

  // ----- the memory lines of a file -----

  function MemoryLines(f: seq<Line>): seq<Line> {
    if f == [] then []
    else MemoryLines(f[..|f| - 1]) + (if f[|f| - 1].event.Memory? then [f[|f| - 1]] else [])
  }

  lemma MemorySnoc(f: seq<Line>, l: Line)
    ensures MemoryLines(f + [l]) == MemoryLines(f) + (if l.event.Memory? then [l] else [])
  {
    assert (f + [l])[..|f|] == f;
  }

  lemma {:induction false} MemoryAppend(f: seq<Line>, g: seq<Line>)
    ensures MemoryLines(f + g) == MemoryLines(f) + MemoryLines(g)
  {
    if g == [] {
      assert f + g == f;
    } else {
      assert (f + g)[..|f + g| - 1] == f + g[..|g| - 1];
      MemoryAppend(f, g[..|g| - 1]);
    }
  }
}
