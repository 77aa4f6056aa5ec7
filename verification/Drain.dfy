/**
  The double buffer: a reader fills one buffer while a writer drains the other, and two barrier waits
  per round exchange them. Reads and writes may be short in any way.
*/
module Drain {
  import opened Options

  type Byte = bv8

  /** Where the reader is in a round. It waits at two barriers, with the assignment of `eof` between them. */
  datatype ReaderPc = Clearing | Filling | FirstWait | Deciding | SecondWait | Leaving | ReaderDone

  datatype WriterPc = Draining | Checking | WaitOne | WaitTwo | WriterDone

  /** A thread's round, and the generation of the barrier it waits at, if any. */
  datatype Reader = Reader(pc: ReaderPc, round: nat, arrived: Option<nat>)

  datatype Writer = Writer(pc: WriterPc, round: nat, arrived: Option<nat>, start: nat)

  /**
    `waiting` threads have arrived at generation `generation` of the barrier. `bufs` are used up to
    their end cursors.
  */
  datatype State = State(
    rest: seq<Byte>,
    hitEnd: bool,
    bufs: (seq<Byte>, seq<Byte>),
    eof: bool,
    generation: nat,
    waiting: nat,
    reader: Reader,
    writer: Writer,
    output: seq<Byte>)

  function Initial(input: seq<Byte>): State {
    State(input, false, ([], []), false, 0, 0, Reader(Clearing, 0, None), Writer(Draining, 0, None, 0), [])
  }

  function Buf(bufs: (seq<Byte>, seq<Byte>), i: nat): seq<Byte> {
    if i % 2 == 0 then bufs.0 else bufs.1
  }

  function SetBuf(s: State, i: nat, b: seq<Byte>): State {
    s.(bufs := if i % 2 == 0 then (b, s.bufs.1) else (s.bufs.0, b))
  }

  datatype Label =
    | Clear                        // end_cursor = 0
    | Read(n: nat, end: bool)      // fread returns n bytes; `end`: it met the end of the input
    | Full                         // the loop of the reader ends
    | ReaderArrives
    | ReaderPasses
    | Decide                       // eof = feof
    | ReaderTurns                  // return, or the next round
    | Write(n: nat)                // fwrite takes n bytes
    | Drained                      // the loop of the writer ends
    | WriterChecks                 // return, or wait
    | WriterArrives
    | WriterPasses

  predicate Enabled(capacity: nat, s: State, l: Label) {
    var r, w := s.reader, s.writer;
    match l
    case Clear => r.pc.Clearing?
    case Read(n, end) =>
      r.pc.Filling? && |Buf(s.bufs, r.round)| < capacity && !s.hitEnd
      && n <= capacity - |Buf(s.bufs, r.round)| && n <= |s.rest| && (end ==> n == |s.rest|)
    case Full => r.pc.Filling? && (|Buf(s.bufs, r.round)| >= capacity || s.hitEnd)
    case ReaderArrives => (r.pc.FirstWait? || r.pc.SecondWait?) && r.arrived.None?
    case ReaderPasses => r.arrived.Some? && r.arrived.value < s.generation
    case Decide => r.pc.Deciding?
    case ReaderTurns => r.pc.Leaving?
    case Write(n) => w.pc.Draining? && w.start < |Buf(s.bufs, w.round + 1)| && n <= |Buf(s.bufs, w.round + 1)| - w.start
    case Drained => w.pc.Draining? && w.start >= |Buf(s.bufs, w.round + 1)|
    case WriterChecks => w.pc.Checking?
    case WriterArrives => (w.pc.WaitOne? || w.pc.WaitTwo?) && w.arrived.None?
    case WriterPasses => w.arrived.Some? && w.arrived.value < s.generation
  }

  function PastBarrier(r: Reader): Reader {
    Reader(if r.pc.FirstWait? then Deciding else Leaving, r.round, None)
  }

  function WriterPastBarrier(w: Writer): Writer {
    if w.pc.WaitOne? then w.(pc := WaitTwo, arrived := None) else Writer(Draining, w.round + 1, None, 0)
  }

  function Next(capacity: nat, s: State, l: Label): State
    requires Enabled(capacity, s, l)
  {
    var r, w := s.reader, s.writer;
    match l
    case Clear => SetBuf(s, r.round, []).(reader := r.(pc := Filling))
    case Read(n, end) => SetBuf(s, r.round, Buf(s.bufs, r.round) + s.rest[..n]).(rest := s.rest[n..], hitEnd := end)
    case Full => s.(reader := r.(pc := FirstWait))
    case ReaderArrives =>
      if s.waiting == 1 then s.(reader := PastBarrier(r), waiting := 0, generation := s.generation + 1)
      else s.(reader := r.(arrived := Some(s.generation)), waiting := s.waiting + 1)
    case ReaderPasses => s.(reader := PastBarrier(r))
    case Decide => s.(eof := s.hitEnd, reader := r.(pc := SecondWait))
    case ReaderTurns => s.(reader := if s.eof then r.(pc := ReaderDone) else Reader(Clearing, r.round + 1, None))
    case Write(n) =>
      var written := Buf(s.bufs, w.round + 1)[w.start..w.start + n];
      s.(writer := w.(start := w.start + n), output := s.output + written)
    case Drained => s.(writer := w.(pc := Checking))
    case WriterChecks => s.(writer := w.(pc := if s.eof then WriterDone else WaitOne))
    case WriterArrives =>
      if s.waiting == 1 then s.(writer := WriterPastBarrier(w), waiting := 0, generation := s.generation + 1)
      else s.(writer := w.(arrived := Some(s.generation)), waiting := s.waiting + 1)
    case WriterPasses => s.(writer := WriterPastBarrier(w))
  }

  // ----- the invariant -----

  /** How many barrier waits a thread has behind it. */
  function ReaderPassed(r: Reader): nat {
    2 * r.round + match r.pc
                  case Deciding => 1
                  case SecondWait => 1
                  case Leaving => 2
                  case ReaderDone => 2
                  case _ => 0
  }

  function WriterPassed(w: Writer): nat {
    2 * w.round + (if w.pc.WaitTwo? then 1 else 0)
  }

  predicate AtBarrier(passed: nat, arrived: Option<nat>, atWait: bool, generation: nat) {
    match arrived
    case None => passed == generation
    case Some(g) => atWait && passed == g && g <= generation <= g + 1
  }

  function Count(arrived: Option<nat>, generation: nat): nat {
    if arrived == Some(generation) then 1 else 0
  }

  predicate BarrierOk(s: State) {
    && AtBarrier(ReaderPassed(s.reader), s.reader.arrived,
                 s.reader.pc.FirstWait? || s.reader.pc.SecondWait?, s.generation)
    && AtBarrier(WriterPassed(s.writer), s.writer.arrived, s.writer.pc.WaitOne? || s.writer.pc.WaitTwo?, s.generation)
    && s.waiting == Count(s.reader.arrived, s.generation) + Count(s.writer.arrived, s.generation) <= 1
  }

  /** `eof` is false until the reader has decided otherwise, and then only the exits are left. */
  predicate EofOk(s: State) {
    && (s.hitEnd ==> s.rest == [])
    && (match s.reader.pc
        case Clearing => !s.eof && !s.hitEnd
        case Filling => !s.eof
        case FirstWait => !s.eof
        case Deciding => !s.eof
        case ReaderDone => s.eof && s.hitEnd
        case _ => s.eof == s.hitEnd)
    && (s.writer.pc.WaitOne? && s.generation == 2 * s.writer.round ==> !s.eof)
    && (s.writer.pc.WriterDone? ==> s.eof && s.writer.round == s.reader.round + 1)
  }

  /** What was read and is not yet written: left in the writer's buffer, full and not begun, being filled. */
  function Undrained(s: State): seq<Byte>
    requires s.writer.pc.Draining? ==> s.writer.start <= |Buf(s.bufs, s.writer.round + 1)|
  {
    var r, w := s.reader, s.writer;
    (if w.pc.Draining? then Buf(s.bufs, w.round + 1)[w.start..] else [])
    + (if w.round < r.round then Buf(s.bufs, w.round) else [])
    + (if w.round <= r.round && !r.pc.Clearing? then Buf(s.bufs, r.round) else [])
  }

  predicate Conserved(input: seq<Byte>, s: State) {
    && (s.writer.pc.Draining? ==> s.writer.start <= |Buf(s.bufs, s.writer.round + 1)|)
    && s.output + Undrained(s) + s.rest == input
  }

  predicate Fits(capacity: nat, s: State) {
    |s.bufs.0| <= capacity && |s.bufs.1| <= capacity
  }

  predicate DrainInv(capacity: nat, input: seq<Byte>, s: State) {
    BarrierOk(s) && EofOk(s) && Conserved(input, s) && Fits(capacity, s)
  }

  lemma InitialInv(capacity: nat, input: seq<Byte>)
    ensures DrainInv(capacity, input, Initial(input))
  {
  }

  /** The rounds of the two threads follow each other. */
  lemma Rounds(s: State)
    requires BarrierOk(s)
    ensures s.writer.round <= s.reader.round + 1 && s.reader.round <= s.writer.round + 1
    ensures (s.reader.pc.Clearing? || s.reader.pc.Filling?) && s.writer.pc.Draining? ==>
              s.reader.round == s.writer.round
  {
  }

  lemma ReaderKeepsBarrier(capacity: nat, s: State, l: Label)
    requires BarrierOk(s) && Enabled(capacity, s, l) && OfReader(l)
    ensures BarrierOk(Next(capacity, s, l))
  {
  }

  lemma OthersKeepBarrier(capacity: nat, s: State, l: Label)
    requires BarrierOk(s) && Enabled(capacity, s, l) && !OfReader(l)
    ensures BarrierOk(Next(capacity, s, l))
  {
  }

  lemma StepKeepsBarrier(capacity: nat, s: State, l: Label)
    requires BarrierOk(s) && Enabled(capacity, s, l)
    ensures BarrierOk(Next(capacity, s, l))
  {
    hide BarrierOk, Next, Enabled;
    if OfReader(l) {
      ReaderKeepsBarrier(capacity, s, l);
    } else {
      OthersKeepBarrier(capacity, s, l);
    }
  }

  lemma StepKeepsEof(capacity: nat, s: State, l: Label)
    requires BarrierOk(s) && EofOk(s) && Enabled(capacity, s, l)
    ensures EofOk(Next(capacity, s, l))
  {
  }

  lemma StepFits(capacity: nat, s: State, l: Label)
    requires Fits(capacity, s) && Enabled(capacity, s, l)
    ensures Fits(capacity, Next(capacity, s, l))
  {
  }

  lemma ReadConserves(capacity: nat, input: seq<Byte>, s: State, n: nat, end: bool)
    requires BarrierOk(s) && Conserved(input, s) && Enabled(capacity, s, Read(n, end))
    ensures Conserved(input, Next(capacity, s, Read(n, end)))
  {
    var r, w := s.reader, s.writer;
    Rounds(s);
    var draining := if w.pc.Draining? then Buf(s.bufs, w.round + 1)[w.start..] else [];
    var full := if w.round < r.round then Buf(s.bufs, w.round) else [];
    ReadParts(s.output, draining, full, Buf(s.bufs, r.round), s.rest, n);
  }

  lemma ReadParts(out: seq<Byte>, draining: seq<Byte>, full: seq<Byte>, filling: seq<Byte>, rest: seq<Byte>, n: nat)
    requires n <= |rest|
    ensures out + (draining + full + (filling + rest[..n])) + rest[n..] == out + (draining + full + filling) + rest
  {
  }

  lemma WriteConserves(capacity: nat, input: seq<Byte>, s: State, n: nat)
    requires Conserved(input, s) && Enabled(capacity, s, Write(n))
    ensures Conserved(input, Next(capacity, s, Write(n)))
  {
    hide Buf, Conserved;
    WriteState(input, s, n);
  }

  lemma WriteState(input: seq<Byte>, s: State, n: nat)
    requires Conserved(input, s) && s.writer.pc.Draining? && s.writer.start + n <= |Buf(s.bufs, s.writer.round + 1)|
    ensures var w, b := s.writer, Buf(s.bufs, s.writer.round + 1);
            Conserved(input, s.(writer := w.(start := w.start + n), output := s.output + b[w.start..w.start + n]))
  {
    var r, w := s.reader, s.writer;
    var full := if w.round < r.round then Buf(s.bufs, w.round) else [];
    var filling := if w.round <= r.round && !r.pc.Clearing? then Buf(s.bufs, r.round) else [];
    hide Buf;
    WriteParts(s.output, Buf(s.bufs, w.round + 1), w.start, n, full, filling, s.rest);
  }

  lemma WriteParts(out: seq<Byte>, b: seq<Byte>, start: nat, n: nat, full: seq<Byte>, filling: seq<Byte>,
      rest: seq<Byte>)
    requires start + n <= |b|
    ensures (out + b[start..start + n]) + (b[start + n..] + full + filling) + rest
            == out + (b[start..] + full + filling) + rest
  {
    assert b[start..] == b[start..start + n] + b[start + n..];
  }

  predicate OfReader(l: Label) {
    l.Clear? || l.Full? || l.ReaderArrives? || l.ReaderPasses? || l.Decide? || l.ReaderTurns?
  }

  /** The reader's other steps leave what is undrained alone, also when it goes on to the other buffer. */
  lemma ReaderConserves(capacity: nat, input: seq<Byte>, s: State, l: Label)
    requires BarrierOk(s) && EofOk(s) && Conserved(input, s) && Enabled(capacity, s, l) && OfReader(l)
    ensures Conserved(input, Next(capacity, s, l))
  {
    Rounds(s);
    assert Undrained(Next(capacity, s, l)) == Undrained(s);
  }

  /** So do the writer's, also when the buffer that the reader filled becomes its own. */
  lemma WriterConserves(capacity: nat, input: seq<Byte>, s: State, l: Label)
    requires BarrierOk(s) && EofOk(s) && Conserved(input, s) && Enabled(capacity, s, l)
    requires !OfReader(l) && !l.Read? && !l.Write?
    ensures Conserved(input, Next(capacity, s, l))
  {
    Rounds(s);
    assert Undrained(Next(capacity, s, l)) == Undrained(s);
  }

  lemma StepConserves(capacity: nat, input: seq<Byte>, s: State, l: Label)
    requires BarrierOk(s) && EofOk(s) && Conserved(input, s) && Enabled(capacity, s, l)
    ensures Conserved(input, Next(capacity, s, l))
  {
    match l
    case Read(n, end) => ReadConserves(capacity, input, s, n, end);
    case Write(n) => WriteConserves(capacity, input, s, n);
    case _ =>
      if OfReader(l) {
        ReaderConserves(capacity, input, s, l);
      } else {
        WriterConserves(capacity, input, s, l);
      }
  }

  // ----- every reachable state -----

  predicate ValidRun(capacity: nat, s: State, run: seq<Label>)
    decreases |run|
  {
    run == [] || (Enabled(capacity, s, run[0]) && ValidRun(capacity, Next(capacity, s, run[0]), run[1..]))
  }

  function Final(capacity: nat, s: State, run: seq<Label>): State
    requires ValidRun(capacity, s, run)
    decreases |run|
  {
    if run == [] then s else Final(capacity, Next(capacity, s, run[0]), run[1..])
  }

  lemma {:induction false} RunKeeps(capacity: nat, input: seq<Byte>, s: State, run: seq<Label>)
    requires DrainInv(capacity, input, s) && ValidRun(capacity, s, run)
    ensures DrainInv(capacity, input, Final(capacity, s, run))
    decreases |run|
  {
    if run != [] {
      var t := Next(capacity, s, run[0]);
      StepKeepsBarrier(capacity, s, run[0]);
      StepKeepsEof(capacity, s, run[0]);
      StepConserves(capacity, input, s, run[0]);
      StepFits(capacity, s, run[0]);
      hide BarrierOk, EofOk, Conserved, Fits, Next, Enabled;
      RunKeeps(capacity, input, t, run[1..]);
    }
  }

  /**
    Under every interleaving and every pattern of short reads and writes, what was written, what is
    still to be drained, what is being filled and what was not read make up the input, in that order,
    and no buffer holds more than its capacity.
  */
  lemma NothingIsLost(capacity: nat, input: seq<Byte>, run: seq<Label>)
    requires ValidRun(capacity, Initial(input), run)
    ensures var s := Final(capacity, Initial(input), run);
            && (s.writer.pc.Draining? ==> s.writer.start <= |Buf(s.bufs, s.writer.round + 1)|)
            && s.output + Undrained(s) + s.rest == input
            && |s.bufs.0| <= capacity && |s.bufs.1| <= capacity
  {
    InitialInv(capacity, input);
    RunKeeps(capacity, input, Initial(input), run);
  }

  /** The reader and the writer never use the same buffer at the same time. */
  lemma BuffersAreExclusive(capacity: nat, input: seq<Byte>, run: seq<Label>)
    requires ValidRun(capacity, Initial(input), run)
    ensures var s := Final(capacity, Initial(input), run);
            (s.reader.pc.Clearing? || s.reader.pc.Filling?) && s.writer.pc.Draining? ==>
              s.reader.round % 2 != (s.writer.round + 1) % 2
  {
    InitialInv(capacity, input);
    RunKeeps(capacity, input, Initial(input), run);
    Rounds(Final(capacity, Initial(input), run));
  }

  /** A step that the system can take, as long as one of the threads has not returned. */
  function SomeStep(capacity: nat, s: State): Label {
    match s.reader.pc
    case Clearing => Clear
    case Deciding => Decide
    case Leaving => ReaderTurns
    case Filling =>
      if |Buf(s.bufs, s.reader.round)| >= capacity || s.hitEnd then Full
      else if |s.rest| <= capacity - |Buf(s.bufs, s.reader.round)| then Read(|s.rest|, true)
      else Read(capacity - |Buf(s.bufs, s.reader.round)|, false)
    case _ =>
      match s.writer.pc
      case Draining =>
        if s.writer.start >= |Buf(s.bufs, s.writer.round + 1)| then Drained
        else Write(|Buf(s.bufs, s.writer.round + 1)| - s.writer.start)
      case Checking => WriterChecks
      case _ =>
        if s.reader.arrived.None? && !s.reader.pc.ReaderDone? then ReaderArrives
        else if s.reader.arrived.Some? && s.reader.arrived.value < s.generation then ReaderPasses
        else if s.writer.arrived.None? then WriterArrives
        else WriterPasses
  }

  // ----- progress -----

  /** A reader that has left its loop has filled its buffer or met the end. */
  predicate FilledOk(capacity: nat, s: State) {
    s.reader.pc.FirstWait? || s.reader.pc.Deciding? || s.reader.pc.SecondWait? || s.reader.pc.Leaving? ==>
      s.hitEnd || |Buf(s.bufs, s.reader.round)| >= capacity
  }

  predicate ProgressInv(capacity: nat, s: State) {
    BarrierOk(s) && EofOk(s) && FilledOk(capacity, s)
      && (s.writer.pc.Draining? ==> s.writer.start <= |Buf(s.bufs, s.writer.round + 1)|)
  }

  /** A call of `fread` or `fwrite` that moves nothing and meets no end. */
  predicate Futile(l: Label) {
    l == Read(0, false) || l == Write(0)
  }

  /** What is left to do, most significant first: by the reader, then by the writer. */
  datatype Work = Work(unread: nat, reader: nat, filling: nat, rounds: nat, writer: nat, draining: nat)

  predicate Less(a: Work, b: Work) {
    || a.unread < b.unread
    || (a.unread == b.unread
        && (|| a.reader < b.reader
            || (a.reader == b.reader
                && (a.filling < b.filling || (a.filling == b.filling && LessForWriter(a, b))))))
  }

  predicate LessForWriter(a: Work, b: Work) {
    || a.rounds < b.rounds
    || (a.rounds == b.rounds && (a.writer < b.writer || (a.writer == b.writer && a.draining < b.draining)))
  }

  /** The steps a thread has before it in its round. */
  function ReaderSteps(r: Reader): nat {
    match r.pc
    case Clearing => 8
    case Filling => 7
    case FirstWait => if r.arrived.None? then 6 else 5
    case Deciding => 4
    case SecondWait => if r.arrived.None? then 3 else 2
    case Leaving => 1
    case ReaderDone => 0
  }

  function WriterSteps(w: Writer): nat {
    match w.pc
    case Draining => 6
    case Checking => 5
    case WaitOne => if w.arrived.None? then 4 else 3
    case WaitTwo => if w.arrived.None? then 2 else 1
    case WriterDone => 0
  }

  function WorkLeft(s: State): Work
    requires s.writer.round <= s.reader.round + 1
    requires s.writer.pc.Draining? ==> s.writer.start <= |Buf(s.bufs, s.writer.round + 1)|
  {
    Work(|s.rest| + (if s.reader.pc.Clearing? then 0 else |Buf(s.bufs, s.reader.round)|),
         ReaderSteps(s.reader), |s.rest| + (if s.hitEnd then 0 else 1),
         s.reader.round + 1 - s.writer.round, WriterSteps(s.writer),
         if s.writer.pc.Draining? then |Buf(s.bufs, s.writer.round + 1)| - s.writer.start else 0)
  }

  lemma StepKeepsFilled(capacity: nat, s: State, l: Label)
    requires BarrierOk(s) && FilledOk(capacity, s) && Enabled(capacity, s, l)
    ensures FilledOk(capacity, Next(capacity, s, l))
  {
  }

  lemma StepKeepsStart(capacity: nat, s: State, l: Label)
    requires ProgressInv(capacity, s) && Enabled(capacity, s, l)
    ensures var t := Next(capacity, s, l); t.writer.pc.Draining? ==> t.writer.start <= |Buf(t.bufs, t.writer.round + 1)|
  {
    Rounds(s);
  }

  lemma StepKeepsProgress(capacity: nat, s: State, l: Label)
    requires ProgressInv(capacity, s) && Enabled(capacity, s, l)
    ensures ProgressInv(capacity, Next(capacity, s, l))
  {
    StepKeepsBarrier(capacity, s, l);
    StepKeepsEof(capacity, s, l);
    StepKeepsFilled(capacity, s, l);
    StepKeepsStart(capacity, s, l);
  }

  /** Every step but a futile one leaves less to do: no scheduler can keep the threads from their ends. */
  lemma StepShrinks(capacity: nat, s: State, l: Label)
    requires capacity > 0 && ProgressInv(capacity, s) && Enabled(capacity, s, l) && !Futile(l)
    ensures Next(capacity, s, l).writer.round <= Next(capacity, s, l).reader.round + 1
    ensures ProgressInv(capacity, Next(capacity, s, l)) && s.writer.round <= s.reader.round + 1
    ensures Less(WorkLeft(Next(capacity, s, l)), WorkLeft(s))
  {
    StepKeepsProgress(capacity, s, l);
    hide BarrierOk;
    Rounds(s);
    Rounds(Next(capacity, s, l));
    if OfReader(l) || l.Read? {
      ReaderShrinks(capacity, s, l);
    } else {
      WriterShrinks(capacity, s, l);
    }
  }

  lemma ReaderShrinks(capacity: nat, s: State, l: Label)
    requires capacity > 0 && ProgressInv(capacity, s) && Enabled(capacity, s, l) && !Futile(l)
    requires (OfReader(l) || l.Read?) && ProgressInv(capacity, Next(capacity, s, l))
    requires s.writer.round <= s.reader.round + 1
    requires Next(capacity, s, l).writer.round <= Next(capacity, s, l).reader.round + 1
    ensures Less(WorkLeft(Next(capacity, s, l)), WorkLeft(s))
  {
  }

  lemma WriterShrinks(capacity: nat, s: State, l: Label)
    requires ProgressInv(capacity, s) && Enabled(capacity, s, l) && !Futile(l)
    requires !OfReader(l) && !l.Read? && ProgressInv(capacity, Next(capacity, s, l))
    requires s.writer.round <= s.reader.round + 1
    requires Next(capacity, s, l).writer.round <= Next(capacity, s, l).reader.round + 1
    ensures Less(WorkLeft(Next(capacity, s, l)), WorkLeft(s))
  {
  }

  lemma SomeStepIsEnabled(capacity: nat, s: State)
    requires capacity > 0 && ProgressInv(capacity, s) && !(s.reader.pc.ReaderDone? && s.writer.pc.WriterDone?)
    ensures Enabled(capacity, s, SomeStep(capacity, s)) && !Futile(SomeStep(capacity, s))
  {
  }

  lemma {:induction false} Finish(capacity: nat, s: State) returns (rest: seq<Label>)
    requires capacity > 0 && ProgressInv(capacity, s) && s.writer.round <= s.reader.round + 1
    ensures ValidRun(capacity, s, rest) && forall l :: l in rest ==> !Futile(l)
    ensures var t := Final(capacity, s, rest); t.reader.pc.ReaderDone? && t.writer.pc.WriterDone?
    decreases WorkLeft(s).unread, WorkLeft(s).reader, WorkLeft(s).filling,
              WorkLeft(s).rounds, WorkLeft(s).writer, WorkLeft(s).draining
  {
    if s.reader.pc.ReaderDone? && s.writer.pc.WriterDone? {
      rest := [];
    } else {
      var l := SomeStep(capacity, s);
      SomeStepIsEnabled(capacity, s);
      StepShrinks(capacity, s, l);
      hide ProgressInv, Next, Enabled, SomeStep, WorkLeft, Futile;
      var more := Finish(capacity, Next(capacity, s, l));
      rest := [l] + more;
      assert rest[1..] == more;
    }
  }

  lemma {:induction false} RunKeepsProgress(capacity: nat, s: State, run: seq<Label>)
    requires ProgressInv(capacity, s) && ValidRun(capacity, s, run)
    ensures ProgressInv(capacity, Final(capacity, s, run))
    decreases |run|
  {
    if run != [] {
      StepKeepsProgress(capacity, s, run[0]);
      hide ProgressInv, Next, Enabled;
      RunKeepsProgress(capacity, Next(capacity, s, run[0]), run[1..]);
    }
  }

  /** A buffer that the reader hands over is full, unless all of the input has been read. */
  lemma BuffersAreFull(capacity: nat, input: seq<Byte>, run: seq<Label>)
    requires ValidRun(capacity, Initial(input), run)
    ensures var s := Final(capacity, Initial(input), run);
            s.reader.pc.Clearing? || s.reader.pc.Filling? || |Buf(s.bufs, s.reader.round)| == capacity || s.rest == []
  {
    InitialInv(capacity, input);
    RunKeeps(capacity, input, Initial(input), run);
    RunKeepsProgress(capacity, Initial(input), run);
  }

  /**
    Neither thread is ever stranded at a barrier: until both have returned, a step that moves something can
    be taken.
  */
  lemma NobodyIsStranded(capacity: nat, input: seq<Byte>, run: seq<Label>)
    requires capacity > 0 && ValidRun(capacity, Initial(input), run)
    ensures var s := Final(capacity, Initial(input), run);
            || (s.reader.pc.ReaderDone? && s.writer.pc.WriterDone?)
            || (Enabled(capacity, s, SomeStep(capacity, s)) && !Futile(SomeStep(capacity, s)))
  {
    RunKeepsProgress(capacity, Initial(input), run);
    var s := Final(capacity, Initial(input), run);
    if !(s.reader.pc.ReaderDone? && s.writer.pc.WriterDone?) {
      SomeStepIsEnabled(capacity, s);
    }
  }

  /** Once both threads have returned, the output is the input. */
  lemma OutputIsInput(capacity: nat, input: seq<Byte>, run: seq<Label>)
    requires ValidRun(capacity, Initial(input), run)
    ensures var s := Final(capacity, Initial(input), run);
            s.reader.pc.ReaderDone? && s.writer.pc.WriterDone? ==> s.output == input
  {
    InitialInv(capacity, input);
    RunKeeps(capacity, input, Initial(input), run);
    var s := Final(capacity, Initial(input), run);
    if s.reader.pc.ReaderDone? && s.writer.pc.WriterDone? {
      assert Undrained(s) == [];
    }
  }

  lemma {:induction false} RunsJoin(capacity: nat, s: State, run: seq<Label>, rest: seq<Label>)
    requires ValidRun(capacity, s, run) && ValidRun(capacity, Final(capacity, s, run), rest)
    ensures ValidRun(capacity, s, run + rest)
    ensures Final(capacity, s, run + rest) == Final(capacity, Final(capacity, s, run), rest)
    decreases |run|
  {
    if run == [] {
      assert run + rest == rest;
    } else {
      assert (run + rest)[1..] == run[1..] + rest;
      RunsJoin(capacity, Next(capacity, s, run[0]), run[1..], rest);
    }
  }

  /** However the threads have been scheduled so far, they can go on until both return, with the output complete. */
  lemma DrainingGetsDone(capacity: nat, input: seq<Byte>, run: seq<Label>) returns (rest: seq<Label>)
    requires capacity > 0 && ValidRun(capacity, Initial(input), run)
    ensures var s := Final(capacity, Initial(input), run);
            && ValidRun(capacity, s, rest) && (forall l :: l in rest ==> !Futile(l))
            && var t := Final(capacity, s, rest);
            t.reader.pc.ReaderDone? && t.writer.pc.WriterDone? && t.output == input
  {
    RunKeepsProgress(capacity, Initial(input), run);
    var s := Final(capacity, Initial(input), run);
    Rounds(s);
    hide ProgressInv, Futile;
    rest := Finish(capacity, s);
    RunsJoin(capacity, Initial(input), run, rest);
    OutputIsInput(capacity, input, run + rest);
  }
}
