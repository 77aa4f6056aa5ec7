/** The text of a trace line, and what the merge utility and the simulation framework read from it. */
module TraceText {
  import opened Options
  import opened TraceLine
  import opened Text

  // ----- printing -----

  function PrintAccess(tag: string, numbers: seq<nat>): seq<string> {
    [tag] + PrintAll(numbers)
  }

  function PrintAll(ns: seq<nat>): (fs: seq<string>)
    ensures |fs| == |ns| && forall i :: 0 <= i < |ns| ==> fs[i] == PrintInt(ns[i])
  {
    if ns == [] then [] else [PrintInt(ns[0])] + PrintAll(ns[1..])
  }

  /** The fields of an event after time and thread id. */
  function EventFields(e: Event): (fs: seq<string>)
    ensures fs != []
  {
    match e
    case Memory(read1, read2, write) =>
      ["m"]
      + (if read1.Some? then PrintAccess("r", [read1.value.address, read1.value.size]) else [])
      + (if read2.Some? then PrintAccess("r2", [read2.value]) else [])
      + (if write.Some? then PrintAccess("w", [write.value.address, write.value.size]) else [])
    case Call(name, sp, a, b, c) => ["fc", name] + PrintAll([sp, a, b, c])
    case Return(name, sp, value) => ["fr", name] + PrintAll([sp, value])
    case Register => ["tr"]
    case Finish => ["tf"]
    case Sync => ["thread_sync"]
    case StartRoi => ["start_roi"]
    case EndRoi => ["end_roi"]
    case ContextChange => ["ctxt_change"]
  }

  /** The line without its timestamp, as merge prints it without `-t`. */
  function PrintBody(l: Line): string {
    PrintInt(l.uid) + [TAB] + Join(EventFields(l.event))
  }

  function Print(l: Line): string {
    PrintInt(l.time) + [TAB] + PrintBody(l)
  }

  /** Fields, each with a tab in front of it. */
  function Tabbed(fs: seq<string>): string {
    if fs == [] then "" else "\t" + fs[0] + Tabbed(fs[1..])
  }

  lemma {:induction false} JoinIsTabbed(fs: seq<string>)
    requires fs != []
    ensures Join(fs) == fs[0] + Tabbed(fs[1..])
  {
    if |fs| > 1 {
      JoinIsTabbed(fs[1..]);
      assert fs[0] + [TAB] + (fs[1] + Tabbed(fs[1..][1..])) == fs[0] + ("\t" + fs[1] + Tabbed(fs[1..][1..]));
    } else {
      assert fs[1..] == [];
    }
  }

  function OperandFields(tag: string, r: Range): seq<string> {
    [tag, PrintNat(r.address), PrintNat(r.size)]
  }

  lemma PrintedNumbers(a: nat, b: nat, c: nat, d: nat)
    ensures PrintAll([a]) == [PrintNat(a)] && PrintAll([a, b]) == [PrintNat(a), PrintNat(b)]
    ensures PrintAll([a, b, c, d]) == [PrintNat(a), PrintNat(b), PrintNat(c), PrintNat(d)]
  {
    hide PrintNat;
    assert [a, b, c, d][1..] == [b, c, d] && [b, c, d][1..] == [c, d] && [a, b][1..] == [b];
  }

  /** A line is its time, its thread's id and the fields of its event, with one tab between them. */
  lemma PrintedLine(l: Line)
    ensures Print(l) == PrintInt(l.time) + Tabbed([PrintInt(l.uid)] + EventFields(l.event))
  {
    hide PrintInt, EventFields;
    var fs := [PrintInt(l.time), PrintInt(l.uid)] + EventFields(l.event);
    assert fs[1..] == [PrintInt(l.uid)] + EventFields(l.event) && fs[1..][1..] == EventFields(l.event);
    assert Print(l) == Join(fs);
    hide Join, Tabbed;
    JoinIsTabbed(fs);
  }

  lemma PrintedOperand(tag: string, r: Range)
    ensures PrintAccess(tag, [r.address, r.size]) == OperandFields(tag, r)
    ensures PrintAccess(tag, [r.address]) == [tag, PrintNat(r.address)]
  {
    hide PrintNat, PrintAll;
    PrintedNumbers(r.address, r.size, 0, 0);
  }

  lemma PrintedOperands(r: Option<Range>, r2: Option<nat>, w: Option<Range>)
    ensures EventFields(Memory(r, r2, w)) ==
            ["m"] + (if r.Some? then OperandFields("r", r.value) else [])
            + (if r2.Some? then ["r2", PrintNat(r2.value)] else [])
            + (if w.Some? then OperandFields("w", w.value) else [])
  {
    hide PrintNat, PrintAccess, OperandFields;
    if r.Some? {
      PrintedOperand("r", r.value);
    }
    if r2.Some? {
      PrintedOperand("r2", Range(r2.value, 0));
    }
    if w.Some? {
      PrintedOperand("w", w.value);
    }
  }

  /** The text of every kind of line: time, thread id and the fields of its event, with one tab between them. */
  lemma PrintedForms(l: Line)
    ensures Print(l) ==
            PrintInt(l.time)
            + Tabbed([PrintInt(l.uid)]
                     + match l.event
                       case Memory(r, r2, w) =>
                         ["m"] + (if r.Some? then OperandFields("r", r.value) else [])
                         + (if r2.Some? then ["r2", PrintNat(r2.value)] else [])
                         + (if w.Some? then OperandFields("w", w.value) else [])
                       case Call(name, sp, a, b, c) => ["fc", name, PrintNat(sp), PrintNat(a), PrintNat(b), PrintNat(c)]
                       case Return(name, sp, value) => ["fr", name, PrintNat(sp), PrintNat(value)]
                       case Register => ["tr"]
                       case Finish => ["tf"]
                       case Sync => ["thread_sync"]
                       case StartRoi => ["start_roi"]
                       case EndRoi => ["end_roi"]
                       case ContextChange => ["ctxt_change"])
  {
    hide PrintNat, PrintInt, PrintAll, Tabbed, Print;
    PrintedLine(l);
    match l.event
    case Memory(r, r2, w) => PrintedOperands(r, r2, w);
    case Call(name, sp, a, b, c) =>
      PrintedNumbers(sp, a, b, c);
      assert EventFields(l.event) == ["fc", name, PrintNat(sp), PrintNat(a), PrintNat(b), PrintNat(c)];
    case Return(name, sp, value) =>
      PrintedNumbers(sp, value, 0, 0);
      assert EventFields(l.event) == ["fr", name, PrintNat(sp), PrintNat(value)];
    case _ =>
  }

  // ----- reading the head of a line -----

  function TagOfText(s: string): Tag {
    if s == "tr" then TagRegister else if s == "tf" then TagFinish else if s == "thread_sync" then TagSync else TagOther
  }

  /** Time, thread and kind of a line, if it has the two tabs it must have. */
  function ReadHead(s: string): Option<Head> {
    var tab1 := FirstTab(s, 0);
    if tab1 == |s| then None
    else
      var tab2 := FirstTab(s, tab1 + 1);
      if tab2 == |s| then None
      else Some(Head(Atoll(s), Atoll(s[tab1 + 1..]), TagOfText(s[tab2 + 1..])))
  }

  /** `parse_line`; `pos1` is the position of the first tab. */
  method ParseLine(buf: string)
    returns (pos1: nat, timestamp: int, threadId: int, isRegister: bool, isFinish: bool, isSync: bool)
    requires ReadHead(buf).Some?
    ensures pos1 == FirstTab(buf, 0) < |buf|
    ensures var h := ReadHead(buf).value;
            && timestamp == h.time && threadId == h.uid
            && isRegister == (h.tag == TagRegister) && isFinish == (h.tag == TagFinish) && isSync == (h.tag == TagSync)
  {
    hide Atoll, FirstTab;
    pos1 := FindTab(buf, 0);
    var pos2 := FindTab(buf, pos1 + 1);
    timestamp := Atoll(buf);
    threadId := Atoll(buf[pos1 + 1..]);
    isRegister := "tr" == buf[pos2 + 1..];
    isFinish := "tf" == buf[pos2 + 1..];
    isSync := "thread_sync" == buf[pos2 + 1..];
  }

  /** A field without tabs, from position `k` on, ends at the first tab. */
  lemma FieldAt(s: string, k: nat, f: string, rest: string)
    requires k <= |s| && s[k..] == f + ([TAB] + rest) && NoTab(f)
    ensures FirstTab(s, k) == k + |f| < |s|
    ensures s[k + |f| + 1..] == rest
  {
    var t := s[k..];
    assert t[|f|] == TAB && t[|f| + 1..] == rest;
    assert forall j :: k <= j < k + |f| ==> s[j] == t[j - k] == f[j - k];
    FirstTabIs(s, k, k + |f|);
    assert s[k + |f| + 1..] == t[|f| + 1..];
  }

  /** What the tracer prints, merge reads back: time, thread, and the kind of the line. */
  lemma PrintedHead(l: Line)
    ensures ReadHead(Print(l)) == Some(HeadOf(l))
    ensures FirstTab(Print(l), 0) < |Print(l)| && Print(l)[FirstTab(Print(l), 0) + 1..] == PrintBody(l)
  {
    var t, u, e := PrintInt(l.time), PrintInt(l.uid), Join(EventFields(l.event));
    PrintHasNoTab(l.time);
    PrintHasNoTab(l.uid);
    hide PrintInt, EventFields, Join, Atoll, FirstTab;
    var s := Print(l);
    assert PrintBody(l) == u + ([TAB] + e) by {
      Regroup(u, [TAB], e);
    }
    assert s == t + ([TAB] + PrintBody(l)) by {
      Regroup(t, [TAB], PrintBody(l));
    }
    assert s[0..] == s;
    FieldAt(s, 0, t, PrintBody(l));
    FieldAt(s, |t| + 1, u, e);
    AtollOfPrint(l.time, [TAB] + PrintBody(l));
    AtollOfPrint(l.uid, [TAB] + e);
    EventTag(l.event);
  }

  lemma EventTag(e: Event)
    ensures TagOfText(Join(EventFields(e))) == TagOf(e)
  {
    var fs := EventFields(e);
    match e
    case Memory(read1, read2, write) =>
      assert fs[0] == "m";
      FirstLetter(fs, 'm');
    case Call(name, sp, a, b, c) =>
      assert fs[0] == "fc";
      FirstLetter(fs, 'f');
    case Return(name, sp, value) =>
      assert fs[0] == "fr";
      FirstLetter(fs, 'f');
    case _ =>
  }

  lemma FirstLetter(fs: seq<string>, c: char)
    requires fs != [] && fs[0] != [] && fs[0][0] == c
    ensures Join(fs) != [] && Join(fs)[0] == c
  {
  }

  // ----- reading a memory line -----

  /** The local variables of `Trace.run`, which keep their values from line to line. */
  datatype Operands = Operands(
    read1Address: int,
    readSize: int,
    read2Address: int,
    writeAddress: int,
    writeSize: int)

  /** What `Trace.run` hands to the simulator for a memory line. */
  datatype MemoryCall = MemoryCall(
    threadId: int,
    haveRead1: bool,
    haveRead2: bool,
    haveWrite: bool,
    operands: Operands)

  /** Every field as a number, where it is one. */
  function Numbers(fs: seq<string>): (ns: seq<Option<int>>)
    ensures |ns| == |fs| && forall i :: 0 <= i < |fs| ==> ns[i] == PyInt(fs[i])
  {
    if fs == [] then [] else [PyInt(fs[0])] + Numbers(fs[1..])
  }

  function At(ns: seq<Option<int>>, i: int): Option<int> {
    if 0 <= i < |ns| then ns[i] else None
  }

  /** The call made for a line with these fields; None where a field is missing or is no number. */
  function MemoryCallOf(fs: seq<string>, ns: seq<Option<int>>, before: Operands): Option<MemoryCall>
    requires |ns| == |fs|
  {
    var n := |fs|;
    if n < 3 || ns[0].None? then None
    else
      var r1 := fs[2] == "r";
      var r2 := r1 && n > 5 && fs[5] == "r2";
      var w := fs[n - 3] == "w";
      if r1 && (At(ns, 3).None? || At(ns, 4).None?) then None
      else if r2 && At(ns, 6).None? then None
      else if w && (ns[n - 2].None? || ns[n - 1].None?) then None
      else
        Some(MemoryCall(ns[0].value, r1, r2, w, Operands(
          if r1 then ns[3].value else before.read1Address,
          if r1 then ns[4].value else before.readSize,
          if r2 then ns[6].value else before.read2Address,
          if w then ns[n - 2].value else before.writeAddress,
          if w then ns[n - 1].value else before.writeSize)))
  }

  /** The operand combinations an instruction can have. */
  predicate LegalMemory(e: Event) {
    e.Memory? && (e.read1.Some? || e.write.Some?) && (e.read2.Some? ==> e.read1.Some?)
  }

  /** The call that a memory event means. */
  function CallFor(l: Line, before: Operands): MemoryCall
    requires LegalMemory(l.event)
  {
    var e := l.event;
    MemoryCall(l.uid, e.read1.Some?, e.read2.Some?, e.write.Some?, Operands(
      if e.read1.Some? then e.read1.value.address else before.read1Address,
      if e.read1.Some? then e.read1.value.size else before.readSize,
      if e.read2.Some? then e.read2.value else before.read2Address,
      if e.write.Some? then e.write.value.address else before.writeAddress,
      if e.write.Some? then e.write.value.size else before.writeSize))
  }

  lemma NumberIsNoWord(n: int)
    ensures PrintInt(n) != "r" && PrintInt(n) != "r2" && PrintInt(n) != "w"
  {
    var m: nat := if n < 0 then -n else n;
    assert IsDigit(PrintNat(m)[0]);
  }

  /** The fields of a memory line, with the numbers they print. */
  lemma MemoryFields(l: Line)
    requires LegalMemory(l.event)
    ensures var e, u := l.event, PrintInt(l.uid);
            var r := if e.read1.Some? then ["r", PrintInt(e.read1.value.address), PrintInt(e.read1.value.size)] else [];
            var r2 := if e.read2.Some? then ["r2", PrintInt(e.read2.value)] else [];
            var w := if e.write.Some? then ["w", PrintInt(e.write.value.address), PrintInt(e.write.value.size)] else [];
            [u] + EventFields(e) == [u, "m"] + r + r2 + w
  {
  }

  /** Where the reader looks, it finds what was printed. */
  lemma FieldPlaces(l: Line)
    requires LegalMemory(l.event)
    ensures var e, fs := l.event, [PrintInt(l.uid)] + EventFields(l.event);
            var n := |fs|;
            && n >= 5 && fs[0] == PrintInt(l.uid)
            && (e.read1.Some? ==> fs[2] == "r")
            && (e.read1.Some? ==> fs[3] == PrintInt(e.read1.value.address) && fs[4] == PrintInt(e.read1.value.size))
            && (e.read1.None? ==> fs[2] == "w")
            && (e.read2.Some? ==> n > 6 && fs[5] == "r2" && fs[6] == PrintInt(e.read2.value))
            && (e.read2.None? && n > 5 ==> fs[5] == "w")
            && (e.write.Some? ==> fs[n - 3] == "w")
            && (e.write.Some? ==>
                  fs[n - 2] == PrintInt(e.write.value.address) && fs[n - 1] == PrintInt(e.write.value.size))
            && (e.write.None? ==> fs[n - 3] == "r" || fs[n - 3] == PrintInt(e.read1.value.size))
  {
    MemoryFields(l);
    hide PrintInt, EventFields;
  }

  /** The numbers at the places where the reader looks. */
  lemma NumberPlaces(l: Line, fs: seq<string>, ns: seq<Option<int>>)
    requires LegalMemory(l.event) && fs == [PrintInt(l.uid)] + EventFields(l.event)
    requires |ns| == |fs| && forall i, n :: 0 <= i < |fs| && fs[i] == PrintInt(n) ==> ns[i] == Some(n)
    ensures var e, n := l.event, |fs|;
            && n >= 5 && ns[0] == Some(l.uid)
            && (e.read1.Some? ==> ns[3] == Some(e.read1.value.address) && ns[4] == Some(e.read1.value.size))
            && (e.read2.Some? ==> n > 6 && ns[6] == Some(e.read2.value))
            && (e.write.Some? ==> ns[n - 2] == Some(e.write.value.address) && ns[n - 1] == Some(e.write.value.size))
  {
    FieldPlaces(l);
    hide PrintInt, EventFields;
  }

  /** The flags that the reader computes. */
  lemma FlagPlaces(l: Line, fs: seq<string>)
    requires LegalMemory(l.event) && fs == [PrintInt(l.uid)] + EventFields(l.event)
    ensures var e, n := l.event, |fs|;
            && n >= 5
            && (fs[2] == "r" <==> e.read1.Some?)
            && (n > 5 && fs[5] == "r2" <==> e.read2.Some?)
            && (fs[n - 3] == "w" <==> e.write.Some?)
  {
    FieldPlaces(l);
    if l.event.read1.Some? {
      NumberIsNoWord(l.event.read1.value.size);
    }
    hide PrintInt, EventFields;
  }

  /** The round trip on fields. */
  lemma FieldsRoundTrip(l: Line, fs: seq<string>, ns: seq<Option<int>>, before: Operands)
    requires LegalMemory(l.event) && fs == [PrintInt(l.uid)] + EventFields(l.event)
    requires |ns| == |fs| && forall i, n :: 0 <= i < |fs| && fs[i] == PrintInt(n) ==> ns[i] == Some(n)
    ensures MemoryCallOf(fs, ns, before) == Some(CallFor(l, before))
  {
    NumberPlaces(l, fs, ns);
    FlagPlaces(l, fs);
    hide PrintInt, EventFields;
  }

  lemma NumbersOfFields(fs: seq<string>)
    ensures forall i, n :: 0 <= i < |fs| && fs[i] == PrintInt(n) ==> Numbers(fs)[i] == Some(n)
  {
    forall i, n | 0 <= i < |fs| && fs[i] == PrintInt(n) ensures Numbers(fs)[i] == Some(n) {
      PyIntOfPrint(n);
    }
  }

  lemma NumbersHaveNoTab(ns: seq<nat>)
    ensures forall f :: f in PrintAll(ns) ==> NoTab(f)
  {
    forall f | f in PrintAll(ns) ensures NoTab(f) {
      var i :| 0 <= i < |ns| && PrintAll(ns)[i] == f;
      PrintHasNoTab(ns[i]);
    }
  }

  lemma AccessHasNoTab(tag: string, ns: seq<nat>)
    requires NoTab(tag)
    ensures forall f :: f in PrintAccess(tag, ns) ==> NoTab(f)
  {
    NumbersHaveNoTab(ns);
  }

  /** A line whose fields can be told apart: operands of an instruction, function names without tabs. */
  predicate Parsable(e: Event) {
    match e
    case Memory(_, _, _) => LegalMemory(e)
    case Call(name, _, _, _, _) => NoTab(name)
    case Return(name, _, _) => NoTab(name)
    case _ => true
  }

  lemma EventFieldsHaveNoTab(e: Event)
    requires Parsable(e)
    ensures forall f :: f in EventFields(e) ==> NoTab(f)
  {
    hide PrintAll, PrintAccess;
    match e
    case Memory(read1, read2, write) =>
      if read1.Some? {
        AccessHasNoTab("r", [read1.value.address, read1.value.size]);
      }
      if read2.Some? {
        AccessHasNoTab("r2", [read2.value]);
      }
      if write.Some? {
        AccessHasNoTab("w", [write.value.address, write.value.size]);
      }
    case Call(name, sp, a, b, c) => NumbersHaveNoTab([sp, a, b, c]);
    case Return(name, sp, value) => NumbersHaveNoTab([sp, value]);
    case _ =>
  }

  lemma {:induction false} JoinEnd(fs: seq<string>)
    requires fs != [] && fs[|fs| - 1] != []
    ensures Join(fs) != [] && Join(fs)[|Join(fs)| - 1] == fs[|fs| - 1][|fs[|fs| - 1]| - 1]
  {
    if |fs| > 1 {
      JoinEnd(fs[1..]);
    }
  }

  lemma PrintEnds(n: int)
    ensures PrintInt(n) != [] && !IsSpace(PrintInt(n)[0]) && !IsSpace(PrintInt(n)[|PrintInt(n)| - 1])
  {
    var m: nat := if n < 0 then -n else n;
    var d := PrintNat(m);
    assert IsDigit(d[0]) && IsDigit(d[|d| - 1]);
  }

  /** The text of an event does not end in white space, whatever the name of a function. */
  lemma EventEnds(e: Event)
    requires e.Memory? ==> LegalMemory(e)
    ensures var last := EventFields(e)[|EventFields(e)| - 1]; last != [] && !IsSpace(last[|last| - 1])
  {
    match e
    case Memory(read1, read2, write) =>
      PrintEnds(if write.Some? then write.value.size else if read2.Some? then read2.value else read1.value.size);
      hide PrintInt;
    case Call(name, sp, a, b, c) =>
      PrintEnds(c);
      hide PrintInt;
    case Return(name, sp, value) =>
      PrintEnds(value);
      hide PrintInt;
    case _ =>
  }

  /** Reading the line from a file and stripping it leaves the text that was printed. */
  lemma StripBody(l: Line)
    requires l.event.Memory? ==> LegalMemory(l.event)
    ensures Strip(PrintBody(l) + "\n") == PrintBody(l)
  {
    var fs := EventFields(l.event);
    EventEnds(l.event);
    JoinEnd(fs);
    PrintEnds(l.uid);
    hide PrintInt, EventFields, Join, Strip, LegalMemory, IsSpace;
    var b, u, e := PrintBody(l), PrintInt(l.uid), Join(fs);
    assert b[0] == u[0] && b[|b| - 1] == e[|e| - 1];
    StripNewline(b);
  }

  /** Stripping and splitting a printed line gives its fields. */
  lemma FieldsOfBody(l: Line)
    requires Parsable(l.event)
    ensures Split(Strip(PrintBody(l) + "\n")) == [PrintInt(l.uid)] + EventFields(l.event)
  {
    StripBody(l);
    EventFieldsHaveNoTab(l.event);
    PrintHasNoTab(l.uid);
    hide PrintInt, EventFields, Strip;
    var fs := [PrintInt(l.uid)] + EventFields(l.event);
    assert fs[1..] == EventFields(l.event);
    assert PrintBody(l) == Join(fs);
    SplitJoin(fs);
  }

  lemma StripNewline(b: string)
    requires b != [] && !IsSpace(b[0]) && !IsSpace(b[|b| - 1])
    ensures Strip(b + "\n") == b
  {
    assert (b + "\n")[..|b|] == b;
    assert StripRight(b) == b;
  }

  /**
    Printer and reader agree: a memory line printed by the tracer, without its time as merge writes it,
    and read by `Trace.run`, gives back the thread, the flags and every operand present; operands that
    are absent keep their previous values.
  */
  lemma MemoryRoundTrip(l: Line, before: Operands)
    requires LegalMemory(l.event)
    ensures var fs := Split(Strip(PrintBody(l) + "\n"));
            |fs| > 1 && fs[1] == "m" && MemoryCallOf(fs, Numbers(fs), before) == Some(CallFor(l, before))
  {
    FieldsOfBody(l);
    var fs := [PrintInt(l.uid)] + EventFields(l.event);
    NumbersOfFields(fs);
    FieldsRoundTrip(l, fs, Numbers(fs), before);
  }

  // ----- the framework -----

  /** A callback of the simulation framework; line numbers are left out. */
  datatype Callback =
    | OnMemory(call: MemoryCall)
    | OnStart(threadId: int)
    | OnFinish(threadId: int)
    | OnCall(name: string, threadId: int, stackPointer: int, arg1: int, arg2: int, arg3: int)
    | OnReturn(name: string, threadId: int, stackPointer: int, value: int)
    | OnStartRoi
    | OnEndRoi

  /** What `Trace.run` does with a line: stop with an exception, nothing, or one callback. */
  datatype Reaction = Raises | Ignores | Makes(callback: Callback)

  /**
    The branches of the loop. A context change raises: it calls `end_roi` with a thread id, which no
    simulator takes.
  */
  function React(fs: seq<string>, ns: seq<Option<int>>, before: Operands): Reaction
    requires |ns| == |fs|
  {
    if |fs| < 2 || ns[0].None? then Raises
    else
      var thread := ns[0].value;
      if fs[1] == "m" then
        var call := MemoryCallOf(fs, ns, before);
        if call.None? then Raises else Makes(OnMemory(call.value))
      else if fs[1] == "tr" then Makes(OnStart(thread))
      else if fs[1] == "tf" then Makes(OnFinish(thread))
      else if fs[1] == "fc" then
        if At(ns, 3).None? || At(ns, 4).None? || At(ns, 5).None? || At(ns, 6).None? then Raises
        else Makes(OnCall(fs[2], thread, ns[3].value, ns[4].value, ns[5].value, ns[6].value))
      else if fs[1] == "fr" then
        if At(ns, 3).None? || At(ns, 4).None? then Raises
        else Makes(OnReturn(fs[2], thread, ns[3].value, ns[4].value))
      else if fs[1] == "start_roi" then Makes(OnStartRoi)
      else if fs[1] == "end_roi" then Makes(OnEndRoi)
      else if fs[1] == "ctxt_change" then Raises
      else Ignores
  }

  /** The local variables after a line. */
  function Keep(r: Reaction, before: Operands): Operands {
    if r.Makes? && r.callback.OnMemory? then r.callback.call.operands else before
  }

  function Made(r: Reaction): seq<Callback> {
    if r.Makes? then [r.callback] else []
  }

  /** All callbacks of a run, and whether it came to the end of the file. */
  datatype Session = Session(callbacks: seq<Callback>, completed: bool)

  function SessionOf(lines: seq<string>, before: Operands): Session {
    if lines == [] then Session([], true)
    else
      var fs := Split(Strip(lines[0]));
      var r := React(fs, Numbers(fs), before);
      if r.Raises? then Session([], false)
      else
        var rest := SessionOf(lines[1..], Keep(r, before));
        rest.(callbacks := Made(r) + rest.callbacks)
  }

  const ZEROS := Operands(0, 0, 0, 0, 0)

  /** `Trace.run` */
  method RunTrace(lines: seq<string>) returns (callbacks: seq<Callback>, completed: bool)
    ensures Session(callbacks, completed) == SessionOf(lines, ZEROS)
  {
    hide React, Split, Strip, Numbers;
    callbacks := [];
    var o := ZEROS;
    var i := 0;
    while i < |lines|
      invariant i <= |lines|
      invariant var rest := SessionOf(lines[i..], o);
                SessionOf(lines, ZEROS) == rest.(callbacks := callbacks + rest.callbacks)
    {
      var list := Split(Strip(lines[i]));
      assert lines[i..][1..] == lines[i + 1..];
      var r := React(list, Numbers(list), o);
      if r.Raises? {
        completed := false;
        return;
      }
      callbacks := callbacks + Made(r);
      o := Keep(r, o);
      i := i + 1;
    }
    completed := true;
  }

  // ----- what the framework makes of a trace -----

  /** What a line means to a simulator. */
  function Meaning(l: Line, before: Operands): Reaction
    requires Parsable(l.event)
  {
    match l.event
    case Memory(_, _, _) => Makes(OnMemory(CallFor(l, before)))
    case Call(name, sp, a, b, c) => Makes(OnCall(name, l.uid, sp, a, b, c))
    case Return(name, sp, value) => Makes(OnReturn(name, l.uid, sp, value))
    case Register => Makes(OnStart(l.uid))
    case Finish => Makes(OnFinish(l.uid))
    case StartRoi => Makes(OnStartRoi)
    case EndRoi => Makes(OnEndRoi)
    case Sync => Ignores
    case ContextChange => Raises
  }

  /** Where the reader looks for a call, it finds what was printed. */
  lemma CallPlaces(l: Line, fs: seq<string>)
    requires l.event.Call? && fs == [PrintInt(l.uid)] + EventFields(l.event)
    ensures |fs| == 7 && fs[0] == PrintInt(l.uid) && fs[1] == "fc" && fs[2] == l.event.name
    ensures fs[3] == PrintInt(l.event.stackPointer) && fs[4] == PrintInt(l.event.arg1)
    ensures fs[5] == PrintInt(l.event.arg2) && fs[6] == PrintInt(l.event.arg3)
  {
    hide PrintInt, PrintAll;
    var numbers := PrintAll([l.event.stackPointer, l.event.arg1, l.event.arg2, l.event.arg3]);
    assert fs == [PrintInt(l.uid), "fc", l.event.name] + numbers;
  }

  lemma CallReact(l: Line, fs: seq<string>, ns: seq<Option<int>>, before: Operands)
    requires l.event.Call? && Parsable(l.event) && |ns| == |fs| == 7 && fs[1] == "fc" && fs[2] == l.event.name
    requires ns[0] == Some(l.uid) && ns[3] == Some(l.event.stackPointer) && ns[4] == Some(l.event.arg1)
    requires ns[5] == Some(l.event.arg2) && ns[6] == Some(l.event.arg3)
    ensures React(fs, ns, before) == Meaning(l, before)
  {
    hide MemoryCallOf;
    assert fs[1][0] == 'f';
    assert fs[1] != "m" && fs[1] != "tr" && fs[1] != "tf";
  }

  lemma CallRoundTrip(l: Line, fs: seq<string>, ns: seq<Option<int>>, before: Operands)
    requires l.event.Call? && Parsable(l.event) && fs == [PrintInt(l.uid)] + EventFields(l.event)
    requires |ns| == |fs| && forall i, n :: 0 <= i < |fs| && fs[i] == PrintInt(n) ==> ns[i] == Some(n)
    ensures React(fs, ns, before) == Meaning(l, before)
  {
    CallPlaces(l, fs);
    hide PrintInt, EventFields, React, Meaning;
    CallReact(l, fs, ns, before);
  }

  lemma ReturnPlaces(l: Line, fs: seq<string>)
    requires l.event.Return? && fs == [PrintInt(l.uid)] + EventFields(l.event)
    ensures |fs| == 5 && fs[0] == PrintInt(l.uid) && fs[1] == "fr" && fs[2] == l.event.name
    ensures fs[3] == PrintInt(l.event.stackPointer) && fs[4] == PrintInt(l.event.value)
  {
    hide PrintInt, PrintAll;
    assert fs == [PrintInt(l.uid), "fr", l.event.name] + PrintAll([l.event.stackPointer, l.event.value]);
  }

  lemma ReturnReact(l: Line, fs: seq<string>, ns: seq<Option<int>>, before: Operands)
    requires l.event.Return? && Parsable(l.event) && |ns| == |fs| == 5 && fs[1] == "fr" && fs[2] == l.event.name
    requires ns[0] == Some(l.uid) && ns[3] == Some(l.event.stackPointer) && ns[4] == Some(l.event.value)
    ensures React(fs, ns, before) == Meaning(l, before)
  {
    hide MemoryCallOf;
    assert fs[1][0] == 'f' && fs[1][1] == 'r';
    assert fs[1] != "m" && fs[1] != "tr" && fs[1] != "tf" && fs[1] != "fc";
  }

  lemma ReturnRoundTrip(l: Line, fs: seq<string>, ns: seq<Option<int>>, before: Operands)
    requires l.event.Return? && Parsable(l.event) && fs == [PrintInt(l.uid)] + EventFields(l.event)
    requires |ns| == |fs| && forall i, n :: 0 <= i < |fs| && fs[i] == PrintInt(n) ==> ns[i] == Some(n)
    ensures React(fs, ns, before) == Meaning(l, before)
  {
    ReturnPlaces(l, fs);
    hide PrintInt, EventFields, React, Meaning;
    ReturnReact(l, fs, ns, before);
  }

  lemma PlainRoundTrip(l: Line, fs: seq<string>, ns: seq<Option<int>>, before: Operands)
    requires !l.event.Memory? && !l.event.Call? && !l.event.Return? && fs == [PrintInt(l.uid)] + EventFields(l.event)
    requires |ns| == |fs| && forall i, n :: 0 <= i < |fs| && fs[i] == PrintInt(n) ==> ns[i] == Some(n)
    ensures React(fs, ns, before) == Meaning(l, before)
  {
    assert fs[0] == PrintInt(l.uid);
    hide PrintInt, MemoryCallOf;
  }

  lemma MemoryReact(l: Line, fs: seq<string>, ns: seq<Option<int>>, before: Operands)
    requires LegalMemory(l.event) && fs == [PrintInt(l.uid)] + EventFields(l.event)
    requires |ns| == |fs| && forall i, n :: 0 <= i < |fs| && fs[i] == PrintInt(n) ==> ns[i] == Some(n)
    ensures React(fs, ns, before) == Meaning(l, before)
  {
    FieldsRoundTrip(l, fs, ns, before);
    assert fs[0] == PrintInt(l.uid) && fs[1] == "m";
    hide PrintInt, EventFields, MemoryCallOf;
  }

  /** Printer and reader agree on every kind of line. */
  lemma LineRoundTrip(l: Line, before: Operands)
    requires Parsable(l.event)
    ensures var fs := Split(Strip(PrintBody(l) + "\n"));
            React(fs, Numbers(fs), before) == Meaning(l, before)
  {
    var fs := [PrintInt(l.uid)] + EventFields(l.event);
    FieldsOfBody(l);
    NumbersOfFields(fs);
    hide PrintInt, PrintBody, EventFields, Numbers, Strip, Split, React, Meaning;
    match l.event
    case Memory(_, _, _) => MemoryReact(l, fs, Numbers(fs), before);
    case Call(_, _, _, _, _) => CallRoundTrip(l, fs, Numbers(fs), before);
    case Return(_, _, _) => ReturnRoundTrip(l, fs, Numbers(fs), before);
    case _ => PlainRoundTrip(l, fs, Numbers(fs), before);
  }

  ghost predicate AllParsable(ls: seq<Line>) {
    forall l :: l in ls ==> Parsable(l.event)
  }

  ghost predicate NoSwitch(ls: seq<Line>) {
    forall l :: l in ls ==> !l.event.ContextChange?
  }

  /** The lines before the first context change. */
  function BeforeSwitch(ls: seq<Line>): seq<Line> {
    if ls == [] || ls[0].event.ContextChange? then [] else [ls[0]] + BeforeSwitch(ls[1..])
  }

  function PrintBodies(ls: seq<Line>): (bs: seq<string>)
    ensures |bs| == |ls| && forall i :: 0 <= i < |ls| ==> bs[i] == PrintBody(ls[i]) + "\n"
  {
    seq(|ls|, i requires 0 <= i < |ls| => PrintBody(ls[i]) + "\n")
  }

  /** What every line means, one after the other. */
  function Meanings(ls: seq<Line>, before: Operands): seq<Callback>
    requires forall l :: l in ls ==> Parsable(l.event)
  {
    if ls == [] then []
    else
      var r := Meaning(ls[0], before);
      Made(r) + Meanings(ls[1..], Keep(r, before))
  }

  /** The local variables after a trace. */
  function KeptAfter(ls: seq<Line>, before: Operands): Operands
    requires forall l :: l in ls ==> Parsable(l.event)
  {
    if ls == [] then before else KeptAfter(ls[1..], Keep(Meaning(ls[0], before), before))
  }

  lemma {:induction false} MeaningsAppend(a: seq<Line>, b: seq<Line>, before: Operands)
    requires AllParsable(a) && AllParsable(b)
    ensures AllParsable(a + b)
    ensures Meanings(a + b, before) == Meanings(a, before) + Meanings(b, KeptAfter(a, before))
    ensures KeptAfter(a + b, before) == KeptAfter(b, KeptAfter(a, before))
  {
    hide Meaning;
    if a == [] {
      assert a + b == b;
    } else {
      assert (a + b)[1..] == a[1..] + b;
      MeaningsAppend(a[1..], b, Keep(Meaning(a[0], before), before));
    }
  }

  lemma {:induction false} BeforeSwitchParsable(ls: seq<Line>)
    requires AllParsable(ls)
    ensures AllParsable(BeforeSwitch(ls)) && NoSwitch(BeforeSwitch(ls)) && (NoSwitch(ls) ==> BeforeSwitch(ls) == ls)
  {
    if ls != [] && !ls[0].event.ContextChange? {
      BeforeSwitchParsable(ls[1..]);
      assert ls == [ls[0]] + ls[1..];
    }
  }

  /**
    A simulator gets the callbacks of every line of a trace, in order, with the values that were traced, up
    to the first context change; the framework comes to the end of the trace if and only if there is none.
  */
  lemma {:induction false} SimulatorSeesTrace(ls: seq<Line>, before: Operands)
    requires AllParsable(ls)
    ensures AllParsable(BeforeSwitch(ls))
    ensures var s := SessionOf(PrintBodies(ls), before);
            s.callbacks == Meanings(BeforeSwitch(ls), before) && (s.completed <==> NoSwitch(ls))
  {
    hide PrintBody, Split, Strip, React, Numbers, Meaning;
    BeforeSwitchParsable(ls);
    if ls != [] {
      var l, rest := ls[0], ls[1..];
      assert ls == [l] + rest;
      assert PrintBodies(ls)[1..] == PrintBodies(rest);
      LineRoundTrip(l, before);
      SwitchRaises(l, before);
      if !l.event.ContextChange? {
        SimulatorSeesTrace(rest, Keep(Meaning(l, before), before));
        assert BeforeSwitch(ls)[1..] == BeforeSwitch(rest);
      }
    }
  }

  lemma SwitchRaises(l: Line, before: Operands)
    requires Parsable(l.event)
    ensures Meaning(l, before).Raises? <==> l.event.ContextChange?
  {
  }

  // ----- memory accesses among the callbacks -----

  function MemoryCalls(cs: seq<Callback>): seq<MemoryCall> {
    if cs == [] then []
    else MemoryCalls(cs[..|cs| - 1]) + (if cs[|cs| - 1].OnMemory? then [cs[|cs| - 1].call] else [])
  }

  lemma {:induction false} MemoryCallsAppend(a: seq<Callback>, b: seq<Callback>)
    ensures MemoryCalls(a + b) == MemoryCalls(a) + MemoryCalls(b)
  {
    if b == [] {
      assert a + b == a;
    } else {
      assert (a + b)[..|a + b| - 1] == a + b[..|b| - 1];
      MemoryCallsAppend(a, b[..|b| - 1]);
    }
  }

  ghost function ExpectedCalls(ls: seq<Line>, before: Operands): seq<MemoryCall>
    requires forall l :: l in ls ==> LegalMemory(l.event)
  {
    if ls == [] then []
    else [CallFor(ls[0], before)] + ExpectedCalls(ls[1..], CallFor(ls[0], before).operands)
  }

  /** The accesses a simulator sees are those of the memory lines, whatever stands between them. */
  lemma {:induction false} MemoryOfMeanings(ls: seq<Line>, before: Operands)
    requires AllParsable(ls)
    ensures forall l :: l in MemoryLines(ls) ==> LegalMemory(l.event)
    ensures MemoryCalls(Meanings(ls, before)) == ExpectedCalls(MemoryLines(ls), before)
  {
    if ls != [] {
      var l, rest := ls[0], ls[1..];
      var r := Meaning(l, before);
      assert ls == [l] + rest;
      MemoryAppend([l], rest);
      assert MemoryLines([l]) == MemoryLines([]) + (if l.event.Memory? then [l] else []);
      MemoryOfMeanings(rest, Keep(r, before));
      MemoryCallsAppend(Made(r), Meanings(rest, Keep(r, before)));
      if l.event.Memory? {
        assert MemoryCalls(Made(r)) == [r.callback.call];
        assert MemoryLines(ls)[1..] == MemoryLines(rest);
      } else {
        assert MemoryLines(ls) == MemoryLines(rest);
      }
    }
  }
}
