/** What the tracer adds to the file besides `tr` lines and the lines of unregistered threads. */
module TracerPlain {
  import opened TraceLine
  import opened TraceOrder
  import opened TracerStore
  import opened TracerFile
  import opened TracerBroadcast

  predicate Plain(f: seq<Line>) {
    forall l :: l in f ==> l.uid >= 0 && !l.event.Register?
  }

  ghost predicate BuffersPlain(s: Store) {
    forall p :: p in s.threads ==> Plain(s.threads[p].buffer)
  }

  /** What is added to the file is neither a `tr` line nor one of an unregistered thread. */
  ghost predicate AddsPlain(f: seq<Line>, g: seq<Line>) {
    f <= g && Plain(g[|f|..])
  }

  lemma AddsPlainTwice(f: seq<Line>, g: seq<Line>, h: seq<Line>)
    requires AddsPlain(f, g) && AddsPlain(g, h)
    ensures AddsPlain(f, h)
  {
    assert h[|f|..] == g[|f|..] + h[|g|..];
  }

  lemma {:induction false} RunIsPlain(b: seq<Line>, uid: int, after: int)
    requires uid >= 0 && Run(Heads(b), uid, after)
    ensures Plain(b)
  {
    if b != [] {
      assert b == [b[0]] + b[1..];
      assert Heads(b)[1..] == Heads(b[1..]);
      RunIsPlain(b[1..], uid, b[0].time);
    }
  }

  lemma FileBuffersPlain(s: Store)
    requires FileInv(s, s.live)
    ensures BuffersPlain(s)
  {
    forall p | p in s.threads ensures Plain(s.threads[p].buffer) {
      assert BufferOk(s, s.live, p);
      if p in s.live && s.threads[p].uid >= 0 {
        RunIsPlain(s.threads[p].buffer, s.threads[p].uid, Active(Heads(s.file))[s.threads[p].uid]);
      }
    }
  }

  lemma FlushOtherPlain(cfg: Config, s: Store, u: Tid, time: int)
    requires s.live <= s.threads.Keys && BuffersPlain(s)
    ensures var t := FlushOther(cfg, s, u, time); BuffersPlain(t) && AddsPlain(s.file, t.file)
  {
    hide Insert, Erase;
  }

  lemma {:induction false} FlushOthersPlain(cfg: Config, s: Store, us: seq<Tid>, time: int)
    requires s.live <= s.threads.Keys && BuffersPlain(s)
    ensures var t := FlushOthers(cfg, s, us, time); BuffersPlain(t) && AddsPlain(s.file, t.file)
    decreases |us|
  {
    hide FlushOther, BuffersPlain;
    if us != [] {
      var m := FlushOthers(cfg, s, us[..|us| - 1], time);
      FlushOthersPlain(cfg, s, us[..|us| - 1], time);
      FlushOtherPlain(cfg, m, us[|us| - 1], time);
      AddsPlainTwice(s.file, m.file, FlushOther(cfg, m, us[|us| - 1], time).file);
    } else {
      assert s.file[|s.file|..] == [];
    }
  }

  lemma TouchPlain(cfg: Config, s: Store, p: Tid, l: Line)
    requires BuffersPlain(s) && p in s.threads && s.threads[p].uid == l.uid >= 0 && !l.event.Register?
    ensures AddsPlain(s.file, Touch(cfg, Emit(s, p, l), p, l.time, false).store.file)
  {
    hide Insert, Erase;
  }

  lemma BroadcastPlain(cfg: Config, s: Store, p: Tid, n: int, e: Event)
    requires p in s.threads && s.live <= s.threads.Keys && BuffersPlain(s)
    ensures AddsPlain(s.file + s.threads[p].buffer + [Line(n, s.threads[p].uid, e)], Broadcast(cfg, s, p, n, e).file)
  {
    var l := Line(n, s.threads[p].uid, e);
    OwnLineFields(cfg, s, p, l);
    var t := Touch(cfg, Emit(s, p, l), p, n, true);
    assert t.store == OwnLine(cfg, s, p, l);
    assert BuffersPlain(t.store);
    hide Touch, FlushOthers, OwnLine, BuffersPlain;
    FlushOthersPlain(cfg, t.store, t.others, n);
  }

  lemma AddsOne(f: seq<Line>, b: seq<Line>, l: Line, g: seq<Line>)
    requires AddsPlain(f + b + [l], g) && Plain(b) && l.uid >= 0 && !l.event.Register?
    ensures AddsPlain(f, g)
  {
    assert g[|f|..] == b + [l] + g[|f + b + [l]|..];
  }

  lemma BroadcastBuffers(cfg: Config, s: Store, p: Tid, n: int, e: Event)
    requires p in s.threads && s.live <= s.threads.Keys && BuffersPlain(s)
    ensures BuffersPlain(Broadcast(cfg, s, p, n, e)) && p in Broadcast(cfg, s, p, n, e).threads
  {
    var l := Line(n, s.threads[p].uid, e);
    OwnLineFields(cfg, s, p, l);
    var t := Touch(cfg, Emit(s, p, l), p, n, true);
    assert t.store == OwnLine(cfg, s, p, l);
    assert BuffersPlain(t.store);
    hide Touch, OwnLine, FlushOthers;
    FlushOthersPlain(cfg, t.store, t.others, n);
  }

  lemma EndPlain(cfg: Config, s: Store, p: Tid, n: int)
    requires p in s.threads && s.live <= s.threads.Keys && BuffersPlain(s)
    ensures AddsPlain(s.file, FinishThread(cfg, s, p, n).file)
  {
    hide Broadcast, Erase;
    assert s.file[|s.file|..] == [];
    if s.threads[p].uid >= 0 {
      BroadcastPlain(cfg, s, p, n, Finish);
      var b := Broadcast(cfg, s, p, n, Finish);
      AddsOne(s.file, s.threads[p].buffer, Line(n, s.threads[p].uid, Finish), b.file);
      BroadcastBuffers(cfg, s, p, n, Finish);
      AddsPlainTwice(s.file, b.file, b.file + b.threads[p].buffer);
    }
  }
}
