/** The region of interest: where the trace says it is, and what is traced in it. */
module TracerRoi {
  import opened TraceLine
  import opened Access
  import opened TracerStore
  import opened TracerCore
  import opened TracerLines
  import opened Tracer

  /** A `start_roi` line with no `end_roi` line after it. */
  ghost predicate InRegion(f: seq<Line>) {
    exists i :: 0 <= i < |f| && f[i].event.StartRoi? && forall j :: i < j < |f| ==> !f[j].event.EndRoi?
  }

  lemma RegionSnoc(f: seq<Line>, l: Line)
    ensures InRegion(f + [l]) <==> l.event.StartRoi? || (InRegion(f) && !l.event.EndRoi?)
  {
    var g := f + [l];
    assert forall i :: 0 <= i < |f| ==> g[i] == f[i];
    assert g[|f|] == l;
    if InRegion(f) && !l.event.EndRoi? {
      var i :| 0 <= i < |f| && f[i].event.StartRoi? && forall j :: i < j < |f| ==> !f[j].event.EndRoi?;
      assert g[i].event.StartRoi?;
    }
    if InRegion(g) && !l.event.StartRoi? {
      var i :| 0 <= i < |g| && g[i].event.StartRoi? && forall j :: i < j < |g| ==> !g[j].event.EndRoi?;
      assert f[i].event.StartRoi?;
    }
  }

  lemma RegionSyncs(f: seq<Line>, g: seq<Line>, time: int)
    requires AddsSyncs(f, g, time)
    ensures InRegion(g) <==> InRegion(f)
    ensures (exists l :: l in g && l.event.StartRoi?) <==> (exists l :: l in f && l.event.StartRoi?)
  {
    assert forall i :: 0 <= i < |f| ==> g[i] == f[i];
    if InRegion(f) {
      var i :| 0 <= i < |f| && f[i].event.StartRoi? && forall j :: i < j < |f| ==> !f[j].event.EndRoi?;
      assert g[i].event.StartRoi?;
    }
    if InRegion(g) {
      var i :| 0 <= i < |g| && g[i].event.StartRoi? && forall j :: i < j < |g| ==> !g[j].event.EndRoi?;
      assert f[i].event.StartRoi?;
    }
    assert forall l :: l in f ==> l in g;
    assert forall l :: l in g && l.event.StartRoi? ==> l in f;
  }

  ghost predicate Started(f: seq<Line>) {
    exists l :: l in f && l.event.StartRoi?
  }

  // ----- the invariant -----

  /** What a step's own line does to the region. */
  ghost predicate RoiEvent(l: CoreLabel) {
    l.Announce? && (l.event.StartRoi? || l.event.EndRoi?)
  }

  lemma CoreStepRegion(cfg: Config, c: Core, l: CoreLabel)
    requires CoreEnabled(cfg, c, l)
    requires l.Local? ==> !l.event.StartRoi? && !l.event.EndRoi?
    ensures var f, g := c.store.emitted, CoreNext(cfg, c, l).store.emitted;
            && (InRegion(g) <==> if RoiEvent(l) then l.event.StartRoi? else InRegion(f))
            && (Started(g) <==> Started(f) || (RoiEvent(l) && l.event.StartRoi?))
  {
    hide CoreNext, InRegion, AddsSyncs;
    StepLines(cfg, c, l);
    var f, own := c.store.emitted, OwnEvent(cfg, c, l);
    RegionSyncs(f + own, CoreNext(cfg, c, l).store.emitted, SyncTime(cfg, c, l));
    if own != [] {
      RegionSnoc(f, own[0]);
      assert own == [own[0]];
      assert own[0] in f + own && (forall x :: x in f ==> x in f + own);
      assert forall x :: x in f + own ==> x in f || x == own[0];
    } else {
      assert f + own == f;
    }
  }

  /** With `-i` nothing is under way or done before the region has been entered for the first time. */
  ghost predicate RoiInv(cfg: Config, s: State) {
    && (s.inRoi <==> InRegion(s.core.store.emitted))
    && (InRegion(s.core.store.emitted) ==> Started(s.core.store.emitted))
    && (cfg.requireRoi && !Started(s.core.store.emitted) ==>
          s.log == [] && forall p :: p in s.control ==> s.control[p].stage.Between?)
  }

  lemma StepKeepsRoi(cfg: Config, s: State, l: Label)
    requires RoiInv(cfg, s) && Enabled(cfg, s, l)
    ensures RoiInv(cfg, Next(cfg, s, l))
  {
    hide InRegion, Started, CoreNext, CoreEnabled;
    match l
    case Other(c) =>
      OtherShape(cfg, s, c);
      CoreStepRegion(cfg, s.core, c);
    case Footer(p) => CoreStepRegion(cfg, s.core, FooterLabel(s, p));
    case _ =>
  }

  lemma {:induction false} RunKeepsRoi(cfg: Config, s: State, run: seq<Label>)
    requires RoiInv(cfg, s) && ValidRun(cfg, s, run)
    ensures RoiInv(cfg, Final(cfg, s, run))
    decreases |run|
  {
    if run != [] {
      StepKeepsRoi(cfg, s, run[0]);
      hide RoiInv, Enabled, Next;
      RunKeepsRoi(cfg, Next(cfg, s, run[0]), run[1..]);
    }
  }

  /**
    In every reachable state the tracer is in the region of interest if and only if the lines say so: the last
    one that enters or leaves it enters it. With `-i`, no access is traced before the first of them.
  */
  lemma RegionIsTraced(cfg: Config, m: Memory, run: seq<Label>)
    requires Sane(cfg) && ValidRun(cfg, Initial(cfg, m), run)
    ensures var s := Final(cfg, Initial(cfg, m), run);
            && (s.inRoi <==> InRegion(s.core.store.emitted))
            && (cfg.requireRoi && s.log != [] ==> exists l :: l in s.core.store.emitted && l.event.StartRoi?)
  {
    RunKeepsRoi(cfg, Initial(cfg, m), run);
  }

  /**
    Exactly when tracing an access may begin: its thread is live, registered and between instructions, and with
    `-i` the lines so far are in the region.
  */
  lemma TracedInRegion(cfg: Config, m: Memory, run: seq<Label>, p: Tid, a: Access)
    requires Sane(cfg) && ValidRun(cfg, Initial(cfg, m), run)
    ensures var s := Final(cfg, Initial(cfg, m), run);
            Enabled(cfg, s, Header(p, a)) <==>
            && p in s.control && s.control[p] == Control(Between, [])
            && p in s.core.store.live && p in s.core.store.threads && p !in s.core.pending
            && s.core.store.threads[p].uid >= 0 && Legal(a)
            && (a.stampedAfter ==> !cfg.logCasFails)
            && (cfg.requireRoi ==> InRegion(s.core.store.emitted))
  {
    RunKeepsRoi(cfg, Initial(cfg, m), run);
    hide InRegion, Initial, Final, Legal;
  }
}
