/** The events traced while every thread lock is held keep the trace file legal for merging. */
module TracerBroadcast {
  import opened TraceLine
  import opened TraceOrder
  import opened TracerStore
  import opened TracerFile

  /** The store right after the broadcasting thread has written its own line. */
  function OwnLine(cfg: Config, s: Store, p: Tid, l: Line): Store
    requires p in s.threads
  {
    Touch(cfg, Emit(s, p, l), p, l.time, true).store
  }

  lemma OwnLineFields(cfg: Config, s: Store, p: Tid, l: Line)
    requires p in s.threads
    ensures var w := OwnLine(cfg, s, p, l);
            && w.file == s.file + s.threads[p].buffer + [l]
            && w.threads == s.threads[p := ThreadData(s.threads[p].uid, l.time, [])]
            && w.live == s.live && w.emitted == s.emitted + [l]
            && Heads(w.file) == Heads(s.file + s.threads[p].buffer) + [HeadOf(l)]
  {
    EmitAndWrite(s, p, l, l.time);
  }

  ghost predicate Fresh(s: Store, uid: int) {
    forall q :: q in s.threads ==> s.threads[q].uid != uid
  }

  lemma UnregisteredLine(cfg: Config, s: Store, here: set<Tid>, p: Tid, l: Line)
    requires FileInv(s, here) && p in s.threads && s.threads[p].uid == -1
    requires l.uid == -1 && TagOf(l.event) == TagOther
    requires l.time >= Top(Heads(s.file)) && l.time > LastSilent(Heads(s.file)) && l.time > s.threads[p].clock
    ensures FileInv(OwnLine(cfg, s, p, l), here)
    ensures Top(Heads(OwnLine(cfg, s, p, l).file)) == l.time
  {
    var w := OwnLine(cfg, s, p, l);
    OwnLineFields(cfg, s, p, l);
    assert BufferOk(s, here, p);
    assert s.file + s.threads[p].buffer == s.file;
    Snoc(Heads(s.file), HeadOf(l));
    SameOwners(s, w, here);
    forall q | q in w.threads ensures BufferOk(w, here, q) {
      assert BufferOk(s, here, q);
    }
  }

  /** `p` is new or was unregistered; `t` is `s` with its id filled in. */
  lemma RegisterLine(cfg: Config, s: Store, t: Store, here: set<Tid>, p: Tid, l: Line)
    requires FileInv(s, here) && Fresh(s, l.uid) && l.uid >= 0 && l.event == Register
    requires p in s.threads ==> s.threads[p].uid == -1
    requires p !in s.threads ==> p !in here
    requires p in t.threads && t == s.(threads := s.threads[p := t.threads[p]])
    requires t.threads[p].uid == l.uid && t.threads[p].buffer == []
    requires l.time >= Top(Heads(s.file)) && l.time > 0
    ensures FileInv(OwnLine(cfg, t, p, l), here + {p})
    ensures Top(Heads(OwnLine(cfg, t, p, l).file)) == l.time
  {
    hide OwnLine, FileInv;
    OwnLineFields(cfg, t, p, l);
    RegisterState(s, OwnLine(cfg, t, p, l), here, p, l);
  }

  lemma RegisterState(s: Store, w: Store, here: set<Tid>, p: Tid, l: Line)
    requires FileInv(s, here) && Fresh(s, l.uid) && l.uid >= 0 && l.event == Register
    requires p in s.threads ==> s.threads[p].uid == -1
    requires l.time >= Top(Heads(s.file)) && l.time > 0
    requires w.threads == s.threads[p := ThreadData(l.uid, l.time, [])] && w.live == s.live
    requires Heads(w.file) == Heads(s.file) + [HeadOf(l)]
    ensures FileInv(w, here + {p}) && Top(Heads(w.file)) == l.time
  {
    var f := Heads(s.file);
    assert l.uid !in Registered(f);
    Snoc(f, HeadOf(l));
    hide Heads, Active, Registered, Wf, Top, Run;
    forall q | q in w.threads ensures BufferOk(w, here + {p}, q) {
      RegisterBuffer(s, w, here, p, l, q);
    }
    RegisterOwners(s, w, here, p, l.uid);
  }

  lemma RegisterBuffer(s: Store, w: Store, here: set<Tid>, p: Tid, l: Line, q: Tid)
    requires FileInv(s, here) && Fresh(s, l.uid) && q in w.threads && p in w.threads
    requires w.threads == s.threads[p := ThreadData(l.uid, l.time, [])]
    requires Active(Heads(w.file)) == Active(Heads(s.file))[l.uid := l.time]
    ensures BufferOk(w, here + {p}, q)
  {
    assert Heads([]) == [];
    if q != p {
      assert BufferOk(s, here, q);
    }
    hide Active;
  }

  lemma RegisterOwners(s: Store, w: Store, here: set<Tid>, p: Tid, uid: int)
    requires FileInv(s, here) && uid >= 0
    requires p in s.threads ==> s.threads[p].uid == -1
    requires p in w.threads && w.threads == s.threads[p := w.threads[p]] && w.threads[p].uid == uid
    requires forall u :: u in Active(Heads(w.file)) ==> u == uid || u in Active(Heads(s.file))
    requires forall u :: u in Registered(Heads(w.file)) ==> u == uid || u in Registered(Heads(s.file))
    ensures forall u :: u in Active(Heads(w.file)) ==> Owned(w, here + {p}, u)
    ensures forall u :: u in Registered(Heads(w.file)) ==> Known(w, u)
  {
    var f := Heads(s.file);
    forall u | u in Active(Heads(w.file)) ensures Owned(w, here + {p}, u) {
      if u != uid {
        ActiveBounds(f, u);
        assert Owned(s, here, u);
        var q :| q in s.threads && q in here && s.threads[q].uid == u;
        assert q != p && w.threads[q].uid == u;
      }
    }
    forall u | u in Registered(Heads(w.file)) ensures Known(w, u) {
      if u != uid {
        RegisteredNonnegative(f, u);
        assert Known(s, u);
        var q :| q in s.threads && s.threads[q].uid == u;
        assert q != p && w.threads[q].uid == u;
      }
    }
  }

  lemma {:induction false} RegisteredNonnegative(f: seq<Head>, u: int)
    requires Wf(f) && u in Registered(f)
    ensures u >= 0
  {
    var g, h := f[..|f| - 1], f[|f| - 1];
    if u in Registered(g) {
      RegisteredNonnegative(g, u);
    }
  }

  lemma FinishLineInFile(s: Store, here: set<Tid>, p: Tid, l: Line)
    requires FileInv(s, here) && p in here && s.threads[p].uid >= 0
    requires l.uid == s.threads[p].uid && l.event == Finish && l.time > s.threads[p].clock
    ensures var f, f' := Heads(s.file), Heads(s.file + s.threads[p].buffer) + [HeadOf(l)];
            && Wf(f') && Active(f') == Active(f) - {l.uid} && Registered(f') == Registered(f)
            && Top(f) <= Top(f') && l.time <= Top(f') && (Top(f') <= Top(f) || Top(f') <= l.time)
  {
    var t := s.threads[p];
    assert BufferOk(s, here, p);
    HeadsAppend(s.file, t.buffer);
    var f, g := Heads(s.file), Heads(s.file + t.buffer);
    AppendRun(f, Heads(t.buffer), t.uid);
    ActiveBounds(g, t.uid);
    Snoc(g, HeadOf(l));
  }

  lemma FinishLine(cfg: Config, s: Store, here: set<Tid>, p: Tid, l: Line)
    requires FileInv(s, here) && p in here && s.threads[p].uid >= 0
    requires l.uid == s.threads[p].uid && l.event == Finish && l.time > s.threads[p].clock
    ensures FileInv(OwnLine(cfg, s, p, l), here - {p})
    ensures TopGrowsTo(s, OwnLine(cfg, s, p, l), l.time)
    ensures l.time <= Top(Heads(OwnLine(cfg, s, p, l).file))
  {
    assert p in s.threads && l.time > s.threads[p].clock >= 0;
    hide OwnLine, FileInv;
    OwnLineFields(cfg, s, p, l);
    FinishLineInFile(s, here, p, l);
    FinishState(s, OwnLine(cfg, s, p, l), here, p, l);
  }

  lemma FinishState(s: Store, w: Store, here: set<Tid>, p: Tid, l: Line)
    requires FileInv(s, here) && p in here && p in s.threads && s.threads[p].uid == l.uid >= 0
    requires w.threads == s.threads[p := ThreadData(l.uid, l.time, [])] && w.live == s.live && l.time >= 0
    requires Wf(Heads(w.file)) && Active(Heads(w.file)) == Active(Heads(s.file)) - {l.uid}
    requires Registered(Heads(w.file)) == Registered(Heads(s.file))
    ensures FileInv(w, here - {p})
  {
    var here' := here - {p};
    hide Heads, Active, Registered, Wf, Top, Run;
    forall q | q in w.threads ensures BufferOk(w, here', q) {
      assert BufferOk(s, here, q);
    }
    FinishOwners(s, w, here, p, l.uid);
  }

  lemma FinishOwners(s: Store, w: Store, here: set<Tid>, p: Tid, uid: int)
    requires FileInv(s, here) && p in here && p in s.threads && s.threads[p].uid == uid
    requires p in w.threads && w.threads == s.threads[p := w.threads[p]] && w.threads[p].uid == uid
    requires Active(Heads(w.file)) == Active(Heads(s.file)) - {uid}
    requires Registered(Heads(w.file)) == Registered(Heads(s.file))
    ensures forall u :: u in Active(Heads(w.file)) ==> Owned(w, here - {p}, u)
    ensures forall u :: u in Registered(Heads(w.file)) ==> Known(w, u)
  {
    hide Heads, Active, Registered, Wf, BufferOk;
    forall u | u in Active(Heads(w.file)) ensures Owned(w, here - {p}, u) {
      assert Owned(s, here, u);
      var q :| q in s.threads && q in here && s.threads[q].uid == u;
      assert q != p && w.threads[q].uid == u;
    }
    forall u | u in Registered(Heads(w.file)) ensures Known(w, u) {
      assert Known(s, u);
      var q :| q in s.threads && s.threads[q].uid == u;
      assert w.threads[q].uid == u;
    }
  }
}
