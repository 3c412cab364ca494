/** The ways an apply can fail with harm, and the start of every run. */
module ApplyFailures {
  import opened Text
  import opened AdminServer
  import opened AdminClient
  import opened Edits
  import opened RouteProgress
  import opened PolicyProgress
  import opened ReconcileProofs
  import opened ReconcileTheorems
  import opened ReconcileSafety
  import opened Config
  import opened Fingerprint
  import opened Registry
  import opened Views
  import opened Clean
  import opened Apply

  /* ---------- failing with harm ---------- */

  /** Whatever targets the stored fingerprint may be of, the server holds their config. */
  ghost predicate SkipSound(s: Sys, k: Params) {
    s.stored.Some? ==>
      forall d :: CleanTargets(d) && s.stored.value.domains == DomainBytes(d) ==> InSync(s.w.srv, Build(d, k.tracing))
  }

  lemma MirrorsDecide(r: seq<Obj>, a: ObjMap, b: ObjMap)
    requires Mirrors(r, a) && Mirrors(r, b)
    requires forall id :: id in a ==> OwnedId(id)
    ensures forall id :: id in a ==> id in b && a[id] == b[id]
  {
    forall id | id in a ensures id in b && a[id] == b[id] {
      var i := CountWitness(r, id);
      assert r[i] in r;
    }
  }

  /** A server is in step with one memory only. */
  lemma InSyncDecides(srv: Server, a: Memory, b: Memory)
    requires InSync(srv, a) && InSync(srv, b) && WellFormed(a) && WellFormed(b)
    ensures a == b
  {
    forall id | ROUTE_PREFIX <= id || id == TLS_ID ensures OwnedId(id) {}
    MirrorsDecide(srv.routes.value, a.routes, b.routes);
    MirrorsDecide(srv.routes.value, b.routes, a.routes);
    MirrorsDecide(PolicyList(srv), a.policies, b.policies);
    MirrorsDecide(PolicyList(srv), b.policies, a.policies);
    assert a.routes == b.routes && a.policies == b.policies;
  }

  /** After a failed reconcile the fingerprint can still be trusted exactly when neither list was changed. */
  lemma FailedReconcile(s: Sys, p: Apply.Step, k: Params)
    requires Ok(s, k) && CleanSys(s, k) && Enabled(s, p, k) && s.stored.Some?
    requires p.DoReconcile? && !Reconcile(s.w.(script := p.script), s.mem, Build(s.pc.targets, k.tracing), p.orders).ok
    ensures SkipSound(Take(s, p, k), k) <==> GoesWell(s, p, k)
  {
    var t := Take(s, p, k);
    if GoesWell(s, p, k) {
      TakeOk(s, p, k);
      OkSkipSound(t, k);
    } else {
      var w, want := s.w.(script := p.script), Build(s.pc.targets, k.tracing);
      BuildWellFormed(s.pc.targets, k.tracing);
      FailureShows(w, s.mem, want, p.orders);
      var d :| CleanTargets(d) && s.stored.value.domains == DomainBytes(d) && s.mem == Build(d, k.tracing);
      assert !InSync(t.w.srv, Build(d, k.tracing));
    }
  }

  lemma OkSkipSound(s: Sys, k: Params)
    requires Ok(s, k) && !MidApply(s.pc)
    ensures SkipSound(s, k)
  {
    if s.stored.Some? {
      forall d | CleanTargets(d) && s.stored.value.domains == DomainBytes(d)
        ensures InSync(s.w.srv, Build(d, k.tracing))
      {
        PrintMeans(s.stored.value.domains, s.mem, d, k);
      }
    }
  }

  lemma OneConfigOneHash(srv: Server, d: Targets, e: Targets, tracing: bool)
    requires InSync(srv, Build(d, tracing)) && InSync(srv, Build(e, tracing))
    requires NoClash(d.Keys) && NoClash(e.Keys) && CleanTargets(d) && CleanTargets(e)
    ensures DomainBytes(d) == DomainBytes(e)
  {
    hide InSync, WellFormed, Build, DomainBytes, NoClash, CleanTargets;
    BuildWellFormed(d, tracing);
    BuildWellFormed(e, tracing);
    InSyncDecides(srv, Build(d, tracing), Build(e, tracing));
    BuildTellsTargets(d, e, tracing);
    BuildTellsTargets(e, d, tracing);
    assert SameTargets(d, e);
    BytesDetermine(d, e);
  }

  /** When the index page cannot be written after a good reconcile, the old fingerprint stays. It can still
      be trusted exactly when it is of targets that build the config just applied. */
  lemma FailedWrite(s: Sys, k: Params)
    requires Ok(s, k) && CleanSys(s, k) && Enabled(s, WriteIndex(false), k) && s.stored.Some?
    ensures SkipSound(Take(s, WriteIndex(false), k), k) <==> Describes(s.stored.value.domains, s.mem, k)
  {
    hide InSync, WellFormed, Build, TargetsOf, DomainBytes, CleanTargets, CleanRegistry;
    var t := Take(s, WriteIndex(false), k);
    if Describes(s.stored.value.domains, s.mem, k) {
      TakeOk(s, WriteIndex(false), k);
      OkSkipSound(t, k);
    } else {
      var e :| CleanTargets(e) && s.stored.value.domains == DomainBytes(e);
      BuildWellFormed(e, k.tracing);
      if InSync(t.w.srv, Build(e, k.tracing)) { InSyncDecides(t.w.srv, Build(e, k.tracing), s.mem); }
    }
  }

  /** As long as no hosts clash, that is: exactly when it is of the same targets. */
  lemma FailedWriteSameTargets(s: Sys, k: Params)
    requires Ok(s, k) && CleanSys(s, k) && Enabled(s, WriteIndex(false), k) && s.stored.Some?
    requires NoClash(s.pc.targets.Keys)
    requires forall e :: CleanTargets(e) && s.stored.value.domains == DomainBytes(e) ==> NoClash(e.Keys)
    ensures SkipSound(Take(s, WriteIndex(false), k), k) <==> s.stored.value.domains == s.pc.print_.domains
  {
    hide InSync, WellFormed, Build, TargetsOf, DomainBytes, CleanTargets, NoClash, CleanRegistry, SkipSound;
    FailedWrite(s, k);
    var d := s.pc.targets;
    if e :| CleanTargets(e) && s.stored.value.domains == DomainBytes(e) && s.mem == Build(e, k.tracing) {
      OneConfigOneHash(s.w.srv, d, e, k.tracing);
    }
  }

  /* ---------- the start ---------- */

  /** The first apply: the server node, the index route, then our routes and policy. */
  ghost function PostDevlocal(w: World, index: Obj, want: Memory, o: Orders): AdminClient.Step {
    var s1 := EnsureServer(w);
    if !s1.ok then s1 else
    var s2 := PostRoute(s1.w, index);
    if !s2.ok then s2 else Reconcile(s2.w, Memory(map[], map[]), want, o)
  }

  ghost predicate Untaken(r: seq<Obj>) {
    forall o :: o in r ==> !Owned(o)
  }

  lemma {:induction false} UntakenCount(r: seq<Obj>, id: string)
    requires Untaken(r) && OwnedId(id)
    ensures IdCount(r, id) == 0
  {
    if r != [] {
      assert r[0] in r;
      UntakenCount(r[1..], id);
    }
  }

  lemma UntakenMirrors(r: seq<Obj>)
    requires Untaken(r)
    ensures Mirrors(r, map[]) && Headed(r)
  {
    forall id | OwnedId(id) ensures IdCount(r, id) == 0 { UntakenCount(r, id); }
    assert OwnedId(TLS_ID);
    forall i | 0 < i < |r| ensures r[i].id != Some(TLS_ID) { assert r[i] in r; }
  }

  lemma IndexPosted(w: World, index: Obj)
    requires w.srv.routes.Some? ==> w.srv.up
    requires Untaken(RouteList(w.srv)) && Untaken(PolicyList(w.srv)) && !Owned(index)
    requires var s1 := EnsureServer(w); s1.ok && PostRoute(s1.w, index).ok
    ensures var srv := PostRoute(EnsureServer(w).w, index).w.srv;
      && InSync(srv, Memory(map[], map[]))
      && RouteList(srv) == RouteList(w.srv) + [index] && PolicyList(srv) == PolicyList(w.srv)
  {
    EnsureServerOp(w);
    var s1 := EnsureServer(w);
    RequestLog(s1.w, Post(index));
    PostAccepted(s1.w, index);
    var srv := PostRoute(s1.w, index).w.srv;
    UntakenMirrors(RouteList(srv));
    UntakenMirrors(PolicyList(srv));
  }

  lemma PostAccepted(w: World, obj: Obj)
    requires PostRoute(w, obj).ok
    ensures w.srv.routes.Some? && PostRoute(w, obj).w.srv == w.srv.(routes := Some(w.srv.routes.value + [obj]))
  {
    RequestLog(w, Post(obj));
  }

  /** If the first apply goes well, on a server that held nothing of ours, then the server is in step, the
      user's objects are followed by the index route, and the invariant of all later runs holds. */
  lemma StartsOk(w: World, index: Obj, reg: Records, error: string, k: Params, o: Orders)
    requires w.srv.routes.Some? ==> w.srv.up
    requires Untaken(RouteList(w.srv)) && Untaken(PolicyList(w.srv)) && !Owned(index)
    requires CleanRegistry(reg, k.settings)
    requires var want := Build(TargetsOf(reg, k.settings), k.tracing);
      && OrdersFit(Memory(map[], map[]), want, o)
      && PostDevlocal(w, index, want, o).ok
      && !PolicyMissed(PostRoute(EnsureServer(w).w, index).w, Memory(map[], map[]), want, o)
    ensures var targets := TargetsOf(reg, k.settings);
      var done := PostDevlocal(w, index, Build(targets, k.tracing), o).w;
      && Ok(Sys(reg, error, done, Build(targets, k.tracing), Some(Print(DomainBytes(targets), reg, error)),
                Idle, false), k)
      && Foreign(RouteList(done.srv)) == RouteList(w.srv) + [index]
      && Foreign(PolicyList(done.srv)) == PolicyList(w.srv)
  {
    hide InSync, WellFormed, Build, TargetsOf, DomainBytes, CleanTargets, CleanRegistry;
    hide Reconcile, PolicyMissed, OrdersFit, EnsureServer, PostRoute, Untaken, Foreign, Ok;
    CleanView(reg, k.settings);
    var targets := TargetsOf(reg, k.settings);
    var want := Build(targets, k.tracing);
    IndexPosted(w, index);
    var w2 := PostRoute(EnsureServer(w).w, index).w;
    BuildWellFormed(targets, k.tracing);
    SuccessRefines(w2, Memory(map[], map[]), want, o);
    ReconcileKeeps(w2, Memory(map[], map[]), want, o);
    var done := PostDevlocal(w, index, want, o).w;
    StartForeign(w, w2, index, done);
    StartInvariant(reg, error, done, targets, k);
  }

  lemma StartInvariant(reg: Records, error: string, w: World, targets: Targets, k: Params)
    requires CleanTargets(targets) && InSync(w.srv, Build(targets, k.tracing)) && WellFormed(Build(targets, k.tracing))
    ensures Ok(Sys(reg, error, w, Build(targets, k.tracing), Some(Print(DomainBytes(targets), reg, error)),
                   Idle, false), k)
  {
    hide InSync, WellFormed, Build, TargetsOf, DomainBytes, CleanTargets;
    assert Describes(DomainBytes(targets), Build(targets, k.tracing), k);
  }

  lemma StartForeign(w: World, w2: World, index: Obj, done: World)
    requires Untaken(RouteList(w.srv)) && Untaken(PolicyList(w.srv)) && !Owned(index)
    requires RouteList(w2.srv) == RouteList(w.srv) + [index] && PolicyList(w2.srv) == PolicyList(w.srv)
    requires Keeps(w2.srv, done.srv)
    ensures Foreign(RouteList(done.srv)) == RouteList(w.srv) + [index]
    ensures Foreign(PolicyList(done.srv)) == PolicyList(w.srv)
  {
    ForeignAll(RouteList(w2.srv));
    ForeignAll(PolicyList(w2.srv));
  }

  lemma {:induction false} ForeignAll(r: seq<Obj>)
    requires Untaken(r)
    ensures Foreign(r) == r
  {
    if r != [] {
      assert r[0] in r;
      ForeignAll(r[1..]);
    }
  }
}
