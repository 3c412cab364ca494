/** The main results about reconciling: a success reaches the aimed-at lists whatever
    faults occurred, and a failure is repaired by a rerun exactly when no POST took effect. */
module ReconcileTheorems {
  import opened Text
  import opened AdminServer
  import opened AdminClient
  import opened Edits
  import opened RouteProgress
  import opened PolicyProgress
  import opened ReconcileProofs

  /** The lists a reconcile started from. */
  datatype Origin = Origin(routes: seq<Obj>, policies: seq<Obj>)

  ghost predicate OriginFits(o: Origin, mem: Memory) {
    Mirrors(o.routes, mem.routes) && Mirrors(o.policies, mem.policies) && Headed(o.policies)
  }

  /** Part of the way from the origin to the lists aimed at: the policies move only after the routes are done. */
  ghost predicate Halfway(srv: Server, from: Origin, mem: Memory, want: Memory, at: Progress) {
    && srv.up && ProgressFits(at, mem.routes, want.routes)
    && srv.routes == Some(PartialRoutes(from.routes, mem.routes, want.routes, at))
    && (PolicyList(srv) == from.policies
        || PolicyList(srv) == FinalPolicies(from.policies, mem.policies, want.policies))
  }

  ghost predicate Arrived(srv: Server, from: Origin, mem: Memory, want: Memory) {
    && srv.up
    && srv.routes == Some(FinalRoutes(from.routes, mem.routes, want.routes))
    && PolicyList(srv) == FinalPolicies(from.policies, mem.policies, want.policies)
  }

  lemma NoRouteAmongPolicies(p: seq<Obj>, m: ObjMap, id: string)
    requires Mirrors(p, m) && PolicyKeyed(m) && ROUTE_PREFIX <= id
    ensures IdCount(p, id) == 0
  {
    TlsIsNoRoute(id);
  }

  lemma NoRoutePolicies(list: seq<Obj>, p: seq<Obj>, prev: ObjMap, desired: ObjMap)
    requires Mirrors(p, prev) && Headed(p) && PolicyKeyed(prev) && PolicyKeyed(desired)
    requires list == p || list == FinalPolicies(p, prev, desired)
    ensures forall id :: ROUTE_PREFIX <= id ==> IdCount(list, id) == 0
  {
    FinalPoliciesMirror(p, prev, desired);
    forall id | ROUTE_PREFIX <= id ensures IdCount(list, id) == 0 {
      NoRouteAmongPolicies(list, if list == p then prev else desired, id);
    }
  }

  lemma NoTlsAmongRoutes(r: seq<Obj>, prev: ObjMap, desired: ObjMap, at: Progress)
    requires Mirrors(r, prev) && RouteKeyed(prev) && RouteKeyed(desired) && ProgressFits(at, prev, desired)
    ensures IdCount(PartialRoutes(r, prev, desired, at), TLS_ID) == 0
  {
    assert OwnedId(TLS_ID);
    if TLS_ID in prev { TlsIsNoRoute(TLS_ID); }
    EditCount(r, at.gone, at.new_, desired, TLS_ID);
    var adds := AscendingObjs(Added(prev, desired));
    CountConcat(Edit(r, at.gone, at.new_, desired), adds[..at.posted], TLS_ID);
    if IdCount(adds[..at.posted], TLS_ID) > 0 {
      var i := CountWitness(adds[..at.posted], TLS_ID);
      assert adds[i] in adds;
      AscendingObjsIn(Added(prev, desired), adds[i]);
      TlsIsNoRoute(TLS_ID);
      assert false;
    }
  }

  lemma PrepareKeeps(w: World, want: Memory)
    requires w.srv.up && w.srv.routes.Some?
    ensures var s := Prepare(w, want);
      && w.log <= s.w.log && !Posted(Made(w, s.w))
      && s.w.srv.up && s.w.srv.routes == w.srv.routes && PolicyList(s.w.srv) == PolicyList(w.srv)
  {
    EnsureServerOp(w);
    assert Made(w, w) == [];
  }

  /** A success reported although the policy list was not written: its read was refused, and
      the PUT that followed met an existing list. */
  ghost predicate PolicyMissed(w: World, mem: Memory, want: Memory, o: Orders) {
    var ready := Prepare(w, want).w;
    var s := Reconcile(w, mem, want, o);
    && Prepare(w, want).ok
    && ready.log <= s.w.log && ReadRefused(Made(ready, s.w))
    && ready.srv.policies.Some?
  }

  /** The plan alone, from any point part-way, under any faults. */
  lemma PlanFrom(w: World, from: Origin, mem: Memory, want: Memory, o: Orders, at: Progress)
      returns (to: Progress)
    requires WellFormed(mem) && WellFormed(want) && OrdersFit(mem, want, o) && OriginFits(from, mem)
    requires Halfway(w.srv, from, mem, want, at) && at.posted == 0
    ensures var s := ExecAll(w, FullPlan(mem, want, o));
      && w.log <= s.w.log
      && Halfway(s.w.srv, from, mem, want, to)
      && (Posted(Made(w, s.w)) <==> to.posted > 0)
      && (PolicyList(s.w.srv) != PolicyList(w.srv) ==> to == Complete(mem.routes, want.routes))
      && (s.ok ==> to == Complete(mem.routes, want.routes))
      && (s.ok && !(w.srv.policies.Some? && ReadRefused(Made(w, s.w))) ==>
            PolicyList(s.w.srv) == FinalPolicies(from.policies, mem.policies, want.policies))
      && (s.ok && w.srv.policies.Some? && ReadRefused(Made(w, s.w)) ==>
            PolicyList(s.w.srv) == PolicyList(w.srv) && TLS_ID in want.policies && TLS_ID !in mem.policies)
  {
    hide Exec, ExecAll, Edit, Mirrors, RoutePlan, PolicyPlan, Headed, Patchable, PartialRoutes, IdCount;
    var plan1 := RoutePlan(mem.routes, want.routes, o.routes);
    var plan2 := PolicyPlan(mem.policies, want.policies, o.policies);
    ExecAllConcat(w, plan1, plan2);
    NoRoutePolicies(PolicyList(w.srv), from.policies, mem.policies, want.policies);
    MirrorsPatchable(from.routes, mem.routes, want.routes);
    to := RoutePlanProgress(w, w.srv, from.routes, mem.routes, want.routes, o.routes, at);
    var s1 := ExecAll(w, plan1);
    if s1.ok {
      NoTlsAmongRoutes(from.routes, mem.routes, want.routes, to);
      PolicyPlanProgress(s1.w, from.policies, mem.policies, want.policies, o.policies);
      LogTrans(w, s1.w, ExecAll(s1.w, plan2).w);
    }
  }

  /** Any reconcile, from any point part-way, under any faults. */
  lemma ReconcileFrom(w: World, from: Origin, mem: Memory, want: Memory, o: Orders, at: Progress)
      returns (to: Progress)
    requires WellFormed(mem) && WellFormed(want) && OrdersFit(mem, want, o) && OriginFits(from, mem)
    requires Halfway(w.srv, from, mem, want, at) && at.posted == 0
    ensures var s := Reconcile(w, mem, want, o);
      && w.log <= s.w.log
      && Halfway(s.w.srv, from, mem, want, to)
      && (Posted(Made(w, s.w)) <==> to.posted > 0)
      && (PolicyList(s.w.srv) != PolicyList(w.srv) ==> to == Complete(mem.routes, want.routes))
      && (s.ok ==> to == Complete(mem.routes, want.routes))
      && (s.ok && !PolicyMissed(w, mem, want, o) ==> Arrived(s.w.srv, from, mem, want))
      && (s.ok && PolicyMissed(w, mem, want, o) ==>
            PolicyList(s.w.srv) == PolicyList(w.srv) && TLS_ID in want.policies && TLS_ID !in mem.policies)
  {
    hide ExecAll, EnsureServer, Edit, Mirrors, FullPlan, Headed, PartialRoutes;
    to := at;
    PrepareKeeps(w, want);
    var p := Prepare(w, want);
    if p.ok {
      to := PlanFrom(p.w, from, mem, want, o, at);
      LogTrans(w, p.w, Reconcile(w, mem, want, o).w);
      CompleteIsFinal(from.routes, mem.routes, want.routes);
    }
  }

  /* ---------- a reconcile that reports success ---------- */

  function OriginOf(srv: Server): Origin
    requires srv.routes.Some?
  {
    Origin(srv.routes.value, PolicyList(srv))
  }

  lemma StartsHalfway(srv: Server, mem: Memory, want: Memory)
    requires InSync(srv, mem)
    ensures Halfway(srv, OriginOf(srv), mem, want, Progress({}, {}, 0)) && OriginFits(OriginOf(srv), mem)
  {
    var r := srv.routes.value;
    EditNothing(r, want.routes);
    assert r + AscendingObjs(Added(mem.routes, want.routes))[..0] == r;
  }

  lemma ArrivedInSync(srv: Server, from: Origin, mem: Memory, want: Memory)
    requires WellFormed(mem) && WellFormed(want) && OriginFits(from, mem) && Arrived(srv, from, mem, want)
    ensures InSync(srv, want)
  {
    FinalMirrors(from.routes, mem.routes, want.routes);
    FinalPoliciesMirror(from.policies, mem.policies, want.policies);
  }

  /** From a server in step with the client's memory and under any faults: a reconcile that
      reports success ends at the aimed-at lists, in step with the new memory, exactly when
      no read of an existing policy list was refused on the way. */
  lemma SuccessRefines(w: World, mem: Memory, want: Memory, o: Orders)
    requires WellFormed(mem) && WellFormed(want) && OrdersFit(mem, want, o) && InSync(w.srv, mem)
    requires Reconcile(w, mem, want, o).ok
    ensures var srv := Reconcile(w, mem, want, o).w.srv;
      && srv.routes == Some(FinalRoutes(w.srv.routes.value, mem.routes, want.routes))
      && (!PolicyMissed(w, mem, want, o) <==> Arrived(srv, OriginOf(w.srv), mem, want))
      && (!PolicyMissed(w, mem, want, o) <==> InSync(srv, want))
  {
    StartsHalfway(w.srv, mem, want);
    var to := ReconcileFrom(w, OriginOf(w.srv), mem, want, o, Progress({}, {}, 0));
    CompleteIsFinal(w.srv.routes.value, mem.routes, want.routes);
    var srv := Reconcile(w, mem, want, o).w.srv;
    if Arrived(srv, OriginOf(w.srv), mem, want) {
      ArrivedInSync(srv, OriginOf(w.srv), mem, want);
    }
    if PolicyMissed(w, mem, want, o) {
      assert OwnedId(TLS_ID);
      assert IdCount(PolicyList(srv), TLS_ID) == 0;
    }
  }

  /** The order in which removed ids are met does not show in the result. */
  lemma OrderIrrelevant(w1: World, w2: World, mem: Memory, want: Memory, o1: Orders, o2: Orders)
    requires WellFormed(mem) && WellFormed(want) && OrdersFit(mem, want, o1) && OrdersFit(mem, want, o2)
    requires w1.srv == w2.srv && InSync(w1.srv, mem)
    requires Reconcile(w1, mem, want, o1).ok && !PolicyMissed(w1, mem, want, o1)
    requires Reconcile(w2, mem, want, o2).ok && !PolicyMissed(w2, mem, want, o2)
    ensures var s1, s2 := Reconcile(w1, mem, want, o1).w.srv, Reconcile(w2, mem, want, o2).w.srv;
      s1.up == s2.up && s1.routes == s2.routes && PolicyList(s1) == PolicyList(s2)
  {
    SuccessRefines(w1, mem, want, o1);
    SuccessRefines(w2, mem, want, o2);
  }

  /* ---------- a reconcile that fails, and its rerun ---------- */

  lemma {:induction false} CountPrefix(r: seq<Obj>, k: nat, id: string)
    requires k <= |r|
    ensures IdCount(r[..k], id) <= IdCount(r, id)
  {
    assert r == r[..k] + r[k..];
    CountConcat(r[..k], r[k..], id);
  }

  lemma PartialCounts(r: seq<Obj>, prev: ObjMap, desired: ObjMap, at: Progress)
    requires Mirrors(r, prev) && RouteKeyed(prev) && RouteKeyed(desired) && ProgressFits(at, prev, desired)
    ensures forall id :: id in prev ==>
      IdCount(PartialRoutes(r, prev, desired, at), id) == if id in at.gone then 0 else 1
  {
    var adds := AscendingObjs(Added(prev, desired));
    var edited := Edit(r, at.gone, at.new_, desired);
    forall id | id in prev
      ensures IdCount(PartialRoutes(r, prev, desired, at), id) == if id in at.gone then 0 else 1
    {
      assert OwnedId(id);
      EditCount(r, at.gone, at.new_, desired, id);
      AscendingObjsCount(Added(prev, desired), id);
      CountPrefix(adds, at.posted, id);
      CountConcat(edited, adds[..at.posted], id);
    }
  }

  lemma PartialPatchable(r: seq<Obj>, prev: ObjMap, desired: ObjMap, at: Progress)
    requires Mirrors(r, prev) && RouteKeyed(prev) && RouteKeyed(desired) && ProgressFits(at, prev, desired)
    ensures Patchable(PartialRoutes(r, prev, desired, at), prev, desired)
  {
    PartialCounts(r, prev, desired, at);
  }

  /** If a POST of the failed attempt took effect, a rerun posts the same route again. */
  lemma RerunDuplicates(w: World, from: Origin, mem: Memory, want: Memory, o: Orders, at: Progress)
    requires WellFormed(mem) && WellFormed(want) && OrdersFit(mem, want, o) && OriginFits(from, mem)
    requires Halfway(w.srv, from, mem, want, at) && at.posted > 0
    requires Reconcile(w, mem, want, o).ok
    ensures !InSync(Reconcile(w, mem, want, o).w.srv, want)
  {
    hide Exec, ExecAll, EnsureServer, RoutePlan, PolicyPlan, Headed, Patchable, Edit, IdCount, Mirrors;
    PrepareKeeps(w, want);
    var p := Prepare(w, want);
    var r := w.srv.routes.value;
    var prev, desired := mem.routes, want.routes;
    var plan1 := RoutePlan(prev, desired, o.routes);
    ExecAllConcat(p.w, plan1, PolicyPlan(mem.policies, want.policies, o.policies));
    NoRoutePolicies(PolicyList(p.w.srv), from.policies, mem.policies, want.policies);
    PartialPatchable(from.routes, prev, desired, at);
    EditNothing(r, desired);
    var adds := AscendingObjs(Added(prev, desired));
    assert Edit(r, {}, {}, desired) + adds[..0] == r;
    var to := RoutePlanProgress(p.w, p.w.srv, r, prev, desired, o.routes, Progress({}, {}, 0));
    var s1 := ExecAll(p.w, plan1);
    CompleteIsFinal(r, prev, desired);
    PostedTwice(from.routes, prev, desired, at);
    NoTlsTwice(from.routes, prev, desired, at);
    PolicyPlanProgress(s1.w, from.policies, mem.policies, want.policies, o.policies);
  }

  lemma NoTlsTwice(r: seq<Obj>, prev: ObjMap, desired: ObjMap, at: Progress)
    requires Mirrors(r, prev) && RouteKeyed(prev) && RouteKeyed(desired) && ProgressFits(at, prev, desired)
    ensures IdCount(FinalRoutes(PartialRoutes(r, prev, desired, at), prev, desired), TLS_ID) == 0
  {
    NoTlsAmongRoutes(r, prev, desired, at);
    var r' := PartialRoutes(r, prev, desired, at);
    EditCount(r', Removed(prev, desired).Keys, Updated(prev, desired).Keys, desired, TLS_ID);
    AscendingObjsCount(Added(prev, desired), TLS_ID);
    CountConcat(EditedRoutes(r', prev, desired), AscendingObjs(Added(prev, desired)), TLS_ID);
    if TLS_ID in desired { TlsIsNoRoute(TLS_ID); }
  }

  lemma PostedTwice(r: seq<Obj>, prev: ObjMap, desired: ObjMap, at: Progress)
    requires Mirrors(r, prev) && RouteKeyed(prev) && RouteKeyed(desired)
    requires ProgressFits(at, prev, desired) && at.posted > 0
    ensures !Mirrors(FinalRoutes(PartialRoutes(r, prev, desired, at), prev, desired), desired)
  {
    var added := Added(prev, desired);
    var adds := AscendingObjs(added);
    var r' := PartialRoutes(r, prev, desired, at);
    assert adds[0] in adds;
    AscendingObjsIn(added, adds[0]);
    var id := adds[0].id.value;
    TlsIsNoRoute(id);
    CountPositive(adds[..at.posted], 0, id);
    CountConcat(Edit(r, at.gone, at.new_, desired), adds[..at.posted], id);
    assert IdCount(r', id) >= 1;
    EditCount(r', Removed(prev, desired).Keys, Updated(prev, desired).Keys, desired, id);
    CountPositive(adds, 0, id);
    CountConcat(EditedRoutes(r', prev, desired), adds, id);
    assert IdCount(FinalRoutes(r', prev, desired), id) >= 2;
  }

  /* ---------- what a failure leaves ---------- */

  lemma GoneShows(r: seq<Obj>, prev: ObjMap, desired: ObjMap, at: Progress, id: string)
    requires Mirrors(r, prev) && RouteKeyed(prev) && RouteKeyed(desired)
    requires ProgressFits(at, prev, desired) && id in at.gone
    ensures !Mirrors(PartialRoutes(r, prev, desired, at), prev)
  {
    var adds := AscendingObjs(Added(prev, desired));
    TlsIsNoRoute(id);
    EditCount(r, at.gone, at.new_, desired, id);
    AscendingObjsCount(Added(prev, desired), id);
    CountPrefix(adds, at.posted, id);
    CountConcat(Edit(r, at.gone, at.new_, desired), adds[..at.posted], id);
  }

  lemma ChangeShows(r: seq<Obj>, prev: ObjMap, desired: ObjMap, at: Progress, id: string)
    requires Mirrors(r, prev) && RouteKeyed(prev) && RouteKeyed(desired)
    requires ProgressFits(at, prev, desired) && id in at.new_
    ensures !Mirrors(PartialRoutes(r, prev, desired, at), prev)
  {
    var edited := Edit(r, at.gone, at.new_, desired);
    TlsIsNoRoute(id);
    EditCount(r, at.gone, at.new_, desired, id);
    var i := CountWitness(edited, id);
    var o := edited[i];
    assert o in edited && o in PartialRoutes(r, prev, desired, at);
    EditMember(r, at.gone, at.new_, desired, o);
  }

  lemma PostShows(r: seq<Obj>, prev: ObjMap, desired: ObjMap, at: Progress)
    requires Mirrors(r, prev) && RouteKeyed(prev) && RouteKeyed(desired)
    requires ProgressFits(at, prev, desired) && at.posted > 0
    ensures !Mirrors(PartialRoutes(r, prev, desired, at), prev)
  {
    var adds := AscendingObjs(Added(prev, desired));
    assert adds[0] in adds;
    AscendingObjsIn(Added(prev, desired), adds[0]);
    assert adds[..at.posted][0] == adds[0];
    assert adds[0] in PartialRoutes(r, prev, desired, at);
    TlsIsNoRoute(adds[0].id.value);
  }

  lemma PolicyShows(p: seq<Obj>, prev: ObjMap, desired: ObjMap)
    requires Mirrors(p, prev) && Headed(p) && PolicyKeyed(prev) && PolicyKeyed(desired)
    requires Mirrors(FinalPolicies(p, prev, desired), prev)
    ensures FinalPolicies(p, prev, desired) == p
  {
    var final := FinalPolicies(p, prev, desired);
    assert OwnedId(TLS_ID);
    FinalPoliciesMirror(p, prev, desired);
    if TLS_ID in desired {
      var i := CountWitness(final, TLS_ID);
      assert final[i] in final;
    }
  }

  ghost predicate Untouched(s: Server, s': Server) {
    s'.routes == s.routes && PolicyList(s') == PolicyList(s)
  }

  /** A failed reconcile leaves the server in step with what is remembered exactly when it has changed neither list. */
  lemma FailureShows(w: World, mem: Memory, want: Memory, o: Orders)
    requires WellFormed(mem) && WellFormed(want) && OrdersFit(mem, want, o) && InSync(w.srv, mem)
    requires !Reconcile(w, mem, want, o).ok
    ensures InSync(Reconcile(w, mem, want, o).w.srv, mem) <==> Untouched(w.srv, Reconcile(w, mem, want, o).w.srv)
  {
    hide FinalPolicies, Edit, Reconcile, Mirrors, Headed, Updated, Removed, Added;
    var r, p := w.srv.routes.value, PolicyList(w.srv);
    var srv := Reconcile(w, mem, want, o).w.srv;
    StartsHalfway(w.srv, mem, want);
    var to := ReconcileFrom(w, OriginOf(w.srv), mem, want, o, Progress({}, {}, 0));
    if InSync(srv, mem) {
      if id :| id in to.gone { GoneShows(r, mem.routes, want.routes, to, id); }
      if id :| id in to.new_ { ChangeShows(r, mem.routes, want.routes, to, id); }
      if to.posted > 0 { PostShows(r, mem.routes, want.routes, to); }
      assert to == Progress({}, {}, 0);
      if PolicyList(srv) != p { PolicyShows(p, mem.policies, want.policies); }
    }
  }

  /** After a failed attempt, a rerun with the same wishes that reports success repairs
      everything, as if the first attempt had never happened, if and only if no POST of
      the first attempt took effect. */
  lemma RerunRepairs(w0: World, mem: Memory, want: Memory, o0: Orders, w1: World, o1: Orders)
    requires WellFormed(mem) && WellFormed(want) && OrdersFit(mem, want, o0) && OrdersFit(mem, want, o1)
    requires InSync(w0.srv, mem) && !Reconcile(w0, mem, want, o0).ok
    requires w1.srv == Reconcile(w0, mem, want, o0).w.srv
    requires Reconcile(w1, mem, want, o1).ok && !PolicyMissed(w1, mem, want, o1)
    ensures var failed := Reconcile(w0, mem, want, o0).w; var srv := Reconcile(w1, mem, want, o1).w.srv;
      && w0.log <= failed.log
      && (!Posted(Made(w0, failed)) ==> Arrived(srv, OriginOf(w0.srv), mem, want))
      && (!Posted(Made(w0, failed)) <==> InSync(srv, want))
  {
    var from := OriginOf(w0.srv);
    StartsHalfway(w0.srv, mem, want);
    var at := ReconcileFrom(w0, from, mem, want, o0, Progress({}, {}, 0));
    if at.posted > 0 {
      RerunDuplicates(w1, from, mem, want, o1, at);
    } else {
      var to := ReconcileFrom(w1, from, mem, want, o1, at);
      ArrivedInSync(Reconcile(w1, mem, want, o1).w.srv, from, mem, want);
    }
  }
}
