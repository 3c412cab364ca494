/** The same for the TLS policy: what a reconcile that succeeds leaves of it, whatever it found. */
module PolicyHealing {
  import opened Text
  import opened AdminServer
  import opened AdminClient
  import opened Edits
  import opened RouteProgress
  import opened PolicyProgress
  import opened ReconcileProofs
  import opened ReconcileTheorems
  import opened ReconcileSafety
  import opened Healing

  /* ---------- the policy operation ---------- */

  /** What the policy part makes of the list. `missed` says that its read was turned down though the list exists. */
  function PolicyServed(p: seq<Obj>, prev: ObjMap, desired: ObjMap, missed: bool): seq<Obj> {
    if TLS_ID !in desired then
      if TLS_ID in prev then RemoveFirst(p, TLS_ID) else p
    else if TLS_ID in prev && prev[TLS_ID] == desired[TLS_ID] then p
    else if TLS_ID in prev && IdCount(p, TLS_ID) > 0 then ReplaceFirst(p, TLS_ID, desired[TLS_ID])
    else if missed then p
    else [desired[TLS_ID]] + DropTls(p)
  }

  /** A success of the policy part, with the server's list before and after. */
  ghost predicate PolicyMoved(w: World, w': World, final: seq<Obj>) {
    w.log <= w'.log && w'.srv == w.srv.(policies := w'.srv.policies) && PolicyList(w'.srv) == final
  }

  ghost predicate ReadMissed(w: World, w': World)
    requires w.log <= w'.log
  {
    w.srv.policies.Some? && ReadRefused(Made(w, w'))
  }

  lemma PrependServed(w: World, obj: Obj)
    requires PrependPolicy(w, obj).ok
    ensures var p, w' := PolicyList(w.srv), PrependPolicy(w, obj).w;
      w.log <= w'.log && PolicyMoved(w, w', if ReadMissed(w, w') then p else [obj] + DropTls(p))
  {
    hide PrependPolicy;
    AddPolicyStep(w, obj, [obj] + DropTls(PolicyList(w.srv)));
  }

  /** A PATCH that finds no policy is followed by a prepend. */
  lemma PatchMissing(w: World, obj: Obj)
    requires IdCount(RouteList(w.srv), TLS_ID) == 0 && IdCount(PolicyList(w.srv), TLS_ID) == 0
    requires Exec(w, UpdatePolicy(TLS_ID, obj)).ok
    ensures var p, w' := PolicyList(w.srv), Exec(w, UpdatePolicy(TLS_ID, obj)).w;
      w.log <= w'.log && PolicyMoved(w, w', if ReadMissed(w, w') then p else [obj] + DropTls(p))
  {
    hide Retry, PrependPolicy;
    RequestLog(w, PatchId(TLS_ID, obj));
    var patched := DoRequest(w, PatchId(TLS_ID, obj)).w;
    PrependServed(patched, obj);
    LogTrans(w, patched, PrependPolicy(patched, obj).w);
  }

  lemma {:induction false} HeadedCount(p: seq<Obj>)
    requires Headed(p)
    ensures IdCount(p, TLS_ID) <= 1
  {
    if p != [] && p[0].id == Some(TLS_ID) {
      var rest := p[1..];
      forall i | 0 <= i < |rest| ensures rest[i].id != Some(TLS_ID) { assert rest[i] == p[i + 1]; }
      NoHead(rest);
    } else {
      NoHead(p);
    }
  }

  lemma PolicyPlanServes(w: World, prev: ObjMap, desired: ObjMap, dels: seq<string>)
    requires w.srv.routes.Some? && IdCount(RouteList(w.srv), TLS_ID) == 0 && Headed(PolicyList(w.srv))
    requires PolicyKeyed(prev) && PolicyKeyed(desired) && Lists(dels, Removed(prev, desired).Keys)
    requires ExecAll(w, PolicyPlan(prev, desired, dels)).ok
    ensures var w' := ExecAll(w, PolicyPlan(prev, desired, dels)).w;
      && w.log <= w'.log && PolicyMoved(w, w', PolicyServed(PolicyList(w.srv), prev, desired, ReadMissed(w, w')))
      && (TLS_ID in Updated(prev, desired) && IdCount(PolicyList(w.srv), TLS_ID) > 0 ==> !ReadMissed(w, w'))
  {
    hide Exec, PolicyPlan, IdCount, Headed;
    var p := PolicyList(w.srv);
    PolicyPlanIsOneOp(prev, desired, dels);
    var ops := PolicyOp(prev, desired);
    HeadedCount(p);
    if ops != [] {
      ExecAllOne(w, ops[0]);
      match ops[0]
      case Del(_) => DeletePolicy(w, RemoveFirst(p, TLS_ID));
      case AddPolicy(obj) => AddServed(w, obj);
      case UpdatePolicy(_, obj) =>
        if IdCount(p, TLS_ID) == 0 { PatchMissing(w, obj); } else { PatchPolicy(w, obj, ReplaceFirst(p, TLS_ID, obj)); }
    }
  }

  lemma AddServed(w: World, obj: Obj)
    requires Exec(w, AddPolicy(obj)).ok
    ensures var p, w' := PolicyList(w.srv), Exec(w, AddPolicy(obj)).w;
      w.log <= w'.log && PolicyMoved(w, w', if ReadMissed(w, w') then p else [obj] + DropTls(p))
  {
    hide PrependPolicy;
    PrependServed(w, obj);
  }

  /* ---------- the route part reads no policies ---------- */

  predicate OnRoutes(op: Op) {
    op.Del? || op.UpdateRoute? || op.AddRoute?
  }

  lemma NoRead(w: World, q: Request)
    requires q != Get(PolicyNode)
    ensures w.log <= DoRequest(w, q).w.log && !ReadRefused(Made(w, DoRequest(w, q).w))
  {
    hide Retry, Serve;
    RetryEffects(w, q, MAX_TRIES);
  }

  lemma OpReadsNot(w: World, op: Op)
    requires OnRoutes(op)
    ensures w.log <= Exec(w, op).w.log && !ReadRefused(Made(w, Exec(w, op).w))
  {
    hide Retry, ReadRefused;
    match op
    case Del(id) => NoRead(w, Delete(id));
    case UpdateRoute(id, obj) =>
      NoRead(w, PatchId(id, obj));
      var patched := DoRequest(w, PatchId(id, obj)).w;
      NoRead(patched, Post(obj));
      LogTrans(w, patched, DoRequest(patched, Post(obj)).w);
    case AddRoute(obj) => NoRead(w, Post(obj));
  }

  lemma {:induction false} OpsReadNot(w: World, ops: seq<Op>)
    requires forall op :: op in ops ==> OnRoutes(op)
    ensures w.log <= ExecAll(w, ops).w.log && !ReadRefused(Made(w, ExecAll(w, ops).w))
  {
    hide Exec, ReadRefused;
    if ops == [] {
      NothingRead(w);
    } else {
      var n := |ops| - 1;
      OpsReadNot(w, ops[..n]);
      var before := ExecAll(w, ops[..n]).w;
      OpReadsNot(before, ops[n]);
      LogTrans(w, before, Exec(before, ops[n]).w);
    }
  }

  lemma NothingRead(w: World)
    ensures !ReadRefused(Made(w, w))
  {
  }

  /* ---------- a whole reconcile ---------- */

  /** Whatever it found, and under any faults: what a reconcile that succeeds leaves of the policies. */
  lemma SuccessServesPolicy(w: World, mem: Memory, want: Memory, o: Orders)
    requires WellFormed(mem) && WellFormed(want) && OrdersFit(mem, want, o)
    requires Sound(w.srv) && Reconcile(w, mem, want, o).ok
    ensures PolicyList(Reconcile(w, mem, want, o).w.srv)
         == PolicyServed(PolicyList(w.srv), mem.policies, want.policies, PolicyMissed(w, mem, want, o))
    ensures TLS_ID in Updated(mem.policies, want.policies) && IdCount(PolicyList(w.srv), TLS_ID) > 0 ==>
      !PolicyMissed(w, mem, want, o)
  {
    hide Exec, ExecAll, EnsureServer, RoutePlan, PolicyPlan, IdCount, AtId, Headed, ReadRefused;
    PrepareKeeps(w, want);
    var p := Prepare(w, want);
    var plan1 := RoutePlan(mem.routes, want.routes, o.routes);
    var plan2 := PolicyPlan(mem.policies, want.policies, o.policies);
    ExecAllConcat(p.w, plan1, plan2);
    var n := RoutePlanHeals(p.w, mem.routes, want.routes, o.routes, "");
    NoTlsAfter(p.w, mem.routes, want.routes, o.routes);
    RoutePlanOnRoutes(mem.routes, want.routes, o.routes);
    OpsReadNot(p.w, plan1);
    var s1 := ExecAll(p.w, plan1);
    assert PolicyList(s1.w.srv) == PolicyList(w.srv);
    PolicyPlanServes(s1.w, mem.policies, want.policies, o.policies);
    LogTrans(p.w, s1.w, ExecAll(s1.w, plan2).w);
  }

  lemma RoutePlanOnRoutes(prev: ObjMap, desired: ObjMap, dels: seq<string>)
    ensures forall op :: op in RoutePlan(prev, desired, dels) ==> OnRoutes(op)
  {
    hide Ascending;
    AscendingLists(Updated(prev, desired).Keys);
  }

  /** ... so it leaves sound lists again. */
  lemma SoundStays(w: World, mem: Memory, want: Memory, o: Orders)
    requires WellFormed(mem) && WellFormed(want) && OrdersFit(mem, want, o)
    requires Sound(w.srv) && Reconcile(w, mem, want, o).ok
    requires Reconcile(w, mem, want, o).w.srv.up && Reconcile(w, mem, want, o).w.srv.routes.Some?
    ensures Sound(Reconcile(w, mem, want, o).w.srv)
  {
    hide Reconcile, IdCount, AtId, Headed, PolicyServed;
    var s := Reconcile(w, mem, want, o).w.srv;
    SuccessServesPolicy(w, mem, want, o);
    ServedSound(PolicyList(w.srv), mem.policies, want.policies, PolicyMissed(w, mem, want, o));
    var n := SuccessHeals(w, mem, want, o, TLS_ID);
    AtIdCount(RouteList(w.srv), TLS_ID);
    AtIdCount(RouteList(s), TLS_ID);
    if TLS_ID in mem.routes || TLS_ID in want.routes { TlsIsNoRoute(TLS_ID); }
  }

  lemma ServedSound(p: seq<Obj>, prev: ObjMap, desired: ObjMap, missed: bool)
    requires Headed(p) && (forall id :: ROUTE_PREFIX <= id ==> IdCount(p, id) == 0) && PolicyKeyed(desired)
    ensures var p' := PolicyServed(p, prev, desired, missed);
      Headed(p') && forall id :: ROUTE_PREFIX <= id ==> IdCount(p', id) == 0
  {
    var p' := PolicyServed(p, prev, desired, missed);
    HeadedCount(p);
    HeadedRemove(p);
    if TLS_ID in desired {
      HeadedReplace(p, desired[TLS_ID]);
      DropTlsHeaded(p, desired[TLS_ID]);
    }
    forall id | ROUTE_PREFIX <= id ensures IdCount(p', id) == 0 {
      TlsIsNoRoute(id);
      RemoveCount(p, TLS_ID, id);
      DropTlsCount(p, id);
      if TLS_ID in desired && IdCount(p, TLS_ID) > 0 { ReplaceCount(p, TLS_ID, desired[TLS_ID], id); }
    }
  }

  /** The policies with our id are as wished. */
  ghost predicate PolicyAsWished(s: Server, want: Memory) {
    AtId(PolicyList(s), TLS_ID) == if TLS_ID in want.policies then [want.policies[TLS_ID]] else []
  }

  lemma {:induction false} AtDropTls(p: seq<Obj>)
    ensures AtId(DropTls(p), TLS_ID) == []
  {
    if p != [] {
      AtDropTls(p[1..]);
      if p[0].id != Some(TLS_ID) { AtHead(p[0], DropTls(p[1..]), TLS_ID); }
    }
  }

  /** After a reconcile that succeeds the policy is right exactly when it was deleted, patched or prepended and no read
      of the list was turned down on the way, or is what was wished all the same. */
  lemma PolicyHealsIff(w: World, mem: Memory, want: Memory, o: Orders)
    requires WellFormed(mem) && WellFormed(want) && OrdersFit(mem, want, o)
    requires Sound(w.srv) && Reconcile(w, mem, want, o).ok
    ensures PolicyAsWished(Reconcile(w, mem, want, o).w.srv, want) <==>
      || TLS_ID in Removed(mem.policies, want.policies)
      || ((TLS_ID in Updated(mem.policies, want.policies) || TLS_ID in Added(mem.policies, want.policies))
          && !PolicyMissed(w, mem, want, o))
      || PolicyAsWished(w.srv, want)
  {
    hide Reconcile, PolicyMissed, AtId;
    var p := PolicyList(w.srv);
    SuccessServesPolicy(w, mem, want, o);
    HeadedCount(p);
    AtIdCount(p, TLS_ID);
    AtRemove(p, TLS_ID, TLS_ID);
    if TLS_ID in want.policies {
      var obj := want.policies[TLS_ID];
      AtDropTls(p);
      AtHead(obj, DropTls(p), TLS_ID);
      if IdCount(p, TLS_ID) > 0 { AtReplace(p, TLS_ID, obj, TLS_ID); }
    }
  }

  /** After a failed attempt, a reconcile with any other wishes that succeeds sets the policy right exactly when it
      deletes it, or patches or prepends it without a read turned down, or the policy found is the one wished. */
  lemma OtherWishesHealPolicy(w0: World, mem: Memory, want0: Memory, o0: Orders,
                              w1: World, want1: Memory, o1: Orders)
    requires WellFormed(mem) && WellFormed(want0) && OrdersFit(mem, want0, o0)
    requires WellFormed(want1) && OrdersFit(mem, want1, o1)
    requires InSync(w0.srv, mem) && !Reconcile(w0, mem, want0, o0).ok
    requires w1.srv == Reconcile(w0, mem, want0, o0).w.srv && Reconcile(w1, mem, want1, o1).ok
    ensures PolicyAsWished(Reconcile(w1, mem, want1, o1).w.srv, want1) <==>
      || TLS_ID in Removed(mem.policies, want1.policies)
      || ((TLS_ID in Updated(mem.policies, want1.policies) || TLS_ID in Added(mem.policies, want1.policies))
          && !PolicyMissed(w1, mem, want1, o1))
      || PolicyAsWished(w1.srv, want1)
  {
    hide Reconcile, Sound, InSync, AtId;
    LeftSound(w0, mem, want0, o0);
    PolicyHealsIff(w1, mem, want1, o1);
  }
}
