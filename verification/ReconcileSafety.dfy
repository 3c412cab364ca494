/** What holds on every run, whatever faults occur and wherever reconciles abort: the
    user's own routes and policies stay as they are, and our policy stays in front. */
module ReconcileSafety {
  import opened Text
  import opened AdminServer
  import opened AdminClient
  import opened Edits
  import opened RouteProgress
  import opened PolicyProgress
  import opened ReconcileProofs
  import opened ReconcileTheorems

  function RouteList(s: Server): seq<Obj> {
    if s.routes.Some? then s.routes.value else []
  }

  /** The user's objects are untouched, in order, and our policy, if any, is still the first. */
  ghost predicate Keeps(s: Server, s': Server) {
    && Foreign(RouteList(s')) == Foreign(RouteList(s))
    && Foreign(PolicyList(s')) == Foreign(PolicyList(s))
    && (Headed(PolicyList(s)) ==> Headed(PolicyList(s')))
    && (s.routes.Some? ==> s.up) == (s'.routes.Some? ==> s'.up)
  }

  /** Requests that only concern objects of ours. */
  ghost predicate Harmless(s: Server, q: Request) {
    match q
    case GetPorts => true
    case Get(_) => true
    case Put(path, body) =>
      Foreign(body) == [] && Headed(body) && (path == ServerNode ==> s.routes.None? || s.up)
    case Delete(id) => OwnedId(id)
    case PatchId(id, obj) => OwnedId(id) && obj.id == Some(id)
    case PatchPolicies(body) => Foreign(body) == Foreign(PolicyList(s)) && Headed(body)
    case Post(obj) => Owned(obj)
  }

  lemma {:induction false} RemoveSplits(p: seq<Obj>, id: string) returns (i: nat)
    requires IdCount(p, id) > 0
    ensures i < |p| && RemoveFirst(p, id) == p[..i] + p[i + 1..]
  {
    if p[0].id == Some(id) {
      i := 0;
    } else {
      var j := RemoveSplits(p[1..], id);
      i := j + 1;
    }
  }

  lemma HeadedRemoveAny(p: seq<Obj>, id: string)
    requires Headed(p) && IdCount(p, id) > 0
    ensures Headed(RemoveFirst(p, id))
  {
    var i := RemoveSplits(p, id);
  }

  lemma {:induction false} HeadedReplaceAny(p: seq<Obj>, id: string, obj: Obj)
    requires Headed(p) && obj.id == Some(id)
    ensures Headed(ReplaceFirst(p, id, obj))
  {
    if id == TLS_ID {
      HeadedReplace(p, obj);
    } else {
      ReplaceKeepsTls(p, id, obj);
    }
  }

  lemma {:induction false} ReplaceKeepsTls(p: seq<Obj>, id: string, obj: Obj)
    requires obj.id == Some(id)
    ensures |ReplaceFirst(p, id, obj)| == |p|
    ensures forall i :: 0 <= i < |p| ==> ReplaceFirst(p, id, obj)[i].id == p[i].id
  {
    if p != [] && p[0].id != Some(id) { ReplaceKeepsTls(p[1..], id, obj); }
  }

  lemma HarmlessKeeps(s: Server, q: Request)
    requires Harmless(s, q)
    ensures Keeps(s, Serve(s, q).0) && Harmless(Serve(s, q).0, q)
  {
    match q
    case GetPorts =>
    case Get(_) =>
    case Put(path, body) =>
    case Delete(id) =>
      ForeignRemove(RouteList(s), id);
      ForeignRemove(PolicyList(s), id);
      if Headed(PolicyList(s)) && IdCount(PolicyList(s), id) > 0 { HeadedRemoveAny(PolicyList(s), id); }
    case PatchId(id, obj) =>
      ForeignReplace(RouteList(s), id, obj);
      ForeignReplace(PolicyList(s), id, obj);
      if Headed(PolicyList(s)) { HeadedReplaceAny(PolicyList(s), id, obj); }
    case PatchPolicies(body) =>
    case Post(obj) =>
      ForeignConcat(RouteList(s), [obj]);
  }

  lemma {:induction false} RetryKeeps(w: World, q: Request, tries: nat)
    requires Harmless(w.srv, q)
    ensures Keeps(w.srv, Retry(w, q, tries).w.srv)
    decreases tries
  {
    hide Serve, Harmless;
    if tries > 0 {
      HarmlessKeeps(w.srv, q);
      RetryKeeps(Attempt(w, q).0, q, tries - 1);
    }
  }

  lemma PutKeeps(w: World, path: Path, body: seq<Obj>)
    requires Harmless(w.srv, Put(path, body))
    ensures Keeps(w.srv, PutNew(w, path, body).w.srv)
  {
    hide Retry;
    RetryKeeps(w, Put(path, body), MAX_TRIES);
  }

  lemma PrependKeeps(w: World, obj: Obj)
    requires obj.id == Some(TLS_ID)
    ensures Keeps(w.srv, PrependPolicy(w, obj).w.srv)
  {
    hide Retry;
    GetOp(w, PolicyNode);
    var got := DoRequest(w, Get(PolicyNode));
    if got.reply.Some? {
      var listed := if got.reply.value.status == 200 then got.reply.value.body else [];
      var merged := [obj] + DropTls(listed);
      ForeignConcat([obj], DropTls(listed));
      ForeignDropTls(listed);
      DropTlsHeaded(listed, obj);
      if got.reply.value.status == 200 {
        RetryKeeps(got.w, PatchPolicies(merged), MAX_TRIES);
        PatchPoliciesOp(got.w, merged);
        var patched := DoRequest(got.w, PatchPolicies(merged));
        if patched.reply.Some? && patched.reply.value.status == 404 {
          assert w.srv.policies.None? && listed == [];
          PutKeeps(patched.w, PolicyNode, merged);
        }
      } else {
        PutKeeps(got.w, PolicyNode, merged);
      }
    }
  }

  ghost predicate HarmlessOp(op: Op) {
    match op
    case Del(id) => OwnedId(id)
    case UpdateRoute(id, obj) => OwnedId(id) && obj.id == Some(id)
    case AddRoute(obj) => Owned(obj)
    case UpdatePolicy(id, obj) => id == TLS_ID && obj.id == Some(id)
    case AddPolicy(obj) => obj.id == Some(TLS_ID)
  }

  lemma ExecKeeps(w: World, op: Op)
    requires HarmlessOp(op)
    ensures Keeps(w.srv, Exec(w, op).w.srv)
  {
    hide Retry;
    match op
    case Del(id) => RetryKeeps(w, Delete(id), MAX_TRIES);
    case UpdateRoute(id, obj) =>
      RetryKeeps(w, PatchId(id, obj), MAX_TRIES);
      RetryKeeps(DoRequest(w, PatchId(id, obj)).w, Post(obj), MAX_TRIES);
    case AddRoute(obj) => RetryKeeps(w, Post(obj), MAX_TRIES);
    case UpdatePolicy(id, obj) =>
      RetryKeeps(w, PatchId(id, obj), MAX_TRIES);
      PrependKeeps(DoRequest(w, PatchId(id, obj)).w, obj);
    case AddPolicy(obj) => PrependKeeps(w, obj);
  }

  lemma {:induction false} ExecAllKeeps(w: World, ops: seq<Op>)
    requires AllHarmless(ops)
    ensures Keeps(w.srv, ExecAll(w, ops).w.srv)
  {
    hide Exec;
    if ops != [] {
      var n := |ops| - 1;
      ExecAllKeeps(w, ops[..n]);
      ExecKeeps(ExecAll(w, ops[..n]).w, ops[n]);
    }
  }

  ghost predicate AllHarmless(ops: seq<Op>) {
    forall op :: op in ops ==> HarmlessOp(op)
  }

  lemma RoutePlanHarmless(prev: ObjMap, desired: ObjMap, dels: seq<string>)
    requires RouteKeyed(prev) && RouteKeyed(desired) && Lists(dels, Removed(prev, desired).Keys)
    ensures AllHarmless(RoutePlan(prev, desired, dels))
  {
    AscendingLists(Updated(prev, desired).Keys);
    var adds := AscendingObjs(Added(prev, desired));
    forall op | op in RouteEdits(prev, desired, dels) ensures HarmlessOp(op) {
      assert op.Del? ==> op.id in dels && op.id in prev;
      assert op.UpdateRoute? ==> op.id in Updated(prev, desired);
    }
    forall op | op in RouteAdds(adds) ensures HarmlessOp(op) {
      assert op.obj in adds;
      AscendingObjsIn(Added(prev, desired), op.obj);
    }
  }

  lemma PolicyPlanHarmless(prev: ObjMap, desired: ObjMap, dels: seq<string>)
    requires PolicyKeyed(prev) && PolicyKeyed(desired) && Lists(dels, Removed(prev, desired).Keys)
    ensures AllHarmless(PolicyPlan(prev, desired, dels))
  {
    PolicyPlanIsOneOp(prev, desired, dels);
    assert OwnedId(TLS_ID);
  }

  lemma EnsureKeeps(w: World, path: Path)
    requires w.srv.routes.Some? ==> w.srv.up
    ensures Keeps(w.srv, EnsureNode(w, path).w.srv)
  {
    hide Retry;
    GetOp(w, path);
    var got := DoRequest(w, Get(path)).w;
    PutKeeps(got, path, []);
    RequestLog(got, GetPorts);
    PutKeeps(DoRequest(got, GetPorts).w, path, []);
  }

  lemma EnsureServerKeeps(w: World)
    requires w.srv.routes.Some? ==> w.srv.up
    ensures Keeps(w.srv, EnsureServer(w).w.srv)
  {
    EnsureKeeps(w, ServerNode);
    var s1 := EnsureNode(w, ServerNode);
    EnsureKeeps(s1.w, RouteNode);
    EnsureKeeps(EnsureNode(s1.w, RouteNode).w, PolicyNode);
  }

  /** One reconcile, from any server state, whatever the client remembers. */
  lemma ReconcileKeeps(w: World, mem: Memory, want: Memory, o: Orders)
    requires WellFormed(mem) && WellFormed(want) && OrdersFit(mem, want, o)
    requires w.srv.routes.Some? ==> w.srv.up
    ensures Keeps(w.srv, Reconcile(w, mem, want, o).w.srv)
  {
    EnsureServerKeeps(w);
    RoutePlanHarmless(mem.routes, want.routes, o.routes);
    PolicyPlanHarmless(mem.policies, want.policies, o.policies);
    ExecAllKeeps(Prepare(w, want).w, FullPlan(mem, want, o));
  }

  /* ---------- runs ---------- */

  datatype Call = Call(want: Memory, orders: Orders)
  datatype Client = Client(w: World, mem: Memory)

  ghost function After(c: Client, call: Call): Client {
    Client(Reconcile(c.w, c.mem, call.want, call.orders).w, MemoryAfter(c.w, c.mem, call.want, call.orders))
  }

  ghost function Run(c: Client, calls: seq<Call>): Client {
    if calls == [] then c else After(Run(c, calls[..|calls| - 1]), calls[|calls| - 1])
  }

  /** The wishes come from the builder, and each delete order fits what was remembered. */
  ghost predicate RunFits(c: Client, calls: seq<Call>) {
    && WellFormed(c.mem)
    && forall i :: 0 <= i < |calls| ==>
         WellFormed(calls[i].want) && OrdersFit(Run(c, calls[..i]).mem, calls[i].want, calls[i].orders)
  }

  lemma RunPrefix(c: Client, calls: seq<Call>)
    requires RunFits(c, calls) && calls != []
    ensures RunFits(c, calls[..|calls| - 1])
  {
    var front := calls[..|calls| - 1];
    forall i | 0 <= i < |front| ensures front[..i] == calls[..i] {}
  }

  /** On every run of reconciles, with any requests failing at any point, the user's routes
      and policies keep their content and order, and at most one policy is ours, at the head. */
  lemma {:induction false} RunKeeps(c: Client, calls: seq<Call>)
    requires RunFits(c, calls) && (c.w.srv.routes.Some? ==> c.w.srv.up)
    ensures Keeps(c.w.srv, Run(c, calls).w.srv) && WellFormed(Run(c, calls).mem)
  {
    if calls != [] {
      var n := |calls| - 1;
      RunPrefix(c, calls);
      RunKeeps(c, calls[..n]);
      var d := Run(c, calls[..n]);
      ReconcileKeeps(d.w, d.mem, calls[n].want, calls[n].orders);
    }
  }

  ghost predicate Succeeds(c: Client, call: Call) {
    && Reconcile(c.w, c.mem, call.want, call.orders).ok
    && !PolicyMissed(c.w, c.mem, call.want, call.orders)
  }

  /** On every run of successful reconciles the server stays in step with what was last wished. */
  lemma {:induction false} RunInSync(c: Client, calls: seq<Call>)
    requires RunFits(c, calls) && InSync(c.w.srv, c.mem)
    requires forall i :: 0 <= i < |calls| ==> Succeeds(Run(c, calls[..i]), calls[i])
    ensures InSync(Run(c, calls).w.srv, Run(c, calls).mem)
    ensures calls != [] ==> Run(c, calls).mem == calls[|calls| - 1].want
    ensures WellFormed(Run(c, calls).mem)
  {
    hide Reconcile, InSync, WellFormed, OrdersFit, PolicyMissed;
    if calls != [] {
      var n := |calls| - 1;
      var front := calls[..n];
      RunPrefix(c, calls);
      forall i | 0 <= i < n ensures front[..i] == calls[..i] {}
      RunInSync(c, front);
      var d := Run(c, front);
      SuccessRefines(d.w, d.mem, calls[n].want, calls[n].orders);
    }
  }
}
