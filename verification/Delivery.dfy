/** Retries are invisible, a quiet network means success with one request per
    difference, and the two ways a reconcile can leave the server wrong. */
module Delivery {
  import opened Text
  import opened AdminServer
  import opened AdminClient
  import opened Edits
  import opened RouteProgress
  import opened PolicyProgress
  import opened ReconcileProofs
  import opened ReconcileTheorems
  import opened ReconcileSafety

  /* ---------- at-least-once delivery ---------- */

  /** The statuses the client takes for success. */
  predicate Accepts(q: Request, status: int) {
    match q
    case GetPorts => true
    case Get(_) => true
    case Put(_, _) => status == 409 || IsSuccess(status)
    case Delete(_) => status in {200, 204, 404}
    case PatchId(_, _) => IsSuccess(status)
    case PatchPolicies(_) => IsSuccess(status)
    case Post(_) => IsSuccess(status)
  }

  /** The server and the last reply after `q` arrived `n` times. */
  function Arrive(s: Server, q: Request, n: nat): (Server, Reply)
    requires n > 0
  {
    Serve(ServedTimes(s, q, n - 1), q)
  }

  ghost predicate Retriable(s: Server, q: Request) {
    && !q.Post?
    && (q.PatchId? ==> q.obj.id == Some(q.id))
    && (q.Delete? ==> IdCount(RouteList(s), q.id) + IdCount(PolicyList(s), q.id) <= 1)
  }

  lemma RemoveTwiceDiffers(r: seq<Obj>, id: string)
    requires IdCount(r, id) >= 2
    ensures RemoveFirst(RemoveFirst(r, id), id) != RemoveFirst(r, id)
  {
    RemoveCount(r, id, id);
    RemoveCount(RemoveFirst(r, id), id, id);
  }

  /** A repeated DELETE is harmless exactly when its id occurs at most once on the server. */
  lemma DeleteRepeatable(s: Server, id: string)
    ensures Idempotent(s, Delete(id)) <==> IdCount(RouteList(s), id) + IdCount(PolicyList(s), id) <= 1
  {
    var r, p := RouteList(s), PolicyList(s);
    RemoveCount(r, id, id);
    RemoveCount(p, id, id);
    if IdCount(r, id) >= 2 {
      RemoveTwiceDiffers(r, id);
    } else if IdCount(r, id) == 1 && IdCount(p, id) >= 1 {
      assert IdCount(RemoveFirst(p, id), id) != IdCount(p, id);
    } else if IdCount(r, id) == 0 && IdCount(p, id) >= 2 {
      RemoveTwiceDiffers(p, id);
    }
  }

  lemma RetriableIdempotent(s: Server, q: Request)
    requires Retriable(s, q)
    ensures Idempotent(s, q)
  {
    if q.Delete? { DeleteRepeatable(s, q.id); }
    if q.PatchId? {
      ReplaceTwice(RouteList(s), q.id, q.obj);
      ReplaceTwice(PolicyList(s), q.id, q.obj);
      ReplaceCount(RouteList(s), q.id, q.obj, q.id);
      ReplaceCount(PolicyList(s), q.id, q.obj, q.id);
    }
  }

  lemma SameVerdict(s: Server, q: Request)
    requires Retriable(s, q)
    ensures Accepts(q, Serve(Serve(s, q).0, q).1.status) <==> Accepts(q, Serve(s, q).1.status)
  {
    if q.PatchId? {
      ReplaceCount(RouteList(s), q.id, q.obj, q.id);
      ReplaceCount(PolicyList(s), q.id, q.obj, q.id);
    }
  }

  /** Any number of deliveries leaves the server, and the client's verdict, as one does. */
  lemma {:induction false} ArriveOnce(s: Server, q: Request, n: nat)
    requires n > 0 && Retriable(s, q)
    ensures Arrive(s, q, n).0 == Serve(s, q).0
    ensures Accepts(q, Arrive(s, q, n).1.status) <==> Accepts(q, Serve(s, q).1.status)
  {
    if n > 1 {
      ArriveOnce(s, q, n - 1);
      RetriableIdempotent(s, q);
      SameVerdict(s, q);
    }
  }

  lemma AcceptedTook(srv: Server, q: Request, last: Fault, took: bool, reply: Reply)
    requires AnsweredBy(srv, q, last, took, reply) && !q.Get? && !q.GetPorts?
    requires Accepts(q, reply.status)
    ensures took && last.Deliver?
  {
  }

  /** An accepted answer, after however many lost ones, means the effect of one delivery. */
  lemma AtLeastOnce(w: World, q: Request)
    requires Retriable(w.srv, q) && !q.Get? && !q.GetPorts?
    requires DoRequest(w, q).reply.Some? && Accepts(q, DoRequest(w, q).reply.value.status)
    ensures DoRequest(w, q).w.srv == Serve(w.srv, q).0 && Accepts(q, Serve(w.srv, q).1.status)
  {
    var s := DoRequest(w, q);
    assert DeliveredOnce(w, q, s) by {
      RetriableIdempotent(w.srv, q);
      RetryOutcome(w, q, MAX_TRIES);
    }
    var made := Made(w, s.w);
    AcceptedTook(w.srv, q, made[|made| - 1].fault, Took(made), s.reply.value);
    SameVerdict(w.srv, q);
  }

  /* ---------- no faults ---------- */

  function Tail(script: seq<Fault>): seq<Fault> {
    if script == [] then [] else script[1..]
  }

  lemma CleanRequest(w: World, q: Request)
    requires w.script == [] || w.script[0] == Deliver
    ensures DoRequest(w, q)
         == Served(World(Serve(w.srv, q).0, Tail(w.script), w.log + [Entry(q, Deliver)]), Some(Serve(w.srv, q).1))
  {
  }

  function RouteRequest(op: Op): Request {
    match op
    case Del(id) => Delete(id)
    case UpdateRoute(id, obj) => PatchId(id, obj)
    case UpdatePolicy(id, obj) => PatchId(id, obj)
    case AddRoute(obj) => Post(obj)
    case AddPolicy(obj) => Get(PolicyNode)
  }

  /** One delivered request per operation. */
  function CleanLog(ops: seq<Op>): seq<Entry> {
    seq(|ops|, i requires 0 <= i < |ops| => Entry(RouteRequest(ops[i]), Deliver))
  }

  ghost predicate RanClean(w: World, ops: seq<Op>) {
    var s := ExecAll(w, ops);
    s.ok && s.w.script == [] && s.w.log == w.log + CleanLog(ops)
  }

  lemma RanCleanStep(w: World, ops: seq<Op>)
    requires ops != [] && RanClean(w, ops[..|ops| - 1])
    requires var s := ExecAll(w, ops[..|ops| - 1]); var t := Exec(s.w, ops[|ops| - 1]);
      t.ok && t.w.script == [] && t.w.log == s.w.log + [Entry(RouteRequest(ops[|ops| - 1]), Deliver)]
    ensures RanClean(w, ops)
  {
    assert CleanLog(ops) == CleanLog(ops[..|ops| - 1]) + [Entry(RouteRequest(ops[|ops| - 1]), Deliver)];
  }

  ghost predicate SameCounts(s: Server, s': Server, except: set<string>) {
    && s.routes.Some? && s'.routes.Some?
    && forall id :: id !in except ==> IdCount(RouteList(s'), id) == IdCount(RouteList(s), id)
  }

  lemma {:induction false} CleanDeletes(w: World, ids: seq<string>)
    requires w.script == [] && w.srv.routes.Some?
    ensures RanClean(w, Deletes(ids))
    ensures SameCounts(w.srv, ExecAll(w, Deletes(ids)).w.srv, Elems(ids))
  {
    if ids != [] {
      var n := |ids| - 1;
      assert Deletes(ids)[..n] == Deletes(ids[..n]);
      CleanDeletes(w, ids[..n]);
      var s := ExecAll(w, Deletes(ids[..n]));
      CleanRequest(s.w, Delete(ids[n]));
      RanCleanStep(w, Deletes(ids));
      forall id | id !in Elems(ids) ensures id != ids[n] && id !in Elems(ids[..n]) {
        assert ids[n] in ids;
      }
      forall id | id != ids[n]
        ensures IdCount(RouteList(Exec(s.w, Del(ids[n])).w.srv), id) == IdCount(RouteList(s.w.srv), id)
      {
        RemoveCount(RouteList(s.w.srv), ids[n], id);
      }
    }
  }

  lemma {:induction false} CleanUpdates(w: World, ids: seq<string>, m: ObjMap)
    requires w.script == [] && w.srv.routes.Some? && Keyed(m)
    requires forall id :: id in ids ==> id in m && IdCount(RouteList(w.srv), id) > 0
    ensures RanClean(w, RouteUpdates(ids, m))
    ensures SameCounts(w.srv, ExecAll(w, RouteUpdates(ids, m)).w.srv, {})
  {
    if ids != [] {
      var n := |ids| - 1;
      var id := ids[n];
      assert RouteUpdates(ids, m)[..n] == RouteUpdates(ids[..n], m);
      CleanUpdates(w, ids[..n], m);
      var s := ExecAll(w, RouteUpdates(ids[..n], m));
      CleanRequest(s.w, PatchId(id, m[id]));
      RanCleanStep(w, RouteUpdates(ids, m));
      forall other
        ensures IdCount(ReplaceFirst(RouteList(s.w.srv), id, m[id]), other) == IdCount(RouteList(s.w.srv), other)
      {
        ReplaceCount(RouteList(s.w.srv), id, m[id], other);
      }
    }
  }

  lemma {:induction false} CleanAdds(w: World, objs: seq<Obj>)
    requires w.script == [] && w.srv.routes.Some?
    ensures RanClean(w, RouteAdds(objs)) && ExecAll(w, RouteAdds(objs)).w.srv.routes.Some?
  {
    if objs != [] {
      var n := |objs| - 1;
      assert RouteAdds(objs)[..n] == RouteAdds(objs[..n]);
      CleanAdds(w, objs[..n]);
      CleanRequest(ExecAll(w, RouteAdds(objs[..n])).w, Post(objs[n]));
      RanCleanStep(w, RouteAdds(objs));
    }
  }

  lemma CleanLogConcat(a: seq<Op>, b: seq<Op>)
    ensures CleanLog(a + b) == CleanLog(a) + CleanLog(b)
  {
    var l, r := CleanLog(a + b), CleanLog(a) + CleanLog(b);
    forall i | 0 <= i < |l| ensures l[i] == r[i] {
      assert (a + b)[i] == if i < |a| then a[i] else b[i - |a|];
    }
  }

  lemma RanCleanConcat(w: World, a: seq<Op>, b: seq<Op>)
    requires RanClean(w, a) && RanClean(ExecAll(w, a).w, b)
    ensures RanClean(w, a + b)
  {
    ExecAllConcat(w, a, b);
    CleanLogConcat(a, b);
    assert w.log + CleanLog(a) + CleanLog(b) == w.log + (CleanLog(a) + CleanLog(b));
  }

  /** Without faults, the route part makes exactly one request per removed, changed or
      added route, and none for the others. */
  lemma CleanRoutePlan(w: World, prev: ObjMap, desired: ObjMap, dels: seq<string>)
    requires w.script == [] && w.srv.routes.Some? && Patchable(RouteList(w.srv), prev, desired)
    requires RouteKeyed(prev) && RouteKeyed(desired) && Lists(dels, Removed(prev, desired).Keys)
    ensures RanClean(w, RoutePlan(prev, desired, dels))
    ensures |ExecAll(w, RoutePlan(prev, desired, dels)).w.log| - |w.log|
         == |Removed(prev, desired)| + |Updated(prev, desired)| + |Added(prev, desired)|
  {
    hide Exec, ExecAll, SameCounts;
    var updated := Updated(prev, desired);
    AscendingLists(updated.Keys);
    ListsMultiset(dels, Removed(prev, desired).Keys);
    var a, b := Deletes(dels), RouteUpdates(Ascending(updated.Keys), updated);
    var c := RouteAdds(AscendingObjs(Added(prev, desired)));
    CleanDeletes(w, dels);
    var w1 := ExecAll(w, a).w;
    forall id | id in Ascending(updated.Keys) ensures id in updated && IdCount(RouteList(w1.srv), id) > 0 {
      assert IdCount(RouteList(w.srv), id) == 1;
      assert id !in Elems(dels) by { ElemsOfListing(dels, Removed(prev, desired).Keys); }
    }
    CleanUpdates(w1, Ascending(updated.Keys), updated);
    RanCleanConcat(w, a, b);
    CleanAdds(ExecAll(w1, b).w, AscendingObjs(Added(prev, desired)));
    ExecAllConcat(w, a, b);
    RanCleanConcat(w, a + b, c);
  }

  /** Everything between the two worlds was delivered, and no fault is to come. */
  ghost predicate AllClean(w: World, w': World) {
    && w.log <= w'.log && w'.script == []
    && forall e :: e in Made(w, w') ==> e.fault.Deliver?
  }

  lemma AllCleanTrans(w: World, w1: World, w2: World)
    requires AllClean(w, w1) && AllClean(w1, w2)
    ensures AllClean(w, w2)
  {
    assert Made(w, w2) == Made(w, w1) + Made(w1, w2);
  }

  lemma RequestAllClean(w: World, q: Request)
    requires w.script == []
    ensures AllClean(w, DoRequest(w, q).w)
  {
    CleanRequest(w, q);
    assert Made(w, DoRequest(w, q).w) == [Entry(q, Deliver)];
  }

  lemma CleanNode(w: World, path: Path)
    requires w.script == []
    ensures EnsureNode(w, path).ok && AllClean(w, EnsureNode(w, path).w)
  {
    hide Retry;
    RequestAllClean(w, Get(path));
    CleanRequest(w, Get(path));
    var got := DoRequest(w, Get(path)).w;
    RequestAllClean(got, GetPorts);
    CleanRequest(got, GetPorts);
    var ports := if path == ServerNode then DoRequest(got, GetPorts).w else got;
    RequestAllClean(ports, Put(path, []));
    CleanRequest(ports, Put(path, []));
    if path == ServerNode { AllCleanTrans(w, got, ports); }
    AllCleanTrans(w, ports, DoRequest(ports, Put(path, [])).w);
  }

  lemma CleanEnsure(w: World)
    requires w.script == []
    ensures EnsureServer(w).ok && AllClean(w, EnsureServer(w).w)
  {
    hide EnsureNode;
    CleanNode(w, ServerNode);
    var s1 := EnsureNode(w, ServerNode);
    CleanNode(s1.w, RouteNode);
    var s2 := EnsureNode(s1.w, RouteNode);
    CleanNode(s2.w, PolicyNode);
    AllCleanTrans(w, s1.w, s2.w);
    AllCleanTrans(w, s2.w, EnsureNode(s2.w, PolicyNode).w);
  }

  lemma CleanPrepend(w: World, obj: Obj)
    requires w.script == []
    ensures PrependPolicy(w, obj).ok && AllClean(w, PrependPolicy(w, obj).w)
  {
    RequestAllClean(w, Get(PolicyNode));
    var got := DoRequest(w, Get(PolicyNode));
    var listed := if got.reply.value.status == 200 then got.reply.value.body else [];
    var merged := [obj] + DropTls(listed);
    RequestAllClean(got.w, PatchPolicies(merged));
    RequestAllClean(got.w, Put(PolicyNode, merged));
    var patched := DoRequest(got.w, PatchPolicies(merged)).w;
    RequestAllClean(patched, Put(PolicyNode, merged));
    AllCleanTrans(w, got.w, patched);
    AllCleanTrans(w, got.w, DoRequest(got.w, Put(PolicyNode, merged)).w);
    AllCleanTrans(w, patched, DoRequest(patched, Put(PolicyNode, merged)).w);
  }

  /** Without faults every operation succeeds, whatever it finds. */
  lemma QuietOp(w: World, op: Op)
    requires w.script == [] && w.srv.routes.Some?
    ensures var s := Exec(w, op); s.ok && AllClean(w, s.w) && s.w.srv.routes.Some? && s.w.srv.up == w.srv.up
  {
    hide DoRequest, PrependPolicy;
    match op
    case Del(id) => QuietRequest(w, Delete(id));
    case UpdateRoute(id, obj) =>
      QuietRequest(w, PatchId(id, obj));
      var patched := DoRequest(w, PatchId(id, obj)).w;
      QuietRequest(patched, Post(obj));
      AllCleanTrans(w, patched, DoRequest(patched, Post(obj)).w);
    case AddRoute(obj) => QuietRequest(w, Post(obj));
    case UpdatePolicy(id, obj) =>
      QuietRequest(w, PatchId(id, obj));
      var patched := DoRequest(w, PatchId(id, obj)).w;
      QuietPrepend(patched, obj);
      AllCleanTrans(w, patched, PrependPolicy(patched, obj).w);
    case AddPolicy(obj) => QuietPrepend(w, obj);
  }

  lemma QuietRequest(w: World, q: Request)
    requires w.script == [] && w.srv.routes.Some? && (q.Put? ==> q.path == PolicyNode)
    ensures var s := DoRequest(w, q);
      && s.reply == Some(Serve(w.srv, q).1) && AllClean(w, s.w)
      && s.w.srv == Serve(w.srv, q).0 && s.w.srv.routes.Some? && s.w.srv.up == w.srv.up
  {
    RequestAllClean(w, q);
    CleanRequest(w, q);
  }

  lemma QuietPrepend(w: World, obj: Obj)
    requires w.script == [] && w.srv.routes.Some?
    ensures var s := PrependPolicy(w, obj);
      && s.ok && AllClean(w, s.w) && s.w.srv.routes.Some? && s.w.srv.up == w.srv.up
  {
    hide DoRequest;
    CleanPrepend(w, obj);
    QuietRequest(w, Get(PolicyNode));
    var got := DoRequest(w, Get(PolicyNode));
    var merged := [obj] + DropTls(if got.reply.value.status == 200 then got.reply.value.body else []);
    QuietRequest(got.w, PatchPolicies(merged));
    QuietRequest(got.w, Put(PolicyNode, merged));
    QuietRequest(DoRequest(got.w, PatchPolicies(merged)).w, Put(PolicyNode, merged));
  }

  lemma {:induction false} QuietOps(w: World, ops: seq<Op>)
    requires w.script == [] && w.srv.routes.Some?
    ensures var s := ExecAll(w, ops); s.ok && AllClean(w, s.w) && s.w.srv.routes.Some? && s.w.srv.up == w.srv.up
  {
    hide Exec;
    if ops == [] {
      assert Made(w, w) == [];
    } else {
      var n := |ops| - 1;
      QuietOps(w, ops[..n]);
      var before := ExecAll(w, ops[..n]).w;
      QuietOp(before, ops[n]);
      AllCleanTrans(w, before, Exec(before, ops[n]).w);
    }
  }

  lemma CleanNotRefused(w: World, w': World)
    requires AllClean(w, w')
    ensures w.log <= w'.log && w'.script == [] && !ReadRefused(Made(w, w'))
  {
  }

  /** Without faults, a reconcile succeeds from any lists. */
  lemma QuietReconcile(w: World, mem: Memory, want: Memory, o: Orders)
    requires w.script == [] && w.srv.up && w.srv.routes.Some?
    ensures var s := Reconcile(w, mem, want, o);
      && s.ok && !PolicyMissed(w, mem, want, o)
      && s.w.script == [] && s.w.srv.up && s.w.srv.routes.Some?
  {
    hide ExecAll, EnsureServer, FullPlan, AllClean;
    PrepareKeeps(w, want);
    CleanEnsure(w);
    var p := Prepare(w, want);
    assert p.w.script == [] by { if |want.routes| > 0 { CleanNotRefused(w, p.w); } }
    QuietOps(p.w, FullPlan(mem, want, o));
    CleanNotRefused(p.w, Reconcile(w, mem, want, o).w);
  }

  /** Without faults, a reconcile from a server in step succeeds and arrives. */
  lemma QuietNetworkArrives(w: World, mem: Memory, want: Memory, o: Orders)
    requires w.script == [] && WellFormed(mem) && WellFormed(want) && OrdersFit(mem, want, o) && InSync(w.srv, mem)
    ensures Reconcile(w, mem, want, o).ok && !PolicyMissed(w, mem, want, o)
    ensures Arrived(Reconcile(w, mem, want, o).w.srv, OriginOf(w.srv), mem, want)
    ensures InSync(Reconcile(w, mem, want, o).w.srv, want)
  {
    hide Reconcile, PolicyMissed;
    QuietReconcile(w, mem, want, o);
    SuccessRefines(w, mem, want, o);
  }

  /** After any failed attempt, whatever befell it, a rerun without faults reports success. It
      repairs everything if and only if no POST of the failed attempt took effect. */
  lemma QuietRerun(w0: World, mem: Memory, want: Memory, o0: Orders, w1: World, o1: Orders)
    requires WellFormed(mem) && WellFormed(want) && OrdersFit(mem, want, o0) && OrdersFit(mem, want, o1)
    requires InSync(w0.srv, mem) && !Reconcile(w0, mem, want, o0).ok
    requires w1.srv == Reconcile(w0, mem, want, o0).w.srv && w1.script == []
    ensures var failed := Reconcile(w0, mem, want, o0).w; var again := Reconcile(w1, mem, want, o1);
      && again.ok && w0.log <= failed.log
      && (!Posted(Made(w0, failed)) <==> InSync(again.w.srv, want))
  {
    hide Reconcile, PolicyMissed, Headed, PartialRoutes, FinalPolicies, Posted;
    StartsHalfway(w0.srv, mem, want);
    var at := ReconcileFrom(w0, OriginOf(w0.srv), mem, want, o0, Progress({}, {}, 0));
    QuietReconcile(w1, mem, want, o1);
    RerunRepairs(w0, mem, want, o0, w1, o1);
  }
}
