/** What a reconcile that succeeds does to the objects with one id, whatever it found: which ids it heals,
    and which it leaves wrong, for now or for good. */
module Healing {
  import opened Text
  import opened Lines
  import opened AdminServer
  import opened AdminClient
  import opened Edits
  import opened RouteProgress
  import opened PolicyProgress
  import opened ReconcileProofs
  import opened ReconcileTheorems
  import opened ReconcileSafety
  import opened Delivery

  /* ---------- the objects with one id ---------- */

  function AtId(r: seq<Obj>, id: string): seq<Obj> {
    if r == [] then [] else (if r[0].id == Some(id) then [r[0]] else []) + AtId(r[1..], id)
  }

  lemma {:induction false} AtIdCount(r: seq<Obj>, id: string)
    ensures |AtId(r, id)| == IdCount(r, id)
  {
    if r != [] { AtIdCount(r[1..], id); }
  }

  /** Without the first one. */
  function AfterFirst(at: seq<Obj>): seq<Obj> {
    if at == [] then [] else at[1..]
  }

  lemma {:induction false} AtRemove(r: seq<Obj>, x: string, id: string)
    ensures AtId(RemoveFirst(r, x), id) == if x == id then AfterFirst(AtId(r, id)) else AtId(r, id)
  {
    if r != [] && r[0].id != Some(x) {
      AtRemove(r[1..], x, id);
      AtHead(r[0], RemoveFirst(r[1..], x), id);
    }
  }

  lemma {:induction false} AtReplace(r: seq<Obj>, x: string, obj: Obj, id: string)
    requires IdCount(r, x) > 0 && obj.id == Some(x)
    ensures AtId(ReplaceFirst(r, x, obj), id) == if x == id then [obj] + AfterFirst(AtId(r, id)) else AtId(r, id)
  {
    if r[0].id == Some(x) {
      AtHead(obj, r[1..], id);
    } else {
      AtReplace(r[1..], x, obj, id);
      AtHead(r[0], ReplaceFirst(r[1..], x, obj), id);
    }
  }

  lemma {:induction false} AtConcat(a: seq<Obj>, b: seq<Obj>, id: string)
    ensures AtId(a + b, id) == AtId(a, id) + AtId(b, id)
  {
    if a == [] {
      NothingAdded(b);
      NothingAdded(AtId(b, id));
    } else {
      AtConcat(a[1..], b, id);
      Rejoined(a);
      Associates([a[0]], a[1..], b);
      Associates(if a[0].id == Some(id) then [a[0]] else [], AtId(a[1..], id), AtId(b, id));
      AtHead(a[0], a[1..] + b, id);
    }
  }

  lemma AtHead(o: Obj, r: seq<Obj>, id: string)
    ensures AtId([o] + r, id) == (if o.id == Some(id) then [o] else []) + AtId(r, id)
  {
    HeadTail(o, r);
  }

  lemma AtAppend(r: seq<Obj>, obj: Obj, id: string)
    ensures AtId(r + [obj], id) == AtId(r, id) + if obj.id == Some(id) then [obj] else []
  {
    AtConcat(r, [obj], id);
    assert [obj][1..] == [];
  }

  /* ---------- one operation on routes ---------- */

  /** No route id among the policies. */
  ghost predicate Apart(s: Server) {
    s.routes.Some? && forall id :: ROUTE_PREFIX <= id ==> IdCount(PolicyList(s), id) == 0
  }

  /** Nothing but the routes has changed. */
  ghost predicate RoutesOnly(s: Server, s': Server) {
    s'.routes.Some? && s' == s.(routes := s'.routes)
  }

  lemma ApartStays(s: Server, s': Server)
    requires Apart(s) && RoutesOnly(s, s')
    ensures Apart(s')
  {
    assert PolicyList(s') == PolicyList(s);
  }

  function RemoveTimes(r: seq<Obj>, x: string, n: nat): seq<Obj> {
    if n == 0 then r else RemoveFirst(RemoveTimes(r, x, n - 1), x)
  }

  /** Without the first `n`, as far as there are any. */
  function Without(at: seq<Obj>, n: nat): seq<Obj> {
    if n == 0 then at else AfterFirst(Without(at, n - 1))
  }

  lemma {:induction false} WithoutLength(at: seq<Obj>, n: nat)
    ensures |Without(at, n)| == if |at| > n then |at| - n else 0
  {
    if n > 0 { WithoutLength(at, n - 1); }
  }

  lemma {:induction false} AtRemoveTimes(r: seq<Obj>, x: string, n: nat, id: string)
    ensures AtId(RemoveTimes(r, x, n), id) == if x == id then Without(AtId(r, id), n) else AtId(r, id)
  {
    if n > 0 {
      AtRemoveTimes(r, x, n - 1, id);
      AtRemove(RemoveTimes(r, x, n - 1), x, id);
    }
  }

  lemma {:induction false} DeleteTimes(s: Server, x: string, n: nat)
    requires Apart(s) && ROUTE_PREFIX <= x
    ensures ServedTimes(s, Delete(x), n) == s.(routes := Some(RemoveTimes(s.routes.value, x, n)))
  {
    if n > 0 {
      DeleteTimes(s, x, n - 1);
      var r := RemoveTimes(s.routes.value, x, n - 1);
      var before := s.(routes := Some(r));
      ApartStays(s, before);
      assert IdCount(PolicyList(before), x) == 0 && before.policies == s.policies;
      if IdCount(r, x) == 0 { RemoveAbsent(r, x); }
    }
  }

  lemma {:induction false} LandedBound(made: seq<Entry>)
    ensures Landed(made) <= |made|
  {
    if made != [] { LandedBound(made[1..]); }
  }

  /** A DELETE that is accepted has taken as many copies as attempts took effect: one if nothing was lost. */
  lemma DeleteServed(w: World, x: string) returns (n: nat)
    requires Apart(w.srv) && ROUTE_PREFIX <= x && Exec(w, Del(x)).ok
    ensures 1 <= n <= MAX_TRIES && (w.script == [] ==> n == 1)
    ensures Exec(w, Del(x)).w.srv == w.srv.(routes := Some(RemoveTimes(w.srv.routes.value, x, n)))
  {
    hide Retry, Serve;
    RetryEffects(w, Delete(x), MAX_TRIES);
    var made := Made(w, DoDelete(w, x).w);
    n := Landed(made);
    LandedBound(made);
    DeleteTimes(w.srv, x, n);
    if w.script == [] {
      CleanRequest(w, Delete(x));
      assert made == [Entry(Delete(x), Deliver)] && made[1..] == [];
    }
  }

  /** A PATCH that finds nothing is followed by a POST. */
  lemma UpdateMissing(w: World, x: string, obj: Obj)
    requires w.srv.routes.Some? && IdCount(w.srv.routes.value, x) == 0 && IdCount(PolicyList(w.srv), x) == 0
    requires Exec(w, UpdateRoute(x, obj)).ok
    ensures Exec(w, UpdateRoute(x, obj)).w.srv == Serve(w.srv, Post(obj)).0
  {
    hide Retry;
    RequestLog(w, PatchId(x, obj));
    AddOp(DoRequest(w, PatchId(x, obj)).w, obj);
  }

  /** An update replaces the first copy, or adds one if there is none. */
  lemma UpdateServed(w: World, x: string, obj: Obj, id: string)
    requires Apart(w.srv) && ROUTE_PREFIX <= x && obj.id == Some(x) && Exec(w, UpdateRoute(x, obj)).ok
    ensures var s := Exec(w, UpdateRoute(x, obj)).w.srv; var at := AtId(RouteList(w.srv), id);
      && s.routes.Some? && s == w.srv.(routes := s.routes)
      && AtId(RouteList(s), id) == if x == id then [obj] + AfterFirst(at) else at
  {
    hide Exec;
    var r := w.srv.routes.value;
    AtIdCount(r, x);
    if IdCount(r, x) == 0 {
      UpdateMissing(w, x, obj);
      AtAppend(r, obj, id);
    } else {
      UpdateOp(w, x, obj);
      AtReplace(r, x, obj, id);
    }
  }

  /* ---------- the three loops over routes ---------- */

  lemma {:induction false} DeletesHeal(w: World, ids: seq<string>, id: string) returns (n: nat)
    requires Apart(w.srv) && NoDup(ids) && (forall x :: x in ids ==> ROUTE_PREFIX <= x) && ExecAll(w, Deletes(ids)).ok
    ensures 1 <= n <= MAX_TRIES && (w.script == [] ==> n == 1)
    ensures var s := ExecAll(w, Deletes(ids)).w.srv; var at := AtId(RouteList(w.srv), id);
      RoutesOnly(w.srv, s) && AtId(RouteList(s), id) == if id in ids then Without(at, n) else at
  {
    hide Exec, AtId, Without, NoDup;
    n := 1;
    if ids != [] {
      var k := |ids| - 1;
      FrontOf(ids);
      assert Deletes(ids)[..k] == Deletes(ids[..k]);
      n := DeletesHeal(w, ids[..k], id);
      var before := ExecAll(w, Deletes(ids[..k])).w;
      ApartStays(w.srv, before.srv);
      if w.script == [] { StaysQuiet(w, Deletes(ids[..k])); }
      var m := DeleteServed(before, ids[k]);
      AtRemoveTimes(RouteList(before.srv), ids[k], m, id);
      if ids[k] == id { n := m; }
    }
  }

  lemma StaysQuiet(w: World, ops: seq<Op>)
    requires w.script == [] && w.srv.routes.Some?
    ensures ExecAll(w, ops).w.script == []
  {
    QuietOps(w, ops);
  }

  lemma {:induction false} UpdatesHeal(w: World, ids: seq<string>, m: ObjMap, id: string)
    requires Apart(w.srv) && Keyed(m) && (forall x :: x in ids ==> x in m && ROUTE_PREFIX <= x)
    requires ExecAll(w, RouteUpdates(ids, m)).ok
    ensures var s := ExecAll(w, RouteUpdates(ids, m)).w.srv; var at := AtId(RouteList(w.srv), id);
      RoutesOnly(w.srv, s) && AtId(RouteList(s), id) == if id in ids then [m[id]] + AfterFirst(at) else at
  {
    hide Exec, AtId;
    if ids != [] {
      var k := |ids| - 1;
      FrontOf(ids);
      assert RouteUpdates(ids, m)[..k] == RouteUpdates(ids[..k], m);
      UpdatesHeal(w, ids[..k], m, id);
      ApartStays(w.srv, ExecAll(w, RouteUpdates(ids[..k], m)).w.srv);
      UpdateServed(ExecAll(w, RouteUpdates(ids[..k], m)).w, ids[k], m[ids[k]], id);
    }
  }

  lemma FrontOf(ids: seq<string>)
    requires ids != []
    ensures var k := |ids| - 1; forall x :: x in ids <==> x in ids[..k] || x == ids[k]
    ensures var k := |ids| - 1; NoDup(ids) ==> NoDup(ids[..k]) && ids[k] !in ids[..k]
  {
    assert ids == ids[..|ids| - 1] + [ids[|ids| - 1]];
  }

  lemma {:induction false} AddsHeal(w: World, ids: seq<string>, m: ObjMap, id: string)
    requires w.srv.routes.Some? && Keyed(m) && NoDup(ids) && forall x :: x in ids ==> x in m
    requires ExecAll(w, RouteAdds(Objs(ids, m))).ok
    ensures var s := ExecAll(w, RouteAdds(Objs(ids, m))).w.srv; var at := AtId(RouteList(w.srv), id);
      RoutesOnly(w.srv, s) && AtId(RouteList(s), id) == if id in ids then at + [m[id]] else at
  {
    hide PostRoute, AtId, NoDup;
    if ids != [] {
      var k := |ids| - 1;
      FrontOf(ids);
      assert RouteAdds(Objs(ids, m))[..k] == RouteAdds(Objs(ids[..k], m));
      AddsHeal(w, ids[..k], m, id);
      var before := ExecAll(w, RouteAdds(Objs(ids[..k], m))).w;
      AddOp(before, m[ids[k]]);
      AtAppend(RouteList(before.srv), m[ids[k]], id);
    }
  }

  /** What a plan that succeeds makes of the objects with one id; `n` copies go if the id is removed. */
  function Healed(prev: ObjMap, desired: ObjMap, id: string, at: seq<Obj>, n: nat): seq<Obj> {
    if id in prev then
      if id !in desired then Without(at, n)
      else if prev[id] != desired[id] then [desired[id]] + AfterFirst(at)
      else at
    else if id in desired then at + [desired[id]]
    else at
  }

  lemma RoutePlanHeals(w: World, prev: ObjMap, desired: ObjMap, dels: seq<string>, id: string) returns (n: nat)
    requires RouteKeyed(prev) && RouteKeyed(desired) && Lists(dels, Removed(prev, desired).Keys)
    requires Apart(w.srv) && ExecAll(w, RoutePlan(prev, desired, dels)).ok
    ensures 1 <= n <= MAX_TRIES && (w.script == [] ==> n == 1)
    ensures var s := ExecAll(w, RoutePlan(prev, desired, dels)).w.srv;
      && RoutesOnly(w.srv, s)
      && AtId(RouteList(s), id) == Healed(prev, desired, id, AtId(RouteList(w.srv), id), n)
  {
    hide Exec, ExecAll, Ascending, Objs, AtId, Without;
    var updated, added := Updated(prev, desired), Added(prev, desired);
    AscendingLists(updated.Keys);
    AscendingLists(added.Keys);
    var a, b := Deletes(dels), RouteUpdates(Ascending(updated.Keys), updated);
    var c := RouteAdds(Objs(Ascending(added.Keys), added));
    ExecAllConcat(w, a + b, c);
    ExecAllConcat(w, a, b);
    n := DeletesHeal(w, dels, id);
    var w1 := ExecAll(w, a).w;
    ApartStays(w.srv, w1.srv);
    UpdatesHeal(w1, Ascending(updated.Keys), updated, id);
    AddsHeal(ExecAll(w1, b).w, Ascending(added.Keys), added, id);
  }

  /* ---------- the policy part leaves the routes alone ---------- */

  /** Requests of the policy part. */
  predicate SparesRoutes(s: Server, q: Request) {
    match q
    case Get(_) => true
    case GetPorts => true
    case Put(path, _) => path == PolicyNode
    case PatchPolicies(_) => true
    case Delete(id) => id == TLS_ID && IdCount(RouteList(s), id) == 0
    case PatchId(id, _) => id == TLS_ID && IdCount(RouteList(s), id) == 0
    case Post(_) => false
  }

  lemma {:induction false} RetrySpares(w: World, q: Request, tries: nat)
    requires SparesRoutes(w.srv, q)
    ensures Retry(w, q, tries).w.srv.routes == w.srv.routes
    decreases tries
  {
    if tries > 0 { RetrySpares(Attempt(w, q).0, q, tries - 1); }
  }

  lemma PutSpares(w: World, body: seq<Obj>)
    ensures PutNew(w, PolicyNode, body).w.srv.routes == w.srv.routes
  {
    RetrySpares(w, Put(PolicyNode, body), MAX_TRIES);
  }

  lemma PrependSpares(w: World, obj: Obj)
    ensures PrependPolicy(w, obj).w.srv.routes == w.srv.routes
  {
    hide Retry;
    RetrySpares(w, Get(PolicyNode), MAX_TRIES);
    var got := DoRequest(w, Get(PolicyNode));
    if got.reply.Some? {
      var merged := [obj] + DropTls(if got.reply.value.status == 200 then got.reply.value.body else []);
      PutSpares(got.w, merged);
      RetrySpares(got.w, PatchPolicies(merged), MAX_TRIES);
      PutSpares(DoRequest(got.w, PatchPolicies(merged)).w, merged);
    }
  }

  lemma PolicyOpSpares(w: World, op: Op)
    requires IdCount(RouteList(w.srv), TLS_ID) == 0
    requires op == Del(TLS_ID) || (op.UpdatePolicy? && op.id == TLS_ID) || op.AddPolicy?
    ensures Exec(w, op).w.srv.routes == w.srv.routes
  {
    hide Retry, PrependPolicy;
    match op
    case Del(id) => RetrySpares(w, Delete(id), MAX_TRIES);
    case UpdatePolicy(id, obj) =>
      RetrySpares(w, PatchId(id, obj), MAX_TRIES);
      PrependSpares(DoRequest(w, PatchId(id, obj)).w, obj);
    case AddPolicy(obj) => PrependSpares(w, obj);
  }

  lemma PolicyPlanSpares(w: World, prev: ObjMap, desired: ObjMap, dels: seq<string>)
    requires IdCount(RouteList(w.srv), TLS_ID) == 0
    requires PolicyKeyed(prev) && PolicyKeyed(desired) && Lists(dels, Removed(prev, desired).Keys)
    ensures ExecAll(w, PolicyPlan(prev, desired, dels)).w.srv.routes == w.srv.routes
  {
    hide Exec, PolicyPlan;
    PolicyPlanIsOneOp(prev, desired, dels);
    var ops := PolicyOp(prev, desired);
    if ops != [] {
      ExecAllOne(w, ops[0]);
      PolicyOpSpares(w, ops[0]);
    }
  }

  /* ---------- a whole reconcile ---------- */

  /** What the client itself brings about: no route id among the policies, no policy id among the routes, and
      at most one policy of ours, at the head. Ids of routes may occur any number of times. */
  ghost predicate Sound(s: Server) {
    s.up && Apart(s) && IdCount(RouteList(s), TLS_ID) == 0 && Headed(PolicyList(s))
  }

  /** Whatever it found, and under any faults: what a reconcile that succeeds leaves for one id. */
  lemma SuccessHeals(w: World, mem: Memory, want: Memory, o: Orders, id: string) returns (n: nat)
    requires WellFormed(mem) && WellFormed(want) && OrdersFit(mem, want, o)
    requires Sound(w.srv) && Reconcile(w, mem, want, o).ok
    ensures 1 <= n <= MAX_TRIES && (w.script == [] ==> n == 1)
    ensures AtId(RouteList(Reconcile(w, mem, want, o).w.srv), id)
         == Healed(mem.routes, want.routes, id, AtId(RouteList(w.srv), id), n)
  {
    hide Exec, ExecAll, EnsureServer, RoutePlan, PolicyPlan, IdCount, AtId, Headed;
    PrepareKeeps(w, want);
    var p := Prepare(w, want);
    var plan1 := RoutePlan(mem.routes, want.routes, o.routes);
    var plan2 := PolicyPlan(mem.policies, want.policies, o.policies);
    ExecAllConcat(p.w, plan1, plan2);
    assert PolicyList(p.w.srv) == PolicyList(w.srv);
    if w.script == [] { PrepareStaysQuiet(w, want); }
    n := RoutePlanHeals(p.w, mem.routes, want.routes, o.routes, id);
    NoTlsAfter(p.w, mem.routes, want.routes, o.routes);
    PolicyPlanSpares(ExecAll(p.w, plan1).w, mem.policies, want.policies, o.policies);
  }

  lemma PrepareStaysQuiet(w: World, want: Memory)
    requires w.script == [] && w.srv.up && w.srv.routes.Some?
    ensures Prepare(w, want).w.script == []
  {
    hide EnsureServer;
    CleanEnsure(w);
  }

  lemma NoTlsAfter(w: World, prev: ObjMap, desired: ObjMap, dels: seq<string>)
    requires RouteKeyed(prev) && RouteKeyed(desired) && Lists(dels, Removed(prev, desired).Keys)
    requires Apart(w.srv) && IdCount(RouteList(w.srv), TLS_ID) == 0
    requires ExecAll(w, RoutePlan(prev, desired, dels)).ok
    ensures IdCount(RouteList(ExecAll(w, RoutePlan(prev, desired, dels)).w.srv), TLS_ID) == 0
  {
    hide Exec, ExecAll, RoutePlan, IdCount, AtId;
    var n := RoutePlanHeals(w, prev, desired, dels, TLS_ID);
    AtIdCount(RouteList(w.srv), TLS_ID);
    AtIdCount(RouteList(ExecAll(w, RoutePlan(prev, desired, dels)).w.srv), TLS_ID);
    if TLS_ID in prev || TLS_ID in desired { TlsIsNoRoute(TLS_ID); }
  }

  /** The objects with this id are as wished. */
  ghost predicate AsWished(s: Server, want: Memory, id: string) {
    AtId(RouteList(s), id) == if id in want.routes then [want.routes[id]] else []
  }

  /** An id is right after a reconcile without faults exactly when it is deleted or patched and occurred at most once,
      or is not and was right before. */
  lemma QuietHealsIff(w: World, mem: Memory, want: Memory, o: Orders, id: string)
    requires WellFormed(mem) && WellFormed(want) && OrdersFit(mem, want, o) && Sound(w.srv) && w.script == []
    ensures Reconcile(w, mem, want, o).ok
    ensures AsWished(Reconcile(w, mem, want, o).w.srv, want, id) <==>
      if id in Removed(mem.routes, want.routes) || id in Updated(mem.routes, want.routes)
      then IdCount(RouteList(w.srv), id) <= 1
      else AsWished(w.srv, mem, id)
  {
    hide Reconcile, IdCount, AtId;
    QuietReconcile(w, mem, want, o);
    var n := SuccessHeals(w, mem, want, o, id);
    var at := AtId(RouteList(w.srv), id);
    AtIdCount(RouteList(w.srv), id);
    WithoutLength(at, 1);
    assert |Without(at, 1)| == 0 <==> Without(at, 1) == [];
  }

  /** After a failed attempt, a reconcile with any other wishes that succeeds sets a route right exactly when it
      deletes or patches its id, or the failed attempt had not changed it. */
  lemma OtherWishesHeal(w0: World, mem: Memory, want0: Memory, o0: Orders,
                        w1: World, want1: Memory, o1: Orders, id: string)
    requires WellFormed(mem) && WellFormed(want0) && OrdersFit(mem, want0, o0)
    requires WellFormed(want1) && OrdersFit(mem, want1, o1) && ROUTE_PREFIX <= id
    requires InSync(w0.srv, mem) && !Reconcile(w0, mem, want0, o0).ok
    requires w1.srv == Reconcile(w0, mem, want0, o0).w.srv && Reconcile(w1, mem, want1, o1).ok
    ensures AsWished(Reconcile(w1, mem, want1, o1).w.srv, want1, id) <==>
      || id in Removed(mem.routes, want1.routes)
      || id in Updated(mem.routes, want1.routes)
      || AtId(RouteList(w1.srv), id) == AtId(RouteList(w0.srv), id)
  {
    hide Reconcile, IdCount, AtId, InSync, Sound;
    LeftSound(w0, mem, want0, o0);
    var n := SuccessHeals(w1, mem, want1, o1, id);
    var at := AtId(RouteList(w1.srv), id);
    AtIdCount(RouteList(w1.srv), id);
    WithoutLength(at, n);
    InSyncAt(w0.srv, mem, id);
    assert id in mem.routes ==> |at| <= 1;
  }

  /** What any reconcile from a server in step leaves: sound lists, and no remembered id twice. */
  lemma LeftSound(w0: World, mem: Memory, want: Memory, o: Orders)
    requires WellFormed(mem) && WellFormed(want) && OrdersFit(mem, want, o) && InSync(w0.srv, mem)
    ensures var s := Reconcile(w0, mem, want, o).w.srv;
      Sound(s) && forall id :: id in mem.routes ==> IdCount(RouteList(s), id) <= 1
  {
    hide Reconcile, FinalPolicies, IdCount, Headed, Mirrors, PartialRoutes;
    var from := OriginOf(w0.srv);
    StartsHalfway(w0.srv, mem, want);
    var at := ReconcileFrom(w0, from, mem, want, o, Progress({}, {}, 0));
    var s := Reconcile(w0, mem, want, o).w.srv;
    NoRoutePolicies(PolicyList(s), from.policies, mem.policies, want.policies);
    FinalPoliciesMirror(from.policies, mem.policies, want.policies);
    NoTlsAmongRoutes(from.routes, mem.routes, want.routes, at);
    PartialCounts(from.routes, mem.routes, want.routes, at);
  }

  lemma InSyncAt(s: Server, mem: Memory, id: string)
    requires InSync(s, mem) && WellFormed(mem) && ROUTE_PREFIX <= id
    ensures AsWished(s, mem, id)
  {
    var r := RouteList(s);
    assert OwnedId(id);
    AtIdCount(r, id);
    if id in mem.routes { AtMember(r, id); }
  }

  lemma {:induction false} AtMember(r: seq<Obj>, id: string)
    requires AtId(r, id) != []
    ensures AtId(r, id)[0] in r && AtId(r, id)[0].id == Some(id)
  {
    if r[0].id != Some(id) { AtMember(r[1..], id); }
  }
}
