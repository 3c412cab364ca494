/** How far the route part of a reconcile gets under any faults at all: at every
    moment the list is the original one under a partial edit, plus the routes
    whose POST took effect. */
module RouteProgress {
  import opened Text
  import opened AdminServer
  import opened AdminClient
  import opened Edits

  /* ---------- reading the log ---------- */

  ghost predicate Posted(made: seq<Entry>) {
    exists e :: e in made && e.req.Post? && Effective(e.fault)
  }

  /** A read of the policy list that the server turned down. */
  ghost predicate ReadRefused(made: seq<Entry>) {
    exists e :: e in made && e.req == Get(PolicyNode) && e.fault.Refuse?
  }

  lemma LogConcat(a: seq<Entry>, b: seq<Entry>)
    ensures Posted(a + b) <==> Posted(a) || Posted(b)
    ensures ReadRefused(a + b) <==> ReadRefused(a) || ReadRefused(b)
  {
    if e :| e in a && e.req.Post? && Effective(e.fault) { assert e in a + b; }
    if e :| e in b && e.req.Post? && Effective(e.fault) { assert e in a + b; }
    if e :| e in a && e.req == Get(PolicyNode) && e.fault.Refuse? { assert e in a + b; }
    if e :| e in b && e.req == Get(PolicyNode) && e.fault.Refuse? { assert e in a + b; }
  }

  lemma LogTrans(w: World, w1: World, w2: World)
    requires w.log <= w1.log && w1.log <= w2.log
    ensures w.log <= w2.log
    ensures Posted(Made(w, w2)) <==> Posted(Made(w, w1)) || Posted(Made(w1, w2))
    ensures ReadRefused(Made(w, w2)) <==> ReadRefused(Made(w, w1)) || ReadRefused(Made(w1, w2))
  {
    assert Made(w, w2) == Made(w, w1) + Made(w1, w2);
    LogConcat(Made(w, w1), Made(w1, w2));
  }

  /** Requests were made, but no POST took effect and no policy read was refused. */
  ghost predicate Quiet(w: World, w': World) {
    w.log <= w'.log && !Posted(Made(w, w')) && !ReadRefused(Made(w, w'))
  }

  lemma QuietTrans(w: World, w1: World, w2: World)
    requires Quiet(w, w1) && Quiet(w1, w2)
    ensures Quiet(w, w2)
  {
    LogTrans(w, w1, w2);
  }

  lemma QuietStill(w: World)
    ensures Quiet(w, w)
  {
    assert Made(w, w) == [];
  }

  lemma RequestLog(w: World, q: Request)
    requires q.Post? || Idempotent(w.srv, q)
    ensures var s := DoRequest(w, q);
      && DeliveredOnce(w, q, s)
      && (!q.Post? && q != Get(PolicyNode) ==> Quiet(w, s.w))
      && (q.Post? ==> (Posted(Made(w, s.w)) <==> Took(Made(w, s.w))) && !ReadRefused(Made(w, s.w)))
  {
    RetryOutcome(w, q, MAX_TRIES);
  }

  /* ---------- single operations ---------- */

  lemma DeleteIdempotent(srv: Server, id: string)
    requires srv.routes.Some? && IdCount(srv.routes.value, id) + IdCount(PolicyList(srv), id) <= 1
    ensures Idempotent(srv, Delete(id))
  {
    RemoveCount(srv.routes.value, id, id);
    RemoveCount(PolicyList(srv), id, id);
  }

  lemma DeleteOp(w: World, id: string)
    requires w.srv.routes.Some?
    requires IdCount(w.srv.routes.value, id) + IdCount(PolicyList(w.srv), id) <= 1
    ensures var s := DoDelete(w, id); var srv' := Serve(w.srv, Delete(id)).0;
      && Quiet(w, s.w)
      && (s.w.srv == w.srv || s.w.srv == srv')
      && (s.ok ==> s.w.srv == srv')
  {
    hide Retry;
    DeleteIdempotent(w.srv, id);
    RequestLog(w, Delete(id));
  }

  lemma UpdateOp(w: World, id: string, obj: Obj)
    requires w.srv.routes.Some? && IdCount(w.srv.routes.value, id) > 0 && obj.id == Some(id)
    ensures var s := Exec(w, UpdateRoute(id, obj)); var srv' := Serve(w.srv, PatchId(id, obj)).0;
      && Quiet(w, s.w)
      && (s.w.srv == w.srv || s.w.srv == srv')
      && (s.ok ==> s.w.srv == srv')
  {
    hide Retry;
    ReplaceTwice(w.srv.routes.value, id, obj);
    ReplaceCount(w.srv.routes.value, id, obj, id);
    RequestLog(w, PatchId(id, obj));
  }

  lemma AddOp(w: World, obj: Obj)
    requires w.srv.routes.Some?
    ensures var s := PostRoute(w, obj);
      && w.log <= s.w.log && !ReadRefused(Made(w, s.w))
      && s.w.srv == (if Posted(Made(w, s.w)) then Serve(w.srv, Post(obj)).0 else w.srv)
      && (s.ok ==> Posted(Made(w, s.w)))
  {
    hide Retry;
    RequestLog(w, Post(obj));
  }

  /* ---------- the three loops over routes ---------- */

  ghost predicate RoutesAre(srv: Server, base: Server, r: seq<Obj>) {
    srv == base.(routes := Some(r))
  }

  ghost predicate Editable(r0: seq<Obj>, policies: seq<Obj>, ids: seq<string>) {
    forall id :: id in ids ==> IdCount(r0, id) <= 1 && IdCount(policies, id) == 0
  }

  function Elems(s: seq<string>): set<string> {
    set x | x in s
  }

  lemma DeleteStep(w: World, base: Server, r0: seq<Obj>, gone0: set<string>, new_: set<string>, m: ObjMap, id: string)
      returns (gone: set<string>)
    requires Keyed(m) && new_ <= m.Keys && id !in new_
    requires RoutesAre(w.srv, base, Edit(r0, gone0, new_, m))
    requires IdCount(r0, id) <= 1 && IdCount(PolicyList(base), id) == 0
    ensures var s := Exec(w, Del(id));
      && Quiet(w, s.w)
      && gone0 <= gone <= gone0 + {id}
      && RoutesAre(s.w.srv, base, Edit(r0, gone, new_, m))
      && (s.ok ==> gone == gone0 + {id})
  {
    hide DoRequest;
    var r := Edit(r0, gone0, new_, m);
    EditCount(r0, gone0, new_, m, id);
    assert PolicyList(w.srv) == PolicyList(base);
    DeleteOp(w, id);
    EditRemove(r0, gone0, new_, m, id);
    if IdCount(r, id) == 0 { RemoveAbsent(r, id); }
    var s := DoDelete(w, id);
    gone := if s.ok || s.w.srv != w.srv then gone0 + {id} else gone0;
  }

  lemma {:induction false} DeletesProgress(w: World, base: Server, r0: seq<Obj>, gone0: set<string>,
                                           new_: set<string>, m: ObjMap, ids: seq<string>)
      returns (gone: set<string>)
    requires Keyed(m) && new_ <= m.Keys && Elems(ids) !! new_
    requires RoutesAre(w.srv, base, Edit(r0, gone0, new_, m)) && Editable(r0, PolicyList(base), ids)
    ensures var s := ExecAll(w, Deletes(ids));
      && Quiet(w, s.w)
      && gone0 <= gone <= gone0 + Elems(ids)
      && RoutesAre(s.w.srv, base, Edit(r0, gone, new_, m))
      && (s.ok ==> gone == gone0 + Elems(ids))
  {
    hide Exec, Edit, IdCount, Quiet, RoutesAre;
    if ids == [] {
      gone := gone0;
      QuietStill(w);
      return;
    }
    var n := |ids| - 1;
    var id := ids[n];
    assert Deletes(ids)[..n] == Deletes(ids[..n]);
    assert ids == ids[..n] + [id];
    assert Elems(ids) == Elems(ids[..n]) + {id};
    gone := DeletesProgress(w, base, r0, gone0, new_, m, ids[..n]);
    var s := ExecAll(w, Deletes(ids[..n]));
    if s.ok {
      assert id in ids && id in Elems(ids);
      gone := DeleteStep(s.w, base, r0, gone, new_, m, id);
      QuietTrans(w, s.w, Exec(s.w, Del(id)).w);
    }
  }

  lemma {:induction false} UpdatesProgress(w: World, base: Server, r0: seq<Obj>, gone: set<string>,
                                           new0: set<string>, m: ObjMap, ids: seq<string>, u: ObjMap)
      returns (new_: set<string>)
    requires Keyed(m) && new0 <= m.Keys && Elems(ids) !! gone
    requires forall id :: id in ids ==> id in u && id in m && u[id] == m[id] && IdCount(r0, id) == 1
    requires RoutesAre(w.srv, base, Edit(r0, gone, new0, m))
    ensures var s := ExecAll(w, RouteUpdates(ids, u));
      && Quiet(w, s.w)
      && new0 <= new_ <= new0 + Elems(ids) && new_ <= m.Keys
      && RoutesAre(s.w.srv, base, Edit(r0, gone, new_, m))
      && (s.ok ==> new_ == new0 + Elems(ids))
  {
    hide Exec, Edit, Quiet;
    if ids == [] {
      new_ := new0;
      QuietStill(w);
      return;
    }
    var n := |ids| - 1;
    var id := ids[n];
    assert RouteUpdates(ids, u)[..n] == RouteUpdates(ids[..n], u);
    assert ids == ids[..n] + [id];
    assert Elems(ids) == Elems(ids[..n]) + {id};
    new_ := UpdatesProgress(w, base, r0, gone, new0, m, ids[..n], u);
    var s := ExecAll(w, RouteUpdates(ids[..n], u));
    if s.ok {
      EditCount(r0, gone, new_, m, id);
      assert id in Elems(ids);
      UpdateOp(s.w, id, m[id]);
      EditReplace(r0, gone, new_, m, id);
      var s' := Exec(s.w, UpdateRoute(id, m[id]));
      QuietTrans(w, s.w, s'.w);
      if s'.ok || s'.w.srv != s.w.srv { new_ := new_ + {id}; }
    }
  }

  lemma AddStep(w: World, base: Server, r: seq<Obj>, obj: Obj) returns (k: nat)
    requires RoutesAre(w.srv, base, r)
    ensures var s := Exec(w, AddRoute(obj));
      && w.log <= s.w.log && !ReadRefused(Made(w, s.w))
      && k <= 1
      && RoutesAre(s.w.srv, base, if k == 1 then r + [obj] else r)
      && (Posted(Made(w, s.w)) <==> k == 1)
      && (s.ok ==> k == 1)
  {
    hide DoRequest;
    AddOp(w, obj);
    k := if Posted(Made(w, PostRoute(w, obj).w)) then 1 else 0;
  }

  lemma {:induction false} AddsProgress(w: World, base: Server, r: seq<Obj>, objs: seq<Obj>) returns (k: nat)
    requires RoutesAre(w.srv, base, r)
    ensures var s := ExecAll(w, RouteAdds(objs));
      && w.log <= s.w.log && !ReadRefused(Made(w, s.w))
      && k <= |objs|
      && RoutesAre(s.w.srv, base, r + objs[..k])
      && (Posted(Made(w, s.w)) <==> k > 0)
      && (s.ok ==> k == |objs|)
  {
    hide Exec;
    if objs == [] {
      k := 0;
      assert Made(w, w) == [];
      assert r + objs[..0] == r;
      return;
    }
    var n := |objs| - 1;
    assert RouteAdds(objs)[..n] == RouteAdds(objs[..n]);
    k := AddsProgress(w, base, r, objs[..n]);
    var s := ExecAll(w, RouteAdds(objs[..n]));
    assert objs[..n][..k] == objs[..k];
    if s.ok {
      var j := AddStep(s.w, base, r + objs[..k], objs[n]);
      LogTrans(w, s.w, Exec(s.w, AddRoute(objs[n])).w);
      assert r + objs[..n] + [objs[n]] == r + objs[..n + 1];
      k := k + j;
    }
  }
}
