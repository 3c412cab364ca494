/** The admin client itself: an object that remembers what it applied last and talks
    to the server request by request, proved to do what the plan functions say. */
module AdminApi {
  import opened Text
  import opened AdminServer
  import opened AdminClient

  class AdminAPI {
    var prevRoutes: ObjMap
    var prevPolicies: ObjMap
    /** The wire and the server behind it. */
    var net: World

    constructor (net: World)
      ensures this.net == net && Remembered() == Memory(map[], map[])
    {
      this.net := net;
      prevRoutes, prevPolicies := map[], map[];
    }

    function Remembered(): Memory
      reads this
    {
      Memory(prevRoutes, prevPolicies)
    }

    method Request(q: Request) returns (reply: Option<Reply>)
      modifies this`net
      ensures Served(net, reply) == DoRequest(old(net), q)
    {
      var tries := MAX_TRIES;
      while tries > 0
        invariant Retry(net, q, tries) == DoRequest(old(net), q)
      {
        var (net', o) := Attempt(net, q);
        net := net';
        match o
        case Got(r) =>
          return Some(r);
        case Lost(transient) =>
          if q.Post? || !transient { return None; }
        tries := tries - 1;
      }
      return None;
    }

    method DeleteById(id: string) returns (ok: bool)
      modifies this`net
      ensures Step(net, ok) == Exec(old(net), Del(id))
    {
      var reply := Request(Delete(id));
      ok := reply.Some? && (reply.value.status == 200 || reply.value.status == 204 || reply.value.status == 404);
    }

    method PostRoute(obj: Obj) returns (ok: bool)
      modifies this`net
      ensures Step(net, ok) == Exec(old(net), AddRoute(obj))
    {
      var reply := Request(Post(obj));
      ok := reply.Some? && IsSuccess(reply.value.status);
    }

    method PutUnlessThere(path: Path, body: seq<Obj>) returns (ok: bool)
      modifies this`net
      ensures Step(net, ok) == PutNew(old(net), path, body)
    {
      var reply := Request(Put(path, body));
      ok := reply.Some? && (reply.value.status == 409 || IsSuccess(reply.value.status));
    }

    method EnsureResource(path: Path) returns (ok: bool)
      modifies this`net
      ensures Step(net, ok) == EnsureNode(old(net), path)
    {
      var reply := Request(Get(path));
      if reply.None? { return false; }
      if reply.value.status == 200 { return true; }
      if path == ServerNode {
        var ports := Request(GetPorts);
        if ports.None? { return false; }
      }
      ok := PutUnlessThere(path, []);
    }

    method EnsureDevlocalServer() returns (ok: bool)
      modifies this`net
      ensures Step(net, ok) == EnsureServer(old(net))
    {
      ok := EnsureResource(ServerNode);
      if ok { ok := EnsureResource(RouteNode); }
      if ok { ok := EnsureResource(PolicyNode); }
    }

    method PrependTLSPolicy(policy: Obj) returns (ok: bool)
      modifies this`net
      ensures Step(net, ok) == Exec(old(net), AddPolicy(policy))
    {
      var reply := Request(Get(PolicyNode));
      if reply.None? { return false; }
      var found := reply.value.status == 200;
      var policies := if found then reply.value.body else [];
      var merged := [policy];
      for i := 0 to |policies|
        invariant merged + DropTls(policies[i..]) == [policy] + DropTls(policies)
      {
        assert policies[i..][1..] == policies[i + 1..];
        if policies[i].id != Some(TLS_ID) {
          ghost var more := DropTls(policies[i + 1..]);
          assert merged + ([policies[i]] + more) == merged + [policies[i]] + more;
          merged := merged + [policies[i]];
        }
      }
      assert merged == [policy] + DropTls(policies);
      if !found {
        ok := PutUnlessThere(PolicyNode, merged);
        return;
      }
      reply := Request(PatchPolicies(merged));
      if reply.None? { return false; }
      if reply.value.status == 404 {
        ok := PutUnlessThere(PolicyNode, merged);
      } else {
        ok := reply.value.status == 409 || IsSuccess(reply.value.status);
      }
    }

    method PatchOrPost(id: string, obj: Obj) returns (ok: bool)
      modifies this`net
      ensures Step(net, ok) == Exec(old(net), UpdateRoute(id, obj))
    {
      var reply := Request(PatchId(id, obj));
      if reply.None? { return false; }
      if reply.value.status == 404 {
        ok := PostRoute(obj);
      } else {
        ok := IsSuccess(reply.value.status);
      }
    }

    method PatchOrPrepend(id: string, obj: Obj) returns (ok: bool)
      modifies this`net
      ensures Step(net, ok) == Exec(old(net), UpdatePolicy(id, obj))
    {
      var reply := Request(PatchId(id, obj));
      if reply.None? { return false; }
      if reply.value.status == 404 {
        ok := PrependTLSPolicy(obj);
      } else {
        ok := IsSuccess(reply.value.status);
      }
    }

    /* ---------- the five loops of a reconcile ---------- */

    method DeleteAll(removed: ObjMap) returns (ok: bool, ghost order: seq<string>)
      modifies this`net
      ensures Lists(order, removed.Keys)
      ensures Step(net, ok) == ExecAll(old(net), Deletes(order))
    {
      order := [];
      var todo := removed.Keys;
      while todo != {}
        invariant todo <= removed.Keys && Lists(order, removed.Keys - todo)
        invariant ExecAll(old(net), Deletes(order)) == Step(net, true)
        decreases todo
      {
        var id :| id in todo;
        ghost var before := net;
        ok := DeleteById(id);
        DeleteOn(old(net), before, order, id);
        ListsMore(order, removed.Keys - todo, id);
        todo := todo - {id};
        order := order + [id];
        assert removed.Keys - todo == removed.Keys - (todo + {id}) + {id};
        if !ok {
          order := RestOf(old(net), order, todo, removed.Keys);
          return;
        }
      }
      ok := true;
      assert removed.Keys - todo == removed.Keys;
    }

    method UpdateRoutes(updated: ObjMap) returns (ok: bool)
      modifies this`net
      ensures Lists(Ascending(updated.Keys), updated.Keys)
      ensures Step(net, ok) == ExecAll(old(net), RouteUpdates(Ascending(updated.Keys), updated))
    {
      var keys := SortedKeys(updated);
      AscendingLists(updated.Keys);
      ghost var ops := RouteUpdates(keys, updated);
      for i := 0 to |keys|
        invariant ExecAll(old(net), ops[..i]) == Step(net, true)
      {
        ghost var before := net;
        ok := PatchOrPost(keys[i], updated[keys[i]]);
        StepOn(old(net), before, ops, i);
        if !ok { return; }
      }
      ok := true;
      assert ops[..|keys|] == ops;
    }

    method AddRoutes(added: ObjMap) returns (ok: bool)
      modifies this`net
      ensures Step(net, ok) == ExecAll(old(net), RouteAdds(AscendingObjs(added)))
    {
      var keys := SortedKeys(added);
      AscendingLists(added.Keys);
      ghost var ops := RouteAdds(AscendingObjs(added));
      for i := 0 to |keys|
        invariant ExecAll(old(net), ops[..i]) == Step(net, true)
      {
        ghost var before := net;
        ok := PostRoute(added[keys[i]]);
        StepOn(old(net), before, ops, i);
        if !ok { return; }
      }
      ok := true;
      assert ops[..|keys|] == ops;
    }

    method UpdatePolicies(updated: ObjMap) returns (ok: bool)
      modifies this`net
      ensures Lists(Ascending(updated.Keys), updated.Keys)
      ensures Step(net, ok) == ExecAll(old(net), PolicyUpdates(Ascending(updated.Keys), updated))
    {
      var keys := SortedKeys(updated);
      AscendingLists(updated.Keys);
      ghost var ops := PolicyUpdates(keys, updated);
      for i := 0 to |keys|
        invariant ExecAll(old(net), ops[..i]) == Step(net, true)
      {
        ghost var before := net;
        ok := PatchOrPrepend(keys[i], updated[keys[i]]);
        StepOn(old(net), before, ops, i);
        if !ok { return; }
      }
      ok := true;
      assert ops[..|keys|] == ops;
    }

    method AddPolicies(added: ObjMap) returns (ok: bool)
      modifies this`net
      ensures Step(net, ok) == ExecAll(old(net), PolicyAdds(AscendingObjs(added)))
    {
      var keys := SortedKeys(added);
      AscendingLists(added.Keys);
      ghost var ops := PolicyAdds(AscendingObjs(added));
      for i := 0 to |keys|
        invariant ExecAll(old(net), ops[..i]) == Step(net, true)
      {
        ghost var before := net;
        ok := PrependTLSPolicy(added[keys[i]]);
        StepOn(old(net), before, ops, i);
        if !ok { return; }
      }
      ok := true;
      assert ops[..|keys|] == ops;
    }

    method ReconcileRoutes(routes: ObjMap) returns (ok: bool, ghost dels: seq<string>)
      modifies this`net
      ensures Lists(dels, Removed(prevRoutes, routes).Keys)
      ensures Step(net, ok) == ExecAll(old(net), RoutePlan(prevRoutes, routes, dels))
    {
      var removed, updated, added := ComputePatch(prevRoutes, routes);
      ok, dels := DeleteAll(removed);
      AscendingLists(updated.Keys);
      ghost var plan := Extend(old(net), Deletes(dels), RouteUpdates(Ascending(updated.Keys), updated));
      if ok { ok := UpdateRoutes(updated); }
      plan := Extend(old(net), plan, RouteAdds(AscendingObjs(added)));
      if ok { ok := AddRoutes(added); }
    }

    method ReconcilePolicies(policies: ObjMap) returns (ok: bool, ghost dels: seq<string>)
      modifies this`net
      ensures Lists(dels, Removed(prevPolicies, policies).Keys)
      ensures Step(net, ok) == ExecAll(old(net), PolicyPlan(prevPolicies, policies, dels))
    {
      var removed, updated, added := ComputePatch(prevPolicies, policies);
      ok, dels := DeleteAll(removed);
      AscendingLists(updated.Keys);
      ghost var plan := Extend(old(net), Deletes(dels), PolicyUpdates(Ascending(updated.Keys), updated));
      if ok { ok := UpdatePolicies(updated); }
      plan := Extend(old(net), plan, PolicyAdds(AscendingObjs(added)));
      if ok { ok := AddPolicies(added); }
    }

    /** Brings the server from what was applied last to what is wanted now; what is
        remembered changes only if every request went well. */
    method ReconcileDevlocal(routes: ObjMap, policies: ObjMap) returns (ok: bool, ghost o: Orders)
      modifies this
      ensures OrdersFit(old(Remembered()), Memory(routes, policies), o)
      ensures Step(net, ok) == Reconcile(old(net), old(Remembered()), Memory(routes, policies), o)
      ensures Remembered() == MemoryAfter(old(net), old(Remembered()), Memory(routes, policies), o)
    {
      hide Exec, ExecAll, RoutePlan, PolicyPlan, EnsureServer;
      o := Orders(SomeListing(Removed(prevRoutes, routes).Keys), SomeListing(Removed(prevPolicies, policies).Keys));
      ok := true;
      if |routes| > 0 {
        ok := EnsureDevlocalServer();
        if !ok { return; }
      }
      ghost var start, dels := net, [];
      ok, dels := ReconcileRoutes(routes);
      o := o.(routes := dels);
      if ok {
        ok, dels := ReconcilePolicies(policies);
        o := o.(policies := dels);
      }
      ghost var plan := Extend(start,
        RoutePlan(prevRoutes, routes, o.routes), PolicyPlan(prevPolicies, policies, o.policies));
      if ok { prevRoutes, prevPolicies := routes, policies; }
    }
  }

  lemma ListsMore(order: seq<string>, s: set<string>, id: string)
    requires Lists(order, s) && id !in s
    ensures Lists(order + [id], s + {id})
  {
  }

  lemma DeleteOn(w: World, before: World, order: seq<string>, id: string)
    requires ExecAll(w, Deletes(order)) == Step(before, true)
    ensures ExecAll(w, Deletes(order + [id])) == Exec(before, Del(id))
  {
    assert Deletes(order + [id])[..|order|] == Deletes(order);
  }

  /** The ids not reached are listed in any order: nothing is done with them. */
  lemma RestOf(w: World, order: seq<string>, todo: set<string>, all: set<string>) returns (full: seq<string>)
    requires todo <= all && Lists(order, all - todo) && !ExecAll(w, Deletes(order)).ok
    ensures Lists(full, all) && ExecAll(w, Deletes(full)) == ExecAll(w, Deletes(order))
  {
    var rest := SomeListing(todo);
    full := order + rest;
    assert Deletes(full) == Deletes(order) + Deletes(rest);
    ExecAllConcat(w, Deletes(order), Deletes(rest));
    forall x ensures x in full <==> x in all {
      assert x in full <==> x in order || x in rest;
    }
    forall i, j | 0 <= i < j < |full| ensures full[i] != full[j] {
      if i < |order| <= j { assert order[i] in order && rest[j - |order|] in rest; }
    }
  }

  lemma Extend(w: World, a: seq<Op>, b: seq<Op>) returns (c: seq<Op>)
    ensures c == a + b
    ensures var s := ExecAll(w, a); ExecAll(w, c) == if s.ok then ExecAll(s.w, b) else s
  {
    c := a + b;
    ExecAllConcat(w, a, b);
  }

  /** The diff of two maps, filled in by ranging over both. */
  method ComputePatch(prev: ObjMap, desired: ObjMap) returns (removed: ObjMap, updated: ObjMap, added: ObjMap)
    ensures removed == Removed(prev, desired)
    ensures updated == Updated(prev, desired)
    ensures added == Added(prev, desired)
  {
    removed, updated, added := map[], map[], map[];
    var todo := prev.Keys;
    while todo != {}
      invariant todo <= prev.Keys
      invariant removed == map id | id in prev.Keys - todo && id !in desired :: prev[id]
      invariant updated == map id | id in prev.Keys - todo && id in desired && prev[id] != desired[id] :: desired[id]
      decreases todo
    {
      var id :| id in todo;
      todo := todo - {id};
      if id !in desired {
        removed := removed[id := prev[id]];
      } else if prev[id] != desired[id] {
        updated := updated[id := desired[id]];
      }
    }
    todo := desired.Keys;
    while todo != {}
      invariant todo <= desired.Keys
      invariant added == map id | id in desired.Keys - todo && id !in prev :: desired[id]
      decreases todo
    {
      var id :| id in todo;
      todo := todo - {id};
      if id !in prev { added := added[id := desired[id]]; }
    }
  }

  lemma StepOn(w: World, before: World, ops: seq<Op>, i: nat)
    requires i < |ops| && ExecAll(w, ops[..i]) == Step(before, true)
    ensures ExecAll(w, ops[..i + 1]) == Exec(before, ops[i])
    ensures !Exec(before, ops[i]).ok ==> ExecAll(w, ops) == Exec(before, ops[i])
  {
    hide Exec;
    assert ops[..i + 1][..i] == ops[..i];
    assert ops == ops[..i + 1] + ops[i + 1..];
    ExecAllConcat(w, ops[..i + 1], ops[i + 1..]);
  }
}
