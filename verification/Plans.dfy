/** The plan for the routes, told from the difference of the two maps: one operation for each id that differs. */
module Plans {
  import opened Text
  import opened AdminServer
  import opened AdminClient
  import opened Edits
  import opened ReconcileProofs
  import opened Delivery

  /** Wished and not there, there and not wished, or there and not as wished. */
  predicate Differs(prev: ObjMap, desired: ObjMap, id: string) {
    (id in prev) != (id in desired) || (id in prev && id in desired && prev[id] != desired[id])
  }

  function OpId(op: Op): string {
    match op
    case Del(id) => id
    case UpdateRoute(id, _) => id
    case UpdatePolicy(id, _) => id
    case AddRoute(obj) => if obj.id.Some? then obj.id.value else ""
    case AddPolicy(obj) => if obj.id.Some? then obj.id.value else ""
  }

  /** Deleted is what is not wished, patched to the wish what is there, posted as wished what is not. */
  predicate OpMeans(op: Op, prev: ObjMap, desired: ObjMap) {
    match op
    case Del(id) => id in prev && id !in desired
    case UpdateRoute(id, obj) => id in prev && id in desired && obj == desired[id]
    case AddRoute(obj) => OpId(op) !in prev && OpId(op) in desired && obj == desired[OpId(op)]
    case _ => false
  }

  /** The operations concern these ids, one each, and do what they should. */
  ghost predicate Fit(ops: seq<Op>, ids: seq<string>, prev: ObjMap, desired: ObjMap) {
    |ops| == |ids| && forall i :: 0 <= i < |ops| ==> OpId(ops[i]) == ids[i] && OpMeans(ops[i], prev, desired)
  }

  lemma FitConcat(a: seq<Op>, b: seq<Op>, ia: seq<string>, ib: seq<string>, prev: ObjMap, desired: ObjMap)
    requires Fit(a, ia, prev, desired) && Fit(b, ib, prev, desired)
    ensures Fit(a + b, ia + ib, prev, desired)
  {
    hide OpId, OpMeans;
  }

  lemma DeletesFit(ids: seq<string>, prev: ObjMap, desired: ObjMap)
    requires forall id :: id in ids ==> id in Removed(prev, desired)
    ensures Fit(Deletes(ids), ids, prev, desired)
  {
    forall i | 0 <= i < |ids| ensures OpMeans(Del(ids[i]), prev, desired) { assert ids[i] in ids; }
  }

  lemma UpdatesFit(ids: seq<string>, prev: ObjMap, desired: ObjMap)
    requires forall id :: id in ids ==> id in Updated(prev, desired)
    ensures Fit(RouteUpdates(ids, Updated(prev, desired)), ids, prev, desired)
  {
    var m := Updated(prev, desired);
    forall i | 0 <= i < |ids| ensures OpMeans(UpdateRoute(ids[i], m[ids[i]]), prev, desired) { assert ids[i] in ids; }
  }

  lemma AddsFit(ids: seq<string>, prev: ObjMap, desired: ObjMap)
    requires RouteKeyed(desired) && forall id :: id in ids ==> id in Added(prev, desired)
    ensures Fit(RouteAdds(Objs(ids, Added(prev, desired))), ids, prev, desired)
  {
    var m := Added(prev, desired);
    forall i | 0 <= i < |ids|
      ensures OpId(AddRoute(m[ids[i]])) == ids[i] && OpMeans(AddRoute(m[ids[i]]), prev, desired)
    {
      assert ids[i] in ids;
    }
  }

  lemma SameIds(prev: ObjMap, desired: ObjMap, dels: seq<string>)
      returns (ids: seq<string>)
    requires RouteKeyed(prev) && RouteKeyed(desired) && Lists(dels, Removed(prev, desired).Keys)
    ensures Fit(RoutePlan(prev, desired, dels), ids, prev, desired)
    ensures NoDup(ids) && forall id :: id in ids <==> Differs(prev, desired, id)
  {
    hide Ascending, Fit, NoDup, Deletes, RouteUpdates, RouteAdds, Objs;
    var updated, added := Updated(prev, desired), Added(prev, desired);
    AscendingLists(updated.Keys);
    AscendingLists(added.Keys);
    var ups, adds := Ascending(updated.Keys), Ascending(added.Keys);
    ids := dels + ups + adds;
    var a, b, c := Deletes(dels), RouteUpdates(ups, updated), RouteAdds(Objs(adds, added));
    DeletesFit(dels, prev, desired);
    UpdatesFit(ups, prev, desired);
    AddsFit(adds, prev, desired);
    FitConcat(a, b, dels, ups, prev, desired);
    FitConcat(a + b, c, dels + ups, adds, prev, desired);
    ApartNoDup(dels, ups);
    ApartNoDup(dels + ups, adds);
  }

  lemma ApartNoDup(a: seq<string>, b: seq<string>)
    requires NoDup(a) && NoDup(b) && forall x :: x in a ==> x !in b
    ensures NoDup(a + b)
  {
    forall i, j | 0 <= i < j < |a + b| ensures (a + b)[i] != (a + b)[j] {
      if i < |a| <= j { assert a[i] in a && b[j - |a|] in b; }
    }
  }

  /** The plan has exactly one operation for each id that differs, of the kind the difference calls for, and none for
      any other. */
  lemma PlanExactly(prev: ObjMap, desired: ObjMap, dels: seq<string>, id: string)
    requires RouteKeyed(prev) && RouteKeyed(desired) && Lists(dels, Removed(prev, desired).Keys)
    ensures var plan := RoutePlan(prev, desired, dels);
      && (forall op :: op in plan ==> OpMeans(op, prev, desired))
      && ((exists i :: 0 <= i < |plan| && OpId(plan[i]) == id) <==> Differs(prev, desired, id))
      && (forall i, j :: 0 <= i < j < |plan| ==> OpId(plan[i]) != OpId(plan[j]))
  {
    hide RoutePlan, OpMeans, Differs, OpId;
    var ids := SameIds(prev, desired, dels);
    if id in ids {
      var i :| 0 <= i < |ids| && ids[i] == id;
      assert OpId(RoutePlan(prev, desired, dels)[i]) == id;
    }
  }

  /** The statuses taken for success: any of the two hundreds for a POST, with 409 for a PUT that creates, and 200, 204
      and 404 for a DELETE. */
  lemma Verdicts(w: World, id: string, obj: Obj, path: Path, body: seq<Obj>)
    ensures var r := DoRequest(w, Post(obj)).reply;
      PostRoute(w, obj).ok <==> r.Some? && 200 <= r.value.status <= 299
    ensures var r := DoRequest(w, Put(path, body)).reply;
      PutNew(w, path, body).ok <==> r.Some? && (r.value.status == 409 || 200 <= r.value.status <= 299)
    ensures var r := DoRequest(w, Delete(id)).reply;
      DoDelete(w, id).ok <==> r.Some? && (r.value.status == 200 || r.value.status == 204 || r.value.status == 404)
  {
    hide Retry;
  }

  /** Before the server node is put, the ports are asked for. */
  lemma PortsFirst(w: World)
    requires w.script == [] && !w.srv.up && !w.srv.lenient
    ensures EnsureNode(w, ServerNode).w.log
         == w.log + [Entry(Get(ServerNode), Deliver), Entry(GetPorts, Deliver), Entry(Put(ServerNode, []), Deliver)]
  {
    hide Retry;
    CleanRequest(w, Get(ServerNode));
    var got := DoRequest(w, Get(ServerNode)).w;
    CleanRequest(got, GetPorts);
    CleanRequest(DoRequest(got, GetPorts).w, Put(ServerNode, []));
  }
}
