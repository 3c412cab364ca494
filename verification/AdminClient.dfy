/** What the admin client does, as functions on worlds: its operations, the diff
    of two object maps, and a whole reconcile as a plan run until the first error. */
module AdminClient {
  import opened Text
  import opened AdminServer

  datatype Step = Step(w: World, ok: bool)

  predicate IsSuccess(status: int) {
    200 <= status <= 299
  }

  /* ---------- the operations a plan is made of ---------- */

  datatype Op =
    | Del(id: string)
    | UpdateRoute(id: string, obj: Obj)
    | AddRoute(obj: Obj)
    | UpdatePolicy(id: string, obj: Obj)
    | AddPolicy(obj: Obj)

  function DoDelete(w: World, id: string): Step {
    var s := DoRequest(w, Delete(id));
    Step(s.w, s.reply.Some? && s.reply.value.status in {200, 204, 404})
  }

  function PostRoute(w: World, obj: Obj): Step {
    var s := DoRequest(w, Post(obj));
    Step(s.w, s.reply.Some? && IsSuccess(s.reply.value.status))
  }

  /** A PUT that creates, where 409 (already there) is fine. */
  function PutNew(w: World, path: Path, body: seq<Obj>): Step {
    var s := DoRequest(w, Put(path, body));
    Step(s.w, s.reply.Some? && (s.reply.value.status == 409 || IsSuccess(s.reply.value.status)))
  }

  function DropTls(policies: seq<Obj>): seq<Obj> {
    if policies == [] then []
    else if policies[0].id == Some(TLS_ID) then DropTls(policies[1..])
    else [policies[0]] + DropTls(policies[1..])
  }

  function PrependPolicy(w: World, obj: Obj): Step {
    var got := DoRequest(w, Get(PolicyNode));
    if got.reply.None? then Step(got.w, false) else
    var exists_ := got.reply.value.status == 200;
    var merged := [obj] + DropTls(if exists_ then got.reply.value.body else []);
    if !exists_ then PutNew(got.w, PolicyNode, merged) else
    var patched := DoRequest(got.w, PatchPolicies(merged));
    if patched.reply.None? then Step(patched.w, false)
    else if patched.reply.value.status == 404 then PutNew(patched.w, PolicyNode, merged)
    else Step(patched.w, patched.reply.value.status == 409 || IsSuccess(patched.reply.value.status))
  }

  function Exec(w: World, op: Op): Step {
    match op
    case Del(id) => DoDelete(w, id)
    case UpdateRoute(id, obj) =>
      var s := DoRequest(w, PatchId(id, obj));
      if s.reply.None? then Step(s.w, false)
      else if s.reply.value.status == 404 then PostRoute(s.w, obj)
      else Step(s.w, IsSuccess(s.reply.value.status))
    case AddRoute(obj) => PostRoute(w, obj)
    case UpdatePolicy(id, obj) =>
      var s := DoRequest(w, PatchId(id, obj));
      if s.reply.None? then Step(s.w, false)
      else if s.reply.value.status == 404 then PrependPolicy(s.w, obj)
      else Step(s.w, IsSuccess(s.reply.value.status))
    case AddPolicy(obj) => PrependPolicy(w, obj)
  }

  /** Runs the operations in order and stops at the first that fails. */
  function ExecAll(w: World, ops: seq<Op>): Step {
    if ops == [] then Step(w, true) else
    var s := ExecAll(w, ops[..|ops| - 1]);
    if s.ok then Exec(s.w, ops[|ops| - 1]) else s
  }

  /* ---------- making sure the config nodes exist ---------- */

  function EnsureNode(w: World, path: Path): Step {
    var got := DoRequest(w, Get(path));
    if got.reply.None? then Step(got.w, false)
    else if got.reply.value.status == 200 then Step(got.w, true)
    else if path != ServerNode then PutNew(got.w, path, [])
    else
      var ports := DoRequest(got.w, GetPorts);
      if ports.reply.None? then Step(ports.w, false) else PutNew(ports.w, path, [])
  }

  function EnsureServer(w: World): Step {
    var s1 := EnsureNode(w, ServerNode);
    if !s1.ok then s1 else
    var s2 := EnsureNode(s1.w, RouteNode);
    if !s2.ok then s2 else EnsureNode(s2.w, PolicyNode)
  }

  /* ---------- the diff ---------- */

  type ObjMap = map<string, Obj>

  function Removed(prev: ObjMap, desired: ObjMap): ObjMap {
    map id | id in prev && id !in desired :: prev[id]
  }

  function Updated(prev: ObjMap, desired: ObjMap): ObjMap {
    map id | id in prev && id in desired && prev[id] != desired[id] :: desired[id]
  }

  function Added(prev: ObjMap, desired: ObjMap): ObjMap {
    map id | id in desired && id !in prev :: desired[id]
  }

  /* ---------- the plan ---------- */

  function Deletes(ids: seq<string>): (r: seq<Op>) {
    seq(|ids|, i requires 0 <= i < |ids| => Del(ids[i]))
  }

  function RouteUpdates(ids: seq<string>, m: ObjMap): (r: seq<Op>)
    requires forall id :: id in ids ==> id in m
  {
    seq(|ids|, i requires 0 <= i < |ids| => UpdateRoute(ids[i], m[ids[i]]))
  }

  function Objs(ids: seq<string>, m: ObjMap): (r: seq<Obj>)
    requires forall id :: id in ids ==> id in m
  {
    seq(|ids|, i requires 0 <= i < |ids| => m[ids[i]])
  }

  function RouteAdds(objs: seq<Obj>): (r: seq<Op>) {
    seq(|objs|, i requires 0 <= i < |objs| => AddRoute(objs[i]))
  }

  function PolicyUpdates(ids: seq<string>, m: ObjMap): (r: seq<Op>)
    requires forall id :: id in ids ==> id in m
  {
    seq(|ids|, i requires 0 <= i < |ids| => UpdatePolicy(ids[i], m[ids[i]]))
  }

  function PolicyAdds(objs: seq<Obj>): (r: seq<Op>) {
    seq(|objs|, i requires 0 <= i < |objs| => AddPolicy(objs[i]))
  }

  ghost function AscendingObjs(m: ObjMap): (r: seq<Obj>)
    ensures |r| == |m|
  {
    AscendingLists(m.Keys);
    Objs(Ascending(m.Keys), m)
  }

  /** `dels` is the order in which the loop met the removed ids. */
  ghost function RouteEdits(prev: ObjMap, desired: ObjMap, dels: seq<string>): seq<Op> {
    AscendingLists(Updated(prev, desired).Keys);
    Deletes(dels) + RouteUpdates(Ascending(Updated(prev, desired).Keys), Updated(prev, desired))
  }

  ghost function RoutePlan(prev: ObjMap, desired: ObjMap, dels: seq<string>): seq<Op> {
    RouteEdits(prev, desired, dels) + RouteAdds(AscendingObjs(Added(prev, desired)))
  }

  ghost function PolicyPlan(prev: ObjMap, desired: ObjMap, dels: seq<string>): seq<Op> {
    AscendingLists(Updated(prev, desired).Keys);
    Deletes(dels)
    + PolicyUpdates(Ascending(Updated(prev, desired).Keys), Updated(prev, desired))
    + PolicyAdds(AscendingObjs(Added(prev, desired)))
  }

  /** What the client remembers between reconciles. */
  datatype Memory = Memory(routes: ObjMap, policies: ObjMap)

  /** The order in which the two delete loops met their ids. */
  datatype Orders = Orders(routes: seq<string>, policies: seq<string>)

  ghost predicate OrdersFit(mem: Memory, want: Memory, o: Orders) {
    && Lists(o.routes, Removed(mem.routes, want.routes).Keys)
    && Lists(o.policies, Removed(mem.policies, want.policies).Keys)
  }

  ghost function FullPlan(mem: Memory, want: Memory, o: Orders): seq<Op> {
    RoutePlan(mem.routes, want.routes, o.routes) + PolicyPlan(mem.policies, want.policies, o.policies)
  }

  ghost function Prepare(w: World, want: Memory): Step {
    if |want.routes| > 0 then EnsureServer(w) else Step(w, true)
  }

  ghost function Reconcile(w: World, mem: Memory, want: Memory, o: Orders): Step {
    var s := Prepare(w, want);
    if s.ok then ExecAll(s.w, FullPlan(mem, want, o)) else s
  }

  /** The memory is replaced only when everything succeeded. */
  ghost function MemoryAfter(w: World, mem: Memory, want: Memory, o: Orders): Memory {
    if Reconcile(w, mem, want, o).ok then want else mem
  }

  /* ---------- running plans piecewise ---------- */

  lemma {:induction false} ExecAllConcat(w: World, a: seq<Op>, b: seq<Op>)
    ensures var s := ExecAll(w, a);
      ExecAll(w, a + b) == if s.ok then ExecAll(s.w, b) else s
  {
    if b == [] {
      assert a + b == a;
    } else {
      var b' := b[..|b| - 1];
      ExecAllConcat(w, a, b');
      assert (a + b)[..|a + b| - 1] == a + b';
    }
  }

  lemma ExecAllOne(w: World, op: Op)
    ensures ExecAll(w, [op]) == Exec(w, op)
  {
    assert [op][..0] == [];
  }
}
