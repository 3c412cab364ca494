/** What goes wrong, with one host and the config that is built for it. */
module Examples {
  import opened Text
  import opened AdminServer
  import opened AdminClient
  import opened Edits
  import opened RouteProgress
  import opened PolicyProgress
  import opened ReconcileProofs
  import opened ReconcileTheorems
  import opened ReconcileSafety
  import opened Delivery
  import opened Config
  import opened Healing
  import opened QuietRuns

  /* ---------- one host ---------- */

  const HOST := "a.dev.local"
  const ADDRESS := "a:80"

  function OneRoute(): Obj { RouteFor(HOST, [ADDRESS], false) }
  function OnePolicy(): Obj { PolicyFor([HOST]) }

  ghost function OneHost(): Memory {
    Build(map[HOST := [ADDRESS]], false)
  }

  const BLANK := Memory(map[], map[])
  const NO_ORDERS := Orders([], [])

  /** A server with empty lists, and the faults to come. */
  function Empty(script: seq<Fault>): World {
    World(Server(false, true, Some([]), Some([])), script, [])
  }

  lemma OneHostIs()
    ensures OneHost() == Memory(map[RouteId(HOST) := OneRoute()], map[TLS_ID := OnePolicy()])
  {
    hide RouteId, RouteFor, PolicyFor;
    var targets: Targets := map[HOST := [ADDRESS]];
    AscendingUnique([HOST], targets.Keys);
    SortOne(HOST);
    SortOne(ADDRESS);
    assert [HOST][..0] == [] && RoutesFor([], targets, false) == map[];
    assert targets[HOST] == [ADDRESS];
    assert RoutesFor([HOST], targets, false) == map[RouteId(HOST) := OneRoute()];
  }

  lemma SortOne(s: string)
    ensures Sort([s]) == [s]
  {
    assert [s][1..] == [];
  }

  /** From nothing to one host: one route is posted, then the policy is prepended. */
  lemma OneHostPlan()
    ensures WellFormed(OneHost()) && OrdersFit(BLANK, OneHost(), NO_ORDERS)
    ensures FullPlan(BLANK, OneHost(), NO_ORDERS) == [AddRoute(OneRoute())] + [AddPolicy(OnePolicy())]
  {
    hide RouteId, Build, RouteFor, PolicyFor;
    BuildWellFormed(map[HOST := [ADDRESS]], false);
    OneHostIs();
    var want := OneHost();
    assert Removed(map[], want.routes) == map[] && Removed(map[], want.policies) == map[];
    assert Updated(map[], want.routes).Keys == {} && Added(map[], want.routes) == want.routes;
    AscendingLists({});
    AscendingOne({RouteId(HOST)}, RouteId(HOST));
    assert AscendingObjs(Added(map[], want.routes)) == [OneRoute()];
    assert RoutePlan(map[], want.routes, []) == [AddRoute(OneRoute())];
    PolicyPlanIsOneOp(map[], want.policies, []);
  }

  lemma EmptyInSync(script: seq<Fault>)
    ensures InSync(Empty(script).srv, BLANK) && WellFormed(BLANK)
  {
  }

  /* ---------- a reconcile up to its first POST ---------- */

  ghost predicate NextDelivered(w: World, n: nat) {
    forall i :: 0 <= i < n && i < |w.script| ==> w.script[i] == Deliver
  }

  function After3(script: seq<Fault>): seq<Fault> {
    Delivery.Tail(Delivery.Tail(Delivery.Tail(script)))
  }

  lemma NodeIdle(w: World, path: Path)
    requires NextDelivered(w, 1) && ServeGet(w.srv, path).status == 200
    ensures var s := EnsureNode(w, path); s.ok && s.w.srv == w.srv && s.w.script == Delivery.Tail(w.script)
  {
    CleanRequest(w, Get(path));
  }

  /** Where the nodes exist, the three reads come first. */
  lemma EnsureIdle(w: World)
    requires NextDelivered(w, 3)
    requires w.srv.up && w.srv.routes.Some? && w.srv.policies.Some?
    ensures var s := EnsureServer(w); s.ok && s.w.srv == w.srv && s.w.script == After3(w.script)
  {
    hide EnsureNode;
    NodeIdle(w, ServerNode);
    var s1 := EnsureNode(w, ServerNode);
    NodeIdle(s1.w, RouteNode);
    NodeIdle(EnsureNode(s1.w, RouteNode).w, PolicyNode);
  }

  const THREE_READS: seq<Fault> := [Deliver, Deliver, Deliver]

  /** A reconcile from nothing remembered whose first POST takes effect but loses its reply. */
  lemma FirstPostLost(w: World, want: Memory, o: Orders, transient: bool)
    requires w.script == THREE_READS + [Drop(true, transient)]
    requires w.srv.up && w.srv.routes.Some? && w.srv.policies.Some?
    requires want.routes != map[] && OrdersFit(BLANK, want, o)
    ensures var s := Reconcile(w, BLANK, want, o);
      && !s.ok && s.w.script == []
      && s.w.srv == w.srv.(routes := s.w.srv.routes) && s.w.srv.routes.Some?
      && |s.w.srv.routes.value| == |w.srv.routes.value| + 1
  {
    hide EnsureServer, PostRoute, Ascending, Objs, PolicyPlan;
    EnsureIdle(w);
    var p := EnsureServer(w).w;
    var adds := AscendingObjs(Added(map[], want.routes));
    NonEmptyAdds(want.routes);
    var op := AddRoute(adds[0]);
    PlanFromBlank(want, o);
    var plan := FullPlan(BLANK, want, o);
    assert plan == [op] + plan[1..];
    ExecAllConcat(p, [op], plan[1..]);
    ExecAllOne(p, op);
    LostPost(p, adds[0], transient);
  }

  lemma NonEmptyAdds(m: ObjMap)
    requires m != map[]
    ensures |AscendingObjs(Added(map[], m))| > 0
  {
    assert Added(map[], m) == m;
    var id :| id in m;
    assert m.Keys != {};
  }

  lemma PlanFromBlank(want: Memory, o: Orders)
    requires OrdersFit(BLANK, want, o) && want.routes != map[]
    ensures var adds := AscendingObjs(Added(map[], want.routes)); var plan := FullPlan(BLANK, want, o);
      |adds| > 0 && |plan| > 0 && plan[0] == AddRoute(adds[0])
  {
    hide Ascending, Objs, PolicyPlan;
    NonEmptyAdds(want.routes);
    assert Removed(map[], want.routes).Keys == {} && Updated(map[], want.routes).Keys == {};
    AscendingLists({});
    ListsMultiset(o.routes, {});
  }

  lemma LostPost(w: World, obj: Obj, transient: bool)
    requires w.script == [Drop(true, transient)] && w.srv.routes.Some?
    ensures var s := PostRoute(w, obj);
      !s.ok && s.w.script == [] && s.w.srv == w.srv.(routes := Some(w.srv.routes.value + [obj]))
  {
  }

  /* ---------- a lost reply, a second route, and one that stays ---------- */

  /** One lost reply to a POST: the reconcile fails, rerunning it posts the same route a second time, and when the
      container stops, one of the two stays and no one remembers it. */
  lemma LostPostExample()
    ensures InSync(Empty([]).srv, BLANK) && WellFormed(OneHost())
    ensures OrdersFit(BLANK, OneHost(), NO_ORDERS) && OrdersFit(OneHost(), BLANK, Orders([RouteId(HOST)], [TLS_ID]))
    ensures var first := Reconcile(Empty(THREE_READS + [Drop(true, true)]), BLANK, OneHost(), NO_ORDERS);
      var again := Reconcile(first.w, BLANK, OneHost(), NO_ORDERS);
      var last := Reconcile(again.w, OneHost(), BLANK, Orders([RouteId(HOST)], [TLS_ID]));
      && !first.ok && first.w.script == []
      && again.ok && AtId(RouteList(again.w.srv), RouteId(HOST)) == [OneRoute(), OneRoute()]
      && last.ok && AtId(RouteList(last.w.srv), RouteId(HOST)) == [OneRoute()]
  {
    hide Reconcile, RouteId, OneHost, OneRoute, OnePolicy, QuietSound, WellFormed, OrdersFit, AtId, Healed, After;
    var id := RouteId(HOST);
    EmptyInSync([]);
    OneHostPlan();
    BackOrders();
    FirstPostIsRoute();
    FirstIsQuiet();
    var first := Reconcile(Empty(THREE_READS + [Drop(true, true)]), BLANK, OneHost(), NO_ORDERS);
    var c, call := Client(first.w, BLANK), Call(OneHost(), NO_ORDERS);
    HealStep(c, call, id);
    var d := After(c, call);
    AfterIs(c, call);
    AddedAgain(id);
    HealStep(d, Call(BLANK, Orders([id], [TLS_ID])), id);
    AfterIs(d, Call(BLANK, Orders([id], [TLS_ID])));
  }

  lemma AfterIs(c: Client, call: Call)
    ensures After(c, call).w == Reconcile(c.w, c.mem, call.want, call.orders).w
  {
  }

  lemma AddedAgain(id: string)
    requires id == RouteId(HOST)
    ensures Healed(map[], OneHost().routes, id, [OneRoute()], 1) == [OneRoute(), OneRoute()]
    ensures Healed(OneHost().routes, map[], id, [OneRoute(), OneRoute()], 1) == [OneRoute()]
  {
    hide RouteId, OneRoute, OneHost;
    OneHostIs();
    assert Without([OneRoute(), OneRoute()], 1) == AfterFirst(Without([OneRoute(), OneRoute()], 0));
  }

  lemma FirstIsQuiet()
    ensures var first := Reconcile(Empty(THREE_READS + [Drop(true, true)]), BLANK, OneHost(), NO_ORDERS);
      QuietSound(Client(first.w, BLANK))
  {
    hide Reconcile, Sound, OneHost;
    FirstPostIsRoute();
    OneHostPlan();
    EmptyInSync(THREE_READS + [Drop(true, true)]);
    LeftSound(Empty(THREE_READS + [Drop(true, true)]), BLANK, OneHost(), NO_ORDERS);
  }

  lemma FirstPostIsRoute()
    ensures var first := Reconcile(Empty(THREE_READS + [Drop(true, true)]), BLANK, OneHost(), NO_ORDERS);
      !first.ok && first.w.script == [] && AtId(RouteList(first.w.srv), RouteId(HOST)) == [OneRoute()]
  {
    hide EnsureServer, PostRoute, RouteId, FullPlan, OneHost;
    var w := Empty(THREE_READS + [Drop(true, true)]);
    EnsureIdle(w);
    OneHostPlan();
    OneHostIs();
    var p := EnsureServer(w).w;
    ExecAllConcat(p, [AddRoute(OneRoute())], [AddPolicy(OnePolicy())]);
    ExecAllOne(p, AddRoute(OneRoute()));
    LostPost(p, OneRoute(), true);
    AtAppend([], OneRoute(), RouteId(HOST));
  }

  lemma BackOrders()
    ensures OrdersFit(OneHost(), BLANK, Orders([RouteId(HOST)], [TLS_ID]))
  {
    hide RouteId;
    OneHostIs();
    assert Removed(OneHost().routes, map[]).Keys == {RouteId(HOST)};
    assert Removed(OneHost().policies, map[]).Keys == {TLS_ID};
  }

  lemma HealStep(c: Client, call: Call, id: string)
    requires QuietSound(c) && CallFits(c, call)
    ensures var d := After(c, call);
      && QuietSound(d) && d.mem == call.want && Reconcile(c.w, c.mem, call.want, call.orders).ok
      && AtId(RouteList(d.w.srv), id) == Healed(c.mem.routes, call.want.routes, id, AtId(RouteList(c.w.srv), id), 1)
  {
    hide Reconcile, Sound, WellFormed, OrdersFit, AtId;
    QuietStep(c, call);
    var n := SuccessHeals(c.w, c.mem, call.want, call.orders, id);
  }

  /* ---------- a refused read ---------- */

  /** The read of the policies is turned down once: the reconcile reports success and remembers a policy that the
      server lacks. */
  lemma MissedPolicyExample()
    ensures WellFormed(OneHost()) && InSync(Empty([]).srv, BLANK) && OrdersFit(BLANK, OneHost(), NO_ORDERS)
    ensures var w := Empty(THREE_READS + [Deliver] + [Refuse(500)]);
      && Reconcile(w, BLANK, OneHost(), NO_ORDERS).ok
      && MemoryAfter(w, BLANK, OneHost(), NO_ORDERS) == OneHost()
      && !InSync(Reconcile(w, BLANK, OneHost(), NO_ORDERS).w.srv, OneHost())
  {
    hide EnsureServer, PostRoute, PrependPolicy, RouteId, FullPlan, OneHost, OneRoute, OnePolicy;
    var w := Empty(THREE_READS + [Deliver] + [Refuse(500)]);
    EmptyInSync([]);
    EnsureIdle(w);
    OneHostPlan();
    OneHostIs();
    var p := EnsureServer(w).w;
    assert p.script == [Deliver, Refuse(500)];
    ExecAllConcat(p, [AddRoute(OneRoute())], [AddPolicy(OnePolicy())]);
    ExecAllOne(p, AddRoute(OneRoute()));
    GoodPost(p, OneRoute());
    var q := PostRoute(p, OneRoute()).w;
    ExecAllOne(q, AddPolicy(OnePolicy()));
    RefusedPrepend(q, OnePolicy());
    assert OwnedId(TLS_ID) && IdCount([], TLS_ID) == 0;
  }

  lemma GoodPost(w: World, obj: Obj)
    requires w.script == [Deliver, Refuse(500)] && w.srv.routes.Some?
    ensures var s := PostRoute(w, obj); s.ok && s.w.script == [Refuse(500)] && s.w.srv.policies == w.srv.policies
  {
  }

  lemma RefusedPrepend(w: World, obj: Obj)
    requires w.script == [Refuse(500)] && w.srv.policies.Some?
    ensures PrependPolicy(w, obj).ok && PrependPolicy(w, obj).w.srv == w.srv
  {
    var got := DoRequest(w, Get(PolicyNode));
    assert got == Served(World(w.srv, [], w.log + [Entry(Get(PolicyNode), Refuse(500))]), Some(Reply(500, [])));
    CleanRequest(got.w, Put(PolicyNode, [obj] + DropTls([])));
  }
}
