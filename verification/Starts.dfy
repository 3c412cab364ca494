/** The state in which the first apply is requested: the server has been set up, the index route posted and the first
    fingerprint stored. */
module Starts {
  import opened Text
  import opened AdminServer
  import opened AdminClient
  import opened Edits
  import opened PolicyProgress
  import opened ReconcileProofs
  import opened ReconcileTheorems
  import opened ReconcileSafety
  import opened Delivery
  import opened Config
  import opened Fingerprint
  import opened Registry
  import opened Views
  import opened Clean
  import opened Apply
  import opened ApplyFailures
  import opened ApplyRuns

  const BLANK := Memory(map[], map[])

  ghost function FirstWish(reg: Records, k: Params): Memory {
    Build(TargetsOf(reg, k.settings), k.tracing)
  }

  /** The program once its first config is in place. */
  ghost function StartSys(w: World, index: Obj, reg: Records, error: string, k: Params, o: Orders): Sys {
    Sys(reg, error, PostDevlocal(w, index, FirstWish(reg, k), o).w, FirstWish(reg, k),
        Some(Print(DomainBytes(TargetsOf(reg, k.settings)), reg, error)), Idle, false)
  }

  /** A server as the user's own config leaves it: nothing of ours, and a 404 for what is not there. */
  ghost predicate UserServer(s: Server) {
    !s.lenient && (s.routes.Some? ==> s.up) && Untaken(RouteList(s)) && Untaken(PolicyList(s))
  }

  lemma IndexGoesWell(w: World, index: Obj)
    requires w.script == [] && UserServer(w.srv)
    ensures EnsureServer(w).ok && PostRoute(EnsureServer(w).w, index).ok
    ensures var w2 := PostRoute(EnsureServer(w).w, index).w;
      w2.script == [] && w2.srv.up && w2.srv.routes.Some? && w2.srv.policies.Some?
  {
    hide EnsureServer, Untaken, AllClean, DoRequest;
    CleanEnsure(w);
    CleanNotRefused(w, EnsureServer(w).w);
    EnsureServerOp(w);
    QuietRequest(EnsureServer(w).w, Post(index));
    CleanNotRefused(EnsureServer(w).w, PostRoute(EnsureServer(w).w, index).w);
  }

  /** Without faults the start succeeds, and the program is in a state from which every run is covered: in step, with
      the current fingerprint stored and no apply in flight. */
  lemma QuietStart(w: World, index: Obj, reg: Records, error: string, k: Params, o: Orders)
    requires w.script == [] && UserServer(w.srv) && !Owned(index)
    requires CleanRegistry(reg, k.settings) && OrdersFit(BLANK, FirstWish(reg, k), o)
    ensures PostDevlocal(w, index, FirstWish(reg, k), o).ok
    ensures var s := StartSys(w, index, reg, error, k, o);
      && Ok(s, k) && CleanSys(s, k) && s.stored == Some(CurrentPrint(s, k))
      && Foreign(RouteList(s.w.srv)) == RouteList(w.srv) + [index] && s.w.script == []
  {
    hide EnsureServer, PostRoute, Reconcile, PolicyMissed, Ok, Untaken, TargetsOf, DomainBytes;
    hide OrdersFit, CleanRegistry, Foreign;
    IndexGoesWell(w, index);
    var w2 := PostRoute(EnsureServer(w).w, index).w;
    QuietReconcile(w2, BLANK, FirstWish(reg, k), o);
    StartsOk(w, index, reg, error, k, o);
  }

  /* ---------- a start with nothing running ---------- */

  lemma NothingBuilt(k: Params)
    ensures TargetsOf(map[], k.settings) == map[] && Build(map[], k.tracing) == BLANK
  {
    AscendingLists({});
    assert Ascending({}) == [];
  }

  lemma NothingPlanned(w: World)
    ensures OrdersFit(BLANK, BLANK, Orders([], []))
    ensures Reconcile(w, BLANK, BLANK, Orders([], [])) == AdminClient.Step(w, true)
  {
    var none: ObjMap := map[];
    assert Removed(none, none) == none && Updated(none, none) == none && Added(none, none) == none;
    AscendingLists({});
  }

  /** Then nothing but the index route is on the server, besides the user's objects. */
  lemma EmptyStart(w: World, index: Obj, k: Params)
    requires w.script == [] && UserServer(w.srv) && !Owned(index) && CleanRegistry(map[], k.settings)
    ensures var s := StartSys(w, index, map[], "", k, Orders([], []));
      && Ok(s, k) && CleanSys(s, k) && s.pc.Idle? && s.reg == map[] && s.mem == BLANK
      && s.stored == Some(CurrentPrint(s, k))
      && s.w.script == [] && s.w.srv.up && s.w.srv.routes.Some? && s.w.srv.policies.Some?
  {
    hide EnsureServer, PostRoute, Reconcile, Ok, Untaken, TargetsOf, DomainBytes, Build;
    NothingBuilt(k);
    IndexGoesWell(w, index);
    NothingPlanned(PostRoute(EnsureServer(w).w, index).w);
    QuietStart(w, index, map[], "", k, Orders([], []));
  }
}
