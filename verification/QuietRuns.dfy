/** Duplicates last: over runs of reconciles without faults, what is on the server too often stays there. */
module QuietRuns {
  import opened Text
  import opened AdminServer
  import opened AdminClient
  import opened Edits
  import opened RouteProgress
  import opened ReconcileProofs
  import opened ReconcileTheorems
  import opened ReconcileSafety
  import opened Delivery
  import opened Healing
  import opened PolicyHealing

  /** How many routes with this id there are beyond the one, or none, that is remembered. */
  function Surplus(c: Client, id: string): int {
    IdCount(RouteList(c.w.srv), id) - if id in c.mem.routes then 1 else 0
  }

  /** No faults to come, and lists as the client makes them. */
  ghost predicate QuietSound(c: Client) {
    c.w.script == [] && Sound(c.w.srv) && WellFormed(c.mem)
  }

  ghost predicate CallFits(c: Client, call: Call) {
    WellFormed(call.want) && OrdersFit(c.mem, call.want, call.orders)
  }

  lemma QuietStep(c: Client, call: Call)
    requires QuietSound(c) && CallFits(c, call)
    ensures QuietSound(After(c, call)) && After(c, call).mem == call.want
    ensures Reconcile(c.w, c.mem, call.want, call.orders).ok
  {
    hide Reconcile, PolicyMissed;
    QuietReconcile(c.w, c.mem, call.want, call.orders);
    SoundStays(c.w, c.mem, call.want, call.orders);
  }

  /** One reconcile: a removal takes one copy, a change replaces the first, an addition adds one. So the surplus stays,
      unless a remembered route was missing that is removed or put back. */
  lemma StepKeepsSurplus(c: Client, call: Call, id: string)
    requires QuietSound(c) && CallFits(c, call)
    ensures Surplus(After(c, call), id) ==
      if Surplus(c, id) < 0
         && (id in Removed(c.mem.routes, call.want.routes) || id in Updated(c.mem.routes, call.want.routes))
      then 0
      else Surplus(c, id)
  {
    hide Reconcile, IdCount, AtId, Sound, WellFormed, OrdersFit;
    QuietStep(c, call);
    var n := SuccessHeals(c.w, c.mem, call.want, call.orders, id);
    var at := AtId(RouteList(c.w.srv), id);
    AtIdCount(RouteList(c.w.srv), id);
    AtIdCount(RouteList(After(c, call).w.srv), id);
    WithoutLength(at, 1);
  }

  /** The route with this id is right if there is no surplus of it. */
  ghost predicate RightOrSurplus(c: Client, id: string) {
    Surplus(c, id) >= 0 && (Surplus(c, id) == 0 ==> AsWished(c.w.srv, c.mem, id))
  }

  lemma StepKeepsRight(c: Client, call: Call, id: string)
    requires QuietSound(c) && CallFits(c, call) && RightOrSurplus(c, id)
    ensures RightOrSurplus(After(c, call), id) && Surplus(After(c, call), id) == Surplus(c, id)
  {
    hide Reconcile, IdCount, AtId, Sound, WellFormed, OrdersFit;
    StepKeepsSurplus(c, call, id);
    QuietStep(c, call);
    QuietHealsIff(c.w, c.mem, call.want, call.orders, id);
  }

  lemma {:induction false} RunKeepsRight(c: Client, calls: seq<Call>, id: string)
    requires RunFits(c, calls) && QuietSound(c) && RightOrSurplus(c, id)
    ensures var d := Run(c, calls);
      QuietSound(d) && RightOrSurplus(d, id) && Surplus(d, id) == Surplus(c, id)
  {
    hide QuietSound, RightOrSurplus, After, WellFormed, OrdersFit, Surplus;
    if calls != [] {
      var n := |calls| - 1;
      RunPrefix(c, calls);
      RunKeepsRight(c, calls[..n], id);
      LastFits(c, calls);
      QuietStep(Run(c, calls[..n]), calls[n]);
      StepKeepsRight(Run(c, calls[..n]), calls[n], id);
    }
  }

  lemma LastFits(c: Client, calls: seq<Call>)
    requires RunFits(c, calls) && calls != []
    ensures CallFits(Run(c, calls[..|calls| - 1]), calls[|calls| - 1])
  {
    hide WellFormed, OrdersFit;
  }

  lemma RightHasNoSurplus(c: Client, id: string)
    requires AsWished(c.w.srv, c.mem, id)
    ensures Surplus(c, id) == 0
  {
    AtIdCount(RouteList(c.w.srv), id);
  }

  /** After any run of reconciles without faults, a route that was right, or there too often, is right exactly when
      there was none too many at the start. Otherwise it stays there too often, also when it is wished no more. */
  lemma SurplusLasts(c: Client, calls: seq<Call>, id: string)
    requires RunFits(c, calls) && QuietSound(c) && RightOrSurplus(c, id)
    ensures var d := Run(c, calls);
      && (AsWished(d.w.srv, d.mem, id) <==> Surplus(c, id) == 0)
      && IdCount(RouteList(d.w.srv), id) == Surplus(c, id) + if id in d.mem.routes then 1 else 0
  {
    hide QuietSound, RunFits, Run, AsWished;
    RunKeepsRight(c, calls, id);
    var d := Run(c, calls);
    if AsWished(d.w.srv, d.mem, id) { RightHasNoSurplus(d, id); }
  }
}
