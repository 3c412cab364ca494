/** What becomes of a request for an apply: the try-lock drops it if another apply is in flight. */
module Requests {
  import opened Text
  import opened AdminServer
  import opened AdminClient
  import opened ReconcileProofs
  import opened ReconcileTheorems
  import opened Delivery
  import opened Config
  import opened Fingerprint
  import opened Registry
  import opened Views
  import opened Clean
  import opened Apply
  import opened ApplyFailures
  import opened ApplyRuns
  import opened Starts
  import Collisions
  import Debounce

  /* ---------- when a request comes in time ---------- */

  /** The config that the server will hold when the apply in flight is done; what it holds if there is none. */
  ghost function WillLeave(s: Sys, k: Params): Memory {
    match s.pc
    case Locked => Build(CurrentTargets(s, k), k.tracing)
    case HaveTargets(targets) => Build(targets, k.tracing)
    case HaveStatus(targets, _) => Build(targets, k.tracing)
    case Changed(targets, _) => Build(targets, k.tracing)
    case _ => s.mem
  }

  /** No apply is in flight, or one that has not read its targets yet, or one whose config is the current one. */
  ghost predicate InTime(s: Sys, k: Params) {
    s.pc.Idle? || s.pc.Locked? || WillLeave(s, k) == Build(CurrentTargets(s, k), k.tracing)
  }

  /** The registry stays as it is, be it refreshed or not, no further apply begins, and the reconcile does not fail. */
  ghost predicate Settles(s: Sys, p: Apply.Step, k: Params) {
    && CleanSys(s, k) && Enabled(s, p, k) && GoesWell(s, p, k)
    && (p.Refresh? ==> p.reg == s.reg) && (p.TryBegin? ==> !s.pc.Idle?)
    && (p.DoReconcile? ==> Take(s, p, k).pc.Reconciled?)
  }

  ghost predicate Undisturbed(s: Sys, ps: seq<Apply.Step>, k: Params) {
    RunFits(s, ps, k) && forall i :: 0 <= i < |ps| ==> Settles(Ran(s, ps[..i], k), ps[i], k)
  }

  lemma StepLeaves(s: Sys, p: Apply.Step, k: Params)
    requires Ok(s, k) && Settles(s, p, k)
    ensures var t := Take(s, p, k); WillLeave(t, k) == WillLeave(s, k) && t.reg == s.reg
  {
    hide InSync, WellFormed, Build, TargetsOf, DomainBytes, Reconcile, CleanTargets, CleanRegistry, OrdersFit;
    if p.ReadContainers? && s.stored == Some(Print(DomainBytes(s.pc.targets), s.reg, s.pc.error)) {
      PrintMeans(s.stored.value.domains, s.mem, s.pc.targets, k);
    }
  }

  lemma {:induction false} RunLeaves(s: Sys, ps: seq<Apply.Step>, k: Params)
    requires Ok(s, k) && Undisturbed(s, ps, k)
    ensures var t := Ran(s, ps, k); WillLeave(t, k) == WillLeave(s, k) && t.reg == s.reg
  {
    hide Ok, Settles, Take, WillLeave, GoesWell, Enabled;
    if ps != [] {
      var n := |ps| - 1;
      var front := ps[..n];
      forall i | 0 <= i < n ensures Settles(Ran(s, front[..i], k), front[i], k) {
        assert front[..i] == ps[..i];
      }
      RunLeaves(s, front, k);
      RunOk(s, front, k);
      assert Settles(Ran(s, ps[..n], k), ps[n], k);
      StepLeaves(Ran(s, front, k), ps[n], k);
    }
  }

  /** If an apply is requested after the last change of the registry, and the apply then in flight, be it
      the one requested or an earlier one, comes to its end, the server is in step with the
      registry exactly when the request came in time. */
  lemma RequestServedIff(s: Sys, ps: seq<Apply.Step>, k: Params)
    requires Ok(s, k) && CleanSys(s, k) && Undisturbed(Take(s, TryBegin, k), ps, k)
    requires Ran(Take(s, TryBegin, k), ps, k).pc.Idle?
    ensures var t := Ran(Take(s, TryBegin, k), ps, k);
      t.reg == s.reg && (InSync(t.w.srv, Build(CurrentTargets(t, k), k.tracing)) <==> InTime(s, k))
  {
    hide InSync, WellFormed, Build, TargetsOf, CleanRegistry, Undisturbed, Ran, Ok;
    var s1 := Take(s, TryBegin, k);
    TakeOk(s, TryBegin, k);
    RunLeaves(s1, ps, k);
    UndisturbedFits(s1, ps, k);
    RunOk(s1, ps, k);
    var t := Ran(s1, ps, k);
    InStepIff(t, Build(CurrentTargets(t, k), k.tracing), k);
  }

  lemma UndisturbedFits(s: Sys, ps: seq<Apply.Step>, k: Params)
    requires Undisturbed(s, ps, k)
    ensures RunFits(s, ps, k)
  {
  }

  lemma InStepIff(t: Sys, want: Memory, k: Params)
    requires Ok(t, k) && want == Build(CurrentTargets(t, k), k.tracing)
    ensures InSync(t.w.srv, want) <==> t.mem == want
  {
    BuildWellFormed(CurrentTargets(t, k), k.tracing);
    if InSync(t.w.srv, want) { InSyncDecides(t.w.srv, t.mem, want); }
  }

  /* ---------- a request that comes too late ---------- */

  /** The registry changes after the apply in flight has read its targets. */
  function TooLate(reg: Records, error: string): seq<Apply.Step> {
    [TryBegin] + [ReadTargets] + [Refresh(reg, error)] + [TryBegin]
  }

  function Rest(o: Orders): seq<Apply.Step> {
    [ReadStatus] + [ReadContainers] + [DoReconcile([], o)] + [WriteIndex(true)] + [StorePrint] + [Finish]
  }

  /** The rest if the fingerprint computed from the old targets and the new containers is the one stored. */
  function SkippedRest(): seq<Apply.Step> {
    [ReadStatus] + [ReadContainers] + [Finish]
  }

  ghost function LatePrint(s: Sys, reg: Records, error: string, k: Params): Print {
    Print(DomainBytes(CurrentTargets(s, k)), reg, error)
  }

  lemma LateLeads(s: Sys, reg: Records, error: string, k: Params)
    requires CleanSys(s, k) && CleanRegistry(reg, k.settings) && s.pc.Idle?
    ensures Leads(s, TooLate(reg, error),
      s.(reg := reg, error := error, pc := HaveTargets(CurrentTargets(s, k)), current := false), k)
  {
    hide RunFits, Ran, Leads, CleanRegistry, TargetsOf, DomainBytes;
    LeadsNowhere(s, k);
    var t1 := Take(s, TryBegin, k);
    OneMore(s, [], s, TryBegin, k);
    assert [] + [TryBegin] == [TryBegin];
    var t2 := Take(t1, ReadTargets, k);
    OneMore(s, [TryBegin], t1, ReadTargets, k);
    var t3 := Take(t2, Refresh(reg, error), k);
    OneMore(s, [TryBegin] + [ReadTargets], t2, Refresh(reg, error), k);
    OneMore(s, [TryBegin] + [ReadTargets] + [Refresh(reg, error)], t3, TryBegin, k);
  }

  lemma ReadsOn(s: Sys, ps: seq<Apply.Step>, u: Sys, k: Params) returns (t: Sys)
    requires Leads(s, ps, u, k) && CleanSys(u, k) && u.pc.HaveTargets?
    ensures Leads(s, ps + [ReadStatus] + [ReadContainers], t, k)
    ensures var print_ := Print(DomainBytes(u.pc.targets), u.reg, u.error);
      t == u.(pc := if u.stored == Some(print_) then Finishing else Changed(u.pc.targets, print_))
  {
    hide RunFits, Ran, Leads, CleanRegistry, DomainBytes;
    var v := Take(u, ReadStatus, k);
    OneMore(s, ps, u, ReadStatus, k);
    t := Take(v, ReadContainers, k);
    OneMore(s, ps + [ReadStatus], v, ReadContainers, k);
  }

  lemma AppliesOn(s: Sys, ps: seq<Apply.Step>, u: Sys, k: Params, o: Orders) returns (t: Sys)
    requires Leads(s, ps, u, k) && CleanSys(u, k) && u.pc.Changed?
    requires InSync(u.w.srv, u.mem) && WellFormed(u.mem)
    requires OrdersFit(u.mem, Build(u.pc.targets, k.tracing), o)
    ensures Leads(s, ps + [DoReconcile([], o)] + [WriteIndex(true)] + [StorePrint] + [Finish], t, k)
    ensures t.pc.Idle? && t.reg == u.reg && t.mem == Build(u.pc.targets, k.tracing)
  {
    hide RunFits, Ran, Leads, CleanRegistry, Build, InSync, WellFormed, Reconcile, PolicyMissed, OrdersFit, Untouched;
    BuildWellFormed(u.pc.targets, k.tracing);
    QuietNetworkArrives(u.w.(script := []), u.mem, Build(u.pc.targets, k.tracing), o);
    var v := Take(u, DoReconcile([], o), k);
    OneMore(s, ps, u, DoReconcile([], o), k);
    var x := Take(v, WriteIndex(true), k);
    OneMore(s, ps + [DoReconcile([], o)], v, WriteIndex(true), k);
    var y := Take(x, StorePrint, k);
    OneMore(s, ps + [DoReconcile([], o)] + [WriteIndex(true)], x, StorePrint, k);
    t := Take(y, Finish, k);
    OneMore(s, ps + [DoReconcile([], o)] + [WriteIndex(true)] + [StorePrint], y, Finish, k);
  }

  /** From every idle state: the rest of that apply meets no fault, and still the server ends with the config of
      before the change. */
  lemma LateRequest(s: Sys, reg: Records, error: string, k: Params, o: Orders) returns (t: Sys)
    requires Ok(s, k) && CleanSys(s, k) && CleanRegistry(reg, k.settings) && s.pc.Idle?
    requires OrdersFit(s.mem, Build(CurrentTargets(s, k), k.tracing), o)
    requires Build(CurrentTargets(s, k), k.tracing) != Build(TargetsOf(reg, k.settings), k.tracing)
    ensures Leads(s, TooLate(reg, error)
        + if s.stored == Some(LatePrint(s, reg, error, k)) then SkippedRest() else Rest(o), t, k)
    ensures t.pc.Idle? && t.reg == reg && !InSync(t.w.srv, Build(CurrentTargets(t, k), k.tracing))
  {
    hide RunFits, Ran, Leads, CleanRegistry, TargetsOf, DomainBytes;
    hide Build, InSync, WellFormed, OrdersFit, Describes, Hashed;
    var ps := TooLate(reg, error);
    LateLeads(s, reg, error, k);
    var u := s.(reg := reg, error := error, pc := HaveTargets(CurrentTargets(s, k)), current := false);
    var v := ReadsOn(s, ps, u, k);
    if v.pc.Finishing? {
      t := Take(v, Finish, k);
      OneMore(s, ps + [ReadStatus] + [ReadContainers], v, Finish, k);
      assert ps + [ReadStatus] + [ReadContainers] + [Finish] == ps + SkippedRest();
      CleanView(s.reg, k.settings);
      PrintMeans(s.stored.value.domains, s.mem, CurrentTargets(s, k), k);
      LeadsOk(s, ps + SkippedRest(), t, k);
    } else {
      t := AppliesOn(s, ps + [ReadStatus] + [ReadContainers], v, k, o);
      assert ps + [ReadStatus] + [ReadContainers] + [DoReconcile([], o)] + [WriteIndex(true)] + [StorePrint] + [Finish]
        == ps + Rest(o);
      LeadsOk(s, ps + Rest(o), t, k);
    }
    InStepIff(t, Build(CurrentTargets(t, k), k.tracing), k);
  }

  lemma LeadsOk(s: Sys, ps: seq<Apply.Step>, t: Sys, k: Params)
    requires Ok(s, k) && Leads(s, ps, t, k)
    ensures Ok(t, k)
  {
    RunOk(s, ps, k);
  }

  /* ---------- the same with concrete containers ---------- */

  const INDEX := Obj(None, Other("index"))

  /** The program after a start without containers, on a server that had no lists: the index route is posted and the
      fingerprint stored. */
  ghost function Fresh(): Sys {
    StartSys(Reliable(Server(false, false, None, None)), INDEX, map[], "", Networked(), Orders([], []))
  }

  /** Two containers, for `a` and `b`. */
  function Started(): Records {
    Collisions.OnTwo(Collisions.Named("1", "x", "a"), Collisions.Named("2", "y", "b"))
  }

  function Networked(): Params {
    Params(Collisions.NETWORKED, false)
  }

  lemma SomethingBuilt()
    ensures Build(TargetsOf(Started(), Collisions.NETWORKED), false).routes != map[]
  {
    hide TargetsOf, Contribution, PairsOf, Build, Collisions.Named;
    var i, j := Collisions.Named("1", "x", "a"), Collisions.Named("2", "y", "b");
    Collisions.NamedGives("1", "x", "a");
    Collisions.NamedGives("2", "y", "b");
    Collisions.PairsOfTwo(i, j, ("a", "x" + ":1"), ("b", "y" + ":1"));
    InTargets(Started(), Collisions.NETWORKED, ["1", "2"], ("a", "x" + ":1"));
    RoutesBuilt(TargetsOf(Started(), Collisions.NETWORKED));
  }

  lemma InTargets(m: Records, cfg: Settings, ids: seq<string>, p: Pair)
    requires Lists(ids, m.Keys) && p in PairsOf(m, ids, cfg)
    ensures p.0 in TargetsOf(m, cfg)
  {
    hide TargetsOf, PairsOf;
    TargetsExactly(m, cfg, ids, p.0);
    assert (p.0, p.1) in PairsOf(m, ids, cfg);
  }

  lemma RoutesBuilt(targets: Targets)
    requires targets != map[]
    ensures Build(targets, false).routes != map[]
  {
    hide Build, RouteId;
    var d :| d in targets;
    BuildRoutes(targets, false, RouteId(d));
  }

  lemma FreshOk()
    ensures var s, k := Fresh(), Networked();
      && Ok(s, k) && CleanSys(s, k) && s.pc.Idle? && s.reg == map[] && s.mem == Memory(map[], map[])
      && s.stored == Some(CurrentPrint(s, k))
      && s.w.script == [] && s.w.srv.up && s.w.srv.routes.Some? && s.w.srv.policies.Some?
      && Build(CurrentTargets(s, k), false) == Memory(map[], map[])
  {
    hide Ok, StartSys, TargetsOf, DomainBytes, Build;
    var w := Reliable(Server(false, false, None, None));
    assert UserServer(w.srv) && !Owned(INDEX) && CleanRegistry(map[], Collisions.NETWORKED);
    EmptyStart(w, INDEX, Networked());
    NothingBuilt(Networked());
  }

  lemma StartedClean()
    ensures CleanRegistry(Started(), Collisions.NETWORKED) && CleanRegistry(map[], Collisions.NETWORKED)
    ensures OrdersFit(Memory(map[], map[]), Memory(map[], map[]), Orders([], []))
  {
    hide CleanRecord, Collisions.Named;
    NamedClean("1", "x", "a");
    NamedClean("2", "y", "b");
  }

  lemma NamedClean(id: string, name: string, domain: string)
    requires CleanAddress(name) && NUL !in domain
    ensures CleanRecord(Collisions.Named(id, name, domain))
  {
  }

  /** Two containers start while an apply that has read the empty registry is under way. The apply requested
      for them is dropped, nothing fails, and in the end the server has no route for them. */
  lemma DroppedRequestExample() returns (t: Sys)
    ensures Leads(Fresh(), TooLate(Started(), "") + Rest(Orders([], [])), t, Networked())
    ensures Fresh().stored.Some? && t.pc.Idle? && t.reg == Started()
    ensures !InSync(t.w.srv, Build(CurrentTargets(t, Networked()), false))
  {
    hide Ok, Leads, InSync, Build, TargetsOf, TooLate, Rest, Fresh, DomainBytes;
    FreshOk();
    SomethingBuilt();
    StartedClean();
    assert LatePrint(Fresh(), Started(), "", Networked()).containers != Fresh().stored.value.containers;
    t := LateRequest(Fresh(), Started(), "", Networked(), Orders([], []));
  }

  /* ---------- from the event to the server ---------- */

  /** What the debounce loop does are the steps of `ps` at the places `f`, in order; other steps come from elsewhere. */
  ghost predicate Drives(log: seq<Debounce.Act>, ps: seq<Apply.Step>, f: seq<nat>) {
    && |f| == |log|
    && (forall i :: 0 <= i < |log| && !log[i].Accepted? ==>
          f[i] < |ps| && if log[i].Refreshed? then ps[f[i]].Refresh? else ps[f[i]] == TryBegin)
    && (forall i, j :: 0 <= i < j < |log| && !log[i].Accepted? && !log[j].Accepted? ==> f[i] < f[j])
  }

  lemma {:induction false} RanConcat(s: Sys, a: seq<Apply.Step>, b: seq<Apply.Step>, k: Params)
    ensures Ran(s, a + b, k) == Ran(Ran(s, a, k), b, k)
  {
    if b == [] {
      assert a + b == a;
    } else {
      var n := |b| - 1;
      RanConcat(s, a, b[..n], k);
      assert (a + b)[..|a + b| - 1] == a + b[..n];
    }
  }

  lemma {:induction false} FitsPrefix(s: Sys, ps: seq<Apply.Step>, n: nat, k: Params)
    requires RunFits(s, ps, k) && n <= |ps|
    ensures RunFits(s, ps[..n], k) && (n < |ps| ==> CleanSys(Ran(s, ps[..n], k), k))
  {
    if n < |ps| {
      var front := ps[..|ps| - 1];
      FitsPrefix(s, front, n, k);
      assert front[..n] == ps[..n];
    } else {
      assert ps[..n] == ps;
    }
  }

  /** Every event accepted before a tick leads to a change of the registry and, after it, a request at some
      step `q`. If the registry does not change any more and the apply in flight after `q` comes to its
      end, then the server is in step with the registry exactly when the request came in time. */
  lemma EventReachesServer(start: nat, status: Debounce.Status, inputs: seq<Debounce.Input>, i: nat,
                           s: Sys, ps: seq<Apply.Step>, f: seq<nat>, k: Params)
      returns (j: nat)
    requires Debounce.Possible(Debounce.Start(start, status), inputs)
    requires inputs != [] && inputs[|inputs| - 1].Tick?
    requires i < |Debounce.Run(Debounce.Start(start, status), inputs).log|
    requires Debounce.Run(Debounce.Start(start, status), inputs).log[i].Accepted?
    requires Ok(s, k) && RunFits(s, ps, k) && Drives(Debounce.Run(Debounce.Start(start, status), inputs).log, ps, f)
    ensures Debounce.ServedAt(Debounce.Run(Debounce.Start(start, status), inputs).log, i, j)
    ensures |f| > j + 1 && f[j] < f[j + 1] < |ps| && ps[f[j]].Refresh? && ps[f[j + 1]] == TryBegin
    ensures var q := f[j + 1]; var t := Ran(s, ps, k);
      Undisturbed(Ran(s, ps[..q + 1], k), ps[q + 1..], k) && t.pc.Idle? ==>
        (InSync(t.w.srv, Build(CurrentTargets(t, k), k.tracing)) <==> InTime(Ran(s, ps[..q], k), k))
  {
    hide Ok, RunFits, Ran, InSync, Build, InTime, CleanRegistry, Undisturbed, Settles, TargetsOf;
    var log := Debounce.Run(Debounce.Start(start, status), inputs).log;
    Debounce.TickServesAll(start, status, inputs, i);
    j :| Debounce.ServedAt(log, i, j);
    var q := f[j + 1];
    var before := Ran(s, ps[..q], k);
    FitsPrefix(s, ps, q, k);
    RunOk(s, ps[..q], k);
    RanOne(s, ps[..q], TryBegin, k);
    assert ps[..q] + [TryBegin] == ps[..q + 1] && ps[..q + 1] + ps[q + 1..] == ps;
    RanConcat(s, ps[..q + 1], ps[q + 1..], k);
    if Undisturbed(Take(before, TryBegin, k), ps[q + 1..], k) && Ran(s, ps, k).pc.Idle? {
      RequestServedIff(before, ps[q + 1..], k);
    }
  }

  lemma RanOne(s: Sys, ps: seq<Apply.Step>, p: Apply.Step, k: Params)
    requires Enabled(Ran(s, ps, k), p, k)
    ensures Ran(s, ps + [p], k) == Take(Ran(s, ps, k), p, k)
  {
    assert (ps + [p])[..|ps|] == ps;
  }
}
