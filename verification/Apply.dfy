/** Applies and registry changes interleaved step by step: a fingerprint that matches means the
    server is already right. */
module Apply {
  import opened Text
  import opened AdminServer
  import opened AdminClient
  import opened ReconcileProofs
  import opened ReconcileTheorems
  import opened Config
  import opened Fingerprint
  import opened Registry
  import opened Views
  import opened Clean

  /** What is hashed: the domain bytes, the containers' JSON and the discovery error. The digest
      stands for what goes into it. */
  datatype Print = Print(domains: string, containers: Records, error: string)

  /** Where the one apply in flight stands. */
  datatype Pc =
    | Idle
    | Locked
    | HaveTargets(targets: Targets)
    | HaveStatus(targets: Targets, error: string)
    | Changed(targets: Targets, print_: Print)
    | Reconciled(targets: Targets, print_: Print)
    | Written(targets: Targets, print_: Print)
    | Finishing

  /** `current` says that the registry has not changed since the apply in flight began, and that
      its reconcile has not failed. */
  datatype Sys = Sys(reg: Records, error: string, w: World, mem: Memory, stored: Option<Print>, pc: Pc, current: bool)

  datatype Params = Params(settings: Settings, tracing: bool)

  datatype Step =
    | Refresh(reg: Records, error: string)
    | TryBegin
    | ReadTargets
    | ReadStatus
    | ReadContainers
    | DoReconcile(script: seq<Fault>, orders: Orders)
    | WriteIndex(written: bool)
    | StorePrint
    | Finish

  ghost predicate Enabled(s: Sys, p: Step, k: Params) {
    match p
    case Refresh(_, _) => true
    case TryBegin => true
    case ReadTargets => s.pc.Locked?
    case ReadStatus => s.pc.HaveTargets?
    case ReadContainers => s.pc.HaveStatus?
    case DoReconcile(_, o) => s.pc.Changed? && OrdersFit(s.mem, Build(s.pc.targets, k.tracing), o)
    case WriteIndex(_) => s.pc.Reconciled?
    case StorePrint => s.pc.Written?
    case Finish => s.pc.Finishing?
  }

  ghost function Take(s: Sys, p: Step, k: Params): Sys
    requires Enabled(s, p, k)
  {
    match p
    case Refresh(reg, error) => s.(reg := reg, error := error, current := false)
    case TryBegin => if s.pc.Idle? then s.(pc := Locked, current := true) else s
    case ReadTargets => s.(pc := HaveTargets(TargetsOf(s.reg, k.settings)))
    case ReadStatus => s.(pc := HaveStatus(s.pc.targets, s.error))
    case ReadContainers =>
      var print_ := Print(DomainBytes(s.pc.targets), s.reg, s.pc.error);
      s.(pc := if s.stored == Some(print_) then Finishing else Changed(s.pc.targets, print_))
    case DoReconcile(script, o) =>
      var w, want := s.w.(script := script), Build(s.pc.targets, k.tracing);
      var r := Reconcile(w, s.mem, want, o);
      s.(w := r.w, mem := MemoryAfter(w, s.mem, want, o), current := s.current && r.ok,
         pc := if r.ok then Reconciled(s.pc.targets, s.pc.print_) else Finishing)
    case WriteIndex(written) => s.(pc := if written then Written(s.pc.targets, s.pc.print_) else Finishing)
    case StorePrint => s.(stored := Some(s.pc.print_), pc := Finishing)
    case Finish => s.(pc := Idle)
  }

  /** The apply in flight does not fail at this step, or fails without harm: a reconcile that has changed neither
      list, or an index page not written while the stored fingerprint is of targets with the config just applied. */
  ghost predicate GoesWell(s: Sys, p: Step, k: Params)
    requires Enabled(s, p, k)
  {
    match p
    case DoReconcile(script, o) =>
      var w, want := s.w.(script := script), Build(s.pc.targets, k.tracing);
      var r := Reconcile(w, s.mem, want, o);
      if r.ok then !PolicyMissed(w, s.mem, want, o) else Untouched(w.srv, r.w.srv)
    case WriteIndex(written) => written || s.stored.None? || Describes(s.stored.value.domains, s.mem, k)
    case _ => true
  }

  /* ---------- the invariant ---------- */

  ghost predicate CleanSys(s: Sys, k: Params) {
    CleanRegistry(s.reg, k.settings)
  }

  /** The fingerprint is of targets whose config is the one remembered. */
  ghost predicate Describes(domains: string, mem: Memory, k: Params) {
    exists d :: CleanTargets(d) && domains == DomainBytes(d) && mem == Build(d, k.tracing)
  }

  ghost predicate Hashed(domains: string) {
    exists d :: CleanTargets(d) && domains == DomainBytes(d)
  }

  /** Between the reconcile and the new fingerprint the stored one is out of date. */
  predicate MidApply(pc: Pc) {
    pc.Reconciled? || pc.Written?
  }

  ghost predicate Ok(s: Sys, k: Params) {
    && InSync(s.w.srv, s.mem) && WellFormed(s.mem)
    && (s.stored.Some? && !MidApply(s.pc) ==> Describes(s.stored.value.domains, s.mem, k))
    && (s.stored.Some? ==> Hashed(s.stored.value.domains))
    && (s.pc.HaveTargets? || s.pc.HaveStatus? || s.pc.Changed? || MidApply(s.pc) ==>
          CleanTargets(s.pc.targets) && (s.current ==> s.pc.targets == TargetsOf(s.reg, k.settings)))
    && (s.pc.Changed? || MidApply(s.pc) ==> s.pc.print_.domains == DomainBytes(s.pc.targets))
    && (MidApply(s.pc) ==> s.mem == Build(s.pc.targets, k.tracing))
    && (s.pc.Finishing? && s.current ==> s.mem == Build(TargetsOf(s.reg, k.settings), k.tracing))
  }

  /** A fingerprint that matches describes the config that these targets build. */
  lemma PrintMeans(domains: string, mem: Memory, d: Targets, k: Params)
    requires Describes(domains, mem, k) && CleanTargets(d) && domains == DomainBytes(d)
    ensures mem == Build(d, k.tracing)
  {
    var e :| CleanTargets(e) && domains == DomainBytes(e) && mem == Build(e, k.tracing);
    BytesDetermine(d, e);
    SameTargetsSameConfig(d, e, k.tracing);
  }

  lemma TakeOk(s: Sys, p: Step, k: Params)
    requires Ok(s, k) && CleanSys(s, k) && Enabled(s, p, k) && GoesWell(s, p, k)
    ensures Ok(Take(s, p, k), k)
  {
    hide InSync, WellFormed, Build, TargetsOf, DomainBytes, CleanTargets, CleanRegistry;
    hide Reconcile, PolicyMissed, OrdersFit, Untouched;
    match p
    case Refresh(_, _) =>
    case TryBegin =>
    case ReadTargets => CleanView(s.reg, k.settings);
    case ReadStatus =>
    case ReadContainers =>
      if s.stored == Some(Print(DomainBytes(s.pc.targets), s.reg, s.pc.error)) {
        PrintMeans(s.stored.value.domains, s.mem, s.pc.targets, k);
      }
    case DoReconcile(script, o) =>
      BuildWellFormed(s.pc.targets, k.tracing);
      var w, want := s.w.(script := script), Build(s.pc.targets, k.tracing);
      if Reconcile(w, s.mem, want, o).ok {
        SuccessRefines(w, s.mem, want, o);
      } else {
        FailureShows(w, s.mem, want, o);
      }
    case WriteIndex(_) =>
    case StorePrint =>
      assert Describes(s.pc.print_.domains, s.mem, k);
    case Finish =>
  }

  /* ---------- runs ---------- */

  ghost predicate RunFits(s: Sys, ps: seq<Step>, k: Params) {
    ps == [] ||
    (var n := |ps| - 1;
     && RunFits(s, ps[..n], k)
     && CleanSys(Ran(s, ps[..n], k), k)
     && Enabled(Ran(s, ps[..n], k), ps[n], k) && GoesWell(Ran(s, ps[..n], k), ps[n], k))
  }

  ghost function Ran(s: Sys, ps: seq<Step>, k: Params): Sys {
    if ps == [] then s else
    var n := |ps| - 1;
    var before := Ran(s, ps[..n], k);
    if Enabled(before, ps[n], k) then Take(before, ps[n], k) else before
  }

  lemma {:induction false} RunOk(s: Sys, ps: seq<Step>, k: Params)
    requires Ok(s, k) && RunFits(s, ps, k)
    ensures Ok(Ran(s, ps, k), k)
  {
    hide Ok, CleanSys, Enabled, GoesWell, Take;
    if ps != [] {
      var n := |ps| - 1;
      RunOk(s, ps[..n], k);
      TakeOk(Ran(s, ps[..n], k), ps[n], k);
    }
  }

  /** On every interleaving in which no apply fails with harm: if the stored fingerprint agrees with
      one computed from any targets, together with any containers and any error read before or after
      them, then the server already holds exactly the config of those targets. */
  lemma SkipIsSound(s: Sys, ps: seq<Step>, k: Params, d: Targets, containers: Records, error: string)
    requires Ok(s, k) && RunFits(s, ps, k) && CleanTargets(d)
    requires var t := Ran(s, ps, k); !MidApply(t.pc) && t.stored == Some(Print(DomainBytes(d), containers, error))
    ensures InSync(Ran(s, ps, k).w.srv, Build(d, k.tracing))
  {
    RunOk(s, ps, k);
    var t := Ran(s, ps, k);
    PrintMeans(t.stored.value.domains, t.mem, d, k);
  }

  /** An apply that goes well and began after the last registry change leaves the server as the
      current targets call for, whether it was skipped or carried out. */
  lemma CurrentApplyIsCurrent(s: Sys, ps: seq<Step>, k: Params)
    requires Ok(s, k) && RunFits(s, ps, k)
    requires Ran(s, ps, k).pc.Finishing? && Ran(s, ps, k).current
    ensures var t := Ran(s, ps, k); InSync(t.w.srv, Build(TargetsOf(t.reg, k.settings), k.tracing))
  {
    RunOk(s, ps, k);
  }

  /** ... and then every domain of the registry is served to its addresses unless a later one shares its id. */
  lemma CurrentApplyServes(s: Sys, ps: seq<Step>, k: Params, d: string)
    requires Ok(s, k) && RunFits(s, ps, k)
    requires Ran(s, ps, k).pc.Finishing? && Ran(s, ps, k).current
    ensures var t := Ran(s, ps, k); var targets := TargetsOf(t.reg, k.settings);
      && t.w.srv.routes.Some?
      && MatchCount(t.w.srv.routes.value, d) == (if Kept(d, targets.Keys) then 1 else 0)
      && forall o :: o in t.w.srv.routes.value && Matches(o, d) ==>
           d in targets && o.body == Proxy(d, Sort(targets[d]), k.tracing)
  {
    CurrentApplyIsCurrent(s, ps, k);
    var t := Ran(s, ps, k);
    ServedExactly(t.w.srv, TargetsOf(t.reg, k.settings), k.tracing, d);
  }
}
