/** Applies that are skipped wrongly: an apply fails part-way, the registry goes back to what it was, and the stored
    fingerprint says that nothing has changed. */
module WrongSkips {
  import opened Text
  import opened AdminServer
  import opened AdminClient
  import opened ReconcileProofs
  import opened ReconcileTheorems
  import opened Delivery
  import opened Config
  import opened Fingerprint
  import opened Registry
  import opened Views
  import opened Clean
  import opened Apply
  import opened ApplyFailures
  import opened ApplyRuns
  import opened Requests
  import Collisions
  import Examples

  /* ---------- runs in which an apply may fail ---------- */

  /** Every step of `ps` is possible in turn, and they lead from `s` to `t`. */
  ghost predicate Steps(s: Sys, ps: seq<Apply.Step>, t: Sys, k: Params) {
    if ps == [] then t == s
    else
      var n := |ps| - 1;
      var before := Ran(s, ps[..n], k);
      Steps(s, ps[..n], before, k) && Enabled(before, ps[n], k) && t == Take(before, ps[n], k)
  }

  lemma {:induction false} StepsRan(s: Sys, ps: seq<Apply.Step>, t: Sys, k: Params)
    requires Steps(s, ps, t, k)
    ensures Ran(s, ps, k) == t
  {
  }

  lemma OneStep(s: Sys, ps: seq<Apply.Step>, t: Sys, p: Apply.Step, k: Params)
    requires Steps(s, ps, t, k) && Enabled(t, p, k)
    ensures Steps(s, ps + [p], Take(t, p, k), k)
  {
    StepsRan(s, ps, t, k);
    assert (ps + [p])[..|ps|] == ps;
  }

  /** A change of the registry, and an apply up to its reconcile. */
  function UpToReconcile(reg: Records, error: string): seq<Apply.Step> {
    [Refresh(reg, error)] + [TryBegin] + [ReadTargets] + [ReadStatus] + [ReadContainers]
  }

  /** The registry as it was, and an apply that finds nothing to do. */
  function BackAndSkip(reg: Records, error: string): seq<Apply.Step> {
    [Refresh(reg, error)] + [TryBegin] + [ReadTargets] + [ReadStatus] + [ReadContainers] + [Finish]
  }

  lemma ReadsNew(s: Sys, reg: Records, error: string, k: Params) returns (t: Sys)
    requires s.pc.Idle? && s.stored == Some(CurrentPrint(s, k)) && reg != s.reg
    ensures Steps(s, UpToReconcile(reg, error), t, k)
    ensures var targets := TargetsOf(reg, k.settings);
      t == s.(reg := reg, error := error, current := true,
              pc := Changed(targets, Print(DomainBytes(targets), reg, error)))
  {
    hide Steps, TargetsOf, DomainBytes;
    NoSteps(s, k);
    var t1 := Take(s, Refresh(reg, error), k);
    OneStep(s, [], s, Refresh(reg, error), k);
    assert [] + [Refresh(reg, error)] == [Refresh(reg, error)];
    t := Reads(s, [Refresh(reg, error)], t1, k);
  }

  lemma NoSteps(s: Sys, k: Params)
    ensures Steps(s, [], s, k)
  {
  }

  /** An apply from its begin to the comparison of the fingerprints. */
  lemma Reads(s: Sys, ps: seq<Apply.Step>, u: Sys, k: Params) returns (t: Sys)
    requires Steps(s, ps, u, k) && u.pc.Idle?
    ensures Steps(s, ps + [TryBegin] + [ReadTargets] + [ReadStatus] + [ReadContainers], t, k)
    ensures var print_ := CurrentPrint(u, k);
      t == u.(current := true,
              pc := if u.stored == Some(print_) then Finishing else Changed(CurrentTargets(u, k), print_))
  {
    hide Steps, TargetsOf, DomainBytes;
    var t1 := Take(u, TryBegin, k);
    OneStep(s, ps, u, TryBegin, k);
    var t2 := Take(t1, ReadTargets, k);
    OneStep(s, ps + [TryBegin], t1, ReadTargets, k);
    var t3 := Take(t2, ReadStatus, k);
    OneStep(s, ps + [TryBegin] + [ReadTargets], t2, ReadStatus, k);
    t := Take(t3, ReadContainers, k);
    OneStep(s, ps + [TryBegin] + [ReadTargets] + [ReadStatus], t3, ReadContainers, k);
  }

  /** With the old fingerprint in store, going back to the old registry is taken for no change. */
  lemma GoesBack(s: Sys, ps: seq<Apply.Step>, u: Sys, reg: Records, error: string, k: Params) returns (t: Sys)
    requires Steps(s, ps, u, k) && u.pc.Idle?
    requires u.stored == Some(Print(DomainBytes(TargetsOf(reg, k.settings)), reg, error))
    ensures Steps(s, ps + BackAndSkip(reg, error), t, k)
    ensures t == u.(reg := reg, error := error, current := true)
  {
    hide Steps, TargetsOf, DomainBytes;
    var u1 := Take(u, Refresh(reg, error), k);
    OneStep(s, ps, u, Refresh(reg, error), k);
    var u2 := Reads(s, ps + [Refresh(reg, error)], u1, k);
    t := Take(u2, Finish, k);
    var done := ps + [Refresh(reg, error)] + [TryBegin] + [ReadTargets] + [ReadStatus] + [ReadContainers];
    OneStep(s, done, u2, Finish, k);
    assert done + [Finish] == ps + BackAndSkip(reg, error);
  }

  /* ---------- the index page is not written ---------- */

  function UnwrittenApply(reg: Records, error: string, o: Orders): seq<Apply.Step> {
    UpToReconcile(reg, error) + [DoReconcile([], o)] + [WriteIndex(false)] + [Finish]
  }

  /** The registry changes and is applied, but the index page is not written. When the registry is back to what it was,
      the apply is skipped, and the server keeps the config of the other registry. */
  lemma UnwrittenThenSkipped(s: Sys, reg: Records, error: string, k: Params, o: Orders) returns (t: Sys)
    requires Ok(s, k) && CleanSys(s, k) && s.pc.Idle? && s.stored == Some(CurrentPrint(s, k))
    requires OrdersFit(s.mem, Build(TargetsOf(reg, k.settings), k.tracing), o)
    requires Build(CurrentTargets(s, k), k.tracing) != Build(TargetsOf(reg, k.settings), k.tracing)
    ensures Steps(s, UnwrittenApply(reg, error, o) + BackAndSkip(s.reg, s.error), t, k)
    ensures t.pc.Idle? && t.reg == s.reg && t.error == s.error && t.stored == s.stored
    ensures !InSync(t.w.srv, Build(CurrentTargets(t, k), k.tracing))
  {
    hide Steps, TargetsOf, DomainBytes, Build, InSync, WellFormed, OrdersFit, Ok, CleanRegistry;
    var u := ReadsNew(s, reg, error, k);
    var want := Build(TargetsOf(reg, k.settings), k.tracing);
    ReadyFor(s, k, want, TargetsOf(reg, k.settings));
    var y := AppliesUnwritten(s, UpToReconcile(reg, error), u, k, o);
    t := GoesBack(s, UnwrittenApply(reg, error, o), y, s.reg, s.error, k);
    BuildWellFormed(CurrentTargets(s, k), k.tracing);
    if InSync(t.w.srv, Build(CurrentTargets(t, k), k.tracing)) {
      InSyncDecides(t.w.srv, want, Build(CurrentTargets(s, k), k.tracing));
    }
  }

  lemma AppliesUnwritten(s: Sys, ps: seq<Apply.Step>, u: Sys, k: Params, o: Orders) returns (t: Sys)
    requires Steps(s, ps, u, k) && u.pc.Changed? && InSync(u.w.srv, u.mem) && WellFormed(u.mem)
    requires OrdersFit(u.mem, Build(u.pc.targets, k.tracing), o)
    ensures Steps(s, ps + [DoReconcile([], o)] + [WriteIndex(false)] + [Finish], t, k)
    ensures t == u.(w := t.w, mem := Build(u.pc.targets, k.tracing), pc := Idle) && InSync(t.w.srv, t.mem)
  {
    hide Steps, Build, InSync, WellFormed, Reconcile, PolicyMissed, OrdersFit;
    BuildWellFormed(u.pc.targets, k.tracing);
    QuietNetworkArrives(u.w.(script := []), u.mem, Build(u.pc.targets, k.tracing), o);
    var v := Take(u, DoReconcile([], o), k);
    OneStep(s, ps, u, DoReconcile([], o), k);
    var x := Take(v, WriteIndex(false), k);
    OneStep(s, ps + [DoReconcile([], o)], v, WriteIndex(false), k);
    t := Take(x, Finish, k);
    OneStep(s, ps + [DoReconcile([], o)] + [WriteIndex(false)], x, Finish, k);
  }

  /* ---------- the reconcile fails ---------- */

  function FailedApply(reg: Records, error: string, script: seq<Fault>, o: Orders): seq<Apply.Step> {
    UpToReconcile(reg, error) + [DoReconcile(script, o)] + [Finish]
  }

  /** The registry changes, and its reconcile fails after it has changed a list. When the registry is back to what it
      was, the apply is skipped, and the server keeps what the failed one has changed. */
  lemma FailedThenSkipped(s: Sys, reg: Records, error: string, script: seq<Fault>, k: Params, o: Orders)
      returns (t: Sys)
    requires Ok(s, k) && CleanSys(s, k) && s.pc.Idle? && s.stored == Some(CurrentPrint(s, k)) && reg != s.reg
    requires var want := Build(TargetsOf(reg, k.settings), k.tracing);
      var r := Reconcile(s.w.(script := script), s.mem, want, o);
      OrdersFit(s.mem, want, o) && !r.ok && !Untouched(s.w.srv, r.w.srv)
    ensures Steps(s, FailedApply(reg, error, script, o) + BackAndSkip(s.reg, s.error), t, k)
    ensures t.pc.Idle? && t.reg == s.reg && t.error == s.error && t.stored == s.stored
    ensures !InSync(t.w.srv, Build(CurrentTargets(t, k), k.tracing))
  {
    hide Steps, TargetsOf, DomainBytes, Build, InSync, WellFormed, Reconcile, OrdersFit, Describes, Hashed, Untouched;
    hide CleanTargets, CleanRegistry;
    var ps := UpToReconcile(reg, error);
    var u := ReadsNew(s, reg, error, k);
    BuildWellFormed(TargetsOf(reg, k.settings), k.tracing);
    FailureShows(s.w.(script := script), s.mem, Build(TargetsOf(reg, k.settings), k.tracing), o);
    var v := Take(u, DoReconcile(script, o), k);
    OneStep(s, ps, u, DoReconcile(script, o), k);
    var y := Take(v, Finish, k);
    OneStep(s, ps + [DoReconcile(script, o)], v, Finish, k);
    t := GoesBack(s, FailedApply(reg, error, script, o), y, s.reg, s.error, k);
    CleanView(s.reg, k.settings);
    PrintMeans(s.stored.value.domains, s.mem, CurrentTargets(s, k), k);
  }

  /* ---------- with concrete containers ---------- */

  /** Two containers start and stop again. In between, the index page could not be written: their routes stay, and the
      apply after they stopped is skipped. */
  lemma UnwrittenExample() returns (t: Sys)
    ensures Steps(Fresh(), UnwrittenApply(Started(), "", Orders([], []))
        + BackAndSkip(map[], Fresh().error), t, Networked())
    ensures t.pc.Idle? && t.reg == map[] && t.stored == Fresh().stored
    ensures !InSync(t.w.srv, Build(CurrentTargets(t, Networked()), false))
  {
    hide Ok, InSync, Build, TargetsOf, Fresh, Started, DomainBytes, CleanRegistry, UnwrittenApply, BackAndSkip;
    FreshOk();
    SomethingBuilt();
    StartedFits();
    t := UnwrittenThenSkipped(Fresh(), Started(), "", Networked(), Orders([], []));
  }

  lemma StartedFits()
    ensures OrdersFit(Memory(map[], map[]), Build(TargetsOf(Started(), Collisions.NETWORKED), false), Orders([], []))
  {
    hide TargetsOf, Build, Started;
    var want := Build(TargetsOf(Started(), Collisions.NETWORKED), false);
    var none: ObjMap := map[];
    assert Removed(none, want.routes) == none && Removed(none, want.policies) == none;
  }

  /** The same when the reply to the first POST is lost instead: one route stays. */
  lemma FailedExample() returns (t: Sys)
    ensures Steps(Fresh(), FailedApply(Started(), "", Examples.THREE_READS + [Drop(true, true)], Orders([], []))
        + BackAndSkip(map[], Fresh().error), t, Networked())
    ensures t.pc.Idle? && t.reg == map[] && t.stored == Fresh().stored
    ensures !InSync(t.w.srv, Build(CurrentTargets(t, Networked()), false))
  {
    hide Ok, InSync, Build, TargetsOf, Fresh, Started, DomainBytes, CleanRegistry, FailedApply, BackAndSkip, Reconcile;
    FreshOk();
    SomethingBuilt();
    StartedFits();
    var s := Fresh();
    var script := Examples.THREE_READS + [Drop(true, true)];
    var want := Build(TargetsOf(Started(), Collisions.NETWORKED), false);
    Examples.FirstPostLost(s.w.(script := script), want, Orders([], []), true);
    t := FailedThenSkipped(s, Started(), "", script, Networked(), Orders([], []));
  }
}
