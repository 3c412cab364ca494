/** Applies on a quiet network: they come to their end, and a second one finds nothing to do. */
module ApplyRuns {
  import opened Text
  import opened AdminServer
  import opened AdminClient
  import opened ReconcileProofs
  import opened ReconcileTheorems
  import opened Delivery
  import opened Config
  import opened Fingerprint
  import opened Registry
  import opened Views
  import opened Clean
  import opened Apply

  ghost function CurrentTargets(s: Sys, k: Params): Targets {
    TargetsOf(s.reg, k.settings)
  }

  ghost function CurrentPrint(s: Sys, k: Params): Print {
    Print(DomainBytes(CurrentTargets(s, k)), s.reg, s.error)
  }

  function Reading(): seq<Apply.Step> {
    [TryBegin, ReadTargets, ReadStatus, ReadContainers]
  }

  function SkippedApply(): seq<Apply.Step> {
    Reading() + [Finish]
  }

  function FullApply(o: Orders): seq<Apply.Step> {
    Reading() + [DoReconcile([], o)] + [WriteIndex(true)] + [StorePrint] + [Finish]
  }

  /** `ps` is a run from `s` to `t` in which nothing fails with harm. */
  ghost predicate Leads(s: Sys, ps: seq<Apply.Step>, t: Sys, k: Params) {
    RunFits(s, ps, k) && Ran(s, ps, k) == t
  }

  lemma OneMore(s: Sys, ps: seq<Apply.Step>, t: Sys, p: Apply.Step, k: Params)
    requires Leads(s, ps, t, k) && CleanSys(t, k) && Enabled(t, p, k) && GoesWell(t, p, k)
    ensures Leads(s, ps + [p], Take(t, p, k), k)
  {
    hide CleanSys, Enabled, GoesWell, Take;
    assert (ps + [p])[..|ps + [p]| - 1] == ps;
  }

  lemma ReadingLeads(s: Sys, k: Params)
    requires CleanSys(s, k) && s.pc.Idle?
    ensures var print_ := CurrentPrint(s, k);
      Leads(s, Reading(), s.(current := true,
        pc := if s.stored == Some(print_) then Finishing else Changed(CurrentTargets(s, k), print_)), k)
  {
    hide RunFits, Ran, Leads, CleanRegistry, TargetsOf, DomainBytes;
    LeadsNowhere(s, k);
    var t1 := Take(s, TryBegin, k);
    OneMore(s, [], s, TryBegin, k);
    assert [] + [TryBegin] == [TryBegin];
    var t2 := Take(t1, ReadTargets, k);
    OneMore(s, [TryBegin], t1, ReadTargets, k);
    var t3 := Take(t2, ReadStatus, k);
    OneMore(s, [TryBegin] + [ReadTargets], t2, ReadStatus, k);
    OneMore(s, [TryBegin] + [ReadTargets] + [ReadStatus], t3, ReadContainers, k);
    assert [TryBegin] + [ReadTargets] + [ReadStatus] + [ReadContainers] == Reading();
  }

  lemma LeadsNowhere(s: Sys, k: Params)
    ensures Leads(s, [], s, k)
  {
  }

  /** Without faults an apply runs to its end: the server is in step with the current targets and the
      fingerprint is the current one. It is skipped, and sends nothing, if that was so already. */
  lemma QuietApply(s: Sys, k: Params, o: Orders) returns (t: Sys)
    requires Ok(s, k) && CleanSys(s, k) && s.pc.Idle?
    requires OrdersFit(s.mem, Build(CurrentTargets(s, k), k.tracing), o)
    ensures Leads(s, if s.stored == Some(CurrentPrint(s, k)) then SkippedApply() else FullApply(o), t, k)
    ensures Ok(t, k) && t.pc.Idle? && t.reg == s.reg && t.error == s.error
    ensures t.stored == Some(CurrentPrint(s, k)) && InSync(t.w.srv, Build(CurrentTargets(s, k), k.tracing))
    ensures s.stored == Some(CurrentPrint(s, k)) ==> t.w == s.w
  {
    hide RunFits, Ran, Leads, Ok, CleanRegistry, TargetsOf, DomainBytes, Build;
    hide InSync, Reconcile, PolicyMissed, OrdersFit, Untouched;
    var targets, print_ := CurrentTargets(s, k), CurrentPrint(s, k);
    var want := Build(targets, k.tracing);
    ReadingLeads(s, k);
    if s.stored == Some(print_) {
      t := Finished(s, Reading(), s.(pc := Finishing, current := true), k);
    } else {
      var t1 := s.(pc := Changed(targets, print_), current := true);
      var w := s.w.(script := []);
      ReadyFor(s, k, want, targets);
      QuietNetworkArrives(w, s.mem, want, o);
      OneMore(s, Reading(), t1, DoReconcile([], o), k);
      var t2 := Take(t1, DoReconcile([], o), k);
      OneMore(s, Reading() + [DoReconcile([], o)], t2, WriteIndex(true), k);
      var t3 := Take(t2, WriteIndex(true), k);
      OneMore(s, Reading() + [DoReconcile([], o)] + [WriteIndex(true)], t3, StorePrint, k);
      var ps := Reading() + [DoReconcile([], o)] + [WriteIndex(true)] + [StorePrint];
      t := Finished(s, ps, Take(t3, StorePrint, k), k);
    }
  }

  lemma ReadyFor(s: Sys, k: Params, want: Memory, targets: Targets)
    requires Ok(s, k) && want == Build(targets, k.tracing)
    ensures InSync(s.w.srv, s.mem) && WellFormed(s.mem) && WellFormed(want)
  {
    BuildWellFormed(targets, k.tracing);
  }

  lemma Finished(s: Sys, ps: seq<Apply.Step>, u: Sys, k: Params) returns (t: Sys)
    requires Ok(s, k) && Leads(s, ps, u, k) && CleanSys(u, k) && u.pc.Finishing? && u.current
    ensures t == u.(pc := Idle) && Leads(s, ps + [Finish], t, k) && Ok(t, k)
    ensures InSync(t.w.srv, Build(CurrentTargets(u, k), k.tracing))
  {
    hide CleanRegistry, TargetsOf, DomainBytes, Build, InSync, WellFormed, RunFits, Ran;
    t := Take(u, Finish, k);
    OneMore(s, ps, u, Finish, k);
    RunOk(s, ps, k);
    RunOk(s, ps + [Finish], k);
  }

  /** After it, with no change in between, the next apply sends nothing and changes nothing. */
  lemma SecondApplyIsSkipped(s: Sys, k: Params, o: Orders) returns (t: Sys)
    requires Ok(s, k) && CleanSys(s, k) && s.pc.Idle?
    requires OrdersFit(s.mem, Build(CurrentTargets(s, k), k.tracing), o)
    ensures Leads(s, if s.stored == Some(CurrentPrint(s, k)) then SkippedApply() else FullApply(o), t, k)
    ensures Leads(t, SkippedApply(), t.(current := true), k)
  {
    hide RunFits, Ran, Leads, Ok, CleanRegistry, TargetsOf, DomainBytes, Build, InSync, OrdersFit;
    t := QuietApply(s, k, o);
    ReadingLeads(t, k);
    OneMore(t, Reading(), t.(pc := Finishing, current := true), Finish, k);
  }
}
