/** A whole reload as the program runs it, proved to be the steps of the model in a row. */
module Reload {
  import opened Text
  import opened AdminServer
  import opened AdminClient
  import opened AdminApi
  import opened Config
  import opened Fingerprint
  import opened Registry
  import opened Views
  import opened Apply
  import opened Hosts

  /* ---------- the reload itself ---------- */

  /** One reload with nothing in between. */
  ghost function ReloadOnce(s: Sys, o: Orders, written: bool, k: Params): Sys
    requires s.pc.Locked?
    requires OrdersFit(s.mem, Build(TargetsOf(s.reg, k.settings), k.tracing), o)
  {
    hide TargetsOf, Build, DomainBytes, Reconcile, MemoryAfter, OrdersFit;
    var t := Take(Take(Take(s, ReadTargets, k), ReadStatus, k), ReadContainers, k);
    if t.pc.Finishing? then t else
    var u := Take(t, DoReconcile(s.w.script, o), k);
    if u.pc.Finishing? then u else
    var v := Take(u, WriteIndex(written), k);
    if v.pc.Finishing? then v else Take(v, StorePrint, k)
  }

  /** What that comes to. */
  lemma ReloadIs(s: Sys, o: Orders, written: bool, k: Params)
    requires s.pc.Locked? && OrdersFit(s.mem, Build(TargetsOf(s.reg, k.settings), k.tracing), o)
    ensures var targets := TargetsOf(s.reg, k.settings);
      var want, print_ := Build(targets, k.tracing), Print(DomainBytes(targets), s.reg, s.error);
      var r := Reconcile(s.w, s.mem, want, o);
      ReloadOnce(s, o, written, k) ==
        if s.stored == Some(print_) then s.(pc := Finishing)
        else if !r.ok then s.(pc := Finishing, w := r.w, current := false)
        else if !written then s.(pc := Finishing, w := r.w, mem := want)
        else s.(pc := Finishing, w := r.w, mem := want, stored := Some(print_))
  {
    hide TargetsOf, Build, DomainBytes, Reconcile, OrdersFit;
  }

  ghost function SomeOrders(mem: Memory, want: Memory): (o: Orders)
    ensures OrdersFit(mem, want, o)
  {
    Orders(SomeListing(Removed(mem.routes, want.routes).Keys), SomeListing(Removed(mem.policies, want.policies).Keys))
  }

  class Reloader {
    const api: AdminAPI
    const gen: Generator
    const tracing: bool
    var lastFingerprint: Option<Print>

    constructor (api: AdminAPI, gen: Generator, tracing: bool)
      ensures this.api == api && this.gen == gen && this.tracing == tracing && lastFingerprint == None
    {
      this.api, this.gen, this.tracing := api, gen, tracing;
      lastFingerprint := None;
    }

    ghost function Settled(error: string, pc: Pc): Sys
      reads this, api, gen
    {
      Sys(gen.containers, error, api.net, api.Remembered(), lastFingerprint, pc, false)
    }

    /** Skips if nothing changed; else builds, reconciles, writes the index page and only then
        stores the new fingerprint. */
    method ReloadCaddyConfig(error: string, written: bool) returns (applied: bool, ok: bool, ghost o: Orders)
      modifies this`lastFingerprint, api
      ensures OrdersFit(old(api.Remembered()), Build(TargetsOf(gen.containers, gen.cfg), tracing), o)
      ensures Settled(error, Finishing) == ReloadOnce(old(Settled(error, Locked)), o, written, Params(gen.cfg, tracing))
      ensures applied ==> ok
      ensures ok && !applied ==> lastFingerprint == old(lastFingerprint) && api.net == old(api.net)
    {
      hide TargetsOf, Build, DomainBytes, Reconcile, OrdersFit, ReloadOnce;
      ghost var k, s := Params(gen.cfg, tracing), Settled(error, Locked);
      var domains := DomainTargets(gen);
      var bytes := FingerprintDomains(domains);
      var print_ := Print(bytes, gen.containers, error);
      o := SomeOrders(s.mem, Build(domains, tracing));
      if Some(print_) == lastFingerprint {
        ReloadIs(s, o, written, k);
        return false, true, o;
      }
      var routes, policies := BuildDevlocalConfig(domains, tracing);
      var fine;
      fine, o := api.ReconcileDevlocal(routes, policies);
      ReloadIs(s, o, written, k);
      if !fine { return false, false, o; }
      if !written { return false, false, o; }
      lastFingerprint := Some(print_);
      return true, true, o;
    }

    /** One apply: the reload, then the hosts file, whatever became of the reload. */
    method ApplyDevlocal(hosts: HostsFile, managed: bool, error: string, written: bool)
      returns (ok: bool, ghost o: Orders)
      modifies this`lastFingerprint, api, hosts`file
      ensures OrdersFit(old(api.Remembered()), Build(TargetsOf(gen.containers, gen.cfg), tracing), o)
      ensures Settled(error, Finishing) == ReloadOnce(old(Settled(error, Locked)), o, written, Params(gen.cfg, tracing))
      ensures !managed ==> hosts.file == old(hosts.file)
      ensures managed ==>
        hosts.file == SyncedFile(old(hosts.file), hosts.writable,
          BlockText(BlockLines(gen.cfg.tld, Ascending(DomainSet(gen.containers, gen.cfg)))))
    {
      hide ReloadOnce, TargetsOf, Build, DomainSet, OrdersFit, SyncText, BlockLines;
      var applied;
      applied, ok, o := ReloadCaddyConfig(error, written);
      if managed {
        var domains := Domains(gen);
        var synced := hosts.Sync(gen.cfg.tld, domains);
      }
    }
  }
}
