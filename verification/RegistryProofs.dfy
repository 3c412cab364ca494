/** What one refresh yields, and what holds on every run of refreshes, probes and cleanups. */
module RegistryProofs {
  import opened Text
  import opened Labels
  import opened Probe
  import opened Registry

  /* ---------- one refresh ---------- */

  ghost predicate Distinct(list: seq<Summary>) {
    forall i, j :: 0 <= i < j < |list| ==> list[i].id != list[j].id
  }

  ghost function RecordFor(m: Records, c: Summary, self: Self, cfg: Config, now: nat): Info {
    Merged(BuildInfo(c, self, cfg), Find(m, c.id), c.state == RUNNING, now)
  }

  lemma {:induction false} EnteredExactly(m: Records, list: seq<Summary>, self: Self, cfg: Config, now: nat)
    requires Distinct(list)
    ensures var r := EnteredAll(m, list, self, cfg, now);
      && (forall c :: c in list && Eligible(c, self, cfg) ==> c.id in r && r[c.id] == RecordFor(m, c, self, cfg, now))
      && (forall id :: id !in Seen(list, self, cfg) ==> Find(r, id) == Find(m, id))
  {
    hide Eligible, BuildInfo;
    if list != [] {
      var n := |list| - 1;
      var front, c := list[..n], list[n];
      assert list == front + [c];
      EnteredExactly(m, front, self, cfg, now);
      var before := EnteredAll(m, front, self, cfg, now);
      assert c.id !in Seen(front, self, cfg) by {
        forall d | d in front ensures d.id != c.id {
          var i :| 0 <= i < |front| && front[i] == d;
          assert list[i] == d;
        }
      }
      assert Find(before, c.id) == Find(m, c.id);
      EnterOne(before, c, self, cfg, now);
      forall d | d in list && Eligible(d, self, cfg)
        ensures d.id in Entered(before, c, self, cfg, now)
        ensures Entered(before, c, self, cfg, now)[d.id] == RecordFor(m, d, self, cfg, now)
      {
        if d in front { assert d.id in Seen(front, self, cfg); }
      }
      forall id | id !in Seen(list, self, cfg)
        ensures Find(Entered(before, c, self, cfg, now), id) == Find(m, id)
      {
        assert id !in Seen(front, self, cfg);
        if Eligible(c, self, cfg) { assert c in list; }
      }
    }
  }

  lemma EnterOne(m: Records, c: Summary, self: Self, cfg: Config, now: nat)
    ensures var r := Entered(m, c, self, cfg, now);
      && (Eligible(c, self, cfg) ==> c.id in r && r[c.id] == RecordFor(m, c, self, cfg, now))
      && (forall id :: id != c.id ==> Find(r, id) == Find(m, id))
      && (!Eligible(c, self, cfg) ==> r == m)
  {
  }

  /** With distinct ids a refresh yields the merged record of every eligible listed container, every
      other record that is stopped and not too old, unchanged, and nothing else. */
  lemma RefreshExactly(m: Records, list: seq<Summary>, cfg: Config, now: nat)
    requires Distinct(list)
    ensures var self := DiscoverSelf(list, cfg.hostname); var r := Refreshed(m, list, cfg, now);
      && (forall c :: c in list && Eligible(c, self, cfg) ==> c.id in r && r[c.id] == RecordFor(m, c, self, cfg, now))
      && (forall id :: id !in Seen(list, self, cfg) ==>
            (id in r <==> id in m && !m[id].running && !Stale(m[id], cfg.staleTtl, now)))
      && (forall id :: id !in Seen(list, self, cfg) && id in r ==> r[id] == m[id])
  {
    hide Eligible, BuildInfo, DiscoverSelf, Stale;
    var self := DiscoverSelf(list, cfg.hostname);
    EnteredExactly(m, list, self, cfg, now);
    var all := EnteredAll(m, list, self, cfg, now);
    forall id | id !in Seen(list, self, cfg) ensures (id in all <==> id in m) && (id in all ==> all[id] == m[id]) {
      assert Find(all, id) == Find(m, id);
    }
  }

  /* ---------- runs ---------- */

  datatype Event =
    | Refresh(list: seq<Summary>, at: nat)
    | RefreshAndSelect(list: seq<Summary>, at: nat, answers: Answers)
    | Cleanup(at: nat)

  function After(m: Records, e: Event, cfg: Config): Records {
    match e
    case Refresh(list, at) => Refreshed(m, list, cfg, at)
    case RefreshAndSelect(list, at, answers) => ProbedAll(Refreshed(m, list, cfg, at), cfg, answers)
    case Cleanup(at) => Cleaned(m, cfg.staleTtl, at)
  }

  function Run(m: Records, es: seq<Event>, cfg: Config): Records {
    if es == [] then m else After(Run(m, es[..|es| - 1], cfg), es[|es| - 1], cfg)
  }

  function Listed(e: Event): seq<Summary> {
    if e.Cleanup? then [] else e.list
  }

  /** Docker lists each id once, and the clock stands after the zero time and never runs back. */
  ghost predicate RunOk(es: seq<Event>, from: nat) {
    && (forall i :: 0 <= i < |es| ==> Distinct(Listed(es[i])) && es[i].at >= from && es[i].at > 0)
    && (forall i, j :: 0 <= i < j < |es| ==> es[i].at <= es[j].at)
  }

  ghost predicate RecordOk(id: string, info: Info, clock: nat) {
    && info.id == id
    && (info.running <==> info.lastStopped == 0)
    && info.lastStopped <= clock
    && (info.running ==> info.selected == 0 || info.selected in EffectivePorts(info))
  }

  ghost predicate RegistryOk(m: Records, clock: nat) {
    forall id :: id in m ==> RecordOk(id, m[id], clock)
  }

  lemma MergedOk(m: Records, c: Summary, self: Self, cfg: Config, now: nat)
    requires now > 0 && (c.id in m ==> RecordOk(c.id, m[c.id], now))
    ensures RecordOk(c.id, RecordFor(m, c, self, cfg, now), now)
  {
  }

  lemma RefreshedOk(m: Records, list: seq<Summary>, cfg: Config, now: nat)
    requires RegistryOk(m, now) && Distinct(list) && now > 0
    ensures RegistryOk(Refreshed(m, list, cfg, now), now)
  {
    hide RecordOk, BuildInfo, Eligible, DiscoverSelf;
    RefreshExactly(m, list, cfg, now);
    var self, r := DiscoverSelf(list, cfg.hostname), Refreshed(m, list, cfg, now);
    forall id | id in r ensures RecordOk(id, r[id], now) {
      if id in Seen(list, self, cfg) {
        var c :| c in list && Eligible(c, self, cfg) && c.id == id;
        MergedOk(m, c, self, cfg, now);
      }
    }
  }

  /** Probing selects nothing but a port the container can be reached at: the first answering
      one in preference order if there is one. */
  lemma ProbedSelects(info: Info, cfg: Config, answers: Answers)
    requires info.running && GetLabel(info.labels, DOMAINS_LABEL) == ""
    ensures var p := Probed(info, cfg, answers); var ports := Preferred(EffectivePorts(info));
      && p == info.(selected := p.selected)
      && ((exists q :: q in EffectivePorts(info) && answers(HostFor(info, cfg), q)) ==>
            exists i: nat :: FirstAt(HostFor(info, cfg), ports, answers, i) && ports[i] == p.selected)
      && (!(exists q :: q in EffectivePorts(info) && answers(HostFor(info, cfg), q)) ==> p == info)
      && (p.selected == info.selected || p.selected in EffectivePorts(p))
  {
    var ports := EffectivePorts(info);
    PreferredIsPermutation(ports);
    FirstAnsweringIsFirst(HostFor(info, cfg), Preferred(ports), answers);
    assert EffectivePorts(Probed(info, cfg, answers)) == ports;
  }

  lemma ProbedOk(id: string, info: Info, cfg: Config, answers: Answers, clock: nat)
    requires RecordOk(id, info, clock)
    ensures RecordOk(id, Probed(info, cfg, answers), clock)
  {
    if info.running && GetLabel(info.labels, DOMAINS_LABEL) == "" {
      ProbedSelects(info, cfg, answers);
      assert EffectivePorts(Probed(info, cfg, answers)) == EffectivePorts(info);
    }
  }

  lemma AfterOk(m: Records, e: Event, cfg: Config)
    requires RegistryOk(m, e.at) && Distinct(Listed(e)) && e.at > 0
    ensures RegistryOk(After(m, e, cfg), e.at)
  {
    hide RecordOk, Probed, Refreshed;
    if !e.Cleanup? {
      RefreshedOk(m, e.list, cfg, e.at);
      var r := Refreshed(m, e.list, cfg, e.at);
      if e.RefreshAndSelect? {
        forall id | id in r ensures RecordOk(id, Probed(r[id], cfg, e.answers), e.at) {
          ProbedOk(id, r[id], cfg, e.answers, e.at);
        }
      }
    }
  }

  lemma LaterOk(m: Records, t: nat, t': nat)
    requires RegistryOk(m, t) && t <= t'
    ensures RegistryOk(m, t')
  {
    forall id | id in m ensures RecordOk(id, m[id], t') {
      assert RecordOk(id, m[id], t);
    }
  }

  lemma RunOkFront(es: seq<Event>, from: nat)
    requires RunOk(es, from) && es != []
    ensures RunOk(es[..|es| - 1], from)
  {
  }

  /** On every run: the key is the id, a record is running exactly when it has no stop time, and a
      running one has no selected port or one it can be reached at. */
  lemma {:induction false} RunKeepsOk(m: Records, es: seq<Event>, cfg: Config, from: nat)
    requires RegistryOk(m, from) && RunOk(es, from)
    ensures RegistryOk(Run(m, es, cfg), if es == [] then from else es[|es| - 1].at)
  {
    hide After, RegistryOk, Distinct;
    if es != [] {
      var n := |es| - 1;
      var front := es[..n];
      RunOkFront(es, from);
      RunKeepsOk(m, front, cfg, from);
      var clock := if front == [] then from else front[n - 1].at;
      assert clock <= es[n].at by { if front != [] { assert front[n - 1] == es[n - 1]; } }
      LaterOk(Run(m, front, cfg), clock, es[n].at);
      AfterOk(Run(m, front, cfg), es[n], cfg);
    }
  }

  /* ---------- stopped containers ---------- */

  predicate Stopped(m: Records, id: string) {
    id in m && !m[id].running
  }

  predicate SameWhileStopped(a: Info, b: Info) {
    a.lastStopped == b.lastStopped && a.ports == b.ports && a.published == b.published
    && a.selected == b.selected && a.address == b.address
  }

  lemma RefreshStopped(m: Records, list: seq<Summary>, cfg: Config, now: nat, id: string)
    requires Distinct(list) && Stopped(m, id)
    ensures var r := Refreshed(m, list, cfg, now);
      && (Stopped(r, id) ==> SameWhileStopped(m[id], r[id]))
      && (id !in r ==> Stale(m[id], cfg.staleTtl, now))
  {
    hide BuildInfo, Eligible, DiscoverSelf, Stale;
    RefreshExactly(m, list, cfg, now);
    var self := DiscoverSelf(list, cfg.hostname);
    if id in Seen(list, self, cfg) {
      var c :| c in list && Eligible(c, self, cfg) && c.id == id;
      assert Refreshed(m, list, cfg, now)[id] == RecordFor(m, c, self, cfg, now);
    }
  }

  /** A stopped record that stays stopped keeps its stop time, ports and address; one that is
      dropped has been stopped for longer than the limit. */
  lemma AfterStopped(m: Records, e: Event, cfg: Config, id: string)
    requires Distinct(Listed(e)) && Stopped(m, id)
    ensures var r := After(m, e, cfg);
      && (Stopped(r, id) ==> SameWhileStopped(m[id], r[id]))
      && (id !in r ==> Stale(m[id], cfg.staleTtl, e.at))
  {
    if !e.Cleanup? { RefreshStopped(m, e.list, cfg, e.at, id); }
  }

  /** While it stays stopped a record is frozen, however long the run. */
  lemma {:induction false} RunFreezes(m: Records, es: seq<Event>, cfg: Config, from: nat, id: string)
    requires RunOk(es, from)
    requires forall k :: 0 <= k <= |es| ==> Stopped(Run(m, es[..k], cfg), id)
    ensures Stopped(m, id) && Stopped(Run(m, es, cfg), id)
    ensures SameWhileStopped(m[id], Run(m, es, cfg)[id])
  {
    hide After, Distinct;
    assert es[..0] == [] && es[..|es|] == es;
    if es != [] {
      var n := |es| - 1;
      RunOkFront(es, from);
      forall k | 0 <= k <= n ensures es[..n][..k] == es[..k] {}
      RunFreezes(m, es[..n], cfg, from, id);
      AfterStopped(Run(m, es[..n], cfg), es[n], cfg, id);
    }
  }

  /** No event of the run finds the container running. */
  ghost predicate NeverRestarts(es: seq<Event>, id: string) {
    forall i, c :: 0 <= i < |es| && c in Listed(es[i]) && c.id == id ==> c.state != RUNNING
  }

  lemma RefreshKeepsYoung(m: Records, list: seq<Summary>, cfg: Config, now: nat, id: string)
    requires Distinct(list) && Stopped(m, id) && !Stale(m[id], cfg.staleTtl, now)
    requires forall c :: c in list && c.id == id ==> c.state != RUNNING
    ensures var r := Refreshed(m, list, cfg, now); Stopped(r, id) && SameWhileStopped(m[id], r[id])
  {
    hide BuildInfo, Eligible, DiscoverSelf, Stale;
    RefreshStopped(m, list, cfg, now, id);
    RefreshExactly(m, list, cfg, now);
    var self := DiscoverSelf(list, cfg.hostname);
    if id in Seen(list, self, cfg) {
      var c :| c in list && Eligible(c, self, cfg) && c.id == id;
      assert Refreshed(m, list, cfg, now)[id] == RecordFor(m, c, self, cfg, now);
    }
  }

  /** A record once stopped is not dropped before more than the limit has passed. */
  lemma {:induction false} RunKeepsYoung(m: Records, es: seq<Event>, cfg: Config, from: nat, id: string)
    requires RunOk(es, from) && Stopped(m, id) && NeverRestarts(es, id)
    requires forall i :: 0 <= i < |es| ==> es[i].at - m[id].lastStopped <= cfg.staleTtl
    ensures var r := Run(m, es, cfg); Stopped(r, id) && SameWhileStopped(m[id], r[id])
  {
    hide Distinct, Refreshed;
    if es != [] {
      var n := |es| - 1;
      RunOkFront(es, from);
      RunKeepsYoung(m, es[..n], cfg, from, id);
      var before := Run(m, es[..n], cfg);
      if !es[n].Cleanup? { RefreshKeepsYoung(before, es[n].list, cfg, es[n].at, id); }
    }
  }

  /** When a cleanup ends a run, no record has been stopped for longer than the limit, the others are as they were,
      and those that went had been stopped for longer. */
  lemma CleanupSweeps(m: Records, es: seq<Event>, cfg: Config, from: nat)
    requires RegistryOk(m, from) && RunOk(es, from) && es != [] && es[|es| - 1].Cleanup?
    ensures var now := es[|es| - 1].at; var before, r := Run(m, es[..|es| - 1], cfg), Run(m, es, cfg);
      && (forall id :: Stopped(r, id) ==> now - r[id].lastStopped <= cfg.staleTtl)
      && (forall id :: id in before && id !in r ==> Stopped(before, id) && now - before[id].lastStopped > cfg.staleTtl)
      && (forall id :: id in r ==> id in before && r[id] == before[id])
  {
    RunKeepsOk(m, es, cfg, from);
    var now := es[|es| - 1].at;
    var r := Run(m, es, cfg);
    forall id | Stopped(r, id) ensures now - r[id].lastStopped <= cfg.staleTtl {
      assert RecordOk(id, r[id], now);
    }
  }

  /** A record dropped by a cleanup comes back exactly when Docker still lists the container and it is eligible.
      If it is still stopped, it gets the time of the next refresh as its stop time, and so lives on. */
  lemma CleanupForgets(m: Records, list: seq<Summary>, cfg: Config, t: nat, now: nat, id: string)
    requires Distinct(list) && Stopped(m, id) && Stale(m[id], cfg.staleTtl, t)
    ensures var r := Refreshed(Cleaned(m, cfg.staleTtl, t), list, cfg, now);
      && (id in r <==> id in Seen(list, DiscoverSelf(list, cfg.hostname), cfg))
      && (Stopped(r, id) ==> r[id].lastStopped == now)
  {
    hide BuildInfo, Eligible;
    RefreshExactly(Cleaned(m, cfg.staleTtl, t), list, cfg, now);
    if id in Seen(list, DiscoverSelf(list, cfg.hostname), cfg) {
      var c :| c in list && Eligible(c, DiscoverSelf(list, cfg.hostname), cfg) && c.id == id;
    }
  }

  /* ---------- selected ports ---------- */

  lemma RefreshedRunning(m: Records, list: seq<Summary>, cfg: Config, now: nat, id: string)
    requires Distinct(list) && id in Refreshed(m, list, cfg, now) && Refreshed(m, list, cfg, now)[id].running
    ensures Refreshed(m, list, cfg, now)[id].selected == 0
  {
    hide Eligible;
    RefreshExactly(m, list, cfg, now);
    if id in Seen(list, DiscoverSelf(list, cfg.hostname), cfg) {
      var c :| c in list && Eligible(c, DiscoverSelf(list, cfg.hostname), cfg) && c.id == id;
    }
  }

  /** When a refresh with a probe round ends a run, every running container without a domains label has the first
      answering port, in order of preference, of those it can be reached at, and 0 if none of them answers. */
  lemma RoundSelects(m: Records, es: seq<Event>, cfg: Config, from: nat, id: string)
    requires RunOk(es, from) && es != [] && es[|es| - 1].RefreshAndSelect?
    requires var r := Run(m, es, cfg); id in r && r[id].running && GetLabel(r[id].labels, DOMAINS_LABEL) == ""
    ensures var info := Run(m, es, cfg)[id]; var answers := es[|es| - 1].answers;
      var host, ports := HostFor(info, cfg), Preferred(EffectivePorts(info));
      if exists q :: q in EffectivePorts(info) && answers(host, q)
      then exists i: nat :: FirstAt(host, ports, answers, i) && ports[i] == info.selected
      else info.selected == 0
  {
    hide Refreshed;
    var e := es[|es| - 1];
    var before := Refreshed(Run(m, es[..|es| - 1], cfg), e.list, cfg, e.at);
    var info := before[id];
    assert Run(m, es, cfg) == ProbedAll(before, cfg, e.answers);
    RefreshedRunning(Run(m, es[..|es| - 1], cfg), e.list, cfg, e.at, id);
    ProbedSelects(info, cfg, e.answers);
    SameReach(info, Probed(info, cfg, e.answers), cfg);
  }

  lemma SameReach(a: Info, b: Info, cfg: Config)
    requires b == a.(selected := b.selected)
    ensures HostFor(a, cfg) == HostFor(b, cfg) && EffectivePorts(a) == EffectivePorts(b)
  {
    forall i | 0 <= i < |a.ports| ensures EffectivePort(a, a.ports[i]) == EffectivePort(b, b.ports[i]) {}
  }
}
