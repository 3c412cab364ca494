/** What becomes of a listed container: its record, told from the listing alone, and the addresses and names
    it gives. */
module Listings {
  import opened Text
  import opened Lines
  import opened Labels
  import opened Probe
  import opened Registry
  import opened RegistryProofs
  import opened Config
  import opened Views
  import Hosts

  /* ---------- which containers count ---------- */

  /** Equal but for capital letters of ASCII in `s`. */
  predicate LowerIs(s: string, word: string) {
    && |s| == |word|
    && forall i :: 0 <= i < |s| ==> word[i] as int == s[i] as int + if 65 <= s[i] as int <= 90 then 32 else 0
  }

  lemma LowerIff(s: string, word: string)
    ensures ToLower(s) == word <==> LowerIs(s, word)
  {
    forall i | 0 <= i < |s|
      ensures ToLower(s)[i] as int == s[i] as int + if 65 <= s[i] as int <= 90 then 32 else 0
    {
      ToLowerAt(s, i);
    }
    if LowerIs(s, word) {
      forall i | 0 <= i < |s| ensures ToLower(s)[i] == word[i] {}
    }
  }

  /** The label `dev.local` says no. */
  predicate OptedOut(c: Summary) {
    "dev.local" in c.labels
    && var v := c.labels["dev.local"]; LowerIs(v, "false") || LowerIs(v, "0") || LowerIs(v, "no")
  }

  lemma OptedOutIff(c: Summary)
    ensures ShouldSkip(c) <==> OptedOut(c)
  {
    var v := GetLabel(c.labels, SKIP_LABEL);
    LowerIff(v, "false");
    LowerIff(v, "0");
    LowerIff(v, "no");
  }

  /** The container and the proxy are on one network. */
  predicate OneNetwork(c: Summary, self: Self) {
    exists n :: n in c.networks && n in self.networks
  }

  predicate PublishesSome(c: Summary) {
    exists i :: 0 <= i < |c.ports| && c.ports[i].public != 0
  }

  /** Reached by its published ports. */
  predicate ByGateway(c: Summary, self: Self, cfg: Settings) {
    cfg.standalone || (!OneNetwork(c, self) && PublishesSome(c))
  }

  /** Reached by its name. */
  predicate ByName(c: Summary, self: Self, cfg: Settings) {
    !cfg.standalone && OneNetwork(c, self)
  }

  lemma KindIff(c: Summary, self: Self, cfg: Settings)
    ensures Reachability(c, self, cfg) == Gateway <==> ByGateway(c, self, cfg)
    ensures Reachability(c, self, cfg) == Dns <==> ByName(c, self, cfg)
  {
    if n :| n in c.networks && n in self.networks { assert n in c.networks * self.networks; }
    if c.networks * self.networks != {} {
      var n :| n in c.networks * self.networks;
      assert n in c.networks && n in self.networks;
    }
    if b :| b in c.ports && b.public != 0 {
      var i :| 0 <= i < |c.ports| && c.ports[i] == b;
    }
    if i :| 0 <= i < |c.ports| && c.ports[i].public != 0 { assert c.ports[i] in c.ports; }
  }

  /** Counted are all containers that can be reached, but the proxy itself and those that opted out. */
  predicate Counts(c: Summary, self: Self, cfg: Settings) {
    && (self.id == "" || c.id != self.id)
    && !OptedOut(c)
    && (ByGateway(c, self, cfg) || ByName(c, self, cfg))
  }

  lemma CountsIff(c: Summary, self: Self, cfg: Settings)
    ensures Eligible(c, self, cfg) <==> Counts(c, self, cfg)
  {
    hide ShouldSkip, OptedOut, Reachability, OneNetwork, PublishesSome;
    OptedOutIff(c);
    KindIff(c, self, cfg);
  }

  /** The proxy runs in the container whose id begins with the host name, or the other way round, or that is
      called so. */
  predicate IsProxy(c: Summary, hostname: string) {
    hostname != "" && (hostname <= c.id || c.id <= hostname || ContainerName(c) == hostname)
  }

  predicate FirstProxy(list: seq<Summary>, hostname: string, i: int) {
    0 <= i < |list| && IsProxy(list[i], hostname) && forall j :: 0 <= j < i ==> !IsProxy(list[j], hostname)
  }

  /** The proxy is the first such container, with the host's usual gateway if it has none of its own. */
  lemma {:induction false} ProxyIsFirst(list: seq<Summary>, hostname: string, i: int)
    requires FirstProxy(list, hostname, i)
    ensures DiscoverSelf(list, hostname) == Self(list[i].id, list[i].networks,
      if list[i].gateway.Some? then list[i].gateway.value else "host.docker.internal")
  {
    hide IsProxy;
    assert IsSelf(list[0], hostname) <==> i == 0 by { SelfIff(list[0], hostname); }
    if i > 0 {
      assert list[1..][i - 1] == list[i] && forall j :: 0 <= j < i - 1 ==> list[1..][j] == list[j + 1];
      ProxyIsFirst(list[1..], hostname, i - 1);
    }
  }

  lemma SelfIff(c: Summary, hostname: string)
    ensures IsSelf(c, hostname) <==> IsProxy(c, hostname)
  {
  }

  /** Without one the proxy has no network and no id. */
  lemma {:induction false} NoProxy(list: seq<Summary>, hostname: string)
    requires forall i :: 0 <= i < |list| ==> !IsProxy(list[i], hostname)
    ensures DiscoverSelf(list, hostname) == Self("", {}, "host.docker.internal")
  {
    hide IsProxy;
    if list != [] {
      SelfIff(list[0], hostname);
      assert forall i :: 0 <= i < |list[1..]| ==> list[1..][i] == list[i + 1];
      NoProxy(list[1..], hostname);
    }
  }

  /** A container is called by its first name that is not empty, without a leading slash. */
  lemma {:induction false} NameIsFirst(c: Summary, i: nat)
    requires i < |c.names| && c.names[i] != "" && forall j :: 0 <= j < i ==> c.names[j] == ""
    ensures c.names[i] == if c.names[i][0] == '/' then "/" + ContainerName(c) else ContainerName(c)
  {
    NameAmongFirst(c.names, c.id, i);
  }

  lemma {:induction false} NameAmongFirst(names: seq<string>, id: string, i: nat)
    requires i < |names| && names[i] != "" && forall j :: 0 <= j < i ==> names[j] == ""
    ensures names[i] == if names[i][0] == '/' then "/" + NameAmong(names, id) else NameAmong(names, id)
  {
    if i > 0 {
      assert forall j :: 0 <= j < i - 1 ==> names[1..][j] == names[j + 1];
      NameAmongFirst(names[1..], id, i - 1);
    } else {
      Rejoined(names[0]);
    }
  }

  /** Without a name it is called by the first twelve characters of its id. */
  lemma {:induction false} NamelessByID(names: seq<string>, id: string)
    requires (forall j :: 0 <= j < |names| ==> names[j] == "") && |id| >= 12
    ensures |NameAmong(names, id)| == 12 && NameAmong(names, id) <= id
  {
    if names != [] { NamelessByID(names[1..], id); }
  }

  /* ---------- ports ---------- */

  /** The last binding of private port `p` that publishes it does so as `q`. */
  ghost predicate PublishedAs(bindings: seq<PortBinding>, p: Port, q: Port) {
    exists i :: PublishedAt(bindings, p, q, i)
  }

  predicate PublishedAt(bindings: seq<PortBinding>, p: Port, q: Port, i: int) {
    && 0 <= i < |bindings| && bindings[i] == PortBinding(p, q) && q != 0
    && forall j :: i < j < |bindings| && bindings[j].private == p ==> bindings[j].public == 0
  }

  lemma PublishedLast(bindings: seq<PortBinding>, p: Port, q: Port)
    requires bindings != []
    ensures var n := |bindings| - 1; var last := bindings[n];
      PublishedAs(bindings, p, q) <==>
        if last.private == p && last.public != 0 then q == last.public else PublishedAs(bindings[..n], p, q)
  {
    var n := |bindings| - 1;
    var front, last := bindings[..n], bindings[n];
    if last.private == p && last.public != 0 {
      if q == last.public { assert PublishedAt(bindings, p, q, n); }
      if i :| PublishedAt(bindings, p, q, i) {
        assert i == n;
      }
    } else {
      if i :| PublishedAt(front, p, q, i) {
        assert front[i] == bindings[i] && forall j :: i < j < n ==> front[j] == bindings[j];
        assert PublishedAt(bindings, p, q, i);
      }
      if i :| PublishedAt(bindings, p, q, i) {
        assert PublishedAt(front, p, q, i);
      }
    }
  }

  lemma {:induction false} PublishedIff(bindings: seq<PortBinding>, p: Port)
    ensures forall q :: (p in Published(bindings) && Published(bindings)[p] == q) <==> PublishedAs(bindings, p, q)
    ensures p in Published(bindings) ==> Published(bindings)[p] != 0
  {
    if bindings != [] {
      var n := |bindings| - 1;
      var front, last := bindings[..n], bindings[n];
      PublishedIff(front, p);
      forall q ensures (p in Published(bindings) && Published(bindings)[p] == q) <==> PublishedAs(bindings, p, q) {
        PublishedLast(bindings, p, q);
        assert (p in Published(front) && Published(front)[p] == q) <==> PublishedAs(front, p, q);
      }
    }
  }

  /** The port under which private port `p` is reached is `q`. */
  ghost predicate ReachedAt(c: Summary, self: Self, cfg: Settings, p: Port, q: Port) {
    if ByGateway(c, self, cfg) && (exists r :: PublishedAs(c.ports, p, r)) then PublishedAs(c.ports, p, q) else q == p
  }

  /** The host under which it is reached. */
  function ReachedHost(c: Summary, self: Self, cfg: Settings): string {
    if cfg.standalone then "localhost" else if ByGateway(c, self, cfg) then self.gateway else ContainerName(c)
  }

  /* ---------- the record ---------- */

  function LabelOf(c: Summary, key: string): string {
    if key in c.labels then c.labels[key] else ""
  }

  /** The record holds what the listing says of ports and address. */
  ghost predicate AsListed(info: Info, c: Summary) {
    && Increasing(info.ports) && (forall p :: p in info.ports <==> exists b :: b in c.ports && b.private == p)
    && (forall p, q :: p in info.published && info.published[p] == q <==> PublishedAs(c.ports, p, q))
    && info.selected == 0 && info.address == c.address
  }

  /** ... and the other fields, which are those of the listing at any time. */
  ghost predicate Described(info: Info, c: Summary, self: Self, cfg: Settings) {
    && info.id == c.id && info.name == ContainerName(c) && info.image == c.image && info.labels == c.labels
    && info.created == c.created && info.health == c.health && info.networks == c.networks
    && info.project == LabelOf(c, "com.docker.compose.project")
    && info.service == LabelOf(c, "com.docker.compose.service")
    && (info.isCompose <==> info.project != "" && info.service != "")
    && info.kind == (if ByGateway(c, self, cfg) then Gateway else Dns)
    && info.gatewayHost == self.gateway
    && info.custom == ParseLabel(LabelOf(c, "dev.local.domains"))
    && (info.running <==> c.state == "running")
  }

  lemma BuiltAsListed(c: Summary, self: Self, cfg: Settings)
    requires Counts(c, self, cfg)
    ensures var info := BuildInfo(c, self, cfg);
      AsListed(info, c) && Described(info.(running := c.state == "running"), c, self, cfg)
  {
    hide ByGateway, ByName, OptedOut, ParseLabel;
    KindIff(c, self, cfg);
    forall p, q ensures p in Published(c.ports) && Published(c.ports)[p] == q <==> PublishedAs(c.ports, p, q) {
      PublishedIff(c.ports, p);
    }
  }

  /** What a refresh makes of a container that counts. A running one is recorded as listed. One that was running and is
      found stopped keeps its ports and address and is stamped with the time of the refresh; one known to be stopped
      keeps its stamp too; a new one is recorded as listed and stamped. */
  lemma RecordExactly(m: Records, list: seq<Summary>, cfg: Settings, now: nat, c: Summary)
    requires Distinct(list) && c in list && Counts(c, DiscoverSelf(list, cfg.hostname), cfg)
    ensures var self, r := DiscoverSelf(list, cfg.hostname), Refreshed(m, list, cfg, now);
      && c.id in r && Described(r[c.id], c, self, cfg)
      && if c.state == "running" then r[c.id].lastStopped == 0 && AsListed(r[c.id], c)
         else if c.id in m then
           && SameWhileStopped(m[c.id].(lastStopped := r[c.id].lastStopped), r[c.id])
           && r[c.id].lastStopped == if m[c.id].running then now else m[c.id].lastStopped
         else r[c.id].lastStopped == now && AsListed(r[c.id], c)
  {
    hide Counts, BuildInfo, Described, AsListed;
    var self := DiscoverSelf(list, cfg.hostname);
    CountsIff(c, self, cfg);
    RefreshExactly(m, list, cfg, now);
    BuiltAsListed(c, self, cfg);
    MergedAsListed(BuildInfo(c, self, cfg), Find(m, c.id), c, self, cfg, now);
  }

  lemma MergedAsListed(info: Info, prev: Option<Info>, c: Summary, self: Self, cfg: Settings, now: nat)
    requires AsListed(info, c) && Described(info.(running := c.state == "running"), c, self, cfg)
    ensures var r := Merged(info, prev, c.state == RUNNING, now);
      && Described(r, c, self, cfg)
      && if c.state == "running" then r.lastStopped == 0 && AsListed(r, c)
         else if prev.Some? then
           && SameWhileStopped(prev.value.(lastStopped := r.lastStopped), r)
           && r.lastStopped == if prev.value.running then now else prev.value.lastStopped
         else r.lastStopped == now && AsListed(r, c)
  {
    hide PublishedAs, ByGateway, ParseLabel;
  }

  lemma StopsNow(m: Records, e: Event, cfg: Settings, c: Summary)
    requires !e.Cleanup? && Distinct(e.list) && c in e.list && c.state != "running"
    requires Counts(c, DiscoverSelf(e.list, cfg.hostname), cfg)
    requires c.id in m && m[c.id].running
    ensures var r := After(m, e, cfg);
      Stopped(r, c.id) && SameWhileStopped(m[c.id].(lastStopped := e.at), r[c.id]) && r[c.id].lastStopped == e.at
  {
    hide Counts, Described, Refreshed;
    RecordExactly(m, e.list, cfg, e.at, c);
    StoppedDescribed(Refreshed(m, e.list, cfg, e.at)[c.id], c, DiscoverSelf(e.list, cfg.hostname), cfg);
  }

  /** A container that ran before a refresh finds it stopped at `t` is still there, stamped with `t` and otherwise
      unchanged, after any later events up to the limit that do not find it running. */
  lemma StopLasts(m: Records, e: Event, es: seq<Event>, cfg: Settings, c: Summary)
    requires !e.Cleanup? && Distinct(e.list) && c in e.list && c.state != "running"
    requires Counts(c, DiscoverSelf(e.list, cfg.hostname), cfg)
    requires c.id in m && m[c.id].running
    requires RunOk(es, e.at) && NeverRestarts(es, c.id)
    requires forall i :: 0 <= i < |es| ==> es[i].at - e.at <= cfg.staleTtl
    ensures var r := Run(After(m, e, cfg), es, cfg);
      Stopped(r, c.id) && SameWhileStopped(m[c.id].(lastStopped := e.at), r[c.id])
  {
    hide Counts, Run, RunOk, NeverRestarts, After;
    StopsNow(m, e, cfg, c);
    RunKeepsYoung(After(m, e, cfg), es, cfg, e.at, c.id);
  }

  lemma StoppedDescribed(info: Info, c: Summary, self: Self, cfg: Settings)
    requires Described(info, c, self, cfg) && c.state != "running"
    ensures !info.running
  {
  }

  /* ---------- addresses and names ---------- */

  /** The domain of a container without custom domains: project, service and TLD, or name and TLD. */
  function OwnDomain(c: Summary, tld: string): string {
    var project, service := LabelOf(c, "com.docker.compose.project"), LabelOf(c, "com.docker.compose.service");
    if project != "" && service != "" then project + "." + service + "." + tld else ContainerName(c) + "." + tld
  }

  ghost predicate Recorded(info: Info, c: Summary, self: Self, cfg: Settings) {
    Counts(c, self, cfg) && Described(info, c, self, cfg) && AsListed(info.(selected := 0), c) && info.running
  }

  lemma ReachedIff(info: Info, c: Summary, self: Self, cfg: Settings, p: Port)
    requires Recorded(info, c, self, cfg)
    ensures ReachedAt(c, self, cfg, p, EffectivePort(info, p)) && HostFor(info, cfg) == ReachedHost(c, self, cfg)
  {
    hide OptedOut, ParseLabel, OneNetwork, PublishesSome, PublishedAs;
    if q :| PublishedAs(c.ports, p, q) { assert p in info.published && info.published[p] == q; }
    if p in info.published { assert PublishedAs(c.ports, p, info.published[p]); }
  }

  lemma {:induction false} CustomPairsAt(info: Info, cds: seq<CustomDomain>, cfg: Settings, i: nat)
    requires i < |cds|
    ensures |CustomPairs(info, cds, cfg)| == |cds|
    ensures CustomPairs(info, cds, cfg)[i]
         == (cds[i].domain, HostFor(info, cfg) + ":" + Decimal(EffectivePort(info, cds[i].port)))
  {
    if i > 0 {
      CustomPairsAt(info, cds[1..], cfg, i - 1);
    } else if |cds| > 1 {
      CustomPairsAt(info, cds[1..], cfg, 0);
    }
  }

  /** A running container gives one address for each entry of its label: its host and the port under which the entry's
      port is reached. */
  lemma LabelledGives(m: Records, list: seq<Summary>, cfg: Settings, now: nat, c: Summary, i: nat) returns (q: Port)
    requires Distinct(list) && c in list && Counts(c, DiscoverSelf(list, cfg.hostname), cfg) && c.state == "running"
    requires i < |ParseLabel(LabelOf(c, "dev.local.domains"))|
    ensures var self, r := DiscoverSelf(list, cfg.hostname), Refreshed(m, list, cfg, now);
      var cds := ParseLabel(LabelOf(c, "dev.local.domains"));
      var address := ReachedHost(c, self, cfg) + ":" + Decimal(q);
      && ReachedAt(c, self, cfg, cds[i].port, q)
      && c.id in r && |Contribution(r[c.id], cfg)| == |cds| && Contribution(r[c.id], cfg)[i] == (cds[i].domain, address)
      && cds[i].domain in TargetsOf(r, cfg) && address in TargetsOf(r, cfg)[cds[i].domain]
  {
    hide Counts, Refreshed, AsListed, TargetsOf, ParseLabel, ReachedAt, ReachedHost, EffectivePort, HostFor;
    var self, r := DiscoverSelf(list, cfg.hostname), Refreshed(m, list, cfg, now);
    RecordExactly(m, list, cfg, now, c);
    var info := r[c.id];
    var cds := ParseLabel(LabelOf(c, "dev.local.domains"));
    RunningRecorded(info, c, self, cfg);
    q := EffectivePort(info, cds[i].port);
    ReachedIff(info, c, self, cfg, cds[i].port);
    CustomPairsAt(info, cds, cfg, i);
    GivenIsServed(r, cfg, c.id, i);
  }

  lemma RunningRecorded(info: Info, c: Summary, self: Self, cfg: Settings)
    requires Counts(c, self, cfg) && Described(info, c, self, cfg) && AsListed(info, c) && c.state == "running"
    ensures Recorded(info, c, self, cfg) && info.selected == 0
  {
    assert info.(selected := 0) == info;
  }

  /** What a container gives is in the view. */
  lemma GivenIsServed(m: Records, cfg: Settings, id: string, i: nat)
    requires id in m && i < |Contribution(m[id], cfg)|
    ensures var p := Contribution(m[id], cfg)[i]; p.0 in TargetsOf(m, cfg) && p.1 in TargetsOf(m, cfg)[p.0]
  {
    hide Contribution, PairsOf, TargetsOf;
    var p := Contribution(m[id], cfg)[i];
    var ids := SomeListing(m.Keys);
    PairsMember(m, ids, cfg, p);
    TargetsExactly(m, cfg, ids, p.0);
    assert id in ids && (p.0, p.1) == p;
    assert multiset(PairsOf(m, ids, cfg))[p] > 0;
  }

  /** Some binding's private port is reached at `q`. */
  ghost predicate Candidate(c: Summary, self: Self, cfg: Settings, q: Port) {
    exists b :: b in c.ports && ReachedAt(c, self, cfg, b.private, q)
  }

  lemma ReachedOnce(c: Summary, self: Self, cfg: Settings, p: Port, q: Port, r: Port)
    requires ReachedAt(c, self, cfg, p, q) && ReachedAt(c, self, cfg, p, r)
    ensures q == r
  {
    PublishedIff(c.ports, p);
  }

  lemma CandidateIff(info: Info, c: Summary, self: Self, cfg: Settings, q: Port)
    requires Recorded(info, c, self, cfg)
    ensures q in EffectivePorts(info) <==> Candidate(c, self, cfg, q)
  {
    hide Counts, Described, ReachedAt, EffectivePort, PublishedAs;
    if q in EffectivePorts(info) {
      var i :| 0 <= i < |info.ports| && EffectivePorts(info)[i] == q;
      var p := info.ports[i];
      ReachedIff(info, c, self, cfg, p);
      assert p in info.ports;
    }
    if b :| b in c.ports && ReachedAt(c, self, cfg, b.private, q) {
      ReachedIff(info, c, self, cfg, b.private);
      ReachedOnce(c, self, cfg, b.private, q, EffectivePort(info, b.private));
      assert b.private in info.ports;
      var i :| 0 <= i < |info.ports| && info.ports[i] == b.private;
      assert EffectivePorts(info)[i] == q;
    }
  }

  /** What a refresh with a probe round makes of a running container without a label: its two names lead to its host
      and the port of the best rank among those that answer, and if none does it has no address. */
  lemma ProbedGives(m: Records, list: seq<Summary>, cfg: Settings, now: nat, answers: Answers, c: Summary)
    requires Distinct(list) && c in list && Counts(c, DiscoverSelf(list, cfg.hostname), cfg) && c.state == "running"
    requires LabelOf(c, "dev.local.domains") == ""
    ensures var self := DiscoverSelf(list, cfg.hostname);
      var r := ProbedAll(Refreshed(m, list, cfg, now), cfg, answers);
      c.id in r && var info, host := r[c.id], ReachedHost(c, self, cfg);
      && Recorded(info, c, self, cfg)
      && (if exists q :: Candidate(c, self, cfg, q) && answers(host, q)
          then Best(c, self, cfg, answers, info.selected)
          else info.selected == 0)
      && Contribution(info, cfg) ==
           if info.selected == 0 then []
           else var address := host + ":" + Decimal(info.selected);
             [(OwnDomain(c, cfg.tld), address),
              (OwnDomain(c, "localhost"), address)]
  {
    hide Counts, Refreshed, Described, AsListed, ReachedAt, ReachedHost, EffectivePort, HostFor, OwnDomain, Probed;
    var self, before := DiscoverSelf(list, cfg.hostname), Refreshed(m, list, cfg, now);
    RecordExactly(m, list, cfg, now, c);
    var info, p := before[c.id], Probed(before[c.id], cfg, answers);
    RunningRecorded(info, c, self, cfg);
    UnlabelledProbed(info, c, self, cfg, answers);
    OwnAddresses(p, c, self, cfg);
  }

  /** A candidate that answers, and of the least rank among these. */
  ghost predicate Best(c: Summary, self: Self, cfg: Settings, answers: Answers, q: Port) {
    && Candidate(c, self, cfg, q) && answers(ReachedHost(c, self, cfg), q)
    && forall p :: Candidate(c, self, cfg, p) && answers(ReachedHost(c, self, cfg), p) ==> Rank(q) <= Rank(p)
  }

  lemma UnlabelledProbed(info: Info, c: Summary, self: Self, cfg: Settings, answers: Answers)
    requires Recorded(info, c, self, cfg) && info.selected == 0 && LabelOf(c, "dev.local.domains") == ""
    ensures var p, host := Probed(info, cfg, answers), ReachedHost(c, self, cfg);
      && Recorded(p, c, self, cfg)
      && if exists q :: Candidate(c, self, cfg, q) && answers(host, q) then Best(c, self, cfg, answers, p.selected)
         else p.selected == 0
  {
    hide Counts, AsListed, ReachedAt, ReachedHost, EffectivePort, HostFor, Candidate, EffectivePorts, Preferred, Rank;
    hide Described, FirstAnswering, Probed, Ranked;
    var host := ReachedHost(c, self, cfg);
    var ports := Preferred(EffectivePorts(info));
    ReachedIff(info, c, self, cfg, 0);
    forall q ensures q in EffectivePorts(info) <==> Candidate(c, self, cfg, q) { CandidateIff(info, c, self, cfg, q); }
    PreferredIsPermutation(EffectivePorts(info));
    PreferredRanked(EffectivePorts(info));
    Unlabelled(info, c, self, cfg);
    ProbedSelects(info, cfg, answers);
    var p := Probed(info, cfg, answers);
    ProbedRecorded(info, p, c, self, cfg);
    if q0 :| Candidate(c, self, cfg, q0) && answers(host, q0) {
      var i: nat :| FirstAt(host, ports, answers, i) && ports[i] == p.selected;
      assert ports[i] in ports;
      FirstIsBest(host, ports, answers, i);
    }
  }

  lemma Unlabelled(info: Info, c: Summary, self: Self, cfg: Settings)
    requires Described(info, c, self, cfg) && LabelOf(c, "dev.local.domains") == ""
    ensures GetLabel(info.labels, DOMAINS_LABEL) == ""
  {
    hide ParseLabel, ByGateway;
  }

  lemma FirstIsBest(host: string, ports: seq<Port>, answers: Answers, i: nat)
    requires FirstAt(host, ports, answers, i) && Ranked(ports, 0, 4)
    ensures answers(host, ports[i]) && forall q :: q in ports && answers(host, q) ==> Rank(ports[i]) <= Rank(q)
  {
    hide Rank;
    forall q | q in ports && answers(host, q) ensures Rank(ports[i]) <= Rank(q) {
      var j :| 0 <= j < |ports| && ports[j] == q;
    }
  }

  lemma ProbedRecorded(info: Info, p: Info, c: Summary, self: Self, cfg: Settings)
    requires Recorded(info, c, self, cfg) && p == info.(selected := p.selected)
    ensures Recorded(p, c, self, cfg)
  {
    hide Counts, ParseLabel, ByGateway;
    assert p.(selected := 0) == info.(selected := 0);
  }

  lemma OwnAddresses(info: Info, c: Summary, self: Self, cfg: Settings)
    requires Recorded(info, c, self, cfg) && LabelOf(c, "dev.local.domains") == ""
    ensures Contribution(info, cfg) ==
      if info.selected == 0 then []
      else var address := ReachedHost(c, self, cfg) + ":" + Decimal(info.selected);
        [(OwnDomain(c, cfg.tld), address), (OwnDomain(c, "localhost"), address)]
  {
    hide Counts, AsListed, ReachedAt, ReachedHost, EffectivePort, HostFor, ByGateway;
    ReachedIff(info, c, self, cfg, 0);
    OwnNames(info, c, self, cfg);
  }

  lemma OwnNames(info: Info, c: Summary, self: Self, cfg: Settings)
    requires Described(info, c, self, cfg)
    ensures DomainFor(info, cfg) == OwnDomain(c, cfg.tld) && LocalhostDomainFor(info) == OwnDomain(c, "localhost")
  {
    hide ByGateway, ParseLabel;
    assert Hosts.LOCALHOST_SUFFIX == "." + "localhost";
    Associates(info.name, ".", "localhost");
    Associates(info.project + "." + info.service, ".", "localhost");
  }

  /** A running container without custom domains that has no address yet is still listed by its two names if it is
      reached by its name and has a port, or by the gateway and publishes one. */
  lemma UnprobedListed(info: Info, c: Summary, self: Self, cfg: Settings)
    requires Recorded(info, c, self, cfg) && info.custom == [] && info.selected == 0
    ensures NamesOf(info, cfg) ==
      if (ByName(c, self, cfg) && c.ports != []) || (ByGateway(c, self, cfg) && PublishesSome(c))
      then [OwnDomain(c, cfg.tld), OwnDomain(c, "localhost")]
      else []
  {
    hide OptedOut, OneNetwork, OwnDomain, DomainFor, LocalhostDomainFor, ParseLabel;
    OwnNames(info, c, self, cfg);
    if c.ports != [] { assert c.ports[0] in c.ports && c.ports[0].private in info.ports; }
    if info.ports != [] { assert info.ports[0] in info.ports; }
    PublishedSome(info, c);
  }

  lemma PublishedSome(info: Info, c: Summary)
    requires forall p, q :: p in info.published && info.published[p] == q <==> PublishedAs(c.ports, p, q)
    ensures info.published != map[] <==> PublishesSome(c)
  {
    if p :| p in info.published {
      assert PublishedAs(c.ports, p, info.published[p]);
      var i :| PublishedAt(c.ports, p, info.published[p], i);
    }
    if i :| 0 <= i < |c.ports| && c.ports[i].public != 0 {
      var k := LastPublishing(c.ports, i);
      assert PublishedAt(c.ports, c.ports[k].private, c.ports[k].public, k);
      assert PublishedAs(c.ports, c.ports[k].private, c.ports[k].public);
    }
  }

  lemma LastPublishing(bindings: seq<PortBinding>, i: nat) returns (k: nat)
    requires i < |bindings| && bindings[i].public != 0
    ensures i <= k < |bindings| && bindings[k].private == bindings[i].private && bindings[k].public != 0
    ensures forall j :: k < j < |bindings| && bindings[j].private == bindings[k].private ==> bindings[j].public == 0
    decreases |bindings| - i
  {
    if j :| i < j < |bindings| && bindings[j].private == bindings[i].private && bindings[j].public != 0 {
      k := LastPublishing(bindings, j);
    } else {
      k := i;
    }
  }
}
