/** The registry of containers: what one refresh, one probe round and one cleanup make of it. */
module Registry {
  import opened Text
  import opened Lines
  import opened Labels
  import opened Probe

  /* ---------- what Docker lists ---------- */

  /** A published port has a public number other than 0. */
  datatype PortBinding = PortBinding(private: Port, public: Port)

  /** One listed container. `address` is the IP address and `gateway` the network gateway that
      the client picks among the container's networks. */
  datatype Summary = Summary(
    id: string, names: seq<string>, image: string, labels: map<string, string>, state: string,
    ports: seq<PortBinding>, networks: set<string>, address: string, gateway: Option<string>,
    health: string, created: int)

  const RUNNING := "running"
  const PROJECT_LABEL := "com.docker.compose.project"
  const SERVICE_LABEL := "com.docker.compose.service"
  const SKIP_LABEL := "dev.local"
  const HOST_GATEWAY := "host.docker.internal"

  function ContainerName(c: Summary): string {
    NameAmong(c.names, c.id)
  }

  /** The first name that is not empty, without its leading slash; else the short id. */
  function NameAmong(names: seq<string>, id: string): string {
    if names == [] then (if |id| >= 12 then id[..12] else id)
    else if names[0] == "" then NameAmong(names[1..], id)
    else if names[0][0] == '/' then names[0][1..]
    else names[0]
  }

  predicate ShouldSkip(c: Summary) {
    ToLower(GetLabel(c.labels, SKIP_LABEL)) in {"false", "0", "no"}
  }

  function InsertPort(p: Port, s: seq<Port>): seq<Port> {
    if s == [] || p < s[0] then [p] + s
    else if p == s[0] then s
    else [s[0]] + InsertPort(p, s[1..])
  }

  ghost predicate Increasing(s: seq<Port>) {
    forall i, j :: 0 <= i < j < |s| ==> s[i] < s[j]
  }

  lemma {:induction false} InsertKeeps(p: Port, s: seq<Port>)
    requires Increasing(s)
    ensures Increasing(InsertPort(p, s))
    ensures forall q :: q in InsertPort(p, s) <==> q == p || q in s
  {
    if s != [] && p > s[0] {
      var r := InsertPort(p, s[1..]);
      InsertKeeps(p, s[1..]);
      Rejoined(s);
      forall q | q in r ensures s[0] < q {
        if q != p {
          var i :| 0 <= i < |s[1..]| && s[1..][i] == q;
          assert s[i + 1] == q;
        }
      }
    }
  }

  /** The distinct private ports in ascending order. */
  function ExtractPorts(bindings: seq<PortBinding>): (r: seq<Port>)
    ensures Increasing(r)
    ensures forall p :: p in r <==> exists b :: b in bindings && b.private == p
  {
    if bindings == [] then [] else
    var r := ExtractPorts(bindings[1..]);
    InsertKeeps(bindings[0].private, r);
    Rejoined(bindings);
    InsertPort(bindings[0].private, r)
  }

  /* ---------- configuration, and the proxy itself ---------- */

  datatype Config = Config(tld: string, standalone: bool, staleTtl: nat, hostname: string)

  datatype Self = Self(id: string, networks: set<string>, gateway: string)

  predicate IsSelf(c: Summary, hostname: string) {
    hostname != "" && (c.id == hostname || ContainerName(c) == hostname || hostname <= c.id || c.id <= hostname)
  }

  function DiscoverSelf(list: seq<Summary>, hostname: string): Self {
    if list == [] then Self("", {}, HOST_GATEWAY)
    else if IsSelf(list[0], hostname) then
      Self(list[0].id, list[0].networks, if list[0].gateway.Some? then list[0].gateway.value else HOST_GATEWAY)
    else DiscoverSelf(list[1..], hostname)
  }

  datatype Kind = Unreachable | Dns | Gateway

  function Reachability(c: Summary, self: Self, cfg: Config): Kind {
    if cfg.standalone then Gateway
    else if c.networks * self.networks != {} then Dns
    else if exists b :: b in c.ports && b.public != 0 then Gateway
    else Unreachable
  }

  /* ---------- records ---------- */

  /** `lastStopped` is 0 where Go has the zero time. */
  datatype Info = Info(
    id: string, name: string, image: string, project: string, service: string, address: string,
    ports: seq<Port>, published: map<Port, Port>, selected: Port, kind: Kind, gatewayHost: string,
    isCompose: bool, running: bool, lastStopped: nat, created: int, labels: map<string, string>,
    custom: seq<CustomDomain>, health: string, networks: set<string>)

  type Records = map<string, Info>

  /** Later bindings of the same private port win. */
  function Published(bindings: seq<PortBinding>): map<Port, Port> {
    if bindings == [] then map[] else
    var n := |bindings| - 1;
    var m := Published(bindings[..n]);
    if bindings[n].public != 0 then m[bindings[n].private := bindings[n].public] else m
  }

  function BuildInfo(c: Summary, self: Self, cfg: Config): Info {
    var project, service := GetLabel(c.labels, PROJECT_LABEL), GetLabel(c.labels, SERVICE_LABEL);
    var kind := Reachability(c, self, cfg);
    Info(c.id, ContainerName(c), c.image, project, service, if kind == Unreachable then "" else c.address,
         ExtractPorts(c.ports), Published(c.ports), 0, kind, self.gateway,
         project != "" && service != "", false, 0, c.created, c.labels,
         ParseLabel(GetLabel(c.labels, DOMAINS_LABEL)), c.health, c.networks)
  }

  /** The record a listed container gets, given the one it had. */
  function Merged(info: Info, prev: Option<Info>, running: bool, now: nat): Info {
    if running then info.(running := true, lastStopped := 0)
    else match prev
      case None => info.(running := false, lastStopped := now)
      case Some(p) =>
        info.(running := false, ports := p.ports, published := p.published, selected := p.selected,
              address := p.address, lastStopped := if p.running then now else p.lastStopped)
  }

  function Find(m: Records, id: string): Option<Info> {
    if id in m then Some(m[id]) else None
  }

  predicate Eligible(c: Summary, self: Self, cfg: Config) {
    && !(self.id != "" && c.id == self.id)
    && !ShouldSkip(c)
    && (cfg.standalone || Reachability(c, self, cfg) != Unreachable)
  }

  function Entered(m: Records, c: Summary, self: Self, cfg: Config, now: nat): Records {
    if Eligible(c, self, cfg)
    then m[c.id := Merged(BuildInfo(c, self, cfg), Find(m, c.id), c.state == RUNNING, now)]
    else m
  }

  function EnteredAll(m: Records, list: seq<Summary>, self: Self, cfg: Config, now: nat): Records {
    if list == [] then m
    else Entered(EnteredAll(m, list[..|list| - 1], self, cfg, now), list[|list| - 1], self, cfg, now)
  }

  function Seen(list: seq<Summary>, self: Self, cfg: Config): set<string> {
    set c | c in list && Eligible(c, self, cfg) :: c.id
  }

  predicate Stale(info: Info, ttl: nat, now: nat) {
    info.lastStopped != 0 && now - info.lastStopped > ttl
  }

  function Pruned(m: Records, seen: set<string>, ttl: nat, now: nat): Records {
    map id | id in m && (id in seen || (!m[id].running && !Stale(m[id], ttl, now))) :: m[id]
  }

  function Refreshed(m: Records, list: seq<Summary>, cfg: Config, now: nat): Records {
    var self := DiscoverSelf(list, cfg.hostname);
    Pruned(EnteredAll(m, list, self, cfg, now), Seen(list, self, cfg), cfg.staleTtl, now)
  }

  function Cleaned(m: Records, ttl: nat, now: nat): Records {
    map id | id in m && !(!m[id].running && Stale(m[id], ttl, now)) :: m[id]
  }

  /* ---------- ports ---------- */

  function EffectivePort(info: Info, private: Port): Port {
    if info.kind == Gateway && private in info.published then info.published[private] else private
  }

  function EffectivePorts(info: Info): (r: seq<Port>)
    ensures |r| == |info.ports|
  {
    seq(|info.ports|, i requires 0 <= i < |info.ports| => EffectivePort(info, info.ports[i]))
  }

  const LOCALHOST_NAME := "localhost"

  function HostFor(info: Info, cfg: Config): string {
    if cfg.standalone then LOCALHOST_NAME
    else if info.kind == Gateway then info.gatewayHost
    else info.name
  }

  /** A running container without a domains label gets the first answering port, if any. */
  function Probed(info: Info, cfg: Config, answers: Answers): Info {
    if !info.running || GetLabel(info.labels, DOMAINS_LABEL) != "" then info else
    var found := FirstAnswering(HostFor(info, cfg), Preferred(EffectivePorts(info)), answers);
    if found.Some? then info.(selected := found.value) else info
  }

  function ProbedAll(m: Records, cfg: Config, answers: Answers): Records {
    map id | id in m :: Probed(m[id], cfg, answers)
  }

  /* ---------- the object ---------- */

  class Generator {
    const cfg: Config
    var containers: Records

    constructor (cfg: Config)
      ensures this.cfg == cfg && containers == map[]
    {
      this.cfg := cfg;
      containers := map[];
    }

    lemma EnteredNone(m: Records, self: Self, now: nat)
      ensures EnteredAll(m, [], self, cfg, now) == m && Seen([], self, cfg) == {}
    {
    }

    lemma EnteredNext(m: Records, list: seq<Summary>, i: nat, self: Self, now: nat)
      requires i < |list|
      ensures EnteredAll(m, list[..i + 1], self, cfg, now)
           == Entered(EnteredAll(m, list[..i], self, cfg, now), list[i], self, cfg, now)
      ensures Seen(list[..i + 1], self, cfg)
           == Seen(list[..i], self, cfg) + if Eligible(list[i], self, cfg) then {list[i].id} else {}
    {
      hide Entered, Eligible;
      assert list[..i + 1] == list[..i] + [list[i]] && list[..i + 1][..i] == list[..i];
    }

    method EnterListed(list: seq<Summary>, self: Self, now: nat) returns (seen: set<string>)
      modifies this`containers
      ensures containers == EnteredAll(old(containers), list, self, cfg, now)
      ensures seen == Seen(list, self, cfg)
    {
      hide BuildInfo, ShouldSkip, Reachability, EnteredAll, Seen;
      seen := {};
      assert EnteredAll(containers, list[..0], self, cfg, now) == containers && Seen(list[..0], self, cfg) == {} by {
        EnteredNone(containers, self, now);
      }
      for i := 0 to |list|
        invariant containers == EnteredAll(old(containers), list[..i], self, cfg, now)
        invariant seen == Seen(list[..i], self, cfg)
      {
        var c := list[i];
        EnteredNext(old(containers), list, i, self, now);
        if self.id != "" && c.id == self.id { continue; }
        if ShouldSkip(c) { continue; }
        if !cfg.standalone && Reachability(c, self, cfg) == Unreachable { continue; }
        var info := BuildInfo(c, self, cfg);
        seen := seen + {c.id};
        if c.state == RUNNING {
          info := info.(running := true, lastStopped := 0);
        } else if c.id in containers {
          var prev := containers[c.id];
          info := info.(running := false, ports := prev.ports, published := prev.published,
                        selected := prev.selected, address := prev.address,
                        lastStopped := if prev.running then now else prev.lastStopped);
        } else {
          info := info.(running := false, lastStopped := now);
        }
        containers := containers[c.id := info];
      }
      assert list[..|list|] == list;
    }

    method PruneUnlisted(seen: set<string>, now: nat)
      modifies this`containers
      ensures containers == Pruned(old(containers), seen, cfg.staleTtl, now)
    {
      ghost var before := containers;
      var todo := containers.Keys;
      while todo != {}
        invariant todo <= before.Keys
        invariant containers ==
          map id | id in before && (id in todo || id in Pruned(before, seen, cfg.staleTtl, now)) :: before[id]
        decreases todo
      {
        var id :| id in todo;
        todo := todo - {id};
        if id in seen { continue; }
        var info := containers[id];
        if info.running {
          containers := containers - {id};
        } else if info.lastStopped != 0 && now - info.lastStopped > cfg.staleTtl {
          containers := containers - {id};
        }
      }
    }

    method RefreshLocked(list: seq<Summary>, now: nat)
      modifies this`containers
      ensures containers == Refreshed(old(containers), list, cfg, now)
    {
      var self := DiscoverSelf(list, cfg.hostname);
      var seen := EnterListed(list, self, now);
      PruneUnlisted(seen, now);
    }

    method SelectPortsLocked(answers: Answers)
      modifies this`containers
      ensures containers == ProbedAll(old(containers), cfg, answers)
    {
      ghost var before := containers;
      var todo := containers.Keys;
      while todo != {}
        invariant todo <= before.Keys
        invariant containers ==
          map id | id in before :: if id in todo then before[id] else Probed(before[id], cfg, answers)
        decreases todo
      {
        var id :| id in todo;
        todo := todo - {id};
        var info := containers[id];
        if !info.running { continue; }
        if GetLabel(info.labels, DOMAINS_LABEL) != "" { continue; }
        var ports := EffectivePorts(info);
        if |ports| == 0 { continue; }
        var port := ProbeHTTPPort(HostFor(info, cfg), ports, answers);
        if port.Some? {
          containers := containers[id := info.(selected := port.value)];
        }
      }
    }

    method RefreshAndSelect(list: seq<Summary>, now: nat, answers: Answers)
      modifies this`containers
      ensures containers == ProbedAll(Refreshed(old(containers), list, cfg, now), cfg, answers)
    {
      RefreshLocked(list, now);
      SelectPortsLocked(answers);
    }

    method StaleCleanup(now: nat)
      modifies this`containers
      ensures containers == Cleaned(old(containers), cfg.staleTtl, now)
    {
      ghost var before := containers;
      var todo := containers.Keys;
      while todo != {}
        invariant todo <= before.Keys
        invariant containers ==
          map id | id in before && (id in todo || id in Cleaned(before, cfg.staleTtl, now)) :: before[id]
        decreases todo
      {
        var id :| id in todo;
        todo := todo - {id};
        var info := containers[id];
        if !info.running && info.lastStopped != 0 && now - info.lastStopped > cfg.staleTtl {
          containers := containers - {id};
        }
      }
    }
  }
}
