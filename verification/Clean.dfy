/** Registries whose strings cannot be mistaken in the hashed bytes, and two pairs that are. */
module Clean {
  import opened Text
  import opened Lines
  import opened Labels
  import opened Config
  import opened Fingerprint
  import opened Registry
  import opened RegistryProofs
  import opened Views

  /* ---------- records ---------- */

  /** No NUL in what goes into domains and addresses, and no newline at the start of a host. */
  predicate CleanRecord(info: Info) {
    && CleanAddress(info.name) && CleanAddress(info.gatewayHost)
    && NUL !in info.project && NUL !in info.service
    && forall cd :: cd in info.custom ==> NUL !in cd.domain
  }

  predicate CleanRegistry(m: Records, cfg: Settings) {
    NUL !in cfg.tld && forall id :: id in m ==> CleanRecord(m[id])
  }

  lemma AddressClean(host: string, port: Port)
    requires CleanAddress(host)
    ensures CleanAddress(Address(host, port))
  {
    DecimalDigits(port);
  }

  lemma {:induction false} CustomPairsClean(info: Info, cds: seq<CustomDomain>, cfg: Settings, p: Pair)
    requires CleanRecord(info) && (forall cd :: cd in cds ==> NUL !in cd.domain) && p in CustomPairs(info, cds, cfg)
    ensures NUL !in p.0 && CleanAddress(p.1)
  {
    if p in CustomPairs(info, cds[1..], cfg) {
      CustomPairsClean(info, cds[1..], cfg, p);
    } else {
      AddressClean(HostFor(info, cfg), EffectivePort(info, cds[0].port));
    }
  }

  lemma ContributionClean(info: Info, cfg: Settings, p: Pair)
    requires CleanRecord(info) && NUL !in cfg.tld && p in Contribution(info, cfg)
    ensures NUL !in p.0 && CleanAddress(p.1)
  {
    if info.custom != [] {
      CustomPairsClean(info, info.custom, cfg, p);
    } else {
      AddressClean(HostFor(info, cfg), info.selected);
    }
  }

  lemma TargetFrom(m: Records, cfg: Settings, d: string, t: string) returns (id: string)
    requires d in TargetsOf(m, cfg) && t in TargetsOf(m, cfg)[d]
    ensures id in m && (d, t) in Contribution(m[id], cfg)
  {
    hide TargetsOf, PairsOf, Contribution;
    var ids := SomeListing(m.Keys);
    TargetsExactly(m, cfg, ids, d);
    assert Times(TargetsOf(m, cfg), d, t) > 0;
    assert (d, t) in multiset(PairsOf(m, ids, cfg));
    PairsMember(m, ids, cfg, (d, t));
    id :| id in ids && (d, t) in Contribution(m[id], cfg);
  }

  /** A clean registry gives clean targets. */
  lemma CleanView(m: Records, cfg: Settings)
    requires CleanRegistry(m, cfg)
    ensures CleanTargets(TargetsOf(m, cfg))
  {
    hide TargetsOf, PairsOf, Contribution, CleanRecord, CleanAddress;
    var r, ids := TargetsOf(m, cfg), SomeListing(m.Keys);
    forall d, t | d in r && t in r[d] ensures NUL !in d && CleanAddress(t) {
      var id := TargetFrom(m, cfg, d, t);
      ContributionClean(m[id], cfg, (d, t));
    }
    forall d | d in r ensures NUL !in d {
      TargetsExactly(m, cfg, ids, d);
      var t := r[d][0];
      var id := TargetFrom(m, cfg, d, t);
      ContributionClean(m[id], cfg, (d, t));
    }
  }

  /* ---------- refreshes keep it ---------- */

  /** The same of a listed container. */
  predicate CleanSummary(c: Summary) {
    && CleanAddress(ContainerName(c))
    && (c.gateway.Some? ==> CleanAddress(c.gateway.value))
    && forall key :: key in c.labels ==> NUL !in c.labels[key]
  }

  lemma {:induction false} SplitWithout(s: string, sep: char, c: char)
    requires c !in s
    ensures forall i :: 0 <= i < |Split(s, sep)| ==> c !in Split(s, sep)[i]
  {
    if s != [] { SplitWithout(s[1..], sep, c); }
  }

  lemma {:induction false} TrimWithout(s: string, c: char)
    requires c !in s
    ensures c !in TrimLeftSpace(s) && c !in TrimRightSpace(s)
    decreases |s|
  {
    if s != [] {
      TrimWithout(s[1..], c);
      TrimWithout(s[..|s| - 1], c);
    }
  }

  lemma {:induction false} CutWithout(s: string, sep: char, c: char)
    requires c !in s && Cut(s, sep).Some?
    ensures c !in Cut(s, sep).value.1
  {
    if s[0] != sep { CutWithout(s[1..], sep, c); }
  }

  lemma EntryWithout(raw: string, c: char, d: CustomDomain)
    requires c !in raw && d in ParseEntry(raw)
    ensures c !in d.domain
  {
    TrimWithout(raw, c);
    TrimWithout(TrimLeftSpace(raw), c);
    var entry := TrimSpace(raw);
    CutWithout(entry, ':', c);
    var rest := Cut(entry, ':').value.1;
    TrimWithout(rest, c);
    TrimWithout(TrimLeftSpace(rest), c);
  }

  lemma {:induction false} EntriesWithout(entries: seq<string>, c: char, d: CustomDomain)
    requires (forall i :: 0 <= i < |entries| ==> c !in entries[i]) && d in ParseEntries(entries)
    ensures c !in d.domain
  {
    if d in ParseEntry(entries[0]) {
      EntryWithout(entries[0], c, d);
    } else {
      EntriesWithout(entries[1..], c, d);
    }
  }

  lemma {:induction false} SelfClean(list: seq<Summary>, hostname: string)
    requires forall c :: c in list ==> CleanSummary(c)
    ensures CleanAddress(DiscoverSelf(list, hostname).gateway)
  {
    if list != [] {
      assert list[0] in list;
      SelfClean(list[1..], hostname);
    }
  }

  lemma BuiltClean(c: Summary, self: Self, cfg: Settings)
    requires CleanSummary(c) && CleanAddress(self.gateway)
    ensures CleanRecord(BuildInfo(c, self, cfg))
  {
    var text := GetLabel(c.labels, DOMAINS_LABEL);
    forall d | d in ParseLabel(text) ensures NUL !in d.domain {
      SplitWithout(text, ';', NUL);
      EntriesWithout(Split(text, ';'), NUL, d);
    }
  }

  lemma RefreshClean(m: Records, list: seq<Summary>, cfg: Settings, now: nat)
    requires Distinct(list) && CleanRegistry(m, cfg) && forall c :: c in list ==> CleanSummary(c)
    ensures CleanRegistry(Refreshed(m, list, cfg, now), cfg)
  {
    hide CleanRecord, CleanSummary, BuildInfo, Eligible;
    var self, r := DiscoverSelf(list, cfg.hostname), Refreshed(m, list, cfg, now);
    RefreshExactly(m, list, cfg, now);
    SelfClean(list, cfg.hostname);
    forall id | id in r ensures CleanRecord(r[id]) {
      if id in Seen(list, self, cfg) {
        var c :| c in list && Eligible(c, self, cfg) && c.id == id;
        BuiltClean(c, self, cfg);
        MergedClean(BuildInfo(c, self, cfg), Find(m, id), c.state == RUNNING, now);
      }
    }
  }

  lemma MergedClean(info: Info, prev: Option<Info>, running: bool, now: nat)
    requires CleanRecord(info)
    ensures CleanRecord(Merged(info, prev, running, now))
  {
  }

  /** On every run in which Docker lists clean containers the registry is clean. */
  lemma {:induction false} RunKeepsClean(m: Records, es: seq<Event>, cfg: Settings, from: nat)
    requires RunOk(es, from) && CleanRegistry(m, cfg)
    requires forall i, c :: 0 <= i < |es| && c in RegistryProofs.Listed(es[i]) ==> CleanSummary(c)
    ensures CleanRegistry(Run(m, es, cfg), cfg) && CleanTargets(TargetsOf(Run(m, es, cfg), cfg))
  {
    hide CleanSummary, CleanTargets, TargetsOf;
    if es != [] {
      var n := |es| - 1;
      RunOkFront(es, from);
      RunKeepsClean(m, es[..n], cfg, from);
      if !es[n].Cleanup? { RefreshClean(Run(m, es[..n], cfg), es[n].list, cfg, es[n].at); }
    }
    CleanView(Run(m, es, cfg), cfg);
  }
}
