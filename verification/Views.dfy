/** The two derived views of the registry: where each domain is proxied to, and which domains there are. */
module Views {
  import opened Text
  import opened Lines
  import opened Labels
  import opened Registry
  import opened Config
  import opened Hosts
  import opened HostsProofs
  import opened HostsTheorems
  import opened HostsKeeps
  import opened HostsPositions

  type Settings = Registry.Config

  /* ---------- what one container contributes ---------- */

  function DomainFor(info: Info, cfg: Settings): string {
    if info.isCompose then info.project + "." + info.service + "." + cfg.tld else info.name + "." + cfg.tld
  }

  function LocalhostDomainFor(info: Info): string {
    if info.isCompose then info.project + "." + info.service + LOCALHOST_SUFFIX else info.name + LOCALHOST_SUFFIX
  }

  function Address(host: string, port: Port): string {
    host + ":" + Decimal(port)
  }

  /** A domain and one address it is proxied to. */
  type Pair = (string, string)

  function CustomPairs(info: Info, cds: seq<CustomDomain>, cfg: Settings): seq<Pair> {
    if cds == [] then []
    else
      var target := Address(HostFor(info, cfg), EffectivePort(info, cds[0].port));
      [(cds[0].domain, target)] + CustomPairs(info, cds[1..], cfg)
  }

  function Contribution(info: Info, cfg: Settings): seq<Pair> {
    if !info.running then []
    else if info.custom != [] then CustomPairs(info, info.custom, cfg)
    else if info.selected == 0 then []
    else
      var target := Address(HostFor(info, cfg), info.selected);
      [(DomainFor(info, cfg), target), (LocalhostDomainFor(info), target)]
  }

  predicate HasReachablePort(info: Info) {
    if info.selected > 0 || info.custom != [] then true
    else match info.kind
      case Dns => info.ports != []
      case Gateway => info.published != map[]
      case Unreachable => false
  }

  function CustomNames(cds: seq<CustomDomain>): seq<string> {
    if cds == [] then [] else [cds[0].domain] + CustomNames(cds[1..])
  }

  function NamesOf(info: Info, cfg: Settings): seq<string> {
    if !info.running then []
    else if info.custom != [] then CustomNames(info.custom)
    else if HasReachablePort(info) then [DomainFor(info, cfg), LocalhostDomainFor(info)]
    else []
  }

  /* ---------- grouping pairs by domain ---------- */

  function AddTarget(m: Targets, p: Pair): Targets {
    m[p.0 := (if p.0 in m then m[p.0] else []) + [p.1]]
  }

  function Group(pairs: seq<Pair>): Targets {
    if pairs == [] then map[] else AddTarget(Group(pairs[..|pairs| - 1]), pairs[|pairs| - 1])
  }

  function SortEach(m: Targets): Targets {
    map d | d in m :: Sort(m[d])
  }

  /** How often `t` was added for `d`. */
  function Times(m: Targets, d: string, t: string): nat {
    if d in m then multiset(m[d])[t] else 0
  }

  /** Grouping loses and invents nothing: each address is listed for a domain as often as it was contributed. */
  lemma {:induction false} GroupCounts(pairs: seq<Pair>, d: string, t: string)
    ensures Times(Group(pairs), d, t) == multiset(pairs)[(d, t)]
    ensures d in Group(pairs) ==> Group(pairs)[d] != []
  {
    if pairs != [] {
      var n := |pairs| - 1;
      GroupCounts(pairs[..n], d, t);
      assert pairs == pairs[..n] + [pairs[n]];
    }
  }

  lemma {:induction false} GroupKeys(pairs: seq<Pair>, d: string)
    ensures d in Group(pairs) <==> exists t :: (d, t) in pairs
  {
    if pairs != [] {
      var n := |pairs| - 1;
      GroupKeys(pairs[..n], d);
      assert pairs == pairs[..n] + [pairs[n]];
      assert pairs[n] == (pairs[n].0, pairs[n].1);
    }
  }

  lemma GroupOrderFree(a: seq<Pair>, b: seq<Pair>)
    requires multiset(a) == multiset(b)
    ensures SortEach(Group(a)) == SortEach(Group(b))
  {
    var ga, gb := Group(a), Group(b);
    forall d ensures d in ga <==> d in gb {
      GroupKeys(a, d);
      GroupKeys(b, d);
      assert forall p :: p in a <==> p in multiset(a);
      assert forall p :: p in b <==> p in multiset(b);
    }
    forall d | d in ga ensures Sort(ga[d]) == Sort(gb[d]) {
      forall t ensures multiset(ga[d])[t] == multiset(gb[d])[t] {
        GroupCounts(a, d, t);
        GroupCounts(b, d, t);
      }
      assert multiset(ga[d]) == multiset(gb[d]);
      SortDetermined(ga[d], gb[d]);
    }
  }

  /* ---------- all containers, in any order ---------- */

  function PairsOf(m: Records, ids: seq<string>, cfg: Settings): seq<Pair>
    requires forall id :: id in ids ==> id in m
  {
    if ids == [] then []
    else PairsOf(m, ids[..|ids| - 1], cfg) + Contribution(m[ids[|ids| - 1]], cfg)
  }

  lemma PairsLast(m: Records, front: seq<string>, id: string, cfg: Settings)
    requires (forall x :: x in front ==> x in m) && id in m
    ensures multiset(PairsOf(m, front + [id], cfg))
         == multiset(PairsOf(m, front, cfg)) + multiset(Contribution(m[id], cfg))
  {
    hide Contribution;
    assert (front + [id])[..|front|] == front;
  }

  lemma WithoutOne<T>(s: seq<T>, i: nat)
    requires i < |s| - 1
    ensures var n := |s| - 1; s[..i] + s[i + 1..] == s[..n][..i] + s[..n][i + 1..] + [s[n]]
  {
  }

  lemma {:induction false} PairsSplit(m: Records, ids: seq<string>, i: nat, cfg: Settings)
    requires (forall id :: id in ids ==> id in m) && i < |ids|
    ensures multiset(PairsOf(m, ids, cfg))
         == multiset(PairsOf(m, ids[..i] + ids[i + 1..], cfg)) + multiset(Contribution(m[ids[i]], cfg))
  {
    hide Contribution, PairsOf;
    var n := |ids| - 1;
    var front := ids[..n];
    assert ids == front + [ids[n]];
    PairsLast(m, front, ids[n], cfg);
    if i == n {
      assert ids[..i] + ids[i + 1..] == front;
    } else {
      PairsSplit(m, front, i, cfg);
      WithoutOne(ids, i);
      PairsLast(m, front[..i] + front[i + 1..], ids[n], cfg);
    }
  }

  lemma SameLength(a: seq<string>, b: seq<string>, s: set<string>)
    requires Lists(a, s) && Lists(b, s)
    ensures |a| == |b| && (a == [] <==> b == []) && forall x :: x in a || x in b ==> x in s
  {
    ListsMultiset(a, s);
    ListsMultiset(b, s);
  }

  lemma SameElement(a: seq<string>, b: seq<string>, s: set<string>) returns (i: nat)
    requires Lists(a, s) && Lists(b, s) && a != []
    ensures i < |b| && b[i] == a[0]
  {
    assert a[0] in b;
    i :| i < |b| && b[i] == a[0];
  }

  lemma {:induction false} PairsOrderFree(m: Records, a: seq<string>, b: seq<string>, s: set<string>, cfg: Settings)
    requires Lists(a, s) && Lists(b, s) && s <= m.Keys
    ensures multiset(PairsOf(m, a, cfg)) == multiset(PairsOf(m, b, cfg))
    decreases |a|
  {
    hide PairsOf, Lists;
    SameLength(a, b, s);
    if a != [] {
      var i := SameElement(a, b, s);
      PairsSplit(m, a, 0, cfg);
      PairsSplit(m, b, i, cfg);
      ListsWithout(b, i, s);
      ListsWithout(a, 0, s);
      PairsOrderFree(m, a[..0] + a[1..], b[..i] + b[i + 1..], s - {a[0]}, cfg);
    }
  }

  lemma ListsWithout(a: seq<string>, i: nat, s: set<string>)
    requires Lists(a, s) && i < |a|
    ensures Lists(a[..i] + a[i + 1..], s - {a[i]})
  {
    var r := a[..i] + a[i + 1..];
    forall x ensures x in r <==> x in s - {a[i]} {
      if x in r {
        var j :| 0 <= j < |r| && r[j] == x;
        assert x == a[if j < i then j else j + 1];
      }
      if x in s - {a[i]} {
        var j :| 0 <= j < |a| && a[j] == x;
        assert r[if j < i then j else j - 1] == x;
      }
    }
  }

  /** Each domain with its addresses, sorted. */
  ghost function TargetsOf(m: Records, cfg: Settings): Targets {
    SortEach(Group(PairsOf(m, SomeListing(m.Keys), cfg)))
  }

  /** The view maps a domain to the sorted addresses contributed for it by all running containers,
      each as often as it is contributed, in whatever order the containers are met. */
  lemma TargetsExactly(m: Records, cfg: Settings, ids: seq<string>, d: string)
    requires Lists(ids, m.Keys)
    ensures var all := PairsOf(m, ids, cfg); var r := TargetsOf(m, cfg);
      && (d in r <==> exists t :: (d, t) in all)
      && (d in r ==> Sorted(r[d]) && r[d] != [])
      && (forall t :: Times(r, d, t) == multiset(all)[(d, t)])
  {
    var all, some := PairsOf(m, ids, cfg), PairsOf(m, SomeListing(m.Keys), cfg);
    PairsOrderFree(m, ids, SomeListing(m.Keys), m.Keys, cfg);
    assert forall p :: p in all <==> p in multiset(all);
    assert forall p :: p in some <==> p in multiset(some);
    GroupKeys(some, d);
    GroupCounts(some, d, "");
    var g := Group(some);
    if d in g { SortSorts(g[d]); }
    forall t ensures Times(TargetsOf(m, cfg), d, t) == multiset(all)[(d, t)] {
      GroupCounts(some, d, t);
    }
  }

  /** All pairs of a view, domain by domain. */
  function Flat(m: Targets, ds: seq<string>): seq<Pair>
    requires forall d :: d in ds ==> d in m
  {
    if ds == [] then [] else seq(|m[ds[0]]|, i requires 0 <= i < |m[ds[0]]| => (ds[0], m[ds[0]][i])) + Flat(m, ds[1..])
  }

  lemma {:induction false} PairedCount(d: string, ts: seq<string>, p: Pair)
    ensures multiset(seq(|ts|, i requires 0 <= i < |ts| => (d, ts[i])))[p] == if p.0 == d then multiset(ts)[p.1] else 0
  {
    var ps := seq(|ts|, i requires 0 <= i < |ts| => (d, ts[i]));
    if ts != [] {
      var n := |ts| - 1;
      PairedCount(d, ts[..n], p);
      assert ps == seq(n, i requires 0 <= i < n => (d, ts[..n][i])) + [(d, ts[n])];
      assert ts == ts[..n] + [ts[n]];
    }
  }

  lemma {:induction false} FlatCount(m: Targets, ds: seq<string>, p: Pair)
    requires NoDup(ds) && forall d :: d in ds ==> d in m
    ensures multiset(Flat(m, ds))[p] == if p.0 in ds then Times(m, p.0, p.1) else 0
  {
    if ds != [] {
      FlatCount(m, ds[1..], p);
      PairedCount(ds[0], m[ds[0]], p);
      assert ds == [ds[0]] + ds[1..];
    }
  }

  /** Taken together, the view lists exactly the contributions, and so as many addresses as there are. */
  lemma TargetsConserve(m: Records, cfg: Settings, ids: seq<string>, ds: seq<string>)
    requires Lists(ids, m.Keys) && Lists(ds, TargetsOf(m, cfg).Keys)
    ensures var all := PairsOf(m, ids, cfg); var flat := Flat(TargetsOf(m, cfg), ds);
      multiset(flat) == multiset(all) && |flat| == |all|
  {
    hide TargetsOf, PairsOf;
    var r, all := TargetsOf(m, cfg), PairsOf(m, ids, cfg);
    var flat := Flat(r, ds);
    forall p: Pair ensures multiset(flat)[p] == multiset(all)[p] {
      FlatCount(r, ds, p);
      TargetsExactly(m, cfg, ids, p.0);
      assert (p.0, p.1) == p;
    }
    assert multiset(flat) == multiset(all);
    assert |multiset(flat)| == |multiset(all)|;
  }

  method DomainTargets(g: Generator) returns (merged: Targets)
    ensures merged == TargetsOf(g.containers, g.cfg)
  {
    merged := map[];
    var m := g.containers;
    ghost var order, pairs := [], [];
    var todo := m.Keys;
    while todo != {}
      invariant todo <= m.Keys && Lists(order, m.Keys - todo)
      invariant pairs == PairsOf(m, order, g.cfg) && merged == Group(pairs)
      decreases todo
    {
      var id :| id in todo;
      todo := todo - {id};
      var info := m[id];
      ghost var added := Contribution(info, g.cfg);
      assert (order + [id])[..|order|] == order;
      merged := AddContribution(info, g.cfg, merged, pairs);
      pairs := pairs + added;
      order := order + [id];
    }
    assert m.Keys - todo == m.Keys;
    PairsOrderFree(m, order, SomeListing(m.Keys), m.Keys, g.cfg);
    GroupOrderFree(pairs, PairsOf(m, SomeListing(m.Keys), g.cfg));
    merged := map d | d in merged :: Sort(merged[d]);
  }

  lemma GroupOn(pairs: seq<Pair>, p: Pair)
    ensures Group(pairs + [p]) == AddTarget(Group(pairs), p)
  {
    assert (pairs + [p])[..|pairs|] == pairs;
  }

  lemma CustomOn(info: Info, i: nat, done: seq<Pair>, cfg: Settings)
    requires i < |info.custom|
    ensures var cd := info.custom[i]; var p := (cd.domain, Address(HostFor(info, cfg), EffectivePort(info, cd.port)));
      done + CustomPairs(info, info.custom[i..], cfg) == (done + [p]) + CustomPairs(info, info.custom[i + 1..], cfg)
  {
    hide Address, HostFor, EffectivePort;
    SuffixHead(info.custom, i);
  }

  lemma CustomEnds(info: Info, done: seq<Pair>, cfg: Settings)
    ensures done + CustomPairs(info, info.custom[|info.custom|..], cfg) == done
    ensures info.custom[0..] == info.custom
  {
  }

  method AddContribution(info: Info, cfg: Settings, before: Targets, ghost pairs: seq<Pair>) returns (merged: Targets)
    requires before == Group(pairs)
    ensures merged == Group(pairs + Contribution(info, cfg))
  {
    hide Group, AddTarget, CustomPairs, Address, HostFor, EffectivePort, DomainFor, LocalhostDomainFor;
    merged := before;
    NothingAdded(pairs);
    if !info.running { return; }
    if |info.custom| > 0 {
      ghost var done := pairs;
      ghost var all := pairs + CustomPairs(info, info.custom, cfg);
      CustomEnds(info, done, cfg);
      for i := 0 to |info.custom|
        invariant done + CustomPairs(info, info.custom[i..], cfg) == all && merged == Group(done)
      {
        var cd := info.custom[i];
        var p := (cd.domain, Address(HostFor(info, cfg), EffectivePort(info, cd.port)));
        merged := AddTarget(merged, p);
        GroupOn(done, p);
        CustomOn(info, i, done, cfg);
        done := done + [p];
      }
      CustomEnds(info, done, cfg);
      return;
    }
    if info.selected == 0 { return; }
    var target := Address(HostFor(info, cfg), info.selected);
    var p, q := (DomainFor(info, cfg), target), (LocalhostDomainFor(info), target);
    merged := AddTarget(merged, p);
    merged := AddTarget(merged, q);
    GroupOn(pairs, p);
    GroupOn(pairs + [p], q);
    assert pairs + [p] + [q] == pairs + [p, q];
  }

  /* ---------- the list of domains ---------- */

  ghost function DomainSet(m: Records, cfg: Settings): set<string> {
    set id, x | id in m && x in NamesOf(m[id], cfg) :: x
  }

  function SetOf(names: seq<string>): set<string> {
    set x | x in names
  }

  /** Adds the names not found before, keeping track by what was seen. */
  method AddNames(found: seq<string>, names: seq<string>, ghost before: set<string>) returns (r: seq<string>)
    requires Lists(found, before)
    ensures Lists(r, before + SetOf(names))
  {
    r := found;
    for i := 0 to |names|
      invariant Lists(r, before + SetOf(names[..i]))
    {
      assert names[..i + 1] == names[..i] + [names[i]];
      assert SetOf(names[..i + 1]) == SetOf(names[..i]) + {names[i]};
      if names[i] !in r { r := r + [names[i]]; }
    }
    assert names[..|names|] == names;
  }

  method Domains(g: Generator) returns (domains: seq<string>)
    ensures domains == Ascending(DomainSet(g.containers, g.cfg))
  {
    var m := g.containers;
    var found := [];
    var todo := m.Keys;
    ghost var done: set<string> := {};
    while todo != {}
      invariant todo <= m.Keys && Lists(found, done)
      invariant done == set id, x | id in m && id !in todo && x in NamesOf(m[id], g.cfg) :: x
      decreases todo
    {
      hide NamesOf, Lists;
      var id :| id in todo;
      todo := todo - {id};
      var names := NamesOf(m[id], g.cfg);
      found := AddNames(found, names, done);
      done := done + SetOf(names);
    }
    assert done == DomainSet(m, g.cfg);
    AscendingUnique(found, done);
    domains := Sort(found);
  }

  /* ---------- how the two views fit together ---------- */

  /** The names of running containers that can be reached but have no port to proxy to yet. */
  ghost function UnprobedNames(m: Records, cfg: Settings): set<string> {
    set id, x | id in m && m[id].running && m[id].custom == [] && m[id].selected == 0 && x in NamesOf(m[id], cfg) :: x
  }

  lemma {:induction false} CustomFirst(info: Info, cds: seq<CustomDomain>, cfg: Settings, d: string)
    ensures d in CustomNames(cds) <==> exists t :: (d, t) in CustomPairs(info, cds, cfg)
  {
    if cds != [] {
      CustomFirst(info, cds[1..], cfg, d);
      var p := CustomPairs(info, cds, cfg);
      assert p == [p[0]] + CustomPairs(info, cds[1..], cfg);
      assert p[0] == (p[0].0, p[0].1) && p[0] in p;
    }
  }

  lemma NamesVersusPairs(info: Info, cfg: Settings, d: string)
    ensures var unprobed := info.running && info.custom == [] && info.selected == 0;
      d in NamesOf(info, cfg) && !unprobed <==> exists t :: (d, t) in Contribution(info, cfg)
  {
    CustomFirst(info, info.custom, cfg, d);
    if info.running && info.custom == [] && info.selected != 0 {
      var t := Address(HostFor(info, cfg), info.selected);
      assert Contribution(info, cfg)[0] == (DomainFor(info, cfg), t);
      assert Contribution(info, cfg)[1] == (LocalhostDomainFor(info), t);
    }
  }

  lemma {:induction false} PairsMember(m: Records, ids: seq<string>, cfg: Settings, p: Pair)
    requires forall id :: id in ids ==> id in m
    ensures p in PairsOf(m, ids, cfg) <==> exists id :: id in ids && p in Contribution(m[id], cfg)
  {
    if ids != [] {
      var n := |ids| - 1;
      assert ids == ids[..n] + [ids[n]];
      PairsMember(m, ids[..n], cfg, p);
    }
  }

  /** The domains are those proxied somewhere and, besides, the names of the containers not probed successfully yet. */
  lemma DomainsAreTargetsAndUnprobed(m: Records, cfg: Settings)
    ensures DomainSet(m, cfg) == TargetsOf(m, cfg).Keys + UnprobedNames(m, cfg)
  {
    var ids := SomeListing(m.Keys);
    var all := PairsOf(m, ids, cfg);
    forall d ensures d in DomainSet(m, cfg) <==> d in TargetsOf(m, cfg) || d in UnprobedNames(m, cfg) {
      TargetsExactly(m, cfg, ids, d);
      if t :| (d, t) in all {
        PairsMember(m, ids, cfg, (d, t));
        var id :| id in ids && (d, t) in Contribution(m[id], cfg);
        NamesVersusPairs(m[id], cfg, d);
      }
      if d in DomainSet(m, cfg) {
        var id :| id in m && d in NamesOf(m[id], cfg);
        NamesVersusPairs(m[id], cfg, d);
        if t :| (d, t) in Contribution(m[id], cfg) {
          assert id in ids;
          PairsMember(m, ids, cfg, (d, t));
        }
      }
    }
  }

  /** After a sync of a file without markers, every host with a proxy route has its entry, once in the block, as long as
      no name holds a marker line; a host that holds a newline is listed, but on two lines. */
  lemma ProxiedHostsResolve(m: Records, cfg: Settings, content: string)
    requires Markerless(Split(content, NL)) && Unmarked(cfg.tld, Ascending(DomainSet(m, cfg)))
    ensures var domains := Ascending(DomainSet(m, cfg));
      var synced := SyncText(content, BlockText(BlockLines(cfg.tld, domains)));
      && ReadText(synced) == BlockText(BlockLines(cfg.tld, domains))
      && NoDup(BlockNames(cfg.tld, domains))
      && forall d :: d in TargetsOf(m, cfg) ==>
           d in BlockNames(cfg.tld, domains) && (NL !in d ==> EntryLine(d) in Split(synced, NL))
  {
    hide TargetsOf, BlockLines, BlockText, SyncText, ReadText, Unmarked, BlockNames, EntryLine, Split, Ascending;
    var domains := Ascending(DomainSet(m, cfg));
    AscendingLists(DomainSet(m, cfg));
    SyncThenRead(content, cfg.tld, domains);
    BlockNamesExactly(cfg.tld, domains);
    DomainsAreTargetsAndUnprobed(m, cfg);
  }
}
