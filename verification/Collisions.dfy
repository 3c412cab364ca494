/** Registries with different targets whose hashed bytes are the same. */
module Collisions {
  import opened Text
  import opened Labels
  import opened Fingerprint
  import opened Registry
  import opened RegistryProofs
  import opened Config
  import opened Views
  import opened HostsKeeps

  /* ---------- a NUL in a domain ---------- */

  lemma TargetsFrom(m: Records, cfg: Settings, ids: seq<string>)
    requires Lists(ids, m.Keys)
    ensures TargetsOf(m, cfg) == SortEach(Group(PairsOf(m, ids, cfg)))
  {
    PairsOrderFree(m, ids, SomeListing(m.Keys), m.Keys, cfg);
    GroupOrderFree(PairsOf(m, ids, cfg), PairsOf(m, SomeListing(m.Keys), cfg));
  }

  const STANDALONE: Settings := Config("dev.local", true, 0, "")

  /** A running container labelled with `ds`. */
  function Labelled(ds: seq<CustomDomain>): Summary {
    Summary("c", ["/c"], "image", map[DOMAINS_LABEL := PrintLabel(ds)], RUNNING, [], {}, "", None, "", 0)
  }

  /** The registry after the first refresh finds that container alone. */
  function Alone(ds: seq<CustomDomain>): Records {
    Refreshed(map[], [Labelled(ds)], STANDALONE, 1)
  }

  lemma AloneTargets(ds: seq<CustomDomain>, info: Info)
    requires (forall d :: d in ds ==> Printable(d)) && ds != []
    requires info == RecordFor(map[], Labelled(ds), DiscoverSelf([Labelled(ds)], ""), STANDALONE, 1)
    ensures TargetsOf(Alone(ds), STANDALONE) == SortEach(Group(CustomPairs(info, ds, STANDALONE)))
    ensures info.kind == Gateway && info.published == map[]
  {
    hide PrintLabel, ParseLabel;
    var c := Labelled(ds);
    var self := DiscoverSelf([c], "");
    ParsePrint(ds);
    NotSkipped(c);
    RefreshExactly(map[], [c], STANDALONE, 1);
    assert c in [c] && Eligible(c, self, STANDALONE);
    assert Seen([c], self, STANDALONE) == {"c"};
    assert Alone(ds) == map["c" := info];
    TargetsFrom(Alone(ds), STANDALONE, ["c"]);
    assert ["c"][..0] == [];
    assert [] + Contribution(info, STANDALONE) == Contribution(info, STANDALONE);
  }

  lemma NotSkipped(c: Summary)
    requires SKIP_LABEL !in c.labels
    ensures !ShouldSkip(c)
  {
  }

  function FirstTwice(): seq<CustomDomain> {
    [CustomDomain(1, "a"), CustomDomain(1, "a")]
  }

  function WithNul(): seq<CustomDomain> {
    [CustomDomain(1, "a" + [NUL] + LocalAddress())]
  }

  function LocalAddress(): string {
    "localhost:1"
  }

  lemma OneDomain(d: string, ts: seq<string>)
    ensures var m: Targets := map[d := ts]; DomainBytes(m) == d + [NUL] + EncodeAddresses(Sort(ts))
  {
    var m: Targets := map[d := ts];
    var es: seq<Listed> := [(d, Sort(ts))];
    AscendingUnique([d], m.Keys);
    assert [d][1..] == [] && Sort([d]) == [d];
    assert Entries(m) == es;
    assert es[1..] == [] && Encode(es[1..]) == [];
  }

  lemma GroupOnce(d: string, t: string)
    ensures Group([(d, t)]) == map[d := [t]] && SortEach(map[d := [t]]) == map[d := [t]]
  {
    var one: seq<Pair> := [(d, t)];
    assert one[..0] == [] && Group([]) == map[];
    assert Group(one) == AddTarget(Group(one[..0]), one[0]);
    var none: Targets := map[];
    assert [] + [t] == [t];
    assert none[d := [t]] == map[d := [t]];
    assert [t][1..] == [] && Sort([t]) == [t];
  }

  lemma GroupTwice(d: string, t: string)
    ensures Group([(d, t), (d, t)]) == map[d := [t, t]] && SortEach(map[d := [t, t]]) == map[d := [t, t]]
  {
    var two: seq<Pair> := [(d, t), (d, t)];
    GroupOnce(d, t);
    assert two[..|two| - 1] == [(d, t)];
    SortTwo(t);
  }

  lemma SortTwo(t: string)
    ensures Sort([t, t]) == [t, t]
  {
    LeqRefl(t);
    assert [t][1..] == [] && [t, t][1..] == [t];
    assert Sort([t]) == [t] && Insert(t, [t]) == [t, t];
  }

  lemma TwiceTargets()
    ensures TargetsOf(Alone(FirstTwice()), STANDALONE) == map["a" := [LocalAddress(), LocalAddress()]]
  {
    hide Alone, TargetsOf, Sort, SortEach, Group, LocalAddress, Merged, BuildInfo;
    var t, ds := LocalAddress(), FirstTwice();
    TrimNothing("a");
    var info := RecordFor(map[], Labelled(ds), DiscoverSelf([Labelled(ds)], ""), STANDALONE, 1);
    AloneTargets(ds, info);
    LocalAddressIs(info);
    assert ds[1..] == [CustomDomain(1, "a")] && ds[1..][1..] == [];
    assert CustomPairs(info, ds[1..], STANDALONE) == [("a", t)];
    assert CustomPairs(info, ds, STANDALONE) == [("a", t), ("a", t)];
    GroupTwice("a", t);
  }

  lemma LocalAddressIs(info: Info)
    requires info.published == map[]
    ensures Address(HostFor(info, STANDALONE), EffectivePort(info, 1)) == LocalAddress()
  {
    assert Decimal(1) == "1";
  }

  lemma NulDomainPrintable()
    ensures Printable(WithNul()[0])
  {
    TrimNothing("a" + [NUL] + LocalAddress());
  }

  lemma NulTargets()
    ensures TargetsOf(Alone(WithNul()), STANDALONE) == map["a" + [NUL] + LocalAddress() := [LocalAddress()]]
  {
    hide Alone, TargetsOf, Sort, SortEach, Group, LocalAddress, Merged, BuildInfo, Printable;
    var t, ds := LocalAddress(), WithNul();
    NulDomainPrintable();
    var info := RecordFor(map[], Labelled(ds), DiscoverSelf([Labelled(ds)], ""), STANDALONE, 1);
    AloneTargets(ds, info);
    LocalAddressIs(info);
    assert ds[1..] == [];
    assert CustomPairs(info, ds, STANDALONE) == [("a" + [NUL] + t, t)];
    GroupOnce("a" + [NUL] + t, t);
  }

  /** One container whose label gives `a` twice, and one whose label gives a single domain that holds
      a NUL: the first refreshes yield different targets with the same bytes. */
  lemma NulCollision()
    ensures var a, b := TargetsOf(Alone(FirstTwice()), STANDALONE), TargetsOf(Alone(WithNul()), STANDALONE);
      DomainBytes(a) == DomainBytes(b) && !SameTargets(a, b)
  {
    hide Alone, TargetsOf, LocalAddress, DomainBytes;
    var t := LocalAddress();
    var a, b := TargetsOf(Alone(FirstTwice()), STANDALONE), TargetsOf(Alone(WithNul()), STANDALONE);
    TwiceTargets();
    NulTargets();
    OneDomain("a", [t, t]);
    OneDomain("a" + [NUL] + t, [t]);
    SortTwo(t);
    assert [t][1..] == [] && [t, t][1..] == [t] && Sort([t]) == [t];
    assert EncodeAddresses([t, t]) == t + [NUL] + EncodeAddresses([t]);
    assert "a" + [NUL] + (t + [NUL] + EncodeAddresses([t])) == "a" + [NUL] + t + [NUL] + EncodeAddresses([t]);
    assert ("a" + [NUL] + t)[1] == NUL;
    assert "a" in a && "a" !in b;
  }

  /* ---------- a newline at the start of a host ---------- */

  /** A running container on a network of the proxy, called `name`, with `domain` for its port 1. */
  function Named(id: string, name: string, domain: string): Info {
    Info(id, name, "image", "", "", "", [1], map[], 0, Dns, "gw", false, true, 0, 0, map[],
         [CustomDomain(1, domain)], "", {})
  }

  const NETWORKED: Settings := Config("dev.local", false, 0, "")

  lemma NamedGives(id: string, name: string, domain: string)
    ensures Contribution(Named(id, name, domain), NETWORKED) == [(domain, name + ":1")]
  {
    var info := Named(id, name, domain);
    assert Decimal(1) == "1";
    assert Address(HostFor(info, NETWORKED), EffectivePort(info, 1)) == name + ":" + "1" == name + ":1";
    var cds := info.custom;
    assert cds == [CustomDomain(1, domain)] && cds[1..] == [];
    assert CustomPairs(info, cds[1..], NETWORKED) == [];
    assert CustomPairs(info, cds, NETWORKED) == [(domain, name + ":1")];
  }

  function OnTwo(i: Info, j: Info): Records {
    map["1" := i, "2" := j]
  }

  function OnThree(i: Info, j: Info, k: Info): Records {
    map["1" := i, "2" := j, "3" := k]
  }

  lemma PairsOn(m: Records, ids: seq<string>, id: string, pairs: seq<Pair>, p: Pair)
    requires (forall x :: x in ids ==> x in m) && id in m
    requires PairsOf(m, ids, NETWORKED) == pairs && Contribution(m[id], NETWORKED) == [p]
    ensures PairsOf(m, ids + [id], NETWORKED) == pairs + [p]
  {
    assert (ids + [id])[..|ids|] == ids;
  }

  lemma PairsOfTwo(i: Info, j: Info, p: Pair, q: Pair)
    requires Contribution(i, NETWORKED) == [p] && Contribution(j, NETWORKED) == [q]
    ensures PairsOf(OnTwo(i, j), ["1", "2"], NETWORKED) == [p, q]
  {
    hide Contribution;
    var m := OnTwo(i, j);
    PairsOn(m, [], "1", [], p);
    assert [] + ["1"] == ["1"] && [] + [p] == [p];
    PairsOn(m, ["1"], "2", [p], q);
    assert ["1"] + ["2"] == ["1", "2"] && [p] + [q] == [p, q];
  }

  lemma PairsOfThree(i: Info, j: Info, k: Info, p: Pair, q: Pair, r: Pair)
    requires Contribution(i, NETWORKED) == [p] && Contribution(j, NETWORKED) == [q] && Contribution(k, NETWORKED) == [r]
    ensures PairsOf(OnThree(i, j, k), ["1", "2", "3"], NETWORKED) == [p, q, r]
  {
    hide Contribution;
    var m := OnThree(i, j, k);
    PairsOn(m, [], "1", [], p);
    assert [] + ["1"] == ["1"] && [] + [p] == [p];
    PairsOn(m, ["1"], "2", [p], q);
    assert ["1"] + ["2"] == ["1", "2"] && [p] + [q] == [p, q];
    PairsOn(m, ["1", "2"], "3", [p, q], r);
    assert ["1", "2"] + ["3"] == ["1", "2", "3"] && [p, q] + [r] == [p, q, r];
  }

  lemma SortSorted(ts: seq<string>)
    requires Sorted(ts)
    ensures Sort(ts) == ts
  {
    SortSorts(ts);
    SortedUnique(Sort(ts), ts);
  }

  lemma GroupApart(d: string, t: string, e: string, u: string)
    requires d != e
    ensures SortEach(Group([(d, t), (e, u)])) == map[d := [t], e := [u]]
  {
    GroupOnce(d, t);
    GroupOn([(d, t)], (e, u));
    assert [(d, t)] + [(e, u)] == [(d, t), (e, u)] && [] + [u] == [u];
    SortSorted([t]);
    SortSorted([u]);
  }

  lemma GroupTogether(d: string, t: string, u: string, v: string)
    requires Sorted([t, u, v])
    ensures SortEach(Group([(d, t), (d, u), (d, v)])) == map[d := [t, u, v]]
  {
    GroupOnce(d, t);
    GroupOn([(d, t)], (d, u));
    assert [(d, t)] + [(d, u)] == [(d, t), (d, u)] && [t] + [u] == [t, u];
    GroupOn([(d, t), (d, u)], (d, v));
    assert [(d, t), (d, u)] + [(d, v)] == [(d, t), (d, u), (d, v)] && [t, u] + [v] == [t, u, v];
    SortSorted([t, u, v]);
  }

  function Three(): Records {
    OnThree(Named("1", "\t", "a"), Named("2", "\nb", "a"), Named("3", "x", "a"))
  }

  function Two(): Records {
    OnTwo(Named("1", "\t", "a"), Named("2", "x", "b:1"))
  }

  lemma ThreeTargets(t: string, u: string, v: string)
    requires t == "\t" + ":1" && u == "\nb" + ":1" && v == "x" + ":1"
    ensures Sorted([t, u, v]) && TargetsOf(Three(), NETWORKED) == map["a" := [t, u, v]]
  {
    hide Contribution, Named, Group, PairsOf, TargetsOf, SortEach;
    var i, j, k := Named("1", "\t", "a"), Named("2", "\nb", "a"), Named("3", "x", "a");
    NamedGives("1", "\t", "a");
    NamedGives("2", "\nb", "a");
    NamedGives("3", "x", "a");
    PairsOfThree(i, j, k, ("a", t), ("a", u), ("a", v));
    TargetsFrom(Three(), NETWORKED, ["1", "2", "3"]);
    GroupTogether("a", t, u, v);
  }

  lemma TwoTargets(t: string, v: string)
    requires t == "\t" + ":1" && v == "x" + ":1"
    ensures TargetsOf(Two(), NETWORKED) == map["a" := [t], "b:1" := [v]]
  {
    hide Contribution, Named, Group, PairsOf, TargetsOf, SortEach;
    NamedGives("1", "\t", "a");
    NamedGives("2", "x", "b:1");
    PairsOfTwo(Named("1", "\t", "a"), Named("2", "x", "b:1"), ("a", t), ("b:1", v));
    TargetsFrom(Two(), NETWORKED, ["1", "2"]);
    GroupApart("a", t, "b:1", v);
  }

  lemma TwoDomains(d: string, t: string, e: string, u: string)
    requires d != e && Sorted([d, e])
    ensures DomainBytes(map[d := [t], e := [u]]) == EncodeOne(d, t) + EncodeOne(e, u)
  {
    var m: Targets := map[d := [t], e := [u]];
    var es: seq<Listed> := [(d, [t]), (e, [u])];
    AscendingUnique([d, e], m.Keys);
    SortSorted([d, e]);
    SortSorted([t]);
    SortSorted([u]);
    assert Entries(m) == es;
    assert es[1..] == [(e, [u])] && es[1..][1..] == [] && Encode(es[1..][1..]) == [];
    EncodesOne(t);
    EncodesOne(u);
    assert Encode(es[1..]) == e + [NUL] + EncodeAddresses([u]) + [] == EncodeOne(e, u);
    assert d + [NUL] + EncodeAddresses([t]) == EncodeOne(d, t);
  }

  lemma EncodesOne(t: string)
    ensures EncodeAddresses([t]) == t + [NUL] + [NEWLINE]
  {
    assert [t][1..] == [];
  }

  function EncodeOne(d: string, t: string): string {
    d + [NUL] + (t + [NUL] + [NEWLINE])
  }

  /** Three containers on one domain, the second with a name that begins with a newline, and two containers
      on a domain each: different targets with the same bytes. Docker refuses such names. */
  lemma NewlineCollision()
    ensures var a, b := TargetsOf(Three(), NETWORKED), TargetsOf(Two(), NETWORKED);
      DomainBytes(a) == DomainBytes(b) && !SameTargets(a, b)
  {
    hide TargetsOf, Three, Two, DomainBytes;
    var t, u, v := "\t" + ":1", "\nb" + ":1", "x" + ":1";
    ThreeTargets(t, u, v);
    TwoTargets(t, v);
    OneDomain("a", [t, u, v]);
    SortSorted([t, u, v]);
    EncodeThree(t, u, v);
    assert Sorted(["a", "b:1"]);
    TwoDomains("a", t, "b:1", v);
    assert u == [NEWLINE] + "b:1";
    assert "a" + [NUL] + (t + [NUL] + (u + [NUL] + (v + [NUL] + [NEWLINE]))) == EncodeOne("a", t) + EncodeOne("b:1", v);
    var a, b := TargetsOf(Three(), NETWORKED), TargetsOf(Two(), NETWORKED);
    assert "b:1" in b && "b:1" !in a;
  }

  lemma EncodeThree(t: string, u: string, v: string)
    ensures EncodeAddresses([t, u, v]) == t + [NUL] + (u + [NUL] + (v + [NUL] + [NEWLINE]))
  {
    assert [v][1..] == [] && [u, v][1..] == [v] && [t, u, v][1..] == [u, v];
    assert EncodeAddresses([v]) == v + [NUL] + [NEWLINE];
    assert EncodeAddresses([u, v]) == u + [NUL] + EncodeAddresses([v]);
  }
}
