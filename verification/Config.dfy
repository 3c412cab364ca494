/** From domain targets to the routes and the TLS policy they call for. */
module Config {
  import opened Text
  import opened AdminServer
  import opened AdminClient
  import opened Edits
  import opened PolicyProgress
  import opened ReconcileProofs

  /** Each domain with the addresses it is proxied to. */
  type Targets = map<string, seq<string>>

  function DotsToDashes(s: string): (r: string)
    ensures |r| == |s|
  {
    if s == [] then [] else [if s[0] == '.' then '-' else s[0]] + DotsToDashes(s[1..])
  }

  function RouteId(host: string): string {
    ROUTE_PREFIX + DotsToDashes(host)
  }

  function RouteFor(host: string, upstreams: seq<string>, tracing: bool): Obj {
    Obj(Some(RouteId(host)), Proxy(host, upstreams, tracing))
  }

  function PolicyFor(subjects: seq<string>): Obj {
    Obj(Some(TLS_ID), Tls(Sort(subjects)))
  }

  /** Routes for the hosts in turn; a later host with the same id takes the place of an earlier one. */
  function RoutesFor(hosts: seq<string>, targets: Targets, tracing: bool): ObjMap
    requires forall h :: h in hosts ==> h in targets
  {
    if hosts == [] then map[] else
    var n := |hosts| - 1;
    RoutesFor(hosts[..n], targets, tracing)[RouteId(hosts[n]) := RouteFor(hosts[n], Sort(targets[hosts[n]]), tracing)]
  }

  ghost function Build(targets: Targets, tracing: bool): Memory {
    AscendingLists(targets.Keys);
    var hosts := Ascending(targets.Keys);
    Memory(RoutesFor(hosts, targets, tracing),
           if hosts == [] then map[] else map[TLS_ID := PolicyFor(hosts)])
  }

  method BuildDevlocalConfig(targets: Targets, tracing: bool) returns (routes: ObjMap, policies: ObjMap)
    ensures Memory(routes, policies) == Build(targets, tracing)
  {
    hide Sort, Ascending, DotsToDashes;
    var domains := SortedKeys(targets);
    AscendingLists(targets.Keys);
    routes, policies := map[], map[];
    var subjects := [];
    for i := 0 to |domains|
      invariant subjects == domains[..i]
      invariant routes == RoutesFor(domains[..i], targets, tracing)
    {
      var host := domains[i];
      assert domains[..i + 1][..i] == domains[..i];
      routes := routes[RouteId(host) := RouteFor(host, Sort(targets[host]), tracing)];
      subjects := subjects + [host];
    }
    assert domains[..|domains|] == domains;
    if |subjects| > 0 {
      policies := policies[TLS_ID := PolicyFor(subjects)];
    }
  }

  /* ---------- which host gets the route ---------- */

  /** No host with the same id comes after `h`: it is the one whose route is kept. */
  ghost predicate Kept(h: string, s: set<string>) {
    h in s && forall g :: g in s && RouteId(g) == RouteId(h) ==> Leq(g, h)
  }

  ghost predicate NoClash(s: set<string>) {
    forall g, h :: g in s && h in s && RouteId(g) == RouteId(h) ==> g == h
  }

  lemma {:induction false} RoutesForLast(hosts: seq<string>, targets: Targets, tracing: bool, id: string)
    requires forall h :: h in hosts ==> h in targets
    requires Sorted(hosts)
    ensures var m := RoutesFor(hosts, targets, tracing);
      && (id in m <==> exists h :: h in hosts && RouteId(h) == id)
      && (id in m ==> m[id].body.Proxy? && var h := m[id].body.host;
            && h in hosts && RouteId(h) == id && m[id] == RouteFor(h, Sort(targets[h]), tracing)
            && forall g :: g in hosts && RouteId(g) == id ==> Leq(g, h))
  {
    if hosts != [] {
      var n := |hosts| - 1;
      var last := hosts[n];
      RoutesForLast(hosts[..n], targets, tracing, id);
      assert hosts == hosts[..n] + [last];
      forall g | g in hosts ensures Leq(g, last) {
        LeqRefl(g);
      }
    }
  }

  /** The route map holds, for each id in use, the route of the last host with that id. */
  lemma BuildRoutes(targets: Targets, tracing: bool, id: string)
    ensures var m := Build(targets, tracing).routes;
      && (id in m <==> exists h :: h in targets && RouteId(h) == id)
      && (id in m ==> m[id].body.Proxy? && var h := m[id].body.host;
            Kept(h, targets.Keys) && RouteId(h) == id && m[id] == RouteFor(h, Sort(targets[h]), tracing))
  {
    AscendingLists(targets.Keys);
    RoutesForLast(Ascending(targets.Keys), targets, tracing, id);
  }

  lemma BuildWellFormed(targets: Targets, tracing: bool)
    ensures WellFormed(Build(targets, tracing))
  {
    var m := Build(targets, tracing).routes;
    forall id | id in m ensures m[id].id == Some(id) && ROUTE_PREFIX <= id {
      BuildRoutes(targets, tracing, id);
    }
  }

  lemma KeptUnique(g: string, h: string, s: set<string>)
    requires Kept(g, s) && Kept(h, s) && RouteId(g) == RouteId(h)
    ensures g == h
  {
    LeqAntisym(g, h);
  }

  lemma BuildKeeps(targets: Targets, tracing: bool, h: string)
    requires Kept(h, targets.Keys)
    ensures var m := Build(targets, tracing).routes;
      RouteId(h) in m && m[RouteId(h)] == RouteFor(h, Sort(targets[h]), tracing)
  {
    BuildRoutes(targets, tracing, RouteId(h));
    KeptUnique(h, Build(targets, tracing).routes[RouteId(h)].body.host, targets.Keys);
  }

  /* ---------- what the server then serves ---------- */

  /** A route of ours whose matcher is exactly `h`. */
  predicate Matches(o: Obj, h: string) {
    Owned(o) && o.body.Proxy? && o.body.host == h
  }

  function MatchCount(r: seq<Obj>, h: string): nat {
    if r == [] then 0 else (if Matches(r[0], h) then 1 else 0) + MatchCount(r[1..], h)
  }

  lemma {:induction false} MatchByID(r: seq<Obj>, h: string, id: string, kept: bool)
    requires forall o :: o in r ==> (Matches(o, h) <==> kept && o.id == Some(id))
    ensures MatchCount(r, h) == if kept then IdCount(r, id) else 0
  {
    if r != [] {
      assert r[0] in r;
      MatchByID(r[1..], h, id, kept);
    }
  }

  lemma MatchesIff(r: seq<Obj>, targets: Targets, tracing: bool, h: string, o: Obj)
    requires Mirrors(r, Build(targets, tracing).routes) && o in r
    ensures Matches(o, h) <==> Kept(h, targets.Keys) && o.id == Some(RouteId(h))
    ensures Matches(o, h) ==> o == RouteFor(h, Sort(targets[h]), tracing)
  {
    if Owned(o) { BuildRoutes(targets, tracing, o.id.value); }
    if Kept(h, targets.Keys) && o.id == Some(RouteId(h)) { BuildKeeps(targets, tracing, h); }
  }

  /** On a server in step with the config of `targets`: a host has one route of ours, to exactly
      its sorted addresses, if it is the last with its id, and none otherwise. */
  lemma ServedExactly(srv: Server, targets: Targets, tracing: bool, h: string)
    requires InSync(srv, Build(targets, tracing))
    ensures MatchCount(srv.routes.value, h) == if Kept(h, targets.Keys) then 1 else 0
    ensures forall o :: o in srv.routes.value && Matches(o, h) ==>
      h in targets && o.body == Proxy(h, Sort(targets[h]), tracing)
  {
    var r := srv.routes.value;
    forall o | o in r
      ensures Matches(o, h) <==> Kept(h, targets.Keys) && o.id == Some(RouteId(h))
      ensures Matches(o, h) ==> o == RouteFor(h, Sort(targets[h]), tracing)
    {
      MatchesIff(r, targets, tracing, h, o);
    }
    MatchByID(r, h, RouteId(h), Kept(h, targets.Keys));
    if Kept(h, targets.Keys) {
      BuildKeeps(targets, tracing, h);
      assert OwnedId(RouteId(h));
    }
  }

  /* ---------- which hosts share an id ---------- */

  /** Of one length, and different at most where both have a dot or a dash. */
  predicate Alike(g: string, h: string) {
    |g| == |h| && forall i :: 0 <= i < |g| ==> g[i] == h[i] || (g[i] in {'.', '-'} && h[i] in {'.', '-'})
  }

  lemma {:induction false} DashesAgreeIff(g: string, h: string)
    ensures DotsToDashes(g) == DotsToDashes(h) <==> Alike(g, h)
  {
    if g != [] && h != [] {
      DashesAgreeIff(g[1..], h[1..]);
      var a, b := DotsToDashes(g), DotsToDashes(h);
      assert a == [a[0]] + DotsToDashes(g[1..]) && b == [b[0]] + DotsToDashes(h[1..]);
      assert a[1..] == DotsToDashes(g[1..]) && b[1..] == DotsToDashes(h[1..]);
      if Alike(g, h) {
        forall i | 0 <= i < |g| - 1
          ensures g[1..][i] == h[1..][i] || (g[1..][i] in {'.', '-'} && h[1..][i] in {'.', '-'})
        {
          assert g[1..][i] == g[i + 1] && h[1..][i] == h[i + 1];
        }
      } else if Alike(g[1..], h[1..]) && a[0] == b[0] {
        forall i | 0 <= i < |g| ensures g[i] == h[i] || (g[i] in {'.', '-'} && h[i] in {'.', '-'}) {
          if i > 0 { assert g[1..][i - 1] == g[i] && h[1..][i - 1] == h[i]; }
        }
      }
    }
  }

  lemma {:induction false} DotlessStays(h: string)
    requires '.' !in h
    ensures DotsToDashes(h) == h
  {
    if h != [] {
      DotlessStays(h[1..]);
      assert h == [h[0]] + h[1..];
    }
  }

  /** Two hosts share an id exactly when they are alike; a host without dots has itself as the end of its id. */
  lemma RouteIdsAgreeIff(g: string, h: string)
    ensures RouteId(g) == RouteId(h) <==> Alike(g, h)
    ensures '.' !in h ==> RouteId(h) == "devlocal-route-" + h
  {
    hide DotsToDashes, Alike;
    DashesAgreeIff(g, h);
    if '.' !in h { DotlessStays(h); }
    assert RouteId(g)[|ROUTE_PREFIX|..] == DotsToDashes(g) && RouteId(h)[|ROUTE_PREFIX|..] == DotsToDashes(h);
  }

  lemma NoClashIff(s: set<string>)
    ensures NoClash(s) <==> forall g, h :: g in s && h in s && Alike(g, h) ==> g == h
  {
    hide Alike, RouteId;
    forall g, h | g in s && h in s ensures RouteId(g) == RouteId(h) <==> Alike(g, h) { RouteIdsAgreeIff(g, h); }
  }

  /** Hosts without a dash never clash, so all of them are served. */
  lemma DashlessServed(srv: Server, targets: Targets, tracing: bool, h: string)
    requires InSync(srv, Build(targets, tracing)) && h in targets
    requires forall g :: g in targets ==> '-' !in g
    ensures NoClash(targets.Keys) && MatchCount(srv.routes.value, h) == 1
  {
    hide InSync, Build, NoClash, MatchCount;
    forall f, g | f in targets && g in targets && Alike(f, g) ensures f == g {
      forall i | 0 <= i < |f| ensures f[i] == g[i] { assert f[i] in f && g[i] in g; }
    }
    NoClashIff(targets.Keys);
    AllServedIff(srv, targets, tracing);
  }

  /** Every host is served if and only if no two of them share an id, that is, no two are alike. */
  lemma AllServedIff(srv: Server, targets: Targets, tracing: bool)
    requires InSync(srv, Build(targets, tracing))
    ensures (forall h :: h in targets ==> MatchCount(srv.routes.value, h) == 1) <==> NoClash(targets.Keys)
    ensures NoClash(targets.Keys) <==> forall g, h :: g in targets && h in targets && Alike(g, h) ==> g == h
  {
    NoClashIff(targets.Keys);
    var s := targets.Keys;
    forall h ensures MatchCount(srv.routes.value, h) == if Kept(h, s) then 1 else 0 {
      ServedExactly(srv, targets, tracing, h);
    }
    if NoClash(s) {
      forall h | h in s ensures Kept(h, s) { LeqRefl(h); }
    } else {
      var g, h :| g in s && h in s && RouteId(g) == RouteId(h) && g != h;
      if Kept(g, s) && Kept(h, s) { LeqAntisym(g, h); }
    }
  }

  /** The TLS policy covers exactly the hosts, in order, and comes first. */
  lemma PolicyExactly(srv: Server, targets: Targets, tracing: bool)
    requires InSync(srv, Build(targets, tracing))
    ensures var p := PolicyList(srv);
      if targets == map[] then IdCount(p, TLS_ID) == 0
      else p != [] && p[0] == Obj(Some("devlocal-tls"), Tls(Ascending(targets.Keys))) && Headed(p)
  {
    var p := PolicyList(srv);
    AscendingLists(targets.Keys);
    assert OwnedId(TLS_ID);
    if targets != map[] {
      var k :| k in targets;
      assert k in Ascending(targets.Keys);
      var i := CountWitness(p, TLS_ID);
      assert p[i] in p;
      SortIdempotent(SomeListing(targets.Keys));
    }
  }

  /** Without clashes the config tells the targets. */
  lemma BuildTellsTargets(a: Targets, b: Targets, tracing: bool)
    requires NoClash(a.Keys) && Build(a, tracing) == Build(b, tracing)
    ensures forall h :: h in a ==> h in b && multiset(a[h]) == multiset(b[h])
  {
    forall h | h in a ensures h in b && multiset(a[h]) == multiset(b[h]) {
      LeqRefl(h);
      assert Kept(h, a.Keys);
      BuildKeeps(a, tracing, h);
      BuildRoutes(b, tracing, RouteId(h));
      SortDetermined(a[h], b[h]);
    }
  }

  /** Two hosts that differ only by a dot and a dash share an id, and the earlier one loses its route. */
  lemma ClashExample()
    ensures RouteId("a.b") == RouteId("a-b")
    ensures Kept("a.b", {"a.b", "a-b"}) && !Kept("a-b", {"a.b", "a-b"})
  {
    assert DotsToDashes("a.b") == "a-b" by {
      assert "a.b"[1..] == ".b" && ".b"[1..] == "b" && "b"[1..] == "";
    }
    assert DotsToDashes("a-b") == "a-b" by {
      assert "a-b"[1..] == "-b" && "-b"[1..] == "b";
    }
    assert Leq("a-b", "a.b") && !Leq("a.b", "a-b") by {
      assert "a.b"[1..] == ".b" && "a-b"[1..] == "-b" && '-' < '.';
    }
    LeqRefl("a.b");
  }
}
