/** Which port of a container to proxy to: the first that answers, common ones first. */
module Probe {
  import opened Text
  import opened Lines
  import opened Labels

  const COMMON: seq<Port> := [80, 8080, 443, 8443]

  function OnlyIn(ports: seq<Port>, these: seq<Port>): seq<Port> {
    if ports == [] then []
    else (if ports[0] in these then [ports[0]] else []) + OnlyIn(ports[1..], these)
  }

  function NotIn(ports: seq<Port>, those: seq<Port>): seq<Port> {
    if ports == [] then []
    else (if ports[0] in those then [] else [ports[0]]) + NotIn(ports[1..], those)
  }

  /** The common ports there are, in their fixed order, then the rest as they come. */
  function Preferred(ports: seq<Port>): seq<Port> {
    if |ports| <= 1 then ports else OnlyIn(COMMON, ports) + NotIn(ports, COMMON)
  }

  lemma OnlyOn(r: seq<Port>, ports: seq<Port>, i: nat, these: seq<Port>)
    requires i < |ports|
    ensures r + OnlyIn(ports[i..], these)
         == r + (if ports[i] in these then [ports[i]] else []) + OnlyIn(ports[i + 1..], these)
  {
    SuffixHead(ports, i);
  }

  lemma NotOn(r: seq<Port>, ports: seq<Port>, i: nat, those: seq<Port>)
    requires i < |ports|
    ensures r + NotIn(ports[i..], those)
         == r + (if ports[i] in those then [] else [ports[i]]) + NotIn(ports[i + 1..], those)
  {
    SuffixHead(ports, i);
  }

  lemma NothingLeft(r: seq<Port>, ports: seq<Port>, others: seq<Port>)
    ensures r + OnlyIn(ports[|ports|..], others) == r
    ensures r + NotIn(ports[|ports|..], others) == r
  {
  }

  method Keep(ports: seq<Port>, these: seq<Port>) returns (r: seq<Port>)
    ensures r == OnlyIn(ports, these)
  {
    hide OnlyIn;
    r := [];
    NothingAdded(OnlyIn(ports, these));
    assert ports[0..] == ports;
    for i := 0 to |ports|
      invariant r + OnlyIn(ports[i..], these) == OnlyIn(ports, these)
    {
      OnlyOn(r, ports, i, these);
      NothingAdded(r);
      if ports[i] in these { r := r + [ports[i]]; }
    }
    NothingLeft(r, ports, these);
  }

  method Drop(ports: seq<Port>, those: seq<Port>) returns (r: seq<Port>)
    ensures r == NotIn(ports, those)
  {
    hide NotIn;
    r := [];
    NothingAdded(NotIn(ports, those));
    assert ports[0..] == ports;
    for i := 0 to |ports|
      invariant r + NotIn(ports[i..], those) == NotIn(ports, those)
    {
      NotOn(r, ports, i, those);
      NothingAdded(r);
      if ports[i] !in those { r := r + [ports[i]]; }
    }
    NothingLeft(r, ports, those);
  }

  method PreferPorts(ports: seq<Port>) returns (r: seq<Port>)
    ensures r == Preferred(ports)
  {
    if |ports| <= 1 { return ports; }
    var preferred := Keep(COMMON, ports);
    var rest := Drop(ports, COMMON);
    r := preferred + rest;
  }

  /** Who answers HTTP, and where. */
  type Answers = (string, Port) -> bool

  function FirstAnswering(host: string, ports: seq<Port>, answers: Answers): Option<Port> {
    if ports == [] then None
    else if answers(host, ports[0]) then Some(ports[0])
    else FirstAnswering(host, ports[1..], answers)
  }

  method ProbeHTTPPort(host: string, ports: seq<Port>, answers: Answers) returns (port: Option<Port>)
    ensures port == FirstAnswering(host, Preferred(ports), answers)
  {
    if |ports| == 0 { return None; }
    var sorted := PreferPorts(ports);
    for i := 0 to |sorted|
      invariant FirstAnswering(host, sorted[i..], answers) == FirstAnswering(host, sorted, answers)
    {
      if answers(host, sorted[i]) { return Some(sorted[i]); }
      assert sorted[i..][1..] == sorted[i + 1..];
    }
    return None;
  }

  lemma {:induction false} OnlyInMembers(ports: seq<Port>, these: seq<Port>)
    ensures forall p :: p in OnlyIn(ports, these) <==> p in ports && p in these
    ensures NoDup(ports) ==> NoDup(OnlyIn(ports, these))
  {
    if ports != [] {
      OnlyInMembers(ports[1..], these);
      assert forall p :: p in ports <==> p == ports[0] || p in ports[1..];
      HeadAlone(ports);
    }
  }

  lemma {:induction false} NotInMembers(ports: seq<Port>, those: seq<Port>)
    ensures forall p :: p in NotIn(ports, those) <==> p in ports && p !in those
    ensures NoDup(ports) ==> NoDup(NotIn(ports, those))
  {
    if ports != [] {
      NotInMembers(ports[1..], those);
      assert forall p :: p in ports <==> p == ports[0] || p in ports[1..];
      HeadAlone(ports);
    }
  }

  lemma HeadAlone(ports: seq<Port>)
    requires ports != []
    ensures NoDup(ports) ==> ports[0] !in ports[1..] && NoDup(ports[1..])
  {
  }

  /** The same ports, and a permutation of them if none is repeated. */
  lemma PreferredIsPermutation(ports: seq<Port>)
    ensures forall p :: p in Preferred(ports) <==> p in ports
    ensures NoDup(ports) ==> multiset(Preferred(ports)) == multiset(ports)
  {
    OnlyInMembers(COMMON, ports);
    NotInMembers(ports, COMMON);
    if NoDup(ports) && |ports| > 1 {
      var a, b := OnlyIn(COMMON, ports), NotIn(ports, COMMON);
      assert NoDup(a) && NoDup(b);
      forall i, j | 0 <= i < j < |a + b| ensures (a + b)[i] != (a + b)[j] {
        if i < |a| <= j { assert a[i] in a && b[j - |a|] in b; }
      }
      var s := set p | p in ports;
      assert Lists(a + b, s) && Lists(ports, s);
      ListsMultiset(a + b, s);
      ListsMultiset(ports, s);
    }
  }

  /** Common ports come first, in their fixed order; the others keep theirs. */
  lemma PreferredOrder(ports: seq<Port>) returns (k: nat)
    requires |ports| > 1
    ensures k <= |Preferred(ports)|
    ensures Preferred(ports)[..k] == OnlyIn(COMMON, ports) && Preferred(ports)[k..] == NotIn(ports, COMMON)
    ensures forall i :: 0 <= i < |Preferred(ports)| ==> (Preferred(ports)[i] in COMMON <==> i < k)
  {
    k := |OnlyIn(COMMON, ports)|;
    OnlyInMembers(COMMON, ports);
    NotInMembers(ports, COMMON);
    var r := Preferred(ports);
    forall i | 0 <= i < |r| ensures r[i] in COMMON <==> i < k {
      if i < k { assert r[i] in r[..k]; } else { assert r[i] in NotIn(ports, COMMON); }
    }
  }

  /** 80 before 8080 before 443 before 8443 before any other. */
  function Rank(p: Port): nat {
    if p == 80 then 0 else if p == 8080 then 1 else if p == 443 then 2 else if p == 8443 then 3 else 4
  }

  ghost predicate Ranked(ports: seq<Port>, low: nat, high: nat) {
    && (forall i, j :: 0 <= i < j < |ports| ==> Rank(ports[i]) <= Rank(ports[j]))
    && (forall i :: 0 <= i < |ports| ==> low <= Rank(ports[i]) <= high)
  }

  lemma {:induction false} OnlyInRanked(ports: seq<Port>, these: seq<Port>, low: nat, high: nat)
    requires Ranked(ports, low, high)
    ensures Ranked(OnlyIn(ports, these), low, high)
  {
    hide Rank;
    if ports != [] {
      var p := ports[0];
      RankedTail(ports, low, high);
      OnlyInRanked(ports[1..], these, Rank(p), high);
      RankedConcat(if p in these then [p] else [], OnlyIn(ports[1..], these), low, Rank(p), high);
    }
  }

  lemma RankedTail(ports: seq<Port>, low: nat, high: nat)
    requires Ranked(ports, low, high) && ports != []
    ensures low <= Rank(ports[0]) <= high && Ranked(ports[1..], Rank(ports[0]), high)
  {
    hide Rank;
  }

  lemma CommonRanked()
    ensures Ranked(COMMON, 0, 3)
  {
  }

  lemma RankedConcat(a: seq<Port>, b: seq<Port>, low: nat, mid: nat, high: nat)
    requires Ranked(a, low, mid) && Ranked(b, mid, high) && low <= mid <= high
    ensures Ranked(a + b, low, high)
  {
    hide Rank;
  }

  /** Ports are tried in that order. */
  lemma PreferredRanked(ports: seq<Port>)
    ensures Ranked(Preferred(ports), 0, 4)
  {
    hide Rank, OnlyIn, NotIn;
    if |ports| <= 1 {
      AnyRanked(ports);
    } else {
      var b := NotIn(ports, COMMON);
      CommonRanked();
      OnlyInRanked(COMMON, ports, 0, 3);
      NotInMembers(ports, COMMON);
      forall i | 0 <= i < |b| ensures Rank(b[i]) == 4 {
        assert b[i] in b;
        Uncommon(b[i]);
      }
      RankedConcat(OnlyIn(COMMON, ports), b, 0, 4, 4);
    }
  }

  lemma AnyRanked(ports: seq<Port>)
    requires |ports| <= 1
    ensures Ranked(ports, 0, 4)
  {
  }

  lemma Uncommon(p: Port)
    requires p !in COMMON
    ensures Rank(p) == 4
  {
    assert COMMON[0] == 80 && COMMON[1] == 8080 && COMMON[2] == 443 && COMMON[3] == 8443;
  }

  ghost predicate FirstAt(host: string, ports: seq<Port>, answers: Answers, i: nat) {
    i < |ports| && answers(host, ports[i]) && forall j :: 0 <= j < i ==> !answers(host, ports[j])
  }

  /** The answer is the first port in preference order that answers, and None means none does. */
  lemma {:induction false} FirstAnsweringIsFirst(host: string, ports: seq<Port>, answers: Answers)
    ensures var r := FirstAnswering(host, ports, answers);
      match r
      case None => forall p :: p in ports ==> !answers(host, p)
      case Some(p) => exists i: nat :: FirstAt(host, ports, answers, i) && ports[i] == p
  {
    if ports != [] && !answers(host, ports[0]) {
      FirstAnsweringIsFirst(host, ports[1..], answers);
      var r := FirstAnswering(host, ports[1..], answers);
      if r.Some? {
        var i: nat :| FirstAt(host, ports[1..], answers, i) && ports[1..][i] == r.value;
        forall j | 0 <= j < i + 1 ensures !answers(host, ports[j]) {
          if j > 0 { assert ports[1..][j - 1] == ports[j]; }
        }
        assert FirstAt(host, ports, answers, i + 1);
      }
    } else if ports != [] {
      assert FirstAt(host, ports, answers, 0);
    }
  }
}
