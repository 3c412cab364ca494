/** The bytes that are hashed to tell whether anything changed. */
module Fingerprint {
  import opened Text
  import opened Lines
  import opened AdminClient
  import opened Config

  const NUL := '\0'
  const NEWLINE := '\n'

  type Listed = (string, seq<string>)

  function EncodeAddresses(ts: seq<string>): string {
    if ts == [] then [NEWLINE] else ts[0] + [NUL] + EncodeAddresses(ts[1..])
  }

  function Encode(es: seq<Listed>): string {
    if es == [] then [] else es[0].0 + [NUL] + EncodeAddresses(es[0].1) + Encode(es[1..])
  }

  /** Domains in ascending order, each with its addresses in ascending order. */
  ghost function Entries(targets: Targets): seq<Listed> {
    AscendingLists(targets.Keys);
    var ds := Ascending(targets.Keys);
    seq(|ds|, i requires 0 <= i < |ds| => (ds[i], Sort(targets[ds[i]])))
  }

  ghost function DomainBytes(targets: Targets): string {
    Encode(Entries(targets))
  }

  /* ---------- the loops that feed the hash ---------- */

  lemma {:induction false} EncodeAddressesFrom(ts: seq<string>, i: nat, fed: string)
    requires i < |ts|
    ensures fed + EncodeAddresses(ts[i..]) == fed + ts[i] + [NUL] + EncodeAddresses(ts[i + 1..])
  {
    assert ts[i..][1..] == ts[i + 1..];
  }

  method FingerprintDomains(targets: Targets) returns (fed: string)
    ensures fed == DomainBytes(targets)
  {
    var domains := SortedKeys(targets);
    AscendingLists(targets.Keys);
    ghost var es := Entries(targets);
    fed := [];
    for i := 0 to |domains|
      invariant fed + Encode(es[i..]) == DomainBytes(targets)
    {
      ghost var before := fed;
      var d := domains[i];
      var ts := Sort(targets[d]);
      fed := fed + d + [NUL];
      for j := 0 to |ts|
        invariant fed + EncodeAddresses(ts[j..]) == before + d + [NUL] + EncodeAddresses(ts)
      {
        EncodeAddressesFrom(ts, j, fed);
        fed := fed + ts[j] + [NUL];
      }
      fed := fed + [NEWLINE];
      EncodeFrom(es, i, before, fed);
    }
  }

  lemma EncodeFrom(es: seq<Listed>, i: nat, before: string, fed: string)
    requires i < |es| && fed == before + es[i].0 + [NUL] + EncodeAddresses(es[i].1)
    ensures fed + Encode(es[i + 1..]) == before + Encode(es[i..])
  {
    assert es[i..][1..] == es[i + 1..];
  }

  /* ---------- reading the bytes back ---------- */

  function UntilNul(s: string): (r: (string, string))
    ensures |r.0| + |r.1| <= |s| && (s != [] ==> |r.1| < |s|)
  {
    if s == [] then ([], [])
    else if s[0] == NUL then ([], s[1..])
    else var (t, rest) := UntilNul(s[1..]); ([s[0]] + t, rest)
  }

  function DecodeAddresses(s: string): (r: (seq<string>, string))
    ensures |r.1| <= |s|
    decreases |s|
  {
    if s == [] then ([], [])
    else if s[0] == NEWLINE then ([], s[1..])
    else
      var (t, rest) := UntilNul(s);
      var (ts, rest') := DecodeAddresses(rest);
      ([t] + ts, rest')
  }

  function Decode(s: string): seq<Listed>
    decreases |s|
  {
    if s == [] then [] else
    var (d, rest) := UntilNul(s);
    var (ts, rest') := DecodeAddresses(rest);
    [(d, ts)] + Decode(rest')
  }

  lemma {:induction false} UntilNulReads(t: string, rest: string)
    requires NUL !in t
    ensures UntilNul(t + [NUL] + rest) == (t, rest)
  {
    var s := t + [NUL] + rest;
    if t == [] {
      assert s[1..] == rest;
    } else {
      assert s[1..] == t[1..] + [NUL] + rest;
      UntilNulReads(t[1..], rest);
      assert s[0] == t[0] && t == [t[0]] + t[1..];
    }
  }

  predicate CleanAddress(t: string) {
    NUL !in t && (t == [] || t[0] != NEWLINE)
  }

  lemma {:induction false} DecodeAddressesReads(ts: seq<string>, rest: string)
    requires forall i :: 0 <= i < |ts| ==> CleanAddress(ts[i])
    ensures DecodeAddresses(EncodeAddresses(ts) + rest) == (ts, rest)
  {
    var s := EncodeAddresses(ts) + rest;
    if ts == [] {
      assert s[1..] == rest;
    } else {
      assert s == ts[0] + [NUL] + (EncodeAddresses(ts[1..]) + rest);
      UntilNulReads(ts[0], EncodeAddresses(ts[1..]) + rest);
      DecodeAddressesReads(ts[1..], rest);
      assert CleanAddress(ts[0]);
      assert s[0] == if ts[0] == [] then NUL else ts[0][0];
      assert ts == [ts[0]] + ts[1..];
    }
  }

  ghost predicate CleanEntry(e: Listed) {
    NUL !in e.0 && forall i :: 0 <= i < |e.1| ==> CleanAddress(e.1[i])
  }

  /** The encoding can be read back. */
  lemma {:induction false} DecodeEncode(es: seq<Listed>)
    requires forall i :: 0 <= i < |es| ==> CleanEntry(es[i])
    ensures Decode(Encode(es)) == es
  {
    hide UntilNul, EncodeAddresses, DecodeAddresses, CleanAddress;
    if es != [] {
      var (d, ts) := es[0];
      assert CleanEntry(es[0]);
      var tail := Encode(es[1..]);
      Associates(d + [NUL], EncodeAddresses(ts), tail);
      UntilNulReads(d, EncodeAddresses(ts) + tail);
      DecodeAddressesReads(ts, tail);
      DecodeEncode(es[1..]);
      Rejoined(es);
    }
  }

  /* ---------- what equal bytes mean ---------- */

  /** No NUL anywhere, and no address that begins with a newline. */
  ghost predicate CleanTargets(targets: Targets) {
    forall d :: d in targets ==> NUL !in d && forall t :: t in targets[d] ==> CleanAddress(t)
  }

  /** The same domains, each with the same addresses, each as often. */
  ghost predicate SameTargets(a: Targets, b: Targets) {
    a.Keys == b.Keys && forall d :: d in a ==> multiset(a[d]) == multiset(b[d])
  }

  lemma EntriesClean(targets: Targets)
    requires CleanTargets(targets)
    ensures forall i :: 0 <= i < |Entries(targets)| ==> CleanEntry(Entries(targets)[i])
  {
    AscendingLists(targets.Keys);
    var ds := Ascending(targets.Keys);
    forall i | 0 <= i < |ds| ensures CleanEntry(Entries(targets)[i]) {
      var ts := targets[ds[i]];
      SortSorts(ts);
      forall j | 0 <= j < |Sort(ts)| ensures CleanAddress(Sort(ts)[j]) {
        assert Sort(ts)[j] in multiset(Sort(ts));
        assert Sort(ts)[j] in ts;
      }
    }
  }

  lemma SameEntriesSameTargets(a: Targets, b: Targets)
    requires Entries(a) == Entries(b)
    ensures SameTargets(a, b)
  {
    hide Sort, Ascending;
    AscendingLists(a.Keys);
    AscendingLists(b.Keys);
    var da, db := Ascending(a.Keys), Ascending(b.Keys);
    assert |da| == |Entries(a)| == |Entries(b)| == |db|;
    forall i | 0 <= i < |da| ensures da[i] == db[i] && Sort(a[da[i]]) == Sort(b[da[i]]) {
      assert Entries(a)[i] == Entries(b)[i];
    }
    assert da == db;
    forall d ensures d in a <==> d in b {
      assert d in da <==> d in a;
      assert d in db <==> d in b;
    }
    forall d | d in a ensures multiset(a[d]) == multiset(b[d]) {
      var i :| 0 <= i < |da| && da[i] == d;
      SortDetermined(a[d], b[d]);
    }
  }

  lemma SameTargetsSameEntries(a: Targets, b: Targets)
    requires SameTargets(a, b)
    ensures Entries(a) == Entries(b)
  {
    hide Sort, Ascending;
    AscendingLists(a.Keys);
    var ds := Ascending(a.Keys);
    forall i | 0 <= i < |ds| ensures Sort(a[ds[i]]) == Sort(b[ds[i]]) {
      assert ds[i] in ds;
      SortDetermined(a[ds[i]], b[ds[i]]);
    }
  }

  /** The hashed bytes agree exactly when the domains and their addresses do. */
  lemma BytesDetermine(a: Targets, b: Targets)
    requires CleanTargets(a) && CleanTargets(b)
    ensures DomainBytes(a) == DomainBytes(b) <==> SameTargets(a, b)
  {
    EntriesClean(a);
    EntriesClean(b);
    DecodeEncode(Entries(a));
    DecodeEncode(Entries(b));
    if Entries(a) == Entries(b) { SameEntriesSameTargets(a, b); }
    if SameTargets(a, b) { SameTargetsSameEntries(a, b); }
  }

  lemma {:induction false} UntilNulFree(s: string)
    ensures var t := UntilNul(s).0; NUL !in t && (s != [] && t != [] ==> t[0] == s[0])
  {
    if s != [] && s[0] != NUL { UntilNulFree(s[1..]); }
  }

  lemma {:induction false} DecodedAddressesClean(s: string)
    ensures forall i :: 0 <= i < |DecodeAddresses(s).0| ==> CleanAddress(DecodeAddresses(s).0[i])
    decreases |s|
  {
    if s != [] && s[0] != NEWLINE {
      UntilNulFree(s);
      DecodedAddressesClean(UntilNul(s).1);
    }
  }

  lemma {:induction false} DecodedClean(s: string)
    ensures forall i :: 0 <= i < |Decode(s)| ==> CleanEntry(Decode(s)[i])
    decreases |s|
  {
    if s != [] {
      var (d, rest) := UntilNul(s);
      UntilNulFree(s);
      DecodedAddressesClean(rest);
      DecodedClean(DecodeAddresses(rest).1);
    }
  }

  lemma CleanFromEntries(targets: Targets)
    requires forall i :: 0 <= i < |Entries(targets)| ==> CleanEntry(Entries(targets)[i])
    ensures CleanTargets(targets)
  {
    AscendingLists(targets.Keys);
    var ds := Ascending(targets.Keys);
    forall d, t | d in targets && t in targets[d] ensures NUL !in d && CleanAddress(t) {
      var i :| 0 <= i < |ds| && ds[i] == d;
      assert CleanEntry(Entries(targets)[i]);
      SortSorts(targets[d]);
      assert t in multiset(targets[d]);
      assert t in Sort(targets[d]);
    }
    forall d | d in targets ensures NUL !in d {
      var i :| 0 <= i < |ds| && ds[i] == d;
      assert CleanEntry(Entries(targets)[i]);
    }
  }

  /** The bytes read back as what they were made of exactly when nothing in it can be mistaken. */
  lemma ReadsBackIff(targets: Targets)
    ensures Decode(DomainBytes(targets)) == Entries(targets) <==> CleanTargets(targets)
  {
    hide Decode, Encode, Entries;
    if CleanTargets(targets) {
      EntriesClean(targets);
      DecodeEncode(Entries(targets));
    } else {
      DecodedClean(DomainBytes(targets));
      if Decode(DomainBytes(targets)) == Entries(targets) { CleanFromEntries(targets); }
    }
  }

  /** Ends as every encoding does: an address or a domain, closed by NUL, and the newline after it. */
  predicate Ended(s: string) {
    s == [] || (|s| >= 2 && s[|s| - 2] == NUL && s[|s| - 1] == NEWLINE)
  }

  lemma {:induction false} AddressesEnd(d: string, ts: seq<string>)
    ensures var s := d + [NUL] + EncodeAddresses(ts); Ended(s) && s != []
    decreases |ts|
  {
    if ts != [] {
      AddressesEnd(ts[0], ts[1..]);
      assert EncodeAddresses(ts) == ts[0] + [NUL] + EncodeAddresses(ts[1..]);
    }
  }

  lemma {:induction false} EncodeEnds(es: seq<Listed>)
    ensures Ended(Encode(es))
  {
    if es != [] {
      AddressesEnd(es[0].0, es[0].1);
      EncodeEnds(es[1..]);
    }
  }

  lemma {:induction false} UntilNulSplits(s: string)
    requires NUL in s
    ensures UntilNul(s).0 + [NUL] + UntilNul(s).1 == s
  {
    if s[0] == NUL {
      assert [NUL] + s[1..] == s;
    } else {
      UntilNulSplits(s[1..]);
      assert [s[0]] + s[1..] == s;
    }
  }

  /** `s` is what is left of an encoding after a NUL. */
  predicate AfterNul(s: string) {
    s != [] && Ended([NUL] + s)
  }

  lemma EndsAlike(s: string, t: string, rest: string)
    requires s == t + [NUL] + rest && |s| >= 2 && s[|s| - 1] == NEWLINE && s[|s| - 2] == NUL
    ensures AfterNul(rest)
  {
    assert s[|t|..] == [NUL] + rest;
    assert s[|t|] == NUL && |s| - 1 != |t|;
  }

  lemma EndsWithNul(s: string)
    requires (s != [] && Ended(s)) || (AfterNul(s) && s[0] != NEWLINE)
    ensures |s| >= 2 && s[|s| - 1] == NEWLINE && s[|s| - 2] == NUL && NUL in s
  {
    if AfterNul(s) { HeadTail(NUL, s); }
  }

  lemma NulLeaves(s: string)
    requires (s != [] && Ended(s)) || (AfterNul(s) && s[0] != NEWLINE)
    ensures NUL in s && UntilNul(s).0 + [NUL] + UntilNul(s).1 == s && AfterNul(UntilNul(s).1)
  {
    hide UntilNul, Ended, AfterNul;
    EndsWithNul(s);
    UntilNulSplits(s);
    EndsAlike(s, UntilNul(s).0, UntilNul(s).1);
  }

  lemma NewlineLeaves(s: string)
    requires AfterNul(s) && s[0] == NEWLINE
    ensures [NEWLINE] + s[1..] == s && Ended(s[1..])
  {
    Rejoined(s);
    assert ([NUL] + s)[2..] == s[1..];
  }

  lemma AddressesOne(t: string, ts: seq<string>, rest: string)
    ensures EncodeAddresses([t] + ts) + rest == t + [NUL] + (EncodeAddresses(ts) + rest)
  {
    hide EncodeAddresses;
    AddressesHead(t, ts);
    Associates(t + [NUL], EncodeAddresses(ts), rest);
  }

  lemma AddressesHead(t: string, ts: seq<string>)
    ensures EncodeAddresses([t] + ts) == t + [NUL] + EncodeAddresses(ts)
  {
    HeadTail(t, ts);
  }

  lemma {:induction false} AddressesWhole(s: string)
    requires AfterNul(s)
    ensures var (ts, rest) := DecodeAddresses(s); EncodeAddresses(ts) + rest == s && Ended(rest)
    decreases |s|
  {
    hide UntilNul, Ended, AfterNul, EncodeAddresses;
    AfterNulSome(s);
    if s[0] == NEWLINE {
      NewlineLeaves(s);
      AddressesNone();
    } else {
      NulLeaves(s);
      var (t, rest) := UntilNul(s);
      AddressesWhole(rest);
      var (ts, rest') := DecodeAddresses(rest);
      AddressesOne(t, ts, rest');
    }
  }

  lemma AfterNulSome(s: string)
    requires AfterNul(s)
    ensures s != []
  {
  }

  lemma AddressesNone()
    ensures EncodeAddresses([]) == [NEWLINE]
  {
  }

  lemma EncodeHead(d: string, ts: seq<string>, more: seq<Listed>)
    ensures Encode([(d, ts)] + more) == d + [NUL] + (EncodeAddresses(ts) + Encode(more))
  {
    hide EncodeAddresses;
    HeadTail((d, ts), more);
    Associates(d + [NUL], EncodeAddresses(ts), Encode(more));
  }

  /** What is read from an encoding encodes to the same bytes. */
  lemma {:induction false} EncodeDecode(s: string)
    requires Ended(s)
    ensures Encode(Decode(s)) == s
    decreases |s|
  {
    hide UntilNul, Ended, AfterNul, EncodeAddresses, DecodeAddresses;
    if s != [] {
      NulLeaves(s);
      var (d, rest) := UntilNul(s);
      AddressesWhole(rest);
      var (ts, rest') := DecodeAddresses(rest);
      EncodeDecode(rest');
      EncodeHead(d, ts, Decode(rest'));
    }
  }

  /** Any two maps are hashed alike exactly when their bytes read alike. So a clean map shares its
      bytes with exactly those maps that read as it does. */
  lemma HashedAlikeIff(a: Targets, b: Targets)
    ensures DomainBytes(a) == DomainBytes(b) <==> Decode(DomainBytes(a)) == Decode(DomainBytes(b))
    ensures CleanTargets(b) ==>
      (DomainBytes(a) == DomainBytes(b) <==> Decode(DomainBytes(a)) == Entries(b))
  {
    EncodeEnds(Entries(a));
    EncodeEnds(Entries(b));
    EncodeDecode(DomainBytes(a));
    EncodeDecode(DomainBytes(b));
    ReadsBackIff(b);
  }

  /** The config depends on nothing else. */
  lemma SameTargetsSameConfig(a: Targets, b: Targets, tracing: bool)
    requires SameTargets(a, b)
    ensures Build(a, tracing) == Build(b, tracing)
  {
    AscendingLists(a.Keys);
    SameRoutes(Ascending(a.Keys), a, b, tracing);
  }

  lemma {:induction false} SameRoutes(hosts: seq<string>, a: Targets, b: Targets, tracing: bool)
    requires SameTargets(a, b) && forall h :: h in hosts ==> h in a
    ensures RoutesFor(hosts, a, tracing) == RoutesFor(hosts, b, tracing)
  {
    if hosts != [] {
      var n := |hosts| - 1;
      SameRoutes(hosts[..n], a, b, tracing);
      assert hosts[n] in hosts;
      SortDetermined(a[hosts[n]], b[hosts[n]]);
    }
  }
}
