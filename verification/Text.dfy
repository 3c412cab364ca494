/** Strings in the order the sorts use, sorting itself, and ways to list the keys
    of a map. */
module Text {

  datatype Option<+T> = None | Some(value: T)

  /* ---------- lexicographic order ---------- */

  predicate Leq(a: string, b: string) {
    a == [] || (b != [] && (a[0] < b[0] || (a[0] == b[0] && Leq(a[1..], b[1..]))))
  }

  lemma LeqRefl(a: string)
    ensures Leq(a, a)
  {
    if a != [] { LeqRefl(a[1..]); }
  }

  lemma LeqTotal(a: string, b: string)
    ensures Leq(a, b) || Leq(b, a)
  {
    if a != [] && b != [] && a[0] == b[0] { LeqTotal(a[1..], b[1..]); }
  }

  lemma LeqTrans(a: string, b: string, c: string)
    requires Leq(a, b) && Leq(b, c)
    ensures Leq(a, c)
  {
    if a != [] && a[0] == b[0] && b[0] == c[0] { LeqTrans(a[1..], b[1..], c[1..]); }
  }

  lemma LeqAntisym(a: string, b: string)
    requires Leq(a, b) && Leq(b, a)
    ensures a == b
  {
    if a != [] {
      LeqAntisym(a[1..], b[1..]);
      assert a == [a[0]] + a[1..] && b == [b[0]] + b[1..];
    } else {
      assert b == [];
    }
  }

  /** The order of strings: `a` begins `b`, or has the smaller character where they first differ. */
  lemma {:induction false} LeqIff(a: string, b: string)
    ensures Leq(a, b) <==> a <= b || exists i :: FirstSmaller(a, b, i)
  {
    if a != [] && b != [] && a[0] == b[0] {
      LeqIff(a[1..], b[1..]);
      assert a == [a[0]] + a[1..] && b == [b[0]] + b[1..];
      assert a <= b <==> a[1..] <= b[1..];
      if i :| FirstSmaller(a[1..], b[1..], i) {
        assert a[..i + 1] == [a[0]] + a[1..][..i] && b[..i + 1] == [b[0]] + b[1..][..i];
        assert FirstSmaller(a, b, i + 1);
      }
      if i :| FirstSmaller(a, b, i) {
        assert i > 0 && a[1..][..i - 1] == a[..i][1..] && b[1..][..i - 1] == b[..i][1..];
        assert FirstSmaller(a[1..], b[1..], i - 1);
      }
    } else if a != [] && b != [] {
      if a[0] < b[0] { assert FirstSmaller(a, b, 0); }
      forall i | 0 < i <= |a| && i <= |b| ensures a[..i] != b[..i] {
        assert a[..i][0] == a[0] && b[..i][0] == b[0];
      }
    }
  }

  predicate FirstSmaller(a: string, b: string, i: int) {
    0 <= i < |a| && i < |b| && a[..i] == b[..i] && a[i] < b[i]
  }

  /* ---------- sorting (slices.Sort, sort.Strings) ---------- */

  ghost predicate Sorted(s: seq<string>) {
    forall i, j :: 0 <= i < j < |s| ==> Leq(s[i], s[j])
  }

  ghost predicate NoDup<T>(s: seq<T>) {
    forall i, j :: 0 <= i < j < |s| ==> s[i] != s[j]
  }

  function Insert(x: string, s: seq<string>): (r: seq<string>)
    ensures |r| == |s| + 1
  {
    if s == [] || Leq(x, s[0]) then [x] + s else [s[0]] + Insert(x, s[1..])
  }

  function Sort(s: seq<string>): seq<string> {
    if s == [] then [] else Insert(s[0], Sort(s[1..]))
  }

  lemma InsertSorts(x: string, s: seq<string>)
    requires Sorted(s)
    ensures Sorted(Insert(x, s))
    ensures multiset(Insert(x, s)) == multiset(s) + multiset{x}
  {
    hide Leq;
    if s == [] {
    } else if Leq(x, s[0]) {
      forall j | 0 <= j < |s| ensures Leq(x, s[j]) {
        if j > 0 { LeqTrans(x, s[0], s[j]); }
      }
    } else {
      LeqTotal(x, s[0]);
      InsertSorts(x, s[1..]);
      var r := Insert(x, s[1..]);
      assert s == [s[0]] + s[1..];
      forall j | 0 <= j < |r| ensures Leq(s[0], r[j]) {
        assert r[j] in multiset(r);
        if r[j] != x { assert r[j] in s[1..]; }
      }
    }
  }

  lemma SortSorts(s: seq<string>)
    ensures Sorted(Sort(s)) && multiset(Sort(s)) == multiset(s)
    ensures |Sort(s)| == |s|
  {
    if s != [] {
      SortSorts(s[1..]);
      InsertSorts(s[0], Sort(s[1..]));
      assert s == [s[0]] + s[1..];
    }
  }

  lemma HeadLeast(s: seq<string>, x: string)
    requires Sorted(s) && x in s
    ensures Leq(s[0], x)
  {
    LeqRefl(x);
    var i :| 0 <= i < |s| && s[i] == x;
  }

  lemma MultisetHead<T>(s: seq<T>)
    requires s != []
    ensures s[0] in multiset(s) && multiset(s[1..]) == multiset(s) - multiset{s[0]}
  {
    assert s == [s[0]] + s[1..];
  }

  /** A sorted sequence is determined by its multiset. */
  lemma {:induction false} SortedUnique(a: seq<string>, b: seq<string>)
    requires Sorted(a) && Sorted(b) && multiset(a) == multiset(b)
    ensures a == b
  {
    hide Leq;
    if a == [] {
      assert |multiset(b)| == |b| == 0;
    } else {
      assert |multiset(b)| == |b| > 0;
      assert a[0] == b[0] by {
        assert a[0] in multiset(b) && b[0] in multiset(a);
        HeadLeast(a, b[0]);
        HeadLeast(b, a[0]);
        LeqAntisym(a[0], b[0]);
      }
      MultisetHead(a);
      MultisetHead(b);
      SortedUnique(a[1..], b[1..]);
      assert a == [a[0]] + a[1..] && b == [b[0]] + b[1..];
    }
  }

  lemma SortDetermined(a: seq<string>, b: seq<string>)
    ensures multiset(a) == multiset(b) <==> Sort(a) == Sort(b)
  {
    SortSorts(a);
    SortSorts(b);
    if multiset(a) == multiset(b) { SortedUnique(Sort(a), Sort(b)); }
  }

  lemma SortIdempotent(a: seq<string>)
    ensures Sort(Sort(a)) == Sort(a)
  {
    SortSorts(a);
    SortDetermined(Sort(a), a);
  }

  /* ---------- enumerating the keys of a map ---------- */

  /** `keys` lists the set `s`, each element once: what ranging over a Go map yields. */
  ghost predicate Lists<T(!new)>(keys: seq<T>, s: set<T>) {
    NoDup(keys) && (forall x :: x in keys <==> x in s)
  }

  lemma ListsMultiset<T(!new)>(keys: seq<T>, s: set<T>)
    requires Lists(keys, s)
    ensures multiset(keys) == multiset(s) && |keys| == |s|
  {
    if keys == [] {
      assert s == {};
    } else {
      var n := |keys| - 1;
      var k, rest := keys[n], keys[..n];
      assert keys == rest + [k];
      assert k !in rest;
      ListsMultiset(rest, s - {k});
      assert s == (s - {k}) + {k};
    }
  }

  ghost function SomeListing<T(!new)>(s: set<T>): (r: seq<T>)
    ensures Lists(r, s)
  {
    if s == {} then [] else
    var x :| x in s;
    SomeListing(s - {x}) + [x]
  }

  /** The elements of a set in ascending order. */
  ghost function Ascending(s: set<string>): (r: seq<string>)
  {
    Sort(SomeListing(s))
  }

  lemma AscendingLists(s: set<string>)
    ensures Lists(Ascending(s), s) && Sorted(Ascending(s)) && |Ascending(s)| == |s|
  {
    var l := SomeListing(s);
    SortSorts(l);
    ListsMultiset(l, s);
    MultisetNoDup(Sort(l), s);
  }

  lemma CountedTwice<T>(r: seq<T>, i: nat, j: nat)
    requires i < j < |r| && r[i] == r[j]
    ensures multiset(r)[r[i]] >= 2
  {
    assert r == r[..j] + r[j..];
    assert r[i] == r[..j][i] && r[i] == r[j..][0];
  }

  lemma MultisetNoDup<T(!new)>(r: seq<T>, s: set<T>)
    requires multiset(r) == multiset(s)
    ensures Lists(r, s)
  {
    forall x ensures x in r <==> x in s {
      assert x in r <==> x in multiset(r);
    }
    if i, j :| 0 <= i < j < |r| && r[i] == r[j] {
      CountedTwice(r, i, j);
      assert false;
    }
  }

  /** Sorting the keys gives one result, whatever the iteration order was. */
  lemma AscendingUnique(keys: seq<string>, s: set<string>)
    requires Lists(keys, s)
    ensures Sort(keys) == Ascending(s)
  {
    ListsMultiset(keys, s);
    ListsMultiset(SomeListing(s), s);
    SortDetermined(keys, SomeListing(s));
  }

  /** Ranges over a map in whatever order it comes, then sorts. */
  method SortedKeys<V>(m: map<string, V>) returns (keys: seq<string>)
    ensures keys == Ascending(m.Keys)
  {
    var order := [];
    var todo := m.Keys;
    while todo != {}
      invariant todo <= m.Keys
      invariant Lists(order, m.Keys - todo)
      decreases todo
    {
      var k :| k in todo;
      order := order + [k];
      todo := todo - {k};
    }
    assert m.Keys - todo == m.Keys;
    AscendingUnique(order, m.Keys);
    keys := Sort(order);
  }
}
