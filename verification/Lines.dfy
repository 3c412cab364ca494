/** Splitting, joining and trimming text. */
module Lines {

  const NL := '\n'

  /* ---------- strings.Split and strings.Join with a one-character separator ---------- */

  function Split(s: string, sep: char): (r: seq<string>)
    ensures |r| > 0
  {
    if s == [] then [[]]
    else if s[0] == sep then [[]] + Split(s[1..], sep)
    else var r := Split(s[1..], sep); [[s[0]] + r[0]] + r[1..]
  }

  function Join(ls: seq<string>, sep: char): string {
    if ls == [] then []
    else if |ls| == 1 then ls[0]
    else ls[0] + [sep] + Join(ls[1..], sep)
  }

  ghost predicate Free(ls: seq<string>, sep: char) {
    forall i :: 0 <= i < |ls| ==> sep !in ls[i]
  }

  lemma Rejoined<T>(s: seq<T>)
    requires s != []
    ensures s == [s[0]] + s[1..]
  {
  }

  lemma HeadTail<T>(x: T, s: seq<T>)
    ensures ([x] + s)[0] == x && ([x] + s)[1..] == s
  {
  }

  lemma Associates<T>(a: seq<T>, b: seq<T>, c: seq<T>)
    ensures (a + b) + c == a + (b + c)
  {
  }

  lemma NothingAdded<T>(s: seq<T>)
    ensures s + [] == s && [] + s == s
  {
  }

  lemma SuffixHead<T>(s: seq<T>, i: nat)
    requires i < |s|
    ensures s[i..] != [] && s[i..][0] == s[i] && s[i..][1..] == s[i + 1..]
  {
  }

  lemma {:induction false} JoinCons(l: string, ls: seq<string>, sep: char)
    requires ls != []
    ensures Join([l] + ls, sep) == l + [sep] + Join(ls, sep)
  {
    assert ([l] + ls)[1..] == ls;
  }

  lemma {:induction false} JoinSplit(s: string, sep: char)
    ensures Join(Split(s, sep), sep) == s
  {
    if s != [] {
      JoinSplit(s[1..], sep);
      var r := Split(s[1..], sep);
      if s[0] == sep {
        JoinCons([], r, sep);
      } else if |r| > 1 {
        var r' := [[s[0]] + r[0]] + r[1..];
        assert r'[1..] == r[1..];
        assert Join(r', sep) == [s[0]] + Join(r, sep);
      }
    }
  }

  lemma {:induction false} SplitFree(s: string, sep: char)
    ensures Free(Split(s, sep), sep)
  {
    if s != [] { SplitFree(s[1..], sep); }
  }

  lemma {:induction false} SplitWhole(s: string, sep: char)
    requires sep !in s
    ensures Split(s, sep) == [s]
  {
    if s != [] {
      SplitWhole(s[1..], sep);
      assert [s[0]] + s[1..] == s;
    }
  }

  lemma SplitHead(c: char, s: string, sep: char)
    ensures Split([c] + s, sep) ==
      var r := Split(s, sep); if c == sep then [[]] + r else [[c] + r[0]] + r[1..]
  {
    HeadTail(c, s);
  }

  /** Putting a character before the first of several lines. */
  lemma ExtendFirst(c: char, ra: seq<string>, rb: seq<string>)
    requires ra != []
    ensures [[c] + (ra + rb)[0]] + (ra + rb)[1..] == ([[c] + ra[0]] + ra[1..]) + rb
  {
    assert (ra + rb)[1..] == ra[1..] + rb;
    Associates([[c] + ra[0]], ra[1..], rb);
  }

  lemma {:induction false} SplitConcat(a: string, b: string, sep: char)
    ensures Split(a + [sep] + b, sep) == Split(a, sep) + Split(b, sep)
  {
    hide Split;
    if a == [] {
      NothingAdded([sep]);
      SplitHead(sep, b, sep);
      SplitWhole([], sep);
    } else {
      var rest := a[1..] + [sep] + b;
      SplitConcat(a[1..], b, sep);
      Rejoined(a);
      Associates([a[0]], a[1..], [sep]);
      Associates([a[0]], a[1..] + [sep], b);
      SplitHead(a[0], rest, sep);
      SplitHead(a[0], a[1..], sep);
      if a[0] == sep {
        Associates([[]], Split(a[1..], sep), Split(b, sep));
      } else {
        ExtendFirst(a[0], Split(a[1..], sep), Split(b, sep));
      }
    }
  }

  lemma {:induction false} SplitJoin(ls: seq<string>, sep: char)
    requires ls != [] && Free(ls, sep)
    ensures Split(Join(ls, sep), sep) == ls
  {
    SplitWhole(ls[0], sep);
    if |ls| > 1 {
      SplitJoin(ls[1..], sep);
      SplitConcat(ls[0], Join(ls[1..], sep), sep);
    }
  }

  lemma {:induction false} JoinConcat(a: seq<string>, b: seq<string>, sep: char)
    requires a != [] && b != []
    ensures Join(a + b, sep) == Join(a, sep) + [sep] + Join(b, sep)
  {
    if |a| == 1 {
      JoinCons(a[0], b, sep);
      assert a == [a[0]];
    } else {
      JoinConcat(a[1..], b, sep);
      assert a + b == [a[0]] + (a[1..] + b);
      JoinCons(a[0], a[1..] + b, sep);
      assert a == [a[0]] + a[1..];
      JoinCons(a[0], a[1..], sep);
    }
  }

  /* ---------- trimming ---------- */

  /** Go's unicode.IsSpace. */
  predicate IsSpace(c: char) {
    c in {'\t', '\n', '\U{0B}', '\U{0C}', '\r', ' ', '\U{85}', '\U{A0}', '\U{1680}',
          '\U{2028}', '\U{2029}', '\U{202F}', '\U{205F}', '\U{3000}'}
    || '\U{2000}' <= c <= '\U{200A}'
  }

  function TrimLeftSpace(s: string): string {
    if s != [] && IsSpace(s[0]) then TrimLeftSpace(s[1..]) else s
  }

  function TrimRightSpace(s: string): string {
    if s != [] && IsSpace(s[|s| - 1]) then TrimRightSpace(s[..|s| - 1]) else s
  }

  function TrimSpace(s: string): string {
    TrimRightSpace(TrimLeftSpace(s))
  }

  /** strings.TrimRight: drops trailing characters of the cut set. */
  function TrimRight(s: string, cut: set<char>): string {
    if s != [] && s[|s| - 1] in cut then TrimRight(s[..|s| - 1], cut) else s
  }

  lemma {:induction false} TrimRightEnd(s: string, cut: set<char>)
    ensures var t := TrimRight(s, cut); t == [] || t[|t| - 1] !in cut
  {
    if s != [] && s[|s| - 1] in cut { TrimRightEnd(s[..|s| - 1], cut); }
  }

  lemma TrimRightTwice(s: string, cut: set<char>)
    ensures TrimRight(TrimRight(s, cut), cut) == TrimRight(s, cut)
  {
    TrimRightEnd(s, cut);
  }

  lemma TrimRightOne(s: string, c: char, cut: set<char>)
    requires c in cut
    ensures TrimRight(s + [c], cut) == TrimRight(s, cut)
  {
    assert (s + [c])[..|s|] == s;
  }

  /** Trimming less first does not matter. */
  lemma {:induction false} TrimRightAfter(s: string, less: set<char>, more: set<char>)
    requires less <= more
    ensures TrimRight(TrimRight(s, less), more) == TrimRight(s, more)
  {
    if s != [] && s[|s| - 1] in less { TrimRightAfter(s[..|s| - 1], less, more); }
  }

  lemma {:induction false} TrimRightLonger(s: string, cut: set<char>)
    ensures |TrimRight(s, cut)| <= |s|
  {
    if s != [] && s[|s| - 1] in cut { TrimRightLonger(s[..|s| - 1], cut); }
  }

  lemma {:induction false} TrimRightKeeps(a: string, b: string, cut: set<char>)
    requires b != [] && b[|b| - 1] !in cut
    ensures TrimRight(a + b, cut) == a + b
  {
    assert (a + b)[|a + b| - 1] == b[|b| - 1];
  }

  lemma {:induction false} TrimSpaceAppend(s: string, c: char)
    requires IsSpace(c)
    ensures TrimSpace(s + [c]) == TrimSpace(s)
  {
    if s == [] {
      assert s + [c] == [c] && [c][1..] == [];
    } else if IsSpace(s[0]) {
      assert (s + [c])[1..] == s[1..] + [c];
      TrimSpaceAppend(s[1..], c);
    } else {
      assert (s + [c])[..|s|] == s;
    }
  }

  lemma {:induction false} TrimRightSpaceHead(s: string)
    requires s != [] && !IsSpace(s[0])
    ensures TrimRightSpace(s) != [] && TrimRightSpace(s)[0] == s[0]
  {
    if IsSpace(s[|s| - 1]) { TrimRightSpaceHead(s[..|s| - 1]); }
  }

  /* ---------- letters ---------- */

  function ToLower(s: string): (r: string)
    ensures |r| == |s|
  {
    if s == [] then []
    else [if 'A' <= s[0] <= 'Z' then s[0] - 'A' + 'a' else s[0]] + ToLower(s[1..])
  }

  predicate HasSuffix(s: string, suffix: string) {
    |suffix| <= |s| && s[|s| - |suffix|..] == suffix
  }

  /** Capital letters of ASCII, and no others, become small ones. */
  lemma {:induction false} ToLowerAt(s: string, i: nat)
    requires i < |s|
    ensures ToLower(s)[i] as int == s[i] as int + if 65 <= s[i] as int <= 90 then 32 else 0
  {
    if i > 0 { ToLowerAt(s[1..], i - 1); }
  }

  lemma HasSuffixIff(s: string, suffix: string)
    ensures HasSuffix(s, suffix) <==> exists p :: s == p + suffix
  {
    if HasSuffix(s, suffix) { assert s == s[..|s| - |suffix|] + suffix; }
  }

  lemma {:induction false} TrimLeftCuts(s: string) returns (i: nat)
    ensures i <= |s| && TrimLeftSpace(s) == s[i..] && forall k :: 0 <= k < i ==> IsSpace(s[k])
    ensures i == |s| || !IsSpace(s[i])
  {
    if s != [] && IsSpace(s[0]) {
      i := TrimLeftCuts(s[1..]);
      assert s[1..][i..] == s[i + 1..];
      assert forall k :: 0 < k < i + 1 ==> s[k] == s[1..][k - 1];
      i := i + 1;
    } else {
      i := 0;
    }
  }

  lemma {:induction false} TrimRightCuts(s: string) returns (j: nat)
    ensures j <= |s| && TrimRightSpace(s) == s[..j] && forall k :: j <= k < |s| ==> IsSpace(s[k])
    ensures j == 0 || !IsSpace(s[j - 1])
  {
    j := |s|;
    if s != [] && IsSpace(s[|s| - 1]) {
      j := TrimRightCuts(s[..|s| - 1]);
      assert s[..|s| - 1][..j] == s[..j];
    }
  }

  /** Trimming takes white space from both ends, all of it and nothing else. */
  lemma TrimSpaceCuts(s: string) returns (i: nat, j: nat)
    ensures i <= j <= |s| && TrimSpace(s) == s[i..j]
    ensures (forall k :: 0 <= k < i ==> IsSpace(s[k])) && (forall k :: j <= k < |s| ==> IsSpace(s[k]))
    ensures i < j ==> !IsSpace(s[i]) && !IsSpace(s[j - 1])
  {
    i := TrimLeftCuts(s);
    var n := TrimRightCuts(s[i..]);
    j := i + n;
    assert s[i..][..n] == s[i..j];
    assert forall k :: j <= k < |s| ==> s[k] == s[i..][k - i];
  }
}
