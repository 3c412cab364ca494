/** What is outside managed blocks, told from the places of the markers alone, and blocks of names
    that hold newlines. */
module HostsPositions {
  import opened Text
  import opened Lines
  import opened Hosts
  import opened HostsProofs
  import opened HostsTheorems
  import opened HostsKeeps

  /* ---------- outside, by position ---------- */

  /** The last marker line before line `i` is line `m`. */
  ghost predicate LastMarker(lines: seq<string>, i: int, m: int) {
    0 <= m < i <= |lines| && IsMarker(lines[m]) && forall j :: m < j < i ==> !IsMarker(lines[j])
  }

  /** No marker itself, and the last marker before it, if there is one, is an END. */
  ghost predicate OutsideAt(lines: seq<string>, i: int) {
    0 <= i < |lines| && !IsMarker(lines[i]) && forall m :: LastMarker(lines, i, m) ==> IsEnd(lines[m])
  }

  /** Those of the first `n` lines that are outside. */
  ghost function OutsideLines(lines: seq<string>, n: nat): seq<string>
    requires n <= |lines|
  {
    if n == 0 then []
    else OutsideLines(lines, n - 1) + if OutsideAt(lines, n - 1) then [lines[n - 1]] else []
  }

  /** The scanner's flag when it has seen `n` lines. */
  function FlagAt(lines: seq<string>, n: nat): bool
    requires n <= |lines|
  {
    n > 0 && Inside(lines[n - 1], FlagAt(lines, n - 1))
  }

  lemma {:induction false} FlagIff(lines: seq<string>, n: nat)
    requires n <= |lines|
    ensures FlagAt(lines, n) <==> exists m :: LastMarker(lines, n, m) && IsBegin(lines[m])
  {
    hide IsBegin, IsEnd;
    if n > 0 {
      FlagIff(lines, n - 1);
      var line := lines[n - 1];
      NotBoth(line);
      if IsMarker(line) {
        assert LastMarker(lines, n, n - 1);
        forall m | LastMarker(lines, n, m) ensures m == n - 1 {}
      } else {
        NotMarker(line);
        forall m ensures LastMarker(lines, n, m) <==> LastMarker(lines, n - 1, m) {}
      }
    }
  }

  lemma NotBoth(line: string)
    ensures !(IsBegin(line) && IsEnd(line))
    ensures IsMarker(line) <==> IsBegin(line) || IsEnd(line)
    ensures Inside(line, true) <==> !IsEnd(line)
    ensures Inside(line, false) <==> IsBegin(line)
  {
    MarkerFacts();
  }

  lemma OutsideIff(lines: seq<string>, n: nat)
    requires n < |lines|
    ensures OutsideAt(lines, n) <==> !IsMarker(lines[n]) && !FlagAt(lines, n)
  {
    hide IsBegin, IsEnd, FlagAt;
    FlagIff(lines, n);
    forall m | LastMarker(lines, n, m) ensures IsEnd(lines[m]) <==> !IsBegin(lines[m]) { NotBoth(lines[m]); }
    forall m, k | LastMarker(lines, n, m) && LastMarker(lines, n, k) ensures m == k {}
  }

  lemma {:induction false} ScanSplits(lines: seq<string>, n: nat)
    requires n <= |lines|
    ensures Render(Segs(lines, false), [])
         == OutsideLines(lines, n) + Render(Segs(lines[n..], FlagAt(lines, n)), [])
  {
    hide IsBegin, IsEnd, OutsideAt, Segs, Render, Inside;
    if n == 0 {
      assert lines[0..] == lines;
    } else {
      var flag := FlagAt(lines, n - 1);
      ScanSplits(lines, n - 1);
      OutsideIff(lines, n - 1);
      SuffixHead(lines, n - 1);
      ScanOne(lines[n - 1..], flag);
      var kept := if IsMarker(lines[n - 1]) || flag then [] else [lines[n - 1]];
      KeepsOne(lines, n, kept);
      Associates(OutsideLines(lines, n - 1), kept, Render(Segs(lines[n..], FlagAt(lines, n)), []));
    }
  }

  lemma KeepsOne(lines: seq<string>, n: nat, kept: seq<string>)
    requires 0 < n <= |lines| && kept == if OutsideAt(lines, n - 1) then [lines[n - 1]] else []
    ensures OutsideLines(lines, n) == OutsideLines(lines, n - 1) + kept
  {
  }

  lemma ScanOne(lines: seq<string>, inBlock: bool)
    requires lines != []
    ensures Render(Segs(lines, inBlock), [])
         == (if IsMarker(lines[0]) || inBlock then [] else [lines[0]])
            + Render(Segs(lines[1..], Inside(lines[0], inBlock)), [])
  {
    var tail := Segs(lines[1..], Inside(lines[0], inBlock));
    assert [Managed] + tail == Segs(lines, inBlock) ==> Segs(lines, inBlock)[1..] == tail;
    assert [Plain(lines[0])] + tail == Segs(lines, inBlock) ==> Segs(lines, inBlock)[1..] == tail;
    assert [] + tail == tail;
  }

  /** What a sync and a removal keep are exactly the lines outside by position. */
  lemma OutsideByPosition(content: string)
    ensures var lines := Split(content, NL); Outside(content) == Join(OutsideLines(lines, |lines|), NL)
  {
    var lines := Split(content, NL);
    ScanSplits(lines, |lines|);
    assert lines[|lines|..] == [];
    assert Render(Segs([], FlagAt(lines, |lines|)), []) == [];
    assert OutsideLines(lines, |lines|) + [] == OutsideLines(lines, |lines|);
  }

  /** A line that is no marker is lost exactly when a BEGIN stands before it that no END closes before it. */
  lemma LostIff(lines: seq<string>, i: nat)
    requires i < |lines| && !IsMarker(lines[i])
    ensures !OutsideAt(lines, i) <==>
      exists b :: 0 <= b < i && IsBegin(lines[b]) && forall e :: b < e < i ==> !IsEnd(lines[e])
  {
    hide IsBegin, IsEnd;
    forall j | 0 <= j < i ensures !(IsBegin(lines[j]) && IsEnd(lines[j])) { NotBoth(lines[j]); }
    if b :| 0 <= b < i && IsBegin(lines[b]) && forall e :: b < e < i ==> !IsEnd(lines[e]) {
      var m := LastBefore(lines, i, b);
      NotBoth(lines[m]);
    }
    if m :| LastMarker(lines, i, m) && !IsEnd(lines[m]) {
      assert IsBegin(lines[m]);
    }
  }

  lemma {:induction false} LastBefore(lines: seq<string>, i: nat, b: nat) returns (m: nat)
    requires b < i <= |lines| && IsMarker(lines[b])
    ensures b <= m && LastMarker(lines, i, m)
  {
    if IsMarker(lines[i - 1]) {
      m := i - 1;
    } else {
      m := LastBefore(lines, i - 1, b);
    }
  }

  /** So everything after a BEGIN that is never closed is lost. */
  lemma {:induction false} UnclosedLoses(lines: seq<string>, b: nat, n: nat)
    requires b < n <= |lines| && IsBegin(lines[b]) && forall e :: b < e < |lines| ==> !IsEnd(lines[e])
    ensures OutsideLines(lines, n) == OutsideLines(lines, b)
    decreases n
  {
    hide IsBegin, IsEnd;
    if n - 1 == b {
      assert IsMarker(lines[b]);
    } else {
      UnclosedLoses(lines, b, n - 1);
      if !IsMarker(lines[n - 1]) { LostIff(lines, n - 1); }
    }
  }

  /* ---------- names that hold newlines ---------- */

  /** The lines of the expected block as they stand in the file. */
  function FileLines(tld: string, domains: seq<string>): seq<string> {
    Split(Join(BlockLines(tld, domains), NL), NL)
  }

  lemma SplitFramed(first: string, inner: seq<string>, last: string)
    requires NL !in first && NL !in last && inner != []
    ensures Split(Join([first] + inner + [last], NL), NL) == [first] + Split(Join(inner, NL), NL) + [last]
  {
    hide Split, Join;
    JoinConcat([first] + inner, [last], NL);
    JoinConcat([first], inner, NL);
    JoinOne(first);
    JoinOne(last);
    SplitConcat(Join([first] + inner, NL), last, NL);
    SplitConcat(first, Join(inner, NL), NL);
    SplitWhole(first, NL);
    SplitWhole(last, NL);
  }

  lemma JoinOne(line: string)
    ensures Join([line], NL) == line
  {
  }

  lemma BlockFramed(tld: string, domains: seq<string>) returns (inner: seq<string>)
    ensures inner != [] && BlockLines(tld, domains) == [BEGIN] + inner + [END]
  {
    inner := [NOTICE] + EntryLines(BlockNames(tld, domains));
    assert [BEGIN, NOTICE] + EntryLines(BlockNames(tld, domains)) == [BEGIN] + inner;
  }

  /** Whatever the names are, the block is one of proper lines exactly when none of the lines inside is a marker. */
  lemma FileLinesOk(tld: string, domains: seq<string>)
    ensures var lines := FileLines(tld, domains);
      && BlockText(lines) == BlockText(BlockLines(tld, domains))
      && |lines| >= 2
      && (BlockOk(lines) <==> forall i :: 0 < i < |lines| - 1 ==> !IsMarker(lines[i]))
  {
    hide BlockLines, Split, Join, IsMarker;
    var inner := BlockFramed(tld, domains);
    var text := Join(BlockLines(tld, domains), NL);
    JoinSplit(text, NL);
    SplitFree(text, NL);
    NoticeNoMarker();
    SplitFramed(BEGIN, inner, END);
  }

  /** None of the lines inside is a marker. */
  ghost predicate Unmarked(tld: string, domains: seq<string>) {
    var lines := FileLines(tld, domains);
    forall i :: 0 < i < |lines| - 1 ==> !IsMarker(lines[i])
  }

  /** So it is with names that hold no newline. */
  lemma NewlineFreeUnmarked(tld: string, domains: seq<string>)
    requires NewlineFree(tld, domains)
    ensures Unmarked(tld, domains)
  {
    hide IsMarker, BlockLines, Split, Join;
    var block := BlockLines(tld, domains);
    BuiltBlockOk(tld, domains);
    BlockFull(block);
    SplitJoin(block, NL);
  }

  /** Syncs settle for any names that hold no marker line. */
  lemma SyncConvergesForNames(content: string, tld: string, domains: seq<string>)
    requires Unmarked(tld, domains)
    ensures var expected := BlockText(BlockLines(tld, domains));
      var once := SyncText(content, expected);
      var twice := SyncText(once, expected);
      && SyncText(twice, expected) == twice && Holds(twice, FileLines(tld, domains))
      && (twice == once <==> !(HasEnd(content) && !HasBegin(content)))
  {
    hide SyncText, BlockOk, IsMarker, FileLines;
    FileLinesOk(tld, domains);
    SyncConverges(content, FileLines(tld, domains));
  }

  lemma {:induction false} SplitKeepsLine(block: seq<string>, line: string)
    requires line in block && NL !in line
    ensures line in Split(Join(block, NL), NL)
  {
    hide Split;
    if |block| == 1 {
      SplitWhole(line, NL);
    } else {
      SplitConcat(block[0], Join(block[1..], NL), NL);
      if line == block[0] { SplitWhole(line, NL); } else { SplitKeepsLine(block[1..], line); }
    }
  }

  /** From a file without markers: the block read back is the one built, and it has an entry for the TLD, its alias and
      each domain, unless the name holds a newline. */
  lemma SyncThenRead(content: string, tld: string, domains: seq<string>)
    requires Unmarked(tld, domains) && Markerless(Split(content, NL))
    ensures var expected := BlockText(BlockLines(tld, domains));
      var synced := SyncText(content, expected);
      && ReadText(synced) == expected
      && forall name :: (name == tld || name == TldLocalhost(tld) || name in domains) && NL !in name ==>
           EntryLine(name) in Split(synced, NL)
  {
    hide IsMarker, Sort, TldLocalhost, BlockOk, BlockLines, BlockText, SyncText, ReadText, Split, Join, BlockNames;
    hide FileLines, EntryLine;
    var lines := FileLines(tld, domains);
    FileLinesOk(tld, domains);
    SyncWithoutMarkers(content, lines);
    var synced := SyncText(content, BlockText(lines));
    NoOpIff(synced, lines);
    var pre, post :| Split(synced, NL) == pre + lines + post;
    BlockNamesExactly(tld, domains);
    forall name | name in BlockNames(tld, domains) && NL !in name ensures EntryLine(name) in Split(synced, NL) {
      ListedInFile(tld, domains, name);
    }
  }

  lemma ListedInFile(tld: string, domains: seq<string>, name: string)
    requires name in BlockNames(tld, domains) && NL !in name
    ensures EntryLine(name) in FileLines(tld, domains)
  {
    hide BlockNames, BlockLines;
    Listed(tld, domains, name);
    SplitKeepsLine(BlockLines(tld, domains), EntryLine(name));
  }
}
