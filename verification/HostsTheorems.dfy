/** The main results about the hosts file, for every content whatsoever. */
module HostsTheorems {
  import opened Text
  import opened Lines
  import opened Hosts
  import opened HostsProofs

  ghost predicate HasBegin(content: string) {
    exists i :: 0 <= i < |Split(content, NL)| && IsBegin(Split(content, NL)[i])
  }

  ghost predicate HasEnd(content: string) {
    exists i :: 0 <= i < |Split(content, NL)| && IsEnd(Split(content, NL)[i])
  }

  ghost predicate Markerless(lines: seq<string>) {
    forall i :: 0 <= i < |lines| ==> !IsMarker(lines[i])
  }

  /** The file holds the block in one piece, and no other marker. */
  ghost predicate HoldsExactly(content: string, block: seq<string>) {
    exists pre, post :: Split(content, NL) == pre + block + post && Markerless(pre) && Markerless(post)
  }

  /** The file holds the block in one piece. */
  ghost predicate Holds(content: string, block: seq<string>) {
    exists pre, post :: Split(content, NL) == pre + block + post
  }

  /** Up to newlines and carriage returns at the end. */
  function Eol(s: string): string {
    TrimRight(s, EOL)
  }

  /** The lines outside managed blocks, in order. */
  function Outside(content: string): string {
    Join(Render(Parse(content), []), NL)
  }

  /* ---------- scans of marker-free stretches ---------- */

  lemma {:induction false} MarkerlessRead(lines: seq<string>, rest: seq<string>)
    requires Markerless(lines)
    ensures ReadLines(lines + rest, false) == ReadLines(rest, false)
  {
    hide IsMarker, IsBegin, IsEnd;
    if lines == [] {
      assert lines + rest == rest;
    } else {
      assert (lines + rest)[1..] == lines[1..] + rest;
      MarkerlessRead(lines[1..], rest);
      NotMarker(lines[0]);
    }
  }

  lemma {:induction false} MarkerlessSegs(lines: seq<string>, rest: seq<string>)
    requires Markerless(lines)
    ensures Segs(lines + rest, false) == Plains(lines) + Segs(rest, false)
  {
    hide IsMarker, IsBegin, IsEnd, Segs;
    if lines == [] {
      assert lines + rest == rest;
    } else {
      MarkerlessSegs(lines[1..], rest);
      SegsPlain(lines[0], lines[1..] + rest);
      assert lines + rest == [lines[0]] + (lines[1..] + rest);
    }
  }

  function Plains(lines: seq<string>): seq<Seg> {
    if lines == [] then [] else [Plain(lines[0])] + Plains(lines[1..])
  }

  lemma {:induction false} RenderPlains(lines: seq<string>, block: seq<string>)
    ensures Render(Plains(lines), block) == lines
  {
    if lines != [] { RenderPlains(lines[1..], block); }
  }

  lemma MarkerlessParse(content: string)
    requires Markerless(Split(content, NL))
    ensures Parse(content) == Plains(Split(content, NL)) && Outside(content) == content
  {
    var lines := Split(content, NL);
    MarkerlessSegs(lines, []);
    assert lines + [] == lines && Plains(lines) + [] == Plains(lines);
    RenderPlains(lines, []);
    JoinSplit(content, NL);
  }

  lemma NotMarker(line: string)
    requires !IsMarker(line)
    ensures !Inside(line, false) && Taken(line, false) == []
  {
  }

  lemma {:induction false} ReadNothing(lines: seq<string>)
    ensures ReadLines(lines, false) == [] <==> Markerless(lines)
  {
    if lines != [] {
      ReadNothing(lines[1..]);
      if !IsMarker(lines[0]) {
        assert Markerless(lines) <==> Markerless(lines[1..]);
      }
    }
  }

  lemma ReadEmptyIff(content: string)
    ensures ReadText(content) == "" <==> Markerless(Split(content, NL))
    ensures Markerless(Split(content, NL)) <==> !HasBegin(content) && !HasEnd(content)
  {
    ReadNothing(Split(content, NL));
  }

  lemma {:induction false} ManagedIff(lines: seq<string>, inBlock: bool)
    ensures Managed in Segs(lines, inBlock) <==> exists i :: 0 <= i < |lines| && IsBegin(lines[i])
  {
    if lines != [] {
      ManagedIff(lines[1..], Inside(lines[0], inBlock));
      if i :| 0 <= i < |lines| && IsBegin(lines[i]) {
        if i > 0 { assert IsBegin(lines[1..][i - 1]); }
      }
      if j :| 0 <= j < |lines[1..]| && IsBegin(lines[1..][j]) {
        assert IsBegin(lines[j + 1]);
      }
    }
  }

  /* ---------- when a sync leaves the file alone ---------- */

  lemma {:induction false} ReadInner(lines: seq<string>, inner: seq<string>)
    requires forall i :: 0 <= i < |inner| ==> !IsMarker(inner[i])
    requires ReadLines(lines, true) == inner + [END]
    ensures |inner| < |lines| && lines[..|inner| + 1] == inner + [END]
    ensures Markerless(lines[|inner| + 1..])
  {
    MarkerFacts();
    hide TrimSpace;
    assert lines[0] == (inner + [END])[0];
    if inner == [] {
      assert ReadLines(lines[1..], false) == [];
      ReadNothing(lines[1..]);
    } else {
      assert (inner + [END])[1..] == inner[1..] + [END];
      ReadInner(lines[1..], inner[1..]);
      assert lines == [lines[0]] + lines[1..] && inner == [inner[0]] + inner[1..];
      assert lines[|inner| + 1..] == lines[1..][|inner[1..]| + 1..];
    }
  }

  lemma ReadFromBegin(lines: seq<string>, block: seq<string>)
    requires BlockOk(block) && lines != [] && IsMarker(lines[0]) && ReadLines(lines, false) == block
    ensures |block| <= |lines| && lines[..|block|] == block && Markerless(lines[|block|..])
  {
    hide TrimSpace, ReadLines, BlockOk;
    var rest := lines[1..];
    var inner := BlockParts(block);
    Rejoined(lines);
    SegsOne(lines[0], rest, false);
    HeadTail(BEGIN, inner + [END]);
    HeadTail(lines[0], ReadLines(rest, Inside(lines[0], false)));
    MarkerFacts();
    ReadInner(rest, inner);
    TakeMore(lines, rest, inner, block);
  }

  lemma TakeMore(lines: seq<string>, rest: seq<string>, inner: seq<string>, block: seq<string>)
    requires lines != [] && rest == lines[1..] && block == [lines[0]] + (inner + [END])
    requires |inner| < |rest| && rest[..|inner| + 1] == inner + [END]
    ensures |block| <= |lines| && lines[..|block|] == block && lines[|block|..] == rest[|inner| + 1..]
  {
    assert lines[..|block|] == [lines[0]] + rest[..|inner| + 1];
  }

  lemma ReadSome(lines: seq<string>, block: seq<string>)
    requires BlockOk(block) && ReadLines(lines, false) == block
    ensures lines != []
  {
  }

  lemma {:induction false} ReadIsBlock(lines: seq<string>, block: seq<string>)
      returns (pre: seq<string>, post: seq<string>)
    requires BlockOk(block) && ReadLines(lines, false) == block
    ensures lines == pre + block + post && Markerless(pre) && Markerless(post)
  {
    hide IsMarker, IsBegin, IsEnd, ReadLines;
    ReadSome(lines, block);
    Rejoined(lines);
    if IsMarker(lines[0]) {
      ReadFromBegin(lines, block);
      pre, post := [], lines[|block|..];
      assert lines == lines[..|block|] + post;
      NothingAdded(block);
    } else {
      SegsOne(lines[0], lines[1..], false);
      NotMarker(lines[0]);
      NothingAdded(ReadLines(lines[1..], false));
      var rest;
      rest, post := ReadIsBlock(lines[1..], block);
      pre := [lines[0]] + rest;
      Associates([lines[0]], rest, block);
      Associates([lines[0]], rest + block, post);
    }
  }

  lemma BlockTextInjective(a: seq<string>, b: seq<string>)
    requires a != [] && b != [] && Free(a, NL) && Free(b, NL) && BlockText(a) == BlockText(b)
    ensures a == b
  {
    SplitLinesText(a);
    SplitLinesText(b);
    assert (a + [""])[..|a|] == a && (b + [""])[..|b|] == b;
  }

  lemma {:induction false} ReadFree(lines: seq<string>, inBlock: bool)
    requires Free(lines, NL)
    ensures Free(ReadLines(lines, inBlock), NL)
  {
    if lines != [] { ReadFree(lines[1..], Inside(lines[0], inBlock)); }
  }

  /** A sync finds nothing to do exactly when the file holds the expected block, whole and alone. */
  lemma NoOpIff(content: string, block: seq<string>)
    requires BlockOk(block)
    ensures ReadText(content) == BlockText(block) <==> HoldsExactly(content, block)
  {
    var lines := Split(content, NL);
    if ReadText(content) == BlockText(block) {
      SplitFree(content, NL);
      ReadFree(lines, false);
      BlockTextInjective(ReadLines(lines, false), block);
      var pre, post := ReadIsBlock(lines, block);
    }
    if pre, post :| lines == pre + block + post && Markerless(pre) && Markerless(post) {
      assert lines == pre + (block + post);
      MarkerlessRead(pre, block + post);
      SegsBlock(block, post);
      ReadNothing(post);
      assert block + [] == block;
    }
  }

  /* ---------- appending ---------- */

  lemma {:induction false} TrimKeepsMarkerless(s: string)
    requires Markerless(Split(s, NL))
    ensures Markerless(Split(Eol(s), NL))
  {
    if s != [] && s[|s| - 1] in EOL {
      var front := s[..|s| - 1];
      assert s == front + [s[|s| - 1]];
      SplitLast(front, s[|s| - 1]);
      TrimKeepsMarkerless(front);
    }
  }

  /** One more newline or carriage return at the end makes no marker and unmakes none. */
  lemma {:induction false} SplitLast(s: string, c: char)
    requires c in EOL
    ensures Markerless(Split(s + [c], NL)) <==> Markerless(Split(s, NL))
  {
    hide IsMarker;
    var a, b := Split(s, NL), Split(s + [c], NL);
    if c == NL {
      SplitConcat(s, "", NL);
      assert s + [c] + "" == s + [c];
      assert b == a + [""] && b[..|a|] == a;
      assert !IsMarker(b[|a|]) by { MarkerFacts(); }
      assert forall i :: 0 <= i < |a| ==> b[i] == b[..|a|][i] == a[i];
    } else {
      SplitLastCr(s, c);
      var n := |a| - 1;
      SpaceIsNoMatter(a[n], c);
      assert b[..n] == a[..n] && b[n] == a[n] + [c];
      assert forall i :: 0 <= i < n ==> b[i] == b[..n][i] == a[i];
    }
  }

  lemma SpaceIsNoMatter(line: string, c: char)
    requires c in EOL
    ensures IsMarker(line + [c]) <==> IsMarker(line)
  {
    TrimSpaceAppend(line, c);
  }

  lemma JoinLast(pre: seq<string>, last: string, c: char)
    ensures Join(pre + [last + [c]], NL) == Join(pre + [last], NL) + [c]
  {
    if pre == [] {
      assert pre + [last] == [last] && pre + [last + [c]] == [last + [c]];
    } else {
      JoinConcat(pre, [last], NL);
      JoinConcat(pre, [last + [c]], NL);
    }
  }

  lemma FrontLast<T>(s: seq<T>)
    requires s != []
    ensures s == s[..|s| - 1] + [s[|s| - 1]]
  {
  }

  lemma SplitLastCr(s: string, c: char)
    requires c != NL
    ensures var a := Split(s, NL); Split(s + [c], NL) == a[..|a| - 1] + [a[|a| - 1] + [c]]
  {
    hide Split, Join;
    var a := Split(s, NL);
    var n := |a| - 1;
    SplitFree(s, NL);
    JoinSplit(s, NL);
    FrontLast(a);
    JoinLast(a[..n], a[n], c);
    LastFree(a, c);
    SplitJoin(a[..n] + [a[n] + [c]], NL);
  }

  lemma LastFree(a: seq<string>, c: char)
    requires a != [] && Free(a, NL) && c != NL
    ensures var n := |a| - 1; Free(a[..n] + [a[n] + [c]], NL)
  {
  }

  /** The block is appended after the file's last character that is neither a newline nor a carriage return, each on
      lines of their own, and one newline more. */
  lemma AppendExactly(body: string, ends: string, expected: string)
    requires body == "" || (body[|body| - 1] != '\n' && body[|body| - 1] != '\r')
    requires forall c :: c in ends ==> c == '\n' || c == '\r'
    ensures AppendText(body + ends, expected) == (if body == "" then "" else body + "\n") + expected + "\n"
  {
    TrimRightAll(body, ends, EOL);
    if body == "" { NothingAdded(expected); }
  }

  lemma {:induction false} TrimRightAll(body: string, ends: string, cut: set<char>)
    requires (body == "" || body[|body| - 1] !in cut) && forall c :: c in ends ==> c in cut
    ensures TrimRight(body + ends, cut) == body
  {
    if ends == [] {
      NothingAdded(body);
    } else {
      var n := |ends| - 1;
      TrimRightAll(body, ends[..n], cut);
      assert body + ends == body + ends[..n] + [ends[n]] && ends[n] in ends;
      TrimRightOne(body + ends[..n], ends[n], cut);
    }
  }

  /** A file without markers gets the block at the end. */
  lemma AppendMeaning(content: string, block: seq<string>) returns (pre: seq<string>)
    requires BlockOk(block) && Markerless(Split(content, NL))
    ensures Split(AppendText(content, BlockText(block)), NL) == pre + block + ["", ""]
    ensures Markerless(pre) && pre == if Eol(content) == "" then [] else Split(Eol(content), NL)
  {
    hide IsMarker;
    var t := Eol(content);
    TrimKeepsMarkerless(content);
    SplitJoin(block, NL);
    SplitConcat(Join(block, NL), [NL], NL);
    SplitConcat("", "", NL);
    assert Split([NL], NL) == ["", ""] by { assert "" + [NL] + "" == [NL]; }
    var b := Join(block, NL) + [NL] + [NL];
    assert BlockText(block) + [NL] == b;
    if t == "" {
      pre := [];
      assert pre + block + ["", ""] == block + ["", ""];
    } else {
      pre := Split(t, NL);
      SplitConcat(t, b, NL);
      assert AppendText(content, BlockText(block)) == t + [NL] + b;
      assert pre + block + ["", ""] == pre + (block + ["", ""]);
    }
  }

  lemma AppendHolds(content: string, block: seq<string>)
    requires BlockOk(block) && Markerless(Split(content, NL))
    ensures HoldsExactly(AppendText(content, BlockText(block)), block)
  {
    var pre := AppendMeaning(content, block);
    MarkerFacts();
    assert Markerless(["", ""]);
  }

  lemma HoldsHasBegin(content: string, block: seq<string>)
    requires BlockOk(block) && Holds(content, block)
    ensures HasBegin(content)
  {
    MarkerFacts();
    var pre, post :| Split(content, NL) == pre + block + post;
    assert Split(content, NL)[|pre|] == BEGIN;
  }

  /* ---------- replacing ---------- */

  lemma {:induction false} TrimManaged(segs: seq<Seg>)
    ensures Managed in Trim(segs) <==> Managed in segs
  {
    if segs != [] && segs[|segs| - 1] == Plain("") {
      var n := |segs| - 1;
      assert segs == segs[..n] + [segs[n]];
      TrimManaged(segs[..n]);
    }
  }

  lemma TrimAgain(segs: seq<Seg>)
    ensures Trim(Trim(segs) + [Plain("")]) == Trim(segs)
  {
    var t := Trim(segs);
    assert (t + [Plain("")])[..|t|] == t;
    TrimTwice(segs);
  }

  lemma {:induction false} TrimTwice(segs: seq<Seg>)
    ensures Trim(Trim(segs)) == Trim(segs)
  {
    if segs != [] && segs[|segs| - 1] == Plain("") { TrimTwice(segs[..|segs| - 1]); }
  }

  /** A second replacement forgets the first. */
  lemma ReplaceTwice(content: string, b1: seq<string>, b2: seq<string>)
    requires BlockOk(b1) && BlockOk(b2)
    ensures var once := ReplaceText(content, BlockText(b1));
      && ReplaceText(once, BlockText(b2)) == ReplaceText(content, BlockText(b2))
      && (HasBegin(once) <==> HasBegin(content))
  {
    var once := ReplaceText(content, BlockText(b1));
    ReplaceMeaning(content, b1);
    ReplaceMeaning(content, b2);
    ReplaceMeaning(once, b2);
    TrimAgain(Parse(content));
    ManagedIff(Split(content, NL), false);
    ManagedIff(Split(once, NL), false);
    TrimManaged(Parse(content));
  }

  lemma {:induction false} RenderHolds(segs: seq<Seg>, block: seq<string>) returns (pre: seq<string>, post: seq<string>)
    requires Managed in segs
    ensures Render(segs, block) == pre + block + post
  {
    if segs[0] == Managed {
      pre, post := [], Render(segs[1..], block);
    } else {
      pre, post := RenderHolds(segs[1..], block);
      pre := [segs[0].line] + pre;
      assert Render(segs, block) == pre + block + post;
    }
  }

  lemma ReplaceHolds(content: string, block: seq<string>)
    requires BlockOk(block) && HasBegin(content)
    ensures Holds(ReplaceText(content, BlockText(block)), block)
  {
    var segs := Trim(Parse(content));
    ReplaceMeaning(content, block);
    ManagedIff(Split(content, NL), false);
    TrimManaged(Parse(content));
    ParseOk(content);
    TrimOk(Parse(content));
    RenderFree(segs, block);
    SplitLinesText(Render(segs, block));
    var pre, post := RenderHolds(segs, block);
    assert pre + block + post + [""] == pre + block + (post + [""]);
  }

  lemma HoldsExactlyHolds(content: string, block: seq<string>)
    requires HoldsExactly(content, block)
    ensures Holds(content, block)
  {
  }

  /* ---------- convergence ---------- */

  /** One sync of a file with a BEGIN marker settles it, block included. */
  lemma SyncWithBegin(content: string, block: seq<string>)
    requires BlockOk(block) && HasBegin(content)
    ensures var once := SyncText(content, BlockText(block));
      Holds(once, block) && SyncText(once, BlockText(block)) == once
  {
    var expected := BlockText(block);
    var once := SyncText(content, expected);
    NoOpIff(content, block);
    ReadEmptyIff(content);
    if once != content || ReadText(content) != expected {
      ReplaceTwice(content, block, block);
      ReplaceHolds(content, block);
      ReadEmptyIff(once);
    } else {
      HoldsExactlyHolds(content, block);
    }
  }

  lemma SyncWithoutMarkers(content: string, block: seq<string>)
    requires BlockOk(block) && Markerless(Split(content, NL))
    ensures var once := SyncText(content, BlockText(block));
      && once == AppendText(content, BlockText(block))
      && HoldsExactly(once, block) && SyncText(once, BlockText(block)) == once
  {
    ReadEmptyIff(content);
    AppendHolds(content, block);
    NoOpIff(AppendText(content, BlockText(block)), block);
    assert BlockText(block) != "";
  }

  /** With END markers but no BEGIN, the first sync only takes the END lines away. */
  lemma SyncStrayEnd(content: string, block: seq<string>)
    requires BlockOk(block) && HasEnd(content) && !HasBegin(content)
    ensures var once := SyncText(content, BlockText(block));
      && once == ReplaceText(content, BlockText(block))
      && Markerless(Split(once, NL))
  {
    var once := ReplaceText(content, BlockText(block));
    ReadEmptyIff(content);
    NoOpIff(content, block);
    if HoldsExactly(content, block) {
      HoldsExactlyHolds(content, block);
      HoldsHasBegin(content, block);
    }
    ReplaceWithoutBegin(content, block);
  }

  lemma ReplaceWithoutBegin(content: string, block: seq<string>)
    requires BlockOk(block) && !HasBegin(content)
    ensures Markerless(Split(ReplaceText(content, BlockText(block)), NL))
  {
    hide IsMarker, TrimSpace;
    ReplaceMeaning(content, block);
    ManagedIff(Split(content, NL), false);
    var segs := Trim(Parse(content));
    TrimManaged(Parse(content));
    ParseOk(content);
    TrimOk(Parse(content));
    RenderFree(segs, block);
    SplitLinesText(Render(segs, block));
    PlainRender(segs, block);
    MarkerFacts();
  }

  lemma {:induction false} PlainRender(segs: seq<Seg>, block: seq<string>)
    requires PlainOk(segs) && Managed !in segs
    ensures Markerless(Render(segs, block))
  {
    if segs != [] {
      assert segs[0] in segs;
      PlainRender(segs[1..], block);
    }
  }

  /** Whatever the file was: after two syncs it holds the block and a third changes nothing, and
      one sync is enough unless the file has an END marker but no BEGIN. */
  lemma SyncConverges(content: string, block: seq<string>)
    requires BlockOk(block)
    ensures var expected := BlockText(block);
      var once := SyncText(content, expected);
      var twice := SyncText(once, expected);
      && SyncText(twice, expected) == twice && Holds(twice, block)
      && (twice == once <==> !(HasEnd(content) && !HasBegin(content)))
  {
    var once := SyncText(content, BlockText(block));
    if HasBegin(content) {
      SyncWithBegin(content, block);
    } else if HasEnd(content) {
      SyncStrayEnd(content, block);
      SyncWithoutMarkers(once, block);
      var twice := SyncText(once, BlockText(block));
      HoldsExactlyHolds(twice, block);
      HoldsHasBegin(twice, block);
      ReadEmptyIff(once);
    } else {
      ReadEmptyIff(content);
      SyncWithoutMarkers(content, block);
      HoldsExactlyHolds(once, block);
    }
  }
}
