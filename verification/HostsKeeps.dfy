/** What syncs and removals keep, what a later one undoes of an earlier one, and which
    names the block lists. */
module HostsKeeps {
  import opened Text
  import opened Lines
  import opened Hosts
  import opened HostsProofs
  import opened HostsTheorems

  /* ---------- the lines outside blocks ---------- */

  lemma EolMore(ls: seq<string>)
    ensures Eol(Join(ls + [""], NL)) == Eol(Join(ls, NL))
  {
    if ls == [] {
      assert ls + [""] == [""];
    } else {
      JoinConcat(ls, [""], NL);
      assert Join(ls, NL) + [NL] + "" == Join(ls, NL) + [NL];
      TrimRightOne(Join(ls, NL), NL, EOL);
    }
  }

  lemma {:induction false} TrimOutside(segs: seq<Seg>)
    ensures Eol(Join(Render(Trim(segs), []), NL)) == Eol(Join(Render(segs, []), NL))
  {
    if segs != [] && segs[|segs| - 1] == Plain("") {
      var front := segs[..|segs| - 1];
      assert segs == front + [Plain("")];
      RenderConcat(front, [Plain("")], []);
      assert Render([Plain("")], []) == [""];
      EolMore(Render(front, []));
      TrimOutside(front);
    }
  }

  lemma ReplaceKeepsOutside(content: string, block: seq<string>)
    requires BlockOk(block)
    ensures Eol(Outside(ReplaceText(content, BlockText(block)))) == Eol(Outside(content))
  {
    var segs := Trim(Parse(content));
    ReplaceMeaning(content, block);
    RenderConcat(segs, [Plain("")], []);
    assert Render([Plain("")], []) == [""];
    EolMore(Render(segs, []));
    TrimOutside(Parse(content));
  }

  const TAIL: seq<Seg> := [Managed, Plain(""), Plain("")]

  lemma RenderTail(block: seq<string>)
    ensures Render(TAIL, block) == block + ["", ""]
  {
    assert TAIL[1..] == [Plain(""), Plain("")] && TAIL[1..][1..] == [Plain("")];
    assert Render([Plain("")], block) == [""];
    assert [""] + [""] == ["", ""];
  }

  lemma ParseAppended(content: string, block: seq<string>) returns (pre: seq<string>)
    requires BlockOk(block) && Markerless(Split(content, NL))
    ensures Parse(AppendText(content, BlockText(block))) == Plains(pre) + TAIL
    ensures Split(AppendText(content, BlockText(block)), NL) == pre + block + ["", ""]
    ensures pre == if Eol(content) == "" then [] else Split(Eol(content), NL)
  {
    hide IsMarker, IsBegin, IsEnd, TrimSpace, BlockOk, Segs, Split, AppendText, BlockText, Eol, Plains, ReadLines;
    pre := AppendMeaning(content, block);
    Associates(pre, block, ["", ""]);
    MarkerlessSegs(pre, block + ["", ""]);
    SegsBlock(block, ["", ""]);
    TwoEmpty();
    assert [Managed] + [Plain(""), Plain("")] == TAIL;
  }

  lemma RenderAppended(pre: seq<string>, block: seq<string>)
    ensures Render(Plains(pre) + TAIL, block) == pre + block + ["", ""]
  {
    RenderConcat(Plains(pre), TAIL, block);
    RenderPlains(pre, block);
    RenderTail(block);
    assert pre + (block + ["", ""]) == pre + block + ["", ""];
  }

  lemma JoinNone()
    ensures Join([], NL) == "" && Eol("") == ""
  {
  }

  lemma AppendKeepsOutside(content: string, block: seq<string>)
    requires BlockOk(block) && Markerless(Split(content, NL))
    ensures Eol(Outside(AppendText(content, BlockText(block)))) == Eol(content)
  {
    hide Split, Join, Render, Parse, TrimRight, AppendText, BlockText, BlockOk;
    var pre := ParseAppended(content, block);
    RenderAppended(pre, []);
    assert pre + [] + ["", ""] == (pre + [""]) + [""];
    JoinNone();
    EolMore(pre + [""]);
    EolMore(pre);
    if Eol(content) != "" { JoinSplit(Eol(content), NL); }
    TrimRightTwice(content, EOL);
  }

  lemma TwoEmpty()
    ensures Segs(["", ""], false) == [Plain(""), Plain("")]
  {
    MarkerFacts();
    SegsPlain("", [""]);
    SegsPlain("", []);
    assert [""] + [""] == ["", ""] && [""] + [] == [""];
  }

  /** A sync keeps every line outside managed blocks, in order. */
  lemma SyncKeepsOutside(content: string, block: seq<string>)
    requires BlockOk(block)
    ensures Eol(Outside(SyncText(content, BlockText(block)))) == Eol(Outside(content))
  {
    if ReadText(content) == "" {
      ReadEmptyIff(content);
      AppendKeepsOutside(content, block);
      MarkerlessParse(content);
    } else {
      ReplaceKeepsOutside(content, block);
    }
  }

  lemma EolEndOnce(s: string)
    ensures Eol(EndOnce(s)) == Eol(s)
  {
    var t := TrimRight(s, {NL});
    if t != "" { TrimRightOne(t, NL, EOL); }
    TrimRightAfter(s, {NL}, EOL);
  }

  /** A removal leaves exactly the lines outside managed blocks. */
  lemma RemoveLeavesOutside(content: string)
    ensures Eol(RemoveText(content)) == Eol(Outside(content))
  {
    ReadEmptyIff(content);
    if ReadText(content) == "" {
      MarkerlessParse(content);
    } else {
      RemoveIsRender(Split(content, NL), false);
      EolEndOnce(Outside(content));
    }
  }

  lemma {:induction false} PlainOutside(segs: seq<Seg>)
    requires PlainOk(segs)
    ensures Markerless(Render(segs, [])) && Free(Render(segs, []), NL)
  {
    if segs != [] { PlainOutside(segs[1..]); }
  }

  /** A removal leaves no marker, and removing again changes nothing. */
  lemma RemoveIsFinal(content: string)
    ensures Markerless(Split(RemoveText(content), NL))
    ensures RemoveText(RemoveText(content)) == RemoveText(content)
  {
    hide IsMarker, TrimSpace;
    ReadEmptyIff(content);
    if ReadText(content) != "" { RemovedLines(content); }
    ReadEmptyIff(RemoveText(content));
  }

  lemma RemovedLines(content: string)
    ensures Markerless(Split(ReplaceText(content, ""), NL))
  {
    hide IsMarker, TrimSpace;
    var ls := Render(Parse(content), []);
    ParseOk(content);
    PlainOutside(Parse(content));
    RemoveMeaning(content);
    DropEmptyEnd(ls);
    SplitLinesText(DropEmpty(ls));
    MarkerFacts();
  }

  /** Removing after a sync is removing, up to line ends at the end of the file. */
  lemma RemoveUndoesSync(content: string, block: seq<string>)
    requires BlockOk(block)
    ensures Eol(RemoveText(SyncText(content, BlockText(block)))) == Eol(RemoveText(content))
  {
    RemoveLeavesOutside(SyncText(content, BlockText(block)));
    SyncKeepsOutside(content, block);
    RemoveLeavesOutside(content);
  }

  /* ---------- a later sync overrides an earlier one ---------- */

  /** Replacing a block by itself only tidies the end of the file. */
  lemma ReplaceSame(content: string, block: seq<string>)
    requires BlockOk(block) && HoldsExactly(content, block)
    ensures Eol(ReplaceText(content, BlockText(block))) == Eol(content)
  {
    hide IsMarker;
    var pre, post :| Split(content, NL) == pre + block + post && Markerless(pre) && Markerless(post);
    assert pre + block + post == pre + (block + post);
    MarkerlessSegs(pre, block + post);
    SegsBlock(block, post);
    MarkerlessSegs(post, []);
    assert post + [] == post && Plains(post) + Segs([], false) == Plains(post);
    assert Parse(content) == Plains(pre) + ([Managed] + Plains(post));
    RenderConcat(Plains(pre), [Managed] + Plains(post), block);
    RenderConcat([Managed], Plains(post), block);
    RenderPlains(pre, block);
    RenderPlains(post, block);
    assert Render([Managed], block) == block;
    ReplaceIsRender(Split(content, NL), false, block);
    FlattenBlock(Parse(content), block);
    JoinSplit(content, NL);
    EolEndOnce(content);
  }

  /** Where there is a BEGIN marker, a sync is the replacement, up to the end of the file. */
  lemma SyncIsReplace(content: string, block: seq<string>)
    requires BlockOk(block) && HasBegin(content)
    ensures Eol(SyncText(content, BlockText(block))) == Eol(ReplaceText(content, BlockText(block)))
  {
    ReadEmptyIff(content);
    NoOpIff(content, block);
    if ReadText(content) == BlockText(block) { ReplaceSame(content, block); }
  }

  /** Replacing what an append put in is appending. */
  lemma ReplaceAppended(content: string, b1: seq<string>, b2: seq<string>)
    requires BlockOk(b1) && BlockOk(b2) && Markerless(Split(content, NL))
    ensures Eol(ReplaceText(AppendText(content, BlockText(b1)), BlockText(b2)))
         == Eol(AppendText(content, BlockText(b2)))
  {
    hide IsMarker, IsBegin, IsEnd, TrimSpace, BlockOk;
    var a1, a2 := AppendText(content, BlockText(b1)), AppendText(content, BlockText(b2));
    var pre := ParseAppended(content, b1);
    var pre' := ParseAppended(content, b2);
    ReplaceIsRender(Split(a1, NL), false, b2);
    assert b2 != [] by { BlockFull(b2); }
    FlattenBlock(Plains(pre) + TAIL, b2);
    RenderAppended(pre, b2);
    JoinSplit(a2, NL);
    EolEndOnce(a2);
    assert BlockText(b2) != "";
  }

  lemma BlockFull(block: seq<string>)
    requires BlockOk(block)
    ensures block != []
  {
  }

  lemma EolSyncAppended(content: string, b1: seq<string>, b2: seq<string>)
    requires BlockOk(b1) && BlockOk(b2) && Markerless(Split(content, NL))
    ensures Eol(SyncText(AppendText(content, BlockText(b1)), BlockText(b2))) == Eol(AppendText(content, BlockText(b2)))
  {
    var a1 := AppendText(content, BlockText(b1));
    AppendHolds(content, b1);
    HoldsExactlyHolds(a1, b1);
    HoldsHasBegin(a1, b1);
    SyncIsReplace(a1, b2);
    ReplaceAppended(content, b1, b2);
  }

  lemma SyncAfterReplace(content: string, b1: seq<string>, b2: seq<string>)
    requires BlockOk(b1) && BlockOk(b2) && HasBegin(content)
    ensures Eol(SyncText(SyncText(content, BlockText(b1)), BlockText(b2))) == Eol(SyncText(content, BlockText(b2)))
  {
    var once := SyncText(content, BlockText(b1));
    ReadEmptyIff(content);
    if once != content {
      ReplaceTwice(content, b1, b2);
      SyncIsReplace(once, b2);
      SyncIsReplace(content, b2);
    }
  }

  /** With END but no BEGIN the second of two syncs adds the block that one sync does not. */
  lemma StrayEndDiffers(content: string, b1: seq<string>, b2: seq<string>)
    requires BlockOk(b1) && BlockOk(b2) && HasEnd(content) && !HasBegin(content)
    ensures Eol(SyncText(SyncText(content, BlockText(b1)), BlockText(b2))) != Eol(SyncText(content, BlockText(b2)))
  {
    SyncStrayEnd(content, b1);
    SyncStrayEnd(content, b2);
    var one, two := SyncText(content, BlockText(b1)), SyncText(content, BlockText(b2));
    PlainReplace(content, b1, b2);
    assert one == two;
    SyncWithoutMarkers(one, b2);
    AppendLonger(one, b2);
  }

  lemma PlainReplace(content: string, b1: seq<string>, b2: seq<string>)
    requires BlockOk(b1) && BlockOk(b2) && !HasBegin(content)
    ensures ReplaceText(content, BlockText(b1)) == ReplaceText(content, BlockText(b2))
  {
    ReplaceMeaning(content, b1);
    ReplaceMeaning(content, b2);
    ManagedIff(Split(content, NL), false);
    TrimManaged(Parse(content));
    SameWithoutBlocks(Trim(Parse(content)), b1, b2);
  }

  lemma {:induction false} SameWithoutBlocks(segs: seq<Seg>, b1: seq<string>, b2: seq<string>)
    requires Managed !in segs
    ensures Render(segs, b1) == Render(segs, b2)
  {
    if segs != [] {
      assert segs[0] in segs;
      SameWithoutBlocks(segs[1..], b1, b2);
    }
  }

  lemma AppendLonger(content: string, block: seq<string>)
    requires BlockOk(block)
    ensures |Eol(AppendText(content, BlockText(block)))| > |Eol(content)|
  {
    var t, j := Eol(content), Join(block, NL);
    MarkerFacts();
    JoinEnd(block);
    assert j[|j| - 1] == 'D';
    var body := if t == "" then j else t + [NL] + j;
    assert AppendText(content, BlockText(block)) == body + [NL] + [NL];
    TrimRightOne(body + [NL], NL, EOL);
    TrimRightOne(body, NL, EOL);
    if t == "" { TrimRightKeeps("", j, EOL); } else { TrimRightKeeps(t + [NL], j, EOL); }
    assert "" + j == j;
  }

  /** A sync for other names after a sync for some is the sync for the other names alone, up to the
      end of the file, if and only if the file is not one with an END marker but no BEGIN. */
  lemma LaterSyncWins(content: string, b1: seq<string>, b2: seq<string>)
    requires BlockOk(b1) && BlockOk(b2)
    ensures Eol(SyncText(SyncText(content, BlockText(b1)), BlockText(b2))) == Eol(SyncText(content, BlockText(b2)))
       <==> !(HasEnd(content) && !HasBegin(content))
  {
    ReadEmptyIff(content);
    if HasBegin(content) {
      SyncAfterReplace(content, b1, b2);
    } else if HasEnd(content) {
      StrayEndDiffers(content, b1, b2);
    } else {
      SyncWithoutMarkers(content, b1);
      SyncWithoutMarkers(content, b2);
      EolSyncAppended(content, b1, b2);
    }
  }

  /* ---------- the block of the builder ---------- */

  ghost predicate NewlineFree(tld: string, domains: seq<string>) {
    NL !in tld && forall i :: 0 <= i < |domains| ==> NL !in domains[i]
  }

  lemma {:induction false} WithoutFacts(names: seq<string>, name: string)
    ensures forall x :: x in Without(names, name) <==> x in names && x != name
    ensures NoDup(names) ==> NoDup(Without(names, name))
  {
    if names != [] {
      WithoutFacts(names[1..], name);
      assert forall x :: x in names <==> x == names[0] || x in names[1..];
      if NoDup(names) && names[0] != name {
        NoDupCons(names[0], names[1..], name);
      }
    }
  }

  lemma NoDupCons(x: string, rest: seq<string>, name: string)
    requires NoDup([x] + rest) && NoDup(Without(rest, name))
    requires forall y :: y in Without(rest, name) <==> y in rest && y != name
    ensures NoDup([x] + Without(rest, name))
  {
    var w := Without(rest, name);
    forall k | 0 <= k < |rest| ensures rest[k] != x {
      assert ([x] + rest)[0] == x && ([x] + rest)[k + 1] == rest[k];
    }
    assert x !in w;
  }

  lemma SortNoDup(s: seq<string>)
    requires NoDup(s)
    ensures NoDup(Sort(s)) && forall x :: x in Sort(s) <==> x in s
  {
    SortSorts(s);
    var all := set x | x in s;
    ListsMultiset(s, all);
    MultisetNoDup(Sort(s), all);
  }

  lemma SortIn(s: seq<string>)
    ensures forall x :: x in Sort(s) <==> x in s
  {
    SortSorts(s);
    forall x ensures x in Sort(s) <==> x in s {
      assert x in Sort(s) <==> x in multiset(Sort(s));
      assert x in s <==> x in multiset(s);
    }
  }

  lemma NoDupConcat(a: seq<string>, b: seq<string>)
    requires NoDup(a) && NoDup(b) && forall x :: x in a ==> x !in b
    ensures NoDup(a + b)
  {
    forall i, j | 0 <= i < j < |a + b| ensures (a + b)[i] != (a + b)[j] {
      if i < |a| <= j { assert a[i] in a && b[j - |a|] in b; }
    }
  }

  /** The block lists the TLD, its localhost alias and every domain, and nothing else; each once if no
      domain is repeated. */
  lemma BlockNamesExactly(tld: string, domains: seq<string>)
    ensures forall x :: x in BlockNames(tld, domains) <==> x == tld || x == TldLocalhost(tld) || x in domains
    ensures NoDup(domains) ==> NoDup(BlockNames(tld, domains))
  {
    hide Sort, Without, TldLocalhost;
    SortIn(domains);
    WithoutFacts(Sort(domains), tld);
    var alias, w := TldLocalhost(tld), Without(Sort(domains), tld);
    var head := [tld] + if alias != tld && alias !in Sort(domains) then [alias] else [];
    assert BlockNames(tld, domains) == head + w;
    if NoDup(domains) {
      SortNoDup(domains);
      NoDupConcat(head, w);
    }
  }

  lemma EntryNoMarker(name: string)
    ensures !IsMarker(EntryLine(name))
  {
    var line := EntryLine(name);
    assert line[0] == '1' && TrimLeftSpace(line) == line;
    TrimRightSpaceHead(line);
    assert BEGIN[0] == '#' && END[0] == '#';
  }

  lemma NoticeNoMarker()
    ensures !IsMarker(NOTICE) && NL !in NOTICE && NL !in BEGIN && NL !in END
  {
    hide TrimSpace;
    NoticeTrimmed();
    assert NOTICE[2] == 'M' && BEGIN[2] == 'd' && END[2] == 'd';
  }

  lemma NoticeTrimmed()
    ensures TrimSpace(NOTICE) == NOTICE
  {
    TrimNothing(NOTICE);
  }

  lemma TrimNothing(s: string)
    requires s != [] && !IsSpace(s[0]) && !IsSpace(s[|s| - 1])
    ensures TrimSpace(s) == s
  {
  }

  lemma LocalhostNewlineFree(tld: string)
    requires NL !in tld
    ensures NL !in TldLocalhost(tld)
  {
    SplitSub(tld, '.');
  }

  lemma {:induction false} SplitSub(s: string, sep: char)
    ensures forall c :: c in Split(s, sep)[0] ==> c in s
  {
    if s != [] { SplitSub(s[1..], sep); }
  }

  /** For names without newlines the built block is a proper one. */
  lemma BuiltBlockOk(tld: string, domains: seq<string>)
    requires NewlineFree(tld, domains)
    ensures BlockOk(BlockLines(tld, domains))
  {
    hide TrimSpace, Sort, TldLocalhost, Without;
    var names := BlockNames(tld, domains);
    var block := BlockLines(tld, domains);
    NoticeNoMarker();
    BlockNamesExactly(tld, domains);
    LocalhostNewlineFree(tld);
    forall i | 0 <= i < |names| ensures !IsMarker(EntryLine(names[i])) && NL !in EntryLine(names[i]) {
      assert names[i] in names;
      EntryNoMarker(names[i]);
    }
    LinesOk(names);
  }

  lemma LinesOk(names: seq<string>)
    requires forall i :: 0 <= i < |names| ==> !IsMarker(EntryLine(names[i])) && NL !in EntryLine(names[i])
    ensures BlockOk([BEGIN, NOTICE] + EntryLines(names) + [END])
  {
    hide IsMarker, EntryLine;
    var block := [BEGIN, NOTICE] + EntryLines(names) + [END];
    NoticeNoMarker();
    forall i | 2 <= i < |block| - 1 ensures block[i] == EntryLine(names[i - 2]) {}
    assert block[1] == NOTICE;
  }

  lemma Listed(tld: string, domains: seq<string>, name: string)
    requires name in BlockNames(tld, domains)
    ensures EntryLine(name) in BlockLines(tld, domains)
  {
    hide BlockNames;
    var names, block := BlockNames(tld, domains), BlockLines(tld, domains);
    var i :| 0 <= i < |names| && names[i] == name;
    assert block[i + 2] == EntryLine(name);
  }
}
