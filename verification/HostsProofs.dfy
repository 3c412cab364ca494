/** Syncing and removing on arbitrary file content: lines outside blocks survive, and syncs settle. */
module HostsProofs {
  import opened Text
  import opened Lines
  import opened Hosts

  /* ---------- content as a sequence of plain lines and blocks ---------- */

  /** What a scan makes of a file: a line outside blocks, or the place of a BEGIN. */
  datatype Seg = Plain(line: string) | Managed

  function Segs(lines: seq<string>, inBlock: bool): seq<Seg> {
    if lines == [] then [] else FirstSeg(lines[0], inBlock) + Segs(lines[1..], Inside(lines[0], inBlock))
  }

  function FirstSeg(line: string, inBlock: bool): seq<Seg> {
    if IsBegin(line) then [Managed] else if IsEnd(line) || inBlock then [] else [Plain(line)]
  }

  function Parse(content: string): seq<Seg> {
    Segs(Split(content, NL), false)
  }

  function Render(segs: seq<Seg>, block: seq<string>): seq<string> {
    if segs == [] then []
    else (if segs[0].Plain? then [segs[0].line] else block) + Render(segs[1..], block)
  }

  /** A block as the builder makes it: markers around lines that are no markers, no newline inside a line. */
  ghost predicate BlockOk(block: seq<string>) {
    && |block| >= 2 && block[0] == BEGIN && block[|block| - 1] == END
    && Free(block, NL)
    && forall i :: 0 < i < |block| - 1 ==> !IsMarker(block[i])
  }

  ghost predicate PlainOk(segs: seq<Seg>) {
    forall i :: 0 <= i < |segs| && segs[i].Plain? ==> !IsMarker(segs[i].line) && NL !in segs[i].line
  }

  lemma {:induction false} RenderConcat(a: seq<Seg>, b: seq<Seg>, block: seq<string>)
    ensures Render(a + b, block) == Render(a, block) + Render(b, block)
  {
    if a == [] {
      assert a + b == b;
    } else {
      assert (a + b)[1..] == a[1..] + b;
      RenderConcat(a[1..], b, block);
    }
  }

  lemma {:induction false} SegsOk(lines: seq<string>, inBlock: bool)
    requires Free(lines, NL)
    ensures PlainOk(Segs(lines, inBlock))
  {
    if lines != [] { SegsOk(lines[1..], Inside(lines[0], inBlock)); }
  }

  lemma MarkerFacts()
    ensures IsBegin(BEGIN) && IsEnd(END) && !IsEnd(BEGIN) && !IsBegin(END) && !IsMarker("")
    ensures BEGIN != "" && END != ""
  {
  }

  lemma {:induction false} SegsInner(inner: seq<string>, rest: seq<string>)
    requires forall i :: 0 <= i < |inner| ==> !IsMarker(inner[i])
    ensures Segs(inner + rest, true) == Segs(rest, true)
    ensures ReadLines(inner + rest, true) == inner + ReadLines(rest, true)
  {
    hide Segs, ReadLines, IsBegin, IsEnd;
    if inner == [] {
      NothingAdded(rest);
      NothingAdded(ReadLines(rest, true));
    } else {
      Rejoined(inner);
      Associates([inner[0]], inner[1..], rest);
      SegsOne(inner[0], inner[1..] + rest, true);
      SegsInner(inner[1..], rest);
      NothingAdded(Segs(rest, true));
      Associates([inner[0]], inner[1..], ReadLines(rest, true));
    }
  }

  lemma SegsOne(line: string, rest: seq<string>, inBlock: bool)
    ensures Segs([line] + rest, inBlock) == FirstSeg(line, inBlock) + Segs(rest, Inside(line, inBlock))
    ensures ReadLines([line] + rest, inBlock) == Taken(line, inBlock) + ReadLines(rest, Inside(line, inBlock))
  {
    HeadTail(line, rest);
  }

  lemma BlockParts(block: seq<string>) returns (inner: seq<string>)
    requires BlockOk(block)
    ensures block == [BEGIN] + (inner + [END]) && forall i :: 0 <= i < |inner| ==> !IsMarker(inner[i])
  {
    hide IsMarker;
    inner := block[1..|block| - 1];
  }

  /** A whole block scans as one block, wherever it stands. */
  lemma SegsBlock(block: seq<string>, rest: seq<string>)
    requires BlockOk(block)
    ensures Segs(block + rest, false) == [Managed] + Segs(rest, false)
    ensures ReadLines(block + rest, false) == block + ReadLines(rest, false)
  {
    hide Segs, ReadLines, BlockOk, TrimSpace;
    MarkerFacts();
    var inner := BlockParts(block);
    Associates([BEGIN], inner + [END], rest);
    Associates(inner, [END], rest);
    SegsOne(BEGIN, inner + ([END] + rest), false);
    SegsInner(inner, [END] + rest);
    SegsOne(END, rest, true);
    NothingAdded(Segs(rest, false));
    Associates([BEGIN], inner + [END], ReadLines(rest, false));
    Associates(inner, [END], ReadLines(rest, false));
  }

  lemma SegsPlain(line: string, rest: seq<string>)
    requires !IsMarker(line)
    ensures Segs([line] + rest, false) == [Plain(line)] + Segs(rest, false)
  {
    assert ([line] + rest)[1..] == rest;
  }

  /** Scanning what was rendered gives back the same segments. */
  lemma {:induction false} SegsRender(segs: seq<Seg>, block: seq<string>, rest: seq<string>)
    requires BlockOk(block) && PlainOk(segs)
    ensures Segs(Render(segs, block) + rest, false) == segs + Segs(rest, false)
  {
    hide IsMarker, Segs, BlockOk, ReadLines;
    if segs == [] {
      NothingAdded(rest);
      NothingAdded(Segs(rest, false));
    } else {
      var one := if segs[0].Plain? then [segs[0].line] else block;
      var tail := Render(segs[1..], block) + rest;
      SegsRender(segs[1..], block, rest);
      Associates(one, Render(segs[1..], block), rest);
      if segs[0].Plain? { SegsPlain(segs[0].line, tail); } else { SegsBlock(block, tail); }
      Rejoined(segs);
      Associates([segs[0]], segs[1..], Segs(rest, false));
    }
  }

  /* ---------- the text operations in terms of segments ---------- */

  /** Drops empty plain lines from the end. */
  function Trim(segs: seq<Seg>): seq<Seg> {
    if segs != [] && segs[|segs| - 1] == Plain("") then Trim(segs[..|segs| - 1]) else segs
  }

  function DropEmpty(ls: seq<string>): seq<string> {
    if ls != [] && ls[|ls| - 1] == "" then DropEmpty(ls[..|ls| - 1]) else ls
  }

  function LinesText(ls: seq<string>): string {
    if ls == [] then "" else Join(ls, NL) + [NL]
  }

  lemma {:induction false} TrimJoin(ls: seq<string>)
    requires Free(ls, NL)
    ensures TrimRight(Join(ls, NL), {NL}) == Join(DropEmpty(ls), NL)
  {
    if ls == [] {
    } else if ls[|ls| - 1] == "" {
      var front := ls[..|ls| - 1];
      TrimJoin(front);
      if front != [] {
        assert ls == front + [""];
        JoinConcat(front, [""], NL);
        assert Join(front, NL) + [NL] + "" == Join(front, NL) + [NL];
        TrimRightOne(Join(front, NL), NL, {NL});
      }
    } else {
      JoinEnd(ls);
      var t := Join(ls, NL);
      assert t[|t| - 1] in ls[|ls| - 1];
    }
  }

  lemma {:induction false} JoinEnd(ls: seq<string>)
    requires ls != [] && ls[|ls| - 1] != ""
    ensures var t := Join(ls, NL); var last := ls[|ls| - 1];
      t != [] && t[|t| - 1] == last[|last| - 1]
  {
    if |ls| > 1 { JoinEnd(ls[1..]); }
  }

  lemma {:induction false} DropEmptyEnd(ls: seq<string>)
    ensures var d := DropEmpty(ls); d == [] || d[|d| - 1] != ""
    ensures |DropEmpty(ls)| <= |ls| && DropEmpty(ls) == ls[..|DropEmpty(ls)|]
  {
    if ls != [] && ls[|ls| - 1] == "" { DropEmptyEnd(ls[..|ls| - 1]); }
  }

  /** Joining, trimming and ending once is: drop the empty lines at the end, and write the rest as lines. */
  lemma EndOnceJoin(ls: seq<string>)
    requires Free(ls, NL)
    ensures EndOnce(Join(ls, NL)) == LinesText(DropEmpty(ls))
  {
    TrimJoin(ls);
    DropEmptyEnd(ls);
    if DropEmpty(ls) != [] { JoinEnd(DropEmpty(ls)); }
  }

  lemma SplitLinesText(ls: seq<string>)
    requires Free(ls, NL)
    ensures Split(LinesText(ls), NL) == ls + [""]
  {
    if ls != [] {
      SplitJoin(ls, NL);
      SplitConcat(Join(ls, NL), "", NL);
      assert Join(ls, NL) + [NL] + "" == LinesText(ls);
    }
  }

  lemma {:induction false} RenderFree(segs: seq<Seg>, block: seq<string>)
    requires PlainOk(segs) && Free(block, NL)
    ensures Free(Render(segs, block), NL)
  {
    if segs != [] { RenderFree(segs[1..], block); }
  }

  lemma {:induction false} TrimOk(segs: seq<Seg>)
    requires PlainOk(segs)
    ensures PlainOk(Trim(segs))
    ensures var t := Trim(segs); t == [] || t[|t| - 1] != Plain("")
  {
    if segs != [] && segs[|segs| - 1] == Plain("") { TrimOk(segs[..|segs| - 1]); }
  }

  lemma {:induction false} TrimRender(segs: seq<Seg>, block: seq<string>)
    requires BlockOk(block)
    ensures DropEmpty(Render(segs, block)) == Render(Trim(segs), block)
  {
    hide Render, BlockOk;
    if segs == [] {
      RenderNone(block);
    } else {
      var n := |segs| - 1;
      RenderLast(segs, block);
      var front := Render(segs[..n], block);
      if segs[n] == Plain("") {
        TrimRender(segs[..n], block);
        assert (front + [""])[..|front|] == front;
      } else {
        EndsFull(segs, block);
      }
    }
  }

  lemma RenderNone(block: seq<string>)
    ensures Render([], block) == []
  {
  }

  lemma RenderLast(segs: seq<Seg>, block: seq<string>)
    requires segs != []
    ensures var n := |segs| - 1;
      Render(segs, block) == Render(segs[..n], block) + if segs[n].Plain? then [segs[n].line] else block
  {
    var n := |segs| - 1;
    assert segs == segs[..n] + [segs[n]];
    RenderConcat(segs[..n], [segs[n]], block);
    assert [segs[n]][1..] == [];
  }

  lemma EndsFull(segs: seq<Seg>, block: seq<string>)
    requires BlockOk(block) && segs != [] && segs[|segs| - 1] != Plain("")
    ensures var r := Render(segs, block); r != [] && r[|r| - 1] != ""
  {
    hide Render, IsMarker;
    MarkerFacts();
    RenderLast(segs, block);
  }

  /** The replacing scan renders the segments. Its block arrives as one text. */
  lemma {:induction false} ReplaceIsRender(lines: seq<string>, inBlock: bool, block: seq<string>)
    requires BlockOk(block)
    ensures ReplaceLines(lines, inBlock, BlockText(block)) == Render(Segs(lines, inBlock), [Join(block, NL)])
  {
    if lines != [] {
      ReplaceIsRender(lines[1..], Inside(lines[0], inBlock), block);
      MarkerFacts();
      JoinEnd(block);
      TrimRightOne(Join(block, NL), NL, {NL});
      RenderConcat(FirstSeg(lines[0], inBlock), Segs(lines[1..], Inside(lines[0], inBlock)), [Join(block, NL)]);
    }
  }

  lemma {:induction false} FlattenBlock(segs: seq<Seg>, block: seq<string>)
    requires block != []
    ensures Join(Render(segs, [Join(block, NL)]), NL) == Join(Render(segs, block), NL)
    ensures Render(segs, block) == [] <==> segs == []
    ensures Render(segs, [Join(block, NL)]) == [] <==> segs == []
  {
    if segs != [] {
      FlattenBlock(segs[1..], block);
      if segs[1..] == [] {
        assert Render(segs[1..], block) == [] && Render(segs[1..], [Join(block, NL)]) == [];
        assert Render(segs, block) == if segs[0].Plain? then [segs[0].line] else block;
        assert Render(segs, [Join(block, NL)]) == if segs[0].Plain? then [segs[0].line] else [Join(block, NL)];
      } else {
        var one := if segs[0].Plain? then [segs[0].line] else block;
        var flat := if segs[0].Plain? then [segs[0].line] else [Join(block, NL)];
        JoinConcat(one, Render(segs[1..], block), NL);
        JoinConcat(flat, Render(segs[1..], [Join(block, NL)]), NL);
      }
    }
  }

  lemma {:induction false} RemoveIsRender(lines: seq<string>, inBlock: bool)
    ensures ReplaceLines(lines, inBlock, "") == Render(Segs(lines, inBlock), [])
  {
    if lines != [] {
      RemoveIsRender(lines[1..], Inside(lines[0], inBlock));
      RenderConcat(FirstSeg(lines[0], inBlock), Segs(lines[1..], Inside(lines[0], inBlock)), []);
    }
  }

  lemma ParseOk(content: string)
    ensures PlainOk(Parse(content))
  {
    SplitFree(content, NL);
    SegsOk(Split(content, NL), false);
  }

  /** Replacing: the segments without trailing empty lines, with the new block in the blocks' places. */
  lemma ReplaceMeaning(content: string, block: seq<string>)
    requires BlockOk(block)
    ensures var segs := Trim(Parse(content));
      && ReplaceText(content, BlockText(block)) == LinesText(Render(segs, block))
      && Parse(ReplaceText(content, BlockText(block))) == segs + [Plain("")]
  {
    var segs := Parse(content);
    ParseOk(content);
    ReplaceIsRender(Split(content, NL), false, block);
    FlattenBlock(segs, block);
    RenderFree(segs, block);
    EndOnceJoin(Render(segs, block));
    TrimRender(segs, block);
    TrimOk(segs);
    RenderFree(Trim(segs), block);
    SplitLinesText(Render(Trim(segs), block));
    SegsRender(Trim(segs), block, [""]);
    MarkerFacts();
    assert Segs([""], false) == [Plain("")] by { assert [""][1..] == []; }
  }

  lemma RemoveMeaning(content: string)
    ensures ReplaceText(content, "") == LinesText(DropEmpty(Render(Parse(content), [])))
  {
    ParseOk(content);
    RemoveIsRender(Split(content, NL), false);
    RenderFree(Parse(content), []);
    EndOnceJoin(Render(Parse(content), []));
  }
}
