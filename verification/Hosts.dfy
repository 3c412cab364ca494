/** The managed block in the hosts file: building it, reading it back, replacing it. */
module Hosts {
  import opened Text
  import opened Lines

  const BEGIN := "# dev-local:BEGIN"
  const END := "# dev-local:END"
  const NOTICE := "# Managed by caddy-dev-local \U{2014} do not edit."

  predicate IsBegin(line: string) { TrimSpace(line) == BEGIN }
  predicate IsEnd(line: string) { TrimSpace(line) == END }
  predicate IsMarker(line: string) { IsBegin(line) || IsEnd(line) }

  /* ---------- the expected block ---------- */

  const LOCALHOST := "localhost"
  const LOCALHOST_SUFFIX := ".localhost"

  /** The .localhost alias of a TLD: dev.local gives dev.localhost. */
  function TldLocalhost(tld: string): string {
    if ToLower(tld) == LOCALHOST || HasSuffix(ToLower(tld), LOCALHOST_SUFFIX) then tld
    else Split(tld, '.')[0] + LOCALHOST_SUFFIX
  }

  function Without(names: seq<string>, name: string): seq<string> {
    if names == [] then []
    else if names[0] == name then Without(names[1..], name)
    else [names[0]] + Without(names[1..], name)
  }

  /** The names listed in the block, in order. */
  function BlockNames(tld: string, domains: seq<string>): seq<string> {
    var alias := TldLocalhost(tld);
    [tld]
    + (if alias != tld && alias !in Sort(domains) then [alias] else [])
    + Without(Sort(domains), tld)
  }

  function EntryLine(name: string): string {
    "127.0.0.1    " + name
  }

  function EntryLines(names: seq<string>): (r: seq<string>)
    ensures |r| == |names| && forall i :: 0 <= i < |r| ==> r[i] == EntryLine(names[i])
  {
    seq(|names|, i requires 0 <= i < |names| => EntryLine(names[i]))
  }

  function BlockLines(tld: string, domains: seq<string>): seq<string> {
    [BEGIN, NOTICE] + EntryLines(BlockNames(tld, domains)) + [END]
  }

  /** A block as text: each line ended by a newline. */
  function BlockText(block: seq<string>): string {
    Join(block, NL) + [NL]
  }

  /* ---------- scanning ---------- */

  /** Whether the line after `line` is inside a block. */
  predicate Inside(line: string, inBlock: bool) {
    IsBegin(line) || (inBlock && !IsEnd(line))
  }

  function Taken(line: string, inBlock: bool): seq<string> {
    if IsMarker(line) || inBlock then [line] else []
  }

  /** The lines of all managed blocks, markers included, stray ones too. */
  function ReadLines(lines: seq<string>, inBlock: bool): seq<string> {
    if lines == [] then []
    else Taken(lines[0], inBlock) + ReadLines(lines[1..], Inside(lines[0], inBlock))
  }

  function ReadText(content: string): string {
    var block := ReadLines(Split(content, NL), false);
    if block == [] then "" else BlockText(block)
  }

  function Emitted(line: string, inBlock: bool, text: string): seq<string> {
    if IsBegin(line) then (if text != "" then [TrimRight(text, {NL})] else [])
    else if IsEnd(line) || inBlock then []
    else [line]
  }

  /** The lines outside, with `text` (if not empty) once for every BEGIN line. */
  function ReplaceLines(lines: seq<string>, inBlock: bool, text: string): seq<string> {
    if lines == [] then []
    else Emitted(lines[0], inBlock, text) + ReplaceLines(lines[1..], Inside(lines[0], inBlock), text)
  }

  function EndOnce(s: string): string {
    var t := TrimRight(s, {NL});
    if t != "" then t + [NL] else t
  }

  function ReplaceText(content: string, text: string): string {
    EndOnce(Join(ReplaceLines(Split(content, NL), false, text), NL))
  }

  const EOL: set<char> := {'\n', '\r'}

  function AppendText(content: string, expected: string): string {
    var trimmed := TrimRight(content, EOL);
    if trimmed != "" then trimmed + [NL] + expected + [NL] else expected + [NL]
  }

  function SyncText(content: string, expected: string): string {
    var existing := ReadText(content);
    if expected == existing then content
    else if existing != "" then ReplaceText(content, expected)
    else AppendText(content, expected)
  }

  function RemoveText(content: string): string {
    if ReadText(content) == "" then content else ReplaceText(content, "")
  }

  /* ---------- the scanners and the file ---------- */

  method BuildBlock(tld: string, domains: seq<string>) returns (block: string)
    ensures block == BlockText(BlockLines(tld, domains))
  {
    hide Sort, TldLocalhost;
    var sorted := Sort(domains);
    block := BEGIN + [NL];
    block := block + NOTICE + [NL];
    block := block + EntryLine(tld) + [NL];
    ghost var listed := [tld];
    assert block == BlockText([BEGIN, NOTICE] + EntryLines(listed)) by {
      TextOneMore([BEGIN], NOTICE);
      TextOneMore([BEGIN, NOTICE], EntryLine(tld));
      assert [BEGIN] + [NOTICE] == [BEGIN, NOTICE];
      assert EntryLines(listed) == [EntryLine(tld)];
    }
    var alias := TldLocalhost(tld);
    if alias != tld && alias !in sorted {
      block := block + EntryLine(alias) + [NL];
      OneMore(listed, alias);
      listed := listed + [alias];
    }
    ghost var fixed := listed;
    for i := 0 to |sorted|
      invariant listed != [] && listed + Without(sorted[i..], tld) == fixed + Without(sorted, tld)
      invariant block == BlockText([BEGIN, NOTICE] + EntryLines(listed))
    {
      assert sorted[i..][1..] == sorted[i + 1..];
      if sorted[i] == tld { continue; }
      block := block + EntryLine(sorted[i]) + [NL];
      OneMore(listed, sorted[i]);
      listed := listed + [sorted[i]];
    }
    assert sorted[|sorted|..] == [];
    assert fixed == [tld] + (if alias != tld && alias !in sorted then [alias] else []);
    assert listed == BlockNames(tld, domains);
    block := block + END;
    block := block + [NL];
    TextOneMore([BEGIN, NOTICE] + EntryLines(listed), END);
  }

  lemma TextOneMore(lines: seq<string>, line: string)
    requires lines != []
    ensures BlockText(lines + [line]) == BlockText(lines) + line + [NL]
  {
    JoinConcat(lines, [line], NL);
  }

  lemma OneMore(names: seq<string>, name: string)
    ensures BlockText([BEGIN, NOTICE] + EntryLines(names + [name]))
         == BlockText([BEGIN, NOTICE] + EntryLines(names)) + EntryLine(name) + [NL]
  {
    TextOneMore([BEGIN, NOTICE] + EntryLines(names), EntryLine(name));
    assert [BEGIN, NOTICE] + EntryLines(names + [name]) == [BEGIN, NOTICE] + EntryLines(names) + [EntryLine(name)];
  }

  lemma EndIsNotBegin(line: string)
    requires IsEnd(line)
    ensures !IsBegin(line)
  {
    assert BEGIN[12] != END[12];
  }

  lemma ReadOn(block: seq<string>, lines: seq<string>, i: nat, inBlock: bool)
    requires i < |lines|
    ensures block + ReadLines(lines[i..], inBlock)
         == block + Taken(lines[i], inBlock) + ReadLines(lines[i + 1..], Inside(lines[i], inBlock))
  {
    assert lines[i..][1..] == lines[i + 1..];
  }

  method ReadBlock(content: string) returns (text: string)
    ensures text == ReadText(content)
  {
    hide TrimSpace;
    var lines := Split(content, NL);
    var block, inBlock := [], false;
    for i := 0 to |lines|
      invariant block + ReadLines(lines[i..], inBlock) == ReadLines(lines, false)
    {
      var line := lines[i];
      ReadOn(block, lines, i, inBlock);
      if IsBegin(line) {
        inBlock, block := true, block + [line];
        continue;
      }
      if IsEnd(line) {
        EndIsNotBegin(line);
        inBlock, block := false, block + [line];
        continue;
      }
      if inBlock { block := block + [line]; }
    }
    assert block + ReadLines([], inBlock) == block;
    text := if |block| == 0 then "" else Join(block, NL) + [NL];
  }

  lemma ReplaceOn(result: seq<string>, lines: seq<string>, i: nat, inBlock: bool, text: string)
    requires i < |lines|
    ensures result + ReplaceLines(lines[i..], inBlock, text)
         == result + Emitted(lines[i], inBlock, text) + ReplaceLines(lines[i + 1..], Inside(lines[i], inBlock), text)
  {
    assert lines[i..][1..] == lines[i + 1..];
  }

  lemma ReplaceEnds(result: seq<string>, lines: seq<string>, inBlock: bool, text: string)
    ensures result + ReplaceLines(lines[|lines|..], inBlock, text) == result
  {
  }

  method ReplaceBlock(content: string, newBlock: string) returns (output: string)
    ensures output == ReplaceText(content, newBlock)
  {
    hide TrimSpace, ReplaceLines;
    var lines := Split(content, NL);
    var result, inBlock := [], false;
    for i := 0 to |lines|
      invariant result + ReplaceLines(lines[i..], inBlock, newBlock) == ReplaceLines(lines, false, newBlock)
    {
      var line := lines[i];
      ReplaceOn(result, lines, i, inBlock, newBlock);
      if IsBegin(line) {
        inBlock := true;
        if newBlock != "" { result := result + [TrimRight(newBlock, {NL})]; }
        continue;
      }
      if IsEnd(line) {
        EndIsNotBegin(line);
        inBlock := false;
        continue;
      }
      if !inBlock { result := result + [line]; }
    }
    ReplaceEnds(result, lines, inBlock, newBlock);
    output := TrimRight(Join(result, NL), {NL});
    if output != "" { output := output + [NL]; }
  }

  datatype File = Missing | Unreadable | Readable(content: string)

  function ContentOf(f: File): string {
    if f.Readable? then f.content else ""
  }

  /** What a sync makes of the file, if it can be read and written. */
  function SyncedFile(f: File, writable: bool, expected: string): File {
    if f.Unreadable? || !writable then f else Readable(SyncText(ContentOf(f), expected))
  }

  class HostsFile {
    var file: File
    var writable: bool

    constructor (file: File, writable: bool)
      ensures this.file == file && this.writable == writable
    {
      this.file, this.writable := file, writable;
    }

    method Write(content: string) returns (ok: bool)
      modifies this`file
      ensures ok == writable && file == if ok then Readable(content) else old(file)
    {
      ok := writable;
      if ok { file := Readable(content); }
    }

    /** A file that is not there counts as empty; one that cannot be read is an error. */
    method Sync(tld: string, domains: seq<string>) returns (ok: bool)
      modifies this`file
      ensures var expected := BlockText(BlockLines(tld, domains));
        && file == SyncedFile(old(file), writable, expected)
        && (ok <==> !old(file).Unreadable? && (writable || expected == ReadText(ContentOf(old(file)))))
    {
      var expected := BuildBlock(tld, domains);
      if file.Unreadable? { return false; }
      var existing := ReadBlock(ContentOf(file));
      if expected == existing {
        if file.Missing? { MissingDiffers(tld, domains); }
        return true;
      }
      var content := ContentOf(file);
      var newContent;
      if existing != "" {
        newContent := ReplaceBlock(content, expected);
      } else {
        var trimmed := TrimRight(content, EOL);
        if trimmed != "" {
          newContent := trimmed + [NL] + expected + [NL];
        } else {
          newContent := expected + [NL];
        }
      }
      ok := Write(newContent);
    }

    method Remove() returns (ok: bool)
      modifies this`file
      ensures (old(file).Missing? ==> ok && file == old(file))
      ensures (old(file).Unreadable? ==> !ok && file == old(file))
      ensures old(file).Readable? ==>
        && ok == (writable || ReadText(old(file.content)) == "")
        && file == if ok then Readable(RemoveText(old(file.content))) else old(file)
    {
      if file.Missing? { return true; }
      if file.Unreadable? { return false; }
      var existing := ReadBlock(file.content);
      if existing == "" { return true; }
      var newContent := ReplaceBlock(file.content, "");
      ok := Write(newContent);
    }
  }

  lemma MissingDiffers(tld: string, domains: seq<string>)
    ensures BlockText(BlockLines(tld, domains)) != ReadText("")
  {
    var lines := Split("", NL);
    assert lines == [""] && lines[1..] == [] && !IsMarker("");
    assert ReadLines(lines, false) == ReadLines(lines[1..], false) == [];
  }
}
