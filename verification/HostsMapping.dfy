/** What the managed block means to a resolver: which names it maps, and to which address. */
module HostsMapping {
  import opened Text
  import opened Lines
  import opened Hosts
  import opened HostsProofs
  import opened HostsTheorems
  import opened HostsKeeps
  import opened HostsPositions
  import opened Registry
  import opened Views

  /* ---------- reading a hosts file ---------- */

  predicate Blank(c: char) {
    c == ' ' || c == '\t'
  }

  /** The first field of a line and what follows it, for a line that does not begin with a blank. */
  function FirstField(line: string): (r: (string, string))
    ensures |r.1| <= |line| && (line != [] && !Blank(line[0]) ==> |r.1| < |line|)
  {
    if line == [] || Blank(line[0]) then ([], line)
    else var (field, rest) := FirstField(line[1..]); ([line[0]] + field, rest)
  }

  /** The fields of a line, set apart by blanks. */
  function Fields(line: string): seq<string>
    decreases |line|
  {
    if line == [] then []
    else if Blank(line[0]) then Fields(line[1..])
    else var (field, rest) := FirstField(line); [field] + Fields(rest)
  }

  /** A line maps each name after its address; a line that begins with `#` maps nothing. */
  predicate LineMaps(line: string, address: string, name: string) {
    && line != "" && line[0] != '#'
    && var fields := Fields(line); |fields| > 1 && fields[0] == address && name in fields[1..]
  }

  ghost predicate TextMaps(text: string, address: string, name: string) {
    exists i :: 0 <= i < |Split(text, NL)| && LineMaps(Split(text, NL)[i], address, name)
  }

  /* ---------- what an entry maps ---------- */

  /** A name a hosts file can hold. */
  predicate Plain(name: string) {
    name != "" && forall c :: c in name ==> !IsSpace(c)
  }

  lemma {:induction false} WholeField(word: string, rest: string)
    requires (forall c :: c in word ==> !Blank(c)) && (rest == [] || Blank(rest[0]))
    ensures FirstField(word + rest) == (word, rest)
  {
    if word == [] {
      NothingAdded(rest);
    } else {
      WholeField(word[1..], rest);
      Rejoined(word);
      Associates([word[0]], word[1..], rest);
      HeadTail(word[0], word[1..] + rest);
    }
  }

  lemma OneField(word: string)
    requires word != "" && forall c :: c in word ==> !Blank(c)
    ensures Fields(word) == [word]
  {
    WholeField(word, []);
    NothingAdded(word);
    assert word[0] in word && !Blank(word[0]);
  }

  lemma BlankFirst(c: char, rest: string)
    requires Blank(c)
    ensures Fields([c] + rest) == Fields(rest)
  {
    HeadTail(c, rest);
  }

  lemma FourBlanks(name: string)
    ensures Fields("    " + name) == Fields(name)
  {
    hide Fields;
    BlankFirst(' ', name);
    BlankFirst(' ', " " + name);
    BlankFirst(' ', "  " + name);
    BlankFirst(' ', "   " + name);
    assert [' '] + name == " " + name && [' '] + (" " + name) == "  " + name;
    assert [' '] + ("  " + name) == "   " + name && [' '] + ("   " + name) == "    " + name;
  }

  /** An entry for a plain name maps it to the loopback address, and nothing else. */
  lemma EntryMaps(name: string, address: string, other: string)
    requires Plain(name)
    ensures LineMaps(EntryLine(name), address, other) <==> address == "127.0.0.1" && other == name
  {
    hide Fields;
    var line := EntryLine(name);
    forall c | c in name ensures !Blank(c) { assert !IsSpace(c); }
    assert line == "127.0.0.1" + ("    " + name);
    AddressFirst("    " + name);
    FourBlanks(name);
    OneField(name);
    assert Fields(line) == ["127.0.0.1", name];
    assert line[0] == '1' && Fields(line)[1..] == [name];
  }

  lemma AddressFirst(rest: string)
    requires rest != [] && Blank(rest[0])
    ensures Fields("127.0.0.1" + rest) == ["127.0.0.1"] + Fields(rest)
  {
    WholeField("127.0.0.1", rest);
    assert ("127.0.0.1" + rest)[0] == '1';
  }

  lemma CommentMapsNothing(line: string, address: string, name: string)
    requires line == "" || line[0] == '#'
    ensures !LineMaps(line, address, name)
  {
  }

  /* ---------- what the block maps ---------- */

  lemma BlockMaps(tld: string, domains: seq<string>, address: string, name: string)
    requires forall n :: n in BlockNames(tld, domains) ==> Plain(n)
    ensures (exists i :: 0 <= i < |BlockLines(tld, domains)| && LineMaps(BlockLines(tld, domains)[i], address, name))
       <==> address == "127.0.0.1" && name in BlockNames(tld, domains)
  {
    hide LineMaps, BlockNames, EntryLine, Plain;
    var names, block := BlockNames(tld, domains), BlockLines(tld, domains);
    CommentsFirst(tld, domains);
    if i :| 0 <= i < |block| && LineMaps(block[i], address, name) {
      if i < 2 || i == |block| - 1 {
        CommentMapsNothing(block[i], address, name);
      } else {
        assert block[i] == EntryLine(names[i - 2]) && names[i - 2] in names;
        EntryMaps(names[i - 2], address, name);
      }
    }
    if address == "127.0.0.1" && name in names {
      var k :| 0 <= k < |names| && names[k] == name;
      EntryMaps(name, address, name);
      assert block[k + 2] == EntryLine(name);
    }
  }

  /** The markers, as any reader of the file finds them, and the notice are comments. */
  lemma CommentsFirst(tld: string, domains: seq<string>)
    ensures var block := BlockLines(tld, domains);
      && |block| == |BlockNames(tld, domains)| + 3
      && block[0] == "# dev-local:BEGIN" && block[|block| - 1] == "# dev-local:END"
      && block[0][0] == '#' && block[1] != "" && block[1][0] == '#' && block[|block| - 1][0] == '#'
  {
    hide BlockNames, EntryLine;
  }

  lemma {:induction false} SplitBlockText(block: seq<string>)
    requires block != [] && Free(block, NL)
    ensures Split(BlockText(block), NL) == block + [""]
  {
    SplitJoin(block, NL);
    NothingAdded(Join(block, NL) + [NL]);
    SplitConcat(Join(block, NL), [], NL);
  }

  /** After a sync of a file without markers the managed block maps exactly the TLD, its localhost alias and the
      domains, each to the loopback address. */
  lemma SyncedMaps(content: string, tld: string, domains: seq<string>, address: string, name: string)
    requires Markerless(Split(content, NL)) && Plain(tld) && forall d :: d in domains ==> Plain(d)
    ensures var synced := SyncText(content, BlockText(BlockLines(tld, domains)));
      TextMaps(ReadText(synced), address, name) <==>
        address == "127.0.0.1" && (name == tld || name == TldLocalhost(tld) || name in domains)
  {
    hide LineMaps, BlockNames, EntryLine, BlockText, SyncText, ReadText, Split, Plain, TldLocalhost, Unmarked;
    var block := BlockLines(tld, domains);
    PlainNames(tld, domains);
    NewlineFreeUnmarked(tld, domains);
    SyncThenRead(content, tld, domains);
    BuiltBlockOk(tld, domains);
    BlockFull(block);
    BlockFree(block);
    SplitBlockText(block);
    BlockMaps(tld, domains, address, name);
    BlockNamesExactly(tld, domains);
    CommentMapsNothing("", address, name);
    var lines := block + [""];
    if i :| 0 <= i < |lines| && LineMaps(lines[i], address, name) { assert i < |block| && block[i] == lines[i]; }
    if i :| 0 <= i < |block| && LineMaps(block[i], address, name) { assert lines[i] == block[i]; }
  }

  lemma BlockFree(block: seq<string>)
    requires BlockOk(block)
    ensures Free(block, NL)
  {
  }

  lemma PlainNames(tld: string, domains: seq<string>)
    requires Plain(tld) && forall d :: d in domains ==> Plain(d)
    ensures NewlineFree(tld, domains) && forall n :: n in BlockNames(tld, domains) ==> Plain(n)
  {
    hide TldLocalhost, BlockNames;
    BlockNamesExactly(tld, domains);
    AliasPlain(tld);
    assert IsSpace(NL);
    assert forall i :: 0 <= i < |domains| ==> domains[i] in domains;
  }

  lemma AliasPlain(tld: string)
    requires Plain(tld)
    ensures Plain(TldLocalhost(tld))
  {
    SplitSub(tld, '.');
    var first := Split(tld, '.')[0];
    forall c | c in first + ".localhost" ensures !IsSpace(c) {
      if c in first { assert c in tld; }
    }
  }

  /** A file that is not there is created with the block alone; one that cannot be read or written stays. */
  lemma FileCases(f: File, writable: bool, tld: string, domains: seq<string>)
    ensures var expected := BlockText(BlockLines(tld, domains)); var synced := SyncedFile(f, writable, expected);
      && (f.Missing? && writable ==> synced == Readable(expected + "\n"))
      && (f.Unreadable? || !writable ==> synced == f)
      && (f.Readable? && writable ==> synced == Readable(SyncText(f.content, expected)))
  {
    hide BlockLines;
    MissingDiffers(tld, domains);
    ReadNone();
  }

  lemma ReadNone()
    ensures ReadText("") == ""
  {
    var lines := Split("", NL);
    assert lines == [""] && lines[1..] == [] && !IsMarker("");
    assert ReadLines(lines, false) == ReadLines(lines[1..], false) == [];
  }

  /* ---------- the alias ---------- */

  /** The alias of a TLD is its first label and `.localhost`, unless it is one of `localhost` already. */
  lemma AliasIs(first: string, rest: string)
    requires '.' !in first
    ensures var tld := if rest == "" then first else first + "." + rest;
      TldLocalhost(tld) ==
        if ToLower(tld) == "localhost" || (exists p :: ToLower(tld) == p + ".localhost") then tld
        else first + ".localhost"
  {
    var tld := if rest == "" then first else first + "." + rest;
    HasSuffixIff(ToLower(tld), ".localhost");
    SplitWhole(first, '.');
    if rest != "" {
      assert first + "." + rest == first + ['.'] + rest;
      SplitConcat(first, rest, '.');
    }
  }

  /** So every host with a proxy route is mapped. */
  lemma ProxiedHostsMapped(m: Records, cfg: Settings, content: string, d: string)
    requires Markerless(Split(content, NL)) && Plain(cfg.tld) && forall x :: x in DomainSet(m, cfg) ==> Plain(x)
    requires d in TargetsOf(m, cfg)
    ensures var domains := Ascending(DomainSet(m, cfg));
      TextMaps(ReadText(SyncText(content, BlockText(BlockLines(cfg.tld, domains)))), "127.0.0.1", d)
  {
    hide TextMaps, BlockLines, BlockText, SyncText, ReadText, Split, Ascending, TargetsOf, DomainSet, Plain;
    var domains := Ascending(DomainSet(m, cfg));
    AscendingLists(DomainSet(m, cfg));
    DomainsAreTargetsAndUnprobed(m, cfg);
    SyncedMaps(content, cfg.tld, domains, "127.0.0.1", d);
  }
}
