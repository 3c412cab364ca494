/** The `dev.local.domains` label: `port:domain;port:domain`. */
module Labels {
  import opened Text
  import opened Lines

  type Port = p: nat | p < 65536

  datatype CustomDomain = CustomDomain(port: Port, domain: string)

  const DOMAINS_LABEL := "dev.local.domains"

  function GetLabel(labels: map<string, string>, key: string): string {
    if key in labels then labels[key] else ""
  }

  /* ---------- numbers ---------- */

  predicate IsDigit(c: char) { '0' <= c <= '9' }

  function DigitPrefix(s: string): string {
    if s != [] && IsDigit(s[0]) then [s[0]] + DigitPrefix(s[1..]) else []
  }

  function Value(s: string): nat {
    if s == [] then 0
    else
      var c := s[|s| - 1];
      10 * Value(s[..|s| - 1]) + (if IsDigit(c) then c as nat - '0' as nat else 0)
  }

  function Decimal(n: nat): (r: string)
    ensures r != []
  {
    var d := [('0' as nat + n % 10) as char];
    if n < 10 then d else Decimal(n / 10) + d
  }

  /** fmt.Sscanf with %d into a 16-bit variable: the leading digits, and 0 if there are
      none or they do not fit. */
  function ScanPort(s: string): Port {
    var n := Value(DigitPrefix(s));
    if n < 65536 then n else 0
  }

  /* ---------- parsing ---------- */

  /** strings.SplitN(s, ":", 2), if there is a colon. */
  function Cut(s: string, sep: char): Option<(string, string)> {
    if s == [] then None
    else if s[0] == sep then Some(([], s[1..]))
    else match Cut(s[1..], sep)
      case None => None
      case Some(r) => Some(([s[0]] + r.0, r.1))
  }

  function ParseEntry(raw: string): seq<CustomDomain> {
    var entry := TrimSpace(raw);
    if entry == "" then [] else
    match Cut(entry, ':')
    case None => []
    case Some(parts) =>
      var port, domain := ScanPort(parts.0), TrimSpace(parts.1);
      if port == 0 || domain == "" then [] else [CustomDomain(port, domain)]
  }

  function ParseEntries(entries: seq<string>): seq<CustomDomain> {
    if entries == [] then [] else ParseEntry(entries[0]) + ParseEntries(entries[1..])
  }

  function ParseLabel(text: string): seq<CustomDomain> {
    if text == "" then [] else ParseEntries(Split(text, ';'))
  }

  lemma ParseOn(domains: seq<CustomDomain>, entries: seq<string>, i: nat)
    requires i < |entries|
    ensures domains + ParseEntries(entries[i..]) == domains + ParseEntry(entries[i]) + ParseEntries(entries[i + 1..])
  {
    hide ParseEntry;
    SuffixHead(entries, i);
  }

  method ParseCustomDomains(labels: map<string, string>) returns (domains: seq<CustomDomain>)
    ensures domains == ParseLabel(GetLabel(labels, DOMAINS_LABEL))
  {
    hide ParseEntries, Split, TrimSpace, Cut, ScanPort;
    var text := GetLabel(labels, DOMAINS_LABEL);
    domains := [];
    if text == "" { return; }
    var entries := Split(text, ';');
    assert entries[0..] == entries;
    NothingAdded(ParseEntries(entries));
    for i := 0 to |entries|
      invariant domains + ParseEntries(entries[i..]) == ParseEntries(entries)
    {
      ParseOn(domains, entries, i);
      NothingAdded(domains);
      var entry := TrimSpace(entries[i]);
      if entry == "" { continue; }
      var parts := Cut(entry, ':');
      if parts.None? { continue; }
      var port := ScanPort(parts.value.0);
      if port == 0 { continue; }
      var domain := TrimSpace(parts.value.1);
      if domain == "" { continue; }
      domains := domains + [CustomDomain(port, domain)];
    }
    NoneLeft(domains, entries);
  }

  lemma NoneLeft(domains: seq<CustomDomain>, entries: seq<string>)
    ensures domains + ParseEntries(entries[|entries|..]) == domains
  {
  }

  /* ---------- what an entry says ---------- */

  /** Digits at the start are read, whatever follows them; nothing is read if there are none, or if they do not fit. */
  lemma {:induction false} ScanReads(digits: string, rest: string)
    requires (forall c :: c in digits ==> IsDigit(c)) && (rest == [] || !IsDigit(rest[0]))
    ensures ScanPort(digits + rest) == if Value(digits) <= 65535 then Value(digits) else 0
  {
    PrefixReads(digits, rest);
  }

  lemma {:induction false} PrefixReads(digits: string, rest: string)
    requires (forall c :: c in digits ==> IsDigit(c)) && (rest == [] || !IsDigit(rest[0]))
    ensures DigitPrefix(digits + rest) == digits
  {
    if digits == [] {
      NothingAdded(rest);
    } else {
      PrefixReads(digits[1..], rest);
      Rejoined(digits);
      Associates([digits[0]], digits[1..], rest);
      HeadTail(digits[0], digits[1..] + rest);
    }
  }

  lemma {:induction false} CutNone(s: string, sep: char)
    ensures Cut(s, sep).None? <==> sep !in s
  {
    if s != [] { CutNone(s[1..], sep); }
  }

  /** An entry names a domain exactly if it has a colon, a port before the first one that is not 0, and something but
      white space after it. */
  lemma EntryReads(raw: string, before: string, after: string)
    requires TrimSpace(raw) == before + ":" + after && ':' !in before
    ensures ParseEntry(raw) ==
      if ScanPort(before) == 0 || TrimSpace(after) == "" then [] else [CustomDomain(ScanPort(before), TrimSpace(after))]
  {
    CutAt(before, after, ':');
  }

  lemma EntryWithoutColon(raw: string)
    requires ':' !in TrimSpace(raw)
    ensures ParseEntry(raw) == []
  {
    CutNone(TrimSpace(raw), ':');
  }

  /* ---------- printing and parsing back ---------- */

  function PrintEntry(d: CustomDomain): string {
    Decimal(d.port) + ":" + d.domain
  }

  function PrintEntries(ds: seq<CustomDomain>): seq<string> {
    if ds == [] then [] else [PrintEntry(ds[0])] + PrintEntries(ds[1..])
  }

  function PrintLabel(ds: seq<CustomDomain>): string {
    Join(PrintEntries(ds), ';')
  }

  lemma {:induction false} DecimalDigits(n: nat)
    ensures forall c :: c in Decimal(n) ==> IsDigit(c)
    ensures Value(Decimal(n)) == n
  {
    var c := ('0' as nat + n % 10) as char;
    if n < 10 {
      assert Decimal(n) == [c] && [c][..0] == [];
    } else {
      DecimalDigits(n / 10);
      var front := Decimal(n / 10);
      assert (front + [c])[..|front|] == front;
    }
  }

  lemma {:induction false} DigitsWhole(s: string)
    requires forall c :: c in s ==> IsDigit(c)
    ensures DigitPrefix(s) == s
  {
    if s != [] {
      DigitsWhole(s[1..]);
      assert s == [s[0]] + s[1..];
    }
  }

  lemma {:induction false} CutAt(a: string, b: string, sep: char)
    requires sep !in a
    ensures Cut(a + [sep] + b, sep) == Some((a, b))
  {
    var s := a + [sep] + b;
    if a == [] {
      assert s[1..] == b;
    } else {
      assert s[1..] == a[1..] + [sep] + b;
      CutAt(a[1..], b, sep);
      assert a == [a[0]] + a[1..];
    }
  }

  lemma {:induction false} TrimRightSpaceEnd(s: string)
    ensures var t := TrimRightSpace(s); t == [] || !IsSpace(t[|t| - 1])
    ensures TrimRightSpace(TrimRightSpace(s)) == TrimRightSpace(s)
  {
    if s != [] && IsSpace(s[|s| - 1]) { TrimRightSpaceEnd(s[..|s| - 1]); }
  }

  lemma {:induction false} TrimLeftSpaceHead(s: string)
    ensures var t := TrimLeftSpace(s); t == [] || !IsSpace(t[0])
  {
    if s != [] && IsSpace(s[0]) { TrimLeftSpaceHead(s[1..]); }
  }

  lemma TrimSpaceTwice(s: string)
    ensures TrimSpace(TrimSpace(s)) == TrimSpace(s)
  {
    var l := TrimLeftSpace(s);
    TrimLeftSpaceHead(s);
    if l != [] { TrimRightSpaceHead(l); }
    TrimRightSpaceEnd(l);
  }

  lemma TrimmedEnds(d: string)
    requires TrimSpace(d) == d && d != ""
    ensures !IsSpace(d[|d| - 1])
  {
    TrimRightSpaceEnd(TrimLeftSpace(d));
  }

  /** What a label may say: a port that is not 0, and a trimmed domain free of `;`. */
  predicate Printable(d: CustomDomain) {
    d.port != 0 && d.domain != "" && TrimSpace(d.domain) == d.domain && ';' !in d.domain
  }

  lemma ParsePrintedEntry(d: CustomDomain)
    requires Printable(d)
    ensures ParseEntry(PrintEntry(d)) == [d] && ';' !in PrintEntry(d)
  {
    var digits, entry := Decimal(d.port), PrintEntry(d);
    DecimalDigits(d.port);
    DigitsWhole(digits);
    assert digits[0] in digits && entry[0] == digits[0] && !IsSpace(entry[0]);
    TrimmedEnds(d.domain);
    assert entry[|entry| - 1] == d.domain[|d.domain| - 1];
    assert TrimSpace(entry) == entry;
    CutAt(digits, d.domain, ':');
  }

  /** Parsing undoes printing. */
  lemma {:induction false} ParsePrint(ds: seq<CustomDomain>)
    requires forall d :: d in ds ==> Printable(d)
    ensures ParseLabel(PrintLabel(ds)) == ds
  {
    if ds != [] {
      PrintedFree(ds);
      SplitJoin(PrintEntries(ds), ';');
      ParsePrintedEntries(ds);
      var first := PrintEntry(ds[0]);
      assert |PrintLabel(ds)| >= |first| > 0;
    }
  }

  lemma {:induction false} PrintedFree(ds: seq<CustomDomain>)
    requires forall d :: d in ds ==> Printable(d)
    ensures Free(PrintEntries(ds), ';')
  {
    if ds != [] {
      ParsePrintedEntry(ds[0]);
      PrintedFree(ds[1..]);
    }
  }

  lemma {:induction false} ParsePrintedEntries(ds: seq<CustomDomain>)
    requires forall d :: d in ds ==> Printable(d)
    ensures ParseEntries(PrintEntries(ds)) == ds
  {
    if ds != [] {
      ParsePrintedEntry(ds[0]);
      ParsePrintedEntries(ds[1..]);
      assert PrintEntries(ds)[1..] == PrintEntries(ds[1..]);
      assert ds == [ds[0]] + ds[1..];
    }
  }

  lemma {:induction false} ParseEntriesConcat(a: seq<string>, b: seq<string>)
    ensures ParseEntries(a + b) == ParseEntries(a) + ParseEntries(b)
  {
    if a == [] {
      assert a + b == b;
    } else {
      assert (a + b)[1..] == a[1..] + b;
      ParseEntriesConcat(a[1..], b);
    }
  }

  /** Labels joined by `;` parse to the joined results, whatever they hold. */
  lemma ParseJoined(a: string, b: string)
    ensures ParseLabel(a + ";" + b) == ParseLabel(a) + ParseLabel(b)
  {
    SplitConcat(a, b, ';');
    assert a + ";" + b == a + [';'] + b;
    ParseEntriesConcat(Split(a, ';'), Split(b, ';'));
    EmptyParses();
  }

  lemma EmptyParses()
    ensures ParseEntries(Split("", ';')) == []
  {
    assert Split("", ';') == [""] && [""][1..] == [] && TrimSpace("") == "";
  }

  /** Every result has a port that is not 0 and a trimmed domain that is not empty. */
  lemma {:induction false} ParsedOk(entries: seq<string>, d: CustomDomain)
    requires d in ParseEntries(entries)
    ensures d.port != 0 && d.domain != "" && TrimSpace(d.domain) == d.domain
  {
    if d in ParseEntry(entries[0]) {
      TrimSpaceTwice(Cut(TrimSpace(entries[0]), ':').value.1);
    } else {
      ParsedOk(entries[1..], d);
    }
  }
}
