/** test_id.go: test IDs, the host names of tests, and the e-mail addresses beneath them (smtp.go). */
module TestIds {
  import opened Options
  import opened Ascii

  type Byte = x: int | 0 <= x < 256

  const TEST_ID_LENGTH := 16

  type TestID = id: seq<Byte> | |id| == TEST_ID_LENGTH witness seq(16, _ => 0)

  /** What a host name says: the test, and the labels in front of it. */
  datatype Target = Target(id: TestID, subdomain: string)

  // Hexadecimal text

  function HexDigit(n: nat): char
    requires n < 16
  {
    if n < 10 then (n + 48) as char else (n + 87) as char
  }

  function HexValue(c: char): Option<nat> {
    if '0' <= c <= '9' then Some(c as int - 48)
    else if 'a' <= c <= 'f' then Some(c as int - 87)
    else if 'A' <= c <= 'F' then Some(c as int - 55)
    else None
  }

  function HexEncode(b: seq<Byte>): string {
    if b == [] then ""
    else [HexDigit(b[0] / 16), HexDigit(b[0] % 16)] + HexEncode(b[1..])
  }

  function HexDecode(s: string): Option<seq<Byte>> {
    if s == "" then Some([])
    else if |s| == 1 then None
    else
      match (HexValue(s[0]), HexValue(s[1]), HexDecode(s[2..]))
      case (Some(hi), Some(lo), Some(rest)) =>
        if hi < 16 && lo < 16 then Some([16 * hi + lo] + rest) else None
      case _ => None
  }

  // Host names

  function TestSuffix(domain: string): string {
    ".test." + domain
  }

  function MakeHostname(domain: string, id: TestID, subdomain: string): string {
    if subdomain == "" then HexEncode(id) + TestSuffix(domain)
    else subdomain + "." + HexEncode(id) + TestSuffix(domain)
  }

  function ParseTestID(s: string): Option<TestID> {
    if |s| != 2 * TEST_ID_LENGTH then None
    else
      match HexDecode(s)
      case Some(b) => if |b| == TEST_ID_LENGTH then Some(b) else None
      case None => None
  }

  /** What stands in front of ".test.<domain>": the ID after the last dot, the subdomain before it. */
  function ParsePrefix(prefix: string): Option<Target> {
    var lastDot := LastIndex(prefix, '.');
    match ParseTestID(prefix[lastDot + 1..])
    case None => None
    case Some(id) =>
      if lastDot == -1 then Some(Target(id, "")) else Some(Target(id, ToLower(prefix[..lastDot])))
  }

  function ParseHostname(domain: string, hostname: string): Option<Target> {
    var name := TrimSuffix(hostname, ".");
    if !HasSuffix(name, TestSuffix(domain)) then None
    else ParsePrefix(TrimSuffix(name, TestSuffix(domain)))
  }

  function ParseEmailAddress(domain: string, addr: string): Option<TestID> {
    var at := LastIndex(addr, '@');
    if at == -1 then None
    else
      match ParseHostname(domain, addr[at + 1..])
      case Some(target) => Some(target.id)
      case None => None
  }

  /** What the operator has to give as -domain for the names to round-trip. */
  predicate ValidDomain(domain: string) {
    domain != "" && IsLower(domain) && domain[|domain| - 1] != '.' && '@' !in domain
  }

  // Hexadecimal round trips

  predicate IsLowerHexDigit(c: char) {
    '0' <= c <= '9' || 'a' <= c <= 'f'
  }

  lemma {:induction false} HexEncodeText(b: seq<Byte>)
    ensures |HexEncode(b)| == 2 * |b|
    ensures forall i :: 0 <= i < 2 * |b| ==> IsLowerHexDigit(HexEncode(b)[i])
  {
    if b != [] { HexEncodeText(b[1..]); }
  }

  lemma {:induction false} HexDecodeLength(s: string)
    ensures HexDecode(s).Some? ==> |s| == 2 * |HexDecode(s).value|
  {
    if |s| > 1 { HexDecodeLength(s[2..]); }
  }

  lemma HexDigitValue(n: nat)
    requires n < 16
    ensures HexValue(HexDigit(n)) == Some(n)
  {
  }

  lemma {:induction false} DecodeAfterEncode(b: seq<Byte>)
    ensures HexDecode(HexEncode(b)) == Some(b)
  {
    if b != [] {
      DecodeAfterEncode(b[1..]);
      assert HexEncode(b)[2..] == HexEncode(b[1..]);
      HexDigitValue(b[0] / 16);
      HexDigitValue(b[0] % 16);
      assert 16 * (b[0] / 16) + b[0] % 16 == b[0];
      assert [b[0]] + b[1..] == b;
    }
  }

  lemma HexValueDigit(c: char)
    requires HexValue(c).Some?
    ensures HexValue(c).value < 16 && HexDigit(HexValue(c).value) == LowerChar(c)
    ensures HexValue(LowerChar(c)) == HexValue(c)
  {
  }

  /** One step of decoding. */
  lemma DecodePair(s: string)
    requires |s| > 1
    ensures HexDecode(s).Some? <==> HexValue(s[0]).Some? && HexValue(s[1]).Some? && HexDecode(s[2..]).Some?
    ensures HexDecode(s).Some? ==>
              HexDecode(s).value == [16 * HexValue(s[0]).value + HexValue(s[1]).value] + HexDecode(s[2..]).value
  {
  }

  /** One step of encoding. */
  lemma EncodePair(hi: nat, lo: nat, rest: seq<Byte>)
    requires hi < 16 && lo < 16
    ensures HexEncode([16 * hi + lo] + rest) == [HexDigit(hi), HexDigit(lo)] + HexEncode(rest)
  {
    assert ([16 * hi + lo] + rest)[1..] == rest;
  }

  lemma FoldedPair(s: string)
    requires |s| > 1
    ensures var low := ToLower(s);
            && |low| > 1 && low[0] == LowerChar(s[0]) && low[1] == LowerChar(s[1]) && low[2..] == ToLower(s[2..])
            && low == [low[0], low[1]] + ToLower(s[2..])
  {
  }

  /** Decoding accepts both cases; encoding writes the lower one. */
  lemma {:induction false} EncodeAfterDecode(s: string)
    requires HexDecode(s).Some?
    ensures HexEncode(HexDecode(s).value) == ToLower(s)
    ensures HexDecode(ToLower(s)) == HexDecode(s)
  {
    if |s| > 1 {
      DecodePair(s);
      EncodeAfterDecode(s[2..]);
      HexValueDigit(s[0]);
      HexValueDigit(s[1]);
      EncodePair(HexValue(s[0]).value, HexValue(s[1]).value, HexDecode(s[2..]).value);
      FoldedPair(s);
      DecodePair(ToLower(s));
    }
  }

  lemma NoDotInHex(b: seq<Byte>)
    ensures '.' !in HexEncode(b) && '@' !in HexEncode(b) && IsLower(HexEncode(b))
  {
    HexEncodeText(b);
  }

  lemma ParseTestIDOfPrinted(id: TestID)
    ensures ParseTestID(HexEncode(id)) == Some(id)
  {
    HexEncodeText(id);
    DecodeAfterEncode(id);
  }

  /** parseTestID inverts printing up to letter case. */
  lemma PrintedTestID(s: string)
    requires ParseTestID(s).Some?
    ensures HexEncode(ParseTestID(s).value) == ToLower(s)
    ensures ParseTestID(ToLower(s)) == ParseTestID(s)
    ensures '.' !in s && '@' !in s
  {
    EncodeAfterDecode(s);
    NoDotInHex(ParseTestID(s).value);
    forall i | 0 <= i < |s| ensures s[i] != '.' && s[i] != '@' {
      assert ToLower(s)[i] == LowerChar(s[i]) && ToLower(s)[i] in ToLower(s);
    }
  }

  // Host name round trips

  lemma TrimOneDot(domain: string, prefix: string)
    requires ValidDomain(domain)
    ensures TrimSuffix(prefix + TestSuffix(domain), ".") == prefix + TestSuffix(domain)
    ensures TrimSuffix(prefix + TestSuffix(domain) + ".", ".") == prefix + TestSuffix(domain)
  {
    var name := prefix + TestSuffix(domain);
    assert name[|name| - 1] == domain[|domain| - 1];
    SuffixOfConcat(name, ".");
  }

  /** A host name made of any prefix is parsed by what its prefix says, with or without a trailing dot. */
  lemma ParseWithPrefix(domain: string, prefix: string)
    requires ValidDomain(domain)
    ensures ParseHostname(domain, prefix + TestSuffix(domain)) == ParsePrefix(prefix)
    ensures ParseHostname(domain, prefix + TestSuffix(domain) + ".") == ParsePrefix(prefix)
  {
    TrimOneDot(domain, prefix);
    SuffixOfConcat(prefix, TestSuffix(domain));
  }

  /** The prefixes that parse: an ID in hexadecimal, possibly after a dotted subdomain. */
  lemma ParseAtDot(prefix: string, subdomain: string, hex: string)
    requires ParseTestID(hex).Some? && prefix == subdomain + "." + hex && LastIndex(prefix, '.') == |subdomain|
    ensures ParsePrefix(prefix) == Some(Target(ParseTestID(hex).value, ToLower(subdomain)))
  {
    assert prefix[|subdomain| + 1..] == hex;
    assert prefix[..|subdomain|] == subdomain;
  }

  lemma ParseDottedPrefix(subdomain: string, hex: string)
    requires '.' !in hex
    requires ParseTestID(hex).Some?
    ensures ParsePrefix(hex) == Some(Target(ParseTestID(hex).value, ""))
    ensures ParsePrefix(subdomain + "." + hex) == Some(Target(ParseTestID(hex).value, ToLower(subdomain)))
  {
    assert LastIndex(hex, '.') == -1;
    assert hex[0..] == hex;
    LastIndexOfConcat(subdomain, '.', hex);
    ParseAtDot(subdomain + "." + hex, subdomain, hex);
  }

  /** What makeHostname puts in front of ".test.<domain>". */
  function HostPrefix(id: TestID, subdomain: string): string {
    if subdomain == "" then HexEncode(id) else subdomain + "." + HexEncode(id)
  }

  lemma ParsePrintedPrefix(id: TestID, subdomain: string)
    ensures ParsePrefix(HostPrefix(id, subdomain)) == Some(Target(id, ToLower(subdomain)))
  {
    var hex := HexEncode(id);
    assert ParseTestID(hex) == Some(id) by { ParseTestIDOfPrinted(id); }
    assert '.' !in hex by { NoDotInHex(id); }
    ParseDottedPrefix(subdomain, hex);
    assert ToLower("") == "";
  }

  lemma ParseAfterPrint(domain: string, id: TestID, subdomain: string)
    requires ValidDomain(domain)
    ensures ParseHostname(domain, MakeHostname(domain, id, subdomain)) == Some(Target(id, ToLower(subdomain)))
    ensures ParseHostname(domain, MakeHostname(domain, id, subdomain) + ".") == Some(Target(id, ToLower(subdomain)))
  {
    ParsePrintedPrefix(id, subdomain);
    ParseWithPrefix(domain, HostPrefix(id, subdomain));
  }

  /** An accepted prefix, taken apart at its last dot. */
  lemma PrefixShape(prefix: string) returns (front: string, hex: string)
    requires ParsePrefix(prefix).Some?
    ensures prefix == front + hex
    ensures ParseTestID(hex) == Some(ParsePrefix(prefix).value.id)
    ensures '.' !in hex && |hex| == 2 * TEST_ID_LENGTH
    ensures front == "" ==> ParsePrefix(prefix).value.subdomain == ""
    ensures front != "" ==> front == front[..|front| - 1] + "."
    ensures front != "" ==> ParsePrefix(prefix).value.subdomain == ToLower(front[..|front| - 1])
  {
    var k := LastIndex(prefix, '.') + 1;
    front, hex := prefix[..k], prefix[k..];
    if k > 0 {
      assert front[|front| - 1] == '.';
      assert front[..|front| - 1] == prefix[..k - 1];
    }
    PrintedTestID(hex);
  }

  /** The one prefix that printing does not give back: an empty label in front of the ID. */
  predicate EmptyLabelPrefix(prefix: string) {
    |prefix| == 1 + 2 * TEST_ID_LENGTH && prefix[0] == '.'
  }

  lemma PrintBarePrefix(hex: string)
    requires ParseTestID(hex).Some?
    ensures HostPrefix(ParseTestID(hex).value, "") == ToLower(hex) && !EmptyLabelPrefix(hex)
  {
    PrintedTestID(hex);
  }

  lemma PrintDottedPrefix(subdomain: string, hex: string)
    requires ParseTestID(hex).Some?
    ensures var prefix, id := subdomain + "." + hex, ParseTestID(hex).value;
            && ToLower(prefix) == ToLower(subdomain) + "." + HexEncode(id)
            && (EmptyLabelPrefix(prefix) <==> subdomain == "")
            && (HostPrefix(id, ToLower(subdomain)) == ToLower(prefix) <==> subdomain != "")
  {
    var id := ParseTestID(hex).value;
    PrintedTestID(hex);
    ToLowerConcat(subdomain + ".", hex);
    ToLowerConcat(subdomain, ".");
    assert ToLower(".") == ".";
    assert |HostPrefix(id, "")| == |hex|;
    if subdomain != "" {
      assert |subdomain + "." + hex| > 1 + |hex|;
    }
  }

  lemma PrintParsedPrefix(prefix: string)
    requires ParsePrefix(prefix).Some?
    ensures var target := ParsePrefix(prefix).value;
            && (HostPrefix(target.id, target.subdomain) == ToLower(prefix) <==> !EmptyLabelPrefix(prefix))
            && (EmptyLabelPrefix(prefix) ==> target.subdomain == "" && "." + HexEncode(target.id) == ToLower(prefix))
  {
    var front, hex := PrefixShape(prefix);
    if front == "" {
      assert prefix == hex;
      PrintBarePrefix(hex);
    } else {
      var subdomain := front[..|front| - 1];
      assert prefix == subdomain + "." + hex;
      PrintDottedPrefix(subdomain, hex);
    }
  }

  lemma FoldPrefix(prefix: string)
    requires ParsePrefix(prefix).Some?
    ensures ParsePrefix(ToLower(prefix)) == ParsePrefix(prefix)
  {
    var front, hex := PrefixShape(prefix);
    var id := ParseTestID(hex).value;
    assert '.' !in ToLower(hex) && ParseTestID(ToLower(hex)) == Some(id) by {
      PrintedTestID(hex);
      NoDotInHex(id);
    }
    ToLowerConcat(front, hex);
    if front == "" {
      assert ToLower(front) == "";
      ParseDottedPrefix("", ToLower(hex));
      assert ToLower(prefix) == ToLower(hex);
    } else {
      var subdomain := ToLower(front[..|front| - 1]);
      ToLowerConcat(front[..|front| - 1], ".");
      assert ToLower(".") == ".";
      assert ToLower(prefix) == subdomain + "." + ToLower(hex);
      ToLowerTwice(front[..|front| - 1]);
      ParseDottedPrefix(subdomain, ToLower(hex));
    }
  }

  /** An accepted host name is its prefix, the suffix of the test zone, and at most one dot. */
  lemma AcceptedShape(domain: string, hostname: string) returns (prefix: string)
    requires ParseHostname(domain, hostname).Some?
    ensures ParseHostname(domain, hostname) == ParsePrefix(prefix)
    ensures TrimSuffix(hostname, ".") == prefix + TestSuffix(domain)
    ensures hostname == prefix + TestSuffix(domain) || hostname == prefix + TestSuffix(domain) + "."
  {
    var name := TrimSuffix(hostname, ".");
    prefix := TrimSuffix(name, TestSuffix(domain));
    SplitSuffix(name, TestSuffix(domain));
    if HasSuffix(hostname, ".") {
      SplitSuffix(hostname, ".");
    }
  }

  lemma SuffixIsLower(domain: string, prefix: string)
    requires ValidDomain(domain)
    ensures ToLower(prefix + TestSuffix(domain)) == ToLower(prefix) + TestSuffix(domain)
    ensures ToLower(prefix + TestSuffix(domain) + ".") == ToLower(prefix) + TestSuffix(domain) + "."
  {
    assert ToLower(".test.") == ".test." && ToLower(".") == ".";
    ToLowerConcat(".test.", domain);
    ToLowerConcat(prefix, TestSuffix(domain));
    ToLowerConcat(prefix + TestSuffix(domain), ".");
  }

  lemma HostnameIsLower(domain: string, id: TestID, subdomain: string)
    requires ValidDomain(domain) && IsLower(subdomain)
    ensures IsLower(MakeHostname(domain, id, subdomain) + ".")
  {
    var prefix := HostPrefix(id, subdomain);
    NoDotInHex(id);
    ToLowerConcat(subdomain + ".", HexEncode(id));
    ToLowerConcat(subdomain, ".");
    assert ToLower(".") == ".";
    assert MakeHostname(domain, id, subdomain) + "." == prefix + TestSuffix(domain) + ".";
    SuffixIsLower(domain, prefix);
  }

  /** The one form that printing does not give back: an empty label in front of the ID. */
  predicate EmptyLabelForm(domain: string, hostname: string) {
    var name := TrimSuffix(hostname, ".");
    |name| == 1 + 2 * TEST_ID_LENGTH + |TestSuffix(domain)| && name[0] == '.'
  }

  lemma Assoc(a: string, b: string, c: string)
    ensures a + (b + c) == a + b + c
  {
  }

  lemma PrintedHost(domain: string, id: TestID, subdomain: string)
    ensures MakeHostname(domain, id, subdomain) == HostPrefix(id, subdomain) + TestSuffix(domain)
  {
    Assoc(subdomain + ".", HexEncode(id), TestSuffix(domain));
  }

  lemma EmptyLabels(domain: string, hostname: string, prefix: string)
    requires TrimSuffix(hostname, ".") == prefix + TestSuffix(domain)
    ensures EmptyLabelForm(domain, hostname) <==> EmptyLabelPrefix(prefix)
  {
  }

  /** Printing what was parsed gives the name back, lower-cased and without its trailing dot,
      exactly when the name is not of the empty-label form. */
  lemma PrintAfterParse(domain: string, hostname: string)
    requires ValidDomain(domain)
    requires ParseHostname(domain, hostname).Some?
    ensures var target := ParseHostname(domain, hostname).value;
            MakeHostname(domain, target.id, target.subdomain) == ToLower(TrimSuffix(hostname, "."))
            <==> !EmptyLabelForm(domain, hostname)
    ensures EmptyLabelForm(domain, hostname) ==>
              var target := ParseHostname(domain, hostname).value;
              target.subdomain == "" &&
              "." + MakeHostname(domain, target.id, "") == ToLower(TrimSuffix(hostname, "."))
  {
    var prefix := AcceptedShape(domain, hostname);
    var target := ParsePrefix(prefix).value;
    var suffix := TestSuffix(domain);
    SuffixIsLower(domain, prefix);
    PrintParsedPrefix(prefix);
    var printed := HostPrefix(target.id, target.subdomain);
    PrintedHost(domain, target.id, target.subdomain);
    EmptyLabels(domain, hostname, prefix);
    SuffixOfConcat(printed, suffix);
    SuffixOfConcat(ToLower(prefix), suffix);
    Assoc(".", HexEncode(target.id), suffix);
  }

  /** Folding case first, as the DNS and HTTP servers do, accepts at least as much
      and attributes it to the same test. */
  lemma FoldingAgrees(domain: string, hostname: string)
    requires ValidDomain(domain)
    requires ParseHostname(domain, hostname).Some?
    ensures ParseHostname(domain, ToLower(hostname)) == ParseHostname(domain, hostname)
  {
    var prefix := AcceptedShape(domain, hostname);
    SuffixIsLower(domain, prefix);
    FoldPrefix(prefix);
    ParseWithPrefix(domain, ToLower(prefix));
  }

  lemma {:induction false} DecodeFolded(s: string)
    ensures HexDecode(ToLower(s)).Some? <==> HexDecode(s).Some?
  {
    if |s| > 1 {
      var low := ToLower(s);
      assert low[2..] == ToLower(s[2..]);
      DecodeFolded(s[2..]);
      DecodePair(s);
      DecodePair(low);
    }
  }

  lemma {:induction false} LastDotFolded(s: string)
    ensures LastIndex(ToLower(s), '.') == LastIndex(s, '.')
  {
    if s != "" {
      LastDotFolded(s[..|s| - 1]);
      assert ToLower(s)[..|s| - 1] == ToLower(s[..|s| - 1]);
    }
  }

  lemma UnfoldPrefix(prefix: string)
    requires ParsePrefix(ToLower(prefix)).Some?
    ensures ParsePrefix(prefix).Some?
  {
    var k := LastIndex(prefix, '.') + 1;
    var hex := prefix[k..];
    LastDotFolded(prefix);
    assert ToLower(prefix)[k..] == ToLower(hex);
    DecodeFolded(hex);
    HexDecodeLength(hex);
  }

  /** Without folding, as SMTP does it, a name is accepted exactly when its folded form is and the zone's own
      part, ".test.<domain>", is written in lower case: only the ID and the subdomain may vary in case. */
  lemma AcceptedExactly(domain: string, hostname: string)
    requires ValidDomain(domain)
    ensures ParseHostname(domain, hostname).Some?
       <==> && ParseHostname(domain, ToLower(hostname)).Some?
            && HasSuffix(TrimSuffix(hostname, "."), TestSuffix(domain))
  {
    if ParseHostname(domain, hostname).Some? {
      FoldingAgrees(domain, hostname);
    }
    if ParseHostname(domain, ToLower(hostname)).Some? && HasSuffix(TrimSuffix(hostname, "."), TestSuffix(domain)) {
      var name := TrimSuffix(hostname, ".");
      var prefix := TrimSuffix(name, TestSuffix(domain));
      SplitSuffix(name, TestSuffix(domain));
      if HasSuffix(hostname, ".") { SplitSuffix(hostname, "."); }
      SuffixIsLower(domain, prefix);
      ParseWithPrefix(domain, ToLower(prefix));
      UnfoldPrefix(prefix);
    }
  }

  lemma NoAtInHost(domain: string, id: TestID)
    requires ValidDomain(domain)
    ensures '@' !in HexEncode(id) + TestSuffix(domain)
  {
    NoDotInHex(id);
    assert '@' !in ".test.";
  }

  lemma ParseTailPrefix(id: TestID, tail: string)
    ensures ParsePrefix(tail + "." + HexEncode(id)) == Some(Target(id, ToLower(tail)))
  {
    ParseTestIDOfPrinted(id);
    NoDotInHex(id);
    ParseDottedPrefix(tail, HexEncode(id));
  }

  /** What follows the last "@" in a test's host name still parses to the test. */
  lemma ParseTail(domain: string, id: TestID, tail: string)
    requires ValidDomain(domain)
    ensures ParseHostname(domain, tail + "." + (HexEncode(id) + TestSuffix(domain))) == Some(Target(id, ToLower(tail)))
  {
    var prefix := tail + "." + HexEncode(id);
    assert tail + "." + (HexEncode(id) + TestSuffix(domain)) == prefix + TestSuffix(domain);
    ParseWithPrefix(domain, prefix);
    ParseTailPrefix(id, tail);
  }

  lemma ParseAddress(domain: string, local: string, hostname: string)
    requires '@' !in hostname
    ensures ParseEmailAddress(domain, local + "@" + hostname)
         == match ParseHostname(domain, hostname) case Some(target) => Some(target.id) case None => None
  {
    LastIndexOfConcat(local, '@', hostname);
    assert (local + "@" + hostname)[|local| + 1..] == hostname;
  }

  lemma CapitalZoneIsNoHost(domain: string, hex: string)
    requires ValidDomain(domain)
    ensures ParseHostname(domain, hex + (".TEST." + domain)) == None
  {
    var host := hex + (".TEST." + domain);
    assert host[|host| - 1] == domain[|domain| - 1];
    assert host[|hex| + 1] == 'T';
    assert |TestSuffix(domain)| == |".TEST." + domain| && TestSuffix(domain)[1] == 't';
    assert host[|host| - |TestSuffix(domain)|..][1] == 'T';
  }

  lemma CapitalZoneFolds(domain: string, id: TestID)
    requires ValidDomain(domain)
    ensures ToLower(HexEncode(id) + (".TEST." + domain)) == MakeHostname(domain, id, "")
  {
    NoDotInHex(id);
    ToLowerConcat(HexEncode(id), ".TEST." + domain);
    ToLowerConcat(".TEST.", domain);
    assert ToLower(".TEST.") == ".test.";
  }

  lemma NoAtInCapitals(domain: string, id: TestID)
    requires ValidDomain(domain)
    ensures '@' !in HexEncode(id) + (".TEST." + domain)
  {
    HexEncodeText(id);
    assert '@' !in ".TEST.";
  }

  /** An address that writes the zone's first label in capitals is refused, although the same host in lower case
      belongs to the test: SMTP does not fold case. */
  lemma CapitalZoneIsRefused(domain: string, local: string, id: TestID)
    requires ValidDomain(domain)
    ensures var host := HexEncode(id) + (".TEST." + domain);
            && ParseEmailAddress(domain, local + "@" + host) == None
            && ParseHostname(domain, ToLower(host)) == Some(Target(id, ""))
  {
    var host := HexEncode(id) + (".TEST." + domain);
    CapitalZoneIsNoHost(domain, HexEncode(id));
    CapitalZoneFolds(domain, id);
    ParseAfterPrint(domain, id, "");
    assert ToLower("") == "";
    NoAtInCapitals(domain, id);
    ParseAddress(domain, local, host);
  }

  lemma SplitAtSign(local: string, s: string, k: nat, rest: string)
    requires k < |s| && s[k] == '@'
    ensures local + "@" + (s + rest) == (local + "@" + s[..k]) + "@" + (s[k + 1..] + rest)
  {
    assert s == s[..k] + "@" + s[k + 1..];
  }

  lemma MailThroughSubdomain(domain: string, local: string, id: TestID, subdomain: string, host: string)
    requires ValidDomain(domain) && host == HexEncode(id) + TestSuffix(domain) && '@' !in host
    ensures ParseEmailAddress(domain, local + "@" + (subdomain + "." + host)) == Some(id)
  {
    var at := LastIndex(subdomain, '@');
    var tail := subdomain[at + 1..];
    ParseTail(domain, id, tail);
    var head := if at == -1 then local else local + "@" + subdomain[..at];
    ParseAddress(domain, head, tail + "." + host);
    if at == -1 {
      assert tail == subdomain;
    } else {
      SplitAtSign(local, subdomain, at, "." + host);
      Assoc(subdomain, ".", host);
      Assoc(tail, ".", host);
    }
  }

  /** Mail to any local part at a test's host name reaches that test: the local part may hold "@"
      (section 4.1.2 of RFC 5321), and so may the subdomain. */
  lemma MailReachesTest(domain: string, local: string, id: TestID, subdomain: string)
    requires ValidDomain(domain)
    ensures ParseEmailAddress(domain, local + "@" + MakeHostname(domain, id, subdomain)) == Some(id)
  {
    NoAtInHost(domain, id);
    if subdomain == "" {
      ParseAfterPrint(domain, id, "");
      ParseAddress(domain, local, HexEncode(id) + TestSuffix(domain));
    } else {
      MailThroughSubdomain(domain, local, id, subdomain, HexEncode(id) + TestSuffix(domain));
      Assoc(subdomain + ".", HexEncode(id), TestSuffix(domain));
    }
  }
}
