/** Exactly which host names, mail addresses and DNS questions belong to which test, said of their characters. */
module Names {
  import opened Options
  import opened Ascii
  import opened TestIds
  import opened Records
  import opened Targets
  import opened Dns

  // Test IDs

  /** The character is the hexadecimal digit of this value, in either case. */
  predicate Digit(c: char, v: int) {
    0 <= v < 16 && ("0123456789abcdef"[v] == c || "0123456789ABCDEF"[v] == c)
  }

  /** Two digits for each byte, the high one first. */
  predicate HexText(hex: string, b: seq<Byte>) {
    && |hex| == 2 * |b|
    && forall i :: 0 <= i < |b| ==> Digit(hex[2 * i], b[i] / 16) && Digit(hex[2 * i + 1], b[i] % 16)
  }

  lemma DigitIsValue(c: char, v: int)
    ensures Digit(c, v) <==> HexValue(c).Some? && HexValue(c).value == v
  {
    var lower, upper := "0123456789abcdef", "0123456789ABCDEF";
    if 0 <= v < 10 {
      assert lower[v] == (v + 48) as char == upper[v];
    } else if 10 <= v < 16 {
      assert lower[v] == (v + 87) as char && upper[v] == (v + 55) as char;
    }
  }

  lemma DecodesPair(hex: string, b: seq<Byte>)
    requires |hex| > 1 && b != []
    ensures HexDecode(hex) == Some(b)
       <==> Digit(hex[0], b[0] / 16) && Digit(hex[1], b[0] % 16) && HexDecode(hex[2..]) == Some(b[1..])
  {
    DecodePair(hex);
    DigitIsValue(hex[0], b[0] / 16);
    DigitIsValue(hex[1], b[0] % 16);
    if HexDecode(hex).Some? {
      HexValueDigit(hex[0]);
      HexValueDigit(hex[1]);
      assert HexDecode(hex).value[1..] == HexDecode(hex[2..]).value;
      assert b == [b[0]] + b[1..];
    }
  }

  lemma HexTextPair(hex: string, b: seq<Byte>)
    requires |hex| > 1 && b != []
    ensures HexText(hex, b) <==> Digit(hex[0], b[0] / 16) && Digit(hex[1], b[0] % 16) && HexText(hex[2..], b[1..])
  {
    if Digit(hex[0], b[0] / 16) && Digit(hex[1], b[0] % 16) && HexText(hex[2..], b[1..]) {
      forall i | 0 <= i < |b| ensures Digit(hex[2 * i], b[i] / 16) && Digit(hex[2 * i + 1], b[i] % 16) {
        if i > 0 {
          assert hex[2..][2 * (i - 1)] == hex[2 * i] && hex[2..][2 * (i - 1) + 1] == hex[2 * i + 1];
          assert b[1..][i - 1] == b[i];
        }
      }
    }
    if HexText(hex, b) {
      assert hex[2 * 0] == hex[0];
      forall i | 0 <= i < |b[1..]|
        ensures Digit(hex[2..][2 * i], b[1..][i] / 16) && Digit(hex[2..][2 * i + 1], b[1..][i] % 16)
      {
        assert hex[2..][2 * i] == hex[2 * (i + 1)] && hex[2..][2 * i + 1] == hex[2 * (i + 1) + 1];
        assert b[1..][i] == b[i + 1];
      }
    }
  }

  lemma {:induction false} DecodesHexText(hex: string, b: seq<Byte>)
    ensures HexText(hex, b) <==> HexDecode(hex) == Some(b)
    decreases |hex|
  {
    if |hex| > 1 && b != [] {
      DecodesHexText(hex[2..], b[1..]);
      DecodesPair(hex, b);
      HexTextPair(hex, b);
    } else if |hex| > 1 {
      DecodePair(hex);
    }
  }

  // Host names

  /** Labels, the ID and the zone, with or without a final dot: the labels in lower case are the subdomain. */
  predicate IsHost(domain: string, host: string, labels: string, hex: string, target: Target) {
    && (host == labels + hex + (".test." + domain) || host == labels + hex + (".test." + domain) + ".")
    && HexText(hex, target.id)
    && (if labels == "" then target.subdomain == ""
        else labels[|labels| - 1] == '.' && Folded(labels[..|labels| - 1], target.subdomain))
  }

  lemma NothingInFront(hex: string)
    ensures "" + hex == hex
  {
  }

  lemma DotInFront(labels: string)
    requires labels != "" && labels[|labels| - 1] == '.'
    ensures labels == labels[..|labels| - 1] + "."
  {
  }

  lemma PrefixIsParsed(labels: string, hex: string, target: Target)
    requires HexText(hex, target.id)
    requires if labels == "" then target.subdomain == ""
             else labels[|labels| - 1] == '.' && Folded(labels[..|labels| - 1], target.subdomain)
    ensures ParsePrefix(labels + hex) == Some(target)
  {
    DecodesHexText(hex, target.id);
    PrintedTestID(hex);
    if labels == "" {
      NothingInFront(hex);
      ParseDottedPrefix("", hex);
    } else {
      DotInFront(labels);
      ParseDottedPrefix(labels[..|labels| - 1], hex);
      FoldedIsToLower(labels[..|labels| - 1], target.subdomain);
    }
  }

  lemma HostIsParsed(domain: string, host: string, labels: string, hex: string, target: Target)
    requires ValidDomain(domain) && IsHost(domain, host, labels, hex, target)
    ensures ParseHostname(domain, host) == Some(target)
  {
    PrefixIsParsed(labels, hex, target);
    ParseWithPrefix(domain, labels + hex);
  }

  lemma ParsedIsHost(domain: string, host: string) returns (labels: string, hex: string)
    requires ValidDomain(domain) && ParseHostname(domain, host).Some?
    ensures IsHost(domain, host, labels, hex, ParseHostname(domain, host).value)
  {
    var target := ParseHostname(domain, host).value;
    var prefix := AcceptedShape(domain, host);
    labels, hex := PrefixShape(prefix);
    DecodesHexText(hex, target.id);
    if labels != "" {
      FoldedIsToLower(labels[..|labels| - 1], target.subdomain);
    }
  }

  /** A host name belongs to a test if and only if it consists of the ID in hexadecimal, in front of the zone, and
      possibly labels in front of the ID. */
  lemma HostExactly(domain: string, host: string, target: Target)
    requires ValidDomain(domain)
    ensures ParseHostname(domain, host) == Some(target)
       <==> exists labels, hex :: IsHost(domain, host, labels, hex, target)
  {
    if ParseHostname(domain, host) == Some(target) {
      var labels, hex := ParsedIsHost(domain, host);
    }
    if exists labels, hex :: IsHost(domain, host, labels, hex, target) {
      var labels, hex :| IsHost(domain, host, labels, hex, target);
      HostIsParsed(domain, host, labels, hex, target);
    }
  }

  /** The address is anything, an at-sign, and a host name of the test that has none. */
  ghost predicate IsAddress(domain: string, addr: string, local: string, host: string, t: TestID) {
    && addr == local + "@" + host && '@' !in host
    && exists subdomain :: ParseHostname(domain, host) == Some(Target(t, subdomain))
  }

  /** Mail is accepted for a test if and only if what follows the last at-sign is one of its host names. */
  lemma AddressExactly(domain: string, addr: string, t: TestID)
    ensures ParseEmailAddress(domain, addr) == Some(t)
       <==> exists local, host :: IsAddress(domain, addr, local, host, t)
  {
    if ParseEmailAddress(domain, addr) == Some(t) {
      var at := LastIndex(addr, '@');
      var local, host := addr[..at], addr[at + 1..];
      assert addr == local + "@" + host;
      assert ParseHostname(domain, host) == Some(Target(t, ParseHostname(domain, host).value.subdomain));
      assert IsAddress(domain, addr, local, host, t);
    }
    if exists local, host :: IsAddress(domain, addr, local, host, t) {
      var local, host :| IsAddress(domain, addr, local, host, t);
      ParseAddress(domain, local, host);
    }
  }

  // DNS questions

  /** A question is answered, and not refused, if and only if it is of class IN (1), not for a zone transfer (251 and
      252), and for a name at or beneath the zone in any letter case (section 3.2 of RFC 1035). */
  lemma ServedExactly(cfg: Config, question: Question, name: string)
    requires Folded(question.name, name)
    ensures Served(cfg, question)
       <==> question.qclass == 1 && question.qtype != 251 && question.qtype != 252
            && AtOrBeneath("test." + cfg.domain + ".", name)
  {
    FoldedIsToLower(question.name, name);
    SubDomainExactly("test." + cfg.domain + ".", name);
  }
}
