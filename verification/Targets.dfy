/** Which CNAME targets a test may publish, said of the characters of what was posted. */
module Targets {
  import opened Options
  import opened Ascii
  import opened Records
  import opened Posting

  // Labels

  /** The string ends in exactly k backslashes. */
  predicate BackslashesAtEnd(s: string, k: nat) {
    && k <= |s|
    && (forall i :: |s| - k <= i < |s| ==> s[i] == '\\')
    && (k < |s| ==> s[|s| - k - 1] != '\\')
  }

  /** A dot put after this string is part of its last label. */
  ghost predicate Escapes(s: string) {
    exists k: nat :: BackslashesAtEnd(s, k) && k % 2 == 1
  }

  /** The name is the domain, or a label boundary and the domain end it. */
  ghost predicate AtOrBeneath(domain: string, name: string) {
    name == domain || exists front: string :: name == front + "." + domain && !Escapes(front)
  }

  lemma {:induction false} BackslashesCounted(s: string, k: nat)
    ensures BackslashesAtEnd(s, k) <==> k == TrailingBackslashes(s)
  {
    if s != "" && s[|s| - 1] == '\\' {
      var front := s[..|s| - 1];
      assert s == front + "\\";
      if k > 0 {
        BackslashesCounted(front, k - 1);
        if BackslashesAtEnd(s, k) {
          assert BackslashesAtEnd(front, k - 1);
        }
      }
    }
  }

  lemma EscapesCounted(s: string)
    ensures Escapes(s) <==> TrailingBackslashes(s) % 2 == 1
  {
    var k := TrailingBackslashes(s);
    BackslashesCounted(s, k);
    if Escapes(s) {
      var j: nat :| BackslashesAtEnd(s, j) && j % 2 == 1;
      BackslashesCounted(s, j);
    }
  }

  lemma FrontOfName(front: string, domain: string)
    ensures var name := front + "." + domain;
            HasSuffix(name, "." + domain) && TrimSuffix(name, "." + domain) == front
  {
    assert front + "." + domain == front + ("." + domain);
    SuffixOfConcat(front, "." + domain);
  }

  /** dns.IsSubDomain sees label boundaries, and takes an escaped dot for none. */
  lemma SubDomainExactly(domain: string, name: string)
    ensures IsSubDomain(domain, name) <==> AtOrBeneath(domain, name)
  {
    if name != domain {
      if IsSubDomain(domain, name) {
        var front := TrimSuffix(name, "." + domain);
        SplitSuffix(name, "." + domain);
        EscapesCounted(front);
        assert name == front + ("." + domain) == front + "." + domain;
      }
      if AtOrBeneath(domain, name) {
        var front :| name == front + "." + domain && !Escapes(front);
        FrontOfName(front, domain);
        EscapesCounted(front);
      }
    }
  }

  // Targets

  /** The domains of certificate authorities. */
  predicate Listed(domain: string) {
    domain in {"sectigo.com.", "comodoca.com.", "ssl.com.", "dcv.digicert.com.", "acm-validations.aws."}
  }

  ghost predicate Covered(name: string) {
    exists domain :: Listed(domain) && AtOrBeneath(domain, name)
  }

  lemma ListedIsAuthorized(domain: string, name: string)
    requires Listed(domain) && IsSubDomain(domain, name)
    ensures IsAuthorized(name)
  {
    var listed := AUTHORIZED_TARGETS;
    var i := if domain == listed[0] then 0 else if domain == listed[1] then 1 else if domain == listed[2] then 2
             else if domain == listed[3] then 3 else 4;
    assert domain == listed[i];
  }

  lemma AuthorizedIsListed(name: string) returns (domain: string)
    requires IsAuthorized(name)
    ensures Listed(domain) && IsSubDomain(domain, name)
  {
    var listed := AUTHORIZED_TARGETS;
    var i :| 0 <= i < |listed| && IsSubDomain(listed[i], name);
    domain := listed[i];
    assert i == 0 || i == 1 || i == 2 || i == 3 || i == 4;
  }

  lemma AuthorizedExactly(name: string)
    ensures IsAuthorized(name) <==> Covered(name)
  {
    if IsAuthorized(name) {
      var domain := AuthorizedIsListed(name);
      SubDomainExactly(domain, name);
    }
    if Covered(name) {
      var domain :| Listed(domain) && AtOrBeneath(domain, name);
      SubDomainExactly(domain, name);
      ListedIsAuthorized(domain, name);
    }
  }

  predicate Blank(s: string) {
    forall i :: 0 <= i < |s| ==> s[i] as int in {9, 10, 11, 12, 13, 32}
  }

  /** What is typed for a target: blanks around a core, which is the target in any letter case, or that without its
      final dot. */
  predicate TypedAs(before: string, core: string, after: string, target: string) {
    && Blank(before) && Blank(after)
    && core != "" && !Blank([core[0]]) && !Blank([core[|core| - 1]])
    && Folded(if core[|core| - 1] == '.' then core else core + ".", target)
  }

  lemma {:induction false} TrimLeftBlank(before: string, rest: string)
    requires Blank(before) && (rest != "" ==> !IsSpace(rest[0]))
    ensures TrimLeft(before + rest) == rest
  {
    if before == "" {
      assert before + rest == rest;
    } else {
      assert (before + rest)[1..] == before[1..] + rest;
      TrimLeftBlank(before[1..], rest);
    }
  }

  lemma {:induction false} TrimRightBlank(rest: string, after: string)
    requires Blank(after) && (rest != "" ==> !IsSpace(rest[|rest| - 1]))
    ensures TrimRight(rest + after) == rest
    decreases |after|
  {
    if after == "" {
      assert rest + after == rest;
    } else {
      assert (rest + after)[..|rest + after| - 1] == rest + after[..|after| - 1];
      TrimRightBlank(rest, after[..|after| - 1]);
    }
  }

  lemma TrimmedCore(before: string, core: string, after: string)
    requires Blank(before) && Blank(after)
    requires core != "" && !Blank([core[0]]) && !Blank([core[|core| - 1]])
    ensures TrimSpace(before + core + after) == core
  {
    assert [core[0]][0] == core[0] && [core[|core| - 1]][0] == core[|core| - 1];
    assert before + core + after == before + (core + after);
    TrimLeftBlank(before, core + after);
    TrimRightBlank(core, after);
  }

  lemma FirstAndRest(s: string, front: string, back: string)
    requires s != "" && s[1..] == front + back
    ensures s == ([s[0]] + front) + back
  {
  }

  lemma {:induction false} SplitLeft(s: string) returns (before: string)
    ensures Blank(before) && s == before + TrimLeft(s)
  {
    if s == "" || !IsSpace(s[0]) {
      before := "";
    } else {
      var rest := SplitLeft(s[1..]);
      before := [s[0]] + rest;
      FirstAndRest(s, rest, TrimLeft(s[1..]));
    }
  }

  lemma {:induction false} SplitRight(s: string) returns (after: string)
    ensures Blank(after) && s == TrimRight(s) + after
  {
    if s == "" || !IsSpace(s[|s| - 1]) {
      after := "";
    } else {
      var rest := SplitRight(s[..|s| - 1]);
      after := rest + [s[|s| - 1]];
      assert s == s[..|s| - 1] + [s[|s| - 1]];
    }
  }

  lemma FoldedDot(core: string)
    requires core != ""
    ensures ToLower(core) != "" && (ToLower(core)[|core| - 1] == '.' <==> core[|core| - 1] == '.')
    ensures WithDot(ToLower(core)) == ToLower(if core[|core| - 1] == '.' then core else core + ".")
  {
    ToLowerConcat(core, ".");
    assert ToLower(".") == ".";
    assert HasSuffix(ToLower(core), ".") <==> ToLower(core)[|core| - 1] == '.';
  }

  lemma NormalizedCore(cfg: Config, before: string, core: string, after: string, target: string)
    requires TypedAs(before, core, after, target)
    ensures NormalizedTarget(cfg, before + core + after)
         == if cfg.isDomainName(target) && IsAuthorized(target) then Some(target) else None
  {
    TrimmedCore(before, core, after);
    FoldedDot(core);
    FoldedIsToLower(if core[|core| - 1] == '.' then core else core + ".", target);
  }

  /** A target is accepted, however it is typed, if and only if it is a domain name at or beneath one of the listed
      domains, at a label boundary. */
  lemma TargetExactly(cfg: Config, before: string, core: string, after: string, target: string)
    requires TypedAs(before, core, after, target)
    ensures NormalizedTarget(cfg, before + core + after)
         == if cfg.isDomainName(target) && Covered(target) then Some(target) else None
  {
    NormalizedCore(cfg, before, core, after, target);
    AuthorizedExactly(target);
  }

  lemma BlankIsRefused(cfg: Config, input: string)
    requires TrimSpace(input) == ""
    ensures NormalizedTarget(cfg, input) == None
  {
  }

  lemma SplitInput(input: string) returns (before: string, after: string)
    ensures Blank(before) && Blank(after) && input == before + TrimSpace(input) + after
  {
    before := SplitLeft(input);
    after := SplitRight(TrimLeft(input));
    assert before + (TrimSpace(input) + after) == before + TrimSpace(input) + after;
  }

  lemma CoreIsTyped(before: string, input: string, after: string) returns (target: string)
    requires Blank(before) && Blank(after) && TrimSpace(input) != ""
    ensures TypedAs(before, TrimSpace(input), after, target)
  {
    var core := TrimSpace(input);
    var dotted := if core[|core| - 1] == '.' then core else core + ".";
    target := ToLower(dotted);
    TrimSpaceEnds(input);
    FoldedIsToLower(dotted, target);
    assert [core[0]][0] == core[0] && [core[|core| - 1]][0] == core[|core| - 1];
  }

  /** Whatever is typed is refused because there is nothing but blanks in it, or is typed as some target. */
  lemma EveryInput(cfg: Config, input: string) returns (before: string, core: string, after: string, target: string)
    ensures input == before + core + after && Blank(before) && Blank(after)
    ensures if core == "" then NormalizedTarget(cfg, input) == None else TypedAs(before, core, after, target)
  {
    core, target := TrimSpace(input), "";
    before, after := SplitInput(input);
    if core == "" {
      BlankIsRefused(cfg, input);
    } else {
      target := CoreIsTyped(before, input, after);
    }
  }

  // Names that only look as if they were beneath a listed domain

  lemma BeneathOwnDomain(front: string, domain: string)
    requires front != "" && AtOrBeneath(domain, front + domain)
    ensures front[|front| - 1] == '.' && !Escapes(front[..|front| - 1])
  {
    var name := front + domain;
    var g: string :| name == g + "." + domain && !Escapes(g);
    assert |g| + 1 == |front|;
    assert name[..|front|] == front && (g + "." + domain)[..|front|] == g + ".";
    assert front[..|front| - 1] == g;
  }

  lemma GluedIsNotBeneath(front: string, domain: string)
    requires front != "" && (front[|front| - 1] != '.' || Escapes(front[..|front| - 1]))
    ensures !AtOrBeneath(domain, front + domain)
  {
    if AtOrBeneath(domain, front + domain) {
      BeneathOwnDomain(front, domain);
    }
  }

  /** A listed domain with something in front of it that does not end in an unescaped dot is refused, unless another
      listed domain covers the whole name. */
  lemma GluedTargetIsRefused(cfg: Config, before: string, core: string, after: string, front: string, domain: string)
    requires TypedAs(before, core, after, front + domain) && Listed(domain)
    requires front != "" && (front[|front| - 1] != '.' || Escapes(front[..|front| - 1]))
    requires forall other :: Listed(other) && other != domain ==> !AtOrBeneath(other, front + domain)
    ensures NormalizedTarget(cfg, before + core + after) == None
  {
    TargetExactly(cfg, before, core, after, front + domain);
    GluedIsNotBeneath(front, domain);
  }

  lemma BeneathIsLonger(domain: string, name: string)
    ensures AtOrBeneath(domain, name) ==> |domain| <= |name|
  {
  }

  /** An example: "notssl.com." is not beneath "ssl.com.". */
  lemma NotSslIsRefused(cfg: Config)
    ensures NormalizedTarget(cfg, "notssl.com.") == None
  {
    var name := "notssl.com.";
    assert name == "not" + "ssl.com." == "" + name + "";
    assert [name[0]] == "n" && "n"[0] == 'n' && [name[|name| - 1]] == "." && "."[0] == '.';
    forall other | Listed(other) && other != "ssl.com." ensures !AtOrBeneath(other, "not" + "ssl.com.") {
      assert |other| > |name|;
      BeneathIsLonger(other, name);
    }
    GluedTargetIsRefused(cfg, "", name, "", "not", "ssl.com.");
  }
}
