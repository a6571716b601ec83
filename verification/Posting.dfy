/** dashboard.go: what a form posted to a running test asks for, and its validation. */
module Posting {
  import opened Options
  import opened Ascii
  import opened Records

  /** The decoded form; a field that was not sent reads as the empty string. */
  type Form = map<string, string>

  function FormValue(form: Form, field: string): string {
    if field in form then form[field] else ""
  }

  const AUTHORIZED_TARGETS := [
    "sectigo.com.", "comodoca.com.", "ssl.com.", "dcv.digicert.com.", "acm-validations.aws."
  ]

  const MAX_TXT := 255
  const MAX_TAG := 255
  const MAX_CONTENT := 512

  const PKI_VALIDATION := "/.well-known/pki-validation/"
  const ACME_CHALLENGE := "/.well-known/acme-challenge/"

  /** What serveTest goes on to do for a POST to a running test. */
  datatype Action =
    | Stop
    | AddRecord(record: PublishedRecord)
    | RemoveRecord(recordId: Option<nat>)
    | RemoveFile(fileId: Option<nat>)
    | AddFile(file: PublishedFile)
    | BadRequest
    | NoAction

  // Numbers

  /** Decimal digits only, as strconv.ParseUint reads base 10. */
  function DecimalValue(s: string): Option<nat> {
    if s == "" then None
    else if !('0' <= s[|s| - 1] <= '9') then None
    else
      var digit := s[|s| - 1] as int - 48;
      if |s| == 1 then Some(digit)
      else
        match DecimalValue(s[..|s| - 1])
        case None => None
        case Some(v) => Some(10 * v + digit)
  }

  /** A number as the dashboard prints it, in row ids among others. */
  function DecimalText(n: nat): string {
    (if n < 10 then "" else DecimalText(n / 10)) + [(n % 10 + 48) as char]
  }

  /** Every printed number reads back. */
  lemma {:induction false} DecimalRoundTrip(n: nat)
    ensures DecimalText(n) != "" && DecimalValue(DecimalText(n)) == Some(n)
  {
    var text := DecimalText(n);
    if n >= 10 {
      DecimalRoundTrip(n / 10);
      assert text[..|text| - 1] == DecimalText(n / 10);
    }
  }

  lemma DigitsOnly(c: char)
    ensures c in "0123456789" <==> '0' <= c <= '9'
  {
    if '0' <= c <= '9' {
      assert "0123456789"[c as int - 48] == c;
    }
  }

  /** Each further digit counts one. */
  lemma DigitAppended(s: string, d: nat)
    requires d < 10
    ensures DecimalValue(s + ["0123456789"[d]])
         == if s == "" then Some(d)
            else if DecimalValue(s).None? then None
            else Some(10 * DecimalValue(s).value + d)
  {
    assert "0123456789"[d] == (d + 48) as char;
    assert (s + ["0123456789"[d]])[..|s|] == s;
  }

  predicate Digits(s: string) {
    forall i :: 0 <= i < |s| ==> s[i] in "0123456789"
  }

  lemma DigitsFront(s: string)
    requires s != ""
    ensures Digits(s) <==> Digits(s[..|s| - 1]) && '0' <= s[|s| - 1] <= '9'
  {
    DigitsOnly(s[|s| - 1]);
    assert forall i :: 0 <= i < |s| - 1 ==> s[..|s| - 1][i] == s[i];
  }

  /** A number is read from a string exactly if it consists of digits. */
  lemma {:induction false} DigitsExactly(s: string)
    ensures DecimalValue(s).Some? <==> s != "" && Digits(s)
  {
    if s != "" {
      DigitsExactly(s[..|s| - 1]);
      DigitsFront(s);
    }
  }

  function ParseUint8(s: string): Option<nat> {
    match DecimalValue(s)
    case None => None
    case Some(v) => if v <= 255 then Some(v) else None
  }

  // Domain names

  /** A dot after an odd number of backslashes is an escaped dot, not a separator. */
  function TrailingBackslashes(s: string): nat {
    if s == "" || s[|s| - 1] != '\\' then 0 else 1 + TrailingBackslashes(s[..|s| - 1])
  }

  /** dns.IsSubDomain on dot-terminated names: the labels of parent end the labels of child. */
  predicate IsSubDomain(parent: string, child: string) {
    || child == parent
    || (HasSuffix(child, "." + parent) && TrailingBackslashes(TrimSuffix(child, "." + parent)) % 2 == 0)
  }

  predicate IsAuthorized(target: string) {
    exists i :: 0 <= i < |AUTHORIZED_TARGETS| && IsSubDomain(AUTHORIZED_TARGETS[i], target)
  }

  function WithDot(name: string): string {
    if HasSuffix(name, ".") then name else name + "."
  }

  /** The specification of normalizeAndValidateCNAMETarget. */
  function NormalizedTarget(cfg: Config, target: string): Option<string> {
    var name := ToLower(TrimSpace(target));
    if name == "" || !cfg.isDomainName(WithDot(name)) || !IsAuthorized(WithDot(name)) then None
    else Some(WithDot(name))
  }

  method NormalizeAndValidateCNAMETarget(cfg: Config, input: string) returns (r: Option<string>)
    ensures r == NormalizedTarget(cfg, input)
  {
    var target := ToLower(TrimSpace(input));
    if target == "" {
      return None;
    }
    if !HasSuffix(target, ".") {
      target := target + ".";
    }
    if !cfg.isDomainName(target) {
      return None;
    }
    for i := 0 to |AUTHORIZED_TARGETS|
      invariant forall k :: 0 <= k < i ==> !IsSubDomain(AUTHORIZED_TARGETS[k], target)
    {
      if IsSubDomain(AUTHORIZED_TARGETS[i], target) {
        return Some(target);
      }
    }
    return None;
  }

  /** A target that may be stored. */
  predicate GoodTarget(cfg: Config, target: string) {
    IsLower(target) && HasSuffix(target, ".") && cfg.isDomainName(target) && IsAuthorized(target)
  }

  lemma WithDotFacts(name: string)
    ensures HasSuffix(WithDot(name), ".")
    ensures IsLower(name) ==> IsLower(WithDot(name))
  {
    ToLowerConcat(name, ".");
    assert ToLower(".") == ".";
  }

  /** An accepted target is lower-case, ends in a dot and lies at or beneath an authorised domain. */
  lemma NormalizedTargetIsGood(cfg: Config, target: string)
    requires NormalizedTarget(cfg, target).Some?
    ensures GoodTarget(cfg, NormalizedTarget(cfg, target).value)
  {
    ToLowerTwice(TrimSpace(target));
    WithDotFacts(ToLower(TrimSpace(target)));
  }

  lemma LowerCaseKeepsSpace(c: char)
    ensures IsSpace(LowerChar(c)) <==> IsSpace(c)
  {
  }

  lemma NothingToTrim(s: string)
    requires s != "" && !IsSpace(s[0]) && !IsSpace(s[|s| - 1])
    ensures TrimSpace(s) == s
  {
  }

  lemma NormalizationIsIdempotent(cfg: Config, target: string)
    requires NormalizedTarget(cfg, target).Some?
    ensures var once := NormalizedTarget(cfg, target).value; NormalizedTarget(cfg, once) == Some(once)
  {
    var trimmed := TrimSpace(target);
    var once := NormalizedTarget(cfg, target).value;
    TrimSpaceEnds(target);
    LowerCaseKeepsSpace(trimmed[0]);
    NormalizedTargetIsGood(cfg, target);
    assert once[|once| - 1] == '.';
    NothingToTrim(once);
  }

  // Forms

  predicate ValidTag(tag: string) {
    0 < |tag| <= MAX_TAG
  }

  function DecodePostedRecord(cfg: Config, form: Form): Option<PublishedRecord> {
    var kind := FormValue(form, "add_dns_record");
    if kind == "TXT" then
      var txt := FormValue(form, "txt_data");
      if |txt| > MAX_TXT then None
      else Some(PublishedRecord(ToLower(FormValue(form, "txt_subdomain")), TYPE_TXT, TxtJson(txt)))
    else if kind == "CAA" then
      match ParseUint8(FormValue(form, "caa_flag"))
      case None => None
      case Some(flag) =>
        var tag := FormValue(form, "caa_tag");
        if !ValidTag(tag) then None
        else
          Some(PublishedRecord(ToLower(FormValue(form, "caa_subdomain")), TYPE_CAA,
                               CaaJson(flag, tag, FormValue(form, "caa_value"))))
    else if kind == "CNAME" then
      match NormalizedTarget(cfg, FormValue(form, "cname_target"))
      case None => None
      case Some(target) =>
        Some(PublishedRecord(ToLower(FormValue(form, "cname_subdomain")), TYPE_CNAME, CnameJson(target)))
    else None
  }

  function DecodePostedFile(form: Form): Option<PublishedFile> {
    var file := PublishedFile(FormValue(form, "file_scheme"), ToLower(FormValue(form, "file_subdomain")),
                              FormValue(form, "file_path"), FormValue(form, "file_content"));
    if file.scheme != "http" && file.scheme != "https" then None
    else if !HasPrefix(file.path, PKI_VALIDATION) && !HasPrefix(file.path, ACME_CHALLENGE) then None
    else if |file.content| > MAX_CONTENT then None
    else Some(file)
  }

  /** The branches of serveTest for a POST to a running test, in their order. */
  function DecodeAction(cfg: Config, form: Form): Action {
    if FormValue(form, "stop") != "" then Stop
    else if FormValue(form, "add_dns_record") != "" then
      match DecodePostedRecord(cfg, form)
      case None => BadRequest
      case Some(record) => AddRecord(record)
    else if FormValue(form, "rm_dns_record") != "" then RemoveRecord(DecimalValue(FormValue(form, "rm_dns_record")))
    else if FormValue(form, "rm_http_file") != "" then RemoveFile(DecimalValue(FormValue(form, "rm_http_file")))
    else if FormValue(form, "add_http_file") != "" then
      match DecodePostedFile(form)
      case None => BadRequest
      case Some(file) => AddFile(file)
    else NoAction
  }

  /** The bounds that hold of a record from the moment it is posted. */
  predicate GoodRecord(cfg: Config, record: PublishedRecord) {
    && IsLower(record.subdomain)
    && match record.data
       case TxtJson(txt) => record.rrtype == TYPE_TXT && |txt| <= MAX_TXT
       case CaaJson(flag, tag, value) => record.rrtype == TYPE_CAA && flag <= 255 && ValidTag(tag)
       case CnameJson(target) => record.rrtype == TYPE_CNAME && GoodTarget(cfg, target)
       case Malformed => false
  }

  predicate GoodFile(file: PublishedFile) {
    && IsLower(file.subdomain)
    && (file.scheme == "http" || file.scheme == "https")
    && (HasPrefix(file.path, PKI_VALIDATION) || HasPrefix(file.path, ACME_CHALLENGE))
    && |file.content| <= MAX_CONTENT
  }

  /** Whatever the form holds, only records and files within the bounds get past decoding. */
  lemma DecodedActionIsGood(cfg: Config, form: Form)
    ensures DecodeAction(cfg, form).AddRecord? ==> GoodRecord(cfg, DecodeAction(cfg, form).record)
    ensures DecodeAction(cfg, form).AddFile? ==> GoodFile(DecodeAction(cfg, form).file)
  {
    ToLowerTwice(FormValue(form, "txt_subdomain"));
    ToLowerTwice(FormValue(form, "caa_subdomain"));
    ToLowerTwice(FormValue(form, "cname_subdomain"));
    ToLowerTwice(FormValue(form, "file_subdomain"));
    var target := FormValue(form, "cname_target");
    if NormalizedTarget(cfg, target).Some? {
      NormalizedTargetIsGood(cfg, target);
    }
  }
}
