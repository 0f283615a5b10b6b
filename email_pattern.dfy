/** The e-mail pattern of the contact form,
    `^[\w.!#$%&'*+/=?`{|}~-]+@[\w-]+(?:\.[\w-]+)+$` without flags: a local
    part of one or more allowed characters, one '@', then two or more labels
    of word characters and '-' joined by single dots. It is given twice, as
    the grammar the pattern denotes and as a left-to-right scanner, and the
    two are proved to accept the same strings. */
module EmailPattern {

  /** `\w` without the `u` and `i` flags: ASCII letters, digits and '_'. */
  predicate WordChar(c: char) {
    'A' <= c <= 'Z' || 'a' <= c <= 'z' || '0' <= c <= '9' || c == '_'
  }

  /** The class `[\w.!#$%&'*+/=?`{|}~-]` of the local part. */
  predicate LocalChar(c: char) {
    WordChar(c) || c == '.' || c == '!' || c == '#' || c == '$' || c == '%' || c == '&' ||
    c == '\'' || c == '*' || c == '+' || c == '/' || c == '=' || c == '?' || c == '`' ||
    c == '{' || c == '|' || c == '}' || c == '~' || c == '-'
  }

  /** The class `[\w-]` of a domain label. */
  predicate LabelChar(c: char) {
    WordChar(c) || c == '-'
  }

  //////////////////////////////////////////////////////////////////////
  // The language of the pattern
  //////////////////////////////////////////////////////////////////////

  /** `[\w.!#$%&'*+/=?`{|}~-]+` */
  ghost predicate IsLocalPart(s: string) {
    s != [] && forall k :: 0 <= k < |s| ==> LocalChar(s[k])
  }

  /** `[\w-]+` */
  ghost predicate IsLabel(s: string) {
    s != [] && forall k :: 0 <= k < |s| ==> LabelChar(s[k])
  }

  /** `[\w-]+(?:\.[\w-]+)*`: one or more labels joined by dots. */
  ghost predicate IsLabels(s: string)
    decreases |s|
  {
    IsLabel(s) || exists j :: 0 < j < |s| && IsLabel(s[..j]) && s[j] == '.' && IsLabels(s[j + 1..])
  }

  /** `[\w-]+(?:\.[\w-]+)+`: a label, a dot, and one or more labels. */
  ghost predicate IsDomain(s: string) {
    exists j :: 0 < j < |s| && IsLabel(s[..j]) && s[j] == '.' && IsLabels(s[j + 1..])
  }

  /** The whole string is a local part, '@' and a domain. */
  ghost predicate MatchesPattern(s: string) {
    exists i :: 0 < i < |s| && IsLocalPart(s[..i]) && s[i] == '@' && IsDomain(s[i + 1..])
  }

  //////////////////////////////////////////////////////////////////////
  // The scanner
  //////////////////////////////////////////////////////////////////////

  /** The length of the longest prefix of local-part characters. */
  function LocalRun(s: string): (n: nat)
    ensures n <= |s|
    ensures forall k :: 0 <= k < n ==> LocalChar(s[k])
    ensures n < |s| ==> !LocalChar(s[n])
  {
    if s == [] || !LocalChar(s[0]) then 0 else 1 + LocalRun(s[1..])
  }

  /** The length of the longest prefix of label characters. */
  function LabelRun(s: string): (n: nat)
    ensures n <= |s|
    ensures forall k :: 0 <= k < n ==> LabelChar(s[k])
    ensures n < |s| ==> !LabelChar(s[n])
  {
    if s == [] || !LabelChar(s[0]) then 0 else 1 + LabelRun(s[1..])
  }

  /** Reads a label, then either stops at the end or reads a dot and goes on. */
  function ScanLabels(s: string): bool
    decreases |s|
  {
    var n := LabelRun(s);
    n > 0 && (n == |s| || (s[n] == '.' && ScanLabels(s[n + 1..])))
  }

  /** Reads a label and a dot, then at least one more label. */
  function ScanDomain(s: string): bool {
    var n := LabelRun(s);
    0 < n < |s| && s[n] == '.' && ScanLabels(s[n + 1..])
  }

  /** `EMAIL_REGEX.test(s)`. */
  function IsEmail(s: string): bool {
    var n := LocalRun(s);
    0 < n < |s| && s[n] == '@' && ScanDomain(s[n + 1..])
  }

  //////////////////////////////////////////////////////////////////////
  // The scanner accepts exactly the language of the pattern
  //////////////////////////////////////////////////////////////////////

  /** A non-empty run of label characters is a label. */
  lemma RunIsLabel(s: string, n: nat)
    requires 0 < n <= |s| && n == LabelRun(s)
    ensures IsLabel(s[..n])
  {
    forall k | 0 <= k < n
      ensures LabelChar(s[..n][k])
    {
      assert s[..n][k] == s[k];
    }
  }

  /** A label followed by a non-label character ends where the run ends. */
  lemma LabelEndsAtRun(s: string, j: int)
    requires 0 < j < |s| && IsLabel(s[..j]) && !LabelChar(s[j])
    ensures LabelRun(s) == j
  {
  }

  lemma ScanLabelsIsLabels(s: string)
    ensures ScanLabels(s) <==> IsLabels(s)
  {
    if ScanLabels(s) {
      ScannedLabelsAreLabels(s);
    }
    if IsLabels(s) {
      LabelsAreScanned(s);
    }
  }

  lemma {:induction false} ScannedLabelsAreLabels(s: string)
    requires ScanLabels(s)
    ensures IsLabels(s)
    decreases |s|
  {
    var n := LabelRun(s);
    if n == |s| {
      assert IsLabel(s);
    } else {
      ScannedLabelsAreLabels(s[n + 1..]);
      RunIsLabel(s, n);
    }
  }

  lemma {:induction false} LabelsAreScanned(s: string)
    requires IsLabels(s)
    ensures ScanLabels(s)
    decreases |s|
  {
    if !IsLabel(s) {
      var j :| 0 < j < |s| && IsLabel(s[..j]) && s[j] == '.' && IsLabels(s[j + 1..]);
      LabelEndsAtRun(s, j);
      LabelsAreScanned(s[j + 1..]);
    }
  }

  lemma ScanDomainIsDomain(s: string)
    ensures ScanDomain(s) <==> IsDomain(s)
  {
    if ScanDomain(s) {
      ScannedDomainIsDomain(s);
    }
    if IsDomain(s) {
      DomainIsScanned(s);
    }
  }

  lemma ScannedDomainIsDomain(s: string)
    requires ScanDomain(s)
    ensures IsDomain(s)
  {
    var n := LabelRun(s);
    ScannedLabelsAreLabels(s[n + 1..]);
    RunIsLabel(s, n);
  }

  lemma DomainIsScanned(s: string)
    requires IsDomain(s)
    ensures ScanDomain(s)
  {
    var j :| 0 < j < |s| && IsLabel(s[..j]) && s[j] == '.' && IsLabels(s[j + 1..]);
    LabelEndsAtRun(s, j);
    LabelsAreScanned(s[j + 1..]);
  }

  /** The scanner and the pattern accept the same strings. */
  lemma IsEmailIsPattern(s: string)
    ensures IsEmail(s) <==> MatchesPattern(s)
  {
    if IsEmail(s) {
      ScannedIsPattern(s);
    }
    if MatchesPattern(s) {
      PatternIsScanned(s);
    }
  }

  lemma ScannedIsPattern(s: string)
    requires IsEmail(s)
    ensures MatchesPattern(s)
  {
    var n := LocalRun(s);
    ScanDomainIsDomain(s[n + 1..]);
    assert IsLocalPart(s[..n]);
  }

  lemma ScannedIsNotPattern(s: string)
    requires !IsEmail(s)
    ensures !MatchesPattern(s)
  {
    if MatchesPattern(s) {
      PatternIsScanned(s);
    }
  }

  lemma PatternIsScanned(s: string)
    requires MatchesPattern(s)
    ensures IsEmail(s)
  {
    var i :| 0 < i < |s| && IsLocalPart(s[..i]) && s[i] == '@' && IsDomain(s[i + 1..]);
    LocalEndsAtRun(s, i);
    ScanDomainIsDomain(s[i + 1..]);
  }

  /** A local part followed by '@' ends where the run of local characters
      ends. */
  lemma LocalEndsAtRun(s: string, i: int)
    requires 0 < i < |s| && IsLocalPart(s[..i]) && s[i] == '@'
    ensures LocalRun(s) == i
  {
    assert !LocalChar(s[i]);
  }

  //////////////////////////////////////////////////////////////////////
  // Examples
  //////////////////////////////////////////////////////////////////////

  /** An address with a dotted local part and a two-label domain matches. */
  lemma DottedAddressMatches()
    ensures MatchesPattern("a.b@c.jp")
  {
    var s := "a.b@c.jp";
    var d := s[4..];
    assert s[..3] == "a.b" && IsLocalPart(s[..3]);
    assert d[..1] == "c" && IsLabel(d[..1]);
    assert d[2..] == "jp" && IsLabel(d[2..]) && IsLabels(d[2..]);
    assert IsDomain(d);
  }

  /** A domain without a dot fails to match. */
  lemma BareHostFails()
    ensures !MatchesPattern("a@host")
  {
    var s := "a@host";
    var d := s[2..];
    assert s[..1] == "a" && IsLocalPart(s[..1]);
    LocalEndsAtRun(s, 1);
    assert d == "host" && IsLabel(d);
    ScannedIsNotPattern(s);
  }

  /** A domain with an empty label fails to match. */
  lemma EmptyLabelFails()
    ensures !MatchesPattern("a@b..jp")
  {
    var s := "a@b..jp";
    assert s[..1] == "a" && IsLocalPart(s[..1]);
    LocalEndsAtRun(s, 1);
    assert s[2..] == "b..jp";
    DoubleDotNotScanned();
    ScannedIsNotPattern(s);
  }

  lemma DoubleDotNotScanned()
    ensures !ScanDomain("b..jp")
  {
    var d := "b..jp";
    assert d[..1] == "b" && IsLabel(d[..1]);
    LabelEndsAtRun(d, 1);
    assert d[2..] == ".jp" && LabelRun(d[2..]) == 0;
  }

  /** An empty local part fails to match. */
  lemma EmptyLocalPartFails()
    ensures !MatchesPattern("@c.jp")
  {
    assert LocalRun("@c.jp") == 0;
    ScannedIsNotPattern("@c.jp");
  }

  /** A second '@' fails to match. */
  lemma SecondAtFails()
    ensures !MatchesPattern("a@@c.jp")
  {
    var s := "a@@c.jp";
    var d := s[2..];
    assert s[..1] == "a" && IsLocalPart(s[..1]);
    LocalEndsAtRun(s, 1);
    assert d == "@c.jp" && LabelRun(d) == 0;
    ScannedIsNotPattern(s);
  }
}
