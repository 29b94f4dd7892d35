/** The three regular expressions the registration form and the registration
    service both apply (src/services/registrationService.js and
    src/pages/RegistrationPage.jsx), each given twice: as a scan over the
    characters, and as the shape the regular expression describes. */
module Validators {
  import opened Common

  /** Some character of `s` satisfies `p`. */
  function AnyChar(s: string, p: char -> bool): (r: bool)
    ensures r <==> exists i :: 0 <= i < |s| && p(s[i])
  {
    if s == [] then false
    else if p(s[0]) then true
    else
      var r := AnyChar(s[1..], p);
      assert forall i :: 1 <= i < |s| ==> s[i] == s[1..][i - 1];
      r
  }

  /** Every character of `s` satisfies `p`. */
  function AllChars(s: string, p: char -> bool): (r: bool)
    ensures r <==> forall i :: 0 <= i < |s| ==> p(s[i])
  {
    if s == [] then true
    else if !p(s[0]) then false
    else
      var r := AllChars(s[1..], p);
      assert forall i :: 1 <= i < |s| ==> s[i] == s[1..][i - 1];
      r
  }

  // ---------------------------------------------------------------------------
  // Email: /^[^\s@]+@[^\s@]+\.[^\s@]+$/

  /** The class `[^\s@]`. */
  predicate NotSpaceOrAt(c: char) {
    !IsWhitespace(c) && c != '@'
  }

  /** The run `[^\s@]+`. */
  ghost predicate Run(t: string) {
    t != "" && forall k :: 0 <= k < |t| ==> NotSpaceOrAt(t[k])
  }

  /** The domain part `[^\s@]+\.[^\s@]+`: two runs around a dot. The runs may
      themselves hold dots, so any inner dot will do. */
  ghost predicate DomainShape(d: string) {
    exists j :: 0 < j < |d| - 1 && d[j] == '.' && Run(d[..j]) && Run(d[j + 1..])
  }

  /** What the email expression matches: a run, `@`, a domain. */
  ghost predicate EmailShape(s: string) {
    exists a :: 0 < a < |s| && s[a] == '@' && Run(s[..a]) && DomainShape(s[a + 1..])
  }

  /** The domain check as a scan: no space or `@`, and a dot that is neither
      the first nor the last character. */
  function ValidDomain(d: string): bool {
    && AllChars(d, NotSpaceOrAt)
    && |d| >= 3
    && '.' in d[1..|d| - 1]
  }

  /** The email check as a scan: split at the first `@`; the part before is a
      non-empty run and the part after a valid domain. */
  function ValidEmail(s: string): (r: bool)
    ensures r ==> '@' in s && forall k :: 0 <= k < |s| ==> !IsWhitespace(s[k])
  {
    var (local, domain) := SplitFirst(s, '@');
    domain.Some? && local != "" && AllChars(local, NotSpaceOrAt) && ValidDomain(domain.value)
  }

  lemma DomainMatchesRegex(d: string)
    ensures ValidDomain(d) <==> DomainShape(d)
  {
    if ValidDomain(d) {
      var i :| 0 <= i < |d| - 2 && d[1..|d| - 1][i] == '.';
      var j := i + 1;
      assert d[j] == '.';
      assert Run(d[..j]) by {
        forall k | 0 <= k < j ensures NotSpaceOrAt(d[..j][k]) { assert d[..j][k] == d[k]; }
      }
      assert Run(d[j + 1..]) by {
        var rest := d[j + 1..];
        forall k | 0 <= k < |rest| ensures NotSpaceOrAt(rest[k]) { assert rest[k] == d[j + 1 + k]; }
      }
    }
    if DomainShape(d) {
      var j :| 0 < j < |d| - 1 && d[j] == '.' && Run(d[..j]) && Run(d[j + 1..]);
      assert d[1..|d| - 1][j - 1] == '.';
      forall k | 0 <= k < |d|
        ensures NotSpaceOrAt(d[k])
      {
        if k < j {
          assert d[k] == d[..j][k];
        } else if k > j {
          assert d[k] == d[j + 1..][k - j - 1];
        }
      }
    }
  }

  lemma EmailScanSound(s: string)
    requires ValidEmail(s)
    ensures EmailShape(s)
  {
    var (local, domain) := SplitFirst(s, '@');
    var d := domain.value;
    var a := |local|;
    assert s == local + ['@'] + d;
    assert s[..a] == local;
    assert s[a + 1..] == d;
    DomainMatchesRegex(d);
    assert 0 < a < |s| && s[a] == '@' && Run(s[..a]) && DomainShape(s[a + 1..]);
  }

  lemma EmailScanComplete(s: string)
    requires EmailShape(s)
    ensures ValidEmail(s)
  {
    var a :| 0 < a < |s| && s[a] == '@' && Run(s[..a]) && DomainShape(s[a + 1..]);
    SplitAround(s, a);
    EmailFromParts(s[..a], s[a + 1..]);
  }

  /** A run, `@`, and a domain pass the scan. */
  lemma EmailFromParts(local: string, d: string)
    requires Run(local) && DomainShape(d)
    ensures ValidEmail(local + ['@'] + d)
  {
    assert '@' !in local by {
      forall k | 0 <= k < |local| ensures local[k] != '@' { assert NotSpaceOrAt(local[k]); }
    }
    SplitFirstAt(local, '@', d);
    DomainMatchesRegex(d);
    assert AllChars(local, NotSpaceOrAt);
  }

  /** The scan accepts exactly the strings the expression matches. */
  lemma EmailMatchesRegex(s: string)
    ensures ValidEmail(s) <==> EmailShape(s)
  {
    if ValidEmail(s) { EmailScanSound(s); }
    if EmailShape(s) { EmailScanComplete(s); }
  }

  // ---------------------------------------------------------------------------
  // Password: /^(?=.*[a-z])(?=.*[A-Z])(?=.*\d).{8,}$/

  /** What the password expression matches: at least eight code units, none
      a line terminator (which `.` does not match), with an ASCII lower-case
      letter, an ASCII upper-case letter and an ASCII digit somewhere. The
      expression has no `u` flag, so `.` steps over one code unit; the line
      terminators all lie in the Basic Multilingual Plane, so checking them
      per character is the same as checking them per code unit. */
  ghost predicate PasswordShape(s: string) {
    && JsLength(s) >= 8
    && (forall k :: 0 <= k < |s| ==> !IsLineTerminator(s[k]))
    && (exists i :: 0 <= i < |s| && IsAsciiLower(s[i]))
    && (exists i :: 0 <= i < |s| && IsAsciiUpper(s[i]))
    && (exists i :: 0 <= i < |s| && IsAsciiDigit(s[i]))
  }

  predicate NotLineTerminator(c: char) {
    !IsLineTerminator(c)
  }

  function StrongPassword(s: string): (r: bool)
    ensures r <==> PasswordShape(s)
  {
    && JsLength(s) >= 8
    && AllChars(s, NotLineTerminator)
    && AnyChar(s, IsAsciiLower)
    && AnyChar(s, IsAsciiUpper)
    && AnyChar(s, IsAsciiDigit)
  }

  /** Length is counted in code units: three letters and digits followed by
      three emoji make six characters but nine code units, which is enough. */
  lemma AstralPasswordCountsUnits()
    ensures var s := "Aa1\U{1F600}\U{1F600}\U{1F600}";
            |s| == 6 && JsLength(s) == 9 && StrongPassword(s)
  {
    var s := "Aa1\U{1F600}\U{1F600}\U{1F600}";
    assert s[0] == 'A' && s[1] == 'a' && s[2] == '1';
  }

  // ---------------------------------------------------------------------------
  // Phone: /^[0-9]{10}$/

  function ValidPhone(s: string): (r: bool)
    ensures r <==> |s| == 10 && forall k :: 0 <= k < |s| ==> IsAsciiDigit(s[k])
  {
    |s| == 10 && AllChars(s, IsAsciiDigit)
  }
}
