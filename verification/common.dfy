/** Shared vocabulary of the console model: optional values, results, the
    JavaScript string operations the pages rely on (trim, case folding,
    `includes`, truthiness), decimal rendering of numbers, and the
    order-preserving filter every list page applies. */
module Common {

  /** A value that may be missing (`null` / `undefined` in the console). */
  datatype Option<+T> = None | Some(value: T) {
    /** The value, or `default` when missing (JavaScript `x ?? d`). */
    function GetOr(default: T): T {
      match this
      case Some(v) => v
      case None => default
    }
  }

  /** The outcome of a call that may throw or reject. */
  datatype Result<+T, +E> = Ok(value: T) | Err(error: E)

  // ---------------------------------------------------------------------------
  // Truthiness

  /** A JavaScript string value is truthy iff it is present and non-empty. */
  predicate Truthy(s: Option<string>) {
    s.Some? && s.value != ""
  }

  /** JavaScript `s || fallback` for an optional string. */
  function OrElse(s: Option<string>, fallback: string): (r: string)
    ensures Truthy(s) ==> r == s.value
    ensures !Truthy(s) ==> r == fallback
  {
    if Truthy(s) then s.value else fallback
  }

  /** JavaScript `n || 0` for an optional number. */
  function NumOrZero(n: Option<int>): (r: int)
    ensures n.Some? ==> r == n.value
    ensures n.None? ==> r == 0
  {
    if n.Some? && n.value != 0 then n.value else 0
  }

  // ---------------------------------------------------------------------------
  // Character classes (ECMAScript)

  /** The ECMAScript WhiteSpace and LineTerminator code points: what the regex
      class `\s` matches and what `String.prototype.trim` removes. */
  predicate IsWhitespace(c: char) {
    || c == '\t' || c == '\n' || c == '\U{000B}' || c == '\U{000C}' || c == '\r'
    || c == ' ' || c == '\U{00A0}' || c == '\U{1680}'
    || ('\U{2000}' <= c <= '\U{200A}')
    || c == '\U{2028}' || c == '\U{2029}' || c == '\U{202F}' || c == '\U{205F}'
    || c == '\U{3000}' || c == '\U{FEFF}'
  }

  /** The code points the regex `.` does not match. */
  predicate IsLineTerminator(c: char) {
    c == '\n' || c == '\r' || c == '\U{2028}' || c == '\U{2029}'
  }

  predicate IsAsciiDigit(c: char) { '0' <= c <= '9' }
  predicate IsAsciiLower(c: char) { 'a' <= c <= 'z' }
  predicate IsAsciiUpper(c: char) { 'A' <= c <= 'Z' }

  // ---------------------------------------------------------------------------
  // Case folding (ASCII letters only)

  function LowerChar(c: char): char {
    if IsAsciiUpper(c) then (c as int - 'A' as int + 'a' as int) as char else c
  }

  function UpperChar(c: char): char {
    if IsAsciiLower(c) then (c as int - 'a' as int + 'A' as int) as char else c
  }

  /** `toLowerCase`, folding ASCII letters. */
  function Lower(s: string): (r: string)
    ensures |r| == |s|
    ensures forall i :: 0 <= i < |s| ==> r[i] == LowerChar(s[i])
  {
    seq(|s|, i requires 0 <= i < |s| => LowerChar(s[i]))
  }

  /** `toUpperCase`, folding ASCII letters. */
  function Upper(s: string): (r: string)
    ensures |r| == |s|
    ensures forall i :: 0 <= i < |s| ==> r[i] == UpperChar(s[i])
  {
    seq(|s|, i requires 0 <= i < |s| => UpperChar(s[i]))
  }

  lemma UpperAppend(a: string, b: string)
    ensures Upper(a + b) == Upper(a) + Upper(b)
  {
  }

  // ---------------------------------------------------------------------------
  // UTF-16 code units
  //
  // A Dafny `char` is a Unicode scalar value, while a JavaScript string is a
  // sequence of UTF-16 code units: `length`, indexing, `charAt` and the
  // regular expressions without the `u` flag all work on code units.

  /** A UTF-16 code unit. */
  type CodeUnit = u: int | 0 <= u < 0x1_0000

  /** A character outside the Basic Multilingual Plane, which JavaScript
      stores as a surrogate pair. */
  predicate IsAstral(c: char) {
    c as int > 0xFFFF
  }

  predicate IsHighSurrogate(u: CodeUnit) { 0xD800 <= u < 0xDC00 }
  predicate IsLowSurrogate(u: CodeUnit) { 0xDC00 <= u < 0xE000 }

  /** The code units of one character: the character itself in the Basic
      Multilingual Plane, otherwise a high surrogate and a low surrogate. */
  function CharUnits(c: char): (u: seq<CodeUnit>)
    ensures |u| == (if IsAstral(c) then 2 else 1)
    ensures !IsAstral(c) ==> u == [c as int] && !IsHighSurrogate(u[0]) && !IsLowSurrogate(u[0])
    ensures IsAstral(c) ==> IsHighSurrogate(u[0]) && IsLowSurrogate(u[1])
  {
    if IsAstral(c) then
      var v := c as int - 0x10000;
      [0xD800 + v / 0x400, 0xDC00 + v % 0x400]
    else [c as int]
  }

  /** A surrogate pair combines back into the character it encodes. */
  lemma CharUnitsDecode(c: char)
    requires IsAstral(c)
    ensures 0x10000 + (CharUnits(c)[0] as int - 0xD800) * 0x400 + (CharUnits(c)[1] as int - 0xDC00) == c as int
  {
  }

  /** The code units of a text. */
  function Utf16(s: string): (u: seq<CodeUnit>)
    ensures |s| <= |u| <= 2 * |s|
    ensures |u| == |s| <==> forall k :: 0 <= k < |s| ==> !IsAstral(s[k])
    ensures s != [] ==> u[0] == CharUnits(s[0])[0]
  {
    if s == [] then []
    else
      var rest := Utf16(s[1..]);
      assert forall k :: 1 <= k < |s| ==> s[k] == s[1..][k - 1];
      CharUnits(s[0]) + rest
  }

  /** Encoding distributes over concatenation. */
  lemma {:induction false} Utf16Append(a: string, b: string)
    ensures Utf16(a + b) == Utf16(a) + Utf16(b)
  {
    if a == [] {
      assert a + b == b;
    } else {
      assert (a + b)[1..] == a[1..] + b;
      Utf16Append(a[1..], b);
      ConcatAssoc(CharUnits(a[0]), Utf16(a[1..]), Utf16(b));
    }
  }

  /** Inside the Basic Multilingual Plane a text has one code unit per
      character, equal to it. */
  lemma {:induction false} Utf16Bmp(s: string)
    requires forall k :: 0 <= k < |s| ==> !IsAstral(s[k])
    ensures |Utf16(s)| == |s|
    ensures forall k :: 0 <= k < |s| ==> Utf16(s)[k] == s[k] as int
  {
    if s != [] {
      assert forall k :: 1 <= k < |s| ==> s[1..][k - 1] == s[k];
      Utf16Bmp(s[1..]);
      assert Utf16(s) == [s[0] as int] + Utf16(s[1..]);
    }
  }

  /** `toUpperCase` on code units, folding ASCII letters; a lone surrogate
      is left as it is. */
  function UpperUnit(u: CodeUnit): CodeUnit {
    if 'a' as int <= u <= 'z' as int then u - 32 else u
  }

  function UpperUnits(us: seq<CodeUnit>): (r: seq<CodeUnit>)
    ensures |r| == |us|
    ensures forall i :: 0 <= i < |us| ==> r[i] == UpperUnit(us[i])
  {
    seq(|us|, i requires 0 <= i < |us| => UpperUnit(us[i]))
  }

  /** Folding a character and then encoding it is encoding it and then
      folding its code units. */
  lemma UpperCharUnits(c: char)
    ensures CharUnits(UpperChar(c)) == UpperUnits(CharUnits(c))
  {
  }

  /** JavaScript's `length`: the number of code units. */
  function JsLength(s: string): nat {
    |Utf16(s)|
  }

  // ---------------------------------------------------------------------------
  // Substrings

  /** `t` occurs in `s` starting at position `i`. */
  ghost predicate OccursAt(s: string, t: string, i: int) {
    0 <= i && i + |t| <= |s| && s[i..i + |t|] == t
  }

  /** JavaScript `s.includes(t)`. */
  function Includes(s: string, t: string): (r: bool)
    ensures r <==> exists i :: OccursAt(s, t, i)
    decreases |s|
  {
    if |t| > |s| then false
    else if t == s[..|t|] then
      assert OccursAt(s, t, 0);
      true
    else
      var tail := s[1..];
      var rest := Includes(tail, t);
      if rest then
        assert exists i :: OccursAt(s, t, i) by {
          var i :| OccursAt(tail, t, i);
          assert tail[i..i + |t|] == s[i + 1..i + 1 + |t|];
          assert OccursAt(s, t, i + 1);
        }
        true
      else
        assert forall i :: OccursAt(s, t, i) ==> OccursAt(tail, t, i - 1) by {
          forall i | OccursAt(s, t, i)
            ensures OccursAt(tail, t, i - 1)
          {
            assert s[i..i + |t|] == t;
            assert i > 0;
            assert tail[i - 1..i - 1 + |t|] == s[i..i + |t|];
          }
        }
        false
  }

  /** Every string includes the empty string. */
  lemma IncludesEmpty(s: string)
    ensures Includes(s, "")
  {
    assert OccursAt(s, "", 0);
  }

  /** Case-insensitive `includes` as the pages write it:
      `s.toLowerCase().includes(term.toLowerCase())`. */
  function MatchesTerm(s: string, term: string): bool {
    Includes(Lower(s), Lower(term))
  }

  /** The optional-chained form `s?.toLowerCase().includes(...)`: a missing
      field never matches. */
  function MatchesOptional(s: Option<string>, term: string): bool {
    s.Some? && MatchesTerm(s.value, term)
  }

  /** With an empty term an optional field matches exactly when present. */
  lemma MatchesOptionalEmptyTerm(s: Option<string>)
    ensures MatchesOptional(s, "") <==> s.Some?
  {
    if s.Some? {
      IncludesEmpty(Lower(s.value));
    }
  }

  // ---------------------------------------------------------------------------
  // Trimming

  predicate AllWhitespace(s: string) {
    forall i :: 0 <= i < |s| ==> IsWhitespace(s[i])
  }

  function TrimStart(s: string): (r: string)
    ensures |r| <= |s| && r == s[|s| - |r|..]
    ensures AllWhitespace(s[..|s| - |r|])
    ensures r != "" ==> !IsWhitespace(r[0])
  {
    if s == "" || !IsWhitespace(s[0]) then s else TrimStart(s[1..])
  }

  function TrimEnd(s: string): (r: string)
    ensures |r| <= |s| && r == s[..|r|]
    ensures AllWhitespace(s[|r|..])
    ensures r != "" ==> !IsWhitespace(r[|r| - 1])
  {
    if s == "" || !IsWhitespace(s[|s| - 1]) then s else TrimEnd(s[..|s| - 1])
  }

  /** JavaScript `s.trim()`: the slice left after dropping leading and
      trailing whitespace. */
  function Trim(s: string): (r: string)
    ensures |r| <= |s|
    ensures exists i :: TrimmedAt(s, r, i)
    ensures r != "" ==> !IsWhitespace(r[0]) && !IsWhitespace(r[|r| - 1])
  {
    TrimStartThenEnd(s);
    TrimEnd(TrimStart(s))
  }

  lemma TrimStartThenEnd(s: string)
    ensures TrimmedAt(s, TrimEnd(TrimStart(s)), |s| - |TrimStart(s)|)
  {
    var a := TrimStart(s);
    TrimmedAtOf(s, a, TrimEnd(a), |s| - |a|);
  }

  /** A whitespace prefix dropped, then a whitespace suffix dropped. */
  lemma TrimmedAtOf(s: string, a: string, r: string, i: int)
    requires 0 <= i <= |s| && a == s[i..] && AllWhitespace(s[..i])
    requires |r| <= |a| && r == a[..|r|] && AllWhitespace(a[|r|..])
    ensures TrimmedAt(s, r, i)
  {
    assert s[i..][..|r|] == s[i..i + |r|];
    assert s[i..][|r|..] == s[i + |r|..];
  }

  /** `r` is `s` with whitespace-only prefix `s[..i]` and suffix removed. */
  ghost predicate TrimmedAt(s: string, r: string, i: int) {
    && OccursAt(s, r, i)
    && AllWhitespace(s[..i])
    && AllWhitespace(s[i + |r|..])
  }

  /** The trimmed string is empty exactly when the string is all whitespace. */
  lemma {:induction false} TrimEmptyIffBlank(s: string)
    ensures Trim(s) == "" <==> AllWhitespace(s)
  {
    var a := TrimStart(s);
    assert s == s[..|s| - |a|] + a;
    if a == "" {
      assert AllWhitespace(s);
    } else {
      assert !IsWhitespace(a[0]);
      assert !IsWhitespace(s[|s| - |a|]);
      var r := TrimEnd(a);
      assert AllWhitespace(a[|r|..]);
      assert |r| == |a| || IsWhitespace(a[|r|]) by {
        if |r| < |a| {
          assert a[|r|..][0] == a[|r|];
        }
      }
    }
  }

  // ---------------------------------------------------------------------------
  // Decimal numbers (template-literal rendering of non-negative integers)

  function DigitChar(d: nat): char
    requires d < 10
  {
    ('0' as int + d) as char
  }

  /** `${n}` for a non-negative integer. */
  function Dec(n: nat): (r: string)
    ensures r != ""
    ensures forall i :: 0 <= i < |r| ==> IsAsciiDigit(r[i])
    ensures |r| > 1 ==> r[0] != '0'
  {
    if n < 10 then [DigitChar(n)] else Dec(n / 10) + [DigitChar(n % 10)]
  }

  /** The value of a string of ASCII digits. */
  function DigitsValue(s: string): nat
    requires forall i :: 0 <= i < |s| ==> IsAsciiDigit(s[i])
  {
    if s == "" then 0
    else
      assert IsAsciiDigit(s[|s| - 1]);
      10 * DigitsValue(s[..|s| - 1]) + (s[|s| - 1] as int - '0' as int)
  }

  /** Reading back a rendered number gives the number. */
  lemma {:induction false} DecRoundTrip(n: nat)
    ensures DigitsValue(Dec(n)) == n
  {
    if n >= 10 {
      var r := Dec(n);
      assert r[..|r| - 1] == Dec(n / 10);
      DecRoundTrip(n / 10);
    }
  }

  /** Different numbers render differently. */
  lemma DecInjective(m: nat, n: nat)
    requires Dec(m) == Dec(n)
    ensures m == n
  {
    DecRoundTrip(m);
    DecRoundTrip(n);
  }

  /** `${n}` for any integer. */
  function IntStr(n: int): (r: string)
    ensures r != ""
    ensures n >= 0 ==> r == Dec(n)
    ensures n < 0 ==> r == "-" + Dec(-n)
  {
    if n < 0 then "-" + Dec(-n) else Dec(n)
  }

  // ---------------------------------------------------------------------------
  // Sequences

  /** `a` is an order-preserving subsequence of `b`. */
  predicate IsSubsequence<T(==)>(a: seq<T>, b: seq<T>)
    decreases |b|
  {
    if a == [] then true
    else if b == [] then false
    else if a[0] == b[0] then IsSubsequence(a[1..], b[1..])
    else IsSubsequence(a, b[1..])
  }

  /** `Array.prototype.filter`: the elements satisfying `p`, in order. */
  function Filter<T(==,!new)>(xs: seq<T>, p: T -> bool): (r: seq<T>)
    ensures |r| <= |xs|
    ensures forall i :: 0 <= i < |r| ==> p(r[i])
    ensures forall i :: 0 <= i < |xs| && p(xs[i]) ==> xs[i] in r
    ensures IsSubsequence(r, xs)
  {
    if xs == [] then []
    else
      var rest := Filter(xs[1..], p);
      assert xs == [xs[0]] + xs[1..];
      if p(xs[0]) then [xs[0]] + rest else rest
  }

  /** Filtering keeps every qualifying value as often as it occurs, and no
      other value. */
  lemma {:induction false} FilterCounts<T(!new)>(xs: seq<T>, p: T -> bool)
    ensures forall x :: multiset(Filter(xs, p))[x] == if p(x) then multiset(xs)[x] else 0
  {
    if xs != [] {
      FilterCounts(xs[1..], p);
      assert xs == [xs[0]] + xs[1..];
      assert multiset(xs) == multiset{xs[0]} + multiset(xs[1..]);
    }
  }

  /** The positions of `xs` whose element satisfies `p`. */
  function Matching<T>(xs: seq<T>, p: T -> bool): set<nat> {
    set i: nat | i < |xs| && p(xs[i])
  }

  /** `xs.filter(p).length`: the number of positions holding a qualifying
      element. */
  function Count<T(==,!new)>(xs: seq<T>, p: T -> bool): (n: nat)
    ensures n <= |xs|
    ensures n == |Matching(xs, p)|
  {
    CountMatching(xs, p);
    |Filter(xs, p)|
  }

  lemma {:induction false} CountMatching<T(!new)>(xs: seq<T>, p: T -> bool)
    ensures |Filter(xs, p)| == |Matching(xs, p)|
  {
    if xs != [] {
      var init, last := xs[..|xs| - 1], xs[|xs| - 1];
      assert xs == init + [last];
      FilterSnoc(init, last, p);
      MatchingSnoc(init, last, p);
      CountMatching(init, p);
    }
  }

  lemma FilterSnoc<T(!new)>(init: seq<T>, last: T, p: T -> bool)
    ensures Filter(init + [last], p) == Filter(init, p) + (if p(last) then [last] else [])
  {
    FilterAppend(init, [last], p);
    FilterCons([last], p);
    assert [last][1..] == [];
  }

  lemma MatchingSnoc<T>(init: seq<T>, last: T, p: T -> bool)
    ensures |Matching(init + [last], p)| == |Matching(init, p)| + (if p(last) then 1 else 0)
  {
    var xs := init + [last];
    var tail: set<nat> := if p(last) then {|init|} else {};
    forall i: nat ensures i in Matching(xs, p) <==> i in Matching(init, p) + tail {
      if i < |init| { assert xs[i] == init[i]; }
    }
    assert Matching(xs, p) == Matching(init, p) + tail;
    assert |init| !in Matching(init, p);
  }

  /** Filtering keeps everything exactly when every element qualifies. */
  lemma {:induction false} FilterAll<T(!new)>(xs: seq<T>, p: T -> bool)
    requires forall i :: 0 <= i < |xs| ==> p(xs[i])
    ensures Filter(xs, p) == xs
  {
    if xs != [] {
      FilterAll(xs[1..], p);
    }
  }

  /** Filtering keeps nothing when no element qualifies. */
  lemma {:induction false} FilterNone<T(!new)>(xs: seq<T>, p: T -> bool)
    requires forall i :: 0 <= i < |xs| ==> !p(xs[i])
    ensures Filter(xs, p) == []
  {
    if xs != [] {
      FilterNone(xs[1..], p);
    }
  }

  /** Filtering keeps exactly one element when only that one qualifies. */
  lemma FilterOne<T(!new)>(xs: seq<T>, p: T -> bool, k: nat)
    requires k < |xs| && p(xs[k])
    requires forall i :: 0 <= i < |xs| && i != k ==> !p(xs[i])
    ensures Filter(xs, p) == [xs[k]]
  {
    var a, b := xs[..k], xs[k + 1..];
    SplitAround(xs, k);
    assert forall i :: 0 <= i < |a| ==> a[i] == xs[i];
    assert forall i :: 0 <= i < |b| ==> b[i] == xs[k + 1 + i];
    FilterNone(a, p);
    FilterNone(b, p);
    FilterAppend(a + [xs[k]], b, p);
    FilterAppend(a, [xs[k]], p);
    FilterCons([xs[k]], p);
    assert [xs[k]][1..] == [];
  }

  lemma SplitAround<T>(s: seq<T>, a: int)
    requires 0 <= a < |s|
    ensures s == s[..a] + [s[a]] + s[a + 1..]
  {
  }

  /** One step of `Filter`: the head, if it qualifies, before the rest. */
  lemma FilterCons<T(!new)>(xs: seq<T>, p: T -> bool)
    requires xs != []
    ensures Filter(xs, p) == (if p(xs[0]) then [xs[0]] else []) + Filter(xs[1..], p)
  {
  }

  /** Filtering distributes over concatenation. */
  lemma {:induction false} FilterAppend<T(!new)>(a: seq<T>, b: seq<T>, p: T -> bool)
    ensures Filter(a + b, p) == Filter(a, p) + Filter(b, p)
  {
    if a == [] {
      assert a + b == b;
    } else {
      var ab := a + b;
      assert ab[1..] == a[1..] + b;
      assert ab[0] == a[0];
      var h := if p(a[0]) then [a[0]] else [];
      FilterCons(ab, p);
      FilterCons(a, p);
      FilterAppend(a[1..], b, p);
      ConcatAssoc(h, Filter(a[1..], p), Filter(b, p));
    }
  }

  lemma ConcatAssoc<T>(x: seq<T>, y: seq<T>, z: seq<T>)
    ensures x + (y + z) == (x + y) + z
  {
  }


  // ---------------------------------------------------------------------------
  // Splitting and joining on a separator character

  /** `s.split(sep)`: never empty; no piece contains `sep`. */
  function Split(s: string, sep: char): (r: seq<string>)
    ensures |r| >= 1
    ensures forall k :: 0 <= k < |r| ==> sep !in r[k]
  {
    if s == [] then [""]
    else
      var rest := Split(s[1..], sep);
      if s[0] == sep then [""] + rest
      else [[s[0]] + rest[0]] + rest[1..]
  }

  /** `parts.join(sep)`, read from the last part backwards. */
  function Join(parts: seq<string>, sep: char): string
    decreases |parts|
  {
    if parts == [] then ""
    else if |parts| == 1 then parts[0]
    else Join(parts[..|parts| - 1], sep) + [sep] + parts[|parts| - 1]
  }

  /** Appending a separated piece free of `sep` appends one piece to the split. */
  lemma {:induction false} SplitSnoc(a: string, sep: char, b: string)
    requires sep !in b
    ensures Split(a + [sep] + b, sep) == Split(a, sep) + [b]
    decreases |a|
  {
    if a == [] {
      assert a + [sep] + b == [sep] + b;
      assert ([sep] + b)[1..] == b;
      SplitPlain(b, sep);
    } else {
      assert (a + [sep] + b)[1..] == a[1..] + [sep] + b;
      assert (a + [sep] + b)[0] == a[0];
      SplitSnoc(a[1..], sep, b);
    }
  }

  /** Splitting a string free of `sep` gives it back whole. */
  lemma {:induction false} SplitPlain(a: string, sep: char)
    requires sep !in a
    ensures Split(a, sep) == [a]
  {
    if a != [] {
      SplitPlain(a[1..], sep);
      assert [a[0]] + a[1..] == a;
    }
  }

  /** Split undoes Join when no piece contains the separator. */
  lemma {:induction false} SplitJoin(parts: seq<string>, sep: char)
    requires |parts| >= 1
    requires forall k :: 0 <= k < |parts| ==> sep !in parts[k]
    ensures Split(Join(parts, sep), sep) == parts
    decreases |parts|
  {
    if |parts| == 1 {
      SplitPlain(parts[0], sep);
    } else {
      var init := parts[..|parts| - 1];
      SplitJoin(init, sep);
      SplitSnoc(Join(init, sep), sep, parts[|parts| - 1]);
      assert init + [parts[|parts| - 1]] == parts;
    }
  }

  /** A joined string contains the separator only where pieces meet. */
  lemma {:induction false} JoinFree(parts: seq<string>, sep: char, c: char)
    requires c != sep
    requires forall k :: 0 <= k < |parts| ==> c !in parts[k]
    ensures c !in Join(parts, sep)
    decreases |parts|
  {
    if |parts| > 1 {
      JoinFree(parts[..|parts| - 1], sep, c);
    }
  }

  /** Joining one more part adds a separator and that part. */
  lemma JoinSnoc(parts: seq<string>, sep: char, last: string)
    requires parts != []
    ensures Join(parts + [last], sep) == Join(parts, sep) + [sep] + last
  {
    assert (parts + [last])[..|parts|] == parts;
  }

  /** A last part holding the separator joins like two parts. */
  lemma JoinSplitLast(parts: seq<string>, sep: char, x: string, y: string)
    requires parts != []
    ensures Join(parts + [x + [sep] + y], sep) == Join(parts + [x] + [y], sep)
  {
    JoinSnoc(parts, sep, x + [sep] + y);
    JoinSnoc(parts, sep, x);
    JoinSnoc(parts + [x], sep, y);
  }

  /** The part before the first `sep` and, when `sep` occurs, the part after it. */
  function SplitFirst(s: string, sep: char): (r: (string, Option<string>))
    ensures sep !in r.0
    ensures r.1.None? ==> r.0 == s && sep !in s
    ensures r.1.Some? ==> s == r.0 + [sep] + r.1.value
  {
    if s == [] then ("", None)
    else if s[0] == sep then ("", Some(s[1..]))
    else
      var rest := SplitFirst(s[1..], sep);
      ([s[0]] + rest.0, rest.1)
  }

  /** Splitting at the first separator finds the piece that has none. */
  lemma {:induction false} SplitFirstAt(a: string, sep: char, b: string)
    requires sep !in a
    ensures SplitFirst(a + [sep] + b, sep) == (a, Some(b))
  {
    if a == [] {
      assert a + [sep] + b == [sep] + b;
    } else {
      assert (a + [sep] + b)[1..] == a[1..] + [sep] + b;
      assert (a + [sep] + b)[0] == a[0];
      SplitFirstAt(a[1..], sep, b);
      assert [a[0]] + a[1..] == a;
    }
  }

  /** A string without the separator is all "before" part. */
  lemma {:induction false} SplitFirstAbsent(a: string, sep: char)
    requires sep !in a
    ensures SplitFirst(a, sep) == (a, None)
  {
    if a != [] {
      SplitFirstAbsent(a[1..], sep);
    }
  }
}
