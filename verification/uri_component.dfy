/** ECMAScript `encodeURIComponent` and its inverse `decodeURIComponent`
    (sections 19.2.6.4 and 19.2.6.2 of ECMA-262), over Unicode scalar values.

    Every character outside the unreserved set `A-Z a-z 0-9 - _ . ! ~ * ' ( )`
    is written as the `%XX` escapes (upper-case hex) of its UTF-8 bytes. The
    decoder accepts any text, rejecting malformed escapes and byte sequences
    that are not the shortest UTF-8 form of a scalar value. */
module UriComponent {
  import opened Common

  /** The characters `encodeURIComponent` copies unchanged. */
  predicate IsUnreserved(c: char) {
    || IsAsciiLower(c) || IsAsciiUpper(c) || IsAsciiDigit(c)
    || c == '-' || c == '_' || c == '.' || c == '!' || c == '~'
    || c == '*' || c == '\'' || c == '(' || c == ')'
  }

  predicate IsUpperHex(c: char) {
    IsAsciiDigit(c) || 'A' <= c <= 'F'
  }

  /** A character `encodeURIComponent` may produce. */
  predicate IsEncodedChar(c: char) {
    IsUnreserved(c) || c == '%'
  }

  // ---------------------------------------------------------------------------
  // UTF-8

  /** The number of UTF-8 bytes of a scalar value. */
  function Utf8Length(cp: int): nat {
    if cp < 0x80 then 1 else if cp < 0x800 then 2 else if cp < 0x10000 then 3 else 4
  }

  /** The UTF-8 bytes of one character. */
  function Utf8(c: char): (r: seq<nat>)
    ensures |r| == Utf8Length(c as int)
    ensures forall i :: 0 <= i < |r| ==> r[i] < 256
    ensures forall i :: 1 <= i < |r| ==> 0x80 <= r[i] < 0xC0
  {
    var cp := c as int;
    if cp < 0x80 then [cp]
    else if cp < 0x800 then [0xC0 + cp / 64, 0x80 + cp % 64]
    else if cp < 0x10000 then [0xE0 + cp / 4096, 0x80 + (cp / 64) % 64, 0x80 + cp % 64]
    else [0xF0 + cp / 262144, 0x80 + (cp / 4096) % 64, 0x80 + (cp / 64) % 64, 0x80 + cp % 64]
  }

  // ---------------------------------------------------------------------------
  // Percent escapes

  function HexDigit(d: nat): (c: char)
    requires d < 16
    ensures IsUpperHex(c)
  {
    if d < 10 then ('0' as int + d) as char else ('A' as int + d - 10) as char
  }

  /** The value of a hex digit of either case. */
  function HexValue(c: char): Option<nat> {
    if '0' <= c <= '9' then Some(c as int - '0' as int)
    else if 'A' <= c <= 'F' then Some(c as int - 'A' as int + 10)
    else if 'a' <= c <= 'f' then Some(c as int - 'a' as int + 10)
    else None
  }

  /** `%XX` for one byte. */
  function Escape(b: nat): (r: string)
    requires b < 256
    ensures |r| == 3 && r[0] == '%' && IsUpperHex(r[1]) && IsUpperHex(r[2])
  {
    ['%', HexDigit(b / 16), HexDigit(b % 16)]
  }

  /** The escapes of a byte sequence, in order. */
  function EscapeAll(bytes: seq<nat>): (r: string)
    requires forall i :: 0 <= i < |bytes| ==> bytes[i] < 256
    ensures |r| == 3 * |bytes|
    ensures forall i :: 0 <= i < |bytes| ==> r[3 * i..3 * i + 3] == Escape(bytes[i])
  {
    if bytes == [] then []
    else
      var rest := EscapeAll(bytes[1..]);
      var r := Escape(bytes[0]) + rest;
      assert forall i :: 1 <= i < |bytes| ==> r[3 * i..3 * i + 3] == rest[3 * (i - 1)..3 * (i - 1) + 3];
      r
  }

  /** The byte written by the escape starting at `k`, if there is one. */
  function EscapedByte(s: string, k: nat): (r: Option<nat>)
    ensures r.Some? ==> k + 3 <= |s| && s[k] == '%' && r.value < 256
  {
    if k + 3 <= |s| && s[k] == '%' && HexValue(s[k + 1]).Some? && HexValue(s[k + 2]).Some?
    then Some(HexValue(s[k + 1]).value * 16 + HexValue(s[k + 2]).value)
    else None
  }

  lemma EscapeRead(b: nat, s: string, k: nat)
    requires b < 256
    requires k + 3 <= |s| && s[k..k + 3] == Escape(b)
    ensures EscapedByte(s, k) == Some(b)
  {
    assert s[k] == '%' && s[k + 1] == HexDigit(b / 16) && s[k + 2] == HexDigit(b % 16);
  }

  // ---------------------------------------------------------------------------
  // Encoding

  /** `encodeURIComponent` of one character. */
  function EncodeChar(c: char): (r: string)
    ensures IsUnreserved(c) ==> r == [c]
    ensures !IsUnreserved(c) ==> r == EscapeAll(Utf8(c))
    ensures forall i :: 0 <= i < |r| ==> IsEncodedChar(r[i]) || IsUpperHex(r[i])
  {
    if IsUnreserved(c) then [c]
    else
      var bytes := Utf8(c);
      var r := EscapeAll(bytes);
      assert forall i :: 0 <= i < |r| ==> IsEncodedChar(r[i]) || IsUpperHex(r[i]) by {
        forall i | 0 <= i < |r|
          ensures IsEncodedChar(r[i]) || IsUpperHex(r[i])
        {
          var j := i / 3;
          assert r[3 * j..3 * j + 3] == Escape(bytes[j]);
          assert r[i] == r[3 * j..3 * j + 3][i - 3 * j];
        }
      }
      r
  }

  /** `encodeURIComponent(s)`: the output holds only unreserved characters,
      `%` and hex digits, so it never contains `&`, `=`, `?` or `#`. */
  function Encode(s: string): (r: string)
    ensures forall i :: 0 <= i < |r| ==> IsEncodedChar(r[i]) || IsUpperHex(r[i])
  {
    if s == [] then []
    else
      var head := EncodeChar(s[0]);
      var rest := Encode(s[1..]);
      var r := head + rest;
      assert forall i :: 0 <= i < |r| ==> IsEncodedChar(r[i]) || IsUpperHex(r[i]) by {
        forall i | 0 <= i < |r|
          ensures IsEncodedChar(r[i]) || IsUpperHex(r[i])
        {
          if i >= |head| {
            assert r[i] == rest[i - |head|];
          }
        }
      }
      r
  }

  /** The encoded text cannot end a query pair, start another, or start a
      path query or fragment. */
  lemma EncodeIsPlain(s: string)
    ensures '&' !in Encode(s) && '=' !in Encode(s) && '?' !in Encode(s) && '#' !in Encode(s)
  {
    var r := Encode(s);
    forall i | 0 <= i < |r|
      ensures r[i] != '&' && r[i] != '=' && r[i] != '?' && r[i] != '#'
    {
      EncodedCharIsPlain(r[i]);
    }
  }

  lemma EncodedCharIsPlain(c: char)
    requires IsEncodedChar(c) || IsUpperHex(c)
    ensures c != '&' && c != '=' && c != '?' && c != '#'
  {
  }

  // ---------------------------------------------------------------------------
  // Decoding

  /** The smallest scalar value that needs `n` UTF-8 bytes. */
  function MinForLength(n: nat): nat {
    if n == 2 then 0x80 else if n == 3 then 0x800 else 0x10000
  }

  /** The number of bytes a leading byte announces; 0 when it cannot lead. */
  function LeadLength(b: nat): nat {
    if b < 0x80 then 1
    else if 0xC0 <= b < 0xE0 then 2
    else if 0xE0 <= b < 0xF0 then 3
    else if 0xF0 <= b < 0xF8 then 4
    else 0
  }

  /** The payload bits of a leading byte of an `n`-byte sequence. */
  function LeadBits(b: nat, n: nat): int {
    if n == 2 then b as int - 0xC0 else if n == 3 then b as int - 0xE0 else b as int - 0xF0
  }

  /** Reads `count` continuation escapes starting at `k`, folding their six
      payload bits into `acc`. */
  function Continuation(s: string, k: nat, count: nat, acc: int): Option<int>
    decreases count
  {
    if count == 0 then Some(acc)
    else
      var b := EscapedByte(s, k);
      if b.Some? && 0x80 <= b.value < 0xC0 then Continuation(s, k + 3, count - 1, acc * 64 + (b.value as int - 0x80))
      else None
  }

  predicate IsScalar(cp: int) {
    (0 <= cp < 0xD800) || (0xE000 <= cp < 0x110000)
  }

  /** Decodes the escape sequence at the start of `s`: the character and the
      number of input characters it took. */
  function DecodeEscapes(s: string): (r: Option<(char, nat)>)
    ensures r.Some? ==> 3 <= r.value.1 <= |s|
  {
    var b0 := EscapedByte(s, 0);
    if b0.None? then None
    else
      var n := LeadLength(b0.value);
      if n == 0 then None
      else if n == 1 then Some((b0.value as char, 3))
      else
        var cp := Continuation(s, 3, n - 1, LeadBits(b0.value, n));
        if cp.Some? && cp.value >= MinForLength(n) && IsScalar(cp.value) && 3 * n <= |s|
        then Some((cp.value as char, 3 * n))
        else None
  }

  /** `decodeURIComponent(s)`; `None` is the `URIError` it throws. */
  function Decode(s: string): Option<string>
    decreases |s|
  {
    if s == [] then Some([])
    else if s[0] != '%' then
      var rest := Decode(s[1..]);
      if rest.Some? then Some([s[0]] + rest.value) else None
    else
      var head := DecodeEscapes(s);
      if head.None? then None
      else
        var rest := Decode(s[head.value.1..]);
        if rest.Some? then Some([head.value.0] + rest.value) else None
  }

  // ---------------------------------------------------------------------------
  // Round trip

  /** The escapes at `k`, `k + 3`, ... spell the first `count` bytes, each a
      continuation byte. */
  predicate ContinuationsAt(bytes: seq<nat>, s: string, k: nat, count: nat) {
    && count <= |bytes|
    && forall i :: 0 <= i < count ==> 0x80 <= bytes[i] < 0xC0 && EscapedByte(s, k + 3 * i) == Some(bytes[i])
  }

  /** Reading back the continuation bytes of a character's UTF-8 form. */
  lemma ContinuationOfUtf8(bytes: seq<nat>, s: string, k: nat, count: nat, acc: int)
    requires ContinuationsAt(bytes, s, k, count)
    ensures Continuation(s, k, count, acc) == Some(Fold(bytes[..count], acc))
    decreases count
  {
    if count > 0 {
      var acc' := acc * 64 + (bytes[0] as int - 0x80);
      ContinuationShift(bytes, s, k, count);
      ContinuationOfUtf8(bytes[1..], s, k + 3, count - 1, acc');
      FoldStep(bytes, count, acc);
    }
  }

  /** The continuation escapes after the first one, renumbered from 0. */
  lemma ContinuationShift(bytes: seq<nat>, s: string, k: nat, count: nat)
    requires 0 < count && ContinuationsAt(bytes, s, k, count)
    ensures EscapedByte(s, k) == Some(bytes[0]) && 0x80 <= bytes[0] < 0xC0
    ensures ContinuationsAt(bytes[1..], s, k + 3, count - 1)
  {
    assert k + 3 * 0 == k;
    forall i | 0 <= i < count - 1
      ensures 0x80 <= bytes[1..][i] < 0xC0 && EscapedByte(s, k + 3 + 3 * i) == Some(bytes[1..][i])
    {
      assert k + 3 + 3 * i == k + 3 * (i + 1);
    }
  }

  lemma FoldStep(bytes: seq<nat>, count: nat, acc: int)
    requires 0 < count <= |bytes|
    ensures Fold(bytes[..count], acc) == Fold(bytes[1..][..count - 1], acc * 64 + (bytes[0] as int - 0x80))
  {
    assert bytes[1..][..count - 1] == bytes[..count][1..];
  }

  /** Folding six payload bits per continuation byte into an accumulator. */
  function Fold(bytes: seq<nat>, acc: int): int
    decreases |bytes|
  {
    if bytes == [] then acc else Fold(bytes[1..], acc * 64 + (bytes[0] as int - 0x80))
  }

  /** The leading byte and the continuation bytes of `Utf8(c)` rebuild `c`. */
  lemma Utf8Decodes(c: char)
    ensures var bytes := Utf8(c);
            var n := |bytes|;
            && LeadLength(bytes[0]) == n
            && (n > 1 ==> Fold(bytes[1..], LeadBits(bytes[0], n)) == c as int)
            && (n == 1 ==> bytes[0] == c as int)
            && (n > 1 ==> c as int >= MinForLength(n))
  {
    var cp := c as int;
    var bytes := Utf8(c);
    if cp < 0x80 {
    } else if cp < 0x800 {
      assert Fold(bytes[1..], cp / 64) == (cp / 64) * 64 + cp % 64;
    } else if cp < 0x10000 {
      var a1 := (cp / 4096) * 64 + (cp / 64) % 64;
      assert bytes[1..][1..] == [0x80 + cp % 64];
      assert Fold(bytes[1..], cp / 4096) == Fold(bytes[1..][1..], a1);
      assert Fold(bytes[1..][1..], a1) == a1 * 64 + cp % 64;
      Mix3(cp);
    } else {
      var a1 := (cp / 262144) * 64 + (cp / 4096) % 64;
      var a2 := a1 * 64 + (cp / 64) % 64;
      assert bytes[1..][1..] == [0x80 + (cp / 64) % 64, 0x80 + cp % 64];
      assert bytes[1..][1..][1..] == [0x80 + cp % 64];
      assert Fold(bytes[1..], cp / 262144) == Fold(bytes[1..][1..], a1);
      assert Fold(bytes[1..][1..], a1) == Fold(bytes[1..][1..][1..], a2);
      assert Fold(bytes[1..][1..][1..], a2) == a2 * 64 + cp % 64;
      Mix4(cp);
    }
  }

  lemma Mix3(cp: nat)
    ensures ((cp / 4096) * 64 + (cp / 64) % 64) * 64 + cp % 64 == cp
  {
    var q := cp / 64;
    assert q / 64 == cp / 4096;
    assert (q / 64) * 64 + q % 64 == q;
    assert q * 64 + cp % 64 == cp;
  }

  lemma Mix4(cp: nat)
    ensures (((cp / 262144) * 64 + (cp / 4096) % 64) * 64 + (cp / 64) % 64) * 64 + cp % 64 == cp
  {
    var q := cp / 64;
    assert q / 4096 == cp / 262144;
    assert q / 64 == cp / 4096;
    Mix3(q);
  }

  /** The escapes of a non-unreserved character decode back to it. */
  lemma EscapesDecode(c: char, rest: string)
    ensures DecodeEscapes(EscapeAll(Utf8(c)) + rest) == Some((c, 3 * |Utf8(c)|))
  {
    var bytes := Utf8(c);
    Utf8Decodes(c);
    EscapeAllRead(bytes, rest, 0);
    if |bytes| > 1 {
      TailReads(bytes, rest);
      BytesDecode(bytes, EscapeAll(bytes) + rest, c);
    }
  }

  /** A text whose escapes spell a well-formed, shortest multi-byte UTF-8
      encoding of `c` decodes to `c`. */
  lemma BytesDecode(bytes: seq<nat>, s: string, c: char)
    requires |bytes| > 1 && 3 * |bytes| <= |s|
    requires EscapedByte(s, 0) == Some(bytes[0])
    requires ContinuationsAt(bytes[1..], s, 3, |bytes| - 1)
    requires LeadLength(bytes[0]) == |bytes|
    requires Fold(bytes[1..], LeadBits(bytes[0], |bytes|)) == c as int
    requires c as int >= MinForLength(|bytes|)
    ensures DecodeEscapes(s) == Some((c, 3 * |bytes|))
  {
    var n := |bytes|;
    var tail := bytes[1..];
    ContinuationOfUtf8(tail, s, 3, n - 1, LeadBits(bytes[0], n));
    assert tail[..n - 1] == tail;
    LongDecodes(s, bytes[0], n, c);
  }

  /** A leading byte announcing `n > 1` bytes, followed by continuations that
      fold to a character's value, decodes to that character. */
  lemma LongDecodes(s: string, b0: nat, n: nat, c: char)
    requires n > 1 && 3 * n <= |s|
    requires EscapedByte(s, 0) == Some(b0) && LeadLength(b0) == n
    requires Continuation(s, 3, n - 1, LeadBits(b0, n)) == Some(c as int)
    requires c as int >= MinForLength(n)
    ensures DecodeEscapes(s) == Some((c, 3 * n))
  {
  }

  /** After the leading escape, the `i`-th continuation escape reads back as
      the `i`-th continuation byte. */
  lemma TailReads(bytes: seq<nat>, rest: string)
    requires |bytes| >= 1
    requires forall i :: 0 <= i < |bytes| ==> bytes[i] < 256
    requires forall i :: 1 <= i < |bytes| ==> 0x80 <= bytes[i] < 0xC0
    ensures ContinuationsAt(bytes[1..], EscapeAll(bytes) + rest, 3, |bytes| - 1)
  {
    AllRead(bytes, rest);
    Renumbered(bytes, EscapeAll(bytes) + rest);
  }

  /** Every escape of a byte sequence reads back as its byte. */
  lemma AllRead(bytes: seq<nat>, rest: string)
    requires forall i :: 0 <= i < |bytes| ==> bytes[i] < 256
    ensures forall j :: 0 <= j < |bytes| ==> EscapedByte(EscapeAll(bytes) + rest, 3 * j) == Some(bytes[j])
  {
    forall j | 0 <= j < |bytes|
      ensures EscapedByte(EscapeAll(bytes) + rest, 3 * j) == Some(bytes[j])
    {
      EscapeAllRead(bytes, rest, j);
    }
  }

  /** Escapes at `0, 3, 6, ...` reading as the bytes are, from the second
      on, the continuations at `3, 6, ...`. */
  lemma Renumbered(bytes: seq<nat>, s: string)
    requires |bytes| >= 1
    requires forall i :: 1 <= i < |bytes| ==> 0x80 <= bytes[i] < 0xC0
    requires forall j :: 0 <= j < |bytes| ==> EscapedByte(s, 3 * j) == Some(bytes[j])
    ensures ContinuationsAt(bytes[1..], s, 3, |bytes| - 1)
  {
    forall i | 0 <= i < |bytes| - 1
      ensures 0x80 <= bytes[1..][i] < 0xC0 && EscapedByte(s, 3 + 3 * i) == Some(bytes[1..][i])
    {
      var j := i + 1;
      assert EscapedByte(s, 3 * j) == Some(bytes[j]);
      assert 3 * j == 3 + 3 * i;
    }
  }

  /** The `j`-th escape of a byte sequence reads back as the `j`-th byte,
      whatever follows the escapes. */
  lemma EscapeAllRead(bytes: seq<nat>, rest: string, j: nat)
    requires forall i :: 0 <= i < |bytes| ==> bytes[i] < 256
    requires j < |bytes|
    ensures EscapedByte(EscapeAll(bytes) + rest, 3 * j) == Some(bytes[j])
  {
    var e := EscapeAll(bytes);
    assert 3 * j + 3 <= |e|;
    assert e[3 * j..3 * j + 3] == Escape(bytes[j]);
    PrefixSlice(e, rest, 3 * j, 3 * j + 3);
    EscapeRead(bytes[j], e + rest, 3 * j);
  }

  lemma PrefixSlice<T>(e: seq<T>, rest: seq<T>, a: int, b: int)
    requires 0 <= a <= b <= |e|
    ensures (e + rest)[a..b] == e[a..b]
  {
  }

  /** `decodeURIComponent` undoes `encodeURIComponent`. */
  lemma {:induction false} DecodeEncode(s: string)
    ensures Decode(Encode(s)) == Some(s)
    decreases |s|
  {
    if s != [] {
      DecodeEncode(s[1..]);
      DecodeCharStep(s[0], Encode(s[1..]));
      assert Encode(s) == EncodeChar(s[0]) + Encode(s[1..]);
      assert [s[0]] + s[1..] == s;
    }
  }

  /** Decoding reads one encoded character back and goes on with the rest. */
  lemma DecodeCharStep(c: char, rest: string)
    ensures Decode(EncodeChar(c) + rest) == if Decode(rest).Some? then Some([c] + Decode(rest).value) else None
  {
    var e := EncodeChar(c) + rest;
    if IsUnreserved(c) {
      assert e[0] == c && c != '%';
      assert e[1..] == rest;
    } else {
      EscapesDecode(c, rest);
      assert e[0] == '%';
      assert e[|EncodeChar(c)|..] == rest;
    }
  }
}
