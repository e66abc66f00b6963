/** ECMAScript `encodeURIComponent`, used on every free-text field of the calendar
    links: each character outside the unreserved set of section 2.3 of RFC 3986
    (as ECMAScript narrows it: letters, digits and `- _ . ! ~ * ' ( )`) becomes
    the percent-encoded octets (section 2.1 of RFC 3986, upper-case hex) of its
    UTF-8 form. The partner is `Decode` (`decodeURIComponent`): decoding undoes
    encoding for every string. */
module UriComponent {
  import opened Wrappers

  type Byte = b: int | 0 <= b < 256

  /** The characters `encodeURIComponent` leaves as they are. */
  predicate Unreserved(c: char) {
    ('A' <= c <= 'Z') || ('a' <= c <= 'z') || ('0' <= c <= '9') ||
    c == '-' || c == '_' || c == '.' || c == '!' || c == '~' || c == '*' ||
    c == '\'' || c == '(' || c == ')'
  }

  /** The characters that can appear in an encoded component. */
  predicate UriSafe(c: char) {
    Unreserved(c) || c == '%'
  }

  function HexDigit(v: nat): (c: char)
    requires v < 16
    ensures Unreserved(c)
  {
    "0123456789ABCDEF"[v]
  }

  /** The value of one hexadecimal digit of either case. */
  function HexValue(c: char): Option<nat> {
    if '0' <= c <= '9' then Some(c as int - '0' as int)
    else if 'A' <= c <= 'F' then Some(c as int - 'A' as int + 10)
    else if 'a' <= c <= 'f' then Some(c as int - 'a' as int + 10)
    else None
  }

  lemma HexRoundTrip(v: nat)
    requires v < 16
    ensures HexValue(HexDigit(v)) == Some(v)
  {
  }

  // ---------------------------------------------------------------------------
  // Encoding

  /** The UTF-8 octets of one Unicode scalar value. */
  function Utf8(c: char): (r: seq<Byte>)
    ensures 1 <= |r| <= 4
  {
    var n := c as int;
    if n < 0x80 then [n]
    else if n < 0x800 then [0xC0 + n / 64, 0x80 + n % 64]
    else if n < 0x10000 then [0xE0 + n / 4096, 0x80 + (n / 64) % 64, 0x80 + n % 64]
    else [0xF0 + n / 262144, 0x80 + (n / 4096) % 64, 0x80 + (n / 64) % 64, 0x80 + n % 64]
  }

  /** One octet as `%XY`. */
  function EscapeByte(b: Byte): (r: string)
    ensures |r| == 3
  {
    ['%', HexDigit(b / 16), HexDigit(b % 16)]
  }

  function Escape(bs: seq<Byte>): (r: string)
    ensures |r| == 3 * |bs|
    ensures forall i :: 0 <= i < |r| ==> UriSafe(r[i])
  {
    if bs == [] then [] else EscapeByte(bs[0]) + Escape(bs[1..])
  }

  function EncodeChar(c: char): (r: string)
    ensures r != []
    ensures forall i :: 0 <= i < |r| ==> UriSafe(r[i])
  {
    if Unreserved(c) then [c] else Escape(Utf8(c))
  }

  /** `encodeURIComponent(s)`: the output holds only unreserved characters and
      `%`, so in particular never `&`, `=`, `/`, `?` or `#`. */
  function Encode(s: string): (r: string)
    ensures |r| >= |s|
    ensures forall i :: 0 <= i < |r| ==> UriSafe(r[i])
  {
    if s == [] then [] else EncodeChar(s[0]) + Encode(s[1..])
  }

  /** Encoding works character by character, so it distributes over `+`. */
  lemma {:induction false} EncodeAppend(a: string, b: string)
    ensures Encode(a + b) == Encode(a) + Encode(b)
  {
    if a != [] {
      assert (a + b)[0] == a[0];
      assert (a + b)[1..] == a[1..] + b;
      EncodeAppend(a[1..], b);
    } else {
      assert a + b == b;
    }
  }

  /** A text made of unreserved characters only is left unchanged. */
  lemma {:induction false} EncodeUnreserved(s: string)
    requires forall i :: 0 <= i < |s| ==> Unreserved(s[i])
    ensures Encode(s) == s
  {
    if s != [] {
      EncodeUnreserved(s[1..]);
    }
  }

  /** A space becomes `%20`. */
  lemma EncodeSpace()
    ensures Encode(" ") == "%20"
  {
    assert Utf8(' ') == [32];
  }

  // ---------------------------------------------------------------------------
  // Decoding (`decodeURIComponent`)

  /** The octet written as `%XY` at position `k` of `t`, if there is one. */
  function ByteAt(t: string, k: nat): Option<Byte> {
    if k + 3 <= |t| && t[k] == '%' then
      match (HexValue(t[k + 1]), HexValue(t[k + 2]))
      case (Some(h), Some(l)) => Some(h * 16 + l)
      case _ => None
    else None
  }

  /** The payload (low six bits) of a UTF-8 continuation octet at `k`. */
  function ContinuationAt(t: string, k: nat): Option<nat> {
    match ByteAt(t, k)
    case Some(b) => if 0x80 <= b < 0xC0 then Some(b - 0x80) else None
    case None => None
  }

  /** Decodes the character at the start of `t`: its value and how many input
      characters it used. Malformed, overlong or surrogate sequences fail, as
      `decodeURIComponent`'s URIError does. */
  function DecodeChar(t: string): (r: Option<(char, nat)>)
    requires t != []
    ensures r.Some? ==> 1 <= r.value.1 <= |t|
  {
    if t[0] != '%' then Some((t[0], 1))
    else match ByteAt(t, 0)
      case None => None
      case Some(b0) =>
        if b0 < 0x80 then Some((b0 as char, 3))
        else if 0xC0 <= b0 < 0xE0 then
          match ContinuationAt(t, 3)
          case None => None
          case Some(x1) =>
            var cp := (b0 - 0xC0) * 64 + x1;
            if cp >= 0x80 then Some((cp as char, 6)) else None
        else if 0xE0 <= b0 < 0xF0 then
          match (ContinuationAt(t, 3), ContinuationAt(t, 6))
          case (Some(x1), Some(x2)) =>
            var cp := (b0 - 0xE0) * 4096 + x1 * 64 + x2;
            if cp >= 0x800 && !(0xD800 <= cp < 0xE000) then Some((cp as char, 9)) else None
          case _ => None
        else if 0xF0 <= b0 < 0xF8 then
          match (ContinuationAt(t, 3), ContinuationAt(t, 6), ContinuationAt(t, 9))
          case (Some(x1), Some(x2), Some(x3)) =>
            var cp := (b0 - 0xF0) * 262144 + x1 * 4096 + x2 * 64 + x3;
            if 0x10000 <= cp <= 0x10FFFF then Some((cp as char, 12)) else None
          case _ => None
        else None
  }

  function Decode(t: string): Option<string>
    decreases |t|
  {
    if t == [] then Some([])
    else match DecodeChar(t)
      case None => None
      case Some((c, n)) =>
        match Decode(t[n..])
        case None => None
        case Some(rest) => Some([c] + rest)
  }

  // ---------------------------------------------------------------------------
  // Decoding undoes encoding

  /** An escaped octet reads back as itself. */
  lemma EscapeByteRoundTrip(b: Byte)
    ensures ByteAt(EscapeByte(b), 0) == Some(b)
  {
    HexRoundTrip(b / 16);
    HexRoundTrip(b % 16);
  }

  /** Reading an octet only looks at the three characters at its position. */
  lemma ByteAtLocal(t: string, k: nat)
    requires k + 3 <= |t|
    ensures ByteAt(t, k) == ByteAt(t[k..k + 3], 0)
  {
    var u := t[k..k + 3];
    assert u[0] == t[k] && u[1] == t[k + 1] && u[2] == t[k + 2];
  }

  lemma {:induction false} EscapeSlice(bs: seq<Byte>, k: nat)
    requires k < |bs|
    ensures Escape(bs)[3 * k..3 * k + 3] == EscapeByte(bs[k])
  {
    var head, tail := EscapeByte(bs[0]), Escape(bs[1..]);
    assert Escape(bs) == head + tail;
    if k > 0 {
      EscapeSlice(bs[1..], k - 1);
      var m := 3 * (k - 1);
      assert 3 * k == |head| + m;
      SliceAfter(head, tail, m, m + 3);
    }
  }

  lemma SliceAfter<T>(a: seq<T>, b: seq<T>, i: nat, j: nat)
    requires i <= j <= |b|
    ensures (a + b)[|a| + i..|a| + j] == b[i..j]
  {
  }

  /** The `k`-th escaped octet is read back from its position. */
  lemma ByteAtEscape(bs: seq<Byte>, k: nat, rest: string)
    requires k < |bs|
    ensures ByteAt(Escape(bs) + rest, 3 * k) == Some(bs[k])
  {
    var t := Escape(bs) + rest;
    ByteAtLocal(t, 3 * k);
    EscapeSlice(bs, k);
    assert t[3 * k..3 * k + 3] == Escape(bs)[3 * k..3 * k + 3];
    EscapeByteRoundTrip(bs[k]);
  }

  lemma ThreeLevels(n: nat)
    ensures n == (n / 4096) * 4096 + ((n / 64) % 64) * 64 + n % 64
  {
    var q := n / 64;
    assert n == 64 * q + n % 64;
    assert q == 64 * (q / 64) + q % 64;
    assert n / 4096 == q / 64;
  }

  lemma FourLevels(n: nat)
    ensures n == (n / 262144) * 262144 + ((n / 4096) % 64) * 4096 + ((n / 64) % 64) * 64 + n % 64
  {
    ThreeLevels(n);
    var q := n / 4096;
    assert q == 64 * (q / 64) + q % 64;
    assert n / 262144 == q / 64;
  }

  lemma DecodeTwo(c: char, t: string)
    requires 0x80 <= c as int < 0x800
    requires t != [] && t[0] == '%'
    requires ByteAt(t, 0) == Some(0xC0 + (c as int) / 64)
    requires ByteAt(t, 3) == Some(0x80 + (c as int) % 64)
    ensures DecodeChar(t) == Some((c, 6))
  {
  }

  lemma DecodeThree(c: char, t: string)
    requires 0x800 <= c as int < 0x10000
    requires t != [] && t[0] == '%'
    requires ByteAt(t, 0) == Some(0xE0 + (c as int) / 4096)
    requires ByteAt(t, 3) == Some(0x80 + ((c as int) / 64) % 64)
    requires ByteAt(t, 6) == Some(0x80 + (c as int) % 64)
    ensures DecodeChar(t) == Some((c, 9))
  {
    ThreeLevels(c as int);
  }

  lemma DecodeFour(c: char, t: string)
    requires 0x10000 <= c as int
    requires t != [] && t[0] == '%'
    requires ByteAt(t, 0) == Some(0xF0 + (c as int) / 262144)
    requires ByteAt(t, 3) == Some(0x80 + ((c as int) / 4096) % 64)
    requires ByteAt(t, 6) == Some(0x80 + ((c as int) / 64) % 64)
    requires ByteAt(t, 9) == Some(0x80 + (c as int) % 64)
    ensures DecodeChar(t) == Some((c, 12))
  {
    FourLevels(c as int);
  }

  lemma EscapedOne(c: char, rest: string)
    requires c as int < 0x80
    ensures DecodeChar(Escape(Utf8(c)) + rest) == Some((c, 3))
  {
    var bs, t := Utf8(c), Escape(Utf8(c)) + rest;
    assert t[0] == '%';
    ByteAtEscape(bs, 0, rest);
  }

  lemma EscapedTwo(c: char, rest: string)
    requires 0x80 <= c as int < 0x800
    ensures DecodeChar(Escape(Utf8(c)) + rest) == Some((c, 6))
  {
    var bs, t := Utf8(c), Escape(Utf8(c)) + rest;
    assert t[0] == '%';
    ByteAtEscape(bs, 0, rest);
    ByteAtEscape(bs, 1, rest);
    DecodeTwo(c, t);
  }

  lemma EscapedThree(c: char, rest: string)
    requires 0x800 <= c as int < 0x10000
    ensures DecodeChar(Escape(Utf8(c)) + rest) == Some((c, 9))
  {
    var bs, t := Utf8(c), Escape(Utf8(c)) + rest;
    assert t[0] == '%';
    ByteAtEscape(bs, 0, rest);
    ByteAtEscape(bs, 1, rest);
    ByteAtEscape(bs, 2, rest);
    DecodeThree(c, t);
  }

  lemma EscapedFour(c: char, rest: string)
    requires 0x10000 <= c as int
    ensures DecodeChar(Escape(Utf8(c)) + rest) == Some((c, 12))
  {
    var bs, t := Utf8(c), Escape(Utf8(c)) + rest;
    assert t[0] == '%';
    ByteAtEscape(bs, 0, rest);
    ByteAtEscape(bs, 1, rest);
    ByteAtEscape(bs, 2, rest);
    ByteAtEscape(bs, 3, rest);
    DecodeFour(c, t);
  }

  /** The first character of an encoded text decodes to the character that was
      encoded, consuming exactly its encoding. */
  lemma DecodeEncodeChar(c: char, rest: string)
    ensures DecodeChar(EncodeChar(c) + rest) == Some((c, |EncodeChar(c)|))
  {
    var n := c as int;
    if !Unreserved(c) {
      if n < 0x80 {
        EscapedOne(c, rest);
      } else if n < 0x800 {
        EscapedTwo(c, rest);
      } else if n < 0x10000 {
        EscapedThree(c, rest);
      } else {
        EscapedFour(c, rest);
      }
    }
  }

  /** `decodeURIComponent(encodeURIComponent(s)) == s` for every string. */
  lemma {:induction false} DecodeEncode(s: string)
    ensures Decode(Encode(s)) == Some(s)
  {
    if s != [] {
      var e, u := EncodeChar(s[0]), Encode(s[1..]);
      assert Encode(s) == e + u;
      assert DecodeChar(e + u) == Some((s[0], |e|)) by {
        DecodeEncodeChar(s[0], u);
      }
      assert (e + u)[|e|..] == u;
      DecodeEncode(s[1..]);
      assert [s[0]] + s[1..] == s;
    }
  }

  /** Distinct texts have distinct encodings. */
  lemma EncodeInjective(a: string, b: string)
    requires Encode(a) == Encode(b)
    ensures a == b
  {
    DecodeEncode(a);
    DecodeEncode(b);
  }
}
