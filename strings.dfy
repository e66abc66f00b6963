/** The JavaScript string built-ins the modelled code relies on, written over
    `string` (a sequence of Unicode scalar values): `trim`, ASCII `toLowerCase`,
    `substring`, `split` on one character, `join`, integer `toString`,
    `padStart(2, "0")`. */
module Strings {
  import opened Wrappers

  // ---------------------------------------------------------------------------
  // Character classes

  /** ECMAScript WhiteSpace and LineTerminator code points: the set that `trim`
      removes and that the regular-expression class `\s` matches. */
  predicate IsSpace(c: char) {
    var n := c as int;
    n == 0x09 || n == 0x0A || n == 0x0B || n == 0x0C || n == 0x0D || n == 0x20 ||
    n == 0xA0 || n == 0x1680 || (0x2000 <= n <= 0x200A) || n == 0x2028 ||
    n == 0x2029 || n == 0x202F || n == 0x205F || n == 0x3000 || n == 0xFEFF
  }

  predicate AllSpace(s: string) {
    forall i :: 0 <= i < |s| ==> IsSpace(s[i])
  }

  /** True when `s` has neither leading nor trailing white space. */
  predicate IsTrimmed(s: string) {
    s == [] || (!IsSpace(s[0]) && !IsSpace(s[|s| - 1]))
  }

  /** The regular-expression class `\d`: ASCII digits only. */
  predicate IsDigit(c: char) {
    '0' <= c <= '9'
  }

  predicate AllDigits(s: string) {
    forall i :: 0 <= i < |s| ==> IsDigit(s[i])
  }

  // ---------------------------------------------------------------------------
  // trim

  /** The number of white-space characters `s` starts with. */
  function LeadingSpace(s: string): (n: nat)
    ensures n <= |s|
    ensures forall i :: 0 <= i < n ==> IsSpace(s[i])
    ensures n < |s| ==> !IsSpace(s[n])
  {
    if s != [] && IsSpace(s[0]) then 1 + LeadingSpace(s[1..]) else 0
  }

  /** The number of white-space characters `s` ends with. */
  function TrailingSpace(s: string): (n: nat)
    ensures n <= |s|
    ensures forall i :: |s| - n <= i < |s| ==> IsSpace(s[i])
    ensures n < |s| ==> !IsSpace(s[|s| - 1 - n])
  {
    if s != [] && IsSpace(s[|s| - 1]) then 1 + TrailingSpace(s[..|s| - 1]) else 0
  }

  /** `s.trimStart()`: `r` is the suffix of `s` left after dropping the leading
      white space, all of it. */
  function TrimStart(s: string): (r: string)
    ensures |r| <= |s| && r == s[|s| - |r|..]
    ensures AllSpace(s[..|s| - |r|])
    ensures r != [] ==> !IsSpace(r[0])
  {
    var n := LeadingSpace(s);
    assert forall i :: 0 <= i < n ==> s[..n][i] == s[i];
    s[n..]
  }

  /** `s.trimEnd()`: `r` is the prefix of `s` left after dropping the trailing
      white space, all of it. */
  function TrimEnd(s: string): (r: string)
    ensures |r| <= |s| && r == s[..|r|]
    ensures AllSpace(s[|r|..])
    ensures r != [] ==> !IsSpace(r[|r| - 1])
  {
    var n := TrailingSpace(s);
    var m := |s| - n;
    assert forall i :: 0 <= i < n ==> s[m..][i] == s[m + i];
    s[..m]
  }

  /** `s.trim()`: the result is trimmed, and it is empty exactly when `s` is all
      white space; `TrimPadded` shows that it is what is left once the white-space
      padding on both sides is dropped. */
  function Trim(s: string): (r: string)
    ensures IsTrimmed(r)
    ensures r == [] <==> AllSpace(s)
  {
    TrimEmpty(s);
    TrimEnd(TrimStart(s))
  }

  /** Trimming both ends leaves nothing exactly when `s` is all white space. */
  lemma TrimEmpty(s: string)
    ensures TrimEnd(TrimStart(s)) == [] <==> AllSpace(s)
  {
    var t := TrimStart(s);
    var r := TrimEnd(t);
    if r == [] {
      var a := |s| - |t|;
      assert s == s[..a] + t[|r|..];
      AllSpaceConcat(s[..a], t[|r|..]);
    } else {
      assert r[0] == t[0] == s[|s| - |t|];
      assert !IsSpace(s[|s| - |t|]);
    }
  }

  lemma AllSpaceConcat(a: string, b: string)
    requires AllSpace(a) && AllSpace(b)
    ensures AllSpace(a + b)
  {
  }

  /** Trimming removes exactly white-space padding: a trimmed text padded on both
      sides with white space trims back to itself. */
  lemma {:induction false} TrimPadded(pre: string, q: string, post: string)
    requires AllSpace(pre) && AllSpace(post) && q != [] && IsTrimmed(q)
    ensures Trim(pre + q + post) == q
  {
    TrimStartPadded(pre, q + post);
    assert pre + q + post == pre + (q + post);
    TrimEndPadded(q, post);
  }

  lemma {:induction false} LeadingSpacePadded(pre: string, rest: string)
    requires AllSpace(pre) && rest != [] && !IsSpace(rest[0])
    ensures LeadingSpace(pre + rest) == |pre|
  {
    if pre != [] {
      assert (pre + rest)[1..] == pre[1..] + rest;
      LeadingSpacePadded(pre[1..], rest);
    }
  }

  lemma TrimStartPadded(pre: string, rest: string)
    requires AllSpace(pre) && rest != [] && !IsSpace(rest[0])
    ensures TrimStart(pre + rest) == rest
  {
    LeadingSpacePadded(pre, rest);
    assert (pre + rest)[|pre|..] == rest;
  }

  lemma {:induction false} TrailingSpacePadded(q: string, post: string)
    requires AllSpace(post) && q != [] && !IsSpace(q[|q| - 1])
    ensures TrailingSpace(q + post) == |post|
  {
    if post != [] {
      assert (q + post)[..|q + post| - 1] == q + post[..|post| - 1];
      TrailingSpacePadded(q, post[..|post| - 1]);
    } else {
      assert q + post == q;
    }
  }

  lemma TrimEndPadded(q: string, post: string)
    requires AllSpace(post) && q != [] && !IsSpace(q[|q| - 1])
    ensures TrimEnd(q + post) == q
  {
    TrailingSpacePadded(q, post);
    assert (q + post)[..|q|] == q;
  }

  // ---------------------------------------------------------------------------
  // Case, substrings, padding

  /** `toLowerCase` on one character, restricted to the ASCII letters. */
  function AsciiLower(c: char): char {
    if 'A' <= c <= 'Z' then (c as int + 32) as char else c
  }

  function Lower(s: string): (r: string)
    ensures |r| == |s|
  {
    seq(|s|, i requires 0 <= i < |s| => AsciiLower(s[i]))
  }

  /** `s.substring(a, b)`: both bounds are clamped to `0..|s|` and swapped when
      out of order, so it never fails. */
  function Substring(s: string, a: int, b: int): (r: string)
    ensures |r| <= |s|
    ensures 0 <= a <= b <= |s| ==> r == s[a..b]
    ensures 0 <= a <= |s| <= b ==> r == s[a..]
  {
    var x := if a < 0 then 0 else if a > |s| then |s| else a;
    var y := if b < 0 then 0 else if b > |s| then |s| else b;
    if x <= y then s[x..y] else s[y..x]
  }

  /** `s.padStart(2, "0")`. */
  function PadTwo(s: string): (r: string)
    ensures |r| == if |s| >= 2 then |s| else 2
    ensures r[|r| - |s|..] == s
    ensures forall i :: 0 <= i < |r| - |s| ==> r[i] == '0'
  {
    if |s| >= 2 then s else seq(2 - |s|, _ => '0') + s
  }

  // ---------------------------------------------------------------------------
  // Decimal numbers

  function DigitChar(d: nat): (c: char)
    requires d < 10
    ensures IsDigit(c)
  {
    "0123456789"[d]
  }

  function DigitValue(c: char): nat
    requires IsDigit(c)
  {
    c as int - '0' as int
  }

  /** `n.toString()` for a non-negative integer. */
  function NatToString(n: nat): (r: string)
    ensures r != [] && AllDigits(r)
    ensures n < 10 <==> |r| == 1
  {
    if n < 10 then [DigitChar(n)] else NatToString(n / 10) + [DigitChar(n % 10)]
  }

  /** `n.toString()` for any integer (the sign, then the digits). */
  function IntToString(n: int): string {
    if n < 0 then "-" + NatToString(-n) else NatToString(n)
  }

  /** The value of a non-empty run of decimal digits. */
  function DigitsValue(s: string): nat
    requires s != [] && AllDigits(s)
  {
    if |s| == 1 then DigitValue(s[0])
    else DigitsValue(s[..|s| - 1]) * 10 + DigitValue(s[|s| - 1])
  }

  /** Reads a non-negative decimal integer; `None` unless `s` is a non-empty run
      of digits. */
  function ParseNat(s: string): Option<nat> {
    if s != [] && AllDigits(s) then Some(DigitsValue(s)) else None
  }

  /** Reading back the decimal text of `n` gives `n`. */
  lemma {:induction false} ParseNatToString(n: nat)
    ensures ParseNat(NatToString(n)) == Some(n)
  {
    var s := NatToString(n);
    if n >= 10 {
      ParseNatToString(n / 10);
      assert s[..|s| - 1] == NatToString(n / 10);
      assert DigitValue(s[|s| - 1]) == n % 10;
    }
  }

  // ---------------------------------------------------------------------------
  // Searching, splitting, joining

  /** The index of the first occurrence of `c` in `s`, if any. */
  function IndexOf(s: string, c: char): (r: Option<nat>)
    ensures r.None? <==> c !in s
    ensures r.Some? ==> r.value < |s| && s[r.value] == c && c !in s[..r.value]
  {
    if s == [] then None
    else if s[0] == c then Some(0)
    else match IndexOf(s[1..], c)
      case None => None
      case Some(i) => assert s[..i + 1] == [s[0]] + s[1..][..i]; Some(i + 1)
  }

  /** The first occurrence of `c` is found right after a prefix that lacks `c`. */
  lemma IndexOfAfter(a: string, c: char, b: string)
    requires c !in a
    ensures IndexOf(a + [c] + b, c) == Some(|a|)
  {
    var s := a + [c] + b;
    assert s[..|a|] == a;
    assert s[|a|] == c;
    assert forall i :: 0 <= i < |a| ==> s[i] == a[i];
    assert forall j :: |a| < j <= |s| ==> s[..j][|a|] == c;
  }

  /** `s.split(c)` for a one-character separator: the pieces between the
      occurrences of `c`, empty pieces included. */
  function SplitOn(s: string, c: char): (r: seq<string>)
    ensures |r| >= 1
    decreases |s|
  {
    match IndexOf(s, c)
    case None => [s]
    case Some(i) => [s[..i]] + SplitOn(s[i + 1..], c)
  }

  /** Splitting a text that holds no separator gives the text alone. */
  lemma SplitOnNone(s: string, c: char)
    requires c !in s
    ensures SplitOn(s, c) == [s]
  {
  }

  /** Splitting at a separator that follows a separator-free prefix peels off
      that prefix as the first piece. */
  lemma SplitOnCons(a: string, c: char, b: string)
    requires c !in a
    ensures SplitOn(a + [c] + b, c) == [a] + SplitOn(b, c)
  {
    var s := a + [c] + b;
    IndexOfAfter(a, c, b);
    assert s[..|a|] == a;
    assert s[|a| + 1..] == b;
  }

  /** `parts.join(sep)`. */
  function Join(parts: seq<string>, sep: string): string
    decreases |parts|
  {
    if parts == [] then ""
    else if |parts| == 1 then parts[0]
    else parts[0] + sep + Join(parts[1..], sep)
  }

  /** True when `part` occurs in `s` as a contiguous piece. */
  predicate ContainsPiece(s: string, part: string) {
    exists i :: 0 <= i <= |s| - |part| && PieceAt(s, part, i)
  }

  predicate PieceAt(s: string, part: string, i: int) {
    0 <= i <= |s| - |part| && s[i..i + |part|] == part
  }

  /** Every joined part occurs in the joined text. */
  lemma {:induction false} JoinContainsParts(parts: seq<string>, sep: string, k: nat)
    requires k < |parts|
    ensures ContainsPiece(Join(parts, sep), parts[k])
    decreases |parts|
  {
    var j := Join(parts, sep);
    if |parts| == 1 {
      assert PieceAt(j, parts[0], 0);
    } else if k == 0 {
      assert j == parts[0] + (sep + Join(parts[1..], sep));
      assert j[0..|parts[0]|] == parts[0];
      assert PieceAt(j, parts[0], 0);
    } else {
      JoinContainsParts(parts[1..], sep, k - 1);
      var rest := Join(parts[1..], sep);
      assert parts[1..][k - 1] == parts[k];
      var i :| 0 <= i <= |rest| - |parts[k]| && PieceAt(rest, parts[k], i);
      assert j == (parts[0] + sep) + rest;
      PieceShift(parts[0] + sep, rest, parts[k], i);
    }
  }

  /** A piece of `rest` is a piece of `pre + rest`, further on by `|pre|`. */
  lemma PieceShift(pre: string, rest: string, part: string, i: int)
    requires PieceAt(rest, part, i)
    ensures PieceAt(pre + rest, part, |pre| + i)
  {
    assert (pre + rest)[|pre| + i..|pre| + i + |part|] == rest[i..i + |part|];
  }

  // ---------------------------------------------------------------------------
  // Splitting at runs of white space

  predicate HasSpace(s: string) {
    exists i :: 0 <= i < |s| && IsSpace(s[i])
  }

  /** The index of the first white-space character of `s`, if any. */
  function IndexOfSpace(s: string): (r: Option<nat>)
    ensures r.None? <==> !HasSpace(s)
    ensures r.Some? ==> r.value < |s| && IsSpace(s[r.value]) && !HasSpace(s[..r.value])
  {
    if s == [] then None
    else if IsSpace(s[0]) then Some(0)
    else match IndexOfSpace(s[1..])
      case None =>
        assert !HasSpace(s) by {
          forall i | 0 <= i < |s| ensures !IsSpace(s[i]) {
            if i > 0 { assert s[i] == s[1..][i - 1]; }
          }
        }
        None
      case Some(i) =>
        var t := s[..i + 1];
        assert t == [s[0]] + s[1..][..i];
        assert !HasSpace(t) by {
          forall k | 0 <= k < |t| ensures !IsSpace(t[k]) {
            if k > 0 { assert t[k] == s[1..][..i][k - 1]; }
          }
        }
        Some(i + 1)
  }

  /** The end of the white-space run that starts at `i`. */
  function SpaceRunEnd(s: string, i: nat): (j: nat)
    requires i <= |s|
    ensures i <= j <= |s| && AllSpace(s[i..j])
    ensures j < |s| ==> !IsSpace(s[j])
    decreases |s| - i
  {
    if i < |s| && IsSpace(s[i]) then
      var j := SpaceRunEnd(s, i + 1);
      assert s[i..j] == [s[i]] + s[i + 1..j];
      j
    else i
  }

  /** `s.split(/\s+/)`: the pieces between maximal runs of white space; a
      leading or trailing run yields an empty first or last piece. */
  function SplitWhitespace(s: string): (r: seq<string>)
    ensures |r| >= 1
    ensures |r| > 1 <==> HasSpace(s)
    decreases |s|
  {
    match IndexOfSpace(s)
    case None => [s]
    case Some(i) => [s[..i]] + SplitWhitespace(s[SpaceRunEnd(s, i + 1)..])
  }

  /** A single word: non-empty and free of white space. */
  predicate IsWord(w: string) {
    w != [] && !HasSpace(w)
  }

  /** Words joined by single spaces split back into the same words. */
  lemma {:induction false} SplitJoinWords(words: seq<string>)
    requires words != []
    requires forall k :: 0 <= k < |words| ==> IsWord(words[k])
    ensures SplitWhitespace(Join(words, " ")) == words
    decreases |words|
  {
    if |words| == 1 {
      assert Join(words, " ") == words[0];
    } else {
      var w := words[0];
      var rest := Join(words[1..], " ");
      var s := Join(words, " ");
      assert s == w + " " + rest;
      JoinStartsWith(words[1..], " ");
      assert s[..|w|] == w;
      assert s[|w|] == ' ';
      IndexOfSpaceAfterWord(w, rest);
      assert s[|w| + 1] == rest[0];
      assert SpaceRunEnd(s, |w| + 1) == |w| + 1;
      assert s[|w| + 1..] == rest;
      SplitJoinWords(words[1..]);
      assert [w] + words[1..] == words;
    }
  }

  /** The first white space after a word is the one that ends it. */
  lemma IndexOfSpaceAfterWord(w: string, rest: string)
    requires !HasSpace(w)
    ensures IndexOfSpace(w + " " + rest) == Some(|w|)
  {
    var s := w + " " + rest;
    assert IsSpace(s[|w|]);
    assert forall i :: 0 <= i < |w| ==> s[i] == w[i];
    assert forall j :: |w| < j <= |s| ==> IsSpace(s[..j][|w|]);
  }

  /** A join whose first part is a word starts with that word's first
      character. */
  lemma JoinStartsWith(parts: seq<string>, sep: string)
    requires parts != [] && parts[0] != []
    ensures Join(parts, sep) != [] && Join(parts, sep)[0] == parts[0][0]
  {
    if |parts| > 1 {
      assert Join(parts, sep) == parts[0] + (sep + Join(parts[1..], sep));
    }
  }
}
