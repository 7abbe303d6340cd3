/**
 * String helpers the rest of the model relies on, written out for the
 * behaviour of the Rust standard library: `str::trim`, `str::len` (a
 * length in UTF-8 bytes), `str::split_once`, `str::strip_prefix`,
 * `str::strip_suffix`, and the lower-case encoding of the `hex` crate.
 */
module Text {
  import opened Wrappers

  /** The characters with the Unicode `White_Space` property, which `str::trim` removes. */
  predicate IsWhitespace(c: char) {
    ('\t' <= c <= '\r') || c == ' ' || c == '\U{85}' || c == '\U{A0}' || c == '\U{1680}'
    || ('\U{2000}' <= c <= '\U{200A}') || c == '\U{2028}' || c == '\U{2029}'
    || c == '\U{202F}' || c == '\U{205F}' || c == '\U{3000}'
  }

  predicate AllWhitespace(s: string) {
    forall k :: 0 <= k < |s| ==> IsWhitespace(s[k])
  }

  /** The number of white-space characters `str::trim_start` cuts from `s`. */
  function LeadingCount(s: string): (n: nat)
    ensures n <= |s|
    ensures forall k :: 0 <= k < n ==> IsWhitespace(s[k])
    ensures n < |s| ==> !IsWhitespace(s[n])
  {
    if s == [] || !IsWhitespace(s[0]) then 0
    else
      var n := LeadingCount(s[1..]);
      assert forall k :: 1 <= k < n + 1 ==> s[k] == s[1..][k - 1];
      n + 1
  }

  /** The number of white-space characters `str::trim_end` cuts from `s`. */
  function TrailingCount(s: string): (n: nat)
    ensures n <= |s|
    ensures forall k :: |s| - n <= k < |s| ==> IsWhitespace(s[k])
    ensures n < |s| ==> !IsWhitespace(s[|s| - n - 1])
  {
    if s == [] || !IsWhitespace(s[|s| - 1]) then 0
    else
      var n := TrailingCount(s[..|s| - 1]);
      assert forall k :: |s| - n - 1 <= k < |s| - 1 ==> s[k] == s[..|s| - 1][k];
      n + 1
  }

  /**
   * `str::trim`: `str::trim_start`, then `str::trim_end`. The result
   * neither starts nor ends with white space; `TrimFrames` shows that only
   * white space was cut away.
   */
  function Trim(s: string): (r: string)
    ensures r == [] || (!IsWhitespace(r[0]) && !IsWhitespace(r[|r| - 1]))
  {
    var t := s[LeadingCount(s)..];
    t[..|t| - TrailingCount(t)]
  }

  /** The white space `Trim` cuts from the front of `s`. */
  function Leading(s: string): (w: string)
    ensures AllWhitespace(w)
  {
    s[..LeadingCount(s)]
  }

  /** The white space `Trim` cuts from the back of `s`. */
  function Trailing(s: string): (w: string)
    ensures AllWhitespace(w)
  {
    var t := s[LeadingCount(s)..];
    var w := t[|t| - TrailingCount(t)..];
    assert forall k | 0 <= k < |w| :: w[k] == t[|t| - TrailingCount(t) + k];
    w
  }

  /** Trimming cuts away white space only. */
  lemma TrimFrames(s: string)
    ensures s == Leading(s) + Trim(s) + Trailing(s)
  {
    var t := s[LeadingCount(s)..];
    var m := |t| - TrailingCount(t);
    assert t == t[..m] + t[m..];
    assert s == s[..LeadingCount(s)] + t;
  }

  /** The number of bytes the UTF-8 encoding of `c` takes. */
  function Utf8Width(c: char): (n: nat)
    ensures 1 <= n <= 4
    ensures n == 1 <==> (c as int) < 0x80
  {
    if (c as int) < 0x80 then 1
    else if (c as int) < 0x800 then 2
    else if (c as int) < 0x1_0000 then 3
    else 4
  }

  /** `str::len`: the length of `s` in UTF-8 bytes. */
  function Utf8Len(s: string): (n: nat)
    ensures |s| <= n <= 4 * |s|
    ensures n == 0 <==> s == []
  {
    if s == [] then 0 else Utf8Width(s[0]) + Utf8Len(s[1..])
  }

  predicate IsAscii(s: string) {
    forall k :: 0 <= k < |s| ==> (s[k] as int) < 0x80
  }

  /** For text made only of ASCII characters, bytes and characters coincide. */
  lemma {:induction false} AsciiLen(s: string)
    requires IsAscii(s)
    ensures Utf8Len(s) == |s|
  {
    if s != [] {
      assert IsAscii(s[1..]) by {
        forall k | 0 <= k < |s[1..]| ensures (s[1..][k] as int) < 0x80 {
          assert s[1..][k] == s[k + 1];
        }
      }
      AsciiLen(s[1..]);
    }
  }

  /** The index of the first occurrence of `c` in `s`. */
  function IndexOf(s: string, c: char): (r: Option<nat>)
    ensures r.None? <==> c !in s
    ensures r.Some? ==> r.value < |s| && s[r.value] == c && c !in s[..r.value]
  {
    if s == [] then None
    else if s[0] == c then Some(0)
    else
      match IndexOf(s[1..], c)
      case None => None
      case Some(i) =>
        assert s[..i + 1] == [s[0]] + s[1..][..i];
        Some(i + 1)
  }

  /**
   * `str::split_once`: the parts before and after the FIRST occurrence of
   * `c`, or None when `c` does not occur.
   */
  function SplitOnce(s: string, c: char): (r: Option<(string, string)>)
    ensures r.None? <==> c !in s
    ensures r.Some? ==> s == r.value.0 + [c] + r.value.1 && c !in r.value.0
  {
    match IndexOf(s, c)
    case None => None
    case Some(i) =>
      assert s == s[..i] + [c] + s[i + 1..];
      Some((s[..i], s[i + 1..]))
  }

  lemma {:induction false} IndexOfJoin(l: string, c: char, r: string)
    requires c !in l
    ensures IndexOf(l + [c] + r, c) == Some(|l|)
  {
    if l != [] {
      assert (l + [c] + r)[1..] == l[1..] + [c] + r;
      IndexOfJoin(l[1..], c, r);
    }
  }

  /** Splitting at the first `c` is the inverse of joining at a `c` that the left part lacks. */
  lemma SplitOnceJoin(l: string, c: char, r: string)
    requires c !in l
    ensures SplitOnce(l + [c] + r, c) == Some((l, r))
  {
    var s := l + [c] + r;
    IndexOfJoin(l, c, r);
    assert s[..|l|] == l && s[|l| + 1..] == r;
  }

  /** `str::strip_prefix`. */
  function StripPrefix(s: string, p: string): (r: Option<string>)
    ensures r.Some? <==> |p| <= |s| && s[..|p|] == p
    ensures r.Some? ==> s == p + r.value
  {
    if |p| <= |s| && s[..|p|] == p then
      assert s == s[..|p|] + s[|p|..];
      Some(s[|p|..])
    else None
  }

  /** `str::strip_suffix`. */
  function StripSuffix(s: string, p: string): (r: Option<string>)
    ensures r.Some? <==> |p| <= |s| && s[|s| - |p|..] == p
    ensures r.Some? ==> s == r.value + p
  {
    if |p| <= |s| && s[|s| - |p|..] == p then
      assert s == s[..|s| - |p|] + s[|s| - |p|..];
      Some(s[..|s| - |p|])
    else None
  }

  type Byte = x: int | 0 <= x < 256

  /** A lower-case hexadecimal digit, as `hex::encode` writes them. */
  predicate IsHexDigit(c: char) {
    '0' <= c <= '9' || 'a' <= c <= 'f'
  }

  function HexDigit(d: nat): (c: char)
    requires d < 16
    ensures IsHexDigit(c)
  {
    if d < 10 then ('0' as int + d) as char else ('a' as int + d - 10) as char
  }

  /** The value of a lower-case hexadecimal digit. */
  function HexValue(c: char): (v: Option<nat>)
    ensures v.Some? <==> IsHexDigit(c)
    ensures v.Some? ==> v.value < 16 && HexDigit(v.value) == c
  {
    if '0' <= c <= '9' then Some(c as int - '0' as int)
    else if 'a' <= c <= 'f' then Some(c as int - 'a' as int + 10)
    else None
  }

  /** `hex::encode`: two lower-case digits per byte, high nibble first. */
  function HexEncode(bytes: seq<Byte>): (r: string)
    ensures |r| == 2 * |bytes|
    ensures forall k :: 0 <= k < |r| ==> IsHexDigit(r[k])
  {
    if bytes == [] then []
    else [HexDigit(bytes[0] / 16), HexDigit(bytes[0] % 16)] + HexEncode(bytes[1..])
  }

  /** The inverse of `HexEncode`; None for odd lengths and for characters that are not digits. */
  function HexDecode(s: string): (r: Option<seq<Byte>>)
    ensures r.Some? ==> 2 * |r.value| == |s|
  {
    if s == [] then Some([])
    else if |s| == 1 then None
    else
      match (HexValue(s[0]), HexValue(s[1]), HexDecode(s[2..]))
      case (Some(hi), Some(lo), Some(rest)) => Some([hi * 16 + lo] + rest)
      case _ => None
  }

  lemma {:induction false} HexRoundTrip(bytes: seq<Byte>)
    ensures HexDecode(HexEncode(bytes)) == Some(bytes)
  {
    if bytes != [] {
      var b := bytes[0];
      var hi, lo := b / 16, b % 16;
      var s := HexEncode(bytes);
      assert s[0] == HexDigit(hi) && s[1] == HexDigit(lo);
      assert s[2..] == HexEncode(bytes[1..]);
      assert HexValue(HexDigit(hi)) == Some(hi);
      assert HexValue(HexDigit(lo)) == Some(lo);
      HexRoundTrip(bytes[1..]);
      assert hi * 16 + lo == b;
      assert [b] + bytes[1..] == bytes;
    }
  }

  /** Hexadecimal text is ASCII, so its byte length is its character count. */
  lemma HexEncodeLen(bytes: seq<Byte>)
    ensures Utf8Len(HexEncode(bytes)) == 2 * |bytes|
  {
    var s := HexEncode(bytes);
    forall k | 0 <= k < |s| ensures (s[k] as int) < 0x80 {
      assert IsHexDigit(s[k]);
    }
    AsciiLen(s);
  }
}
