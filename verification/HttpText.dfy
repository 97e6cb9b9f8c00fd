/** Text as the chunked reader sees it: UTF-8, Unicode white space and hexadecimal numbers. */
module HttpText {
  import opened Wrappers

  type byte = b: int | 0 <= b < 256

  const TAB := 9
  const LF := 10
  const CR := 13
  const SPACE := 32
  const PLUS := 43
  const SEMICOLON := 59

  // ---- UTF-8 ----

  predicate IsCont(b: byte) {
    0x80 <= b < 0xC0
  }

  /** Whether `b1` may follow the lead byte `b0`: no overlong forms, no surrogates, nothing above U+10FFFF. */
  predicate SecondOk(b0: byte, b1: byte) {
    IsCont(b1) && (b0 == 0xE0 ==> b1 >= 0xA0) && (b0 == 0xED ==> b1 < 0xA0)
    && (b0 == 0xF0 ==> b1 >= 0x90) && (b0 == 0xF4 ==> b1 < 0x90)
  }

  /** How many bytes the first character of `s` takes; zero if it is malformed. */
  function CharLength(s: seq<byte>): (n: nat)
    requires s != []
    ensures n <= |s| && n <= 4
  {
    var b := s[0];
    if b < 0x80 then 1
    else if 0xC2 <= b < 0xE0 && |s| >= 2 && IsCont(s[1]) then 2
    else if 0xE0 <= b < 0xF0 && |s| >= 3 && SecondOk(b, s[1]) && IsCont(s[2]) then 3
    else if 0xF0 <= b < 0xF5 && |s| >= 4 && SecondOk(b, s[1]) && IsCont(s[2]) && IsCont(s[3]) then 4
    else 0
  }

  function Payload(b: byte): int {
    b as int - 0x80
  }

  /** The code point of a well-formed character. */
  function CodePoint(s: seq<byte>, n: nat): int
    requires n <= |s| && 1 <= n <= 4
  {
    var lead: int := s[0];
    match n
    case 1 => lead
    case 2 => (lead - 0xC0) * 0x40 + Payload(s[1])
    case 3 => (lead - 0xE0) * 0x1000 + Payload(s[1]) * 0x40 + Payload(s[2])
    case _ => (lead - 0xF0) * 0x40000 + Payload(s[1]) * 0x1000 + Payload(s[2]) * 0x40 + Payload(s[3])
  }

  /** The characters of a well-formed byte string. */
  function Utf8(s: seq<byte>): Option<seq<int>> {
    if s == [] then Some([])
    else
      var n := CharLength(s);
      if n == 0 then None
      else
        match Utf8(s[n..])
        case None => None
        case Some(rest) => Some([CodePoint(s, n)] + rest)
  }

  /** What follows a complete character does not change it. */
  lemma CharAppend(a: seq<byte>, b: seq<byte>)
    requires a != [] && CharLength(a) > 0
    ensures CharLength(a + b) == CharLength(a) && CodePoint(a + b, CharLength(a)) == CodePoint(a, CharLength(a))
    ensures (a + b)[CharLength(a)..] == a[CharLength(a)..] + b
  {
  }

  lemma {:induction false} Utf8Append(a: seq<byte>, b: seq<byte>)
    requires Utf8(a).Some? && Utf8(b).Some?
    ensures Utf8(a + b) == Some(Utf8(a).value + Utf8(b).value)
  {
    hide CharLength, CodePoint;
    if a == [] {
      assert a + b == b && [] + Utf8(b).value == Utf8(b).value;
    } else {
      var n := CharLength(a);
      CharAppend(a, b);
      Utf8Append(a[n..], b);
      assert [CodePoint(a, n)] + (Utf8(a[n..]).value + Utf8(b).value) == Utf8(a).value + Utf8(b).value;
    }
  }

  predicate IsAscii(s: seq<byte>) {
    forall i :: 0 <= i < |s| ==> s[i] < 0x80
  }

  lemma {:induction false} Utf8Ascii(s: seq<byte>)
    requires IsAscii(s)
    ensures Utf8(s) == Some(s)
  {
    if s != [] {
      Utf8Ascii(s[1..]);
      assert s == [s[0]] + s[1..];
    }
  }

  // ---- trimming ----

  predicate IsWhite(c: int) {
    || 9 <= c <= 13 || c == 0x20 || c == 0x85 || c == 0xA0 || c == 0x1680 || 0x2000 <= c <= 0x200A
    || c == 0x2028 || c == 0x2029 || c == 0x202F || c == 0x205F || c == 0x3000
  }

  function TrimStart(s: seq<int>): seq<int> {
    if s != [] && IsWhite(s[0]) then TrimStart(s[1..]) else s
  }

  function TrimEnd(s: seq<int>): seq<int> {
    if s != [] && IsWhite(s[|s| - 1]) then TrimEnd(s[..|s| - 1]) else s
  }

  lemma {:induction false} TrimEndWhite(s: seq<int>, white: seq<int>)
    requires s != [] && !IsWhite(s[|s| - 1]) && forall i :: 0 <= i < |white| ==> IsWhite(white[i])
    ensures TrimEnd(s + white) == s
  {
    if white == [] {
      assert s + white == s;
    } else {
      assert (s + white)[..|s + white| - 1] == s + white[..|white| - 1];
      TrimEndWhite(s, white[..|white| - 1]);
    }
  }

  /** The text before the first `c`, or all of it. */
  function Before(s: seq<int>, c: int): seq<int> {
    if s == [] || s[0] == c then [] else [s[0]] + Before(s[1..], c)
  }

  lemma {:induction false} BeforeFinds(a: seq<int>, c: int, b: seq<int>)
    requires c !in a && (b == [] || b[0] == c)
    ensures Before(a + b, c) == a
  {
    if a == [] {
      assert a + b == b;
    } else {
      assert (a + b)[1..] == a[1..] + b;
      BeforeFinds(a[1..], c, b);
    }
  }

  // ---- hexadecimal ----

  const USIZE_MAX: nat := 0xFFFF_FFFF_FFFF_FFFF

  predicate IsHexDigit(c: int) {
    0x30 <= c <= 0x39 || 0x41 <= c <= 0x46 || 0x61 <= c <= 0x66
  }

  function HexDigit(c: int): nat
    requires IsHexDigit(c)
  {
    if c <= 0x39 then c - 0x30 else if c <= 0x46 then c - 0x41 + 10 else c - 0x61 + 10
  }

  predicate AllHex(s: seq<int>) {
    forall i :: 0 <= i < |s| ==> IsHexDigit(s[i])
  }

  function HexValue(s: seq<int>): nat
    requires AllHex(s)
  {
    if s == [] then 0 else HexValue(s[..|s| - 1]) * 16 + HexDigit(s[|s| - 1])
  }

  /** `usize::from_str_radix(_, 16)`: an optional plus sign, at least one digit, no overflow. */
  function ParseHex(s: seq<int>): Option<nat> {
    var digits := if |s| > 1 && s[0] == PLUS then s[1..] else s;
    if digits != [] && AllHex(digits) && HexValue(digits) <= USIZE_MAX then Some(HexValue(digits)) else None
  }
}
