/** The text functions against independent definitions: a UTF-8 encoder and a hexadecimal writer. */
module HttpTextLaws {
  import opened Wrappers
  import opened HttpText

  // ---- UTF-8 (section 3 of RFC 3629) ----

  predicate IsScalar(c: int) {
    0 <= c < 0xD800 || 0xE000 <= c < 0x110000
  }

  /** The bytes of one character. */
  function EncodeChar(c: int): seq<byte>
    requires IsScalar(c)
  {
    if c < 0x80 then [c]
    else if c < 0x800 then [0xC0 + c / 0x40, 0x80 + c % 0x40]
    else if c < 0x10000 then [0xE0 + c / 0x40 / 0x40, 0x80 + c / 0x40 % 0x40, 0x80 + c % 0x40]
    else [0xF0 + c / 0x40 / 0x40 / 0x40, 0x80 + c / 0x40 / 0x40 % 0x40, 0x80 + c / 0x40 % 0x40, 0x80 + c % 0x40]
  }

  predicate AllScalar(text: seq<int>) {
    forall i :: 0 <= i < |text| ==> IsScalar(text[i])
  }

  function EncodeText(text: seq<int>): seq<byte>
    requires AllScalar(text)
  {
    if text == [] then [] else EncodeChar(text[0]) + EncodeText(text[1..])
  }

  /** Six bits come off a number. */
  lemma SixBits(c: int, high: int, low: int)
    requires c == high * 0x40 + low && 0 <= low < 0x40
    ensures c / 0x40 == high && c % 0x40 == low
  {
  }

  lemma EncodesTwo(c: int, a: int, b: int)
    requires c == a * 0x40 + b && 2 <= a < 0x20 && 0 <= b < 0x40
    ensures IsScalar(c) && EncodeChar(c) == [0xC0 + a, 0x80 + b]
  {
    SixBits(c, a, b);
  }

  lemma EncodesThree(c: int, a: int, b: int, d: int)
    requires c == a * 0x1000 + b * 0x40 + d && 0 <= a < 0x10 && 0 <= b < 0x40 && 0 <= d < 0x40
    requires IsScalar(c) && c >= 0x800
    ensures EncodeChar(c) == [0xE0 + a, 0x80 + b, 0x80 + d]
  {
    SixBits(c, a * 0x40 + b, d);
    SixBits(a * 0x40 + b, a, b);
  }

  lemma EncodesFour(c: int, a: int, b: int, d: int, f: int)
    requires c == a * 0x40000 + b * 0x1000 + d * 0x40 + f && 0 <= a < 5 && 0 <= b < 0x40 && 0 <= d < 0x40 && 0 <= f < 0x40
    requires 0x10000 <= c < 0x110000
    ensures EncodeChar(c) == [0xF0 + a, 0x80 + b, 0x80 + d, 0x80 + f]
  {
    SixBits(c, a * 0x1000 + b * 0x40 + d, f);
    SixBits(a * 0x1000 + b * 0x40 + d, a * 0x40 + b, d);
    SixBits(a * 0x40 + b, a, b);
  }

  /** A character read from the front is a scalar value, and its bytes are the shortest that encode it. */
  lemma ReadIsEncoded(s: seq<byte>)
    requires s != [] && CharLength(s) > 0
    ensures IsScalar(CodePoint(s, CharLength(s))) && s[..CharLength(s)] == EncodeChar(CodePoint(s, CharLength(s)))
  {
    hide EncodeChar;
    var n := CharLength(s);
    var c, lead := CodePoint(s, n), s[0] as int;
    if n == 1 {
      OneByte(c);
      assert s[..1] == [s[0]];
    } else if n == 2 {
      EncodesTwo(c, lead - 0xC0, Payload(s[1]));
      assert s[..2] == [s[0], s[1]];
    } else if n == 3 {
      EncodesThree(c, lead - 0xE0, Payload(s[1]), Payload(s[2]));
      assert s[..3] == [s[0], s[1], s[2]];
    } else {
      EncodesFour(c, lead - 0xF0, Payload(s[1]), Payload(s[2]), Payload(s[3]));
      assert s[..4] == [s[0], s[1], s[2], s[3]];
    }
  }

  lemma OneByte(c: int)
    requires 0 <= c < 0x80
    ensures EncodeChar(c) == [c]
  {
  }

  /** The bytes of a character are read as that character. */
  lemma EncodedAlone(c: int)
    requires IsScalar(c)
    ensures CharLength(EncodeChar(c)) == |EncodeChar(c)| > 0
    ensures CodePoint(EncodeChar(c), |EncodeChar(c)|) == c
  {
    var low, rest := c % 0x40, c / 0x40;
    var mid, high := rest % 0x40, rest / 0x40;
    if c < 0x80 {
      OneByte(c);
    } else if c < 0x800 {
      EncodesTwo(c, rest, low);
    } else if c < 0x10000 {
      EncodesThree(c, high, mid, low);
    } else {
      EncodesFour(c, high / 0x40, high % 0x40, mid, low);
    }
  }

  /** An encoded character is read back, whatever follows. */
  lemma EncodedIsRead(c: int, rest: seq<byte>)
    requires IsScalar(c)
    ensures CharLength(EncodeChar(c) + rest) == |EncodeChar(c)| > 0
    ensures CodePoint(EncodeChar(c) + rest, |EncodeChar(c)|) == c
  {
    EncodedAlone(c);
    hide CharLength, CodePoint, EncodeChar;
    CharAppend(EncodeChar(c), rest);
  }

  lemma {:induction false} EncodedTextIsRead(text: seq<int>)
    requires AllScalar(text)
    ensures Utf8(EncodeText(text)) == Some(text)
  {
    hide CharLength, CodePoint, EncodeChar;
    if text != [] {
      var s, n := EncodeText(text), |EncodeChar(text[0])|;
      EncodedIsRead(text[0], EncodeText(text[1..]));
      EncodedTextIsRead(text[1..]);
      assert s[n..] == EncodeText(text[1..]);
      assert [text[0]] + text[1..] == text;
    }
  }

  lemma {:induction false} ReadTextIsEncoded(s: seq<byte>)
    requires Utf8(s).Some?
    ensures AllScalar(Utf8(s).value) && s == EncodeText(Utf8(s).value)
  {
    hide CharLength, CodePoint, EncodeChar;
    if s != [] {
      var n := CharLength(s);
      ReadIsEncoded(s);
      ReadTextIsEncoded(s[n..]);
      var text := Utf8(s).value;
      assert text[1..] == Utf8(s[n..]).value;
      assert s == s[..n] + s[n..];
    }
  }

  /** A byte string is read as `text` exactly when it is the encoding of `text`. */
  lemma Utf8IsExact(s: seq<byte>, text: seq<int>)
    ensures Utf8(s) == Some(text) <==> AllScalar(text) && s == EncodeText(text)
  {
    hide Utf8, EncodeText;
    if Utf8(s).Some? {
      ReadTextIsEncoded(s);
    }
    if AllScalar(text) {
      EncodedTextIsRead(text);
    }
  }

  // ---- hexadecimal ----

  /** The digit of a value below sixteen, in lower or upper case. */
  function DigitOf(d: nat, upper: bool): byte
    requires d < 16
  {
    if d < 10 then '0' as int + d else (if upper then 'A' as int else 'a' as int) + d - 10
  }

  /** A number as it is written in base sixteen. */
  function ToHex(n: nat, upper: bool): seq<byte> {
    if n < 16 then [DigitOf(n, upper)] else ToHex(n / 16, upper) + [DigitOf(n % 16, upper)]
  }

  lemma DigitIsRead(d: nat, upper: bool)
    requires d < 16
    ensures IsHexDigit(DigitOf(d, upper)) && HexDigit(DigitOf(d, upper)) == d
  {
  }

  lemma {:induction false} WrittenIsRead(n: nat, upper: bool)
    ensures ToHex(n, upper) != [] && AllHex(ToHex(n, upper)) && HexValue(ToHex(n, upper)) == n
  {
    hide DigitOf, HexDigit, IsHexDigit;
    DigitIsRead(n % 16, upper);
    var s := ToHex(n, upper);
    if n < 16 {
      assert s[..0] == [];
    } else {
      WrittenIsRead(n / 16, upper);
      assert s[..|s| - 1] == ToHex(n / 16, upper);
    }
  }

  /** A leading zero changes nothing. */
  lemma {:induction false} ZeroIsIgnored(s: seq<int>)
    requires AllHex(s)
    ensures AllHex(['0' as int] + s) && HexValue(['0' as int] + s) == HexValue(s)
  {
    var t := ['0' as int] + s;
    if s == [] {
      assert t[..0] == [];
    } else {
      var n := |s| - 1;
      ZeroIsIgnored(s[..n]);
      assert t[..|t| - 1] == ['0' as int] + s[..n];
    }
  }

  /** Every number is read back from its digits, in either case, with or without a plus sign, as far as the type goes. */
  lemma NumberComesBack(n: nat, upper: bool)
    ensures ParseHex(ToHex(n, upper)) == if n <= 0xFFFF_FFFF_FFFF_FFFF then Some(n) else None
    ensures ParseHex(['+' as int] + ToHex(n, upper)) == ParseHex(ToHex(n, upper))
  {
    hide HexValue, ToHex;
    WrittenIsRead(n, upper);
    var digits: seq<int> := ToHex(n, upper);
    assert digits[0] != PLUS;
    assert (['+' as int] + digits)[1..] == digits;
  }

  /** Only digits make a number: anything else, or nothing, is refused. */
  lemma OthersAreRefused(s: seq<int>)
    requires s == [] || s == ['+' as int] || exists i :: 1 <= i < |s| && !IsHexDigit(s[i])
    ensures ParseHex(s) == None
  {
    hide HexValue;
    if i :| 1 <= i < |s| && !IsHexDigit(s[i]) {
      assert s[1..][i - 1] == s[i] && !AllHex(s);
    } else if s != [] {
      assert !IsHexDigit(s[0]) && !AllHex(s);
    }
  }

  /** A number below 16^k takes at most k digits. */
  lemma {:induction false} HexIsShort(n: nat, upper: bool, k: nat)
    requires k > 0 && n < Pow16(k)
    ensures |ToHex(n, upper)| <= k
  {
    if n >= 16 {
      HexIsShort(n / 16, upper, k - 1);
    }
  }

  function Pow16(k: nat): nat {
    if k == 0 then 1 else 16 * Pow16(k - 1)
  }
}
