/**
 Base-128 varints and varlongs: seven value bits per byte, least significant
 first, the top bit set on every byte but the last.

 Machine integers are mathematical ones with their ranges written out: masking
 with `0x7F` is `% 128`, shifting right by seven is `/ 128`, and or-ing bits
 into the zero part of a word is addition.
 */
module Varint {
  import opened Wrappers

  type byte = b: int | 0 <= b < 256

  /** `u32` varints and `u64` varlongs. */
  datatype Width = W32 | W64
  {
    function Limit(): nat {
      if W32? then 0x1_0000_0000 else 0x1_0000_0000_0000_0000
    }

    function MaxBytes(): nat {
      if W32? then 5 else 10
    }

    /** The largest payload of the last byte allowed. */
    function LastPayload(): nat {
      if W32? then 0x0F else 0x01
    }
  }

  datatype DecodeError = TruncatedFrame | InvalidLength

  function Pow128(k: nat): (p: nat)
    ensures p > 0
  {
    if k == 0 then 1 else 128 * Pow128(k - 1)
  }

  // ---- what the bytes mean ----

  predicate IsVarint(bytes: seq<byte>) {
    bytes != [] && bytes[|bytes| - 1] < 128 && forall i :: 0 <= i < |bytes| - 1 ==> bytes[i] >= 128
  }

  /** The base-128 number the payloads spell. */
  function Value(bytes: seq<byte>): nat {
    if bytes == [] then 0 else bytes[0] % 128 + 128 * Value(bytes[1..])
  }

  /** The first `k` bytes are a varint of at most the allowed length whose value `v` fits the type. */
  predicate Accepts(w: Width, buf: seq<byte>, v: nat, k: nat) {
    k <= |buf| && k <= w.MaxBytes() && IsVarint(buf[..k]) && Value(buf[..k]) == v < w.Limit()
  }

  lemma {:induction false} ValueAppend(bytes: seq<byte>, b: byte)
    ensures Value(bytes + [b]) == Value(bytes) + b % 128 * Pow128(|bytes|)
    ensures Value(bytes) < Pow128(|bytes|)
  {
    if bytes == [] {
      assert bytes + [b] == [b];
      assert Value([b]) == b % 128 + 128 * Value([b][1..]);
    } else {
      ValueAppend(bytes[1..], b);
      assert (bytes + [b])[1..] == bytes[1..] + [b];
      var p := Pow128(|bytes| - 1);
      assert 128 * (b % 128 * p) == b % 128 * (128 * p);
    }
  }

  /** A varint has one end: no other prefix of the same bytes is a varint. */
  lemma AcceptsOnce(w: Width, buf: seq<byte>, v: nat, k: nat, v': nat, k': nat)
    requires Accepts(w, buf, v, k) && Accepts(w, buf, v', k')
    ensures v == v' && k == k'
  {
  }

  // ---- decoding ----

  /** Where the loop stands: `n` continuation bytes read, their value in `result`. */
  ghost predicate Reading(w: Width, buf: seq<byte>, n: nat, result: nat) {
    && n <= |buf| && n < w.MaxBytes()
    && (forall i :: 0 <= i < n ==> buf[i] >= 128)
    && result == Value(buf[..n]) < Pow128(n)
  }

  lemma ReadOn(w: Width, buf: seq<byte>, n: nat, result: nat)
    requires Reading(w, buf, n, result) && n < |buf|
    ensures Value(buf[..n + 1]) == result + buf[n] % 128 * Pow128(n) < Pow128(n + 1)
  {
    assert buf[..n + 1] == buf[..n] + [buf[n]];
    ValueAppend(buf[..n], buf[n]);
    ValueAppend(buf[..n + 1], buf[n]);
  }

  /** On the last byte allowed, the value fits the type exactly when the payload does. */
  lemma LastByteFits(w: Width, n: nat, result: nat, b: byte)
    requires n < w.MaxBytes() && result < Pow128(n)
    ensures result + b % 128 * Pow128(n) < w.Limit() <==> (n + 1 < w.MaxBytes() || b % 128 <= w.LastPayload())
  {
    PowersOf128();
    if n + 1 < w.MaxBytes() {
      PowGrows(n + 1, w.MaxBytes() - 1);
      var p := Pow128(n);
      assert b % 128 * p <= 127 * p;
    }
  }

  lemma PowersOf128()
    ensures Pow128(4) == 0x1000_0000 && Pow128(5) == 0x8_0000_0000
    ensures Pow128(9) == 0x8000_0000_0000_0000 && Pow128(10) == 0x40_0000_0000_0000_0000
  {
  }

  lemma {:induction false} PowGrows(j: nat, k: nat)
    requires j <= k
    ensures Pow128(j) <= Pow128(k)
    decreases k
  {
    if j < k {
      PowGrows(j, k - 1);
    }
  }

  /**
   Decode an unsigned varint from the front of `buf`: its value and how many
   bytes it took, or the error, exactly as the bytes demand.
   */
  method DecodeUnsigned(w: Width, buf: seq<byte>) returns (r: Result<(nat, nat), DecodeError>)
    ensures r.Ok? ==> Accepts(w, buf, r.value.0, r.value.1)
    ensures r.Err? ==> forall v: nat, k: nat :: !Accepts(w, buf, v, k)
    ensures r == Err(TruncatedFrame) <==>
              |buf| < w.MaxBytes() && forall i :: 0 <= i < |buf| ==> buf[i] >= 128
  {
    var result: nat, n: nat := 0, 0;
    while true
      invariant Reading(w, buf, n, result)
      decreases w.MaxBytes() - n
    {
      if n >= |buf| {
        NoTerminator(w, buf, n);
        return Err(TruncatedFrame);
      }
      var b := buf[n];
      ReadOn(w, buf, n, result);
      LastByteFits(w, n, result, b);
      if n + 1 == w.MaxBytes() && b % 128 > w.LastPayload() {
        TooLarge(w, buf, n);
        return Err(InvalidLength);
      }
      result := result + b % 128 * Pow128(n);
      n := n + 1;
      if b < 128 {
        assert Accepts(w, buf, result, n);
        return Ok((result, n));
      }
      if n >= w.MaxBytes() {
        NoTerminator(w, buf, n);
        return Err(InvalidLength);
      }
    }
  }

  /** No varint starts with as many continuation bytes as there are bytes, or as are allowed. */
  lemma NoTerminator(w: Width, buf: seq<byte>, n: nat)
    requires n <= |buf| && (forall i :: 0 <= i < n ==> buf[i] >= 128)
    requires n == |buf| || n >= w.MaxBytes()
    ensures forall v: nat, k: nat :: !Accepts(w, buf, v, k)
  {
  }

  lemma TooLarge(w: Width, buf: seq<byte>, n: nat)
    requires n < |buf| && n + 1 == w.MaxBytes() && (forall i :: 0 <= i < n ==> buf[i] >= 128)
    requires Value(buf[..n + 1]) >= w.Limit()
    ensures forall v: nat, k: nat :: !Accepts(w, buf, v, k)
  {
  }

  // ---- encoding ----

  function Encoding(v: nat): seq<byte> {
    if v < 128 then [v] else [v % 128 + 128] + Encoding(v / 128)
  }

  method EncodeUnsigned(value: nat, buf: seq<byte>) returns (out: seq<byte>)
    ensures out == buf + Encoding(value)
  {
    var v := value;
    out := buf;
    while v >= 128
      invariant out + Encoding(v) == buf + Encoding(value)
    {
      assert out + Encoding(v) == out + [v % 128 + 128] + Encoding(v / 128);
      out := out + [v % 128 + 128];
      v := v / 128;
    }
    out := out + [v];
  }

  /** The size functions count the bytes the encoder writes. */
  method UnsignedSize(value: nat) returns (len: nat)
    ensures len == |Encoding(value)|
  {
    var v := value;
    len := 1;
    while v >= 128
      invariant len + |Encoding(v)| == |Encoding(value)| + 1
    {
      v := v / 128;
      len := len + 1;
    }
  }

  /** An encoding is a varint that spells its value, in the length the value needs. */
  lemma {:induction false} EncodingIsVarint(v: nat)
    ensures IsVarint(Encoding(v)) && Value(Encoding(v)) == v
    ensures v < Pow128(|Encoding(v)|)
    ensures |Encoding(v)| > 1 ==> v >= Pow128(|Encoding(v)| - 1)
  {
    if v < 128 {
      assert Value([v]) == v % 128 + 128 * Value([v][1..]);
      assert Pow128(1) == 128;
    } else {
      EncodingIsVarint(v / 128);
      var rest := Encoding(v / 128);
      PrependByte(v % 128 + 128, rest);
      assert Pow128(|rest| + 1) == 128 * Pow128(|rest|);
      assert Pow128(|rest|) == 128 * Pow128(|rest| - 1);
    }
  }

  lemma PrependByte(b: byte, rest: seq<byte>)
    requires b >= 128 && IsVarint(rest)
    ensures IsVarint([b] + rest) && Value([b] + rest) == b % 128 + 128 * Value(rest)
  {
  }

  /** The encoding is the shortest varint with its value. */
  lemma EncodingIsShortest(v: nat, bytes: seq<byte>)
    requires IsVarint(bytes) && Value(bytes) == v
    ensures |Encoding(v)| <= |bytes|
  {
  }

  /** Decoding an encoding followed by anything yields the value and leaves the rest. */
  lemma RoundTrip(w: Width, v: nat, suffix: seq<byte>)
    requires v < w.Limit()
    ensures Accepts(w, Encoding(v) + suffix, v, |Encoding(v)|)
    ensures (Encoding(v) + suffix)[|Encoding(v)|..] == suffix
  {
    EncodingIsVarint(v);
    assert (Encoding(v) + suffix)[..|Encoding(v)|] == Encoding(v);
    if |Encoding(v)| > w.MaxBytes() {
      PowGrows(w.MaxBytes(), |Encoding(v)| - 1);
      PowersOf128();
    }
  }

  // ---- signed varints ----

  predicate InRange(w: Width, v: int) {
    -(w.Limit() / 2) <= v < w.Limit() / 2
  }

  /** Two's complement wrap-around of the signed type. */
  function Wrap(w: Width, v: int): int {
    (v + w.Limit() / 2) % w.Limit() - w.Limit() / 2
  }

  /** Exclusive or with `0` or, for `flip`, with `-1`. */
  function XorMask(v: int, flip: bool): int {
    if flip then -v - 1 else v
  }

  /** `((value << 1) ^ (value >> 31)) as u32`: the arithmetic shift is `-1` for negative values, else `0`. */
  function Zigzag(w: Width, v: int): nat {
    XorMask(Wrap(w, 2 * v), v < 0) % w.Limit()
  }

  /** `((unsigned >> 1) as i32) ^ -((unsigned & 1) as i32)`. */
  function Unzigzag(u: nat): int {
    XorMask(u / 2, u % 2 == 1)
  }

  lemma ZigzagRoundTrip(w: Width, v: int)
    requires InRange(w, v)
    ensures Zigzag(w, v) == (if v >= 0 then 2 * v else -2 * v - 1) < w.Limit()
    ensures Unzigzag(Zigzag(w, v)) == v
  {
    var half := w.Limit() / 2;
    if v >= 0 {
      WrapsTo(w, 2 * v, if 2 * v < half then 2 * v else 2 * v - w.Limit());
      ReducesTo(w, Wrap(w, 2 * v), 2 * v);
    } else {
      WrapsTo(w, 2 * v, if 2 * v >= -half then 2 * v else 2 * v + w.Limit());
      ReducesTo(w, -Wrap(w, 2 * v) - 1, -2 * v - 1);
    }
  }

  /** Reduction modulo the range of the type, one turn at most. */
  lemma ReducesTo(w: Width, x: int, y: int)
    requires 0 <= y < w.Limit() && (x == y || x == y - w.Limit() || x == y + w.Limit())
    ensures x % w.Limit() == y
  {
  }

  lemma WrapsTo(w: Width, x: int, y: int)
    requires InRange(w, y) && (x == y || x == y - w.Limit() || x == y + w.Limit())
    ensures Wrap(w, x) == y
  {
  }

  /** Every unsigned value of the type is the image of exactly one signed one. */
  lemma UnzigzagRoundTrip(w: Width, u: nat)
    requires u < w.Limit()
    ensures InRange(w, Unzigzag(u)) && Zigzag(w, Unzigzag(u)) == u
  {
    ZigzagRoundTrip(w, Unzigzag(u));
  }

  method EncodeSigned(w: Width, v: int, buf: seq<byte>) returns (out: seq<byte>)
    requires InRange(w, v)
    ensures out == buf + Encoding(if v >= 0 then 2 * v else -2 * v - 1)
  {
    ZigzagRoundTrip(w, v);
    out := EncodeUnsigned(Zigzag(w, v), buf);
  }

  /** A signed value is accepted exactly when its zigzag image is. */
  method DecodeSigned(w: Width, buf: seq<byte>) returns (r: Result<(int, nat), DecodeError>)
    ensures r.Ok? ==> InRange(w, r.value.0) && Accepts(w, buf, Zigzag(w, r.value.0), r.value.1)
    ensures r.Err? ==> forall v: int, k: nat :: InRange(w, v) ==> !Accepts(w, buf, Zigzag(w, v), k)
  {
    var u := DecodeUnsigned(w, buf);
    match u {
      case Err(e) => r := Err(e);
      case Ok(pair) =>
        UnzigzagRoundTrip(w, pair.0);
        r := Ok((Unzigzag(pair.0), pair.1));
    }
  }

  /** What the signed encoder writes, the signed decoder reads back, whatever follows. */
  method SignedRoundTrip(w: Width, v: int, suffix: seq<byte>) returns (r: Result<(int, nat), DecodeError>)
    requires InRange(w, v)
    ensures r == Ok((v, |Encoding(Zigzag(w, v))|))
  {
    var out := EncodeSigned(w, v, []);
    ZigzagRoundTrip(w, v);
    var u := Zigzag(w, v);
    assert out == Encoding(u);
    RoundTrip(w, u, suffix);
    r := DecodeSigned(w, out + suffix);
    AcceptsOnce(w, out + suffix, u, |out|, Zigzag(w, r.value.0), r.value.1);
    ZigzagRoundTrip(w, r.value.0);
  }
}
