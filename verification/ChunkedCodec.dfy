/**
 The chunked transfer coding as a sender writes it (section 7.1 of RFC 9112),
 and the reader's answer to it.
 */
module ChunkedCodec {
  import opened Wrappers
  import opened HttpText
  import opened HttpTextLaws
  import opened ChunkedBody

  /** A chunk header: the size in some hexadecimal spelling, optional white space, an optional extension. */
  datatype Header = Header(digits: seq<byte>, blanks: seq<byte>, extension: seq<byte>)

  datatype Chunk = Chunk(header: Header, data: seq<byte>)

  const CRLF: seq<byte> := [CR, LF]

  function HeaderLine(h: Header): seq<byte> {
    h.digits + h.blanks + h.extension + CRLF
  }

  ghost predicate HeaderOk(h: Header, size: nat) {
    && h.digits != [] && AllHex(h.digits) && HexValue(h.digits) == size
    && (forall i :: 0 <= i < |h.blanks| ==> h.blanks[i] == SPACE || h.blanks[i] == TAB)
    && (h.extension == [] || h.extension[0] == SEMICOLON)
    && LF !in h.extension && Utf8(h.extension).Some?
    && |HeaderLine(h)| <= MAX_LINE_BYTES
  }

  ghost predicate ChunkOk(c: Chunk) {
    c.data != [] && HeaderOk(c.header, |c.data|)
  }

  /** The chunks on the wire, then the last chunk's header, then `rest`. */
  function Encoded(chunks: seq<Chunk>, last: Header, rest: seq<byte>): seq<byte> {
    if chunks == [] then HeaderLine(last) + rest
    else HeaderLine(chunks[0].header) + (chunks[0].data + (CRLF + Encoded(chunks[1..], last, rest)))
  }

  function Body(chunks: seq<Chunk>): seq<byte> {
    if chunks == [] then [] else chunks[0].data + Body(chunks[1..])
  }

  // ---- one line ----

  lemma {:induction false} LineEnds(x: seq<byte>, rest: seq<byte>, budget: nat)
    requires LF !in x && |x| < budget
    ensures LineLength(x + [LF] + rest, budget) == |x| + 1
    decreases |x|
  {
    var s := x + [LF] + rest;
    if x == [] {
      assert s[0] == LF;
    } else {
      assert s[0] == x[0] && s[1..] == x[1..] + [LF] + rest;
      LineEnds(x[1..], rest, budget - 1);
    }
  }

  lemma LineIsTaken(line: seq<byte>, rest: seq<byte>)
    requires 1 <= |line| <= MAX_LINE_BYTES && line[|line| - 1] == LF && LF !in line[..|line| - 1]
    ensures LineTaken(line + rest) == |line|
  {
    hide LineLength;
    var x := line[..|line| - 1];
    assert line + rest == x + [LF] + rest;
    LineEnds(x, rest, MAX_LINE_BYTES + 1);
  }

  /** A line of valid text comes back whole, whatever follows it. */
  lemma LineComesBack(line: seq<byte>, rest: seq<byte>)
    requires 1 <= |line| <= MAX_LINE_BYTES && line[|line| - 1] == LF && LF !in line[..|line| - 1]
    requires Utf8(line).Some?
    ensures NextLine(line + rest) == Some((Utf8(line).value, |line|))
  {
    hide Utf8, LineTaken;
    LineIsTaken(line, rest);
    assert (line + rest)[..|line|] == line;
  }

  /**
   A line is what there is up to and including the first LF, or up to the end of
   the input, if that is valid text of at most 8192 bytes.
   */
  lemma LineIsExact(s: seq<byte>, text: seq<int>, n: nat)
    ensures NextLine(s) == Some((text, n)) <==>
              && n <= |s| && n <= 8192 && (forall i :: 0 <= i < n - 1 ==> s[i] != LF)
              && (n == |s| || (n > 0 && s[n - 1] == LF))
              && AllScalar(text) && s[..n] == EncodeText(text)
  {
    hide Utf8, LineLength;
    Utf8IsExact(s[..LineTaken(s)], text);
    if n <= |s| {
      Utf8IsExact(s[..n], text);
    }
  }

  /** White space around the size is ignored, and so is everything from a semicolon on. */
  lemma SizeIgnoresWhite(lead: seq<int>, digits: seq<int>, trail: seq<int>, extension: seq<int>)
    requires (forall i :: 0 <= i < |lead| ==> IsWhite(lead[i])) && (forall i :: 0 <= i < |trail| ==> IsWhite(trail[i]))
    requires digits != [] && SEMICOLON !in digits && !IsWhite(digits[0]) && !IsWhite(digits[|digits| - 1])
    requires extension == [] || extension[0] == SEMICOLON
    ensures ChunkSize(lead + digits + trail + extension) == ParseHex(digits)
  {
    hide Before, TrimStart, TrimEnd, ParseHex;
    BeforeFinds(lead + digits + trail, SEMICOLON, extension);
    assert lead + digits + trail == lead + (digits + trail);
    TrimStartWhite(lead, digits + trail);
    TrimEndWhite(digits, trail);
  }

  lemma {:induction false} TrimStartWhite(white: seq<int>, s: seq<int>)
    requires s != [] && !IsWhite(s[0]) && forall i :: 0 <= i < |white| ==> IsWhite(white[i])
    ensures TrimStart(white + s) == s
  {
    if white == [] {
      assert white + s == s;
    } else {
      assert (white + s)[1..] == white[1..] + s;
      TrimStartWhite(white[1..], s);
    }
  }

  lemma HexIsPlain(s: seq<byte>)
    requires AllHex(s)
    ensures IsAscii(s) && SEMICOLON !in s && LF !in s && PLUS !in s
    ensures forall i :: 0 <= i < |s| ==> !IsWhite(s[i])
  {
  }

  lemma HeaderText(h: Header, size: nat)
    requires HeaderOk(h, size)
    ensures Utf8(HeaderLine(h)) == Some(h.digits + h.blanks + Utf8(h.extension).value + CRLF)
    ensures if h.extension == [] then Utf8(h.extension).value == []
            else Utf8(h.extension).value != [] && Utf8(h.extension).value[0] == SEMICOLON
  {
    hide AllHex, HexValue;
    HexIsPlain(h.digits);
    Utf8Ascii(h.digits);
    Utf8Ascii(h.blanks);
    Utf8Ascii(CRLF);
    Utf8Append(h.digits, h.blanks);
    Utf8Append(h.digits + h.blanks, h.extension);
    Utf8Append(h.digits + h.blanks + h.extension, CRLF);
  }

  /** What stands before the extension of a header: the digits and white space. */
  lemma SizeText(digits: seq<int>, blanks: seq<int>, ext: seq<int>) returns (white: seq<int>)
    requires SEMICOLON !in digits && (forall i :: 0 <= i < |blanks| ==> blanks[i] == SPACE || blanks[i] == TAB)
    requires ext == [] || ext[0] == SEMICOLON
    ensures Before(digits + blanks + ext + CRLF, SEMICOLON) == digits + white
    ensures forall i :: 0 <= i < |white| ==> IsWhite(white[i])
  {
    hide Before;
    var text := digits + blanks + ext + CRLF;
    if ext == [] {
      white := blanks + CRLF;
      assert text == (digits + white) + [];
      BeforeFinds(digits + white, SEMICOLON, []);
    } else {
      white := blanks;
      assert text == (digits + white) + (ext + CRLF);
      BeforeFinds(digits + white, SEMICOLON, ext + CRLF);
    }
  }

  /** The size is read back from the header, extension or not; a size too large for the type is an error. */
  lemma SizeComesBack(h: Header, size: nat)
    requires HeaderOk(h, size)
    ensures ChunkSize(h.digits + h.blanks + Utf8(h.extension).value + CRLF) == if size <= USIZE_MAX then Some(size) else None
  {
    hide HexValue, Before, Utf8, TrimEnd;
    HeaderText(h, size);
    HexIsPlain(h.digits);
    var digits: seq<int> := h.digits;
    var white := SizeText(digits, h.blanks, Utf8(h.extension).value);
    assert (digits + white)[0] == digits[0];
    assert TrimStart(digits + white) == digits + white;
    TrimEndWhite(digits, white);
  }

  lemma HeaderComesBack(h: Header, size: nat, rest: seq<byte>)
    requires HeaderOk(h, size)
    ensures var line := NextLine(HeaderLine(h) + rest);
            && line.Some? && line.value.1 == |HeaderLine(h)|
            && ChunkSize(line.value.0) == if size <= USIZE_MAX then Some(size) else None
  {
    hide Utf8, NextLine, ChunkSize;
    HeaderText(h, size);
    HexIsPlain(h.digits);
    var line := HeaderLine(h);
    assert line[..|line| - 1] == h.digits + h.blanks + h.extension + [CR];
    LineComesBack(line, rest);
    SizeComesBack(h, size);
  }

  // ---- the whole body ----

  lemma WireParts(line: seq<byte>, data: seq<byte>, tail: seq<byte>)
    ensures var s := line + (data + (CRLF + tail));
            && |s| == |line| + |data| + 2 + |tail|
            && s[|line|..|line| + |data|] == data && s[|line| + |data| + 2..] == tail
  {
  }

  /** One chunk in front of others is read as itself and what the others are read as. */
  lemma ChunkComesBack(c: Chunk, tail: seq<byte>, have: nat, limit: nat)
    requires ChunkOk(c) && limit <= USIZE_MAX
    ensures Chunks(HeaderLine(c.header) + (c.data + (CRLF + tail)), have, limit) ==
            if have + |c.data| > limit then None else Behind(c.data, Chunks(tail, have + |c.data|, limit))
  {
    hide NextLine, ChunkSize, HeaderOk, HeaderLine, Chunks;
    var s, n := HeaderLine(c.header) + (c.data + (CRLF + tail)), |HeaderLine(c.header)|;
    HeaderComesBack(c.header, |c.data|, c.data + (CRLF + tail));
    WireParts(HeaderLine(c.header), c.data, tail);
    if have + |c.data| <= limit {
      ChunkIsRead(s, have, limit, n, |c.data|);
    } else {
      ChunksEnds(s, have, limit);
    }
  }

  lemma LastComesBack(last: Header, rest: seq<byte>, have: nat, limit: nat)
    requires HeaderOk(last, 0)
    ensures Chunks(HeaderLine(last) + rest, have, limit) == Some(([], rest))
  {
    hide NextLine, ChunkSize, HeaderOk, HeaderLine;
    HeaderComesBack(last, 0, rest);
    assert (HeaderLine(last) + rest)[|HeaderLine(last)|..] == rest;
  }

  /**
   Whatever the split into non-empty chunks, the spelling of the sizes and the
   extensions, and whatever follows the last chunk's header: the reader returns
   exactly the body, as long as it fits the limit.
   */
  lemma {:induction false} BodyComesBack(chunks: seq<Chunk>, last: Header, rest: seq<byte>, have: nat, limit: nat)
    requires forall i :: 0 <= i < |chunks| ==> ChunkOk(chunks[i])
    requires HeaderOk(last, 0) && limit <= USIZE_MAX && have + |Body(chunks)| <= limit
    ensures Chunks(Encoded(chunks, last, rest), have, limit) == Some((Body(chunks), rest))
  {
    hide Chunks, HeaderOk, HeaderLine;
    if chunks == [] {
      LastComesBack(last, rest, have, limit);
    } else {
      ChunkComesBack(chunks[0], Encoded(chunks[1..], last, rest), have, limit);
      BodyComesBack(chunks[1..], last, rest, have + |chunks[0].data|, limit);
    }
  }

  /** A body that does not fit the limit is refused. */
  lemma {:induction false} OversizeIsRefused(chunks: seq<Chunk>, last: Header, rest: seq<byte>, have: nat, limit: nat)
    requires forall i :: 0 <= i < |chunks| ==> ChunkOk(chunks[i])
    requires HeaderOk(last, 0) && have <= limit <= USIZE_MAX && have + |Body(chunks)| > limit
    ensures Chunks(Encoded(chunks, last, rest), have, limit) == None
  {
    hide Chunks, HeaderOk, HeaderLine;
    ChunkComesBack(chunks[0], Encoded(chunks[1..], last, rest), have, limit);
    if have + |chunks[0].data| <= limit {
      OversizeIsRefused(chunks[1..], last, rest, have + |chunks[0].data|, limit);
    }
  }

  // ---- the plain form ----

  /** Pieces on the wire as a sender without extensions writes them: size in hexadecimal, data, and a size of zero at the end. */
  function Wire(pieces: seq<seq<byte>>, rest: seq<byte>): seq<byte> {
    if pieces == [] then ['0' as int, CR, LF] + rest
    else ToHex(|pieces[0]|, false) + CRLF + (pieces[0] + (CRLF + Wire(pieces[1..], rest)))
  }

  function Joined(pieces: seq<seq<byte>>): seq<byte> {
    if pieces == [] then [] else pieces[0] + Joined(pieces[1..])
  }

  lemma SizesAreShort(n: nat)
    requires n <= USIZE_MAX
    ensures |ToHex(n, false)| <= 16
  {
    assert Pow16(4) == 0x1_0000;
    assert Pow16(8) == 0x1_0000_0000 by { assert Pow16(6) == 0x100_0000; }
    assert Pow16(12) == 0x1_0000_0000_0000 by { assert Pow16(10) == 0x100_0000_0000; }
    assert Pow16(16) == 0x1_0000_0000_0000_0000 by { assert Pow16(14) == 0x100_0000_0000_0000; }
    HexIsShort(n, false, 16);
  }

  function PlainHeader(size: nat): Header {
    Header(ToHex(size, false), [], [])
  }

  lemma PlainHeaderOk(size: nat)
    requires size <= USIZE_MAX
    ensures HeaderOk(PlainHeader(size), size) && HeaderLine(PlainHeader(size)) == ToHex(size, false) + CRLF
  {
    hide ToHex, HexValue, AllHex;
    WrittenIsRead(size, false);
    SizesAreShort(size);
    assert HeaderLine(PlainHeader(size)) == ToHex(size, false) + CRLF;
  }

  function PlainChunks(pieces: seq<seq<byte>>): seq<Chunk> {
    if pieces == [] then [] else [Chunk(PlainHeader(|pieces[0]|), pieces[0])] + PlainChunks(pieces[1..])
  }

  ghost predicate PiecesOk(pieces: seq<seq<byte>>) {
    forall i :: 0 <= i < |pieces| ==> 0 < |pieces[i]| <= USIZE_MAX
  }

  lemma {:induction false} PlainIsEncoded(pieces: seq<seq<byte>>, rest: seq<byte>)
    requires PiecesOk(pieces)
    ensures Encoded(PlainChunks(pieces), PlainHeader(0), rest) == Wire(pieces, rest)
    ensures Body(PlainChunks(pieces)) == Joined(pieces)
    ensures forall i :: 0 <= i < |PlainChunks(pieces)| ==> ChunkOk(PlainChunks(pieces)[i])
  {
    hide HeaderOk, HeaderLine;
    if pieces == [] {
      PlainHeaderOk(0);
      assert ToHex(0, false) == ['0' as int];
    } else {
      PlainIsEncoded(pieces[1..], rest);
      PlainHeaderOk(|pieces[0]|);
      var chunks := PlainChunks(pieces);
      assert chunks[1..] == PlainChunks(pieces[1..]);
    }
  }

  /** Pieces written with their sizes in hexadecimal come back joined, exactly when they fit the limit. */
  lemma WireComesBack(pieces: seq<seq<byte>>, rest: seq<byte>, limit: nat)
    requires PiecesOk(pieces) && limit <= USIZE_MAX
    ensures Chunks(Wire(pieces, rest), 0, limit) == if |Joined(pieces)| <= limit then Some((Joined(pieces), rest)) else None
  {
    hide Chunks, HeaderOk, Wire, Encoded;
    PlainIsEncoded(pieces, rest);
    PlainHeaderOk(0);
    if |Joined(pieces)| <= limit {
      BodyComesBack(PlainChunks(pieces), PlainHeader(0), rest, 0, limit);
    } else {
      OversizeIsRefused(PlainChunks(pieces), PlainHeader(0), rest, 0, limit);
    }
  }

  // ---- trailers ----

  /** A trailer line: text that is not blank, ended by CRLF. */
  ghost predicate TrailerOk(line: seq<byte>) {
    && 3 <= |line| <= MAX_LINE_BYTES && line[|line| - 2..] == CRLF
    && LF !in line[..|line| - 1] && Utf8(line).Some? && !IsBlankLine(Utf8(line).value)
  }

  function TrailerSection(lines: seq<seq<byte>>, rest: seq<byte>): seq<byte> {
    if lines == [] then CRLF + rest else lines[0] + TrailerSection(lines[1..], rest)
  }

  lemma BlankLineEnds(rest: seq<byte>, budget: nat)
    requires budget > 0
    ensures SkipTrailers(CRLF + rest, budget) == rest
  {
    Utf8Ascii(CRLF);
    LineComesBack(CRLF, rest);
    hide Utf8, NextLine;
    assert (CRLF + rest)[2..] == rest;
  }

  /** A bare LF is a blank line too. */
  lemma BareBlankLineEnds(rest: seq<byte>, budget: nat)
    requires budget > 0
    ensures SkipTrailers([LF] + rest, budget) == rest
  {
    var line: seq<byte> := [LF];
    Utf8Ascii(line);
    LineComesBack(line, rest);
    hide Utf8, NextLine;
    assert (line + rest)[1..] == rest;
  }

  lemma TrailerIsSkipped(line: seq<byte>, tail: seq<byte>, budget: nat)
    requires TrailerOk(line) && budget > 0
    ensures SkipTrailers(line + tail, budget) == SkipTrailers(tail, budget - 1)
  {
    hide Utf8, NextLine;
    LineComesBack(line, tail);
    assert (line + tail)[|line|..] == tail;
  }

  /** Up to 31 trailer lines and the blank line are consumed, and nothing behind them. */
  lemma {:induction false} TrailersAreSkipped(lines: seq<seq<byte>>, rest: seq<byte>, budget: nat)
    requires |lines| < budget && forall i :: 0 <= i < |lines| ==> TrailerOk(lines[i])
    ensures SkipTrailers(TrailerSection(lines, rest), budget) == rest
  {
    hide SkipTrailers, TrailerOk;
    if lines == [] {
      BlankLineEnds(rest, budget);
    } else {
      TrailerIsSkipped(lines[0], TrailerSection(lines[1..], rest), budget);
      TrailersAreSkipped(lines[1..], rest, budget - 1);
    }
  }

  /** More trailer lines than the bound are left where they are from there on. */
  lemma {:induction false} TrailersAreBounded(lines: seq<seq<byte>>, rest: seq<byte>, budget: nat)
    requires budget <= |lines| && forall i :: 0 <= i < |lines| ==> TrailerOk(lines[i])
    ensures SkipTrailers(TrailerSection(lines, rest), budget) == TrailerSection(lines[budget..], rest)
  {
    hide SkipTrailers, TrailerOk;
    if budget == 0 {
      NoneIsSkipped(TrailerSection(lines, rest));
      assert lines[0..] == lines;
    } else {
      TrailerIsSkipped(lines[0], TrailerSection(lines[1..], rest), budget);
      TrailersAreBounded(lines[1..], rest, budget - 1);
      assert lines[1..][budget - 1..] == lines[budget..];
    }
  }

  lemma NoneIsSkipped(s: seq<byte>)
    ensures SkipTrailers(s, 0) == s
  {
  }
}
