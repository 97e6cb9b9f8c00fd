/**
 The chunked body reader of the HTTP client (section 7.1 of RFC 9112): a cursor
 over the bytes the server sent, a buffer that grows up to a limit, and the
 loop that fills it.
 */
module ChunkedBody {
  import opened Wrappers
  import opened HttpText

  const MAX_LINE_BYTES: nat := 8192
  const MAX_TRAILERS: nat := 32

  // ---- lines ----

  /** How many bytes `read_line` takes: up to and including the first LF, but one more than a line may have at most. */
  function LineLength(s: seq<byte>, budget: nat): (n: nat)
    ensures n <= |s| && n <= budget
    ensures forall i :: 0 <= i < n - 1 ==> s[i] != LF
    ensures n < |s| && n < budget ==> n > 0 && s[n - 1] == LF
    decreases budget
  {
    if s == [] || budget == 0 then 0
    else if s[0] == LF then 1
    else 1 + LineLength(s[1..], budget - 1)
  }

  /** How many bytes reading a line consumes, whether the line is acceptable or not. */
  function LineTaken(s: seq<byte>): (n: nat)
    ensures n <= |s|
  {
    LineLength(s, MAX_LINE_BYTES + 1)
  }

  /** The characters of the next line and its length in bytes; too long or malformed is an error. */
  function NextLine(s: seq<byte>): (line: Option<(seq<int>, nat)>)
    ensures line.Some? ==> line.value.1 == LineTaken(s)
  {
    var n := LineTaken(s);
    if n > MAX_LINE_BYTES || Utf8(s[..n]).None? then None else Some((Utf8(s[..n]).value, n))
  }

  predicate IsBlankLine(text: seq<int>) {
    text == [CR, LF] || text == [LF]
  }

  /** The size a chunk header announces: hexadecimal, before any extension, white space around it ignored. */
  function ChunkSize(text: seq<int>): (size: Option<nat>)
    ensures size.Some? ==> size.value <= USIZE_MAX
  {
    ParseHex(TrimEnd(TrimStart(Before(text, SEMICOLON))))
  }

  function SatAdd(a: nat, b: nat): nat {
    if a + b > USIZE_MAX then USIZE_MAX else a + b
  }

  // ---- what the bytes say ----

  /** The body the chunks at the front of `s` carry and what follows the last chunk's header; `have` bytes came before. */
  function Chunks(s: seq<byte>, have: nat, limit: nat): Option<(seq<byte>, seq<byte>)>
    decreases |s|
  {
    match NextLine(s)
    case None => None
    case Some((text, n)) =>
      match ChunkSize(text)
      case None => None
      case Some(size) =>
        if size == 0 then Some(([], s[n..]))
        else if have + size > limit then None
        else if |s| - n < size + 2 then None
        else
          match Chunks(s[n + size + 2..], have + size, limit)
          case None => None
          case Some((body, rest)) => Some((s[n..n + size] + body, rest))
  }

  /** What is left after up to `budget` trailer lines; a line that cannot be read ends the trailers. */
  function SkipTrailers(s: seq<byte>, budget: nat): seq<byte> {
    if budget == 0 then s
    else
      match NextLine(s)
      case None => s[LineTaken(s)..]
      case Some((text, n)) => if n == 0 || IsBlankLine(text) then s[n..] else SkipTrailers(s[n..], budget - 1)
  }

  // ---- the growing buffer ----

  function Pow2(k: nat): (p: nat)
    ensures p > 0
  {
    if k == 0 then 1 else 2 * Pow2(k - 1)
  }

  function Zeros(n: nat): seq<byte> {
    seq(n, _ => 0)
  }

  function Min(a: nat, b: nat): nat {
    if a <= b then a else b
  }

  function Max(a: nat, b: nat): nat {
    if a >= b then a else b
  }

  class Buffer {
    var data: seq<byte>
    var capacity: nat
    ghost var reallocations: nat

    /** Length and capacity within the limit, and every reallocation but the first two has doubled the capacity. */
    ghost predicate Valid(limit: nat)
      reads this
    {
      && |data| <= capacity <= limit
      && (reallocations == 0 ==> capacity == 0)
      && (reallocations > 0 ==> capacity > 0 && (capacity >= Pow2(reallocations - 1) || capacity == limit))
      && (reallocations >= 2 ==> Pow2(reallocations - 2) < limit)
    }

    constructor (limit: nat)
      ensures Valid(limit) && data == [] && reallocations == 0
    {
      data, capacity, reallocations := [], 0, 0;
    }

    /**
     Grow by zero bytes within the limit; the body so far is kept. A length that
     overflows, which a saturated test lets through for the largest limit, ends
     in a panic: no start is returned.
     */
    method Grow(additional: nat, limit: nat) returns (start: Option<nat>)
      requires Valid(limit) && SatAdd(|data|, additional) <= limit <= USIZE_MAX
      modifies this
      ensures Valid(limit) && start == if |old(data)| + additional <= USIZE_MAX then Some(|old(data)|) else None
      ensures data == if start.Some? then old(data) + Zeros(additional) else old(data)
      ensures reallocations <= old(reallocations) + 1
      ensures start.Some? ==> (reallocations == old(reallocations) <==> |old(data)| + additional <= old(capacity))
      ensures reallocations == old(reallocations) ==> capacity == old(capacity)
      ensures reallocations > old(reallocations) ==>
                capacity == |data| || (capacity > |data| && (capacity == 2 * old(capacity) || capacity == limit < 2 * old(capacity)))
      ensures reallocations > old(reallocations) ==> capacity >= 2 * old(capacity) || capacity == limit
    {
      var len := |data| + additional;
      if len > USIZE_MAX {
        return None;
      }
      start := Some(|data|);
      if len > capacity {
        capacity := Max(len, Min(2 * capacity, limit));
        reallocations := reallocations + 1;
      }
      data := data + Zeros(additional);
    }
  }

  /** The reallocations of a buffer are logarithmic in the limit: after the second one, each needs the limit to double. */
  lemma {:induction false} ReallocationsLogarithmic(buffer: Buffer, limit: nat, k: nat)
    requires buffer.Valid(limit) && limit <= Pow2(k)
    ensures buffer.reallocations <= k + 1
  {
    if buffer.reallocations > k + 1 {
      Pow2Grows(k, buffer.reallocations - 2);
    }
  }

  lemma {:induction false} Pow2Grows(j: nat, k: nat)
    requires j <= k
    ensures Pow2(j) <= Pow2(k)
    decreases k
  {
    if j < k {
      Pow2Grows(j, k - 1);
    }
  }

  // ---- the reader ----

  /** `n` bytes of the line are read; `found` says that the last of them ended it. */
  ghost predicate LineUpTo(s: seq<byte>, budget: nat, n: nat, found: bool) {
    && n <= |s| && n <= budget
    && LineLength(s, budget) == n + if found then 0 else LineLength(s[n..], budget - n)
  }

  lemma LineBegins(s: seq<byte>, budget: nat)
    ensures LineUpTo(s, budget, 0, false)
  {
    assert s[0..] == s;
  }

  lemma LineGoesOn(s: seq<byte>, budget: nat, n: nat)
    requires LineUpTo(s, budget, n, false) && n < |s| && n < budget
    ensures LineUpTo(s, budget, n + 1, s[n] == LF)
  {
    assert s[n..][0] == s[n] && s[n..][1..] == s[n + 1..];
  }

  lemma LineIsOver(s: seq<byte>, budget: nat, n: nat, found: bool)
    requires LineUpTo(s, budget, n, found) && (found || n == |s| || n == budget)
    ensures LineLength(s, budget) == n
  {
  }

  class Reader {
    const input: seq<byte>
    var pos: nat

    ghost predicate Valid()
      reads this
    {
      pos <= |input|
    }

    function Rest(): seq<byte>
      requires Valid()
      reads this
    {
      input[pos..]
    }

    constructor (input: seq<byte>)
      ensures Valid() && Rest() == input && this.input == input
    {
      this.input, pos := input, 0;
    }

    /** Read one line, at most `MAX_LINE_BYTES` long; the bytes are gone even if the line is no good. */
    method ReadLineBounded() returns (line: Option<(seq<int>, nat)>)
      requires Valid()
      modifies this
      ensures Valid() && line == NextLine(old(Rest())) && Rest() == old(Rest())[LineTaken(old(Rest()))..]
    {
      hide Utf8, LineLength;
      ghost var s := Rest();
      var n, found := 0, false;
      LineBegins(s, MAX_LINE_BYTES + 1);
      while n < |input| - pos && n < MAX_LINE_BYTES + 1 && !found
        invariant pos == old(pos) && n <= |s| && n <= MAX_LINE_BYTES + 1
        invariant LineUpTo(s, MAX_LINE_BYTES + 1, n, found)
        decreases MAX_LINE_BYTES + 1 - n, !found
      {
        LineGoesOn(s, MAX_LINE_BYTES + 1, n);
        found := input[pos + n] == LF;
        n := n + 1;
      }
      LineIsOver(s, MAX_LINE_BYTES + 1, n, found);
      assert s[..n] == input[pos..pos + n];
      var text := Utf8(input[pos..pos + n]);
      pos := pos + n;
      line := if n > MAX_LINE_BYTES || text.None? then None else Some((text.value, n));
    }

    method ReadExact(n: nat) returns (bytes: Option<seq<byte>>)
      requires Valid()
      modifies this
      ensures Valid()
      ensures bytes == if n <= |old(Rest())| then Some(old(Rest())[..n]) else None
      ensures bytes.Some? ==> Rest() == old(Rest())[n..]
      ensures bytes.Some? ==> pos == old(pos) + n && bytes.value == input[old(pos)..pos]
    {
      if |input| - pos < n {
        pos := |input|;
        return None;
      }
      bytes := Some(input[pos..pos + n]);
      assert Rest()[n..] == input[pos + n..] && Rest()[..n] == input[pos..pos + n];
      pos := pos + n;
    }
  }

  /**
   Read a chunked body. The result is what the bytes say; whatever they say, the
   buffer stays within the limit. `ok` is false where no body is returned: at an
   error, or at the overflow `Grow` speaks of.
   */
  method ReadChunkedBody(reader: Reader, limit: nat) returns (body: Buffer, ok: bool)
    requires reader.Valid() && limit <= USIZE_MAX
    modifies reader
    ensures reader.Valid() && fresh(body) && body.Valid(limit)
    ensures ok <==> Chunks(old(reader.Rest()), 0, limit).Some?
    ensures ok ==> body.data == Chunks(old(reader.Rest()), 0, limit).value.0
    ensures ok ==> reader.Rest() == SkipTrailers(Chunks(old(reader.Rest()), 0, limit).value.1, 32)
  {
    body := new Buffer(limit);
    ok := ReadChunks(reader, body, limit);
    if ok {
      DrainTrailers(reader);
    }
  }

  /** A parse of the rest, put behind the body read so far. */
  ghost function Behind(body: seq<byte>, parsed: Option<(seq<byte>, seq<byte>)>): Option<(seq<byte>, seq<byte>)> {
    if parsed.None? then None else Some((body + parsed.value.0, parsed.value.1))
  }

  /** A chunk that is there and fits is read, and then what follows it. */
  lemma ChunkIsRead(s: seq<byte>, have: nat, limit: nat, n: nat, size: nat)
    requires NextLine(s).Some? && NextLine(s).value.1 == n && ChunkSize(NextLine(s).value.0) == Some(size)
    requires size > 0 && have + size <= limit && n + size + 2 <= |s|
    ensures Chunks(s, have, limit) == Behind(s[n..n + size], Chunks(s[n + size + 2..], have + size, limit))
  {
    hide NextLine, ChunkSize, LineTaken;
  }

  /** A chunk that is there moves from the rest to the body. */
  lemma ChunkMoves(s: seq<byte>, body: seq<byte>, limit: nat, n: nat, size: nat)
    requires NextLine(s).Some? && NextLine(s).value.1 == n && ChunkSize(NextLine(s).value.0) == Some(size)
    requires size > 0 && |body| + size <= limit && n + size + 2 <= |s|
    ensures Behind(body, Chunks(s, |body|, limit)) ==
            Behind(body + s[n..n + size], Chunks(s[n + size + 2..], |body| + size, limit))
  {
    hide NextLine, ChunkSize, LineTaken, Chunks;
    ChunkIsRead(s, |body|, limit, n, size);
    var rest := Chunks(s[n + size + 2..], |body| + size, limit);
    if rest.Some? {
      assert body + (s[n..n + size] + rest.value.0) == body + s[n..n + size] + rest.value.0;
    }
  }

  /** Where the parse ends: with the last chunk, or with an error. */
  lemma ChunksEnds(s: seq<byte>, have: nat, limit: nat)
    ensures NextLine(s).None? ==> Chunks(s, have, limit).None?
    ensures NextLine(s).Some? ==>
              var (text, n) := NextLine(s).value;
              var size := ChunkSize(text);
              && (size.None? ==> Chunks(s, have, limit).None?)
              && (size == Some(0) ==> Chunks(s, have, limit) == Some(([], s[n..])))
              && (size.Some? && size.value > 0 && (have + size.value > limit || |s| - n < size.value + 2) ==>
                    Chunks(s, have, limit).None?)
  {
    hide NextLine, ChunkSize;
  }

  /** Make room for a chunk, read it, and consume the two bytes behind it. */
  method ReadOneChunk(reader: Reader, body: Buffer, size: nat, limit: nat) returns (ok: bool)
    requires reader.Valid() && body.Valid(limit) && 0 < size && SatAdd(|body.data|, size) <= limit <= USIZE_MAX
    modifies reader, body
    ensures reader.Valid() && body.Valid(limit)
    ensures ok <==> |old(body.data)| + size <= limit && size + 2 <= |old(reader.Rest())|
    ensures ok ==> body.data == old(body.data) + old(reader.Rest())[..size]
    ensures ok ==> reader.Rest() == old(reader.Rest())[size + 2..]
  {
    var start := body.Grow(size, limit);
    if start.None? {
      return false;
    }
    var chunk := reader.ReadExact(size);
    if chunk.None? {
      return false;
    }
    body.data := body.data[..start.value] + chunk.value;
    var crlf := reader.ReadExact(2);
    return crlf.Some?;
  }

  /** The loop over the chunks; it stops in front of the trailers. */
  method ReadChunks(reader: Reader, body: Buffer, limit: nat) returns (ok: bool)
    requires reader.Valid() && body.Valid(limit) && body.data == [] && limit <= USIZE_MAX
    modifies reader, body
    ensures reader.Valid() && body.Valid(limit)
    ensures var parsed := Chunks(old(reader.Rest()), 0, limit);
            && (ok <==> parsed.Some?)
            && (ok ==> body.data == parsed.value.0 && reader.Rest() == parsed.value.1)
  {
    hide NextLine, LineTaken, ChunkSize, Chunks, Pow2;
    ghost var whole := Chunks(reader.Rest(), 0, limit);
    assert whole.Some? ==> body.data + whole.value.0 == whole.value.0;
    while true
      invariant reader.Valid() && body.Valid(limit)
      invariant whole == Behind(body.data, Chunks(reader.Rest(), |body.data|, limit))
      decreases |reader.Rest()|
    {
      ghost var s, have := reader.Rest(), body.data;
      ChunksEnds(s, |have|, limit);
      var line := reader.ReadLineBounded();
      if line.None? {
        return false;
      }
      var size := ChunkSize(line.value.0);
      if size.None? {
        return false;
      }
      if size.value == 0 {
        return true;
      }
      if SatAdd(|body.data|, size.value) > limit {
        return false;
      }
      var read := ReadOneChunk(reader, body, size.value, limit);
      if !read {
        return false;
      }
      ghost var n := line.value.1;
      assert s[n..][size.value + 2..] == s[n + size.value + 2..];
      assert s[n..][..size.value] == s[n..n + size.value];
      ChunkMoves(s, have, limit, n, size.value);
    }
  }

  /** A body without framing is everything up to the end, in blocks of whatever sizes the reads return. */
  method ReadToEnd(reader: Reader, limit: nat) returns (body: Buffer, ok: bool)
    requires reader.Valid() && limit <= USIZE_MAX
    modifies reader
    ensures reader.Valid() && fresh(body) && body.Valid(limit)
    ensures ok <==> |old(reader.Rest())| <= limit
    ensures ok ==> body.data == old(reader.Rest())
  {
    hide Pow2;
    body := new Buffer(limit);
    ghost var from := reader.pos;
    while reader.pos < |reader.input|
      invariant reader.Valid() && fresh(body) && body.Valid(limit)
      invariant from <= reader.pos && body.data == reader.input[from..reader.pos]
      decreases |reader.input| - reader.pos
    {
      var n: nat :| 1 <= n <= 8192 && n <= |reader.input| - reader.pos;
      var block := reader.ReadExact(n);
      if |body.data| + n > limit {
        return body, false;
      }
      var start := body.Grow(n, limit);
      body.data := body.data[..start.value] + block.value;
    }
    return body, true;
  }

  /** Skip trailer lines up to a blank one, an unreadable one, the end, or the bound. */
  method DrainTrailers(reader: Reader)
    requires reader.Valid()
    modifies reader
    ensures reader.Valid() && reader.Rest() == SkipTrailers(old(reader.Rest()), 32)
  {
    hide NextLine, LineTaken;
    ghost var s := reader.Rest();
    for i := 0 to MAX_TRAILERS
      invariant reader.Valid()
      invariant SkipTrailers(s, MAX_TRAILERS) == SkipTrailers(reader.Rest(), MAX_TRAILERS - i)
    {
      var line := reader.ReadLineBounded();
      if line.None? || line.value.1 == 0 || IsBlankLine(line.value.0) {
        return;
      }
    }
  }
}
