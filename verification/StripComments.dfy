/** Blanking the comments of Rust source while keeping every offset. */
module StripComments {

  // ---- what a comment is ----

  predicate Opens(t: string, second: char) {
    |t| >= 2 && t[0] == '/' && t[1] == second
  }

  predicate Closes(t: string) {
    |t| >= 2 && t[0] == '*' && t[1] == '/'
  }

  /** How many characters of `t` come before the line ends. */
  function LineEnd(t: string): (k: nat)
    ensures k <= |t|
    ensures forall i :: 0 <= i < k ==> t[i] != '\n'
    ensures k < |t| ==> t[k] == '\n'
  {
    if t == [] || t[0] == '\n' then 0 else 1 + LineEnd(t[1..])
  }

  /** How many characters of `t` there are until `depth` open block comments are closed, or to the end. */
  function BlockEnd(t: string, depth: nat): (k: nat)
    ensures k <= |t|
    decreases |t|
  {
    if depth == 0 || t == [] then 0
    else if Opens(t, '*') then 2 + BlockEnd(t[2..], depth + 1)
    else if Closes(t) then 2 + BlockEnd(t[2..], depth - 1)
    else 1 + BlockEnd(t[1..], depth)
  }

  /** `t` closes `depth` open block comments with its last characters and not before. */
  predicate ClosesExactly(t: string, depth: nat)
    decreases |t|
  {
    if depth == 0 then t == []
    else if t == [] then false
    else if Opens(t, '*') then ClosesExactly(t[2..], depth + 1)
    else if Closes(t) then ClosesExactly(t[2..], depth - 1)
    else ClosesExactly(t[1..], depth)
  }

  /** `t` leaves at least one of `depth` open block comments open. */
  predicate NeverCloses(t: string, depth: nat)
    decreases |t|
  {
    depth > 0 &&
    (if t == [] then true
     else if Opens(t, '*') then NeverCloses(t[2..], depth + 1)
     else if Closes(t) then NeverCloses(t[2..], depth - 1)
     else NeverCloses(t[1..], depth))
  }

  /** Source text as code characters, line comments and (nested) block comments. */
  datatype Token = Code(c: char) | LineComment(text: string) | BlockComment(text: string)

  function TokenText(k: Token): string {
    match k
    case Code(c) => [c]
    case LineComment(text) => text
    case BlockComment(text) => text
  }

  function Text(tokens: seq<Token>): string {
    if tokens == [] then [] else TokenText(tokens[0]) + Text(tokens[1..])
  }

  /** The tokens are how Rust reads the text, string literals aside. */
  predicate Valid(tokens: seq<Token>) {
    tokens == [] ||
    (&& Valid(tokens[1..])
     && match tokens[0]
        case Code(_) => !Opens(Text(tokens), '/') && !Opens(Text(tokens), '*')
        case LineComment(text) =>
          Opens(text, '/') && '\n' !in text && (tokens[1..] == [] || tokens[1] == Code('\n'))
        case BlockComment(text) =>
          Opens(text, '*') &&
          (ClosesExactly(text[2..], 1) || (tokens[1..] == [] && NeverCloses(text[2..], 1))))
  }

  function Blanks(s: string): (r: string)
    ensures |r| == |s| && forall i :: 0 <= i < |s| ==> r[i] == if s[i] == '\n' then '\n' else ' '
  {
    seq(|s|, i requires 0 <= i < |s| => if s[i] == '\n' then '\n' else ' ')
  }

  /** The text with every comment blanked. */
  function Blanked(tokens: seq<Token>): string {
    if tokens == [] then []
    else (if tokens[0].Code? then TokenText(tokens[0]) else Blanks(TokenText(tokens[0]))) + Blanked(tokens[1..])
  }

  function Lex(t: string): seq<Token>
    decreases |t|
  {
    if t == [] then []
    else if Opens(t, '/') then
      var k := LineEnd(t);
      assert k >= 1;
      [LineComment(t[..k])] + Lex(t[k..])
    else if Opens(t, '*') then
      var k := 2 + BlockEnd(t[2..], 1);
      [BlockComment(t[..k])] + Lex(t[k..])
    else [Code(t[0])] + Lex(t[1..])
  }

  lemma {:induction false} BlockEndIsExact(t: string, depth: nat)
    requires depth > 0
    ensures var k := BlockEnd(t, depth);
            ClosesExactly(t[..k], depth) || (k == |t| && NeverCloses(t, depth))
    decreases |t|
  {
    var k := BlockEnd(t, depth);
    if t == [] {
    } else if Opens(t, '*') || Closes(t) {
      var depth' := if Closes(t) then depth - 1 else depth + 1;
      var s := t[..k];
      assert s[2..] == t[2..][..k - 2] && s[0] == t[0] && s[1] == t[1];
      if depth' > 0 {
        BlockEndIsExact(t[2..], depth');
      }
    } else {
      BlockEndIsExact(t[1..], depth);
      CharStaysPlain(t, k);
      assert t[..k][1..] == t[1..][..k - 1];
    }
  }

  /** Cutting a text after `k` characters does not make a plain character part of a marker. */
  lemma CharStaysPlain(t: string, k: nat)
    requires 1 <= k <= |t| && !Opens(t, '*') && !Closes(t)
    ensures !Opens(t[..k], '*') && !Closes(t[..k])
  {
  }

  /** A token in front of valid tokens. */
  lemma ValidCons(k: Token, rest: seq<Token>, t: string)
    requires Valid(rest) && t == TokenText(k) + Text(rest)
    requires match k
             case Code(_) => !Opens(t, '/') && !Opens(t, '*')
             case LineComment(text) => Opens(text, '/') && '\n' !in text && (rest == [] || rest[0] == Code('\n'))
             case BlockComment(text) =>
               Opens(text, '*') && (ClosesExactly(text[2..], 1) || (rest == [] && NeverCloses(text[2..], 1)))
    ensures Valid([k] + rest) && Text([k] + rest) == t
  {
    hide ClosesExactly, NeverCloses;
  }

  lemma LexLine(t: string, k: nat)
    requires Opens(t, '/') && k == LineEnd(t)
    ensures k >= 2 && Lex(t) == [LineComment(t[..k])] + Lex(t[k..])
  {
    hide BlockEnd;
  }

  lemma LexCode(t: string)
    requires t != [] && !Opens(t, '/') && !Opens(t, '*')
    ensures Lex(t) == [Code(t[0])] + Lex(t[1..])
  {
  }

  lemma LexBlock(t: string, k: nat)
    requires Opens(t, '*') && k == 2 + BlockEnd(t[2..], 1)
    ensures Lex(t) == [BlockComment(t[..k])] + Lex(t[k..])
  {
    hide BlockEnd;
  }

  lemma LineTokenIsValid(t: string, k: nat)
    requires Opens(t, '/') && k == LineEnd(t) && Text(Lex(t[k..])) == t[k..] && Valid(Lex(t[k..]))
    ensures Text(Lex(t)) == t && Valid(Lex(t))
  {
    LexLine(t, k);
    hide LineEnd, Lex, Text, Valid;
    var text, rest := t[..k], Lex(t[k..]);
    assert t == text + t[k..];
    if k < |t| {
      assert t[k..][0] == '\n';
      LexCode(t[k..]);
    } else {
      assert t[k..] == [];
      LexEmpty();
    }
    ValidCons(LineComment(text), rest, t);
  }

  lemma BlockTokenIsValid(t: string, k: nat)
    requires Opens(t, '*') && k == 2 + BlockEnd(t[2..], 1)
    requires Text(Lex(t[k..])) == t[k..] && Valid(Lex(t[k..]))
    ensures Text(Lex(t)) == t && Valid(Lex(t))
  {
    hide BlockEnd, ClosesExactly, NeverCloses, Lex, Text, Valid;
    LexBlock(t, k);
    BlockEndIsExact(t[2..], 1);
    var text, rest := t[..k], Lex(t[k..]);
    assert text[2..] == t[2..][..k - 2];
    if k == |t| {
      assert t[k..] == [] && t[2..][..k - 2] == t[2..];
      LexEmpty();
    }
    assert t == text + t[k..];
    ValidCons(BlockComment(text), rest, t);
  }

  lemma LexEmpty()
    ensures Lex([]) == []
  {
  }

  lemma EmptyIsValid()
    ensures Text([]) == [] && Valid([])
  {
  }

  lemma CodeTokenIsValid(t: string)
    requires t != [] && !Opens(t, '/') && !Opens(t, '*') && Text(Lex(t[1..])) == t[1..] && Valid(Lex(t[1..]))
    ensures Text(Lex(t)) == t && Valid(Lex(t))
  {
    LexCode(t);
    hide Lex, Text, Valid;
    assert t == [t[0]] + t[1..];
    ValidCons(Code(t[0]), Lex(t[1..]), t);
  }

  /** The lexer's tokens spell the text and are what Rust reads. */
  lemma {:induction false} LexIsValid(t: string)
    ensures Text(Lex(t)) == t && Valid(Lex(t))
    decreases |t|
  {
    hide Lex, Text, Valid;
    if t == [] {
      LexEmpty();
      EmptyIsValid();
    } else if Opens(t, '/') {
      LexLine(t, LineEnd(t));
      LexIsValid(t[LineEnd(t)..]);
      LineTokenIsValid(t, LineEnd(t));
    } else if Opens(t, '*') {
      var k := 2 + BlockEnd(t[2..], 1);
      LexIsValid(t[k..]);
      BlockTokenIsValid(t, k);
    } else {
      LexIsValid(t[1..]);
      CodeTokenIsValid(t);
    }
  }

  lemma AppendKeepsFront(x: string, y: string)
    requires |x| >= 2
    ensures Opens(x + y, '*') == Opens(x, '*') && Closes(x + y) == Closes(x)
    ensures (x + y)[1..] == x[1..] + y && (x + y)[2..] == x[2..] + y
  {
  }

  lemma {:induction false} ClosingIsFound(x: string, y: string, depth: nat)
    requires ClosesExactly(x, depth)
    ensures BlockEnd(x + y, depth) == |x|
    decreases |x|
  {
    if depth > 0 {
      assert |x| >= 2;
      AppendKeepsFront(x, y);
      hide Opens, Closes;
      if Opens(x, '*') {
        ClosingIsFound(x[2..], y, depth + 1);
      } else if Closes(x) {
        ClosingIsFound(x[2..], y, depth - 1);
      } else {
        ClosingIsFound(x[1..], y, depth);
      }
    }
  }

  lemma {:induction false} OpenRunsToTheEnd(t: string, depth: nat)
    requires NeverCloses(t, depth)
    ensures BlockEnd(t, depth) == |t|
    decreases |t|
  {
    if t == [] {
    } else if Opens(t, '*') {
      OpenRunsToTheEnd(t[2..], depth + 1);
    } else if Closes(t) {
      OpenRunsToTheEnd(t[2..], depth - 1);
    } else {
      OpenRunsToTheEnd(t[1..], depth);
    }
  }

  lemma {:induction false} LineIsFound(x: string, y: string)
    requires '\n' !in x && (y == [] || y[0] == '\n')
    ensures LineEnd(x + y) == |x|
  {
    var t := x + y;
    if x == [] {
      assert t == y;
    } else {
      assert t[0] == x[0] && t[1..] == x[1..] + y;
      LineIsFound(x[1..], y);
    }
  }

  lemma BlockIsFound(text: string, rest: string)
    requires Opens(text, '*')
    requires ClosesExactly(text[2..], 1) || (rest == [] && NeverCloses(text[2..], 1))
    ensures Opens(text + rest, '*') && 2 + BlockEnd((text + rest)[2..], 1) == |text|
  {
    assert (text + rest)[2..] == text[2..] + rest;
    if ClosesExactly(text[2..], 1) {
      ClosingIsFound(text[2..], rest, 1);
    } else {
      assert text + rest == text;
      OpenRunsToTheEnd(text[2..], 1);
    }
  }

  /** A text can be read in one way only: any valid tokens that spell it are the lexer's. */
  lemma {:induction false} LexIsUnique(tokens: seq<Token>)
    requires Valid(tokens)
    ensures Lex(Text(tokens)) == tokens
  {
    hide Lex, LineEnd, BlockEnd, ClosesExactly, NeverCloses;
    if tokens == [] {
      LexEmpty();
    } else {
      var t, rest, text := Text(tokens), Text(tokens[1..]), TokenText(tokens[0]);
      LexIsUnique(tokens[1..]);
      assert tokens == [tokens[0]] + tokens[1..];
      assert t == text + rest && t[..|text|] == text && t[|text|..] == rest;
      match tokens[0]
      case Code(c) =>
        LexCode(t);
      case LineComment(_) =>
        assert tokens[1..] != [] ==> rest[0] == '\n';
        LineIsFound(text, rest);
        LexLine(t, |text|);
      case BlockComment(_) =>
        BlockIsFound(text, rest);
        LexBlock(t, |text|);
    }
  }

  /** The specification: the text of the lexer's tokens with the comments blanked. */
  function Stripped(t: string): string {
    Blanked(Lex(t))
  }

  // ---- the in-place scan ----

  /** One turn of the scan, whichever kind of token comes next. */
  lemma StrippedUnfolds(t: string)
    requires t != []
    ensures Opens(t, '/') ==> 2 <= LineEnd(t) && Stripped(t) == Blanks(t[..LineEnd(t)]) + Stripped(t[LineEnd(t)..])
    ensures Opens(t, '*') ==>
              var k := 2 + BlockEnd(t[2..], 1); Stripped(t) == Blanks(t[..k]) + Stripped(t[k..])
    ensures !Opens(t, '/') && !Opens(t, '*') ==> Stripped(t) == [t[0]] + Stripped(t[1..])
  {
    hide LineEnd, BlockEnd, Lex;
    if Opens(t, '/') {
      LexLine(t, LineEnd(t));
      assert Lex(t)[1..] == Lex(t[LineEnd(t)..]);
    } else if Opens(t, '*') {
      var k := 2 + BlockEnd(t[2..], 1);
      LexBlock(t, k);
      assert Lex(t)[1..] == Lex(t[k..]);
    } else {
      LexCode(t);
      assert Lex(t)[1..] == Lex(t[1..]);
    }
  }

  /** `to` is where the token at `from` ends, and `after` holds what it becomes. */
  ghost predicate IsTurn(text: string, from: nat, to: nat, after: string)
    requires from < |text| == |after|
  {
    var t := text[from..];
    if Opens(t, '/') then to == from + LineEnd(t) && after[from..to] == Blanks(text[from..to])
    else if Opens(t, '*') then to == from + 2 + BlockEnd(t[2..], 1) <= |text| && after[from..to] == Blanks(text[from..to])
    else to == from + 1 && after[from] == text[from]
  }

  /** One turn of the scan extends the output by what the token becomes. */
  lemma TurnAdvances(text: string, from: nat, to: nat, before: string, after: string)
    requires from < |text| == |before| == |after| && IsTurn(text, from, to, after) && after[..from] == before[..from]
    requires before[..from] + Stripped(text[from..]) == Stripped(text)
    ensures from < to <= |text| && after[..to] + Stripped(text[to..]) == Stripped(text)
  {
    hide Stripped, BlockEnd, LineEnd;
    StrippedUnfolds(text[from..]);
    assert text[from..][..to - from] == text[from..to] && text[from..][to - from..] == text[to..];
    assert to == from + 1 ==> after[from..to] == [after[from]];
    Advance(text, from, to, before, after);
  }

  /** Blank out comments, preserving offsets. */
  method Strip(text: string) returns (result: string)
    ensures result == Stripped(text)
  {
    hide Stripped, BlockEnd, LineEnd;
    var n := |text|;
    var out := new char[n](i requires 0 <= i < n => text[i]);
    assert text[0..] == text;
    var i := 0;
    while i < n
      invariant i <= n && fresh(out) && out.Length == n
      invariant out[..i] + Stripped(text[i..]) == Stripped(text)
      invariant forall k :: i <= k < n ==> out[k] == text[k]
      decreases n - i
    {
      ghost var from, before := i, out[..];
      if Opens(text[i..], '/') {
        i := BlankLine(text, out, i);
      } else if Opens(text[i..], '*') {
        i := BlankBlock(text, out, i);
      } else {
        i := i + 1;
      }
      assert out[..][..from] == before[..from] && out[..][from..i] == out[from..i];
      TurnAdvances(text, from, i, before, out[..]);
    }
    StrippedEmpty();
    assert text[n..] == [];
    result := out[..];
    assert out[..n] + [] == out[..];
  }

  /** A token's worth of output joins the output so far. */
  lemma Advance(text: string, from: nat, to: nat, before: string, after: string)
    requires from <= to <= |text| == |before| == |after| && after[..from] == before[..from]
    requires before[..from] + Stripped(text[from..]) == Stripped(text)
    requires Stripped(text[from..]) == after[from..to] + Stripped(text[to..])
    ensures after[..to] + Stripped(text[to..]) == Stripped(text)
  {
    hide Stripped;
  }

  lemma StrippedEmpty()
    ensures Stripped([]) == []
  {
  }

  /** Blank a line comment up to the end of its line. */
  method BlankLine(text: string, out: array<char>, from: nat) returns (i: nat)
    requires from <= |text| == out.Length && Opens(text[from..], '/')
    modifies out
    ensures i == from + LineEnd(text[from..])
    ensures out[from..i] == Blanks(text[from..i])
    ensures out[..from] == old(out[..from])
    ensures forall k :: i <= k < out.Length ==> out[k] == old(out[k])
  {
    hide LineEnd;
    i := from;
    while i < |text| && text[i] != '\n'
      invariant from <= i <= |text|
      invariant LineEnd(text[from..]) == i - from + LineEnd(text[i..])
      invariant forall k :: from <= k < i ==> text[k] != '\n' && out[k] == ' '
      invariant forall k :: 0 <= k < out.Length && !(from <= k < i) ==> out[k] == old(out[k])
    {
      LineEndUnfolds(text, i);
      out[i] := ' ';
      i := i + 1;
    }
    LineEndUnfolds(text, i);
  }

  lemma LineEndUnfolds(text: string, i: nat)
    requires i <= |text|
    ensures LineEnd(text[i..]) == if i == |text| || text[i] == '\n' then 0 else 1 + LineEnd(text[i + 1..])
  {
    if i < |text| {
      assert text[i..][1..] == text[i + 1..];
    }
  }

  lemma BlockEndUnfolds(text: string, i: nat, depth: nat)
    requires i <= |text|
    ensures depth == 0 || i == |text| ==> BlockEnd(text[i..], depth) == 0
    ensures depth > 0 && i < |text| ==>
              var t := text[i..];
              if Opens(t, '*') then BlockEnd(t, depth) == 2 + BlockEnd(text[i + 2..], depth + 1)
              else if Closes(t) then BlockEnd(t, depth) == 2 + BlockEnd(text[i + 2..], depth - 1)
              else BlockEnd(t, depth) == 1 + BlockEnd(text[i + 1..], depth)
  {
  }

  /** Blank a block comment, nested ones included, up to its end or the end of the text. */
  method BlankBlock(text: string, out: array<char>, from: nat) returns (i: nat)
    requires from <= |text| == out.Length && Opens(text[from..], '*')
    modifies out
    ensures i == from + 2 + BlockEnd(text[from..][2..], 1) <= |text|
    ensures out[from..i] == Blanks(text[from..i])
    ensures out[..from] == old(out[..from])
    ensures forall k :: i <= k < out.Length ==> out[k] == old(out[k])
  {
    hide BlockEnd;
    var depth := 1;
    out[from], out[from + 1] := ' ', ' ';
    i := from + 2;
    assert text[from..][2..] == text[i..];
    ghost var end := i + BlockEnd(text[i..], 1);
    while i < |text| && depth > 0
      invariant from + 2 <= i <= |text| && 0 <= depth
      invariant end == i + BlockEnd(text[i..], depth)
      invariant forall k :: from <= k < i ==> out[k] == if text[k] == '\n' then '\n' else ' '
      invariant forall k :: 0 <= k < out.Length && !(from <= k < i) ==> out[k] == old(out[k])
      decreases |text| - i
    {
      BlockEndUnfolds(text, i, depth);
      if Opens(text[i..], '*') {
        depth := depth + 1;
        out[i], out[i + 1] := ' ', ' ';
        i := i + 2;
      } else if Closes(text[i..]) {
        depth := depth - 1;
        out[i], out[i + 1] := ' ', ' ';
        i := i + 2;
      } else {
        out[i] := if text[i] != '\n' then ' ' else '\n';
        i := i + 1;
      }
    }
    BlockEndUnfolds(text, i, depth);
  }

  // ---- what blanking keeps ----

  /** Length and line structure are kept, and a character is kept or becomes a blank. */
  lemma {:induction false} StrippedPointwise(t: string)
    ensures |Stripped(t)| == |t|
    ensures forall i :: 0 <= i < |t| ==> (Stripped(t)[i] == '\n' <==> t[i] == '\n')
    ensures forall i :: 0 <= i < |t| ==> Stripped(t)[i] == t[i] || Stripped(t)[i] == ' '
    decreases |t|
  {
    hide Stripped, LineEnd, BlockEnd;
    if t == [] {
      StrippedEmpty();
    } else {
      StrippedUnfolds(t);
      var k := TokenLength(t);
      StrippedPointwise(t[k..]);
      var s := Stripped(t);
      forall i | 0 <= i < |t|
        ensures |s| == |t| && (s[i] == '\n' <==> t[i] == '\n') && (s[i] == t[i] || s[i] == ' ')
      {
        if i >= k {
          assert s[i] == Stripped(t[k..])[i - k] && t[i] == t[k..][i - k];
        }
      }
    }
  }

  /** How long the first token is. */
  function TokenLength(t: string): (k: nat)
    requires t != []
    ensures 1 <= k <= |t|
  {
    if Opens(t, '/') then
      assert t[0] != '\n';
      LineEnd(t)
    else if Opens(t, '*') then 2 + BlockEnd(t[2..], 1)
    else 1
  }

  predicate OpenerAt(t: string, i: nat) {
    i + 1 < |t| && t[i] == '/' && (t[i + 1] == '/' || t[i + 1] == '*')
  }

  ghost predicate NoOpener(t: string) {
    forall i: nat :: !OpenerAt(t, i)
  }

  /** One token in front of a stripped text: its own output, and no opener across the seam. */
  lemma TokenHasNoOpener(t: string, k: nat)
    requires t != [] && k == TokenLength(t) && NoOpener(Stripped(t[k..]))
    ensures NoOpener(Stripped(t))
  {
    StrippedUnfolds(t);
    StrippedPointwise(t);
    StrippedPointwise(t[k..]);
    hide Stripped, LineEnd, BlockEnd;
    var s, r := Stripped(t), Stripped(t[k..]);
    forall i: nat | i + 1 < |s| ensures !OpenerAt(s, i) {
      if i >= k {
        assert s[i] == r[i - k] && s[i + 1] == r[i - k + 1];
        assert !OpenerAt(r, i - k);
      } else if k == 1 && s[0] == t[0] == '/' {
        assert s[1] == r[0];
      }
    }
  }

  /** No comment opener is left. */
  lemma {:induction false} StrippedHasNoOpener(t: string)
    ensures NoOpener(Stripped(t))
    decreases |t|
  {
    hide TokenLength;
    if t == [] {
      StrippedEmpty();
    } else {
      StrippedHasNoOpener(t[TokenLength(t)..]);
      TokenHasNoOpener(t, TokenLength(t));
    }
  }

  lemma TailHasNoOpener(t: string)
    requires t != [] && NoOpener(t)
    ensures !Opens(t, '/') && !Opens(t, '*') && NoOpener(t[1..])
  {
    assert !OpenerAt(t, 0);
    forall i: nat ensures !OpenerAt(t[1..], i) {
      assert !OpenerAt(t, i + 1);
    }
  }

  /** A text without comment openers is left alone. */
  lemma {:induction false} NothingToStrip(t: string)
    requires NoOpener(t)
    ensures Stripped(t) == t
    decreases |t|
  {
    hide *;
    if t == [] {
      StrippedEmpty();
    } else {
      StrippedUnfolds(t);
      TailHasNoOpener(t);
      NothingToStrip(t[1..]);
      assert [t[0]] + t[1..] == t;
    }
  }

  lemma StrippingIsIdempotent(t: string)
    ensures Stripped(Stripped(t)) == Stripped(t)
  {
    StrippedHasNoOpener(t);
    NothingToStrip(Stripped(t));
  }

  // ---- the specification on written-out text ----

  const LINE_MARK: string := ['/', '/']
  const OPENER: string := ['/', '*']
  const CLOSER: string := ['*', '/']

  function Spaces(n: nat): string {
    seq(n, _ => ' ')
  }

  /** Text without a slash is code, and stays. */
  lemma {:induction false} CodeIsKept(x: string, y: string)
    requires '/' !in x
    ensures Stripped(x + y) == x + Stripped(y)
  {
    hide Stripped;
    if x == [] {
      assert x + y == y;
    } else {
      var t := x + y;
      StrippedUnfolds(t);
      assert t[0] == x[0] && t[1..] == x[1..] + y;
      CodeIsKept(x[1..], y);
      assert [x[0]] + (x[1..] + Stripped(y)) == x + Stripped(y);
    }
  }

  /** A line comment is blanked to the end of its line and no more. */
  lemma LineCommentIsBlanked(x: string, y: string)
    requires '\n' !in x && (y == [] || y[0] == '\n')
    ensures Stripped(LINE_MARK + x + y) == Spaces(2 + |x|) + Stripped(y)
  {
    hide Stripped, LineEnd;
    var comment := LINE_MARK + x;
    var t := comment + y;
    assert t == LINE_MARK + x + y && t[0] == '/' && t[1] == '/';
    StrippedUnfolds(t);
    LineIsFound(comment, y);
    assert t[..|comment|] == comment && t[|comment|..] == y;
    assert Blanks(comment) == Spaces(2 + |x|);
  }

  /** Text without a slash does not end a block comment, unless a star before it does. */
  lemma {:induction false} InsideIsSkipped(x: string, t: string, depth: nat)
    requires '/' !in x && depth > 0 && (x == [] || x[|x| - 1] != '*' || t == [] || t[0] != '/')
    ensures BlockEnd(x + t, depth) == |x| + BlockEnd(t, depth)
  {
    if x == [] {
      assert x + t == t;
    } else {
      var u := x + t;
      assert u[0] == x[0] && u[1..] == x[1..] + t;
      assert |u| >= 2 ==> u[1] == if |x| > 1 then x[1] else t[0];
      InsideIsSkipped(x[1..], t, depth);
    }
  }

  /** Each marker changes the depth by one. */
  lemma MarkersCount(t: string, depth: nat)
    requires depth > 0
    ensures BlockEnd(CLOSER + t, depth) == 2 + BlockEnd(t, depth - 1)
    ensures BlockEnd(OPENER + t, depth) == 2 + BlockEnd(t, depth + 1)
  {
    assert (CLOSER + t)[2..] == t && (OPENER + t)[2..] == t;
  }

  /** A block comment is blanked up to its closing marker, line breaks kept, and no more. */
  lemma BlockCommentIsBlanked(x: string, y: string)
    requires '/' !in x
    ensures Stripped(OPENER + x + CLOSER + y) == "  " + Blanks(x) + "  " + Stripped(y)
  {
    hide Stripped, BlockEnd;
    var comment, inner := OPENER + x + CLOSER, x + (CLOSER + y);
    var t := comment + y;
    assert t == OPENER + x + CLOSER + y && t[2..] == inner;
    InsideIsSkipped(x, CLOSER + y, 1);
    MarkersCount(y, 1);
    NothingOpen(y);
    StrippedUnfolds(t);
    assert t[..|comment|] == comment && t[|comment|..] == y;
    assert Blanks(comment) == "  " + Blanks(x) + "  ";
  }

  lemma NothingOpen(t: string)
    ensures BlockEnd(t, 0) == 0
  {
  }

  lemma ClosesLevel(x: string, t: string, depth: nat)
    requires '/' !in x && depth > 0
    ensures BlockEnd(x + (CLOSER + t), depth) == |x| + 2 + BlockEnd(t, depth - 1)
  {
    hide BlockEnd;
    InsideIsSkipped(x, CLOSER + t, depth);
    MarkersCount(t, depth);
  }

  lemma OpensLevel(x: string, t: string, depth: nat)
    requires '/' !in x && (x == [] || x[|x| - 1] != '*') && depth > 0
    ensures BlockEnd(x + (OPENER + t), depth) == |x| + 2 + BlockEnd(t, depth + 1)
  {
    hide BlockEnd;
    InsideIsSkipped(x, OPENER + t, depth);
    MarkersCount(t, depth);
  }

  lemma NestedEnd(x: string, y: string, z: string, rest: string)
    requires '/' !in x && '/' !in y && '/' !in z && (x == [] || x[|x| - 1] != '*')
    ensures BlockEnd(x + (OPENER + (y + (CLOSER + (z + (CLOSER + rest))))), 1) == |x| + 2 + |y| + 2 + |z| + 2
  {
    hide BlockEnd;
    var inner := z + (CLOSER + rest);
    OpensLevel(x, y + (CLOSER + inner), 1);
    ClosesLevel(y, inner, 2);
    ClosesLevel(z, rest, 1);
    NothingOpen(rest);
  }

  lemma NestedFlat(x: string, y: string, z: string, rest: string)
    ensures OPENER + x + OPENER + y + CLOSER + z + CLOSER + rest ==
            OPENER + (x + (OPENER + (y + (CLOSER + (z + (CLOSER + rest))))))
  {
  }

  /** Block comments nest. */
  lemma NestedCommentIsBlanked(x: string, y: string, z: string, rest: string)
    requires '/' !in x && '/' !in y && '/' !in z && (x == [] || x[|x| - 1] != '*')
    ensures Stripped(OPENER + x + OPENER + y + CLOSER + z + CLOSER + rest) ==
            Blanks(OPENER + x + OPENER + y + CLOSER + z + CLOSER) + Stripped(rest)
  {
    hide Stripped, BlockEnd, Blanks;
    var comment := OPENER + x + OPENER + y + CLOSER + z + CLOSER;
    var inner := x + (OPENER + (y + (CLOSER + (z + (CLOSER + rest)))));
    var t := OPENER + inner;
    NestedFlat(x, y, z, rest);
    NestedEnd(x, y, z, rest);
    StrippedUnfolds(t);
    assert t[2..] == inner && t == comment + rest;
    assert t[..|comment|] == comment && t[|comment|..] == rest;
  }

  /** A block comment that is not closed runs to the end. */
  lemma OpenCommentIsBlanked(x: string)
    requires '/' !in x
    ensures Stripped(OPENER + x) == "  " + Blanks(x)
  {
    hide Stripped, BlockEnd;
    var t := OPENER + x;
    assert t[2..] == x + [];
    InsideIsSkipped(x, [], 1);
    NothingLeft();
    StrippedUnfolds(t);
    assert t[..|t|] == t && t[|t|..] == [];
    assert Blanks(t) == "  " + Blanks(x);
  }

  lemma NothingLeft()
    ensures BlockEnd([], 1) == 0 && Stripped([]) == []
  {
  }
}
