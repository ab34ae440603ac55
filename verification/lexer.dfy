/**
 * The UMG++ lexer (`UMGPPTranspiler.tokenize`). Each line is scanned left to
 * right; at every position the token patterns are tried in their fixed order
 * and the first one that matches the rest of the line wins. Whitespace is
 * consumed without producing a token; a character no pattern matches produces
 * one error and the scan moves on by one character.
 */
module Lexer {
  import opened Wrappers
  import opened Text
  import opened Numerals
  import opened Opcodes

  datatype TokenKind =
    | Keyword | Function | Identifier | Number
    | LParen | RParen | Semicolon | Plus | Dot
    | Whitespace

  /** The pattern list, in the order the lexer tries it. */
  const Patterns: seq<TokenKind> :=
    [Keyword, Function, Identifier, Number, LParen, RParen, Semicolon, Plus, Dot, Whitespace]

  /** The position of a kind's pattern in `Patterns`. */
  function Rank(k: TokenKind): (i: nat)
    ensures i < |Patterns| && Patterns[i] == k
  {
    match k
    case Keyword => 0
    case Function => 1
    case Identifier => 2
    case Number => 3
    case LParen => 4
    case RParen => 5
    case Semicolon => 6
    case Plus => 7
    case Dot => 8
    case Whitespace => 9
  }

  const Keywords: seq<string> := ["PROGRAM", "BEGIN", "END"]

  /** A token with its 1-based line and 1-based column (a character index). */
  datatype Token = Token(kind: TokenKind, text: string, line: nat, column: nat)

  /** An unrecognised character, where it was found. */
  datatype LexError = UnrecognizedChar(ch: char, line: nat, column: nat)

  function Message(e: LexError): string {
    "Car\U{e1}cter no reconocido: '" + [e.ch] + "'"
  }

  // ---------------------------------------------------------------------
  // The patterns, one matcher each. A matcher returns the length of the
  // text its pattern matches at the start of `s`; no pattern can match the
  // empty string, so 0 stands for "no match".
  // ---------------------------------------------------------------------

  /** `\b` holds after the first `n` characters of `s`. */
  predicate WordEndsAt(s: string, n: nat)
    requires n <= |s|
  {
    n == |s| || !IsWordChar(s[n])
  }

  /** `\b(w1|w2|...)\b`: the first alternative that is a whole word at the start of `s`. */
  function WordMatch(words: seq<string>, s: string): (n: nat)
    ensures n <= |s|
    ensures n > 0 ==> s[..n] in words && WordEndsAt(s, n)
    ensures n == 0 ==> forall k :: 0 <= k < |words| && |words[k]| > 0 && StartsWith(s, words[k]) ==> !WordEndsAt(s, |words[k]|)
  {
    if |words| == 0 then 0
    else if |words[0]| > 0 && StartsWith(s, words[0]) && WordEndsAt(s, |words[0]|) then |words[0]|
    else
      var n := WordMatch(words[1..], s);
      assert forall k :: 1 <= k < |words| ==> words[k] == words[1..][k - 1];
      n
  }

  datatype CharClass = Digits | IdentChars | Spaces

  predicate InClass(c: char, cls: CharClass) {
    match cls
    case Digits => IsDigit(c)
    case IdentChars => IsIdentChar(c)
    case Spaces => IsSpace(c)
  }

  /** The length of the longest prefix of `s` drawn from `cls` (a greedy `+`/`*`). */
  function Span(s: string, cls: CharClass): (n: nat)
    ensures n <= |s|
    ensures forall k :: 0 <= k < n ==> InClass(s[k], cls)
    ensures n < |s| ==> !InClass(s[n], cls)
  {
    if |s| > 0 && InClass(s[0], cls) then 1 + Span(s[1..], cls) else 0
  }

  /** `\b[a-zA-Z_][a-zA-Z0-9_]*\b`. */
  function IdentifierMatch(s: string): (n: nat)
    ensures n <= |s|
    ensures n > 0 ==> IsIdentStart(s[0]) && (forall k :: 0 <= k < n ==> IsIdentChar(s[k])) && WordEndsAt(s, n)
    ensures n == 0 && |s| > 0 && IsIdentStart(s[0]) ==>
              exists m | 0 < m < |s| :: (forall k :: 0 <= k < m ==> IsIdentChar(s[k])) && !IsIdentChar(s[m]) && IsWordChar(s[m])
  {
    if |s| > 0 && IsIdentStart(s[0]) then
      var n := 1 + Span(s[1..], IdentChars);
      assert forall k :: 1 <= k < n ==> s[k] == s[1..][k - 1];
      if WordEndsAt(s, n) then n
      else
        assert !IsIdentChar(s[n]) && IsWordChar(s[n]);
        0
    else 0
  }

  /** `-?\d+`: a `-` belongs to the number only when a digit follows it at once. */
  function NumberMatch(s: string): (n: nat)
    ensures n <= |s|
    ensures n > 0 ==> IsNumeral(s[..n]) && (n == |s| || !IsDigit(s[n]))
    ensures n == 0 <==> |s| == 0 || (!IsDigit(s[0]) && !(s[0] == '-' && |s| > 1 && IsDigit(s[1])))
  {
    if |s| >= 2 && s[0] == '-' && IsDigit(s[1]) then
      var n := 1 + Span(s[1..], Digits);
      assert s[..n][1..] == s[1..][..n - 1];
      n
    else
      var n := Span(s, Digits);
      assert n > 0 ==> s[..n][0] != '-';
      n
  }

  /** A one-character pattern such as `\(` or `;`. */
  function CharMatch(c: char, s: string): (n: nat)
    ensures n <= |s|
    ensures n > 0 <==> |s| > 0 && s[0] == c
    ensures n > 0 ==> n == 1
  {
    if |s| > 0 && s[0] == c then 1 else 0
  }

  /** The length matched by kind `k`'s pattern at the start of `s` (0: no match). */
  function MatchLength(k: TokenKind, s: string): (n: nat)
    ensures n <= |s|
  {
    match k
    case Keyword => WordMatch(Keywords, s)
    case Function => WordMatch(FunctionNames, s)
    case Identifier => IdentifierMatch(s)
    case Number => NumberMatch(s)
    case LParen => CharMatch('(', s)
    case RParen => CharMatch(')', s)
    case Semicolon => CharMatch(';', s)
    case Plus => CharMatch('+', s)
    case Dot => CharMatch('.', s)
    case Whitespace => Span(s, Spaces)
  }

  function FirstMatchFrom(s: string, i: nat): (r: Option<(TokenKind, nat)>)
    requires i <= |Patterns|
    ensures r.None? ==> forall j :: i <= j < |Patterns| ==> MatchLength(Patterns[j], s) == 0
    ensures r.Some? ==> i <= Rank(r.value.0) && 0 < r.value.1 == MatchLength(r.value.0, s)
    ensures r.Some? ==> forall j :: i <= j < Rank(r.value.0) ==> MatchLength(Patterns[j], s) == 0
    decreases |Patterns| - i
  {
    if i == |Patterns| then None
    else
      var n := MatchLength(Patterns[i], s);
      if n > 0 then
        assert Rank(Patterns[i]) == i;
        Some((Patterns[i], n))
      else FirstMatchFrom(s, i + 1)
  }

  /**
   * What one iteration of the scan finds at the start of `s`: the first
   * pattern, in list order, that matches, with the length it matched.
   */
  function FirstMatch(s: string): (r: Option<(TokenKind, nat)>)
    ensures r.None? <==> forall k :: MatchLength(k, s) == 0
    ensures r.Some? ==> 0 < r.value.1 <= |s| && r.value.1 == MatchLength(r.value.0, s)
    ensures r.Some? ==> forall k :: Rank(k) < Rank(r.value.0) ==> MatchLength(k, s) == 0
  {
    var r := FirstMatchFrom(s, 0);
    if r.None? then
      assert forall k :: MatchLength(Patterns[Rank(k)], s) == 0;
      r
    else
      assert forall k :: Rank(k) < Rank(r.value.0) ==> MatchLength(Patterns[Rank(k)], s) == 0;
      r
  }

  // ---------------------------------------------------------------------
  // Scanning a line
  // ---------------------------------------------------------------------

  /**
   * What one iteration of the scanning loop consumes: a pattern match at
   * `start` of length `len`, or one unrecognised character at `start`.
   */
  datatype Lexeme = Matched(kind: TokenKind, start: nat, len: nat) | Unmatched(start: nat)
  {
    function End(): nat {
      if Matched? then start + len else start + 1
    }
  }

  /** The lexeme is what the loop does when it stands at `lx.start` of `line`. */
  predicate Faithful(line: string, lx: Lexeme) {
    && lx.start < lx.End() <= |line|
    && match lx
       case Matched(k, st, n) => FirstMatch(line[st..]) == Some((k, n))
       case Unmatched(st) => FirstMatch(line[st..]) == None
  }

  /** `lxs` covers `from..to` exactly, each lexeme starting where the previous one ended. */
  predicate Tiles(lxs: seq<Lexeme>, from: nat, to: nat) {
    && (|lxs| == 0 ==> from == to)
    && (|lxs| > 0 ==> lxs[0].start == from && lxs[|lxs| - 1].End() == to)
    && (forall k :: 0 <= k < |lxs| - 1 ==> lxs[k].End() == lxs[k + 1].start)
  }

  /**
   * The scan of `line` from `pos`: at each position, the first pattern that
   * matches there, or else one unrecognised character, until the end of the
   * line (`ScanCovers` states the tiling and faithfulness).
   */
  function Scan(line: string, pos: nat): (lxs: seq<Lexeme>)
    requires pos <= |line|
    ensures forall k :: 0 <= k < |lxs| ==> pos <= lxs[k].start < lxs[k].End() <= |line|
    decreases |line| - pos, 1
  {
    if pos == |line| then [] else ScanStep(line, pos)
  }

  /** One turn of the scanning loop at `pos`, then the scan from where its lexeme ends. */
  function ScanStep(line: string, pos: nat): (lxs: seq<Lexeme>)
    requires pos < |line|
    ensures forall k :: 0 <= k < |lxs| ==> pos <= lxs[k].start < lxs[k].End() <= |line|
    decreases |line| - pos, 0
  {
    var lx := LexemeAt(line, pos);
    [lx] + Scan(line, lx.End())
  }

  /** What the scanning loop does standing at `pos`: the first pattern that matches there, or one unrecognised character. */
  function LexemeAt(line: string, pos: nat): (lx: Lexeme)
    requires pos < |line|
    ensures lx.start == pos && Faithful(line, lx)
  {
    match FirstMatch(line[pos..])
    case Some((k, n)) => Matched(k, pos, n)
    case None => Unmatched(pos)
  }

  /** The scan from a position inside the line: the lexeme there, then the scan from its end. */
  lemma {:induction false} ScanUnfold(line: string, pos: nat)
    requires pos < |line|
    ensures Scan(line, pos) == [LexemeAt(line, pos)] + Scan(line, LexemeAt(line, pos).End())
  {
    assert Scan(line, pos) == ScanStep(line, pos);
    assert ScanStep(line, pos) == [LexemeAt(line, pos)] + Scan(line, LexemeAt(line, pos).End());
  }

  /**
   * Every character from `pos` on lies in exactly one lexeme of the scan, and
   * each lexeme is the first match at its start (or a single unrecognised
   * character), so the scan always reaches the end of the line.
   */
  lemma {:induction false} ScanCovers(line: string, pos: nat)
    requires pos <= |line|
    ensures Tiles(Scan(line, pos), pos, |line|)
    ensures forall k :: 0 <= k < |Scan(line, pos)| ==> Faithful(line, Scan(line, pos)[k])
    decreases |line| - pos
  {
    if pos < |line| {
      ScanUnfold(line, pos);
      var lx := LexemeAt(line, pos);
      ScanCovers(line, lx.End());
      TilesCons(line, lx, Scan(line, lx.End()), Scan(line, pos));
    }
  }

  /** A faithful lexeme in front of faithful lexemes that tile the rest of the line tiles from its start. */
  lemma {:induction false} TilesCons(line: string, lx: Lexeme, rest: seq<Lexeme>, lxs: seq<Lexeme>)
    requires lxs == [lx] + rest && Faithful(line, lx)
    requires Tiles(rest, lx.End(), |line|) && forall k :: 0 <= k < |rest| ==> Faithful(line, rest[k])
    ensures Tiles(lxs, lx.start, |line|) && forall k :: 0 <= k < |lxs| ==> Faithful(line, lxs[k])
  {
    forall k | 0 <= k < |lxs| ensures Faithful(line, lxs[k]) {
      if k > 0 {
        assert lxs[k] == rest[k - 1];
      }
    }
    forall k | 0 <= k < |lxs| - 1 ensures lxs[k].End() == lxs[k + 1].start {
      assert lxs[k + 1] == rest[k];
      if k > 0 {
        assert lxs[k] == rest[k - 1];
      }
    }
  }

  /** Lexemes that tile `from..to`, each non-empty, stand left to right from `from` on. */
  lemma {:induction false} TilesAscend(lxs: seq<Lexeme>, from: nat, to: nat)
    requires Tiles(lxs, from, to)
    requires forall k :: 0 <= k < |lxs| ==> lxs[k].start < lxs[k].End()
    ensures forall k :: 0 <= k < |lxs| ==> from <= lxs[k].start
    ensures Ascending(lxs)
    decreases |lxs|
  {
    if |lxs| > 0 {
      var rest := lxs[1..];
      assert forall k :: 0 <= k < |rest| - 1 ==> rest[k].End() == rest[k + 1].start;
      TilesAscend(rest, lxs[0].End(), to);
      forall a, b | 0 <= a < b < |lxs| ensures lxs[a].start < lxs[b].start {
        assert lxs[b] == rest[b - 1];
        if a > 0 {
          assert lxs[a] == rest[a - 1];
        }
      }
    }
  }


  /** The lexemes stand left to right, as the scanning loop meets them. */
  predicate Ascending(lxs: seq<Lexeme>) {
    forall a, b :: 0 <= a < b < |lxs| ==> lxs[a].start < lxs[b].start
  }

  /** Tokens at strictly increasing columns. */
  predicate ColumnsAscend(ts: seq<Token>) {
    forall a, b :: 0 <= a < b < |ts| ==> ts[a].column < ts[b].column
  }

  /** Errors at strictly increasing columns. */
  predicate ErrorColumnsAscend(es: seq<LexError>) {
    forall a, b :: 0 <= a < b < |es| ==> es[a].column < es[b].column
  }

  /**
   * The tokens the lexemes produce: each token comes from a non-whitespace
   * match, and every non-whitespace match yields its token.
   */
  function LexemeTokens(line: string, ln: nat, lxs: seq<Lexeme>): (ts: seq<Token>)
    requires forall k :: 0 <= k < |lxs| ==> lxs[k].End() <= |line|
    ensures |ts| <= |lxs|
    ensures ts == [] <==> forall k :: 0 <= k < |lxs| && lxs[k].Matched? ==> lxs[k].kind == Whitespace
    ensures forall j :: 0 <= j < |ts| ==> exists k | 0 <= k < |lxs| :: Produces(line, ln, lxs[k], ts[j])
    ensures forall k {:trigger TokenOf(line, ln, lxs[k])} ::
              0 <= k < |lxs| && lxs[k].Matched? && lxs[k].kind != Whitespace ==> TokenOf(line, ln, lxs[k]) in ts
  {
    if |lxs| == 0 then []
    else
      var rest := LexemeTokens(line, ln, lxs[1..]);
      var ts := if lxs[0].Matched? && lxs[0].kind != Whitespace then [TokenOf(line, ln, lxs[0])] + rest else rest;
      TokensTail(line, ln, lxs, rest);
      TokensConsSound(line, ln, lxs, rest, ts);
      TokensConsComplete(line, ln, lxs, rest, ts);
      ts
  }

  /** Lexemes taken left to right give tokens with strictly increasing columns. */
  lemma {:induction false} TokensAscend(line: string, ln: nat, lxs: seq<Lexeme>)
    requires forall k :: 0 <= k < |lxs| ==> lxs[k].End() <= |line|
    requires Ascending(lxs)
    ensures ColumnsAscend(LexemeTokens(line, ln, lxs))
    decreases |lxs|
  {
    if |lxs| > 0 {
      AscendingTail(lxs);
      WithinTail(line, lxs);
      TokensAscend(line, ln, lxs[1..]);
      TokensAscendStep(line, ln, lxs);
    }
  }

  lemma {:induction false} TokensAscendStep(line: string, ln: nat, lxs: seq<Lexeme>)
    requires |lxs| > 0 && forall k :: 0 <= k < |lxs| ==> lxs[k].End() <= |line|
    requires forall k :: 1 <= k < |lxs| ==> lxs[0].start < lxs[k].start
    requires ColumnsAscend(LexemeTokens(line, ln, lxs[1..]))
    ensures ColumnsAscend(LexemeTokens(line, ln, lxs))
  {
    var rest := LexemeTokens(line, ln, lxs[1..]);
    TokensTail(line, ln, lxs, rest);
    forall j | 0 <= j < |rest| ensures lxs[0].start + 1 < rest[j].column {
      var k :| 1 <= k < |lxs| && Produces(line, ln, lxs[k], rest[j]);
    }
    var out := LexemeTokens(line, ln, lxs);
    if lxs[0].Matched? && lxs[0].kind != Whitespace {
      assert out == [TokenOf(line, ln, lxs[0])] + rest;
      assert out[1..] == rest;
    }
    ColumnsCons(lxs[0].start + 1, rest, out);
  }

  lemma {:induction false} WithinTail(line: string, lxs: seq<Lexeme>)
    requires |lxs| > 0 && forall k :: 0 <= k < |lxs| ==> lxs[k].End() <= |line|
    ensures forall k :: 0 <= k < |lxs[1..]| ==> lxs[1..][k].End() <= |line|
  {
    forall k | 0 <= k < |lxs[1..]| ensures lxs[1..][k].End() <= |line| {
      assert lxs[1..][k] == lxs[k + 1];
    }
  }

  lemma {:induction false} AscendingTail(lxs: seq<Lexeme>)
    requires |lxs| > 0 && Ascending(lxs)
    ensures Ascending(lxs[1..])
    ensures forall k :: 1 <= k < |lxs| ==> lxs[0].start < lxs[k].start
  {
    forall a, b | 0 <= a < b < |lxs[1..]| ensures lxs[1..][a].start < lxs[1..][b].start {
      assert lxs[1..][a] == lxs[a + 1] && lxs[1..][b] == lxs[b + 1];
    }
  }

  /** Putting the token of `lxs[0]`, if any, in front keeps every token's origin. */
  lemma {:induction false} TokensConsSound(line: string, ln: nat, lxs: seq<Lexeme>, rest: seq<Token>, ts: seq<Token>)
    requires |lxs| > 0 && forall k :: 0 <= k < |lxs| ==> lxs[k].End() <= |line|
    requires forall j :: 0 <= j < |rest| ==> exists k | 1 <= k < |lxs| :: Produces(line, ln, lxs[k], rest[j])
    requires ts == if lxs[0].Matched? && lxs[0].kind != Whitespace then [TokenOf(line, ln, lxs[0])] + rest else rest
    ensures forall j :: 0 <= j < |ts| ==> exists k | 0 <= k < |lxs| :: Produces(line, ln, lxs[k], ts[j])
  {
    if lxs[0].Matched? && lxs[0].kind != Whitespace {
      forall j | 0 <= j < |ts| ensures exists k | 0 <= k < |lxs| :: Produces(line, ln, lxs[k], ts[j]) {
        if j == 0 {
          assert Produces(line, ln, lxs[0], ts[0]);
        } else {
          assert ts[j] == rest[j - 1];
        }
      }
    }
  }

  /** Putting the token of `lxs[0]`, if any, in front keeps every match's token. */
  lemma {:induction false} TokensConsComplete(line: string, ln: nat, lxs: seq<Lexeme>, rest: seq<Token>, ts: seq<Token>)
    requires |lxs| > 0 && forall k :: 0 <= k < |lxs| ==> lxs[k].End() <= |line|
    requires forall k {:trigger TokenOf(line, ln, lxs[k])} ::
               1 <= k < |lxs| && lxs[k].Matched? && lxs[k].kind != Whitespace ==> TokenOf(line, ln, lxs[k]) in rest
    requires ts == if lxs[0].Matched? && lxs[0].kind != Whitespace then [TokenOf(line, ln, lxs[0])] + rest else rest
    ensures forall k {:trigger TokenOf(line, ln, lxs[k])} ::
              0 <= k < |lxs| && lxs[k].Matched? && lxs[k].kind != Whitespace ==> TokenOf(line, ln, lxs[k]) in ts
  {
    forall k | 0 <= k < |lxs| && lxs[k].Matched? && lxs[k].kind != Whitespace
      ensures TokenOf(line, ln, lxs[k]) in ts
    {
      if k == 0 {
        assert ts[0] == TokenOf(line, ln, lxs[0]);
      } else {
        assert TokenOf(line, ln, lxs[k]) in rest;
      }
    }
  }

  /** A column to the left of every later one, put in front, keeps the columns increasing. */
  lemma {:induction false} ColumnsCons(first: nat, rest: seq<Token>, ts: seq<Token>)
    requires ColumnsAscend(rest)
    requires forall j :: 0 <= j < |rest| ==> first < rest[j].column
    requires ts == rest || (|ts| > 0 && ts[0].column == first && ts[1..] == rest)
    ensures ColumnsAscend(ts)
  {
    if ts != rest {
      forall a, b | 0 <= a < b < |ts| ensures ts[a].column < ts[b].column {
        assert ts[b] == rest[b - 1];
        if a > 0 {
          assert ts[a] == rest[a - 1];
        }
      }
    }
  }

  /** What the tokens of `lxs[1..]` are, restated against the indices of `lxs`. */
  lemma {:induction false} TokensTail(line: string, ln: nat, lxs: seq<Lexeme>, rest: seq<Token>)
    requires |lxs| > 0 && forall k :: 0 <= k < |lxs| ==> lxs[k].End() <= |line|
    requires forall j :: 0 <= j < |rest| ==> exists k | 0 <= k < |lxs[1..]| :: Produces(line, ln, lxs[1..][k], rest[j])
    requires forall k {:trigger TokenOf(line, ln, lxs[1..][k])} ::
               0 <= k < |lxs[1..]| && lxs[1..][k].Matched? && lxs[1..][k].kind != Whitespace ==> TokenOf(line, ln, lxs[1..][k]) in rest
    ensures forall j :: 0 <= j < |rest| ==> exists k | 1 <= k < |lxs| :: Produces(line, ln, lxs[k], rest[j])
    ensures forall k {:trigger TokenOf(line, ln, lxs[k])} ::
              1 <= k < |lxs| && lxs[k].Matched? && lxs[k].kind != Whitespace ==> TokenOf(line, ln, lxs[k]) in rest
  {
    forall j | 0 <= j < |rest| ensures exists k | 1 <= k < |lxs| :: Produces(line, ln, lxs[k], rest[j]) {
      var k :| 0 <= k < |lxs[1..]| && Produces(line, ln, lxs[1..][k], rest[j]);
      assert lxs[1..][k] == lxs[k + 1];
      assert Produces(line, ln, lxs[k + 1], rest[j]);
    }
    assert forall j :: 0 <= j < |rest| ==> exists k | 1 <= k < |lxs| :: Produces(line, ln, lxs[k], rest[j]);
    forall k | 1 <= k < |lxs| && lxs[k].Matched? && lxs[k].kind != Whitespace
      ensures TokenOf(line, ln, lxs[k]) in rest
    {
      assert lxs[1..][k - 1] == lxs[k];
    }
  }

  /** Token `t` is the one a non-whitespace match `lx` on line number `ln` yields. */
  predicate Produces(line: string, ln: nat, lx: Lexeme, t: Token)
    requires lx.End() <= |line|
  {
    && lx.Matched? && lx.kind != Whitespace
    && t == Token(lx.kind, line[lx.start..lx.start + lx.len], ln, lx.start + 1)
  }

  /** The token a match `lx` on line number `ln` yields: its text, at column `start + 1`. */
  function TokenOf(line: string, ln: nat, lx: Lexeme): Token
    requires lx.Matched? && lx.End() <= |line|
  {
    Token(lx.kind, line[lx.start..lx.start + lx.len], ln, lx.start + 1)
  }

  /** The error an unrecognised character `lx` on line number `ln` yields. */
  function ErrorOf(line: string, ln: nat, lx: Lexeme): LexError
    requires lx.Unmatched? && lx.End() <= |line|
  {
    UnrecognizedChar(line[lx.start], ln, lx.start + 1)
  }

  /** Error `e` is the one an unrecognised character `lx` on line number `ln` yields. */
  predicate Reports(line: string, ln: nat, lx: Lexeme, e: LexError)
    requires lx.End() <= |line|
  {
    && lx.Unmatched?
    && e == UnrecognizedChar(line[lx.start], ln, lx.start + 1)
  }

  /**
   * The errors the lexemes produce: each error comes from an unrecognised
   * character, and every unrecognised character yields its error.
   */
  function LexemeErrors(line: string, ln: nat, lxs: seq<Lexeme>): (es: seq<LexError>)
    requires forall k :: 0 <= k < |lxs| ==> lxs[k].End() <= |line|
    ensures |es| <= |lxs|
    ensures es == [] <==> forall k :: 0 <= k < |lxs| ==> lxs[k].Matched?
    ensures forall j :: 0 <= j < |es| ==> exists k | 0 <= k < |lxs| :: Reports(line, ln, lxs[k], es[j])
    ensures forall k {:trigger ErrorOf(line, ln, lxs[k])} :: 0 <= k < |lxs| && lxs[k].Unmatched? ==> ErrorOf(line, ln, lxs[k]) in es
  {
    if |lxs| == 0 then []
    else
      var rest := LexemeErrors(line, ln, lxs[1..]);
      var es := if lxs[0].Unmatched? then [ErrorOf(line, ln, lxs[0])] + rest else rest;
      ErrorsTail(line, ln, lxs, rest);
      ErrorsConsSound(line, ln, lxs, rest, es);
      ErrorsConsComplete(line, ln, lxs, rest, es);
      es
  }

  /** Lexemes taken left to right give errors with strictly increasing columns. */
  lemma {:induction false} ErrorsAscend(line: string, ln: nat, lxs: seq<Lexeme>)
    requires forall k :: 0 <= k < |lxs| ==> lxs[k].End() <= |line|
    requires Ascending(lxs)
    ensures ErrorColumnsAscend(LexemeErrors(line, ln, lxs))
    decreases |lxs|
  {
    if |lxs| > 0 {
      AscendingTail(lxs);
      WithinTail(line, lxs);
      ErrorsAscend(line, ln, lxs[1..]);
      ErrorsAscendStep(line, ln, lxs);
    }
  }

  lemma {:induction false} ErrorsAscendStep(line: string, ln: nat, lxs: seq<Lexeme>)
    requires |lxs| > 0 && forall k :: 0 <= k < |lxs| ==> lxs[k].End() <= |line|
    requires forall k :: 1 <= k < |lxs| ==> lxs[0].start < lxs[k].start
    requires ErrorColumnsAscend(LexemeErrors(line, ln, lxs[1..]))
    ensures ErrorColumnsAscend(LexemeErrors(line, ln, lxs))
  {
    var rest := LexemeErrors(line, ln, lxs[1..]);
    ErrorsTail(line, ln, lxs, rest);
    forall j | 0 <= j < |rest| ensures lxs[0].start + 1 < rest[j].column {
      var k :| 1 <= k < |lxs| && Reports(line, ln, lxs[k], rest[j]);
    }
    var out := LexemeErrors(line, ln, lxs);
    if lxs[0].Unmatched? {
      assert out == [ErrorOf(line, ln, lxs[0])] + rest;
      assert out[1..] == rest;
    }
    ErrorColumnsCons(lxs[0].start + 1, rest, out);
  }

  /** Putting the error of `lxs[0]`, if any, in front keeps every error's origin. */
  lemma {:induction false} ErrorsConsSound(line: string, ln: nat, lxs: seq<Lexeme>, rest: seq<LexError>, es: seq<LexError>)
    requires |lxs| > 0 && forall k :: 0 <= k < |lxs| ==> lxs[k].End() <= |line|
    requires forall j :: 0 <= j < |rest| ==> exists k | 1 <= k < |lxs| :: Reports(line, ln, lxs[k], rest[j])
    requires es == if lxs[0].Unmatched? then [ErrorOf(line, ln, lxs[0])] + rest else rest
    ensures forall j :: 0 <= j < |es| ==> exists k | 0 <= k < |lxs| :: Reports(line, ln, lxs[k], es[j])
  {
    if lxs[0].Unmatched? {
      forall j | 0 <= j < |es| ensures exists k | 0 <= k < |lxs| :: Reports(line, ln, lxs[k], es[j]) {
        if j == 0 {
          assert Reports(line, ln, lxs[0], es[0]);
        } else {
          assert es[j] == rest[j - 1];
        }
      }
    }
  }

  /** Putting the error of `lxs[0]`, if any, in front keeps every unrecognised character's error. */
  lemma {:induction false} ErrorsConsComplete(line: string, ln: nat, lxs: seq<Lexeme>, rest: seq<LexError>, es: seq<LexError>)
    requires |lxs| > 0 && forall k :: 0 <= k < |lxs| ==> lxs[k].End() <= |line|
    requires forall k {:trigger ErrorOf(line, ln, lxs[k])} :: 1 <= k < |lxs| && lxs[k].Unmatched? ==> ErrorOf(line, ln, lxs[k]) in rest
    requires es == if lxs[0].Unmatched? then [ErrorOf(line, ln, lxs[0])] + rest else rest
    ensures forall k {:trigger ErrorOf(line, ln, lxs[k])} :: 0 <= k < |lxs| && lxs[k].Unmatched? ==> ErrorOf(line, ln, lxs[k]) in es
  {
    forall k | 0 <= k < |lxs| && lxs[k].Unmatched? ensures ErrorOf(line, ln, lxs[k]) in es {
      if k == 0 {
        assert es[0] == ErrorOf(line, ln, lxs[0]);
      } else {
        assert ErrorOf(line, ln, lxs[k]) in rest;
      }
    }
  }

  /** `ColumnsCons`, for errors. */
  lemma {:induction false} ErrorColumnsCons(first: nat, rest: seq<LexError>, es: seq<LexError>)
    requires ErrorColumnsAscend(rest)
    requires forall j :: 0 <= j < |rest| ==> first < rest[j].column
    requires es == rest || (|es| > 0 && es[0].column == first && es[1..] == rest)
    ensures ErrorColumnsAscend(es)
  {
    if es != rest {
      forall a, b | 0 <= a < b < |es| ensures es[a].column < es[b].column {
        assert es[b] == rest[b - 1];
        if a > 0 {
          assert es[a] == rest[a - 1];
        }
      }
    }
  }

  /** What the errors of `lxs[1..]` are, restated against the indices of `lxs`. */
  lemma {:induction false} ErrorsTail(line: string, ln: nat, lxs: seq<Lexeme>, rest: seq<LexError>)
    requires |lxs| > 0 && forall k :: 0 <= k < |lxs| ==> lxs[k].End() <= |line|
    requires forall j :: 0 <= j < |rest| ==> exists k | 0 <= k < |lxs[1..]| :: Reports(line, ln, lxs[1..][k], rest[j])
    requires forall k {:trigger ErrorOf(line, ln, lxs[1..][k])} :: 0 <= k < |lxs[1..]| && lxs[1..][k].Unmatched? ==> ErrorOf(line, ln, lxs[1..][k]) in rest
    ensures forall j :: 0 <= j < |rest| ==> exists k | 1 <= k < |lxs| :: Reports(line, ln, lxs[k], rest[j])
    ensures forall k {:trigger ErrorOf(line, ln, lxs[k])} :: 1 <= k < |lxs| && lxs[k].Unmatched? ==> ErrorOf(line, ln, lxs[k]) in rest
  {
    forall j | 0 <= j < |rest| ensures exists k | 1 <= k < |lxs| :: Reports(line, ln, lxs[k], rest[j]) {
      var k :| 0 <= k < |lxs[1..]| && Reports(line, ln, lxs[1..][k], rest[j]);
      assert lxs[1..][k] == lxs[k + 1];
      assert Reports(line, ln, lxs[k + 1], rest[j]);
    }
    assert forall j :: 0 <= j < |rest| ==> exists k | 1 <= k < |lxs| :: Reports(line, ln, lxs[k], rest[j]);
    forall k | 1 <= k < |lxs| && lxs[k].Unmatched?
      ensures ErrorOf(line, ln, lxs[k]) in rest
    {
      assert lxs[1..][k - 1] == lxs[k];
    }
  }

  // ---------------------------------------------------------------------
  // What the tokens look like
  // ---------------------------------------------------------------------

  /** `[a-zA-Z_][a-zA-Z0-9_]*` as a whole string. */
  predicate IsIdentifierWord(w: string) {
    |w| > 0 && IsIdentStart(w[0]) && forall k :: 0 <= k < |w| ==> IsIdentChar(w[k])
  }

  /** The text a token of kind `k` can carry. */
  predicate ValidText(k: TokenKind, text: string) {
    match k
    case Keyword => text in Keywords
    case Function => text in FunctionNames
    case Identifier => IsIdentifierWord(text) && text !in Keywords && text !in FunctionNames
    case Number => IsNumeral(text)
    case LParen => text == "("
    case RParen => text == ")"
    case Semicolon => text == ";"
    case Plus => text == "+"
    case Dot => text == "."
    case Whitespace => false
  }

  /** A token the lexer can emit: never whitespace, text of its kind's shape, 1-based position. */
  predicate ValidToken(t: Token) {
    t.line >= 1 && t.column >= 1 && ValidText(t.kind, t.text)
  }

  lemma {:induction false} ReservedWordsAreIdentifierWords()
    ensures forall w :: w in Keywords ==> IsIdentifierWord(w)
    ensures forall w :: w in FunctionNames ==> IsIdentifierWord(w)
  {
  }

  /**
   * A whole identifier-shaped word at the start of `s` is the identifier
   * match itself: shorter or longer words cannot end on a word boundary.
   */
  lemma {:induction false} WholeWordIsIdentifierMatch(s: string, w: string)
    requires IsIdentifierWord(w) && StartsWith(s, w) && WordEndsAt(s, |w|)
    ensures IdentifierMatch(s) == |w|
  {
    assert forall k :: 0 <= k < |w| ==> s[k] == w[k];
    assert forall k :: 1 <= k < |w| ==> s[1..][k - 1] == w[k];
    SpanStopsAt(s[1..], IdentChars, |w| - 1);
  }

  lemma {:induction false} SpanStopsAt(s: string, cls: CharClass, m: nat)
    requires m <= |s|
    requires forall k :: 0 <= k < m ==> InClass(s[k], cls)
    requires m == |s| || !InClass(s[m], cls)
    ensures Span(s, cls) == m
  {
  }

  /** Keyword or opcode spelling that starts `s` as a whole word: found by `WordMatch`. */
  lemma {:induction false} WordMatchFinds(words: seq<string>, s: string, n: nat)
    requires forall w :: w in words ==> IsIdentifierWord(w)
    requires IdentifierMatch(s) == n > 0
    ensures s[..n] in words ==> WordMatch(words, s) == n
    ensures s[..n] !in words ==> WordMatch(words, s) == 0
  {
    var m := WordMatch(words, s);
    if m > 0 {
      WholeWordIsIdentifierMatch(s, s[..m]);
    }
  }

  /** The class an identifier-shaped word is given: keyword, opcode, or identifier. */
  function Classify(w: string): TokenKind {
    if w in Keywords then Keyword else if w in FunctionNames then Function else Identifier
  }

  /**
   * Reclassification: at an identifier-shaped word, the lexer emits one
   * token covering exactly that word, a KEYWORD or FUNCTION when the whole
   * word is one (so `girar2` stays an IDENTIFIER), otherwise an IDENTIFIER.
   */
  lemma {:induction false} WordClassification(s: string)
    requires IdentifierMatch(s) > 0
    ensures FirstMatch(s) == Some((Classify(s[..IdentifierMatch(s)]), IdentifierMatch(s)))
  {
    var n := IdentifierMatch(s);
    ReservedWordsAreIdentifierWords();
    WordMatchFinds(Keywords, s, n);
    WordMatchFinds(FunctionNames, s, n);
    var r := FirstMatch(s);
    var want := Classify(s[..n]);
    assert MatchLength(want, s) == n;
    assert forall k :: Rank(k) < Rank(want) ==> MatchLength(k, s) == 0;
  }

  /** A KEYWORD or FUNCTION token is only ever a whole identifier-shaped word. */
  lemma {:induction false} ReservedMatchIsWholeWord(s: string)
    requires FirstMatch(s).Some? && FirstMatch(s).value.0 in {Keyword, Function}
    ensures IdentifierMatch(s) == FirstMatch(s).value.1
  {
    var n := FirstMatch(s).value.1;
    ReservedWordsAreIdentifierWords();
    assert s[..n] in Keywords || s[..n] in FunctionNames;
    WholeWordIsIdentifierMatch(s, s[..n]);
  }

  /**
   * A `-` starts a NUMBER exactly when a digit follows it at once; otherwise
   * no pattern matches and it is an unrecognised character.
   */
  lemma {:induction false} MinusSign(s: string)
    requires |s| > 0 && s[0] == '-'
    ensures FirstMatch(s).Some? <==> |s| > 1 && IsDigit(s[1])
    ensures FirstMatch(s).Some? ==> FirstMatch(s).value == (Number, NumberMatch(s))
  {
    NoWordAt(s);
    if |s| > 1 && IsDigit(s[1]) {
      assert MatchLength(Number, s) > 0;
    }
  }

  /** A `+` is always the PLUS token, never part of a number. */
  lemma {:induction false} PlusSign(s: string)
    requires |s| > 0 && s[0] == '+'
    ensures FirstMatch(s) == Some((Plus, 1))
  {
    NoWordAt(s);
    assert MatchLength(Plus, s) == 1;
  }

  /** No keyword or opcode matches where the text does not start with a letter. */
  lemma {:induction false} NoWordAt(s: string)
    requires |s| > 0 && !IsAsciiLetter(s[0])
    ensures WordMatch(Keywords, s) == 0 && WordMatch(FunctionNames, s) == 0
  {
    assert forall k :: 0 <= k < |Keywords| ==> |Keywords[k]| > 0 && IsAsciiLetter(Keywords[k][0]);
    assert forall k :: 0 <= k < |FunctionNames| ==> |FunctionNames[k]| > 0 && IsAsciiLetter(FunctionNames[k][0]);
    NoWordMatch(Keywords, s);
    NoWordMatch(FunctionNames, s);
  }

  /** Words that all start with a letter match nowhere a letter is missing. */
  lemma {:induction false} NoWordMatch(words: seq<string>, s: string)
    requires |s| > 0 && !IsAsciiLetter(s[0])
    requires forall k :: 0 <= k < |words| ==> |words[k]| > 0 && IsAsciiLetter(words[k][0])
    ensures WordMatch(words, s) == 0
    decreases |words|
  {
    if |words| > 0 {
      assert !StartsWith(s, words[0]) by {
        assert s[0] != words[0][0];
      }
      assert forall k :: 1 <= k < |words| ==> words[1..][k - 1] == words[k];
      NoWordMatch(words[1..], s);
    }
  }

  /** Whatever a non-whitespace pattern matches has the text of its kind. */
  lemma {:induction false} MatchedTextValid(s: string)
    requires FirstMatch(s).Some? && FirstMatch(s).value.0 != Whitespace
    ensures ValidText(FirstMatch(s).value.0, s[..FirstMatch(s).value.1])
  {
    var (k, n) := FirstMatch(s).value;
    if k == Identifier {
      assert WordMatch(Keywords, s) == 0 && WordMatch(FunctionNames, s) == 0;
      ReservedWordsAreIdentifierWords();
      WordMatchFinds(Keywords, s, n);
      WordMatchFinds(FunctionNames, s, n);
    }
  }

  // ---------------------------------------------------------------------
  // Whitespace
  // ---------------------------------------------------------------------

  predicate AllSpace(s: string) {
    forall k :: 0 <= k < |s| ==> IsSpace(s[k])
  }

  /** Some lexeme of a tiling covers each position in its range. */
  lemma {:induction false} Covering(lxs: seq<Lexeme>, from: nat, to: nat, i: nat) returns (k: nat)
    requires Tiles(lxs, from, to) && from <= i < to
    requires forall j :: 0 <= j < |lxs| ==> lxs[j].start < lxs[j].End()
    ensures k < |lxs| && lxs[k].start <= i < lxs[k].End()
  {
    k := 0;
    while lxs[k].End() <= i
      invariant k < |lxs| && lxs[k].start <= i
      decreases |lxs| - k
    {
      k := k + 1;
    }
  }

  /** An all-whitespace line is one whitespace lexeme. */
  lemma {:induction false} SpaceLineScan(line: string)
    requires AllSpace(line) && |line| > 0
    ensures Scan(line, 0) == [Matched(Whitespace, 0, |line|)]
  {
    SpaceFirstMatch(line);
    assert line[0..] == line;
    ScanUnfold(line, 0);
    assert Scan(line, |line|) == [];
  }

  /** At an all-whitespace text, the whitespace pattern is the first to match, and takes it all. */
  lemma {:induction false} SpaceFirstMatch(s: string)
    requires AllSpace(s) && |s| > 0
    ensures FirstMatch(s) == Some((Whitespace, |s|))
  {
    NoWordAt(s);
    SpanStopsAt(s, Spaces, |s|);
    assert forall k :: k != Whitespace ==> MatchLength(k, s) == 0;
  }

  /** Only whitespace can lie under a whitespace lexeme. */
  lemma {:induction false} NoTextUnderWhitespace(line: string, lxs: seq<Lexeme>, ln: nat)
    requires Tiles(lxs, 0, |line|)
    requires forall k :: 0 <= k < |lxs| ==> Faithful(line, lxs[k])
    requires forall k :: 0 <= k < |lxs| ==> lxs[k].End() <= |line|
    requires LexemeTokens(line, ln, lxs) == [] && LexemeErrors(line, ln, lxs) == []
    ensures AllSpace(line)
  {
    assert forall k :: 0 <= k < |lxs| ==> lxs[k].Matched? && lxs[k].kind == Whitespace;
    forall i | 0 <= i < |line| ensures IsSpace(line[i]) {
      var k := Covering(lxs, 0, |line|, i);
      SpaceUnderWhitespace(line, lxs[k], i);
    }
  }

  /** Each character a whitespace lexeme covers is whitespace. */
  lemma {:induction false} SpaceUnderWhitespace(line: string, lx: Lexeme, i: nat)
    requires Faithful(line, lx) && lx.Matched? && lx.kind == Whitespace
    requires lx.start <= i < lx.End()
    ensures IsSpace(line[i])
  {
    assert line[lx.start..][i - lx.start] == line[i];
  }

  /** A line produces neither tokens nor errors exactly when it is all whitespace. */
  lemma {:induction false} QuietLine(line: string, ln: nat)
    ensures var lxs := Scan(line, 0);
            (LexemeTokens(line, ln, lxs) == [] && LexemeErrors(line, ln, lxs) == []) <==> AllSpace(line)
  {
    var lxs := Scan(line, 0);
    if AllSpace(line) && |line| > 0 {
      SpaceLineScan(line);
    }
    if LexemeTokens(line, ln, lxs) == [] && LexemeErrors(line, ln, lxs) == [] {
      ScanCovers(line, 0);
      NoTextUnderWhitespace(line, lxs, ln);
    }
  }

  // ---------------------------------------------------------------------
  // Tokenize
  // ---------------------------------------------------------------------

  /** Token `t` is the text found on `lines[t.line - ln]` at column `t.column`. */
  predicate LocatedIn(lines: seq<string>, ln: nat, t: Token) {
    && ln <= t.line < ln + |lines|
    && 1 <= t.column && t.column - 1 + |t.text| <= |lines[t.line - ln]|
    && lines[t.line - ln][t.column - 1..t.column - 1 + |t.text|] == t.text
  }

  /** Error `e` names the character found on `lines[e.line - ln]` at column `e.column`. */
  predicate ErrorLocatedIn(lines: seq<string>, ln: nat, e: LexError) {
    && ln <= e.line < ln + |lines|
    && 1 <= e.column <= |lines[e.line - ln]|
    && lines[e.line - ln][e.column - 1] == e.ch
  }

  /** The tokens of the first line are valid and stand where they say. */
  lemma {:induction false} LineTokensValid(lines: seq<string>, ln: nat, ts: seq<Token>)
    requires ln >= 1 && |lines| > 0
    requires ts == LexemeTokens(lines[0], ln, Scan(lines[0], 0))
    ensures forall j :: 0 <= j < |ts| ==> ValidToken(ts[j]) && LocatedIn(lines, ln, ts[j])
  {
    var lxs := Scan(lines[0], 0);
    ScanCovers(lines[0], 0);
    forall j | 0 <= j < |ts| ensures ValidToken(ts[j]) && LocatedIn(lines, ln, ts[j]) {
      var k :| 0 <= k < |lxs| && Produces(lines[0], ln, lxs[k], ts[j]);
      ProducedTokenValid(lines, ln, lxs[k], ts[j]);
    }
  }

  lemma {:induction false} ProducedTokenValid(lines: seq<string>, ln: nat, lx: Lexeme, t: Token)
    requires ln >= 1 && |lines| > 0 && Faithful(lines[0], lx) && Produces(lines[0], ln, lx, t)
    ensures ValidToken(t) && LocatedIn(lines, ln, t)
  {
    var line := lines[0];
    MatchedTextValid(line[lx.start..]);
    assert line[lx.start..][..lx.len] == line[lx.start..lx.start + lx.len];
    assert t.line - ln == 0;
    assert t.column - 1 == lx.start;
    assert |t.text| == lx.len;
  }

  /** The errors of the first line name the characters at their columns. */
  lemma {:induction false} LineErrorsLocated(lines: seq<string>, ln: nat)
    requires |lines| > 0
    ensures var es := LexemeErrors(lines[0], ln, Scan(lines[0], 0));
            forall j :: 0 <= j < |es| ==> ErrorLocatedIn(lines, ln, es[j])
  {
  }

  /** Facts located on the later lines stay located once the first line is put back. */
  lemma {:induction false} LocatedShift(lines: seq<string>, ln: nat, ts: seq<Token>, es: seq<LexError>)
    requires |lines| > 0
    requires forall j :: 0 <= j < |ts| ==> LocatedIn(lines[1..], ln + 1, ts[j])
    requires forall j :: 0 <= j < |es| ==> ErrorLocatedIn(lines[1..], ln + 1, es[j])
    ensures forall j :: 0 <= j < |ts| ==> LocatedIn(lines, ln, ts[j])
    ensures forall j :: 0 <= j < |es| ==> ErrorLocatedIn(lines, ln, es[j])
  {
    forall j | 0 <= j < |ts| ensures LocatedIn(lines, ln, ts[j]) {
      assert lines[1..][ts[j].line - (ln + 1)] == lines[ts[j].line - ln];
    }
    forall j | 0 <= j < |es| ensures ErrorLocatedIn(lines, ln, es[j]) {
      assert lines[1..][es[j].line - (ln + 1)] == lines[es[j].line - ln];
    }
  }

  /** The facts `TokenizeLines` promises, for a token and an error list. */
  predicate TokenizeFacts(lines: seq<string>, ln: nat, ts: seq<Token>, es: seq<LexError>) {
    && (forall j :: 0 <= j < |ts| ==> ValidToken(ts[j]) && LocatedIn(lines, ln, ts[j]))
    && (forall j :: 0 <= j < |es| ==> ErrorLocatedIn(lines, ln, es[j]))
    && ((ts == [] && es == []) <==> forall i :: 0 <= i < |lines| ==> AllSpace(lines[i]))
  }

  /** The first line's output followed by the later lines' output keeps the facts. */
  lemma {:induction false} TokenizeStep(lines: seq<string>, ln: nat, ts: seq<Token>, es: seq<LexError>, rest: (seq<Token>, seq<LexError>))
    requires ln >= 1 && |lines| > 0
    requires ts == LexemeTokens(lines[0], ln, Scan(lines[0], 0))
    requires es == LexemeErrors(lines[0], ln, Scan(lines[0], 0))
    requires TokenizeFacts(lines[1..], ln + 1, rest.0, rest.1)
    ensures TokenizeFacts(lines, ln, ts + rest.0, es + rest.1)
  {
    LineTokensValid(lines, ln, ts);
    LineErrorsLocated(lines, ln);
    LocatedShift(lines, ln, rest.0, rest.1);
    AppendTokens(lines, ln, ts, rest.0);
    AppendErrors(lines, ln, es, rest.1);
    QuietLine(lines[0], ln);
    QuietStep(lines, ts, es, rest);
  }

  lemma {:induction false} QuietStep(lines: seq<string>, ts: seq<Token>, es: seq<LexError>, rest: (seq<Token>, seq<LexError>))
    requires |lines| > 0
    requires (ts == [] && es == []) <==> AllSpace(lines[0])
    requires (rest.0 == [] && rest.1 == []) <==> forall i :: 0 <= i < |lines[1..]| ==> AllSpace(lines[1..][i])
    ensures (ts + rest.0 == [] && es + rest.1 == []) <==> forall i :: 0 <= i < |lines| ==> AllSpace(lines[i])
  {
    assert (forall i :: 0 <= i < |lines| ==> AllSpace(lines[i]))
       <==> AllSpace(lines[0]) && (forall i :: 0 <= i < |lines[1..]| ==> AllSpace(lines[1..][i]));
  }

  lemma {:induction false} AppendTokens(lines: seq<string>, ln: nat, a: seq<Token>, b: seq<Token>)
    requires forall j :: 0 <= j < |a| ==> ValidToken(a[j]) && LocatedIn(lines, ln, a[j])
    requires forall j :: 0 <= j < |b| ==> ValidToken(b[j]) && LocatedIn(lines, ln, b[j])
    ensures forall j :: 0 <= j < |a + b| ==> ValidToken((a + b)[j]) && LocatedIn(lines, ln, (a + b)[j])
  {
    assert forall j :: |a| <= j < |a + b| ==> (a + b)[j] == b[j - |a|];
  }

  lemma {:induction false} AppendErrors(lines: seq<string>, ln: nat, a: seq<LexError>, b: seq<LexError>)
    requires forall j :: 0 <= j < |a| ==> ErrorLocatedIn(lines, ln, a[j])
    requires forall j :: 0 <= j < |b| ==> ErrorLocatedIn(lines, ln, b[j])
    ensures forall j :: 0 <= j < |a + b| ==> ErrorLocatedIn(lines, ln, (a + b)[j])
  {
    assert forall j :: |a| <= j < |a + b| ==> (a + b)[j] == b[j - |a|];
  }

  /** Tokens in reading order: by line, then by column. */
  predicate TokensInOrder(ts: seq<Token>) {
    forall a, b :: 0 <= a < b < |ts| ==> ts[a].line < ts[b].line || (ts[a].line == ts[b].line && ts[a].column < ts[b].column)
  }

  /** Errors in reading order: by line, then by column. */
  predicate ErrorsInOrder(es: seq<LexError>) {
    forall a, b :: 0 <= a < b < |es| ==> es[a].line < es[b].line || (es[a].line == es[b].line && es[a].column < es[b].column)
  }

  /** Every line has its lexemes, each lying within the line. */
  predicate Scanned(lines: seq<string>, scans: seq<seq<Lexeme>>) {
    && |scans| == |lines|
    && forall i, k :: 0 <= i < |scans| && 0 <= k < |scans[i]| ==> scans[i][k].End() <= |lines[i]|
  }

  lemma {:induction false} ScannedTail(lines: seq<string>, scans: seq<seq<Lexeme>>)
    requires Scanned(lines, scans) && |lines| > 0
    ensures Scanned(lines[1..], scans[1..])
  {
    forall i, k | 0 <= i < |scans[1..]| && 0 <= k < |scans[1..][i]|
      ensures scans[1..][i][k].End() <= |lines[1..][i]|
    {
      assert scans[1..][i] == scans[i + 1];
      assert |lines[1..][i]| == |lines[i + 1]|;
    }
  }

  /** Each line's lexemes: the scan of every line from its first column. */
  function ScanLines(lines: seq<string>): (scans: seq<seq<Lexeme>>)
    ensures |scans| == |lines| && forall i :: 0 <= i < |lines| ==> scans[i] == Scan(lines[i], 0)
    ensures Scanned(lines, scans)
  {
    seq(|lines|, i requires 0 <= i < |lines| => Scan(lines[i], 0))
  }

  /** Dropping the first line drops its scan. */
  lemma {:induction false} ScanLinesTail(lines: seq<string>)
    requires |lines| > 0
    ensures ScanLines(lines)[1..] == ScanLines(lines[1..])
  {
    var a, b := ScanLines(lines)[1..], ScanLines(lines[1..]);
    forall i | 0 <= i < |a| ensures a[i] == b[i] {
      assert a[i] == ScanLines(lines)[i + 1];
      assert lines[1..][i] == lines[i + 1];
    }
  }

  /** The lexemes of every scanned line start at strictly increasing columns. */
  lemma {:induction false} ScanLinesAscend(lines: seq<string>)
    ensures forall i :: 0 <= i < |lines| ==> Ascending(ScanLines(lines)[i])
  {
    forall i | 0 <= i < |lines| ensures Ascending(ScanLines(lines)[i]) {
      ScanCovers(lines[i], 0);
      TilesAscend(Scan(lines[i], 0), 0, |lines[i]|);
    }
  }

  /** The token and the error lexemes of one line carry that line's number. */
  lemma {:induction false} LineNumbered(line: string, ln: nat, lxs: seq<Lexeme>)
    requires forall k :: 0 <= k < |lxs| ==> lxs[k].End() <= |line|
    ensures OnLines((LexemeTokens(line, ln, lxs), LexemeErrors(line, ln, lxs)), ln, ln + 1)
  {
    var ts := LexemeTokens(line, ln, lxs);
    forall j | 0 <= j < |ts| ensures ts[j].line == ln {
      var k :| 0 <= k < |lxs| && Produces(line, ln, lxs[k], ts[j]);
    }
    var es := LexemeErrors(line, ln, lxs);
    forall j | 0 <= j < |es| ensures es[j].line == ln {
      var k :| 0 <= k < |lxs| && Reports(line, ln, lxs[k], es[j]);
    }
  }

  /** One line's tokens and errors stand on that line, in column order. */
  lemma {:induction false} LineInOrder(line: string, ln: nat, lxs: seq<Lexeme>)
    requires forall k :: 0 <= k < |lxs| ==> lxs[k].End() <= |line|
    requires Ascending(lxs)
    ensures TokensInOrder(LexemeTokens(line, ln, lxs)) && ErrorsInOrder(LexemeErrors(line, ln, lxs))
  {
    LineNumbered(line, ln, lxs);
    TokensAscend(line, ln, lxs);
    ErrorsAscend(line, ln, lxs);
  }

  /**
   * The lexer's loop over `lines`, numbered from `ln`, given each line's
   * lexemes: each line's tokens and errors, in line order.
   */
  function Emit(lines: seq<string>, scans: seq<seq<Lexeme>>, ln: nat): (r: (seq<Token>, seq<LexError>))
    requires Scanned(lines, scans)
    decreases |lines|
  {
    if |lines| == 0 then ([], [])
    else
      ScannedTail(lines, scans);
      var rest := Emit(lines[1..], scans[1..], ln + 1);
      (LexemeTokens(lines[0], ln, scans[0]) + rest.0, LexemeErrors(lines[0], ln, scans[0]) + rest.1)
  }

  /** Every token and every error in `out` stands on a line numbered from `lo` up to, not including, `hi`. */
  predicate OnLines(out: (seq<Token>, seq<LexError>), lo: nat, hi: nat) {
    && (forall j :: 0 <= j < |out.0| ==> lo <= out.0[j].line < hi)
    && (forall j :: 0 <= j < |out.1| ==> lo <= out.1[j].line < hi)
  }

  /** Everything `Emit` yields stands on one of the lines it was given. */
  lemma {:induction false} EmitLines(lines: seq<string>, scans: seq<seq<Lexeme>>, ln: nat)
    requires Scanned(lines, scans)
    ensures OnLines(Emit(lines, scans, ln), ln, ln + |lines|)
    decreases |lines|
  {
    if |lines| > 0 {
      ScannedTail(lines, scans);
      EmitLines(lines[1..], scans[1..], ln + 1);
      LineNumbered(lines[0], ln, scans[0]);
      OnLinesAppend((LexemeTokens(lines[0], ln, scans[0]), LexemeErrors(lines[0], ln, scans[0])),
                    Emit(lines[1..], scans[1..], ln + 1), ln, ln + 1, ln + |lines|);
    }
  }

  lemma {:induction false} OnLinesAppend(a: (seq<Token>, seq<LexError>), b: (seq<Token>, seq<LexError>), lo: nat, mid: nat, hi: nat)
    requires lo <= mid <= hi && OnLines(a, lo, mid) && OnLines(b, mid, hi)
    ensures OnLines((a.0 + b.0, a.1 + b.1), lo, hi)
  {
    assert forall j :: |a.0| <= j < |a.0 + b.0| ==> (a.0 + b.0)[j] == b.0[j - |a.0|];
    assert forall j :: |a.1| <= j < |a.1 + b.1| ==> (a.1 + b.1)[j] == b.1[j - |a.1|];
  }

  /** `Emit` yields the first line's output, then the later lines'. */
  lemma {:induction false} EmitUnfold(lines: seq<string>, scans: seq<seq<Lexeme>>, ln: nat)
    requires Scanned(lines, scans) && |lines| > 0
    ensures Scanned(lines[1..], scans[1..])
    ensures Emit(lines, scans, ln) == (LexemeTokens(lines[0], ln, scans[0]) + Emit(lines[1..], scans[1..], ln + 1).0,
                                       LexemeErrors(lines[0], ln, scans[0]) + Emit(lines[1..], scans[1..], ln + 1).1)
  {
    ScannedTail(lines, scans);
  }

  /** `Emit` over the scanned lines keeps the facts `TokenizeLines` promises. */
  lemma {:induction false} EmitFacts(lines: seq<string>, ln: nat)
    requires ln >= 1
    ensures TokenizeFacts(lines, ln, Emit(lines, ScanLines(lines), ln).0, Emit(lines, ScanLines(lines), ln).1)
    decreases |lines|
  {
    if |lines| > 0 {
      EmitFacts(lines[1..], ln + 1);
      EmitFactsStep(lines, ln);
    }
  }

  lemma {:induction false} EmitFactsStep(lines: seq<string>, ln: nat)
    requires ln >= 1 && |lines| > 0
    requires TokenizeFacts(lines[1..], ln + 1, Emit(lines[1..], ScanLines(lines[1..]), ln + 1).0, Emit(lines[1..], ScanLines(lines[1..]), ln + 1).1)
    ensures TokenizeFacts(lines, ln, Emit(lines, ScanLines(lines), ln).0, Emit(lines, ScanLines(lines), ln).1)
  {
    ScanLinesTail(lines);
    var lxs := Scan(lines[0], 0);
    var rest := Emit(lines[1..], ScanLines(lines[1..]), ln + 1);
    EmitUnfold(lines, ScanLines(lines), ln);
    assert ScanLines(lines)[0] == lxs;
    TokenizeStep(lines, ln, LexemeTokens(lines[0], ln, lxs), LexemeErrors(lines[0], ln, lxs), rest);
  }

  /** The lexer over `lines`, numbered from `ln`: each line's tokens and errors, in line order. */
  function TokenizeLines(lines: seq<string>, ln: nat): (r: (seq<Token>, seq<LexError>))
    requires ln >= 1
    ensures TokenizeFacts(lines, ln, r.0, r.1)
  {
    EmitFacts(lines, ln);
    Emit(lines, ScanLines(lines), ln)
  }

  /** Lexeme `lx` of `line`, numbered `lnum`, left its token or its error in `out`. */
  predicate Kept(line: string, lnum: nat, lx: Lexeme, out: (seq<Token>, seq<LexError>))
    requires lx.End() <= |line|
  {
    && (lx.Matched? && lx.kind != Whitespace ==> TokenOf(line, lnum, lx) in out.0)
    && (lx.Unmatched? ==> ErrorOf(line, lnum, lx) in out.1)
  }

  /**
   * Nothing is dropped: the token of every non-whitespace match, and the
   * error of every unrecognised character, of every line is in the output.
   */
  lemma {:induction false} EmitComplete(lines: seq<string>, scans: seq<seq<Lexeme>>, ln: nat, i: nat, k: nat)
    requires Scanned(lines, scans) && i < |lines| && k < |scans[i]|
    ensures Kept(lines[i], ln + i, scans[i][k], Emit(lines, scans, ln))
    decreases i
  {
    if i == 0 {
      EmitKeepsFirst(lines, scans, ln, k);
    } else {
      ScannedTail(lines, scans);
      EmitComplete(lines[1..], scans[1..], ln + 1, i - 1, k);
      EmitKeepsLater(lines, scans, ln, i, k);
    }
  }

  lemma {:induction false} EmitKeepsFirst(lines: seq<string>, scans: seq<seq<Lexeme>>, ln: nat, k: nat)
    requires Scanned(lines, scans) && 0 < |lines| && k < |scans[0]|
    ensures Kept(lines[0], ln, scans[0][k], Emit(lines, scans, ln))
  {
    EmitUnfold(lines, scans, ln);
  }

  lemma {:induction false} EmitKeepsLater(lines: seq<string>, scans: seq<seq<Lexeme>>, ln: nat, i: nat, k: nat)
    requires Scanned(lines, scans) && 0 < i < |lines| && k < |scans[i]|
    requires Scanned(lines[1..], scans[1..])
    requires Kept(lines[1..][i - 1], ln + 1 + (i - 1), scans[1..][i - 1][k], Emit(lines[1..], scans[1..], ln + 1))
    ensures Kept(lines[i], ln + i, scans[i][k], Emit(lines, scans, ln))
  {
    EmitUnfold(lines, scans, ln);
    assert scans[1..][i - 1] == scans[i];
  }

  /** `Emit` yields its output in reading order when every line's lexemes ascend. */
  lemma {:induction false} EmitInOrder(lines: seq<string>, scans: seq<seq<Lexeme>>, ln: nat)
    requires Scanned(lines, scans)
    requires forall i :: 0 <= i < |scans| ==> Ascending(scans[i])
    ensures TokensInOrder(Emit(lines, scans, ln).0) && ErrorsInOrder(Emit(lines, scans, ln).1)
    decreases |lines|
  {
    if |lines| > 0 {
      ScannedTail(lines, scans);
      assert forall i :: 0 <= i < |scans[1..]| ==> scans[1..][i] == scans[i + 1];
      EmitInOrder(lines[1..], scans[1..], ln + 1);
      EmitOrderStep(lines, scans, ln);
    }
  }

  lemma {:induction false} EmitOrderStep(lines: seq<string>, scans: seq<seq<Lexeme>>, ln: nat)
    requires Scanned(lines, scans) && |lines| > 0 && Ascending(scans[0])
    requires Scanned(lines[1..], scans[1..])
    requires TokensInOrder(Emit(lines[1..], scans[1..], ln + 1).0) && ErrorsInOrder(Emit(lines[1..], scans[1..], ln + 1).1)
    ensures TokensInOrder(Emit(lines, scans, ln).0) && ErrorsInOrder(Emit(lines, scans, ln).1)
  {
    EmitLines(lines[1..], scans[1..], ln + 1);
    LineInOrder(lines[0], ln, scans[0]);
    LineNumbered(lines[0], ln, scans[0]);
    var rest := Emit(lines[1..], scans[1..], ln + 1);
    OrderAppend(ln, ln + |lines|, LexemeTokens(lines[0], ln, scans[0]), rest.0, LexemeErrors(lines[0], ln, scans[0]), rest.1);
  }

  /** Output on line `ln` in order, then output on later lines in order, is in order. */
  lemma {:induction false} OrderAppend(ln: nat, hi: nat, a: seq<Token>, b: seq<Token>, ea: seq<LexError>, eb: seq<LexError>)
    requires TokensInOrder(a) && TokensInOrder(b) && ErrorsInOrder(ea) && ErrorsInOrder(eb)
    requires OnLines((a, ea), ln, ln + 1)
    requires OnLines((b, eb), ln + 1, hi)
    ensures TokensInOrder(a + b) && ErrorsInOrder(ea + eb)
  {
    assert forall j :: |a| <= j < |a + b| ==> (a + b)[j] == b[j - |a|];
    assert forall j :: |ea| <= j < |ea + eb| ==> (ea + eb)[j] == eb[j - |ea|];
  }

  /**
   * Nothing is invented: every token in `out` is the one some non-whitespace
   * match of line `i` (numbered `ln + i`) yields, and every error is the one
   * some unrecognised character yields.
   */
  predicate FromLexemes(lines: seq<string>, scans: seq<seq<Lexeme>>, ln: nat, out: (seq<Token>, seq<LexError>))
    requires Scanned(lines, scans)
  {
    TokensFromLexemes(lines, scans, ln, out.0) && ErrorsFromLexemes(lines, scans, ln, out.1)
  }

  predicate TokensFromLexemes(lines: seq<string>, scans: seq<seq<Lexeme>>, ln: nat, ts: seq<Token>)
    requires Scanned(lines, scans)
  {
    forall j :: 0 <= j < |ts| ==>
      exists i, k :: 0 <= i < |lines| && 0 <= k < |scans[i]| && Produces(lines[i], ln + i, scans[i][k], ts[j])
  }

  predicate ErrorsFromLexemes(lines: seq<string>, scans: seq<seq<Lexeme>>, ln: nat, es: seq<LexError>)
    requires Scanned(lines, scans)
  {
    forall j :: 0 <= j < |es| ==>
      exists i, k :: 0 <= i < |lines| && 0 <= k < |scans[i]| && Reports(lines[i], ln + i, scans[i][k], es[j])
  }

  /** Everything `Emit` yields comes from a lexeme of one of its lines. */
  lemma {:induction false} EmitSound(lines: seq<string>, scans: seq<seq<Lexeme>>, ln: nat)
    requires Scanned(lines, scans)
    ensures FromLexemes(lines, scans, ln, Emit(lines, scans, ln))
    decreases |lines|
  {
    if |lines| > 0 {
      ScannedTail(lines, scans);
      EmitSound(lines[1..], scans[1..], ln + 1);
      EmitSoundStep(lines, scans, ln);
    }
  }

  lemma {:induction false} EmitSoundStep(lines: seq<string>, scans: seq<seq<Lexeme>>, ln: nat)
    requires Scanned(lines, scans) && |lines| > 0
    requires Scanned(lines[1..], scans[1..])
    requires FromLexemes(lines[1..], scans[1..], ln + 1, Emit(lines[1..], scans[1..], ln + 1))
    ensures FromLexemes(lines, scans, ln, Emit(lines, scans, ln))
  {
    EmitTokensSound(lines, scans, ln);
    EmitErrorsSound(lines, scans, ln);
  }

  lemma {:induction false} EmitTokensSound(lines: seq<string>, scans: seq<seq<Lexeme>>, ln: nat)
    requires Scanned(lines, scans) && |lines| > 0
    requires Scanned(lines[1..], scans[1..])
    requires FromLexemes(lines[1..], scans[1..], ln + 1, Emit(lines[1..], scans[1..], ln + 1))
    ensures TokensFromLexemes(lines, scans, ln, Emit(lines, scans, ln).0)
  {
    EmitUnfold(lines, scans, ln);
    var first := LexemeTokens(lines[0], ln, scans[0]);
    var rest := Emit(lines[1..], scans[1..], ln + 1).0;
    var ts := Emit(lines, scans, ln).0;
    assert ts == first + rest;
    forall j | 0 <= j < |ts|
      ensures exists i, k :: 0 <= i < |lines| && 0 <= k < |scans[i]| && Produces(lines[i], ln + i, scans[i][k], ts[j])
    {
      if j < |first| {
        var k :| 0 <= k < |scans[0]| && Produces(lines[0], ln, scans[0][k], first[j]);
        assert ts[j] == first[j];
        assert Produces(lines[0], ln + 0, scans[0][k], ts[j]);
      } else {
        var i, k :| 0 <= i < |lines[1..]| && 0 <= k < |scans[1..][i]|
                    && Produces(lines[1..][i], ln + 1 + i, scans[1..][i][k], rest[j - |first|]);
        assert ts[j] == rest[j - |first|];
        assert lines[1..][i] == lines[i + 1] && scans[1..][i] == scans[i + 1];
        assert Produces(lines[i + 1], ln + (i + 1), scans[i + 1][k], ts[j]);
      }
    }
  }

  lemma {:induction false} EmitErrorsSound(lines: seq<string>, scans: seq<seq<Lexeme>>, ln: nat)
    requires Scanned(lines, scans) && |lines| > 0
    requires Scanned(lines[1..], scans[1..])
    requires FromLexemes(lines[1..], scans[1..], ln + 1, Emit(lines[1..], scans[1..], ln + 1))
    ensures ErrorsFromLexemes(lines, scans, ln, Emit(lines, scans, ln).1)
  {
    EmitUnfold(lines, scans, ln);
    var first := LexemeErrors(lines[0], ln, scans[0]);
    var rest := Emit(lines[1..], scans[1..], ln + 1).1;
    var es := Emit(lines, scans, ln).1;
    assert es == first + rest;
    forall j | 0 <= j < |es|
      ensures exists i, k :: 0 <= i < |lines| && 0 <= k < |scans[i]| && Reports(lines[i], ln + i, scans[i][k], es[j])
    {
      if j < |first| {
        var k :| 0 <= k < |scans[0]| && Reports(lines[0], ln, scans[0][k], first[j]);
        assert es[j] == first[j];
        assert Reports(lines[0], ln + 0, scans[0][k], es[j]);
      } else {
        var i, k :| 0 <= i < |lines[1..]| && 0 <= k < |scans[1..][i]|
                    && Reports(lines[1..][i], ln + 1 + i, scans[1..][i][k], rest[j - |first|]);
        assert es[j] == rest[j - |first|];
        assert lines[1..][i] == lines[i + 1] && scans[1..][i] == scans[i + 1];
        assert Reports(lines[i + 1], ln + (i + 1), scans[i + 1][k], es[j]);
      }
    }
  }

  /** The lines the lexer scans: the source split at every `\n`. */
  function Lines(code: string): seq<string> {
    Split(code, '\n')
  }

  /** Every lexeme of the scan of every line of `lines`, numbered from 1, is kept in `out`. */
  predicate Complete(lines: seq<string>, out: (seq<Token>, seq<LexError>)) {
    var scans := ScanLines(lines);
    forall i, k :: 0 <= i < |lines| && 0 <= k < |scans[i]| ==> Kept(lines[i], i + 1, scans[i][k], out)
  }

  lemma {:induction false} LinesComplete(lines: seq<string>)
    ensures Complete(lines, Emit(lines, ScanLines(lines), 1))
  {
    forall i, k | 0 <= i < |lines| && 0 <= k < |ScanLines(lines)[i]|
      ensures Kept(lines[i], i + 1, ScanLines(lines)[i][k], Emit(lines, ScanLines(lines), 1))
    {
      EmitComplete(lines, ScanLines(lines), 1, i, k);
    }
  }

  /**
   * `tokenize`: every token is a valid token standing at its line and column
   * in the source, every error names the character at its line and column,
   * the source yields neither tokens nor errors exactly when it is all
   * whitespace, nothing the scan finds is dropped, nothing else is output,
   * and both lists come in reading order.
   */
  function Tokenize(code: string): (r: (seq<Token>, seq<LexError>))
    ensures forall j :: 0 <= j < |r.0| ==> ValidToken(r.0[j]) && LocatedIn(Lines(code), 1, r.0[j])
    ensures forall j :: 0 <= j < |r.1| ==> ErrorLocatedIn(Lines(code), 1, r.1[j])
    ensures (r.0 == [] && r.1 == []) <==> AllSpace(code)
    ensures Complete(Lines(code), r)
    ensures FromLexemes(Lines(code), ScanLines(Lines(code)), 1, r)
    ensures TokensInOrder(r.0) && ErrorsInOrder(r.1)
  {
    var lines := Lines(code);
    AllSpaceJoin(lines);
    LinesComplete(lines);
    EmitSound(lines, ScanLines(lines), 1);
    ScanLinesAscend(lines);
    EmitInOrder(lines, ScanLines(lines), 1);
    TokenizeLines(lines, 1)
  }


  /** The source lexes without error exactly when every lexeme of every line is a match. */
  lemma {:induction false} NoLexicalErrors(code: string)
    ensures var lines := Lines(code);
            var scans := ScanLines(lines);
            Tokenize(code).1 == [] <==> forall i, k :: 0 <= i < |lines| && 0 <= k < |scans[i]| ==> scans[i][k].Matched?
  {
    var lines, r := Lines(code), Tokenize(code);
    var scans := ScanLines(lines);
    if r.1 != [] {
      var i, k :| 0 <= i < |lines| && 0 <= k < |scans[i]| && Reports(lines[i], 1 + i, scans[i][k], r.1[0]);
      assert !scans[i][k].Matched?;
    } else {
      forall i, k | 0 <= i < |lines| && 0 <= k < |scans[i]| ensures scans[i][k].Matched? {
        assert Kept(lines[i], i + 1, scans[i][k], r);
      }
    }
  }

  /** Every unrecognised character of the source is reported exactly once. */
  lemma {:induction false} ErrorReportedOnce(code: string, i: nat, k: nat)
    requires i < |Lines(code)| && k < |ScanLines(Lines(code))[i]|
    requires ScanLines(Lines(code))[i][k].Unmatched?
    ensures var e := ErrorOf(Lines(code)[i], i + 1, ScanLines(Lines(code))[i][k]);
            var es := Tokenize(code).1;
            exists j :: 0 <= j < |es| && es[j] == e && forall j' :: 0 <= j' < |es| && es[j'] == e ==> j' == j
  {
    var lines, r := Lines(code), Tokenize(code);
    var e := ErrorOf(lines[i], i + 1, ScanLines(lines)[i][k]);
    assert Kept(lines[i], i + 1, ScanLines(lines)[i][k], r);
    var j :| 0 <= j < |r.1| && r.1[j] == e;
    forall j' | 0 <= j' < |r.1| && r.1[j'] == e ensures j' == j {
      assert ErrorsInOrder(r.1);
    }
  }

  /** A text joined at `\n` is all whitespace exactly when every piece is. */
  lemma {:induction false} AllSpaceJoin(parts: seq<string>)
    ensures AllSpace(Join(parts, "\n")) <==> forall i :: 0 <= i < |parts| ==> AllSpace(parts[i])
    decreases |parts|
  {
    if |parts| > 1 {
      AllSpaceJoin(parts[1..]);
      var a, b := parts[0], Join(parts[1..], "\n");
      assert Join(parts, "\n") == a + "\n" + b;
      assert forall k :: 0 <= k < |a| ==> (a + "\n" + b)[k] == a[k];
      assert forall k :: 0 <= k < |b| ==> (a + "\n" + b)[|a| + 1 + k] == b[k];
      assert (forall i :: 0 <= i < |parts| ==> AllSpace(parts[i]))
         <==> AllSpace(a) && (forall i :: 0 <= i < |parts[1..]| ==> AllSpace(parts[1..][i]));
    }
  }
}
