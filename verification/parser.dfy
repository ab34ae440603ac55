/**
 * The recursive-descent parser: `parse` with its nested `match`,
 * `syntax_error`, `parse_program`, `parse_instruction` and
 * `parse_girar_combination`.
 *
 * `parse` keeps a mutable `position` and an `errors` list; here
 * every sub-parser is a pure function from a position to an `Attempt`, which
 * either carries the parsed value and the next position, or the one error that
 * `syntax_error` recorded and the position it left behind (one past the token
 * it reported).  A failed sub-parser records exactly one error and returns at
 * once, as every `return syntax_error(...)` in `parse` does.
 */
module Parser {
  import opened Wrappers
  import opened Numerals
  import opened Opcodes
  import opened Lexer
  import opened Ast
  import opened Grammar

  /** What `syntax_error` was told to expect. */
  datatype Expected =
    | ProgramKeyword
    | ProgramName
    | BeginKeyword
    | EndKeyword
    | FinalDot
    | OpenParen
    | Integer
    | CloseParen
    | InstructionSemicolon
    | ValidInstruction
    | FunctionAfterPlus
    | TurnOrAdvanceAfterPlus

  /** The wording of `expected` in the error message. */
  function ExpectedText(e: Expected): string {
    match e
    case ProgramKeyword => "PROGRAM"
    case ProgramName => "nombre de programa"
    case BeginKeyword => "BEGIN"
    case EndKeyword => "END"
    case FinalDot => "un punto (.) para finalizar el programa"
    case OpenParen => "un par\U{e9}ntesis de apertura ("
    case Integer => "un n\U{fa}mero entero"
    case CloseParen => "un par\U{e9}ntesis de cierre )"
    case InstructionSemicolon => "un punto y coma (;) para finalizar la instrucci\U{f3}n"
    case ValidInstruction => "una instrucci\U{f3}n v\U{e1}lida"
    case FunctionAfterPlus => "una funci\U{f3}n v\U{e1}lida despu\U{e9}s del signo +"
    case TurnOrAdvanceAfterPlus => "una funci\U{f3}n girar o avanzar_* despu\U{e9}s del signo +"
  }

  datatype SyntaxError =
    /** `syntax_error(expected)`: the text and position of the token it found. */
    | Mismatch(expected: Expected, found: string, line: nat, column: nat)
    /** Tokens remain after the parse of the program stopped. */
    | TrailingTokens(line: nat, column: nat)

  function Message(e: SyntaxError): string {
    match e
    case Mismatch(expected, found, _, _) =>
      "Error de sintaxis: se esperaba " + ExpectedText(expected) + ", pero se encontr\U{f3} '" + found + "'"
    case TrailingTokens(_, _) => "Hay tokens adicionales despu\U{e9}s del final del programa"
  }

  datatype Attempt<T> = Parsed(value: T, next: nat) | Failed(error: SyntaxError, next: nat)

  /**
   * What the parser needs of its tokens: every NUMBER is a numeral that
   * `int()` reads and every FUNCTION names a verb.  The lexer's tokens always
   * qualify.  The interpreter's limit on the digits `int()` converts (4300 by
   * default) is not part of this model.
   */
  predicate Readable(ts: seq<Token>) {
    forall t | t in ts :: ReadableToken(t)
  }

  predicate ReadableToken(t: Token) {
    (t.kind == Number ==> IsNumeral(t.text)) && (t.kind == Function ==> FromName(t.text).Some?)
  }

  lemma {:induction false} LexerTokensReadable(ts: seq<Token>)
    requires forall k :: 0 <= k < |ts| ==> ValidToken(ts[k])
    ensures Readable(ts)
  {
    forall t | t in ts
      ensures ReadableToken(t)
    {
      FromNameSpelled(t.text);
    }
  }

  /** The token `syntax_error` reports at position `i`: past the end, the last one. */
  function Reported(ts: seq<Token>, i: nat): Token
    requires |ts| > 0
  {
    if i < |ts| then ts[i] else ts[|ts| - 1]
  }

  /** `err` is what `syntax_error(expected)` records when called at position `i`. */
  predicate Reports(ts: seq<Token>, err: SyntaxError, i: nat, expected: Expected)
    requires |ts| > 0
  {
    var t := Reported(ts, i);
    err == Mismatch(expected, t.text, t.line, t.column)
  }

  function Fail<T>(ts: seq<Token>, pos: nat, expected: Expected): (r: Attempt<T>)
    requires |ts| > 0
  {
    var t := Reported(ts, pos);
    Failed(Mismatch(expected, t.text, t.line, t.column), pos + 1)
  }

  /** The verb a FUNCTION token names. */
  function Verb(ts: seq<Token>, i: nat): (op: Opcode)
    requires Readable(ts) && KindAt(ts, i, Function)
    ensures FunctionAt(ts, i, op)
  {
    assert ts[i] in ts;
    FromName(ts[i].text).value
  }

  /**
   * `not match('KEYWORD') or tokens[position - 1]['value'] != word`.  A keyword
   * with the wrong text has already been consumed when the error is raised, so
   * the error names the token after it and the parse moves two tokens on.
   */
  function ExpectKeyword(ts: seq<Token>, pos: nat, word: string, expected: Expected): (r: Attempt<()>)
    requires |ts| > 0
    ensures r.Failed? ==> r.error.Mismatch?
    ensures r.Parsed? <==> KeywordAt(ts, pos, word)
    ensures r.Parsed? ==> r.next == pos + 1
    ensures r.Failed? && !KindAt(ts, pos, Keyword) ==> Reports(ts, r.error, pos, expected) && r.next == pos + 1
    ensures r.Failed? && KindAt(ts, pos, Keyword) ==> Reports(ts, r.error, pos + 1, expected) && r.next == pos + 2
  {
    if !KindAt(ts, pos, Keyword) then Fail(ts, pos, expected)
    else if ts[pos].text != word then Fail(ts, pos + 1, expected)
    else Parsed((), pos + 1)
  }

  /** `( NUMBER )`, the argument list shared by every call. */
  function ParseArgument(ts: seq<Token>, pos: nat): (r: Attempt<int>)
    requires |ts| > 0 && Readable(ts)
    ensures r.Failed? ==> r.error.Mismatch?
    ensures r.Parsed? ==> ArgumentAt(ts, pos, r.value) && r.next == pos + 3
    ensures r.Failed? ==> pos < r.next <= pos + 3
    ensures forall v :: ArgumentAt(ts, pos, v) ==> r == Parsed(v, pos + 3)
  {
    if !KindAt(ts, pos, LParen) then Fail(ts, pos, OpenParen)
    else if !KindAt(ts, pos + 1, Number) then Fail(ts, pos + 1, Integer)
    else if !KindAt(ts, pos + 2, RParen) then Fail(ts, pos + 2, CloseParen)
    else
      assert ts[pos + 1] in ts;
      Parsed(NumeralValue(ts[pos + 1].text), pos + 3)
  }

  /** `parse_instruction`: a turn combination when the verb is `girar`, otherwise `f(n);`. */
  function ParseInstruction(ts: seq<Token>, pos: nat): (r: Attempt<Instruction>)
    requires |ts| > 0 && Readable(ts)
    ensures r.Failed? ==> r.error.Mismatch?
    ensures r.next > pos
    ensures r.Parsed? ==> InstructionAt(ts, pos, r.value) && r.next == pos + InstructionLength(r.value)
    ensures !KindAt(ts, pos, Function) ==> r.Failed? && Reports(ts, r.error, pos, ValidInstruction)
  {
    if KindAt(ts, pos, Function) && ts[pos].text == "girar" then
      ParseTurnCombo(ts, pos)
    else if KindAt(ts, pos, Function) then
      var op := Verb(ts, pos);
      var arg := ParseArgument(ts, pos + 1);
      if arg.Failed? then Failed(arg.error, arg.next)
      else if !KindAt(ts, arg.next, Semicolon) then Fail(ts, arg.next, InstructionSemicolon)
      else Parsed(Simple(op, arg.value), arg.next + 1)
    else
      Fail(ts, pos, ValidInstruction)
  }

  /** `parse_girar_combination`: the first `girar(n)`, then the `+` loop. */
  function ParseTurnCombo(ts: seq<Token>, pos: nat): (r: Attempt<Instruction>)
    requires |ts| > 0 && Readable(ts) && FunctionAt(ts, pos, Girar)
    ensures r.Failed? ==> r.error.Mismatch?
    ensures r.next > pos
    ensures r.Parsed? ==> InstructionAt(ts, pos, r.value) && r.next == pos + InstructionLength(r.value)
  {
    var arg := ParseArgument(ts, pos + 1);
    if arg.Failed? then Failed(arg.error, arg.next)
    else ComboTail(ts, pos, arg.next, [arg.value])
  }

  /**
   * The `while match('PLUS')` loop of a combination that started at `start`
   * and has read `turns` so far: another `girar` extends the turns, an
   * advance closes the combination, any other verb is an error.
   */
  function ComboTail(ts: seq<Token>, start: nat, pos: nat, turns: seq<int>): (r: Attempt<Instruction>)
    requires |ts| > 0 && Readable(ts)
    requires TurnsAt(ts, start, turns) && pos == start + 5 * |turns| - 1
    ensures r.Failed? ==> r.error.Mismatch?
    ensures r.next > pos
    ensures r.Parsed? ==> InstructionAt(ts, start, r.value) && r.next == start + InstructionLength(r.value)
    decreases |ts| - pos
  {
    if KindAt(ts, pos, Plus) then
      if !KindAt(ts, pos + 1, Function) then Fail(ts, pos + 1, FunctionAfterPlus)
      else
        var arg := ParseArgument(ts, pos + 2);
        if arg.Failed? then Failed(arg.error, arg.next)
        else
          var op := Verb(ts, pos + 1);
          if op == Girar then
            TurnsExtend(ts, start, turns, arg.value);
            ComboTail(ts, start, arg.next, turns + [arg.value])
          else if IsAdvance(op) then CloseCombo(ts, start, arg.next, turns, Some(Call(op, arg.value)))
          else Fail(ts, arg.next, TurnOrAdvanceAfterPlus)
    else
      CloseCombo(ts, start, pos, turns, None)
  }

  /** The `;` that ends a combination. */
  function CloseCombo(ts: seq<Token>, start: nat, pos: nat, turns: seq<int>, advance: Option<Call>): (r: Attempt<Instruction>)
    requires |ts| > 0 && TurnsAt(ts, start, turns)
    requires advance.None? ==> pos == start + 5 * |turns| - 1
    requires advance.Some? ==> && IsAdvance(advance.value.op) && pos == start + 5 * |turns| + 4
                               && KindAt(ts, pos - 5, Plus) && CallAt(ts, pos - 4, advance.value.op, advance.value.param)
    ensures r.Failed? ==> r.error.Mismatch?
    ensures r.next > pos
    ensures r.Parsed? ==> InstructionAt(ts, start, r.value) && r.next == start + InstructionLength(r.value)
  {
    if !KindAt(ts, pos, Semicolon) then Fail(ts, pos, InstructionSemicolon)
    else Parsed(TurnCombo(turns, advance), pos + 1)
  }

  lemma {:induction false} TurnsExtend(ts: seq<Token>, start: nat, turns: seq<int>, v: int)
    requires TurnsAt(ts, start, turns)
    requires KindAt(ts, start + 5 * |turns| - 1, Plus) && CallAt(ts, start + 5 * |turns|, Girar, v)
    ensures TurnsAt(ts, start, turns + [v])
  {
    var ext := turns + [v];
    forall j | 1 <= j < |ext|
      ensures KindAt(ts, start + 5 * j - 1, Plus) && CallAt(ts, start + 5 * j, Girar, ext[j])
    {
      if j < |turns| {
        assert ext[j] == turns[j];
      }
    }
  }

  /** After a failed instruction: step to just past the next `;`, or to the end. */
  function SkipPastSemicolon(ts: seq<Token>, pos: nat): (q: nat)
    ensures pos >= |ts| ==> q == pos
    ensures pos < |ts| ==> pos < q <= |ts| && (KindAt(ts, q - 1, Semicolon) || q == |ts|)
    ensures forall k :: pos <= k < q - 1 ==> ts[k].kind != Semicolon
    decreases |ts| - pos
  {
    if pos >= |ts| then pos
    else if ts[pos].kind == Semicolon then pos + 1
    else SkipPastSemicolon(ts, pos + 1)
  }

  /** Where the instruction loop stops: at `END` or at the end of the tokens. */
  predicate BodyEnds(ts: seq<Token>, i: nat) {
    i >= |ts| || KeywordAt(ts, i, "END")
  }

  /**
   * What the instruction loop guarantees from `pos` on: it stops at `END` or
   * at the end, every instruction it keeps is well shaped, every error is a
   * `syntax_error` report, and when there is no error the instructions are
   * spelled back to back up to where it stopped.
   */
  predicate BodyFacts(ts: seq<Token>, pos: nat, r: (seq<Instruction>, seq<SyntaxError>, nat)) {
    && r.2 >= pos && BodyEnds(ts, r.2)
    && (forall k :: 0 <= k < |r.0| ==> WellShapedInstruction(r.0[k]))
    && (forall k :: 0 <= k < |r.1| ==> r.1[k].Mismatch?)
    && (r.1 == [] ==> InstructionsAt(ts, pos, r.0) && r.2 == pos + InstructionsLength(r.0))
  }

  /**
   * The instruction loop of `parse_program`: the instructions read and the
   * errors raised from `pos` on, and where the loop stopped.  A failed
   * instruction records its error and the loop resumes past the next `;`.
   */
  function Body(ts: seq<Token>, pos: nat): (r: (seq<Instruction>, seq<SyntaxError>, nat))
    requires |ts| > 0 && Readable(ts)
    ensures BodyFacts(ts, pos, r)
    decreases |ts| - pos
  {
    if BodyEnds(ts, pos) then ([], [], pos)
    else
      var a := ParseInstruction(ts, pos);
      if a.Parsed? then
        var rest := Body(ts, a.next);
        ParsedStep(ts, pos, a.value, a.next, rest);
        ([a.value] + rest.0, rest.1, rest.2)
      else
        var q := SkipPastSemicolon(ts, a.next);
        var rest := Body(ts, q);
        FailedStep(ts, pos, a.error, q, rest);
        (rest.0, [a.error] + rest.1, rest.2)
  }

  lemma {:induction false} ParsedStep(ts: seq<Token>, pos: nat, instr: Instruction, next: nat, rest: (seq<Instruction>, seq<SyntaxError>, nat))
    requires InstructionAt(ts, pos, instr) && next == pos + InstructionLength(instr)
    requires BodyFacts(ts, next, rest)
    ensures BodyFacts(ts, pos, ([instr] + rest.0, rest.1, rest.2))
  {
    var instrs := [instr] + rest.0;
    assert instrs[0] == instr && instrs[1..] == rest.0;
    SpelledInstructionWellShaped(ts, pos, instr);
  }

  lemma {:induction false} FailedStep(ts: seq<Token>, pos: nat, e: SyntaxError, q: nat, rest: (seq<Instruction>, seq<SyntaxError>, nat))
    requires e.Mismatch? && q >= pos && BodyFacts(ts, q, rest)
    ensures BodyFacts(ts, pos, (rest.0, [e] + rest.1, rest.2))
  {
  }

  /**
   * `parse_program`: the program (if its frame parsed), every error raised, and
   * where parsing stopped.  Errors in the instructions do not stop the parse; an
   * error in the frame does.
   */
  function ParseProgram(ts: seq<Token>): (r: (Option<Program>, seq<SyntaxError>, nat))
    requires |ts| > 0 && Readable(ts)
    ensures r.1 == [] ==> r.0.Some?
    ensures r.0.None? ==> |r.1| > 0
    ensures r.0.Some? ==> WellShaped(r.0.value)
    ensures r.1 == [] ==> ProgramPrefix(ts, r.0.value) && r.2 == ProgramLength(r.0.value)
  {
    var h := ExpectKeyword(ts, 0, "PROGRAM", ProgramKeyword);
    if h.Failed? then (None, [h.error], h.next)
    else if !KindAt(ts, 1, Identifier) then (None, [Fail<()>(ts, 1, ProgramName).error], 2)
    else
      var name := ts[1].text;
      var b := ExpectKeyword(ts, 2, "BEGIN", BeginKeyword);
      if b.Failed? then (None, [b.error], b.next)
      else
        var body := Body(ts, 3);
        var e := ExpectKeyword(ts, body.2, "END", EndKeyword);
        if e.Failed? then (None, body.1 + [e.error], e.next)
        else if !KindAt(ts, e.next, Dot) then (None, body.1 + [Fail<()>(ts, e.next, FinalDot).error], e.next + 1)
        else (Some(Program(name, body.0)), body.1, e.next + 1)
  }

  /**
   * `parse`: the program and every syntax error, with one more error when
   * tokens remain where parsing stopped.  `syntax_error` indexes
   * `tokens[-1]` when an error falls past the end, so an empty token list is
   * outside its domain.
   */
  function Parse(ts: seq<Token>): (r: (Option<Program>, seq<SyntaxError>))
    requires |ts| > 0 && Readable(ts)
    ensures r.1 == [] ==> r.0.Some? && ProgramAt(ts, r.0.value)
    ensures r.0.Some? ==> WellShaped(r.0.value)
    ensures r.0.None? ==> |r.1| > 0
  {
    var (program, errors, pos) := ParseProgram(ts);
    if pos < |ts| then (program, errors + [TrailingTokens(ts[pos].line, ts[pos].column)])
    else (program, errors)
  }

  // ---------------------------------------------------------------------
  // The parser reads every spelling the grammar allows
  // ---------------------------------------------------------------------

  lemma {:induction false} VerbOf(ts: seq<Token>, i: nat, op: Opcode)
    requires Readable(ts) && FunctionAt(ts, i, op)
    ensures Verb(ts, i) == op
  {
    FromNameOfName(op);
  }

  lemma {:induction false} TurnsPrefix(ts: seq<Token>, start: nat, turns: seq<int>, k: nat)
    requires TurnsAt(ts, start, turns) && 1 <= k <= |turns|
    ensures TurnsAt(ts, start, turns[..k])
  {
    forall j | 1 <= j < k
      ensures KindAt(ts, start + 5 * j - 1, Plus) && CallAt(ts, start + 5 * j, Girar, turns[..k][j])
    {
      assert turns[..k][j] == turns[j];
    }
  }

  /** One more `+ girar(v)` read by the `+` loop. */
  lemma {:induction false} ComboTailTurn(ts: seq<Token>, start: nat, turns: seq<int>, v: int)
    requires |ts| > 0 && Readable(ts) && TurnsAt(ts, start, turns)
    requires KindAt(ts, start + 5 * |turns| - 1, Plus) && CallAt(ts, start + 5 * |turns|, Girar, v)
    ensures TurnsAt(ts, start, turns + [v])
    ensures ComboTail(ts, start, start + 5 * |turns| - 1, turns) == ComboTail(ts, start, start + 5 * |turns| + 4, turns + [v])
  {
    VerbOf(ts, start + 5 * |turns|, Girar);
    TurnsExtend(ts, start, turns, v);
  }

  /** After the last turn the `+` loop reads the optional advance and the `;`. */
  lemma {:induction false} ComboTailLast(ts: seq<Token>, start: nat, pos: nat, turns: seq<int>, advance: Option<Call>)
    requires |ts| > 0 && Readable(ts) && TurnsAt(ts, start, turns) && pos == start + 5 * |turns| - 1
    requires ComboEndAt(ts, pos, advance)
    ensures ComboTail(ts, start, pos, turns)
         == Parsed(TurnCombo(turns, advance), start + InstructionLength(TurnCombo(turns, advance)))
  {
    match advance
    case None =>
    case Some(c) =>
      VerbOf(ts, pos + 1, c.op);
      assert ParseArgument(ts, pos + 2) == Parsed(c.param, pos + 5);
      ComboTailAdvance(ts, start, pos, turns, c);
  }

  /** `+ advance(n)` closes the `+` loop. */
  lemma {:induction false} ComboTailAdvance(ts: seq<Token>, start: nat, pos: nat, turns: seq<int>, c: Call)
    requires |ts| > 0 && Readable(ts) && TurnsAt(ts, start, turns) && pos == start + 5 * |turns| - 1
    requires KindAt(ts, pos, Plus) && KindAt(ts, pos + 1, Function) && Verb(ts, pos + 1) == c.op && IsAdvance(c.op)
    requires ParseArgument(ts, pos + 2) == Parsed(c.param, pos + 5)
    ensures ComboTail(ts, start, pos, turns) == CloseCombo(ts, start, pos + 5, turns, Some(c))
  {
  }

  /** What the `+` loop returns once the first `k` turns of `turns` are read. */
  ghost function TailAfter(ts: seq<Token>, start: nat, turns: seq<int>, k: nat): Attempt<Instruction>
    requires |ts| > 0 && Readable(ts) && TurnsAt(ts, start, turns) && 1 <= k <= |turns|
  {
    TurnsPrefix(ts, start, turns, k);
    ComboTail(ts, start, start + 5 * k - 1, turns[..k])
  }

  /** Reading turn `k` leaves the `+` loop's eventual result unchanged. */
  lemma {:induction false} TailStep(ts: seq<Token>, start: nat, turns: seq<int>, k: nat)
    requires |ts| > 0 && Readable(ts) && TurnsAt(ts, start, turns) && 1 <= k < |turns|
    ensures TailAfter(ts, start, turns, k) == TailAfter(ts, start, turns, k + 1)
  {
    var pre, next := turns[..k], turns[..k + 1];
    assert |pre| == k && next == pre + [turns[k]];
    TurnsPrefix(ts, start, turns, k);
    TurnsPrefix(ts, start, turns, k + 1);
    assert TailAfter(ts, start, turns, k) == ComboTail(ts, start, start + 5 * k - 1, pre);
    assert TailAfter(ts, start, turns, k + 1) == ComboTail(ts, start, start + 5 * k + 4, next);
    ComboTailTurn(ts, start, pre, turns[k]);
  }

  /** Values linked step by step from `lo` to `hi` are all equal. */
  lemma {:induction false} Chain<T>(f: nat -> T, lo: nat, hi: nat)
    requires lo <= hi
    requires forall j :: lo <= j < hi ==> f(j) == f(j + 1)
    ensures f(lo) == f(hi)
    decreases hi - lo
  {
    if lo < hi {
      Chain(f, lo + 1, hi);
    }
  }

  /** After the first turn, the `+` loop reads the remaining turns and the end of the combination. */
  lemma {:induction false} TailComplete(ts: seq<Token>, start: nat, turns: seq<int>, advance: Option<Call>)
    requires |ts| > 0 && Readable(ts) && TurnsAt(ts, start, turns)
    requires ComboEndAt(ts, start + 5 * |turns| - 1, advance)
    ensures TailAfter(ts, start, turns, 1)
         == Parsed(TurnCombo(turns, advance), start + InstructionLength(TurnCombo(turns, advance)))
  {
    var n := |turns|;
    var f := (j: nat) => if 1 <= j <= n then TailAfter(ts, start, turns, j) else TailAfter(ts, start, turns, 1);
    forall j | 1 <= j < n
      ensures f(j) == f(j + 1)
    {
      TailStep(ts, start, turns, j);
    }
    Chain(f, 1, n);
    TailLast(ts, start, turns, advance);
  }

  lemma {:induction false} TailLast(ts: seq<Token>, start: nat, turns: seq<int>, advance: Option<Call>)
    requires |ts| > 0 && Readable(ts) && TurnsAt(ts, start, turns)
    requires ComboEndAt(ts, start + 5 * |turns| - 1, advance)
    ensures TailAfter(ts, start, turns, |turns|)
         == Parsed(TurnCombo(turns, advance), start + InstructionLength(TurnCombo(turns, advance)))
  {
    assert turns[..|turns|] == turns;
    ComboTailLast(ts, start, start + 5 * |turns| - 1, turns, advance);
  }

  /** Every spelled instruction is read whole. */
  lemma {:induction false} InstructionComplete(ts: seq<Token>, pos: nat, instr: Instruction)
    requires |ts| > 0 && Readable(ts) && InstructionAt(ts, pos, instr)
    ensures ParseInstruction(ts, pos) == Parsed(instr, pos + InstructionLength(instr))
  {
    match instr
    case Simple(op, v) =>
      VerbOf(ts, pos, op);
      FromNameOfName(Girar);
    case TurnCombo(turns, advance) =>
      ComboComplete(ts, pos, turns, advance);
  }

  lemma {:induction false} ComboComplete(ts: seq<Token>, pos: nat, turns: seq<int>, advance: Option<Call>)
    requires |ts| > 0 && Readable(ts) && InstructionAt(ts, pos, TurnCombo(turns, advance))
    ensures ParseTurnCombo(ts, pos) == Parsed(TurnCombo(turns, advance), pos + InstructionLength(TurnCombo(turns, advance)))
  {
    assert turns[..1] == [turns[0]];
    TailComplete(ts, pos, turns, advance);
    assert ParseArgument(ts, pos + 1) == Parsed(turns[0], pos + 4);
  }

  /** Instructions spelled back to back up to `END` (or the end) are read without error. */
  lemma {:induction false} BodyComplete(ts: seq<Token>, pos: nat, instrs: seq<Instruction>)
    requires |ts| > 0 && Readable(ts)
    requires InstructionsAt(ts, pos, instrs) && BodyEnds(ts, pos + InstructionsLength(instrs))
    ensures Body(ts, pos).0 == instrs && Body(ts, pos).1 == [] && Body(ts, pos).2 == pos + InstructionsLength(instrs)
    decreases |instrs|
  {
    if |instrs| > 0 {
      var next := pos + InstructionLength(instrs[0]);
      BodyComplete(ts, next, instrs[1..]);
      StartsWithVerb(ts, pos, instrs[0]);
      InstructionComplete(ts, pos, instrs[0]);
      BodyCons(ts, pos, instrs[0], next, instrs[1..]);
      assert [instrs[0]] + instrs[1..] == instrs;
    } else {
      assert Body(ts, pos) == ([], [], pos);
      assert instrs == [];
    }
  }

  /** The loop's step over an instruction that parses. */
  lemma {:induction false} BodyParsed(ts: seq<Token>, pos: nat, instr: Instruction, next: nat)
    requires |ts| > 0 && Readable(ts) && !BodyEnds(ts, pos)
    requires ParseInstruction(ts, pos) == Parsed(instr, next)
    ensures Body(ts, pos) == ([instr] + Body(ts, next).0, Body(ts, next).1, Body(ts, next).2)
  {
  }

  /** A parsed instruction followed by an error-free rest is read as one more instruction. */
  lemma {:induction false} BodyCons(ts: seq<Token>, pos: nat, instr: Instruction, next: nat, tail: seq<Instruction>)
    requires |ts| > 0 && Readable(ts) && !BodyEnds(ts, pos)
    requires ParseInstruction(ts, pos) == Parsed(instr, next)
    requires Body(ts, next).0 == tail && Body(ts, next).1 == []
    ensures Body(ts, pos).0 == [instr] + tail && Body(ts, pos).1 == [] && Body(ts, pos).2 == Body(ts, next).2
  {
    BodyParsed(ts, pos, instr, next);
  }

  /** The loop's step over an instruction that fails: its error is recorded and reading resumes past the next `;`. */
  lemma {:induction false} BodyFailed(ts: seq<Token>, pos: nat, e: SyntaxError, n: nat, q: nat)
    requires |ts| > 0 && Readable(ts) && !BodyEnds(ts, pos)
    requires ParseInstruction(ts, pos) == Failed(e, n) && q == SkipPastSemicolon(ts, n)
    ensures Body(ts, pos) == (Body(ts, q).0, [e] + Body(ts, q).1, Body(ts, q).2)
  {
  }

  /**
   * Recovery: when the instruction at `pos` fails and the tokens past the next
   * `;` spell `rest` up to `END` (or the end), the loop reports that one error
   * and still reads all of `rest`.
   */
  lemma {:induction false} BodyRecovers(ts: seq<Token>, pos: nat, e: SyntaxError, n: nat, rest: seq<Instruction>)
    requires |ts| > 0 && Readable(ts) && !BodyEnds(ts, pos)
    requires ParseInstruction(ts, pos) == Failed(e, n)
    requires InstructionsAt(ts, SkipPastSemicolon(ts, n), rest)
    requires BodyEnds(ts, SkipPastSemicolon(ts, n) + InstructionsLength(rest))
    ensures Body(ts, pos).0 == rest
    ensures Body(ts, pos).1 == [e]
    ensures Body(ts, pos).2 == SkipPastSemicolon(ts, n) + InstructionsLength(rest)
  {
    var q := SkipPastSemicolon(ts, n);
    BodyComplete(ts, q, rest);
    assert Body(ts, q).0 == rest;
    BodyFailed(ts, pos, e, n, q);
  }

  lemma {:induction false} StartsWithVerb(ts: seq<Token>, pos: nat, instr: Instruction)
    requires InstructionAt(ts, pos, instr)
    ensures KindAt(ts, pos, Function) && !BodyEnds(ts, pos)
  {
  }

  lemma {:induction false} ProgramComplete(ts: seq<Token>, p: Program)
    requires |ts| > 0 && Readable(ts) && ProgramPrefix(ts, p)
    ensures ParseProgram(ts) == (Some(p), [], ProgramLength(p))
  {
    BodyComplete(ts, 3, p.instructions);
    ProgramAccepted(ts, p);
  }

  /** A header, a body read without error, `END` and `.` make the whole program. */
  lemma {:induction false} ProgramAccepted(ts: seq<Token>, p: Program)
    requires |ts| > 0 && Readable(ts)
    requires KeywordAt(ts, 0, "PROGRAM") && KindAt(ts, 1, Identifier) && ts[1].text == p.name && KeywordAt(ts, 2, "BEGIN")
    requires Body(ts, 3).0 == p.instructions && Body(ts, 3).1 == [] && Body(ts, 3).2 == InstructionsLength(p.instructions) + 3
    requires KeywordAt(ts, InstructionsLength(p.instructions) + 3, "END") && KindAt(ts, InstructionsLength(p.instructions) + 4, Dot)
    ensures ParseProgram(ts) == (Some(p), [], ProgramLength(p))
  {
  }

  /** The parser accepts exactly the spelled programs, and returns the one spelled. */
  lemma {:induction false} ParseCorrect(ts: seq<Token>, p: Program)
    requires |ts| > 0 && Readable(ts)
    ensures Parse(ts) == (Some(p), []) <==> ProgramAt(ts, p)
  {
    if ProgramAt(ts, p) {
      ProgramComplete(ts, p);
    }
  }

  /** The parser reports errors exactly when the tokens spell no program at all. */
  lemma {:induction false} ParseRejects(ts: seq<Token>)
    requires |ts| > 0 && Readable(ts)
    ensures Parse(ts).1 != [] <==> forall p :: !ProgramAt(ts, p)
  {
    forall p | ProgramAt(ts, p)
      ensures Parse(ts).1 == []
    {
      ParseCorrect(ts, p);
    }
  }

  /** A spelled program followed by anything parses, with one error at the first extra token. */
  lemma {:induction false} TrailingTokensReported(ts: seq<Token>, p: Program)
    requires |ts| > 0 && Readable(ts) && ProgramPrefix(ts, p) && |ts| > ProgramLength(p)
    ensures Parse(ts) == (Some(p), [TrailingTokens(ts[ProgramLength(p)].line, ts[ProgramLength(p)].column)])
  {
    ProgramComplete(ts, p);
    var n := ProgramLength(p);
    assert ParseProgram(ts) == (Some(p), [], n);
    var e := TrailingTokens(ts[n].line, ts[n].column);
    assert Parse(ts) == (Some(p), [] + [e]);
    assert [] + [e] == [e];
  }
}
