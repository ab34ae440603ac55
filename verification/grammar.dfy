/**
 * The UMG++ grammar read declaratively over a token list:
 *
 *   program     ::= PROGRAM IDENTIFIER BEGIN instruction* END "."
 *   instruction ::= call ";"                               (any verb but girar)
 *                 | girar-call ("+" girar-call)* ["+" advance-call] ";"
 *   call        ::= FUNCTION "(" NUMBER ")"
 *
 * Punctuation is recognised by token kind alone, as the parser does; keywords,
 * verbs and numbers by their text as well.  Each predicate says where in the
 * token list a tree is spelled, so that the parser's correctness is a statement
 * that it finds exactly these spellings.
 */
module Grammar {
  import opened Wrappers
  import opened Numerals
  import opened Opcodes
  import opened Lexer
  import opened Ast

  predicate KindAt(ts: seq<Token>, i: nat, k: TokenKind) {
    i < |ts| && ts[i].kind == k
  }

  predicate KeywordAt(ts: seq<Token>, i: nat, word: string) {
    KindAt(ts, i, Keyword) && ts[i].text == word
  }

  predicate FunctionAt(ts: seq<Token>, i: nat, op: Opcode) {
    KindAt(ts, i, Function) && ts[i].text == Name(op)
  }

  predicate NumberAt(ts: seq<Token>, i: nat, v: int) {
    KindAt(ts, i, Number) && IsNumeral(ts[i].text) && NumeralValue(ts[i].text) == v
  }

  /** `( NUMBER )` with the number's value `v`, three tokens from `i`. */
  predicate ArgumentAt(ts: seq<Token>, i: nat, v: int) {
    KindAt(ts, i, LParen) && NumberAt(ts, i + 1, v) && KindAt(ts, i + 2, RParen)
  }

  /** `op(v)`: four tokens from `i`. */
  predicate CallAt(ts: seq<Token>, i: nat, op: Opcode, v: int) {
    FunctionAt(ts, i, op) && ArgumentAt(ts, i + 1, v)
  }

  /** `girar(turns[0]) + girar(turns[1]) + ...`: `5 * |turns| - 1` tokens from `i`. */
  predicate TurnsAt(ts: seq<Token>, i: nat, turns: seq<int>) {
    && |turns| > 0
    && CallAt(ts, i, Girar, turns[0])
    && forall j {:trigger turns[j]} :: 1 <= j < |turns| ==> KindAt(ts, i + 5 * j - 1, Plus) && CallAt(ts, i + 5 * j, Girar, turns[j])
  }

  /** The number of tokens that spell `instr`. */
  function InstructionLength(instr: Instruction): nat {
    match instr
    case Simple(_, _) => 5
    case TurnCombo(turns, advance) => 5 * |turns| + (if advance.Some? then 5 else 0)
  }

  /** What closes a combination whose turns end before `j`: `;`, or `+ advance(n);`. */
  predicate ComboEndAt(ts: seq<Token>, j: nat, advance: Option<Call>) {
    match advance
    case None => KindAt(ts, j, Semicolon)
    case Some(c) => IsAdvance(c.op) && KindAt(ts, j, Plus) && CallAt(ts, j + 1, c.op, c.param) && KindAt(ts, j + 5, Semicolon)
  }

  predicate InstructionAt(ts: seq<Token>, i: nat, instr: Instruction) {
    match instr
    case Simple(op, v) => op != Girar && CallAt(ts, i, op, v) && KindAt(ts, i + 4, Semicolon)
    case TurnCombo(turns, advance) => TurnsAt(ts, i, turns) && ComboEndAt(ts, i + 5 * |turns| - 1, advance)
  }

  function InstructionsLength(instrs: seq<Instruction>): nat {
    if |instrs| == 0 then 0 else InstructionLength(instrs[0]) + InstructionsLength(instrs[1..])
  }

  /** `instrs` spelled one after another from `i`. */
  predicate InstructionsAt(ts: seq<Token>, i: nat, instrs: seq<Instruction>)
    decreases |instrs|
  {
    |instrs| == 0 || (InstructionAt(ts, i, instrs[0]) && InstructionsAt(ts, i + InstructionLength(instrs[0]), instrs[1..]))
  }

  /** The number of tokens that spell `p`. */
  function ProgramLength(p: Program): nat {
    InstructionsLength(p.instructions) + 5
  }

  /** The token list starts with a spelling of `p`; nothing is said about what follows. */
  predicate ProgramPrefix(ts: seq<Token>, p: Program) {
    var n := InstructionsLength(p.instructions);
    && KeywordAt(ts, 0, "PROGRAM")
    && KindAt(ts, 1, Identifier) && ts[1].text == p.name
    && KeywordAt(ts, 2, "BEGIN")
    && InstructionsAt(ts, 3, p.instructions)
    && KeywordAt(ts, n + 3, "END")
    && KindAt(ts, n + 4, Dot)
  }

  /** The whole token list spells program `p`, with nothing after the final dot. */
  predicate ProgramAt(ts: seq<Token>, p: Program) {
    ProgramPrefix(ts, p) && |ts| == ProgramLength(p)
  }

  /** Every spelled instruction has the shape the syntax tree promises. */
  lemma {:induction false} SpelledInstructionWellShaped(ts: seq<Token>, i: nat, instr: Instruction)
    requires InstructionAt(ts, i, instr)
    ensures WellShapedInstruction(instr)
  {
  }

  lemma {:induction false} SpelledInstructionsWellShaped(ts: seq<Token>, i: nat, instrs: seq<Instruction>)
    requires InstructionsAt(ts, i, instrs)
    ensures forall k :: 0 <= k < |instrs| ==> WellShapedInstruction(instrs[k])
    decreases |instrs|
  {
    if |instrs| > 0 {
      SpelledInstructionWellShaped(ts, i, instrs[0]);
      SpelledInstructionsWellShaped(ts, i + InstructionLength(instrs[0]), instrs[1..]);
      assert forall k :: 1 <= k < |instrs| ==> instrs[k] == instrs[1..][k - 1];
    }
  }

  /** A spelled program is well shaped. */
  lemma {:induction false} SpelledProgramWellShaped(ts: seq<Token>, p: Program)
    requires ProgramPrefix(ts, p)
    ensures WellShaped(p)
  {
    SpelledInstructionsWellShaped(ts, 3, p.instructions);
  }
}
