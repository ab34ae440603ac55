/**
 * `analyze_semantics`: the parameter rules of each verb, checked over the
 * syntax tree in program order.
 */
module Semantics {
  import opened Wrappers
  import opened Numerals
  import opened Opcodes
  import opened Ast

  /** The three rules a parameter can break. */
  datatype Rule =
    | NonZero        // an advance, `rotar`, `caminar` or `moonwalk` by 0
    | TurnDirection  // a turn other than -1, 0 or 1
    | SizeRange      // a circle or square outside 10..200 cm

  /** An error names the rule, the verb that broke it, and the whole instruction it sits in. */
  datatype SemanticError = SemanticError(rule: Rule, op: Opcode, instruction: Instruction)

  function Message(e: SemanticError): string {
    var f := Name(e.op);
    match e.rule
    case NonZero => "Error sem\U{e1}ntico: El par\U{e1}metro para " + f + " no puede ser 0"
    case TurnDirection => "Error sem\U{e1}ntico: El par\U{e1}metro para " + f + " debe ser -1, 0 o 1"
    case SizeRange => "Error sem\U{e1}ntico: El par\U{e1}metro para " + f + " debe estar entre 10 y 200 cent\U{ed}metros"
  }

  /** The verbs whose parameter must not be 0. */
  predicate NeedsNonZero(op: Opcode) {
    op in {AvanzarVlts, AvanzarCtms, AvanzarMts, Rotar, Caminar, Moonwalk}
  }

  predicate IsDirection(v: int) {
    v == -1 || v == 0 || v == 1
  }

  // ---------------------------------------------------------------------
  // The rules, stated declaratively
  // ---------------------------------------------------------------------

  /** The parameter `v` is acceptable for verb `op`. */
  predicate ValidCall(op: Opcode, v: int) {
    if NeedsNonZero(op) then v != 0
    else if op == Girar then IsDirection(v)
    else 10 <= v <= 200
  }

  /** Every call in the instruction has an acceptable parameter. */
  predicate InstructionValid(instr: Instruction) {
    match instr
    case Simple(op, v) => ValidCall(op, v)
    case TurnCombo(turns, advance) =>
      && (forall k :: 0 <= k < |turns| ==> IsDirection(turns[k]))
      && (advance.Some? ==> advance.value.param != 0)
  }

  predicate ProgramValid(p: Program) {
    forall k :: 0 <= k < |p.instructions| ==> InstructionValid(p.instructions[k])
  }

  // ---------------------------------------------------------------------
  // The parameter check
  // ---------------------------------------------------------------------

  /** One `TurnDirection` error per turn out of range, in order. */
  function TurnErrors(turns: seq<int>, instr: Instruction): (es: seq<SemanticError>)
    ensures |es| <= |turns|
    ensures es == [] <==> forall k :: 0 <= k < |turns| ==> IsDirection(turns[k])
    ensures forall k :: 0 <= k < |es| ==> es[k] == SemanticError(TurnDirection, Girar, instr)
  {
    if |turns| == 0 then []
    else
      var rest := TurnErrors(turns[1..], instr);
      assert forall k :: 1 <= k < |turns| ==> turns[k] == turns[1..][k - 1];
      (if IsDirection(turns[0]) then [] else [SemanticError(TurnDirection, Girar, instr)]) + rest
  }

  /** The errors one instruction raises. */
  function CheckInstruction(instr: Instruction): (es: seq<SemanticError>)
    ensures es == [] <==> InstructionValid(instr)
    ensures forall k :: 0 <= k < |es| ==> es[k].instruction == instr
    ensures instr.Simple? ==> |es| <= 1 && forall k :: 0 <= k < |es| ==> es[k].op == instr.op
  {
    match instr
    case Simple(op, v) =>
      if NeedsNonZero(op) then
        if v == 0 then [SemanticError(NonZero, op, instr)] else []
      else if op == Girar then
        if !IsDirection(v) then [SemanticError(TurnDirection, op, instr)] else []
      else
        if v < 10 || v > 200 then [SemanticError(SizeRange, op, instr)] else []
    case TurnCombo(turns, advance) =>
      TurnErrors(turns, instr)
        + (if advance.Some? && advance.value.param == 0 then [SemanticError(NonZero, advance.value.op, instr)] else [])
  }

  /** The errors of a sequence of instructions, in order. */
  function CheckAll(instrs: seq<Instruction>): (es: seq<SemanticError>)
    ensures es == [] <==> forall k :: 0 <= k < |instrs| ==> InstructionValid(instrs[k])
    ensures forall k :: 0 <= k < |es| ==> es[k].instruction in instrs
  {
    if |instrs| == 0 then []
    else
      var rest := CheckAll(instrs[1..]);
      assert forall k :: 1 <= k < |instrs| ==> instrs[k] == instrs[1..][k - 1];
      assert forall i :: i in instrs[1..] ==> i in instrs;
      CheckInstruction(instrs[0]) + rest
  }

  /**
   * `analyze_semantics`: no tree, no errors; otherwise the errors of every
   * instruction, each naming an instruction of the program.
   */
  function Analyze(ast: Option<Program>): (es: seq<SemanticError>)
    ensures ast.None? ==> es == []
    ensures ast.Some? ==> (es == [] <==> ProgramValid(ast.value))
    ensures ast.Some? ==> forall k :: 0 <= k < |es| ==> es[k].instruction in ast.value.instructions
  {
    match ast
    case None => []
    case Some(p) => CheckAll(p.instructions)
  }

  // ---------------------------------------------------------------------
  // Properties
  // ---------------------------------------------------------------------

  /** Checking a concatenation checks each part in turn: errors keep program order. */
  lemma {:induction false} CheckAllAppend(a: seq<Instruction>, b: seq<Instruction>)
    ensures CheckAll(a + b) == CheckAll(a) + CheckAll(b)
    decreases |a|
  {
    if |a| > 0 {
      assert (a + b)[1..] == a[1..] + b;
      CheckAllAppend(a[1..], b);
    } else {
      assert a + b == b;
    }
  }

  /** A combination raises one error per bad turn and one more for an advance by 0. */
  lemma {:induction false} ComboErrorCount(turns: seq<int>, advance: Option<Call>)
    ensures |CheckInstruction(TurnCombo(turns, advance))|
         == |BadTurns(turns)| + (if advance.Some? && advance.value.param == 0 then 1 else 0)
  {
    TurnErrorCount(turns, TurnCombo(turns, advance));
  }

  /** One `TurnDirection` error for each turn outside -1..1. */
  lemma {:induction false} TurnErrorCount(turns: seq<int>, instr: Instruction)
    ensures |TurnErrors(turns, instr)| == |BadTurns(turns)|
    decreases |turns|
  {
    if |turns| > 0 {
      TurnErrorCount(turns[1..], instr);
      assert BadTurns(turns) == (if IsDirection(turns[0]) then [] else [turns[0]]) + BadTurns(turns[1..]);
    }
  }

  /** The turns outside -1..1, in order. */
  function BadTurns(turns: seq<int>): (bad: seq<int>)
    ensures forall k :: 0 <= k < |bad| ==> !IsDirection(bad[k]) && bad[k] in turns
    ensures forall k :: 0 <= k < |turns| && !IsDirection(turns[k]) ==> turns[k] in bad
  {
    if |turns| == 0 then []
    else
      var rest := BadTurns(turns[1..]);
      assert forall k :: 1 <= k < |turns| ==> turns[k] == turns[1..][k - 1];
      (if IsDirection(turns[0]) then [] else [turns[0]]) + rest
  }

  /**
   * In a well-shaped program no plain instruction is a turn, so the
   * `girar` branch of the plain-instruction check never fires: every
   * `TurnDirection` error belongs to a combination.
   */
  lemma {:induction false} TurnErrorsComeFromCombinations(p: Program)
    requires WellShaped(p)
    ensures forall e | e in Analyze(Some(p)) :: e.rule == TurnDirection ==> e.instruction.TurnCombo?
  {
    forall e | e in Analyze(Some(p)) && e.rule == TurnDirection
      ensures e.instruction.TurnCombo?
    {
      var k :| 0 <= k < |p.instructions| && p.instructions[k] == e.instruction;
      InstructionErrorIn(p.instructions, e);
      NoTurnErrorFromPlainCall(p.instructions[k]);
    }
  }

  lemma {:induction false} NoTurnErrorFromPlainCall(instr: Instruction)
    requires WellShapedInstruction(instr)
    ensures forall e | e in CheckInstruction(instr) :: e.rule == TurnDirection ==> instr.TurnCombo?
  {
  }

  /** Every error of a list comes from checking one of its instructions. */
  lemma {:induction false} InstructionErrorIn(instrs: seq<Instruction>, e: SemanticError)
    requires e in CheckAll(instrs)
    ensures e in CheckInstruction(e.instruction)
    decreases |instrs|
  {
    if |instrs| > 0 {
      if e !in CheckInstruction(instrs[0]) {
        InstructionErrorIn(instrs[1..], e);
      }
    }
  }
}
