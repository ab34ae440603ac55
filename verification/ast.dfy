/**
 * The syntax tree the parser builds: a named program holding plain calls
 * (`{'type': 'instruction', ...}`) and turn combinations
 * (`{'type': 'giro_combination', ...}`).
 */
module Ast {
  import opened Wrappers
  import opened Opcodes

  /** One `function(parameter)` call. */
  datatype Call = Call(op: Opcode, param: int)

  datatype Instruction =
    /** `f(n);` for every verb except `girar`. */
    | Simple(op: Opcode, param: int)
    /** `girar(a) + girar(b) + ... [+ avanzar_*(n)];`: the turn parameters, then the optional closing advance. */
    | TurnCombo(turns: seq<int>, advance: Option<Call>)

  datatype Program = Program(name: string, instructions: seq<Instruction>)

  /** The shape every parsed instruction has: `girar` always opens a combination, which has at least one turn and closes, if at all, with an advance. */
  predicate WellShapedInstruction(i: Instruction) {
    match i
    case Simple(op, _) => op != Girar
    case TurnCombo(turns, advance) => |turns| > 0 && (advance.Some? ==> IsAdvance(advance.value.op))
  }

  predicate WellShaped(p: Program) {
    forall k :: 0 <= k < |p.instructions| ==> WellShapedInstruction(p.instructions[k])
  }
}
