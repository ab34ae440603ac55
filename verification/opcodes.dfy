/** The nine verbs of UMG++ and their spellings. */
module Opcodes {
  import opened Wrappers

  datatype Opcode =
    | AvanzarVlts   // advance by wheel turns
    | AvanzarCtms   // advance by centimetres
    | AvanzarMts    // advance by metres
    | Girar         // turn
    | Circulo       // draw a circle
    | Cuadrado      // draw a square
    | Rotar         // rotate in place
    | Caminar       // walk
    | Moonwalk

  /** The opcode as written in UMG++ source and in the command list. */
  function Name(op: Opcode): string {
    match op
    case AvanzarVlts => "avanzar_vlts"
    case AvanzarCtms => "avanzar_ctms"
    case AvanzarMts => "avanzar_mts"
    case Girar => "girar"
    case Circulo => "circulo"
    case Cuadrado => "cuadrado"
    case Rotar => "rotar"
    case Caminar => "caminar"
    case Moonwalk => "moonwalk"
  }

  /** The FUNCTION names in the order the lexer's pattern lists them. */
  const FunctionNames: seq<string> :=
    ["avanzar_vlts", "avanzar_ctms", "avanzar_mts", "girar", "circulo", "cuadrado", "rotar", "caminar", "moonwalk"]

  /** The three opcodes that may close a turn combination. */
  predicate IsAdvance(op: Opcode) {
    op == AvanzarVlts || op == AvanzarCtms || op == AvanzarMts
  }

  /** The opcodes in the order the lexer's pattern lists their names. */
  const AllOpcodes: seq<Opcode> := [AvanzarVlts, AvanzarCtms, AvanzarMts, Girar, Circulo, Cuadrado, Rotar, Caminar, Moonwalk]

  /** Where `op` sits in `AllOpcodes`. */
  function Position(op: Opcode): (k: nat)
    ensures k < |AllOpcodes| && AllOpcodes[k] == op
  {
    match op
    case AvanzarVlts => 0
    case AvanzarCtms => 1
    case AvanzarMts => 2
    case Girar => 3
    case Circulo => 4
    case Cuadrado => 5
    case Rotar => 6
    case Caminar => 7
    case Moonwalk => 8
  }

  /** The opcode spelled `s`, if any. */
  function FromName(s: string): (r: Option<Opcode>)
    ensures r.Some? ==> Name(r.value) == s
  {
    FindName(s, 0)
  }

  /** The first opcode at or after position `k` of `AllOpcodes` that is spelled `s`. */
  function FindName(s: string, k: nat): (r: Option<Opcode>)
    requires k <= |AllOpcodes|
    ensures r.Some? ==> Name(r.value) == s
    decreases |AllOpcodes| - k
  {
    if k == |AllOpcodes| then None
    else if s == Name(AllOpcodes[k]) then Some(AllOpcodes[k])
    else FindName(s, k + 1)
  }

  /** `FunctionNames` spells `AllOpcodes`, position by position. */
  lemma {:induction false} NamesListed(k: nat)
    requires k < |AllOpcodes|
    ensures |FunctionNames| == |AllOpcodes| && FunctionNames[k] == Name(AllOpcodes[k])
  {
    if k == 0 {} else if k == 1 {} else if k == 2 {} else if k == 3 {} else if k == 4 {}
    else if k == 5 {} else if k == 6 {} else if k == 7 {} else {}
  }

  /** Exactly the listed names are read as opcodes. */
  lemma {:induction false} FromNameSpelled(s: string)
    ensures FromName(s).Some? <==> s in FunctionNames
  {
    FindNameSpelled(s, 0);
    assert FunctionNames[0..] == FunctionNames;
  }

  lemma {:induction false} FindNameSpelled(s: string, k: nat)
    requires k <= |AllOpcodes|
    ensures FindName(s, k).Some? <==> s in FunctionNames[k..]
    decreases |AllOpcodes| - k
  {
    if k < |AllOpcodes| {
      NamesListed(k);
      FindNameSpelled(s, k + 1);
      assert FunctionNames[k..] == [FunctionNames[k]] + FunctionNames[k + 1..];
    }
  }

  /** Every opcode's spelling reads back as that opcode. */
  lemma {:induction false} FromNameOfName(op: Opcode)
    ensures Name(op) in FunctionNames
    ensures FromName(Name(op)) == Some(op)
  {
    var k := Position(op);
    FindsEarlier(op, 0, k);
    NamesListed(k);
  }

  /** No opcode before position `k` shares the spelling of the one at `k`. */
  lemma {:induction false} FindsEarlier(op: Opcode, from: nat, k: nat)
    requires from <= k < |AllOpcodes| && AllOpcodes[k] == op
    ensures FindName(Name(op), from) == Some(op)
    decreases k - from
  {
    if from < k {
      assert Name(AllOpcodes[from]) != Name(op) by { NamesDistinct(from, k); }
      FindsEarlier(op, from + 1, k);
    }
  }

  /** Different positions of `AllOpcodes` carry different spellings. */
  lemma {:induction false} NamesDistinct(i: nat, j: nat)
    requires i < j < |AllOpcodes|
    ensures Name(AllOpcodes[i]) != Name(AllOpcodes[j])
  {
    NamesListed(i);
    NamesListed(j);
    assert FunctionNames[i] != FunctionNames[j];
  }

  /** Opcode spellings contain only lower-case letters and `_`. */
  lemma {:induction false} NameLetters(op: Opcode)
    ensures |Name(op)| > 0
    ensures forall k :: 0 <= k < |Name(op)| ==> 'a' <= Name(op)[k] <= 'z' || Name(op)[k] == '_'
  {
  }
}
