/**
 * The two back ends: `generate_esp8266_code`, the flat list of `verb:param`
 * commands the rover firmware runs, and `generate_python_code`, a Python
 * script driving the rover library with one line per instruction.
 */
module CodeGen {
  import opened Wrappers
  import opened Text
  import opened Numerals
  import opened Opcodes
  import opened Ast

  // ---------------------------------------------------------------------
  // The command list
  // ---------------------------------------------------------------------

  /** `f"{func}:{param}"`. */
  function CommandText(op: Opcode, v: int): string {
    Name(op) + ":" + IntToString(v)
  }

  /** The commands of one instruction: the turns in order, then the advance if it is one. */
  function EspCommands(instr: Instruction): (cs: seq<string>)
    ensures instr.Simple? ==> |cs| == 1
    ensures instr.TurnCombo? ==> |cs| == |instr.turns| + (if instr.advance.Some? && IsAdvance(instr.advance.value.op) then 1 else 0)
  {
    match instr
    case Simple(op, v) => [CommandText(op, v)]
    case TurnCombo(turns, advance) =>
      seq(|turns|, k requires 0 <= k < |turns| => CommandText(Girar, turns[k]))
        + (if advance.Some? && IsAdvance(advance.value.op) then [CommandText(advance.value.op, advance.value.param)] else [])
  }

  /** `generate_esp8266_code`: every instruction's commands, in program order. */
  function GenerateEsp(instrs: seq<Instruction>): seq<string> {
    if |instrs| == 0 then [] else EspCommands(instrs[0]) + GenerateEsp(instrs[1..])
  }

  /** The calls an instruction performs, in order: the reference the command list is checked against. */
  function InstructionCalls(instr: Instruction): seq<Call> {
    match instr
    case Simple(op, v) => [Call(op, v)]
    case TurnCombo(turns, advance) =>
      seq(|turns|, k requires 0 <= k < |turns| => Call(Girar, turns[k])) + (if advance.Some? then [advance.value] else [])
  }

  function ProgramCalls(instrs: seq<Instruction>): seq<Call> {
    if |instrs| == 0 then [] else InstructionCalls(instrs[0]) + ProgramCalls(instrs[1..])
  }

  /** Reads a `verb:param` command back: the text before the first `:` names the verb, the rest is its number. */
  function DecodeCommand(s: string): (r: Option<Call>)
    ensures r.Some? ==>
      var n := |Name(r.value.op)|;
      && n < |s| && s[..n] == Name(r.value.op) && s[n] == ':'
      && IsNumeral(s[n + 1..]) && NumeralValue(s[n + 1..]) == r.value.param
  {
    var i := Find(s, ':');
    if i < 0 then None
    else
      match FromName(s[..i])
      case None => None
      case Some(op) =>
        if IsNumeral(s[i + 1..]) then Some(Call(op, NumeralValue(s[i + 1..]))) else None
  }

  /** A command reads back as the call it was printed from. */
  lemma {:induction false} DecodeCommandText(op: Opcode, v: int)
    ensures DecodeCommand(CommandText(op, v)) == Some(Call(op, v))
  {
    var a, b := Name(op), IntToString(v);
    NameLetters(op);
    FromNameOfName(op);
    assert CommandText(op, v) == a + [':'] + b;
    DecodeParts(a, b, op, v);
  }

  /** `a:b` decodes to the call of verb `a` with the value of numeral `b`. */
  lemma {:induction false} DecodeParts(a: string, b: string, op: Opcode, v: int)
    requires ':' !in a && FromName(a) == Some(op) && IsNumeral(b) && NumeralValue(b) == v
    ensures DecodeCommand(a + [':'] + b) == Some(Call(op, v))
  {
    var s := a + [':'] + b;
    FindAfterPrefix(a, ':', b);
    assert s[..|a|] == a;
    assert s[|a| + 1..] == b;
  }

  lemma {:induction false} GenerateEspAppend(a: seq<Instruction>, b: seq<Instruction>)
    ensures GenerateEsp(a + b) == GenerateEsp(a) + GenerateEsp(b)
    decreases |a|
  {
    if |a| == 0 {
      assert a + b == b;
    } else {
      assert (a + b)[1..] == a[1..] + b;
      GenerateEspAppend(a[1..], b);
    }
  }

  /** `cs[k]` reads back as `calls[k]`, for every `k`. */
  predicate DecodesTo(cs: seq<string>, calls: seq<Call>) {
    |cs| == |calls| && forall k :: 0 <= k < |cs| ==> DecodeCommand(cs[k]) == Some(calls[k])
  }

  lemma {:induction false} DecodesToAppend(a: seq<string>, ca: seq<Call>, b: seq<string>, cb: seq<Call>)
    requires DecodesTo(a, ca) && DecodesTo(b, cb)
    ensures DecodesTo(a + b, ca + cb)
  {
    forall k | 0 <= k < |a + b|
      ensures DecodeCommand((a + b)[k]) == Some((ca + cb)[k])
    {
      if k >= |a| {
        assert (a + b)[k] == b[k - |a|];
        assert (ca + cb)[k] == cb[k - |a|];
      }
    }
  }

  /**
   * For a well-shaped instruction the commands are exactly its calls:
   * one command per call, each reading back as that call.
   */
  lemma {:induction false} EspCommandsDecode(instr: Instruction)
    requires WellShapedInstruction(instr)
    ensures DecodesTo(EspCommands(instr), InstructionCalls(instr))
  {
    match instr
    case Simple(op, v) =>
      DecodeCommandText(op, v);
    case TurnCombo(turns, advance) =>
      var cs, calls := EspCommands(instr), InstructionCalls(instr);
      forall k | 0 <= k < |cs|
        ensures DecodeCommand(cs[k]) == Some(calls[k])
      {
        if k < |turns| {
          assert cs[k] == CommandText(Girar, turns[k]);
          assert calls[k] == Call(Girar, turns[k]);
          DecodeCommandText(Girar, turns[k]);
        } else {
          assert cs[k] == CommandText(advance.value.op, advance.value.param);
          assert calls[k] == advance.value;
          DecodeCommandText(advance.value.op, advance.value.param);
        }
      }
  }

  /** The command list of a well-shaped program reads back as the program's calls, in order. */
  lemma {:induction false} GenerateEspDecodes(instrs: seq<Instruction>)
    requires forall k :: 0 <= k < |instrs| ==> WellShapedInstruction(instrs[k])
    ensures DecodesTo(GenerateEsp(instrs), ProgramCalls(instrs))
    decreases |instrs|
  {
    if |instrs| > 0 {
      EspCommandsDecode(instrs[0]);
      assert forall k :: 1 <= k < |instrs| ==> instrs[k] == instrs[1..][k - 1];
      GenerateEspDecodes(instrs[1..]);
      DecodesToAppend(EspCommands(instrs[0]), InstructionCalls(instrs[0]), GenerateEsp(instrs[1..]), ProgramCalls(instrs[1..]));
    }
  }

  // ---------------------------------------------------------------------
  // The Python script
  // ---------------------------------------------------------------------

  /**
   * The rover-library method a call becomes: `move_wheels`, `move_cm`,
   * `move_meters`, `draw_circle`, `draw_square`, `rotate`, `walk` and
   * `moonwalk` for the verbs with a distance or count, and for a turn
   * `turn_right` (1), `turn_left` (-1) or `move_straight` (any other value).
   */
  function Method(op: Opcode, v: int): string {
    match op
    case AvanzarVlts => "move_wheels"
    case AvanzarCtms => "move_cm"
    case AvanzarMts => "move_meters"
    case Girar => if v == 1 then "turn_right" else if v == -1 then "turn_left" else "move_straight"
    case Circulo => "draw_circle"
    case Cuadrado => "draw_square"
    case Rotar => "rotate"
    case Caminar => "walk"
    case Moonwalk => "moonwalk"
  }

  /** The argument text of the call: none for a turn, the parameter otherwise. */
  function Argument(op: Opcode, v: int): string {
    if op == Girar then "" else IntToString(v)
  }

  /** `rover.<method>(<argument>)`. */
  function PyCall(op: Opcode, v: int): string {
    "rover." + Method(op, v) + "(" + Argument(op, v) + ")"
  }

  function TurnCall(t: int): string {
    PyCall(Girar, t)
  }

  /** The comment after a plain call: a fixed text around the parameter, or for a turn its direction. */
  function Comment(op: Opcode, v: int): string {
    if op == Girar then TurnComment(v) else CommentLead(op) + IntToString(v) + CommentTail(op)
  }

  function TurnComment(t: int): string {
    if t == 1 then "Girar a la derecha"
    else if t == -1 then "Girar a la izquierda"
    else "Avanzar en l\U{ed}nea recta"
  }

  /** The comment text before the parameter. */
  function CommentLead(op: Opcode): string {
    match op
    case AvanzarVlts => "Avanzar "
    case AvanzarCtms => "Avanzar "
    case AvanzarMts => "Avanzar "
    case Girar => ""
    case Circulo => "Dibujar c\U{ed}rculo de radio "
    case Cuadrado => "Dibujar cuadrado de lado "
    case Rotar => "Rotar "
    case Caminar => "Caminar "
    case Moonwalk => "Moonwalk de "
  }

  /** The comment text after the parameter. */
  function CommentTail(op: Opcode): string {
    match op
    case AvanzarVlts => " vueltas"
    case AvanzarCtms => " cent\U{ed}metros"
    case AvanzarMts => " metros"
    case Girar => ""
    case Circulo => " cm"
    case Cuadrado => " cm"
    case Rotar => " vueltas"
    case Caminar => " pasos"
    case Moonwalk => " pasos"
  }

  /** The calls of a combination: its turns, then its advance if it is one. */
  function ComboCalls(turns: seq<int>, advance: Option<Call>): seq<string> {
    seq(|turns|, k requires 0 <= k < |turns| => TurnCall(turns[k]))
      + (if advance.Some? && IsAdvance(advance.value.op) then [PyCall(advance.value.op, advance.value.param)] else [])
  }

  /** The comment of a combination: the UMG++ calls it came from, joined by ` + `. */
  function ComboComment(turns: seq<int>, advance: Option<Call>): string {
    Join(seq(|turns|, k requires 0 <= k < |turns| => "girar(" + IntToString(turns[k]) + ")"), " + ")
      + (if advance.Some? then " + " + Name(advance.value.op) + "(" + IntToString(advance.value.param) + ")" else "")
  }

  /** The one script line an instruction becomes. */
  function InstructionLine(instr: Instruction): string {
    match instr
    case Simple(op, v) => "    " + PyCall(op, v) + "  # " + Comment(op, v)
    case TurnCombo(turns, advance) => "    " + Join(ComboCalls(turns, advance), "; ") + " # " + ComboComment(turns, advance)
  }

  function Header(name: string): seq<string> {
    [ "# C\U{f3}digo Python generado a partir de UMG++ " + "para el UMG Basic Rover 2.0",
      "# Programa: " + name,
      "",
      "import time",
      "import math",
      "import rover_control",
      "",
      "def main():",
      "    print('Iniciando programa: " + name + "')",
      "    rover = rover_control.Rover()",
      "    rover.initialize()",
      "" ]
  }

  const Footer: seq<string> := [
    "",
    "    rover.finalize()",
    "    print('Programa finalizado')",
    "",
    "if __name__ == '__main__':",
    "    main()" ]

  function InstructionLines(instrs: seq<Instruction>): (lines: seq<string>)
    ensures |lines| == |instrs|
    ensures forall k :: 0 <= k < |instrs| ==> lines[k] == InstructionLine(instrs[k])
    decreases |instrs|
  {
    if |instrs| == 0 then []
    else
      var rest := InstructionLines(instrs[1..]);
      assert forall k :: 1 <= k < |instrs| ==> instrs[k] == instrs[1..][k - 1];
      [InstructionLine(instrs[0])] + rest
  }

  /** The lines of the generated script. */
  function PythonLines(p: Program): seq<string> {
    Header(p.name) + InstructionLines(p.instructions) + Footer
  }

  /** The script: its lines joined with newlines. */
  function PythonCode(p: Program): string {
    Join(PythonLines(p), "\n")
  }

  /** What `generate_python_code` returns: the script and the command list. */
  datatype Generated = Generated(pythonCode: string, esp8266Code: seq<string>)

  function GeneratePythonCode(p: Program): Generated {
    Generated(PythonCode(p), GenerateEsp(p.instructions))
  }

  /** Number text holds nothing but digits and `-`. */
  lemma {:induction false} NumberFree(v: int, c: char)
    requires !IsDigit(c) && c != '-'
    ensures c !in IntToString(v)
  {
  }

  /** Method names are non-empty runs of lower-case letters and `_`. */
  lemma {:induction false} MethodLetters(op: Opcode, v: int)
    ensures |Method(op, v)| > 0
    ensures forall k :: 0 <= k < |Method(op, v)| ==> 'a' <= Method(op, v)[k] <= 'z' || Method(op, v)[k] == '_'
  {
  }

  lemma {:induction false} PyCallSingle(op: Opcode, v: int)
    ensures '\n' !in PyCall(op, v)
  {
    var m, a := Method(op, v), Argument(op, v);
    MethodLetters(op, v);
    assert '\n' !in m;
    if op != Girar {
      NumberFree(v, '\n');
    }
    CallTextSingle(m, a);
  }

  lemma {:induction false} CallTextSingle(m: string, a: string)
    requires '\n' !in m && '\n' !in a
    ensures '\n' !in "rover." + m + "(" + a + ")"
  {
  }

  lemma {:induction false} TurnCommentSingle(t: int)
    ensures '\n' !in TurnComment(t)
  {
  }

  lemma {:induction false} CommentLeadSingle(op: Opcode)
    ensures '\n' !in CommentLead(op)
  {
  }

  lemma {:induction false} CommentTailSingle(op: Opcode)
    ensures '\n' !in CommentTail(op)
  {
  }

  lemma {:induction false} CommentSingle(op: Opcode, v: int)
    ensures '\n' !in Comment(op, v)
  {
    TurnCommentSingle(v);
    CommentLeadSingle(op);
    NumberFree(v, '\n');
    CommentTailSingle(op);
  }

  lemma {:induction false} ComboCommentSingle(turns: seq<int>, advance: Option<Call>)
    ensures '\n' !in ComboComment(turns, advance)
  {
    var notes := seq(|turns|, k requires 0 <= k < |turns| => "girar(" + IntToString(turns[k]) + ")");
    forall k | 0 <= k < |notes|
      ensures '\n' !in notes[k]
    {
      NumberFree(turns[k], '\n');
    }
    JoinFree(notes, " + ", '\n');
    if advance.Some? {
      NumberFree(advance.value.param, '\n');
      NameLetters(advance.value.op);
    }
  }

  lemma {:induction false} ComboCallsSingle(turns: seq<int>, advance: Option<Call>)
    ensures NoneHolds(ComboCalls(turns, advance), '\n')
  {
    var calls := ComboCalls(turns, advance);
    forall k | 0 <= k < |calls|
      ensures '\n' !in calls[k]
    {
      if k < |turns| {
        PyCallSingle(Girar, turns[k]);
      } else {
        PyCallSingle(advance.value.op, advance.value.param);
      }
    }
  }

  /** An instruction's line holds no newline. */
  lemma {:induction false} InstructionLineSingle(instr: Instruction)
    ensures '\n' !in InstructionLine(instr)
  {
    match instr
    case Simple(op, v) =>
      PyCallSingle(op, v);
      CommentSingle(op, v);
    case TurnCombo(turns, advance) =>
      ComboCallsSingle(turns, advance);
      JoinFree(ComboCalls(turns, advance), "; ", '\n');
      ComboCommentSingle(turns, advance);
  }

  /** No line of `lines` holds `c`. */
  predicate NoneHolds(lines: seq<string>, c: char) {
    forall k :: 0 <= k < |lines| ==> c !in lines[k]
  }

  lemma {:induction false} NoneHoldsAppend(a: seq<string>, b: seq<string>, c: char)
    requires NoneHolds(a, c) && NoneHolds(b, c)
    ensures NoneHolds(a + b, c)
  {
    forall k | 0 <= k < |a + b|
      ensures c !in (a + b)[k]
    {
      if k >= |a| {
        assert (a + b)[k] == b[k - |a|];
      }
    }
  }

  lemma {:induction false} HeaderSingle(name: string)
    requires '\n' !in name
    ensures NoneHolds(Header(name), '\n')
  {
    HeaderTopSingle(name);
    HeaderBottomSingle(name);
  }

  lemma {:induction false} HeaderTopSingle(name: string)
    requires '\n' !in name
    ensures forall k :: 0 <= k < 6 ==> '\n' !in Header(name)[k]
  {
    var h := Header(name);
    forall k | 0 <= k < 6
      ensures '\n' !in h[k]
    {
      if k == 0 {
        TitleSingle();
      } else if k == 1 {
        assert h[1] == "# Programa: " + name;
      } else {
        assert h[k] in {"", "import time", "import math", "import rover_control"};
      }
    }
  }

  lemma {:induction false} TitleSingle()
    ensures '\n' !in "# C\U{f3}digo Python generado a partir de UMG++ " + "para el UMG Basic Rover 2.0"
  {
    TitleLeadSingle();
    TitleTailSingle();
    ConcatSingle("# C\U{f3}digo Python generado a partir de UMG++ ", "para el UMG Basic Rover 2.0");
  }

  lemma {:induction false} TitleLeadSingle()
    ensures '\n' !in "# C\U{f3}digo Python generado a partir de UMG++ "
  {
  }

  lemma {:induction false} TitleTailSingle()
    ensures '\n' !in "para el UMG Basic Rover 2.0"
  {
  }

  lemma {:induction false} ConcatSingle(a: string, b: string)
    requires '\n' !in a && '\n' !in b
    ensures '\n' !in a + b
  {
  }

  lemma {:induction false} HeaderBottomSingle(name: string)
    requires '\n' !in name
    ensures forall k :: 6 <= k < 12 ==> '\n' !in Header(name)[k]
  {
    var h := Header(name);
    forall k | 6 <= k < 12
      ensures '\n' !in h[k]
    {
      if k == 8 {
        assert h[8] == "    print('Iniciando programa: " + name + "')";
      } else {
        assert h[k] in {"", "def main():", "    rover = rover_control.Rover()", "    rover.initialize()"};
      }
    }
  }

  lemma {:induction false} FooterSingle()
    ensures NoneHolds(Footer, '\n')
  {
    forall k | 0 <= k < |Footer|
      ensures '\n' !in Footer[k]
    {
      assert Footer[k] in {"", "    rover.finalize()", "    print('Programa finalizado')", "if __name__ == '__main__':", "    main()"};
    }
  }

  lemma {:induction false} InstructionLinesSingle(instrs: seq<Instruction>)
    ensures NoneHolds(InstructionLines(instrs), '\n')
  {
    forall k | 0 <= k < |instrs|
      ensures '\n' !in InstructionLines(instrs)[k]
    {
      InstructionLineSingle(instrs[k]);
    }
  }

  /**
   * The script has twelve header lines, one line per instruction and six
   * footer lines, and splitting it at newlines gives those lines back
   * when the program name holds no newline.
   */
  lemma {:induction false} PythonLinesRoundTrip(p: Program)
    requires '\n' !in p.name
    ensures |PythonLines(p)| == 12 + |p.instructions| + 6
    ensures Split(PythonCode(p), '\n') == PythonLines(p)
  {
    HeaderSingle(p.name);
    InstructionLinesSingle(p.instructions);
    FooterSingle();
    NoneHoldsAppend(Header(p.name), InstructionLines(p.instructions), '\n');
    NoneHoldsAppend(Header(p.name) + InstructionLines(p.instructions), Footer, '\n');
    SplitJoin(PythonLines(p), '\n');
  }
}
