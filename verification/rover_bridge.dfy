/**
 * The web layer's way back from a generated script to rover commands
 * (`procesar_codigo_python`, `extraer_parametro`) and the one-line payload
 * that carries a command list to the rover (`ejecutar_programa_rover_interno`).
 * Each script line is compared with eleven `rover.<method>` substrings in a
 * fixed order, and the first hit gives that line's single command.
 */
module RoverBridge {
  import opened Wrappers
  import opened Text
  import opened Numerals
  import opened Opcodes
  import opened Ast
  import opened CodeGen

  /** What a matched line becomes: `<verb>:<extracted parameter>`, or a fixed turn command. */
  datatype Payload = WithParameter(op: Opcode) | Fixed(command: string)

  /** A line holding `rover.<method>` yields `payload`. */
  datatype Rule = Rule(callee: string, payload: Payload)

  function Pattern(r: Rule): string {
    "rover." + r.callee
  }

  /** The substring tests, in the order the `elif` chain makes them. */
  const Rules: seq<Rule> := [
    Rule("move_wheels", WithParameter(AvanzarVlts)),
    Rule("move_cm", WithParameter(AvanzarCtms)),
    Rule("move_meters", WithParameter(AvanzarMts)),
    Rule("turn_right", Fixed("girar:1")),
    Rule("turn_left", Fixed("girar:-1")),
    Rule("move_straight", Fixed("girar:0")),
    Rule("draw_circle", WithParameter(Circulo)),
    Rule("draw_square", WithParameter(Cuadrado)),
    Rule("rotate", WithParameter(Rotar)),
    Rule("walk", WithParameter(Caminar)),
    Rule("moonwalk", WithParameter(Moonwalk))
  ]

  /**
   * `extraer_parametro`: the stripped text strictly between the first `(`
   * and the first `)`, or `"0"` when there is no `(`, or the first `)` does
   * not come at least two characters after it.
   */
  function ExtractParameter(line: string): string {
    var start := Find(line, '(') + 1;
    var end := Find(line, ')');
    if start > 0 && end > start then Strip(line[start..end]) else "0"
  }

  /** The first rule, in order, whose pattern occurs in the line. */
  function FirstRule(line: string, rules: seq<Rule>): (r: Option<Rule>)
    ensures r.None? <==> forall k :: 0 <= k < |rules| ==> !Contains(line, Pattern(rules[k]))
    ensures r.Some? ==> exists k :: 0 <= k < |rules| && rules[k] == r.value && Contains(line, Pattern(rules[k]))
                          && forall j :: 0 <= j < k ==> !Contains(line, Pattern(rules[j]))
  {
    if |rules| == 0 then None
    else if Contains(line, Pattern(rules[0])) then Some(rules[0])
    else
      var r := FirstRule(line, rules[1..]);
      assert forall k :: 1 <= k < |rules| ==> rules[k] == rules[1..][k - 1];
      if r.Some? then
        var k :| 0 <= k < |rules[1..]| && rules[1..][k] == r.value && Contains(line, Pattern(rules[1..][k]))
                  && forall j :: 0 <= j < k ==> !Contains(line, Pattern(rules[1..][j]));
        assert forall j :: 0 <= j < k + 1 ==> !Contains(line, Pattern(rules[j]));
        r
      else r
  }

  function Apply(r: Rule, line: string): string {
    match r.payload
    case WithParameter(op) => Name(op) + ":" + ExtractParameter(line)
    case Fixed(c) => c
  }

  /** The command one line contributes, if any. */
  function LineCommand(line: string): Option<string> {
    match FirstRule(line, Rules)
    case None => None
    case Some(r) => Some(Apply(r, line))
  }

  /** The results `f` gives the lines, in line order, skipping the lines it gives nothing for. */
  function Collect(f: string -> Option<string>, lines: seq<string>): (cs: seq<string>)
    ensures |cs| <= |lines|
  {
    if |lines| == 0 then []
    else
      (match f(lines[0]) case None => [] case Some(c) => [c]) + Collect(f, lines[1..])
  }

  /** The commands of the lines, in line order, at most one per line. */
  function LineCommands(lines: seq<string>): (cs: seq<string>)
    ensures |cs| <= |lines|
  {
    Collect(LineCommand, lines)
  }

  /** `procesar_codigo_python`: strip the script, split it into lines and collect their commands. */
  function ProcessPythonCode(code: string): (cs: seq<string>)
    ensures |cs| <= |Split(Strip(code), '\n')|
  {
    LineCommands(Split(Strip(code), '\n'))
  }

  /** The payload sent to the rover: refused for an empty list, else `programa:` and the commands joined by commas. */
  function ProgramPayload(commands: seq<string>): (r: Option<string>)
    ensures r.None? <==> commands == []
    ensures r.Some? ==> StartsWith(r.value, "programa:")
  {
    if |commands| == 0 then None else Some("programa:" + Join(commands, ","))
  }

  // ---------------------------------------------------------------------
  // The payload round trip
  // ---------------------------------------------------------------------

  /** The rover can split a payload back into the commands when none holds a comma. */
  lemma {:induction false} PayloadRoundTrip(commands: seq<string>)
    requires |commands| > 0
    requires forall k :: 0 <= k < |commands| ==> ',' !in commands[k]
    ensures ProgramPayload(commands).Some?
    ensures Split(ProgramPayload(commands).value[9..], ',') == commands
  {
    var body := Join(commands, ",");
    assert ("programa:" + body)[9..] == body;
    SplitJoin(commands, ',');
  }

  /** A generated command holds no comma. */
  lemma {:induction false} CommandNoComma(op: Opcode, v: int)
    ensures ',' !in CommandText(op, v)
  {
    NameLetters(op);
    NumberFree(v, ',');
  }

  /** The command list of a program that has commands travels in one payload and is recovered whole. */
  lemma {:induction false} EspPayloadRoundTrip(instrs: seq<Instruction>)
    requires |GenerateEsp(instrs)| > 0
    ensures Split(ProgramPayload(GenerateEsp(instrs)).value[9..], ',') == GenerateEsp(instrs)
  {
    EspNoComma(instrs);
    PayloadRoundTrip(GenerateEsp(instrs));
  }

  lemma {:induction false} EspCommandsNoComma(instr: Instruction)
    ensures NoneHolds(EspCommands(instr), ',')
  {
    match instr
    case Simple(op, v) => CommandNoComma(op, v);
    case TurnCombo(turns, advance) =>
      var cs := EspCommands(instr);
      forall k | 0 <= k < |cs|
        ensures ',' !in cs[k]
      {
        if k < |turns| {
          assert cs[k] == CommandText(Girar, turns[k]);
          CommandNoComma(Girar, turns[k]);
        } else {
          assert cs[k] == CommandText(advance.value.op, advance.value.param);
          CommandNoComma(advance.value.op, advance.value.param);
        }
      }
  }

  lemma {:induction false} EspNoComma(instrs: seq<Instruction>)
    ensures NoneHolds(GenerateEsp(instrs), ',')
    decreases |instrs|
  {
    if |instrs| > 0 {
      EspCommandsNoComma(instrs[0]);
      EspNoComma(instrs[1..]);
      NoneHoldsAppend(EspCommands(instrs[0]), GenerateEsp(instrs[1..]), ',');
    }
  }

  // ---------------------------------------------------------------------
  // Reading one line
  // ---------------------------------------------------------------------

  /** The parameter of `lead(a)tail` is `a` when `lead` has no parenthesis and `a` is unpadded text without `)`. */
  lemma {:induction false} ExtractFromCall(lead: string, a: string, tail: string)
    requires '(' !in lead && ')' !in lead && ')' !in a
    requires |a| > 0 && !IsSpace(a[0]) && !IsSpace(a[|a| - 1])
    ensures ExtractParameter(lead + "(" + a + ")" + tail) == a
  {
    var line := lead + "(" + a + ")" + tail;
    var i, j := |lead|, |lead| + 1 + |a|;
    CallParts(lead, a, tail);
    FindAfterPrefix(lead, '(', a + ")" + tail);
    FindAfterPrefix(lead + "(" + a, ')', tail);
    ExtractBetween(line, i, j);
    StripUnchanged(a);
  }

  lemma {:induction false} CallParts(lead: string, a: string, tail: string)
    ensures var line := lead + "(" + a + ")" + tail;
            && line == lead + ['('] + (a + ")" + tail)
            && line == (lead + "(" + a) + [')'] + tail
            && line[|lead| + 1..|lead| + 1 + |a|] == a
  {
  }

  /** A line with no `(` has the parameter `"0"`, whatever else it holds. */
  lemma {:induction false} ExtractWithoutCall(line: string)
    requires '(' !in line
    ensures ExtractParameter(line) == "0"
  {
  }

  /** An empty argument list `lead()tail` gives `"0"`, not the empty text between the parentheses. */
  lemma {:induction false} ExtractEmptyCall(lead: string, tail: string)
    requires '(' !in lead && ')' !in lead
    ensures ExtractParameter(lead + "()" + tail) == "0"
  {
    var line := lead + "()" + tail;
    assert line == lead + ['('] + (")" + tail);
    assert line == (lead + "(") + [')'] + tail;
    FindAfterPrefix(lead, '(', ")" + tail);
    FindAfterPrefix(lead + "(", ')', tail);
  }

  /** A `)` ahead of the first `(` gives `"0"`, even when a later `)` would close the call. */
  lemma {:induction false} ExtractCloseFirst(lead: string, tail: string)
    requires '(' !in lead && ')' in lead
    ensures ExtractParameter(lead + "(" + tail) == "0"
  {
    var line := lead + "(" + tail;
    assert line == lead + ['('] + tail;
    FindAfterPrefix(lead, '(', tail);
    var k :| 0 <= k < |lead| && lead[k] == ')';
    assert line[k] == ')';
    FindAtMost(line, ')', k);
  }

  /** With the first `(` at `i` and the first `)` further on than `i + 1`, the parameter is the stripped text between them. */
  lemma {:induction false} ExtractBetween(line: string, i: nat, j: nat)
    requires Find(line, '(') == i && Find(line, ')') == j && i + 1 < j <= |line|
    ensures ExtractParameter(line) == Strip(line[i + 1..j])
  {
  }

  /**
   * In a line `lead + "rover." + rest` with no other `.`, the pattern
   * `rover.<c>` occurs exactly when `rest` starts with `c`.
   */
  lemma {:induction false} Anchored(lead: string, rest: string, c: string)
    requires '.' !in lead && '.' !in rest
    ensures Contains(lead + "rover." + rest, "rover." + c) <==> StartsWith(rest, c)
  {
    var line, pat := lead + "rover." + rest, "rover." + c;
    var n := |lead|;
    forall i | 0 <= i <= |line| - |pat| && i != n
      ensures !OccursAt(line, pat, i)
    {
      if i + 5 < n {
        assert line[i + 5] == lead[i + 5];
      } else if i + 5 >= n + 6 {
        assert line[i + 5] == rest[i + 5 - n - 6];
      } else {
        assert line[i + 5] == "rover."[i + 5 - n];
      }
      assert line[i..i + |pat|][5] == line[i + 5] != '.' == pat[5];
    }
    if Contains(line, pat) {
      var i :| 0 <= i <= |line| - |pat| && OccursAt(line, pat, i);
      assert i == n;
      assert rest[..|c|] == line[n + 6..n + 6 + |c|] == pat[6..];
    }
    if StartsWith(rest, c) {
      assert line[n..n + |pat|] == "rover." + rest[..|c|];
      assert OccursAt(line, pat, n);
    }
  }

  /**
   * A line `pre + "." + post` with no other `.`, where `post` does not open
   * with the first letter of any method, holds none of the patterns.
   */
  lemma {:induction false} SingleDotNoRule(pre: string, post: string)
    requires '.' !in pre && '.' !in post
    requires |post| > 0 && forall k :: 0 <= k < |Rules| ==> Rules[k].callee[0] != post[0]
    ensures FirstRule(pre + "." + post, Rules).None?
  {
    var line := pre + "." + post;
    forall k | 0 <= k < |Rules|
      ensures !Contains(line, Pattern(Rules[k]))
    {
      SingleDotNoPattern(pre, post, Rules[k].callee);
    }
    NoPatternNoRule(line);
  }

  lemma {:induction false} NoPatternNoRule(line: string)
    requires forall k :: 0 <= k < |Rules| ==> !Contains(line, Pattern(Rules[k]))
    ensures FirstRule(line, Rules).None?
  {
  }

  lemma {:induction false} SingleDotNoPattern(pre: string, post: string, c: string)
    requires '.' !in pre && '.' !in post
    requires |post| > 0 && |c| > 0 && c[0] != post[0]
    ensures !Contains(pre + "." + post, "rover." + c)
  {
    var line, pat := pre + "." + post, "rover." + c;
    forall i | 0 <= i <= |line| - |pat|
      ensures !OccursAt(line, pat, i)
    {
      if i + 5 < |pre| {
        assert line[i..i + |pat|][5] == pre[i + 5] != '.' == pat[5];
      } else if i + 5 > |pre| {
        assert line[i..i + |pat|][5] == post[i + 5 - |pre| - 1] != '.' == pat[5];
      } else {
        assert line[i..i + |pat|][6] == post[0] != c[0] == pat[6];
      }
    }
  }

  /** A line without `.` holds none of the patterns. */
  lemma {:induction false} NoDotNoRule(line: string)
    requires '.' !in line
    ensures FirstRule(line, Rules).None?
  {
    forall k | 0 <= k < |Rules|
      ensures !Contains(line, Pattern(Rules[k]))
    {
      assert Pattern(Rules[k])[5] == '.';
      MissingChar(line, Pattern(Rules[k]), '.');
    }
  }

  /**
   * Text `c` that a call `m(...)` cannot start with: `c` runs past the name
   * into something other than `(`, or differs from the name at one of the
   * positions 0, 2 or 5 (which tells every pair of method names apart).
   */
  predicate Apart(m: string, c: string) {
    || (|c| > |m| && c[|m|] != '(')
    || (0 < |c| <= |m| && (m[0] != c[0] || (|c| > 2 && m[2] != c[2]) || (|c| > 5 && m[5] != c[5])))
  }

  lemma {:induction false} ApartNoMatch(m: string, rest: string, c: string)
    requires Apart(m, c)
    ensures !StartsWith(m + "(" + rest, c)
  {
    var t := m + "(" + rest;
    if |c| > |t| {
    } else if |c| > |m| {
      assert t[..|c|][|m|] == '(' != c[|m|];
    } else if m[0] != c[0] {
      assert t[..|c|][0] == m[0];
    } else if |c| > 2 && m[2] != c[2] {
      assert t[..|c|][2] == m[2];
    } else {
      assert t[..|c|][5] == m[5];
    }
  }

  /**
   * A line spelling the call `rover.m(arg)`, with no other `.`, picks rule
   * `j` when that rule's method is `m` and every earlier one is apart from it.
   */
  lemma {:induction false} CallLineRule(lead: string, m: string, arg: string, tail: string, j: nat)
    requires '.' !in lead && '.' !in m && '.' !in arg && '.' !in tail
    requires j < |Rules| && Rules[j].callee == m
    requires forall i :: 0 <= i < j ==> Apart(m, Rules[i].callee)
    ensures FirstRule(lead + "rover." + (m + "(" + (arg + ")" + tail)), Rules) == Some(Rules[j])
  {
    var rest := arg + ")" + tail;
    var line := lead + "rover." + (m + "(" + rest);
    EarlierRulesMiss(lead, m, rest, j);
    OwnRuleHits(lead, m, rest);
    FirstMatchingRule(line, Rules, j);
  }

  lemma {:induction false} EarlierRulesMiss(lead: string, m: string, rest: string, j: nat)
    requires '.' !in lead && '.' !in m && '.' !in rest
    requires j <= |Rules| && forall i :: 0 <= i < j ==> Apart(m, Rules[i].callee)
    ensures forall i :: 0 <= i < j ==> !Contains(lead + "rover." + (m + "(" + rest), Pattern(Rules[i]))
  {
    forall i | 0 <= i < j
      ensures !Contains(lead + "rover." + (m + "(" + rest), Pattern(Rules[i]))
    {
      Anchored(lead, m + "(" + rest, Rules[i].callee);
      ApartNoMatch(m, rest, Rules[i].callee);
    }
  }

  lemma {:induction false} OwnRuleHits(lead: string, m: string, rest: string)
    requires '.' !in lead && '.' !in m && '.' !in rest
    ensures Contains(lead + "rover." + (m + "(" + rest), "rover." + m)
  {
    Anchored(lead, m + "(" + rest, m);
    assert (m + "(" + rest)[..|m|] == m;
  }

  /** The rule at `j` is picked when its pattern occurs and no earlier one does. */
  lemma {:induction false} FirstMatchingRule(line: string, rules: seq<Rule>, j: nat)
    requires j < |rules| && Contains(line, Pattern(rules[j]))
    requires forall i :: 0 <= i < j ==> !Contains(line, Pattern(rules[i]))
    ensures FirstRule(line, rules) == Some(rules[j])
  {
    var r := FirstRule(line, rules);
    var k :| 0 <= k < |rules| && rules[k] == r.value && Contains(line, Pattern(rules[k]))
              && forall i :: 0 <= i < k ==> !Contains(line, Pattern(rules[i]));
    if k < j {
    } else if k > j {
    }
  }

  /** The rule that reads back the method of verb `op`. */
  function RuleIndex(op: Opcode): nat {
    match op
    case AvanzarVlts => 0
    case AvanzarCtms => 1
    case AvanzarMts => 2
    case Girar => 3
    case Circulo => 6
    case Cuadrado => 7
    case Rotar => 8
    case Caminar => 9
    case Moonwalk => 10
  }

  /** Every verb but `girar` has its own method, which no earlier rule can match. */
  lemma {:induction false} MethodRule(op: Opcode, v: int)
    requires op != Girar
    ensures RuleIndex(op) < |Rules| && Rules[RuleIndex(op)] == Rule(Method(op, v), WithParameter(op))
    ensures forall i :: 0 <= i < RuleIndex(op) ==> Apart(Method(op, v), Rules[i].callee)
  {
  }

  /**
   * A line spelling `rover.m(a)` with no other `.` and no parenthesis
   * before the argument reads back as the command of rule `j`, whose
   * parameter is the argument text.
   */
  lemma {:induction false} ParameterCallLine(lead: string, m: string, a: string, tail: string, j: nat)
    requires '.' !in lead && '.' !in m && '.' !in a && '.' !in tail
    requires '(' !in lead && '(' !in m && ')' !in lead && ')' !in m && ')' !in a
    requires |a| > 0 && !IsSpace(a[0]) && !IsSpace(a[|a| - 1])
    requires j < |Rules| && Rules[j].callee == m && Rules[j].payload.WithParameter?
    requires forall i :: 0 <= i < j ==> Apart(m, Rules[i].callee)
    ensures LineCommand(lead + "rover." + (m + "(" + (a + ")" + tail))) == Some(Name(Rules[j].payload.op) + ":" + a)
  {
    CallLineRule(lead, m, a, tail, j);
    CallShape(lead, m, a, tail);
    FixedTextPlain();
    ExtractFromCall(lead + "rover." + m, a, tail);
  }

  /** The call line regrouped around its parentheses. */
  lemma {:induction false} CallShape(lead: string, m: string, a: string, tail: string)
    ensures lead + "rover." + (m + "(" + (a + ")" + tail)) == (lead + "rover." + m) + "(" + a + ")" + tail
  {
  }

  /** The fixed text around a plain call holds no `.` and no parenthesis outside the call's own. */
  lemma {:induction false} FixedTextPlain()
    ensures '(' !in "rover." && ')' !in "rover."
    ensures '.' !in "    " && '(' !in "    " && ')' !in "    " && '.' !in "  # "
  {
  }

  /** The script line of a plain call, regrouped around the `rover.` it holds. */
  lemma {:induction false} SimpleLineShape(m: string, a: string, c: string)
    ensures "    " + ("rover." + m + "(" + a + ")") + "  # " + c == "    " + "rover." + (m + "(" + (a + ")" + ("  # " + c)))
  {
  }

  /** The line of a plain call reads back as that call's command. */
  lemma {:induction false} SimpleLineCommand(op: Opcode, v: int)
    requires op != Girar
    ensures LineCommand(InstructionLine(Simple(op, v))) == Some(CommandText(op, v))
  {
    var m, p, c := Method(op, v), IntToString(v), Comment(op, v);
    assert PyCall(op, v) == "rover." + m + "(" + p + ")";
    assert InstructionLine(Simple(op, v)) == "    " + PyCall(op, v) + "  # " + c;
    SimpleLineShape(m, p, c);
    SimpleCallReads(op, v);
  }

  /** The pieces of a plain call's line meet what a parameter call needs to read back. */
  lemma {:induction false} SimpleCallReads(op: Opcode, v: int)
    requires op != Girar
    ensures LineCommand("    " + "rover." + (Method(op, v) + "(" + (IntToString(v) + ")" + ("  # " + Comment(op, v)))))
         == Some(CommandText(op, v))
  {
    var m, p, c := Method(op, v), IntToString(v), Comment(op, v);
    MethodLetters(op, v);
    NumberFree(v, '.');
    NumberFree(v, '(');
    NumberFree(v, ')');
    CommentDotFree(op, v);
    MethodRule(op, v);
    FixedTextPlain();
    ParameterCallLine("    ", m, p, "  # " + c, RuleIndex(op));
  }

  /** A plain call's comment holds no `.`. */
  lemma {:induction false} CommentDotFree(op: Opcode, v: int)
    requires op != Girar
    ensures '.' !in Comment(op, v)
  {
    CommentLeadDotFree(op);
    NumberFree(v, '.');
    CommentTailDotFree(op);
  }

  lemma {:induction false} CommentLeadDotFree(op: Opcode)
    ensures '.' !in CommentLead(op)
  {
  }

  lemma {:induction false} CommentTailDotFree(op: Opcode)
    ensures '.' !in CommentTail(op)
  {
  }

  // ---------------------------------------------------------------------
  // Reading a whole script
  // ---------------------------------------------------------------------

  lemma {:induction false} CollectAppend(f: string -> Option<string>, a: seq<string>, b: seq<string>)
    ensures Collect(f, a + b) == Collect(f, a) + Collect(f, b)
    decreases |a|
  {
    if |a| == 0 {
      assert a + b == b;
    } else {
      assert (a + b)[1..] == a[1..] + b;
      CollectAppend(f, a[1..], b);
    }
  }

  lemma {:induction false} LineCommandsAppend(a: seq<string>, b: seq<string>)
    ensures LineCommands(a + b) == LineCommands(a) + LineCommands(b)
  {
    CollectAppend(LineCommand, a, b);
  }

  lemma {:induction false} CollectNone(f: string -> Option<string>, lines: seq<string>)
    requires forall k :: 0 <= k < |lines| ==> f(lines[k]).None?
    ensures Collect(f, lines) == []
    decreases |lines|
  {
    if |lines| > 0 {
      assert forall k :: 1 <= k < |lines| ==> lines[k] == lines[1..][k - 1];
      CollectNone(f, lines[1..]);
    }
  }

  /** Lines that match no rule contribute no command. */
  lemma {:induction false} LineCommandsNone(lines: seq<string>)
    requires forall k :: 0 <= k < |lines| ==> FirstRule(lines[k], Rules).None?
    ensures LineCommands(lines) == []
  {
    CollectNone(LineCommand, lines);
  }

  /** A program name is an identifier: letters, digits and `_`. */
  predicate IdentifierName(name: string) {
    forall k :: 0 <= k < |name| ==> IsIdentChar(name[k])
  }

  /** An identifier holds neither a line break nor a dot. */
  lemma {:induction false} NameSingleLine(name: string)
    requires IdentifierName(name)
    ensures '\n' !in name && '.' !in name
  {
  }

  lemma {:induction false} HeaderTopNoCommand(name: string)
    requires IdentifierName(name)
    ensures forall k :: 0 <= k < 6 ==> FirstRule(Header(name)[k], Rules).None?
  {
    var h := Header(name);
    NameSingleLine(name);
    forall k | 0 <= k < 6
      ensures FirstRule(h[k], Rules).None?
    {
      if k == 0 {
        TitleNoRule(h[0]);
      } else if k == 1 {
        NameLineNoRule(h[1], name);
      } else {
        PlainLineNoRule(h[k]);
      }
    }
  }

  lemma {:induction false} HeaderBottomNoCommand(name: string)
    requires IdentifierName(name)
    ensures forall k :: 6 <= k < 12 ==> FirstRule(Header(name)[k], Rules).None?
  {
    var h := Header(name);
    NameSingleLine(name);
    forall k | 6 <= k < 12
      ensures FirstRule(h[k], Rules).None?
    {
      if k == 8 {
        NameLineNoRule(h[8], name);
      } else if k == 9 {
        RoverLineNoRule(h[9]);
      } else if k == 10 {
        CallOnRoverNoRule(h[10], "initialize()");
      } else {
        PlainLineNoRule(h[k]);
      }
    }
  }

  lemma {:induction false} FooterNoCommand()
    ensures forall k :: 0 <= k < |Footer| ==> FirstRule(Footer[k], Rules).None?
  {
    forall k | 0 <= k < |Footer|
      ensures FirstRule(Footer[k], Rules).None?
    {
      if k == 1 {
        CallOnRoverNoRule(Footer[1], "finalize()");
      } else if k == 2 {
        PrintDoneNoRule(Footer[2]);
      } else if k == 4 {
        MainGuardNoRule(Footer[4]);
      } else {
        FooterLineNoRule(Footer[k]);
      }
    }
  }

  /** The fixed header lines without a `.` give no command. */
  lemma {:induction false} PlainLineNoRule(line: string)
    requires line in {"", "import time", "import math", "import rover_control", "def main():"}
    ensures FirstRule(line, Rules).None?
  {
    assert '.' !in line;
    NoDotNoRule(line);
  }

  /** The fixed footer lines without a `.` give no command. */
  lemma {:induction false} FooterLineNoRule(line: string)
    requires line in {"", "    main()"}
    ensures FirstRule(line, Rules).None?
  {
    assert '.' !in line;
    NoDotNoRule(line);
  }

  lemma {:induction false} PrintDoneNoRule(line: string)
    requires line == "    print('Programa finalizado')"
    ensures FirstRule(line, Rules).None?
  {
    assert '.' !in line;
    NoDotNoRule(line);
  }

  lemma {:induction false} MainGuardNoRule(line: string)
    requires line == "if __name__ == '__main__':"
    ensures FirstRule(line, Rules).None?
  {
    assert '.' !in line;
    NoDotNoRule(line);
  }



  /** `rover = rover_control.Rover()`: its one `.` is not followed by a method of the rover. */
  lemma {:induction false} RoverLineNoRule(line: string)
    requires line == "    rover = rover_control.Rover()"
    ensures FirstRule(line, Rules).None?
  {
    assert line == "    rover = rover_control" + "." + "Rover()";
    SingleDotNoRule("    rover = rover_control", "Rover()");
  }

  /** `rover.initialize()` and `rover.finalize()` call no method of the rules. */
  lemma {:induction false} CallOnRoverNoRule(line: string, call: string)
    requires call in {"initialize()", "finalize()"} && line == "    rover." + call
    ensures FirstRule(line, Rules).None?
  {
    assert line == "    rover" + "." + call;
    assert '.' !in call && call[0] in {'i', 'f'};
    SingleDotNoRule("    rover", call);
  }

  /** The title line's only `.` is the one in the version number. */
  lemma {:induction false} TitleNoRule(line: string)
    requires line == "# C\U{f3}digo Python generado a partir de UMG++ " + "para el UMG Basic Rover 2.0"
    ensures FirstRule(line, Rules).None?
  {
    var a, b := "# C\U{f3}digo Python generado a partir de UMG++ ", "para el UMG Basic Rover 2";
    assert line == (a + b) + "." + "0";
    TitleLeadDotFree();
    assert '.' !in b;
    SingleDotNoRule(a + b, "0");
  }

  lemma {:induction false} TitleLeadDotFree()
    ensures '.' !in "# C\U{f3}digo Python generado a partir de UMG++ "
  {
  }

  /** The two lines that show the program name give no command. */
  lemma {:induction false} NameLineNoRule(line: string, name: string)
    requires '.' !in name
    requires line == "# Programa: " + name || line == "    print('Iniciando programa: " + name + "')"
    ensures FirstRule(line, Rules).None?
  {
    assert '.' !in line;
    NoDotNoRule(line);
  }


  /** Neither header nor footer line gives a command. */
  lemma {:induction false} FrameNoCommands(name: string)
    requires IdentifierName(name)
    ensures LineCommands(Header(name)) == []
    ensures LineCommands(Footer) == []
  {
    HeaderTopNoCommand(name);
    HeaderBottomNoCommand(name);
    FooterNoCommand();
    LineCommandsNone(Header(name));
    LineCommandsNone(Footer);
  }

  /** The line of one plain call gives exactly that call's ESP8266 command. */
  lemma {:induction false} SimpleLineCommands(op: Opcode, v: int)
    requires op != Girar
    ensures LineCommands([InstructionLine(Simple(op, v))]) == EspCommands(Simple(op, v))
  {
    SimpleLineCommand(op, v);
  }

  /** The instruction lines of plain calls give exactly the ESP8266 commands of those calls. */
  lemma {:induction false} InstructionLinesCommands(instrs: seq<Instruction>)
    requires forall k :: 0 <= k < |instrs| ==> instrs[k].Simple? && instrs[k].op != Girar
    ensures LineCommands(InstructionLines(instrs)) == GenerateEsp(instrs)
    decreases |instrs|
  {
    if |instrs| > 0 {
      LineCommandsAppend([InstructionLine(instrs[0])], InstructionLines(instrs[1..]));
      SimpleLineCommands(instrs[0].op, instrs[0].param);
      InstructionLinesCommands(instrs[1..]);
    }
  }

  /** The generated script neither starts nor ends with whitespace, so stripping leaves it whole. */
  lemma {:induction false} StripScript(p: Program)
    ensures Strip(PythonCode(p)) == PythonCode(p)
  {
    var lines := PythonLines(p);
    assert |lines| == 18 + |p.instructions|;
    TitleFirstChar(lines[0]);
    JoinFirstChar(lines, "\n");
    assert lines[|lines| - 1] == "    main()";
    JoinLastChar(lines, "\n");
    StripUnchanged(PythonCode(p));
  }

  lemma {:induction false} TitleFirstChar(line: string)
    requires line == "# C\U{f3}digo Python generado a partir de UMG++ " + "para el UMG Basic Rover 2.0"
    ensures |line| > 0 && line[0] == '#'
  {
  }

  /** A script whose lines are split the way the generator joined them: the header, the instruction lines, the footer. */
  lemma {:induction false} ScriptLines(p: Program)
    requires IdentifierName(p.name)
    ensures Split(Strip(PythonCode(p)), '\n') == Header(p.name) + InstructionLines(p.instructions) + Footer
    ensures ProcessPythonCode(PythonCode(p)) == LineCommands(InstructionLines(p.instructions))
  {
    assert '\n' !in p.name;
    StripScript(p);
    PythonLinesRoundTrip(p);
    var h, b := Header(p.name), InstructionLines(p.instructions);
    LineCommandsAppend(h + b, Footer);
    LineCommandsAppend(h, b);
    FrameNoCommands(p.name);
  }

  /**
   * For a program of plain calls, reading the generated Python script back
   * line by line gives exactly the commands generated for the ESP8266.
   */
  lemma {:induction false} PlainScriptRoundTrip(p: Program)
    requires IdentifierName(p.name)
    requires forall k :: 0 <= k < |p.instructions| ==> p.instructions[k].Simple? && p.instructions[k].op != Girar
    ensures ProcessPythonCode(PythonCode(p)) == GenerateEsp(p.instructions)
  {
    ScriptLines(p);
    InstructionLinesCommands(p.instructions);
  }

  /** Reading the script back gives at most one command per instruction. */
  lemma {:induction false} ScriptCommandCount(p: Program)
    requires IdentifierName(p.name)
    ensures |ProcessPythonCode(PythonCode(p))| <= |p.instructions|
  {
    ScriptLines(p);
  }

  /**
   * A well-shaped program with a combination of two or more turns loses
   * commands when its script is read back: fewer commands reach the rover
   * than the ESP8266 code holds.
   */
  lemma {:induction false} CombinationLosesCommands(p: Program, k: nat)
    requires IdentifierName(p.name) && WellShaped(p)
    requires k < |p.instructions| && p.instructions[k].TurnCombo? && |p.instructions[k].turns| >= 2
    ensures |ProcessPythonCode(PythonCode(p))| < |GenerateEsp(p.instructions)|
    ensures ProcessPythonCode(PythonCode(p)) != GenerateEsp(p.instructions)
  {
    ScriptCommandCount(p);
    EspCount(p.instructions, k);
  }

  /** Every instruction gives at least one ESP8266 command, and a combination of `n` turns gives at least `n`. */
  lemma {:induction false} EspCount(instrs: seq<Instruction>, k: nat)
    requires forall j :: 0 <= j < |instrs| ==> WellShapedInstruction(instrs[j])
    requires k < |instrs| && instrs[k].TurnCombo?
    ensures |GenerateEsp(instrs)| >= |instrs| - 1 + |instrs[k].turns|
    decreases |instrs|
  {
    if k > 0 {
      EspCount(instrs[1..], k - 1);
    } else {
      EspAtLeast(instrs[1..]);
    }
  }

  lemma {:induction false} EspAtLeast(instrs: seq<Instruction>)
    requires forall k :: 0 <= k < |instrs| ==> WellShapedInstruction(instrs[k])
    ensures |GenerateEsp(instrs)| >= |instrs|
    decreases |instrs|
  {
    if |instrs| > 0 {
      EspAtLeast(instrs[1..]);
    }
  }
}
