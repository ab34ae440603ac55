/**
 * `compile`: the four stages run in order, and the first stage that reports
 * errors ends the compilation with that stage's errors.  `transpile_to_python`
 * builds a fresh compiler and calls `compile`; the compiler keeps no state
 * between calls, so it is this same function.
 */
module Pipeline {
  import opened Wrappers
  import opened Text
  import opened Lexer
  import opened Ast
  import opened Grammar
  import opened Parser
  import opened Semantics
  import opened CodeGen
  import opened RoverBridge

  /** The outcome of a compilation: the failing stage with its errors, or the tree and both generated programs. */
  datatype CompileResult =
    | LexicalFailure(lexErrors: seq<LexError>)
    | SyntaxFailure(syntaxErrors: seq<SyntaxError>)
    | SemanticFailure(semanticErrors: seq<SemanticError>)
    | Success(ast: Program, pythonCode: string, esp8266Code: seq<string>)

  /**
   * `compile`.  A program text that is all whitespace yields no tokens at
   * all, and `parse` then reads `tokens[-1]` of an empty list and raises
   * `IndexError`; such a text is outside the domain.
   */
  function Compile(code: string): (r: CompileResult)
    requires !AllSpace(code)
    ensures r.LexicalFailure? ==> r.lexErrors != [] && forall j :: 0 <= j < |r.lexErrors| ==> ErrorLocatedIn(Lines(code), 1, r.lexErrors[j])
    ensures r.SyntaxFailure? ==> r.syntaxErrors != []
    ensures r.SemanticFailure? ==> r.semanticErrors != []
    ensures r.Success? ==> ProgramAt(Tokenize(code).0, r.ast) && ProgramValid(r.ast)
    ensures r.Success? ==> r.pythonCode == PythonCode(r.ast) && r.esp8266Code == GenerateEsp(r.ast.instructions)
    ensures !r.LexicalFailure? ==> Tokenize(code).1 == []
    ensures Readable(Tokenize(code).0)
    ensures r.LexicalFailure? ==> r.lexErrors == Tokenize(code).1
    ensures r.SyntaxFailure? ==> r.syntaxErrors == Parse(Tokenize(code).0).1
    ensures r.SemanticFailure? ==> r.semanticErrors == Analyze(Parse(Tokenize(code).0).0)
  {
    LexerTokensReadable(Tokenize(code).0);
    var (tokens, lexErrors) := Tokenize(code);
    if lexErrors != [] then LexicalFailure(lexErrors)
    else
      var (ast, parseErrors) := Parse(tokens);
      if parseErrors != [] then SyntaxFailure(parseErrors)
      else
        var semanticErrors := Analyze(ast);
        if semanticErrors != [] then SemanticFailure(semanticErrors)
        else
          var g := GeneratePythonCode(ast.value);
          Success(ast.value, g.pythonCode, g.esp8266Code)
  }

  // ---------------------------------------------------------------------
  // Which stage fails, stated over the grammar and the rules
  // ---------------------------------------------------------------------

  /** A compilation succeeds with tree `p` exactly when the source lexes cleanly, its tokens spell `p`, and `p` keeps every rule. */
  lemma {:induction false} CompileSucceeds(code: string, p: Program)
    requires !AllSpace(code)
    ensures (Compile(code).Success? && Compile(code).ast == p)
        <==> (Tokenize(code).1 == [] && ProgramAt(Tokenize(code).0, p) && ProgramValid(p))
  {
    var ts := Tokenize(code).0;
    if Tokenize(code).1 == [] && ProgramAt(ts, p) && ProgramValid(p) {
      LexerTokensReadable(ts);
      ParseCorrect(ts, p);
    }
  }

  /** The syntax stage fails exactly when the source lexes cleanly but its tokens spell no program. */
  lemma {:induction false} CompileSyntaxFailure(code: string)
    requires !AllSpace(code)
    ensures Compile(code).SyntaxFailure?
        <==> (Tokenize(code).1 == [] && forall p :: !ProgramAt(Tokenize(code).0, p))
  {
    var ts := Tokenize(code).0;
    if Tokenize(code).1 == [] {
      LexerTokensReadable(ts);
      ParseRejects(ts);
      SyntaxStage(code);
    }
  }

  /** Past a clean lexical stage, the syntax stage fails exactly when the parser reports errors. */
  lemma {:induction false} SyntaxStage(code: string)
    requires !AllSpace(code) && Tokenize(code).1 == [] && |Tokenize(code).0| > 0 && Readable(Tokenize(code).0)
    ensures Compile(code).SyntaxFailure? <==> Parse(Tokenize(code).0).1 != []
  {
  }

  /** The semantic stage fails exactly when the tokens spell a program that breaks a parameter rule. */
  lemma {:induction false} CompileSemanticFailure(code: string)
    requires !AllSpace(code)
    ensures Compile(code).SemanticFailure?
        <==> (Tokenize(code).1 == [] && exists p :: ProgramAt(Tokenize(code).0, p) && !ProgramValid(p))
  {
    var ts := Tokenize(code).0;
    if Tokenize(code).1 == [] {
      LexerTokensReadable(ts);
      if p :| ProgramAt(ts, p) && !ProgramValid(p) {
        ParseCorrect(ts, p);
      }
      if Compile(code).SemanticFailure? {
        var p := Parse(ts).0.value;
        assert ProgramAt(ts, p);
      }
    }
  }

  /** Every semantic error names an instruction of the spelled program. */
  lemma {:induction false} SemanticErrorsLocated(code: string)
    requires !AllSpace(code) && Compile(code).SemanticFailure?
    ensures exists p :: ProgramAt(Tokenize(code).0, p) &&
              forall j :: 0 <= j < |Compile(code).semanticErrors| ==> Compile(code).semanticErrors[j].instruction in p.instructions
  {
    var ts := Tokenize(code).0;
    LexerTokensReadable(ts);
    var p := Parse(ts).0.value;
    assert ProgramAt(ts, p);
  }

  // ---------------------------------------------------------------------
  // What a successful compilation delivers
  // ---------------------------------------------------------------------

  /** The program name is the identifier token's text, so it has only letters, digits and `_`. */
  lemma {:induction false} SpelledName(ts: seq<Token>, p: Program)
    requires forall k :: 0 <= k < |ts| ==> ValidToken(ts[k])
    requires ProgramAt(ts, p)
    ensures IdentifierName(p.name)
  {
    assert ValidToken(ts[1]);
  }

  /** The tree of a successful compilation has an identifier for a name and a well-shaped body. */
  lemma {:induction false} CompiledFrom(code: string)
    requires !AllSpace(code) && Compile(code).Success?
    ensures IdentifierName(Compile(code).ast.name) && WellShaped(Compile(code).ast)
  {
    var r := Compile(code);
    SpelledName(Tokenize(code).0, r.ast);
    SpelledProgramWellShaped(Tokenize(code).0, r.ast);
  }

  /**
   * A successful compilation's Python script splits back into its header,
   * instruction and footer lines, and every ESP8266 command decodes to the
   * matching call of the tree, in program order.
   */
  lemma {:induction false} CompiledOutputs(code: string)
    requires !AllSpace(code) && Compile(code).Success?
    ensures var r := Compile(code);
            && Split(r.pythonCode, '\n') == Header(r.ast.name) + InstructionLines(r.ast.instructions) + Footer
            && DecodesTo(r.esp8266Code, ProgramCalls(r.ast.instructions))
  {
    CompiledFrom(code);
    ProgramOutputs(Compile(code).ast);
  }

  lemma {:induction false} ProgramOutputs(p: Program)
    requires IdentifierName(p.name) && WellShaped(p)
    ensures Split(PythonCode(p), '\n') == Header(p.name) + InstructionLines(p.instructions) + Footer
    ensures DecodesTo(GenerateEsp(p.instructions), ProgramCalls(p.instructions))
  {
    NameSingleLine(p.name);
    PythonLinesRoundTrip(p);
    GenerateEspDecodes(p.instructions);
  }

  /**
   * For a compiled program of plain calls, the web layer reading the Python
   * script back sends the rover exactly the generated ESP8266 commands, and
   * the rover can split the payload back into them.
   */
  lemma {:induction false} CompiledPlainProgramDelivered(code: string)
    requires !AllSpace(code) && Compile(code).Success?
    requires forall k :: 0 <= k < |Compile(code).ast.instructions| ==> Compile(code).ast.instructions[k].Simple?
    ensures ProcessPythonCode(Compile(code).pythonCode) == Compile(code).esp8266Code
    ensures |Compile(code).esp8266Code| > 0
        ==> Split(ProgramPayload(Compile(code).esp8266Code).value[9..], ',') == Compile(code).esp8266Code
  {
    CompiledFrom(code);
    var p := Compile(code).ast;
    PlainScriptRoundTrip(p);
    if |GenerateEsp(p.instructions)| > 0 {
      EspPayloadRoundTrip(p.instructions);
    }
  }
}
