# UMG++ compiler and rover bridge, modelled in Dafny

UMG++ is a small language for driving the UMG Basic Rover 2.0. A program
looks like `PROGRAM name BEGIN ... END.`. Each instruction is a call such as
`avanzar_mts(2);` or a turn combination such as
`girar(1) + girar(-1) + avanzar_ctms(30);`.

`UMGPPTranspiler` compiles a program in four stages. The first stage that
reports errors ends the compilation:

- **Lexer.** Regular expressions are tried in a fixed order at every position.
- **Parser.** A recursive-descent parser that recovers at the next `;`.
- **Semantic check.** Checks each verb's parameter rules.
- **Code generation.** Produces two outputs: a Python script for the rover
  library, and a flat list of `verb:param` commands for the ESP8266 firmware.

The web layer also reads a generated script back into commands, one per
line (`procesar_codigo_python`, `extraer_parametro`). It sends a command list
to the rover as one `programa:`-prefixed, comma-separated payload.

The model is a set of pure functions over immutable datatypes, one module
per stage:

| module | models |
|---|---|
| `Wrappers` | `Option` |
| `Text` | Python's `split`, `join`, `strip`, `find`, `in`, and the character classes |
| `Numerals` | `str(int)` and `int(str)` on numerals |
| `Opcodes` | the nine verbs and their spellings |
| `Lexer` | `tokenize` |
| `Ast` | the syntax tree |
| `Grammar` | a declarative reading of the token grammar |
| `Parser` | `parse` |
| `Semantics` | `analyze_semantics` |
| `CodeGen` | both generators |
| `Pipeline` | `compile` / `transpile_to_python` |
| `RoverBridge` | the script reader and the payload |

Every operation is paired with an independent statement of what it should
do, and an all-inputs lemma connects the two:

- The lexer's lexemes tile every line, and each lexeme is the first pattern
  that matches at its start. Every non-whitespace match becomes a token and
  every unrecognised character an error, nothing else is output, and the
  output is in reading order (`Lexer.Tokenize`).
- An instruction that fails to parse costs only its own error: the loop
  resumes past the next `;` and reads the rest (`Parser.BodyRecovers`).
- The parser accepts a token list exactly when it spells a program in
  `Grammar`, and returns that program (`Parser.ParseCorrect`,
  `Parser.ParseRejects`).
- The compiler fails at exactly the stage that the grammar and the parameter
  rules predict.
- The ESP8266 commands decode back to the program's calls.
- The Python script splits back into its lines.
- For programs of plain calls, the web layer recovers exactly the ESP8266
  commands from the script.
- For programs with a combination of two or more turns, the web layer
  provably loses commands, because it takes one command per line.

Syntax and semantic errors are datatypes. Their message texts are the
`Message` functions. Lexical errors carry the character, line and column,
and their message is `Lexer.Message`.

## Model

| member | source | states |
|---|---|---|
| Opcodes.FromNameSpelled | roverapp/transpiler.py:17 | a text is read as a verb exactly when it is one of the nine names in the FUNCTION pattern |
| Opcodes.FromNameOfName | roverapp/transpiler.py:17 | every verb's name is in the FUNCTION pattern and reads back as that same verb, so no two verbs share a name |
| Text.Split | roverapp/transpiler.py:43 | `str.split('\n')` gives at least one piece, no piece holds the separator, and joining the pieces with it gives the text back |
| Text.SplitJoin | roverapp/transpiler.py:415 | splitting a `"\n".join` of separator-free pieces gives the pieces back |
| Text.Find | roverapp/views_rover.py:419-420 | `find` gives -1 exactly when the character is absent, and otherwise its first index |
| Text.Strip | roverapp/views_rover.py:423 | `strip` keeps the slice between the maximal leading and trailing whitespace runs, and the result starts and ends with no whitespace |
| Numerals.IntToString | roverapp/transpiler.py:442 | the printed parameter is a numeral (`-?digits`) that `int()` reads back as the same value; it starts with `-` exactly when the value is negative, and its digits have no leading zero unless they are just `0` |
| Numerals.NumeralRoundTrip | roverapp/transpiler.py:174 | a NUMBER text already in the form `str()` prints (no superfluous leading zero, no `-0`) is printed back unchanged after `int()` reads it |
| Lexer.WordMatch | roverapp/transpiler.py:16-17 | the KEYWORD and FUNCTION patterns match a listed word that ends at a word boundary; no match means no listed word at the start ends at a boundary |
| Lexer.IdentifierMatch | roverapp/transpiler.py:18 | an identifier match is a letter or `_` followed by identifier characters, ending at a word boundary; it fails on an identifier start only where a non-ASCII word character follows |
| Lexer.NumberMatch | roverapp/transpiler.py:19 | `-?\d+` matches a maximal numeral, and matches nothing exactly when the text starts with neither a digit nor `-` followed by a digit |
| Lexer.FirstMatch | roverapp/transpiler.py:50-67 | the first pattern in list order that matches wins; none wins exactly when every pattern fails |
| Lexer.LexemeAt | roverapp/transpiler.py:50-75 | one turn of the loop at a position gives the match of the first pattern that matches there, or else one unrecognised character |
| Lexer.ScanCovers | roverapp/transpiler.py:45-75 | the lexemes tile the line from the position to its end, and each is what the loop does at its start (the match of the first pattern that matches there, or one unrecognised character) |
| Lexer.LexemeTokens | roverapp/transpiler.py:57-63 | every token comes from a non-whitespace match, every non-whitespace match yields its token, and there are no tokens exactly when every match is whitespace |
| Lexer.LexemeErrors | roverapp/transpiler.py:69-75 | every error comes from an unrecognised character, every unrecognised character yields an error naming it and its 1-based column, and there are no errors exactly when every position is matched |
| Lexer.TokensAscend | roverapp/transpiler.py:45-63 | the tokens of a line's lexemes, taken left to right, have strictly increasing columns |
| Lexer.ErrorsAscend | roverapp/transpiler.py:45-75 | the errors of a line's lexemes, taken left to right, have strictly increasing columns |
| Lexer.WordClassification | roverapp/transpiler.py:16-18 | a word shaped like an identifier becomes a KEYWORD, a FUNCTION or an IDENTIFIER by whether it is a keyword, a verb name, or neither |
| Lexer.ReservedMatchIsWholeWord | roverapp/transpiler.py:16-18 | a KEYWORD or FUNCTION token always covers the whole identifier-shaped word there |
| Lexer.MinusSign | roverapp/transpiler.py:19 | a `-` is lexed only as part of a number, and only when a digit follows it |
| Lexer.PlusSign | roverapp/transpiler.py:23 | a `+` is always a PLUS token |
| Lexer.MatchedTextValid | roverapp/transpiler.py:50-63 | the text of every token has the shape of its kind: keyword, verb name, identifier, numeral, or the punctuation character |
| Lexer.QuietLine | roverapp/transpiler.py:44-75 | a line yields neither tokens nor errors exactly when it is all whitespace |
| Lexer.EmitComplete | roverapp/transpiler.py:44-75 | no lexeme of any line is dropped: the token of every non-whitespace match and the error of every unrecognised character are in the output |
| Lexer.EmitSound | roverapp/transpiler.py:44-75 | nothing is invented: every token in the output is the one some non-whitespace match of some line yields, and every error the one some unrecognised character yields |
| Lexer.EmitInOrder | roverapp/transpiler.py:44-75 | tokens and errors come out in reading order: by line, then by column |
| Lexer.Tokenize | roverapp/transpiler.py:28-77 | every token is valid for its kind and stands on the line and column it names; every error names the character at its line and column; every non-whitespace match and every unrecognised character of every line is in the output, and every token and error in the output comes from one of them; tokens and errors are in reading order; no output at all exactly when the source is all whitespace |
| Lexer.NoLexicalErrors | roverapp/transpiler.py:44-75 | the source lexes without error exactly when every lexeme of every line is a pattern match |
| Lexer.ErrorReportedOnce | roverapp/transpiler.py:69-75 | every unrecognised character of the source is reported by exactly one error |
| Grammar.SpelledProgramWellShaped | roverapp/transpiler.py:151-239 | any program the token grammar spells is well shaped: `girar` always opens a combination, and a combination closes only with an advance |
| Parser.LexerTokensReadable | roverapp/transpiler.py:17-19 | every lexer token is readable by the parser: each NUMBER is a numeral that `int()` reads (the interpreter's 4300-digit conversion limit aside, see below) and each FUNCTION names a verb |
| Parser.ExpectKeyword | roverapp/transpiler.py:116-117 | a keyword check passes exactly when that keyword is there; a wrong keyword is reported at the token after it, anything else at its own position |
| Parser.ParseArgument | roverapp/transpiler.py:158-166 | `( NUMBER )` parses exactly when it is spelled there, giving the number's value and advancing three tokens |
| Parser.ParseInstruction | roverapp/transpiler.py:151-177 | a parsed instruction is spelled at the position and consumed exactly; a position without a FUNCTION reports "una instrucción válida" |
| Parser.ComboTail | roverapp/transpiler.py:203-239 | the `+` loop only parses a combination that is spelled from its first turn and consumed exactly, and always moves forward |
| Parser.SkipPastSemicolon | roverapp/transpiler.py:133-136 | recovery stops just past the first `;` at or after the position, or at the end |
| Parser.Body | roverapp/transpiler.py:126-136 | the instruction loop stops at `END` or at the end, keeps only well-shaped instructions, and when it raises no error its instructions are spelled back to back |
| Parser.ParseProgram | roverapp/transpiler.py:115-148 | without errors there is a program whose spelling starts the tokens; a missing program always comes with an error |
| Parser.Parse | roverapp/transpiler.py:79-251 | no errors means the whole token list spells the returned program; a returned program is well shaped; no program means at least one error |
| Parser.InstructionComplete | roverapp/transpiler.py:151-177 | every spelled instruction is parsed whole |
| Parser.BodyComplete | roverapp/transpiler.py:126-136 | instructions spelled back to back up to `END` are all read, with no error |
| Parser.BodyRecovers | roverapp/transpiler.py:126-136 | when an instruction fails and the instructions past the next `;` are spelled up to `END`, the loop reports that one error and still reads all of them |
| Parser.ProgramComplete | roverapp/transpiler.py:115-148 | a spelled program prefix is parsed to that program, with no error, ending after its dot |
| Parser.ParseCorrect | roverapp/transpiler.py:79-251 | the parser returns program `p` with no errors exactly when the tokens spell `p` |
| Parser.ParseRejects | roverapp/transpiler.py:79-251 | the parser reports errors exactly when the tokens spell no program |
| Parser.TrailingTokensReported | roverapp/transpiler.py:244-249 | a spelled program followed by extra tokens is returned with exactly one error, at the first extra token |
| Semantics.TurnErrors | roverapp/transpiler.py:295-300 | one turn error per turn outside -1..1; none exactly when every turn is a direction |
| Semantics.CheckInstruction | roverapp/transpiler.py:268-309 | an instruction raises no error exactly when all its parameters keep their verb's rule; every error names the instruction; a plain call raises at most one error, about its own verb |
| Semantics.CheckAll | roverapp/transpiler.py:268-309 | a list raises no error exactly when each instruction keeps its rules, and every error names one of its instructions |
| Semantics.Analyze | roverapp/transpiler.py:253-311 | no tree gives no errors; a tree gives none exactly when every parameter rule holds, and every error names one of its instructions |
| Semantics.CheckAllAppend | roverapp/transpiler.py:268 | errors come in program order: checking a concatenation checks each part in turn |
| Semantics.ComboErrorCount | roverapp/transpiler.py:293-309 | a combination raises one error per turn outside -1..1, plus one for an advance by 0 |
| Semantics.TurnErrorsComeFromCombinations | roverapp/transpiler.py:280-300 | in a parsed (well-shaped) program every turn-direction error comes from a combination, never from a plain call |
| CodeGen.EspCommands | roverapp/transpiler.py:436-475 | a plain call gives one command; a combination gives one per turn plus one for its advance |
| CodeGen.DecodeCommandText | roverapp/transpiler.py:441-458 | every `verb:param` command reads back as the call it was printed from |
| CodeGen.GenerateEspAppend | roverapp/transpiler.py:436 | the command list of a concatenation is the concatenation of the command lists |
| CodeGen.GenerateEspDecodes | roverapp/transpiler.py:421-477 | the command list of a well-shaped program decodes, position by position, to the program's calls in order |
| CodeGen.InstructionLines | roverapp/transpiler.py:341-399 | the script has exactly one line per instruction, in order |
| CodeGen.InstructionLineSingle | roverapp/transpiler.py:341-399 | no instruction line contains a line break |
| CodeGen.PythonLinesRoundTrip | roverapp/transpiler.py:326-415 | the script has 12 header lines, one line per instruction and 6 footer lines, and splitting it at `\n` gives exactly those lines back |
| RoverBridge.FirstRule | roverapp/views_rover.py:364-405 | a line gets a rule exactly when some pattern occurs in it, and that rule is the first in `elif` order whose pattern occurs |
| RoverBridge.ProcessPythonCode | roverapp/views_rover.py:348-407 | reading a script back gives at most one command per line of the stripped script |
| RoverBridge.ExtractFromCall | roverapp/views_rover.py:409-425 | the parameter of `lead(a)tail` is `a`, when `lead` has no parenthesis and `a` is unpadded and has no `)` |
| RoverBridge.ExtractWithoutCall | roverapp/views_rover.py:419-425 | a line with no `(` gives the parameter `"0"` |
| RoverBridge.ExtractEmptyCall | roverapp/views_rover.py:419-425 | an empty argument list `lead()tail` gives `"0"`, not the empty text between the parentheses |
| RoverBridge.ExtractCloseFirst | roverapp/views_rover.py:419-425 | a `)` before the first `(` gives `"0"`, even when a later `)` closes the call |
| RoverBridge.ProgramPayload | roverapp/views_rover.py:294-305 | an empty command list is refused; any other becomes one payload starting `programa:` |
| RoverBridge.PayloadRoundTrip | roverapp/views_rover.py:305 | splitting the payload after `programa:` at commas gives back the commands, when none holds a comma |
| RoverBridge.EspPayloadRoundTrip | roverapp/views_rover.py:305 | every non-empty generated command list travels in one payload and is recovered whole |
| RoverBridge.SimpleLineCommand | roverapp/views_rover.py:364-405 | the script line of a plain call reads back as exactly that call's ESP8266 command |
| RoverBridge.FrameNoCommands | roverapp/views_rover.py:364-405 | no header or footer line of a generated script gives a command |
| RoverBridge.StripScript | roverapp/views_rover.py:361 | stripping a generated script leaves it whole |
| RoverBridge.PlainScriptRoundTrip | roverapp/views_rover.py:348-407 | for a program of plain calls, reading its script back gives exactly its ESP8266 command list |
| RoverBridge.ScriptCommandCount | roverapp/views_rover.py:364-405 | reading a script back gives at most one command per instruction |
| RoverBridge.CombinationLosesCommands | roverapp/views_rover.py:364-405 | a program with a combination of two or more turns gets fewer commands from its script than its ESP8266 code holds |
| Pipeline.Compile | roverapp/transpiler.py:479-527 | each failing stage returns exactly the non-empty errors of that stage (the lexer's errors, the parser's on the lexer's tokens, or the semantic check's on the parsed tree); a success returns a tree the tokens spell and that keeps every rule, with the script and command list generated from it |
| Pipeline.CompileSucceeds | roverapp/transpiler.py:479-527 | compilation succeeds with tree `p` exactly when the source lexes cleanly, its tokens spell `p`, and `p` keeps every parameter rule |
| Pipeline.CompileSyntaxFailure | roverapp/transpiler.py:499-507 | the syntax stage fails exactly when the source lexes cleanly but its tokens spell no program |
| Pipeline.CompileSemanticFailure | roverapp/transpiler.py:509-517 | the semantic stage fails exactly when the tokens spell a program that breaks a parameter rule |
| Pipeline.SemanticErrorsLocated | roverapp/transpiler.py:509-517 | every semantic error names an instruction of the program the tokens spell |
| Pipeline.CompiledFrom | roverapp/transpiler.py:519-527 | the tree of a success has an identifier as its name and is well shaped |
| Pipeline.CompiledOutputs | roverapp/transpiler.py:519-527 | on success the script splits into header, instruction and footer lines, and the command list decodes to the tree's calls in order |
| Pipeline.CompiledPlainProgramDelivered | roverapp/views_rover.py:348-407 | for a compiled program of plain calls, the web layer recovers exactly the ESP8266 command list from the script, and the payload splits back into it |

## Left out

- The Django views, the HTTP request to the rover, its responses and time-outs, `rover_control` and logging are outside the compiler. They are I/O. Only the payload text the rover receives is modelled.
- The regular-expression engine is not modelled in general. Each of the ten token patterns is a dedicated matcher, and the lemmas above tie each one to its pattern.
- Lexer.NumberMatch: `\d` is restricted to ASCII digits. Python's `\d` on `str` also matches other Unicode decimal digits, which `int()` accepts.
- Lexer.IdentifierMatch: `\w`, used by `\b`, is approximated by ASCII letters, digits and `_`, plus the Latin-1 Supplement and Latin Extended-A/B letters and the Latin-1 digit-like signs. Python's full Unicode word class is not modelled.
- Pipeline.Compile requires a source with a non-whitespace character. An all-whitespace source yields no tokens, and `parse` then indexes the last element of an empty list, which raises an exception. The web layer rejects only the empty string.
- Parser.Parse requires a non-empty token list for the same reason. It also requires readable tokens: NUMBER text is a numeral and FUNCTION text names a verb. `Parser.LexerTokensReadable` shows that the lexer's tokens always meet this.
- Parser.LexerTokensReadable: does not model the interpreter's limit on integer string conversion. Since Python 3.11 (and in patched 3.7-3.10 releases), `int()` raises `ValueError` on a numeral of more than 4300 digits by default. `parse_instruction` and `parse_girar_combination` would then raise out of `compile`, since nothing there catches it. The model reads every numeral, whatever its length, because the limit is an interpreter setting rather than part of the compiler.
- Errors are datatypes rather than dictionaries, and each kind's `message` text is a `Message` function. The `'instruction'` entry of a semantic error is the instruction itself.
- The `if not ast` guards of both generators are not modelled. `CodeGen.GeneratePythonCode` and `CodeGen.GenerateEsp` take a parsed tree, and `compile` never calls them without one. `analyze_semantics` on no tree is modelled (`Semantics.Analyze`). A parser-built tree always has its `'instructions'` entry, so that test is not modelled either.
- The generators' branch for a plain `girar` call is modelled, as is the semantic check's. The parser never builds such a call, because it reads every `girar` as a combination (`Grammar.SpelledProgramWellShaped`).
- The `isinstance(comandos, list)` test is replaced by the type `seq<string>`. Only the empty-list refusal is modelled.
- `transpile_to_python` is `Pipeline.Compile`, because the compiler keeps no state between calls.
- RoverBridge.PlainScriptRoundTrip covers only programs of plain calls. For combination lines the web layer returns one command per line, and `RoverBridge.CombinationLosesCommands` states what is lost instead.
