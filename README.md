# MiniPascalCompiler in Dafny

A model of the MiniPascal compiler's pipeline, and proofs about it:

- the **lexical analyser** turns source text into KEYWORD, IDENTIFIER, NUMBER, OPERATOR, DELIMITER and COMMENT tokens (`lexer.dfy`, module `Lexer`; tokens in `tokens.dfy`);
- the **syntax analyser** is a recursive-descent recogniser that only accepts or rejects a token list (`recogniser.dfy`, module `SyntaxAnalyzer`);
- the **tree parser** builds an abstract syntax tree of `ASTNode`s (`tree.dfy`, module `SyntaxTree`);
- the **semantic analyser** fills the symbol table from the declarations and type-checks assignments and binary operations (`semantic.dfy`, module `SemanticAnalyzer`, over the nodes and symbol table of `ast.dfy`);
- the **code generator** emits text instructions (`MOV`, `PUSH`, `POP`, `ADD`, `MUL`, `CONCAT`, `OUT`, `OUT_STR`) with `$XXXX` addresses (`codegen.dfy`, module `CodeGenerator`);
- the **virtual machine** runs those instructions with registers AX and BX, a stack, a memory cell per symbol and a list of outputs (`vm.dfy`, module `Machine`);
- the **older integer-only machine** understands six instructions and prints what OUT gives (`legacy_vm.dfy`, module `LegacyMachine`).

`text.dfy` and `text_laws.dfy` model the Python string operations the machine relies on: `strip`, `split`, `rstrip(",")`, `" ".join`, `isdigit`, `int`, `int(x, 16)` and `f"{n:04X}"`. `compilation.dfy` connects the code generator to the machine. It proves that the addresses the generator writes are the ones the machine reads back. It proves that integer expressions leave their value in AX, and that a compiled program runs to completion in the state its statements' meaning gives.

Each class of the source is a Dafny `class` whose methods change its fields. Each method is proved equal to a specification function over values: a grammar function of the token cursor, `Analyse`, `Emit`, or a machine step. The properties are lemmas about those functions. Lexing is a single loop over the text. It is the method `LexicalAnalyser`, proved against the function `Lex`.

## Model

| member | source | states |
|---|---|---|
| Lexer.ListedIsIn | Lexical_analyzer.py:40 | The keyword list search used by the lexer answers exactly Python's `word in KEYWORDS`. |
| Lexer.WordEndIsMaximal | Lexical_analyzer.py:35-39 | The word scan covers only letters and digits and stops at the first character that is neither (or at the end of the text). |
| Lexer.DigitsEndIsMaximal | Lexical_analyzer.py:47-51 | The number scan covers only digits and stops at the first non-digit. |
| Lexer.CloseBraceIsFirst | Lexical_analyzer.py:71-75 | The comment scan stops at the first `}` after the `{`, or at the end of the text when there is none. |
| Lexer.OperatorFromIsFirst | Lexical_analyzer.py:56-61 | The operator taken is the first entry of OPERATORS, in list order, that matches at the cursor, and no operator is taken when none matches. |
| Lexer.ScanStep | Lexical_analyzer.py:26-84 | Every iteration that does not raise moves the cursor strictly forward and stays within the text. |
| Lexer.LexicalAnalyser | Lexical_analyzer.py:20-86 | The loop returns exactly the token list (or the error) of the scan specification `Lex`. |
| Lexer.ScanAt | Lexical_analyzer.py:27-84 | One loop iteration (skip a blank, emit a word, number, operator, delimiter or comment, or raise) is the step function `ScanStep`. |
| Lexer.StepFits | Lexical_analyzer.py:35-81 | A token one iteration emits agrees with the text: keywords are listed words, identifiers unlisted words, words and numbers maximal, the operator the first match, and delimiters single listed characters where no operator matches. |
| Lexer.WordFits | Lexical_analyzer.py:35-43 | A word starting at a letter ends where the scan stops and is a maximal run of letters and digits. |
| Lexer.NumberFits | Lexical_analyzer.py:47-52 | A number starting at a digit is a maximal run of digits ending where the scan stops. |
| Lexer.CommentFits | Lexical_analyzer.py:71-78 | A closed comment token is `{`, characters other than `}`, and `}`, and its position is just past the `}`. |
| Lexer.LexTokensFit | Lexical_analyzer.py:20-86 | Every token of a successful analysis fits the text it came from, in the above sense, and carries the position the source records (the end of words, numbers and comments, the start of operators and delimiters). |
| Lexer.ScanTokensFit | Lexical_analyzer.py:26-84 | Every token a scan from any position produces fits the text. |
| Lexer.StepErrorExplained | Lexical_analyzer.py:80-84 | An iteration raises only on a character that starts no token, or on a `{` that is never closed. |
| Lexer.ScanErrorExplained | Lexical_analyzer.py:26-84 | A scan that fails reports a character that starts no token, or an unclosed `{`. |
| Lexer.LexErrorExplained | Lexical_analyzer.py:20-86 | The analyser raises only for an invalid character (at its position) or an unclosed comment (at the `{`). |
| Lexer.WhitespaceSkipped | Lexical_analyzer.py:30-32 | A run of blanks produces no token: the scan after it is the scan before it. |
| Lexer.AssignIsOneOperator | Lexical_analyzer.py:56-61 | `:=` becomes one OPERATOR token, never a `:` delimiter followed by `=`. |
| Lexer.ComparisonSplits | Lexical_analyzer.py:5 | `<=` and `>=` are lexed as two operators (`<` or `>`, then `=`), because `<` and `>` come first in OPERATORS. |
| Lexer.SingleCharOperatorStep | Lexical_analyzer.py:56-61 | At `=`, `<` or `>` the scan emits that one-character operator at the cursor and moves one character on. |
| Lexer.OperatorFromFirst | Lexical_analyzer.py:57-61 | When entry `m` is the first matching entry, the operator search returns it. |
| Tokens.TokenAt | Syntax_analyzer.py:6-10 | `current_token()` is None exactly when the cursor is past the end, and otherwise the token under the cursor. |
| Tokens.Expect | Syntax_analyzer.py:12-18 | `consume(kind)` succeeds exactly when the current token exists and has that kind, moving the cursor by one; otherwise it raises with the token it saw. |
| SyntaxAnalyzer.ExpressionEnd | Syntax_analyzer.py:56-64 | A successful expression takes exactly one token. |
| SyntaxAnalyzer.StatementEnd | Syntax_analyzer.py:39-54 | A successful statement takes at least one token and stays within the list. |
| SyntaxAnalyzer.StatementsEnd | Syntax_analyzer.py:34-37 | The statement loop never moves the cursor backwards or past the end. |
| SyntaxAnalyzer.BlockEnd | Syntax_analyzer.py:28-32 | A successful block takes at least one token and stays within the list. |
| SyntaxAnalyzer.ProgramEnd | Syntax_analyzer.py:20-26 | A successful program takes at least one token and stays within the list. |
| SyntaxAnalyzer.Parser.constructor | Syntax_analyzer.py:2-4 | A new parser holds the tokens with its cursor at 0. |
| SyntaxAnalyzer.Parser.CurrentToken | Syntax_analyzer.py:6-10 | The token under the cursor, None exactly when the cursor is past the end. |
| SyntaxAnalyzer.Parser.Consume | Syntax_analyzer.py:12-18 | Advances by one and returns the token exactly when its kind is the one asked for; otherwise raises `Expected(kind, token)` and leaves the cursor. |
| SyntaxAnalyzer.Parser.ParseProgram | Syntax_analyzer.py:20-26 | Succeeds or raises exactly as `ProgramEnd` does, leaving the cursor where it says. |
| SyntaxAnalyzer.Parser.ParseBlock | Syntax_analyzer.py:28-32 | Agrees with `BlockEnd`. |
| SyntaxAnalyzer.Parser.ParseStatements | Syntax_analyzer.py:34-37 | Agrees with `StatementsEnd`. |
| SyntaxAnalyzer.Parser.ParseStatement | Syntax_analyzer.py:39-54 | Agrees with `StatementEnd`, including the error raised for an unknown statement. |
| SyntaxAnalyzer.Parser.ParseExpression | Syntax_analyzer.py:56-64 | Agrees with `ExpressionEnd`. |
| SyntaxAnalyzer.StatementsAccepted | Syntax_analyzer.py:34-46 | The statement loop accepts exactly a run of four-token assignments `IDENTIFIER OPERATOR (NUMBER or IDENTIFIER) DELIMITER` that ends at a KEYWORD or at the end of the tokens (both directions). |
| SyntaxAnalyzer.ProgramAccepted | Syntax_analyzer.py:20-37 | A whole program is accepted exactly when it is `KEYWORD IDENTIFIER DELIMITER KEYWORD`, assignments, then `KEYWORD DELIMITER`. Any keyword fills the keyword slots, there is no `var` section, and tokens after the end are ignored. |
| SyntaxAnalyzer.WriteEndsTheBlock | Syntax_analyzer.py:36-52 | The `write` branch is unreachable: the loop stops at the `write` keyword, which then closes the block, and `(` is taken as the final delimiter. |
| SyntaxTree.ASTNode.constructor | tree.py:3-6 | A new node has the given type and value and no children. |
| SyntaxTree.ASTNode.AddChild | tree.py:8-10 | Appends the child after the existing children and changes nothing else. |
| SyntaxTree.ASTNode.Freeze | tree.py:1-6 | The node as a value carries its type, value and children. |
| SyntaxTree.ExpressionAt | tree.py:121-129 | An expression succeeds exactly on a NUMBER or IDENTIFIER token, giving a `Value` leaf with its text; otherwise it raises with the token (or at the end of input). |
| SyntaxTree.StatementAt | tree.py:97-119 | An assignment takes four tokens and gives an `Assignment` node named after the target with the value leaf as child; `write(x);` takes five and gives a childless `ProcedureCall` with value `write(x)`. |
| SyntaxTree.StatementList | tree.py:88-95 | The statement loop stops at a KEYWORD or the end of the tokens, and every statement it collects is an `Assignment`. |
| SyntaxTree.BlockAt | tree.py:80-86 | A block is delimited by two KEYWORD tokens, whatever their text, takes at least those two, and has one `Statements` child. |
| SyntaxTree.VarNames | tree.py:67-71 | The inner declaration loop yields Variable leaves only, takes no token exactly when it yields none, and yields at least one when it starts on an identifier. |
| SyntaxTree.DeclarationAt | tree.py:66-76 | One declaration takes at least four tokens and gives Variable leaves followed by exactly one Type leaf. |
| SyntaxTree.DeclarationList | tree.py:65-77 | Every declaration the loop collects is Variables then one Type. |
| SyntaxTree.VarsAt | tree.py:60-78 | The var section gives a `Declarations` node and takes at least the `var` keyword. |
| SyntaxTree.OptionalVarsAt | tree.py:49-50 | The declarations are parsed only when the current token reads `var`. |
| SyntaxTree.ProgramAt | tree.py:40-58 | A successful program parse stays within the tokens. |
| SyntaxTree.ProgramBodyAt | tree.py:48-58 | What follows the header takes at least one token. |
| SyntaxTree.ProgramShape | tree.py:40-58 | The Program node takes the program name as its value and ends with exactly one Block child. It has a Declarations child before the block exactly when the token after the header reads `var`. |
| SyntaxTree.BlockAccepted | tree.py:80-86 | A block is accepted exactly when a KEYWORD opens it, its statements parse and a KEYWORD follows them, whatever the keywords read; the Block holds the Statements node and ends after the closing keyword. |
| SyntaxTree.StatementSameUpTo | tree.py:97-119 | A statement reads no token beyond the ones it consumes. |
| SyntaxTree.StatementListSameUpTo | tree.py:88-95 | The statement loop reads the tokens it consumes and only the kind of the token it stops at. |
| SyntaxTree.VarNamesSameUpTo | tree.py:67-71 | The variable loop reads the tokens it consumes and the one after them. |
| SyntaxTree.DeclarationSameUpTo | tree.py:66-76 | A declaration reads no token beyond the ones it consumes. |
| SyntaxTree.DeclarationListSameUpTo | tree.py:65-77 | The declaration loop reads the tokens it consumes and only the kind of the token it stops at. |
| SyntaxTree.OptionalVarsSameUpTo | tree.py:49-50 | The optional section reads the first token's text only to ask whether it is `var`. |
| SyntaxTree.BlockSameUpTo | tree.py:80-86 | A block reads its statements and only the kinds of its two keywords. |
| SyntaxTree.ProgramBodySameUpTo | tree.py:48-58 | After the header, a program reads its declarations and statements and only the kinds of the block keywords and of the final delimiter. |
| SyntaxTree.HeaderThenBody | tree.py:43-46 | A program reads its header's kinds and name, then what its body reads. |
| SyntaxTree.ProgramKeywordsUnread | tree.py:40-58 | Replacing the `program`, `begin` and `end` tokens and the final delimiter by any tokens of the same kinds, and the tokens after the delimiter by any others as many, gives the same tree; the only exception is a `begin` slot changed to or from `var`. |
| SyntaxTree.Parser.constructor | tree.py:22-24 | A new parser holds the tokens with its cursor at 0. |
| SyntaxTree.Parser.CurrentToken | tree.py:26-30 | The token under the cursor, None exactly when the cursor is past the end. |
| SyntaxTree.Parser.Consume | tree.py:32-38 | Advances by one and returns the token exactly when its kind matches; otherwise raises and leaves the cursor. |
| SyntaxTree.Parser.ParseProgram | tree.py:40-58 | Builds exactly the tree `ProgramAt` gives, or raises its error, leaving the cursor where it says. |
| SyntaxTree.Parser.ParseVars | tree.py:60-78 | Agrees with `VarsAt`. |
| SyntaxTree.Parser.ParseDeclaration | tree.py:66-76 | One pass of the outer declaration loop agrees with `DeclarationAt`. |
| SyntaxTree.Parser.ParseBlock | tree.py:80-86 | Agrees with `BlockAt`. |
| SyntaxTree.Parser.ParseStatements | tree.py:88-95 | Agrees with `StatementsAt`. |
| SyntaxTree.StatementsAt | tree.py:88-95 | The statement loop is wrapped in one `Statements` node, and the cursor never moves back and stays within the tokens. |
| SyntaxTree.StatementsShape | tree.py:88-95 | The `Statements` node has no value and only Assignment children, and the loop stops at a KEYWORD or at the end. |
| SyntaxTree.Parser.ParseStatement | tree.py:97-119 | Agrees with `StatementAt`. |
| SyntaxTree.Parser.ParseExpression | tree.py:121-129 | Agrees with `ExpressionAt`. |
| SyntaxTree.VarNamesInOrder | tree.py:67-71 | The Variable leaves of a declaration are the identifiers it spans, in source order, and the only other tokens it spans are `,` delimiters. |
| SyntaxTree.AnyKeywordsDelimitTheBlock | tree.py:83-85 | `begin` and `end` are not checked: a block opened by `while` and closed by `do` gives the ordinary tree. |
| SemanticAnalyzer.TypeOf | Semantic_analyzer.py:88-106 | A type is only ever `integer` or, for a Variable, the declared type of a declared name. |
| SemanticAnalyzer.TypeOfInteger | Semantic_analyzer.py:88-106 | `get_node_type` says `integer` exactly for Numbers, integer Variables and operations on two integer expressions (both directions). |
| SemanticAnalyzer.SemanticAnalyser.constructor | Semantic_analyzer.py:4-6 | The analyser starts with an empty symbol table. |
| SemanticAnalyzer.SemanticAnalyser.Evaluate | Semantic_analyzer.py:8-86 | Succeeds exactly when `Analyse` does, with its symbol table and the type `evaluate` returns; otherwise raises `Analyse`'s error. |
| SemanticAnalyzer.AssignmentChecked | Semantic_analyzer.py:48-61 | An assignment passes, leaving the table as it was, exactly when its target is declared, it has a right-hand side and that side has the declared type. |
| SemanticAnalyzer.AssignmentRaises | Semantic_analyzer.py:48-61 | In order: an undeclared target raises `NotDeclared`, a missing right-hand side `MissingChild`, a right-hand side without a type its own error, and a different type `AssignmentTypeError`. |
| SemanticAnalyzer.IntegerAssignment | Semantic_analyzer.py:48-61 | An assignment to an integer variable passes exactly when its right-hand side is an integer expression. |
| SemanticAnalyzer.StringLiteralAssignmentRaises | Semantic_analyzer.py:53-55 | Assigning a string literal raises `UnsupportedNode("String")` whatever the target's type, because `get_node_type` has no String case. |
| SemanticAnalyzer.UnknownKindRaises | Semantic_analyzer.py:85-86 | Any node kind `evaluate` does not know raises `UnknownNode`. |
| SemanticAnalyzer.LeavesKeepTable | Semantic_analyzer.py:74-83 | A Number, a Write, a program name and a declared Variable leave the table as it was; an undeclared Variable raises `NotDeclared`. |
| SemanticAnalyzer.DeclarationFreeKeepsTable | Semantic_analyzer.py:8-86 | Only Declarations change the table: a tree without one that passes leaves the table as it found it. |
| SemanticAnalyzer.ChildrenKeepTable | Semantic_analyzer.py:13-23 | The same for the children of a Program, Block or Statements node from any index on. |
| SemanticAnalyzer.SemanticAnalyser.Declare | Semantic_analyzer.py:25-46 | The declarations branch leaves the table `DeclareGroups` gives, or raises its error. |
| SemanticAnalyzer.BindingsOf | Semantic_analyzer.py:36-41 | The names of one group, each paired with the group's type, in order. |
| SemanticAnalyzer.DeclareGroupBinds | Semantic_analyzer.py:31-46 | On Variable and Type children, one declaration binds its variables that are followed by a Type, in order, at consecutive addresses. |
| SemanticAnalyzer.DeclareGroupsBinds | Semantic_analyzer.py:26-46 | On well-formed declarations, the analyser binds exactly the variables followed by a Type, in source order, the k-th at address `adr + k`. |
| SemanticAnalyzer.DeclarationsNodeBinds | Semantic_analyzer.py:25-46 | A Declarations node numbers its variables from address 0. |
| SemanticAnalyzer.StrayChildRaises | Semantic_analyzer.py:45-46 | Any child of a declaration that is neither a Variable nor a Type makes the analyser raise. |
| SemanticAnalyzer.BindAllKeys | Semantic_analyzer.py:36-41 | After binding, the table holds exactly the old names and the bound ones. |
| SemanticAnalyzer.LastBindingWins | Semantic_analyzer.py:37-41 | A name keeps the type and address of its last binding: a redeclared variable silently moves. |
| SemanticAnalyzer.UnboundKept | Semantic_analyzer.py:37-41 | A name not bound keeps its old entry, or stays absent. |
| SemanticAnalyzer.DistinctNamesDenseAddresses | Semantic_analyzer.py:26-42 | With no name declared twice, the k-th declared variable has address `adr + k` and its group's type. |
| SemanticAnalyzer.NamesBound | Semantic_analyzer.py:37-42 | A table never has more names than bindings, and has fewer as soon as one name repeats. |
| SemanticAnalyzer.RedeclarationOutrunsMemory | Semantic_analyzer.py:26-42 | A name declared twice leaves fewer table entries than addresses issued, so the last variable's address lies outside a memory sized by the table. |
| SemanticAnalyzer.GroupTakesItsType | Semantic_analyzer.py:31-43 | `a, b, c : t` binds `a`, `b`, `c`, each with type `t`. |
| SemanticAnalyzer.VariablesCollected | Semantic_analyzer.py:32-33 | Variables before a Type are collected in order into the pending list. |
| CodeGenerator.FormatAddress | Code_generator.py:16-18 | `$` then a hex numeral that parses back to the address, written with upper-case digits only (`0`-`9`, `A`-`F`); exactly five characters for addresses below 65536. |
| CodeGenerator.LabelsDistinct | Code_generator.py:11-14 | Different label numbers give different labels. |
| CodeGenerator.NodeType | Code_generator.py:125-139 | Only a String, a Variable or an operation can have type `string`. |
| CodeGenerator.AddressOf | Code_generator.py:78-80 | A name's address is formatted exactly when it is declared (otherwise the KeyError). |
| CodeGenerator.GenExpr | Code_generator.py:69-123 | Every expression compiles to at least one instruction. |
| CodeGenerator.GenExprBalanced | Code_generator.py:69-123 | Generated expression code never pops an empty stack and leaves the stack height as it found it. |
| CodeGenerator.CombineBalanced | Code_generator.py:93-97 | Left code, `PUSH AX`, right code, `POP BX` and the operation keep the stack balanced when both operands' code does. |
| CodeGenerator.EmitAppends | Code_generator.py:20-67 | Generation only appends: what it emits, and whether it raises, does not depend on the instructions already there. |
| CodeGenerator.AssignmentAppends | Code_generator.py:43-49 | The same for an assignment. |
| CodeGenerator.WriteAppends | Code_generator.py:51-67 | The same for a write. |
| CodeGenerator.CodeGenerator.constructor | Code_generator.py:4-9 | The generator starts with no instructions and label counter 0. |
| CodeGenerator.CodeGenerator.NewLabel | Code_generator.py:11-14 | Increments the counter, returns its label, which differs from every label returned before, and leaves the instructions alone. |
| CodeGenerator.CodeGenerator.GenerateCode | Code_generator.py:20-67 | The instructions become exactly those `Emit` gives, or the call raises its error. |
| CodeGenerator.PlusByType | Code_generator.py:87-108 | A `+` ends in CONCAT exactly when its left operand is a string, and in ADD exactly when it is an integer. |
| CodeGenerator.LeafExprCode | Code_generator.py:71-80 | A Number, a String and a declared Variable compile to one `MOV AX, …` line with the literal, the quoted text or the formatted address; an undeclared Variable raises `UndeclaredName`. |
| CodeGenerator.OperandsFirst | Code_generator.py:82-84 | Both operands are compiled before the operator is looked at: the left operand's error, then a missing right operand, then the right operand's error come first. |
| CodeGenerator.OperatorCode | Code_generator.py:86-120 | With both operands compiled: `*` gives the MUL shape, a string `+` the CONCAT shape, an integer `+` the ADD shape, any other `+` raises `OperandMismatch`, and any other operator `UnsupportedOperator`. |
| CodeGenerator.OtherKindRaises | Code_generator.py:122-123 | Any node other than a Number, String, Variable or binary operation raises `UnsupportedNode`. |
| Machine.RegisterNamed | Interpreter.py:8 | Only `AX` and `BX` name value registers. |
| Machine.AddressOf | Interpreter.py:164-169 | `get_address` succeeds exactly on `$` followed by hex digits, giving their value. |
| Machine.Load | Interpreter.py:153-158 | A cell is read exactly when the address is inside memory (otherwise the IndexError). |
| Machine.FloorDiv | Interpreter.py:111 | Python's `//`: the quotient rounded toward minus infinity, for either sign of the divisor. |
| Machine.MovStep | Interpreter.py:65-73 | MOV never resizes memory, touches the stack or adds output. |
| Machine.CommandOf | Interpreter.py:25-63 | A recognised command word is exactly the command's name. |
| Machine.ArithStep | Interpreter.py:75-115 | ADD, MUL, SUB and DIV change only registers. |
| Machine.PushStep | Interpreter.py:117-119 | PUSH leaves memory and outputs alone. |
| Machine.PopStep | Interpreter.py:121-129 | POP leaves memory and outputs alone. |
| Machine.OutStep | Interpreter.py:131-133 | OUT succeeds exactly when its operand resolves, appends that value to the outputs and changes nothing else; on failure nothing changes. |
| Machine.OutStrStep | Interpreter.py:135-144 | OUT_STR appends one string to the outputs and touches neither memory nor stack; on failure nothing changes. |
| Machine.InstructionStep | Interpreter.py:20-63 | An instruction never resizes memory and adds at most one output. |
| Machine.LineStep | Interpreter.py:13-18 | A fetched line never resizes memory and adds at most one output. |
| Machine.Interpreter.constructor | Interpreter.py:4-10 | Registers and every cell None, one cell per symbol, empty stack and outputs, counter 0. |
| Machine.Interpreter.Execute | Interpreter.py:12-18 | Runs to the state and counter `RunFrom` gives, stopping at the line that raises with its error. |
| Machine.Interpreter.ExecuteInstruction | Interpreter.py:20-63 | Has exactly the effect (or the error, with the state at the moment of raising) of `InstructionStep`. |
| Machine.Interpreter.SetRegister | Interpreter.py:68 | Writes one register and nothing else. |
| Machine.Interpreter.GetValue | Interpreter.py:147-162 | Returns what `Resolve` gives: register, digits, `$` address, symbol name, quoted literal, in that order. |
| Machine.Interpreter.Mov | Interpreter.py:65-73 | Agrees with `MovStep`. |
| Machine.Interpreter.Arithmetic | Interpreter.py:75-115 | Agrees with `ArithStep` for the given operation. |
| Machine.Interpreter.Add | Interpreter.py:75-83 | Agrees with `ArithStep` for ADD. |
| Machine.Interpreter.Mul | Interpreter.py:85-93 | Agrees with `ArithStep` for MUL. |
| Machine.Interpreter.Sub | Interpreter.py:95-103 | Agrees with `ArithStep` for SUB. |
| Machine.Interpreter.Div | Interpreter.py:105-115 | Agrees with `ArithStep` for DIV. |
| Machine.Interpreter.Push | Interpreter.py:117-119 | Agrees with `PushStep`. |
| Machine.Interpreter.Pop | Interpreter.py:121-129 | Agrees with `PopStep`. |
| Machine.Interpreter.Out | Interpreter.py:131-133 | Agrees with `OutStep`. |
| Machine.Interpreter.OutStr | Interpreter.py:135-144 | Agrees with `OutStrStep`. |
| Machine.CommentLineIsSkipped | Interpreter.py:14-17 | A line whose first visible character is `;` changes nothing. |
| Machine.ResolvePriority | Interpreter.py:147-158 | Registers come before numbers, and a run of digits is a number even when a variable has that name; other names read their cell. |
| Machine.ReversedOperands | Interpreter.py:95-115 | SUB computes `src - dest` and DIV `src // dest`; DIV by a zero register raises with nothing changed. |
| Machine.ArithmeticRejects | Interpreter.py:75-115 | Arithmetic raises on a destination that is not a register, and on a non-integer on either side. |
| Machine.PushThenPop | Interpreter.py:117-129 | POP after PUSH puts the pushed value in the register and leaves the stack as before the PUSH. |
| Machine.PopFailures | Interpreter.py:121-129 | POP on an empty stack raises and changes nothing; POP to a non-register raises after the value has left the stack. |
| Machine.ConcatIsUnknown | Interpreter.py:62-63 | CONCAT, which the generator emits for string `+`, is an unknown instruction. |
| Machine.CommandNamesRecognised | Interpreter.py:25-60 | Every command word is dispatched to the command it names. |
| Machine.RunExtends | Interpreter.py:12-18 | A run never resizes memory and only appends outputs. |
| Machine.RunStops | Interpreter.py:12-18 | A finished run has consumed every line; a failed one stops just past the line that raised. |
| LegacyMachine.Load | interpreter.py:106-111 | A cell is read exactly when the address is inside memory. |
| LegacyMachine.MovStep | interpreter.py:52-61 | MOV never resizes memory or prints. |
| LegacyMachine.ArithStep | interpreter.py:63-77 | ADD and MUL change only registers. |
| LegacyMachine.PushStep | interpreter.py:79-82 | PUSH leaves memory and the printed values alone. |
| LegacyMachine.PopStep | interpreter.py:84-93 | POP leaves memory and the printed values alone. |
| LegacyMachine.OutStep | interpreter.py:95-98 | OUT succeeds exactly when the operand resolves, and prints its value, changing nothing else; on failure nothing changes. |
| LegacyMachine.InstructionStep | interpreter.py:20-50 | An instruction never resizes memory and only adds printed values. |
| LegacyMachine.LineStep | interpreter.py:11-18 | A fetched line never resizes memory and only adds printed values. |
| LegacyMachine.Interpreter.constructor | interpreter.py:4-9 | Registers and cells 0, one cell per symbol, empty stack, counter 0. |
| LegacyMachine.Interpreter.Execute | interpreter.py:11-18 | Runs to the state and counter `RunFrom` gives, stopping at the line that raises. |
| LegacyMachine.Interpreter.ExecuteInstruction | interpreter.py:20-50 | Agrees with `InstructionStep`. |
| LegacyMachine.Interpreter.SetRegister | interpreter.py:56 | Writes one register and nothing else. |
| LegacyMachine.Interpreter.GetValue | interpreter.py:100-121 | Returns what `Resolve` gives: register, digits, `$` address, symbol name, in that order. |
| LegacyMachine.Interpreter.Mov | interpreter.py:52-61 | Agrees with `MovStep`. |
| LegacyMachine.Interpreter.Add | interpreter.py:63-69 | Agrees with `ArithStep` for ADD. |
| LegacyMachine.Interpreter.Mul | interpreter.py:71-77 | Agrees with `ArithStep` for MUL. |
| LegacyMachine.Interpreter.Push | interpreter.py:79-82 | Agrees with `PushStep`. |
| LegacyMachine.Interpreter.Pop | interpreter.py:84-93 | Agrees with `PopStep`. |
| LegacyMachine.Interpreter.Out | interpreter.py:95-98 | Agrees with `OutStep`. |
| LegacyMachine.OnlySixCommands | interpreter.py:49-50 | SUB, DIV, OUT_STR and any other word are unknown instructions here. |
| LegacyMachine.Accumulates | interpreter.py:63-77 | ADD and MUL accumulate into the register whatever it holds, with no type check. |
| LegacyMachine.ResolveLifts | interpreter.py:100-113 | Where the older machine resolves an operand, the newer one resolves it to the same integer. |
| LegacyMachine.InstructionLifts | interpreter.py:20-50 | Every instruction the older machine completes, the newer completes with the same effect. |
| LegacyMachine.MovLifts | interpreter.py:52-61 | The same for MOV. |
| LegacyMachine.ArithLifts | interpreter.py:63-77 | The same for ADD and MUL. |
| LegacyMachine.PushLifts | interpreter.py:79-82 | The same for PUSH. |
| LegacyMachine.PopLifts | interpreter.py:84-93 | The same for POP. |
| LegacyMachine.OutLifts | interpreter.py:95-98 | The same for OUT, the printed value becoming an output. |
| LegacyMachine.RunLifts | interpreter.py:11-18 | A program the older machine runs to the end, the newer machine runs to the end from the same start, in the same final state. |
| Text.TrimLeftDropsSpace | Interpreter.py:14 | The left half of `strip()` drops exactly the leading run of whitespace. |
| Text.TrimRightDropsSpace | Interpreter.py:14 | The right half drops exactly the trailing run. |
| Text.StripEnds | Interpreter.py:14 | A stripped line has no whitespace at either end. |
| Text.WordLengthStops | Interpreter.py:22 | The first word of `split()` has no whitespace and ends at whitespace or at the end. |
| Text.SplitWords | Interpreter.py:22 | `split()` returns non-empty words without whitespace. |
| Text.RStripCommaDrops | Interpreter.py:26 | `rstrip(",")` keeps a prefix not ending in a comma and drops only commas. |
| Text.DecimalRoundTrip | Interpreter.py:151-152 | `int` of a printed natural number gives the number back. |
| Text.DecimalStringInjective | Interpreter.py:151-152 | Distinct numbers print differently. |
| Text.ParseHex | Interpreter.py:167 | `int(x, 16)` succeeds exactly on a non-empty run of hex digits. |
| Text.UpperHexRoundTrip | Code_generator.py:18 | The upper-case hex numeral of a number parses back to it. |
| Text.Hex4RoundTrip | Code_generator.py:18 | The `04X` numeral parses back to the number, whatever its size. |
| Text.Hex4Length | Code_generator.py:18 | `04X` gives exactly four digits for every number below 65536, and more above. |
| Text.UpperHexIsUpper | Code_generator.py:18 | The `X` numeral uses the digits `0`-`9` and the upper-case letters `A`-`F` only. |
| Text.Hex4IsUpper | Code_generator.py:18 | The `04X` numeral, padding included, uses upper-case hex digits only. |
| TextLaws.JoinSplit | Interpreter.py:58-60 | Single-spaced text split into words and joined with spaces is unchanged, so OUT_STR sees a single-spaced literal whole. |
| Compilation.RunIsExec | Interpreter.py:12-18 | The fetch loop from `pc` runs exactly the lines from `pc` on, in order. |
| Compilation.ExecAppend | Interpreter.py:12-18 | Running two pieces of code one after the other is running their concatenation. |
| Compilation.AddressRoundTrip | Code_generator.py:16-18 | The address the generator formats is the address the machine reads back. |
| Compilation.ExprRuns | Code_generator.py:69-117 | An integer expression's code runs to the state `ExprState` gives: its value in AX. |
| Compilation.ExprComputes | Code_generator.py:69-117 | An integer expression's code leaves its value in AX, with stack, memory and outputs as they were. |
| Compilation.OperationRuns | Code_generator.py:99-117 | The code of `+` on integers and of `*` runs to the sum or product in AX. |
| Compilation.CombineRuns | Code_generator.py:101-105 | Left code, PUSH AX, right code, POP BX and an operation line: the left value reaches BX and the stack is restored. |
| Compilation.StringPlusFaults | Code_generator.py:91-97 | A string `+` is compiled to CONCAT, so its code raises on every machine state. |
| Compilation.SpacedLiteralFaults | Code_generator.py:74-76 | A string literal with a space, loaded into AX, is cut at the space by the machine's `split()` and raises `Unknown operand`. |
| Compilation.UnclosedQuote | Interpreter.py:159-162 | A word that opens a quote it does not close, and names no variable, is an unknown operand. |
| Compilation.QuotedLiteral | Interpreter.py:147-160 | A one-word quoted literal that names no variable resolves to its text without the quotes. |
| Compilation.CopyCode | Code_generator.py:78-80 | A variable compiles to one `MOV AX` of its address, which copies its cell into AX whatever the cell holds. |
| Compilation.LiteralCode | Code_generator.py:74-76 | A one-word string literal compiles to one `MOV AX` line, which loads its text into AX as a string. |
| Compilation.LoadedRuns | Code_generator.py:69-117 | The code of any right-hand side `Loaded` defines (a copied cell of any kind, a string literal, an integer expression) runs to the state `Loaded` gives. |
| Compilation.StatementRuns | Code_generator.py:20-67 | A statement the generator compiles and `Perform` defines runs to the state `Perform` gives: assignments of integers, of strings and of copied cells, writes, and blocks. |
| Compilation.StatementsRun | Code_generator.py:33-41 | A block's statements run in order, each to its meaning. |
| Compilation.AssignmentRuns | Code_generator.py:43-49 | An assignment's code stores what its right-hand side loads in the variable's cell: an integer value, a string literal, or a copy of another cell whatever it holds. |
| Compilation.CopyRuns | Code_generator.py:43-49 | `x := y` compiles, and its code copies `y`'s cell into `x`'s, strings and empty cells included. |
| Compilation.LiteralRuns | Code_generator.py:43-49 | `x := "v"` for a one-word literal compiles, and its code stores the string `v` in `x`'s cell. |
| Compilation.StoredStringWritten | Code_generator.py:43-67 | `x := "v"; write(x)` for a `string` variable compiles, and its code outputs `v` and leaves `v` in `x`'s cell. |
| Compilation.WriteRuns | Code_generator.py:51-67 | A write's code appends what is written to the outputs: an integer expression's value, an `integer` variable's cell whatever it holds, a `string` variable's string, or a literal's text. |
| Compilation.IntegerCellWritten | Code_generator.py:56-60 | `write(x)` for an `integer` variable compiles, and its code outputs `x`'s cell as it is: an integer, a string from a redeclaration sharing the cell, or nothing yet. |
| Compilation.UnsetIntegerWritten | Code_generator.py:56-60 | `write(x)` of a never-assigned `integer` variable on a fresh machine outputs the empty cell. |
| Compilation.ProgramRuns | Code_generator.py:20-67 | A compiled program that `Perform` defines runs to the end on a fresh machine, in the state its meaning gives. |

## Left out

- The graphical front end (`Main_window.py`) is not part of this model.
- The example drivers at the end of each file are not modelled. They read fixed source text, print token lists, trees and memory, and chain the stages (Lexical_analyzer.py:88-106, Syntax_analyzer.py:66-77, tree.py:132-154, Semantic_analyzer.py:110-113, interpreter.py:124-132).
- `ASTNode.display` (tree.py:12-17) only prints, and is left out. So are the `print` calls of `evaluate` and of the SUB branch.
- `write_to_file` (Code_generator.py:141-144) is file output and is left out.
- Printing by the older machine's OUT is recorded as a trace of values.
- Character classes are ASCII: Python's `isalpha`, `isdigit` and `isspace` also accept other Unicode characters.
- Machine.AddressOf: hexadecimal parsing accepts only a non-empty run of `[0-9a-fA-F]`. Python's `int(x, 16)` also takes a sign, underscores and a `0x` prefix. The generator never writes those.
- Machine.Resolve: `SP` used as an ordinary operand or destination is modelled as the error `StackRegister`. In the source it reads or overwrites the stack list itself.
- LegacyMachine.Resolve: `SP` as an operand is modelled as the error `StackRegister`. In interpreter.py:102-103 it yields the stack list itself, so `OUT SP` prints the list and `PUSH SP` pushes it.
- LegacyMachine.MovStep: `SP` as a destination is modelled as the error `StackRegister`. In interpreter.py:55-56 `MOV SP, 5` succeeds and replaces the stack list with the number.
- LegacyMachine.ArithStep: `SP` as a destination is modelled as the error `StackRegister`. In interpreter.py:66-67 and :74-75 Python applies `+=` or `*=` to the stack list: `ADD SP, 5` raises a TypeError, while `MUL SP, 2` repeats the list and `ADD SP, SP` doubles it.
- LegacyMachine.PopStep: `SP` as a destination is modelled as the error `StackRegister`, raised after the pop. In interpreter.py:90-91 the popped value replaces the stack list.
- Machine.Load: negative addresses cannot arise, because addresses are parsed from hex digits only. Python's negative indexing is therefore not modelled.
- LegacyMachine.Load: the same holds for the older machine. Its addresses also come only from hex digits or the symbol table, so Python's negative indexing is not modelled.
- Partial state on error: where the source raises part-way (the generator extending its instructions before a KeyError, the analyser binding part of a declaration), the methods' error contracts give the error and not the partial state.
- SyntaxTree nodes store their kind as `node_type`, while the analyser and the generator read `type` and a value string. The tree parser and the later stages are therefore modelled over two node types (`SyntaxTree.Tree`, `Ast.Node`), and nothing connects them.
- Compilation.ProgramRuns covers the programs `Perform` defines. An assignment may copy any cell or store a one-word string literal. An operation must find integers in its operands' cells. An `integer` variable is written whatever its cell holds. A string written from a variable must find a string in its cell. A string literal written directly must be single-spaced. Some of the other programs are covered by lemmas that say they raise (`StringPlusFaults`, `SpacedLiteralFaults`, `UnclosedQuote`). No lemma states what the rest do.
- Compilation.StatementRuns: the same limits apply to single statements. In particular, no lemma says what these cases do: a `*` whose operand cell holds a string or nothing, a `string` write whose cell holds no string, and a written literal with several spaces in a row (the machine prints it single-spaced).
- Compilation.WriteRuns: a write is covered when its code completes. No lemma says what happens when the `string` write of a variable finds no string in its cell (OUT_STR raises), or when a written literal has several spaces in a row (the machine prints it single-spaced).
- Compilation.AssignmentRuns: an assignment is covered when its right-hand side is a variable in memory, a one-word string literal that names no variable, or an expression whose operands hold integers. A right-hand side operation on strings or on empty cells is covered by no lemma, except a string `+`, which `StringPlusFaults` shows raises.
- Python's IndexError and KeyError are modelled as the named errors `MissingPart`, `MissingChild` and `UndeclaredName`, and its exception messages are not modelled.
- CodeGenerator.CodeGenerator.NewLabel: labels are numbered but never used by `generate_code`, as in the source.
