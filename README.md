# A verified model of a small compiler's front and back ends

The modelled program compiles a tiny imperative language to x86-64 assembly text. It has
six core parts, and each has its own Dafny module:

- `TypeSystem` (types.dfy) holds the primitive-type catalogue: bit widths, signedness, the
  one-sided and two-sided compatibility relation, and the parsing of type names.
- `ScopeTable` (scope.dfy) holds the symbol table of one scope. It is a class whose `Add`
  advances a running stack-offset counter and binds a name in place.
- `Lexing` (lexer.dfy) holds the tokenizer. It is a class with a cursor over graphemes and
  a line/column counter. It skips blanks and `#` comments and reads maximal-munch tokens.
- `Parsing` (parser.dfy) holds the precedence-climbing parser over integer literals and
  `+ - * /`. It is a class with a cursor over tokens.
- `X86Backend` (x86_generator.dfy) holds the x86-64 back end. It has a four-slot first-fit
  register pool kept in an array, a label counter, and the instruction lines each construct
  emits.
- `EarlyGenerator` (generator.dfy) holds the older code generator. It has a seven-slot
  allocator that never releases a slot, and a walk over blocks, declarations and
  assignments that ends by printing the variable `x`.

`Wrappers` (wrappers.dfy) holds the Option and Result types. `Format` (format.dfy) holds
the decimal rendering that Rust's `{}` formatting performs. `Ast` (ast.dfy) holds the
syntax tree.

The stateful parts are classes with `modifies` clauses. Their loops carry invariants. Each
method is specified against a reference function on values:

- `Strip` is the input without blanks and comments. `Tokenize` returns tokens whose
  concatenated text is `Strip` of the input.
- `NextSignificant` is where the next token begins after skipping blanks and comments.
  `Lexed` says what the outcome of lexing an input must be, and `LexedUnique` shows that
  the input determines it.
- `TokenAt` says where a token was read from and at which line and column.
- `Canonical` and `Items` describe the tree's shape and its in-order walk. `CanonicalUnique`
  shows that these determine the tree.
- `FirstFree`, `Occupancy` and `Holds` describe the register pool.
- `Run` and `Statements` describe the early generator's walk.

Every fatal `panic!`, `error()`, `expect` or `unwrap` that an input can reach becomes an
`Err` result naming the failure.

Some behaviour is modelled as written even though it looks unintended:

- `GenFunctionCallInstr`: the call guard counts the four width rows, but only two argument
  registers exist per row, so a third argument fails.
- `EarlyGenerator.Evaluate`: the early allocator has seven slots but names only six
  registers, so the seventh literal fails.
- `ScopeTable.Scope.Add`: re-adding a name silently replaces its symbol.

## Model

| member | source | states |
|---|---|---|
| TypeSystem.GetSize | src/types.rs:19-32 | width is one of 0, 8, 16, 32, 64; it is 0 exactly for Unknown and Void; Bool is 8 |
| TypeSystem.SizeByWidth | src/types.rs:19-32 | each signed type and its unsigned twin have the same width: 8, 16, 32, 64 |
| TypeSystem.SignednessPartition | src/types.rs:34-52 | no type is both signed and unsigned; exactly Bool, Unknown and Void are neither |
| TypeSystem.IsCompatibleWith | src/types.rs:54-80 | every type is compatible with itself; Bool to non-Bool and signed to unsigned are rejected in both modes |
| TypeSystem.TwoSidedCompatibility | src/types.rs:67-77 | two-sided compatibility holds iff the types are equal or neither is Bool and they are not signed/unsigned mixed in either order; it is symmetric |
| TypeSystem.OneSidedCompatibility | src/types.rs:54-80 | one-sided compatibility holds iff the types are equal or the source is not Bool, not signed-to-unsigned, and the destination is strictly wider; distinct same-width types are rejected; the relation is antisymmetric on distinct types |
| TypeSystem.OneSidedExamples | src/types.rs:79 | u8 to i16 and Void to Bool are accepted one-sided but not two-sided; u16 to u8 is the other way round |
| TypeSystem.FromStr | src/types.rs:86-99 | a parsed type is never Unknown or Void |
| TypeSystem.FromStrExact | src/types.rs:86-99 | parsing succeeds exactly on the nine type spellings and is injective on them |
| ScopeTable.Scope.constructor | src/scope.rs:25-30 | a new scope has no symbols and a zero counter |
| ScopeTable.Scope.Get | src/scope.rs:32-34 | lookup finds exactly the names present, with their stored symbols |
| ScopeTable.Scope.Add | src/scope.rs:36-48 | the counter grows by the type's size in bytes and never decreases; the name maps to a symbol at the new counter value; every other binding is unchanged; the key set gains the name |
| ScopeTable.CumulativeOffsets | src/scope.rs:36-48 | adding u8, u32 and u64 to a fresh scope gives offsets 1, 5 and 13 |
| ScopeTable.ZeroSizedSymbols | src/scope.rs:37 | Void and Unknown symbols leave the counter where it was and share its offset |
| ScopeTable.Redeclaration | src/scope.rs:39-47 | re-adding a name keeps one binding, with the new type, and still advances the counter |
| Format.IntToString | src/x86_generator.rs:85 | decimal text is nonempty, all digits for non-negative values, and a minus sign then digits for negative ones |
| Format.NatToStringRoundTrip | src/x86_generator.rs:85 | reading back the written digits gives the number |
| Format.IntToStringInjective | src/x86_generator.rs:85 | distinct integers have distinct decimal texts |
| Lexing.KeywordToTokenType | src/lexer.rs:153-165 | the five keywords map to their own kinds, spelled as the kind's fixed text; exactly the nine type spellings map to Type; nothing else maps to a kind |
| Lexing.TypeTokensParse | src/lexer.rs:160-162 | the spellings tagged Type are exactly those the type system parses |
| Lexing.SingleCharType | src/lexer.rs:224-234 | exactly the eleven punctuation characters have a kind, spelled by that character |
| Lexing.CompoundTypes | src/lexer.rs:235-254 | exactly `! = < >` have a single kind spelled by the character and a compound kind spelled by the character then `=` |
| Lexing.WhitespaceText | src/lexer.rs:55-57 | IsWhitespace holds exactly when the grapheme's text is a space or a tab |
| Lexing.NewlineText | src/lexer.rs:59-61 | IsNewline holds exactly when the grapheme's text is `"\r\n"` or `"\n"` |
| Lexing.IsAlphabetic | src/lexer.rs:63-65 | holds exactly when every character of the grapheme's text is a letter |
| Lexing.IsNumeric | src/lexer.rs:67-69 | holds exactly when every character of the grapheme's text is a decimal digit |
| Lexing.Lexer.constructor | src/lexer.rs:72-79 | a new lexer is at index 0, line 1, column 1 |
| Lexing.Lexer.Eof | src/lexer.rs:89-91 | when it does not hold a grapheme remains at the cursor; for a valid lexer it holds exactly when nothing is left to read |
| Lexing.Lexer.Consume | src/lexer.rs:97-108 | the index advances by one; a line break starts the next line at column 1, and any other grapheme moves the column right by one |
| Lexing.PositionAcrossLine | src/lexer.rs:143-151 | after a run without line breaks the column has grown by the run's length, so the column minus the value's length is the start column |
| Lexing.Lexer.ConsumeWhile | src/lexer.rs:110-127 | returns the text of the longest run from the cursor satisfying the predicate, stopping quietly at the end |
| Lexing.Lexer.SkipWhitespace | src/lexer.rs:129-131 | skips exactly the maximal run of spaces, tabs and line breaks |
| Lexing.Lexer.TokenizeSingleChar | src/lexer.rs:133-141 | the token holds the one grapheme read, at the line and column where it started |
| Lexing.Lexer.TokenizeMultichar | src/lexer.rs:143-151 | the token holds the maximal run satisfying the condition, one character per grapheme, at its start line and column |
| Lexing.Lexer.TokenizePossibleKeyword | src/lexer.rs:167-179 | the token holds the maximal alphanumeric run; its kind comes from the keyword table, and Identifier otherwise |
| Lexing.Lexer.TokenizePossibleMultichar | src/lexer.rs:181-201 | the compound kind with two characters when `nextChar` follows, the single kind with one otherwise; an operator that ends the input is an out-of-bounds error |
| Lexing.Lexer.ReadLiteral | src/lexer.rs:222 | reads a well-formed IntLiteral token that is maximal and placed where it was read |
| Lexing.Lexer.ReadWord | src/lexer.rs:223 | reads a well-formed word token that is maximal and placed where it was read |
| Lexing.Lexer.ReadPunctuation | src/lexer.rs:224-234 | reads a well-formed one-character punctuation token placed where it was read |
| Lexing.Lexer.ReadOperator | src/lexer.rs:235-254 | reads a well-formed, maximal operator token, or fails exactly when the operator is the last grapheme |
| Lexing.LiteralToken | src/lexer.rs:222 | a maximal digit run read as a literal is well formed, placed where it was read, and contributes exactly its text |
| Lexing.WordToken | src/lexer.rs:167-179 | a maximal alphanumeric run starting with a letter is well formed under the keyword table's kind, and contributes exactly its text |
| Lexing.OperatorToken | src/lexer.rs:181-201 | a one- or two-character operator token is placed where it was read and contributes exactly its text |
| Lexing.Lexer.NextToken | src/lexer.rs:219-261 | dispatches on the first character. Success gives a well-formed token placed where it was read. Otherwise it fails with the unexpected grapheme and its position, or at an operator ending the input |
| Lexing.StripBlanks | src/lexer.rs:129-131 | a run of blanks contributes no significant text |
| Lexing.StripComment | src/lexer.rs:213-215 | a comment through its line break contributes no significant text |
| Lexing.Lexer.SkipCommentLine | src/lexer.rs:213-215 | stops just past the first line break after the `#`, keeping the stripped text; fails exactly when no line break follows this comment, having reached the end of the input |
| Lexing.Lexer.SkipComment | src/lexer.rs:213-217 | skips this comment and the blanks after it without moving the next significant grapheme; succeeds exactly when input remains, and on failure nothing significant follows the comment at the cursor |
| Lexing.Lexer.SkipInsignificant | src/lexer.rs:207-217 | stops at the next significant grapheme after the cursor, or at the end; fails exactly when a comment is skipped and nothing significant follows it, where the program looks past the end |
| Lexing.Lexer.Tokenize | src/lexer.rs:203-264 | the tokens read are in input order, each well formed at the first significant grapheme after the previous token, with its own line and column. Success leaves only blanks after the last token, and the token texts concatenate to the input without blanks and comments. An unexpected-character error reports the first significant grapheme after the last token, which cannot start a token, at its own line and column. An out-of-bounds error means a comment ran off the end of the input, or that grapheme is an operator character and the last one |
| Lexing.Lex | src/main.rs:29 | a fresh lexer run over an input has the outcome Tokenize states, which LexedUnique shows the input determines |
| Lexing.PastLineBreakAt | src/lexer.rs:214-215 | a comment ends just past its first line break, or at the end of the input when none follows |
| Lexing.NextSignificantStrip | src/lexer.rs:207-217 | the blanks and comments skipped before the next token contribute nothing to the input's significant text |
| Lexing.NextSignificantBlanks | src/lexer.rs:129-131 | skipping blanks does not move the start of the next token |
| Lexing.WellFormedShape | src/lexer.rs:221-256 | a well-formed token begins with a character the dispatch accepts; it is a literal exactly when that is a digit, a keyword-table word when a letter, one character for punctuation, and an operator character alone or followed by `=` |
| Lexing.TokenBegins | src/lexer.rs:221-261 | a token starts at a grapheme the dispatch accepts, and one starting with an operator character is not the last grapheme |
| Lexing.TokenNotShorter | src/lexer.rs:143-201 | two well-formed tokens read at the same place have the same length, since each is maximal |
| Lexing.TokenUnique | src/lexer.rs:219-256 | the input determines the token read at a place: text, kind, line and column |
| Lexing.TokensAgree | src/lexer.rs:203-261 | two readings of the same input agree token by token as far as both go |
| Lexing.LexedNotShorter | src/lexer.rs:203-264 | no reading of the input goes past the point where the lexer stopped |
| Lexing.LexedUnique | src/lexer.rs:203-264 | the input determines the whole outcome: the tokens, where each began, and whether and why lexing failed. So Tokenize cannot report an error on input that the lexer reads to the end |
| Parsing.ParseInt64 | src/parser.rs:68 | a parsed value is in the 64-bit signed range and the text starts with a digit or a sign |
| Parsing.ParseInt64RoundTrip | src/parser.rs:68 | every 64-bit value written in decimal parses back to itself |
| Parsing.TokenTypeToOperator | src/parser.rs:16-24 | exactly the four operator kinds have an operation |
| Parsing.GetOperatorPrecedence | src/parser.rs:26-34 | exactly the four operator kinds have a precedence, and it is never None |
| Parsing.OperatorTablesAgree | src/parser.rs:4-34 | an operator token's precedence is that of its operation; MulDiv above AddSubtract above None |
| Parsing.OperatorSpelling | src/parser.rs:16-24 | each operator kind is spelled by its operation's symbol |
| Parsing.Parser.constructor | src/parser.rs:37-42 | a new parser holds the tokens at index 0 |
| Parsing.Parser.Peek | src/parser.rs:44-46 | yields the token `offset` ahead exactly when it exists |
| Parsing.Parser.Consume | src/parser.rs:48-53 | returns the current token and advances by one |
| Parsing.Parser.Eof | src/parser.rs:55-57 | when it does not hold a token remains at the cursor; for a valid parser it holds exactly when no token is left to read |
| Parsing.Parser.ParseUnaryExpression | src/parser.rs:59-71 | fails at the end and on a non-literal without consuming; a literal yields an Int64 leaf with its value, and an out-of-range literal fails |
| Parsing.Parser.ParseOperand | src/parser.rs:74 | one literal forms an expression of the token read; failure means no expression starts here |
| Parsing.Parser.PeekOperator | src/parser.rs:80-82 | the next token, its operation and its precedence, which agree when it is an operator |
| Parsing.Parser.ParseOperation | src/parser.rs:85-89 | consumes the operator and the right operand and builds the operation over `left`. The tree is canonical, its walk is the tokens read, and parsing stopped before an operator no tighter than this one |
| Parsing.Parser.ParseExpression | src/parser.rs:73-101 | the tokens read alternate literal/operator. The tree is canonical, binds tighter than `precedence`, and its in-order walk is the tokens read. It stops at the end or before an operator no tighter than `precedence`. Failure means no expression starts at the cursor |
| Parsing.ParseAll | src/parser.rs:73-101 | parsing at precedence None succeeds iff the whole token list is one expression, and then yields the canonical tree whose walk is the token list |
| Parsing.CombineOperands | src/parser.rs:87-89 | joining two parsed operands with the operator between them keeps the tree canonical and its walk equal to the tokens |
| Parsing.AlternatesAfterOperator | src/parser.rs:85-87 | if no expression starts after an operator, none starts at the expression's beginning |
| Parsing.NotAlternating | src/parser.rs:80-82 | a token out of place spoils the expression |
| Parsing.CanonicalItems | src/parser.rs:73-101 | a canonical tree's walk has literals exactly at even positions |
| Parsing.CanonicalUnique | src/parser.rs:73-101 | two canonical trees with the same walk are equal, so the parser's tree is the only one respecting precedence and left associativity |
| Parsing.NodesAreOperators | src/parser.rs:89 | a tree has one operation node per operator in its walk |
| Parsing.OperatorTokensCounted | src/parser.rs:84-98 | an alternating token list has half its length, rounded down, operators |
| Parsing.OperationPerOperator | src/parser.rs:84-98 | the parsed tree has one operation node per operator token |
| Parsing.RightNested | src/parser.rs:84-89 | with a tighter second operator, `1 o (2 p 3)` is canonical with walk `1 o 2 p 3` |
| Parsing.LeftNested | src/parser.rs:84-98 | otherwise `(1 o 2) p 3` is canonical with walk `1 o 2 p 3` |
| Parsing.PrecedenceExample | src/parser.rs:84-89 | `1+2*3` parses to Add(1, Multiply(2, 3)) |
| Parsing.AssociativityExample | src/parser.rs:84-98 | `1-2-3` parses to Subtract(Subtract(1, 2), 3) |
| Parsing.MissingOperatorExample | src/parser.rs:80-82 | `1 2` is rejected |
| X86Backend.SizeToInstructionIndex | src/x86_generator.rs:239 | sizes 8, 16, 32, 64 select rows 0 to 3 in order; any other size is an unsupported-size error |
| X86Backend.WidthRows | src/x86_generator.rs:9-31 | exactly the types with a non-zero size have a row; byte types use `%r8b`, 64-bit types use `movq` |
| X86Backend.FirstFree | src/x86_generator.rs:65-71 | the lowest free slot, with every earlier slot taken; none only when all are taken |
| X86Backend.TakeFirstFree | src/x86_generator.rs:64-75 | a request takes the lowest free slot and the remaining free slots keep their order, so successive requests take the free slots from the lowest up |
| X86Backend.OccupancyUpdate | src/x86_generator.rs:64-82 | taking a free slot adds one to the occupancy and releasing a taken one subtracts one |
| X86Backend.OccupancyExtremes | src/x86_generator.rs:369-377 | the occupancy is at most the slot count; it equals it iff all slots are taken and is zero iff all are free |
| X86Backend.HoldsExtend | src/x86_generator.rs:269-287 | placing one more register in a free slot extends the registers held and the occupancy by one |
| X86Backend.ReleaseStep | src/x86_generator.rs:289-291 | the next argument register is still held, and releasing it keeps the others in place |
| X86Backend.ReleaseDone | src/x86_generator.rs:289-291 | once every argument register is released the pool is as it was before the call |
| X86Backend.SpellingsDistinct | src/x86_generator.rs:9-14 | different slots of a row have different register names, and different label numbers give different label lines |
| X86Backend.X86CodeGenerator.constructor | src/x86_generator.rs:40-46 | no output, label 0, all four slots free |
| X86Backend.X86CodeGenerator.Write | src/x86_generator.rs:48-56 | appends exactly one line |
| X86Backend.X86CodeGenerator.GetLabel | src/x86_generator.rs:58-62 | returns the current label number and increments it, so numbers are never reused |
| X86Backend.X86CodeGenerator.GetRegister | src/x86_generator.rs:64-75 | takes the lowest free slot for a register of the given size and changes nothing else; fails iff all four are taken |
| X86Backend.X86CodeGenerator.FreeRegister | src/x86_generator.rs:77-82 | empties exactly the register's slot; freeing a free slot is a double-free error that changes nothing |
| X86Backend.X86CodeGenerator.GenExpression | src/x86_generator.rs:272 | the expression's lines, then one fresh register of its width in the lowest free slot |
| X86Backend.X86CodeGenerator.GenNode | src/x86_generator.rs:319 | the statement's lines are appended |
| X86Backend.X86CodeGenerator.GenAssignmentInstr | src/x86_generator.rs:84-90 | reserves the symbol's stack space, then stores the register at its offset from `%rbp` |
| X86Backend.X86CodeGenerator.GenComparisonInstr | src/x86_generator.rs:92-116 | compare, set, mask; frees the left register and returns the right one, and occupancy drops by one |
| X86Backend.X86CodeGenerator.GenAddInstr | src/x86_generator.rs:118-133 | adds into the left register; frees the right one and returns the left one, and occupancy drops by one |
| X86Backend.X86CodeGenerator.GenSubtractInstr | src/x86_generator.rs:135-150 | subtracts from the left register; frees the right one and returns the left one, and occupancy drops by one |
| X86Backend.X86CodeGenerator.GenMultiplyInstr | src/x86_generator.rs:152-172 | one three-line write through the accumulator; frees the right register and returns the left one |
| X86Backend.X86CodeGenerator.GenDivideInstr | src/x86_generator.rs:174-196 | divides through the accumulator with `cltd`; frees the right register and returns the left one |
| X86Backend.X86CodeGenerator.GenNumericLiteralInstr | src/x86_generator.rs:198-215 | takes one fresh register and always moves the value into its 64-bit name with `movq` |
| X86Backend.X86CodeGenerator.GenWidenInstr | src/x86_generator.rs:217-234 | takes the result register before freeing the source. It succeeds exactly when a slot is free and the source slot is taken or is the slot just handed out; with a free slot, any failure is a double free. On success the occupancy is unchanged when the source slot was taken |
| X86Backend.X86CodeGenerator.GenIdentifierInstr | src/x86_generator.rs:236-262 | loads a variable from its stack slot or a parameter from its argument register into a fresh register; a function symbol, an unsized type or a missing argument register is an error |
| X86Backend.X86CodeGenerator.GenFunctionCallInstr | src/x86_generator.rs:264-294 | the guard rejects more than four arguments, but success needs at most two. Every argument needs a sized type and a free slot. On success the earlier output is kept, followed by each argument's code, `xor` and `mov` lines with argument `k` in the `k`-th free slot, and then the `call` line; all argument registers are released again |
| X86Backend.X86CodeGenerator.LoadArguments | src/x86_generator.rs:269-287 | loads every argument, or fails exactly when the conditions of a successful call are not met. On success argument `k` is held in a register of its width in the `k`-th free slot, and the output gains exactly the arguments' lines in order |
| X86Backend.X86CodeGenerator.LoadNext | src/x86_generator.rs:269-287 | one iteration of the argument loop takes the next free slot and appends that argument's lines, keeping the loop's state, or shows that the call cannot succeed |
| X86Backend.X86CodeGenerator.LoadArgument | src/x86_generator.rs:270-286 | evaluates one argument into a register of its width in the lowest free slot and appends its code, the `xor` of the 64-bit argument register and the `mov` into the argument register of its position and width; fails without a row, a slot or an argument register |
| X86Backend.X86CodeGenerator.ReleaseArguments | src/x86_generator.rs:289-291 | frees every argument register, restoring the pool as it was before the call |
| X86Backend.X86CodeGenerator.GenIfInstr | src/x86_generator.rs:296-330 | draws two labels. It jumps to the else label iff there is an else branch, emits the else label only then and the end label last, and leaves the pool as it was |
| X86Backend.X86CodeGenerator.GenBranches | src/x86_generator.rs:319-327 | the taken branch, the jump to the end, the else branch under its label if present, and the end label |
| X86Backend.X86CodeGenerator.GenLoopBody | src/x86_generator.rs:347-350 | the body, the jump back to the start label, and the end label |
| X86Backend.X86CodeGenerator.GenWhileInstr | src/x86_generator.rs:332-353 | draws two labels. The start label comes before the condition, then the exit jump to the end label, the body, and the jump back. The end label is last, and the pool is left as it was |
| X86Backend.X86CodeGenerator.GenFunctionInstr | src/x86_generator.rs:355-367 | a non-function symbol fails before any output; otherwise label, prologue, body and epilogue, with `ret` only for a Void return type, which alone succeeds |
| X86Backend.X86CodeGenerator.DoPostCheck | src/x86_generator.rs:369-377 | true iff every slot is free |
| X86Backend.IfLeavesPoolEmpty | src/x86_generator.rs:296-330 | an `if` without `else` on a fresh generator jumps to label 1, draws two labels and passes the post-check |
| X86Backend.ThirdArgumentFails | src/x86_generator.rs:264-284 | a call with three arguments passes the guard but fails |
| X86Backend.FifthRegisterFails | src/x86_generator.rs:64-75 | the fifth request on a fresh pool is out of registers |
| EarlyGenerator.SymbolTypeOf | src/generator.rs:56-67 | a declared tree type maps to the symbol-table type of the same width |
| EarlyGenerator.Evaluate | src/generator.rs:80-104 | a successful evaluation takes exactly the next slot, which has a register name |
| EarlyGenerator.RunAppend | src/generator.rs:50-54 | walking two statement lists in turn is walking their concatenation, stopping at the first failure |
| EarlyGenerator.RunCounts | src/generator.rs:48-78 | a successful walk declares exactly the declared names and takes one slot per assignment, never more than six |
| EarlyGenerator.RepeatedStores | src/generator.rs:37-48 | each stored literal takes one slot for good; the store that would need the seventh register fails |
| EarlyGenerator.DoubleDeclarationFails | src/generator.rs:56-59 | a name declared twice makes the walk fail |
| EarlyGenerator.DeclaredStaysDeclared | src/generator.rs:56-59 | a declaration of a name that is already declared fails |
| EarlyGenerator.AssignmentBeforeDeclarationFails | src/generator.rs:69-78 | assigning to a name no earlier statement declared makes the walk fail |
| EarlyGenerator.BlockStatements | src/generator.rs:50-54 | a block of declarations and assignments contributes exactly those, in order |
| EarlyGenerator.OutputLayout | src/generator.rs:117-139 | places the prologue at the start, the load of `x` just before the epilogue, and the epilogue last |
| EarlyGenerator.CodeGenerator.constructor | src/generator.rs:17-26 | no output, an empty scope, all seven slots free |
| EarlyGenerator.CodeGenerator.Write | src/generator.rs:28-35 | appends exactly one line |
| EarlyGenerator.CodeGenerator.GetRegister | src/generator.rs:37-46 | marks and returns the lowest free of the seven slots; fails iff all are taken |
| EarlyGenerator.CodeGenerator.FreeRegister | src/generator.rs:48 | does nothing: no slot is ever released |
| EarlyGenerator.CodeGenerator.GenExpression | src/generator.rs:80-104 | only a 32-bit literal is accepted. It takes the next slot and moves the value into that slot's register. It fails as Evaluate does, including at the seventh slot, which has no register name |
| EarlyGenerator.CodeGenerator.GenDeclaration | src/generator.rs:56-67 | a new name is added as a variable of the declared type, keeping every other binding; an existing name is a redeclaration error that changes nothing |
| EarlyGenerator.CodeGenerator.GenAssignment | src/generator.rs:69-78 | evaluates the expression before looking up the target, then stores the register at the target's offset; an unknown target is an error |
| EarlyGenerator.CodeGenerator.GenNode | src/generator.rs:106-115 | agrees with the walk of the node's statements: same success, same error, same final state, and two lines per assignment |
| EarlyGenerator.CodeGenerator.GenBlock | src/generator.rs:50-54 | generates the children in order and agrees with the walk, stopping at the first failure |
| EarlyGenerator.CodeGenerator.Gen | src/generator.rs:117-139 | the prologue, the tree's code, the load of `x` and the epilogue. It succeeds iff the walk succeeds and declares `x`, and otherwise fails with the walk's error or for the missing `x` |
| EarlyGenerator.CodeGenerator.WriteResult | src/generator.rs:129-138 | loads `x` from its offset and writes the epilogue; fails iff `x` is not declared |
| EarlyGenerator.CodeGenerator.WriteAll | src/generator.rs:118-125 | appends the lines in order |
| EarlyGenerator.DeclareAndAssign | src/generator.rs:117-139 | `var x: i32; x = 5;` succeeds with 17 lines starting with `.LC0:` |
| EarlyGenerator.WithoutResultVariable | src/generator.rs:129 | a program that never declares `x` fails for the missing variable |
| EarlyGenerator.SeventhLiteralFails | src/generator.rs:9-12 | the seventh stored literal gets a slot but no register name and fails out of bounds |

## Left out

- Output is a sequence of lines that the generators append to. The model leaves out file
  creation and writes, `println!`, `eprintln!`, and the messages of `error()` and `panic!`.
  A fatal error is an `Err` value naming its cause.
- Graphemes are single characters plus the two-character `"\r\n"`. Letters and digits are
  ASCII. Unicode segmentation and Unicode `is_alphabetic`/`is_numeric` are not modelled.
  The program dispatches on ASCII first characters only, but continues words and literals
  with Unicode letters and digits. So `aé1`, which the program reads as one identifier, is
  an unexpected-character error at `é` in the model.
- Lexing.IsAlphabetic: a letter is an ASCII letter, where the program accepts any Unicode
  letter.
- Lexing.IsNumeric: a digit is an ASCII decimal digit, where the program accepts any Unicode
  numeric character.
- Lexing.Lexer.TokenizeSingleChar: the column is the grapheme's column. The program
  subtracts the value's byte length, which is the same for the ASCII tokens modelled here.
- Literal payloads are plain integers. The `PrimitiveValue` unions, their unsafe
  reinterpretation, and the F32/F64 tree types are not modelled.
- src/main.rs is not part of this model: the command line, file reading and debug
  printing. It also calls a `Parser::parse` that the parser file does not define.
  `Parsing.ParseAll` stands for parsing a whole token list at precedence None.
- lib.c (the C printing runtime) and test.rs (a printing demo) are not part of this model.
- Some functions the x86 back end calls are not in its source files:
  - `gen_expression` is stood in for by an `Expression` that appends its lines and takes
    one register of its type's width.
  - `gen_node` is stood in for by a `Statement` that appends its lines.
  - `size_to_instruction_index` is modelled as sizes 8/16/32/64 selecting rows 0 to 3,
    with any other size an error.
  - `error()` is modelled as an `Err` result.
  - The symbol kinds it matches on (variable, parameter, function) are declared in
    `X86Backend`.
- X86Backend.X86CodeGenerator.GenNode: the stand-in for a statement always succeeds and does
  not touch the register pool. So GenIfInstr, GenBranches, GenLoopBody, GenWhileInstr and
  GenFunctionInstr assume that the body succeeds and leaves the pool as it found it. The
  condition register stays held while the body is generated, as in the program, but a body
  that runs out of registers or frees a register it did not take is not modelled.
- X86Backend.X86CodeGenerator.DoPostCheck: the program's `error()` stops the run before
  `false` would be returned. The model returns `false`.
- ScopeTable.Scope.Add: does not model 32-bit overflow of the offset counter, because
  integers are unbounded here.
- X86Backend.X86CodeGenerator.GetLabel: does not model 32-bit overflow of the label counter,
  for the same reason.
- EarlyGenerator.CodeGenerator.GenDeclaration: does not state the new symbol's offset. The
  call at src/generator.rs:61-65 passes `last_offset + 4` where `Scope::add` expects a type,
  so it matches no version of the scope shown. The model passes the declared type.
- EarlyGenerator.CodeGenerator.GenExpression: the literal is written as its integer value.
  The program reads the union's 32-bit field, and that reinterpretation is not modelled.
- EarlyGenerator.CodeGenerator.GenNode: states the number of lines the walk appends and that
  earlier lines are kept, not each line's text. The texts are stated by GenExpression and
  GenAssignment.
