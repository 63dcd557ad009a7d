# 9cc front end, modelled in Dafny

This project models the front end of a small C compiler written in Go: the
tokenizer, the recursive-descent parser with its local-variable table, and the
code generator for expressions. Each part is written as pure functions over
immutable data, and each has a partner definition that its behaviour is proved
against:

- **Tokenizer** (`lexer.dfy`, partner `Layout` and `WellClassified`). A rune
  sequence becomes a list of tokens ending in EOF. The recognisers are tried in
  the original's order at every position: white space, then a one- or two-rune
  symbol, then a reserved word, then an identifier, then a number.
  - On success, the tokens are non-empty slices of the input at increasing
    positions, separated only by white space.
  - Each token is classified the way its recogniser would read it.
  - On failure, the error names a rune that no recogniser accepts, or a digit
    run too large for `strconv.Atoi`.
- **Token cursor** (`cursor.dfy`). The original's global `token` variable
  becomes an index into the token list. `consume`, `expect` and the other
  helpers return the next index, or an error at the current token's position.
- **Local variables** (`locals.dfy`). The variable list is a sequence, newest
  first. The first lookup of a name creates it in the next 8-byte slot below
  the frame base.
- **Parser** (`parser.dfy`, partner: the printer in `unparse.dfy`).
  - One function per grammar rule; each `(...)*` loop becomes a `...Rest`
    function that carries the tree built so far.
  - The partner printer writes a tree back as tokens, with the fewest
    parentheses the grammar needs.
  - The round-trip lemmas prove that the parser rebuilds exactly the printed
    tree, for expressions (`parser_props.dfy`) and for statements and programs
    (`stmt_props.dfy`).
  - `desugar_props.dfy` covers what the printer never writes: `>`, `>=` and
    unary signs. It also covers how chains of operators group.
- **Code generator** (`codegen.dfy`). The instructions the original prints
  become a returned instruction list.
  - Its partners are an abstract x86-64 stack machine (`asm.dfy`) and an
    evaluator of expressions (`semantics.dfy`).
  - `CodegenProps.GenComputes` proves that the code of every expression the
    generator handles computes that expression's value. Running the code from
    any machine state pushes exactly that value and leaves the frame memory as
    the expression's assignments leave it. The code traps exactly when the
    evaluation divides by zero.

Failures that the original reports with `fatal`/`fatalAt` (which print and
exit) are `Fail(error)` values of `Result` (`outcomes.dfy`), and carry the
position the original would report.

The statement keywords are read in one particular way. `tokenize.go` defines
only four token kinds, and it emits `if`, `else`, `while`, `for` and `return` as
reserved-word tokens. `parse.go` instead calls `consumeKind(tkIf)` and similar,
with kinds that `tokenize.go` does not declare. The model reads each such call
as consuming the reserved word of that name. This is the only reading under
which the tokenizer's output can reach those branches.

## Model

| member | source | states |
|---|---|---|
| Lexer.IsReservedSymbol | tokenize.go:148-164 | 2 exactly when one of `<=`, `>=`, `==`, `!=` starts at the position; 1 exactly when none does and the rune is one of the fourteen one-rune symbols; otherwise 0; never past the input |
| Lexer.WordFrom | tokenize.go:176-191 | the index of the first reserved word, in the original's list order, that occurs at the position and is not followed by an identifier rune; none exactly when no later word does |
| Lexer.IsReservedWord | tokenize.go:166-192 | a positive length only for a reserved word that occurs at the position and is not followed by an identifier rune; 0 exactly when no reserved word does |
| Lexer.IsIdent | tokenize.go:194-204 | 0 exactly when the rune cannot start an identifier; otherwise the maximal run of identifier runes from the position |
| Lexer.TokenCharsEnd | tokenize.go:199-202 | the first index at or after the start whose rune is not an identifier rune; all runes before it are identifier runes |
| Lexer.IsNumber | tokenize.go:206-212 | the maximal run of digits from the position, possibly empty |
| Lexer.DigitsEnd | tokenize.go:207-210 | the first index at or after the start whose rune is not a digit; all runes before it are digits |
| Lexer.NextToken | tokenize.go:103-141 | the token at a non-space position spells the input there and is well classified; failure is reported at that position, as "unable to tokenize" exactly for a rune no recogniser accepts, and as a bad number for a digit run beyond `Atoi`'s range |
| Lexer.NameOrNumber | tokenize.go:119-141 | once no symbol or reserved word matched: an identifier, a number valued by its digits, or the failure at that position, as for `NextToken` |
| Lexer.LayoutSkip | tokenize.go:97-101 | white space in front of a tokenization of the rest is absorbed into it |
| Lexer.LayoutCons | tokenize.go:104-138 | a token spelled at the start of the remaining input, followed by a tokenization of what comes after it, is a tokenization of the remaining input |
| Lexer.Lex | tokenize.go:96-145 | success gives tokens that are non-empty input slices at increasing positions, separated only by white space, ending in one EOF token at the input's end; failure lies at or after the start and names an unacceptable rune, or an oversized digit run that starts where a token can start (at the start, or after a rune that is not an identifier rune) |
| Lexer.NumberAfterToken | tokenize.go:119-138 | a digit run right after a recognised token never continues it: identifiers, reserved words and numbers end where no identifier rune or digit follows |
| Lexer.LexedToken | tokenize.go:104-139 | an emitted token is the head of a tokenization of the input from its position; failures come from after it, and an oversized number is reported only where a token can start |
| Lexer.Tokenize | tokenize.go:92-146 | the whole input tokenized as for `Lex` from position 0, or a failure inside the input naming an unacceptable rune or an oversized digit run at a possible token start |
| Lexer.SymbolClassified | tokenize.go:104-109 | a recognised symbol makes a well-classified reserved token |
| Lexer.WordClassified | tokenize.go:112-117 | a recognised reserved word makes a well-classified reserved token |
| Lexer.IdentClassified | tokenize.go:119-125 | an identifier found where no reserved word matched is a well-classified identifier, and is not a reserved word |
| Lexer.NumberClassified | tokenize.go:127-138 | a digit run within `Atoi`'s range makes a well-classified number token valued by its digits |
| LexerProps.LexClassified | tokenize.go:96-145 | every token of a successful `Lex` is well classified |
| LexerProps.TokensClassified | tokenize.go:92-146 | every token of a successful tokenization is well classified |
| LexerProps.PositionsIncrease | tokenize.go:96-145 | token positions strictly increase along the list |
| LexerProps.KeywordLetters | tokenize.go:167-174 | the reserved words are at least two runes long and spelled with letters only |
| LexerProps.TokenRune | tokenize.go:96-141 | a rune inside a well-classified token is neither white space nor unacceptable |
| LexerProps.NoSpaceInTokens | tokenize.go:97-101 | no token of a successful tokenization contains white space |
| LexerProps.AdjacentNotSymbol | tokenize.go:148-164 | a token and the token right after it never join up into a two-rune symbol |
| LexerProps.TwoRuneSymbolsNotSplit | tokenize.go:151-156 | in a tokenization, no two touching tokens could have been one two-rune symbol |
| LexerProps.WordsNotSplit | tokenize.go:166-212 | identifiers, reserved words and numbers are never followed directly by a rune that would extend them, and no identifier token is a reserved word |
| LexerProps.NumbersValued | tokenize.go:127-137 | every number token is all digits, and its value is the decimal value of its text, between 0 and 2^63-1 |
| LexerProps.LayoutTail | tokenize.go:96-145 | dropping the first token of a tokenization leaves a tokenization of the input after it |
| LexerProps.Covered | tokenize.go:96-142 | every non-space rune of the input lies inside some token |
| LexerProps.UnlexableFails | tokenize.go:141 | a rune that no recogniser accepts, anywhere in the input, makes tokenizing fail |
| LexerProps.DigitInToken | tokenize.go:119-138 | a digit inside a token with no identifier rune right before it is the first rune of a number token that spans the whole digit run |
| LexerProps.TooLargeFails | tokenize.go:127-134 | a digit run too large for `Atoi`, at a possible token start, makes tokenizing fail |
| LexerProps.TokenizeSucceeds | tokenize.go:92-146 | tokenizing succeeds exactly when no rune is unacceptable and no digit run at a possible token start is too large for `Atoi` |
| Chars.IsTokenFirstChar | tokenize.go:214-216 | a rune that may start an identifier is never a digit or white space |
| Chars.IsTokenChar | tokenize.go:218-220 | a rune that may continue an identifier is exactly one that may start it or a digit, and is never white space |
| Chars.NumeralValue | tokenize.go:130-131 | the decimal numeral of `n` reads back as `n` |
| Unparse.NumTokValued | tokenize.go:127-137 | a printed number token is all digits and carries the value its digits read back as |
| Cursor.Peek | tokenize.go:30-32 | true exactly when the current token is the reserved symbol or word given |
| Cursor.Consume | tokenize.go:34-40 | steps over the current token exactly when it is the reserved symbol or word given; the cursor never passes EOF |
| Cursor.ConsumeKind | tokenize.go:42-49 | takes the current token exactly when it has the kind given |
| Cursor.Expect | tokenize.go:51-57 | steps over the symbol when `Consume` would, and otherwise fails with "not `op`" at the current token's position |
| Cursor.ExpectKind | tokenize.go:59-67 | takes the token when `ConsumeKind` would, and otherwise fails with "unexpected token" at its position |
| Cursor.ExpectNumber | tokenize.go:69-76 | returns a number token's value and the next index, and fails with "not a number" at the position of any other token |
| Cursor.AtEOF | tokenize.go:78-80 | holds at the last index, and where it holds no symbol can be consumed and no number read |
| Cursor.AtEOFOnlyAtEnd | tokenize.go:78-80 | on the tokenizer's output, holds exactly at the last index |
| LocalVars.NewLocalVar | parse.go:13-26 | pushes a variable of that name at the head, at offset 8 past the head's; a valid list stays valid when the name is new |
| LocalVars.FindLocalVar | parse.go:28-35 | none exactly when no variable has the name; otherwise the newest variable of that name |
| LocalVars.FindOrCreateLocalVar | parse.go:37-43 | a known name leaves the list unchanged and returns its variable; a new one is pushed at the next slot; a valid list stays valid, and the variable has a slot in it |
| LocalVars.GetLocalVarsOffset | parse.go:45-50 | the frame size of a valid list is 8 bytes per variable |
| LocalVars.OffsetAt | parse.go:13-26 | in a valid list the `i`-th newest variable sits at offset 8 × (count − i) |
| LocalVars.NamesDistinct | parse.go:37-43 | no two variables of a valid list share a name |
| LocalVars.SlotOf | parse.go:13-26 | every variable of a valid list has one of its slots |
| LocalVars.SlotLookup | parse.go:28-43 | looking up the name of the variable in a slot finds that same slot and leaves the list unchanged |
| LocalVars.FindOrCreateIdempotent | parse.go:37-43 | looking a name up a second time returns the same variable and does not grow the list |
| LocalVars.NamesCount | parse.go:37-43 | a valid list has as many distinct names as variables |
| LocalVars.Declare | parse.go:37-43 | looking up a sequence of names in turn keeps a list valid |
| LocalVars.DeclareNames | parse.go:37-43 | after those lookups, the names present are the old ones plus the ones looked up |
| LocalVars.FrameSizeCountsNames | parse.go:37-50 | the frame size after the lookups is 8 bytes per distinct name |
| Parser.NewNodeLVar | parse.go:149-155 | a variable node whose slot belongs to the name, found again by lookup; the list grows by at most one |
| Parser.Program | parse.go:164-170 | a parse from the start of the tokens stops at EOF, with a valid variable list whose frame holds every variable of every statement |
| Parser.ProgramFrom | parse.go:164-170 | `stmt*` up to EOF: the cursor ends at EOF, variables are only ever added, and every statement's variables are in the frame |
| Parser.Stmt | parse.go:172-221 | a statement consumes at least one token and never passes EOF, only adds variables, and keeps its variables in the frame |
| Parser.Cond | parse.go:175-177 | `( expr )` consumes its tokens and keeps its variables in the frame |
| Parser.IfStmt | parse.go:174-183 | as for `Stmt`, for `if` after the keyword |
| Parser.WhileStmt | parse.go:184-189 | as for `Stmt`, for `while` after the keyword |
| Parser.ForStmt | parse.go:190-206 | as for `Stmt`, for `for` after the keyword |
| Parser.ForAfterInit | parse.go:197-206 | builds a `for` node carrying the init clause it was given, and keeps the frame invariant |
| Parser.ForClause | parse.go:193-204 | an optional expression and its terminator, consuming at least the terminator |
| Parser.BlockRest | parse.go:210-215 | statements up to and including `}`, consuming at least the `}` |
| Parser.Expr | parse.go:223-225 | as for `AssignExpr` |
| Parser.AssignExpr | parse.go:227-234 | the cursor does not move back or pass EOF, only variables are added, and the tree's variables are in the frame |
| Parser.Equality | parse.go:236-248 | as for `AssignExpr`, at the equality level |
| Parser.EqualityRest | parse.go:239-247 | the loop keeps the invariants, starting from the tree built so far |
| Parser.Relational | parse.go:250-266 | as for `AssignExpr`, at the relational level |
| Parser.RelationalRest | parse.go:253-265 | the loop keeps the invariants, starting from the tree built so far |
| Parser.AddExpr | parse.go:268-280 | as for `AssignExpr`, at the additive level |
| Parser.AddRest | parse.go:271-279 | the loop keeps the invariants, starting from the tree built so far |
| Parser.MulExpr | parse.go:282-294 | as for `AssignExpr`, at the multiplicative level |
| Parser.MulRest | parse.go:285-293 | the loop keeps the invariants, starting from the tree built so far |
| Parser.Unary | parse.go:296-304 | as for `AssignExpr`, for a signed primary |
| Parser.Primary | parse.go:306-323 | as for `AssignExpr`, for a parenthesised expression, call, variable or number |
| ParserProps.AssignRoundTrip | parse.go:223-234 | any printable expression, printed with minimal parentheses and followed by a token no grammar loop takes, parses back to the same tree with the cursor right after it and the variables unchanged |
| ParserProps.AssignOperator | parse.go:227-234 | an assignment parses its target at the equality level and its value at the assignment level again |
| ParserProps.EqualityRoundTrip | parse.go:236-248 | the printed expression parses back at the equality level |
| ParserProps.EqualityOperator | parse.go:239-247 | `==` and `!=` take the left operand built so far and a relational right operand |
| ParserProps.RelationalRoundTrip | parse.go:250-266 | the printed expression parses back at the relational level |
| ParserProps.RelationalOperator | parse.go:253-257 | `<` and `<=` take the left operand built so far and an additive right operand |
| ParserProps.AddRoundTrip | parse.go:268-280 | the printed expression parses back at the additive level |
| ParserProps.AddOperator | parse.go:271-279 | `+` and `-` take the left operand built so far and a multiplicative right operand |
| ParserProps.MulRoundTrip | parse.go:282-294 | the printed expression parses back at the multiplicative level |
| ParserProps.MulOperator | parse.go:285-293 | `*` and `/` take the left operand built so far and a unary right operand |
| ParserProps.UnaryRoundTrip | parse.go:296-304 | the printed expression parses back at the unary level |
| ParserProps.ParenRoundTrip | parse.go:307-311 | an expression in parentheses parses back as itself |
| ParserProps.AtomRoundTrip | parse.go:306-323 | a number, variable or call parses back as itself |
| ParserProps.NumRoundTrip | parse.go:322 | a number token parses to a number node of its value |
| ParserProps.VarRoundTrip | parse.go:313-319 | a variable's name parses back to the same slot, without adding variables |
| ParserProps.CallRoundTrip | parse.go:313-318 | `name ( )` parses to a call of `name` |
| StmtProps.StmtRoundTrip | parse.go:172-221 | any printable statement, printed and followed by a token that cannot continue it, parses back to the same statement with the cursor right after it |
| StmtProps.IfThenRoundTrip | parse.go:174-183 | an `if` without `else`, followed by something other than `else`, parses back with no alternative |
| StmtProps.IfElseRoundTrip | parse.go:174-183 | an `if` with `else` parses back with both branches |
| StmtProps.WhileRoundTrip | parse.go:184-189 | a `while` statement parses back |
| StmtProps.ForRoundTrip | parse.go:190-206 | a `for` statement, with any of its three clauses empty, parses back |
| StmtProps.ClauseRoundTrip | parse.go:193-204 | an empty or present `for` clause and its terminator parse back |
| StmtProps.CondRoundTrip | parse.go:175-177 | a parenthesised condition parses back |
| StmtProps.ReturnRoundTrip | parse.go:207-209 | `return expr ;` parses back |
| StmtProps.ExprStmtRoundTrip | parse.go:216-219 | `expr ;` parses back |
| StmtProps.BlockStmtRoundTrip | parse.go:210-215 | a block statement parses back |
| StmtProps.BlockRoundTrip | parse.go:211-214 | the statements of a block and its `}` parse back |
| StmtProps.ProgramRoundTrip | parse.go:164-170 | a printed program followed by EOF parses back to the same statements, from any valid variable list |
| DesugarProps.GreaterSwaps | parse.go:258-259 | after `>` the right operand is parsed and the node built is `right < left`, for any tokens |
| DesugarProps.GreaterEqualSwaps | parse.go:260-261 | after `>=` the node built is `right <= left`, for any tokens |
| DesugarProps.MinusIsSubtraction | parse.go:300-302 | a leading `-` parses its primary and builds `0 - primary` |
| DesugarProps.PlusIsDropped | parse.go:297-299 | a leading `+` is skipped and only its primary is parsed |
| DesugarProps.GreaterRoundTrip | parse.go:250-266 | the tokens of `a > b` parse to `b < a` |
| DesugarProps.GreaterEqualRoundTrip | parse.go:250-266 | the tokens of `a >= b` parse to `b <= a` |
| DesugarProps.MinusRoundTrip | parse.go:296-304 | the tokens of `- x` parse to `0 - x` |
| DesugarProps.PrimaryFirst | parse.go:296-304 | unsigned input goes straight to `primary` |
| DesugarProps.LeftAssociative | parse.go:236-294 | two operators of one level group to the left: `a op1 b op2 d` is `(a op1 b) op2 d` |
| DesugarProps.HigherBindsTighter | parse.go:227-294 | an operator of a higher level binds tighter: `a op1 b op2 d` is `a op1 (b op2 d)` |
| DesugarProps.AssignRightAssociative | parse.go:227-234 | `x = y = v` groups as `x = (y = v)` |
| Asm.QuotRem | codegen.go:41-43 | `idiv`'s quotient rounds toward zero: dividend = divisor × quotient + remainder, and the remainder is smaller than the divisor and has the dividend's sign |
| Semantics.Apply | codegen.go:32-44 | the value of each operator; none exactly for division by zero; comparisons give 0 or 1 |
| Codegen.GenLval | codegen.go:49-57 | succeeds exactly for a variable, otherwise fails with "not an lvalue"; its code pushes one value |
| Codegen.GenCmp | codegen.go:59-72 | for a comparison: `cmp`, one `set`, then `movzb`; no net stack change |
| Codegen.OpCode | codegen.go:32-44 | an operator's instructions leave the stack depth unchanged |
| Codegen.BinaryTail | codegen.go:29-46 | pop both operands, combine them, push the result: one value less on the stack |
| Codegen.Gen | codegen.go:5-47 | succeeds exactly on numbers, variables, binary operators and assignments to a variable; fails with "not an lvalue" for any other assignment target, also one inside a `return` operand, which is compiled first; fails with "no code" for every other node and for a `return` whose operand compiles; successful code pushes exactly one value |
| CodegenProps.NumPush | codegen.go:7-9 | a number's code is `push n`, which pushes n |
| CodegenProps.LvalAddress | codegen.go:49-57 | a variable's address code pushes `rbp - offset` and changes nothing else |
| CodegenProps.LoadComputes | codegen.go:12-14 | `pop rax; mov rax, [rax]; push rax` replaces an address on the stack by the value stored there |
| CodegenProps.StoreComputes | codegen.go:19-22 | `pop rdi; pop rax; mov [rax], rdi; push rdi` stores the top value at the address below it and leaves that value on the stack |
| CodegenProps.CmpRun | codegen.go:59-72 | `cmp`, `set`, `movzb` leave 1 in `rax` when the condition holds of `rax` and `rdi`, and 0 otherwise |
| CodegenProps.CmpCode | codegen.go:61-70 | each comparison is given the condition code that decides it |
| CodegenProps.CmpComputes | codegen.go:59-72 | a comparison's code leaves the comparison's value, 0 or 1, in `rax`, and touches neither the stack nor memory |
| CodegenProps.DivComputes | codegen.go:41-43 | `cqo; idiv rdi` traps exactly when `rdi` is zero, and otherwise leaves the quotient rounded toward zero |
| CodegenProps.OpComputes | codegen.go:32-44 | an operator's code leaves the operator's value of `rax` and `rdi` in `rax`, and stops exactly when that value does not exist |
| CodegenProps.TailComputes | codegen.go:29-46 | with left and right operands on the stack, the tail replaces them by `left op right`, or stops exactly at division by zero |
| CodegenProps.GenComputes | codegen.go:5-47 | from any machine state, a compilable expression's code stops exactly when its evaluation divides by zero; otherwise it pushes the expression's value, leaves the frame memory as the expression's assignments do, and keeps `rbp` |
| CodegenProps.VarComputes | codegen.go:10-15 | a variable's code pushes the value stored at its address |
| CodegenProps.AssignComputes | codegen.go:16-23 | an assignment's code evaluates the value, stores it at the variable's address, and pushes it |
| CodegenProps.BinaryComputes | codegen.go:26-46 | a binary node's code evaluates its left then its right operand and pushes their combination |
| CodegenProps.GenPushesOne | codegen.go:5-47 | code that finishes grows the stack by exactly its static net effect, one value |

## Left out

- `9cc.go` is not part of this model. It reads one integer argument with `strconv.Atoi` and prints a program that returns it; it does not call the tokenizer, parser or code generator. `log.go` (message formatting and exit) and `printTokens` are I/O and are left out too.
- `genProgramHeader`, `genPrologue`, `genEpilogue` and `genPop` print fixed text and are not modelled. The model's frame is the memory below `rbp`. The fixed 208-byte frame reserved by `sub rsp, 208` is not modelled: the machine keeps the push/pop stack apart from frame memory. So the model cannot show what happens when more than 26 variables overflow that frame.
- Character classes are ASCII only. Go's `unicode.IsSpace`, `IsLetter` and `IsDigit` also accept non-ASCII runes.
- Registers and memory cells hold unbounded integers: 64-bit wrap-around of `add`, `sub`, `imul` and of `idiv`'s overflow case is not modelled. `strconv.Atoi`'s range limit is modelled, as the `BadNumber` failure.
- `idiv` is modelled only with a sign-extended dividend (it is only ever emitted after `cqo`). Any other `rdx` traps in the machine.
- The generator has no case for statements or calls. `gen` treats them as binary nodes: it compiles `lhs`, then `rhs`, and dereferences the first missing child, so the Go program panics. Calls, `if`, `while`, `for` and blocks have no `lhs`, so they panic at once. A `return` node has its operand as `lhs`, so the operand is compiled first. A "not a variable" error inside it exits through `fatal` before the panic. The model returns `Fail(NoCodegen)` for the panic and `Fail(NotLvalue)` for the `fatal`. `Eval` has no value for any of these nodes.
- Output the original has already printed before a `fatal` exit is not modelled. A failing stage returns only the error.
- Parser.Stmt: this contract, like the other parser functions' contracts, states only progress, variable-list growth and the frame invariant. Which tree is built is stated by the round-trip lemmas (`ParserProps`, `StmtProps`) against the printer, and by the desugaring lemmas (`DesugarProps`).
- ParserProps.AssignRoundTrip: the round trips cover printable trees only: non-negative numbers, and variables that have a slot in the current list. A negative number can only be parsed as `0 - n`, which `DesugarProps.MinusRoundTrip` covers. The round trips start and end with the same variable list, so they do not cover a parse that declares new variables; `LocalVars` and `Parser.NewNodeLVar` cover declaration.
- StmtProps.StmtRoundTrip: the printer never puts an `else` after a branch that ends in an open `if`. The original's parser gives such an `else` to the innermost `if`; the round trip covers that case only through `OpenTail`.
- The `int` reserved word is tokenized, but no grammar rule accepts it, so the parser rejects it; the model does the same.
- `Cond` is a factoring shared by `if` and `while`. It has no counterpart function in the original.
