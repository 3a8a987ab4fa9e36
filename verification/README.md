# ASD core in Dafny

A Dafny model of the algorithmic core of the ASD course repository, with the
properties its code promises proved about the model.

**Expression engine.** The centrepiece models `libs/lib_expression/expression.cpp`:
- **Lexer.** It turns a string into Number, Identifier, bracket, Separator and Operator tokens. Each token records its position.
- **Transition table.** The fixed 12×12 category table, read by `can_transition`.
- **Reclassification.** Identifiers become functions or variables through the binding tables. `-` becomes unary or binary, and `|` opens or closes a bracket, both depending on the previous category.
- **Shunting-yard parse.** It handles four bracket kinds. The self-pairing `|…|` emits a synthetic `abs` operator.
- **Postfix evaluator.** It runs over a value stack.
- **Renderings.** The caret error message, the postfix rendering and the infix rendering.

Each stage is a pure function returning a `Result`, and the exceptions are error values carrying the data their messages embed. `double` is modelled as `real`. `std::pow` is a parameter, and so are the functions bound in the function table.

**Binding tables.** `VarTable` adds or overwrites and looks up the first match. `FunctionTable` refuses duplicate names.

**Other components:**
- the generic `UnorderedArrayTable`;
- the union-find `DSU`, with union by rank and recursive path compression, modelled as a state value that every operation returns anew;
- `TriangleMatrix`, packed upper triangular storage with element type `int`;
- the grid local-minimum descent of `libs/lib_algorithms/algorithms.cpp`, with the random start cell as a parameter.

**Files:**
- `wrappers.dfy`: `Option` and `Result`.
- `lexeme.dfy`: categories, tokens and the transition table.
- `lexer.dfy`, `parser.dfy`, `postfix.dfy`, `evaluator.dfy` and `render.dfy`: the stages of the engine.
- `expression.dfy`: constructor and `calculate` end to end.
- `parser_proofs.dfy`: what a successful parse guarantees.
- `parse_examples.dfy`: the seven expressions of `tests/test_expression.cpp:27-68`, lexed, parsed, constructed and rendered.
- `strings.dfy`: split and join.
- `lookup.dfy`: the first-match scan both binding tables use.
- `var_table.dfy` and `function_table.dfy`: the binding tables.
- `unordered_array_table.dfy`, `dsu.dfy`, `triangle_matrix.dfy` and `local_minimum.dfy`: the other components.

**The category order.** The source indexes its transition table by a twelve-valued category enum. The headers `lexeme.h`, `lexem.h` and `expression.h` declare only six categories, so none of them is the declaration `expression.cpp` uses. The order Start, End, Number, LeftBracket, RightBracket, Separator, BinaryOperator, UnaryOperator, Variable, Function, Identifier, Operator is the one under which the table at `expression.cpp:9-22` is coherent, and the model uses it.

**Facts the code implies.**
- The transition table lets no category reach Separator or follow it. An input containing `,` therefore never parses. The separator branch of the parse loop (`expression.cpp:438-448`) is modelled as written but cannot be reached. `ParserProofs.ParsedCategories` and `Expressions.Build` state this. Every bound function takes one argument, so nothing in the source needs a separator.
- `calculate` reserves a stack as long as the postfix sequence (`expression.cpp:33`). `Evaluator.EvalSplits` proves that after k tokens the value stack holds at most k more values than it started with, so from an empty stack it never outgrows that capacity.

## Model

| member | source | states |
|---|---|---|
| Lexemes.TableAgrees | libs/lib_expression/expression.cpp:9-22 | The column-wise reading of the transition table agrees with all 144 entries of the source's 0/1 matrix. |
| Lexemes.TableShape | libs/lib_expression/expression.cpp:228-230 | A Function may be followed by an opening bracket and nothing else. Nothing may follow a Separator, End, or an unreclassified Identifier or Operator. Start→End is forbidden, so a blank expression is rejected. |
| Lexer.IsValidIdentifier | libs/lib_expression/expression.cpp:201-226 | Accepts exactly a letter or underscore followed by letters, digits and underscores. |
| Lexer.NextToken | libs/lib_expression/expression.cpp:285-364 | The token that starts at a known character covers a non-empty, space-free slice beginning there and records that position. It is a Number exactly when that character is a digit and an Identifier exactly when it is a letter or underscore. A Number is a digit-led run with at most one point, and it stops only at a character that is neither a digit nor a first point. An Identifier is a valid identifier that stops only at a character that cannot continue one. Brackets, `,` and operators are one character. |
| Lexer.Tokenize | libs/lib_expression/expression.cpp:273-370 | On success, the token texts run together equal the input with its spaces deleted. Every token lies in the input at its recorded position, each ends before the next starts, and every token is well formed. On failure, the reported position holds a character that cannot start a token. |
| Lexer.PositionsIncrease | libs/lib_expression/expression.cpp:277-369 | The recorded positions of lexed tokens strictly increase. |
| Lexer.KnownCharactersLex | libs/lib_expression/expression.cpp:365-367 | "Unknown symbol" is the only way tokenizing fails: an input of characters that can start a token always lexes. |
| Lexer.NumeralLexes | libs/lib_expression/expression.cpp:287-311 | A numeral on its own, with at most one point, lexes to one Number token at position 0 holding the whole text. |
| Lexer.IdentifierLexes | libs/lib_expression/expression.cpp:314-329 | A valid identifier on its own lexes to one Identifier token at position 0 holding the whole text. |
| Lexer.FailsAtFirst | libs/lib_expression/expression.cpp:273-370 | Lexing fails at the first unknown character the scan reaches: the input cut at the reported position lexes. |
| Parser.OperatorRole | libs/lib_expression/expression.cpp:389-411 | `\|` opens a bracket exactly in unary context and closes one otherwise. `-` is unary exactly in unary context. Every other operator is binary. |
| Parser.Reclassify | libs/lib_expression/expression.cpp:378-411 | Reclassification keeps every token's text and position. Tokens other than identifiers and operators pass through unchanged. |
| Parser.ReclassifyCases | libs/lib_expression/expression.cpp:378-411 | An identifier fails with "Unknown identifier" exactly when neither table binds it. It becomes a Function exactly when the function table binds it, since functions shadow variables, and a Variable otherwise. An operator takes the role `OperatorRole` gives it after the previous category. |
| Parser.PopToLeft | libs/lib_expression/expression.cpp:439-443 | Emits the stack above the topmost opening bracket in pop order and keeps the rest, bracket included. |
| Parser.PushOperator | libs/lib_expression/expression.cpp:488-518 | Pops exactly the maximal run of operators that bind at least as tightly as the new one (strictly tighter for `^` and unary operators), stops at an opening bracket, emits them in pop order and pushes the new operator. |
| Parser.CloseBracket | libs/lib_expression/expression.cpp:450-486 | No opening bracket fails with "unexpected". A non-matching pair fails with "expected matching for". Otherwise the stack above the bracket is emitted, one `abs` is emitted for `\|…\|`, and a function waiting below the bracket is emitted right after. |
| Parser.Shunt | libs/lib_expression/expression.cpp:427-522 | Fails exactly for a separator outside brackets, with a SeparatorOutside error carrying its text and position, or for a closing bracket with no opening bracket or a non-matching one. A success only appends to the output it was given. |
| Parser.ShuntKeeps | libs/lib_expression/expression.cpp:427-522 | One shunting step loses and invents no operator: the operators on stack and output are those before plus the token's own, plus one `abs` for a closing `\|`. From an operand-free stack an operand goes to the end of the output, and the stack stays operand-free. |
| Parser.CloseBracketKeeps | libs/lib_expression/expression.cpp:450-486 | A closing bracket moves the operators above its partner, and its `abs`, to the output without losing one, and moves no operand. |
| Parser.PushKeeps | libs/lib_expression/expression.cpp:488-518 | Pushing an operator moves the popped operators to the output and the new one onto the stack, losing none. |
| Parser.Step | libs/lib_expression/expression.cpp:377-525 | A successful step appends the reclassified token to the infix and makes its category the previous one, and that category may follow the old one. A forbidden transition fails with "Unexpected lexeme". A function followed by a bracket other than `(` fails. |
| Parser.Drain | libs/lib_expression/expression.cpp:527-538 | The final unwinding fails with "missing ')'" at the topmost open bracket or function. Otherwise it emits the whole stack in pop order. |
| Parser.Finish | libs/lib_expression/expression.cpp:527-545 | Unclosed brackets are reported before a dangling end, which is reported at the length of the expression. The parse ends successfully exactly when neither applies. |
| ParserProofs.ParseChecksGrammar | libs/lib_expression/expression.cpp:413-425 | A successful parse has at least one token. Every token was reclassified in the context of the previous final category, every adjacent pair including Start→first and last→End is allowed by the table, and every function name is followed by `(`. |
| ParserProofs.ParsedCategories | libs/lib_expression/expression.cpp:378-425 | No token of a successful parse is left an Identifier or Operator, or is a Separator. |
| ParserProofs.ParseSound | libs/lib_expression/expression.cpp:427-545 | The postfix of a successful parse replays to exactly one value without ever lacking an operand. It holds no bracket, and every name and operator in it is one the evaluator can apply. |
| ParserProofs.StepAccounted | libs/lib_expression/expression.cpp:377-525 | One iteration of the parse loop keeps the books: the stack holds no operand, the output holds the operands read so far in order, and stack and output together hold every operator read so far plus one `abs` per closing `\|`. |
| ParserProofs.RunAccounted | libs/lib_expression/expression.cpp:377-525 | The whole parse loop keeps the same books. |
| ParserProofs.ParseAccounts | libs/lib_expression/expression.cpp:372-545 | The postfix of a successful parse holds exactly the operands of the reclassified tokens in the same order, and exactly their operators and functions, each once, plus one `abs` per closing `\|`. |
| Evaluator.ApplyBinary | libs/lib_expression/expression.cpp:93-110 | Fails exactly on division by zero and on an unknown operator text, with "Division by zero" for the former. Otherwise it computes left op right in that order: a sum minus the right operand, or a difference plus it, gives the left back, as does a quotient times the divisor. `*` gives the product and `^` gives pow(left, right). |
| Evaluator.ApplyUnary | libs/lib_expression/expression.cpp:65-75 | `-` negates, `abs` gives the non-negative one of v and −v, and any other text is the identity. |
| Evaluator.NumeralScaled | libs/lib_expression/expression.cpp:38 | The value read from a numeral is the integer its digits spell, the point removed, divided by ten to the number of fraction digits. |
| Evaluator.EvalToken | libs/lib_expression/expression.cpp:36-117 | Numbers and variables push one value: the numeral's value, or the table's binding, with an unbound name failing. Functions and unary operators replace the top value by its image. Binary operators pop right then left and push "left op right". The values below are untouched. Too few operands gives the matching missing-operand error. A variable fails exactly when it is unbound. Any other category is an unexpected token. |
| Evaluator.Calculate | libs/lib_expression/expression.cpp:121-133 | Succeeds exactly when the evaluation leaves one value, and returns it. An empty stack gives "Empty expression result", more than one value gives "Extra operands", and evaluation errors pass through. |
| Evaluator.EvalFollowsReplay | libs/lib_expression/expression.cpp:35-119 | On a sequence that the depth replay accepts and whose tokens are evaluable, evaluation ends with the predicted number of values unless it divides by zero. |
| Evaluator.CompleteCalculates | libs/lib_expression/expression.cpp:121-131 | A complete, evaluable postfix sequence never reaches the empty-result or extra-operands checks: it yields a value or divides by zero. |
| Evaluator.EvalSplits | libs/lib_expression/expression.cpp:31-119 | Evaluating a sequence is evaluating its first k tokens and then the rest from the stack they leave, a failure stopping it. After k tokens the stack holds at most k more values than at the start. |
| Render.ErrorMessageLines | libs/lib_expression/expression.cpp:257-271 | The error text splits into three lines: the message, the expression, and a line of pos spaces followed by the caret. |
| Render.NatToStringValue | libs/lib_expression/expression.cpp:365-367 | The position printed in "Unknown symbol at pos" reads back as the position and has no leading zero. |
| Render.PostfixWords | libs/lib_expression/expression.cpp:136-155 | The postfix rendering splits at spaces into "RPN:", "[", each token's text in order with a unary minus shown as "u-", and "]". |
| Render.InfixWords | libs/lib_expression/expression.cpp:157-171 | The infix rendering splits at spaces back into the token texts: single separating spaces and no trailing space. |
| Render.InfixContent | libs/lib_expression/expression.cpp:157-171 | Deleting the spaces of the infix rendering leaves the token texts run together. |
| Expressions.Build | libs/lib_expression/expression.cpp:24-29 | A tokenizer failure is the constructor's failure, and a parse failure is the failure of parsing the tokens. A constructed expression keeps its text. It has at least one infix token, the token texts are the non-space characters of the text in order, and none holds a space. Every adjacent pair of categories, Start and End included, is allowed by the table, a function is followed by `(`, and no Identifier, Operator or Separator is left. Its postfix holds the infix operands in the same order and every infix operator and function once, plus one `abs` per closing `\|`. Its postfix form is complete and evaluable against the tables it was built with. |
| Expressions.RunnableCalculates | libs/lib_expression/expression.cpp:31-134 | With tables against which its postfix form is complete and evaluable, which holds for every constructed expression, calculate yields a value or fails on division by zero. The missing-operand, unknown-name, unknown-operator, empty-result and extra-operands errors are unreachable. |
| Expressions.InfixRendersSource | libs/lib_expression/expression.cpp:157-171 | For every constructed expression, the infix rendering has the same non-space characters as the text and splits into the token texts. |
| ParseExamples.SimpleAddition | tests/test_expression.cpp:27-31 | With the fixture's tables, "10 + 20" is constructed with infix 10, +, 20 and postfix 10 20 +, and renders as "RPN: [ 10 20 + ]". |
| ParseExamples.VariablesAndPriorities | tests/test_expression.cpp:33-37 | With the fixture's tables, "x + y * 2" is constructed with postfix x y 2 * + and renders as "RPN: [ x y 2 * + ]". |
| ParseExamples.BracketsChangePriority | tests/test_expression.cpp:39-43 | "(x + y) * 2" is constructed with postfix x y + 2 * and renders as "RPN: [ x y + 2 * ]". |
| ParseExamples.UnaryMinusAtStart | tests/test_expression.cpp:45-49 | "-x + 5" is constructed with a leading unary minus and postfix x u- 5 +, rendered as "RPN: [ x u- 5 + ]". |
| ParseExamples.UnaryMinusInMiddle | tests/test_expression.cpp:51-55 | "5 * -y" is constructed with the minus after `*` unary and postfix 5 y u- *, rendered as "RPN: [ 5 y u- * ]". |
| ParseExamples.Functions | tests/test_expression.cpp:57-61 | "sin(x) + 1" is constructed with sin as a function and postfix x sin 1 +, rendered as "RPN: [ x sin 1 + ]". |
| ParseExamples.RightAssociativity | tests/test_expression.cpp:63-68 | "- - x" is constructed with both minuses unary and postfix x u- u-, rendered as "RPN: [ x u- u- ]". |
| VarTables.FindIndex | libs/lib_var_table/var_table.cpp:37-45 | The smallest index holding the name, or −1 exactly when the name is absent. |
| VarTables.Contains | libs/lib_var_table/var_table.cpp:33-35 | True exactly when some entry has the name. |
| VarTables.Add | libs/lib_var_table/var_table.cpp:13-21 | A present name has its first entry's value overwritten and nothing else changes. An absent name is appended as one new last entry. |
| VarTables.Get | libs/lib_var_table/var_table.cpp:23-31 | A value stored under the name, or "Variable not found" exactly when the name is absent. |
| VarTables.AddAllUnique | libs/lib_var_table/var_table.cpp:13-21 | Names stay unique under any sequence of add calls. |
| VarTables.GetAfterAdd | libs/lib_var_table/var_table.cpp:13-31 | After add, the name reads back the new value and every other name reads as before. |
| VarTables.GetUnique | libs/lib_var_table/var_table.cpp:23-31 | With unique names, get returns a value exactly when the table holds that name/value pair. |
| Lookups.FirstFrom | libs/lib_var_table/var_table.cpp:37-45 | The smallest index from i on whose name matches, or −1 exactly when no name from i on matches. |
| FunctionTables.FindIndex | libs/lib_function_table/function_table.cpp:27-35 | The smallest index holding the name, or −1 exactly when the name is absent. |
| FunctionTables.Contains | libs/lib_function_table/function_table.cpp:23-25 | True exactly when some entry has the name. |
| FunctionTables.Add | libs/lib_function_table/function_table.cpp:6-11 | A present name fails with "Function already exists" and the table is kept. A new name is appended as the last entry. |
| FunctionTables.Get | libs/lib_function_table/function_table.cpp:13-21 | The function stored under the name, or "Function not found" exactly when the name is absent. |
| FunctionTables.AddAllUnique | libs/lib_function_table/function_table.cpp:6-11 | Names stay unique under any sequence of add calls, refused ones included. |
| FunctionTables.GetAfterAdd | libs/lib_function_table/function_table.cpp:6-21 | After a successful add, the name resolves to the new function and every other name resolves as before. |
| UnorderedArrayTables.Insert | libs/lib_unordered_array_table/unordered_array_table.h:33-45 | Fails with "Key already exists" exactly when the key is present. Otherwise the new row is appended last and the earlier rows are unchanged. |
| UnorderedArrayTables.Erase | libs/lib_unordered_array_table/unordered_array_table.h:47-57 | Fails with "Key not found" exactly when the key is absent. Otherwise one row with the key is removed and the others keep their order. |
| UnorderedArrayTables.Find | libs/lib_unordered_array_table/unordered_array_table.h:59-79 | A value exactly when the key is present, and then the table holds that key/value row. |
| UnorderedArrayTables.Contains | libs/lib_unordered_array_table/unordered_array_table.h:120-123 | True exactly when some row has the key. |
| UnorderedArrayTables.IsEmpty | libs/lib_unordered_array_table/unordered_array_table.h:81-84 | True exactly when the size is zero. |
| UnorderedArrayTables.Clear | libs/lib_unordered_array_table/unordered_array_table.h:86-89 | The cleared table is empty. |
| UnorderedArrayTables.GetKeys | libs/lib_unordered_array_table/unordered_array_table.h:109-118 | The keys, one per row, in row order. |
| UnorderedArrayTables.FindAfterInsert | libs/lib_unordered_array_table/unordered_array_table.h:33-79 | After insert, the new key finds its value and every other key finds what it found before. |
| UnorderedArrayTables.FindAfterErase | libs/lib_unordered_array_table/unordered_array_table.h:47-79 | After erase in a table with unique keys, the key is not found and every other key finds what it found before. |
| UnorderedArrayTables.UpdatesKeepUnique | libs/lib_unordered_array_table/unordered_array_table.h:33-57 | Keys stay unique under insert and erase. |
| UnorderedArrayTables.SizeAfterUpdates | libs/lib_unordered_array_table/unordered_array_table.h:33-94 | Insert grows the size by one, erase shrinks it by one, and clear leaves size zero. |
| UnorderedArrayTables.KeysFound | libs/lib_unordered_array_table/unordered_array_table.h:109-123 | Every listed key is contained, and with unique rows the listed keys are distinct. |
| UnorderedArrayTables.ToStringLines | libs/lib_unordered_array_table/unordered_array_table.h:96-107 | The text splits into the header line, one `{key} : {value}` line per row in order, and nothing after the final newline. |
| Dsus.New | libs/lib_dsu/dsu.cpp:7-15 | A fresh structure of the given size is valid, and every element is its own root and representative. |
| Dsus.RepRank | libs/lib_dsu/dsu.cpp:49-55 | Ranks grow strictly along parent links, so a non-root element ranks below its representative. This is the measure under which `find_recursive` terminates. |
| Dsus.FindRecursive | libs/lib_dsu/dsu.cpp:49-55 | Returns the representative of x. Ranks are unchanged. Exactly the elements on the parent path from x up to the root get the root as parent, and every other parent is unchanged. |
| Dsus.CompressedValid | libs/lib_dsu/dsu.cpp:49-55 | Path compression keeps the rank invariant and changes no element's representative. |
| Dsus.Find | libs/lib_dsu/dsu.cpp:41-47 | Fails with out_of_range "DSU::find()" exactly for an argument outside 0..size−1. Otherwise it returns the representative and points exactly the elements on x's path at it, leaving every other parent unchanged. |
| Dsus.Unite | libs/lib_dsu/dsu.cpp:22-39 | Fails with out_of_range "DSU::unite()" exactly when an argument is outside 0..size−1, and keeps the size. |
| Dsus.LinkDistinct | libs/lib_dsu/dsu.cpp:30-38 | Linking two distinct roots changes exactly one parent: the lower-ranked root (y's on a tie) now points at the other. Only on a tie does a rank change, and then x's root gains one. The rank invariant is kept, and exactly the losing set changes representative. |
| Dsus.LinkSame | libs/lib_dsu/dsu.cpp:36-38 | Linking a root with itself only raises its rank, and every representative is kept. |
| Dsus.UniteMerges | libs/lib_dsu/dsu.cpp:22-39 | After unite, the elements of x's and y's sets have the higher-ranked root (x's on a tie) as representative. Every other element keeps its own, and the state stays valid. |
| Dsus.UniteSets | libs/lib_dsu/dsu.cpp:22-39 | After unite, two elements are together exactly when they were before, or one was with x and the other with y. |
| Dsus.UniteJoined | libs/lib_dsu/dsu.cpp:22-39 | Uniting two elements of one set changes no representative. |
| TriangleMatrices.Default | libs/lib_triangle_matrix/triangle_matrix.h:46-47 | The default matrix is valid with dimension zero. |
| TriangleMatrices.New | libs/lib_triangle_matrix/triangle_matrix.h:49-56 | Dimension n, row i of length n − i, and every cell zero. |
| TriangleMatrices.FromRows | libs/lib_triangle_matrix/triangle_matrix.h:58-80 | Succeeds exactly when the row lengths run n, n − 1, …, 1, and then holds the rows as given. Otherwise it fails with the source's invalid_argument message. |
| TriangleMatrices.At | libs/lib_triangle_matrix/triangle_matrix.h:263-274 | Fails with out_of_range exactly outside the matrix. It gives zero below the diagonal and the dense entry everywhere. |
| TriangleMatrices.Set | libs/lib_triangle_matrix/triangle_matrix.h:276-287 | Out_of_range outside the matrix and invalid_argument below the diagonal, in that order. Otherwise the matrix stays valid with the same dimension. |
| TriangleMatrices.SetThenAt | libs/lib_triangle_matrix/triangle_matrix.h:263-287 | After set, the written cell reads back the value and every other cell reads as before. |
| TriangleMatrices.Equal | libs/lib_triangle_matrix/triangle_matrix.h:92-105 | True exactly when the dimensions and every packed row agree. |
| TriangleMatrices.EqualCells | libs/lib_triangle_matrix/triangle_matrix.h:92-105 | Two matrices are equal exactly when they have the same dimension and the same entry in every cell. |
| TriangleMatrices.NotEqual | libs/lib_triangle_matrix/triangle_matrix.h:107-110 | The negation of equality. |
| TriangleMatrices.MulVec | libs/lib_triangle_matrix/triangle_matrix.h:242-261 | Fails with "Incompatible sizes" exactly on a length mismatch. Otherwise every entry equals the dense matrix × vector product. |
| TriangleMatrices.MulMat | libs/lib_triangle_matrix/triangle_matrix.h:156-185 | Fails with "Incompatible sizes" exactly on a dimension mismatch. Otherwise the diagonal-by-diagonal loops produce a valid matrix whose every cell equals the dense matrix product. |
| TriangleMatrices.ProductLower | libs/lib_triangle_matrix/triangle_matrix.h:156-185 | The dense product of two upper triangular matrices is zero below the diagonal, so the packed result loses nothing. |
| LocalMinimum.BestNeighbour | libs/lib_algorithms/algorithms.cpp:29-47 | One pass of the direction loop finds no move exactly at a local minimum. A move goes to an in-bounds neighbour strictly below the current cell and at most every neighbour, the first in the order up, left, down, right among equals. |
| LocalMinimum.Descend | libs/lib_algorithms/algorithms.cpp:7-58 | The descent terminates. It returns the value of an in-bounds cell that is a 4-neighbour local minimum, at most the start value. |
| LocalMinimum.MixedMinima | tests/test_algorithms.cpp:9-22 | Every local minimum of the first test grid holds 1 or 6. |
| LocalMinimum.MonotoneMinimum | tests/test_algorithms.cpp:24-37 | Every local minimum of the monotone test grid holds 1. |
| LocalMinimum.DescendTestGrids | tests/test_algorithms.cpp:9-37 | From any start cell, the descent returns 1 or 6 on the first test grid and 1 on the monotone grid. |

## Left out

- Floating point: `double` is exact `real` arithmetic, with no rounding, infinities, NaN or signed zero. The division check therefore compares with zero exactly.
- Evaluator.NumeralScaled: `std::stod` is modelled as the exact decimal value of the numeral. Its out_of_range on overflow is not modelled. Its invalid_argument becomes `InvalidNumber` carrying the numeral's text, because the library's own message text is not part of this model.
- Evaluator.ApplyBinary: `std::pow` is a parameter with no properties. The functions bound in the function table are arbitrary `real -> real` values.
- Evaluator.EvalToken: the InvalidNumber branch stands for `std::stod` rejecting a numeral. Every Number token the lexer produces is a valid numeral, so that branch is unreachable from a constructed expression.
- `Expression::to_substituted_string` (`expression.cpp:173-199`) is not modelled: it is the stream formatting of doubles.
- `get_priority` and `is_matching_pair` are plain tables, `Parser.Priority` and `Parser.IsMatchingPair`. Their use is stated through `Parser.PushOperator` and `Parser.CloseBracket`.
- The failing constructions of `tests/test_expression.cpp:73-164` are not restated as concrete examples. The errors they look for are stated in general by `Parser.ReclassifyCases`, `Parser.Step`, `Parser.CloseBracket`, `Parser.Finish` and `Render.ErrorMessageLines`.
- `Stack(size)` (`stack.h:31-33`) only calls `TVector::reserve`, which is not modelled. `tests/test_stack.cpp:8-10` expects `Stack(0)` to throw invalid_argument. If it does, the stack `parse` sizes to the token count (`expression.cpp:375`) throws on a blank input. The model instead lets a blank input reach the Start→End check and fail with "Unexpected end of expression".
- `parse` reclassifies the infix tokens in place, so a failed parse leaves a partly reclassified infix inside an object whose constructor threw. The model returns the infix only on success.
- The console front-end, the calculator facade, the floating-point math helpers and the geometry code are outside the core.
- TVector, MVector, Matrix, List, Stack and the other containers are represented by Dafny sequences.
- TriangleMatrices.New: the sized constructor's entries are modelled as zero, because `MVector(n)` leaves element initialisation to `TVector`, which is not modelled. The matrix product overwrites every entry it keeps, so `TriangleMatrices.MulMat` does not depend on this.
- TriangleMatrix `+`, `-`, scalar `*` and `/` (`triangle_matrix.h:124-154`, `triangle_matrix.h:208-228`) and the compound assignments (`triangle_matrix.h:187-240`) are not modelled: each is a row-by-row loop over `MVector` arithmetic, which is not modelled. The copy constructor and assignment only copy the size and the rows. The element type is `int` without overflow.
- Dsus.Unite: ranks are `int` (`dsu.cpp:9`) and grow by one on every unite of two elements of one set (`dsu.cpp:36-38`). The model's ranks are unbounded. The overflow after 2^31−1 such unites is not modelled.
- `DSU::count` and `_count` are declared without a definition and are not modelled. The destructor only frees memory.
- `VarTable::remove` is declared without a body and is not modelled.
- The stale headers `lexeme.h`, `lexem.h` and `expression.h` are not modelled.
- LocalMinimum.Descend: the random start (`algorithms.cpp:8-14`) is the `start` parameter. The grid must have at least one cell and equal-length rows. For an empty matrix the source's uniform distribution over 0..rows−1 is undefined.
- UnorderedArrayTables.ToString: the stream output of keys and values is given as two printing functions. `ToStringLines` needs their texts to hold no newline.
- The pointer returned by `find` allows writing through it. The model returns the value only.
