# SasakLang core in Dafny

SasakLang is a small dynamically typed scripting language with Sasak
keywords (`gawe` for `let`, `tetep` for `const`, `yen`/`neng` for
`if`/`else`, `salama` for `while`, `kanggo` for `for`, `pungsi`, `balik`,
`bener`, `salah`, `kosong`). Its Go implementation scans source bytes into
tokens, parses them into a syntax tree and walks the tree with a
tree-walking evaluator over a chain of environments.

This project models, as pure Dafny functions over immutable data:

- the keyword table and `LookupIdent` (module `Token`);
- the scanner: `readChar`, `peekChar`, whitespace and comment skipping,
  identifiers, numbers, string literals with backslash escapes, one- and
  two-byte operators, line and column tracking, and the end-of-input
  behaviour (modules `Lexer`, `LexerFacts`);
- the runtime values, their type names and map hash keys, including
  64-bit FNV-1a for strings (module `Object`);
- environments as a store of frames, each with its bindings, its
  constant marks and its parent (module `Environment`);
- the evaluator's whole `Eval` with every helper: programs and blocks,
  `let`/`const`, `return`, `while`, `for`, `break`/`continue`, assignment,
  prefix and infix operators with 64-bit wrap-around and truncating
  division, `if`, identifiers, function literals, calls and closures,
  array and map literals, and indexing (modules `Evaluator`,
  `EvaluatorFacts`, `CallFacts`);
- the ten built-in functions, with their argument checks and results;
  the clock, random numbers and standard input come from a `Host` value
  (module `Builtins`).

Supporting modules: `Basics` (bytes, `Option`, the `Outcome` of an
evaluation, decimal rendering) and `Int64` (wrap-around and Go's
truncating `/` and `%`).

Design choices that shape the model:

- **Identity.** Go compares non-scalar objects by pointer. Every object Go
  allocates afresh carries an allocation address taken from a counter in
  the evaluator state, so Dafny equality is Go pointer equality. The
  `NULL`, `TRUE` and `FALSE` singletons are `Runtime.TheNull`
  (address 0), `Runtime.TheTrue` and `Runtime.TheFalse`.
- **Nil.** An empty block, program or function body evaluates to Go's nil
  interface, the `Obj` variant `Nil`. Wherever Go then calls a method on
  it, the Go program panics. The model returns `Abort(NilDereference)`
  there: an infix operand, unary minus, calling nil, indexing nil, nil as
  an array index or map key, nil as a map-literal key, `panjang(nil)`, and
  printing a value that holds nil.
- **Non-termination.** `Eval` takes a `fuel` argument. Each loop iteration
  and each call of a user function spends one unit. Running out gives
  `Abort(OutOfFuel)`. A `Done` result is the value and state the Go
  evaluator produces for that program.
- **Environments.** Go's `*Environment` pointers become indices into a
  sequence of frames. A frame's parent always has a smaller index, and
  frames are never removed, so closures keep the frame they captured.
  Evaluation only grows the store: every frame keeps its parent, its
  bindings and its constant marks (`Evaluator.Extends`).
- **Binary operator errors.** A binary operator on values of different
  types gives `tipe tidak cocok: …`. Two values of the same type with an
  unsupported operator give `operator tidak dikenal: …`.
- **Built-in table.** The table holds exactly ten entries: `tulis`,
  `panjang`, `jenis`, `dorong`, `pertama`, `akhir`, `acak`, `antos`,
  `waktu` and `tanya`.
- **Map literals.** The Go evaluator walks a map literal's entries by
  iterating a Go map of syntax nodes, in an unspecified order. The model
  takes the order in which the entries are written.

## Model

| member | source | states |
|---|---|---|
| Token.LookupIdent | pkg/sasaklang/token/token.go:91-96 | A word is a keyword type exactly when it is in the table of eleven reserved words, and that keyword type's text is the word itself. Any other word is IDENT. |
| Token.LookupKeywordText | pkg/sasaklang/token/token.go:76-96 | Each keyword's own text classifies as that keyword. |
| Token.KeywordTable | pkg/sasaklang/token/token.go:76-88 | The eleven reserved words map to GAWE, TETEP, YEN, NENG, SALAMA, KANGGO, PUNGSI, BALIK, BENER, SALAH and KOSONG. |
| Token.NonKeywords | pkg/sasaklang/token/token.go:74-96 | Matching is case-sensitive. The built-in names `tulis` and `tanya` are ordinary identifiers. |
| Token.KeywordsInjective | pkg/sasaklang/token/token.go:76-88 | Different reserved words have different token types. |
| Lexer.SkipWhitespace | pkg/sasaklang/lexer/lexer.go:170-174 | Stops at the first byte that is not a space, tab or carriage return. It passes only such bytes, by plain reads. |
| Lexer.SkipComment | pkg/sasaklang/lexer/lexer.go:177-181 | Stops at the first newline or end-of-input marker. It passes only other bytes. |
| Lexer.ReadIdentifier | pkg/sasaklang/lexer/lexer.go:184-190 | Returns the maximal run of letters, digits and underscores from the current byte, as a slice of the input. The scanner is left on the first byte after the run. |
| Lexer.ReadNumber | pkg/sasaklang/lexer/lexer.go:193-199 | Returns the maximal run of digits, as a slice of the input, ending on the first non-digit. |
| Lexer.StringScanReads | pkg/sasaklang/lexer/lexer.go:202-214 | The string loop reaches its stop by plain reads. The bytes it passes form a well-formed body: escapes are a backslash plus one byte. The body counts as closed exactly when the loop stopped on a quote. |
| Lexer.ReadString | pkg/sasaklang/lexer/lexer.go:202-217 | The literal is the input slice after the opening quote up to the closing quote or the end. The scanner is left one byte past that point. |
| Lexer.RuneString | pkg/sasaklang/lexer/lexer.go:220-222 | An ASCII byte becomes itself. A byte of 0x80 or more becomes two bytes, a lead byte 0xC2 or 0xC3 and a continuation byte, whose payload bits spell the byte's value: its UTF-8 encoding, as Go's string(byte) conversion gives. |
| Lexer.TokenAt | pkg/sasaklang/lexer/lexer.go:60-166 | A token carries the line and column of its first byte, keeps the input, and always advances. |
| Lexer.TokenStart | pkg/sasaklang/lexer/lexer.go:51-58 | The token's first byte is neither whitespace nor `#`. Comments are skipped before the position is recorded. |
| Lexer.NextToken | pkg/sasaklang/lexer/lexer.go:51-167 | Every call consumes at least one byte, even at or past the end of input. |
| Lexer.NextTokenReads | pkg/sasaklang/lexer/lexer.go:51-167 | The state after a token is reached from the state before it by plain `readChar` steps. |
| LexerFacts.TokenPosition | pkg/sasaklang/lexer/lexer.go:25-58 | A token's line is one plus the number of newlines before it. Its column is its distance from the last newline. The scanner keeps tracking this afterwards. |
| LexerFacts.LineStartColumn | pkg/sasaklang/lexer/lexer.go:34-39 | The first byte of a line is in column 1. |
| LexerFacts.NewlineToken | pkg/sasaklang/lexer/lexer.go:140-141 | A newline is a NEWLINE token with literal `\n`, reported on the line that follows it, in column 0. `readChar` has already advanced the line when the token is made. |
| LexerFacts.SymbolTable | pkg/sasaklang/lexer/lexer.go:60-130 | `==`, `!=`, `<=`, `>=`, `&&` and the double vertical bar (or) are two-byte tokens. The other operator and delimiter bytes are one-byte tokens. A lone `&` or a lone vertical bar is ILLEGAL. |
| LexerFacts.OperatorToken | pkg/sasaklang/lexer/lexer.go:60-130 | An operator token has the table's type and literal. The scanner advances by the operator's width. |
| LexerFacts.MinusIsSeparate | pkg/sasaklang/lexer/lexer.go:70-71 | `-` is always a MINUS token of its own, so a negative number is two tokens. |
| LexerFacts.IdentifierAt | pkg/sasaklang/lexer/lexer.go:147-152 | An identifier token is the maximal identifier run starting at a letter, typed by LookupIdent. |
| LexerFacts.NumberAt | pkg/sasaklang/lexer/lexer.go:153-158 | A number token is the maximal digit run, of type INT. |
| LexerFacts.StringAt | pkg/sasaklang/lexer/lexer.go:131-136 | A string token is of type STRING. Its literal is the raw bytes between the quotes, escapes kept. It ends at the first quote not escaped by a backslash, or at the end marker. |
| LexerFacts.BodyQuotesEscaped | pkg/sasaklang/lexer/lexer.go:202-214 | Every quote inside a string literal's text is preceded by a backslash. |
| LexerFacts.CommentEnd | pkg/sasaklang/lexer/lexer.go:177-181 | Skipping a comment stops exactly at the first newline after it. |
| LexerFacts.CommentKeepsNewline | pkg/sasaklang/lexer/lexer.go:137-139 | A `#` comment yields no token. The newline that ends it is the next token. |
| LexerFacts.EndOfInputToken | pkg/sasaklang/lexer/lexer.go:142-146 | At the end-of-input marker the token is EOF with an empty literal. |
| LexerFacts.EofForever | pkg/sasaklang/lexer/lexer.go:25-30 | Once past the input, every further token is EOF. |
| Object.Fnv1a | pkg/sasaklang/object/object.go:63-67 | A string's hash is a 64-bit value. |
| Object.FnvFoldAppend | pkg/sasaklang/object/object.go:63-67 | Hashing s then t continues from the state after s. This is the streaming property of FNV-1a. |
| Object.FnvTestVectors | pkg/sasaklang/object/object.go:63-67 | The hash matches FNV-1a 64: the empty string gives the offset basis 0xcbf29ce484222325, and "a" gives 0xaf63dc4c8601ec8c. |
| Object.HashKeyOf | pkg/sasaklang/object/object.go:52-89 | Exactly integers, strings and booleans are hashable. The key records the value's type and a 64-bit payload. |
| Object.IntKeyInjective | pkg/sasaklang/object/object.go:52-54 | Different integers have different keys, because the int64-to-uint64 conversion is a bijection. |
| Object.BoolKeyInjective | pkg/sasaklang/object/object.go:81-89 | true and false have different keys. |
| Object.KeysOfDifferentTypes | pkg/sasaklang/object/object.go:39-43 | Values of different types never share a key. |
| Object.OneIsNotTrue | pkg/sasaklang/object/object.go:52-89 | 1 and true have the same payload but different keys. |
| Int64.Wrap | pkg/sasaklang/evaluator/evaluator.go:336-372 | Integer results are reduced modulo 2^64 into the int64 range. In-range values are unchanged. |
| Int64.WrapUnique | pkg/sasaklang/evaluator/evaluator.go:336-372 | The wrapped value is the only int64 congruent to the exact one. |
| Int64.QuotRem | pkg/sasaklang/evaluator/evaluator.go:336-372 | Go's `/` and `%` satisfy a = b*q + r, with the absolute value of r below that of b, and r zero or of a's sign. |
| Int64.DivExact | pkg/sasaklang/evaluator/evaluator.go:336-372 | Division is the truncated quotient, except that MinInt64 / -1 wraps to MinInt64 with remainder 0. |
| Int64.ToUint64Injective | pkg/sasaklang/object/object.go:52-54 | The uint64 view of an int64 loses nothing. |
| Basics.DecimalRoundTrip | pkg/sasaklang/builtins/builtins.go:92-94 | The `%d` rendering of a count reads back to the count. |
| Basics.DecimalInjective | pkg/sasaklang/builtins/builtins.go:92-94 | Different counts render differently. |
| Environment.NewEnvironment | pkg/sasaklang/object/object.go:206-212 | A fresh store holds one empty frame with no parent. |
| Environment.NewEnclosedEnvironment | pkg/sasaklang/object/object.go:215-219 | Adds one new empty frame whose parent is the given frame, and leaves the existing frames unchanged. |
| Environment.GetIsFirstBinding | pkg/sasaklang/object/object.go:222-228 | Get returns the binding in the first frame along the parent chain that binds the name, and fails when none does. |
| Environment.EnclosedSeesOuter | pkg/sasaklang/object/object.go:215-228 | A new enclosed frame sees exactly the bindings and constant marks of its parent. |
| Environment.Set | pkg/sasaklang/object/object.go:231-234 | Binds the name in that frame only. Other names keep their bindings and values, and the constant marks, the parent and the other frames are unchanged. |
| Environment.GetAfterSet | pkg/sasaklang/object/object.go:222-234 | After Set, Get of that name in that frame returns the new value. Other names read as before. |
| Environment.GetOtherName | pkg/sasaklang/object/object.go:222-241 | Set or SetConst of one name never changes what Get returns for another name, in any frame. |
| Environment.SetElsewhere | pkg/sasaklang/object/object.go:222-234 | A Set in a frame outside a frame's chain is invisible from that frame. |
| Environment.SetConst | pkg/sasaklang/object/object.go:237-241 | Binds like Set and adds the name to that frame's constant marks. |
| Environment.SetConstMarks | pkg/sasaklang/object/object.go:237-252 | After SetConst in a frame on the chain, IsConst holds for that name. |
| Environment.SetKeepsConstMarks | pkg/sasaklang/object/object.go:231-252 | A plain Set never changes IsConst, so `gawe` after `tetep` keeps the name constant. |
| Environment.IsConstInChain | pkg/sasaklang/object/object.go:244-252 | IsConst holds exactly when some frame on the chain marks the name. An inner non-constant binding does not hide an outer mark. |
| Environment.UpdateIsSetAtBinder | pkg/sasaklang/object/object.go:255-264 | Update is a Set in the first frame on the chain that binds the name. It fails when no frame binds it. |
| Environment.UpdateNeedsBinding | pkg/sasaklang/object/object.go:255-264 | Update succeeds exactly when Get finds the name. |
| Environment.UpdateThenGet | pkg/sasaklang/object/object.go:255-264 | After a successful Update, Get returns the new value, and no frame gains or loses a name. |
| Runtime.NativeBool | pkg/sasaklang/evaluator/evaluator.go:276-281 | Returns the TRUE or FALSE singleton carrying the given truth. |
| Runtime.FreshNull | pkg/sasaklang/builtins/builtins.go:174-176 | A null a built-in allocates is not the NULL singleton. |
| Builtins.TableCoversBuiltins | pkg/sasaklang/builtins/builtins.go:48-59 | Every built-in has exactly one name in the table. |
| Builtins.CountErrorReadsBack | pkg/sasaklang/builtins/builtins.go:92-94 | An arity error ends with the decimal argument count, which reads back to the count. |
| Builtins.TrimNewline | pkg/sasaklang/builtins/builtins.go:87 | Removes exactly one trailing newline, when there is one. |
| Builtins.Panjang | pkg/sasaklang/builtins/builtins.go:91-104 | For a string or array, the result is its length. Any other count of arguments or type of argument gives the matching error, and nil panics. |
| Builtins.Jenis | pkg/sasaklang/builtins/builtins.go:107-135 | Integers are `angka`, strings `teks`, booleans `boolean`, nulls `kosong`, arrays `array`, maps `map`, functions `fungsi` and built-ins `fungsi_bawaan`. It is `tidak_dikenal` exactly for return values, errors, loop signals and nil. A wrong arity gives an error. |
| Builtins.JenisSeparatesTypes | pkg/sasaklang/builtins/builtins.go:107-135 | For known types, two values get the same word exactly when they have the same type. |
| Builtins.Dorong | pkg/sasaklang/builtins/builtins.go:146-161 | Returns a new array, distinct from the argument, holding the old elements followed by the pushed value. Otherwise it returns the arity or type error. |
| Builtins.Pertama | pkg/sasaklang/builtins/builtins.go:164-179 | The first element. An empty array gives a fresh null. Otherwise it returns the arity or type error. |
| Builtins.Akhir | pkg/sasaklang/builtins/builtins.go:182-197 | The last element. An empty array gives a fresh null. Otherwise it returns the arity or type error. |
| Builtins.DorongThenRead | pkg/sasaklang/builtins/builtins.go:146-197 | After a push, the length grows by one, `akhir` reads the pushed value, and `pertama` reads the old first element. |
| Builtins.Acak | pkg/sasaklang/builtins/builtins.go:30-45 | The result is an integer exactly for one positive integer argument, and it lies in [0, n). Otherwise it returns the arity, type or range error. |
| Builtins.Antos | pkg/sasaklang/builtins/builtins.go:15-27 | For one integer argument, the result is a fresh null. Otherwise it returns the arity or type error. |
| Builtins.Waktu | pkg/sasaklang/builtins/builtins.go:138-143 | The result is an integer exactly when there are no arguments. Otherwise it returns the error. |
| Builtins.Tulis | pkg/sasaklang/builtins/builtins.go:62-69 | Returns a fresh null. It panics exactly when an argument's rendering meets nil. |
| Builtins.Tanya | pkg/sasaklang/builtins/builtins.go:72-88 | More than one argument is an error. A read line is returned with exactly one trailing newline removed when it ends in one, and unchanged otherwise. A failed read gives `gagal membaca input`. It panics exactly when the prompt's rendering meets nil. |
| Builtins.CallBuiltin | pkg/sasaklang/builtins/builtins.go:48-59 | Built-ins never change any binding. They only allocate. |
| Evaluator.Bang | pkg/sasaklang/evaluator/evaluator.go:294-305 | `!x` is the boolean negation of x's truthiness. |
| EvaluatorFacts.DoubleBang | pkg/sasaklang/evaluator/evaluator.go:294-305 | `!!x` is the truthiness of x as a boolean singleton. |
| EvaluatorFacts.IfChooses | pkg/sasaklang/evaluator/evaluator.go:390-403 | An abort or error in the condition is the result. A truthy condition runs the consequence block. A falsy one runs the alternative block, or yields NULL when there is none. |
| EvaluatorFacts.IfExamples | pkg/sasaklang/evaluator/evaluator.go:390-403 | `yen (1 > 2) { 10 } neng { 20 }` is 20, `yen (1) { 10 }` is 10, and `yen (salah) { 10 }` is NULL. |
| EvaluatorFacts.TruthOfValues | pkg/sasaklang/evaluator/evaluator.go:405-416 | Only NULL and FALSE are false. 0, the empty string, nil and a built-in's fresh null are true. |
| Evaluator.EvalPrefix | pkg/sasaklang/evaluator/evaluator.go:283-313 | `!` never fails. `-` negates an integer with wrap-around and is an unknown-operator error on other types. Other operators are unknown-operator errors. Any operator except `!` panics on nil. |
| EvaluatorFacts.NegateMinimum | pkg/sasaklang/evaluator/evaluator.go:307-313 | `-` of the smallest int64 is itself. |
| Evaluator.IntegerInfix | pkg/sasaklang/evaluator/evaluator.go:336-372 | Arithmetic gives integers. `<`, `>`, `<=`, `>=`, `==` and `!=` give TRUE or FALSE according to that comparison of the two integers. Division or remainder by zero is `pembagian dengan nol`. Other operators are unknown-operator errors. |
| EvaluatorFacts.ArithmeticWraps | pkg/sasaklang/evaluator/evaluator.go:336-372 | `+`, `-` and `*` are the exact results modulo 2^64, and equal them when they fit. |
| EvaluatorFacts.DivisionTruncates | pkg/sasaklang/evaluator/evaluator.go:336-372 | `/` and `%` truncate toward zero and recombine to the dividend. The one overflowing case wraps. |
| EvaluatorFacts.DivisionByZero | pkg/sasaklang/evaluator/evaluator.go:62-71 | `a / 0` and `a % 0` evaluate to the division-by-zero error and change nothing. |
| Evaluator.StringInfix | pkg/sasaklang/evaluator/evaluator.go:374-388 | `+` concatenates. `==` and `!=` compare contents. Anything else is an unknown-operator error. |
| Evaluator.EvalInfix | pkg/sasaklang/evaluator/evaluator.go:315-334 | The operator panics exactly as Go's calls on nil do. Two integers or two strings are dispatched to their own operators. |
| EvaluatorFacts.InfixOnOtherOperands | pkg/sasaklang/evaluator/evaluator.go:321-333 | For other operands: `==` and `!=` compare identity, and the and/or operators combine truthiness. Otherwise different types give `tipe tidak cocok` and equal types give `operator tidak dikenal`. |
| EvaluatorFacts.UniversalOpsSymmetric | pkg/sasaklang/evaluator/evaluator.go:315-388 | On non-nil operands `==`, `!=`, `&&` and the or operator give the same result with the operands swapped, `==` always gives a boolean, and `!=` gives its opposite. |
| EvaluatorFacts.AndOnIntegers | pkg/sasaklang/evaluator/evaluator.go:317-318 | `1 && 2` is an unknown-operator error, because integers take the integer path first. |
| EvaluatorFacts.EqualityIsIdentity | pkg/sasaklang/evaluator/evaluator.go:321-322 | Two arrays with equal elements are equal only when they are the same object. An integer never equals a string. |
| EvaluatorFacts.FreshNullIsNotNull | pkg/sasaklang/evaluator/evaluator.go:321-322 | A built-in's fresh null is true and is not `==` to `kosong`. |
| EvaluatorFacts.NilOperands | pkg/sasaklang/evaluator/evaluator.go:315-334 | A nil left operand always panics, and so does nil beside an integer. A boolean compared to nil with `==` is false. |
| EvaluatorFacts.InfixLeftErrorFirst | pkg/sasaklang/evaluator/evaluator.go:62-66 | An error on the left is the result, and the right side is never evaluated. |
| EvaluatorFacts.InfixRightError | pkg/sasaklang/evaluator/evaluator.go:67-70 | An error on the right is the result. |
| EvaluatorFacts.InfixOfValues | pkg/sasaklang/evaluator/evaluator.go:62-71 | Without errors, the operator is applied to both values, in the state after both were evaluated. |
| Evaluator.EvalIdentifier | pkg/sasaklang/evaluator/evaluator.go:418-428 | An environment binding comes first, then a built-in of that name, and otherwise the undefined-variable error. |
| Evaluator.Unwrap | pkg/sasaklang/evaluator/evaluator.go:469-474 | A return value gives its content. Anything else is returned unchanged. |
| Evaluator.ApplyOther | pkg/sasaklang/evaluator/evaluator.go:444-455 | Calling nil panics. Calling a non-function gives `bukan fungsi: <type>`. |
| Evaluator.EvalIndex | pkg/sasaklang/evaluator/evaluator.go:476-513 | Indexing panics exactly on nil. Arrays return the element in range and NULL otherwise. Maps return the stored value or NULL, and an unhashable key is an error. Other types cannot be indexed. |
| Evaluator.Assigned | pkg/sasaklang/evaluator/evaluator.go:272 | Assignment writes the value where the name is bound, and adds no name to any frame. |
| Evaluator.FunctionLiteral | pkg/sasaklang/evaluator/evaluator.go:78-86 | A new function capturing the current frame. A named one is also bound there. |
| CallFacts.NamedFunctionBinds | pkg/sasaklang/evaluator/evaluator.go:78-86 | After a named function literal, its name reads back as that very function. |
| EvaluatorFacts.RunBlockAppend | pkg/sasaklang/evaluator/evaluator.go:137-152 | Running a+b is running a, then b unless a ended on a signal. |
| EvaluatorFacts.BlockStopsAtSignal | pkg/sasaklang/evaluator/evaluator.go:140-148 | A block stops at the first return, error, break or continue, and yields that object. |
| EvaluatorFacts.EmptyYieldsNil | pkg/sasaklang/evaluator/evaluator.go:120-152 | An empty block or program yields nil. |
| EvaluatorFacts.ProgramUnwrapsReturn | pkg/sasaklang/evaluator/evaluator.go:120-135 | A program stops at a return and yields its content. A block passes the wrapped value on. |
| EvaluatorFacts.ProgramPassesLoopSignals | pkg/sasaklang/evaluator/evaluator.go:123-132 | At top level, break and continue do not stop the program. Inside a block they do. |
| EvaluatorFacts.WhileFalseAtStart | pkg/sasaklang/evaluator/evaluator.go:172-183 | A loop whose condition is false at once yields NULL. |
| EvaluatorFacts.WhileConditionError | pkg/sasaklang/evaluator/evaluator.go:176-179 | An error in the condition ends the loop with that error. |
| EvaluatorFacts.WhileBodySignals | pkg/sasaklang/evaluator/evaluator.go:185-193 | break ends the loop with NULL. return and errors leave the loop as they are. |
| EvaluatorFacts.WhileEndsOnContinue | pkg/sasaklang/evaluator/evaluator.go:175-201 | When the last pass ended with continue and the condition then fails, the loop's value is the continue object itself. |
| EvaluatorFacts.WhileRepeats | pkg/sasaklang/evaluator/evaluator.go:185-199 | A body that ends normally or with continue sends the loop back to its test. That body result becomes the loop's value so far. |
| EvaluatorFacts.ForTestEnds | pkg/sasaklang/evaluator/evaluator.go:217-227 | In a for loop, an error in the test ends the loop with that error. A false test ends it with the last body result. |
| EvaluatorFacts.ForBodySignals | pkg/sasaklang/evaluator/evaluator.go:229-238 | In a for loop, break ends the loop with NULL. return and errors leave it as they are. |
| EvaluatorFacts.WhileYieldsNoBreak | pkg/sasaklang/evaluator/evaluator.go:172-202 | A finished while loop never yields a break signal, whatever number of iterations it runs, and the store only grows. Proved by induction over the iterations. |
| EvaluatorFacts.ForYieldsNoBreak | pkg/sasaklang/evaluator/evaluator.go:217-254 | A finished for loop never yields a break signal, whatever number of iterations it runs, and the store only grows. Proved by induction over the iterations. |
| EvaluatorFacts.LoopsYieldNoBreak | pkg/sasaklang/evaluator/evaluator.go:172-254 | A `salama` or `kanggo` statement never lets a break escape, including after a for loop's initialiser. |
| EvaluatorFacts.ForContinueRunsUpdate | pkg/sasaklang/evaluator/evaluator.go:239-251 | In a for loop, a body that ends normally or with continue runs the update. An error there ends the loop; otherwise the loop goes back to its test. |
| EvaluatorFacts.ForBindsInOwnFrame | pkg/sasaklang/evaluator/evaluator.go:204-227 | A for loop runs its initialiser in a new frame. The loop variable lives there and the enclosing frame is untouched. |
| EvaluatorFacts.LetBindsHere | pkg/sasaklang/evaluator/evaluator.go:154-161 | `gawe` binds the value in the current frame, yields it, and changes no constant mark. |
| EvaluatorFacts.BindingValueError | pkg/sasaklang/evaluator/evaluator.go:154-170 | An error in the value is the result, and nothing is bound. |
| EvaluatorFacts.ConstMarks | pkg/sasaklang/evaluator/evaluator.go:163-170 | `tetep` binds the value and marks the name constant. |
| EvaluatorFacts.AssignToConstant | pkg/sasaklang/evaluator/evaluator.go:258-260 | Assigning to a constant is an error. The right side is not evaluated and nothing changes. |
| EvaluatorFacts.AssignToUnbound | pkg/sasaklang/evaluator/evaluator.go:263-265 | Assigning to an unbound name is the undefined-variable error, and nothing changes. |
| EvaluatorFacts.AssignUpdates | pkg/sasaklang/evaluator/evaluator.go:256-274 | A valid assignment yields the value and writes it to the name's binding. No frame gains a name. |
| EvaluatorFacts.ConstantKeepsValue | pkg/sasaklang/evaluator/evaluator.go:256-274 | `tetep PI = 3; PI = 4` ends with the constant error, and PI is still 3. |
| EvaluatorFacts.LetOverridesConstant | pkg/sasaklang/evaluator/evaluator.go:154-170 | `let` makes no constant check: `tetep PI = 3` then `gawe PI = 4` rebinds PI to 4, and PI stays constant. |
| CallFacts.EvalExprsShape | pkg/sasaklang/evaluator/evaluator.go:430-442 | Either a single error, or one error-free value per expression after the ones already evaluated. |
| CallFacts.CalleeErrorFirst | pkg/sasaklang/evaluator/evaluator.go:87-91 | An error from the callee is the result of the call. |
| CallFacts.ArgumentErrorStopsCall | pkg/sasaklang/evaluator/evaluator.go:92-95 | An error in the first argument is the result of the call. |
| CallFacts.CallingNonFunctions | pkg/sasaklang/evaluator/evaluator.go:444-455 | `5()` is `bukan fungsi: INTEGER`, and calling nil panics. |
| CallFacts.BindParamsFrame | pkg/sasaklang/evaluator/evaluator.go:460-464 | Parameter binding touches only the new frame. It adds exactly the parameters that have an argument. |
| CallFacts.BindParamsValues | pkg/sasaklang/evaluator/evaluator.go:460-464 | A parameter is bound to the argument at its last position. |
| CallFacts.BindParamsKeeps | pkg/sasaklang/evaluator/evaluator.go:460-464 | Names without an argument keep their earlier binding. |
| CallFacts.ExtendFunctionEnvBinds | pkg/sasaklang/evaluator/evaluator.go:457-467 | A call frame is new, its parent is the closure's frame, and it holds no constants. It binds exactly the parameters that have arguments, each to its argument. Missing ones stay unbound. |
| CallFacts.FunctionSeesClosure | pkg/sasaklang/evaluator/evaluator.go:457-467 | Inside a call, a name that is not a supplied parameter reads as it does in the closure's frame. |
| CallFacts.CallFunctionResult | pkg/sasaklang/evaluator/evaluator.go:446-449 | A call yields the body's result with a return unwrapped. Break, continue and nil pass through. |
| CallFacts.ArrayLiteralHolds | pkg/sasaklang/evaluator/evaluator.go:97-102 | `[a, b]` is one new array holding a and b in order. |
| CallFacts.MapLiteralLaterWins | pkg/sasaklang/evaluator/evaluator.go:515-538 | Entries with equal keys share one slot. In the model's entry order, the later value is kept. |
| CallFacts.ElementIsEvaluated | pkg/sasaklang/evaluator/evaluator.go:430-441 | In an argument or element list with no error, element i is the value of expression i, evaluated in the state that the first i expressions left. |
| CallFacts.ArrayLiteralIndex | pkg/sasaklang/evaluator/evaluator.go:97-102 | Indexing the array that an array literal built gives, at i, the value of its i-th element expression, and NULL outside the literal. The array has one element per expression. |
| CallFacts.EntriesWriteAll | pkg/sasaklang/evaluator/evaluator.go:515-538 | A map literal that yields a map has made one write per entry, each under the hash of that entry's key, and its pairs are those writes applied in order. |
| CallFacts.LastWriteWins | pkg/sasaklang/evaluator/evaluator.go:534-535 | After a series of writes, a key holds the pair of the last write under that key. |
| CallFacts.Unwritten | pkg/sasaklang/evaluator/evaluator.go:534-535 | A key that no write touches keeps its pair, or stays absent. |
| CallFacts.MapLiteralIndex | pkg/sasaklang/evaluator/evaluator.go:499-538 | Indexing the map that a map literal built, with an entry's key, gives the value of the last entry whose key hashes the same. A hashable key that no entry wrote gives NULL. |

## Left out

- The parser is not part of this model. `Eval` starts from the syntax tree
  in module `Ast`. The error catalogue `errors.go`, the command-line
  driver `main.go` and the REPL `repl.go` are left out too.
- `Inspect` rendering is left out. The output of `tulis`, the prompt of
  `tanya` and error display are I/O. The model keeps only the fact that
  rendering a value holding nil panics (`Runtime.InspectPanics`).
- I/O, the clock and randomness are parameters: `Runtime.Host` gives the
  next input line, the Unix time and a random draw. `antos` does not sleep.
- Go map iteration order. A map literal is evaluated in the order its
  entries are listed, which is one of the orders Go may use.
  `CallFacts.MapLiteralLaterWins`, `CallFacts.EntriesWriteAll` and
  `CallFacts.MapLiteralIndex` therefore describe one of the possible Go
  outcomes when keys repeat: "the last entry" means the last one listed.
- Identity of zero-size values. Go does not specify whether two
  `&object.Null{}` (or two break or continue objects) are the same
  pointer. The model gives each allocation its own address. Go does the
  same for every non-empty struct.
- Error kinds. An error object carries only its message, as `object.Error`
  does. The templates in `errors.go` are not used by the evaluator.
- The `BREAK` and `CONTINUE` object type names. They are declared outside
  `object.go`, so they are assumed.
- Evaluator.Eval: its own contract states only that the store grows:
  frames keep their parents, bindings and constant marks, and
  allocations never go back. Its behaviour is stated by the lemmas in
  `EvaluatorFacts` and `CallFacts`, one evaluator case each.
- Builtins.Panjang: Go converts the length with `int64(len(...))`. The
  contract states the length for values up to the largest int64, since a
  longer string or array cannot exist in memory.
- Non-termination: the fuel bound. A program that needs more loop
  iterations or calls than the fuel allows aborts instead of running on.
  The model does not prove that more fuel leaves a `Done` result
  unchanged.
- Goroutines and stack overflow. A deep recursion that overflows the Go
  stack is not modelled, apart from the fuel bound.
