# L31 → L3 desugaring and L3 → JavaScript code generation, in Dafny

This project models two stages of a small Scheme-like interpreter course
project and proves properties about them.

- **The desugarer** (`src/q3.ts`) takes the language L31, which is L3 plus
  `let*`. It rewrites every `let*` into a chain of nested single-binding
  `let`s and leaves everything else as it is.
- **The code generator** (`src/q4.ts`) turns an L3 expression or program
  into JavaScript source text. It uses these rules:
  - Primitive applications become infix, prefix or call syntax.
  - `lambda` becomes an arrow function.
  - `let` becomes an immediately applied arrow function.
  - `define` becomes `const`.
  - The forms of a program are joined by `";\n"`.
  - The characters `-`, `>` and `?` in identifiers are rewritten.

Both stages work on one expression datatype, `Ast.CExp`:
- its `LetStar` variant exists only in L31;
- `Ast.IsCore` says an expression holds no `let*` at any depth.

The source signals an error in one of two ways:
- a `throw` (for example an empty `let*`, a primitive applied to the wrong number of operands, or a lambda with more than one body expression);
- a call `translateExpToJS(undefined)`, reached when an emitter reads an array element past the end (`body[0]` of an empty body, `rands[1]` of a one-operand `cons`); no branch of `translateExpToJS` accepts `undefined`, so the model takes it to end in the final `throw`.

Neither file ever builds a `Failure` value.

The model turns both into the `Fail` case of `Ast.Result`.

The pure structure of each stage is given by specification functions:
- `Desugarer.Desugar` and its list forms;
- `Codegen.Emit`, with one text function per emitter of the source.

The code that builds its result step by step is modelled as methods with loops, each proved equal to its specification function:
- `letStarToLet`, which reverses the bindings array in place and then folds it;
- the `forEach` pushes of `L31ToL3CExp`;
- the string-building `for` loops of `l3ProcToLambdaJSString`, `jsArithmetic` and `jsApplyFunction`, and the `forEach` loops of `jsCreateList` and `translateProgramToJS`;
- the loop that applies a lambda in `l3AppToJSString`.

The lemmas then prove what the stages promise about those functions:
- when each stage succeeds;
- that desugaring leaves no `let*`, fixes core expressions, is idempotent and keeps the skeleton of every other node;
- the exact text emitted for each kind of node;
- that a `let` is emitted exactly as the application of a lambda;
- that sanitised identifiers contain none of `-`, `>`, `?` (other characters, such as `!` or `*`, are kept, so the result need not be a legal JavaScript identifier) and that sanitising is idempotent;
- that program text composes form by form.

Two behaviours of the code are kept as written:
- `escapeQuotes` is `String.raw` of its argument, so it is the identity and string literals are emitted without escaping.
- `jsCreateList` with no operands cuts the opening parenthesis and emits the list-building function followed by `)` only.

## Model

| member | source | states |
|---|---|---|
| Desugarer.LetChainShape | src/q3.ts:32-42 | the rewrite of `let*` fails exactly when there are no bindings; otherwise it is a chain of single-binding lets, the d-th holding the d-th binding and the last holding the original body |
| Desugarer.LetStarToLet | src/q3.ts:32-42 | the bindings array is reversed in place, and the result is the let chain of the original bindings order |
| Desugarer.ReverseInPlace | src/q3.ts:35 | `Array.prototype.reverse`: element k becomes the old element n-1-k |
| Desugarer.DesugarAll | src/q3.ts:48-49 | a list of children is translated exactly when each child is, and each result sits in its child's position |
| Desugarer.DesugarBinding | src/q3.ts:29-30 | a binding keeps its variable and gets its value desugared; it fails exactly when the value fails |
| Desugarer.DesugarBindings | src/q3.ts:63 | a binding list is translated exactly when every binding is, position by position |
| Desugarer.DesugarExp | src/q3.ts:81-87 | a define stays a define of the same variable with its value desugared; an expression form is desugared |
| Desugarer.DesugarForms | src/q3.ts:90-97 | the forms of a program are translated exactly when each one is, in order, with none dropped |
| Desugarer.TranslateCExp | src/q3.ts:44-79 | the imperative translation, with its push loops, returns exactly `Desugar(e)` |
| Desugarer.TranslateAll | src/q3.ts:56-57 | the push loop over a body returns exactly `DesugarAll` |
| Desugarer.TranslateBindings | src/q3.ts:61-63 | the push loop over bindings returns exactly `DesugarBindings` |
| Desugarer.TranslateExp | src/q3.ts:81-87 | `L31ToL3Exp` as written, through the imperative translation of the define value or the expression, returns exactly `DesugarExp` |
| Desugarer.Translate | src/q3.ts:89-101 | `L31ToL3` on an expression or a program returns exactly `DesugarInput` |
| DesugarProps.DesugarOkIff | src/q3.ts:39-40 | desugaring succeeds exactly when every `let*` at any depth has at least one binding |
| DesugarProps.NestLetsCore | src/q3.ts:35-38 | a chain of lets built from core bindings and a core body is core |
| DesugarProps.DesugarYieldsCore | src/q3.ts:44-79 | the result of a successful desugaring contains no `let*` at any depth |
| DesugarProps.DesugarFixesCore | src/q3.ts:44-68 | an input without `let*` (atoms and literals included) is returned unchanged |
| DesugarProps.DesugarIdempotent | src/q3.ts:44-79 | desugaring a desugared expression gives it back unchanged |
| DesugarProps.DesugarKeepsSkeleton | src/q3.ts:47-66 | for app, if, lambda and let nodes: the same kind of node, the same parameters, binding variables and child counts, each child replaced in place by its desugaring; atoms and literals equal |
| DesugarProps.DesugarLetStar | src/q3.ts:69-75 | a successful `let*` has bindings and becomes the let chain of its own variables, in order, with desugared values and body |
| DesugarProps.DesugarProgram | src/q3.ts:89-98 | a program translates exactly when each form has no empty `let*`; the result has the same forms in order, defines keep their names, and no `let*` is left |
| DesugarProps.LetStarExample | src/q3.ts:32-42 | `(let* ((a 1) (b a)) b)` becomes `(let ((a 1)) (let ((b a)) b))` |
| Identifiers.ReplaceAllAppend | src/q4.ts:46 | a global replacement distributes over concatenation |
| Identifiers.SanitizeAppend | src/q4.ts:45-46 | sanitising distributes over concatenation |
| Identifiers.SanitizeChar | src/q4.ts:45-46 | one character: `-` becomes `_`, `>` becomes `_right_arrow_`, `?` becomes `_question_mark_`, and any other character is kept |
| Identifiers.SanitizeIsPerChar | src/q4.ts:45-46 | the three passes in a row equal replacing each character on its own, so no pass rewrites what an earlier one produced |
| Identifiers.PerCharIsClean | src/q4.ts:45-46 | the per-character replacement contains none of `-`, `>`, `?` |
| Identifiers.PerCharKeepsClean | src/q4.ts:45-46 | text without `-`, `>`, `?` is left unchanged by the per-character replacement |
| Identifiers.SanitizeIsClean | src/q4.ts:45-46 | a sanitised identifier contains none of `-`, `>`, `?` |
| Identifiers.SanitizeKeepsClean | src/q4.ts:45-46 | an identifier without `-`, `>`, `?` is emitted as written |
| Identifiers.SanitizeIdempotent | src/q4.ts:45-46 | sanitising twice equals sanitising once |
| JsText.JoinAppend | src/q4.ts:277-287 | joining two non-empty lists puts one separator between the two joined texts |
| JsText.NatTextValue | src/q4.ts:246-247 | reading back the decimal digits emitted for a natural number gives the number; this is `toString()` for values below 10^21 |
| Codegen.PrimOpValue | src/q4.ts:143-185 | a primitive used as a value has a text exactly for the 21 operators of the switch; any other operator throws |
| Codegen.EmitAll | src/q4.ts:80-85 | the operand texts exist exactly when each operand's text does, in order |
| Codegen.EmitForms | src/q4.ts:280-283 | the texts of a program's forms exist exactly when each form's text does, in order |
| Codegen.ProcToLambda | src/q4.ts:48-63 | the loop over the parameters, then the single body, produces exactly `((p1,...,pn) => body)`; more or fewer than one body expression fails |
| Codegen.Arithmetic | src/q4.ts:72-88 | no operands fails; one operand is its own text; otherwise the loop builds `(a op b op ...)`, with `op` padded by spaces unless it is `,` |
| Codegen.ApplyFunction | src/q4.ts:120-130 | the loop builds `f(a1,...,an)` and fails when an operand does |
| Codegen.CreateList | src/q4.ts:132-139 | the loop with its trailing comma cut builds the list-building function applied to the operands; with no operands it is followed by `)` only |
| Codegen.ApplyLambda | src/q4.ts:229-238 | a lambda in operator position is emitted as the lambda text followed by `(a1,...,an)` |
| Codegen.TranslateProgram | src/q4.ts:277-287 | the loop that appends `";\n"` after each form and cuts the last two characters gives the forms' texts joined by `";\n"` |
| CodegenProps.EmitValsAreEmitAll | src/q4.ts:34 | the texts of the binding values are the texts of `letToApp`'s operand list |
| CodegenProps.LetEmitsAsApp | src/q4.ts:32-36 | a `let` is emitted exactly as `letToApp` of it, the lambda over its variables applied to its values |
| CodegenProps.FoldedDispatch | src/q4.ts:189-197 | `+ - * /` fold with their own symbol, `and` with `&`, `or` with `\|` |
| CodegenProps.ComparedDispatch | src/q4.ts:198-204 | `<` and `>` compare with their own symbol, and `=`, `eq?`, `string=?` with `===` |
| CodegenProps.UnaryDispatch | src/q4.ts:205-220 | each one-operand primitive is emitted by wrapping its operand in its own prefix and suffix |
| CodegenProps.PrimAppOkIff | src/q4.ts:186-225 | a primitive application succeeds exactly when the operator is known, the operand count fits its arity (folded ≥1, comparisons 2, unary 1, `cons` ≥2, `list` any) and every operand it reads succeeds |
| CodegenProps.EmitOkIff | src/q4.ts:243-275 | code generation succeeds exactly when the input is translatable: no `let*`, every lambda has one body expression, every primitive application is well formed, and every operator is a variable, a primitive or a lambda |
| CodegenProps.FoldedText | src/q4.ts:72-88 | a folded primitive: no operands fails, one operand is its own text, several give `(a op b ...)` |
| CodegenProps.ComparedText | src/q4.ts:66-70 | a comparison succeeds only with two operands and gives `(a op b)` |
| CodegenProps.UnaryShape | src/q4.ts:90-118 | a one-operand primitive succeeds only with one operand and wraps its text |
| CodegenProps.ConsText | src/q4.ts:140 | an application of `cons`, which the switch hands to `jsCreatePair` (src/q4.ts:221-222), needs two operands, gives `[a, b]` and ignores any further operands |
| CodegenProps.ListShape | src/q4.ts:132-139 | an application of `list`, which the switch hands to `jsCreateList` (src/q4.ts:223-224), is the list-building function called on the operands; with none it is that function followed by `)` |
| CodegenProps.LambdaShape | src/q4.ts:48-63 | a lambda node, which `translateExpToJS` hands to `l3ProcToLambdaJSString` (src/q4.ts:262-263), succeeds exactly when it has one body expression that succeeds; the text is `((p1,...,pn) => body)` with parameter names that contain none of `-`, `>`, `?` |
| CodegenProps.VarCallShape | src/q4.ts:227-228 | a call of a named function succeeds exactly when every operand does and gives `name(a1,...,an)`, with the name sanitised |
| CodegenProps.LambdaCallShape | src/q4.ts:229-238 | an application node (src/q4.ts:264-265) whose operator is a lambda succeeds exactly when the lambda and the operands do, and gives the lambda text followed by `(a1,...,an)` |
| CodegenProps.IfShape | src/q4.ts:44 | an `if` node, which `translateExpToJS` hands to `l3IfToJSString` (src/q4.ts:256-257), succeeds exactly when its three parts do and gives `(test ? then : else)` |
| CodegenProps.AtomTexts | src/q4.ts:246-259 | atoms always succeed: a number reads back as its value (with `-` before a negative one; plain digits with no leading zero, as `toString()` gives them for absolute values below 10^21); booleans give `true`/`false`, strings are quoted, symbols give `Symbol.for("name")`, the empty list gives `Symbol.for("()")`, and variables are sanitised |
| CodegenProps.DefineShape | src/q4.ts:244-245 | a define succeeds exactly when its value does and gives `const name = value` with the name sanitised |
| CodegenProps.EmitFormsAppend | src/q4.ts:280-283 | the texts of two runs of forms are the texts of each run, concatenated |
| CodegenProps.ProgramTexts | src/q4.ts:277-287 | an empty program is the empty text; a one-form program is that form's text; two non-empty programs joined give their texts joined by `";\n"` |
| CodegenProps.SingleFormProgram | src/q4.ts:289-293 | a program of one form emits the same text as that form on its own |
| CodegenProps.SameOperators | src/q4.ts:143-225 | the switch of primitive values and the switch of primitive applications know the same operators |
| CodegenExamples.Digit | src/q4.ts:246-247 | a one-digit number is emitted as its digit |
| CodegenExamples.FoldExample | test/q4.test.ts:13 | `(+ 3 5 7)` gives `(3 + 5 + 7)` |
| CodegenExamples.Letter | src/q4.ts:258-259 | a lowercase one-letter variable is emitted as it is |
| CodegenExamples.EqualsExample | test/q4.test.ts:14 | `(= 3 (+ 1 2))` gives `(3 === (1 + 2))` |
| CodegenExamples.IfExample | test/q4.test.ts:18 | `(if (> x 3) 4 5)` gives `((x > 3) ? 4 : 5)` |
| CodegenExamples.VarCallExample | test/q4.test.ts:35 | `(f 3 4)` gives `f(3,4)` |
| CodegenExamples.LiteralExamples | test/q4.test.ts:48-50 | `"a"`, `'a` and `symbol?` give `"a"`, `Symbol.for("a")` and the symbol-test lambda |
| CodegenExamples.StringEqualsExample | test/q4.test.ts:51 | `(string=? "a" "b")` gives `("a" === "b")` |

## Left out

- Numbers are integers. Floating-point literals such as `3.14`, and their `toString()`, are not modelled, so the test with `(define pi 3.14)` has no counterpart.
- Error messages are not modelled. Every `throw` is the same `Fail`.
- The JavaScript runtime is not modelled. The tests that `eval` the generated text, and the meaning of the emitted operators, are outside the model.
- The `Symbol.for("${exp.val}")` fallback for literals other than a symbol or the empty list (src/q4.ts:270-271) is left out. Quoted data here are only symbols and the empty list.
- The `Binding` branch of `translateExpToJS` (src/q4.ts:266-267) is left out. The generator never passes a binding to it.
- The L31 and L3 AST modules, the `Result` module, the parser and `ramda` are not part of this model. Their constructors and `map` are modelled by the datatypes and sequence operations they build.
- Two variables that sanitise to the same text (for example `a-b` and `a_b`) are not detected by the source, and the model does not claim they are distinct.
- `translateExpToJS(undefined)`, reached through `body[0]` of a lambda with no body, is assumed to throw, so an empty lambda body is `Fail`.
- The `isOk` filter of `L31ToL3` (src/q3.ts:94) never drops a form, because `L31ToL3Exp` throws rather than returning a failure. The model propagates the failure to the whole program.
- `L31ToL3Binding` (src/q3.ts:29-30) is not a method of its own. It is inlined into the loop of `Desugarer.TranslateBindings`, and its function is `Desugarer.DesugarBinding`.
- The lambda, let, define and whole-program test strings (test/q4.test.ts:21-44, 68-80) are not restated as concrete lemmas. `CodegenProps.LambdaShape`, `LetEmitsAsApp`, `DefineShape` and `ProgramTexts` state their general form.
- CodegenProps.EmitOkIff: success of code generation does not imply the input is core L3 in every respect, because `cons` ignores operands past the second, which are never translated.
- CodegenProps.AtomTexts: a number is emitted as its plain decimal digits, with `-` before a negative one. JavaScript's `toString()` gives that text only for |n| < 10^21; from 10^21 on it switches to exponent form (`1e+21`). JavaScript numbers also hold integers exactly only up to 2^53. The model's integers are unbounded, so its text and its read-back hold only in that range for the source.
- JsText.NatTextValue: the digits read back as the number for every natural number in the model. They match JavaScript's `toString()` only below 10^21, and only for values JavaScript holds exactly (up to 2^53).
