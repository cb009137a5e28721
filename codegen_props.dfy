/** What the code generator of src/q4.ts promises, proved about the
    functions of module Codegen: which inputs it accepts, and the text it
    emits for each kind of node. */
module CodegenProps {
  import opened Ast
  import opened JsText
  import opened Identifiers
  import opened Codegen

  // ---------------------------------------------------------------------
  // let

  lemma EmitValsAreEmitAll(bs: seq<Binding>)
    ensures EmitAll(Vals(bs)) == EmitVals(bs)
  {
    if EmitVals(bs).Ok? {
      assert EmitAll(Vals(bs)).value == EmitVals(bs).value;
    }
  }

  lemma EmitLet(e: CExp)
    requires e.Let?
    ensures Emit(e) == LetText(e.bindings, e.body)
  {
  }

  lemma EmitLambdaCall(params: seq<string>, body: seq<CExp>, rands: seq<CExp>)
    ensures Emit(App(Proc(params, body), rands)) == AppText(Proc(params, body), rands)
  {
  }

  /** A let emits exactly the text of the lambda over its variables, in
      order, applied to its values, in order: the text of `LetToApp`. */
  lemma LetEmitsAsApp(e: CExp)
    requires e.Let?
    ensures Emit(e) == Emit(LetToApp(e.bindings, e.body))
  {
    EmitLet(e);
    EmitLambdaCall(Names(e.bindings), e.body, Vals(e.bindings));
    EmitValsAreEmitAll(e.bindings);
  }

  // ---------------------------------------------------------------------
  // Which primitive applications are accepted

  /** How many operands a primitive takes. */
  datatype Arity = Exactly(n: nat) | AtLeast(n: nat)

  predicate Admits(a: Arity, count: nat) {
    match a
    case Exactly(n) => count == n
    case AtLeast(n) => count >= n
  }

  /** The arity each primitive's emitter checks for or relies on: the
      folded operators need one operand, the comparisons two, the tests
      and accessors one; `cons` reads two and `list` takes any number. */
  function ArityOf(op: string): Arity
    requires op in Primitives
  {
    if op in {"+", "-", "*", "/", "and", "or"} then AtLeast(1)
    else if op in {"<", ">", "=", "eq?", "string=?"} then Exactly(2)
    else if op == "cons" then AtLeast(2)
    else if op == "list" then AtLeast(0)
    else Exactly(1)
  }

  /** Whether the emitter for `op` translates operand `i`: `cons` reads
      only its first two operands, every other primitive all of them. */
  predicate ReadsOperand(op: string, i: nat) {
    op != "cons" || i < 2
  }

  /** The JavaScript operator a folded or compared primitive is written
      with: `&` and `|` for and/or, `===` for the equality family. */
  function JsOperator(op: string): string {
    if op == "and" then "&"
    else if op == "or" then "|"
    else if op in {"=", "eq?", "string=?"} then "==="
    else op
  }

  lemma FoldedDispatch(op: string, rands: seq<CExp>)
    requires op in {"+", "-", "*", "/", "and", "or"}
    ensures PrimAppText(op, rands) == ArithmeticText(JsOperator(op), rands)
  {
  }

  lemma ComparedDispatch(op: string, rands: seq<CExp>)
    requires op in {"<", ">", "=", "eq?", "string=?"}
    ensures PrimAppText(op, rands) == PairText(JsOperator(op), rands)
  {
  }

  /** The one-operand primitives. */
  const UnaryOps: set<string> :=
    {"not", "symbol?", "pair?", "boolean?", "number?", "string?", "car", "cdr"}

  /** The text around the operand of each one-operand primitive. */
  function UnaryWrap(op: string): (string, string)
    requires op in UnaryOps
  {
    match op
    case "not" => ("(!", ")")
    case "string?" => ("(typeof(", ") === 'string')")
    case "symbol?" => ("(typeof(", ") === \"symbol\")")
    case "boolean?" => ("(typeof(", ") === \"boolean\")")
    case "number?" => ("(typeof(", ") === \"number\")")
    case "pair?" => ("Array.isArray(", ")")
    case "car" => ("", "[0]")
    case "cdr" => ("", "[1]")
  }

  lemma UnaryDispatch(op: string, rands: seq<CExp>)
    requires op in UnaryOps
    ensures PrimAppText(op, rands) == UnaryText(rands, UnaryWrap(op).0, UnaryWrap(op).1)
  {
    match op
    case "not" =>
    case "string?" =>
    case "symbol?" => assert ") === \"" + "symbol" + "\")" == ") === \"symbol\")";
    case "boolean?" => assert ") === \"" + "boolean" + "\")" == ") === \"boolean\")";
    case "number?" => assert ") === \"" + "number" + "\")" == ") === \"number\")";
    case "pair?" =>
    case "car" => assert "[" + NatText(0) + "]" == "[0]";
    case "cdr" => assert "[" + NatText(1) + "]" == "[1]";
  }

  /** The operator is a known primitive, the operand count is admitted, and
      every operand the emitter reads is emitted. */
  predicate Accepts(op: string, rands: seq<CExp>) {
    op in Primitives && Admits(ArityOf(op), |rands|) &&
    forall i: nat :: i < |rands| && ReadsOperand(op, i) ==> Emit(rands[i]).Ok?
  }

  lemma FoldedOkIff(op: string, rands: seq<CExp>)
    requires op in {"+", "-", "*", "/", "and", "or"}
    ensures PrimAppText(op, rands).Ok? <==> Accepts(op, rands)
  {
    FoldedDispatch(op, rands);
  }

  lemma ComparedOkIff(op: string, rands: seq<CExp>)
    requires op in {"<", ">", "=", "eq?", "string=?"}
    ensures PrimAppText(op, rands).Ok? <==> Accepts(op, rands)
  {
    ComparedDispatch(op, rands);
  }

  lemma UnaryOkIff(op: string, rands: seq<CExp>)
    requires op in UnaryOps
    ensures PrimAppText(op, rands).Ok? <==> Accepts(op, rands)
  {
    UnaryDispatch(op, rands);
  }

  lemma ConsOkIff(rands: seq<CExp>)
    ensures PrimAppText("cons", rands).Ok? <==> Accepts("cons", rands)
  {
    ConsDispatch("cons", rands);
  }

  lemma ListOkIff(rands: seq<CExp>)
    ensures PrimAppText("list", rands).Ok? <==> Accepts("list", rands)
  {
    ListDispatch(rands);
  }

  /** A primitive application is emitted exactly when the operator is a
      known primitive, the operand count is admitted, and every operand
      the emitter reads is emitted. */
  lemma PrimAppOkIff(op: string, rands: seq<CExp>)
    ensures PrimAppText(op, rands).Ok? <==>
              op in Primitives && Admits(ArityOf(op), |rands|) &&
              forall i: nat :: i < |rands| && ReadsOperand(op, i) ==> Emit(rands[i]).Ok?
  {
    if op in {"+", "-", "*", "/", "and", "or"} {
      FoldedOkIff(op, rands);
    } else if op in {"<", ">", "=", "eq?", "string=?"} {
      ComparedOkIff(op, rands);
    } else if op in UnaryOps {
      UnaryOkIff(op, rands);
    } else if op == "cons" {
      ConsOkIff(rands);
    } else if op == "list" {
      ListOkIff(rands);
    } else {
      assert PrimAppText(op, rands) == Fail;
    }
  }

  // ---------------------------------------------------------------------
  // Which expressions are accepted

  /** The expressions the generator translates, defined on their own: a
      known primitive as a value; lambdas and lets with exactly one body
      expression; applications of a primitive with an admitted operand
      count, of a variable, or of a lambda; and no let*. */
  predicate Translatable(e: CExp)
    decreases e
  {
    match e
    case PrimOp(op) => op in Primitives
    case If(t, c, a) => Translatable(t) && Translatable(c) && Translatable(a)
    case Proc(_, body) => |body| == 1 && Translatable(body[0])
    case Let(bs, body) =>
      |body| == 1 && Translatable(body[0]) && forall i :: 0 <= i < |bs| ==> Translatable(bs[i].val)
    case App(rator, rands) =>
      (match rator
       case PrimOp(op) =>
         op in Primitives && Admits(ArityOf(op), |rands|) &&
         forall i: nat :: i < |rands| && ReadsOperand(op, i) ==> Translatable(rands[i])
       case VarRef(_) => forall i :: 0 <= i < |rands| ==> Translatable(rands[i])
       case Proc(_, body) =>
         |body| == 1 && Translatable(body[0]) && forall i :: 0 <= i < |rands| ==> Translatable(rands[i])
       case _ => false)
    case LetStar(_, _) => false
    case _ => true
  }

  lemma EmitApp(e: CExp)
    requires e.App?
    ensures Emit(e) == AppText(e.rator, e.rands)
  {
  }

  lemma EmitProc(e: CExp)
    requires e.Proc?
    ensures Emit(e) == LambdaText(e.params, e.body)
  {
  }

  /** The generator succeeds on exactly the translatable expressions. */
  lemma {:induction false} EmitOkIff(e: CExp)
    ensures Emit(e).Ok? <==> Translatable(e)
    decreases e
  {
    match e
    case If(t, c, a) =>
      EmitOkIff(t);
      EmitOkIff(c);
      EmitOkIff(a);
    case Proc(_, body) =>
      EmitProc(e);
      if |body| == 1 { EmitOkIff(body[0]); }
    case Let(bs, body) =>
      EmitLet(e);
      if |body| == 1 { EmitOkIff(body[0]); }
      forall i | 0 <= i < |bs| ensures Emit(bs[i].val).Ok? <==> Translatable(bs[i].val) {
        EmitOkIff(bs[i].val);
      }
    case App(rator, rands) =>
      EmitApp(e);
      forall i | 0 <= i < |rands| ensures Emit(rands[i]).Ok? <==> Translatable(rands[i]) {
        EmitOkIff(rands[i]);
      }
      match rator {
        case PrimOp(op) => PrimAppOkIff(op, rands);
        case Proc(_, body) =>
          if |body| == 1 { EmitOkIff(body[0]); }
        case _ =>
      }
    case _ =>
  }

  // ---------------------------------------------------------------------
  // The text of each kind of node

  /** `+ - * /`, `and`, `or`: no operand fails, one operand is its own
      text, more are joined by the operator, spaced, inside parentheses. */
  lemma FoldedText(op: string, rands: seq<CExp>)
    requires op in {"+", "-", "*", "/", "and", "or"}
    ensures |rands| == 0 ==> PrimAppText(op, rands) == Fail
    ensures |rands| == 1 ==> PrimAppText(op, rands) == Emit(rands[0])
    ensures |rands| >= 2 && EmitAll(rands).Ok? ==>
              PrimAppText(op, rands) == Ok("(" + Join(" " + JsOperator(op) + " ", EmitAll(rands).value) + ")")
  {
    FoldedDispatch(op, rands);
  }

  /** `<`, `>` and the equality family take exactly two operands and emit
      `(a op b)`, the equality family as `===`. */
  lemma ComparedText(op: string, rands: seq<CExp>)
    requires op in {"<", ">", "=", "eq?", "string=?"}
    ensures PrimAppText(op, rands).Ok? ==> |rands| == 2
    ensures |rands| == 2 && Emit(rands[0]).Ok? && Emit(rands[1]).Ok? ==>
              PrimAppText(op, rands) == Ok("(" + Emit(rands[0]).value + " " + JsOperator(op) + " " + Emit(rands[1]).value + ")")
  {
    ComparedDispatch(op, rands);
  }

  /** The tests, `not`, `car` and `cdr` take exactly one operand and wrap its
      text: `(!a)`, `a[0]`, `a[1]`, and so on. */
  lemma UnaryShape(op: string, rands: seq<CExp>)
    requires op in UnaryOps
    ensures PrimAppText(op, rands).Ok? ==> |rands| == 1
    ensures |rands| == 1 && Emit(rands[0]).Ok? ==>
              PrimAppText(op, rands) == Ok(UnaryWrap(op).0 + Emit(rands[0]).value + UnaryWrap(op).1)
  {
    UnaryDispatch(op, rands);
  }

  lemma ConsDispatch(op: string, rands: seq<CExp>)
    requires op == "cons"
    ensures PrimAppText(op, rands) == CreatePairText(rands)
  {
  }

  lemma ListDispatch(rands: seq<CExp>)
    ensures PrimAppText("list", rands) == ListText(rands)
  {
  }

  /** Regrouping the text of a call; kept apart from the lemma that uses it
      because the solver finds it slowly in a large context. */
  lemma ListCall(f: string, args: string)
    ensures f + ("(" + args + ")") == f + "(" + args + ")"
  {
  }

  /** `cons` needs two operands, emits a two-element array, and ignores any
      operand after the second. */
  lemma ConsText(rands: seq<CExp>)
    ensures PrimAppText("cons", rands).Ok? ==> |rands| >= 2
    ensures |rands| >= 2 && Emit(rands[0]).Ok? && Emit(rands[1]).Ok? ==>
              PrimAppText("cons", rands) == Ok("[" + Emit(rands[0]).value + ", " + Emit(rands[1]).value + "]")
    ensures |rands| >= 2 ==> PrimAppText("cons", rands) == PrimAppText("cons", rands[..2])
  {
    ConsDispatch("cons", rands);
    if |rands| >= 2 {
      var two := rands[..2];
      ConsDispatch("cons", two);
      assert two[0] == rands[0] && two[1] == rands[1];
    }
  }

  /** `list` with operands calls the list helper on them; with none it
      emits the helper followed by a lone ')'. */
  lemma ListShape(rands: seq<CExp>)
    ensures |rands| > 0 ==> PrimAppText("list", rands) == CallText(MakeListFunction, rands)
    ensures |rands| == 0 ==> PrimAppText("list", rands) == Ok(MakeListFunction + ")")
  {
    ListDispatch(rands);
    if |rands| > 0 && EmitAll(rands).Ok? {
      ListCall(MakeListFunction, Join(",", EmitAll(rands).value));
    }
  }

  /** A lambda with one body expression emits its sanitised parameters,
      comma-separated, then the body's text; no parameter name in the output
      holds '-', '>' or '?'. Other characters of a Scheme name, such as
      '!' or '*', are kept as they are. */
  lemma LambdaShape(e: CExp)
    requires e.Proc?
    ensures Emit(e).Ok? <==> |e.body| == 1 && Emit(e.body[0]).Ok?
    ensures Emit(e).Ok? ==>
              Emit(e).value == "((" + Join(",", SanitizeAll(e.params)) + ") => " + Emit(e.body[0]).value + ")"
    ensures forall i :: 0 <= i < |e.params| ==> NoRewrittenChar(SanitizeAll(e.params)[i])
  {
    EmitProc(e);
    forall i | 0 <= i < |e.params| ensures NoRewrittenChar(SanitizeAll(e.params)[i]) {
      SanitizeIsClean(e.params[i]);
    }
  }

  /** A call of a variable emits the sanitised name and the operands'
      texts, comma-separated, in parentheses. */
  lemma VarCallShape(e: CExp)
    requires e.App? && e.rator.VarRef?
    ensures Emit(e).Ok? <==> forall i :: 0 <= i < |e.rands| ==> Emit(e.rands[i]).Ok?
    ensures Emit(e).Ok? ==> Emit(e).value == Sanitize(e.rator.name) + "(" + Join(",", EmitAll(e.rands).value) + ")"
    ensures NoRewrittenChar(Sanitize(e.rator.name))
  {
    EmitApp(e);
    SanitizeIsClean(e.rator.name);
  }

  /** A lambda applied on the spot emits the lambda's own text followed by
      the argument list. */
  lemma LambdaCallShape(e: CExp)
    requires e.App? && e.rator.Proc?
    ensures Emit(e).Ok? <==> Emit(e.rator).Ok? && EmitAll(e.rands).Ok?
    ensures Emit(e).Ok? ==> Emit(e).value == CallWith(Emit(e.rator).value, EmitAll(e.rands).value)
  {
    EmitApp(e);
    EmitProc(e.rator);
  }

  lemma EmitIf(e: CExp)
    requires e.If?
    ensures Emit(e) == IfText(e.test, e.conseq, e.alt)
  {
  }

  /** A conditional emits `(t ? c : a)` and fails when any part does. */
  lemma IfShape(e: CExp)
    requires e.If?
    ensures Emit(e).Ok? <==> Emit(e.test).Ok? && Emit(e.conseq).Ok? && Emit(e.alt).Ok?
    ensures Emit(e).Ok? ==>
              Emit(e).value == "(" + Emit(e.test).value + " ? " + Emit(e.conseq).value + " : " + Emit(e.alt).value + ")"
  {
    EmitIf(e);
  }

  /** Numbers emit their decimal text, which reads back as the number;
      booleans emit `true`/`false`; a string is put between double quotes
      unchanged; a quoted symbol emits `Symbol.for("name")` and the empty
      list `Symbol.for("()")`; a variable emits its sanitised name. */
  lemma AtomTexts(e: CExp)
    requires e.Num? || e.Bool? || e.Str? || e.Lit? || e.VarRef?
    ensures Emit(e).Ok?
    ensures e.Num? && e.n >= 0 ==> DigitsValue(Emit(e).value) == e.n
    ensures e.Num? && e.n >= 0 ==> (Emit(e).value[0] == '0' ==> e.n == 0)
    ensures e.Num? && e.n < 0 ==>
              Emit(e).value[0] == '-' && DigitsValue(Emit(e).value[1..]) == -e.n
    ensures e.Bool? ==> Emit(e).value == (if e.b then "true" else "false")
    ensures e.Str? ==> Emit(e).value == "\"" + e.s + "\""
    ensures e.Lit? && e.datum.Sym? ==> Emit(e).value == "Symbol.for(\"" + e.datum.name + "\")"
    ensures e.Lit? && e.datum.EmptyList? ==> Emit(e).value == "Symbol.for(\"()\")"
    ensures e.VarRef? ==> Emit(e).value == Sanitize(e.name) && NoRewrittenChar(Emit(e).value)
  {
    match e
    case Num(n) =>
      if n >= 0 {
        NatTextValue(n);
      } else {
        NatTextValue(-n);
        assert Emit(e).value[1..] == NatText(-n);
      }
    case VarRef(x) => SanitizeIsClean(x);
    case _ =>
  }

  /** A define emits a constant declaration of the sanitised name. */
  lemma DefineShape(x: Exp)
    requires x.Define?
    ensures EmitExp(x).Ok? <==> Emit(x.val).Ok?
    ensures EmitExp(x).Ok? ==> EmitExp(x).value == "const " + Sanitize(x.name) + " = " + Emit(x.val).value
    ensures NoRewrittenChar(Sanitize(x.name))
  {
    SanitizeIsClean(x.name);
  }

  // ---------------------------------------------------------------------
  // Programs

  /** The texts of two lists of forms put together are the two lists of
      texts put together; the whole fails exactly when a part does. */
  lemma {:induction false} EmitFormsAppend(xs: seq<Exp>, ys: seq<Exp>)
    ensures EmitForms(xs + ys) ==
              if EmitForms(xs).Ok? && EmitForms(ys).Ok? then Ok(EmitForms(xs).value + EmitForms(ys).value) else Fail
  {
    if xs == [] {
      assert xs + ys == ys;
      assert EmitForms(xs) == Ok([]);
      if EmitForms(ys).Ok? {
        assert [] + EmitForms(ys).value == EmitForms(ys).value;
      }
    } else {
      var z := xs + ys;
      EmitFormsAppend(xs[1..], ys);
      assert z[0] == xs[0];
      assert z[1..] == xs[1..] + ys;
      var h, tx, ty := EmitExp(xs[0]), EmitForms(xs[1..]), EmitForms(ys);
      if h.Ok? && tx.Ok? && ty.Ok? {
        assert [h.value] + (tx.value + ty.value) == ([h.value] + tx.value) + ty.value;
      }
    }
  }

  /** An empty program emits the empty text; a one-form program emits the
      form's own text; the text of two non-empty programs put together is
      their texts joined by ";\n". */
  lemma ProgramTexts(xs: seq<Exp>, ys: seq<Exp>)
    ensures ProgramText(Program([])) == Ok("")
    ensures |xs| == 1 ==> ProgramText(Program(xs)) == EmitExp(xs[0])
    ensures |xs| > 0 && |ys| > 0 ==>
              (ProgramText(Program(xs + ys)).Ok? <==> ProgramText(Program(xs)).Ok? && ProgramText(Program(ys)).Ok?)
    ensures |xs| > 0 && |ys| > 0 && ProgramText(Program(xs + ys)).Ok? ==>
              ProgramText(Program(xs + ys)).value ==
                ProgramText(Program(xs)).value + ";\n" + ProgramText(Program(ys)).value
  {
    if |xs| > 0 && |ys| > 0 {
      EmitFormsAppend(xs, ys);
      if EmitForms(xs + ys).Ok? {
        JoinAppend(";\n", EmitForms(xs).value, EmitForms(ys).value);
      }
    }
  }

  /** A program holding one form emits the same text as the form alone. */
  lemma SingleFormProgram(x: Exp)
    ensures L30ToJS(Whole(Program([x]))) == L30ToJS(Single(x))
  {
    ProgramTexts([x], []);
  }

  // ---------------------------------------------------------------------
  // Primitives as values and as operators

  /** The smallest number of operands a primitive accepts (0 for an unknown
      operator). */
  function MinOperands(op: string): nat {
    if op in Primitives then ArityOf(op).n else 0
  }

  /** The table of primitives as values and the switch of primitive
      applications know the same operators: an operator has a value text
      exactly when its application to the fewest operands it accepts, all
      numbers, is emitted. */
  lemma SameOperators(op: string)
    ensures PrimOpValue(op).Ok? <==> PrimAppText(op, seq(MinOperands(op), _ => Num(0))).Ok?
  {
    var rands := seq(MinOperands(op), _ => Num(0));
    forall i: nat | i < |rands| ensures Emit(rands[i]).Ok? {
      AtomTexts(rands[i]);
    }
    PrimAppOkIff(op, rands);
  }
}
