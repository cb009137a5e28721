/** The L3-to-JavaScript code generator (src/q4.ts).

    `Emit` is `translateExpToJS`, a dispatch over the node kinds; the
    helpers it dispatches to are functions here. The helpers that the
    source writes as loops appending to a string (`l3ProcToLambdaJSString`,
    `jsArithmetic`, `jsApplyFunction`, `jsCreateList`, the lambda-operator
    branch of `l3AppToJSString`, `translateProgramToJS`) are also methods
    with those loops, each proved to return what its function says. */
module Codegen {
  import opened Ast
  import opened JsText
  import opened Identifiers

  /** `MAKELIST_FUNCTION` (src/q4.ts:26-30): a variadic helper that folds its
      arguments, from the right, into nested pairs ending in the empty list. */
  const MakeListFunction: string :=
    "((...params) => {\n" +
    "    let val =   Symbol.for(\"()\");\n" +
    "    params.reverse().forEach((param) => {val = [param, val]});\n" +
    "    return val;\n" +
    "})"

  /** The 21 primitive operators the generator knows. */
  const Primitives: set<string> :=
    {"+", "-", "*", "/", "<", ">", "=", "eq?", "string=?", "and", "or", "not",
     "symbol?", "pair?", "boolean?", "number?", "string?", "car", "cdr", "cons", "list"}

  // ---------------------------------------------------------------------
  // Rewrites and literal encoders

  /** `letToApp` (src/q4.ts:32-36): a let as a lambda over its binding
      variables applied to its binding values. */
  function LetToApp(bs: seq<Binding>, body: seq<CExp>): CExp {
    App(Proc(Names(bs), body), Vals(bs))
  }

  /** `escapeQuotes` (src/q4.ts:39): `String.raw` of the string itself, that
      is, the identity; no quote is escaped. */
  function EscapeQuotes(s: string): string {
    s
  }

  function StringText(s: string): string {
    "\"" + EscapeQuotes(s) + "\""
  }

  function SymbolText(name: string): string {
    "Symbol.for(\"" + name + "\")"
  }

  function BoolText(b: bool): string {
    if b then "true" else "false"
  }

  /** A quoted symbol, or the empty list as the symbol named "()". */
  function LitText(d: SExp): string {
    match d
    case Sym(name) => SymbolText(name)
    case EmptyList => SymbolText("()")
  }

  function SanitizeAll(xs: seq<string>): (r: seq<string>)
    ensures |r| == |xs| && forall i :: 0 <= i < |xs| ==> r[i] == Sanitize(xs[i])
  {
    seq(|xs|, i requires 0 <= i < |xs| => Sanitize(xs[i]))
  }

  /** `f(a1,...,an)`, the call syntax of `jsApplyFunction`. */
  function CallWith(f: string, args: seq<string>): string {
    f + "(" + Join(",", args) + ")"
  }

  /** The text between the operands of a folded operator: the operator with
      a space on each side, or a bare ",". */
  function InfixSeparator(op: string): string {
    if op == "," then op else " " + op + " "
  }

  /** `l3PrimOpToJSLambdaString` (src/q4.ts:143-185): a primitive used as a
      value becomes a JavaScript lambda. */
  function PrimOpValue(op: string): (r: Result<string>)
    ensures r.Ok? <==> op in Primitives
  {
    match op
    case "+" | "-" => Ok("((...args) => args.reduce(((x,y)=>x" + op + "y), 0))")
    case "*" | "/" => Ok("((...args) => args.reduce(((x,y)=>x" + op + "y), 1))")
    case "<" | ">" => Ok("((x,y) => x" + op + "y)")
    case "and" => Ok("((...args) => args.reduce(((x,y)=>x&y), true))")
    case "or" => Ok("((...args) => args.reduce(((x,y)=>x|y), false))")
    case "=" | "eq?" => Ok("((x,y) => x===y)")
    case "string=?" => Ok("((x, y) => x===y)")
    case "not" => Ok("((x) => !x)")
    case "symbol?" => Ok("((x) => typeof(x) === \"symbol\")")
    case "pair?" => Ok("((x) => Array.isArray(x))")
    case "boolean?" => Ok("((x) => typeof(x) === \"boolean\")")
    case "number?" => Ok("((x) => typeof(x) === \"number\")")
    case "string?" => Ok("((x) => typeof(x) === \"string\")")
    case "car" => Ok("((x) => x[0])")
    case "cdr" => Ok("((x) => x[1])")
    case "cons" => Ok("((x, y) => [x, y])")
    case "list" => Ok(MakeListFunction)
    case _ => Fail
  }

  // ---------------------------------------------------------------------
  // The dispatcher and the helpers it calls

  /** `translateExpToJS` (src/q4.ts:243-275) on an expression. A let* node
      is not an L3 expression and matches no branch. */
  function Emit(e: CExp): Result<string>
    decreases e, 2
  {
    match e
    case Num(n) => Ok(IntText(n))
    case Bool(b) => Ok(BoolText(b))
    case Str(s) => Ok(StringText(s))
    case Lit(d) => Ok(LitText(d))
    case If(t, c, a) => IfText(t, c, a)
    case VarRef(x) => Ok(Sanitize(x))
    case Let(bs, body) => LetText(bs, body)
    case Proc(params, body) => LambdaText(params, body)
    case App(rator, rands) => AppText(rator, rands)
    case PrimOp(op) => PrimOpValue(op)
    case LetStar(_, _) => Fail
  }

  /** The texts of a list of expressions: the list fails exactly when one of
      them does, and otherwise holds each text in the same position. */
  function EmitAll(es: seq<CExp>): (r: Result<seq<string>>)
    ensures r.Ok? <==> forall i :: 0 <= i < |es| ==> Emit(es[i]).Ok?
    ensures r.Ok? ==> |r.value| == |es| && forall i :: 0 <= i < |es| ==> r.value[i] == Emit(es[i]).value
    decreases es, 0
  {
    if es == [] then Ok([])
    else
      match (Emit(es[0]), EmitAll(es[1..]))
      case (Ok(t), Ok(ts)) => Ok([t] + ts)
      case _ => Fail
  }

  /** The texts of the value expressions of a list of bindings. */
  function EmitVals(bs: seq<Binding>): (r: Result<seq<string>>)
    ensures r.Ok? <==> forall i :: 0 <= i < |bs| ==> Emit(bs[i].val).Ok?
    ensures r.Ok? ==> |r.value| == |bs| && forall i :: 0 <= i < |bs| ==> r.value[i] == Emit(bs[i].val).value
    decreases bs, 0
  {
    if bs == [] then Ok([])
    else
      match (Emit(bs[0].val), EmitVals(bs[1..]))
      case (Ok(t), Ok(ts)) => Ok([t] + ts)
      case _ => Fail
  }

  /** `l3IfToJSString` (src/q4.ts:44). */
  function IfText(t: CExp, c: CExp, a: CExp): Result<string>
    decreases If(t, c, a), 1
  {
    match (Emit(t), Emit(c), Emit(a))
    case (Ok(t'), Ok(c'), Ok(a')) => Ok("(" + t' + " ? " + c' + " : " + a' + ")")
    case _ => Fail
  }

  /** `l3ProcToLambdaJSString` (src/q4.ts:48-63): the sanitised parameters,
      comma-separated, and the text of the one body expression. A longer
      body throws; an empty one reads `body[0]`, which is undefined, and
      the translation of undefined throws. */
  function LambdaText(params: seq<string>, body: seq<CExp>): Result<string>
    decreases body, 1
  {
    if |body| != 1 then Fail
    else
      match Emit(body[0])
      case Ok(b) => Ok("((" + Join(",", SanitizeAll(params)) + ") => " + b + ")")
      case Fail => Fail
  }

  /** A let (src/q4.ts:260-261) is emitted as the lambda over its variables
      applied to its values; `LetEmitsAsApp` proves this is the text of
      `LetToApp`. */
  function LetText(bs: seq<Binding>, body: seq<CExp>): Result<string>
    decreases Let(bs, body), 1
  {
    var l, vs := LambdaText(Names(bs), body), EmitVals(bs);
    if l.Ok? && vs.Ok? then Ok(CallWith(l.value, vs.value)) else Fail
  }

  /** `jsApplyFunction` (src/q4.ts:120-130). */
  function CallText(f: string, rands: seq<CExp>): Result<string>
    decreases rands, 1
  {
    match EmitAll(rands)
    case Ok(ts) => Ok(CallWith(f, ts))
    case Fail => Fail
  }

  /** `jsArithmetic` (src/q4.ts:72-88): no operand throws, one operand is
      its own text, more are joined by the operator inside parentheses. */
  function ArithmeticText(op: string, rands: seq<CExp>): Result<string>
    decreases rands, 1
  {
    if |rands| == 0 then Fail
    else if |rands| == 1 then Emit(rands[0])
    else
      match EmitAll(rands)
      case Ok(ts) => Ok("(" + Join(InfixSeparator(op), ts) + ")")
      case Fail => Fail
  }

  /** `jsPairArithmetic` (src/q4.ts:66-70): exactly two operands. */
  function PairText(op: string, rands: seq<CExp>): Result<string>
    decreases rands, 1
  {
    if |rands| != 2 then Fail
    else
      match (Emit(rands[0]), Emit(rands[1]))
      case (Ok(a), Ok(b)) => Ok("(" + a + " " + op + " " + b + ")")
      case _ => Fail
  }

  /** The shape shared by the one-operand emitters: exactly one operand,
      whose text is wrapped between `before` and `after`. */
  function UnaryText(rands: seq<CExp>, before: string, after: string): Result<string>
    decreases rands, 0
  {
    if |rands| != 1 then Fail
    else
      match Emit(rands[0])
      case Ok(a) => Ok(before + a + after)
      case Fail => Fail
  }

  /** `jsNot` (src/q4.ts:90-95). */
  function NotText(rands: seq<CExp>): Result<string>
    decreases rands, 1
  {
    UnaryText(rands, "(!", ")")
  }

  /** `jsTypeEquals` (src/q4.ts:97-101). */
  function TypeEqualsText(jsType: string, rands: seq<CExp>): Result<string>
    decreases rands, 1
  {
    UnaryText(rands, "(typeof(", ") === \"" + jsType + "\")")
  }

  /** `jsIsPair` (src/q4.ts:103-107). */
  function IsPairText(rands: seq<CExp>): Result<string>
    decreases rands, 1
  {
    UnaryText(rands, "Array.isArray(", ")")
  }

  /** `jsIsString` (src/q4.ts:108-112). */
  function IsStringText(rands: seq<CExp>): Result<string>
    decreases rands, 1
  {
    UnaryText(rands, "(typeof(", ") === 'string')")
  }

  /** `jsGetFromPair` (src/q4.ts:114-118). */
  function GetFromPairText(index: nat, rands: seq<CExp>): Result<string>
    decreases rands, 1
  {
    UnaryText(rands, "", "[" + NatText(index) + "]")
  }

  /** `jsCreatePair` (src/q4.ts:140): no arity check; it reads the first two
      operands, ignores any others, and throws when the second is missing. */
  function CreatePairText(rands: seq<CExp>): Result<string>
    decreases rands, 1
  {
    if |rands| < 2 then Fail
    else
      match (Emit(rands[0]), Emit(rands[1]))
      case (Ok(a), Ok(b)) => Ok("[" + a + ", " + b + "]")
      case _ => Fail
  }

  /** `jsCreateList` (src/q4.ts:132-139). With no operands the `substring`
      that drops the last ',' drops the opening '(' instead. */
  function ListText(rands: seq<CExp>): Result<string>
    decreases rands, 1
  {
    match EmitAll(rands)
    case Ok(ts) => Ok(MakeListFunction + (if |ts| == 0 then ")" else "(" + Join(",", ts) + ")"))
    case Fail => Fail
  }

  /** The primitive-operator switch of `l3AppToJSString`
      (src/q4.ts:187-225). An operator the switch does not know falls
      through to the checks for a variable or a lambda operator, fails
      both, and throws. */
  function PrimAppText(op: string, rands: seq<CExp>): Result<string>
    decreases rands, 2
  {
    match op
    case "+" | "-" | "*" | "/" => ArithmeticText(op, rands)
    case "and" => ArithmeticText("&", rands)
    case "or" => ArithmeticText("|", rands)
    case "<" | ">" => PairText(op, rands)
    case "=" | "eq?" | "string=?" => PairText("===", rands)
    case "not" => NotText(rands)
    case "string?" => IsStringText(rands)
    case "symbol?" => TypeEqualsText("symbol", rands)
    case "pair?" => IsPairText(rands)
    case "boolean?" => TypeEqualsText("boolean", rands)
    case "number?" => TypeEqualsText("number", rands)
    case "car" => GetFromPairText(0, rands)
    case "cdr" => GetFromPairText(1, rands)
    case "cons" => CreatePairText(rands)
    case "list" => ListText(rands)
    case _ => Fail
  }

  /** `l3AppToJSString` (src/q4.ts:186-241): a primitive operator, a
      variable called by its sanitised name, or a lambda applied on the
      spot; any other operator throws. */
  function AppText(rator: CExp, rands: seq<CExp>): Result<string>
    decreases App(rator, rands), 1
  {
    match rator
    case PrimOp(op) => PrimAppText(op, rands)
    case VarRef(f) => CallText(Sanitize(f), rands)
    case Proc(params, body) =>
      (match LambdaText(params, body)
       case Ok(l) => CallText(l, rands)
       case Fail => Fail)
    case _ => Fail
  }

  /** `translateExpToJS` on a top-level form: a define becomes a constant
      declaration of the sanitised name. */
  function EmitExp(x: Exp): Result<string> {
    match x
    case Define(v, val) =>
      (match Emit(val)
       case Ok(t) => Ok("const " + Sanitize(v) + " = " + t)
       case Fail => Fail)
    case Expr(e) => Emit(e)
  }

  function EmitForms(xs: seq<Exp>): (r: Result<seq<string>>)
    ensures r.Ok? <==> forall i :: 0 <= i < |xs| ==> EmitExp(xs[i]).Ok?
    ensures r.Ok? ==> |r.value| == |xs| && forall i :: 0 <= i < |xs| ==> r.value[i] == EmitExp(xs[i]).value
  {
    if xs == [] then Ok([])
    else
      match (EmitExp(xs[0]), EmitForms(xs[1..]))
      case (Ok(t), Ok(ts)) => Ok([t] + ts)
      case _ => Fail
  }

  /** `translateProgramToJS` (src/q4.ts:277-287): the forms' texts in order,
      separated by ";\n". */
  function ProgramText(p: Program): Result<string> {
    match EmitForms(p.exps)
    case Ok(ts) => Ok(Join(";\n", ts))
    case Fail => Fail
  }

  /** `l30ToJS` (src/q4.ts:289-293). */
  function L30ToJS(t: Input): Result<string> {
    match t
    case Single(x) => EmitExp(x)
    case Whole(p) => ProgramText(p)
  }

  // ---------------------------------------------------------------------
  // The string-building loops of the source

  /** Operand texts gathered one by one are the texts of the list. */
  lemma {:induction false} EmitAllFrom(rands: seq<CExp>, ts: seq<string>)
    requires |ts| == |rands| && forall j :: 0 <= j < |rands| ==> Emit(rands[j]) == Ok(ts[j])
    ensures EmitAll(rands) == Ok(ts)
  {
    if rands != [] {
      EmitAllFrom(rands[1..], ts[1..]);
      assert Emit(rands[0]) == Ok(ts[0]);
      assert ts == [ts[0]] + ts[1..];
    }
  }

  /** One operand that fails makes the list fail. */
  lemma EmitAllFails(rands: seq<CExp>, i: nat)
    requires i < |rands| && Emit(rands[i]).Fail?
    ensures EmitAll(rands) == Fail
  {
  }

  /** `l3ProcToLambdaJSString` as written. */
  method ProcToLambda(params: seq<string>, body: seq<CExp>) returns (r: Result<string>)
    ensures r == LambdaText(params, body)
  {
    var s := "((";
    ghost var names: seq<string> := [];
    for i := 0 to |params|
      invariant |names| == i && forall j :: 0 <= j < i ==> names[j] == Sanitize(params[j])
      invariant s == Partial("((", ",", names, 0 < i < |params|)
    {
      var name := Sanitize(params[i]);
      PartialItem("((", ",", names, name);
      s := s + name;
      names := names + [name];
      if i < |params| - 1 {
        s := s + ",";
      }
    }
    assert names == SanitizeAll(params);
    assert s == "((" + Join(",", SanitizeAll(params));
    s := s + ") => ";
    if |body| > 1 {
      return Fail;
    }
    if |body| == 0 {
      return Fail;
    }
    var b := Emit(body[0]);
    if b.Fail? {
      return Fail;
    }
    s := s + b.value;
    s := s + ")";
    r := Ok(s);
  }

  /** `jsArithmetic` as written, including its reassignment of `operator`. */
  method Arithmetic(op: string, rands: seq<CExp>) returns (r: Result<string>)
    ensures r == ArithmeticText(op, rands)
  {
    if |rands| == 0 {
      return Fail;
    }
    if |rands| == 1 {
      return Emit(rands[0]);
    }
    var s := "(";
    var operator := op;
    if operator != "," {
      operator := " " + operator + " ";
    }
    ghost var ts: seq<string> := [];
    for i := 0 to |rands|
      invariant |ts| == i
      invariant forall j :: 0 <= j < i ==> Emit(rands[j]) == Ok(ts[j])
      invariant s == Partial("(", operator, ts, 0 < i < |rands|)
    {
      var t := Emit(rands[i]);
      if t.Fail? {
        EmitAllFails(rands, i);
        return Fail;
      }
      PartialItem("(", operator, ts, t.value);
      s := s + t.value;
      ts := ts + [t.value];
      if i < |rands| - 1 {
        s := s + operator;
      }
    }
    EmitAllFrom(rands, ts);
    assert operator == InfixSeparator(op);
    assert s == "(" + Join(operator, ts);
    s := s + ")";
    r := Ok(s);
  }

  /** `jsApplyFunction` as written. */
  method ApplyFunction(functionName: string, rands: seq<CExp>) returns (r: Result<string>)
    ensures r == CallText(functionName, rands)
  {
    var s := functionName + "(";
    ghost var ts: seq<string> := [];
    for i := 0 to |rands|
      invariant |ts| == i
      invariant forall j :: 0 <= j < i ==> Emit(rands[j]) == Ok(ts[j])
      invariant s == Partial(functionName + "(", ",", ts, 0 < i < |rands|)
    {
      var t := Emit(rands[i]);
      if t.Fail? {
        EmitAllFails(rands, i);
        return Fail;
      }
      PartialItem(functionName + "(", ",", ts, t.value);
      s := s + t.value;
      ts := ts + [t.value];
      if i < |rands| - 1 {
        s := s + ",";
      }
    }
    EmitAllFrom(rands, ts);
    assert s == functionName + "(" + Join(",", ts);
    s := s + ")";
    r := Ok(s);
  }

  /** `jsCreateList` as written: every operand followed by ',', then the
      last character replaced by ')'. */
  method CreateList(rands: seq<CExp>) returns (r: Result<string>)
    ensures r == ListText(rands)
  {
    var params := "(";
    ghost var ts: seq<string> := [];
    for i := 0 to |rands|
      invariant |ts| == i
      invariant forall j :: 0 <= j < i ==> Emit(rands[j]) == Ok(ts[j])
      invariant params == Partial("(", ",", ts, i > 0)
    {
      var t := Emit(rands[i]);
      if t.Fail? {
        EmitAllFails(rands, i);
        return Fail;
      }
      PartialItem("(", ",", ts, t.value);
      params := params + t.value + ",";
      ts := ts + [t.value];
    }
    EmitAllFrom(rands, ts);
    if |ts| > 0 {
      DropSeparator("(", ",", ts);
    } else {
      assert params == "(";
    }
    params := params[..|params| - 1] + ")";
    assert params == if |ts| == 0 then ")" else "(" + Join(",", ts) + ")";
    r := Ok(MakeListFunction + params);
  }

  /** The lambda-operator branch of `l3AppToJSString` (src/q4.ts:229-238):
      the lambda's text, then the same operand loop as `jsApplyFunction`. */
  method ApplyLambda(params: seq<string>, body: seq<CExp>, rands: seq<CExp>) returns (r: Result<string>)
    ensures r == AppText(Proc(params, body), rands)
  {
    var lambda := ProcToLambda(params, body);
    if lambda.Fail? {
      return Fail;
    }
    r := ApplyFunction(lambda.value, rands);
  }

  /** `translateProgramToJS` as written: every form followed by ";\n", then
      the last two characters dropped (`substring` with a negative end
      gives the empty string). */
  method TranslateProgram(p: Program) returns (r: Result<string>)
    ensures r == ProgramText(p)
  {
    var jsCode := "";
    ghost var ts: seq<string> := [];
    for i := 0 to |p.exps|
      invariant |ts| == i
      invariant forall j :: 0 <= j < i ==> EmitExp(p.exps[j]) == Ok(ts[j])
      invariant jsCode == Partial("", ";\n", ts, i > 0)
    {
      var t := EmitExp(p.exps[i]);
      if t.Fail? {
        assert EmitForms(p.exps).Fail?;
        return Fail;
      }
      PartialItem("", ";\n", ts, t.value);
      jsCode := jsCode + t.value;
      jsCode := jsCode + ";\n";
      ts := ts + [t.value];
    }
    assert EmitForms(p.exps).Ok? && EmitForms(p.exps).value == ts;
    if |ts| > 0 {
      DropSeparator("", ";\n", ts);
      assert "" + Join(";\n", ts) == Join(";\n", ts);
    }
    var end := if |jsCode| >= 2 then |jsCode| - 2 else 0;
    r := Ok(jsCode[..end]);
  }
}
