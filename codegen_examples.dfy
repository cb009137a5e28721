/** The expected outputs of the code generator's own tests
    (test/q4.test.ts), derived from the model. */
module CodegenExamples {
  import opened Ast
  import opened JsText
  import opened Identifiers
  import opened Codegen
  import opened CodegenProps

  lemma Digit(n: nat)
    requires n < 10
    ensures Emit(Num(n)).Ok? && Emit(Num(n)).value == [DigitChar(n)]
  {
    AtomTexts(Num(n));
  }

  /** `(+ 3 5 7)` emits `(3 + 5 + 7)`. */
  lemma FoldExample()
    ensures Emit(App(PrimOp("+"), [Num(3), Num(5), Num(7)])) == Ok("(3 + 5 + 7)")
  {
    var rands := [Num(3), Num(5), Num(7)];
    Digit(3);
    Digit(5);
    Digit(7);
    assert EmitAll(rands).value == ["3", "5", "7"];
    FoldedText("+", rands);
    assert Join(" + ", ["3", "5", "7"]) == "3 + 5 + 7" by {
      assert ["3", "5", "7"][..2] == ["3", "5"];
      assert ["3", "5"][..1] == ["3"];
    }
    assert " " + JsOperator("+") + " " == " + ";
    assert "(" + "3 + 5 + 7" + ")" == "(3 + 5 + 7)";
    EmitApp(App(PrimOp("+"), rands));
    assert AppText(PrimOp("+"), rands) == PrimAppText("+", rands);
  }

  lemma Join2(sep: string, a: string, b: string)
    ensures Join(sep, [a, b]) == a + sep + b
  {
    assert [a, b][..1] == [a];
  }

  /** A one-letter variable that needs no sanitising. */
  lemma Letter(x: string)
    requires |x| == 1 && 'a' <= x[0] <= 'z'
    ensures Emit(VarRef(x)) == Ok(x)
  {
    SanitizeKeepsClean(x);
    AtomTexts(VarRef(x));
  }

  /** `(f 3 4)` emits `f(3,4)`. */
  lemma VarCallExample()
    ensures Emit(App(VarRef("f"), [Num(3), Num(4)])) == Ok("f(3,4)")
  {
    var e := App(VarRef("f"), [Num(3), Num(4)]);
    assert EmitAll(e.rands) == Ok(["3", "4"]) by {
      Digit(3);
      Digit(4);
      assert DigitChar(3) == '3' && DigitChar(4) == '4';
      assert EmitAll(e.rands).value == ["3", "4"];
    }
    assert Join(",", ["3", "4"]) == "3,4" by { Join2(",", "3", "4"); }
    assert Sanitize("f") == "f" by { SanitizeKeepsClean("f"); }
    VarCallShape(e);
    assert "f" + "(" + "3,4" + ")" == "f(3,4)";
  }

  /** `"a"` emits `"a"`, `'a` emits `Symbol.for("a")`, and the primitive
      `symbol?` used as a value emits its lambda text. */
  lemma LiteralExamples()
    ensures Emit(Str("a")) == Ok("\"a\"")
    ensures Emit(Lit(Sym("a"))) == Ok("Symbol.for(\"a\")")
    ensures Emit(PrimOp("symbol?")) == Ok("((x) => typeof(x) === \"symbol\")")
  {
    AtomTexts(Str("a"));
    assert "\"" + "a" + "\"" == "\"a\"";
    AtomTexts(Lit(Sym("a")));
    assert "Symbol.for(\"" + "a" + "\")" == "Symbol.for(\"a\")";
    assert PrimOpValue("symbol?") == Ok("((x) => typeof(x) === \"symbol\")");
  }

  /** `(string=? "a" "b")` emits `("a" === "b")`. */
  lemma StringEqualsExample()
    ensures Emit(App(PrimOp("string=?"), [Str("a"), Str("b")])) == Ok("(\"a\" === \"b\")")
  {
    var rands := [Str("a"), Str("b")];
    AtomTexts(rands[0]);
    assert "\"" + "a" + "\"" == "\"a\"";
    AtomTexts(rands[1]);
    assert "\"" + "b" + "\"" == "\"b\"";
    ComparedText("string=?", rands);
    assert JsOperator("string=?") == "===";
    assert "(" + "\"a\"" + " " + "===" + " " + "\"b\"" + ")" == "(\"a\" === \"b\")";
    EmitApp(App(PrimOp("string=?"), rands));
    assert AppText(PrimOp("string=?"), rands) == PrimAppText("string=?", rands);
  }

  /** `(if (> x 3) 4 5)` emits `((x > 3) ? 4 : 5)`. */
  lemma IfExample()
    ensures Emit(If(App(PrimOp(">"), [VarRef("x"), Num(3)]), Num(4), Num(5))) == Ok("((x > 3) ? 4 : 5)")
  {
    var test := App(PrimOp(">"), [VarRef("x"), Num(3)]);
    assert Emit(test) == Ok("(x > 3)") by {
      Letter("x");
      Digit(3);
      ComparedText(">", test.rands);
      assert JsOperator(">") == ">";
      assert "(" + "x" + " " + ">" + " " + "3" + ")" == "(x > 3)";
      EmitApp(test);
      assert AppText(PrimOp(">"), test.rands) == PrimAppText(">", test.rands);
    }
    Digit(4);
    Digit(5);
    IfShape(If(test, Num(4), Num(5)));
    assert "(" + "(x > 3)" + " ? " + "4" + " : " + "5" + ")" == "((x > 3) ? 4 : 5)";
  }

  /** `(+ 1 2)` emits `(1 + 2)`. */
  lemma SumExample()
    ensures Emit(App(PrimOp("+"), [Num(1), Num(2)])) == Ok("(1 + 2)")
  {
    var rands := [Num(1), Num(2)];
    Digit(1);
    Digit(2);
    assert EmitAll(rands).value == ["1", "2"];
    FoldedText("+", rands);
    Join2(" + ", "1", "2");
    assert " " + JsOperator("+") + " " == " + ";
    assert "(" + ("1" + " + " + "2") + ")" == "(1 + 2)";
    EmitApp(App(PrimOp("+"), rands));
    assert AppText(PrimOp("+"), rands) == PrimAppText("+", rands);
  }

  /** `(= 3 (+ 1 2))` emits `(3 === (1 + 2))`. */
  lemma EqualsExample()
    ensures Emit(App(PrimOp("="), [Num(3), App(PrimOp("+"), [Num(1), Num(2)])])) == Ok("(3 === (1 + 2))")
  {
    var rands := [Num(3), App(PrimOp("+"), [Num(1), Num(2)])];
    SumExample();
    Digit(3);
    ComparedText("=", rands);
    assert JsOperator("=") == "===";
    assert "(" + "3" + " " + "===" + " " + "(1 + 2)" + ")" == "(3 === (1 + 2))";
    EmitApp(App(PrimOp("="), rands));
    assert AppText(PrimOp("="), rands) == PrimAppText("=", rands);
  }
}
