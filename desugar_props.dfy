/** What the desugarer of src/q3.ts promises, proved about the functions of
    module Desugarer. */
module DesugarProps {
  import opened Ast
  import opened Desugarer

  /** Desugaring succeeds exactly when every let* in the input has at least
      one binding; the only failure is `letStarToLet` on an empty let*. */
  lemma {:induction false} DesugarOkIff(e: CExp)
    ensures Desugar(e).Ok? <==> NoEmptyLetStar(e)
    decreases e
  {
    match e
    case App(rator, rands) =>
      DesugarOkIff(rator);
      forall i | 0 <= i < |rands| ensures Desugar(rands[i]).Ok? <==> NoEmptyLetStar(rands[i]) {
        DesugarOkIff(rands[i]);
      }
    case If(t, c, a) =>
      DesugarOkIff(t);
      DesugarOkIff(c);
      DesugarOkIff(a);
    case Proc(_, body) =>
      forall i | 0 <= i < |body| ensures Desugar(body[i]).Ok? <==> NoEmptyLetStar(body[i]) {
        DesugarOkIff(body[i]);
      }
    case Let(bs, body) =>
      forall i | 0 <= i < |bs| ensures Desugar(bs[i].val).Ok? <==> NoEmptyLetStar(bs[i].val) {
        DesugarOkIff(bs[i].val);
      }
      forall i | 0 <= i < |body| ensures Desugar(body[i]).Ok? <==> NoEmptyLetStar(body[i]) {
        DesugarOkIff(body[i]);
      }
    case LetStar(bs, body) =>
      forall i | 0 <= i < |bs| ensures Desugar(bs[i].val).Ok? <==> NoEmptyLetStar(bs[i].val) {
        DesugarOkIff(bs[i].val);
      }
      forall i | 0 <= i < |body| ensures Desugar(body[i]).Ok? <==> NoEmptyLetStar(body[i]) {
        DesugarOkIff(body[i]);
      }
    case _ =>
  }

  /** A chain of lets built from core bindings and a core body is core. */
  lemma {:induction false} NestLetsCore(bs: seq<Binding>, body: seq<CExp>)
    requires |bs| > 0
    requires forall i :: 0 <= i < |bs| ==> IsCore(bs[i].val)
    requires forall i :: 0 <= i < |body| ==> IsCore(body[i])
    ensures IsCore(NestLets(bs, body))
    decreases |bs|
  {
    if |bs| > 1 {
      NestLetsCore(bs[1..], body);
    }
  }

  /** The result of desugaring holds no let* at any depth. */
  lemma {:induction false} DesugarYieldsCore(e: CExp)
    requires Desugar(e).Ok?
    ensures IsCore(Desugar(e).value)
    decreases e
  {
    match e
    case App(rator, rands) =>
      DesugarYieldsCore(rator);
      forall i | 0 <= i < |rands| ensures IsCore(Desugar(rands[i]).value) {
        DesugarYieldsCore(rands[i]);
      }
    case If(t, c, a) =>
      DesugarYieldsCore(t);
      DesugarYieldsCore(c);
      DesugarYieldsCore(a);
    case Proc(_, body) =>
      forall i | 0 <= i < |body| ensures IsCore(Desugar(body[i]).value) {
        DesugarYieldsCore(body[i]);
      }
    case Let(bs, body) =>
      forall i | 0 <= i < |bs| ensures IsCore(Desugar(bs[i].val).value) {
        DesugarYieldsCore(bs[i].val);
      }
      forall i | 0 <= i < |body| ensures IsCore(Desugar(body[i]).value) {
        DesugarYieldsCore(body[i]);
      }
    case LetStar(bs, body) =>
      forall i | 0 <= i < |bs| ensures IsCore(Desugar(bs[i].val).value) {
        DesugarYieldsCore(bs[i].val);
      }
      forall i | 0 <= i < |body| ensures IsCore(Desugar(body[i]).value) {
        DesugarYieldsCore(body[i]);
      }
      NestLetsCore(DesugarBindings(bs).value, DesugarAll(body).value);
    case _ =>
  }

  /** On an input without let*, desugaring returns the input unchanged;
      in particular atomic expressions and quoted literals are returned
      as they are. */
  lemma {:induction false} DesugarFixesCore(e: CExp)
    requires IsCore(e)
    ensures Desugar(e) == Ok(e)
    decreases e
  {
    match e
    case App(rator, rands) =>
      DesugarFixesCore(rator);
      forall i | 0 <= i < |rands| ensures Desugar(rands[i]) == Ok(rands[i]) {
        DesugarFixesCore(rands[i]);
      }
      assert DesugarAll(rands).value == rands;
    case If(t, c, a) =>
      DesugarFixesCore(t);
      DesugarFixesCore(c);
      DesugarFixesCore(a);
    case Proc(_, body) =>
      forall i | 0 <= i < |body| ensures Desugar(body[i]) == Ok(body[i]) {
        DesugarFixesCore(body[i]);
      }
      assert DesugarAll(body).value == body;
    case Let(bs, body) =>
      forall i | 0 <= i < |bs| ensures Desugar(bs[i].val) == Ok(bs[i].val) {
        DesugarFixesCore(bs[i].val);
      }
      forall i | 0 <= i < |body| ensures Desugar(body[i]) == Ok(body[i]) {
        DesugarFixesCore(body[i]);
      }
      assert DesugarBindings(bs).value == bs;
      assert DesugarAll(body).value == body;
    case _ =>
  }

  /** Desugaring twice is desugaring once. */
  lemma DesugarIdempotent(e: CExp)
    requires Desugar(e).Ok?
    ensures Desugar(Desugar(e).value) == Desugar(e)
  {
    DesugarYieldsCore(e);
    DesugarFixesCore(Desugar(e).value);
  }

  /** The child expressions of a node, in source order: the operator then
      the operands, test/then/else, binding values then body. */
  function Children(e: CExp): seq<CExp> {
    match e
    case App(f, xs) => [f] + xs
    case If(t, c, a) => [t, c, a]
    case Proc(_, body) => body
    case Let(bs, body) => Vals(bs) + body
    case LetStar(bs, body) => Vals(bs) + body
    case _ => []
  }

  /** `r` is a node of the same kind as `e`, with the same operand, body and
      binding counts, the same parameter list and the same binding
      variables; an atomic or literal node is equal. */
  predicate SameSkeleton(e: CExp, r: CExp) {
    match e
    case App(_, xs) => r.App? && |r.rands| == |xs|
    case If(_, _, _) => r.If?
    case Proc(ps, body) => r.Proc? && r.params == ps && |r.body| == |body|
    case Let(bs, body) => r.Let? && Names(r.bindings) == Names(bs) && |r.body| == |body|
    case LetStar(bs, body) => r.LetStar? && Names(r.bindings) == Names(bs) && |r.body| == |body|
    case _ => r == e
  }

  /** `ys` holds, position by position, the desugarings of `xs`. */
  ghost predicate Pointwise(xs: seq<CExp>, ys: seq<CExp>) {
    |ys| == |xs| && forall i :: 0 <= i < |xs| ==> Desugar(xs[i]) == Ok(ys[i])
  }

  lemma PointwiseConcat(a: seq<CExp>, b: seq<CExp>, c: seq<CExp>, d: seq<CExp>)
    requires Pointwise(a, c) && Pointwise(b, d)
    ensures Pointwise(a + b, c + d)
  {
    forall i | 0 <= i < |a + b| ensures Desugar((a + b)[i]) == Ok((c + d)[i]) {
      if i >= |a| {
        assert (a + b)[i] == b[i - |a|];
        assert (c + d)[i] == d[i - |a|];
      }
    }
  }

  lemma PointwiseVals(bs: seq<Binding>)
    requires DesugarBindings(bs).Ok?
    ensures Pointwise(Vals(bs), Vals(DesugarBindings(bs).value))
  {
    var bs' := DesugarBindings(bs).value;
    forall i | 0 <= i < |bs| ensures Desugar(Vals(bs)[i]) == Ok(Vals(bs')[i]) {
      assert Vals(bs)[i] == bs[i].val;
      assert Vals(bs')[i] == bs'[i].val;
    }
  }

  lemma SkeletonApp(e: CExp)
    requires e.App? && Desugar(e).Ok?
    ensures SameSkeleton(e, Desugar(e).value) && Pointwise(Children(e), Children(Desugar(e).value))
  {
    var r := Desugar(e).value;
    assert Pointwise([e.rator], [r.rator]);
    assert Pointwise(e.rands, r.rands);
    PointwiseConcat([e.rator], e.rands, [r.rator], r.rands);
  }

  lemma SkeletonLet(e: CExp)
    requires e.Let? && Desugar(e).Ok?
    ensures SameSkeleton(e, Desugar(e).value) && Pointwise(Children(e), Children(Desugar(e).value))
  {
    var r := Desugar(e).value;
    assert r.bindings == DesugarBindings(e.bindings).value;
    assert Names(r.bindings) == Names(e.bindings);
    PointwiseVals(e.bindings);
    assert Pointwise(e.body, r.body);
    PointwiseConcat(Vals(e.bindings), e.body, Vals(r.bindings), r.body);
  }

  lemma SkeletonOther(e: CExp)
    requires !e.App? && !e.Let? && !e.LetStar? && Desugar(e).Ok?
    ensures SameSkeleton(e, Desugar(e).value) && Pointwise(Children(e), Children(Desugar(e).value))
  {
  }

  /** Apart from let*, desugaring keeps every node's skeleton and only
      replaces each child expression, in place, by its desugaring. */
  lemma DesugarKeepsSkeleton(e: CExp)
    requires !e.LetStar? && Desugar(e).Ok?
    ensures SameSkeleton(e, Desugar(e).value)
    ensures |Children(Desugar(e).value)| == |Children(e)|
    ensures forall i :: 0 <= i < |Children(e)| ==>
              Desugar(Children(e)[i]) == Ok(Children(Desugar(e).value)[i])
  {
    if e.App? {
      SkeletonApp(e);
    } else if e.Let? {
      SkeletonLet(e);
    } else {
      SkeletonOther(e);
    }
  }

  /** The let* case: the chain holds the source's bindings, in order, each
      with its value desugared, and the desugared body. */
  lemma DesugarLetStar(bs: seq<Binding>, body: seq<CExp>)
    requires Desugar(LetStar(bs, body)).Ok?
    ensures |bs| > 0
    ensures IsLetChain(Desugar(LetStar(bs, body)).value, DesugarBindings(bs).value, DesugarAll(body).value)
    ensures Names(DesugarBindings(bs).value) == Names(bs)
    ensures forall i :: 0 <= i < |bs| ==> Desugar(bs[i].val) == Ok(DesugarBindings(bs).value[i].val)
  {
    LetChainShape(DesugarBindings(bs).value, DesugarAll(body).value);
  }

  predicate NoEmptyLetStarExp(x: Exp) {
    match x
    case Define(_, val) => NoEmptyLetStar(val)
    case Expr(e) => NoEmptyLetStar(e)
  }

  /** A program maps to a program with the same number of forms, in the same
      order, each form translated on its own: a define keeps its variable,
      and no let* is left. */
  lemma DesugarProgram(p: Program)
    ensures DesugarInput(Whole(p)).Ok? <==> forall i :: 0 <= i < |p.exps| ==> NoEmptyLetStarExp(p.exps[i])
    ensures DesugarInput(Whole(p)).Ok? ==>
              DesugarInput(Whole(p)).value.Whole? &&
              var q := DesugarInput(Whole(p)).value.program;
              |q.exps| == |p.exps| &&
              forall i :: 0 <= i < |p.exps| ==>
                q.exps[i] == DesugarExp(p.exps[i]).value &&
                q.exps[i].Define? == p.exps[i].Define? &&
                (p.exps[i].Define? ==> q.exps[i].name == p.exps[i].name) &&
                IsCoreExp(q.exps[i])
  {
    forall i | 0 <= i < |p.exps|
      ensures DesugarExp(p.exps[i]).Ok? <==> NoEmptyLetStarExp(p.exps[i])
      ensures DesugarExp(p.exps[i]).Ok? ==> IsCoreExp(DesugarExp(p.exps[i]).value)
    {
      match p.exps[i]
      case Define(_, val) =>
        DesugarOkIff(val);
        if Desugar(val).Ok? { DesugarYieldsCore(val); }
      case Expr(e) =>
        DesugarOkIff(e);
        if Desugar(e).Ok? { DesugarYieldsCore(e); }
    }
  }

  /** `(let* ((a 1) (b a)) b)` becomes `(let ((a 1)) (let ((b a)) b))`. */
  lemma LetStarExample()
    ensures Desugar(LetStar([Binding("a", Num(1)), Binding("b", VarRef("a"))], [VarRef("b")]))
            == Ok(Let([Binding("a", Num(1))], [Let([Binding("b", VarRef("a"))], [VarRef("b")])]))
  {
    var bs := [Binding("a", Num(1)), Binding("b", VarRef("a"))];
    assert DesugarBindings(bs).value == bs;
    assert DesugarAll([VarRef("b")]).value == [VarRef("b")];
    assert bs[1..] == [Binding("b", VarRef("a"))];
  }
}
