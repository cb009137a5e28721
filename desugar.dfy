/** The L31-to-L3 desugarer (src/q3.ts): let* becomes a right-nested chain
    of single-binding lets; every other node is copied with its children
    desugared.

    The functions are the specification; the methods are the loops of the
    source (children pushed one by one onto fresh lists, the bindings of a
    let* reversed in place and folded), each proved equal to its function. */
module Desugarer {
  import opened Ast

  // ---------------------------------------------------------------------
  // let* to nested lets

  /** `Let([b1], [Let([b2], [ ... Let([bn], body) ... ])])`. */
  function NestLets(bs: seq<Binding>, body: seq<CExp>): CExp
    requires |bs| > 0
    decreases |bs|
  {
    if |bs| == 1 then Let([bs[0]], body)
    else Let([bs[0]], [NestLets(bs[1..], body)])
  }

  /** What `letStarToLet` returns: the chain, or a failure for a let* with
      no bindings (its fold leaves `letExp` null). */
  function LetChain(bs: seq<Binding>, body: seq<CExp>): Result<CExp> {
    if |bs| == 0 then Fail else Ok(NestLets(bs, body))
  }

  /** The expression reached by stepping `d` times into the single body
      expression of a let. */
  function Descend(e: CExp, d: nat): CExp {
    if d > 0 && e.Let? && |e.body| == 1 then Descend(e.body[0], d - 1) else e
  }

  /** Stepping `d` times into the chain reaches the chain of the bindings
      from `bs[d]` on. */
  lemma {:induction false} NestLetsAt(bs: seq<Binding>, body: seq<CExp>, d: nat)
    requires d < |bs|
    ensures Descend(NestLets(bs, body), d) == NestLets(bs[d..], body)
  {
    if d > 0 {
      NestLetsAt(bs[1..], body, d - 1);
      assert bs[1..][d - 1..] == bs[d..];
    } else {
      assert bs[0..] == bs;
    }
  }

  /** The let at depth `d` of `c` binds exactly `bs[d]`; its body is the
      singleton holding the next let, or `body` at the innermost depth. */
  ghost predicate LinkAt(c: CExp, bs: seq<Binding>, body: seq<CExp>, d: nat)
    requires d < |bs|
  {
    Descend(c, d).Let? && Descend(c, d).bindings == [bs[d]] &&
    Descend(c, d).body == (if d == |bs| - 1 then body else [Descend(c, d + 1)])
  }

  /** `c` is a chain of exactly |bs| single-binding lets, the one at depth
      d binding `bs[d]`, ending in `body`. */
  ghost predicate IsLetChain(c: CExp, bs: seq<Binding>, body: seq<CExp>) {
    forall d: nat :: d < |bs| ==> LinkAt(c, bs, body, d)
  }

  /** let* with bindings b1..bn (n >= 1) becomes such a chain; with no
      bindings the rewrite fails. */
  lemma LetChainShape(bs: seq<Binding>, body: seq<CExp>)
    ensures LetChain(bs, body).Fail? <==> |bs| == 0
    ensures LetChain(bs, body).Ok? ==> IsLetChain(LetChain(bs, body).value, bs, body)
  {
    if |bs| > 0 {
      var c := NestLets(bs, body);
      forall d: nat | d < |bs| ensures LinkAt(c, bs, body, d) {
        NestLetsAt(bs, body, d);
        var rest := bs[d..];
        assert rest[0] == bs[d];
        if d < |bs| - 1 {
          NestLetsAt(bs, body, d + 1);
          assert rest[1..] == bs[d + 1..];
        }
      }
    }
  }

  /** `letStarToLet` (src/q3.ts:32-42): reverses the bindings array in place
      (`Array.prototype.reverse`), then folds over it with the two locals
      `letExp` (null until the first binding) and `nextBody`. */
  method LetStarToLet(bindings: array<Binding>, body: seq<CExp>) returns (r: Result<CExp>)
    modifies bindings
    ensures forall k :: 0 <= k < bindings.Length ==> bindings[k] == old(bindings[bindings.Length - 1 - k])
    ensures r == LetChain(old(bindings[..]), body)
  {
    ghost var orig := bindings[..];
    var n := bindings.Length;
    ReverseInPlace(bindings);
    var letExp: Result<CExp> := Fail;
    var nextBody := body;
    for i := 0 to n
      invariant forall k :: 0 <= k < n ==> bindings[k] == orig[n - 1 - k]
      invariant i == 0 ==> letExp.Fail? && nextBody == body
      invariant 0 < i ==> letExp == Ok(NestLets(orig[n - i..], body)) && nextBody == [letExp.value]
    {
      assert bindings[i] == orig[n - 1 - i];
      assert orig[n - 1 - i..][0] == orig[n - 1 - i];
      assert 0 < i ==> orig[n - 1 - i..][1..] == orig[n - i..];
      var l := Let([bindings[i]], nextBody);
      letExp := Ok(l);
      nextBody := [l];
    }
    assert orig[n - n..] == orig;
    r := letExp;
  }

  /** In-place reversal, as JavaScript's `reverse` does it. */
  method ReverseInPlace(a: array<Binding>)
    modifies a
    ensures forall k :: 0 <= k < a.Length ==> a[k] == old(a[a.Length - 1 - k])
  {
    var n := a.Length;
    var i := 0;
    while i < n / 2
      invariant 0 <= i <= n / 2
      invariant forall k :: 0 <= k < i ==> a[k] == old(a[n - 1 - k]) && a[n - 1 - k] == old(a[k])
      invariant forall k :: i <= k < n - i ==> a[k] == old(a[k])
    {
      a[i], a[n - 1 - i] := a[n - 1 - i], a[i];
      i := i + 1;
    }
  }

  // ---------------------------------------------------------------------
  // The desugaring functions

  /** `L31ToL3CExp` (src/q3.ts:44-79). */
  function Desugar(e: CExp): Result<CExp>
    decreases e, 1
  {
    match e
    case App(rator, rands) =>
      (match (DesugarAll(rands), Desugar(rator))
       case (Ok(xs), Ok(f)) => Ok(App(f, xs))
       case _ => Fail)
    case If(t, c, a) =>
      (match (Desugar(t), Desugar(c), Desugar(a))
       case (Ok(t'), Ok(c'), Ok(a')) => Ok(If(t', c', a'))
       case _ => Fail)
    case Proc(params, body) =>
      (match DesugarAll(body)
       case Ok(body') => Ok(Proc(params, body'))
       case Fail => Fail)
    case Let(bs, body) =>
      (match (DesugarBindings(bs), DesugarAll(body))
       case (Ok(bs'), Ok(body')) => Ok(Let(bs', body'))
       case _ => Fail)
    case LetStar(bs, body) =>
      (match (DesugarBindings(bs), DesugarAll(body))
       case (Ok(bs'), Ok(body')) => LetChain(bs', body')
       case _ => Fail)
    case _ => Ok(e)
  }

  /** The children of a node desugared one by one: the whole list fails
      exactly when one child does, and otherwise holds each child's result
      in the same position. */
  function DesugarAll(es: seq<CExp>): (r: Result<seq<CExp>>)
    ensures r.Ok? <==> forall i :: 0 <= i < |es| ==> Desugar(es[i]).Ok?
    ensures r.Ok? ==> |r.value| == |es| && forall i :: 0 <= i < |es| ==> r.value[i] == Desugar(es[i]).value
    decreases es, 0
  {
    if es == [] then Ok([])
    else
      match (Desugar(es[0]), DesugarAll(es[1..]))
      case (Ok(x), Ok(xs)) => Ok([x] + xs)
      case _ => Fail
  }

  /** `L31ToL3Binding` (src/q3.ts:29-30): the variable is kept and the value
      desugared. */
  function DesugarBinding(b: Binding): (r: Result<Binding>)
    ensures r.Ok? <==> Desugar(b.val).Ok?
    ensures r.Ok? ==> r.value.name == b.name && r.value.val == Desugar(b.val).value
    decreases b, 1
  {
    match Desugar(b.val)
    case Ok(v) => Ok(Binding(b.name, v))
    case Fail => Fail
  }

  function DesugarBindings(bs: seq<Binding>): (r: Result<seq<Binding>>)
    ensures r.Ok? <==> forall i :: 0 <= i < |bs| ==> DesugarBinding(bs[i]).Ok?
    ensures r.Ok? ==> |r.value| == |bs| && forall i :: 0 <= i < |bs| ==> r.value[i] == DesugarBinding(bs[i]).value
    decreases bs, 0
  {
    if bs == [] then Ok([])
    else
      match (DesugarBinding(bs[0]), DesugarBindings(bs[1..]))
      case (Ok(x), Ok(xs)) => Ok([x] + xs)
      case _ => Fail
  }

  /** `L31ToL3Exp` (src/q3.ts:81-87): a define keeps its variable and
      desugars its value; an expression is desugared. */
  function DesugarExp(x: Exp): (r: Result<Exp>)
    ensures r.Ok? ==> r.value.Define? == x.Define?
    ensures r.Ok? && x.Define? ==> r.value.name == x.name && Desugar(x.val) == Ok(r.value.val)
    ensures r.Ok? && x.Expr? ==> Desugar(x.e) == Ok(r.value.e)
  {
    match x
    case Define(v, val) =>
      (match Desugar(val)
       case Ok(val') => Ok(Define(v, val'))
       case Fail => Fail)
    case Expr(e) =>
      (match Desugar(e)
       case Ok(e') => Ok(Expr(e'))
       case Fail => Fail)
  }

  function DesugarForms(xs: seq<Exp>): (r: Result<seq<Exp>>)
    ensures r.Ok? <==> forall i :: 0 <= i < |xs| ==> DesugarExp(xs[i]).Ok?
    ensures r.Ok? ==> |r.value| == |xs| && forall i :: 0 <= i < |xs| ==> r.value[i] == DesugarExp(xs[i]).value
  {
    if xs == [] then Ok([])
    else
      match (DesugarExp(xs[0]), DesugarForms(xs[1..]))
      case (Ok(x), Ok(rest)) => Ok([x] + rest)
      case _ => Fail
  }

  /** `L31ToL3` (src/q3.ts:89-101). A form that throws aborts the whole
      program: the `isOk` filter of the source never sees a failure, since
      `L31ToL3Exp` throws instead of returning one. */
  function DesugarInput(t: Input): Result<Input> {
    match t
    case Single(x) =>
      (match DesugarExp(x)
       case Ok(x') => Ok(Single(x'))
       case Fail => Fail)
    case Whole(p) =>
      (match DesugarForms(p.exps)
       case Ok(xs) => Ok(Whole(Program(xs)))
       case Fail => Fail)
  }

  // ---------------------------------------------------------------------
  // The loops of the source

  /** `L31ToL3CExp` as written: children are pushed one at a time onto
      fresh lists, and a let* hands a freshly built bindings array to
      `LetStarToLet`, so nothing the caller holds is modified. */
  method TranslateCExp(e: CExp) returns (r: Result<CExp>)
    ensures r == Desugar(e)
    decreases e, 1
  {
    match e {
      case App(rator, rands) =>
        var translatedRands := TranslateAll(rands);
        if translatedRands.Fail? { return Fail; }
        var f := TranslateCExp(rator);
        if f.Fail? { return Fail; }
        r := Ok(App(f.value, translatedRands.value));
      case If(t, c, a) =>
        var t' := TranslateCExp(t);
        var c' := TranslateCExp(c);
        var a' := TranslateCExp(a);
        if t'.Fail? || c'.Fail? || a'.Fail? { return Fail; }
        r := Ok(If(t'.value, c'.value, a'.value));
      case Proc(params, body) =>
        var translatedExps := TranslateAll(body);
        if translatedExps.Fail? { return Fail; }
        r := Ok(Proc(params, translatedExps.value));
      case Let(bs, body) =>
        var translatedBindings := TranslateBindings(bs);
        if translatedBindings.Fail? { return Fail; }
        var translatedExps := TranslateAll(body);
        if translatedExps.Fail? { return Fail; }
        r := Ok(Let(translatedBindings.value, translatedExps.value));
      case LetStar(bs, body) =>
        var translatedBindings := TranslateBindings(bs);
        if translatedBindings.Fail? { return Fail; }
        var translatedExps := TranslateAll(body);
        if translatedExps.Fail? { return Fail; }
        var tb := translatedBindings.value;
        var arr := new Binding[|tb|](k requires 0 <= k < |tb| => tb[k]);
        assert arr[..] == tb;
        r := LetStarToLet(arr, translatedExps.value);
      case _ =>
        r := Ok(e);
    }
  }

  /** The `forEach`/`push` loop over a list of child expressions. */
  method TranslateAll(es: seq<CExp>) returns (r: Result<seq<CExp>>)
    ensures r == DesugarAll(es)
    decreases es, 0
  {
    var translated: seq<CExp> := [];
    for i := 0 to |es|
      invariant |translated| == i
      invariant forall j :: 0 <= j < i ==> Desugar(es[j]) == Ok(translated[j])
    {
      var x := TranslateCExp(es[i]);
      if x.Fail? { return Fail; }
      translated := translated + [x.value];
    }
    assert DesugarAll(es).Ok?;
    assert DesugarAll(es).value == translated;
    r := Ok(translated);
  }

  /** The `forEach`/`push` loop over bindings; each step is `L31ToL3Binding`
      (the variable kept, the value translated). */
  method TranslateBindings(bs: seq<Binding>) returns (r: Result<seq<Binding>>)
    ensures r == DesugarBindings(bs)
    decreases bs, 0
  {
    var translated: seq<Binding> := [];
    for i := 0 to |bs|
      invariant |translated| == i
      invariant forall j :: 0 <= j < i ==> DesugarBinding(bs[j]) == Ok(translated[j])
    {
      var v := TranslateCExp(bs[i].val);
      if v.Fail? { return Fail; }
      translated := translated + [Binding(bs[i].name, v.value)];
    }
    assert DesugarBindings(bs).Ok?;
    assert DesugarBindings(bs).value == translated;
    r := Ok(translated);
  }

  /** `L31ToL3Exp` as written. */
  method TranslateExp(x: Exp) returns (r: Result<Exp>)
    ensures r == DesugarExp(x)
  {
    match x {
      case Define(v, val) =>
        var val' := TranslateCExp(val);
        if val'.Fail? { return Fail; }
        r := Ok(Define(v, val'.value));
      case Expr(e) =>
        var e' := TranslateCExp(e);
        if e'.Fail? { return Fail; }
        r := Ok(Expr(e'.value));
    }
  }

  /** `L31ToL3` as written: the forms of a program are pushed one by one. */
  method Translate(t: Input) returns (r: Result<Input>)
    ensures r == DesugarInput(t)
  {
    match t {
      case Single(x) =>
        var x' := TranslateExp(x);
        if x'.Fail? { return Fail; }
        r := Ok(Single(x'.value));
      case Whole(p) =>
        var exps: seq<Exp> := [];
        for i := 0 to |p.exps|
          invariant |exps| == i
          invariant forall j :: 0 <= j < i ==> DesugarExp(p.exps[j]) == Ok(exps[j])
        {
          var translated := TranslateExp(p.exps[i]);
          if translated.Fail? { return Fail; }
          exps := exps + [translated.value];
        }
        assert DesugarForms(p.exps).Ok?;
        assert DesugarForms(p.exps).value == exps;
        r := Ok(Whole(Program(exps)));
    }
  }
}
