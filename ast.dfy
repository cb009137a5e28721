/** The abstract syntax shared by the surface language L31 and the core
    language L3, and the failure-carrying result both passes return. */
module Ast {

  /** Every `throw` of the two passes is a `Fail`. Reading a missing
      operand gives `undefined`, and `translateExpToJS(undefined)` ends in
      its final `throw`, so that is a `Fail` too. The text of the message
      is not modelled. */
  datatype Result<T> = Ok(value: T) | Fail

  /** The datum of a quoted literal: a symbol or the empty list. */
  datatype SExp = Sym(name: string) | EmptyList

  /** Expressions of L31. `LetStar` exists only in L31; an L3 expression
      is one that satisfies `IsCore`. */
  datatype CExp =
    | Num(n: int)
    | Bool(b: bool)
    | Str(s: string)
    | VarRef(name: string)
    | PrimOp(op: string)
    | Lit(datum: SExp)
    | App(rator: CExp, rands: seq<CExp>)
    | If(test: CExp, conseq: CExp, alt: CExp)
    | Proc(params: seq<string>, body: seq<CExp>)
    | Let(bindings: seq<Binding>, body: seq<CExp>)
    | LetStar(bindings: seq<Binding>, body: seq<CExp>)

  datatype Binding = Binding(name: string, val: CExp)

  /** A top-level form: a definition or an expression. */
  datatype Exp = Define(name: string, val: CExp) | Expr(e: CExp)

  datatype Program = Program(exps: seq<Exp>)

  /** What the entry points accept: a single form or a whole program. */
  datatype Input = Single(exp: Exp) | Whole(program: Program)

  /** The variables a list of bindings declares, in order. */
  function Names(bs: seq<Binding>): (r: seq<string>)
    ensures |r| == |bs| && forall i :: 0 <= i < |bs| ==> r[i] == bs[i].name
  {
    seq(|bs|, i requires 0 <= i < |bs| => bs[i].name)
  }

  /** The value expressions of a list of bindings, in order. */
  function Vals(bs: seq<Binding>): (r: seq<CExp>)
    ensures |r| == |bs| && forall i :: 0 <= i < |bs| ==> r[i] == bs[i].val
  {
    seq(|bs|, i requires 0 <= i < |bs| => bs[i].val)
  }

  /** No let* occurs anywhere in `e`: `e` is an L3 expression. */
  predicate IsCore(e: CExp) {
    match e
    case App(rator, rands) => IsCore(rator) && forall i :: 0 <= i < |rands| ==> IsCore(rands[i])
    case If(t, c, a) => IsCore(t) && IsCore(c) && IsCore(a)
    case Proc(_, body) => forall i :: 0 <= i < |body| ==> IsCore(body[i])
    case Let(bs, body) =>
      (forall i :: 0 <= i < |bs| ==> IsCore(bs[i].val)) &&
      (forall i :: 0 <= i < |body| ==> IsCore(body[i]))
    case LetStar(_, _) => false
    case _ => true
  }

  /** Every let* in `e` has at least one binding. */
  predicate NoEmptyLetStar(e: CExp) {
    match e
    case App(rator, rands) => NoEmptyLetStar(rator) && forall i :: 0 <= i < |rands| ==> NoEmptyLetStar(rands[i])
    case If(t, c, a) => NoEmptyLetStar(t) && NoEmptyLetStar(c) && NoEmptyLetStar(a)
    case Proc(_, body) => forall i :: 0 <= i < |body| ==> NoEmptyLetStar(body[i])
    case Let(bs, body) =>
      (forall i :: 0 <= i < |bs| ==> NoEmptyLetStar(bs[i].val)) &&
      (forall i :: 0 <= i < |body| ==> NoEmptyLetStar(body[i]))
    case LetStar(bs, body) =>
      |bs| > 0 &&
      (forall i :: 0 <= i < |bs| ==> NoEmptyLetStar(bs[i].val)) &&
      (forall i :: 0 <= i < |body| ==> NoEmptyLetStar(body[i]))
    case _ => true
  }

  predicate IsCoreExp(x: Exp) {
    match x
    case Define(_, val) => IsCore(val)
    case Expr(e) => IsCore(e)
  }
}
