/** The rewriting passes of scripts/config/expr.c as functions on trees, and what they keep. */
module Simplify {
  import opened Tristates
  import opened Exprs

  // ----- expr_eliminate_yn -----

  function EliminateYn(e: Expr): (r: Expr)
    ensures Size(r) <= Size(e)
  {
    match e
    case Bin(op, l, r) => JoinYn(op, EliminateYn(l), EliminateYn(r))
    case _ => e
  }

  /** The tail of expr_eliminate_yn once both operands are simplified. */
  function JoinYn(op: Op, l: Expr, r: Expr): Expr {
    var unit, zero := if op.AND? then SymYes else SymNo, if op.AND? then SymNo else SymYes;
    if l == Sym(zero) then Sym(zero)
    else if l == Sym(unit) then r
    else if r == Sym(zero) then Sym(zero)
    else if r == Sym(unit) then l
    else Bin(op, l, r)
  }

  /** Some AND or OR (not below a NOT) has y or n as an operand. */
  predicate HasYnOperand(e: Expr) {
    e.Bin? && (IsYn(e.left) || IsYn(e.right) || HasYnOperand(e.left) || HasYnOperand(e.right))
  }

  predicate IsYn(e: Expr) { e == Sym(SymYes) || e == Sym(SymNo) }

  lemma {:induction false} EliminateYnMeaning(e: Expr, v: Valuation)
    ensures Eval(EliminateYn(e), v) == Eval(e, v)
  {
    match e
    case Bin(op, l, r) =>
      EliminateYnMeaning(l, v);
      EliminateYnMeaning(r, v);
    case _ =>
  }

  /** No y or n operand survives, and the tree shrinks exactly when there was one. */
  lemma {:induction false} EliminateYnShrinks(e: Expr)
    ensures !HasYnOperand(EliminateYn(e))
    ensures HasYnOperand(e) ==> Size(EliminateYn(e)) < Size(e)
    ensures !HasYnOperand(e) ==> EliminateYn(e) == e
  {
    match e
    case Bin(op, l, r) =>
      EliminateYnShrinks(l);
      EliminateYnShrinks(r);
    case _ =>
  }

  lemma {:induction false} EliminateYnShape(e: Expr)
    ensures Normal(e) ==> Normal(EliminateYn(e))
    ensures NotOverSymbols(e) ==> NotOverSymbols(EliminateYn(e))
    ensures Mentions(EliminateYn(e)) <= Mentions(e)
  {
    match e
    case Bin(op, l, r) =>
      EliminateYnShape(l);
      EliminateYnShape(r);
    case _ =>
  }

  // ----- expr_transform -----

  /** The termination weight: De Morgan rebuilds a tree that is bigger but not heavier. */
  function Weight(e: Expr): (w: nat)
    ensures w >= 1
  {
    match e
    case Sym(_) => 1
    case Cmp(_, _, _) => 3
    case Not(x) => 2 * Weight(x)
    case Bin(_, l, r) => 1 + Weight(l) + Weight(r)
  }

  function Negated(cmp: CmpOp): CmpOp {
    match cmp
    case Eq => Ne
    case Ne => Eq
    case Lt => Ge
    case Le => Gt
    case Gt => Le
    case Ge => Lt
  }

  function Dual(op: Op): Op { if op.AND? then OR else AND }

  lemma DeMorganLighter(op: Op, l: Expr, r: Expr)
    ensures Weight(Bin(Dual(op), Not(l), Not(r))) < 2 * Weight(Bin(op, l, r))
  {
  }

  function Transform(e: Expr): (r: Expr)
    ensures Weight(r) <= Weight(e)
    decreases Weight(e), 1
  {
    match e
    case Sym(_) => e
    case Cmp(cmp, a, b) => TransformCmp(cmp, a, b)
    case Bin(op, l, r) => Bin(op, Transform(l), Transform(r))
    case Not(x) => TransformNot(Transform(x))
  }

  function TransformCmp(cmp: CmpOp, a: Symbol, b: Symbol): (r: Expr)
    ensures Weight(r) <= 3
  {
    if a.Type() != BooleanType || !(cmp.Eq? || cmp.Ne?) then Cmp(cmp, a, b)
    else if b == SymNo then (if cmp.Eq? then Not(Sym(a)) else Sym(a))
    else if b == SymMod then (if cmp.Eq? then Sym(SymNo) else Sym(SymYes))
    else if b == SymYes then (if cmp.Eq? then Sym(a) else Not(Sym(a)))
    else Cmp(cmp, a, b)
  }

  /** The E_NOT case of expr_transform, the operand already transformed. */
  function TransformNot(x: Expr): (r: Expr)
    ensures Weight(r) <= 2 * Weight(x)
    decreases 2 * Weight(x), 0
  {
    match x
    case Not(y) => Transform(y)
    case Cmp(cmp, a, b) => Cmp(Negated(cmp), a, b)
    case Bin(op, l, r) => DeMorganLighter(op, l, r); Transform(Bin(Dual(op), Not(l), Not(r)))
    case Sym(s) =>
      if s == SymYes then Sym(SymNo)
      else if s == SymMod then Sym(SymMod)
      else if s == SymNo then Sym(SymYes)
      else Not(x)
  }

  lemma TransformCmpMeaning(cmp: CmpOp, a: Symbol, b: Symbol, v: Valuation)
    requires Typed(v)
    ensures Eval(TransformCmp(cmp, a, b), v) == Eval(Cmp(cmp, a, b), v)
    ensures Normal(TransformCmp(cmp, a, b))
    ensures Mentions(TransformCmp(cmp, a, b)) <= {a, b, SymYes, SymNo}
  {
    if a.Type() == BooleanType && b.IsYMN() {
      CompareConst(v, a, b);
      assert v.tri(a) != MOD;
    }
  }

  lemma {:induction false} TransformMeaning(e: Expr, v: Valuation)
    requires Typed(v)
    ensures Eval(Transform(e), v) == Eval(e, v)
    decreases Weight(e), 1
  {
    match e
    case Sym(_) =>
    case Cmp(cmp, a, b) => TransformCmpMeaning(cmp, a, b, v);
    case Bin(op, l, r) =>
      TransformMeaning(l, v);
      TransformMeaning(r, v);
    case Not(x) =>
      TransformMeaning(x, v);
      TransformNotMeaning(Transform(x), v);
  }

  lemma {:induction false} TransformNotMeaning(x: Expr, v: Valuation)
    requires Typed(v)
    ensures Eval(TransformNot(x), v) == TriNot(Eval(x, v))
    decreases 2 * Weight(x), 0
  {
    match x
    case Not(y) => TransformMeaning(y, v);
    case Bin(op, l, r) =>
      DeMorganLighter(op, l, r);
      TransformMeaning(Bin(Dual(op), Not(l), Not(r)), v);
    case _ =>
  }

  lemma {:induction false} TransformNormal(e: Expr)
    ensures Normal(Transform(e))
    decreases Weight(e), 1
  {
    match e
    case Sym(_) =>
    case Cmp(_, _, _) =>
    case Bin(op, l, r) =>
      TransformNormal(l);
      TransformNormal(r);
    case Not(x) =>
      TransformNormal(x);
      TransformNotNormal(Transform(x));
  }

  lemma {:induction false} TransformNotNormal(x: Expr)
    requires Normal(x)
    ensures Normal(TransformNot(x))
    decreases 2 * Weight(x), 0
  {
    match x
    case Not(y) => TransformNormal(y);
    case Bin(op, l, r) =>
      DeMorganLighter(op, l, r);
      TransformNormal(Bin(Dual(op), Not(l), Not(r)));
    case _ =>
  }

  /** A normal tree is left alone, so transforming twice is transforming once. */
  lemma {:induction false} TransformFixesNormal(e: Expr)
    requires Normal(e)
    ensures Transform(e) == e
  {
    match e
    case Bin(op, l, r) =>
      TransformFixesNormal(l);
      TransformFixesNormal(r);
    case _ =>
  }

  lemma TransformIdempotent(e: Expr)
    ensures Transform(Transform(e)) == Transform(e)
  {
    TransformNormal(e);
    TransformFixesNormal(Transform(e));
  }

  lemma {:induction false} NormalIsNotOverSymbols(e: Expr)
    requires Normal(e)
    ensures NotOverSymbols(e)
  {
    match e
    case Bin(_, l, r) =>
      NormalIsNotOverSymbols(l);
      NormalIsNotOverSymbols(r);
    case _ =>
  }

  // ----- expr_trans_bool -----

  function TransBool(e: Expr): Expr {
    match e
    case Bin(op, l, r) => Bin(op, TransBool(l), TransBool(r))
    case Not(x) => Not(TransBool(x))
    case Cmp(cmp, a, b) => if cmp.Ne? && a.Type() == TristateType && b == SymNo then Sym(a) else e
    case Sym(_) => e
  }

  /** With NOT only over symbols the pass may lower a value, but never to n, and never raises it. */
  lemma {:induction false} TransBoolKeepsNo(e: Expr, v: Valuation)
    requires Typed(v) && NotOverSymbols(e)
    ensures Eval(TransBool(e), v) <= Eval(e, v)
    ensures Eval(TransBool(e), v) == NO <==> Eval(e, v) == NO
  {
    match e
    case Bin(op, l, r) =>
      TransBoolKeepsNo(l, v);
      TransBoolKeepsNo(r, v);
    case Cmp(cmp, a, b) =>
      if cmp.Ne? && a.Type() == TristateType && b == SymNo { CompareConst(v, a, b); }
    case _ =>
  }

  /** A tristate symbol compared as unequal to n stands nowhere in the expression. */
  predicate NoNeNo(e: Expr) {
    match e
    case Bin(_, l, r) => NoNeNo(l) && NoNeNo(r)
    case Not(x) => NoNeNo(x)
    case Cmp(cmp, a, b) => !(cmp.Ne? && a.Type() == TristateType && b == SymNo)
    case Sym(_) => true
  }

  /** The pass leaves no such comparison, and changes nothing else: without one it changes nothing. */
  lemma {:induction false} TransBoolClears(e: Expr)
    ensures NoNeNo(TransBool(e)) && (NoNeNo(e) ==> TransBool(e) == e)
  {
    match e
    case Bin(_, l, r) =>
      TransBoolClears(l);
      TransBoolClears(r);
    case Not(x) => TransBoolClears(x);
    case _ =>
  }

  /** Under a NOT the same pass can turn n into m. */
  lemma TransBoolUnderNot(v: Valuation, a: Symbol)
    requires Typed(v) && a.Type() == TristateType && v.tri(a) == MOD
    ensures var e := Not(Cmp(Ne, a, SymNo)); Eval(e, v) == NO && Eval(TransBool(e), v) == MOD
  {
  }

  // ----- expr_eq and expr_eliminate_eq -----

  function Unit(op: Op): Symbol { if op.AND? then SymYes else SymNo }

  /** __expr_eliminate_eq on two disjoint slots: the new contents of both. */
  function ElimEq(op: Op, e1: Expr, e2: Expr): (r: (Expr, Expr))
    ensures Size(r.0) <= Size(e1) && Size(r.1) <= Size(e2)
    ensures IsOp(e1, op) ==> IsOp(r.0, op)
    ensures IsOp(e2, op) ==> IsOp(r.1, op)
    decreases Size(e1) + Size(e2), if IsOp(e1, op) || IsOp(e2, op) then 0 else 4
  {
    if IsOp(e1, op) then
      var (l, f) := ElimEq(op, e1.left, e2);
      var (r, g) := ElimEq(op, e1.right, f);
      (Bin(op, l, r), g)
    else if IsOp(e2, op) then
      var (f, l) := ElimEq(op, e1, e2.left);
      var (g, r) := ElimEq(op, f, e2.right);
      (g, Bin(op, l, r))
    else if e1.Sym? && e1 == e2 && e1.sym.IsYN() then (e1, e2)
    else if !ExprEq(e1, e2) then (e1, e2)
    else (Sym(Unit(op)), Sym(Unit(op)))
  }

  /** The marking part of expr_eliminate_eq, before constants are removed. */
  function MarkEq(e1: Expr, e2: Expr): (r: (Expr, Expr))
    ensures Size(r.0) <= Size(e1) && Size(r.1) <= Size(e2)
    decreases Size(e1) + Size(e2), 1
  {
    var (f1, f2) := if e1.Bin? then ElimEq(e1.op, e1, e2) else (e1, e2);
    if f2.Bin? && !IsOp(f1, f2.op) then ElimEq(f2.op, f1, f2) else (f1, f2)
  }

  /** expr_eliminate_eq on two expressions that are not NULL. */
  function EliminateEq(e1: Expr, e2: Expr): (r: (Expr, Expr))
    ensures Size(r.0) <= Size(e1) && Size(r.1) <= Size(e2)
    decreases Size(e1) + Size(e2), 2
  {
    var (f1, f2) := MarkEq(e1, e2);
    (EliminateYn(f1), EliminateYn(f2))
  }

  /** expr_eq. */
  predicate ExprEq(e1: Expr, e2: Expr)
    decreases Size(e1) + Size(e2), 3
  {
    match (e1, e2)
    case (Cmp(_, _, _), Cmp(_, _, _)) => e1 == e2
    case (Sym(_), Sym(_)) => e1 == e2
    case (Not(x), Not(y)) => ExprEq(x, y)
    case (Bin(op1, _, _), Bin(op2, _, _)) =>
      op1 == op2 &&
      var (f1, f2) := EliminateEq(e1, e2);
      f1.Sym? && f2.Sym? && f1.sym == f2.sym
    case _ => false
  }

  /** expr_eliminate_eq on pointers that may be NULL. */
  function EliminateEqOpt(e1: OptExpr, e2: OptExpr): (OptExpr, OptExpr) {
    if e1.None? || e2.None? then (e1, e2)
    else var (f1, f2) := EliminateEq(e1.value, e2.value); (Some(f1), Some(f2))
  }

  lemma {:induction false} ExprEqSound(e1: Expr, e2: Expr, v: Valuation)
    requires ExprEq(e1, e2)
    ensures Eval(e1, v) == Eval(e2, v)
    decreases Size(e1) + Size(e2), 3
  {
    match (e1, e2)
    case (Not(x), Not(y)) => ExprEqSound(x, y, v);
    case (Bin(op, _, _), Bin(_, _, _)) =>
      var c, d := MarkEqMeaning(e1, e2, v);
      var (f1, f2) := MarkEq(e1, e2);
      EliminateYnMeaning(f1, v);
      EliminateYnMeaning(f2, v);
    case _ =>
  }

  /** `e1` and `e2` are `f1` and `f2` with one common operand `c`. */
  ghost predicate Factored(op: Op, c: Tri, e1: Expr, e2: Expr, f1: Expr, f2: Expr, v: Valuation) {
    Eval(e1, v) == Apply(op, c, Eval(f1, v)) && Eval(e2, v) == Apply(op, c, Eval(f2, v))
  }

  /** Factoring both operands of the first expression in turn. */
  lemma FactoredPair(op: Op, c1: Tri, c2: Tri, e1: Expr, e2: Expr, l: Expr, r: Expr, f: Expr, g: Expr, v: Valuation)
    requires IsOp(e1, op)
    requires Factored(op, c1, e1.left, e2, l, f, v) && Factored(op, c2, e1.right, f, r, g, v)
    ensures Factored(op, Apply(op, c1, c2), e1, e2, Bin(op, l, r), g, v)
  {
    ApplyAssoc(op, c1, c2, Eval(l, v), Eval(r, v), Eval(g, v));
  }

  lemma ApplyAssoc(op: Op, c1: Tri, c2: Tri, x: Tri, y: Tri, z: Tri)
    ensures Apply(op, Apply(op, c1, x), Apply(op, c2, y)) == Apply(op, Apply(op, c1, c2), Apply(op, x, y))
    ensures Apply(op, c1, Apply(op, c2, z)) == Apply(op, Apply(op, c1, c2), z)
  {
  }

  /** What is removed from both sides is one common operand `c`. */
  lemma {:induction false} ElimEqMeaning(op: Op, e1: Expr, e2: Expr, v: Valuation) returns (c: Tri)
    ensures Factored(op, c, e1, e2, ElimEq(op, e1, e2).0, ElimEq(op, e1, e2).1, v)
    decreases Size(e1) + Size(e2), if IsOp(e1, op) || IsOp(e2, op) then 0 else 4
  {
    if IsOp(e1, op) {
      var (l, f) := ElimEq(op, e1.left, e2);
      var (r, g) := ElimEq(op, e1.right, f);
      var c1 := ElimEqMeaning(op, e1.left, e2, v);
      var c2 := ElimEqMeaning(op, e1.right, f, v);
      c := Apply(op, c1, c2);
      FactoredPair(op, c1, c2, e1, e2, l, r, f, g, v);
    } else if IsOp(e2, op) {
      var (f, l) := ElimEq(op, e1, e2.left);
      var (g, r) := ElimEq(op, f, e2.right);
      var c1 := ElimEqMeaning(op, e1, e2.left, v);
      var c2 := ElimEqMeaning(op, f, e2.right, v);
      c := Apply(op, c1, c2);
      FactoredPair(op, c1, c2, e2, e1, l, r, f, g, v);
    } else {
      c := ElimEqLeaf(op, e1, e2, v);
    }
  }

  lemma {:induction false} ElimEqLeaf(op: Op, e1: Expr, e2: Expr, v: Valuation) returns (c: Tri)
    requires !IsOp(e1, op) && !IsOp(e2, op)
    ensures Factored(op, c, e1, e2, ElimEq(op, e1, e2).0, ElimEq(op, e1, e2).1, v)
    decreases Size(e1) + Size(e2), 4, 0
  {
    c := TriValue(v, Unit(op));
    if ExprEq(e1, e2) && !(e1.Sym? && e1 == e2 && e1.sym.IsYN()) {
      ExprEqSound(e1, e2, v);
      c := Eval(e1, v);
    }
  }

  /** Both halves of expr_eliminate_eq together: one common AND operand and one common OR operand. */
  lemma {:induction false} MarkEqMeaning(e1: Expr, e2: Expr, v: Valuation) returns (c: Tri, d: Tri)
    ensures var (f1, f2) := MarkEq(e1, e2);
      || (Eval(e1, v) == TriAnd(c, TriOr(d, Eval(f1, v))) && Eval(e2, v) == TriAnd(c, TriOr(d, Eval(f2, v))))
      || (Eval(e1, v) == TriOr(d, TriAnd(c, Eval(f1, v))) && Eval(e2, v) == TriOr(d, TriAnd(c, Eval(f2, v))))
    decreases Size(e1) + Size(e2), 1
  {
    c, d := YES, NO;
    var (f1, f2) := if e1.Bin? then ElimEq(e1.op, e1, e2) else (e1, e2);
    if e1.Bin? {
      var x := ElimEqMeaning(e1.op, e1, e2, v);
      if e1.op.AND? { c := x; } else { d := x; }
    }
    if f2.Bin? && !IsOp(f1, f2.op) {
      var y := ElimEqMeaning(f2.op, f1, f2, v);
      if f2.op.AND? { c := y; } else { d := y; }
    }
  }

  /** The "superset, put in submenu" test of menu_finalize: if removing the common operands
      leaves the second expression as y, the first is at most the second, everywhere. */
  lemma SupersetSound(e1: OptExpr, e2: OptExpr, v: Valuation)
    requires IsYesExpr(EliminateEqOpt(e1, e2).1)
    ensures EvalOpt(e1, v) <= EvalOpt(e2, v)
  {
    if e1.Some? && e2.Some? {
      var c, d := MarkEqMeaning(e1.value, e2.value, v);
      var (f1, f2) := MarkEq(e1.value, e2.value);
      EliminateYnMeaning(f2, v);
    }
  }
}
