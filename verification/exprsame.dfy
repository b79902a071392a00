/** When expr_eq of scripts/config/expr.c takes two expressions for equal, and what expr_eliminate_eq and
    expr_eliminate_dups leave: everything up to the order and the grouping of operands. */
module SameExprs {
  import opened Tristates
  import opened Exprs
  import opened Simplify
  import opened Dups

  /** An expression without the order and the grouping of the operands of one AND or OR. */
  datatype Canon = Atom(e: Expr) | Negation(c: Canon) | Level(op: Op, parts: multiset<Canon>)

  function Canonical(e: Expr): Canon
    decreases Size(e), 1
  {
    match e
    case Not(x) => Negation(Canonical(x))
    case Bin(op, _, _) => Level(op, Parts(op, e))
    case _ => Atom(e)
  }

  /** The operands at one level. */
  function Parts(op: Op, e: Expr): multiset<Canon>
    decreases Size(e), if IsOp(e, op) then 0 else 2
  {
    if IsOp(e, op) then Parts(op, e.left) + Parts(op, e.right) else multiset{Canonical(e)}
  }

  /** No operand of an AND or OR is y or n. */
  predicate NoYn(e: Expr) {
    match e
    case Not(x) => NoYn(x)
    case Bin(_, l, r) => !IsYn(l) && !IsYn(r) && NoYn(l) && NoYn(r)
    case _ => true
  }

  lemma {:induction false} NoYnOperand(e: Expr)
    requires NoYn(e)
    ensures !HasYnOperand(e) && EliminateYn(e) == e
  {
    if e.Bin? {
      NoYnOperand(e.left);
      NoYnOperand(e.right);
    }
  }

  // ----- a level while its equal operands are being marked -----

  /** Some operands of the level have been replaced by its unit. */
  predicate Marking(op: Op, e: Expr) {
    if IsOp(e, op) then Marking(op, e.left) && Marking(op, e.right)
    else e == Sym(Unit(op)) || (NoYn(e) && !IsYn(e))
  }

  /** The other operands. */
  function Unmarked(op: Op, e: Expr): multiset<Canon> {
    if IsOp(e, op) then Unmarked(op, e.left) + Unmarked(op, e.right)
    else if e == Sym(Unit(op)) then multiset{} else multiset{Canonical(e)}
  }

  lemma {:induction false} NothingMarked(op: Op, e: Expr)
    requires NoYn(e) && !IsYn(e)
    ensures Marking(op, e) && Unmarked(op, e) == Parts(op, e)
    ensures Parts(op, e) != multiset{}
  {
    if IsOp(e, op) {
      NothingMarked(op, e.left);
      NothingMarked(op, e.right);
    }
  }

  lemma TakeInTurn(a: multiset<Canon>, x: multiset<Canon>, y: multiset<Canon>)
    ensures (a - x) - y == a - (x + y)
    ensures (x - a) + (y - (a - x)) == (x + y) - a
  {
  }

  lemma SumEmpty(x: multiset<Canon>, y: multiset<Canon>)
    ensures x + y == multiset{} <==> x == multiset{} && y == multiset{}
  {
    forall c <- x ensures c in x + y {}
    forall c <- y ensures c in x + y {}
  }

  lemma OneEach(a: Canon, b: Canon)
    ensures a == b ==> multiset{a} - multiset{b} == multiset{}
    ensures a != b ==> multiset{a} - multiset{b} == multiset{a}
  {
  }

  /** Marking takes from both sides the operands they have in common, as often as they have them in common. */
  lemma {:induction false} ElimEqParts(op: Op, e1: Expr, e2: Expr)
    requires Marking(op, e1) && Marking(op, e2)
    ensures BothMarked(op, e1, e2, ElimEq(op, e1, e2).0, ElimEq(op, e1, e2).1)
    decreases Size(e1) + Size(e2), if IsOp(e1, op) || IsOp(e2, op) then 0 else 4
  {
    if IsOp(e1, op) {
      var (l, f) := ElimEq(op, e1.left, e2);
      var (r, g) := ElimEq(op, e1.right, f);
      ElimEqParts(op, e1.left, e2);
      ElimEqParts(op, e1.right, f);
      MarkedPair(op, e1, e2, l, f, r, g);
    } else if IsOp(e2, op) {
      var (f, l) := ElimEq(op, e1, e2.left);
      var (g, r) := ElimEq(op, f, e2.right);
      ElimEqParts(op, e1, e2.left);
      ElimEqParts(op, f, e2.right);
      MarkedPair(op, e2, e1, l, f, r, g);
    } else {
      ElimEqLeaves(op, e1, e2);
    }
  }

  ghost predicate BothMarked(op: Op, e1: Expr, e2: Expr, f1: Expr, f2: Expr) {
    && Marking(op, f1) && Marking(op, f2)
    && Unmarked(op, f1) == Unmarked(op, e1) - Unmarked(op, e2) && Unmarked(op, f2) == Unmarked(op, e2) - Unmarked(op, e1)
  }

  /** Marking both operands of the first expression in turn. */
  lemma MarkedPair(op: Op, e1: Expr, e2: Expr, l: Expr, f: Expr, r: Expr, g: Expr)
    requires IsOp(e1, op) && BothMarked(op, e1.left, e2, l, f) && BothMarked(op, e1.right, f, r, g)
    ensures BothMarked(op, e1, e2, Bin(op, l, r), g) && BothMarked(op, e2, e1, g, Bin(op, l, r))
  {
    TakeInTurn(Unmarked(op, e2), Unmarked(op, e1.left), Unmarked(op, e1.right));
    assert Unmarked(op, Bin(op, l, r)) == Unmarked(op, l) + Unmarked(op, r);
  }

  lemma MarkedLeaves(op: Op, e1: Expr, e2: Expr)
    requires Marking(op, e1) && Marking(op, e2) && !IsOp(e1, op) && !IsOp(e2, op)
    ensures Canonical(e1) == Canonical(e2) && e1 != Sym(Unit(op)) && e2 != Sym(Unit(op)) ==>
      BothMarked(op, e1, e2, Sym(Unit(op)), Sym(Unit(op)))
    ensures e1 == Sym(Unit(op)) || e2 == Sym(Unit(op)) || Canonical(e1) != Canonical(e2) ==> BothMarked(op, e1, e2, e1, e2)
  {
    OneEach(Canonical(e1), Canonical(e2));
    OneEach(Canonical(e2), Canonical(e1));
  }

  lemma {:induction false} ElimEqLeaves(op: Op, e1: Expr, e2: Expr)
    requires Marking(op, e1) && Marking(op, e2) && !IsOp(e1, op) && !IsOp(e2, op)
    ensures BothMarked(op, e1, e2, ElimEq(op, e1, e2).0, ElimEq(op, e1, e2).1)
    decreases Size(e1) + Size(e2), 4, 0
  {
    var u := Sym(Unit(op));
    var r := ElimEq(op, e1, e2);
    MarkedLeaves(op, e1, e2);
    if e1 == u || e2 == u {
      UnitEqual(op, e1, e2);
      assert r == (e1, e2);
    } else {
      ExprEqExact(e1, e2);
      assert r == if ExprEq(e1, e2) then (u, u) else (e1, e2);
    }
  }

  /** A marked operand is not marked again. */
  lemma UnitEqual(op: Op, e1: Expr, e2: Expr)
    requires e1 == Sym(Unit(op)) || e2 == Sym(Unit(op))
    ensures ExprEq(e1, e2) ==> e1 == e2
  {
  }

  /** Removing the units leaves the unmarked operands, or the unit if there are none. */
  lemma {:induction false} YnLeavesUnmarked(op: Op, e: Expr)
    requires Marking(op, e)
    ensures LeavesOnly(op, Unmarked(op, e), EliminateYn(e))
  {
    if IsOp(e, op) {
      YnLeavesUnmarked(op, e.left);
      YnLeavesUnmarked(op, e.right);
      SumEmpty(Unmarked(op, e.left), Unmarked(op, e.right));
      JoinLeaves(op, Unmarked(op, e.left), Unmarked(op, e.right), EliminateYn(e.left), EliminateYn(e.right));
    } else if e != Sym(Unit(op)) {
      NoYnOperand(e);
      assert Canonical(e) in Unmarked(op, e);
    }
  }

  ghost predicate LeavesOnly(op: Op, ps: multiset<Canon>, g: Expr) {
    if ps == multiset{} then g == Sym(Unit(op)) else NoYn(g) && !IsYn(g) && Parts(op, g) == ps
  }

  lemma JoinLeaves(op: Op, x: multiset<Canon>, y: multiset<Canon>, l: Expr, r: Expr)
    requires LeavesOnly(op, x, l) && LeavesOnly(op, y, r)
    ensures LeavesOnly(op, x + y, JoinYn(op, l, r))
  {
    if x == multiset{} {
      assert x + y == y;
    } else if y == multiset{} {
      assert x + y == x;
    } else {
      SumEmpty(x, y);
      assert JoinYn(op, l, r) == Bin(op, l, r);
    }
  }

  /** expr_eq is equality up to order and grouping, when no operand is y or n. */
  lemma {:induction false} ExprEqExact(e1: Expr, e2: Expr)
    requires NoYn(e1) && NoYn(e2)
    ensures ExprEq(e1, e2) <==> Canonical(e1) == Canonical(e2)
    decreases Size(e1) + Size(e2), 3
  {
    match (e1, e2)
    case (Not(x), Not(y)) => ExprEqExact(x, y);
    case (Bin(op, _, _), Bin(op2, _, _)) => if op == op2 { LevelsEqual(op, e1, e2); }
    case _ =>
  }

  lemma {:induction false} LevelsEqual(op: Op, e1: Expr, e2: Expr)
    requires NoYn(e1) && NoYn(e2) && IsOp(e1, op) && IsOp(e2, op)
    ensures ExprEq(e1, e2) <==> Parts(op, e1) == Parts(op, e2)
    decreases Size(e1) + Size(e2), 2
  {
    NothingMarked(op, e1);
    NothingMarked(op, e2);
    ElimEqParts(op, e1, e2);
    var (f1, f2) := ElimEq(op, e1, e2);
    assert MarkEq(e1, e2) == (f1, f2);
    YnLeavesUnmarked(op, f1);
    YnLeavesUnmarked(op, f2);
    RestEqual(op, Parts(op, e1), Parts(op, e2), EliminateYn(f1), EliminateYn(f2));
  }

  /** What is left of both sides is one and the same symbol only if nothing is left. */
  lemma RestEqual(op: Op, a: multiset<Canon>, b: multiset<Canon>, g1: Expr, g2: Expr)
    requires LeavesOnly(op, a - b, g1) && LeavesOnly(op, b - a, g2)
    ensures g1.Sym? && g2.Sym? && g1.sym == g2.sym <==> a == b
  {
    NothingLeft(a, b);
    if g1.Sym? && g1 == g2 {
      assert Parts(op, g1) == multiset{Atom(g1)};
      OnOneSide(a, b, Atom(g1));
    }
  }

  lemma NothingLeft(a: multiset<Canon>, b: multiset<Canon>)
    ensures a == b <==> a - b == multiset{} && b - a == multiset{}
  {
    if a - b == multiset{} && b - a == multiset{} {
      forall c: Canon ensures a[c] == b[c] { assert (a - b)[c] == 0 && (b - a)[c] == 0; }
    }
  }

  lemma OnOneSide(a: multiset<Canon>, b: multiset<Canon>, c: Canon)
    ensures c !in a - b || c !in b - a
  {
  }

  // ----- the superset test -----

  /** The operands of `base` are among those of the conjunction `e`, in any order and grouping. */
  predicate Covered(e: Expr, base: Expr) { IsOp(e, AND) && Parts(AND, base) <= Parts(AND, e) }

  /** What is compared with one operand stays as it is, or that operand is marked. */
  lemma {:induction false} OneOperand(op: Op, e1: Expr, e2: Expr)
    requires !IsOp(e2, op) && e2 != Sym(Unit(op))
    ensures var r := ElimEq(op, e1, e2); r == (e1, e2) || r.1 == Sym(Unit(op))
    decreases e1
  {
    if IsOp(e1, op) {
      OneOperand(op, e1.left, e2);
      var (l, f) := ElimEq(op, e1.left, e2);
      if f == e2 { OneOperand(op, e1.right, e2); } else { StaysUnit(op, e1.right); }
    }
  }

  lemma {:induction false} StaysUnit(op: Op, e1: Expr)
    ensures ElimEq(op, e1, Sym(Unit(op))).1 == Sym(Unit(op))
  {
    if IsOp(e1, op) {
      StaysUnit(op, e1.left);
      StaysUnit(op, e1.right);
    }
  }

  lemma {:induction false} TwoParts(op: Op, e: Expr)
    ensures |Parts(op, e)| >= if IsOp(e, op) then 2 else 1
  {
    if IsOp(e, op) {
      TwoParts(op, e.left);
      TwoParts(op, e.right);
    }
  }

  /** What marking a level leaves of the second expression is y only for a conjunction all of whose operands the
      first one has. */
  lemma MarkedIsYes(op: Op, e1: Expr, e2: Expr)
    requires NoYn(e1) && NoYn(e2) && !IsYn(e1) && !IsYn(e2)
    ensures EliminateYn(ElimEq(op, e1, e2).1) == Sym(SymYes) <==> op.AND? && Parts(op, e2) <= Parts(op, e1)
  {
    NothingMarked(op, e1);
    NothingMarked(op, e2);
    ElimEqParts(op, e1, e2);
    YnLeavesUnmarked(op, ElimEq(op, e1, e2).1);
    AllTaken(Parts(op, e2), Parts(op, e1));
  }

  lemma AllTaken(x: multiset<Canon>, y: multiset<Canon>)
    ensures x - y == multiset{} <==> x <= y
  {
    if x - y == multiset{} {
      forall c: Canon ensures x[c] <= y[c] { assert (x - y)[c] == 0; }
    }
  }

  lemma SubsetSize(x: multiset<Canon>, y: multiset<Canon>)
    requires x <= y
    ensures |x| <= |y|
  {
    assert y == x + (y - x);
  }

  /** A single operand covers no conjunction. */
  lemma OneCoversNone(e: Expr, base: Expr)
    requires !IsOp(e, AND) && IsOp(base, AND)
    ensures !(Parts(AND, base) <= Parts(AND, e))
  {
    TwoParts(AND, base);
    if Parts(AND, base) <= Parts(AND, e) {
      SubsetSize(Parts(AND, base), Parts(AND, e));
    }
  }

  /** A conjunction or disjunction against a level of the same kind, */
  lemma SameLevel(e: Expr, base: Expr)
    requires NoYn(e) && NoYn(base) && e.Bin? && IsOp(base, e.op)
    ensures EliminateYn(MarkEq(e, base).1) == Sym(SymYes) <==> Covered(e, base)
  {
    MarkedIsYes(e.op, e, base);
    assert MarkEq(e, base) == ElimEq(e.op, e, base);
  }

  /** against something else, */
  lemma OtherLevel(e: Expr, base: Expr)
    requires NoYn(e) && NoYn(base) && e.Bin? && !IsYn(base) && !IsOp(base, e.op)
    ensures EliminateYn(MarkEq(e, base).1) == Sym(SymYes) <==> Covered(e, base)
  {
    MarkedIsYes(e.op, e, base);
    OneOperand(e.op, e, base);
    if base.Bin? && ElimEq(e.op, e, base) == (e, base) {
      assert MarkEq(e, base) == ElimEq(base.op, e, base);
      MarkedIsYes(base.op, e, base);
      if e.op.OR? { OneCoversNone(e, base); } else { NoYnOperand(base); }
    } else {
      assert MarkEq(e, base).1 == ElimEq(e.op, e, base).1;
    }
  }

  /** and a single operand against anything. */
  lemma NoLevel(e: Expr, base: Expr)
    requires NoYn(e) && NoYn(base) && !e.Bin? && !IsYn(e) && !IsYn(base)
    ensures EliminateYn(MarkEq(e, base).1) != Sym(SymYes)
  {
    if base.Bin? {
      assert MarkEq(e, base) == ElimEq(base.op, e, base);
      MarkedIsYes(base.op, e, base);
      if base.op.AND? { OneCoversNone(e, base); }
    } else {
      assert MarkEq(e, base) == (e, base);
    }
  }

  /** The "superset, put in submenu" test of menu_finalize passes exactly when the first is a conjunction with all
      the operands of the second. */
  lemma SupersetExact(e: Expr, base: Expr)
    requires NoYn(e) && NoYn(base) && !IsYn(e) && !IsYn(base)
    ensures IsYesExpr(EliminateEqOpt(Some(e), Some(base)).1) <==> Covered(e, base)
  {
    var (f1, f2) := MarkEq(e, base);
    if !e.Bin? { NoLevel(e, base); } else if IsOp(base, e.op) { SameLevel(e, base); } else { OtherLevel(e, base); }
    assert EliminateEqOpt(Some(e), Some(base)).1 == Some(EliminateYn(f2));
  }

  // ----- what eliminating duplicates leaves -----

  /** Two operands of one level that are equal are joined. */
  lemma EqualsJoin(op: Op, e1: Expr, e2: Expr)
    requires ExprEq(e1, e2)
    ensures Join(op, e1, e2) == Some(e1)
  {
  }

  /** After expr_eliminate_dups no level has two operands that are equal up to order and grouping. */
  lemma ReducedApart(e: Expr, p: Path, q: Path)
    requires Reduced(e) && e.Bin? && Leaf(e.op, e, p) && Leaf(e.op, e, q) && p != q
    ensures !ExprEq(At(e.op, e, p), At(e.op, e, q))
    ensures NoYn(At(e.op, e, p)) && NoYn(At(e.op, e, q)) ==> Canonical(At(e.op, e, p)) != Canonical(At(e.op, e, q))
  {
    var x, y := At(e.op, e, p), At(e.op, e, q);
    assert Settled(e.op, e, p, q);
    if ExprEq(x, y) { EqualsJoin(e.op, x, y); }
    if NoYn(x) && NoYn(y) { ExprEqExact(x, y); }
  }

  predicate JoinsTo(op: Op, e1: Expr, e2: Expr, r: Expr) { Join(op, e1, e2) == Some(r) && Join(op, e2, e1) == Some(r) }

  /** The joins of tests of one bool or tristate symbol that expr_join_or announces in its comments, */
  lemma AnnouncedOr(a: Symbol)
    requires a.IsTri()
    ensures a.Type() == BooleanType ==> JoinsTo(OR, Sym(a), Not(Sym(a)), Sym(SymYes))
    ensures a.Type() == TristateType ==>
      && JoinsTo(OR, Cmp(Eq, a, SymYes), Cmp(Eq, a, SymMod), Cmp(Ne, a, SymNo))
      && JoinsTo(OR, Cmp(Eq, a, SymYes), Cmp(Eq, a, SymNo), Cmp(Ne, a, SymMod))
      && JoinsTo(OR, Cmp(Eq, a, SymMod), Cmp(Eq, a, SymNo), Cmp(Ne, a, SymYes))
  {
  }

  /** and those that expr_join_and announces, in either order; the last comment there means `a = y`. */
  lemma AnnouncedAnd(a: Symbol)
    requires a.IsTri()
    ensures JoinsTo(AND, Sym(a), Cmp(Eq, a, SymYes), Cmp(Eq, a, SymYes))
    ensures JoinsTo(AND, Sym(a), Cmp(Ne, a, SymNo), Sym(a))
    ensures JoinsTo(AND, Sym(a), Cmp(Ne, a, SymMod), Cmp(Eq, a, SymYes))
    ensures a.Type() == TristateType ==>
      && JoinsTo(AND, Cmp(Ne, a, SymYes), Cmp(Ne, a, SymNo), Cmp(Eq, a, SymMod))
      && JoinsTo(AND, Cmp(Ne, a, SymYes), Cmp(Ne, a, SymMod), Cmp(Eq, a, SymNo))
      && JoinsTo(AND, Cmp(Ne, a, SymMod), Cmp(Ne, a, SymNo), Cmp(Eq, a, SymYes))
  {
  }

  /** A comparison with one constant absorbs one with another, and contradicts one with the same. */
  lemma AnnouncedEqNe(a: Symbol, b: Symbol, c: Symbol)
    requires a.Type() == TristateType && b.IsConst() && c.IsConst()
    ensures JoinsTo(AND, Cmp(Eq, a, b), Cmp(Ne, a, c), if b == c then Sym(SymNo) else Cmp(Eq, a, b))
  {
  }
}
