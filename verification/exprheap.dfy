/** The rewriting passes of scripts/config/expr.c in place: nodes are cells, pointers are numbers, and a
    pass overwrites, reuses, frees and allocates cells. Each is proved against its function on trees. */
module ExprHeap {
  import opened Exprs
  import opened Simplify

  /** struct expr; Freed stands for memory given back. */
  datatype Cell =
    | Freed
    | CSym(sym: Symbol)
    | CNot(arg: nat)
    | CBin(op: Op, left: nat, right: nat)
    | CCmp(cmp: CmpOp, a: Symbol, b: Symbol)

  /** The cells of the tree at `i`. */
  ghost function Foot(cells: seq<Cell>, i: nat, e: Expr): set<nat>
    decreases e
  {
    if i >= |cells| then {i}
    else match e
      case Not(x) => if cells[i].CNot? then {i} + Foot(cells, cells[i].arg, x) else {i}
      case Bin(_, l, r) =>
        if cells[i].CBin? then {i} + Foot(cells, cells[i].left, l) + Foot(cells, cells[i].right, r) else {i}
      case _ => {i}
  }

  /** The tree at `i` is `e`, and no cell of it is used twice. */
  ghost predicate Rep(cells: seq<Cell>, i: nat, e: Expr)
    decreases e
  {
    && i < |cells|
    && match e
       case Sym(s) => cells[i] == CSym(s)
       case Cmp(c, a, b) => cells[i] == CCmp(c, a, b)
       case Not(x) => cells[i].CNot? && Rep(cells, cells[i].arg, x) && i !in Foot(cells, cells[i].arg, x)
       case Bin(op, l, r) =>
         && cells[i].CBin? && cells[i].op == op
         && Rep(cells, cells[i].left, l) && Rep(cells, cells[i].right, r)
         && i !in Foot(cells, cells[i].left, l) && i !in Foot(cells, cells[i].right, r)
         && Foot(cells, cells[i].left, l) !! Foot(cells, cells[i].right, r)
  }

  /** Cells were added, and outside `f` nothing changed. */
  ghost predicate Step(c0: seq<Cell>, c1: seq<Cell>, f: set<nat>) {
    |c0| <= |c1| && forall k | 0 <= k < |c0| && k !in f :: c1[k] == c0[k]
  }

  /** Cells of `f` or new ones. */
  ghost predicate Within(c0: seq<Cell>, f: set<nat>, g: set<nat>) { forall k <- g :: k in f || k >= |c0| }

  lemma {:induction false} FootInRange(cells: seq<Cell>, i: nat, e: Expr)
    requires Rep(cells, i, e)
    ensures i in Foot(cells, i, e) && forall k <- Foot(cells, i, e) :: k < |cells|
    decreases e
  {
    match e
    case Not(x) => FootInRange(cells, cells[i].arg, x);
    case Bin(_, l, r) =>
      FootInRange(cells, cells[i].left, l);
      FootInRange(cells, cells[i].right, r);
    case _ =>
  }

  /** A tree whose cells are untouched stays what it is. */
  lemma {:induction false} RepFrame(c0: seq<Cell>, c1: seq<Cell>, i: nat, e: Expr)
    requires Rep(c0, i, e) && |c0| <= |c1| && forall k <- Foot(c0, i, e) :: k < |c0| ==> c1[k] == c0[k]
    ensures Rep(c1, i, e) && Foot(c1, i, e) == Foot(c0, i, e)
    decreases e
  {
    match e
    case Not(x) => RepFrame(c0, c1, c0[i].arg, x);
    case Bin(_, l, r) =>
      RepFrame(c0, c1, c0[i].left, l);
      RepFrame(c0, c1, c0[i].right, r);
    case _ =>
  }

  /** `*e = *tmp; free(tmp)`: the tree at `j` moves into cell `i`. */
  lemma Moved(cells: seq<Cell>, i: nat, j: nat, e: Expr)
    requires Rep(cells, j, e) && i < |cells| && i !in Foot(cells, j, e)
    ensures var c1 := cells[i := cells[j]][j := Freed];
      Rep(c1, i, e) && Foot(c1, i, e) <= Foot(cells, j, e) + {i}
  {
    var c1 := cells[i := cells[j]][j := Freed];
    FootInRange(cells, j, e);
    match e
    case Not(x) => RepFrame(cells, c1, cells[j].arg, x);
    case Bin(_, l, r) =>
      RepFrame(cells, c1, cells[j].left, l);
      RepFrame(cells, c1, cells[j].right, r);
    case _ =>
  }

  class Pool {
    var cells: seq<Cell>

    /** expr_eliminate_yn. */
    method EliminateYnAt(i: nat, ghost e: Expr)
      requires Rep(cells, i, e)
      modifies this
      ensures Rep(cells, i, EliminateYn(e)) && Foot(cells, i, EliminateYn(e)) <= Foot(old(cells), i, e)
      ensures Step(old(cells), cells, Foot(old(cells), i, e))
      decreases e
    {
      if cells[i].CBin? {
        ghost var c0, l, r := cells, e.left, e.right;
        var op, left, right := cells[i].op, cells[i].left, cells[i].right;
        FootInRange(cells, left, l);
        FootInRange(cells, right, r);
        EliminateYnAt(left, l);
        ghost var c1 := cells;
        RepFrame(c0, c1, right, r);
        EliminateYnAt(right, r);
        ghost var l', r' := EliminateYn(l), EliminateYn(r);
        RepFrame(c1, cells, left, l');
        JoinYnAt(i, left, right, op, l', r');
      }
    }

    /** The tail of expr_eliminate_yn. */
    method JoinYnAt(i: nat, left: nat, right: nat, op: Op, ghost l: Expr, ghost r: Expr)
      requires i < |cells| && cells[i] == CBin(op, left, right)
      requires Rep(cells, left, l) && Rep(cells, right, r) && Foot(cells, left, l) !! Foot(cells, right, r)
      requires i !in Foot(cells, left, l) && i !in Foot(cells, right, r)
      modifies this
      ensures Rep(cells, i, JoinYn(op, l, r))
      ensures Foot(cells, i, JoinYn(op, l, r)) <= {i} + Foot(old(cells), left, l) + Foot(old(cells), right, r)
      ensures Step(old(cells), cells, {i} + Foot(old(cells), left, l) + Foot(old(cells), right, r))
    {
      var unit, zero := if op.AND? then SymYes else SymNo, if op.AND? then SymNo else SymYes;
      FootInRange(cells, left, l);
      FootInRange(cells, right, r);
      if cells[left] == CSym(zero) || (cells[left] != CSym(unit) && cells[right] == CSym(zero)) {
        cells := cells[left := Freed];
        cells := cells[right := Freed];
        cells := cells[i := CSym(zero)];
      } else if cells[left] == CSym(unit) {
        ReplaceBy(i, right, left, r, l);
      } else if cells[right] == CSym(unit) {
        ReplaceBy(i, left, right, l, r);
      }
    }

    /** The operand that stays moves into the node; its old cell and the unit are freed. */
    method ReplaceBy(i: nat, kept: nat, unit: nat, ghost k: Expr, ghost u: Expr)
      requires i < |cells| && Rep(cells, kept, k) && Rep(cells, unit, u) && Foot(cells, kept, k) !! Foot(cells, unit, u)
      requires i !in Foot(cells, kept, k) && i !in Foot(cells, unit, u)
      modifies this
      ensures Rep(cells, i, k) && Foot(cells, i, k) <= {i} + Foot(old(cells), kept, k)
      ensures Step(old(cells), cells, {i} + Foot(old(cells), kept, k) + Foot(old(cells), unit, u))
    {
      ghost var c0 := cells;
      FootInRange(cells, kept, k);
      FootInRange(cells, unit, u);
      Moved(cells, i, kept, k);
      cells := cells[i := cells[kept]];
      cells := cells[kept := Freed];
      UnitFreed(c0, cells, i, unit, kept, u, k);
      cells := cells[unit := Freed];
    }

    /** expr_trans_bool. */
    method TransBoolAt(i: nat, ghost e: Expr)
      requires Rep(cells, i, e)
      modifies this
      ensures Rep(cells, i, TransBool(e)) && Foot(cells, i, TransBool(e)) == Foot(old(cells), i, e)
      ensures Step(old(cells), cells, Foot(old(cells), i, e))
      decreases e
    {
      ghost var c0 := cells;
      match cells[i]
      case CBin(op, left, right) =>
        FootInRange(cells, left, e.left);
        FootInRange(cells, right, e.right);
        TransBoolAt(left, e.left);
        ghost var c1 := cells;
        RepFrame(c0, c1, right, e.right);
        TransBoolAt(right, e.right);
        RepFrame(c1, cells, left, TransBool(e.left));
      case CNot(arg) =>
        TransBoolAt(arg, e.arg);
      case CCmp(cmp, a, b) =>
        if cmp.Ne? && a.Type() == TristateType && b == SymNo {
          cells := cells[i := CSym(a)];
        }
      case _ =>
    }

    // ----- expr_transform -----

    /** expr_transform: the result may be another cell than the one passed in. */
    method TransformAt(i: nat, ghost e: Expr) returns (r: nat)
      requires Rep(cells, i, e)
      modifies this
      ensures Rep(cells, r, Transform(e)) && Within(old(cells), Foot(old(cells), i, e), Foot(cells, r, Transform(e)))
      ensures Step(old(cells), cells, Foot(old(cells), i, e))
      decreases Weight(e), 1
    {
      r := i;
      ghost var c0 := cells;
      FootInRange(cells, i, e);
      match cells[i]
      case CBin(op, left, right) =>
        FootInRange(cells, left, e.left);
        FootInRange(cells, right, e.right);
        var l := TransformAt(left, e.left);
        ghost var c1 := cells;
        cells := cells[i := CBin(op, l, right)];
        ghost var c2 := cells;
        RepFrame(c1, c2, l, Transform(e.left));
        RepFrame(c0, c2, right, e.right);
        var q := TransformAt(right, e.right);
        ghost var c3 := cells;
        cells := cells[i := CBin(op, l, q)];
        RepFrame(c3, cells, q, Transform(e.right));
        BothOperands(c0, c2, cells, i, left, right, l, q, op, e.left, e.right, Transform(e.left), Transform(e.right));
      case CNot(arg) =>
        var x := TransformAt(arg, e.arg);
        ghost var c1 := cells;
        cells := cells[i := CNot(x)];
        RepFrame(c1, cells, x, Transform(e.arg));
        r := TransformNotAt(i, x, Transform(e.arg));
      case CCmp(cmp, a, b) =>
        TransformCmpAt(i, cmp, a, b);
      case _ =>
    }

    /** The cases of a comparison. */
    method TransformCmpAt(i: nat, cmp: CmpOp, a: Symbol, b: Symbol)
      requires i < |cells| && cells[i] == CCmp(cmp, a, b)
      modifies this
      ensures var t := TransformCmp(cmp, a, b);
        Rep(cells, i, t) && Within(old(cells), {i}, Foot(cells, i, t)) && Step(old(cells), cells, {i})
    {
      if a.Type() == BooleanType && (cmp.Eq? || cmp.Ne?) {
        if b == (if cmp.Eq? then SymNo else SymYes) {
          var s := |cells|;
          cells := cells + [CSym(a)];
          cells := cells[i := CNot(s)];
        } else if b == SymMod {
          cells := cells[i := CSym(if cmp.Eq? then SymNo else SymYes)];
        } else if b == (if cmp.Eq? then SymYes else SymNo) {
          cells := cells[i := CSym(a)];
        }
      }
    }

    /** The cases of a negation, its operand `x` already transformed. */
    method TransformNotAt(i: nat, x: nat, ghost e: Expr) returns (r: nat)
      requires i < |cells| && cells[i] == CNot(x) && Rep(cells, x, e) && i !in Foot(cells, x, e)
      modifies this
      ensures Rep(cells, r, TransformNot(e)) && Within(old(cells), Foot(old(cells), x, e) + {i}, Foot(cells, r, TransformNot(e)))
      ensures Step(old(cells), cells, Foot(old(cells), x, e) + {i})
      decreases 2 * Weight(e), 0
    {
      r := i;
      ghost var c0 := cells;
      FootInRange(cells, x, e);
      match cells[x]
      case CNot(y) =>
        // !!a -> a
        FootInRange(cells, y, e.arg);
        cells := cells[x := Freed];
        cells := cells[i := Freed];
        RepFrame(c0, cells, y, e.arg);
        r := TransformAt(y, e.arg);
      case CCmp(cmp, a, b) =>
        cells := cells[i := Freed];
        cells := cells[x := CCmp(Negated(cmp), a, b)];
        r := x;
      case CBin(op, left, right) =>
        DeMorganLighter(op, e.left, e.right);
        DeMorgan(i, x, op, left, right, e.left, e.right);
        ghost var c1 := cells;
        r := TransformAt(i, Bin(Dual(op), Not(e.left), Not(e.right)));
      case CSym(s) =>
        if s == SymYes || s == SymMod || s == SymNo {
          cells := cells[i := Freed];
          cells := cells[x := CSym(if s == SymYes then SymNo else if s == SymMod then SymMod else SymYes)];
          r := x;
        }
    }

    /** !(a || b) -> !a && !b, and the other way round: the node of the operand becomes `!a`, and one new
        node `!b`. */
    method DeMorgan(i: nat, x: nat, op: Op, left: nat, right: nat, ghost l: Expr, ghost q: Expr)
      requires i < |cells| && cells[i] == CNot(x) && x < |cells| && cells[x] == CBin(op, left, right)
      requires Rep(cells, x, Bin(op, l, q)) && i !in Foot(cells, x, Bin(op, l, q))
      modifies this
      ensures var e := Bin(Dual(op), Not(l), Not(q));
        && Rep(cells, i, e)
        && Within(old(cells), Foot(old(cells), x, Bin(op, l, q)) + {i}, Foot(cells, i, e))
      ensures Step(old(cells), cells, {i, x})
    {
      ghost var c0 := cells;
      var added := |cells|;
      cells := cells + [CNot(right)];
      cells := cells[i := CBin(Dual(op), x, added)];
      cells := cells[x := CNot(left)];
      FootInRange(c0, left, l);
      FootInRange(c0, right, q);
      RepFrame(c0, cells, left, l);
      RepFrame(c0, cells, right, q);
    }
  }

  lemma BothOperands(c0: seq<Cell>, c1: seq<Cell>, c2: seq<Cell>, i: nat, left: nat, right: nat, l': nat, r': nat, op: Op, l: Expr, r: Expr,
                     t: Expr, u: Expr)
    requires Rep(c0, i, Bin(op, l, r)) && c0[i] == CBin(op, left, right)
    requires Step(c0, c1, Foot(c0, left, l) + {i}) && Rep(c1, l', t) && Within(c0, Foot(c0, left, l), Foot(c1, l', t))
    requires |c1| <= |c2| && c2[i] == CBin(op, l', r') && Rep(c2, r', u)
    requires Step(c1, c2, Foot(c0, right, r) + {i}) && Within(c1, Foot(c0, right, r), Foot(c2, r', u))
    ensures Rep(c2, i, Bin(op, t, u))
    ensures Within(c0, Foot(c0, i, Bin(op, l, r)), Foot(c2, i, Bin(op, t, u)))
    ensures Step(c0, c2, Foot(c0, i, Bin(op, l, r)))
  {
    var fl, fr := Foot(c0, left, l), Foot(c0, right, r);
    FootInRange(c0, left, l);
    FootInRange(c0, right, r);
    FootInRange(c1, l', t);
    LeftKept(c0, c1, c2, i, fl, fr, l', t);
    Joined(c0, c1, c2, i, fl, fr, l', r', op, t, u);
    StepTwice(c0, c1, c2, fl + {i}, fr + {i}, {i} + fl + fr);
  }

  lemma StepTwice(c0: seq<Cell>, c1: seq<Cell>, c2: seq<Cell>, f: set<nat>, g: set<nat>, h: set<nat>)
    requires Step(c0, c1, f) && Step(c1, c2, g) && f <= h && g <= h
    ensures Step(c0, c2, h)
  {
  }

  /** Working on the right operand leaves the left one alone. */
  lemma LeftKept(c0: seq<Cell>, c1: seq<Cell>, c2: seq<Cell>, i: nat, fl: set<nat>, fr: set<nat>, l': nat, t: Expr)
    requires |c0| <= |c1| <= |c2| && Rep(c1, l', t) && Within(c0, fl, Foot(c1, l', t)) && Step(c1, c2, fr + {i})
    requires fl !! fr && i !in fl && i < |c0| && forall k <- fr :: k < |c0|
    requires forall k <- Foot(c1, l', t) :: k < |c1|
    ensures Rep(c2, l', t) && Foot(c2, l', t) == Foot(c1, l', t)
  {
    RepFrame(c1, c2, l', t);
  }

  lemma Joined(c0: seq<Cell>, c1: seq<Cell>, c2: seq<Cell>, i: nat, fl: set<nat>, fr: set<nat>, l': nat, r': nat, op: Op, t: Expr, u: Expr)
    requires |c0| <= |c1| <= |c2| && i < |c0| && c2[i] == CBin(op, l', r') && Rep(c2, l', t) && Rep(c2, r', u)
    requires Within(c0, fl, Foot(c2, l', t)) && Within(c1, fr, Foot(c2, r', u)) && fl !! fr && i !in fl && i !in fr
    requires (forall k <- fr :: k < |c0|) && forall k <- Foot(c2, l', t) :: k < |c1|
    ensures Rep(c2, i, Bin(op, t, u)) && Within(c0, {i} + fl + fr, Foot(c2, i, Bin(op, t, u)))
  {
  }

  lemma UnitFreed(c0: seq<Cell>, c1: seq<Cell>, i: nat, unit: nat, kept: nat, u: Expr, k: Expr)
    requires Rep(c0, unit, u) && Rep(c0, kept, k) && Foot(c0, unit, u) !! Foot(c0, kept, k)
    requires i < |c0| && i !in Foot(c0, unit, u) && i !in Foot(c0, kept, k)
    requires c1 == c0[i := c0[kept]][kept := Freed] && Rep(c1, i, k) && Foot(c1, i, k) <= Foot(c0, kept, k) + {i}
    ensures unit < |c1| && Rep(c1[unit := Freed], i, k) && Foot(c1[unit := Freed], i, k) == Foot(c1, i, k)
  {
    FootInRange(c0, unit, u);
    RepFrame(c1, c1[unit := Freed], i, k);
  }
}
