/** expr_eliminate_dups: joining redundant operands of one AND/OR level, in place. */
module Dups {
  import opened Tristates
  import opened Exprs
  import opened Simplify

  // ----- expr_join_or and expr_join_and -----

  predicate IsEqNe(e: Expr) { e.Cmp? && (e.cmp.Eq? || e.cmp.Ne?) }

  predicate IsCmp(e: Expr, cmp: CmpOp, k: Symbol) { e.Cmp? && e.cmp == cmp && e.b == k }

  /** `sym1` of the join helpers; None where they give up. */
  function JoinSymbol1(e: Expr): Option<Symbol> {
    match e
    case Sym(s) => Some(s)
    case Cmp(_, a, _) => if IsEqNe(e) then Some(a) else None
    case Not(x) => if x.Sym? then Some(x.sym) else if IsEqNe(x) then Some(x.a) else None
    case Bin(_, _, _) => None
  }

  /** `sym2`: under a NOT only a plain symbol is accepted. */
  function JoinSymbol2(e: Expr): Option<Symbol> {
    if e.Not? && !e.arg.Sym? then None else JoinSymbol1(e)
  }

  /** Both operands are Eq comparisons, with `k` and `l` in either order. */
  predicate BothCmp(e1: Expr, e2: Expr, cmp: CmpOp, k: Symbol, l: Symbol) {
    || (IsCmp(e1, cmp, k) && IsCmp(e2, cmp, l))
    || (IsCmp(e1, cmp, l) && IsCmp(e2, cmp, k))
  }

  /** One operand is a bare symbol, the other compares it with `k`. */
  predicate SymAndCmp(e1: Expr, e2: Expr, cmp: CmpOp, k: Symbol) {
    (e1.Sym? && IsCmp(e2, cmp, k)) || (e2.Sym? && IsCmp(e1, cmp, k))
  }

  /** expr_join_or: one expression for `e1 || e2`, if the source knows one. */
  function JoinOr(e1: Expr, e2: Expr): OptExpr {
    if ExprEq(e1, e2) then Some(e1)
    else
      var s1, s2 := JoinSymbol1(e1), JoinSymbol2(e2);
      if s1.None? || s2.None? || s1 != s2 || !s1.value.IsTri() then None
      else
        var s := s1.value;
        if s.Type() == TristateType && BothCmp(e1, e2, Eq, SymYes, SymMod) then Some(Cmp(Ne, s, SymNo))
        else if s.Type() == TristateType && BothCmp(e1, e2, Eq, SymYes, SymNo) then Some(Cmp(Ne, s, SymMod))
        else if s.Type() == TristateType && BothCmp(e1, e2, Eq, SymMod, SymNo) then Some(Cmp(Ne, s, SymYes))
        else if s.Type() == BooleanType &&
                ((e1.Not? && e1.arg.Sym? && e2.Sym?) || (e2.Not? && e2.arg.Sym? && e1.Sym?)) then Some(Sym(SymYes))
        else None
  }

  /** a=b && a!=c for constants b and c. */
  function JoinEqNe(s: Symbol, b: Symbol, c: Symbol): Expr {
    if b != c then Cmp(Eq, s, b) else Sym(SymNo)
  }

  /** expr_join_and. */
  function JoinAnd(e1: Expr, e2: Expr): OptExpr {
    if ExprEq(e1, e2) then Some(e1)
    else
      var s1, s2 := JoinSymbol1(e1), JoinSymbol2(e2);
      if s1.None? || s2.None? || s1 != s2 || !s1.value.IsTri() then None
      else
        var s := s1.value;
        if SymAndCmp(e1, e2, Eq, SymYes) then Some(Cmp(Eq, s, SymYes))
        else if SymAndCmp(e1, e2, Ne, SymNo) then Some(Sym(s))
        else if SymAndCmp(e1, e2, Ne, SymMod) then Some(Cmp(Eq, s, SymYes))
        else if s.Type() != TristateType then None
        else if e1.Cmp? && e1.cmp.Eq? && e2.Cmp? && e2.cmp.Ne? && e1.b.IsConst() && e2.b.IsConst() then
          Some(JoinEqNe(s, e1.b, e2.b))
        else if e1.Cmp? && e1.cmp.Ne? && e2.Cmp? && e2.cmp.Eq? && e1.b.IsConst() && e2.b.IsConst() then
          Some(JoinEqNe(s, e2.b, e1.b))
        else if BothCmp(e1, e2, Ne, SymYes, SymNo) then Some(Cmp(Eq, s, SymMod))
        else if BothCmp(e1, e2, Ne, SymYes, SymMod) then Some(Cmp(Eq, s, SymNo))
        else if BothCmp(e1, e2, Ne, SymMod, SymNo) then Some(Cmp(Eq, s, SymYes))
        else None
  }

  function Join(op: Op, e1: Expr, e2: Expr): OptExpr {
    if op.AND? then JoinAnd(e1, e2) else JoinOr(e1, e2)
  }

  // ----- when the joins keep the value -----

  /** A constant other than y, m, n that no value of a tristate symbol equals. It fails for the
      numerals of 0, 1 and 2, which compare equal to n, m and y by value. */
  ghost predicate Unequalled(v: Valuation, k: Symbol) {
    k.Const? ==> forall t: Tri :: !Matches(v, t, k)
  }

  /** No comparison of the expression has such a numeral on its right. */
  ghost predicate PlainConsts(e: Expr, v: Valuation) {
    match e
    case Sym(_) => true
    case Not(x) => PlainConsts(x, v)
    case Bin(_, l, r) => PlainConsts(l, v) && PlainConsts(r, v)
    case Cmp(_, _, b) => Unequalled(v, b)
  }

  /** Typed, and no numeral among the symbols of `words` is equal to y, m or n by value. */
  ghost predicate Sane(v: Valuation, words: set<Symbol>) {
    Typed(v) && forall k <- words :: Unequalled(v, k)
  }

  lemma {:induction false} SaneIsPlain(e: Expr, v: Valuation, words: set<Symbol>)
    requires Sane(v, words) && Mentions(e) <= words
    ensures PlainConsts(e, v)
  {
    match e
    case Not(x) => SaneIsPlain(x, v, words);
    case Bin(_, l, r) =>
      SaneIsPlain(l, v, words);
      SaneIsPlain(r, v, words);
    case _ =>
  }

  lemma CmpConstMeaning(cmp: CmpOp, s: Symbol, k: Symbol, v: Valuation)
    requires Typed(v) && s.IsTri() && k.IsConst() && (cmp.Eq? || cmp.Ne?)
    ensures Eval(Cmp(cmp, s, k), v) == OfBool(Matches(v, v.tri(s), k) <==> cmp.Eq?)
  {
    CompareConst(v, s, k);
  }

  lemma JoinOrMeaning(e1: Expr, e2: Expr, v: Valuation)
    requires Typed(v) && JoinOr(e1, e2).Some?
    ensures Eval(JoinOr(e1, e2).value, v) == TriOr(Eval(e1, v), Eval(e2, v))
  {
    if ExprEq(e1, e2) {
      ExprEqSound(e1, e2, v);
    } else {
      var s := JoinSymbol1(e1).value;
      CmpYmn(s, v);
      assert v.tri(s) == NO || v.tri(s) == MOD || v.tri(s) == YES;
    }
  }

  /** The six comparisons of a bool or tristate symbol with y, m and n. */
  lemma CmpYmn(s: Symbol, v: Valuation)
    requires Typed(v) && s.IsTri()
    ensures Eval(Cmp(Eq, s, SymYes), v) == OfBool(v.tri(s) == YES)
    ensures Eval(Cmp(Eq, s, SymMod), v) == OfBool(v.tri(s) == MOD)
    ensures Eval(Cmp(Eq, s, SymNo), v) == OfBool(v.tri(s) == NO)
    ensures Eval(Cmp(Ne, s, SymYes), v) == OfBool(v.tri(s) != YES)
    ensures Eval(Cmp(Ne, s, SymMod), v) == OfBool(v.tri(s) != MOD)
    ensures Eval(Cmp(Ne, s, SymNo), v) == OfBool(v.tri(s) != NO)
  {
  }

  /** a=b && a!=c joined for constants b and c keeps the value exactly when no value of `a`
      equals both, or b and c are the same constant. */
  lemma JoinEqNeExact(s: Symbol, b: Symbol, c: Symbol, v: Valuation)
    requires Typed(v) && s.Type() == TristateType && b.IsConst() && c.IsConst()
    ensures Eval(JoinEqNe(s, b, c), v) == TriAnd(Eval(Cmp(Eq, s, b), v), Eval(Cmp(Ne, s, c), v))
      <==> (b == c || !(Matches(v, v.tri(s), b) && Matches(v, v.tri(s), c)))
  {
    CmpConstMeaning(Eq, s, b, v);
    CmpConstMeaning(Ne, s, c, v);
  }

  /** The failing family is real: under modules, with the numeral "1" read as one, joining
      a="1" && a!=m loses the "!=m" part although the two constants are different symbols. */
  lemma JoinNumeralUnsound(v: Valuation, a: Symbol)
    requires Typed(v) && a.Type() == TristateType && v.tri(a) == MOD
    requires v.number("1", UnknownType) == Some(Signed(1))
    ensures var e1, e2 := Cmp(Eq, a, Const("1")), Cmp(Ne, a, SymMod);
      JoinAnd(e1, e2) == Some(e1) && Eval(e1, v) == YES && TriAnd(Eval(e1, v), Eval(e2, v)) == NO
  {
  }

  lemma JoinAndMeaning(e1: Expr, e2: Expr, v: Valuation)
    requires Typed(v) && PlainConsts(e1, v) && PlainConsts(e2, v) && JoinAnd(e1, e2).Some?
    ensures Eval(JoinAnd(e1, e2).value, v) == TriAnd(Eval(e1, v), Eval(e2, v))
  {
    if ExprEq(e1, e2) {
      ExprEqSound(e1, e2, v);
    } else if e1.Cmp? && e2.Cmp? {
      JoinTwoCmps(e1, e2, v);
    } else {
      var s := JoinSymbol1(e1).value;
      CmpYmn(s, v);
      assert SymAndCmp(e1, e2, Eq, SymYes) || SymAndCmp(e1, e2, Ne, SymNo) || SymAndCmp(e1, e2, Ne, SymMod);
    }
  }

  lemma JoinTwoCmps(e1: Expr, e2: Expr, v: Valuation)
    requires Typed(v) && PlainConsts(e1, v) && PlainConsts(e2, v) && JoinAnd(e1, e2).Some?
    requires e1.Cmp? && e2.Cmp? && !ExprEq(e1, e2)
    ensures Eval(JoinAnd(e1, e2).value, v) == TriAnd(Eval(e1, v), Eval(e2, v))
  {
    if e1.cmp == e2.cmp {
      JoinSameCmps(e1, e2, v);
    } else if e1.cmp.Eq? {
      JoinEqNeExact(e1.a, e1.b, e2.b, v);
    } else {
      JoinEqNeExact(e1.a, e2.b, e1.b, v);
    }
  }

  lemma JoinSameCmps(e1: Expr, e2: Expr, v: Valuation)
    requires Typed(v) && JoinAnd(e1, e2).Some?
    requires e1.Cmp? && e2.Cmp? && e1.cmp == e2.cmp && !ExprEq(e1, e2)
    ensures Eval(JoinAnd(e1, e2).value, v) == TriAnd(Eval(e1, v), Eval(e2, v))
  {
    CmpYmn(e1.a, v);
  }

  /** A join is no bigger than what it replaces, is not itself an AND/OR of the joined level,
      and brings in no negation, comparison or symbol of a new kind. */
  ghost predicate Tame(op: Op, e1: Expr, e2: Expr, j: Expr) {
    && Size(j) <= Size(e1) && !IsOp(j, op)
    && (NotOverSymbols(e1) ==> NotOverSymbols(j))
    && (Normal(e1) && Normal(e2) ==> Normal(j))
    && Mentions(j) <= Mentions(e1) + Mentions(e2) + {SymYes, SymMod, SymNo}
  }

  lemma JoinTame(op: Op, e1: Expr, e2: Expr)
    requires Join(op, e1, e2).Some? && !IsOp(e1, op)
    ensures Tame(op, e1, e2, Join(op, e1, e2).value)
  {
    if !ExprEq(e1, e2) {
      if op.AND? { JoinAndTame(e1, e2); } else { JoinOrTame(e1, e2); }
    }
  }

  lemma JoinAndTame(e1: Expr, e2: Expr)
    requires JoinAnd(e1, e2).Some? && !ExprEq(e1, e2)
    ensures Tame(AND, e1, e2, JoinAnd(e1, e2).value)
  {
  }

  lemma JoinOrTame(e1: Expr, e2: Expr)
    requires JoinOr(e1, e2).Some? && !ExprEq(e1, e2)
    ensures Tame(OR, e1, e2, JoinOr(e1, e2).value)
  {
  }

  lemma JoinPlain(op: Op, e1: Expr, e2: Expr, v: Valuation)
    requires Join(op, e1, e2).Some? && PlainConsts(e1, v) && PlainConsts(e2, v)
    ensures PlainConsts(Join(op, e1, e2).value, v)
  {
  }

  // ----- symbols that no rewriting loses -----

  /** The value of `e` depends on the value of `s`. */
  ghost predicate Sways(e: Expr, s: Symbol, words: set<Symbol>) {
    exists v: Valuation, w: Valuation :: ApartAt(v, w, s) && Sane(v, words) && Sane(w, words) && Eval(e, v) != Eval(e, w)
  }

  ghost predicate ApartAt(v: Valuation, w: Valuation, s: Symbol) {
    v.text == w.text && v.modules == w.modules && v.number == w.number && forall x: Symbol | x != s :: v.tri(x) == w.tri(x)
  }

  /** Some operand of the conjunction `e` is about `s` alone, or has a value that depends on `s`. */
  ghost predicate Firm(e: Expr, s: Symbol, words: set<Symbol>) {
    match e
    case Sym(x) => x == s
    case Cmp(_, a, b) => a == s || b == s
    case Not(x) => if x.Sym? then x.sym == s else Sways(e, s, words)
    case Bin(op, l, r) => if op.AND? then Firm(l, s, words) || Firm(r, s, words) else Sways(e, s, words)
  }

  /** Some operand of the conjunction is n. */
  predicate HasNo(e: Expr) { if IsOp(e, AND) then HasNo(e.left) || HasNo(e.right) else e == Sym(SymNo) }

  lemma {:induction false} SwaysIsFirm(e: Expr, s: Symbol, words: set<Symbol>)
    requires Sways(e, s, words)
    ensures Firm(e, s, words) && s in Mentions(e)
  {
    var v: Valuation, w: Valuation :| ApartAt(v, w, s) && Sane(v, words) && Sane(w, words) && Eval(e, v) != Eval(e, w);
    if s !in Mentions(e) { EvalAgree(e, v, w); }
    if IsOp(e, AND) {
      if Eval(e.left, v) != Eval(e.left, w) { SwaysIsFirm(e.left, s, words); } else { SwaysIsFirm(e.right, s, words); }
    }
  }

  lemma {:induction false} FirmIsMentioned(e: Expr, s: Symbol, words: set<Symbol>)
    requires Firm(e, s, words)
    ensures s in Mentions(e)
  {
    if IsOp(e, AND) {
      if Firm(e.left, s, words) { FirmIsMentioned(e.left, s, words); } else { FirmIsMentioned(e.right, s, words); }
    } else if e.Bin? || (e.Not? && !e.arg.Sym?) {
      SwaysIsFirm(e, s, words);
    }
  }

  /** Equal operands, for expr_eq, are about the same symbols. */
  lemma ExprEqFirm(e1: Expr, e2: Expr, s: Symbol, words: set<Symbol>)
    requires ExprEq(e1, e2) && !IsOp(e2, AND) && Firm(e2, s, words)
    ensures Firm(e1, s, words)
  {
    if e2.Bin? || (e2.Not? && !e2.arg.Sym?) {
      var v: Valuation, w: Valuation :| ApartAt(v, w, s) && Sane(v, words) && Sane(w, words) && Eval(e2, v) != Eval(e2, w);
      ExprEqSound(e1, e2, v);
      ExprEqSound(e1, e2, w);
      assert Sways(e1, s, words);
    }
  }

  /** Joining two operands of a conjunction keeps the symbols they are about, or gives n. */
  lemma JoinFirm(e1: Expr, e2: Expr, s: Symbol, words: set<Symbol>)
    requires JoinAnd(e1, e2).Some? && s.Config? && !IsOp(e2, AND) && (Firm(e1, s, words) || Firm(e2, s, words))
    ensures Firm(JoinAnd(e1, e2).value, s, words) || JoinAnd(e1, e2).value == Sym(SymNo)
  {
    if ExprEq(e1, e2) && Firm(e2, s, words) { ExprEqFirm(e1, e2, s, words); }
  }

  /** expr_eliminate_yn keeps them too, or makes the whole n. */
  lemma {:induction false} YnFirm(e: Expr, s: Symbol, words: set<Symbol>)
    requires s.Config?
    ensures Firm(e, s, words) ==> Firm(EliminateYn(e), s, words) || EliminateYn(e) == Sym(SymNo)
    ensures HasNo(e) ==> EliminateYn(e) == Sym(SymNo)
  {
    if IsOp(e, AND) {
      YnFirm(e.left, s, words);
      YnFirm(e.right, s, words);
    } else if e.Bin? && Firm(e, s, words) {
      var v: Valuation, w: Valuation :| ApartAt(v, w, s) && Sane(v, words) && Sane(w, words) && Eval(e, v) != Eval(e, w);
      EliminateYnMeaning(e, v);
      EliminateYnMeaning(e, w);
      SwaysIsFirm(EliminateYn(e), s, words);
    }
  }

  /** A mention that does not matter to the value can get lost: once two equal operands of the conjunction
      are joined, expr_eliminate_yn takes `s || y` away. */
  lemma SwallowedMention(c: Symbol, s: Symbol, t: Symbol, words: set<Symbol>)
    requires c.Config? && s.Config? && t.Config? && s != c && s != t
    ensures var e := Bin(OR, Sym(s), Sym(SymYes));
      var walked := Bin(AND, Bin(AND, Sym(c), e), Bin(AND, Sym(SymYes), Sym(t)));
      && Join(AND, Sym(t), Sym(t)) == Some(Sym(t)) && !Firm(e, s, words)
      && s in Mentions(walked) && EliminateYn(walked) == Bin(AND, Sym(c), Sym(t)) && s !in Mentions(EliminateYn(walked))
  {
    var e := Bin(OR, Sym(s), Sym(SymYes));
    assert EliminateYn(Bin(AND, Sym(c), e)) == JoinYn(AND, Sym(c), EliminateYn(e)) == Sym(c);
    assert EliminateYn(Bin(AND, Sym(SymYes), Sym(t))) == Sym(t);
    assert forall v: Valuation :: Eval(e, v) == TriOr(TriValue(v, s), Eval(Sym(SymYes), v)) == YES;
    assert s in Mentions(Sym(s)) && Mentions(e) == Mentions(Sym(s)) + Mentions(Sym(SymYes)) && Mentions(Bin(AND, Sym(c), e)) == Mentions(Sym(c)) + Mentions(e);
  }

  // ----- slots: positions in one shared tree -----

  datatype Dir = L | R

  /** A slot `struct expr **` inside one AND/OR level: the turns from the root of the level. */
  type Path = seq<Dir>

  function Child(t: Expr, d: Dir): Expr
    requires t.Bin?
  {
    if d.L? then t.left else t.right
  }

  predicate Spine(op: Op, t: Expr, p: Path) {
    p == [] || (IsOp(t, op) && Spine(op, Child(t, p[0]), p[1..]))
  }

  function At(op: Op, t: Expr, p: Path): (r: Expr)
    requires Spine(op, t, p)
    ensures Size(r) <= Size(t) && (p != [] ==> Size(r) < Size(t))
  {
    if p == [] then t else At(op, Child(t, p[0]), p[1..])
  }

  /** Storing `x` in the slot. */
  function Put(op: Op, t: Expr, p: Path, x: Expr): Expr
    requires Spine(op, t, p)
  {
    if p == [] then x
    else if p[0].L? then Bin(op, Put(op, t.left, p[1..], x), t.right)
    else Bin(op, t.left, Put(op, t.right, p[1..], x))
  }

  /** A slot that holds an operand of the level. */
  predicate Leaf(op: Op, t: Expr, p: Path) { Spine(op, t, p) && !IsOp(At(op, t, p), op) }

  function SpineSize(op: Op, t: Expr): nat {
    if IsOp(t, op) then 1 + SpineSize(op, t.left) + SpineSize(op, t.right) else 0
  }

  /** The two trees have the same level, whatever their operands. */
  predicate SameSpine(op: Op, t: Expr, u: Expr) {
    IsOp(t, op) == IsOp(u, op) &&
    (IsOp(t, op) ==> SameSpine(op, t.left, u.left) && SameSpine(op, t.right, u.right))
  }

  lemma {:induction false} SameSpineRefl(op: Op, t: Expr)
    ensures SameSpine(op, t, t)
  {
    if IsOp(t, op) {
      SameSpineRefl(op, t.left);
      SameSpineRefl(op, t.right);
    }
  }

  lemma {:induction false} SameSpineTrans(op: Op, t: Expr, u: Expr, w: Expr)
    requires SameSpine(op, t, u) && SameSpine(op, u, w)
    ensures SameSpine(op, t, w)
  {
    if IsOp(t, op) {
      SameSpineTrans(op, t.left, u.left, w.left);
      SameSpineTrans(op, t.right, u.right, w.right);
    }
  }

  lemma {:induction false} SameSpineSlots(op: Op, t: Expr, u: Expr, p: Path)
    requires SameSpine(op, t, u) && Spine(op, t, p)
    ensures Spine(op, u, p) && SameSpine(op, At(op, t, p), At(op, u, p))
    ensures SpineSize(op, At(op, u, p)) == SpineSize(op, At(op, t, p))
  {
    if p == [] {
      SameSpineSize(op, t, u);
    } else {
      SameSpineSlots(op, Child(t, p[0]), Child(u, p[0]), p[1..]);
    }
  }

  lemma {:induction false} SameSpineSize(op: Op, t: Expr, u: Expr)
    requires SameSpine(op, t, u)
    ensures SpineSize(op, t) == SpineSize(op, u)
  {
    if IsOp(t, op) {
      SameSpineSize(op, t.left, u.left);
      SameSpineSize(op, t.right, u.right);
    }
  }

  /** Following one more turn. */
  lemma {:induction false} SpineSnoc(op: Op, t: Expr, p: Path, d: Dir)
    requires Spine(op, t, p) && IsOp(At(op, t, p), op)
    ensures Spine(op, t, p + [d]) && At(op, t, p + [d]) == Child(At(op, t, p), d)
  {
    if p != [] {
      assert (p + [d])[1..] == p[1..] + [d];
      SpineSnoc(op, Child(t, p[0]), p[1..], d);
    }
  }

  /** Storing an operand over an operand. */
  lemma {:induction false} PutLeaf(op: Op, t: Expr, p: Path, x: Expr)
    requires Leaf(op, t, p) && !IsOp(x, op)
    ensures SameSpine(op, t, Put(op, t, p, x))
    ensures Size(Put(op, t, p, x)) == Size(t) - Size(At(op, t, p)) + Size(x)
  {
    if p != [] {
      PutLeaf(op, Child(t, p[0]), p[1..], x);
      SameSpineRefl(op, t.left);
      SameSpineRefl(op, t.right);
    }
  }

  /** Storing back what is there changes nothing. */
  lemma {:induction false} PutSame(op: Op, t: Expr, p: Path)
    requires Spine(op, t, p)
    ensures Put(op, t, p, At(op, t, p)) == t
  {
    if p != [] { PutSame(op, Child(t, p[0]), p[1..]); }
  }

  /** Storing in one operand slot leaves the other operand slots alone. */
  lemma {:induction false} PutOther(op: Op, t: Expr, p: Path, x: Expr, q: Path)
    requires Leaf(op, t, p) && Leaf(op, t, q) && p != q && !IsOp(x, op)
    ensures Leaf(op, Put(op, t, p, x), q) && At(op, Put(op, t, p, x), q) == At(op, t, q)
  {
    assert p != [] && q != [];
    if p[0] == q[0] {
      assert p == [p[0]] + p[1..] && q == [q[0]] + q[1..];
      PutOther(op, Child(t, p[0]), p[1..], x, q[1..]);
    }
  }

  lemma {:induction false} PutHere(op: Op, t: Expr, p: Path, x: Expr)
    requires Spine(op, t, p)
    ensures Spine(op, Put(op, t, p, x), p) && At(op, Put(op, t, p, x), p) == x
  {
    if p != [] { PutHere(op, Child(t, p[0]), p[1..], x); }
  }

  // ----- what one store and one join keep -----

  /** The value of the level with the slot taken out. */
  ghost function Rest(op: Op, t: Expr, p: Path, v: Valuation): Tri
    requires Spine(op, t, p)
  {
    if p == [] then TriValue(v, Unit(op))
    else Apply(op, Rest(op, Child(t, p[0]), p[1..], v), Eval(Child(t, if p[0].L? then R else L), v))
  }

  lemma {:induction false} EvalPut(op: Op, t: Expr, p: Path, x: Expr, v: Valuation)
    requires Spine(op, t, p)
    ensures Eval(Put(op, t, p, x), v) == Apply(op, Rest(op, t, p, v), Eval(x, v))
  {
    if p != [] {
      var other := Child(t, if p[0].L? then R else L);
      EvalPut(op, Child(t, p[0]), p[1..], x, v);
      Aside(op, Rest(op, Child(t, p[0]), p[1..], v), Eval(x, v), Eval(other, v));
    }
  }

  lemma Aside(op: Op, a: Tri, b: Tri, c: Tri)
    ensures Apply(op, Apply(op, a, b), c) == Apply(op, Apply(op, a, c), b) == Apply(op, c, Apply(op, a, b))
  {
  }

  lemma EvalAt(op: Op, t: Expr, p: Path, v: Valuation)
    requires Spine(op, t, p)
    ensures Eval(t, v) == Apply(op, Rest(op, t, p, v), Eval(At(op, t, p), v))
  {
    PutSame(op, t, p);
    EvalPut(op, t, p, At(op, t, p), v);
  }

  /** Replacing two operands by two others with the same combined value. */
  lemma {:induction false} TwoSlots(op: Op, t: Expr, p: Path, q: Path, x: Expr, y: Expr, v: Valuation)
    requires Leaf(op, t, p) && Leaf(op, t, q) && p != q && !IsOp(x, op)
    requires Apply(op, Eval(x, v), Eval(y, v)) == Apply(op, Eval(At(op, t, p), v), Eval(At(op, t, q), v))
    ensures Leaf(op, Put(op, t, p, x), q)
    ensures Eval(Put(op, Put(op, t, p, x), q, y), v) == Eval(t, v)
  {
    PutOther(op, t, p, x, q);
    assert p != [] && q != [];
    var c, d := Child(t, p[0]), Child(t, q[0]);
    if p[0] == q[0] {
      assert p == [p[0]] + p[1..] && q == [q[0]] + q[1..];
      TwoSlots(op, c, p[1..], q[1..], x, y, v);
    } else {
      EvalPut(op, c, p[1..], x, v);
      EvalPut(op, d, q[1..], y, v);
      EvalAt(op, c, p[1..], v);
      EvalAt(op, d, q[1..], v);
      Exchange(op, Rest(op, c, p[1..], v), Rest(op, d, q[1..], v), Eval(x, v), Eval(y, v),
               Eval(At(op, t, p), v), Eval(At(op, t, q), v));
    }
  }

  lemma Exchange(op: Op, a: Tri, b: Tri, x: Tri, y: Tri, x': Tri, y': Tri)
    requires Apply(op, x, y) == Apply(op, x', y')
    ensures Apply(op, Apply(op, a, x), Apply(op, b, y)) == Apply(op, Apply(op, a, x'), Apply(op, b, y'))
    ensures Apply(op, Apply(op, b, y), Apply(op, a, x)) == Apply(op, Apply(op, b, y'), Apply(op, a, x'))
  {
    Together(op, a, x, b, y);
    Together(op, a, x', b, y');
  }

  lemma Together(op: Op, a: Tri, x: Tri, b: Tri, y: Tri)
    ensures Apply(op, Apply(op, a, x), Apply(op, b, y)) == Apply(op, Apply(op, a, b), Apply(op, x, y))
    ensures Apply(op, Apply(op, b, y), Apply(op, a, x)) == Apply(op, Apply(op, a, b), Apply(op, x, y))
  {
  }

  /** Properties of a tree that storing a tree with the same property keeps. */
  lemma {:induction false} PutKeeps(op: Op, t: Expr, p: Path, x: Expr)
    requires Spine(op, t, p)
    ensures NotOverSymbols(t) ==> NotOverSymbols(At(op, t, p))
    ensures Normal(t) ==> Normal(At(op, t, p))
    ensures Mentions(At(op, t, p)) <= Mentions(t)
    ensures NotOverSymbols(t) && NotOverSymbols(x) ==> NotOverSymbols(Put(op, t, p, x))
    ensures Normal(t) && Normal(x) ==> Normal(Put(op, t, p, x))
    ensures Mentions(Put(op, t, p, x)) <= Mentions(t) + Mentions(x)
  {
    if p != [] { PutKeeps(op, Child(t, p[0]), p[1..], x); }
  }

  /** What the rest of a conjunction is about, and what is stored in it, stays. */
  lemma {:induction false} PutFirm(t: Expr, p: Path, x: Expr, s: Symbol, words: set<Symbol>)
    requires Spine(AND, t, p)
    ensures Firm(x, s, words) ==> Firm(Put(AND, t, p, x), s, words)
    ensures Firm(t, s, words) && !Firm(At(AND, t, p), s, words) ==> Firm(Put(AND, t, p, x), s, words)
    ensures HasNo(x) ==> HasNo(Put(AND, t, p, x))
    ensures HasNo(t) && !HasNo(At(AND, t, p)) ==> HasNo(Put(AND, t, p, x))
  {
    if p != [] { PutFirm(Child(t, p[0]), p[1..], x, s, words); }
  }

  lemma {:induction false} PutPlain(op: Op, t: Expr, p: Path, x: Expr, v: Valuation)
    requires Spine(op, t, p)
    ensures PlainConsts(t, v) ==> PlainConsts(At(op, t, p), v)
    ensures PlainConsts(t, v) && PlainConsts(x, v) ==> PlainConsts(Put(op, t, p, x), v)
  {
    if p != [] { PutPlain(op, Child(t, p[0]), p[1..], x, v); }
  }

  /** A y or n operand elsewhere stays; one stored here appears. */
  lemma {:induction false} PutYn(op: Op, t: Expr, p: Path, x: Expr)
    requires Spine(op, t, p) && p != []
    ensures IsYn(x) || HasYnOperand(x) ==> HasYnOperand(Put(op, t, p, x))
    ensures HasYnOperand(t) && !IsYn(At(op, t, p)) && !HasYnOperand(At(op, t, p)) ==> HasYnOperand(Put(op, t, p, x))
  {
    var c := Child(t, p[0]);
    assert At(op, t, p) == At(op, c, p[1..]);
    if |p| > 1 {
      PutYn(op, c, p[1..], x);
    } else {
      assert At(op, c, p[1..]) == c;
    }
  }

  // ----- the pass and the loop -----

  /** No two operands of one level can be joined, at any level reached through AND and OR. */
  ghost predicate Reduced(e: Expr)
    decreases Size(e), 1
  {
    e.Bin? ==> forall p, q | Leaf(e.op, e, p) && Leaf(e.op, e, q) && p != q :: Settled(e.op, e, p, q)
  }

  /** The operand in slot p is reduced and does not join with the one in slot q. */
  ghost predicate Settled(op: Op, t: Expr, p: Path, q: Path)
    requires IsOp(t, op) && Leaf(op, t, p) && Leaf(op, t, q) && p != q
    decreases Size(t), 0
  {
    Join(op, At(op, t, p), At(op, t, q)).None? && Reduced(At(op, t, p))
  }

  /** Every operand under slot p1 is settled against every other operand under slot p2. */
  ghost predicate AllSettled(op: Op, t: Expr, p1: Path, p2: Path)
    requires IsOp(t, op)
  {
    forall p, q | Leaf(op, t, p) && Leaf(op, t, q) && p != q && p1 <= p && p2 <= q :: Settled(op, t, p, q)
  }

  /** What one rewriting step keeps. */
  ghost predicate Kept(t: Expr, r: Expr, v: Valuation) {
    Typed(v) && PlainConsts(t, v) ==> PlainConsts(r, v) && Eval(r, v) == Eval(t, v)
  }

  ghost predicate KeptShape(t: Expr, r: Expr) {
    && (NotOverSymbols(t) ==> NotOverSymbols(r))
    && (Normal(t) ==> Normal(r))
    && Mentions(r) <= Mentions(t) + {SymYes, SymMod, SymNo}
  }

  /** A walk loses no symbol that a conjunction is about, unless a join makes an operand n. */
  ghost predicate KeptFirm(t: Expr, r: Expr, joins: nat) {
    && (HasNo(t) ==> HasNo(r))
    && forall s: Symbol, words: set<Symbol> | FirmIn(t, s, words) :: Firm(r, s, words) || (joins > 0 && HasNo(r))
  }

  ghost predicate FirmIn(t: Expr, s: Symbol, words: set<Symbol>) { s.Config? && Covers(words, t) && Firm(t, s, words) }

  ghost predicate Covers(words: set<Symbol>, t: Expr) { Mentions(t) <= words && {SymYes, SymMod, SymNo} <= words }

  /** The result of a walk over slots p1 and p2 of the level `t` that counted `joins`. */
  ghost predicate Walked(op: Op, t: Expr, r: Expr, joins: nat) {
    && SameSpine(op, t, r)
    && Size(r) <= Size(t)
    && KeptShape(t, r)
    && (forall v: Valuation :: Kept(t, r, v))
    && (joins == 0 ==> r == t)
    && (joins > 0 || HasYnOperand(t) ==> HasYnOperand(r))
    && (op.AND? ==> KeptFirm(t, r, joins))
  }

  lemma WalkedTrans(op: Op, t: Expr, u: Expr, r: Expr, i: nat, j: nat)
    requires Walked(op, t, u, i) && Walked(op, u, r, j)
    ensures Walked(op, t, r, i + j)
  {
    SameSpineTrans(op, t, u, r);
    forall v: Valuation ensures Kept(t, r, v) {
      assert Kept(t, u, v) && Kept(u, r, v);
    }
    if op.AND? { KeptFirmTrans(t, u, r, i, j); }
  }

  lemma KeptFirmTrans(t: Expr, u: Expr, r: Expr, i: nat, j: nat)
    requires KeptFirm(t, u, i) && KeptFirm(u, r, j) && KeptShape(t, u)
    ensures KeptFirm(t, r, i + j)
  {
    forall s: Symbol, words: set<Symbol> | FirmIn(t, s, words) ensures Firm(r, s, words) || (i + j > 0 && HasNo(r)) {
      if Firm(u, s, words) { assert FirmIn(u, s, words); }
    }
  }

  /** A rewriting that keeps the value keeps what the value depends on. */
  lemma KeptSways(t: Expr, r: Expr, s: Symbol, words: set<Symbol>)
    requires Covers(words, t) && Sways(t, s, words) && forall v: Valuation :: Kept(t, r, v)
    ensures Sways(r, s, words)
  {
    var v: Valuation, w: Valuation :| ApartAt(v, w, s) && Sane(v, words) && Sane(w, words) && Eval(t, v) != Eval(t, w);
    SaneIsPlain(t, v, words);
    SaneIsPlain(t, w, words);
    assert Kept(t, r, v) && Kept(t, r, w);
  }

  /** expr_eliminate_dups1(op, &p1, &p2) on the tree that holds both slots; the number of joins
      is what the call adds to trans_count. */
  method EliminateDups1(op: Op, t: Expr, p1: Path, p2: Path) returns (r: Expr, joins: nat)
    requires IsOp(t, op) && Spine(op, t, p1) && Spine(op, t, p2)
    ensures Walked(op, t, r, joins)
    ensures joins == 0 ==> AllSettled(op, t, p1, p2)
    ensures Reduced(t) ==> joins == 0
    decreases Size(t), SpineSize(op, At(op, t, p1)) + SpineSize(op, At(op, t, p2)), 1
  {
    if IsOp(At(op, t, p1), op) {
      SpineSnoc(op, t, p1, L);
      SpineSnoc(op, t, p1, R);
      var i, j;
      r, i := EliminateDups1(op, t, p1 + [L], p2);
      var u := r;
      SameSpineSlots(op, t, u, p1 + [R]);
      SameSpineSlots(op, t, u, p2);
      r, j := EliminateDups1(op, u, p1 + [R], p2);
      joins := i + j;
      WalkedTrans(op, t, u, r, i, j);
      if joins == 0 { SettledSplit1(op, t, p1, p2); }
    } else if IsOp(At(op, t, p2), op) {
      SpineSnoc(op, t, p2, L);
      SpineSnoc(op, t, p2, R);
      var i, j;
      r, i := EliminateDups1(op, t, p1, p2 + [L]);
      var u := r;
      SameSpineSlots(op, t, u, p1);
      SameSpineSlots(op, t, u, p2 + [R]);
      r, j := EliminateDups1(op, u, p1, p2 + [R]);
      joins := i + j;
      WalkedTrans(op, t, u, r, i, j);
      if joins == 0 { SettledSplit2(op, t, p1, p2); }
    } else if p1 == p2 {
      r, joins := t, 0;
      SameSpineRefl(op, t);
      LeafAlone(op, t, p1);
    } else {
      r, joins := JoinOperands(op, t, p1, p2);
    }
  }

  /** The two operands at p1 and p2: the first is walked on its own, then they are joined if they can be. */
  method JoinOperands(op: Op, t: Expr, p1: Path, p2: Path) returns (r: Expr, joins: nat)
    requires IsOp(t, op) && Leaf(op, t, p1) && Leaf(op, t, p2) && p1 != p2
    ensures Walked(op, t, r, joins)
    ensures joins == 0 ==> AllSettled(op, t, p1, p2)
    ensures Reduced(t) ==> joins == 0
    decreases Size(t), 0, 0
  {
    r, joins := t, 0;
    SameSpineRefl(op, t);
    assert Reduced(t) ==> Settled(op, t, p1, p2);
    var e1 := At(op, t, p1);
    if e1.Bin? {
      var f, i := EliminateDups1(e1.op, e1, [], []);
      r, joins := Put(op, t, p1, f), i;
      NestedWalk(op, t, p1, f, i);
    }
    var u, i := r, joins;
    SameSpineSlots(op, t, u, p1);
    SameSpineSlots(op, t, u, p2);
    var tmp := Join(op, At(op, u, p1), At(op, u, p2));
    if tmp.Some? {
      PutOther(op, u, p1, Sym(Unit(op)), p2);
      r, joins := Put(op, Put(op, u, p1, Sym(Unit(op))), p2, tmp.value), joins + 1;
      JoinWalk(op, u, p1, p2);
      WalkedTrans(op, t, u, r, i, 1);
    }
    if joins == 0 {
      LeafAlone(op, t, p1);
      LeafAlone(op, t, p2);
      if e1.Bin? { ReducedFromWalk(e1); }
    }
  }

  /** The operands under an AND/OR slot are those under its two children. */
  lemma SettledSplit1(op: Op, t: Expr, p1: Path, p2: Path)
    requires IsOp(t, op) && Spine(op, t, p1) && IsOp(At(op, t, p1), op)
    requires AllSettled(op, t, p1 + [L], p2) && AllSettled(op, t, p1 + [R], p2)
    ensures AllSettled(op, t, p1, p2)
  {
    forall p, q | Leaf(op, t, p) && Leaf(op, t, q) && p != q && p1 <= p && p2 <= q
      ensures Settled(op, t, p, q)
    {
      assert p != p1;
      assert p[|p1|] == L ==> p1 + [L] <= p;
      assert p[|p1|] == R ==> p1 + [R] <= p;
    }
  }

  lemma SettledSplit2(op: Op, t: Expr, p1: Path, p2: Path)
    requires IsOp(t, op) && Spine(op, t, p2) && IsOp(At(op, t, p2), op)
    requires AllSettled(op, t, p1, p2 + [L]) && AllSettled(op, t, p1, p2 + [R])
    ensures AllSettled(op, t, p1, p2)
  {
    forall p, q | Leaf(op, t, p) && Leaf(op, t, q) && p != q && p1 <= p && p2 <= q
      ensures Settled(op, t, p, q)
    {
      assert q != p2;
      assert q[|p2|] == L ==> p2 + [L] <= q;
      assert q[|p2|] == R ==> p2 + [R] <= q;
    }
  }

  /** Below an operand slot there is only that slot. */
  lemma {:induction false} LeafAlone(op: Op, t: Expr, p: Path)
    requires Leaf(op, t, p)
    ensures forall q | p <= q && Spine(op, t, q) :: q == p
  {
    if p != [] {
      LeafAlone(op, Child(t, p[0]), p[1..]);
      forall q | p <= q && Spine(op, t, q) ensures q == p {
        assert q[0] == p[0] && p[1..] <= q[1..] && Spine(op, Child(t, q[0]), q[1..]);
        assert p == [p[0]] + p[1..] && q == [q[0]] + q[1..];
      }
    }
  }

  lemma ReducedFromWalk(e: Expr)
    requires e.Bin? && AllSettled(e.op, e, [], [])
    ensures Reduced(e)
  {
  }

  lemma NestedWalk(op: Op, t: Expr, p: Path, f: Expr, joins: nat)
    requires IsOp(t, op) && Leaf(op, t, p) && At(op, t, p).Bin?
    requires Walked(At(op, t, p).op, At(op, t, p), f, joins)
    ensures Walked(op, t, Put(op, t, p, f), joins)
  {
    var e := At(op, t, p);
    assert p != [];
    PutLeaf(op, t, p, f);
    PutSame(op, t, p);
    PutKeeps(op, t, p, f);
    PutYn(op, t, p, f);
    forall v: Valuation ensures Kept(t, Put(op, t, p, f), v) {
      assert Kept(e, f, v);
      PutPlain(op, t, p, f, v);
      EvalPut(op, t, p, f, v);
      EvalAt(op, t, p, v);
    }
    if op.AND? { NestedFirm(t, p, f, joins); }
  }

  lemma NestedFirm(t: Expr, p: Path, f: Expr, joins: nat)
    requires Leaf(AND, t, p) && At(AND, t, p).Bin? && Walked(OR, At(AND, t, p), f, joins)
    ensures KeptFirm(t, Put(AND, t, p, f), joins)
  {
    var e := At(AND, t, p);
    PutKeeps(AND, t, p, f);
    forall s: Symbol, words: set<Symbol> | FirmIn(t, s, words) ensures Firm(Put(AND, t, p, f), s, words) {
      PutFirm(t, p, f, s, words);
      if Firm(e, s, words) { KeptSways(e, f, s, words); }
    }
    PutFirm(t, p, f, SymYes, {});
  }

  /** One join: the first slot gets the unit of the level, the second the joined operand. */
  lemma JoinWalk(op: Op, t: Expr, p: Path, q: Path)
    requires IsOp(t, op) && Leaf(op, t, p) && Leaf(op, t, q) && p != q
    requires Join(op, At(op, t, p), At(op, t, q)).Some?
    requires Spine(op, Put(op, t, p, Sym(Unit(op))), q)
    ensures Walked(op, t, Put(op, Put(op, t, p, Sym(Unit(op))), q, Join(op, At(op, t, p), At(op, t, q)).value), 1)
  {
    var e1, e2 := At(op, t, p), At(op, t, q);
    var c, j := Sym(Unit(op)), Join(op, e1, e2).value;
    var u := Put(op, t, p, c);
    var r := Put(op, u, q, j);
    JoinTame(op, e1, e2);
    PutOther(op, t, p, c, q);
    PutLeaf(op, t, p, c);
    PutLeaf(op, u, q, j);
    SameSpineTrans(op, t, u, r);
    PutHere(op, t, p, c);
    JoinWalkShape(op, t, p, q);
    forall v: Valuation ensures Kept(t, r, v) {
      if Typed(v) && PlainConsts(t, v) { JoinWalkMeaning(op, t, p, q, v); }
    }
    assert HasYnOperand(r) by {
      PutOther(op, u, q, j, p);
      YnSlot(op, r, p);
    }
    assert Size(e2) >= 1 by { SizePositive(e2); }
    if op.AND? { JoinWalkFirm(t, p, q); }
  }

  lemma JoinWalkFirm(t: Expr, p: Path, q: Path)
    requires Leaf(AND, t, p) && Leaf(AND, t, q) && p != q
    requires JoinAnd(At(AND, t, p), At(AND, t, q)).Some?
    requires Spine(AND, Put(AND, t, p, Sym(SymYes)), q)
    ensures KeptFirm(t, Put(AND, Put(AND, t, p, Sym(SymYes)), q, JoinAnd(At(AND, t, p), At(AND, t, q)).value), 1)
  {
    var e1, e2 := At(AND, t, p), At(AND, t, q);
    var u, j := Put(AND, t, p, Sym(SymYes)), JoinAnd(e1, e2).value;
    PutOther(AND, t, p, Sym(SymYes), q);
    PutFirm(t, p, Sym(SymYes), SymYes, {});
    PutFirm(u, q, j, SymYes, {});
    forall s: Symbol, words: set<Symbol> | FirmIn(t, s, words) ensures Firm(Put(AND, u, q, j), s, words) || HasNo(Put(AND, u, q, j)) {
      PutFirm(t, p, Sym(SymYes), s, words);
      PutFirm(u, q, j, s, words);
      if Firm(e1, s, words) || Firm(e2, s, words) { JoinFirm(e1, e2, s, words); }
    }
  }

  lemma SizePositive(e: Expr)
    ensures Size(e) >= 1
  {
  }

  lemma {:induction false} YnSlot(op: Op, t: Expr, p: Path)
    requires Spine(op, t, p) && p != [] && IsYn(At(op, t, p))
    ensures HasYnOperand(t)
  {
    assert At(op, t, p) == At(op, Child(t, p[0]), p[1..]);
    if |p| > 1 { YnSlot(op, Child(t, p[0]), p[1..]); }
  }

  lemma JoinWalkShape(op: Op, t: Expr, p: Path, q: Path)
    requires IsOp(t, op) && Leaf(op, t, p) && Leaf(op, t, q) && p != q
    requires Join(op, At(op, t, p), At(op, t, q)).Some?
    requires Spine(op, Put(op, t, p, Sym(Unit(op))), q)
    ensures KeptShape(t, Put(op, Put(op, t, p, Sym(Unit(op))), q, Join(op, At(op, t, p), At(op, t, q)).value))
  {
    var e1, e2 := At(op, t, p), At(op, t, q);
    var j := Join(op, e1, e2).value;
    JoinTame(op, e1, e2);
    PutKeeps(op, t, q, j);
    PutKeeps(op, t, p, Sym(Unit(op)));
    PutKeeps(op, Put(op, t, p, Sym(Unit(op))), q, j);
  }

  lemma JoinWalkMeaning(op: Op, t: Expr, p: Path, q: Path, v: Valuation)
    requires Typed(v) && PlainConsts(t, v)
    requires IsOp(t, op) && Leaf(op, t, p) && Leaf(op, t, q) && p != q
    requires Join(op, At(op, t, p), At(op, t, q)).Some?
    requires Spine(op, Put(op, t, p, Sym(Unit(op))), q)
    ensures Kept(t, Put(op, Put(op, t, p, Sym(Unit(op))), q, Join(op, At(op, t, p), At(op, t, q)).value), v)
  {
    var e1, e2 := At(op, t, p), At(op, t, q);
    var c, j := Sym(Unit(op)), Join(op, e1, e2).value;
    PutPlain(op, t, p, c, v);
    PutPlain(op, t, q, j, v);
    JoinPlain(op, e1, e2, v);
    PutPlain(op, Put(op, t, p, c), q, j, v);
    if op.AND? { JoinAndMeaning(e1, e2, v); } else { JoinOrMeaning(e1, e2, v); }
    TwoSlots(op, t, p, q, c, j, v);
  }

  lemma {:induction false} EliminateYnPlain(e: Expr, v: Valuation)
    ensures PlainConsts(e, v) ==> PlainConsts(EliminateYn(e), v)
  {
    if e.Bin? {
      EliminateYnPlain(e.left, v);
      EliminateYnPlain(e.right, v);
    }
  }

  /** All that expr_eliminate_dups promises of its result. */
  ghost predicate Deduped(e: Expr, r: Expr) {
    && (forall v: Valuation :: Kept(e, r, v)) && Reduced(r) && KeptShape(e, r) && Size(r) <= Size(e) && (Reduced(e) ==> r == e)
    && LosesNone(e, r)
  }

  /** Every symbol that the conjunction `e` is about is still one of `r`, or `r` is n. */
  ghost predicate LosesNone(e: Expr, r: Expr) {
    forall s: Symbol, words: set<Symbol> | FirmIn(e, s, words) :: Firm(r, s, words) || r == Sym(SymNo)
  }

  /** One round of the loop. */
  lemma RoundLosesNone(e: Expr, r: Expr, t: Expr, joins: nat)
    requires LosesNone(e, r) && KeptShape(e, r) && r.Bin? && Walked(r.op, r, t, joins)
    ensures LosesNone(e, EliminateYn(t))
  {
    forall s: Symbol, words: set<Symbol> | FirmIn(e, s, words) ensures Firm(EliminateYn(t), s, words) || EliminateYn(t) == Sym(SymNo) {
      assert FirmIn(r, s, words);
      if r.op.OR? { KeptSways(r, t, s, words); }
      YnFirm(t, s, words);
    }
  }

  /** expr_eliminate_dups. */
  method EliminateDups(e: Expr) returns (r: Expr)
    ensures Deduped(e, r)
  {
    r := e;
    while true
      invariant Size(r) <= Size(e) && KeptShape(e, r) && LosesNone(e, r)
      invariant forall v: Valuation :: Kept(e, r, v)
      invariant Reduced(e) ==> r == e
      decreases Size(r)
    {
      var transCount := 0;
      var t := r;
      if r.Bin? {
        t, transCount := EliminateDups1(r.op, r, [], []);
      }
      if transCount == 0 {
        break;
      }
      EliminateYnShape(t);
      EliminateYnShrinks(t);
      RoundLosesNone(e, r, t, transCount);
      forall v: Valuation ensures Kept(t, EliminateYn(t), v) {
        EliminateYnMeaning(t, v);
        EliminateYnPlain(t, v);
      }
      forall v: Valuation ensures Kept(e, EliminateYn(t), v) {
        assert Kept(e, r, v) && Kept(r, t, v) && Kept(t, EliminateYn(t), v);
      }
      r := EliminateYn(t);
    }
  }
}
