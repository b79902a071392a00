/** The dependencies that scripts/config/menu.c rewrites, passes down the menu tree and tests
    when it looks for automatic submenus. */
module MenuDeps {
  import opened Tristates
  import opened Exprs
  import opened Simplify
  import opened Dups

  // ----- rewrite_m -----

  function RewriteM(e: Expr, modules: Symbol): Expr {
    match e
    case Not(x) => Not(RewriteM(x, modules))
    case Bin(op, l, r) => Bin(op, RewriteM(l, modules), RewriteM(r, modules))
    case Sym(s) => if s == SymMod then Bin(AND, e, Sym(modules)) else e
    case Cmp(_, _, _) => e
  }

  function RewriteMOpt(e: OptExpr, modules: Symbol): OptExpr {
    if e.None? then None else Some(RewriteM(e.value, modules))
  }

  /** The expression with n in place of every operand m. */
  function MReadAsN(e: Expr): Expr {
    match e
    case Not(x) => Not(MReadAsN(x))
    case Bin(op, l, r) => Bin(op, MReadAsN(l), MReadAsN(r))
    case Sym(s) => if s == SymMod then Sym(SymNo) else e
    case Cmp(_, _, _) => e
  }

  /** m counts as n while MODULES is n, and as itself otherwise. */
  lemma {:induction false} RewriteMMeaning(e: Expr, modules: Symbol, v: Valuation)
    ensures Eval(RewriteM(e, modules), v) == Eval(if TriValue(v, modules) == NO then MReadAsN(e) else e, v)
  {
    match e
    case Not(x) => RewriteMMeaning(x, modules, v);
    case Bin(op, l, r) =>
      RewriteMMeaning(l, modules, v);
      RewriteMMeaning(r, modules, v);
    case _ =>
  }

  lemma {:induction false} RewriteMMentions(e: Expr, modules: Symbol)
    ensures Mentions(RewriteM(e, modules)) <= Mentions(e) + {modules}
  {
    match e
    case Not(x) => RewriteMMentions(x, modules);
    case Bin(op, l, r) =>
      RewriteMMentions(l, modules);
      RewriteMMentions(r, modules);
    case _ =>
  }

  lemma {:induction false} TransformMentions(e: Expr)
    ensures Mentions(Transform(e)) <= Mentions(e) + {SymYes, SymMod, SymNo}
    decreases Weight(e), 1
  {
    match e
    case Sym(_) =>
    case Cmp(_, _, _) =>
    case Bin(op, l, r) =>
      TransformMentions(l);
      TransformMentions(r);
    case Not(x) =>
      TransformMentions(x);
      TransformNotMentions(Transform(x));
  }

  lemma {:induction false} TransformNotMentions(x: Expr)
    ensures Mentions(TransformNot(x)) <= Mentions(x) + {SymYes, SymMod, SymNo}
    decreases 2 * Weight(x), 0
  {
    match x
    case Not(y) => TransformMentions(y);
    case Bin(op, l, r) =>
      DeMorganLighter(op, l, r);
      TransformMentions(Bin(Dual(op), Not(l), Not(r)));
    case _ =>
  }

  lemma {:induction false} TransBoolShape(e: Expr)
    ensures Mentions(TransBool(e)) <= Mentions(e)
    ensures NotOverSymbols(e) ==> NotOverSymbols(TransBool(e))
  {
    match e
    case Not(x) => TransBoolShape(x);
    case Bin(_, l, r) =>
      TransBoolShape(l);
      TransBoolShape(r);
    case _ =>
  }

  // ----- expr_trans_compare -----

  /** `e` compared with y, m or n; the m case of AND and OR keeps the operand as it is. */
  function TransCompare(e: Expr, cmp: CmpOp, k: Symbol): Expr
    requires (cmp.Eq? || cmp.Ne?) && k.IsYMN()
  {
    match e
    case Bin(op, l, r) =>
      var e1, e2 := TransCompare(l, Eq, k), TransCompare(r, Eq, k);
      var f := if k == SymYes then Bin(op, e1, e2) else if k == SymNo then Bin(Dual(op), e1, e2) else e;
      if cmp.Ne? then Not(f) else f
    case Not(x) => TransCompare(x, if cmp.Eq? then Ne else Eq, k)
    case Cmp(_, _, _) =>
      if cmp.Eq? then (if k == SymYes then e else if k == SymMod then Sym(SymNo) else Not(e))
      else (if k == SymYes then Not(e) else if k == SymMod then Sym(SymYes) else e)
    case Sym(s) => Cmp(cmp, s, k)
  }

  function TransCompareOpt(e: OptExpr, cmp: CmpOp, k: Symbol): Expr
    requires (cmp.Eq? || cmp.Ne?) && k.IsYMN()
  {
    if e.Some? then TransCompare(e.value, cmp, k) else if cmp.Ne? then Not(Sym(k)) else Sym(k)
  }

  lemma {:induction false} TransCompareMentions(e: Expr, cmp: CmpOp, k: Symbol)
    requires (cmp.Eq? || cmp.Ne?) && k.IsYMN()
    ensures Mentions(TransCompare(e, cmp, k)) <= Mentions(e) + {SymYes, SymMod, SymNo}
  {
    match e
    case Not(x) => TransCompareMentions(x, if cmp.Eq? then Ne else Eq, k);
    case Bin(op, l, r) =>
      TransCompareMentions(l, Eq, k);
      TransCompareMentions(r, Eq, k);
    case _ =>
  }

  /** Comparing the text of the symbol with "n" tells whether its value is n. True of y, m, n and
      of every bool or tristate symbol; not of a quoted word or a string symbol. */
  predicate ReadsAsTri(s: Symbol, v: Valuation) {
    (Compare(v, s, SymNo) == 0) == (TriValue(v, s) == NO)
  }

  lemma TriSymbolsReadAsTri(s: Symbol, v: Valuation)
    requires Typed(v) && (s.IsTri() || s.IsYMN())
    ensures ReadsAsTri(s, v)
  {
  }

  /** The operand of every NOT is y or n, and every operand reads as the value it has. */
  predicate TwoValuedNots(e: Expr, v: Valuation) {
    match e
    case Sym(s) => ReadsAsTri(s, v)
    case Cmp(_, _, _) => true
    case Not(x) => Eval(x, v) != MOD && TwoValuedNots(x, v)
    case Bin(_, l, r) => TwoValuedNots(l, v) && TwoValuedNots(r, v)
  }

  predicate TwoValuedNotsOpt(e: OptExpr, v: Valuation) { e.Some? ==> TwoValuedNots(e.value, v) }

  lemma {:induction false} TransCompareMeaning(e: Expr, cmp: CmpOp, v: Valuation)
    requires TwoValuedNots(e, v) && (cmp.Eq? || cmp.Ne?)
    ensures Eval(TransCompare(e, cmp, SymNo), v) == OfBool((Eval(e, v) == NO) == cmp.Eq?)
  {
    match e
    case Not(x) => TransCompareMeaning(x, if cmp.Eq? then Ne else Eq, v);
    case Bin(op, l, r) =>
      TransCompareMeaning(l, Eq, v);
      TransCompareMeaning(r, Eq, v);
    case _ =>
  }

  /** On a negated operand the comparison with n is right exactly when the operand is not m. */
  lemma TransCompareOfNot(x: Expr, v: Valuation)
    requires TwoValuedNots(x, v)
    ensures Eval(TransCompare(Not(x), Ne, SymNo), v) == OfBool(Eval(Not(x), v) != NO) <==> Eval(x, v) != MOD
  {
    TransCompareMeaning(x, Eq, v);
  }

  // ----- the tests for an automatic submenu -----

  predicate Contains(e: Expr, s: Symbol) {
    match e
    case Sym(y) => y == s
    case Not(x) => Contains(x, s)
    case Bin(_, l, r) => Contains(l, s) || Contains(r, s)
    case Cmp(_, a, b) => a == s || b == s
  }

  predicate Depends(e: Expr, s: Symbol) {
    match e
    case Sym(y) => y == s
    case Bin(op, l, r) => op.AND? && (Depends(l, s) || Depends(r, s))
    case Cmp(cmp, a, b) => a == s && ((cmp.Eq? && (b == SymYes || b == SymMod)) || (cmp.Ne? && b == SymNo))
    case Not(_) => false
  }

  lemma {:induction false} ContainsMentions(e: Expr, s: Symbol)
    ensures Contains(e, s) <==> s in Mentions(e)
  {
    match e
    case Not(x) => ContainsMentions(x, s);
    case Bin(_, l, r) =>
      ContainsMentions(l, s);
      ContainsMentions(r, s);
    case _ =>
  }

  /** `x` is one of the operands of the conjunction `e`. */
  predicate Operand(x: Expr, e: Expr) { if IsOp(e, AND) then Operand(x, e.left) || Operand(x, e.right) else e == x }

  /** A conjunction depends on a symbol outright exactly when one operand is the symbol, or says that it is y, m or
      not n. */
  lemma {:induction false} DependsExactly(e: Expr, s: Symbol)
    ensures Depends(e, s) <==>
      Operand(Sym(s), e) || Operand(Cmp(Eq, s, SymYes), e) || Operand(Cmp(Eq, s, SymMod), e) || Operand(Cmp(Ne, s, SymNo), e)
  {
    if IsOp(e, AND) {
      DependsExactly(e.left, s);
      DependsExactly(e.right, s);
    }
  }

  /** What depends on a symbol is above n only if the symbol is. */
  lemma {:induction false} DependsSound(e: Expr, s: Symbol, v: Valuation)
    requires Typed(v) && s.IsTri() && Depends(e, s)
    ensures Eval(e, v) != NO ==> v.tri(s) != NO
  {
    match e
    case Bin(_, l, r) =>
      if Depends(l, s) { DependsSound(l, s, v); } else { DependsSound(r, s, v); }
    case Cmp(cmp, a, b) => CompareConst(v, a, b);
    case _ =>
  }

  // ----- assignments the configuration can meet -----

  ghost predicate Known(e: OptExpr, words: set<Symbol>) {
    e.Some? ==> Mentions(e.value) <= words
  }

  function MentionsOpt(e: OptExpr): set<Symbol> { if e.None? then {} else Mentions(e.value) }

  ghost predicate FirmOpt(e: OptExpr, s: Symbol, words: set<Symbol>) { e.Some? && Firm(e.value, s, words) }

  /** `r` mentions no more than `d` and `own`, and everything these are firm about, unless it is n. */
  ghost predicate Carried(r: OptExpr, d: OptExpr, own: OptExpr, modules: Symbol, words: set<Symbol>) {
    && MentionsOpt(r) <= MentionsOpt(d) + MentionsOpt(Rewritten(own, modules)) + {SymYes, SymMod, SymNo}
    && MentionsOpt(Rewritten(own, modules)) <= MentionsOpt(own) + {modules, SymYes, SymMod, SymNo}
    && forall s: Symbol | s.Config? && (FirmOpt(d, s, words) || FirmOpt(Rewritten(own, modules), s, words)) ::
         FirmOpt(r, s, words) || r == Some(Sym(SymNo))
  }

  /** Wherever `d` is n, so is `p`. */
  ghost predicate Under(p: OptExpr, d: OptExpr, words: set<Symbol>) {
    forall v: Valuation | Sane(v, words) && EvalOpt(d, v) == NO :: EvalOpt(p, v) == NO
  }

  predicate TameNots(e: OptExpr) { e.Some? ==> NotOverSymbols(e.value) }

  predicate Complete(words: set<Symbol>, modules: Symbol) { {SymYes, SymMod, SymNo, modules} <= words }

  /** `r` is worth `d` and the rewritten `own` together. */
  ghost predicate Joined(r: OptExpr, d: OptExpr, own: OptExpr, modules: Symbol, words: set<Symbol>) {
    forall v: Valuation | Sane(v, words) ::
      EvalOpt(r, v) == TriAnd(EvalOpt(d, v), EvalOpt(RewriteMOpt(own, modules), v))
  }

  /** The same up to the m that expr_trans_bool may make of a y: never above, and n at the same
      time. */
  ghost predicate JoinedBool(r: OptExpr, d: OptExpr, own: OptExpr, modules: Symbol, words: set<Symbol>) {
    forall v: Valuation | Sane(v, words) ::
      && EvalOpt(r, v) <= TriAnd(EvalOpt(d, v), EvalOpt(RewriteMOpt(own, modules), v))
      && (EvalOpt(r, v) == NO <==> TriAnd(EvalOpt(d, v), EvalOpt(RewriteMOpt(own, modules), v)) == NO)
  }

  /** rewrite_m and expr_transform, one after the other. */
  function Rewritten(own: OptExpr, modules: Symbol): OptExpr {
    if own.None? then None else Some(Transform(RewriteM(own.value, modules)))
  }

  lemma RewrittenMeaning(own: OptExpr, modules: Symbol, words: set<Symbol>)
    requires Known(own, words) && Complete(words, modules)
    ensures Known(Rewritten(own, modules), words) && TameNots(Rewritten(own, modules))
    ensures forall v: Valuation | Sane(v, words) :: EvalOpt(Rewritten(own, modules), v) == EvalOpt(RewriteMOpt(own, modules), v)
  {
    if own.Some? {
      var e := RewriteM(own.value, modules);
      RewriteMMentions(own.value, modules);
      TransformMentions(e);
      TransformNormal(e);
      NormalIsNotOverSymbols(Transform(e));
      forall v: Valuation | Sane(v, words) ensures Eval(Transform(e), v) == Eval(e, v) {
        TransformMeaning(e, v);
      }
    }
  }

  lemma RewrittenMentions(own: OptExpr, modules: Symbol)
    ensures MentionsOpt(Rewritten(own, modules)) <= MentionsOpt(own) + {modules, SymYes, SymMod, SymNo}
  {
    if own.Some? {
      RewriteMMentions(own.value, modules);
      TransformMentions(RewriteM(own.value, modules));
    }
  }

  lemma DedupedCarries(e: Expr, r: Expr, words: set<Symbol>)
    requires Deduped(e, r) && Covers(words, e)
    ensures Mentions(r) <= Mentions(e) + {SymYes, SymMod, SymNo}
    ensures forall s: Symbol | s.Config? && Firm(e, s, words) :: Firm(r, s, words) || r == Sym(SymNo)
  {
    forall s: Symbol | s.Config? && Firm(e, s, words) ensures Firm(r, s, words) || r == Sym(SymNo) {
      assert FirmIn(e, s, words);
    }
  }

  /** The four steps menu_finalize takes to pass a dependency on: rewrite_m, expr_transform, the
      conjunction with a copy of the parent's, expr_eliminate_dups. */
  method PassOn(d: OptExpr, own: OptExpr, modules: Symbol, ghost words: set<Symbol>) returns (r: OptExpr)
    requires Complete(words, modules) && Known(d, words) && Known(own, words)
    ensures Joined(r, d, own, modules, words) && Known(r, words)
    ensures TameNots(d) ==> TameNots(r)
    ensures Carried(r, d, own, modules, words)
  {
    r := AllocAnd(d, Rewritten(own, modules));
    RewrittenMeaning(own, modules, words);
    RewrittenMentions(own, modules);
    ghost var joined := r;
    if r.Some? {
      var e := EliminateDups(r.value);
      DedupedCarries(r.value, e, words);
      forall v: Valuation | Sane(v, words) ensures Eval(e, v) == Eval(joined.value, v) {
        SaneIsPlain(joined.value, v, words);
        assert Kept(joined.value, e, v);
      }
      r := Some(e);
    }
  }

  /** expr_trans_bool on the condition of a property whose symbol is not tristate. */
  lemma TransBoolOn(e: Expr, words: set<Symbol>)
    requires NotOverSymbols(e)
    ensures Mentions(TransBool(e)) <= Mentions(e)
    ensures forall v: Valuation | Sane(v, words) ::
      Eval(TransBool(e), v) <= Eval(e, v) && (Eval(TransBool(e), v) == NO <==> Eval(e, v) == NO)
  {
    TransBoolShape(e);
    forall v: Valuation | Sane(v, words)
      ensures Eval(TransBool(e), v) <= Eval(e, v) && (Eval(TransBool(e), v) == NO <==> Eval(e, v) == NO)
    {
      TransBoolKeepsNo(e, v);
    }
  }

  // ----- the superset test -----

  /** Wherever negated operands are y or n: if `e` is above n, so is `base`. */
  ghost predicate Narrower(e: OptExpr, base: OptExpr, words: set<Symbol>) {
    forall v: Valuation | Sane(v, words) && TwoValuedNotsOpt(e, v) && TwoValuedNotsOpt(base, v) ::
      EvalOpt(e, v) != NO ==> EvalOpt(base, v) != NO
  }

  /** `r` says with y and n whether `e` is above n. */
  ghost predicate SaysAboveNo(r: Expr, e: OptExpr, words: set<Symbol>) {
    forall v: Valuation | Sane(v, words) && TwoValuedNotsOpt(e, v) :: Eval(r, v) == OfBool(EvalOpt(e, v) != NO)
  }

  /** `e` compared with n, transformed, and without duplicates. */
  ghost predicate ComparedWithNo(r: Expr, e: OptExpr) { Deduped(Transform(TransCompareOpt(e, Ne, SymNo)), r) }

  /** expr_trans_compare with `!= n`, expr_transform and expr_eliminate_dups. */
  method AboveNo(e: OptExpr, ghost words: set<Symbol>) returns (r: Expr)
    requires Known(e, words) && {SymYes, SymMod, SymNo} <= words
    ensures ComparedWithNo(r, e) && SaysAboveNo(r, e, words)
  {
    var c := TransCompareOpt(e, Ne, SymNo);
    var t := Transform(c);
    r := EliminateDups(t);
    if e.Some? { TransCompareMentions(e.value, Ne, SymNo); }
    TransformMentions(c);
    forall v: Valuation | Sane(v, words) && TwoValuedNotsOpt(e, v) ensures Eval(r, v) == OfBool(EvalOpt(e, v) != NO) {
      if e.Some? { TransCompareMeaning(e.value, Ne, v); }
      TransformMeaning(c, v);
      SaneIsPlain(t, v, words);
      assert Kept(t, r, v);
    }
  }

  /** The "superset, put in submenu" test: sound. */
  lemma SupersetIsNarrower(r: Expr, e: OptExpr, r2: Expr, base: OptExpr, words: set<Symbol>)
    requires SaysAboveNo(r, e, words) && SaysAboveNo(r2, base, words)
    requires IsYesExpr(EliminateEqOpt(Some(r), Some(r2)).1)
    ensures Narrower(e, base, words)
  {
    forall v: Valuation | Sane(v, words) && TwoValuedNotsOpt(e, v) && TwoValuedNotsOpt(base, v)
      ensures EvalOpt(e, v) != NO ==> EvalOpt(base, v) != NO
    {
      SupersetSound(Some(r), Some(r2), v);
    }
  }
}
