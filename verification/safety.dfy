/** Dependency safety: what menu_finalize leaves behind keeps the evaluator from raising a symbol
    whose dependency is n. */
module DependencySafety {
  import opened Tristates
  import opened Exprs
  import opened SymbolSpec
  import opened SymbolLaws
  import opened Dups
  import opened MenuTrees
  import opened MenuDeps
  import opened MenuContent

  /** Nothing a symbol can draw a value from is above n where `dep` is n, and `dep` is its direct
      dependency; a choice value never looks at its direct dependency. */
  ghost predicate DefinedUnder(S: Setup, s: nat, dep: Expr, words: set<Symbol>)
    requires s < |S.g|
  {
    && (S.g[s].kind.ChoiceValue? || S.g[s].dirDep == Some(dep))
    && (forall p <- S.g[s].prompts :: Under(p, Some(dep), words))
    && (forall f <- S.g[s].defaults :: Under(f.cond, Some(dep), words))
  }

  lemma {:induction false} UnderInvisible(S: Setup, s: nat, ps: seq<OptExpr>, dep: Expr, words: set<Symbol>, v: Valuation)
    requires s < |S.g| && (S.g[s].kind.ChoiceValue? ==> S.g[s].kind.choice < |S.g|)
    requires Sane(v, words) && Eval(dep, v) == NO && forall p <- ps :: Under(p, Some(dep), words)
    ensures OrPrompts(S, s, ps, v) == NO
  {
    if ps != [] {
      assert ps[|ps| - 1] in ps && EvalOpt(Some(dep), v) == NO;
      UnderInvisible(S, s, ps[..|ps| - 1], dep, words, v);
    }
  }

  lemma {:induction false} UnderNoDefault(ds: seq<Default>, dep: Expr, words: set<Symbol>, v: Valuation)
    requires Sane(v, words) && Eval(dep, v) == NO && forall f <- ds :: Under(f.cond, Some(dep), words)
    ensures FirstDefault(ds, v).None?
  {
    if ds != [] {
      assert ds[0] in ds && EvalOpt(Some(dep), v) == NO;
      UnderNoDefault(ds[1..], dep, words, v);
    }
  }

  /** A symbol is above n only if its dependency is, whatever selects or implies it. */
  lemma DependencySafe(S: Setup, t: Table, s: nat, dep: Expr, words: set<Symbol>)
    requires IsSolution(S, t) && Sane(Val(S, t), words)
    requires s < |S.g| && s != S.modules && DefinedUnder(S, s, dep, words)
    ensures t[s].tri != NO ==> Eval(dep, Val(S, t)) != NO
  {
    var v := Val(S, t);
    assert KindOk(S, s) && t[s] == Local(S, s, t);
    if Eval(dep, v) == NO && S.g[s].typ != UnknownType {
      UnderInvisible(S, s, S.g[s].prompts, dep, words, v);
      UnderNoDefault(S.g[s].defaults, dep, words, v);
      assert Visible(S, s, v) == NO;
    }
  }

  ghost predicate IsCondition(d: Decl, c: Content, s: nat, e: OptExpr)
    requires s < |d.syms|
  {
    exists p <- d.syms[s].props :: p < |c.vis| && c.vis[p] == e
  }

  /** The evaluator reads symbol `s` off the finalised contents. */
  ghost predicate ReadOff(d: Decl, c: Content, g: seq<Def>, s: nat)
    requires s < |d.syms| == |c.syms| && s < |g|
  {
    && g[s].dirDep == c.syms[s].dirDep && (c.syms[s].choiceVal ==> g[s].kind.ChoiceValue?)
    && (forall e <- g[s].prompts :: IsCondition(d, c, s, e))
    && (forall f <- g[s].defaults :: IsCondition(d, c, s, f.cond))
  }

  lemma ConditionsUnder(d: Decl, words: set<Symbol>, c: Content, i: nat, s: nat, e: OptExpr)
    requires DeclOk(d) && Fits(d, c, words) && SettledAt(d, words, c, i) && Sole(d, i) && d.sym[i] == Some(s)
    requires IsCondition(d, c, s, e)
    ensures Under(e, c.dep[i], words)
  {
    var p :| p in d.syms[s].props && p < |c.vis| && c.vis[p] == e;
    assert SymOk(d, s) && OwnedBy(d, p, s);
  }

  /** After menu_finalize, in every evaluated configuration, a config symbol defined at one place is
      above n only if the dependency of its menu node is. */
  lemma FinalisedIsSafe(d: Decl, words: set<Symbol>, c: Content, i: nat, S: Setup, t: Table, s: nat)
    requires DeclOk(d) && Fits(d, c, words) && SettledAt(d, words, c, i) && Sole(d, i) && d.sym[i] == Some(s)
    requires s < |S.g| && ReadOff(d, c, S.g, s)
    requires IsSolution(S, t) && Sane(Val(S, t), words) && s != S.modules
    ensures t[s].tri != NO ==> EvalOpt(c.dep[i], Val(S, t)) != NO
  {
    if c.dep[i].Some? {
      forall e <- S.g[s].prompts ensures Under(e, c.dep[i], words) { ConditionsUnder(d, words, c, i, s, e); }
      forall f <- S.g[s].defaults ensures Under(f.cond, c.dep[i], words) { ConditionsUnder(d, words, c, i, s, f.cond); }
      DependencySafe(S, t, s, c.dep[i].value, words);
    }
  }

  /** A reverse dependency raises a symbol whose own dependency is not n. */
  lemma SelectedIsRaised(S: Setup, t: Table, s: nat)
    requires IsSolution(S, t) && s < |S.g| && s != S.modules && S.g[s].kind.Plain? && S.g[s].typ != UnknownType && t[s].dir != NO
    ensures RevTri(S.g[s].revDep, Val(S, t)) <= t[s].tri
  {
    assert t[s] == Local(S, s, t);
  }

  /** After menu_finalize, in every evaluated configuration, a select lifts its target to at least the value of
      the selecting symbol, as far as its condition allows, unless the dependency of the target is n. */
  lemma FinalisedSelects(d: Decl, words: set<Symbol>, c: Content, i: nat, p: nat, r: nat, S: Setup, t: Table, s: nat)
    requires DeclOk(d) && Fits(d, c, words) && SettledAt(d, words, c, i) && d.sym[i] == Some(r) && r < |d.syms|
    requires p < |d.props| && d.props[p].menu == i && d.props[p].kind == Select(s)
    requires s < |S.g| && s < |c.syms| && S.g[s].revDep == c.syms[s].revDep
    requires IsSolution(S, t) && Sane(Val(S, t), words) && s != S.modules && S.g[s].kind.Plain? && S.g[s].typ != UnknownType
    ensures t[s].dir != NO ==> TriAnd(TriValue(Val(S, t), MenuContent.SymOf(d, r)), EvalOpt(c.vis[p], Val(S, t))) <= t[s].tri
  {
    assert Fed(d, words, c, i, p);
    if t[s].dir != NO { SelectedIsRaised(S, t, s); }
  }

  /** Before menu_finalize nothing depends on anything, and symbol `s` is no choice value after it. */
  ghost predicate Collected(d: Decl, c0: Content, c: Content, nodes: seq<nat>, owners: seq<nat>, s: nat) {
    && Lifted(d, c0, c, nodes, owners) && s < |d.syms| && !c.syms[s].choiceVal
    && c0.syms[s].dirDep.None? && c0.syms[s].revDep.None? && c0.syms[s].implied.None?
  }

  /** After menu_finalize a reverse dependency is worth no more than the highest of what selects the symbol, each under
      its condition, and of m under the condition of a prompt of a choice that is not optional. */
  lemma FinalisedAtMost(d: Decl, c0: Content, c: Content, nodes: seq<nat>, owners: seq<nat>, s: nat, v: Valuation, x: Tri)
    requires Collected(d, c0, c, nodes, owners, s)
    ensures AtMost(d, c, nodes, owners, Select(s), v, x) ==> RevTri(c.syms[s].revDep, v) <= x
    ensures AtMost(d, c, nodes, owners, Imply(s), v, x) ==> RevTri(c.syms[s].implied, v) <= x
    ensures DepsAtMost(d, c, owners, s, v, x) ==> RevTri(c.syms[s].dirDep, v) <= x
  {
    assert LiftedAt(d, c0, c, nodes, owners, s);
  }

  /** A symbol defined at several places depends on the highest of their dependencies. */
  lemma FinalisedDir(d: Decl, words: set<Symbol>, c0: Content, c: Content, nodes: seq<nat>, owners: seq<nat>, s: nat, v: Valuation, x: Tri)
    requires Collected(d, c0, c, nodes, owners, s) && Fits(d, c, words) && !d.syms[s].isChoice
    requires forall i <- owners :: SettledAt(d, words, c, i)
    ensures RevTri(c.syms[s].dirDep, v) <= x <==> DepsAtMost(d, c, owners, s, v, x)
  {
    FinalisedAtMost(d, c0, c, nodes, owners, s, v, x);
    forall i <- owners ensures NodeDep(d, c, i, s, v) <= RevTri(c.syms[s].dirDep, v) {
      assert DirFed(d, c, i);
      if d.sym[i] == Some(s) { assert Raised(c.dep[i], c.syms[s].dirDep); }
    }
  }

  /** No property of the kind gives anything, a select or an imply of `s`. */
  ghost predicate Ungiven(d: Decl, c: Content, kind: PropKind, v: Valuation)
    requires |c.vis| == |d.props| && |c.syms| == |d.syms|
  {
    forall p | 0 <= p < |d.props| && d.props[p].kind == kind :: Given(d, c, p, v) == NO
  }

  /** The prompts of `s` are not shown. */
  ghost predicate Unshown(d: Decl, c: Content, s: nat, v: Valuation) {
    forall i | 0 <= i < |d.sym| && i < |d.prompt| && d.sym[i] == Some(s) && d.prompt[i].Some? :: PromptNo(d, c, i, v)
  }

  predicate PromptNo(d: Decl, c: Content, i: nat, v: Valuation)
    requires i < |d.prompt| && d.prompt[i].Some?
  {
    d.prompt[i].value < |c.vis| && EvalOpt(c.vis[d.prompt[i].value], v) == NO
  }

  /** What comes from nothing raises nothing: if all selects of `s` are n, and it is no choice with a minimum or none of
      its prompts is shown, its reverse dependency is n. */
  lemma FinalisedUnraised(d: Decl, c0: Content, c: Content, nodes: seq<nat>, owners: seq<nat>, S: Setup, t: Table, s: nat)
    requires Collected(d, c0, c, nodes, owners, s) && s < |S.g| && S.g[s].revDep == c.syms[s].revDep
    requires IsSolution(S, t) && s != S.modules
    requires Ungiven(d, c, Select(s), Val(S, t)) && (d.syms[s].optional || Unshown(d, c, s, Val(S, t)))
    ensures t[s].rev == NO
  {
    var v := Val(S, t);
    forall i <- owners ensures Least(d, c, i, s, v) <= NO {
      if i < |d.sym| && i < |d.prompt| && d.sym[i] == Some(s) && d.prompt[i].Some? && !d.syms[s].optional { assert PromptNo(d, c, i, v); }
    }
    FinalisedAtMost(d, c0, c, nodes, owners, s, v, NO);
    assert t[s] == Local(S, s, t);
  }

  /** The same for implies. */
  lemma FinalisedUnimplied(d: Decl, c0: Content, c: Content, nodes: seq<nat>, owners: seq<nat>, S: Setup, t: Table, s: nat)
    requires Collected(d, c0, c, nodes, owners, s) && s < |S.g| && S.g[s].implied == c.syms[s].implied
    requires IsSolution(S, t) && s != S.modules && Ungiven(d, c, Imply(s), Val(S, t))
    ensures t[s].imp == NO
  {
    FinalisedAtMost(d, c0, c, nodes, owners, s, Val(S, t), NO);
    assert t[s] == Local(S, s, t);
  }

  /** A choice that is not shown and that nothing selects is n, and so are its values. */
  lemma FinalisedHidden(d: Decl, c0: Content, c: Content, nodes: seq<nat>, owners: seq<nat>, S: Setup, t: Table, s: nat)
    requires Collected(d, c0, c, nodes, owners, s) && s < |S.g| && S.g[s].revDep == c.syms[s].revDep
    requires IsSolution(S, t) && s != S.modules && BoolChoice(S, s)
    requires Ungiven(d, c, Select(s), Val(S, t)) && Unshown(d, c, s, Val(S, t))
    requires forall e <- S.g[s].prompts :: EvalOpt(e, Val(S, t)) == NO
    ensures t[s].tri == NO && forall i <- S.g[s].kind.values :: t[i].tri == NO
  {
    FinalisedUnraised(d, c0, c, nodes, owners, S, t, s);
    NoneShown(S, s, S.g[s].prompts, Val(S, t));
    assert KindOk(S, s) && t[s] == Local(S, s, t);
    ChoiceExclusive(S, t, s);
  }

  lemma {:induction false} NoneShown(S: Setup, s: nat, ps: seq<OptExpr>, v: Valuation)
    requires s < |S.g| && (S.g[s].kind.ChoiceValue? ==> S.g[s].kind.choice < |S.g|) && forall e <- ps :: EvalOpt(e, v) == NO
    ensures OrPrompts(S, s, ps, v) == NO
  {
    if ps != [] {
      assert ps[|ps| - 1] in ps;
      NoneShown(S, s, ps[..|ps| - 1], v);
    }
  }
}
