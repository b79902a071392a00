/** What conf_parse has in hand when it checks dependencies: the symbols of a finalised menu tree. In them
    a choice without a name is never mentioned barely, and its entries are invisible without it. */
module FinalisedChecks {
  import opened Tristates
  import opened Exprs
  import opened Dups
  import opened SymbolSpec
  import opened MenuTrees
  import opened MenuDeps
  import opened MenuContent
  import opened MenuHomes
  import opened DependencySafety
  import SymbolCheck
  import CheckedEvaluation

  /** The symbols as the check and the evaluator read them off the finalised contents. */
  ghost predicate ReadsOff(d: Decl, c: Content, g: seq<Def>) {
    |g| == |d.syms| == |c.syms| && forall s | 0 <= s < |g| :: ReadOff(d, c, g, s) && ReadRest(d, c, g, s)
  }

  ghost predicate ReadRest(d: Decl, c: Content, g: seq<Def>, s: nat)
    requires s < |g| == |d.syms| == |c.syms|
  {
    && g[s].typ == d.syms[s].typ && DefOk(g, g[s]) && g[s].revDep == c.syms[s].revDep && g[s].implied == c.syms[s].implied
    && (forall i | 0 <= i < |d.sym| && d.sym[i] == Some(s) :: PromptRead(d, c, g[s].prompts, i))
    && (forall f <- g[s].defaults :: Silent(d, Some(f.value)))
    && (g[s].kind.Choice? <==> d.syms[s].isChoice)
    && (g[s].kind.Choice? ==> g[s].kind.values == c.syms[s].values && forall p <- g[s].kind.picks :: OptOk(g, p.cond) && IsCondition(d, c, s, p.cond))
    && forall x: nat :: g[s].kind == ChoiceValue(x) <==> Listed(d, c, x, s)
  }

  predicate PromptRead(d: Decl, c: Content, prompts: seq<OptExpr>, i: nat) {
    i < |d.prompt| && d.prompt[i].Some? ==> d.prompt[i].value < |c.vis| && c.vis[d.prompt[i].value] in prompts
  }

  // ----- no bare mentions -----

  /** Every node of the declarations hangs in the tree. */
  ghost predicate InTree(d: Decl, m: nat, ids: seq<nat>) { forall i | 0 <= i < |d.sym| :: i == m || i in ids }

  ghost predicate Final(d: Decl, words: set<Symbol>, c: Content, m: nat, kids: Forest, g: seq<Def>) {
    && DeclOk(d) && Fits(d, c, words) && Tied(d, c, Tree(m, kids)) && d.home[m].None? && InTree(d, m, Pre(kids))
    && ReadsOff(d, c, g)
  }

  /** What an entry says is among the mentions of its symbol. */
  lemma SaysIsUse(d: Decl, words: set<Symbol>, c: Content, m: nat, kids: Forest, g: seq<Def>, i: nat, s: nat)
    requires Final(d, words, c, m, kids, g) && Says(d, c, i, s)
    ensures d.sym[i].value < |g| && s in SymbolCheck.Uses(g, d.sym[i].value)
  {
    assert NodeOk(d, i);
    var r := d.sym[i].value;
    assert ReadOff(d, c, g, r) && ReadRest(d, c, g, r) && PromptRead(d, c, g[r].prompts, i);
    SymbolCheck.PropertiesChecked(g[r]);
    if Speaks(d, c.syms[r].dirDep, s) {
      SpokenIsUse(d, g, r, g[r].dirDep, s);
    } else {
      SpokenIsUse(d, g, r, c.vis[d.prompt[i].value], s);
    }
  }

  lemma SpokenIsUse(d: Decl, g: seq<Def>, r: nat, e: OptExpr, s: nat)
    requires r < |g| && Speaks(d, e, s) && e.value in SymbolCheck.CheckedExprs(g[r])
    ensures s in SymbolCheck.Uses(g, r)
  {
    assert MenuContent.SymOf(d, s) in Mentions(e.value);
  }

  /** An entry whose dependency mentions its choice is a value of it or leads to one. */
  lemma EntryLeads(d: Decl, words: set<Symbol>, c: Content, m: nat, kids: Forest, g: seq<Def>, x: nat, k: nat) returns (w: seq<nat>)
    requires Final(d, words, c, m, kids, g) && x in d.closed && Rooted(d, c, x, k)
    ensures x < |g| && g[x].kind.Choice? && w != [] && w[0] == d.sym[k].value && SymbolCheck.Walk(g, w)
    ensures w[|w| - 1] in g[x].kind.values
  {
    assert k in Pre(kids) && Hung(d, c, x, Pre(kids), []);
    var q :| Leading(d, c, x, Pre(kids), [], k, q);
    forall j | 0 <= j < |q| ensures q[j] < |d.sym| && d.sym[q[j]].Some? {
      if j < |q| - 1 { assert Tells(d, c, x, q[j], q[j + 1]); }
    }
    w := seq(|q|, j requires 0 <= j < |q| && q[j] < |d.sym| && d.sym[q[j]].Some? => d.sym[q[j]].value);
    forall j | 0 <= j < |w| - 1 ensures w[j] < |g| && w[j + 1] in SymbolCheck.Uses(g, w[j]) {
      assert Tells(d, c, x, q[j], q[j + 1]);
      SaysIsUse(d, words, c, m, kids, g, q[j], w[j + 1]);
    }
    assert ReadRest(d, c, g, x);
  }

  /** Expression `e` of symbol `s` mentions the closed choice `x`. */
  lemma VoicedLeads(d: Decl, words: set<Symbol>, c: Content, m: nat, kids: Forest, g: seq<Def>, s: nat, e: OptExpr, x: nat)
    requires Final(d, words, c, m, kids, g) && x in d.closed && s < |g| && g[s].kind != ChoiceValue(x)
    requires e.Some? && e.value in SymbolCheck.CheckedExprs(g[s]) && Voiced(d, c, s, e, x)
    ensures SymbolCheck.Leads(g, s, x)
  {
    var k: nat :| VoicedBy(d, c, s, e, x, k);
    if d.sym[k].value == s {
      OwnLeads(d, words, c, m, kids, g, x, k);
    } else {
      SpokenIsUse(d, g, s, e, d.sym[k].value);
      OtherLeads(d, words, c, m, kids, g, s, x, k);
    }
  }

  lemma OwnLeads(d: Decl, words: set<Symbol>, c: Content, m: nat, kids: Forest, g: seq<Def>, x: nat, k: nat)
    requires Final(d, words, c, m, kids, g) && x in d.closed && Rooted(d, c, x, k)
    requires d.sym[k].value < |g| && g[d.sym[k].value].kind != ChoiceValue(x)
    ensures SymbolCheck.Leads(g, d.sym[k].value, x)
  {
    var w := EntryLeads(d, words, c, m, kids, g, x, k);
    assert ReadRest(d, c, g, d.sym[k].value) && ReadRest(d, c, g, x);
    assert |w| == 1 ==> Listed(d, c, x, d.sym[k].value);
  }

  lemma OtherLeads(d: Decl, words: set<Symbol>, c: Content, m: nat, kids: Forest, g: seq<Def>, s: nat, x: nat, k: nat)
    requires Final(d, words, c, m, kids, g) && x in d.closed && s < |g| && Rooted(d, c, x, k) && d.sym[k].value in SymbolCheck.Uses(g, s)
    ensures SymbolCheck.Leads(g, s, x)
  {
    var w := EntryLeads(d, words, c, m, kids, g, x, k);
    LeadsBy(g, s, x, w);
  }

  lemma LeadsBy(g: seq<Def>, s: nat, x: nat, w: seq<nat>)
    requires x < |g| && g[x].kind.Choice? && s < |g| && w != [] && SymbolCheck.Walk(g, w) && w[0] in SymbolCheck.Uses(g, s)
    requires w[|w| - 1] in g[x].kind.values
    ensures SymbolCheck.Leads(g, s, x)
  {
    LongerWalk(g, s, w);
    assert ([s] + w)[|w|] == w[|w| - 1];
  }

  lemma LongerWalk(g: seq<Def>, s: nat, w: seq<nat>)
    requires s < |g| && w != [] && SymbolCheck.Walk(g, w) && w[0] in SymbolCheck.Uses(g, s)
    ensures SymbolCheck.Walk(g, [s] + w)
  {
    var p := [s] + w;
    forall j | 0 <= j < |p| - 1 ensures p[j] < |g| && p[j + 1] in SymbolCheck.Uses(g, p[j]) {
      if j > 0 { assert p[j] == w[j - 1] && p[j + 1] == w[j]; }
    }
  }

  /** A mention in the condition of a property comes through the node the property was written at. */
  lemma ConditionVoiced(d: Decl, words: set<Symbol>, c: Content, s: nat, e: OptExpr, x: nat)
    requires DeclOk(d) && Fits(d, c, words) && s < |d.syms| && IsCondition(d, c, s, e) && x in d.closed && Speaks(d, e, x)
    ensures Voiced(d, c, s, e, x)
  {
    var p :| p in d.syms[s].props && p < |c.vis| && c.vis[p] == e;
    assert SymOk(d, s) && OwnedBy(d, p, s) && VisHoused(d, c, p);
    var k := d.props[p].menu;
    assert DepHoused(d, c, k);
    assert VoicedBy(d, c, s, e, x, k);
  }

  lemma MentionVoiced(d: Decl, words: set<Symbol>, c: Content, g: seq<Def>, s: nat, e: OptExpr, x: nat)
    requires DeclOk(d) && Fits(d, c, words) && ReadsOff(d, c, g) && s < |g| && x in d.closed && Speaks(d, e, x)
    requires e.value in SymbolCheck.CheckedExprs(g[s])
    ensures Voiced(d, c, s, e, x)
  {
    assert ReadOff(d, c, g, s) && ReadRest(d, c, g, s) && SymHoused(d, c, s);
    CheckedSources(g[s], e.value);
    if IsCondition(d, c, s, e) {
      ConditionVoiced(d, words, c, s, e, x);
    } else {
      assert forall f <- g[s].defaults :: Silent(d, Some(f.value));
    }
  }

  /** Where the expressions the check walks come from. */
  lemma CheckedSources(f: Def, e: Expr)
    requires e in SymbolCheck.CheckedExprs(f)
    ensures || f.dirDep == Some(e) || f.revDep == Some(e) || f.implied == Some(e) || Some(e) in f.prompts
            || (f.kind.Choice? && exists p <- f.kind.picks :: p.cond == Some(e))
            || (exists b <- f.defaults :: b.cond == Some(e) || b.value == e)
  {
    PromptSources(f.prompts, e);
    if f.kind.Choice? { PickSources(f.kind.picks, e); } else { DefaultSources(f.defaults, e); }
  }

  lemma {:induction false} PromptSources(ps: seq<OptExpr>, e: Expr)
    ensures e in SymbolCheck.PromptExprs(ps) ==> Some(e) in ps
  {
    if ps != [] { PromptSources(ps[1..], e); }
  }

  lemma {:induction false} PickSources(ps: seq<ChoiceDefault>, e: Expr)
    ensures e in SymbolCheck.PickExprs(ps) ==> exists p <- ps :: p.cond == Some(e)
  {
    if ps != [] {
      PickSources(ps[1..], e);
      assert ps[0] in ps;
    }
  }

  lemma {:induction false} DefaultSources(ds: seq<Default>, e: Expr)
    ensures e in SymbolCheck.DefaultExprs(ds) ==> exists b <- ds :: b.cond == Some(e) || b.value == e
  {
    if ds != [] {
      DefaultSources(ds[1..], e);
      assert ds[0] in ds;
    }
  }

  /** After menu_finalize no mention of a choice without a name is bare. */
  lemma FinalisedNotBare(d: Decl, words: set<Symbol>, c: Content, m: nat, kids: Forest, g: seq<Def>, s: nat, x: nat)
    requires Final(d, words, c, m, kids, g) && x in d.closed && s < |g| && x in SymbolCheck.Uses(g, s)
    ensures !SymbolCheck.Bare(g, s, x)
  {
    var e, y :| e in SymbolCheck.CheckedExprs(g[s]) && y in Mentions(e) && y.Config? && y.id == x;
    if g[s].kind != ChoiceValue(x) {
      assert ReadRest(d, c, g, s);
      CheckedSources(g[s], e);
      assert ExprOk(g, e);
      assert ReadRest(d, c, g, x);
      assert Speaks(d, Some(e), x);
      MentionVoiced(d, words, c, g, s, Some(e), x);
      VoicedLeads(d, words, c, m, kids, g, s, Some(e), x);
    }
  }

  /** If no choice has a name, the check is exact on what menu_finalize leaves. */
  lemma FinalisedIsCovered(d: Decl, words: set<Symbol>, c: Content, m: nat, kids: Forest, g: seq<Def>)
    requires Final(d, words, c, m, kids, g) && forall x | 0 <= x < |d.syms| && d.syms[x].isChoice :: x in d.closed
    ensures SymbolCheck.Covered(g)
  {
    forall s | 0 <= s < |g|, x <- SymbolCheck.Uses(g, s) ensures !SymbolCheck.Bare(g, s, x) {
      if SymbolCheck.Bare(g, s, x) {
        assert ReadRest(d, c, g, x);
        FinalisedNotBare(d, words, c, m, kids, g, s, x);
      }
    }
    forall s | 0 <= s < |g| ensures forall x <- SymbolCheck.Uses(g, s) :: !SymbolCheck.Bare(g, s, x) {
    }
  }

  /** conf_parse from menu_finalize on: on finalised symbols the check reports exactly the cycles, and if there
      are none, all values are those of the one solution, whatever the order they are asked for in. */
  method CheckFinalised(S: Setup, walk: seq<seq<Expr>>, calls: seq<nat>, ghost d: Decl, ghost words: set<Symbol>, ghost c: Content, ghost m: nat, ghost kids: Forest)
    returns (bad: Option<nat>, values: seq<Tri>)
    requires WellFormed(S) && SymbolCheck.Linked(S.g) && SymbolCheck.Walks(S.g, walk)
    requires forall k | 0 <= k < |calls| :: calls[k] < |S.g|
    requires Final(d, words, c, m, kids, S.g) && forall x | 0 <= x < |d.syms| && d.syms[x].isChoice :: x in d.closed
    ensures bad.Some? <==> exists p :: SymbolCheck.Cycle(S.g, p)
    ensures bad.None? ==> exists t: Table :: IsSolution(S, t)
    ensures bad.None? ==> |values| == |calls| && forall k | 0 <= k < |calls| :: CheckedEvaluation.Forced(S, calls[k], values[k])
  {
    FinalisedIsCovered(d, words, c, m, kids, S.g);
    bad, values := CheckedEvaluation.CheckThenCalc(S, walk, calls);
  }

  // ----- entries are invisible without their choice -----

  /** What was handed down to entries of `x` came through `x`. */
  lemma {:induction false} EntriesBelow(d: Decl, words: set<Symbol>, c0: Content, c: Content, pd: OptExpr, f: Forest, h: Option<nat>, x: nat, v: Valuation)
    requires DeclOk(d) && |d.sym| == |c0.dep| == |c.dep| && |c.syms| == |d.syms| && x in d.closed && Sane(v, words)
    requires Handed(d, words, c0, c, pd, f) && Parsed(d, f) && AtHome(d, f, h)
    requires h == Some(x) ==> EvalOpt(pd, v) <= TriValue(v, MenuContent.SymOf(d, x))
    ensures forall i <- Pre(f) | i < |d.sym| && d.home[i] == Some(x) :: EvalOpt(c.dep[i], v) <= TriValue(v, MenuContent.SymOf(d, x))
    decreases f
  {
    forall i <- Pre(f) | i < |d.sym| && d.home[i] == Some(x) ensures EvalOpt(c.dep[i], v) <= TriValue(v, MenuContent.SymOf(d, x)) {
      var t := InForest(f, i);
      assert HandedAt(d, words, c0, c, pd, t.id) && EntriesOk(d, t);
      if i != t.id {
        EntriesBelow(d, words, c0, c, ParentDep(d, c, t.id), t.kids, HomeBelow(d, t.id), x, v);
      }
    }
  }

  /** No numeral among the words is equal to y, m or n by value. */
  ghost predicate NoNumerals(words: set<Symbol>, base: Valuation) {
    WordsAreNotNumbers(base) && forall k <- words :: Unequalled(base, k)
  }

  lemma SaneLike(words: set<Symbol>, base: Valuation, v: Valuation)
    requires NoNumerals(words, base) && Typed(v) && v.number == base.number
    ensures Sane(v, words)
  {
    forall k <- words ensures Unequalled(v, k) {
      assert Unequalled(base, k);
      assert forall t: Tri :: Matches(v, t, k) == Matches(base, t, k);
    }
  }

  /** The prompts of the values of a choice without a name are n whenever the choice is. */
  lemma FinalisedIsGuarded(d: Decl, words: set<Symbol>, c0: Content, c: Content, m: nat, kids: Forest, g: seq<Def>, base: Valuation,
                           s: nat, x: nat, p: OptExpr)
    requires DeclOk(d) && Fits(d, c, words) && |c0.dep| == |d.sym| && m < |d.sym| && d.home[m].None? && InTree(d, m, Pre(kids))
    requires Handed(d, words, c0, c, ParentDep(d, c, m), kids) && Parsed(d, [Tree(m, kids)])
    requires forall i | 0 <= i < |d.sym| :: SettledAt(d, words, c, i)
    requires ReadsOff(d, c, g) && NoNumerals(words, base) && s < |g| && x in d.closed && g[s].kind == ChoiceValue(x) && p in g[s].prompts
    ensures Guarded(p, MenuContent.SymOf(d, x), base)
  {
    assert ReadOff(d, c, g, s) && ReadRest(d, c, g, s) && IsCondition(d, c, s, p) && ListHoused(d, c, x);
    var r :| r in d.syms[s].props && r < |c.vis| && c.vis[r] == p;
    assert SymOk(d, s) && OwnedBy(d, r, s);
    SameHome(d, s, x, d.props[r].menu);
    assert SettledAt(d, words, c, d.props[r].menu);
    EntryGuarded(d, words, c0, c, m, kids, base, x, r);
  }

  lemma EntryGuarded(d: Decl, words: set<Symbol>, c0: Content, c: Content, m: nat, kids: Forest, base: Valuation, x: nat, r: nat)
    requires DeclOk(d) && |c0.dep| == |c.dep| == |d.sym| && |c.syms| == |d.syms| && r < |c.vis| == |d.props|
    requires m < |d.sym| && d.home[m].None? && InTree(d, m, Pre(kids))
    requires Handed(d, words, c0, c, ParentDep(d, c, m), kids) && Parsed(d, [Tree(m, kids)]) && NoNumerals(words, base)
    requires d.props[r].menu < |d.sym| && GuardedAt(d, words, c, d.props[r].menu)
    requires x in d.closed && d.home[d.props[r].menu] == Some(x)
    ensures Guarded(c.vis[r], MenuContent.SymOf(d, x), base)
  {
    var i := d.props[r].menu;
    assert Tree(m, kids) in [Tree(m, kids)] && EntriesOk(d, Tree(m, kids));
    forall v: Valuation | Typed(v) && v.number == base.number && TriValue(v, MenuContent.SymOf(d, x)) == NO ensures EvalOpt(c.vis[r], v) == NO {
      SaneLike(words, base, v);
      EntriesBelow(d, words, c0, c, ParentDep(d, c, m), kids, HomeBelow(d, m), x, v);
      UnderNo(d, words, c, i, r, v);
    }
    NothingOn(base, MenuContent.SymOf(d, x), c.vis[r]);
  }

  lemma NothingOn(base: Valuation, c: Symbol, p: OptExpr)
    requires WordsAreNotNumbers(base) && c.Config?
    requires forall v: Valuation | Typed(v) && v.number == base.number && TriValue(v, c) == NO :: EvalOpt(p, v) == NO
    ensures p.Some?
  {
    var none := base.(tri := (y: Symbol) => NO);
    assert Typed(none) && TriValue(none, c) == NO;
  }

  lemma UnderNo(d: Decl, words: set<Symbol>, c: Content, i: nat, r: nat, v: Valuation)
    requires i < |d.sym| == |c.dep| && r < |c.vis| == |d.props| && d.props[r].menu == i && GuardedAt(d, words, c, i)
    requires Sane(v, words) && EvalOpt(c.dep[i], v) == NO
    ensures EvalOpt(c.vis[r], v) == NO
  {
    assert Under(c.vis[r], c.dep[i], words);
  }

  lemma SameHome(d: Decl, s: nat, x: nat, i: nat)
    requires DeclOk(d) && EntrySymbol(d, s, x) && i < |d.sym| && d.sym[i] == Some(s)
    ensures d.home[i] == Some(x)
  {
    var j :| 0 <= j < |d.sym| && d.sym[j] == Some(s) && EntryOf(d, j, Some(x));
    assert HomeOk(d, j);
  }
}
