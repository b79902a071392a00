/** What the bool and tristate symbols of one configuration should be worth: the plain recursion
    of scripts/config/symbol.c, without the SYMBOL_VALID cache. */
module SymbolSpec {
  import opened Tristates
  import opened Exprs

  datatype Default = Default(value: Expr, cond: OptExpr)

  /** A default of a choice names one of its values. */
  datatype ChoiceDefault = ChoiceDefault(target: nat, cond: OptExpr)

  datatype Kind =
    | Plain
    | ChoiceValue(choice: nat)
    | Choice(values: seq<nat>, picks: seq<ChoiceDefault>)

  /** The part of struct symbol that evaluation only reads. */
  datatype Def = Def(
    typ: SymType,
    kind: Kind,
    prompts: seq<OptExpr>,
    defaults: seq<Default>,
    dirDep: OptExpr,
    revDep: OptExpr,
    implied: OptExpr)

  /** def[S_DEF_USER] and its flag; `pick` is the chosen value of a choice. */
  datatype User = User(has: bool, tri: Tri, pick: Option<nat>)

  /** Everything a symbol's value is computed from. `base` supplies texts and numerals. Symbol `modules`
      stands for the cell modules_val, an input that is worth `modulesVal`; MODULES itself is a symbol like any
      other. */
  datatype Setup = Setup(g: seq<Def>, users: seq<User>, modules: nat, modulesVal: Tri, base: Valuation)

  /** The computed fields of struct symbol. The SYMBOL_WRITE flag of a choice value is not part of
      its own computation (its choice sets it), so `write` stays false for one. */
  datatype Info = Info(tri: Tri, pick: Option<nat>, visible: Tri, dir: Tri, rev: Tri, imp: Tri, write: bool)

  type Table = seq<Info>

  function SymOf(S: Setup, s: nat): Symbol
    requires s < |S.g|
  {
    Config(s, S.g[s].typ)
  }

  function ValOf(g: seq<Def>, base: Valuation, modulesVal: Tri, t: Table): Valuation {
    base.(tri := (x: Symbol) => if x.Config? && x.id < |t| && x.id < |g| && x.typ == g[x.id].typ then t[x.id].tri else NO,
          modules := modulesVal != NO)
  }

  /** The values of table `t` as an assignment. */
  function Val(S: Setup, t: Table): Valuation {
    ValOf(S.g, S.base, S.modulesVal, t)
  }

  /** The values while a choice `c` in mode y is looking for its default. */
  function ValYes(S: Setup, t: Table, c: nat): Valuation
    requires c < |t|
  {
    Val(S, t[c := t[c].(tri := YES)])
  }

  // ----- sym_calc_visibility -----

  /** One prompt; the m of a tristate choice value counts as n while its choice is y. */
  function PromptTri(S: Setup, s: nat, p: OptExpr, v: Valuation): Tri
    requires s < |S.g| && (S.g[s].kind.ChoiceValue? ==> S.g[s].kind.choice < |S.g|)
  {
    var t := EvalOpt(p, v);
    var k := S.g[s].kind;
    if k.ChoiceValue? && S.g[s].typ == TristateType && t == MOD && v.tri(SymOf(S, k.choice)) == YES then NO else t
  }

  function OrPrompts(S: Setup, s: nat, ps: seq<OptExpr>, v: Valuation): Tri
    requires s < |S.g| && (S.g[s].kind.ChoiceValue? ==> S.g[s].kind.choice < |S.g|)
  {
    if ps == [] then NO
    else TriOr(OrPrompts(S, s, ps[..|ps| - 1], v), PromptTri(S, s, ps[|ps| - 1], v))
  }

  function Visible(S: Setup, s: nat, v: Valuation): Tri
    requires s < |S.g| && (S.g[s].kind.ChoiceValue? ==> S.g[s].kind.choice < |S.g|)
  {
    var t := OrPrompts(S, s, S.g[s].prompts, v);
    if t == MOD && (S.g[s].typ != TristateType || S.modulesVal == NO) then YES else t
  }

  /** sym_get_type. */
  function EffType(S: Setup, s: nat, visible: Tri): SymType
    requires s < |S.g|
  {
    if S.g[s].typ == TristateType && ((S.g[s].kind.ChoiceValue? && visible == YES) || S.modulesVal == NO)
    then BooleanType else S.g[s].typ
  }

  function Promote(S: Setup, s: nat, visible: Tri, t: Tri): Tri
    requires s < |S.g|
  {
    if t == MOD && EffType(S, s, visible) == BooleanType then YES else t
  }

  /** A dependency of a symbol that is not a choice value; `none` is what a missing one stands for. */
  function DepTri(S: Setup, s: nat, visible: Tri, e: OptExpr, none: Tri, v: Valuation): Tri
    requires s < |S.g|
  {
    if S.g[s].kind.ChoiceValue? then NO
    else Promote(S, s, visible, if e.None? then none else Eval(e.value, v))
  }

  // ----- sym_calc_value -----

  /** sym_get_default_prop: the first default whose condition is not n. */
  function FirstDefault(ds: seq<Default>, v: Valuation): Option<Default> {
    if ds == [] then None
    else if EvalOpt(ds[0].cond, v) != NO then Some(ds[0])
    else FirstDefault(ds[1..], v)
  }

  function DefaultTri(d: Default, v: Valuation): Tri { TriAnd(Eval(d.value, v), EvalOpt(d.cond, v)) }

  /** The value before the reverse dependencies are added. */
  function Wanted(S: Setup, s: nat, visible: Tri, dir: Tri, imp: Tri, v: Valuation): Tri
    requires s < |S.g| && s < |S.users|
  {
    if visible != NO && S.users[s].has then TriAnd(S.users[s].tri, visible)
    else if S.g[s].kind.Choice? then NO
    else
      var d := FirstDefault(S.g[s].defaults, v);
      var t := if d.Some? then DefaultTri(d.value, v) else NO;
      if imp != NO then TriAnd(TriOr(t, imp), dir) else t
  }

  /** A select counts only if the dependencies are met. */
  function WithSelects(wanted: Tri, dir: Tri, rev: Tri): Tri {
    if dir == NO && rev != NO then NO else TriOr(wanted, rev)
  }

  function Written(S: Setup, s: nat, visible: Tri, rev: Tri, imp: Tri, v: Valuation): bool
    requires s < |S.g| && s < |S.users|
  {
    || visible != NO
    || rev != NO
    || (!S.g[s].kind.Choice? && (FirstDefault(S.g[s].defaults, v).Some? || imp != NO))
  }

  // ----- sym_calc_choice -----

  function FirstPick(S: Setup, ps: seq<ChoiceDefault>, v: Valuation, w: Valuation): Option<nat>
    requires forall p <- ps :: p.target < |S.g| && (S.g[p.target].kind.ChoiceValue? ==> S.g[p.target].kind.choice < |S.g|)
  {
    if ps == [] then None
    else if EvalOpt(ps[0].cond, v) != NO && Visible(S, ps[0].target, w) != NO then Some(ps[0].target)
    else FirstPick(S, ps[1..], v, w)
  }

  function FirstVisible(S: Setup, vs: seq<nat>, w: Valuation): Option<nat>
    requires forall x <- vs :: x < |S.g| && (S.g[x].kind.ChoiceValue? ==> S.g[x].kind.choice < |S.g|)
  {
    if vs == [] then None
    else
      assert vs[0] in vs;
      if Visible(S, vs[0], w) != NO then Some(vs[0])
    else FirstVisible(S, vs[1..], w)
  }

  /** The value a choice in mode y settles on: the user's if it is visible, else the first
      visible default, else the first visible value. */
  function Pick(S: Setup, c: nat, t: Table): Option<nat>
    requires WellFormed(S) && c < |S.g| == |t| && S.g[c].kind.Choice?
  {
    var v, w := Val(S, t), ValYes(S, t, c);
    var u := S.users[c].pick;
    if u.Some? && Visible(S, u.value, w) != NO then u
    else
      var d := FirstPick(S, S.g[c].kind.picks, v, w);
      if d.Some? then d else FirstVisible(S, S.g[c].kind.values, w)
  }

  // ----- the equation of one symbol -----

  /** The fields of symbol `s` in terms of the values of the symbols it mentions. */
  function Local(S: Setup, s: nat, t: Table): Info
    requires WellFormed(S) && s < |S.g| == |t|
  {
    var d, v := S.g[s], Val(S, t);
    if d.typ == UnknownType then Info(NO, None, NO, NO, NO, NO, false)
    else
      var visible := Visible(S, s, v);
      var dir := DepTri(S, s, visible, d.dirDep, YES, v);
      var rev := DepTri(S, s, visible, d.revDep, NO, v);
      var imp := DepTri(S, s, visible, d.implied, NO, v);
      Settle(S, s, t, visible, dir, rev, imp)
  }

  /** The value, once visibility and dependencies are known. */
  function Settle(S: Setup, s: nat, t: Table, visible: Tri, dir: Tri, rev: Tri, imp: Tri): Info
    requires WellFormed(S) && s < |S.g| == |t|
  {
    var d, v := S.g[s], Val(S, t);
    var write := !d.kind.ChoiceValue? && Written(S, s, visible, rev, imp, v);
    assert KindOk(S, s);
    if d.kind.ChoiceValue? && visible == YES then
      Info(OfBool(t[d.kind.choice].pick == Some(s)), None, visible, dir, rev, imp, false)
    else
      var tri := Promote(S, s, visible, WithSelects(Wanted(S, s, visible, dir, imp, v), dir, rev));
      if d.kind.Choice? && tri == YES then
        var pick := Pick(S, s, t);
        Info(if pick.None? then NO else YES, pick, visible, dir, rev, imp, write)
      else
        Info(tri, None, visible, dir, rev, imp, write)
  }

  // ----- well-formed and ranked graphs -----

  predicate ExprOk(g: seq<Def>, e: Expr) {
    forall x <- Mentions(e) :: x.Config? ==> x.id < |g| && x == Config(x.id, g[x.id].typ)
  }

  predicate OptOk(g: seq<Def>, e: OptExpr) { e.Some? ==> ExprOk(g, e.value) }

  predicate DefOk(g: seq<Def>, d: Def) {
    && (d.typ == BooleanType || d.typ == TristateType || d.typ == UnknownType)
    && (forall p <- d.prompts :: OptOk(g, p))
    && (forall f <- d.defaults :: ExprOk(g, f.value) && OptOk(g, f.cond))
    && OptOk(g, d.dirDep) && OptOk(g, d.revDep) && OptOk(g, d.implied)
  }

  /** A prompt of a choice value is n whenever the choice is n, in every typed assignment that reads
      numerals as `base` does: menu_finalize puts the choice in front of every condition inside it. */
  ghost predicate Guarded(p: OptExpr, c: Symbol, base: Valuation) {
    p.Some? && forall v: Valuation | Typed(v) && v.number == base.number && v.tri(c) == NO :: Eval(p.value, v) == NO
  }

  ghost predicate KindOk(S: Setup, s: nat)
    requires s < |S.g| == |S.users|
  {
    match S.g[s].kind
    case Plain => true
    case ChoiceValue(c) =>
      && c < |S.g| && S.g[c].kind.Choice? && s in S.g[c].kind.values && S.g[c].typ != UnknownType
      && S.g[s].typ != UnknownType
      && (forall p <- S.g[s].prompts :: Guarded(p, SymOf(S, c), S.base))
    case Choice(values, picks) =>
      && S.g[s].defaults == []
      && (forall x <- values :: x < |S.g| && S.g[x].kind == ChoiceValue(s))
      && (forall p <- picks :: p.target in values && OptOk(S.g, p.cond))
      && (S.users[s].pick.Some? ==> S.users[s].pick.value in values)
  }

  ghost predicate WellFormed(S: Setup) {
    && |S.users| == |S.g| && WordsAreNotNumbers(S.base)
    && S.modules < |S.g| && S.g[S.modules].kind.Plain? && S.g[S.modules].typ == BooleanType
    && S.modulesVal != MOD
    && (forall s | 0 <= s < |S.g| :: DefOk(S.g, S.g[s]) && KindOk(S, s))
  }

  /** Without their choice, choice values cannot be seen. */
  lemma {:induction false} GuardedInvisible(S: Setup, i: nat, ps: seq<OptExpr>, v: Valuation)
    requires i < |S.g| && S.g[i].kind.ChoiceValue? && S.g[i].kind.choice < |S.g|
    requires v.tri(SymOf(S, S.g[i].kind.choice)) == NO
    requires forall p <- ps :: Guarded(p, SymOf(S, S.g[i].kind.choice), S.base)
    requires Typed(v) && v.number == S.base.number
    ensures OrPrompts(S, i, ps, v) == NO
  {
    if ps != [] {
      assert ps[|ps| - 1] in ps;
      GuardedInvisible(S, i, ps[..|ps| - 1], v);
    }
  }

  // ----- order -----

  ghost predicate Below(e: OptExpr, rank: seq<nat>, k: nat) {
    e.Some? ==> forall x <- Mentions(e.value) :: x.Config? ==> x.id < |rank| && rank[x.id] < k
  }

  /** Prompts of a choice value may mention the choice, and otherwise only what the choice may. */
  ghost predicate BelowOr(e: OptExpr, rank: seq<nat>, k: nat, c: nat) {
    e.Some? ==> forall x <- Mentions(e.value) :: x.Config? ==> x.id < |rank| && (x.id == c || rank[x.id] < k)
  }

  /** Everything symbol `s` is computed from comes earlier. */
  ghost predicate RankedAt(S: Setup, rank: seq<nat>, s: nat)
    requires s < |S.g| == |rank|
  {
    var d, k := S.g[s], rank[s];
    && (match d.kind
        case ChoiceValue(c) =>
          c < |rank| && rank[c] < k && (forall p <- d.prompts :: BelowOr(p, rank, rank[c], c))
        case _ => forall p <- d.prompts :: Below(p, rank, k))
    && (forall f <- d.defaults :: Below(Some(f.value), rank, k) && Below(f.cond, rank, k))
    && Below(d.dirDep, rank, k) && Below(d.revDep, rank, k) && Below(d.implied, rank, k)
    && (d.kind.Choice? ==> forall p <- d.kind.picks :: Below(p.cond, rank, k))
  }

  /** A numbering that puts every symbol after all it is computed from, the input apart. */
  ghost predicate Ranked(S: Setup, rank: seq<nat>) {
    |rank| == |S.g| && forall s | 0 <= s < |S.g| && s != S.modules :: RankedAt(S, rank, s)
  }

  function ModulesInfo(S: Setup): Info { Info(S.modulesVal, None, NO, NO, NO, NO, false) }

  /** The plain recursion: no cache, every mentioned symbol is computed afresh. */
  ghost function Value(S: Setup, rank: seq<nat>, s: nat): Info
    requires WellFormed(S) && Ranked(S, rank) && s < |S.g|
    decreases rank[s], 1
  {
    if s == S.modules then ModulesInfo(S)
    else Local(S, s, Earlier(S, rank, rank[s]))
  }

  /** The values of the symbols numbered below `k`. */
  ghost function Earlier(S: Setup, rank: seq<nat>, k: nat): (t: Table)
    requires WellFormed(S) && Ranked(S, rank)
    ensures |t| == |S.g|
    ensures forall i | 0 <= i < |t| && rank[i] < k :: t[i] == Value(S, rank, i)
    decreases k, 0
  {
    seq(|S.g|, i requires 0 <= i < |S.g| =>
      if rank[i] < k then Value(S, rank, i) else Info(NO, None, NO, NO, NO, NO, false))
  }

  /** Every symbol except the input has the value its own equation gives. */
  ghost predicate IsSolution(S: Setup, t: Table) {
    && WellFormed(S) && |t| == |S.g|
    && t[S.modules] == ModulesInfo(S)
    && forall s | 0 <= s < |S.g| && s != S.modules :: t[s] == Local(S, s, t)
  }

  // ----- a symbol's equation looks only at earlier symbols -----

  lemma {:induction false} OrPromptsAgree(S: Setup, s: nat, ps: seq<OptExpr>, v: Valuation, w: Valuation)
    requires s < |S.g| && (S.g[s].kind.ChoiceValue? ==> S.g[s].kind.choice < |S.g|)
    requires forall p <- ps :: AgreeOn(v, w, p)
    requires S.g[s].kind.ChoiceValue? ==> v.tri(SymOf(S, S.g[s].kind.choice)) == w.tri(SymOf(S, S.g[s].kind.choice))
    ensures OrPrompts(S, s, ps, v) == OrPrompts(S, s, ps, w)
  {
    if ps != [] {
      OrPromptsAgree(S, s, ps[..|ps| - 1], v, w);
      var p := ps[|ps| - 1];
      assert p in ps;
      if p.Some? { EvalAgree(p.value, v, w); }
    }
  }

  lemma {:induction false} FirstDefaultAgree(ds: seq<Default>, v: Valuation, w: Valuation)
    requires forall f <- ds :: AgreeOn(v, w, Some(f.value)) && AgreeOn(v, w, f.cond)
    ensures FirstDefault(ds, v) == FirstDefault(ds, w)
    ensures FirstDefault(ds, v).Some? ==> var f := FirstDefault(ds, v).value; f in ds && DefaultTri(f, v) == DefaultTri(f, w)
  {
    if ds != [] {
      var f := ds[0];
      assert f in ds;
      EvalAgree(f.value, v, w);
      if f.cond.Some? { EvalAgree(f.cond.value, v, w); }
      FirstDefaultAgree(ds[1..], v, w);
    }
  }

  /** Two tables agree on the symbols numbered below `k`. */
  ghost predicate SameBelow(S: Setup, rank: seq<nat>, k: nat, t: Table, u: Table) {
    |t| == |u| == |S.g| == |rank| && forall i | 0 <= i < |rank| && rank[i] < k :: t[i] == u[i]
  }

  lemma BelowAgree(S: Setup, rank: seq<nat>, k: nat, t: Table, u: Table, e: OptExpr)
    requires SameBelow(S, rank, k, t, u) && Below(e, rank, k)
    ensures AgreeOn(Val(S, t), Val(S, u), e)
  {
  }

  /** The visibility of a choice value depends on the choice and on what comes before the choice. */
  lemma ValueVisibleAgree(S: Setup, rank: seq<nat>, x: nat, t: Table, u: Table)
    requires WellFormed(S) && Ranked(S, rank) && x < |S.g| && S.g[x].kind.ChoiceValue?
    requires SameBelow(S, rank, rank[S.g[x].kind.choice], t, u)
    requires t[S.g[x].kind.choice].tri == u[S.g[x].kind.choice].tri
    ensures Visible(S, x, Val(S, t)) == Visible(S, x, Val(S, u))
  {
    var c := S.g[x].kind.choice;
    assert KindOk(S, x) && RankedAt(S, rank, x);
    forall p <- S.g[x].prompts ensures AgreeOn(Val(S, t), Val(S, u), p) {
      assert BelowOr(p, rank, rank[c], c);
    }
    OrPromptsAgree(S, x, S.g[x].prompts, Val(S, t), Val(S, u));
  }

  lemma {:induction false} FirstPickAgree(S: Setup, ps: seq<ChoiceDefault>, v: Valuation, w: Valuation, v': Valuation, w': Valuation)
    requires forall p <- ps :: p.target < |S.g| && (S.g[p.target].kind.ChoiceValue? ==> S.g[p.target].kind.choice < |S.g|)
    requires forall p <- ps :: AgreeOn(v, v', p.cond) && Visible(S, p.target, w) == Visible(S, p.target, w')
    ensures FirstPick(S, ps, v, w) == FirstPick(S, ps, v', w')
  {
    if ps != [] {
      assert ps[0] in ps && forall p <- ps[1..] :: p in ps;
      if ps[0].cond.Some? { EvalAgree(ps[0].cond.value, v, v'); }
      FirstPickAgree(S, ps[1..], v, w, v', w');
    }
  }

  lemma {:induction false} FirstVisibleAgree(S: Setup, vs: seq<nat>, w: Valuation, w': Valuation)
    requires forall x <- vs :: x < |S.g| && (S.g[x].kind.ChoiceValue? ==> S.g[x].kind.choice < |S.g|)
    requires forall x <- vs :: Visible(S, x, w) == Visible(S, x, w')
    ensures FirstVisible(S, vs, w) == FirstVisible(S, vs, w')
  {
    if vs != [] {
      assert vs[0] in vs && forall x <- vs[1..] :: x in vs;
      FirstVisibleAgree(S, vs[1..], w, w');
    }
  }

  lemma PickAgree(S: Setup, rank: seq<nat>, c: nat, t: Table, u: Table)
    requires WellFormed(S) && Ranked(S, rank) && c < |S.g| && S.g[c].kind.Choice?
    requires SameBelow(S, rank, rank[c], t, u)
    ensures Pick(S, c, t) == Pick(S, c, u)
  {
    assert KindOk(S, c) && RankedAt(S, rank, c);
    var t', u' := t[c := t[c].(tri := YES)], u[c := u[c].(tri := YES)];
    forall x <- S.g[c].kind.values ensures Visible(S, x, Val(S, t')) == Visible(S, x, Val(S, u')) {
      ValueVisibleAgree(S, rank, x, t', u');
    }
    forall p <- S.g[c].kind.picks ensures AgreeOn(Val(S, t), Val(S, u), p.cond) {
      BelowAgree(S, rank, rank[c], t, u, p.cond);
    }
    FirstPickAgree(S, S.g[c].kind.picks, Val(S, t), ValYes(S, t, c), Val(S, u), ValYes(S, u, c));
    FirstVisibleAgree(S, S.g[c].kind.values, ValYes(S, t, c), ValYes(S, u, c));
  }

  lemma VisibleAgree(S: Setup, rank: seq<nat>, s: nat, t: Table, u: Table)
    requires WellFormed(S) && Ranked(S, rank) && s < |S.g| && s != S.modules
    requires SameBelow(S, rank, rank[s], t, u)
    ensures Visible(S, s, Val(S, t)) == Visible(S, s, Val(S, u))
  {
    var d := S.g[s];
    assert RankedAt(S, rank, s) && KindOk(S, s);
    if d.kind.ChoiceValue? {
      ValueVisibleAgree(S, rank, s, t, u);
    } else {
      forall p <- d.prompts ensures AgreeOn(Val(S, t), Val(S, u), p) { BelowAgree(S, rank, rank[s], t, u, p); }
      OrPromptsAgree(S, s, d.prompts, Val(S, t), Val(S, u));
    }
  }

  lemma DepAgree(S: Setup, rank: seq<nat>, s: nat, e: OptExpr, none: Tri, visible: Tri, t: Table, u: Table)
    requires s < |S.g| == |rank| && SameBelow(S, rank, rank[s], t, u) && Below(e, rank, rank[s])
    ensures DepTri(S, s, visible, e, none, Val(S, t)) == DepTri(S, s, visible, e, none, Val(S, u))
  {
    BelowAgree(S, rank, rank[s], t, u, e);
    if e.Some? { EvalAgree(e.value, Val(S, t), Val(S, u)); }
  }

  lemma DefaultsAgree(S: Setup, rank: seq<nat>, s: nat, t: Table, u: Table)
    requires WellFormed(S) && Ranked(S, rank) && s < |S.g| && s != S.modules
    requires SameBelow(S, rank, rank[s], t, u)
    ensures forall visible, dir, imp ::
      Wanted(S, s, visible, dir, imp, Val(S, t)) == Wanted(S, s, visible, dir, imp, Val(S, u))
    ensures forall visible, rev, imp ::
      Written(S, s, visible, rev, imp, Val(S, t)) == Written(S, s, visible, rev, imp, Val(S, u))
  {
    var d := S.g[s];
    assert RankedAt(S, rank, s);
    forall f <- d.defaults ensures AgreeOn(Val(S, t), Val(S, u), Some(f.value)) && AgreeOn(Val(S, t), Val(S, u), f.cond) {
      BelowAgree(S, rank, rank[s], t, u, Some(f.value));
      BelowAgree(S, rank, rank[s], t, u, f.cond);
    }
    FirstDefaultAgree(d.defaults, Val(S, t), Val(S, u));
  }

  lemma LocalAgree(S: Setup, rank: seq<nat>, s: nat, t: Table, u: Table)
    requires WellFormed(S) && Ranked(S, rank) && s < |S.g| && s != S.modules
    requires SameBelow(S, rank, rank[s], t, u)
    ensures Local(S, s, t) == Local(S, s, u)
  {
    var d := S.g[s];
    assert RankedAt(S, rank, s) && KindOk(S, s);
    VisibleAgree(S, rank, s, t, u);
    var visible := Visible(S, s, Val(S, t));
    DepAgree(S, rank, s, d.dirDep, YES, visible, t, u);
    DepAgree(S, rank, s, d.revDep, NO, visible, t, u);
    DepAgree(S, rank, s, d.implied, NO, visible, t, u);
    if d.typ != UnknownType {
      var v := Val(S, t);
      SettleAgree(S, rank, s, t, u, visible, DepTri(S, s, visible, d.dirDep, YES, v), DepTri(S, s, visible, d.revDep, NO, v),
                  DepTri(S, s, visible, d.implied, NO, v));
    }
  }

  lemma SettleAgree(S: Setup, rank: seq<nat>, s: nat, t: Table, u: Table, visible: Tri, dir: Tri, rev: Tri, imp: Tri)
    requires WellFormed(S) && Ranked(S, rank) && s < |S.g| && s != S.modules
    requires SameBelow(S, rank, rank[s], t, u)
    ensures Settle(S, s, t, visible, dir, rev, imp) == Settle(S, s, u, visible, dir, rev, imp)
  {
    assert RankedAt(S, rank, s) && KindOk(S, s);
    DefaultsAgree(S, rank, s, t, u);
    if S.g[s].kind.Choice? { PickAgree(S, rank, s, t, u); }
  }

  /** The plain recursion solves the equations, and nothing else does. */
  ghost function Solve(S: Setup, rank: seq<nat>): (t: Table)
    requires WellFormed(S) && Ranked(S, rank)
    ensures |t| == |S.g| && forall i | 0 <= i < |t| :: t[i] == Value(S, rank, i)
  {
    seq(|S.g|, i requires 0 <= i < |S.g| => Value(S, rank, i))
  }

  lemma SolveIsSolution(S: Setup, rank: seq<nat>)
    requires WellFormed(S) && Ranked(S, rank)
    ensures IsSolution(S, Solve(S, rank))
  {
    var t := Solve(S, rank);
    forall s | 0 <= s < |S.g| && s != S.modules ensures t[s] == Local(S, s, t) {
      LocalAgree(S, rank, s, Earlier(S, rank, rank[s]), t);
    }
  }

  lemma {:induction false} SolutionUnique(S: Setup, rank: seq<nat>, t: Table, s: nat)
    requires IsSolution(S, t) && Ranked(S, rank) && s < |S.g| && s != S.modules
    ensures t[s] == Value(S, rank, s)
    decreases rank[s]
  {
    forall i | 0 <= i < |S.g| && rank[i] < rank[s] && i != S.modules ensures t[i] == Value(S, rank, i) {
      SolutionUnique(S, rank, t, i);
    }
    LocalAgree(S, rank, s, t, Earlier(S, rank, rank[s]));
  }
}
