/** A setting that scripts/config/symbol.c accepts and that comes out as another value, although the symbol
    depends on nothing: MODULES falls when everything is evaluated again. */
module FallenModules {
  import opened Tristates
  import opened Exprs
  import opened SymbolSpec
  import opened SymbolLaws
  import opened Engine
  import LostFlag

  /** An optional choice (1), set to y by the user, with one value (2) that has no user value; MODULES (3), which
      is y by default while that value is; and a tristate symbol (4) that is always shown. Symbol 0 stands for
      modules_val. */
  function Enabled(base: Valuation): Setup {
    var c, v := Sym(Config(1, BooleanType)), Sym(Config(2, BooleanType));
    var plain := Def(BooleanType, Plain, [], [], None, None, None);
    Setup(
      [plain,
       plain.(kind := Choice([2], []), prompts := [Some(Sym(SymYes))]),
       plain.(kind := ChoiceValue(1), prompts := [Some(c)]),
       plain.(defaults := [Default(Sym(SymYes), Some(v))]),
       plain.(typ := TristateType, prompts := [Some(Sym(SymYes))])],
      [User(false, NO, None), User(true, YES, None), User(false, NO, None), User(false, NO, None), User(false, NO, None)],
      0, YES, base)
  }

  /** The settings after symbol 4 has been set to m: the choice has no user value any more. */
  function Unflagged(base: Valuation): Setup {
    Enabled(base).(users :=
      [User(false, NO, None), User(false, YES, None), User(false, NO, None), User(false, NO, None), User(true, MOD, None)])
  }

  /** Setting symbol 4 to m is accepted, its dependencies being met and nothing selecting it, and MODULES being up
      to date; evaluated again, it is y. */
  method SettingRaised(base: Valuation) returns (accepted: bool, dir: Tri, rev: Tri, modulesBefore: Tri, value: Tri)
    requires WordsAreNotNumbers(base)
    ensures accepted && dir == YES && rev == NO && modulesBefore == Enabled(base).modulesVal && value == YES
  {
    var S := Enabled(base);
    ghost var x := Begin(S, base);
    var e := new Evaluator(S.g, S.users, S.modules, 3, S.modulesVal, S.base, x);
    var calls := [1, 3, 4];
    e.CalcValues(calls, x);
    assert e.st[calls[0]].valid && e.st[calls[1]].valid && e.st[calls[2]].valid;
    NextSettings(base, x, e.st);
    assert InvAt(x, {}, 3, e.st[3]) && InvAt(x, {}, 4, e.st[4]);
    dir, rev, modulesBefore := e.st[4].dir, e.st[4].rev, e.st[3].curr;
    ghost var y;
    accepted, y := e.SetTristateValue(4, MOD, x);
    assert y.S == Unflagged(base);
    ghost var z := NextBegins(y, base, e.st, e.modulesVal);
    e.CalcValue(4, z, {});
    assert InvAt(z, {}, 4, e.st[4]);
    Fallen(z.S, base, z.sol);
    value := e.st[4].curr;
  }

  lemma NextSettings(base: Valuation, x: Epoch, st: seq<State>)
    requires x.S == Enabled(base) && WordsAreNotNumbers(base) && Inv(x, {}, st) && st[1].valid
    ensures NextUsers(x.S.g, st, 4, MOD) == Unflagged(base).users
    ensures x.sol[4].visible == YES && x.sol[4].dir == YES && x.sol[4].rev == NO && x.sol[4].tri == NO && x.sol[3].tri == YES
  {
    ShownAndUnset(base, x.sol);
    assert InvAt(x, {}, 0, st[0]) && InvAt(x, {}, 1, st[1]) && InvAt(x, {}, 2, st[2]) && InvAt(x, {}, 3, st[3]) && InvAt(x, {}, 4, st[4]);
  }

  /** What has been evaluated along with MODULES is worth the same after its fall. */
  lemma NextBegins(y: Epoch, base: Valuation, st: seq<State>, mv: Tri) returns (z: Epoch)
    requires y.S == Unflagged(base) && y.rank == Order() && Renewed(y, 3, mv, st) && WordsAreNotNumbers(base)
    ensures mv == NO && EpochOk(z) && z.S == Unflagged(base).(modulesVal := NO) && Inv(z, {}, st)
  {
    Fallen(y.S, base, y.sol);
    z := Begin(y.S.(modulesVal := NO), base);
    Fallen(z.S, base, z.sol);
    assert Group(y, 4) == 4 > y.rank[3];
    Afresh(y, z, 3, st);
  }

  function Order(): seq<nat> { [0, 1, 2, 3, 4] }

  ghost predicate Variant(S: Setup, base: Valuation) {
    (S == Enabled(base) || S == Unflagged(base) || S == Unflagged(base).(modulesVal := NO)) && WordsAreNotNumbers(base)
  }

  lemma Begin(S: Setup, base: Valuation) returns (x: Epoch)
    requires Variant(S, base)
    ensures EpochOk(x) && x.S == S && x.rank == Order()
  {
    VariantWellFormed(S, base);
    InOrder(S, base, Order());
    SolveIsSolution(S, Order());
    x := Epoch(S, Order(), Solve(S, Order()));
  }

  lemma InOrder(S: Setup, base: Valuation, rank: seq<nat>)
    requires S.g == Enabled(base).g && S.modules == 0 && |rank| == 5
    requires rank[1] < rank[2] < rank[3]
    ensures Ranked(S, rank)
  {
    assert RankedAt(S, rank, 1);
    assert RankedAt(S, rank, 2);
    assert RankedAt(S, rank, 3);
    assert RankedAt(S, rank, 4);
  }

  /** Nothing symbol 4 depends on is numbered below it: it can be the first of all. */
  lemma FirstInOrder(base: Valuation)
    requires WordsAreNotNumbers(base)
    ensures exists rank: seq<nat> :: Ranked(Enabled(base), rank) && forall i | 0 <= i < 4 :: rank[4] < rank[i]
  {
    var rank := [1, 2, 3, 4, 0];
    InOrder(Enabled(base), base, rank);
    assert Ranked(Enabled(base), rank) && forall i | 0 <= i < 4 :: rank[4] < rank[i];
  }

  lemma VariantWellFormed(S: Setup, base: Valuation)
    requires Variant(S, base)
    ensures WellFormed(S)
  {
    assert Guarded(S.g[2].prompts[0], Config(1, BooleanType), base);
    forall s | 0 <= s < |S.g| ensures DefOk(S.g, S.g[s]) && KindOk(S, s) { }
  }

  lemma AlwaysShown(S: Setup, base: Valuation, v: Valuation)
    requires Variant(S, base)
    ensures Visible(S, 4, v) == YES
  {
    var ps := S.g[4].prompts;
    assert ps[..|ps| - 1] == [];
    assert OrPrompts(S, 4, ps[..|ps| - 1], v) == NO;
  }

  /** The choice settles on its only value and loses its flag; MODULES is y. */
  lemma ShownAndUnset(base: Valuation, t: Table)
    requires IsSolution(Enabled(base), t) && WordsAreNotNumbers(base)
    ensures |t| == 5 && t[4].visible == YES && t[4].dir == YES && t[4].rev == NO && t[4].tri == NO
    ensures t[3].tri == YES && t[2].visible == YES && FlagAfter(Enabled(base), t, 1) == false
  {
    var S := Enabled(base);
    var v, w := Val(S, t), ValYes(S, t, 1);
    LostFlag.OnePrompt(S, 1, Sym(SymYes), v);
    LostFlag.OnePrompt(S, 2, Sym(Config(1, BooleanType)), w);
    assert S.g[1].kind.values == [2] && FirstVisible(S, [2], w) == Some(2);
    assert Pick(S, 1, t) == Some(2);
    assert t[1] == Local(S, 1, t) && t[1].tri == YES;
    LostFlag.OnePrompt(S, 2, Sym(Config(1, BooleanType)), v);
    assert t[2] == Local(S, 2, t) && t[2].tri == YES;
    assert t[3] == Local(S, 3, t) && FirstDefault(S.g[3].defaults, v) == Some(S.g[3].defaults[0]);
    AlwaysShown(S, base, v);
    assert t[4] == Local(S, 4, t);
    assert Looks(S, t, 1) && !ValueFlag(S, t, 2) && 2 in S.g[1].kind.values;
  }

  /** The choice, its value and MODULES are n. */
  ghost predicate AllDown(S: Setup, t: Table) {
    && |t| == 5 && |S.users| == |S.g| == 5 && t[1] == Info(NO, None, YES, YES, NO, NO, true)
    && t[2] == Info(NO, None, NO, NO, NO, NO, false) && t[3] == Info(NO, None, NO, YES, NO, NO, false)
    && forall i | 1 <= i < 4 :: FlagAfter(S, t, i) == false
  }

  /** Without a user value the choice is n, and with it its value and MODULES, whatever modules_val is. */
  lemma Fallen(S: Setup, base: Valuation, t: Table)
    requires Variant(S, base) && S != Enabled(base) && IsSolution(S, t)
    ensures AllDown(S, t) && (S.modulesVal == NO ==> t[4].tri == YES)
  {
    FallenChoice(S, base, t);
    FallenValue(S, base, t);
    FallenDefault(S, base, t);
    AlwaysShown(S, base, Val(S, t));
    assert t[4] == Local(S, 4, t);
    assert forall i | 1 <= i < 4 :: !S.users[i].has;
  }

  lemma FallenChoice(S: Setup, base: Valuation, t: Table)
    requires S.g == Enabled(base).g && S.modules == 0 && IsSolution(S, t) && !S.users[1].has
    ensures t[1] == Info(NO, None, YES, YES, NO, NO, true)
  {
    LostFlag.OnePrompt(S, 1, Sym(SymYes), Val(S, t));
    assert t[1] == Local(S, 1, t);
  }

  lemma FallenValue(S: Setup, base: Valuation, t: Table)
    requires S.g == Enabled(base).g && S.modules == 0 && IsSolution(S, t) && t[1].tri == NO
    ensures t[2] == Info(NO, None, NO, NO, NO, NO, false)
  {
    LostFlag.OnePrompt(S, 2, Sym(Config(1, BooleanType)), Val(S, t));
    assert t[2] == Local(S, 2, t);
  }

  lemma FallenDefault(S: Setup, base: Valuation, t: Table)
    requires S.g == Enabled(base).g && S.modules == 0 && IsSolution(S, t) && t[2].tri == NO
    ensures t[3] == Info(NO, None, NO, YES, NO, NO, false)
  {
    var ds := S.g[3].defaults;
    assert ds[1..] == [] && Eval(ds[0].cond.value, Val(S, t)) == NO && FirstDefault(ds, Val(S, t)).None?;
    assert OrPrompts(S, 3, [], Val(S, t)) == NO;
    assert t[3] == Local(S, 3, t);
  }
}
