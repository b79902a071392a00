/** A setting that scripts/config/symbol.c accepts and that does not take effect: a choice the symbol
    depends on has lost its user flag in the meantime. */
module LostFlag {
  import opened Tristates
  import opened Exprs
  import opened SymbolSpec
  import opened SymbolLaws
  import opened Engine

  /** An optional choice (1), set to y by the user, with one value (2) that has no user value, and a
      symbol (3) that is shown and may be set while that value is y. Symbol 0 stands for modules_val, symbol 4
      is MODULES. */
  function Flagged(base: Valuation): Setup {
    var c, v := Sym(Config(1, BooleanType)), Sym(Config(2, BooleanType));
    var plain := Def(BooleanType, Plain, [], [], None, None, None);
    Setup(
      [plain,
       plain.(kind := Choice([2], []), prompts := [Some(Sym(SymYes))]),
       plain.(kind := ChoiceValue(1), prompts := [Some(c)]),
       plain.(prompts := [Some(v)], dirDep := Some(v)),
       plain],
      [User(false, NO, None), User(true, YES, None), User(false, NO, None), User(false, NO, None), User(false, NO, None)],
      0, NO, base)
  }

  /** The settings the next epoch begins with: the choice has no user value any more. */
  function Unflagged(base: Valuation): Setup {
    Flagged(base).(users := [User(false, NO, None), User(false, YES, None), User(false, NO, None), User(true, YES, None), User(false, NO, None)])
  }

  /** Setting symbol 3 to y is accepted, its dependencies being met and nothing selecting it; evaluated
      again, it is n. */
  method SettingLost(base: Valuation) returns (accepted: bool, dir: Tri, rev: Tri, value: Tri)
    requires WordsAreNotNumbers(base)
    ensures accepted && dir == YES && rev == NO && value == NO
  {
    var S := Flagged(base);
    ghost var x := Begin(base);
    var e := new Evaluator(S.g, S.users, S.modules, 4, S.modulesVal, S.base, x);
    e.CalcValues([1, 3], x);
    assert e.st[[1, 3][0]].valid && e.st[[1, 3][1]].valid;
    NextSettings(base, x, e.st);
    assert InvAt(x, {}, 3, e.st[3]);
    dir, rev := e.st[3].dir, e.st[3].rev;
    ghost var y;
    accepted, y := e.SetTristateValue(3, YES, x);
    assert y.S == Unflagged(base);
    HiddenAgain(base, y.sol);
    GoOn(y, 4, e.st);
    e.CalcValue(3, y, {});
    assert InvAt(y, {}, 3, e.st[3]);
    value := e.st[3].curr;
  }

  lemma NextSettings(base: Valuation, x: Epoch, st: seq<State>)
    requires x.S == Flagged(base) && Inv(x, {}, st) && st[1].valid
    ensures NextUsers(x.S.g, st, 3, YES) == Unflagged(base).users
    ensures x.sol[3].visible == YES && x.sol[3].dir == YES && x.sol[3].rev == NO && x.sol[3].tri == NO
  {
    ShownAndUnset(base, x.sol);
    assert InvAt(x, {}, 0, st[0]) && InvAt(x, {}, 1, st[1]) && InvAt(x, {}, 2, st[2]) && InvAt(x, {}, 3, st[3]) && InvAt(x, {}, 4, st[4]);
  }

  lemma Begin(base: Valuation) returns (x: Epoch)
    requires WordsAreNotNumbers(base)
    ensures EpochOk(x) && x.S == Flagged(base)
  {
    FlaggedWellFormed(base);
    var rank := [0, 1, 2, 3, 4];
    assert forall s | 0 <= s < 5 && s != 0 :: RankedAt(Flagged(base), rank, s);
    SolveIsSolution(Flagged(base), rank);
    x := Epoch(Flagged(base), rank, Solve(Flagged(base), rank));
  }

  lemma FlaggedWellFormed(base: Valuation)
    requires WordsAreNotNumbers(base)
    ensures WellFormed(Flagged(base))
  {
    var S := Flagged(base);
    var c := Config(1, BooleanType);
    assert Guarded(S.g[2].prompts[0], c, base);
    forall s | 0 <= s < |S.g| ensures DefOk(S.g, S.g[s]) && KindOk(S, s) { }
  }

  lemma OnePrompt(S: Setup, s: nat, e: Expr, v: Valuation)
    requires s < |S.g| && S.g[s].typ == BooleanType && S.g[s].prompts == [Some(e)] && Eval(e, v) != MOD
    requires S.g[s].kind.ChoiceValue? ==> S.g[s].kind.choice < |S.g|
    ensures Visible(S, s, v) == Eval(e, v)
  {
    var ps := S.g[s].prompts;
    assert ps[..|ps| - 1] == [];
    assert OrPrompts(S, s, ps[..|ps| - 1], v) == NO;
  }

  /** The choice settles on its only value and loses its flag. */
  lemma ShownAndUnset(base: Valuation, t: Table)
    requires IsSolution(Flagged(base), t)
    ensures |t| == 5 && t[3].visible == YES && t[3].dir == YES && t[3].rev == NO && t[3].tri == NO
    ensures t[2].visible == YES && FlagAfter(Flagged(base), t, 1) == false
  {
    var S := Flagged(base);
    var v, w := Val(S, t), ValYes(S, t, 1);
    OnePrompt(S, 1, Sym(SymYes), v);
    OnePrompt(S, 2, Sym(Config(1, BooleanType)), w);
    assert S.g[1].kind.values == [2] && FirstVisible(S, [2], w) == Some(2);
    assert Pick(S, 1, t) == Some(2);
    assert t[1] == Local(S, 1, t) && t[1].tri == YES;
    OnePrompt(S, 2, Sym(Config(1, BooleanType)), v);
    assert t[2] == Local(S, 2, t) && t[2].tri == YES;
    OnePrompt(S, 3, Sym(Config(2, BooleanType)), v);
    assert t[3] == Local(S, 3, t);
    assert Looks(S, t, 1) && !ValueFlag(S, t, 2) && 2 in S.g[1].kind.values;
  }

  /** Without a user value the choice is n, its value is not shown, and neither is the symbol. */
  lemma HiddenAgain(base: Valuation, t: Table)
    requires IsSolution(Unflagged(base), t)
    ensures |t| == 5 && t[3].tri == NO && t[4].tri == NO
  {
    var S := Unflagged(base);
    var v := Val(S, t);
    OnePrompt(S, 1, Sym(SymYes), v);
    assert t[1] == Local(S, 1, t) && t[1].tri == NO;
    OnePrompt(S, 2, Sym(Config(1, BooleanType)), v);
    assert t[2] == Local(S, 2, t) && t[2].tri == NO;
    OnePrompt(S, 3, Sym(Config(2, BooleanType)), v);
    assert t[3] == Local(S, 3, t) && t[4] == Local(S, 4, t);
    assert OrPrompts(S, 4, [], v) == NO;
  }
}
