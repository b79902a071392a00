/** A graph on which the check of scripts/config/symbol.c reports nothing and evaluation has no solution. */
module NamedLoop {
  import opened Tristates
  import opened Exprs
  import opened SymbolSpec
  import opened SymbolCheck

  /** A choice (1) with one value (2) that depends on a symbol (3) whose default is the choice.
      The choice is in mode y by the user. Symbol 0 stands for modules_val. */
  function LoopThroughChoice(base: Valuation): Setup {
    var c, s := Sym(Config(1, BooleanType)), Sym(Config(3, BooleanType));
    var plain := Def(BooleanType, Plain, [], [], None, None, None);
    Setup(
      [plain,
       plain.(kind := Choice([2], []), prompts := [Some(Sym(SymYes))]),
       plain.(kind := ChoiceValue(1), prompts := [Some(Bin(AND, c, Not(s)))]),
       plain.(defaults := [Default(c, None)])],
      [User(false, NO, None), User(true, YES, None), User(false, NO, None), User(false, NO, None)],
      0, NO, base)
  }

  /** Once a choice has a name that others mention, passing the check is not enough: with the symbols in
      this order, and the properties of each in any, it reports nothing, although there is a cycle, and no values satisfy all symbols at once. */
  method NamedChoiceLoop(base: Valuation, walk: seq<seq<Expr>>) returns (r: Option<nat>)
    requires WordsAreNotNumbers(base) && Walks(LoopThroughChoice(base).g, walk)
    ensures WellFormed(LoopThroughChoice(base)) && Linked(LoopThroughChoice(base).g)
    ensures r.None? && Cycle(LoopThroughChoice(base).g, [1, 3])
    ensures forall t: Table :: !IsSolution(LoopThroughChoice(base), t)
  {
    var g := LoopThroughChoice(base).g;
    LoopWellFormed(base);
    LoopShaped(base);
    LoopLinked(g);
    var checker := new Checker(g, walk, true);
    r := checker.CheckAll();
    if r.Some? { LoopOutOfSight(g); }
    LoopIsCycle(g);
    forall t: Table ensures !IsSolution(LoopThroughChoice(base), t) { LoopUnsolved(base, t); }
  }

  lemma LoopIsCycle(g: seq<Def>)
    requires LoopShape(g)
    ensures Cycle(g, [1, 3])
  {
    assert 3 in LoopUsed(2) && 1 in LoopUsed(3);
    assert UsesIn(g, 2, 3) && Rep(g, 2) == 1 && Rep(g, 3) == 3;
    assert UsesIn(g, 3, 1) && Rep(g, 1) == 1;
    assert GroupUses(g, 1, 3) && GroupUses(g, 3, 1);
  }

  /** From the choice the check walks to the value and on to symbol 3, where the choice is no longer
      marked; after that everything has passed. */
  lemma LoopOutOfSight(g: seq<Def>)
    requires LoopShape(g)
    ensures !InSight(g)
  {
    forall s: nat, seen: set<nat> ensures !InSightAt(g, s, seen) { LoopNotAt(g, s, seen); }
  }

  lemma LoopNotAt(g: seq<Def>, s: nat, seen: set<nat>)
    requires LoopShape(g)
    ensures !InSightAt(g, s, seen)
  {
    if s < 2 {
      LoopUnfound(g, s);
    } else if s < |g| && Closed(g, seen) && AllBelow(seen, s) {
      OneSeen(seen, s);
      LoopValueSeen(g, seen);
      TwoOrThree(s, seen);
    }
  }

  lemma OneSeen(seen: set<nat>, s: nat)
    requires AllBelow(seen, s) && s >= 2
    ensures 1 in seen
  {
  }

  lemma TwoOrThree(s: nat, seen: set<nat>)
    requires 2 <= s < 4 && 2 in seen && 3 in seen
    ensures s in seen
  {
  }

  lemma LoopValueSeen(g: seq<Def>, seen: set<nat>)
    requires LoopShape(g) && Closed(g, seen) && 1 in seen
    ensures 2 in seen && 3 in seen
  {
    assert g[2].kind == ChoiceValue(1) && Uses(g, 2) == LoopUsed(2) && 3 in LoopUsed(2);
  }

  lemma LoopUnfound(g: seq<Def>, s: nat)
    requires LoopShape(g) && s < 2
    ensures !FoundFrom(g, s)
  {
    LoopReps(g);
    forall a: nat | a < |g| && Rep(g, a) == Rep(g, s) ensures !Found(g, [a]) { LoopNone(g, a); }
  }

  lemma LoopReps(g: seq<Def>)
    requires LoopShape(g)
    ensures |g| == 4 && Rep(g, 0) == 0 && Rep(g, 1) == 1 && Rep(g, 2) == 1 && Rep(g, 3) == 3
  {
  }

  lemma LoopNone(g: seq<Def>, a: nat)
    requires LoopShape(g) && a < 3
    ensures !Found(g, [a])
  {
    forall full: seq<nat>, y: nat | [a] <= full ensures !Report(g, full, y) {
      assert full[0] == a;
      LoopUnseen(g, full, y);
    }
  }

  lemma LoopUnseen(g: seq<Def>, path: seq<nat>, y: nat)
    requires LoopShape(g) && path != [] && path[0] < 3
    ensures !Report(g, path, y)
  {
    if Trail(g, path) && y in Uses(g, path[|path| - 1]) {
      LoopTrail(g, path);
    }
  }

  /** All trails that start before symbol 3 and could be followed by another mention. */
  lemma LoopTrail(g: seq<Def>, path: seq<nat>)
    requires LoopShape(g) && path != [] && path[0] < 3 && Trail(g, path) && Uses(g, path[|path| - 1]) != {}
    ensures path == [2] || path == [2, 3]
  {
    assert forall s | 0 <= s < |g| :: Uses(g, s) == LoopUsed(s);
    if |path| > 1 { assert Asks(g, path[0], path[1]); }
  }

  lemma LoopUnsolved(base: Valuation, t: Table)
    ensures !IsSolution(LoopThroughChoice(base), t)
  {
    var S := LoopThroughChoice(base);
    if IsSolution(S, t) {
      LoopChoice(base, t);
      LoopDefault(base, t);
      LoopPick(base, t);
    }
  }

  /** The choice is n exactly when it has nothing to pick. */
  lemma LoopChoice(base: Valuation, t: Table)
    requires IsSolution(LoopThroughChoice(base), t)
    ensures t[1].tri == if Pick(LoopThroughChoice(base), 1, t).None? then NO else YES
  {
  }

  /** The symbol follows the choice. */
  lemma LoopDefault(base: Valuation, t: Table)
    requires IsSolution(LoopThroughChoice(base), t)
    ensures t[3].tri == t[1].tri
  {
  }

  lemma LoopWellFormed(base: Valuation)
    requires WordsAreNotNumbers(base)
    ensures WellFormed(LoopThroughChoice(base))
  {
    var S := LoopThroughChoice(base);
    var c, s := Config(1, BooleanType), Config(3, BooleanType);
    forall v: Valuation | v.tri(c) == NO ensures Eval(Bin(AND, Sym(c), Not(Sym(s))), v) == NO {
      assert Eval(Sym(c), v) == NO;
    }
    assert Guarded(S.g[2].prompts[0], c, base);
    forall s | 0 <= s < |S.g| ensures DefOk(S.g, S.g[s]) && KindOk(S, s) { }
  }

  lemma OnePrompt(e: Expr)
    ensures PromptExprs([Some(e)]) == [e]
  {
  }

  lemma LoopUses(base: Valuation)
    ensures var g := LoopThroughChoice(base).g;
      Uses(g, 0) == {} && Uses(g, 1) == {} && Uses(g, 2) == {1, 3} && Uses(g, 3) == {1}
  {
    var g := LoopThroughChoice(base).g;
    var c, s := Sym(Config(1, BooleanType)), Sym(Config(3, BooleanType));
    OnePrompt(Bin(AND, c, Not(s)));
    assert CheckedExprs(g[0]) == [];
    assert CheckedExprs(g[1]) == [Sym(SymYes)];
    assert CheckedExprs(g[2]) == [Bin(AND, c, Not(s))];
    assert CheckedExprs(g[3]) == [c];
    assert Mentions(Bin(AND, c, Not(s))) == {c.sym, s.sym};
    assert c.sym in Mentions(CheckedExprs(g[2])[0]) && s.sym in Mentions(CheckedExprs(g[2])[0]);
    assert c.sym in Mentions(CheckedExprs(g[3])[0]);
  }

  lemma LoopShaped(base: Valuation)
    ensures LoopShape(LoopThroughChoice(base).g)
  {
    var g := LoopThroughChoice(base).g;
    LoopUses(base);
    forall s | 0 <= s < |g| ensures Uses(g, s) == LoopUsed(s) {
      if s > 0 { assert s == 1 || s == 2 || s == 3; }
    }
  }

  ghost predicate LoopShape(g: seq<Def>) {
    && |g| == 4 && g[0].kind.Plain? && g[1].kind == Choice([2], []) && g[2].kind == ChoiceValue(1) && g[3].kind.Plain?
    && forall s | 0 <= s < |g| :: Uses(g, s) == LoopUsed(s)
  }

  function LoopUsed(s: nat): set<nat> { if s == 2 then {1, 3} else if s == 3 then {1} else {} }

  lemma LoopLinked(g: seq<Def>)
    requires LoopShape(g)
    ensures Linked(g)
  {
    forall s | 0 <= s < |g| ensures LinkedAt(g, s) {
      LoopLinkedAt(g, s, Uses(g, s));
    }
  }

  lemma LoopLinkedAt(g: seq<Def>, s: nat, u: set<nat>)
    requires LoopShape(g) && s < |g| && u == Uses(g, s) == LoopUsed(s)
    ensures LinkedAt(g, s)
  {
  }

  lemma LoopPick(base: Valuation, t: Table)
    requires |t| == 4 && WordsAreNotNumbers(base)
    ensures WellFormed(LoopThroughChoice(base))
    ensures var S := LoopThroughChoice(base); Pick(S, 1, t) == if t[3].tri == YES then None else Some(2)
  {
    LoopWellFormed(base);
    var S := LoopThroughChoice(base);
    var w := ValYes(S, t, 1);
    var c, s := Config(1, BooleanType), Config(3, BooleanType);
    assert w.tri(c) == YES && w.tri(s) == t[3].tri;
    var ps := S.g[2].prompts;
    assert ps[..|ps| - 1] == [];
    assert Eval(Sym(c), w) == YES && Eval(Not(Sym(s)), w) == TriNot(t[3].tri);
    assert PromptTri(S, 2, ps[0], w) == TriNot(t[3].tri);
    assert OrPrompts(S, 2, ps[..|ps| - 1], w) == NO;
    assert OrPrompts(S, 2, ps, w) == TriNot(t[3].tri);
    assert FirstPick(S, S.g[1].kind.picks, Val(S, t), w) == None;
    var vs := S.g[1].kind.values;
    assert vs[1..] == [];
    assert Visible(S, 2, w) == if t[3].tri == YES then NO else YES;
    assert FirstVisible(S, vs, w) == if Visible(S, 2, w) != NO then Some(2) else FirstVisible(S, vs[1..], w);
  }
}
