/** The two halves of scripts/config/symbol.c together, as conf_parse and its callers use them: first
    the recursive-dependency check on every symbol, then values in any order. */
module CheckedEvaluation {
  import opened Tristates
  import opened Exprs
  import opened SymbolSpec
  import opened ValueLaws
  import Engine
  import SymbolCheck

  /** A value that every assignment of values satisfying all symbols at once agrees on. */
  ghost predicate Forced(S: Setup, s: nat, value: Tri) {
    forall t: Table | IsSolution(S, t) :: s < |t| && t[s].tri == value
  }

  /** A graph without a cycle has exactly one assignment of values. */
  lemma AcyclicHasOneSolution(S: Setup) returns (x: Engine.Epoch)
    requires WellFormed(S) && SymbolCheck.Linked(S.g) && !exists p :: SymbolCheck.Cycle(S.g, p)
    ensures Engine.EpochOk(x) && x.S == S
    ensures forall t: Table :: IsSolution(S, t) <==> t == x.sol
  {
    var rank := SymbolCheck.AcyclicIsRanked(S);
    SolveIsSolution(S, rank);
    x := Engine.Epoch(S, rank, Solve(S, rank));
    forall t: Table | IsSolution(S, t) ensures t == x.sol {
      forall s | 0 <= s < |t| ensures t[s] == x.sol[s] {
        if s != S.modules {
          SolutionUnique(S, rank, t, s);
          SolutionUnique(S, rank, x.sol, s);
        }
      }
    }
  }

  /** The check reports exactly the graphs with a cycle, unless a cycle goes through bare mentions of a
      choice. On all graphs without a cycle any sequence of sym_calc_value calls yields, for each symbol
      asked for, the value in the one solution of the plain equations. */
  method CheckThenCalc(S: Setup, walk: seq<seq<Expr>>, calls: seq<nat>) returns (bad: Option<nat>, values: seq<Tri>)
    requires WellFormed(S) && SymbolCheck.Linked(S.g) && SymbolCheck.Walks(S.g, walk)
    requires (exists p :: SymbolCheck.Cycle(S.g, p)) ==> SymbolCheck.Covered(S.g)
    requires forall m | 0 <= m < |calls| :: calls[m] < |S.g|
    ensures bad.Some? <==> exists p :: SymbolCheck.Cycle(S.g, p)
    ensures bad.None? ==> exists t: Table :: IsSolution(S, t)
    ensures bad.None? ==> |values| == |calls| && forall m | 0 <= m < |calls| :: Forced(S, calls[m], values[m])
    ensures bad.None? ==> forall m, t: Table | 0 <= m < |calls| && IsSolution(S, t) ::
      calls[m] != S.modules && S.g[calls[m]].typ != UnknownType ==> Decided(S, t, calls[m], values[m])
  {
    var checker := new SymbolCheck.Checker(S.g, walk, true);
    bad := checker.CheckAll();
    if bad.Some? {
      return bad, [];
    }
    ghost var x := AcyclicHasOneSolution(S);
    var e := new Engine.Evaluator(S.g, S.users, S.modules, S.modules, S.modulesVal, S.base, x);
    e.CalcValues(calls, x);
    assert IsSolution(S, x.sol);
    values := seq(|calls|, m requires 0 <= m < |calls| && calls[m] < |e.st| reads e => e.st[calls[m]].curr);
    forall m | 0 <= m < |calls| ensures Forced(S, calls[m], values[m]) {
      var s := calls[m];
      assert Engine.InvAt(x, {}, s, e.st[s]) && Engine.Agrees(x, s, e.st[s]);
    }
  }
}
