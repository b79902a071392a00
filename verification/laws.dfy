/** What holds in every evaluated configuration. */
module SymbolLaws {
  import opened Tristates
  import opened Exprs
  import opened SymbolSpec

  // ----- typed values -----

  /** The computed values form a typed assignment: bool symbols are never m, and no symbol is m
      without modules. */
  lemma SolutionTyped(S: Setup, t: Table)
    requires IsSolution(S, t)
    ensures Typed(Val(S, t))
  {
  }

  // ----- choices -----

  /** A bool choice whose values are bool and have no defaults of their own. */
  ghost predicate BoolChoice(S: Setup, c: nat)
    requires WellFormed(S) && c < |S.g|
  {
    && S.g[c].kind.Choice? && S.g[c].typ == BooleanType
    && KindOk(S, c)
    && forall i <- S.g[c].kind.values :: S.g[i].typ == BooleanType && S.g[i].defaults == []
  }

  /** The value of one choice value: y exactly when its choice settled on it. */
  lemma ChoiceValueTri(S: Setup, t: Table, c: nat, i: nat)
    requires IsSolution(S, t) && c < |S.g| && BoolChoice(S, c) && i in S.g[c].kind.values
    ensures t[i].tri == OfBool(t[i].visible == YES && t[c].pick == Some(i))
    ensures t[i].visible == Visible(S, i, Val(S, t)) && t[i].visible != MOD
    ensures t[c].tri == NO ==> t[i].visible == NO
  {
    assert KindOk(S, c) && KindOk(S, i) && KindOk(S, S.modules);
    assert t[i] == Local(S, i, t);
    if t[c].tri == NO {
      SolutionTyped(S, t);
      GuardedInvisible(S, i, S.g[i].prompts, Val(S, t));
    }
  }

  /** What a choice in mode y settles on is one of its values, and visible. */
  lemma PickIsVisible(S: Setup, t: Table, c: nat)
    requires WellFormed(S) && |t| == |S.g| && c < |S.g| && S.g[c].kind.Choice?
    requires Pick(S, c, t).Some?
    ensures KindOk(S, c)
    ensures var p := Pick(S, c, t).value; p in S.g[c].kind.values && Visible(S, p, ValYes(S, t, c)) != NO
  {
    assert KindOk(S, c);
    FirstPickVisible(S, S.g[c].kind.picks, Val(S, t), ValYes(S, t, c));
    FirstVisibleIn(S, S.g[c].kind.values, ValYes(S, t, c));
  }

  lemma {:induction false} FirstPickVisible(S: Setup, ps: seq<ChoiceDefault>, v: Valuation, w: Valuation)
    requires forall p <- ps :: p.target < |S.g| && (S.g[p.target].kind.ChoiceValue? ==> S.g[p.target].kind.choice < |S.g|)
    ensures var d := FirstPick(S, ps, v, w);
      d.Some? ==> (exists p <- ps :: p.target == d.value) && d.value < |S.g|
                  && (S.g[d.value].kind.ChoiceValue? ==> S.g[d.value].kind.choice < |S.g|) && Visible(S, d.value, w) != NO
  {
    if ps != [] {
      assert ps[0] in ps;
      FirstPickVisible(S, ps[1..], v, w);
    }
  }

  lemma {:induction false} FirstVisibleIn(S: Setup, vs: seq<nat>, w: Valuation)
    requires forall y <- vs :: y < |S.g| && (S.g[y].kind.ChoiceValue? ==> S.g[y].kind.choice < |S.g|)
    ensures var d := FirstVisible(S, vs, w); d.Some? ==> d.value in vs && Visible(S, d.value, w) != NO
  {
    if vs != [] {
      assert vs[0] in vs && forall y <- vs[1..] :: y in vs;
      FirstVisibleIn(S, vs[1..], w);
    }
  }

  /** Exactly one value of a bool choice is y when the choice is y, and it is a visible one;
      none is y when the choice is n. */
  lemma ChoiceExclusive(S: Setup, t: Table, c: nat)
    requires IsSolution(S, t) && c < |S.g| && BoolChoice(S, c)
    ensures t[c].tri == YES || t[c].tri == NO
    ensures t[c].tri == NO ==> forall i <- S.g[c].kind.values :: t[i].tri == NO
    ensures t[c].tri == YES ==> t[c].pick.Some? && t[c].pick.value in S.g[c].kind.values
    ensures t[c].tri == YES ==>
      forall i <- S.g[c].kind.values :: t[i].tri == (if i == t[c].pick.value then YES else NO)
    ensures t[c].tri == YES ==> t[t[c].pick.value].visible == YES
  {
    assert KindOk(S, c) && t[c] == Local(S, c, t) && KindOk(S, S.modules);
    forall i <- S.g[c].kind.values
      ensures t[i].tri == OfBool(t[i].visible == YES && t[c].pick == Some(i))
      ensures t[c].tri == NO ==> t[i].visible == NO
    {
      ChoiceValueTri(S, t, c, i);
    }
    if t[c].tri == YES {
      PickIsVisible(S, t, c);
      assert t[c := t[c].(tri := YES)] == t;
      ChoiceValueTri(S, t, c, t[c].pick.value);
    }
  }

  // ----- setting a value -----

  /** The same configuration with other user settings; what the user picks in choices is one of their values. */
  ghost predicate Resettled(S: Setup, T: Setup) {
    && T == S.(users := T.users) && |T.users| == |S.users| == |S.g|
    && forall i | 0 <= i < |S.users| :: PickFits(S, i, T.users[i].pick)
  }

  predicate PickFits(S: Setup, i: nat, pick: Option<nat>)
    requires i < |S.users| == |S.g|
  {
    pick == S.users[i].pick || (S.g[i].kind.Choice? && pick.Some? && pick.value in S.g[i].kind.values)
  }

  /** In `T` the user has set symbol `s` to `val`, and nothing changed in the settings of what comes
      before `s`. */
  ghost predicate SetIn(S: Setup, T: Setup, rank: seq<nat>, s: nat, val: Tri) {
    && Resettled(S, T) && |rank| == |S.users| && s < |rank|
    && T.users[s].has && T.users[s].tri == val && SameUsers(S, T, rank, rank[s])
  }

  ghost predicate SameUsers(S: Setup, T: Setup, rank: seq<nat>, k: nat)
    requires |S.users| == |T.users| == |rank|
  {
    forall j | 0 <= j < |rank| && rank[j] < k :: T.users[j] == S.users[j]
  }

  lemma ResettledOk(S: Setup, T: Setup, rank: seq<nat>)
    requires WellFormed(S) && Ranked(S, rank) && Resettled(S, T)
    ensures WellFormed(T) && Ranked(T, rank)
  {
    forall i | 0 <= i < |S.g| ensures DefOk(T.g, T.g[i]) && KindOk(T, i) {
      assert DefOk(S.g, S.g[i]) && KindOk(S, i) && PickFits(S, i, T.users[i].pick);
    }
    forall i | 0 <= i < |S.g| && i != S.modules ensures RankedAt(T, rank, i) {
      assert RankedAt(S, rank, i);
    }
  }

  /** sym_tristate_within_range, on computed fields. */
  predicate WithinRange(S: Setup, s: nat, o: Info, val: Tri)
    requires s < |S.g|
  {
    var typ := EffType(S, s, o.visible);
    if o.visible == NO then false
    else if typ != BooleanType && typ != TristateType then false
    else if typ == BooleanType && val == MOD then false
    else if o.visible <= o.rev then false
    else if S.g[s].kind.ChoiceValue? && o.visible == YES then val == YES
    else o.rev <= val <= o.visible
  }

  // Only the equation of `s` itself sees the user's setting of `s`.

  lemma {:induction false} OrPromptsUser(S: Setup, S': Setup, i: nat, ps: seq<OptExpr>, v: Valuation)
    requires S.g == S'.g && i < |S.g| && (S.g[i].kind.ChoiceValue? ==> S.g[i].kind.choice < |S.g|)
    ensures OrPrompts(S, i, ps, v) == OrPrompts(S', i, ps, v)
  {
    if ps != [] { OrPromptsUser(S, S', i, ps[..|ps| - 1], v); }
  }

  lemma VisibleUser(S: Setup, S': Setup, i: nat, v: Valuation)
    requires S.g == S'.g && S.modulesVal == S'.modulesVal
    requires i < |S.g| && (S.g[i].kind.ChoiceValue? ==> S.g[i].kind.choice < |S.g|)
    ensures Visible(S, i, v) == Visible(S', i, v)
  {
    OrPromptsUser(S, S', i, S.g[i].prompts, v);
  }

  lemma {:induction false} FirstPickUser(S: Setup, S': Setup, ps: seq<ChoiceDefault>, v: Valuation, w: Valuation)
    requires S.g == S'.g && S.modulesVal == S'.modulesVal
    requires forall p <- ps :: p.target < |S.g| && (S.g[p.target].kind.ChoiceValue? ==> S.g[p.target].kind.choice < |S.g|)
    ensures FirstPick(S, ps, v, w) == FirstPick(S', ps, v, w)
  {
    if ps != [] {
      assert ps[0] in ps;
      VisibleUser(S, S', ps[0].target, w);
      FirstPickUser(S, S', ps[1..], v, w);
    }
  }

  lemma {:induction false} FirstVisibleUser(S: Setup, S': Setup, vs: seq<nat>, w: Valuation)
    requires S.g == S'.g && S.modulesVal == S'.modulesVal
    requires forall y <- vs :: y < |S.g| && (S.g[y].kind.ChoiceValue? ==> S.g[y].kind.choice < |S.g|)
    ensures FirstVisible(S, vs, w) == FirstVisible(S', vs, w)
  {
    if vs != [] {
      assert vs[0] in vs && forall y <- vs[1..] :: y in vs;
      VisibleUser(S, S', vs[0], w);
      FirstVisibleUser(S, S', vs[1..], w);
    }
  }

  lemma PickUser(S: Setup, S': Setup, c: nat, t: Table)
    requires WellFormed(S) && WellFormed(S') && c < |S.g| == |t| && S.g[c].kind.Choice?
    requires S' == S.(users := S'.users) && S.users[c] == S'.users[c]
    ensures Pick(S, c, t) == Pick(S', c, t)
  {
    assert KindOk(S, c);
    FirstPickUser(S, S', S.g[c].kind.picks, Val(S, t), ValYes(S, t, c));
    FirstVisibleUser(S, S', S.g[c].kind.values, ValYes(S, t, c));
    if S.users[c].pick.Some? { VisibleUser(S, S', S.users[c].pick.value, ValYes(S, t, c)); }
  }

  /** A change of user settings elsewhere leaves the equation of `i` alone. */
  lemma LocalUser(S: Setup, S': Setup, i: nat, t: Table)
    requires WellFormed(S) && WellFormed(S') && i < |S.g| == |t|
    requires S' == S.(users := S'.users) && S.users[i] == S'.users[i]
    ensures Local(S, i, t) == Local(S', i, t)
  {
    assert KindOk(S, i);
    VisibleUser(S, S', i, Val(S, t));
    var visible, d, v := Visible(S, i, Val(S, t)), S.g[i], Val(S, t);
    SettleUser(S, S', i, t, visible, DepTri(S, i, visible, d.dirDep, YES, v),
               DepTri(S, i, visible, d.revDep, NO, v), DepTri(S, i, visible, d.implied, NO, v));
  }

  lemma SettleUser(S: Setup, S': Setup, i: nat, t: Table, visible: Tri, dir: Tri, rev: Tri, imp: Tri)
    requires WellFormed(S) && WellFormed(S') && i < |S.g| == |t|
    requires S' == S.(users := S'.users) && S.users[i] == S'.users[i]
    ensures Settle(S, i, t, visible, dir, rev, imp) == Settle(S', i, t, visible, dir, rev, imp)
  {
    if S.g[i].kind.Choice? { PickUser(S, S', i, t); }
    assert Wanted(S, i, visible, dir, imp, Val(S, t)) == Wanted(S', i, visible, dir, imp, Val(S', t));
    assert Written(S, i, visible, rev, imp, Val(S, t)) == Written(S', i, visible, rev, imp, Val(S', t));
  }

  /** Symbols keep their values when no setting of a symbol up to them changes. */
  lemma {:induction false} ValueUnmoved(S: Setup, T: Setup, rank: seq<nat>, k: nat, i: nat)
    requires WellFormed(S) && WellFormed(T) && Ranked(S, rank) && Ranked(T, rank)
    requires Resettled(S, T) && SameUsers(S, T, rank, k) && i < |S.g| && rank[i] < k
    ensures Value(S, rank, i) == Value(T, rank, i)
    decreases rank[i]
  {
    if i != S.modules {
      forall j | 0 <= j < |S.g| && rank[j] < rank[i] ensures Value(S, rank, j) == Value(T, rank, j) {
        ValueUnmoved(S, T, rank, k, j);
      }
      EarlierEqual(S, T, rank, rank[i]);
      LocalUser(S, T, i, Earlier(S, rank, rank[i]));
    }
  }

  lemma EarlierEqual(S: Setup, S': Setup, rank: seq<nat>, k: nat)
    requires WellFormed(S) && WellFormed(S') && Ranked(S, rank) && Ranked(S', rank) && |S.g| == |S'.g|
    requires forall j | 0 <= j < |S.g| && rank[j] < k :: Value(S, rank, j) == Value(S', rank, j)
    ensures Earlier(S, rank, k) == Earlier(S', rank, k)
  {
  }

  lemma EarlierUnmoved(S: Setup, T: Setup, rank: seq<nat>, k: nat)
    requires WellFormed(S) && WellFormed(T) && Ranked(S, rank) && Ranked(T, rank)
    requires Resettled(S, T) && SameUsers(S, T, rank, k)
    ensures Earlier(S, rank, k) == Earlier(T, rank, k)
  {
    forall j | 0 <= j < |S.g| && rank[j] < k ensures Value(S, rank, j) == Value(T, rank, j) {
      ValueUnmoved(S, T, rank, k, j);
    }
    EarlierEqual(S, T, rank, k);
  }

  /** An accepted value takes effect exactly when the dependencies of the symbol are met or
      nothing selects it; settings of symbols that come later may change as well. */
  lemma AcceptedTakesEffect(S: Setup, T: Setup, rank: seq<nat>, s: nat, val: Tri)
    requires WellFormed(S) && Ranked(S, rank) && s < |S.g| && s != S.modules && S.g[s].kind.Plain?
    requires WithinRange(S, s, Value(S, rank, s), val) && SetIn(S, T, rank, s, val)
    ensures WellFormed(T) && Ranked(T, rank)
    ensures var o := Value(S, rank, s); Value(T, rank, s).tri == val <==> (o.dir != NO || o.rev == NO)
  {
    ResettledOk(S, T, rank);
    EarlierUnmoved(S, T, rank, rank[s]);
    var t := Earlier(S, rank, rank[s]);
    VisibleUser(S, T, s, Val(S, t));
    assert KindOk(S, s);
    assert Value(S, rank, s) == Local(S, s, t) && Value(T, rank, s) == Local(T, s, t);
  }

  /** MODULES, symbol `m`, is worth what it was when no setting of it or of what comes before it changes: the
      input of the epoch stays right. */
  lemma ModulesUnmoved(S: Setup, T: Setup, rank: seq<nat>, m: nat)
    requires WellFormed(S) && Ranked(S, rank) && Resettled(S, T) && m < |S.g|
    requires SameUsers(S, T, rank, rank[m] + 1)
    ensures WellFormed(T) && Ranked(T, rank) && Value(T, rank, m) == Value(S, rank, m)
  {
    ResettledOk(S, T, rank);
    ValueUnmoved(S, T, rank, rank[m] + 1, m);
  }

  // ----- setting a choice value -----

  /** In `T` the user has picked value `s` of choice `c`, and nothing changed in the settings of what comes
      before the choice. */
  ghost predicate PickedIn(S: Setup, T: Setup, rank: seq<nat>, c: nat, s: nat) {
    && Resettled(S, T) && |rank| == |S.users| && c < |rank| && s < |rank|
    && S.g[s].kind == ChoiceValue(c) && S.g[c].kind.Choice? && s in S.g[c].kind.values
    && T.users[c] == User(true, S.users[c].tri, Some(s)) && SameUsers(S, T, rank, rank[c])
  }

  /** A choice in mode y stays in mode y when it gets a user flag. */
  lemma ModeKept(S: Setup, T: Setup, rank: seq<nat>, c: nat, s: nat, t: Table)
    requires WellFormed(S) && WellFormed(T) && PickedIn(S, T, rank, c, s) && |t| == |S.g| && c != S.modules
    requires Local(S, c, t).tri == YES && Visible(S, s, ValYes(S, t, c)) != NO
    ensures Local(T, c, t).tri == YES && Local(T, c, t).pick == Some(s)
  {
    VisibleUser(S, T, c, Val(S, t));
    var visible, d, v := Visible(S, c, Val(S, t)), S.g[c], Val(S, t);
    SettledKept(S, T, rank, c, s, t, visible, DepTri(S, c, visible, d.dirDep, YES, v),
                DepTri(S, c, visible, d.revDep, NO, v), DepTri(S, c, visible, d.implied, NO, v));
  }

  lemma SettledKept(S: Setup, T: Setup, rank: seq<nat>, c: nat, s: nat, t: Table, visible: Tri, dir: Tri, rev: Tri, imp: Tri)
    requires WellFormed(S) && WellFormed(T) && PickedIn(S, T, rank, c, s) && |t| == |S.g|
    requires Settle(S, c, t, visible, dir, rev, imp).tri == YES && Visible(S, s, ValYes(S, t, c)) != NO
    ensures var o := Settle(T, c, t, visible, dir, rev, imp); o.tri == YES && o.pick == Some(s)
  {
    VisibleUser(S, T, s, ValYes(S, t, c));
    assert Pick(T, c, t) == Some(s);
    var v := Val(S, t);
    assert Wanted(S, c, visible, dir, imp, v) <= Wanted(T, c, visible, dir, imp, v);
  }

  /** A visible value picked in a choice that is y is what the choice settles on. */
  lemma PickTakesEffect(S: Setup, T: Setup, rank: seq<nat>, c: nat, s: nat)
    requires WellFormed(S) && Ranked(S, rank) && PickedIn(S, T, rank, c, s) && c != S.modules && s != S.modules
    requires Value(S, rank, c).tri == YES && Value(S, rank, s).visible == YES
    ensures WellFormed(T) && Ranked(T, rank)
    ensures Value(T, rank, c).tri == YES && Value(T, rank, c).pick == Some(s)
    ensures Value(T, rank, s).tri == YES && Value(T, rank, s).visible == YES
  {
    ResettledOk(S, T, rank);
    EarlierUnmoved(S, T, rank, rank[c]);
    assert KindOk(S, s) && KindOk(S, c) && RankedAt(S, rank, s);
    var t, u, w := Earlier(S, rank, rank[c]), Earlier(S, rank, rank[s]), Earlier(T, rank, rank[s]);
    SeenFromChoice(S, rank, c, s, t, u);
    ModeKept(S, T, rank, c, s, t);
    SeenFromChoice(T, rank, c, s, t, w);
    VisibleUser(S, T, s, ValYes(S, t, c));
    assert Value(T, rank, s) == Local(T, s, w) && w[c] == Value(T, rank, c);
  }

  /** The visibility of a value of a choice that is y, from what comes before the choice. */
  lemma SeenFromChoice(S: Setup, rank: seq<nat>, c: nat, s: nat, t: Table, u: Table)
    requires WellFormed(S) && Ranked(S, rank) && s < |S.g| && S.g[s].kind == ChoiceValue(c) && c < |S.g|
    requires SameBelow(S, rank, rank[c], t, u) && u[c].tri == YES
    ensures Visible(S, s, ValYes(S, t, c)) == Visible(S, s, Val(S, u))
  {
    ValueVisibleAgree(S, rank, s, t[c := t[c].(tri := YES)], u);
  }
}
