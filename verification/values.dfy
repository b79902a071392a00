/** What evaluation is worth to the user: the fields of every symbol of a solution, read off its prompts,
    defaults and dependencies by position instead of by the recursion that computes them. */
module ValueLaws {
  import opened Tristates
  import opened Exprs
  import opened SymbolSpec
  import opened SymbolLaws

  function Lesser(a: Tri, b: Tri): Tri { if a <= b then a else b }

  function Greater(a: Tri, b: Tri): Tri { if a <= b then b else a }

  /** A symbol that cannot be m is y instead. */
  function Rounded(S: Setup, s: nat, x: Tri): Tri
    requires s < |S.g|
  {
    if x == MOD && (S.g[s].typ != TristateType || S.modulesVal == NO) then YES else x
  }

  // ----- defaults -----

  /** Default `k` is the first whose condition is not n. */
  predicate Taken(ds: seq<Default>, k: nat, v: Valuation) {
    k < |ds| && EvalOpt(ds[k].cond, v) != NO && forall j | 0 <= j < k :: EvalOpt(ds[j].cond, v) == NO
  }

  /** What the defaults give: the first that applies, no more than its condition; n if none does. */
  ghost predicate DefaultIs(ds: seq<Default>, v: Valuation, x: Tri) {
    || (exists k: nat :: Taken(ds, k, v) && x == Lesser(Eval(ds[k].value, v), EvalOpt(ds[k].cond, v)))
    || (x == NO && forall j | 0 <= j < |ds| :: EvalOpt(ds[j].cond, v) == NO)
  }

  lemma {:induction false} TakenIsFound(ds: seq<Default>, v: Valuation, k: nat)
    requires Taken(ds, k, v)
    ensures FirstDefault(ds, v) == Some(ds[k])
  {
    if k > 0 { TakenIsFound(ds[1..], v, k - 1); }
  }

  lemma {:induction false} FoundIsTaken(ds: seq<Default>, v: Valuation) returns (k: nat)
    ensures FirstDefault(ds, v).Some? ==> Taken(ds, k, v)
    ensures FirstDefault(ds, v).None? ==> forall j | 0 <= j < |ds| :: EvalOpt(ds[j].cond, v) == NO
  {
    k := 0;
    if ds != [] && EvalOpt(ds[0].cond, v) == NO {
      var i := FoundIsTaken(ds[1..], v);
      k := i + 1;
      assert forall j | 0 < j < |ds| :: ds[1..][j - 1] == ds[j];
    }
  }

  /** Exactly one value qualifies, the one that sym_calc_value takes. */
  lemma DefaultIsFound(ds: seq<Default>, v: Valuation, x: Tri)
    ensures DefaultIs(ds, v, x) <==> x == var d := FirstDefault(ds, v); if d.Some? then DefaultTri(d.value, v) else NO
  {
    var k := FoundIsTaken(ds, v);
    forall i: nat | Taken(ds, i, v) ensures FirstDefault(ds, v) == Some(ds[i]) { TakenIsFound(ds, v, i); }
  }

  // ----- visibility -----

  /** One prompt: its condition, where m means nothing in a tristate value of a choice that is y. */
  function Shown(S: Setup, t: Table, s: nat, p: OptExpr): Tri
    requires s < |S.g| && |t| == |S.g| && (S.g[s].kind.ChoiceValue? ==> S.g[s].kind.choice < |S.g|)
  {
    var w, k := EvalOpt(p, Val(S, t)), S.g[s].kind;
    if k.ChoiceValue? && S.g[s].typ == TristateType && t[k.choice].tri == YES && w != YES then NO else w
  }

  /** `x` is the highest of the prompts. */
  ghost predicate Highest(S: Setup, t: Table, s: nat, ps: seq<OptExpr>, x: Tri)
    requires s < |S.g| && |t| == |S.g| && (S.g[s].kind.ChoiceValue? ==> S.g[s].kind.choice < |S.g|)
  {
    && (forall p <- ps :: Shown(S, t, s, p) <= x)
    && (x == NO || exists p <- ps :: Shown(S, t, s, p) == x)
  }

  lemma {:induction false} OrIsHighest(S: Setup, t: Table, s: nat, ps: seq<OptExpr>)
    requires s < |S.g| && |t| == |S.g|
    requires S.g[s].kind.ChoiceValue? ==> S.g[s].kind.choice < |S.g| && S.g[S.g[s].kind.choice].typ != UnknownType
    ensures Highest(S, t, s, ps, OrPrompts(S, s, ps, Val(S, t)))
  {
    if ps != [] {
      var q, p := ps[..|ps| - 1], ps[|ps| - 1];
      OrIsHighest(S, t, s, q);
      assert ps == q + [p];
      assert p in ps;
      assert Shown(S, t, s, p) == PromptTri(S, s, p, Val(S, t));
    }
  }

  /** A symbol is as visible as its most visible prompt. */
  lemma VisibleIsHighest(S: Setup, t: Table, s: nat, x: Tri)
    requires IsSolution(S, t) && s < |S.g| && s != S.modules && S.g[s].typ != UnknownType
    requires S.g[s].kind.ChoiceValue? ==> S.g[s].kind.choice < |S.g|
    requires Highest(S, t, s, S.g[s].prompts, x)
    ensures t[s].visible == Rounded(S, s, x)
  {
    assert KindOk(S, s) && t[s] == Local(S, s, t);
    OrIsHighest(S, t, s, S.g[s].prompts);
  }

  // ----- the three dependencies -----

  /** A missing direct dependency is y, a missing reverse dependency or imply is n. */
  lemma DepsAre(S: Setup, t: Table, s: nat)
    requires IsSolution(S, t) && s < |S.g| && s != S.modules && S.g[s].typ != UnknownType && !S.g[s].kind.ChoiceValue?
    ensures var d, v := S.g[s], Val(S, t);
      && t[s].dir == Rounded(S, s, if d.dirDep.Some? then Eval(d.dirDep.value, v) else YES)
      && t[s].rev == Rounded(S, s, if d.revDep.Some? then Eval(d.revDep.value, v) else NO)
      && t[s].imp == Rounded(S, s, if d.implied.Some? then Eval(d.implied.value, v) else NO)
  {
    assert KindOk(S, s) && t[s] == Local(S, s, t);
  }

  // ----- the value -----

  /** The value before selects: the user's as far as the symbol is visible; without one the default, raised to what
      is implied as far as the direct dependency allows. */
  ghost predicate WantedIs(S: Setup, t: Table, s: nat, x: Tri)
    requires s < |S.g| == |t| == |S.users|
  {
    if S.users[s].has && t[s].visible != NO then x == Lesser(S.users[s].tri, t[s].visible)
    else if S.g[s].kind.Choice? then x == NO
    else exists d: Tri :: DefaultIs(S.g[s].defaults, Val(S, t), d)
                          && x == if t[s].imp == NO then d else Lesser(Greater(d, t[s].imp), t[s].dir)
  }

  /** A select raises the value, or makes it n where the dependency is not met. */
  function Selected(S: Setup, s: nat, o: Info, x: Tri): Tri
    requires s < |S.g|
  {
    if o.rev != NO && o.dir == NO then NO else Rounded(S, s, Greater(x, o.rev))
  }

  lemma WantedIsWanted(S: Setup, t: Table, s: nat, x: Tri)
    requires IsSolution(S, t) && s < |S.g| && s != S.modules && S.g[s].typ != UnknownType
    ensures WantedIs(S, t, s, x) <==> x == Wanted(S, s, t[s].visible, t[s].dir, t[s].imp, Val(S, t))
  {
    var ds, v := S.g[s].defaults, Val(S, t);
    var f := FirstDefault(ds, v);
    var y := if f.Some? then DefaultTri(f.value, v) else NO;
    DefaultIsFound(ds, v, y);
    if !(S.users[s].has && t[s].visible != NO) && !S.g[s].kind.Choice? && WantedIs(S, t, s, x) {
      var d: Tri :| DefaultIs(ds, v, d) && x == if t[s].imp == NO then d else Lesser(Greater(d, t[s].imp), t[s].dir);
      DefaultIsFound(ds, v, d);
    }
  }

  /** The value of a symbol that no choice decides on: exactly one value is wanted, and the symbol has it after
      selects and rounding. */
  lemma ValueIs(S: Setup, t: Table, s: nat, x: Tri)
    requires IsSolution(S, t) && s < |S.g| && s != S.modules && S.g[s].typ != UnknownType
    requires S.g[s].kind.Plain? || (S.g[s].kind.ChoiceValue? && t[s].visible != YES)
    ensures exists y: Tri :: WantedIs(S, t, s, y)
    ensures WantedIs(S, t, s, x) ==> t[s].tri == Selected(S, s, t[s], x)
  {
    WantedIsWanted(S, t, s, x);
    var y := Wanted(S, s, t[s].visible, t[s].dir, t[s].imp, Val(S, t));
    WantedIsWanted(S, t, s, y);
    assert KindOk(S, s) && t[s] == Local(S, s, t);
  }

  /** A symbol without a user value that nothing selects or implies is worth its first default that applies. */
  lemma DefaultTakes(S: Setup, t: Table, s: nat, k: nat)
    requires IsSolution(S, t) && s < |S.g| && s != S.modules && S.g[s].typ != UnknownType && S.g[s].kind.Plain?
    requires !S.users[s].has || t[s].visible == NO
    requires t[s].imp == NO && t[s].rev == NO
    requires Taken(S.g[s].defaults, k, Val(S, t))
    ensures var d := S.g[s].defaults[k];
      t[s].tri == Rounded(S, s, Lesser(Eval(d.value, Val(S, t)), EvalOpt(d.cond, Val(S, t))))
  {
    var d := S.g[s].defaults[k];
    var x := Lesser(Eval(d.value, Val(S, t)), EvalOpt(d.cond, Val(S, t)));
    assert DefaultIs(S.g[s].defaults, Val(S, t), x);
    assert WantedIs(S, t, s, x);
    ValueIs(S, t, s, x);
  }

  /** A symbol that is no choice value gets a line in .config exactly when it is visible, selected or implied, or
      one of its defaults applies. */
  lemma WrittenIs(S: Setup, t: Table, s: nat)
    requires IsSolution(S, t) && s < |S.g| && s != S.modules && S.g[s].typ != UnknownType && S.g[s].kind.Plain?
    ensures t[s].write <==> t[s].visible != NO || t[s].rev != NO || t[s].imp != NO
                            || exists f <- S.g[s].defaults :: EvalOpt(f.cond, Val(S, t)) != NO
  {
    var ds, v := S.g[s].defaults, Val(S, t);
    var k := FoundIsTaken(ds, v);
    if f :| f in ds && EvalOpt(f.cond, v) != NO {
      var j :| 0 <= j < |ds| && ds[j] == f;
    }
    assert KindOk(S, s) && t[s] == Local(S, s, t);
  }

  // ----- choices -----

  /** A value of the choice can be seen once the choice is y. */
  predicate InView(S: Setup, t: Table, c: nat, i: nat)
    requires c < |t| && i < |S.g| && (S.g[i].kind.ChoiceValue? ==> S.g[i].kind.choice < |S.g|)
  {
    Visible(S, i, ValYes(S, t, c)) != NO
  }

  /** Default `k` of the choice applies and can be seen. */
  ghost predicate DefaultSeen(S: Setup, t: Table, c: nat, k: nat)
    requires c < |S.g| == |t| == |S.users| && S.g[c].kind.Choice? && KindOk(S, c)
  {
    var ps := S.g[c].kind.picks;
    k < |ps| && EvalOpt(ps[k].cond, Val(S, t)) != NO && InView(S, t, c, ps[k].target)
  }

  ghost predicate ValueSeen(S: Setup, t: Table, c: nat, k: nat)
    requires c < |S.g| == |t| == |S.users| && S.g[c].kind.Choice? && KindOk(S, c)
  {
    var vs := S.g[c].kind.values;
    k < |vs| && (assert vs[k] in vs; InView(S, t, c, vs[k]))
  }

  /** What choice `c` settles on: the user's pick if it can be seen, else the target of the first default that
      applies and can be seen, else the first value that can. */
  ghost predicate SettlesOn(S: Setup, t: Table, c: nat, i: nat)
    requires c < |S.g| == |t| == |S.users| && S.g[c].kind.Choice? && KindOk(S, c)
  {
    var u, ps, vs := S.users[c].pick, S.g[c].kind.picks, S.g[c].kind.values;
    if u.Some? && InView(S, t, c, u.value) then i == u.value
    else if exists k: nat :: DefaultSeen(S, t, c, k) then
      exists k: nat :: DefaultSeen(S, t, c, k) && i == ps[k].target && forall j: nat | j < k :: !DefaultSeen(S, t, c, j)
    else exists k: nat :: ValueSeen(S, t, c, k) && i == vs[k] && forall j: nat | j < k :: !ValueSeen(S, t, c, j)
  }

  lemma {:induction false} PickIsFirst(S: Setup, t: Table, c: nat, k: nat) returns (i: nat)
    requires c < |S.g| == |t| == |S.users| && S.g[c].kind.Choice? && KindOk(S, c)
    requires k <= |S.g[c].kind.picks|
    ensures var ps := S.g[c].kind.picks;
      if FirstPick(S, ps[k..], Val(S, t), ValYes(S, t, c)).Some? then
        && DefaultSeen(S, t, c, i) && FirstPick(S, ps[k..], Val(S, t), ValYes(S, t, c)) == Some(ps[i].target)
        && k <= i && forall j: nat | k <= j < i :: !DefaultSeen(S, t, c, j)
      else forall j: nat | k <= j :: !DefaultSeen(S, t, c, j)
    decreases |S.g[c].kind.picks| - k
  {
    var ps := S.g[c].kind.picks;
    i := k;
    if k < |ps| && !DefaultSeen(S, t, c, k) {
      assert ps[k..][1..] == ps[k + 1..];
      i := PickIsFirst(S, t, c, k + 1);
    }
  }

  lemma {:induction false} ValueIsFirst(S: Setup, t: Table, c: nat, k: nat) returns (i: nat)
    requires c < |S.g| == |t| == |S.users| && S.g[c].kind.Choice? && KindOk(S, c)
    requires k <= |S.g[c].kind.values|
    ensures var vs := S.g[c].kind.values;
      if FirstVisible(S, vs[k..], ValYes(S, t, c)).Some? then
        && ValueSeen(S, t, c, i) && FirstVisible(S, vs[k..], ValYes(S, t, c)) == Some(vs[i])
        && k <= i && forall j: nat | k <= j < i :: !ValueSeen(S, t, c, j)
      else forall j: nat | k <= j :: !ValueSeen(S, t, c, j)
    decreases |S.g[c].kind.values| - k
  {
    var vs := S.g[c].kind.values;
    i := k;
    if k < |vs| && !ValueSeen(S, t, c, k) {
      assert vs[k..][1..] == vs[k + 1..];
      i := ValueIsFirst(S, t, c, k + 1);
    }
  }

  lemma DefaultSettles(S: Setup, t: Table, c: nat, k: nat, i: nat)
    requires c < |S.g| == |t| == |S.users| && S.g[c].kind.Choice? && KindOk(S, c)
    requires S.users[c].pick.Some? ==> !InView(S, t, c, S.users[c].pick.value)
    requires DefaultSeen(S, t, c, k) && forall j: nat | j < k :: !DefaultSeen(S, t, c, j)
    ensures SettlesOn(S, t, c, i) <==> i == S.g[c].kind.picks[k].target
  {
  }

  lemma ValueSettles(S: Setup, t: Table, c: nat, k: nat, i: nat)
    requires c < |S.g| == |t| == |S.users| && S.g[c].kind.Choice? && KindOk(S, c)
    requires S.users[c].pick.Some? ==> !InView(S, t, c, S.users[c].pick.value)
    requires forall j: nat :: !DefaultSeen(S, t, c, j)
    requires ValueSeen(S, t, c, k) && forall j: nat | j < k :: !ValueSeen(S, t, c, j)
    ensures SettlesOn(S, t, c, i) <==> i == S.g[c].kind.values[k]
  {
  }

  lemma InViewIsValue(S: Setup, t: Table, c: nat, i: nat)
    requires c < |S.g| == |t| == |S.users| && S.g[c].kind.Choice? && KindOk(S, c)
    requires i in S.g[c].kind.values && InView(S, t, c, i)
    ensures exists j: nat :: ValueSeen(S, t, c, j)
  {
    var j :| 0 <= j < |S.g[c].kind.values| && S.g[c].kind.values[j] == i;
    assert ValueSeen(S, t, c, j);
  }

  /** A choice settles on exactly one value, unless none can be seen. */
  lemma PickSettles(S: Setup, t: Table, c: nat, i: nat)
    requires WellFormed(S) && c < |S.g| == |t| && S.g[c].kind.Choice?
    ensures KindOk(S, c)
    ensures Pick(S, c, t).Some? <==> exists k: nat :: ValueSeen(S, t, c, k)
    ensures SettlesOn(S, t, c, i) <==> Pick(S, c, t) == Some(i)
  {
    assert KindOk(S, c);
    var u, ps, vs := S.users[c].pick, S.g[c].kind.picks, S.g[c].kind.values;
    assert ps[0..] == ps && vs[0..] == vs;
    if u.Some? && InView(S, t, c, u.value) {
      InViewIsValue(S, t, c, u.value);
    } else {
      var k := PickIsFirst(S, t, c, 0);
      if FirstPick(S, ps, Val(S, t), ValYes(S, t, c)).Some? {
        DefaultSettles(S, t, c, k, i);
        InViewIsValue(S, t, c, ps[k].target);
      } else {
        var l := ValueIsFirst(S, t, c, 0);
        if FirstVisible(S, vs, ValYes(S, t, c)).Some? { ValueSettles(S, t, c, l, i); }
      }
    }
  }

  /** The mode of a choice and what it settles on. */
  lemma ChoiceIs(S: Setup, t: Table, c: nat, x: Tri)
    requires IsSolution(S, t) && c < |S.g| && c != S.modules && S.g[c].typ != UnknownType && S.g[c].kind.Choice?
    requires WantedIs(S, t, c, x)
    ensures KindOk(S, c)
    ensures var y := Selected(S, c, t[c], x);
      if y != YES then t[c].tri == y && t[c].pick.None?
      else if exists k: nat :: ValueSeen(S, t, c, k) then
        t[c].tri == YES && t[c].pick.Some? && SettlesOn(S, t, c, t[c].pick.value)
      else t[c].tri == NO && t[c].pick.None?
  {
    WantedIsWanted(S, t, c, x);
    assert t[c] == Local(S, c, t);
    PickSettles(S, t, c, if t[c].pick.Some? then t[c].pick.value else 0);
  }

  /** In a choice that is y the values that can be seen are those that are visible. */
  lemma SeenIsVisible(S: Setup, t: Table, c: nat, i: nat)
    requires IsSolution(S, t) && c < |S.g| && S.g[c].kind.Choice? && t[c].tri == YES && i < |S.g| && i != S.modules
    requires S.g[i].kind == ChoiceValue(c)
    ensures InView(S, t, c, i) <==> t[i].visible != NO
  {
    assert t[c := t[c].(tri := YES)] == t;
    assert KindOk(S, i) && t[i] == Local(S, i, t);
  }

  // ----- all symbols -----

  /** `val` is what symbol `s` is worth by its place: a visible choice value is y exactly if its choice settled on
      it, a choice that would be y is n if none of its values can be seen. */
  ghost predicate Decided(S: Setup, t: Table, s: nat, val: Tri)
    requires WellFormed(S) && s < |S.g| == |t|
  {
    var k := S.g[s].kind;
    if k.ChoiceValue? && t[s].visible == YES then
      val == OfBool(k.choice < |t| && t[k.choice].pick == Some(s))
    else
      exists x: Tri :: WantedIs(S, t, s, x) && val ==
        if k.Choice? && Selected(S, s, t[s], x) == YES then OfBool(KindOk(S, s) && exists j: nat :: ValueSeen(S, t, s, j))
        else Selected(S, s, t[s], x)
  }

  /** A solution gives every symbol the value its place gives it, and no other. */
  lemma SolutionDecides(S: Setup, t: Table, s: nat, val: Tri)
    requires IsSolution(S, t) && s < |S.g| && s != S.modules && S.g[s].typ != UnknownType
    ensures Decided(S, t, s, val) <==> val == t[s].tri
    ensures S.g[s].kind.Choice? && t[s].tri == YES ==> KindOk(S, s) && t[s].pick.Some? && SettlesOn(S, t, s, t[s].pick.value)
  {
    assert KindOk(S, s) && t[s] == Local(S, s, t);
    var y := Wanted(S, s, t[s].visible, t[s].dir, t[s].imp, Val(S, t));
    forall x: Tri ensures WantedIs(S, t, s, x) <==> x == y { WantedIsWanted(S, t, s, x); }
    if S.g[s].kind.Choice? {
      ChoiceIs(S, t, s, y);
    } else if !S.g[s].kind.ChoiceValue? || t[s].visible != YES {
      ValueIs(S, t, s, y);
    }
  }

  // ----- which values are accepted -----

  /** The same configuration with `s` set to `val`. */
  function WithUser(S: Setup, s: nat, val: Tri): Setup
    requires s < |S.users|
  {
    S.(users := S.users[s := User(true, val, S.users[s].pick)])
  }

  /** Set to `val`, symbol `s` would be `val`. */
  ghost predicate Attains(S: Setup, rank: seq<nat>, s: nat, val: Tri)
    requires s < |S.users| == |S.g|
  {
    var T := WithUser(S, s, val);
    WellFormed(T) && Ranked(T, rank) && Value(T, rank, s).tri == val
  }

  /** The values sym_set_tristate_value takes for a symbol that no choice decides on: none while it is no more
      visible than selected; else exactly those it would have, which only the dependency of a selected symbol can
      still prevent. */
  lemma AcceptedIsAttained(S: Setup, rank: seq<nat>, s: nat, val: Tri)
    requires WellFormed(S) && Ranked(S, rank) && s < |S.g| && s != S.modules && S.g[s].typ != UnknownType
    requires var o := Value(S, rank, s); S.g[s].kind.Plain? || (S.g[s].kind.ChoiceValue? && o.visible != YES)
    ensures var o := Value(S, rank, s);
      && (o.visible <= o.rev ==> !WithinRange(S, s, o, val))
      && (o.visible > o.rev && (o.dir != NO || o.rev == NO) ==> (WithinRange(S, s, o, val) <==> Attains(S, rank, s, val)))
      && (WithinRange(S, s, o, val) <==> WithinRange(S, s, o.(dir := YES), val))
  {
    var T, t := WithUser(S, s, val), Earlier(S, rank, rank[s]);
    ResettledOk(S, T, rank);
    EarlierUnmoved(S, T, rank, rank[s]);
    VisibleUser(S, T, s, Val(S, t));
    assert KindOk(S, s) && KindOk(S, S.modules);
    assert Value(S, rank, s) == Local(S, s, t) && Value(T, rank, s) == Local(T, s, t);
  }

  /** A visible value of a choice takes y and nothing else. */
  lemma ValueAccepts(S: Setup, rank: seq<nat>, s: nat, val: Tri)
    requires WellFormed(S) && Ranked(S, rank) && s < |S.g| && s != S.modules && S.g[s].kind.ChoiceValue?
    requires Value(S, rank, s).visible == YES
    ensures WithinRange(S, s, Value(S, rank, s), val) <==> val == YES
  {
    assert KindOk(S, s) && Value(S, rank, s) == Local(S, s, Earlier(S, rank, rank[s]));
  }
}
