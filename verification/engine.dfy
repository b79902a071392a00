/** The evaluator of scripts/config/symbol.c as it runs: memoised by SYMBOL_VALID, recursive
    through the symbols an expression mentions, writing its results into the symbol table. */
module Engine {
  import opened Tristates
  import opened Exprs
  import opened SymbolSpec
  import opened SymbolLaws
  import opened ValueLaws

  /** The fields of struct symbol that evaluation writes, and the user's setting:
      `pick` is curr.val of a choice, `has` is SYMBOL_DEF_USER, `write` is SYMBOL_WRITE. */
  datatype State = State(
    valid: bool, curr: Tri, pick: Option<nat>, visible: Tri, dir: Tri, rev: Tri, imp: Tri, write: bool,
    has: bool, userTri: Tri, userPick: Option<nat>)

  /** One epoch: the inputs, an order of the dependencies, and what the plain recursion gives. */
  datatype Epoch = Epoch(S: Setup, rank: seq<nat>, sol: Table)

  ghost predicate EpochOk(x: Epoch) { IsSolution(x.S, x.sol) && Ranked(x.S, x.rank) }

  /** A symbol's fields hold its solution. */
  ghost predicate Agrees(x: Epoch, i: nat, o: State)
    requires i < |x.S.g| == |x.sol| == |x.S.users|
  {
    var t := x.sol[i];
    && o.curr == t.tri
    && (x.S.g[i].typ != UnknownType && i != x.S.modules ==>
          && o.pick == t.pick && o.visible == t.visible && o.dir == t.dir && o.rev == t.rev && o.imp == t.imp
          && (!x.S.g[i].kind.ChoiceValue? ==> o.write == t.write))
    && (i != x.S.modules ==> o.has == FlagAfter(x.S, x.sol, i))
  }

  /** SYMBOL_DEF_USER after evaluation: a choice that reaches mode y loses it when a visible value of it
      has no user value. */
  predicate FlagAfter(S: Setup, t: Table, i: nat)
    requires i < |S.g| == |t| && |S.users| == |S.g|
  {
    S.users[i].has && (Looks(S, t, i) ==> AllFlags(S, t, S.g[i].kind.values))
  }

  predicate AllFlags(S: Setup, t: Table, vs: seq<nat>)
    requires |S.users| == |S.g| == |t|
  {
    forall j <- vs :: ValueFlag(S, t, j)
  }

  lemma OneMoreFlag(S: Setup, t: Table, vs: seq<nat>, i: nat)
    requires |S.users| == |S.g| == |t| && i < |vs|
    ensures AllFlags(S, t, vs[..i + 1]) <==> AllFlags(S, t, vs[..i]) && ValueFlag(S, t, vs[i])
  {
    assert vs[..i + 1] == vs[..i] + [vs[i]];
  }

  predicate ValueFlag(S: Setup, t: Table, j: nat)
    requires |S.users| == |S.g| == |t|
  {
    j < |S.g| && t[j].visible != NO ==> S.users[j].has
  }

  /** The choice `i` reaches mode y and looks for the value it settles on. */
  predicate Looks(S: Setup, t: Table, i: nat)
    requires i < |S.g| == |t| && |S.users| == |S.g|
  {
    && S.g[i].kind.Choice? && S.g[i].typ != UnknownType
    && ModeTri(S, t, i) == YES
  }

  function ModeTri(S: Setup, t: Table, i: nat): Tri
    requires i < |S.g| == |t| && |S.users| == |S.g|
  {
    Promote(S, i, t[i].visible, WithSelects(Wanted(S, i, t[i].visible, t[i].dir, t[i].imp, Val(S, t)), t[i].dir, t[i].rev))
  }

  ghost predicate InvAt(x: Epoch, busy: set<nat>, i: nat, o: State)
    requires EpochOk(x) && i < |x.S.g|
  {
    && (i in busy ==> o.valid && i != x.S.modules && x.S.g[i].typ != UnknownType)
    && (o.valid && i !in busy ==> Agrees(x, i, o))
    && (!o.valid || !x.S.g[i].kind.Choice? ==> o.has == x.S.users[i].has)
    && o.userTri == x.S.users[i].tri && o.userPick == x.S.users[i].pick
    && (x.S.g[i].kind.ChoiceValue? ==> o.dir == NO && o.rev == NO && o.imp == NO)
  }

  /** Symbols in `busy` are being computed: they are marked valid but hold nothing final.
      Every other valid symbol holds its solution. */
  ghost predicate Inv(x: Epoch, busy: set<nat>, st: seq<State>) {
    && EpochOk(x) && |st| == |x.S.g|
    && (forall b <- busy :: b < |st|)
    && st[x.S.modules].valid
    && forall i | 0 <= i < |st| :: InvAt(x, busy, i, st[i])
  }

  /** The order number that decides which calls may write a symbol: that of its choice, if any. */
  ghost function Group(x: Epoch, i: nat): nat
    requires EpochOk(x) && i < |x.S.g|
  {
    assert KindOk(x.S, i);
    if x.S.g[i].kind.ChoiceValue? then x.rank[x.S.g[i].kind.choice] else x.rank[i]
  }

  /** What a call may do to symbol `i`: nothing from group `k` on; and a symbol being computed
      keeps its results, except that its choice may store its visibility. */
  ghost predicate FramedAt(x: Epoch, k: nat, busy: set<nat>, i: nat, o: State, n: State)
    requires EpochOk(x) && i < |x.S.g|
  {
    && (o.valid ==> n.valid)
    && (Group(x, i) >= k ==> n == o)
    && (i in busy ==> FramedBusy(x.sol[i], o, n))
  }

  ghost predicate FramedBusy(t: Info, o: State, n: State) {
    && n.curr == o.curr && n.pick == o.pick && n.has == o.has
    && (n.visible == o.visible || n.visible == t.visible)
  }

  ghost predicate Framed(x: Epoch, k: nat, busy: set<nat>, st0: seq<State>, st1: seq<State>)
    requires EpochOk(x)
  {
    |st0| == |st1| == |x.S.g| && forall i | 0 <= i < |st0| :: FramedAt(x, k, busy, i, st0[i], st1[i])
  }

  lemma FramedTrans(x: Epoch, k: nat, k': nat, busy: set<nat>, st0: seq<State>, st1: seq<State>, st2: seq<State>)
    requires EpochOk(x) && Framed(x, k', busy, st0, st1) && Framed(x, k, busy, st1, st2) && k' <= k
    ensures Framed(x, k, busy, st0, st2)
  {
    forall i | 0 <= i < |st0| ensures FramedAt(x, k, busy, i, st0[i], st2[i]) {
      assert FramedAt(x, k', busy, i, st0[i], st1[i]) && FramedAt(x, k, busy, i, st1[i], st2[i]);
    }
  }

  /** A symbol an expression may ask for: one being computed that already shows the value of
      table `t`, or one of a lower number. */
  ghost predicate ReadySym(x: Epoch, k: nat, busy: set<nat>, st: seq<State>, t: Table, i: nat)
    requires EpochOk(x) && |st| == |t| == |x.S.g|
  {
    i < |st| && if i in busy then st[i].curr == t[i].tri else x.rank[i] < k && t[i].tri == x.sol[i].tri
  }

  ghost predicate Ready(x: Epoch, k: nat, busy: set<nat>, st: seq<State>, t: Table, e: OptExpr)
    requires EpochOk(x) && |st| == |t| == |x.S.g|
  {
    e.Some? ==> ExprOk(x.S.g, e.value) && forall y <- Mentions(e.value) :: y.Config? ==> ReadySym(x, k, busy, st, t, y.id)
  }

  /** The callers' symbols stay ready while lower ones are computed. */
  lemma ReadyKept(x: Epoch, k: nat, busy: set<nat>, st0: seq<State>, st1: seq<State>, t: Table, e: OptExpr)
    requires EpochOk(x) && |t| == |x.S.g| && Framed(x, k, busy, st0, st1)
    requires Ready(x, k, busy, st0, t, e)
    ensures Ready(x, k, busy, st1, t, e)
  {
    if e.Some? {
      forall y <- Mentions(e.value) | y.Config? ensures ReadySym(x, k, busy, st1, t, y.id) {
        assert ReadySym(x, k, busy, st0, t, y.id);
        assert FramedAt(x, k, busy, y.id, st0[y.id], st1[y.id]);
      }
    }
  }

  /** What sym_clear_all_valid does not touch is right for the epoch that begins. */
  ghost predicate Cleared(x: Epoch, i: nat, o: State)
    requires EpochOk(x) && i < |x.S.g|
  {
    && o.has == x.S.users[i].has && o.userTri == x.S.users[i].tri && o.userPick == x.S.users[i].pick
    && (x.S.g[i].kind.ChoiceValue? ==> o.dir == NO && o.rev == NO && o.imp == NO)
  }

  /** Setting choice value `s` to y also picks it in its choice. */
  predicate Picks(g: seq<Def>, s: nat, val: Tri) {
    s < |g| && g[s].kind.ChoiceValue? && val == YES && g[s].kind.choice < |g| && g[g[s].kind.choice].kind.Choice?
  }

  /** The symbols after the user has picked `s` in its choice: the choice and its visible values have user
      values now. */
  function PickState(g: seq<Def>, st: seq<State>, s: nat): seq<State>
    requires Picks(g, s, YES)
  {
    var c := g[s].kind.choice;
    seq(|st|, i requires 0 <= i < |st| => Picked(g, st[i], i, c, s))
  }

  function Picked(g: seq<Def>, o: State, i: nat, c: nat, s: nat): State
    requires c < |g| && g[c].kind.Choice?
  {
    if i == c then o.(has := true, userPick := Some(s))
    else if i in g[c].kind.values && o.visible != NO then o.(has := true) else o
  }

  /** The symbols after `s` has been set to `val`. */
  function SetState(g: seq<Def>, st: seq<State>, s: nat, val: Tri): (r: seq<State>)
    requires s < |st|
    ensures |r| == |st|
  {
    var st1 := if Picks(g, s, val) then PickState(g, st, s) else st;
    st1[s := st1[s].(has := true, userTri := val)]
  }

  function UsersOf(st: seq<State>): seq<User> {
    seq(|st|, i requires 0 <= i < |st| => User(st[i].has, st[i].userTri, st[i].userPick))
  }

  /** The user settings after symbol `s` has been set to `val`. */
  function NextUsers(g: seq<Def>, st: seq<State>, s: nat, val: Tri): seq<User>
    requires s < |st|
  {
    UsersOf(SetState(g, st, s, val))
  }

  /** No choice numbered below `k` has lost its user flag. */
  ghost predicate FlagsKept(x: Epoch, st: seq<State>, k: nat)
    requires |st| == |x.S.g| == |x.rank| == |x.S.users|
  {
    forall c | 0 <= c < |st| && x.S.g[c].kind.Choice? && x.rank[c] < k :: st[c].has == x.S.users[c].has
  }

  /** The number below which setting `s` to `val` changes no setting. */
  ghost function Lowest(x: Epoch, s: nat, val: Tri): nat
    requires EpochOk(x) && s < |x.S.g|
  {
    if Picks(x.S.g, s, val) then x.rank[x.S.g[s].kind.choice] else x.rank[s]
  }

  lemma NextSettled(x: Epoch, st: seq<State>, s: nat, val: Tri)
    requires Inv(x, {}, st) && s < |st|
    ensures var T := x.S.(users := NextUsers(x.S.g, st, s, val)); Resettled(x.S, T)
    ensures var T := x.S.(users := NextUsers(x.S.g, st, s, val));
      forall k: nat | k <= Lowest(x, s, val) && FlagsKept(x, st, k) :: SameUsers(x.S, T, x.rank, k)
  {
    var T := x.S.(users := NextUsers(x.S.g, st, s, val));
    forall i | 0 <= i < |st| ensures PickFits(x.S, i, T.users[i].pick) { NextUser(x, st, s, val, i); }
    forall k: nat | k <= Lowest(x, s, val) && FlagsKept(x, st, k) ensures SameUsers(x.S, T, x.rank, k) {
      forall i | 0 <= i < |st| && x.rank[i] < k ensures T.users[i] == x.S.users[i] { NextUser(x, st, s, val, i); }
    }
  }

  lemma NextUser(x: Epoch, st: seq<State>, s: nat, val: Tri, i: nat)
    requires Inv(x, {}, st) && s < |st| && i < |st|
    ensures |NextUsers(x.S.g, st, s, val)| == |st|
    ensures var u := NextUsers(x.S.g, st, s, val)[i];
      PickFits(x.S, i, u.pick)
      && (x.rank[i] < Lowest(x, s, val) && (!x.S.g[i].kind.Choice? || st[i].has == x.S.users[i].has) ==> u == x.S.users[i])
  {
    assert InvAt(x, {}, i, st[i]) && KindOk(x.S, s) && KindOk(x.S, i);
    if Picks(x.S.g, s, val) {
      var c := x.S.g[s].kind.choice;
      assert KindOk(x.S, c) && (s == x.S.modules || RankedAt(x.S, x.rank, s));
      assert i != x.S.modules ==> RankedAt(x.S, x.rank, i);
      assert KindOk(x.S, x.S.modules);
    }
  }

  // ----- a new epoch -----

  /** The epoch that setting `s` begins, under the same modules_val. */
  lemma NextEpoch(x: Epoch, st: seq<State>, s: nat, val: Tri) returns (y: Epoch)
    requires Inv(x, {}, st) && s < |st|
    ensures EpochOk(y) && y.S == x.S.(users := NextUsers(x.S.g, st, s, val)) && y.rank == x.rank
  {
    var T := x.S.(users := NextUsers(x.S.g, st, s, val));
    NextSettled(x, st, s, val);
    ResettledOk(x.S, T, x.rank);
    SolveIsSolution(T, x.rank);
    y := Epoch(T, x.rank, Solve(T, x.rank));
  }

  lemma SetCleared(x: Epoch, y: Epoch, st: seq<State>, s: nat, val: Tri)
    requires Inv(x, {}, st) && s < |st| && s != x.S.modules
    requires EpochOk(y) && y.S == x.S.(users := NextUsers(x.S.g, st, s, val))
    ensures var st1 := SetState(x.S.g, st, s, val);
      (forall i | 0 <= i < |st1| :: Cleared(y, i, st1[i])) && st1[x.S.modules].valid && Agrees(y, x.S.modules, st1[x.S.modules])
  {
    forall i | 0 <= i < |st| ensures Cleared(y, i, SetState(x.S.g, st, s, val)[i]) { assert InvAt(x, {}, i, st[i]); }
    assert InvAt(x, {}, x.S.modules, st[x.S.modules]) && KindOk(x.S, x.S.modules);
  }

  /** What is valid at the end of sym_clear_all_valid holds its value under the old modules_val. */
  lemma StaysWorth(y: Epoch, m: nat, mv: Tri, st: seq<State>, s: nat)
    requires Renewed(y, m, mv, st) && s < |st| && st[s].valid && s != y.S.modules
    ensures Agrees(y, s, st[s]) && y.sol[s] == Value(y.S, y.rank, s)
  {
    assert InvAt(y, {}, s, st[y.S.modules := st[y.S.modules].(curr := y.S.modulesVal)][s]);
    SolutionUnique(y.S, y.rank, y.sol, s);
  }

  lemma AcceptedIn(x: Epoch, y: Epoch, st: seq<State>, s: nat, val: Tri)
    requires Inv(x, {}, st) && s < |st| && s != x.S.modules && x.S.g[s].kind.Plain?
    requires EpochOk(y) && y.S == x.S.(users := NextUsers(x.S.g, st, s, val)) && y.rank == x.rank
    requires WithinRange(x.S, s, x.sol[s], val) && FlagsKept(x, st, x.rank[s])
    ensures y.sol[s].tri == val <==> x.sol[s].dir != NO || x.sol[s].rev == NO
  {
    NextSettled(x, st, s, val);
    SolutionUnique(x.S, x.rank, x.sol, s);
    SolutionUnique(y.S, y.rank, y.sol, s);
    AcceptedTakesEffect(x.S, y.S, x.rank, s, val);
  }

  /** Which values other than the present one a symbol that is no choice takes, without the range they are compared
      with: `ok` says that `val` was taken. */
  ghost predicate AcceptedRight(x: Epoch, s: nat, val: Tri, ok: bool)
    requires EpochOk(x) && s < |x.S.g|
  {
    var o, k := x.sol[s], x.S.g[s].kind;
    if k.ChoiceValue? && o.visible == YES then ok <==> val == YES
    else if k.Choice? then true
    else if o.visible <= o.rev then !ok
    else o.dir != NO || o.rev == NO ==> (ok <==> Attains(x.S, x.rank, s, val))
  }

  lemma Acceptance(x: Epoch, s: nat, val: Tri)
    requires EpochOk(x) && s < |x.S.g| && s != x.S.modules && x.S.g[s].typ != UnknownType
    ensures AcceptedRight(x, s, val, WithinRange(x.S, s, x.sol[s], val))
  {
    SolutionUnique(x.S, x.rank, x.sol, s);
    var k := x.S.g[s].kind;
    if k.ChoiceValue? && x.sol[s].visible == YES {
      ValueAccepts(x.S, x.rank, s, val);
    } else if !k.Choice? {
      AcceptedIsAttained(x.S, x.rank, s, val);
    }
  }

  /** Whose user settings change when `s` is set to `val`: its own, and for a value set to y also those of its choice,
      which gets the pick, and of the visible values, which get the flag and keep the rest. */
  lemma SetTouches(g: seq<Def>, st: seq<State>, s: nat, val: Tri, i: nat)
    requires s < |st| == |g| && i < |st| && (Picks(g, s, val) ==> g[s].kind.choice != s && s in g[g[s].kind.choice].kind.values)
    ensures |NextUsers(g, st, s, val)| == |st|
    ensures var u, v := User(st[i].has, st[i].userTri, st[i].userPick), NextUsers(g, st, s, val)[i];
      if i == s then v == User(true, val, u.pick)
      else if Picks(g, s, val) && i == g[s].kind.choice then v == User(true, u.tri, Some(s))
      else if Picks(g, s, val) && i in g[g[s].kind.choice].kind.values && st[i].visible != NO then v == User(true, u.tri, u.pick)
      else v == u
  {
  }

  /** Setting touches no computed field. */
  lemma SetKeeps(g: seq<Def>, st: seq<State>, s: nat, val: Tri, i: nat)
    requires s < |st| && i < |st|
    ensures var o := SetState(g, st, s, val)[i]; o.curr == st[i].curr && o.pick == st[i].pick
  {
  }

  /** A choice value that is y already is the one its choice has settled on. */
  lemma PickedNow(x: Epoch, s: nat)
    requires EpochOk(x) && Picks(x.S.g, s, YES) && s != x.S.modules && x.sol[s].visible == YES
    ensures x.sol[s].tri == YES <==> x.sol[x.S.g[s].kind.choice].pick == Some(s)
  {
    assert KindOk(x.S, s) && x.sol[s] == Local(x.S, s, x.sol);
  }

  lemma PickedAgain(x: Epoch, y: Epoch, st: seq<State>, s: nat)
    requires Inv(x, {}, st) && Picks(x.S.g, s, YES) && s != x.S.modules && x.S.g[s].kind.choice != x.S.modules
    requires EpochOk(y) && y.S == x.S.(users := NextUsers(x.S.g, st, s, YES)) && y.rank == x.rank
    requires var c := x.S.g[s].kind.choice;
      x.sol[c].tri == YES && x.sol[s].visible == YES && FlagsKept(x, st, x.rank[c])
    ensures var c := x.S.g[s].kind.choice; y.sol[c].tri == YES && y.sol[c].pick == Some(s) && y.sol[s].tri == YES
  {
    var c := x.S.g[s].kind.choice;
    NextSettled(x, st, s, YES);
    assert KindOk(x.S, s) && InvAt(x, {}, c, st[c]);
    SolutionUnique(x.S, x.rank, x.sol, s);
    SolutionUnique(x.S, x.rank, x.sol, c);
    SolutionUnique(y.S, y.rank, y.sol, s);
    SolutionUnique(y.S, y.rank, y.sol, c);
    PickTakesEffect(x.S, y.S, x.rank, c, s);
  }

  /** What comes before the choice is worth the same after a pick. */
  lemma PickMovesNothing(x: Epoch, y: Epoch, st: seq<State>, s: nat)
    requires Inv(x, {}, st) && Picks(x.S.g, s, YES) && EpochOk(y)
    requires y.S == x.S.(users := NextUsers(x.S.g, st, s, YES)) && y.rank == x.rank
    requires FlagsKept(x, st, x.rank[x.S.g[s].kind.choice])
    ensures SameBelow(x.S, x.rank, x.rank[x.S.g[s].kind.choice], x.sol, y.sol)
  {
    var k := x.rank[x.S.g[s].kind.choice];
    NextSettled(x, st, s, YES);
    forall i | 0 <= i < |st| && x.rank[i] < k ensures x.sol[i] == y.sol[i] {
      if i != x.S.modules {
        SolutionUnique(x.S, x.rank, x.sol, i);
        SolutionUnique(y.S, y.rank, y.sol, i);
        ValueUnmoved(x.S, y.S, x.rank, k, i);
      }
    }
  }

  /** A pick gives every visible value a user flag, so the choice keeps its own. */
  lemma PickKeepsFlag(x: Epoch, y: Epoch, st: seq<State>, s: nat)
    requires Inv(x, {}, st) && Picks(x.S.g, s, YES) && EpochOk(y)
    requires y.S == x.S.(users := NextUsers(x.S.g, st, s, YES)) && y.rank == x.rank
    requires var c := x.S.g[s].kind.choice;
      x.sol[c].tri == YES && y.sol[c].tri == YES && FlagsKept(x, st, x.rank[c]) && AllValid(x.S, st, x.S.g[c].kind.values)
    ensures FlagAfter(y.S, y.sol, x.S.g[s].kind.choice)
  {
    var c := x.S.g[s].kind.choice;
    PickMovesNothing(x, y, st, s);
    assert InvAt(x, {}, c, st[c]) && KindOk(x.S, c);
    forall j <- x.S.g[c].kind.values ensures ValueFlag(y.S, y.sol, j) {
      SameVisible(x, y, c, j);
      assert InvAt(x, {}, j, st[j]);
    }
  }

  lemma PickSettled(x: Epoch, y: Epoch, st: seq<State>, s: nat)
    requires Inv(x, {}, st) && Picks(x.S.g, s, YES) && s != x.S.modules && x.S.g[s].kind.choice != x.S.modules
    requires EpochOk(y) && y.S == x.S.(users := NextUsers(x.S.g, st, s, YES)) && y.rank == x.rank
    requires var c := x.S.g[s].kind.choice;
      x.sol[c].tri == YES && x.sol[s].visible == YES && FlagsKept(x, st, x.rank[c])
    ensures var c := x.S.g[s].kind.choice;
      && y.sol[c].tri == YES && y.sol[c].pick == Some(s) && y.sol[s].tri == YES
      && (AllValid(x.S, st, x.S.g[c].kind.values) ==> FlagAfter(y.S, y.sol, c))
  {
    PickedAgain(x, y, st, s);
    if AllValid(x.S, st, x.S.g[x.S.g[s].kind.choice].kind.values) { PickKeepsFlag(x, y, st, s); }
  }

  predicate AllValid(S: Setup, st: seq<State>, ids: seq<nat>) {
    forall j <- ids :: j < |st| && st[j].valid && j != S.modules
  }

  /** A value of a choice that is y in two epochs is equally visible if what comes before the choice is the same. */
  lemma SameVisible(x: Epoch, y: Epoch, c: nat, j: nat)
    requires EpochOk(x) && EpochOk(y) && y.S == x.S.(users := y.S.users) && y.rank == x.rank
    requires j < |x.S.g| && j != x.S.modules && c < |x.S.g| && x.S.g[j].kind == ChoiceValue(c)
    requires SameBelow(x.S, x.rank, x.rank[c], x.sol, y.sol) && x.sol[c].tri == y.sol[c].tri
    ensures x.sol[j].visible == y.sol[j].visible
  {
    SolFields(x, j);
    SolFields(y, j);
    ValueVisibleAgree(x.S, x.rank, j, x.sol, y.sol);
    VisibleUser(x.S, y.S, j, Val(y.S, y.sol));
    assert Val(x.S, y.sol) == Val(y.S, y.sol);
  }

  /** All symbols have been invalidated and MODULES, symbol `m`, evaluated again: what is valid by then holds its
      value under the old modules_val and does not come after MODULES, and modules_val is now `mv`. */
  ghost predicate Renewed(x: Epoch, m: nat, mv: Tri, st: seq<State>) {
    && EpochOk(x) && |st| == |x.S.g| && m < |st| && st[m].valid && mv == x.sol[m].tri && st[x.S.modules].curr == mv
    && Inv(x, {}, st[x.S.modules := st[x.S.modules].(curr := x.S.modulesVal)])
    && forall i | 0 <= i < |st| && st[i].valid && i != x.S.modules :: Group(x, i) <= x.rank[m]
  }

  /** If modules_val stayed, everything is right for the epoch that begins. */
  lemma GoOn(x: Epoch, m: nat, st: seq<State>)
    requires Renewed(x, m, x.S.modulesVal, st)
    ensures Inv(x, {}, st)
  {
    assert st[x.S.modules := st[x.S.modules].(curr := x.S.modulesVal)] == st;
  }

  /** If it changed, that is so where the symbols that are valid already are worth the same in epoch `y`. */
  lemma Afresh(x: Epoch, y: Epoch, m: nat, st: seq<State>)
    requires Renewed(x, m, y.S.modulesVal, st) && EpochOk(y) && y.S == x.S.(modulesVal := y.S.modulesVal)
    requires forall i | 0 <= i < |st| && st[i].valid && i != x.S.modules ::
      y.sol[i] == x.sol[i] && FlagAfter(y.S, y.sol, i) == FlagAfter(x.S, x.sol, i)
    ensures Inv(y, {}, st)
  {
    var st0 := st[x.S.modules := st[x.S.modules].(curr := x.S.modulesVal)];
    forall i | 0 <= i < |st| ensures InvAt(y, {}, i, st[i]) {
      assert InvAt(x, {}, i, st0[i]);
    }
  }

  /** At most one value of choice `c` is y: the one it settled on, and visible, if `c` is y. */
  ghost predicate OneOf(x: Epoch, st: seq<State>, c: nat)
    requires EpochOk(x) && |st| == |x.S.g| && c < |st| && BoolChoice(x.S, c)
  {
    var vs := x.S.g[c].kind.values;
    if st[c].curr == YES then
      exists p <- vs :: st[p].curr == YES && st[p].visible == YES && forall i <- vs :: i != p ==> st[i].curr == NO
    else st[c].curr == NO && forall i <- vs :: st[i].curr == NO
  }

  class Evaluator {
    const g: seq<Def>
    const modules: nat      // stands for modules_val
    const modulesSym: nat   // modules_sym
    const base: Valuation
    var modulesVal: Tri
    var st: seq<State>

    ghost predicate Fits(x: Epoch)
      reads this`modulesVal
    {
      x.S.g == g && x.S.modules == modules && x.S.modulesVal == modulesVal && x.S.base == base
    }

    /** MODULES is a bool symbol, and not the cell that keeps its value. */
    predicate HasModules()
    {
      modulesSym < |g| && modulesSym != modules && g[modulesSym].typ == BooleanType
    }

    /** All symbols unevaluated; modules_val is an input of the epoch. */
    constructor (g: seq<Def>, users: seq<User>, modules: nat, modulesSym: nat, modulesVal: Tri, base: Valuation, ghost x: Epoch)
      requires EpochOk(x) && x.S == Setup(g, users, modules, modulesVal, base)
      ensures Fits(x) && Inv(x, {}, st) && this.modulesSym == modulesSym
      ensures forall i | 0 <= i < |g| :: st[i].valid <==> i == modules
    {
      this.g, this.modules, this.modulesSym, this.base, this.modulesVal := g, modules, modulesSym, base, modulesVal;
      st := seq(|users|, i requires 0 <= i < |users| =>
        State(i == modules, if i == modules then modulesVal else NO, None, NO, NO, NO, NO, false,
              users[i].has, users[i].tri, users[i].pick));
    }

    /** Any sequence of sym_calc_value calls: whatever the order, every valid symbol holds the
        value of the plain recursion. */
    method CalcValues(calls: seq<nat>, ghost x: Epoch)
      requires Fits(x) && Inv(x, {}, st) && forall m | 0 <= m < |calls| :: calls[m] < |g|
      modifies this`st
      ensures Inv(x, {}, st)
      ensures forall m | 0 <= m < |calls| :: st[calls[m]].valid
      ensures forall i | 0 <= i < |st| :: old(st)[i].valid ==> st[i].valid
      ensures forall i | 0 <= i < |st| && st[i].valid && i != modules ::
        st[i].curr == Value(x.S, x.rank, i).tri && (g[i].typ != UnknownType ==> st[i].visible == Value(x.S, x.rank, i).visible)
      ensures forall i | 0 <= i < |st| && st[i].valid && i != modules && g[i].typ != UnknownType ::
        Decided(x.S, x.sol, i, st[i].curr)
      ensures forall i | 0 <= i < |st| && st[i].valid && i != modules && g[i].typ != UnknownType ::
        g[i].kind.Choice? && st[i].curr == YES ==> KindOk(x.S, i) && st[i].pick.Some? && SettlesOn(x.S, x.sol, i, st[i].pick.value)
    {
      for n := 0 to |calls|
        invariant Inv(x, {}, st)
        invariant forall m | 0 <= m < n :: calls[m] < |st| && st[calls[m]].valid
        invariant forall i | 0 <= i < |st| :: old(st)[i].valid ==> st[i].valid
      {
        ghost var st1 := st;
        CalcValue(calls[n], x, {});
        forall i | 0 <= i < |st| && st1[i].valid ensures st[i].valid {
          assert FramedAt(x, if st1[calls[n]].valid then 0 else x.rank[calls[n]] + 1, {}, i, st1[i], st[i]);
        }
      }
      forall i | 0 <= i < |st| && st[i].valid && i != modules
        ensures st[i].curr == Value(x.S, x.rank, i).tri
        ensures g[i].typ != UnknownType ==> st[i].visible == Value(x.S, x.rank, i).visible
      {
        assert InvAt(x, {}, i, st[i]);
        SolutionUnique(x.S, x.rank, x.sol, i);
      }
      forall i | 0 <= i < |st| && st[i].valid && i != modules && g[i].typ != UnknownType
        ensures Decided(x.S, x.sol, i, st[i].curr)
        ensures g[i].kind.Choice? && st[i].curr == YES ==>
                KindOk(x.S, i) && st[i].pick.Some? && SettlesOn(x.S, x.sol, i, st[i].pick.value)
      {
        assert InvAt(x, {}, i, st[i]);
        SolutionDecides(x.S, x.sol, i, st[i].curr);
      }
    }

    /** Once everything is evaluated, in any order: of a bool choice whose values have no defaults
        exactly one value is y, a visible one, when the choice is y, and none when it is n. */
    method CalcAllValues(calls: seq<nat>, ghost x: Epoch)
      requires Fits(x) && Inv(x, {}, st) && (forall m | 0 <= m < |calls| :: calls[m] < |g|)
      requires forall s: nat | s < |g| :: s in calls
      modifies this`st
      ensures Inv(x, {}, st)
      ensures forall c | 0 <= c < |g| && BoolChoice(x.S, c) :: OneOf(x, st, c)
    {
      CalcValues(calls, x);
      forall i: nat | i < |g| ensures st[i].valid {
        assert i in calls;
        var m :| 0 <= m < |calls| && calls[m] == i;
      }
      forall c | 0 <= c < |g| && BoolChoice(x.S, c) ensures OneOf(x, st, c) {
        assert KindOk(x.S, c) && KindOk(x.S, modules);
        ChoiceExclusive(x.S, x.sol, c);
        assert InvAt(x, {}, c, st[c]);
        forall i <- g[c].kind.values ensures Agrees(x, i, st[i]) && i != modules {
          assert InvAt(x, {}, i, st[i]);
        }
      }
    }

    // ----- sym_set_tristate_value -----

    /** sym_tristate_within_range. */
    predicate SymTristateWithinRange(s: nat, val: Tri)
      requires s < |g| == |st|
      reads this
    {
      var sym, typ := st[s], SymGetType(s);
      if sym.visible == NO then false
      else if typ != BooleanType && typ != TristateType then false
      else if typ == BooleanType && val == MOD then false
      else if sym.visible <= sym.rev then false
      else if g[s].kind.ChoiceValue? && sym.visible == YES then val == YES
      else sym.rev <= val <= sym.visible
    }

    lemma RangeRight(s: nat, val: Tri, x: Epoch)
      requires Fits(x) && Inv(x, {}, st) && s < |g| && s != modules && st[s].valid
      ensures g[s].typ != UnknownType ==> AcceptedRight(x, s, val, SymTristateWithinRange(s, val))
    {
      assert InvAt(x, {}, s, st[s]);
      if g[s].typ != UnknownType { Acceptance(x, s, val); }
    }

    /** sym_set_tristate_value. A changed value ends the epoch: `y` has the user settings as evaluation and this
        call have left them. MODULES is evaluated again and comes out the same if it was up to date and neither
        its setting nor any before it has changed. */
    method SetTristateValue(s: nat, val: Tri, ghost x: Epoch) returns (ok: bool, ghost y: Epoch)
      requires Fits(x) && Inv(x, {}, st) && s < |g| && s != modules && st[s].valid && HasModules()
      modifies this`st, this`modulesVal
      ensures ok <==> old(st[s].curr == val || SymTristateWithinRange(s, val))
      ensures !ok ==> st == old(st) && modulesVal == old(modulesVal)
      ensures ok ==> EpochOk(y) && y.S == x.S.(users := NextUsers(g, old(st), s, val)) && y.rank == x.rank
      ensures ok && old(st)[s].curr == val ==> st == SetState(g, old(st), s, val) && modulesVal == old(modulesVal)
      ensures ok && old(st)[s].curr != val ==> Renewed(y, modulesSym, modulesVal, st)
      ensures ok && ModulesKept(x, old(st), s, val) ==> modulesVal == old(modulesVal)
      ensures old(st)[s].curr != val && g[s].typ != UnknownType ==> AcceptedRight(x, s, val, ok)
    {
      y := x;
      RangeRight(s, val, x);
      var oldval := st[s].curr;
      if oldval != val && !SymTristateWithinRange(s, val) {
        return false, x;
      }
      y := NextEpoch(x, st, s, val);
      if Picks(g, s, val) {
        PickValue(s);
      }
      st := st[s := st[s].(has := true, userTri := val)];
      if oldval != val {
        SetCleared(x, y, old(st), s, val);
        if ModulesKept(x, old(st), s, val) { ModulesStays(x, y, old(st), s, val); }
        ClearAllValid(y);
      }
      ok := true;
    }

    /** modules_val is what MODULES is worth, and setting `s` reaches neither it nor what it depends on. */
    ghost predicate ModulesKept(x: Epoch, st0: seq<State>, s: nat, val: Tri)
      requires EpochOk(x) && s < |x.S.g| == |st0|
    {
      && modulesSym < |x.sol| && x.sol[modulesSym].tri == x.S.modulesVal && x.rank[modulesSym] < Lowest(x, s, val)
      && FlagsKept(x, st0, x.rank[modulesSym] + 1)
    }

    lemma ModulesStays(x: Epoch, y: Epoch, st0: seq<State>, s: nat, val: Tri)
      requires Inv(x, {}, st0) && s < |st0| && ModulesKept(x, st0, s, val) && modulesSym != x.S.modules
      requires EpochOk(y) && y.S == x.S.(users := NextUsers(x.S.g, st0, s, val)) && y.rank == x.rank
      ensures y.sol[modulesSym].tri == x.S.modulesVal
    {
      NextSettled(x, st0, s, val);
      ModulesUnmoved(x.S, y.S, x.rank, modulesSym);
      SolutionUnique(x.S, x.rank, x.sol, modulesSym);
      SolutionUnique(y.S, y.rank, y.sol, modulesSym);
    }

    /** The choice of `s` gets a user value and `s` as the user's pick, its visible values get user flags. */
    method PickValue(s: nat)
      requires Picks(g, s, YES) && |st| == |g| && (forall i <- g[g[s].kind.choice].kind.values :: i < |st| && i != g[s].kind.choice)
      modifies this`st
      ensures st == PickState(g, old(st), s)
    {
      var c := g[s].kind.choice;
      var vs := g[c].kind.values;
      st := st[c := st[c].(has := true, userPick := Some(s))];
      for n := 0 to |vs|
        invariant |st| == |old(st)|
        invariant forall i | 0 <= i < |st| ::
          st[i] == if i == c || i in vs[..n] then Picked(g, old(st)[i], i, c, s) else old(st)[i]
      {
        assert vs[n] in vs;
        if st[vs[n]].visible != NO {
          st := st[vs[n] := st[vs[n]].(has := true)];
        }
        assert vs[..n + 1] == vs[..n] + [vs[n]];
      }
      assert vs[..|vs|] == vs;
    }

    /** sym_clear_all_valid: MODULES is evaluated first, still under the old modules_val. */
    method ClearAllValid(ghost x: Epoch)
      requires EpochOk(x) && Fits(x) && |st| == |g| && HasModules()
      requires forall i | 0 <= i < |g| :: Cleared(x, i, st[i])
      requires st[modules].valid && Agrees(x, modules, st[modules])
      modifies this`st, this`modulesVal
      ensures Renewed(x, modulesSym, modulesVal, st)
    {
      Invalidate(x);
      ghost var st0 := st;
      CalcValue(modulesSym, x, {});
      forall i | 0 <= i < |st| && st[i].valid && i != modules ensures Group(x, i) <= x.rank[modulesSym] {
        assert FramedAt(x, x.rank[modulesSym] + 1, {}, i, st0[i], st[i]);
      }
      assert InvAt(x, {}, modulesSym, st[modulesSym]);
      ghost var st1 := st;
      if st[modulesSym].curr != modulesVal {
        modulesVal := st[modulesSym].curr;
        st := st[modules := st[modules].(curr := modulesVal)];
      }
      assert InvAt(x, {}, modules, st1[modules]);
      assert st[modules := st[modules].(curr := x.S.modulesVal)] == st1;
    }

    /** The loop of sym_clear_all_valid. */
    method Invalidate(ghost x: Epoch)
      requires EpochOk(x) && Fits(x) && |st| == |g|
      requires forall i | 0 <= i < |g| :: Cleared(x, i, st[i])
      requires st[modules].valid && Agrees(x, modules, st[modules])
      modifies this`st
      ensures Inv(x, {}, st) && forall i | 0 <= i < |g| :: st[i].valid <==> i == modules
    {
      for n := 0 to |st|
        invariant |st| == |g|
        invariant forall i | 0 <= i < |g| :: Cleared(x, i, st[i])
        invariant st[modules].valid && Agrees(x, modules, st[modules])
        invariant forall i | 0 <= i < n :: st[i].valid <==> i == modules
      {
        if n != modules {
          st := st[n := st[n].(valid := false)];
        }
      }
      forall i | 0 <= i < |st| ensures InvAt(x, {}, i, st[i]) {
        assert Cleared(x, i, st[i]);
      }
    }

    /** Setting an accepted value and evaluating again gives that value, exactly when the symbol's
        dependencies are met or nothing selects it, provided that no choice that comes before the symbol
        has lost its user flag and that modules_val stays, or the symbol is evaluated before it changes.
        `settled` says whether one of the two is so. */
    method SetAndCalc(s: nat, val: Tri, ghost x: Epoch) returns (ok: bool, settled: bool)
      requires Fits(x) && Inv(x, {}, st) && s < |g| && s != modules && g[s].kind.Plain? && st[s].valid && HasModules()
      requires g[s].typ != UnknownType
      modifies this`st, this`modulesVal
      ensures ok <==> old(st[s].curr == val || SymTristateWithinRange(s, val))
      ensures old(st)[s].curr != val ==> AcceptedRight(x, s, val, ok)
      ensures settled && old(SymTristateWithinRange(s, val)) && FlagsKept(x, old(st), x.rank[s]) ==>
        (s < |st| && st[s].curr == val <==> old(st)[s].dir != NO || old(st)[s].rev == NO)
      ensures ModulesKept(x, old(st), s, val) ==> settled
    {
      assert InvAt(x, {}, s, st[s]);
      SolutionUnique(x.S, x.rank, x.sol, s);
      var oldMv := modulesVal;
      ghost var st0, inRange, kept := st, SymTristateWithinRange(s, val), FlagsKept(x, st, x.rank[s]);
      assert inRange == WithinRange(x.S, s, x.sol[s], val);
      ghost var y;
      ok, y := SetTristateValue(s, val, x);
      settled := modulesVal == oldMv || st[s].valid;
      if inRange { SolFields(x, s); }
      if ok && inRange && kept { AcceptedIn(x, y, st0, s, val); }
      if ok && !st[s].valid && settled {
        GoOn(y, modulesSym, st);
        CalcValue(s, y, {});
        assert InvAt(y, {}, s, st[s]);
        SolutionUnique(y.S, y.rank, y.sol, s);
      } else if ok && st0[s].curr != val && st[s].valid {
        StaysWorth(y, modulesSym, modulesVal, st, s);
      }
    }

    /** Picking a visible value of a choice that is y and evaluating again: the choice settles on that value,
        under the same provisos. */
    method PickAndCalc(s: nat, ghost x: Epoch) returns (ok: bool, settled: bool)
      requires Fits(x) && Inv(x, {}, st) && s < |g| && s != modules && st[s].valid && HasModules()
      requires Picks(g, s, YES) && g[s].kind.choice != modules && st[g[s].kind.choice].valid
      modifies this`st, this`modulesVal
      ensures ok <==> old(st[s].curr == YES || SymTristateWithinRange(s, YES))
      ensures var c := g[s].kind.choice;
        settled && old(st)[s].visible == YES && old(st)[c].curr == YES && ok && FlagsKept(x, old(st), x.rank[c]) ==>
          |st| == |g| && st[c].curr == YES && st[c].pick == Some(s) && st[s].curr == YES
          && (AllValid(x.S, old(st), g[c].kind.values) ==> st[c].has)
      ensures ModulesKept(x, old(st), s, YES) ==> settled
    {
      var c := g[s].kind.choice;
      assert InvAt(x, {}, s, st[s]) && InvAt(x, {}, c, st[c]) && KindOk(x.S, s);
      var oldMv, oldval := modulesVal, st[s].curr;
      ghost var st0 := st;
      ghost var y;
      ok, y := SetTristateValue(s, YES, x);
      settled := true;
      if ok && oldval != YES {
        settled := CalcBoth(c, s, oldMv, y);
      } else if ok {
        SetKeeps(g, st0, s, YES, c);
        SetKeeps(g, st0, s, YES, s);
      }
      if ok && st0[s].visible == YES && st0[c].curr == YES {
        PickedNow(x, s);
        if FlagsKept(x, st0, x.rank[c]) { PickSettled(x, y, st0, s); }
      }
    }

    /** The choice and its value in the epoch that has begun, unless modules_val has changed in between. */
    method CalcBoth(c: nat, s: nat, oldMv: Tri, ghost y: Epoch) returns (settled: bool)
      requires y.S.g == g && y.S.modules == modules && y.S.base == base && y.S.modulesVal == oldMv && HasModules()
      requires Renewed(y, modulesSym, modulesVal, st) && c < |g| && s < |g| && c != modules && s != modules
      modifies this`st
      ensures settled ==> |st| == |g| && Agrees(y, c, st[c]) && Agrees(y, s, st[s])
      ensures modulesVal == oldMv ==> settled
    {
      if modulesVal == oldMv {
        GoOn(y, modulesSym, st);
        CalcValue(c, y, {});
        ghost var st1 := st;
        CalcValue(s, y, {});
        assert FramedAt(y, if st1[s].valid then 0 else y.rank[s] + 1, {}, c, st1[c], st[c]);
        assert InvAt(y, {}, s, st[s]) && InvAt(y, {}, c, st[c]);
        return true;
      }
      settled := st[s].valid && st[c].valid;
      if settled {
        StaysWorth(y, modulesSym, modulesVal, st, s);
        StaysWorth(y, modulesSym, modulesVal, st, c);
      }
    }

    // ----- expr_calc_value -----

    method ExprCalcValue(e: Expr, ghost x: Epoch, ghost k: nat, ghost busy: set<nat>, ghost t: Table) returns (r: Tri)
      requires Fits(x) && Inv(x, busy, st) && (forall b <- busy :: k <= x.rank[b])
      requires |t| == |g| && Ready(x, k, busy, st, t, Some(e))
      modifies this`st
      ensures Inv(x, busy, st) && Framed(x, k, busy, old(st), st)
      ensures r == Eval(e, Val(x.S, t))
      ensures forall y <- Mentions(e) :: y.Config? ==> st[y.id].valid
      decreases k, 3, e
    {
      match e
      case Sym(y) =>
        assert y in Mentions(e);
        r := SymTri(y, x, k, busy, t);
      case Not(f) =>
        r := ExprCalcValue(f, x, k, busy, t);
        r := TriNot(r);
      case Bin(op, f, h) =>
        var a := ExprCalcValue(f, x, k, busy, t);
        ghost var st1 := st;
        ReadyKept(x, k, busy, old(st), st, t, Some(h));
        var b := ExprCalcValue(h, x, k, busy, t);
        FramedTrans(x, k, k, busy, old(st), st1, st);
        r := Apply(op, a, b);
      case Cmp(cmp, y, z) =>
        assert y in Mentions(e) && z in Mentions(e);
        r := CmpTri(cmp, y, z, x, k, busy, t);
    }

    method CmpTri(cmp: CmpOp, y: Symbol, z: Symbol, ghost x: Epoch, ghost k: nat, ghost busy: set<nat>, ghost t: Table)
      returns (r: Tri)
      requires Fits(x) && Inv(x, busy, st) && (forall b <- busy :: k <= x.rank[b])
      requires |t| == |g| && Ready(x, k, busy, st, t, Some(Cmp(cmp, y, z)))
      modifies this`st
      ensures Inv(x, busy, st) && Framed(x, k, busy, old(st), st)
      ensures r == Eval(Cmp(cmp, y, z), Val(x.S, t))
      ensures (y.Config? ==> st[y.id].valid) && (z.Config? ==> st[z.id].valid)
      decreases k, 2
    {
      assert y in Mentions(Cmp(cmp, y, z)) && z in Mentions(Cmp(cmp, y, z));
      var a := SymTri(y, x, k, busy, t);
      ghost var st1 := st;
      ReadyKept(x, k, busy, old(st), st, t, Some(Cmp(cmp, y, z)));
      var b := SymTri(z, x, k, busy, t);
      FramedTrans(x, k, k, busy, old(st), st1, st);
      assert y.Config? ==> FramedAt(x, k, busy, y.id, st1[y.id], st[y.id]);
      assert InvAt(x, busy, modules, st[modules]);
      var v := base.(tri := (w: Symbol) => if w == y then a else b, modules := st[modules].curr != NO);
      CompareTwo(v, Val(x.S, t), y, z);
      r := OfBool(Holds(cmp, Compare(v, y, z)));
    }

    /** sym_calc_value and then curr.tri, for a symbol inside an expression. */
    method SymTri(y: Symbol, ghost x: Epoch, ghost k: nat, ghost busy: set<nat>, ghost t: Table) returns (r: Tri)
      requires Fits(x) && Inv(x, busy, st) && (forall b <- busy :: k <= x.rank[b])
      requires |t| == |g|
      requires y.Config? ==> ReadySym(x, k, busy, st, t, y.id) && y == Config(y.id, g[y.id].typ)
      modifies this`st
      ensures Inv(x, busy, st) && Framed(x, k, busy, old(st), st)
      ensures r == TriValue(Val(x.S, t), y)
      ensures y.Config? ==> st[y.id].valid
      decreases k, 1
    {
      match y
      case SymYes => r := YES; FramedRefl(x, k, busy, st);
      case SymMod => r := MOD; FramedRefl(x, k, busy, st);
      case SymNo => r := NO; FramedRefl(x, k, busy, st);
      case Const(_) => r := NO; FramedRefl(x, k, busy, st);
      case Config(id, typ) =>
        assert InvAt(x, busy, id, st[id]);
        CalcValue(id, x, busy);
        FramedRefl(x, k, busy, old(st));
        FramedTrans(x, k, if old(st)[id].valid then 0 else x.rank[id] + 1, busy, old(st), st, st);
        assert FramedAt(x, k, busy, id, old(st)[id], st[id]);
        assert InvAt(x, busy, id, st[id]);
        r := st[id].curr;
    }

    // ----- sym_calc_value -----

    method CalcValue(s: nat, ghost x: Epoch, ghost busy: set<nat>)
      requires Fits(x) && Inv(x, busy, st) && s < |g|
      requires st[s].valid || forall b <- busy :: x.rank[s] < x.rank[b]
      modifies this`st
      ensures Inv(x, busy, st) && Framed(x, if old(st)[s].valid then 0 else x.rank[s] + 1, busy, old(st), st)
      ensures st[s].valid
      decreases if st[s].valid then 0 else x.rank[s] + 1, 0
    {
      if st[s].valid {
        FramedRefl(x, 0, busy, st);
        return;
      }
      var d := g[s];
      ghost var st0 := st;
      assert InvAt(x, busy, s, st[s]);
      if d.typ == UnknownType {
        st := st[s := st[s].(valid := true, curr := NO)];
        Finish(x, busy, st0, s, st[s]);
        return;
      }
      st := st[s := st[s].(valid := true, write := false)];
      Start(x, busy, st0, s, st[s]);
      ghost var st1 := st;
      OwnReady(x, busy + {s}, st, s);
      CalcVisibility(s, x, x.rank[s], busy + {s}, x.sol);
      OpenCallOff(x, busy, st0, st1, st, s);
      OpenStore(x, busy, st0, st, s, st[s].(write := st[s].write || st[s].visible != NO, curr := NO, pick := None));
      st := st[s := st[s].(write := st[s].write || st[s].visible != NO, curr := NO, pick := None)];
      SolFields(x, s);
      FinishValue(s, x, busy, st0);
    }

    /** sym_calc_value from the point where the visibility is known. */
    method FinishValue(s: nat, ghost x: Epoch, ghost busy: set<nat>, ghost st0: seq<State>)
      requires Fits(x) && Open(x, busy, st0, st, s) && HalfDone(x, s, st[s])
      requires !g[s].kind.ChoiceValue? ==> st[s].write == (st[s].visible != NO)
      requires st[s].visible != NO && g[s].kind.ChoiceValue? ==> st[g[s].kind.choice].valid
      modifies this`st
      ensures Inv(x, busy, st) && Framed(x, x.rank[s] + 1, busy, st0, st) && st[s].valid
      decreases x.rank[s], 11
    {
      var newval := NewValue(s, x, busy, st0);
      OpenStore(x, busy, st0, st, s, st[s].(curr := newval));
      st := st[s := st[s].(curr := newval)];
      if g[s].kind.Choice? {
        SettleChoice(s, newval, x, busy, st0);
      }
      OpenFinish(x, busy, st0, st, s);
    }

    /** The new value; that of a choice before it looks for its default. */
    method NewValue(s: nat, ghost x: Epoch, ghost busy: set<nat>, ghost st0: seq<State>) returns (newval: Tri)
      requires Fits(x) && Open(x, busy, st0, st, s) && HalfDone(x, s, st[s])
      requires !g[s].kind.ChoiceValue? ==> st[s].write == (st[s].visible != NO)
      requires st[s].visible != NO && g[s].kind.ChoiceValue? ==> st[g[s].kind.choice].valid
      modifies this`st
      ensures Open(x, busy, st0, st, s) && HalfDone(x, s, st[s])
      ensures g[s].kind.Choice? ==> newval == ModeTri(x.S, x.sol, s) && st[s].write == x.sol[s].write
      ensures !g[s].kind.Choice? ==> Agrees(x, s, st[s].(curr := newval))
      decreases x.rank[s], 8
    {
      var d := g[s];
      SolFields(x, s);
      newval := NO;
      if d.kind.ChoiceValue? && st[s].visible == YES {
        ChoiceRead(x, busy, st0, st, s);
        newval := if st[d.kind.choice].pick == Some(s) then YES else NO;
      } else {
        newval := CalcTristate(s, x, busy, st0);
      }
      if newval == MOD && SymGetType(s) == BooleanType {
        newval := YES;
      }
    }

    /** The part of sym_calc_value that only choices take. */
    method SettleChoice(s: nat, newval: Tri, ghost x: Epoch, ghost busy: set<nat>, ghost st0: seq<State>)
      requires Fits(x) && Open(x, busy, st0, st, s) && g[s].kind.Choice? && newval == ModeTri(x.S, x.sol, s)
      requires HalfDone(x, s, st[s].(curr := NO)) && st[s].curr == newval && st[s].write == x.sol[s].write
      modifies this`st
      ensures Open(x, busy, st0, st, s) && Agrees(x, s, st[s])
      decreases x.rank[s], 10
    {
      assert InvAt(x, busy + {s}, s, st[s]);
      SolFields(x, s);
      if newval == YES {
        CalcChoice(s, x, busy, st0);
      }
      MarkWritten(s, x, busy, st0);
    }

    /** The branch of sym_calc_value for a symbol whose value is not fixed by a choice. */
    method CalcTristate(s: nat, ghost x: Epoch, ghost busy: set<nat>, ghost st0: seq<State>) returns (newval: Tri)
      requires Fits(x) && Open(x, busy, st0, st, s) && HalfDone(x, s, st[s])
      requires !g[s].kind.ChoiceValue? ==> st[s].write == (st[s].visible != NO)
      modifies this`st
      ensures Open(x, busy, st0, st, s) && HalfDone(x, s, st[s])
      ensures !g[s].kind.ChoiceValue? ==>
        st[s].write == Written(x.S, s, st[s].visible, st[s].rev, st[s].imp, Val(x.S, x.sol))
      ensures newval == WithSelects(Wanted(x.S, s, st[s].visible, st[s].dir, st[s].imp, Val(x.S, x.sol)), st[s].dir, st[s].rev)
      decreases x.rank[s], 7
    {
      newval := NO;
      if st[s].visible != NO && st[s].has {
        newval := TriAnd(st[s].userTri, st[s].visible);
      } else {
        newval := CalcUnset(s, x, busy, st0);
      }
      newval := if st[s].dir == NO && st[s].rev != NO then NO else TriOr(newval, st[s].rev);
    }

    /** The value of a symbol that is not set, or not shown, before selects: the default, and what implies it. */
    method CalcUnset(s: nat, ghost x: Epoch, ghost busy: set<nat>, ghost st0: seq<State>) returns (newval: Tri)
      requires Fits(x) && Open(x, busy, st0, st, s) && HalfDone(x, s, st[s])
      requires !g[s].kind.ChoiceValue? ==> st[s].write == (st[s].visible != NO)
      requires !(st[s].visible != NO && st[s].has)
      modifies this`st
      ensures Open(x, busy, st0, st, s) && HalfDone(x, s, st[s])
      ensures !g[s].kind.ChoiceValue? ==>
        st[s].write == Written(x.S, s, st[s].visible, st[s].rev, st[s].imp, Val(x.S, x.sol))
      ensures newval == Wanted(x.S, s, st[s].visible, st[s].dir, st[s].imp, Val(x.S, x.sol))
      ensures st[s] == old(st)[s].(write := st[s].write)
      decreases x.rank[s], 6
    {
      newval := NO;
      OpenStore(x, busy, st0, st, s, st[s].(write := st[s].write || st[s].rev != NO));
      st := st[s := st[s].(write := st[s].write || st[s].rev != NO)];
      if !g[s].kind.Choice? {
        newval := CalcDefault(s, x, busy, st0);
        if st[s].imp != NO {
          OpenStore(x, busy, st0, st, s, st[s].(write := true));
          st := st[s := st[s].(write := true)];
          newval := TriAnd(TriOr(newval, st[s].imp), st[s].dir);
        }
      }
      assert InvAt(x, busy + {s}, s, st[s]);
    }

    /** The default of a symbol: n without one. */
    method CalcDefault(s: nat, ghost x: Epoch, ghost busy: set<nat>, ghost st0: seq<State>) returns (newval: Tri)
      requires Fits(x) && Open(x, busy, st0, st, s) && HalfDone(x, s, st[s])
      modifies this`st
      ensures Open(x, busy, st0, st, s) && HalfDone(x, s, st[s])
      ensures var d := FirstDefault(g[s].defaults, Val(x.S, x.sol));
        && newval == (if d.Some? then DefaultTri(d.value, Val(x.S, x.sol)) else NO)
        && (!g[s].kind.ChoiceValue? ==> st[s].write == (old(st)[s].write || d.Some?))
      decreases x.rank[s], 5
    {
      ghost var st1 := st;
      var prop, cond := GetDefaultProp(s, x, busy + {s});
      OpenCall(x, busy, st0, st1, st, s);
      HalfKept(x, busy + {s}, st1, st, s);
      newval := NO;
      if prop.Some? {
        OpenStore(x, busy, st0, st, s, st[s].(write := true));
        st := st[s := st[s].(write := true)];
        st1 := st;
        OwnReady(x, busy + {s}, st, s);
        newval := ExprCalcValue(prop.value.value, x, x.rank[s], busy + {s}, x.sol);
        OpenCall(x, busy, st0, st1, st, s);
        HalfKept(x, busy + {s}, st1, st, s);
        newval := TriAnd(newval, cond);
      }
    }

    /** sym_get_default_prop: the first default whose condition is not n, and that condition. */
    method GetDefaultProp(s: nat, ghost x: Epoch, ghost busy: set<nat>) returns (prop: Option<Default>, cond: Tri)
      requires Fits(x) && Inv(x, busy, st) && s < |g| && s in busy && (forall b <- busy :: x.rank[s] <= x.rank[b])
      modifies this`st
      ensures Inv(x, busy, st) && Framed(x, x.rank[s], busy, old(st), st)
      ensures prop == FirstDefault(g[s].defaults, Val(x.S, x.sol))
      ensures prop.Some? ==> prop.value in g[s].defaults && cond == EvalOpt(prop.value.cond, Val(x.S, x.sol))
      ensures prop.Some? ==> exists k: nat :: Taken(g[s].defaults, k, Val(x.S, x.sol)) && prop.value == g[s].defaults[k]
      ensures prop.None? ==> forall j | 0 <= j < |g[s].defaults| :: EvalOpt(g[s].defaults[j].cond, Val(x.S, x.sol)) == NO
      decreases x.rank[s], 4
    {
      var ds := g[s].defaults;
      prop, cond := None, NO;
      FramedRefl(x, x.rank[s], busy, st);
      for i := 0 to |ds|
        invariant Inv(x, busy, st) && Framed(x, x.rank[s], busy, old(st), st)
        invariant FirstDefault(ds, Val(x.S, x.sol)) == FirstDefault(ds[i..], Val(x.S, x.sol))
        invariant forall j | 0 <= j < i :: EvalOpt(ds[j].cond, Val(x.S, x.sol)) == NO
      {
        OwnReady(x, busy, st, s);
        ghost var st1 := st;
        cond := YES;
        FramedRefl(x, x.rank[s], busy, st);
        if ds[i].cond.Some? {
          cond := ExprCalcValue(ds[i].cond.value, x, x.rank[s], busy, x.sol);
        }
        FramedTrans(x, x.rank[s], x.rank[s], busy, old(st), st1, st);
        if cond != NO {
          prop := Some(ds[i]);
          assert Taken(ds, i, Val(x.S, x.sol));
          return;
        }
      }
    }

    // ----- sym_calc_choice -----

    /** For a choice in mode y: its value becomes the choice value it settles on. */
    method CalcChoice(s: nat, ghost x: Epoch, ghost busy: set<nat>, ghost st0: seq<State>)
      requires Fits(x) && Open(x, busy, st0, st, s) && g[s].kind.Choice?
      requires st[s].curr == YES && Picking(x, s)
      modifies this`st
      ensures Open(x, busy, st0, st, s)
      ensures st[s] == old(st)[s].(curr := x.sol[s].tri, pick := x.sol[s].pick, has := st[s].has)
      ensures st[s].has == (old(st)[s].has && AllFlags(x.S, x.sol, g[s].kind.values))
      decreases x.rank[s], 9
    {
      var allHas := CalcVisibilities(s, x, busy, st0);
      StoreInChoice(s, st[s].(has := st[s].has && allHas), x, busy, st0);
      var def := CalcPick(s, x, busy, st0);
      StoreInChoice(s, st[s].(curr := if def.None? then NO else st[s].curr, pick := def), x, busy, st0);
    }

    method StoreInChoice(s: nat, o: State, ghost x: Epoch, ghost busy: set<nat>, ghost st0: seq<State>)
      requires EpochOk(x) && Open(x, busy, st0, st, s) && x.S.g[s].kind.Choice? && Picking(x, s)
      requires o == st[s].(has := o.has, curr := o.curr, pick := o.pick)
      modifies this`st
      ensures st == old(st)[s := o] && Open(x, busy, st0, st, s)
      ensures forall n: nat | n <= |x.S.g[s].kind.values| && ValuesSeen(x, s, n, old(st)) :: ValuesSeen(x, s, n, st)
    {
      assert KindOk(x.S, s);
      StoreChoice(x, busy, st0, st, s, o);
      st := st[s := o];
    }

    /** The user's choice if it is visible, else the default. */
    method CalcPick(s: nat, ghost x: Epoch, ghost busy: set<nat>, ghost st0: seq<State>) returns (def: Option<nat>)
      requires Fits(x) && Open(x, busy, st0, st, s) && g[s].kind.Choice? && Picking(x, s)
      requires ValuesSeen(x, s, |g[s].kind.values|, st)
      modifies this`st
      ensures Open(x, busy, st0, st, s) && st[s] == old(st)[s] && def == x.sol[s].pick
      decreases x.rank[s], 6
    {
      assert InvAt(x, busy + {s}, s, st[s]);
      assert KindOk(x.S, s);
      def := st[s].userPick;
      if def.Some? {
        SeenValue(x, s, st, def.value);
        if st[def.value].visible != NO {
          return;
        }
      }
      def := ChoiceDefaultValue(s, x, busy, st0);
    }

    /** The visibility of every choice value; `allHas` says whether all visible ones have a user value. */
    method CalcVisibilities(s: nat, ghost x: Epoch, ghost busy: set<nat>, ghost st0: seq<State>) returns (allHas: bool)
      requires Fits(x) && Open(x, busy, st0, st, s) && g[s].kind.Choice? && st[s].curr == YES && Picking(x, s)
      modifies this`st
      ensures Open(x, busy, st0, st, s) && st[s] == old(st)[s] && ValuesSeen(x, s, |g[s].kind.values|, st)
      ensures allHas <==> AllFlags(x.S, x.sol, g[s].kind.values)
      decreases x.rank[s], 8
    {
      var vs := g[s].kind.values;
      allHas := true;
      for i := 0 to |vs|
        invariant Open(x, busy, st0, st, s) && st[s] == old(st)[s] && ValuesSeen(x, s, i, st)
        invariant allHas <==> AllFlags(x.S, x.sol, vs[..i])
      {
        var has := CalcValueVisibility(s, i, x, busy, st0);
        allHas := allHas && has;
        OneMoreFlag(x.S, x.sol, vs, i);
      }
      assert vs[..|vs|] == vs;
    }

    /** The visibility of choice value number `i`; `has` says whether it has a user value, if it is visible. */
    method CalcValueVisibility(s: nat, i: nat, ghost x: Epoch, ghost busy: set<nat>, ghost st0: seq<State>) returns (has: bool)
      requires Fits(x) && Open(x, busy, st0, st, s) && g[s].kind.Choice? && st[s].curr == YES && Picking(x, s)
      requires i < |g[s].kind.values| && ValuesSeen(x, s, i, st)
      modifies this`st
      ensures Open(x, busy, st0, st, s) && st[s] == old(st)[s] && ValuesSeen(x, s, i + 1, st)
      ensures has <==> ValueFlag(x.S, x.sol, g[s].kind.values[i])
      decreases x.rank[s], 7
    {
      var v := g[s].kind.values[i];
      assert v in g[s].kind.values;
      PickVisible(x, s, v);
      ChoiceReady(x, busy + {s}, st, s, v);
      ghost var st1 := st;
      CalcVisibility(v, x, x.rank[s], busy + {s}, x.sol[s := x.sol[s].(tri := YES)]);
      OpenValue(x, busy, st0, st1, st, s, v);
      SeenKept(x, busy + {s}, s, i, st1, st);
      SeenFlag(x, busy + {s}, st, v);
      has := st[v].visible == NO || st[v].has;
    }

    /** sym_choice_default. */
    method ChoiceDefaultValue(s: nat, ghost x: Epoch, ghost busy: set<nat>, ghost st0: seq<State>) returns (def: Option<nat>)
      requires Fits(x) && Open(x, busy, st0, st, s) && g[s].kind.Choice? && Picking(x, s)
      requires ValuesSeen(x, s, |g[s].kind.values|, st)
      modifies this`st
      ensures Open(x, busy, st0, st, s) && st[s] == old(st)[s]
      ensures KindOk(x.S, s) && def ==
        var d := FirstPick(x.S, g[s].kind.picks, Val(x.S, x.sol), ValYes(x.S, x.sol, s));
        if d.Some? then d else FirstVisible(x.S, g[s].kind.values, ValYes(x.S, x.sol, s))
      decreases x.rank[s], 5
    {
      var ps, vs := g[s].kind.picks, g[s].kind.values;
      ghost var v, w := Val(x.S, x.sol), ValYes(x.S, x.sol, s);
      assert KindOk(x.S, s);
      for i := 0 to |ps|
        invariant Open(x, busy, st0, st, s) && st[s] == old(st)[s] && ValuesSeen(x, s, |vs|, st)
        invariant FirstPick(x.S, ps, v, w) == FirstPick(x.S, ps[i..], v, w)
      {
        assert ps[i] in ps && ps[i..][1..] == ps[i + 1..];
        var ok := PickOk(s, ps[i], x, busy, st0);
        if ok {
          return Some(ps[i].target);
        }
      }
      def := FirstVisibleValue(s, x);
    }

    /** One default of a choice: its condition holds and the value it names is visible. */
    method PickOk(s: nat, p: ChoiceDefault, ghost x: Epoch, ghost busy: set<nat>, ghost st0: seq<State>) returns (ok: bool)
      requires Fits(x) && Open(x, busy, st0, st, s) && g[s].kind.Choice? && Picking(x, s)
      requires ValuesSeen(x, s, |g[s].kind.values|, st) && p in g[s].kind.picks
      modifies this`st
      ensures Open(x, busy, st0, st, s) && st[s] == old(st)[s] && ValuesSeen(x, s, |g[s].kind.values|, st)
      ensures KindOk(x.S, s) && KindOk(x.S, p.target)
      ensures ok <==> EvalOpt(p.cond, Val(x.S, x.sol)) != NO && Visible(x.S, p.target, ValYes(x.S, x.sol, s)) != NO
      decreases x.rank[s], 4
    {
      assert KindOk(x.S, s);
      var cond := YES;
      if p.cond.Some? {
        PickReady(x, busy + {s}, st, s, p);
        ghost var st1 := st;
        cond := ExprCalcValue(p.cond.value, x, x.rank[s], busy + {s}, x.sol);
        OpenCall(x, busy, st0, st1, st, s);
        assert FramedAt(x, x.rank[s], busy + {s}, s, st1[s], st[s]);
        SeenCall(x, busy + {s}, s, |g[s].kind.values|, st1, st);
      }
      SeenValue(x, s, st, p.target);
      ok := cond != NO && st[p.target].visible != NO;
    }

    method FirstVisibleValue(s: nat, ghost x: Epoch) returns (def: Option<nat>)
      requires Fits(x) && EpochOk(x) && |st| == |g| && s < |g| && g[s].kind.Choice? && Picking(x, s)
      requires ValuesSeen(x, s, |g[s].kind.values|, st)
      ensures KindOk(x.S, s) && def == FirstVisible(x.S, g[s].kind.values, ValYes(x.S, x.sol, s))
    {
      var vs := g[s].kind.values;
      ghost var w := ValYes(x.S, x.sol, s);
      assert KindOk(x.S, s);
      for i := 0 to |vs|
        invariant FirstVisible(x.S, vs, w) == FirstVisible(x.S, vs[i..], w)
      {
        assert vs[i] in vs && vs[i..][1..] == vs[i + 1..];
        SeenValue(x, s, st, vs[i]);
        if st[vs[i]].visible != NO {
          return Some(vs[i]);
        }
      }
      return None;
    }

    /** The last loop of sym_calc_value: a written choice marks its visible values for writing. */
    method MarkWritten(s: nat, ghost x: Epoch, ghost busy: set<nat>, ghost st0: seq<State>)
      requires Fits(x) && Open(x, busy, st0, st, s) && g[s].kind.Choice?
      modifies this`st
      ensures Open(x, busy, st0, st, s) && st[s] == old(st)[s]
    {
      var vs := g[s].kind.values;
      for i := 0 to |vs|
        invariant Open(x, busy, st0, st, s) && st[s] == old(st)[s]
      {
        assert KindOk(x.S, s) && vs[i] in vs;
        if st[s].write && st[vs[i]].visible != NO {
          MarkOpen(x, busy, st0, st, s, vs[i]);
          st := st[vs[i] := st[vs[i]].(write := true)];
        }
      }
    }

    // ----- sym_calc_visibility -----

    function SymGetType(s: nat): SymType
      requires s < |g| == |st|
      reads this
    {
      if g[s].typ == TristateType && ((g[s].kind.ChoiceValue? && st[s].visible == YES) || modulesVal == NO)
      then BooleanType else g[s].typ
    }

    /** The first loop: all prompts. */
    method CalcPrompts(s: nat, ghost x: Epoch, ghost k: nat, ghost busy: set<nat>, ghost t: Table) returns (tri: Tri)
      requires Fits(x) && Inv(x, busy, st) && (forall b <- busy :: k <= x.rank[b])
      requires |t| == |g| && s < |g| && PromptsReady(x, k, busy, st, t, s)
      modifies this`st
      ensures Inv(x, busy, st) && Framed(x, k, busy, old(st), st)
      ensures tri == OrPrompts(x.S, s, g[s].prompts, Val(x.S, t))
      ensures tri != NO && g[s].kind.ChoiceValue? ==> st[g[s].kind.choice].valid
      decreases k, 5
    {
      var d := g[s];
      tri := NO;
      FramedRefl(x, k, busy, st);
      for i := 0 to |d.prompts|
        invariant Inv(x, busy, st) && Framed(x, k, busy, old(st), st)
        invariant PromptsReady(x, k, busy, st, t, s)
        invariant tri == OrPrompts(x.S, s, d.prompts[..i], Val(x.S, t))
        invariant tri != NO && d.kind.ChoiceValue? ==> st[d.kind.choice].valid
      {
        var p := d.prompts[i];
        assert Ready(x, k, busy, st, t, p);
        ghost var st1 := st;
        var pt := PromptValue(s, p, x, k, busy, t);
        PromptsReadyKept(x, k, busy, st1, st, t, s);
        assert d.kind.ChoiceValue? ==> FramedAt(x, k, busy, d.kind.choice, st1[d.kind.choice], st[d.kind.choice]);
        FramedTrans(x, k, k, busy, old(st), st1, st);
        assert d.prompts[..i + 1] == d.prompts[..i] + [p];
        tri := TriOr(tri, pt);
      }
      assert d.prompts[..|d.prompts|] == d.prompts;
    }

    method PromptValue(s: nat, p: OptExpr, ghost x: Epoch, ghost k: nat, ghost busy: set<nat>, ghost t: Table)
      returns (tri: Tri)
      requires Fits(x) && Inv(x, busy, st) && (forall b <- busy :: k <= x.rank[b])
      requires |t| == |g| && s < |g| && PromptsReady(x, k, busy, st, t, s) && p in g[s].prompts
      modifies this`st
      ensures Inv(x, busy, st) && Framed(x, k, busy, old(st), st)
      ensures tri == PromptTri(x.S, s, p, Val(x.S, t))
      ensures tri != NO && g[s].kind.ChoiceValue? ==> st[g[s].kind.choice].valid
      decreases k, 4
    {
      var d := g[s];
      assert Ready(x, k, busy, st, t, p);
      tri := YES;
      FramedRefl(x, k, busy, st);
      if p.Some? {
        tri := ExprCalcValue(p.value, x, k, busy, t);
        PromptsReadyKept(x, k, busy, old(st), st, t, s);
      }
      if d.kind.ChoiceValue? && tri != NO { ShownChoice(x, k, busy, st, t, s, p); }
      if d.kind.ChoiceValue? && d.typ == TristateType && tri == MOD {
        if st[d.kind.choice].curr == YES {
          tri := NO;
        }
      }
    }

    method CalcVisibility(s: nat, ghost x: Epoch, ghost k: nat, ghost busy: set<nat>, ghost t: Table)
      requires Fits(x) && Inv(x, busy, st) && (forall b <- busy :: k <= x.rank[b])
      requires |t| == |g| && s < |g| && MaySee(x, k, busy, st, t, s)
      requires k <= Group(x, s) || (g[s].kind.ChoiceValue? && s in busy)
      modifies this`st
      ensures Inv(x, busy, st)
      ensures Framed(x, k, busy, old(st), st[s := old(st)[s]])
      ensures st[s] == Seen(x, old(st)[s], t, s).(write := st[s].write)
      ensures st[s].write == old(st)[s].write || g[s].kind.ChoiceValue?
      ensures st[s].visible != NO && g[s].kind.ChoiceValue? ==> st[g[s].kind.choice].valid
      decreases k, 6
    {
      var d := g[s];
      assert Off(x, k, busy, old(st), st, t, s) by { assert st[s := st[s]] == st; FramedRefl(x, k, busy, st); }
      ghost var st1 := st;
      var tri := CalcPrompts(s, x, k, busy, t);
      OffCall(x, k, busy, old(st), st1, st, t, s);
      if tri == MOD && (d.typ != TristateType || modulesVal == NO) {
        tri := YES;
      }
      StoreVisible(s, tri, x, k, busy, t, old(st));
      if d.kind.ChoiceValue? {
        return;
      }
      CalcDeps(s, x, k, busy, t, old(st));
    }

    method StoreVisible(s: nat, tri: Tri, ghost x: Epoch, ghost k: nat, ghost busy: set<nat>, ghost t: Table, ghost st0: seq<State>)
      requires EpochOk(x) && Off(x, k, busy, st0, st, t, s) && InvAt(x, busy, s, st[s].(visible := tri))
      modifies this`st
      ensures Off(x, k, busy, st0, st, t, s) && st == old(st)[s := old(st)[s].(visible := tri)]
    {
      OffStore(x, k, busy, st0, st, t, s, st[s].(visible := tri));
      st := st[s := st[s].(visible := tri)];
    }

    /** The part of sym_calc_visibility after the prompts, for a symbol that is not a choice value. */
    method CalcDeps(s: nat, ghost x: Epoch, ghost k: nat, ghost busy: set<nat>, ghost t: Table, ghost st0: seq<State>)
      requires Fits(x) && EpochOk(x) && (forall b <- busy :: b < |g| && k <= x.rank[b])
      requires |t| == |g| && s < |g| && !g[s].kind.ChoiceValue? && k <= x.rank[s] && s in busy
      requires Off(x, k, busy, st0, st, t, s)
      modifies this`st
      ensures Off(x, k, busy, st0, st, t, s)
      ensures st[s] == WithDeps(x, old(st)[s], t, s)
      decreases k, 5
    {
      var d := g[s];
      ghost var st1 := st;
      var tri := CalcDep(s, d.dirDep, YES, x, k, busy, t);
      OffCall(x, k, busy, st0, st1, st, t, s);
      OffStore(x, k, busy, st0, st, t, s, st[s].(dir := tri));
      st := st[s := st[s].(dir := tri)];
      st1 := st;
      tri := CalcDep(s, d.revDep, NO, x, k, busy, t);
      OffCall(x, k, busy, st0, st1, st, t, s);
      OffStore(x, k, busy, st0, st, t, s, st[s].(rev := tri));
      st := st[s := st[s].(rev := tri)];
      st1 := st;
      tri := CalcDep(s, d.implied, NO, x, k, busy, t);
      OffCall(x, k, busy, st0, st1, st, t, s);
      OffStore(x, k, busy, st0, st, t, s, st[s].(imp := tri));
      st := st[s := st[s].(imp := tri)];
    }

    /** dir_dep, rev_dep or implied; `none` is the value without an expression. */
    method CalcDep(s: nat, e: OptExpr, none: Tri, ghost x: Epoch, ghost k: nat, ghost busy: set<nat>, ghost t: Table)
      returns (tri: Tri)
      requires Fits(x) && Inv(x, busy, st) && (forall b <- busy :: k <= x.rank[b])
      requires |t| == |g| && s < |g| && !g[s].kind.ChoiceValue? && k <= x.rank[s] && Ready(x, k, busy, st, t, e)
      modifies this`st
      ensures Inv(x, busy, st) && Framed(x, k, busy, old(st), st)
      ensures tri == DepTri(x.S, s, old(st)[s].visible, e, none, Val(x.S, t))
      decreases k, 4
    {
      tri := none;
      FramedRefl(x, k, busy, st);
      if e.Some? {
        tri := ExprCalcValue(e.value, x, k, busy, t);
      }
      assert FramedAt(x, k, busy, s, old(st)[s], st[s]);
      if tri == MOD && SymGetType(s) == BooleanType {
        tri := YES;
      }
    }
  }

  ghost predicate PromptsReady(x: Epoch, k: nat, busy: set<nat>, st: seq<State>, t: Table, s: nat)
    requires EpochOk(x) && |st| == |t| == |x.S.g| && s < |st|
  {
    && Typed(Val(x.S, t)) && (forall p <- x.S.g[s].prompts :: Ready(x, k, busy, st, t, p))
    && (x.S.g[s].kind.ChoiceValue? ==> ReadySym(x, k, busy, st, t, x.S.g[s].kind.choice))
  }

  lemma PromptsReadyKept(x: Epoch, k: nat, busy: set<nat>, st0: seq<State>, st1: seq<State>, t: Table, s: nat)
    requires EpochOk(x) && |t| == |x.S.g| && s < |t| && Framed(x, k, busy, st0, st1)
    requires PromptsReady(x, k, busy, st0, t, s)
    ensures PromptsReady(x, k, busy, st1, t, s)
  {
    forall p <- x.S.g[s].prompts ensures Ready(x, k, busy, st1, t, p) { ReadyKept(x, k, busy, st0, st1, t, p); }
    if x.S.g[s].kind.ChoiceValue? {
      var c := x.S.g[s].kind.choice;
      assert FramedAt(x, k, busy, c, st0[c], st1[c]);
    }
  }

  /** A prompt that is not n has asked for the choice, so the choice's value is there to be read. */
  lemma ShownChoice(x: Epoch, k: nat, busy: set<nat>, st: seq<State>, t: Table, s: nat, p: OptExpr)
    requires Inv(x, busy, st) && |t| == |st| && s < |st| && x.S.g[s].kind.ChoiceValue?
    requires PromptsReady(x, k, busy, st, t, s)
    requires p in x.S.g[s].prompts && EvalOpt(p, Val(x.S, t)) != NO
    requires p.Some? ==> forall y <- Mentions(p.value) :: y.Config? ==> y.id < |st| && st[y.id].valid
    ensures st[x.S.g[s].kind.choice].valid && st[x.S.g[s].kind.choice].curr == t[x.S.g[s].kind.choice].tri
  {
    var c := x.S.g[s].kind.choice;
    assert KindOk(x.S, s);
    var e, sym := p.value, SymOf(x.S, c);
    if sym in Mentions(e) {
      assert InvAt(x, busy, c, st[c]);
    } else {
      var v := Val(x.S, t);
      var w := v.(tri := (y: Symbol) => if y == sym then NO else v.tri(y));
      assert AgreeOn(v, w, p) && w.tri(sym) == NO;
      assert Guarded(p, sym, x.S.base) && Typed(w);
      EvalAgree(e, v, w);
    }
  }

  ghost predicate DepsReady(x: Epoch, k: nat, busy: set<nat>, st: seq<State>, t: Table, s: nat)
    requires EpochOk(x) && |st| == |t| == |x.S.g| && s < |st|
  {
    && Ready(x, k, busy, st, t, x.S.g[s].dirDep)
    && Ready(x, k, busy, st, t, x.S.g[s].revDep)
    && Ready(x, k, busy, st, t, x.S.g[s].implied)
  }

  /** Who may ask for the visibility of `s`: the symbol itself, or its choice. */
  ghost predicate MaySee(x: Epoch, k: nat, busy: set<nat>, st: seq<State>, t: Table, s: nat)
    requires EpochOk(x) && |st| == |t| == |x.S.g| && s < |st|
  {
    && x.S.g[s].typ != UnknownType && s != x.S.modules && PromptsReady(x, k, busy, st, t, s)
    && (if x.S.g[s].kind.ChoiceValue? then s in busy || Visible(x.S, s, Val(x.S, t)) == x.sol[s].visible
        else s in busy && DepsReady(x, k, busy, st, t, s))
  }

  ghost function WithDeps(x: Epoch, o: State, t: Table, s: nat): State
    requires EpochOk(x) && |t| == |x.S.g| && s < |t|
  {
    var v, d := Val(x.S, t), x.S.g[s];
    o.(dir := DepTri(x.S, s, o.visible, d.dirDep, YES, v),
       rev := DepTri(x.S, s, o.visible, d.revDep, NO, v),
       imp := DepTri(x.S, s, o.visible, d.implied, NO, v))
  }

  /** The symbol `o` with its visibility and dependencies computed from table `t`. */
  ghost function Seen(x: Epoch, o: State, t: Table, s: nat): State
    requires EpochOk(x) && |t| == |x.S.g| && s < |t|
  {
    assert KindOk(x.S, s);
    var o' := o.(visible := Visible(x.S, s, Val(x.S, t)));
    if x.S.g[s].kind.ChoiceValue? then o' else WithDeps(x, o', t, s)
  }

  // ----- inside one call of sym_calc_value -----

  /** Between entry (`st0`) and exit of the computation of `s`. */
  ghost predicate Open(x: Epoch, busy: set<nat>, st0: seq<State>, st: seq<State>, s: nat) {
    && Inv(x, busy + {s}, st) && s < |st| && s !in busy
    && (forall b <- busy :: x.rank[s] < x.rank[b])
    && Framed(x, x.rank[s] + 1, busy, st0, st)
  }

  lemma Start(x: Epoch, busy: set<nat>, st0: seq<State>, s: nat, o: State)
    requires Inv(x, busy, st0) && s < |st0| && !st0[s].valid && x.S.g[s].typ != UnknownType
    requires forall b <- busy :: x.rank[s] < x.rank[b]
    requires o == st0[s].(valid := true, write := false)
    ensures Open(x, busy, st0, st0[s := o], s)
  {
    GroupAtMost(x, s);
    assert InvAt(x, busy, s, st0[s]);
    var st := st0[s := o];
    forall i | 0 <= i < |st| ensures InvAt(x, busy + {s}, i, st[i]) {
      assert InvAt(x, busy, i, st0[i]);
    }
  }

  lemma GroupAtMost(x: Epoch, s: nat)
    requires EpochOk(x) && s < |x.S.g| && s != x.S.modules
    ensures Group(x, s) <= x.rank[s]
  {
    assert RankedAt(x.S, x.rank, s);
  }

  /** Storing into the symbol being computed. */
  lemma OpenStore(x: Epoch, busy: set<nat>, st0: seq<State>, st: seq<State>, s: nat, o: State)
    requires Open(x, busy, st0, st, s) && InvAt(x, busy + {s}, s, o)
    ensures Open(x, busy, st0, st[s := o], s)
  {
    GroupAtMost(x, s);
    assert FramedAt(x, x.rank[s] + 1, busy, s, st0[s], st[s]);
    var st2 := st[s := o];
    forall i | 0 <= i < |st| ensures InvAt(x, busy + {s}, i, st2[i]) {
      assert InvAt(x, busy + {s}, i, st[i]);
    }
  }

  /** Storing into a choice: its results and its flag are its own. */
  lemma StoreChoice(x: Epoch, busy: set<nat>, st0: seq<State>, st: seq<State>, s: nat, o: State)
    requires Open(x, busy, st0, st, s) && x.S.g[s].kind.Choice? && o == st[s].(has := o.has, curr := o.curr, pick := o.pick)
    ensures Open(x, busy, st0, st[s := o], s)
  {
    assert InvAt(x, busy + {s}, s, st[s]);
    OpenStore(x, busy, st0, st, s, o);
  }

  /** A call that computes earlier symbols. */
  lemma OpenCall(x: Epoch, busy: set<nat>, st0: seq<State>, st1: seq<State>, st2: seq<State>, s: nat)
    requires Open(x, busy, st0, st1, s) && Inv(x, busy + {s}, st2) && Framed(x, x.rank[s], busy + {s}, st1, st2)
    ensures Open(x, busy, st0, st2, s)
  {
    forall i | 0 <= i < |st0| ensures FramedAt(x, x.rank[s] + 1, busy, i, st0[i], st2[i]) {
      assert FramedAt(x, x.rank[s] + 1, busy, i, st0[i], st1[i]) && FramedAt(x, x.rank[s], busy + {s}, i, st1[i], st2[i]);
    }
  }

  /** A call that may also have written `s` itself. */
  lemma OpenCallOff(x: Epoch, busy: set<nat>, st0: seq<State>, st1: seq<State>, st2: seq<State>, s: nat)
    requires Open(x, busy, st0, st1, s) && Inv(x, busy + {s}, st2)
    requires Framed(x, x.rank[s], busy + {s}, st1, st2[s := st1[s]])
    ensures Open(x, busy, st0, st2, s)
  {
    GroupAtMost(x, s);
    assert InvAt(x, busy + {s}, s, st2[s]);
    forall i | 0 <= i < |st0| ensures FramedAt(x, x.rank[s] + 1, busy, i, st0[i], st2[i]) {
      assert FramedAt(x, x.rank[s] + 1, busy, i, st0[i], st1[i]);
      assert FramedAt(x, x.rank[s], busy + {s}, i, st1[i], st2[s := st1[s]][i]);
    }
  }

  lemma OpenFinish(x: Epoch, busy: set<nat>, st0: seq<State>, st: seq<State>, s: nat)
    requires Open(x, busy, st0, st, s) && Agrees(x, s, st[s])
    ensures Inv(x, busy, st) && Framed(x, x.rank[s] + 1, busy, st0, st) && st[s].valid
  {
    forall i | 0 <= i < |st| ensures InvAt(x, busy, i, st[i]) {
      assert InvAt(x, busy + {s}, i, st[i]);
    }
  }

  /** A symbol of unknown type is finished at once. */
  lemma Finish(x: Epoch, busy: set<nat>, st0: seq<State>, s: nat, o: State)
    requires Inv(x, busy, st0) && s < |st0| && !st0[s].valid && x.S.g[s].typ == UnknownType
    requires o == st0[s].(valid := true, curr := NO)
    ensures Inv(x, busy, st0[s := o]) && Framed(x, x.rank[s] + 1, busy, st0, st0[s := o])
  {
    GroupAtMost(x, s);
    var st := st0[s := o];
    forall i | 0 <= i < |st| ensures InvAt(x, busy, i, st[i]) {
      assert InvAt(x, busy, i, st0[i]);
    }
  }

  /** The solution of `s`, field by field. */
  lemma SolFields(x: Epoch, s: nat)
    requires EpochOk(x) && s < |x.S.g| && s != x.S.modules && x.S.g[s].typ != UnknownType
    ensures KindOk(x.S, s)
    ensures var v, d, t := Val(x.S, x.sol), x.S.g[s], x.sol[s];
      && t.visible == Visible(x.S, s, v)
      && t.dir == DepTri(x.S, s, t.visible, d.dirDep, YES, v)
      && t.rev == DepTri(x.S, s, t.visible, d.revDep, NO, v)
      && t.imp == DepTri(x.S, s, t.visible, d.implied, NO, v)
      && (!d.kind.ChoiceValue? ==> t.write == Written(x.S, s, t.visible, t.rev, t.imp, v))
      && (if d.kind.ChoiceValue? && t.visible == YES then
            t.tri == OfBool(x.sol[d.kind.choice].pick == Some(s)) && t.pick == None
          else
            var tri := Promote(x.S, s, t.visible, WithSelects(Wanted(x.S, s, t.visible, t.dir, t.imp, v), t.dir, t.rev));
            if d.kind.Choice? && tri == YES then Picking(x, s) else t.tri == tri && t.pick == None)
  {
    assert KindOk(x.S, s) && x.sol[s] == Local(x.S, s, x.sol);
  }

  /** The choice of a visible choice value is finished. */
  lemma ChoiceRead(x: Epoch, busy: set<nat>, st0: seq<State>, st: seq<State>, s: nat)
    requires Open(x, busy, st0, st, s) && x.S.g[s].kind.ChoiceValue? && x.S.g[s].kind.choice < |st|
    requires st[x.S.g[s].kind.choice].valid
    ensures st[x.S.g[s].kind.choice].pick == x.sol[x.S.g[s].kind.choice].pick
  {
    var c := x.S.g[s].kind.choice;
    assert KindOk(x.S, s) && RankedAt(x.S, x.rank, s) && InvAt(x, busy + {s}, s, st[s]);
    assert InvAt(x, busy + {s}, c, st[c]);
  }

  /** Visibility and dependencies are in, the value is not. */
  ghost predicate HalfDone(x: Epoch, s: nat, o: State)
    requires EpochOk(x) && s < |x.S.g|
  {
    && o.visible == x.sol[s].visible && o.dir == x.sol[s].dir && o.rev == x.sol[s].rev && o.imp == x.sol[s].imp
    && o.has == x.S.users[s].has && o.curr == NO && o.pick == None
  }

  lemma HalfKept(x: Epoch, busy: set<nat>, st1: seq<State>, st2: seq<State>, s: nat)
    requires Inv(x, busy, st1) && Inv(x, busy, st2) && s in busy && Framed(x, x.rank[s], busy, st1, st2)
    requires HalfDone(x, s, st1[s])
    ensures HalfDone(x, s, st2[s]) && (!x.S.g[s].kind.ChoiceValue? ==> st2[s] == st1[s])
  {
    assert FramedAt(x, x.rank[s], busy, s, st1[s], st2[s]);
    assert InvAt(x, busy, s, st1[s]) && InvAt(x, busy, s, st2[s]);
  }

  /** The choice has reached the point where it looks for its default. */
  ghost predicate Picking(x: Epoch, c: nat)
    requires EpochOk(x) && c < |x.S.g| && x.S.g[c].kind.Choice?
  {
    x.sol[c].pick == Pick(x.S, c, x.sol) && x.sol[c].tri == if x.sol[c].pick.None? then NO else YES
  }

  /** The visibilities a choice in mode y gives its values are the ones they end up with: if it
      falls back to n for want of a visible value, they stay n. */
  lemma PickVisible(x: Epoch, c: nat, i: nat)
    requires EpochOk(x) && c < |x.S.g| && x.S.g[c].kind.Choice? && Picking(x, c) && i in x.S.g[c].kind.values
    ensures i < |x.S.g| && x.S.g[i].kind == ChoiceValue(c)
    ensures Visible(x.S, i, ValYes(x.S, x.sol, c)) == x.sol[i].visible
  {
    assert KindOk(x.S, c) && KindOk(x.S, i);
    if x.sol[c].tri == YES {
      assert x.sol[c := x.sol[c].(tri := YES)] == x.sol;
    } else {
      NoneVisible(x.S, x.S.g[c].kind.values, ValYes(x.S, x.sol, c), i);
      SolutionTyped(x.S, x.sol);
      GuardedInvisible(x.S, i, x.S.g[i].prompts, Val(x.S, x.sol));
    }
  }

  lemma {:induction false} NoneVisible(S: Setup, vs: seq<nat>, w: Valuation, i: nat)
    requires forall y <- vs :: y < |S.g| && (S.g[y].kind.ChoiceValue? ==> S.g[y].kind.choice < |S.g|)
    requires FirstVisible(S, vs, w).None? && i in vs
    ensures Visible(S, i, w) == NO
  {
    assert vs[0] in vs && forall y <- vs[1..] :: y in vs;
    if i != vs[0] { NoneVisible(S, vs[1..], w, i); }
  }

  /** The first `n` values of a choice show their final visibility. */
  ghost predicate ValuesSeen(x: Epoch, c: nat, n: nat, st: seq<State>)
    requires EpochOk(x) && c < |x.S.g| == |st| && x.S.g[c].kind.Choice? && n <= |x.S.g[c].kind.values|
  {
    forall j | 0 <= j < n :: var i := x.S.g[c].kind.values[j]; i < |st| && st[i].visible == x.sol[i].visible
  }

  lemma SeenValue(x: Epoch, c: nat, st: seq<State>, i: nat)
    requires EpochOk(x) && c < |x.S.g| == |st| && x.S.g[c].kind.Choice? && Picking(x, c)
    requires i in x.S.g[c].kind.values && ValuesSeen(x, c, |x.S.g[c].kind.values|, st)
    ensures i < |st| && x.S.g[i].kind == ChoiceValue(c) && st[i].visible == Visible(x.S, i, ValYes(x.S, x.sol, c))
  {
    PickVisible(x, c, i);
  }

  lemma SeenFlag(x: Epoch, busy: set<nat>, st: seq<State>, i: nat)
    requires Inv(x, busy, st) && i < |st| && x.S.g[i].kind.ChoiceValue? && st[i].visible == x.sol[i].visible
    ensures ValueFlag(x.S, x.sol, i) <==> (st[i].visible != NO ==> st[i].has)
  {
    assert InvAt(x, busy, i, st[i]);
  }

  /** The values of a choice belong to its group, so lower calls leave them alone. */
  lemma SeenCall(x: Epoch, busy: set<nat>, c: nat, n: nat, st1: seq<State>, st2: seq<State>)
    requires EpochOk(x) && c < |x.S.g| == |st1| && x.S.g[c].kind.Choice? && n <= |x.S.g[c].kind.values|
    requires ValuesSeen(x, c, n, st1) && Framed(x, x.rank[c], busy, st1, st2)
    ensures ValuesSeen(x, c, n, st2)
  {
    assert KindOk(x.S, c);
    forall j | 0 <= j < n ensures var i := x.S.g[c].kind.values[j]; st2[i].visible == x.sol[i].visible {
      var i := x.S.g[c].kind.values[j];
      assert FramedAt(x, x.rank[c], busy, i, st1[i], st2[i]);
    }
  }

  /** After the visibility of value number `n` has been stored. */
  lemma SeenKept(x: Epoch, busy: set<nat>, c: nat, n: nat, st1: seq<State>, st2: seq<State>)
    requires EpochOk(x) && c < |x.S.g| == |st1| == |st2| && x.S.g[c].kind.Choice? && n < |x.S.g[c].kind.values|
    requires x.S.g[c].kind.values[n] < |st1|
    requires ValuesSeen(x, c, n, st1)
    requires var i := x.S.g[c].kind.values[n];
      Framed(x, x.rank[c], busy, st1, st2[i := st1[i]]) && st2[i].visible == x.sol[i].visible
    ensures ValuesSeen(x, c, n + 1, st2)
  {
    assert KindOk(x.S, c);
    var i := x.S.g[c].kind.values[n];
    forall j | 0 <= j < n ensures var i' := x.S.g[c].kind.values[j]; st2[i'].visible == x.sol[i'].visible {
      var i' := x.S.g[c].kind.values[j];
      assert FramedAt(x, x.rank[c], busy, i', st1[i'], st2[i := st1[i]][i']);
    }
  }

  /** What the choice needs to ask for the visibility of one of its values. */
  lemma ChoiceReady(x: Epoch, busy: set<nat>, st: seq<State>, c: nat, i: nat)
    requires Inv(x, busy, st) && c in busy && (forall b <- busy :: x.rank[c] <= x.rank[b])
    requires x.S.g[c].kind.Choice? && i in x.S.g[c].kind.values && st[c].curr == YES && Picking(x, c)
    ensures i < |st| && Group(x, i) == x.rank[c]
    ensures MaySee(x, x.rank[c], busy, st, x.sol[c := x.sol[c].(tri := YES)], i)
  {
    var t := x.sol[c := x.sol[c].(tri := YES)];
    PickVisible(x, c, i);
    SolutionTyped(x.S, x.sol);
    assert Typed(Val(x.S, t));
    assert RankedAt(x.S, x.rank, i) && DefOk(x.S.g, x.S.g[i]) && KindOk(x.S, i) && KindOk(x.S, x.S.modules);
    forall p <- x.S.g[i].prompts ensures Ready(x, x.rank[c], busy, st, t, p) {
      assert BelowOr(p, x.rank, x.rank[c], c);
    }
  }

  lemma PickReady(x: Epoch, busy: set<nat>, st: seq<State>, c: nat, p: ChoiceDefault)
    requires Inv(x, busy, st) && c in busy && (forall b <- busy :: x.rank[c] <= x.rank[b])
    requires x.S.g[c].kind.Choice? && p in x.S.g[c].kind.picks
    ensures Ready(x, x.rank[c], busy, st, x.sol, p.cond)
  {
    assert InvAt(x, busy, c, st[c]);
    assert RankedAt(x.S, x.rank, c) && KindOk(x.S, c);
  }

  /** A choice has stored the visibility of one of its values. */
  lemma OpenValue(x: Epoch, busy: set<nat>, st0: seq<State>, st1: seq<State>, st2: seq<State>, c: nat, i: nat)
    requires Open(x, busy, st0, st1, c) && Inv(x, busy + {c}, st2) && i < |st1| && x.S.g[i].kind == ChoiceValue(c)
    requires x.S.g[c].kind.Choice?
    requires Framed(x, x.rank[c], busy + {c}, st1, st2[i := st1[i]])
    requires st2[i] == st1[i].(visible := x.sol[i].visible, write := st2[i].write)
    ensures Open(x, busy, st0, st2, c) && st2[c] == st1[c]
  {
    assert KindOk(x.S, i);
    assert FramedAt(x, x.rank[c], busy + {c}, c, st1[c], st2[i := st1[i]][c]);
    forall j | 0 <= j < |st0| ensures FramedAt(x, x.rank[c] + 1, busy, j, st0[j], st2[j]) {
      assert FramedAt(x, x.rank[c] + 1, busy, j, st0[j], st1[j]);
      assert FramedAt(x, x.rank[c], busy + {c}, j, st1[j], st2[i := st1[i]][j]);
    }
  }

  lemma MarkOpen(x: Epoch, busy: set<nat>, st0: seq<State>, st: seq<State>, c: nat, i: nat)
    requires Open(x, busy, st0, st, c) && i < |st| && x.S.g[i].kind == ChoiceValue(c) && x.S.g[c].kind.Choice?
    ensures Open(x, busy, st0, st[i := st[i].(write := true)], c)
  {
    var st2 := st[i := st[i].(write := true)];
    assert KindOk(x.S, i);
    forall j | 0 <= j < |st| ensures InvAt(x, busy + {c}, j, st2[j]) {
      assert InvAt(x, busy + {c}, j, st[j]);
    }
    forall j | 0 <= j < |st0| ensures FramedAt(x, x.rank[c] + 1, busy, j, st0[j], st2[j]) {
      assert FramedAt(x, x.rank[c] + 1, busy, j, st0[j], st[j]);
    }
  }

  /** What `s` is computed from is ready when its own computation starts. */
  lemma OwnReady(x: Epoch, busy: set<nat>, st: seq<State>, s: nat)
    requires Inv(x, busy, st) && s in busy && forall b <- busy :: x.rank[s] <= x.rank[b]
    ensures MaySee(x, x.rank[s], busy, st, x.sol, s)
    ensures forall f <- x.S.g[s].defaults ::
      Ready(x, x.rank[s], busy, st, x.sol, Some(f.value)) && Ready(x, x.rank[s], busy, st, x.sol, f.cond)
  {
    var d, k := x.S.g[s], x.rank[s];
    SolutionTyped(x.S, x.sol);
    assert InvAt(x, busy, s, st[s]);
    assert RankedAt(x.S, x.rank, s) && DefOk(x.S.g, d) && KindOk(x.S, s);
    forall p <- d.prompts ensures Ready(x, k, busy, st, x.sol, p) { }
    forall f <- d.defaults
      ensures Ready(x, k, busy, st, x.sol, Some(f.value)) && Ready(x, k, busy, st, x.sol, f.cond)
    {
    }
  }

  // ----- while the visibility is computed -----

  /** While the fields of `s` are being filled in: everything but `s` itself is framed. */
  ghost predicate Off(x: Epoch, k: nat, busy: set<nat>, st0: seq<State>, st: seq<State>, t: Table, s: nat) {
    && Inv(x, busy, st) && |st0| == |st| == |t| && s < |st|
    && Framed(x, k, busy, st0, st[s := st0[s]])
    && MaySee(x, k, busy, st, t, s)
  }

  lemma OffCall(x: Epoch, k: nat, busy: set<nat>, st0: seq<State>, st1: seq<State>, st2: seq<State>, t: Table, s: nat)
    requires EpochOk(x) && Off(x, k, busy, st0, st1, t, s) && Inv(x, busy, st2) && Framed(x, k, busy, st1, st2)
    requires k <= Group(x, s) || (x.S.g[s].kind.ChoiceValue? && s in busy)
    ensures Off(x, k, busy, st0, st2, t, s)
    ensures k <= Group(x, s) ==> st2[s] == st1[s]
    ensures st2[s] == st1[s].(visible := st2[s].visible, write := st2[s].write)
  {
    assert FramedAt(x, k, busy, s, st1[s], st2[s]);
    assert InvAt(x, busy, s, st1[s]) && InvAt(x, busy, s, st2[s]);
    forall i | 0 <= i < |st0| ensures FramedAt(x, k, busy, i, st0[i], st2[s := st0[s]][i]) {
      assert FramedAt(x, k, busy, i, st0[i], st1[s := st0[s]][i]) && FramedAt(x, k, busy, i, st1[i], st2[i]);
    }
    PromptsReadyKept(x, k, busy, st1, st2, t, s);
    if !x.S.g[s].kind.ChoiceValue? {
      ReadyKept(x, k, busy, st1, st2, t, x.S.g[s].dirDep);
      ReadyKept(x, k, busy, st1, st2, t, x.S.g[s].revDep);
      ReadyKept(x, k, busy, st1, st2, t, x.S.g[s].implied);
    }
  }

  lemma OffStore(x: Epoch, k: nat, busy: set<nat>, st0: seq<State>, st: seq<State>, t: Table, s: nat, o: State)
    requires EpochOk(x) && Off(x, k, busy, st0, st, t, s)
    requires o == st[s].(visible := o.visible, dir := o.dir, rev := o.rev, imp := o.imp)
    requires InvAt(x, busy, s, o)
    ensures Off(x, k, busy, st0, st[s := o], t, s)
  {
    var st1 := st[s := o];
    assert st1[s := st0[s]] == st[s := st0[s]];
    forall i | 0 <= i < |st1| ensures InvAt(x, busy, i, st1[i]) {
      assert InvAt(x, busy, i, st[i]);
    }
    assert forall i | 0 <= i < |st1| :: st1[i].curr == st[i].curr;
    forall p <- x.S.g[s].prompts ensures Ready(x, k, busy, st1, t, p) { ReadyCurr(x, k, busy, st, st1, t, p); }
    if !x.S.g[s].kind.ChoiceValue? {
      ReadyCurr(x, k, busy, st, st1, t, x.S.g[s].dirDep);
      ReadyCurr(x, k, busy, st, st1, t, x.S.g[s].revDep);
      ReadyCurr(x, k, busy, st, st1, t, x.S.g[s].implied);
    }
  }

  lemma ReadyCurr(x: Epoch, k: nat, busy: set<nat>, st: seq<State>, st1: seq<State>, t: Table, e: OptExpr)
    requires EpochOk(x) && |st| == |st1| == |t| == |x.S.g| && Ready(x, k, busy, st, t, e)
    requires forall i | 0 <= i < |st| :: st1[i].curr == st[i].curr
    ensures Ready(x, k, busy, st1, t, e)
  {
    if e.Some? {
      forall y <- Mentions(e.value) | y.Config? ensures ReadySym(x, k, busy, st1, t, y.id) {
        assert ReadySym(x, k, busy, st, t, y.id);
      }
    }
  }

  lemma FramedRefl(x: Epoch, k: nat, busy: set<nat>, st: seq<State>)
    requires EpochOk(x) && |st| == |x.S.g|
    ensures Framed(x, k, busy, st, st)
  {
  }

  /** A comparison looks only at its two symbols. */
  lemma CompareTwo(v: Valuation, w: Valuation, y: Symbol, z: Symbol)
    requires v.text == w.text && v.modules == w.modules && v.number == w.number
    requires TriValue(v, y) == TriValue(w, y) && TriValue(v, z) == TriValue(w, z)
    ensures Compare(v, y, z) == Compare(w, y, z)
  {
    EvalAgreeCmp(v, w, y);
    EvalAgreeCmp(v, w, z);
  }

  lemma EvalAgreeCmp(v: Valuation, w: Valuation, y: Symbol)
    requires v.text == w.text && v.modules == w.modules && v.number == w.number && TriValue(v, y) == TriValue(w, y)
    ensures StringValue(v, y) == StringValue(w, y) && ParseValue(v, y) == ParseValue(w, y)
  {
  }
}
