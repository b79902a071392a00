/** Who mentions a closed choice once menu_finalize is done: its values, what leads to them, and what
    these select. */
module MenuHomes {
  import opened Tristates
  import opened Exprs
  import opened Dups
  import opened MenuTrees
  import opened MenuDeps
  import opened MenuContent

  // ----- the contents after each step -----

  /** Passing on to node `i`: a choice comes in only from above, and goes on only through `i`. */
  lemma PassedHoused(d: Decl, words: set<Symbol>, c0: Content, c1: Content, pd: OptExpr, i: nat)
    requires DeclOk(d) && Fits(d, c0, words) && i < |d.sym| && RawAt(d, words, c0, i) && PassedOn(d, words, pd, d.home[i])
    requires |c1.dep| == |c0.dep| && c1.dep == c0.dep[i := c1.dep[i]] && Carried(c1.dep[i], pd, c0.dep[i], d.modules, words)
    requires VisDone(d, words, i, c1.dep[i], c0.vis, c1.vis, PropsOf(d, i))
    requires InProps(d, PropsOf(d, i)) && c1.syms == Entered(d, i, PropsOf(d, i), c1.vis, c0.syms)
    ensures Housed(d, c1)
  {
    var mid := c1.(syms := c0.syms);
    forall j | 0 <= j < |c1.dep| ensures DepHoused(d, c1, j) && DepHoused(d, mid, j) { assert DepHoused(d, c0, j); }
    forall p | 0 <= p < |c1.vis| ensures VisHoused(d, c1, p) && VisHoused(d, mid, p) {
      assert VisHoused(d, c0, p) && PropOk(d, p);
    }
    forall s | 0 <= s < |c0.syms| ensures SymHoused(d, mid, s) && EntryHoused(d, mid, s) {
      assert SymHoused(d, c0, s) && EntryHoused(d, c0, s);
      VoicedElsewhere(d, c0, mid, i, s, c0.syms[s].dirDep);
      VoicedElsewhere(d, c0, mid, i, s, c0.syms[s].revDep);
      VoicedElsewhere(d, c0, mid, i, s, c0.syms[s].implied);
    }
    EnteredHoused(d, mid, i, PropsOf(d, i));
    forall s | 0 <= s < |c1.syms| ensures SymHoused(d, c1, s) && EntryHoused(d, c1, s) {
      assert SymHoused(d, c1, s) && EntryHoused(d, mid, s);
    }
    forall x <- d.closed ensures ListHoused(d, c1, x) { assert ListHoused(d, c0, x); }
  }

  lemma VoicedElsewhere(d: Decl, c0: Content, c1: Content, i: nat, s: nat, e: OptExpr)
    requires VoicedIn(d, c0, s, e) && i < |c0.dep| == |c1.dep| && c1.dep == c0.dep[i := c1.dep[i]] && Silent(d, c0.dep[i])
    ensures VoicedIn(d, c1, s, e)
  {
    forall x <- d.closed | Speaks(d, e, x) ensures Voiced(d, c1, s, e, x) {
      assert Voiced(d, c0, s, e, x);
      var k: nat :| VoicedBy(d, c0, s, e, x, k);
      assert VoicedBy(d, c1, s, e, x, k);
    }
  }

  lemma {:induction false} EnteredHoused(d: Decl, c: Content, i: nat, ps: seq<nat>)
    requires DeclOk(d) && i < |d.sym| && |c.dep| == |d.sym| && |c.vis| == |d.props| && |c.syms| == |d.syms| && InProps(d, ps)
    requires DepHoused(d, c, i) && (forall p | 0 <= p < |c.vis| :: VisHoused(d, c, p))
    requires AllHoused(d, c)
    ensures AllHoused(d, c.(syms := Entered(d, i, ps, c.vis, c.syms)))
  {
    if ps != [] {
      var p := ps[|ps| - 1];
      var before := c.(syms := Entered(d, i, ps[..|ps| - 1], c.vis, c.syms));
      EnteredHoused(d, c, i, ps[..|ps| - 1]);
      assert PropOk(d, p) && NodeOk(d, i) && VisHoused(d, c, p);
      if d.props[p].menu == i {
        var after := before.(syms := EnterOne(d, i, d.props[p].kind, c.vis[p], before.syms));
        forall s | 0 <= s < |after.syms| ensures SymHoused(d, after, s) { EnterOneHoused(d, before, i, p, s); }
        assert AllHoused(d, after);
      }
    }
  }

  ghost predicate AllHoused(d: Decl, c: Content) { forall s | 0 <= s < |c.syms| :: SymHoused(d, c, s) }

  lemma EnterOneHoused(d: Decl, c: Content, i: nat, p: nat, s: nat)
    requires DeclOk(d) && i < |d.sym| && |c.dep| == |d.sym| && |c.vis| == |d.props| && |c.syms| == |d.syms|
    requires p < |d.props| && d.props[p].menu == i && DepHoused(d, c, i) && VisHoused(d, c, p) && s < |c.syms| && SymHoused(d, c, s)
    requires d.props[p].kind.Select? || d.props[p].kind.Imply? ==> d.props[p].kind.target < |d.syms| && d.sym[i].Some? && d.sym[i].value < |d.syms|
    ensures SymHoused(d, c.(syms := EnterOne(d, i, d.props[p].kind, c.vis[p], c.syms)), s)
  {
    var r := c.(syms := EnterOne(d, i, d.props[p].kind, c.vis[p], c.syms));
    assert PropOk(d, p);
    VoicedLater(d, c, r, s, c.syms[s].dirDep, c.syms[s].dirDep);
    VoicedLater(d, c, r, s, c.syms[s].revDep, c.syms[s].revDep);
    VoicedLater(d, c, r, s, c.syms[s].implied, c.syms[s].implied);
    if d.props[p].kind == Select(s) { AddedVoiced(d, c, r, i, p, s, c.syms[s].revDep); }
    if d.props[p].kind == Imply(s) { AddedVoiced(d, c, r, i, p, s, c.syms[s].implied); }
  }

  lemma AddedVoiced(d: Decl, c: Content, r: Content, i: nat, p: nat, s: nat, e: OptExpr)
    requires DeclOk(d) && i < |d.sym| && |c.dep| == |d.sym| && |c.vis| == |d.props| && r.dep == c.dep
    requires p < |d.props| && d.props[p].menu == i && DepHoused(d, c, i) && VisHoused(d, c, p) && VoicedIn(d, c, s, e)
    requires d.sym[i].Some? && d.sym[i].value < |d.syms| && d.sym[i].value !in d.closed
    ensures VoicedIn(d, r, s, AllocOr(e, AllocAnd(Some(Sym(SymOf(d, d.sym[i].value))), c.vis[p])))
  {
    var x := Some(Sym(SymOf(d, d.sym[i].value)));
    var both := AllocAnd(x, c.vis[p]);
    var more := AllocOr(e, both);
    AndMentions(x, c.vis[p]);
    AndMentions(e, both);
    VoicedLater(d, c, r, s, e, more);
    forall y <- d.closed | Speaks(d, more, y) ensures Voiced(d, r, s, more, y) {
      if !Speaks(d, e, y) { assert VoicedBy(d, r, s, more, y, i); }
    }
  }

  /** The dependency of node `m` added to the direct dependency of its symbol. */
  lemma DirHoused(d: Decl, words: set<Symbol>, c: Content, m: nat)
    requires DeclOk(d) && Fits(d, c, words) && m < |d.sym| && d.sym[m].Some? && d.sym[m].value < |d.syms|
    ensures var s := d.sym[m].value;
      Housed(d, c.(syms := c.syms[s := c.syms[s].(dirDep := AllocOr(c.syms[s].dirDep, c.dep[m]))]))
  {
    var s := d.sym[m].value;
    var more := AllocOr(c.syms[s].dirDep, c.dep[m]);
    AndMentions(c.syms[s].dirDep, c.dep[m]);
    forall x <- d.closed | Speaks(d, c.dep[m], x) ensures VoicedBy(d, c, s, more, x, m) { assert DepHoused(d, c, m); }
    OneMoreHoused(d, words, c, c.(syms := c.syms[s := c.syms[s].(dirDep := more)]), s);
  }

  /** The minimum of a choice added to its reverse dependency. */
  lemma MinimumHoused(d: Decl, words: set<Symbol>, c: Content, m: nat)
    requires DeclOk(d) && Fits(d, c, words) && m < |d.sym| && d.sym[m].Some? && d.sym[m].value < |d.syms|
    requires d.prompt[m].Some? && d.prompt[m].value < |d.props| && d.props[d.prompt[m].value].menu == m
    ensures var s := d.sym[m].value;
      Housed(d, c.(syms := c.syms[s := c.syms[s].(revDep := AllocOr(c.syms[s].revDep, AllocAnd(c.vis[d.prompt[m].value], Some(Sym(SymMod)))))]))
  {
    var s, p := d.sym[m].value, d.prompt[m].value;
    var shown := AllocAnd(c.vis[p], Some(Sym(SymMod)));
    var more := AllocOr(c.syms[s].revDep, shown);
    AndMentions(c.vis[p], Some(Sym(SymMod)));
    AndMentions(c.syms[s].revDep, shown);
    assert VisHoused(d, c, p);
    forall x <- d.closed | Speaks(d, c.vis[p], x) ensures VoicedBy(d, c, s, more, x, m) { assert DepHoused(d, c, m); }
    OneMoreHoused(d, words, c, c.(syms := c.syms[s := c.syms[s].(revDep := more)]), s);
  }

  /** Only the direct or the reverse dependency of `s` grew, and what came in is the work of an entry. */
  lemma OneMoreHoused(d: Decl, words: set<Symbol>, c0: Content, c1: Content, s: nat)
    requires DeclOk(d) && Fits(d, c0, words) && s < |c0.syms| && c1.dep == c0.dep && c1.vis == c0.vis && |c1.syms| == |c0.syms|
    requires c1.syms == c0.syms[s := c0.syms[s].(dirDep := c1.syms[s].dirDep, revDep := c1.syms[s].revDep)]
    requires Added(d, c0, s, c0.syms[s].dirDep, c1.syms[s].dirDep) && Added(d, c0, s, c0.syms[s].revDep, c1.syms[s].revDep)
    ensures Housed(d, c1)
  {
    forall j | 0 <= j < |c1.dep| ensures DepHoused(d, c1, j) { assert DepHoused(d, c0, j); }
    forall p | 0 <= p < |c1.vis| ensures VisHoused(d, c1, p) { assert VisHoused(d, c0, p); }
    forall r | 0 <= r < |c1.syms| ensures SymHoused(d, c1, r) && EntryHoused(d, c1, r) {
      assert SymHoused(d, c0, r) && EntryHoused(d, c0, r);
      VoicedLater(d, c0, c1, r, c0.syms[r].dirDep, c1.syms[r].dirDep);
      VoicedLater(d, c0, c1, r, c0.syms[r].revDep, c1.syms[r].revDep);
      VoicedLater(d, c0, c1, r, c0.syms[r].implied, c1.syms[r].implied);
      if r == s {
        AddedLater(d, c0, c1, s, c0.syms[s].dirDep, c1.syms[s].dirDep);
        AddedLater(d, c0, c1, s, c0.syms[s].revDep, c1.syms[s].revDep);
      }
    }
    forall x <- d.closed ensures ListHoused(d, c1, x) { assert ListHoused(d, c0, x); }
  }

  ghost predicate Added(d: Decl, c: Content, s: nat, e0: OptExpr, e1: OptExpr) {
    && MentionsOpt(e0) <= MentionsOpt(e1)
    && forall x <- d.closed | Speaks(d, e1, x) :: Speaks(d, e0, x) || Voiced(d, c, s, e1, x)
  }

  lemma AddedLater(d: Decl, c0: Content, c1: Content, s: nat, e0: OptExpr, e1: OptExpr)
    requires Added(d, c0, s, e0, e1) && VoicedIn(d, c0, s, e0) && c1.dep == c0.dep
    ensures VoicedIn(d, c1, s, e1)
  {
    VoicedLater(d, c0, c1, s, e0, e1);
    forall x <- d.closed | Speaks(d, e1, x) ensures Voiced(d, c1, s, e1, x) {
      if !Speaks(d, e0, x) {
        var k: nat :| VoicedBy(d, c0, s, e1, x, k);
        assert VoicedBy(d, c1, s, e1, x, k);
      }
    }
  }

  // ----- from entry to entry -----

  /** Entry `i` of choice `x` mentions entry `j` of it: in its direct dependency, or in the condition of
      its prompt. */
  predicate Tells(d: Decl, c: Content, x: nat, i: nat, j: nat) {
    EntryOf(d, i, Some(x)) && EntryOf(d, j, Some(x)) && Says(d, c, i, d.sym[j].value)
  }

  predicate Says(d: Decl, c: Content, i: nat, s: nat) {
    && i < |d.sym| && i < |d.prompt| && d.sym[i].Some?
    && ((d.sym[i].value < |c.syms| && Speaks(d, c.syms[d.sym[i].value].dirDep, s))
        || (d.prompt[i].Some? && d.prompt[i].value < |c.vis| && Speaks(d, c.vis[d.prompt[i].value], s)))
  }

  /** From entry `i`, through entries among `ids`, mentions lead to one of `ends` or to a value of `x`. */
  ghost predicate Strong(d: Decl, c: Content, x: nat, ids: seq<nat>, ends: seq<nat>, i: nat) {
    exists q: seq<nat> :: Leading(d, c, x, ids, ends, i, q)
  }

  ghost predicate Leading(d: Decl, c: Content, x: nat, ids: seq<nat>, ends: seq<nat>, i: nat, q: seq<nat>) {
    && q != [] && q[0] == i && Ends(d, c, x, ends, q[|q| - 1])
    && forall k | 0 <= k < |q| - 1 :: q[k] in ids && Tells(d, c, x, q[k], q[k + 1])
  }

  predicate Ends(d: Decl, c: Content, x: nat, ends: seq<nat>, j: nat) {
    j in ends || (j < |d.sym| && d.sym[j].Some? && Listed(d, c, x, d.sym[j].value))
  }

  /** An entry of `x` whose dependency mentions `x`. */
  predicate Rooted(d: Decl, c: Content, x: nat, i: nat) {
    EntryOf(d, i, Some(x)) && i < |c.dep| && Speaks(d, c.dep[i], x)
  }

  ghost predicate Hung(d: Decl, c: Content, x: nat, ids: seq<nat>, ends: seq<nat>) {
    forall i <- ids | Rooted(d, c, x, i) :: Strong(d, c, x, ids, ends, i)
  }

  /** Entries below `t` lead to a value, to `t`, or, below an `if`, to what will take the place of the `if`;
      choices below `t` have their minimum. */
  ghost predicate Tied(d: Decl, c: Content, t: Tree) {
    && t.id < |d.sym| == |d.home| == |d.text|
    && (d.home[t.id].Some? && d.sym[t.id].None? && d.text[t.id] ==> t.kids == [])
    && |c.vis| == |d.props| && |c.syms| == |d.syms| && (forall i <- Pre(t.kids) :: MinimumAt(d, c, i))
    && forall x <- d.closed :: Hung(d, c, x, Pre(t.kids), Loose(d, t, x))
  }

  function Loose(d: Decl, t: Tree, x: nat): seq<nat>
    requires t.id < |d.sym| == |d.home|
  {
    if d.home[t.id] != Some(x) then [] else if d.sym[t.id].Some? then [t.id] else Roots(t.kids)
  }

  ghost predicate AllTied(d: Decl, c: Content, f: Forest) {
    forall t <- f :: Tied(d, c, t) && MinimumAt(d, c, t.id)
  }

  lemma SaysHeld(d: Decl, c1: Content, c2: Content, i: nat, s: nat)
    requires DeclOk(d) && |c1.dep| == |d.sym| == |c2.dep| && |c1.syms| == |d.syms| == |c2.syms| && |c1.vis| == |d.props| == |c2.vis|
    requires i < |d.sym| && SaidAt(d, c1, c2, i) && Grown(c1, c2) && Says(d, c1, i, s)
    ensures Says(d, c2, i, s)
  {
    assert NodeOk(d, i);
    assert SymGrown(c1.syms[d.sym[i].value], c2.syms[d.sym[i].value]);
  }

  /** Leading on lasts while nothing is unsaid. */
  lemma StrongHeld(d: Decl, c1: Content, c2: Content, x: nat, ids: seq<nat>, ends: seq<nat>, i: nat)
    requires DeclOk(d) && |c1.dep| == |d.sym| == |c2.dep| && |c1.syms| == |d.syms| == |c2.syms| && |c1.vis| == |d.props| == |c2.vis|
    requires Said(d, c1, c2, ids) && Grown(c1, c2) && Strong(d, c1, x, ids, ends, i)
    ensures Strong(d, c2, x, ids, ends, i)
  {
    var q :| Leading(d, c1, x, ids, ends, i, q);
    forall k | 0 <= k < |q| - 1 ensures q[k] in ids && Tells(d, c2, x, q[k], q[k + 1]) {
      SaysHeld(d, c1, c2, q[k], d.sym[q[k + 1]].value);
    }
    assert Ends(d, c2, x, ends, q[|q| - 1]) by { assert x < |c1.syms| ==> SymGrown(c1.syms[x], c2.syms[x]); }
    assert Leading(d, c2, x, ids, ends, i, q);
  }

  lemma HungHeld(d: Decl, words: set<Symbol>, c1: Content, c2: Content, x: nat, ids: seq<nat>, ends: seq<nat>)
    requires DeclOk(d) && Fits(d, c1, words) && Fits(d, c2, words)
    requires Said(d, c1, c2, ids) && Grown(c1, c2) && Hung(d, c1, x, ids, ends)
    ensures Hung(d, c2, x, ids, ends)
  {
    forall i <- ids | Rooted(d, c2, x, i) ensures Strong(d, c2, x, ids, ends, i) {
      assert SaidAt(d, c1, c2, i);
      if c2.dep[i] == c1.dep[i] {
        StrongHeld(d, c1, c2, x, ids, ends, i);
      } else {
        ValueIsStrong(d, words, c2, x, ids, ends, i);
      }
    }
  }

  lemma ValueIsStrong(d: Decl, words: set<Symbol>, c: Content, x: nat, ids: seq<nat>, ends: seq<nat>, i: nat)
    requires DeclOk(d) && Fits(d, c, words) && EntryOf(d, i, Some(x)) && IsValue(d, c, i)
    ensures Strong(d, c, x, ids, ends, i) && Listed(d, c, x, d.sym[i].value)
  {
    assert EntryHoused(d, c, d.sym[i].value);
    assert Leading(d, c, x, ids, ends, i, [i]);
  }

  lemma TiedHeld(d: Decl, words: set<Symbol>, c1: Content, c2: Content, t: Tree)
    requires DeclOk(d) && Fits(d, c1, words) && Fits(d, c2, words)
    requires Said(d, c1, c2, Pre(t.kids)) && Grown(c1, c2) && Tied(d, c1, t)
    ensures Tied(d, c2, t)
  {
    forall x <- d.closed ensures Hung(d, c2, x, Pre(t.kids), Loose(d, t, x)) {
      HungHeld(d, words, c1, c2, x, Pre(t.kids), Loose(d, t, x));
    }
    forall i <- Pre(t.kids) ensures MinimumAt(d, c2, i) {
      if i < |d.sym| { MinimumHeld(d, c1, c2, i); }
    }
  }

  lemma MinimaBelow(d: Decl, c: Content, f: Forest)
    requires |c.vis| == |d.props| && |c.syms| == |d.syms| && AllTied(d, c, f)
    ensures forall i <- Pre(f) :: MinimumAt(d, c, i)
  {
    forall i <- Pre(f) ensures MinimumAt(d, c, i) { var t := InForest(f, i); }
  }

  /** What leads to `ends` leads to where all of these lead. */
  lemma StrongThrough(d: Decl, c: Content, x: nat, ids: seq<nat>, ends: seq<nat>, ids': seq<nat>, ends': seq<nat>, i: nat)
    requires Strong(d, c, x, ids, ends, i) && EntryOf(d, i, Some(x)) && (forall j <- ids :: j in ids')
    requires forall j <- ends | EntryOf(d, j, Some(x)) :: Strong(d, c, x, ids', ends', j)
    ensures Strong(d, c, x, ids', ends', i)
  {
    var q :| Leading(d, c, x, ids, ends, i, q);
    var j := q[|q| - 1];
    if |q| > 1 { assert Tells(d, c, x, q[|q| - 2], q[|q| - 1]); }
    if j in ends {
      var r :| Leading(d, c, x, ids', ends', j, r);
      var w := q[..|q| - 1] + r;
      forall k | 0 <= k < |w| - 1 ensures w[k] in ids' && Tells(d, c, x, w[k], w[k + 1]) {
        if k < |q| - 1 {
          assert w[k] == q[k] && w[k + 1] == q[k + 1] && Tells(d, c, x, q[k], q[k + 1]);
        } else {
          assert w[k] == r[k - (|q| - 1)] && w[k + 1] == r[k - (|q| - 1) + 1];
        }
      }
      assert Leading(d, c, x, ids', ends', i, w);
    } else {
      assert Leading(d, c, x, ids', ends', i, q);
    }
  }

  lemma EndIsStrong(d: Decl, c: Content, x: nat, ids: seq<nat>, ends: seq<nat>, i: nat)
    requires i in ends
    ensures Strong(d, c, x, ids, ends, i)
  {
    assert Leading(d, c, x, ids, ends, i, [i]);
  }

  // ----- what an automatic submenu takes over -----

  /** Node `t`, and below an `if` whatever mentions the choice around `m`, mentions `m` or is a value. */
  ghost predicate Follows(d: Decl, c: Content, m: nat, t: Tree) {
    && t.id < |d.sym| == |d.home| && m < |d.home| && d.home[t.id] == d.home[m]
    && forall x <- d.closed | d.home[m] == Some(x) ::
         if d.sym[t.id].Some? then Heeds(d, c, x, m, t.id) else forall i <- Pre(t.kids) | Rooted(d, c, x, i) :: Heeds(d, c, x, m, i)
  }

  predicate Heeds(d: Decl, c: Content, x: nat, m: nat, i: nat) {
    Tells(d, c, x, i, m) || (i < |d.sym| && d.sym[i].Some? && Listed(d, c, x, d.sym[i].value))
  }

  lemma InForest(f: Forest, i: nat) returns (t: Tree)
    requires i in Pre(f)
    ensures t in f && (i == t.id || i in Pre(t.kids))
  {
    PreHead(f);
    if i == f[0].id || i in Pre(f[0].kids) { t := f[0]; } else { t := InForest(f[1..], i); }
  }

  lemma AdoptedTied(d: Decl, c: Content, m: nat, done: Forest)
    requires DeclOk(d) && m < |d.sym| && d.sym[m].Some? && AllTied(d, c, done) && forall t <- done :: Follows(d, c, m, t)
    requires |c.vis| == |d.props| && |c.syms| == |d.syms|
    ensures Tied(d, c, Tree(m, done))
  {
    MinimaBelow(d, c, done);
    var ids := Pre(done);
    forall x <- d.closed, i <- ids | Rooted(d, c, x, i) ensures Strong(d, c, x, ids, Loose(d, Tree(m, done), x), i) {
      var t := InForest(done, i);
      KidsIn(done, t);
      if d.home[m] == Some(x) && (i == t.id || d.sym[t.id].None?) {
        HeedingIsStrong(d, c, x, m, ids, i);
      } else {
        BelowRoot(d, c, m, t, x, ids, i);
      }
    }
    forall x <- d.closed ensures Hung(d, c, x, ids, Loose(d, Tree(m, done), x)) {
    }
  }

  lemma HeedingIsStrong(d: Decl, c: Content, x: nat, m: nat, ids: seq<nat>, i: nat)
    requires i in ids && Heeds(d, c, x, m, i)
    ensures Strong(d, c, x, ids, [m], i)
  {
    if Tells(d, c, x, i, m) {
      assert Leading(d, c, x, ids, [m], i, [i, m]);
    } else {
      assert Leading(d, c, x, ids, [m], i, [i]);
    }
  }

  lemma BelowRoot(d: Decl, c: Content, m: nat, t: Tree, x: nat, ids: seq<nat>, i: nat)
    requires DeclOk(d) && m < |d.sym| && d.sym[m].Some? && Tied(d, c, t) && Follows(d, c, m, t) && x in d.closed
    requires i in Pre(t.kids) && Rooted(d, c, x, i) && t.id in ids && (forall j <- Pre(t.kids) :: j in ids)
    requires d.home[m] == Some(x) ==> d.sym[t.id].Some?
    ensures Strong(d, c, x, ids, if d.home[m] == Some(x) then [m] else [], i)
  {
    var ends := if d.home[m] == Some(x) then [m] else [];
    assert Hung(d, c, x, Pre(t.kids), Loose(d, t, x));
    forall j <- Loose(d, t, x) | EntryOf(d, j, Some(x)) ensures Strong(d, c, x, ids, ends, j) {
      HeedingIsStrong(d, c, x, m, ids, t.id);
    }
    StrongThrough(d, c, x, Pre(t.kids), Loose(d, t, x), ids, ends, i);
  }

  lemma FollowsHeld(d: Decl, words: set<Symbol>, c1: Content, c2: Content, m: nat, t: Tree)
    requires DeclOk(d) && Fits(d, c1, words) && Fits(d, c2, words)
    requires Follows(d, c1, m, t) && SaidAt(d, c1, c2, t.id) && Said(d, c1, c2, Pre(t.kids)) && Grown(c1, c2)
    ensures Follows(d, c2, m, t)
  {
    forall x <- d.closed | d.home[m] == Some(x)
      ensures if d.sym[t.id].Some? then Heeds(d, c2, x, m, t.id) else forall i <- Pre(t.kids) | Rooted(d, c2, x, i) :: Heeds(d, c2, x, m, i)
    {
      if d.sym[t.id].Some? {
        HeedsHeld(d, c1, c2, x, m, t.id);
      } else {
        forall i <- Pre(t.kids) | Rooted(d, c2, x, i) ensures Heeds(d, c2, x, m, i) {
          assert SaidAt(d, c1, c2, i);
          if c2.dep[i] == c1.dep[i] { HeedsHeld(d, c1, c2, x, m, i); } else { ValueIsStrong(d, words, c2, x, [], [], i); }
        }
      }
    }
  }

  lemma HeedsHeld(d: Decl, c1: Content, c2: Content, x: nat, m: nat, i: nat)
    requires DeclOk(d) && |c1.dep| == |d.sym| == |c2.dep| && |c1.syms| == |d.syms| == |c2.syms| && |c1.vis| == |d.props| == |c2.vis|
    requires i < |d.sym| && SaidAt(d, c1, c2, i) && Grown(c1, c2) && Heeds(d, c1, x, m, i)
    ensures Heeds(d, c2, x, m, i)
  {
    if Tells(d, c1, x, i, m) {
      SaysHeld(d, c1, c2, i, d.sym[m].value);
    } else {
      assert SymGrown(c1.syms[x], c2.syms[x]);
    }
  }

  /** A node whose dependency mentions symbol `s` makes its symbol mention it. */
  lemma DirSaying(d: Decl, words: set<Symbol>, c: Content, x: nat, m: nat, i: nat)
    requires DeclOk(d) && Fits(d, c, words) && EntryOf(d, m, Some(x)) && EntryOf(d, i, Some(x)) && DirSays(d, c, i)
    requires Speaks(d, c.dep[i], d.sym[m].value) || IsValue(d, c, i)
    ensures Heeds(d, c, x, m, i)
  {
    assert NodeOk(d, i);
    if IsValue(d, c, i) { ValueIsStrong(d, words, c, x, [], [], i); }
  }

  /** An `if` inside choice `x` that is firm about entry `m` makes all that hangs below it mention `m`, as far
      as it mentions the choice. */
  lemma {:induction false} KeptBelow(d: Decl, words: set<Symbol>, c0: Content, c1: Content, pd: OptExpr, f: Forest, x: nat, s: Symbol)
    requires DeclOk(d) && |d.sym| == |c0.dep| == |c1.dep| && |c1.syms| == |d.syms| && |c0.vis| == |d.props|
    requires Handed(d, words, c0, c1, pd, f) && Parsed(d, f) && AtHome(d, f, Some(x)) && x in d.closed
    requires (forall i <- Pre(f) :: i < |d.sym| && RawAt(d, words, c0, i)) && s.Config?
    requires Speaks(d, pd, x) ==> FirmOpt(pd, s, words)
    ensures forall i <- Pre(f) | Speaks(d, c1.dep[i], x) :: FirmOpt(c1.dep[i], s, words) || IsValue(d, c1, i)
    decreases f
  {
    forall i <- Pre(f) | Speaks(d, c1.dep[i], x) ensures FirmOpt(c1.dep[i], s, words) || IsValue(d, c1, i) {
      var t := InForest(f, i);
      KidsIn(f, t);
      assert EntriesOk(d, t) && HomeOk(d, t.id);
      KeptOne(d, words, c0, c1, pd, t.id, x, s);
      if i != t.id { KeptBelow(d, words, c0, c1, c1.dep[t.id], t.kids, x, s); }
    }
  }

  lemma KeptOne(d: Decl, words: set<Symbol>, c0: Content, c1: Content, pd: OptExpr, i: nat, x: nat, s: Symbol)
    requires DeclOk(d) && i < |d.sym| == |c0.dep| == |c1.dep| && |c1.syms| == |d.syms| && |c0.vis| == |d.props|
    requires CarriedAt(d, words, c0, c1, pd, i) && RawAt(d, words, c0, i) && s.Config? && x in d.closed
    requires Speaks(d, pd, x) ==> FirmOpt(pd, s, words)
    ensures Speaks(d, c1.dep[i], x) ==> FirmOpt(c1.dep[i], s, words) || IsValue(d, c1, i)
  {
  }

  /** An `if` that was put below entry `m`. */
  lemma IfFollows(d: Decl, words: set<Symbol>, c0: Content, c1: Content, m: nat, t: Tree, x: nat)
    requires DeclOk(d) && Fits(d, c0, words) && Fits(d, c1, words) && Parsed(d, [t]) && x in d.closed
    requires t.id < |d.sym| && d.sym[t.id].None? && d.home[t.id] == Some(x) && EntryOf(d, m, Some(x))
    requires Handed(d, words, c0, c1, c1.dep[t.id], t.kids) && RawBelow(d, words, c0, [t])
    requires FirmAt(d, words, c1, t.id) && Speaks(d, c1.dep[t.id], d.sym[m].value)
    requires forall i <- Pre(t.kids) :: i < |d.sym| && DirSays(d, c1, i)
    ensures forall i <- Pre(t.kids) | Rooted(d, c1, x, i) :: Heeds(d, c1, x, m, i)
  {
    assert t in [t] && EntriesOk(d, t);
    var s := SymOf(d, d.sym[m].value);
    KeptBelow(d, words, c0, c1, c1.dep[t.id], t.kids, x, s);
    forall i <- Pre(t.kids) | Rooted(d, c1, x, i) ensures Heeds(d, c1, x, m, i) {
      if FirmOpt(c1.dep[i], s, words) { FirmIsMentioned(c1.dep[i].value, s, words); }
      DirSaying(d, words, c1, x, m, i);
    }
  }

  // ----- flattening -----

  /** Flattening keeps the roots, and the children of nodes without prompt text become roots. */
  ghost predicate Opened(text: seq<bool>, f: Forest, g: Forest) {
    forall t <- f :: t.id in Roots(g) && (t.id < |text| && !text[t.id] ==> forall u <- t.kids :: u.id in Roots(g))
  }

  lemma RootsHave(f: Forest, t: Tree)
    requires t in f
    ensures t.id in Roots(f)
  {
    var k :| 0 <= k < |f| && f[k] == t;
    assert Roots(f)[k] == t.id;
  }

  lemma RootOf(f: Forest, i: nat) returns (t: Tree)
    requires i in Roots(f)
    ensures t in f && t.id == i
  {
    var k :| 0 <= k < |f| && Roots(f)[k] == i;
    t := f[k];
  }

  /** The list of a choice, a menu or an `if` after flattening; the entries in the list of a choice are values. */
  lemma FlattenedTied(d: Decl, words: set<Symbol>, c: Content, m: nat, f: Forest, g: Forest)
    requires DeclOk(d) && Fits(d, c, words) && m < |d.sym| && AllTied(d, c, f) && AtHome(d, f, HomeBelow(d, m))
    requires Pre(g) == Pre(f) && Opened(d.text, f, g) && (d.sym[m].Some? ==> IsChoiceNode(d, m))
    requires IsChoiceNode(d, m) ==> forall u <- g :: u.id < |d.sym| && (d.sym[u.id].Some? ==> IsValue(d, c, u.id))
    requires d.home[m].Some? && d.text[m] ==> g == []
    ensures Tied(d, c, Tree(m, g))
  {
    assert HomeOk(d, m);
    MinimaBelow(d, c, f);
    forall x <- d.closed ensures Hung(d, c, x, Pre(g), Loose(d, Tree(m, g), x)) {
      forall i <- Pre(g) | Rooted(d, c, x, i) ensures Strong(d, c, x, Pre(g), Loose(d, Tree(m, g), x), i) {
        if HomeBelow(d, m) == Some(x) {
          ReachesRoots(d, c, x, f, g, i);
          if IsChoiceNode(d, m) {
            forall j <- Roots(g) | EntryOf(d, j, Some(x)) ensures Strong(d, c, x, Pre(g), [], j) {
              var u := RootOf(g, j);
              ValueIsStrong(d, words, c, x, Pre(g), [], j);
            }
            StrongThrough(d, c, x, Pre(g), Roots(g), Pre(g), [], i);
          }
        } else {
          var t := InForest(f, i);
          KidsIn(f, t);
          assert Hung(d, c, x, Pre(t.kids), []);
          StrongThrough(d, c, x, Pre(t.kids), [], Pre(g), Loose(d, Tree(m, g), x), i);
        }
      }
    }
  }

  lemma ReachesRoots(d: Decl, c: Content, x: nat, f: Forest, g: Forest, i: nat)
    requires DeclOk(d) && AllTied(d, c, f) && AtHome(d, f, Some(x)) && Pre(g) == Pre(f) && Opened(d.text, f, g)
    requires x in d.closed && i in Pre(f) && Rooted(d, c, x, i)
    ensures Strong(d, c, x, Pre(g), Roots(g), i)
  {
    var t := InForest(f, i);
    KidsIn(f, t);
    if i == t.id {
      EndIsStrong(d, c, x, Pre(g), Roots(g), i);
    } else {
      assert Hung(d, c, x, Pre(t.kids), Loose(d, t, x));
      forall j <- Loose(d, t, x) ensures Strong(d, c, x, Pre(g), Roots(g), j) {
        if d.sym[t.id].None? { var u := RootOf(t.kids, j); }
        EndIsStrong(d, c, x, Pre(g), Roots(g), j);
      }
      StrongThrough(d, c, x, Pre(t.kids), Loose(d, t, x), Pre(g), Roots(g), i);
    }
  }
}
