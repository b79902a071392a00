/** menu_finalize of scripts/config/menu.c: dependencies passed down the tree, automatic submenus
    and flattening, all done in place on linked nodes. */
module Menu {
  import opened Tristates
  import opened Exprs
  import opened Simplify
  import opened Dups
  import opened SameExprs
  import opened MenuTrees
  import opened MenuDeps
  import opened MenuContent
  import opened MenuHomes

  // ----- what one call works on and leaves behind -----

  /** Node `m` with children `kids` and following siblings `rest`. */
  ghost predicate NodeAt(ns: seq<Node>, m: nat, par: Option<nat>, kids: Forest, rest: Forest) {
    && m < |ns| && ns[m].parent == par && NoDup([m] + Pre(kids) + Pre(rest))
    && Rep(ns, ns[m].list, Some(m), kids, None) && Rep(ns, ns[m].next, par, rest, None)
  }

  /** The contents before: `m` and its siblings have their dependencies, no symbol of the region has
      been given its direct dependency yet. */
  ghost predicate Primed(d: Decl, words: set<Symbol>, c: Content, m: nat, kids: Forest, rest: Forest)
    requires DeclOk(d) && Fits(d, c, words)
  {
    && m < |d.sym| && Parsed(d, [Tree(m, kids)]) && Parsed(d, rest)
    && GuardedAt(d, words, c, m) && RootsGuarded(d, words, c, rest) && AtHome(d, rest, d.home[m])
    && RawBelow(d, words, c, [Tree(m, kids)]) && RawBelow(d, words, c, rest)
    && forall i <- [m] + Pre(kids) + Pre(rest) :: FreshAt(d, c, i)
  }

  ghost predicate RootsGuarded(d: Decl, words: set<Symbol>, c: Content, f: Forest)
    requires DeclOk(d) && Fits(d, c, words)
  {
    forall t <- f :: t.id < |d.sym| && GuardedAt(d, words, c, t.id)
  }

  /** The links after: `m` took over `taken`, nothing was lost or reordered, and below `m` only
      nodes with prompt text keep children. */
  ghost predicate Linked(text: seq<bool>, ns0: seq<Node>, ns: seq<Node>, m: nat, par: Option<nat>,
                         kids: Forest, rest: Forest, kids': Forest, taken: Forest, rest': Forest) {
    && NodeAt(ns, m, par, kids', rest') && |ns| == |ns0|
    && rest == taken + rest' && Pre(kids') == Pre(kids) + Pre(taken)
    && Flat(text, kids') && SameOutside(ns0, ns, [m] + Pre(kids) + Pre(rest))
  }

  /** The contents after. */
  ghost predicate Worked(d: Decl, words: set<Symbol>, c0: Content, c: Content, m: nat, kids: Forest, taken: Forest)
    requires DeclOk(d) && Fits(d, c0, words)
  {
    var region := Pre(kids) + Pre(taken);
    && m < |d.sym| && Fits(d, c, words) && Framed(d, c0, c, region, [m] + region)
    && (forall i <- [m] + region :: SettledAt(d, words, c, i))
    && Handed(d, words, c0, c, ParentDep(d, c, m), kids) && HandedBelow(d, words, c0, c, taken)
  }

  /** Who mentions a closed choice below `m`. Only symbols take over siblings. */
  ghost predicate Settles(d: Decl, c: Content, m: nat, kids': Forest, taken: Forest) {
    Tied(d, c, Tree(m, kids')) && MinimumAt(d, c, m) && m < |d.sym| && (d.sym[m].None? ==> taken == [])
  }

  /** The trees `done`, made of the siblings `seen`, are finished. */
  ghost predicate Finished(d: Decl, c: Content, done: Forest, seen: Forest, h: Option<nat>) {
    Pre(done) == Pre(seen) && AllTied(d, c, done) && AtHome(d, done, h)
  }

  /** The same before the list of `m` is flattened. */
  ghost predicate LevelTied(d: Decl, c: Content, m: nat, f: Forest)
    requires DeclOk(d) && m < |d.sym|
  {
    && (d.home[m].Some? && d.sym[m].None? && d.text[m] ==> f == [])
    && if d.sym[m].Some? && !IsChoiceNode(d, m) then Tied(d, c, Tree(m, f))
       else AllTied(d, c, f) && AtHome(d, f, HomeBelow(d, m)) && ListHome(d, m, Pre(f))
  }

  // ----- the automatic submenu test -----

  /** `menu->prompt ? menu->prompt->visible.expr : menu->dep`. */
  function ShownWhen(d: Decl, c: Content, i: nat): OptExpr
    requires DeclOk(d) && i < |d.sym| == |c.dep| && |c.vis| == |d.props|
  {
    assert NodeOk(d, i);
    if d.prompt[i].Some? then c.vis[d.prompt[i].value] else c.dep[i]
  }

  /** When the prompt of `i` is shown; y without a prompt. */
  function PromptWhen(d: Decl, c: Content, i: nat): OptExpr
    requires DeclOk(d) && i < |d.sym| && |c.vis| == |d.props|
  {
    assert NodeOk(d, i);
    if d.prompt[i].Some? then c.vis[d.prompt[i].value] else None
  }

  /** Node `i` was put below `m`: it mentions the symbol of `m`, and either depends on it outright
      or on nothing wider than the prompt of `m`. */
  ghost predicate Placed(d: Decl, words: set<Symbol>, c: Content, m: nat, i: nat)
    requires DeclOk(d) && Fits(d, c, words) && m < |d.sym| && i < |d.sym| && d.sym[m].Some?
  {
    assert NodeOk(d, m);
    var e, s := ShownWhen(d, c, i), SymOf(d, d.sym[m].value);
    e.Some? && Contains(e.value, s) && (Depends(e.value, s) || Narrower(e, PromptWhen(d, c, m), words))
  }

  /** A node in an automatic submenu is shown only where the symbol above it is above n or has its
      own prompt shown; negated operands must be y or n. */
  lemma PlacedMeans(d: Decl, words: set<Symbol>, c: Content, m: nat, i: nat, v: Valuation)
    requires DeclOk(d) && Fits(d, c, words) && m < |d.sym| && i < |d.sym| && d.sym[m].Some? && d.sym[m].value < |d.syms|
    requires Placed(d, words, c, m, i) && Sane(v, words) && SymOf(d, d.sym[m].value).IsTri()
    requires TwoValuedNotsOpt(ShownWhen(d, c, i), v) && TwoValuedNotsOpt(PromptWhen(d, c, m), v)
    ensures EvalOpt(ShownWhen(d, c, i), v) != NO ==>
      v.tri(SymOf(d, d.sym[m].value)) != NO || EvalOpt(PromptWhen(d, c, m), v) != NO
  {
    var e, s := ShownWhen(d, c, i).value, SymOf(d, d.sym[m].value);
    if Depends(e, s) { DependsSound(e, s, v); }
  }

  class Menus {
    const d: Decl
    ghost const words: set<Symbol>
    var ns: seq<Node>
    var cs: Content

    ghost predicate Valid()
      reads this
    {
      DeclOk(d) && WordsOk(d, words) && |ns| == |d.sym| && Fits(d, cs, words)
    }

    /** menu_finalize(&rootmenu), the whole tree being `kids` below node `m`. */
    method FinalizeRoot(m: nat, ghost kids: Forest) returns (ghost kids': Forest)
      requires Valid() && NodeAt(ns, m, None, kids, []) && cs.dep[m].None? && Primed(d, words, cs, m, kids, [])
      modifies this`ns, this`cs
      ensures Valid() && NodeAt(ns, m, None, kids', [])
      ensures Pre(kids') == Pre(kids) && Flat(d.text, kids')
      ensures forall i <- [m] + Pre(kids) :: SettledAt(d, words, cs, i)
      ensures Tied(d, cs, Tree(m, kids')) && forall i <- [m] + Pre(kids) :: MinimumAt(d, cs, i)
      ensures Handed(d, words, old(cs), cs, ParentDep(d, cs, m), kids)
      ensures Lifted(d, old(cs), cs, Pre(kids), [m] + Pre(kids))
    {
      ghost var taken, rest;
      kids', taken, rest := Finalize(m, None, kids, []);
      assert taken == [] && rest == [];
      assert Pre(kids) + Pre(taken) == Pre(kids);
      assert [m] + (Pre(kids) + Pre(taken)) == [m] + Pre(kids);
    }

    /** menu_finalize. The ghost forests describe the children and the following siblings of `m`,
        before and after; `taken` are the siblings that became children. */
    method Finalize(m: nat, ghost par: Option<nat>, ghost kids: Forest, ghost rest: Forest)
      returns (ghost kids': Forest, ghost taken: Forest, ghost rest': Forest)
      requires Valid() && NodeAt(ns, m, par, kids, rest) && Primed(d, words, cs, m, kids, rest)
      modifies this`ns, this`cs
      ensures Valid() && Linked(d.text, old(ns), ns, m, par, kids, rest, kids', taken, rest')
      ensures Worked(d, words, old(cs), cs, m, kids, taken) && Settles(d, cs, m, kids', taken)
      decreases |Pre(kids)| + |Pre(rest)|, 8
    {
      ghost var n0, c0 := ns, cs;
      ghost var kids1;
      kids1, taken, rest' := FinalizeBelow(m, par, kids, rest);
      kids' := FlattenList(m, par, n0, c0, kids, rest, kids1, taken, rest');
      AddMinimum(m, c0, kids, taken, kids');
    }

    /** The last loop, after everything below `m` is finalised. */
    method FlattenList(m: nat, ghost par: Option<nat>, ghost n0: seq<Node>, ghost c0: Content, ghost kids: Forest, ghost rest: Forest,
                       ghost kids1: Forest, ghost taken: Forest, ghost rest': Forest) returns (ghost kids': Forest)
      requires Valid() && Fits(d, c0, words) && Primed(d, words, c0, m, kids, rest)
      requires Grouped(d.text, n0, ns, m, par, kids, rest, kids1, taken, rest')
      requires Worked(d, words, c0, cs, m, kids, taken) && LevelTied(d, cs, m, kids1)
      modifies this`ns, this`cs
      ensures Valid() && Linked(d.text, n0, ns, m, par, kids, rest, kids', taken, rest')
      ensures Worked(d, words, c0, cs, m, kids, taken) && Tied(d, cs, Tree(m, kids'))
      ensures m !in Pre(kids) + Pre(taken) && Parsed(d, kids) && Parsed(d, taken)
    {
      ghost var n1, c1 := ns, cs;
      NoDupParts([m] + Pre(kids1), Pre(rest'));
      ListHomes(d, c1, m, kids1);
      kids' := Flatten(m, kids1);
      FlattenLinks(d.text, n0, n1, ns, m, par, kids, rest, kids1, taken, rest', kids');
      AfterFlatten(d, words, c0, c1, cs, m, kids, rest, kids1, taken, rest');
      AfterFlattenTied(d, words, c1, cs, m, kids1, kids');
    }

    method FinalizeBelow(m: nat, ghost par: Option<nat>, ghost kids: Forest, ghost rest: Forest)
      returns (ghost kids1: Forest, ghost taken: Forest, ghost rest': Forest)
      requires Valid() && NodeAt(ns, m, par, kids, rest) && Primed(d, words, cs, m, kids, rest)
      modifies this`ns, this`cs
      ensures Valid() && Grouped(d.text, old(ns), ns, m, par, kids, rest, kids1, taken, rest')
      ensures Worked(d, words, old(cs), cs, m, kids, taken)
      ensures LevelTied(d, cs, m, kids1) && (d.sym[m].None? ==> taken == [])
      decreases |Pre(kids)| + |Pre(rest)|, 7
    {
      if ns[m].list.Some? {
        kids1 := FinalizeInside(m, par, kids, rest);
        taken, rest' := [], rest;
      } else {
        kids1, taken, rest' := FinalizeLeaf(m, par, rest);
      }
    }

    /** A choice that is not optional is at least m while its prompt is shown. */
    method AddMinimum(m: nat, ghost c0: Content, ghost kids: Forest, ghost taken: Forest, ghost kids': Forest)
      requires Valid() && Fits(d, c0, words) && Worked(d, words, c0, cs, m, kids, taken) && m !in Pre(kids) + Pre(taken)
      requires Parsed(d, kids) && Parsed(d, taken) && Tied(d, cs, Tree(m, kids')) && Pre(kids') == Pre(kids) + Pre(taken)
      modifies this`cs
      ensures Valid() && Worked(d, words, c0, cs, m, kids, taken) && Tied(d, cs, Tree(m, kids')) && MinimumAt(d, cs, m)
      ensures cs == if d.sym[m].Some? && d.sym[m].value < |d.syms| && !d.syms[d.sym[m].value].optional && d.prompt[m].Some? then WithMinimum(d, old(cs), m) else old(cs)
    {
      ghost var c1 := cs;
      assert NodeOk(d, m);
      if d.sym[m].Some? && !d.syms[d.sym[m].value].optional && d.prompt[m].Some? {
        cs := WithMinimum(d, cs, m);
        MinimumChangesNoDeps(d, words, c1, m, [m] + (Pre(kids) + Pre(taken)));
        TiedHeld(d, words, c1, cs, Tree(m, kids'));
        MinimumThere(d, c1, m);
        WorkedFrom(d, words, c0, c1, cs, m, kids, taken, [], [m]);
      }
    }

    /** A node that was parsed with entries inside it. */
    method FinalizeInside(m: nat, ghost par: Option<nat>, ghost kids: Forest, ghost rest: Forest) returns (ghost kids': Forest)
      requires Valid() && NodeAt(ns, m, par, kids, rest) && Primed(d, words, cs, m, kids, rest) && kids != []
      modifies this`ns, this`cs
      ensures Valid() && Grouped(d.text, old(ns), ns, m, par, kids, rest, kids', [], rest)
      ensures Worked(d, words, old(cs), cs, m, kids, []) && LevelTied(d, cs, m, kids')
      decreases |Pre(kids)| + |Pre(rest)|, 6
    {
      ghost var n0, c0 := ns, cs;
      NoDupHead(m, Pre(kids), Pre(rest));
      NoDupParts([m] + Pre(kids), Pre(rest));
      InsideParsed(d, words, cs, m, kids, rest);
      Propagate(m, kids);
      ghost var c1 := cs;
      InsidePrimed(d, words, c0, cs, m, kids, rest);
      kids' := FinalizeKids(m, kids);
      InsideLinks(d.text, n0, ns, m, par, kids, rest, kids');
      InsideWorked(d, words, c0, c1, cs, m, kids, rest);
      InsideTied(d, cs, m, kids, kids');
    }

    /** A node without entries: it may get an automatic submenu, and its symbol its dependency. */
    method FinalizeLeaf(m: nat, ghost par: Option<nat>, ghost rest: Forest) returns (ghost kids': Forest, ghost taken: Forest, ghost rest': Forest)
      requires Valid() && NodeAt(ns, m, par, [], rest) && Primed(d, words, cs, m, [], rest)
      modifies this`ns, this`cs
      ensures Valid() && Grouped(d.text, old(ns), ns, m, par, [], rest, kids', taken, rest')
      ensures Worked(d, words, old(cs), cs, m, [], taken)
      ensures LevelTied(d, cs, m, kids') && (d.sym[m].None? ==> taken == [])
      decreases |Pre(rest)|, 6
    {
      ghost var n0, c0 := ns, cs;
      kids', taken, rest' := [], [], rest;
      assert NodeOk(d, m);
      LeafPrimed(d, words, cs, m, rest);
      if d.sym[m].Some? {
        kids', taken, rest' := AutoSubmenu(m, par, rest);
        ghost var c1 := cs;
        cs := WithDep(d, cs, m);
        LeafFinish(d, words, c0, c1, m, rest, kids', taken, rest');
      }
      LeafLinks(d.text, n0, ns, m, par, rest, kids', taken, rest');
    }

    // ----- passing dependencies on -----

    /** The loop over the children that rewrites dependencies and conditions. */
    method Propagate(m: nat, ghost kids: Forest)
      requires Valid() && m < |d.sym| && Rep(ns, ns[m].list, Some(m), kids, None) && NoDup([m] + Pre(kids))
      requires TameNots(cs.dep[m]) && PassedOn(d, words, ParentDep(d, cs, m), HomeBelow(d, m))
      requires AtHome(d, kids, HomeBelow(d, m)) && RootsRaw(d, words, cs, kids)
      modifies this`cs
      ensures Valid() && Passed(d, words, old(cs), cs, ParentDep(d, cs, m), kids)
      ensures cs.dep[m] == old(cs.dep[m])
    {
      ghost var c0 := cs;
      var parentdep := ParentDep(d, cs, m);
      ParentFine(d, words, cs, m);
      ghost var seen, todo := [], kids;
      var menu := ns[m].list;
      PassedNone(d, words, cs, parentdep);
      assert kids == [] + kids;
      while menu.Some?
        invariant Valid() && Rep(ns, menu, Some(m), todo, None) && kids == seen + todo
        invariant Passed(d, words, c0, cs, parentdep, seen)
        decreases |todo|
      {
        ghost var c1 := cs;
        StillRaw(d, words, c0, cs, parentdep, kids, seen, todo, m);
        PassChild(menu.value, parentdep);
        PassedNext(d, words, c0, c1, cs, parentdep, kids, seen, todo, m);
        seen, todo := seen + [todo[0]], todo[1..];
        menu := ns[menu.value].next;
      }
      assert seen == kids;
      NotRoot(m, kids);
    }

    /** One child: its dependency, then the conditions of its properties, then its selects. */
    method PassChild(c: nat, parentdep: OptExpr)
      requires Valid() && c < |d.sym| && Known(parentdep, words) && TameNots(parentdep)
      requires PassedOn(d, words, parentdep, d.home[c]) && RawAt(d, words, cs, c)
      modifies this`cs
      ensures Valid() && PassedOne(d, words, old(cs), cs, parentdep, c)
    {
      ghost var c0 := cs;
      assert NodeOk(d, c) && cs.dep[c] in cs.dep;
      var basedep := PassOn(parentdep, cs.dep[c], d.modules, words);
      cs := cs.(dep := cs.dep[c := basedep]);
      assert AllKnown(cs.dep, words) by {
        forall e <- cs.dep ensures Known(e, words) { if e in c0.dep {} }
      }
      var ps := PropsOf(d, c);
      PropsFine(d, c);
      var n := 0;
      while n < |ps|
        invariant 0 <= n <= |ps| && Passing(d, words, c0, cs, c, basedep, ps[..n])
      {
        assert ps[..n + 1] == ps[..n] + [ps[n]];
        NotYet(ps, n);
        PassProp(c, basedep, ps[n], c0, ps[..n]);
        n := n + 1;
      }
      assert ps[..|ps|] == ps;
      PassedOneFrom(d, words, c0, cs, parentdep, c, basedep);
    }

    /** One property of the child: skipped if it belongs to another place. */
    method PassProp(c: nat, basedep: OptExpr, p: nat, ghost c0: Content, ghost done: seq<nat>)
      requires DeclOk(d) && WordsOk(d, words) && Fits(d, c0, words) && |ns| == |d.sym| && c < |d.sym|
      requires Known(basedep, words) && TameNots(basedep) && p < |d.props| && p !in done
      requires Passing(d, words, c0, cs, c, basedep, done)
      modifies this`cs
      ensures Passing(d, words, c0, cs, c, basedep, done + [p])
    {
      ghost var v1 := cs.vis;
      if d.props[p].menu == c {
        assert cs.vis[p] in cs.vis;
        var dep := Condition(c, basedep, cs.vis[p]);
        assert cs.vis[p] == c0.vis[p];
        VisNext(d, words, c, basedep, c0.vis, v1, done, p, dep);
        EnteredSame(d, c, done, v1, v1[p := dep], c0.syms);
        cs := cs.(vis := cs.vis[p := dep]);
        EnteredNext(d, c, done, p, cs.vis, c0.syms);
        cs := cs.(syms := EnterOne(d, c, d.props[p].kind, dep, cs.syms));
      } else {
        assert v1[p := v1[p]] == v1;
        VisNext(d, words, c, basedep, c0.vis, v1, done, p, v1[p]);
        EnteredNext(d, c, done, p, cs.vis, c0.syms);
      }
    }

    method Condition(c: nat, basedep: OptExpr, own: OptExpr) returns (dep: OptExpr)
      requires DeclOk(d) && WordsOk(d, words) && c < |d.sym| && Known(basedep, words) && Known(own, words) && TameNots(basedep)
      ensures Conditioned(d, words, c, basedep, own, dep)
    {
      dep := PassOn(basedep, own, d.modules, words);
      assert NodeOk(d, c);
      if d.sym[c].Some? && d.syms[d.sym[c].value].typ != TristateType && dep.Some? {
        TransBoolOn(dep.value, words);
        TransBoolClears(dep.value);
        dep := Some(TransBool(dep.value));
      }
    }

    // ----- children and siblings in turn -----

    /** The children in turn; each may take over some of those after it. */
    method FinalizeKids(m: nat, ghost kids: Forest) returns (ghost kids': Forest)
      requires Valid() && m < |d.sym| && Rep(ns, ns[m].list, Some(m), kids, None) && NoDup([m] + Pre(kids))
      requires SiblingsPrimed(d, words, cs, kids) && AtHome(d, kids, HomeBelow(d, m))
      modifies this`ns, this`cs
      ensures Valid() && Walking(old(ns), ns, m, ns[m].list, Some(m), kids, kids', [], None) && FlatBelow(d.text, kids')
      ensures Midway(d, words, old(cs), cs, kids, kids, [])
      ensures Finished(d, cs, kids', kids, HomeBelow(d, m))
      decreases |Pre(kids)|, 5
    {
      ghost var n0, c0 := ns, cs;
      ghost var seen, todo := [], kids;
      kids' := [];
      var menu := ns[m].list;
      DescendStart(d, words, ns, cs, m, kids);
      while menu.Some?
        invariant Valid() && Descending(d, words, n0, ns, c0, cs, m, kids, kids', seen, todo, menu)
        invariant Finished(d, cs, kids', seen, HomeBelow(d, m))
        decreases |Pre(todo)|
      {
        var c := menu.value;
        ghost var n1, c1, t := ns, cs, todo[0];
        DescendReady(d, words, n0, ns, c0, cs, m, kids, kids', seen, todo, menu);
        ghost var ks, taken, tl := Finalize(c, Some(m), t.kids, todo[1..]);
        DescendNext(d, words, n0, n1, ns, c0, c1, cs, m, kids, kids', seen, todo, menu, ks, taken, tl);
        DescendTied(d, words, n0, n1, ns, c0, c1, cs, m, kids, kids', seen, todo, menu, ks, taken, tl);
        kids', seen, todo := kids' + [Tree(c, ks)], seen + ([t] + taken), tl;
        menu := ns[c].next;
      }
      DescendDone(d, words, n0, ns, c0, cs, m, kids, kids', seen, todo);
    }

    // ----- automatic submenus -----

    /** The siblings that depend on the symbol of `m`, as far as they follow each other, become its
        children; the first that fails the test ends the submenu. */
    method AutoSubmenu(m: nat, ghost par: Option<nat>, ghost rest: Forest) returns (ghost kids': Forest, ghost taken: Forest, ghost rest': Forest)
      requires Valid() && NodeAt(ns, m, par, [], rest) && m < |d.sym| && d.sym[m].Some? && SiblingsPrimed(d, words, cs, rest)
      requires AtHome(d, rest, d.home[m])
      modifies this`ns, this`cs
      ensures Finished(d, cs, kids', taken, d.home[m]) && AllFollow(d, cs, m, kids')
      ensures Valid() && NodeAt(ns, m, par, kids', rest') && SameOutside(old(ns), ns, [m] + Pre(rest))
      ensures Pre(kids') == Pre(taken) && FlatBelow(d.text, kids')
      ensures Midway(d, words, old(cs), cs, rest, taken, rest')
      ensures forall t <- kids' :: t.id < |d.sym| && Placed(d, words, old(cs), m, t.id)
      ensures rest' != [] ==> rest'[0].id < |d.sym| && Refused(d, old(cs), m, rest'[0].id)
      decreases |Pre(rest)|, 5
    {
      ghost var n0 := ns;
      ghost var todo, menu;
      var last;
      last, kids', taken, todo, menu := TakeSiblings(m, par, rest);
      rest' := todo;
      CloseList(m, last, par, n0, rest, kids', taken, todo, menu);
    }

    /** If siblings were taken over, up to `last`, they become the list of `m`. */
    method CloseList(m: nat, last: Option<nat>, ghost par: Option<nat>, ghost n0: seq<Node>, ghost rest: Forest,
                     ghost done: Forest, ghost taken: Forest, ghost todo: Forest, ghost menu: Option<nat>)
      requires NodeAt(n0, m, par, [], rest) && rest == taken + todo && last == LastId(done)
      requires Walking(n0, ns, m, n0[m].next, par, rest, done, todo, menu)
      modifies this`ns
      ensures NodeAt(ns, m, par, done, todo) && SameOutside(n0, ns, [m] + Pre(rest)) && Pre(done) == Pre(taken)
    {
      SubmenuLinks(n0, ns, m, par, rest, done, taken, todo, menu);
      if last.Some? {
        TakeList(m, last.value);
      }
    }

    /** The nodes from the one after `m` up to `last` become the list of `m`. */
    method TakeList(m: nat, last: nat)
      requires m < |ns| && last < |ns|
      modifies this`ns
      ensures ns == Submenu(old(ns), m, last)
    {
      ns := ns[m := ns[m].(list := ns[m].next)];
      ns := ns[m := ns[m].(next := ns[last].next)];
      ns := ns[last := ns[last].(next := None)];
    }

    /** The loop over the nodes after `m`. */
    method TakeSiblings(m: nat, ghost par: Option<nat>, ghost rest: Forest)
      returns (last: Option<nat>, ghost done: Forest, ghost taken: Forest, ghost todo: Forest, ghost next: Option<nat>)
      requires Valid() && NodeAt(ns, m, par, [], rest) && m < |d.sym| && d.sym[m].Some? && SiblingsPrimed(d, words, cs, rest)
      requires AtHome(d, rest, d.home[m])
      modifies this`ns, this`cs
      ensures Finished(d, cs, done, taken, d.home[m]) && AllFollow(d, cs, m, done)
      ensures Valid() && Climbing(d, words, old(ns), ns, old(cs), cs, m, par, rest, done, taken, todo, next)
      ensures last == LastId(done)
      ensures todo != [] ==> todo[0].id < |d.sym| && Refused(d, old(cs), m, todo[0].id)
      decreases |Pre(rest)|, 4
    {
      ghost var n0, c0 := ns, cs;
      var basedep := BaseDep(m);
      done, taken, todo := [], [], rest;
      last := None;
      var menu := ns[m].next;
      ClimbStart(d, words, n0, cs, m, par, rest);
      while menu.Some?
        invariant Valid() && Climbing(d, words, n0, ns, c0, cs, m, par, rest, done, taken, todo, menu)
        invariant last == LastId(done) && Finished(d, cs, done, taken, d.home[m]) && AllFollow(d, cs, m, done)
        decreases |Pre(todo)|
      {
        var c := menu.value;
        ClimbReady(d, words, n0, ns, c0, cs, m, par, rest, done, taken, todo, menu);
        var ok := SubmenuTest(m, c, basedep, c0);
        if !ok {
          break;
        }
        done, taken, todo := TakeOne(m, c, par, n0, c0, rest, done, taken, todo);
        last := menu;
        menu := ns[c].next;
      }
      next := menu;
    }

    /** One node after `m` that passed the test is taken over. */
    method TakeOne(m: nat, c: nat, ghost par: Option<nat>, ghost n0: seq<Node>, ghost c0: Content, ghost rest: Forest,
                   ghost done: Forest, ghost taken: Forest, ghost todo: Forest)
      returns (ghost done': Forest, ghost taken': Forest, ghost todo': Forest)
      requires Valid() && Fits(d, c0, words) && m < |d.sym| && d.sym[m].Some? && SiblingsPrimed(d, words, c0, rest)
      requires AtHome(d, rest, d.home[m]) && Finished(d, cs, done, taken, d.home[m]) && AllFollow(d, cs, m, done)
      requires Climbing(d, words, n0, ns, c0, cs, m, par, rest, done, taken, todo, Some(c))
      requires c < |d.sym| && Placed(d, words, c0, m, c)
      modifies this`ns, this`cs
      ensures Valid() && c < |ns| && Climbing(d, words, n0, ns, c0, cs, m, par, rest, done', taken', todo', ns[c].next)
      ensures LastId(done') == Some(c) && |Pre(todo')| < |Pre(todo)|
      ensures Finished(d, cs, done', taken', d.home[m]) && AllFollow(d, cs, m, done')
      decreases |Pre(todo)|, 3
    {
      done', taken', todo' := FinalizeTaken(m, c, par, n0, c0, rest, done, taken, todo);
      ns := ns[c := ns[c].(parent := Some(m))];
    }

    method FinalizeTaken(m: nat, c: nat, ghost par: Option<nat>, ghost n0: seq<Node>, ghost c0: Content, ghost rest: Forest,
                         ghost done: Forest, ghost taken: Forest, ghost todo: Forest)
      returns (ghost done': Forest, ghost taken': Forest, ghost todo': Forest)
      requires Valid() && Fits(d, c0, words) && m < |d.sym| && d.sym[m].Some? && SiblingsPrimed(d, words, c0, rest)
      requires AtHome(d, rest, d.home[m]) && Finished(d, cs, done, taken, d.home[m]) && AllFollow(d, cs, m, done)
      requires Climbing(d, words, n0, ns, c0, cs, m, par, rest, done, taken, todo, Some(c))
      requires c < |d.sym| && Placed(d, words, c0, m, c)
      modifies this`ns, this`cs
      ensures Valid() && c < |ns|
      ensures var n := ns[c := ns[c].(parent := Some(m))];
        Climbing(d, words, n0, n, c0, cs, m, par, rest, done', taken', todo', n[c].next)
      ensures LastId(done') == Some(c) && |Pre(todo')| < |Pre(todo)|
      ensures Finished(d, cs, done', taken', d.home[m]) && AllFollow(d, cs, m, done')
      decreases |Pre(todo)|, 2
    {
      ghost var n1, c1 := ns, cs;
      ClimbReady(d, words, n0, ns, c0, cs, m, par, rest, done, taken, todo, Some(c));
      ghost var ks, more, tl := Finalize(c, par, todo[0].kids, todo[1..]);
      ClimbNext(d, words, n0, n1, ns, c0, c1, cs, m, par, rest, done, taken, todo, Some(c), ks, more, tl);
      ClimbTied(d, words, n0, n1, ns, c0, c1, cs, m, par, rest, done, taken, todo, Some(c), ks, more, tl);
      done', taken', todo' := done + [Tree(c, ks)], taken + ([todo[0]] + more), tl;
    }

    method BaseDep(m: nat) returns (r: Expr)
      requires Valid() && m < |d.sym|
      ensures ComparedWithNo(r, PromptWhen(d, cs, m)) && SaysAboveNo(r, PromptWhen(d, cs, m), words)
    {
      assert NodeOk(d, m);
      var basedep := PromptWhen(d, cs, m);
      assert Known(basedep, words) by { if d.prompt[m].Some? { assert cs.vis[d.prompt[m].value] in cs.vis; } }
      r := AboveNo(basedep, words);
    }

    method SubmenuTest(m: nat, i: nat, basedep: Expr, ghost c0: Content) returns (ok: bool)
      requires Valid() && m < |d.sym| && i < |d.sym| && d.sym[m].Some? && Fits(d, c0, words)
      requires ComparedWithNo(basedep, PromptWhen(d, c0, m)) && SaysAboveNo(basedep, PromptWhen(d, c0, m), words)
      requires ShownWhen(d, cs, i) == ShownWhen(d, c0, i)
      ensures ok ==> Placed(d, words, c0, m, i)
      ensures !ok ==> Refused(d, c0, m, i)
    {
      assert NodeOk(d, m) && NodeOk(d, i);
      var dep, s := ShownWhen(d, cs, i), SymOf(d, d.sym[m].value);
      if dep.None? || !Contains(dep.value, s) {
        if dep.Some? && Depends(dep.value, s) { DependsContains(dep.value, s); }
        return false;
      }
      if Depends(dep.value, s) {
        return true;
      }
      assert Known(dep, words) by {
        if d.prompt[i].Some? { assert cs.vis[d.prompt[i].value] in cs.vis; } else { assert cs.dep[i] in cs.dep; }
      }
      var r := AboveNo(dep, words);
      var (_, dep2) := EliminateEqOpt(Some(r), Some(basedep));
      if !IsYesExpr(dep2) {
        if NoYn(r) && NoYn(basedep) && !IsYn(r) && !IsYn(basedep) { SupersetExact(r, basedep); }
        assert Uncovered(r, basedep);
        return false;
      }
      SupersetIsNarrower(r, dep, basedep, PromptWhen(d, c0, m), words);
      return true;
    }

    // ----- flattening -----

    /** The last loop over the list of `m`: choice values are marked, and the children of nodes
        without prompt text are spliced into the list. */
    method Flatten(m: nat, ghost kids: Forest) returns (ghost kids': Forest)
      requires Valid() && m < |d.sym| && Rep(ns, ns[m].list, Some(m), kids, None) && NoDup([m] + Pre(kids))
      requires FlatBelow(d.text, kids) && ListHome(d, m, Pre(kids))
      modifies this`ns, this`cs
      ensures Valid() && Walking(old(ns), ns, m, ns[m].list, Some(m), kids, kids', [], None) && Flat(d.text, kids')
      ensures Marked(d, words, old(cs), cs, Pre(kids))
      ensures Opened(d.text, kids, kids') && (IsChoiceNode(d, m) ==> RootsMarked(d, cs, kids'))
    {
      ghost var n0, c0, todo := ns, cs, kids;
      kids' := [];
      var menu := ns[m].list;
      OpenedStart(d, cs, m, kids);
      while menu.Some?
        invariant Valid() && Flattening(d, words, n0, ns, c0, cs, m, kids, kids', todo, menu)
        decreases |Pre(todo)|
      {
        var c := menu.value;
        kids', todo := FlattenOne(m, c, n0, c0, kids, kids', todo);
        menu := ns[c].next;
      }
      FlattenDone(d, words, n0, ns, c0, cs, m, kids, kids', todo);
    }

    /** One node of the list: marked, and opened if it has no prompt text. */
    method FlattenOne(m: nat, c: nat, ghost n0: seq<Node>, ghost c0: Content, ghost kids: Forest, ghost done: Forest, ghost todo: Forest)
      returns (ghost done': Forest, ghost todo': Forest)
      requires Valid() && Fits(d, c0, words) && m < |d.sym| && ListHome(d, m, Pre(kids))
      requires Flattening(d, words, n0, ns, c0, cs, m, kids, done, todo, Some(c))
      modifies this`ns, this`cs
      ensures Valid() && c < |ns| && Flattening(d, words, n0, ns, c0, cs, m, kids, done', todo', ns[c].next)
      ensures |Pre(todo')| < |Pre(todo)|
    {
      ghost var n1, c1, t := ns, cs, todo[0];
      FlattenReady(d, words, n0, ns, c0, cs, m, kids, done, todo, Some(c));
      cs := MarkValue(d, cs, m, c);
      if ns[c].list.Some? && !d.text[c] {
        Splice(m, c, t.kids, todo[1..]);
        FlattenSplice(d, words, n0, n1, ns, c0, c1, m, kids, done, todo, Some(c));
        done', todo' := done + [Tree(c, [])], t.kids + todo[1..];
      } else {
        FlattenKeep(d, words, n0, ns, c0, c1, m, kids, done, todo, Some(c));
        done', todo' := done + [t], todo[1..];
      }
    }

    /** The children `ks` of `c` move into the list of `m`, right after `c`. */
    method Splice(m: nat, c: nat, ghost ks: Forest, ghost tl: Forest)
      requires c < |ns| && ns[c].list.Some? && Rep(ns, ns[c].list, Some(c), ks, None) && Rep(ns, ns[c].next, Some(m), tl, None)
      requires NoDup([c] + Pre(ks) + Pre(tl))
      modifies this`ns
      ensures SameOutside(old(ns), ns, [c] + Pre(ks)) && c < |ns| && ns[c].parent == old(ns)[c].parent
      ensures ns[c].list == None && Rep(ns, ns[c].next, Some(m), ks + tl, None)
    {
      ghost var n0, k := ns, 1;
      var last := ns[c].list.value;
      NoDupHead(c, Pre(ks), Pre(tl));
      MoveFirst(ns, m, c, ks, last);
      ns := ns[last := ns[last].(parent := Some(m))];
      MovedLeaves(n0, ns, c, ks);
      while ns[last].next.Some?
        invariant Moving(n0, ns, n0[c].list, m, c, ks, k, last) && |ns| == |n0| && ns[c] == n0[c]
        decreases |ks| - k
      {
        MoveNext(n0, ns, n0[c].list, m, c, ks, k, last);
        last, k := ns[last].next.value, k + 1;
        ns := ns[last := ns[last].(parent := Some(m))];
        MovedLeaves(n0, ns, c, ks);
      }
      assert k == |ks|;
      SpliceLinks(n0, ns, m, c, ks, tl, last);
      ns := ns[last := ns[last].(next := ns[c].next)];
      ns := ns[c := ns[c].(next := ns[c].list, list := None)];
    }
  }

  lemma MovedLeaves(ns0: seq<Node>, ns: seq<Node>, c: nat, ks: Forest)
    requires SameOutside(ns0, ns, Pre(ks)) && c < |ns| && c !in Pre(ks)
    ensures ns[c] == ns0[c]
  {
  }

  /** If `m` is a choice, what comes into its list was written inside it. */
  predicate ListHome(d: Decl, m: nat, ids: seq<nat>)
    requires m < |d.sym| == |d.home|
  {
    IsChoiceNode(d, m) ==> forall i <- ids | i < |d.home| :: d.home[i] == HomeBelow(d, m)
  }

  /** The entries at the roots are choice values. */
  predicate RootsMarked(d: Decl, c: Content, f: Forest)
    requires |c.syms| == |d.syms|
  {
    forall u <- f :: u.id < |d.sym| && (d.sym[u.id].Some? ==> IsValue(d, c, u.id))
  }

  /** In the middle of flattening `f`. */
  ghost predicate Opening(text: seq<bool>, f: Forest, done: Forest, todo: Forest) {
    forall t <- f :: t.id in Roots(done) + Roots(todo)
      && (t.id < |text| && !text[t.id] ==> t in todo || forall u <- t.kids :: u.id in Roots(done) + Roots(todo))
  }

  ghost predicate Opens(d: Decl, c: Content, m: nat, f: Forest, done: Forest, todo: Forest)
    requires m < |d.sym| && |c.syms| == |d.syms|
  {
    Opening(d.text, f, done, todo) && (IsChoiceNode(d, m) ==> RootsMarked(d, c, done))
  }

  lemma OpenedStart(d: Decl, c: Content, m: nat, f: Forest)
    requires m < |d.sym| && |c.syms| == |d.syms|
    ensures Opens(d, c, m, f, [], f)
  {
    assert Roots([]) + Roots(f) == Roots(f);
    forall t <- f ensures t.id in Roots(f) { RootsHave(f, t); }
  }

  lemma OpenedNext(d: Decl, words: set<Symbol>, c: Content, m: nat, f: Forest, done: Forest, todo: Forest, t: Tree, tl: Forest)
    requires DeclOk(d) && WordsOk(d, words) && Fits(d, c, words) && m < |d.sym| && todo != [] && t.id == todo[0].id && t.id < |d.sym|
    requires IsChoiceNode(d, m) ==> d.home[t.id] == HomeBelow(d, m)
    requires Opens(d, c, m, f, done, todo)
    requires (t == todo[0] && (t.kids != [] ==> d.text[t.id]) && tl == todo[1..]) || tl == todo[0].kids + todo[1..]
    ensures Opens(d, MarkValue(d, c, m, t.id), m, f, done + [t], tl)
  {
    MarkMarks(d, words, c, m, t.id);
    RootsSnoc(done, t);
    assert todo == [todo[0]] + todo[1..];
    RootsOfSum([todo[0]], todo[1..]);
    RootsOfSum(todo[0].kids, todo[1..]);
    forall u <- f
      ensures u.id in Roots(done + [t]) + Roots(tl)
      ensures u.id < |d.text| && !d.text[u.id] ==> u in tl || forall w <- u.kids :: w.id in Roots(done + [t]) + Roots(tl)
    {
      if u == todo[0] {
        forall w <- u.kids ensures w.id in Roots(u.kids) { RootsHave(u.kids, w); }
      }
    }
  }

  lemma RootsOfSum(f: Forest, g: Forest)
    ensures Roots(f + g) == Roots(f) + Roots(g)
  {
  }

  /** In the middle of flattening: behind `menu` every node with children has prompt text. */
  ghost predicate Flattening(d: Decl, words: set<Symbol>, ns0: seq<Node>, ns: seq<Node>, c0: Content, c: Content, m: nat,
                             kids: Forest, done: Forest, todo: Forest, menu: Option<nat>)
    requires DeclOk(d) && Fits(d, c0, words)
  {
    && m < |ns0| && Walking(ns0, ns, m, ns0[m].list, Some(m), kids, done, todo, menu)
    && Flat(d.text, done) && FlatBelow(d.text, todo) && Marked(d, words, c0, c, Roots(done))
    && m < |d.sym| && Opens(d, c, m, kids, done, todo)
  }

  lemma FlattenReady(d: Decl, words: set<Symbol>, ns0: seq<Node>, ns: seq<Node>, c0: Content, c: Content, m: nat,
                     kids: Forest, done: Forest, todo: Forest, menu: Option<nat>)
    requires DeclOk(d) && WordsOk(d, words) && Fits(d, c0, words) && |ns| == |d.sym|
    requires Flattening(d, words, ns0, ns, c0, c, m, kids, done, todo, menu) && menu.Some?
    requires m < |d.sym| && ListHome(d, m, Pre(kids))
    ensures todo != [] && menu == Some(todo[0].id) && NodeAt(ns, menu.value, Some(m), todo[0].kids, todo[1..])
    ensures IsChoiceNode(d, m) ==> d.home[menu.value] == HomeBelow(d, m)
    ensures menu.value < |d.sym| && (todo[0].kids != [] <==> ns[menu.value].list.Some?)
    ensures Marked(d, words, c0, MarkValue(d, c, m, menu.value), Roots(done) + [menu.value])
    ensures Fits(d, MarkValue(d, c, m, menu.value), words)
  {
    WalkNext(ns0, ns, m, ns0[m].list, Some(m), kids, done, todo, menu);
    WalkingParts(ns0, ns, m, ns0[m].list, Some(m), kids, done, todo, menu);
    RootsIn(done);
    assert menu.value in Pre(todo);
    MarkMarks(d, words, c, m, menu.value);
    MarkedTrans(d, words, c0, c, MarkValue(d, c, m, menu.value), Roots(done), [menu.value]);
  }

  lemma RootsSnoc(f: Forest, t: Tree)
    ensures Roots(f + [t]) == Roots(f) + [t.id]
  {
  }

  lemma FlattenSplice(d: Decl, words: set<Symbol>, ns0: seq<Node>, ns1: seq<Node>, ns: seq<Node>, c0: Content, c: Content, m: nat,
                      kids: Forest, done: Forest, todo: Forest, menu: Option<nat>)
    requires DeclOk(d) && WordsOk(d, words) && Fits(d, c0, words) && |ns1| == |d.sym|
    requires Flattening(d, words, ns0, ns1, c0, c, m, kids, done, todo, menu) && menu.Some? && todo != [] && menu.value == todo[0].id
    requires SameOutside(ns1, ns, [todo[0].id] + Pre(todo[0].kids)) && todo[0].id < |d.sym|
    requires IsChoiceNode(d, m) ==> d.home[menu.value] == HomeBelow(d, m)
    requires ns[todo[0].id].parent == Some(m) && ns[todo[0].id].list == None
    requires Rep(ns, ns[todo[0].id].next, Some(m), todo[0].kids + todo[1..], None)
    requires Marked(d, words, c0, MarkValue(d, c, m, menu.value), Roots(done) + [menu.value])
    ensures Flattening(d, words, ns0, ns, c0, MarkValue(d, c, m, menu.value), m, kids, done + [Tree(menu.value, [])],
                       todo[0].kids + todo[1..], ns[menu.value].next)
    ensures |Pre(todo[0].kids + todo[1..])| < |Pre(todo)|
  {
    var t, tl := Tree(menu.value, []), todo[0].kids + todo[1..];
    PreAppend(todo[0].kids, todo[1..]);
    assert Pre([]) + Pre(tl) == Pre(tl);
    WalkingParts(ns0, ns1, m, ns0[m].list, Some(m), kids, done, todo, menu);
    assert SameOutside(ns1, ns, Pre(todo));
    WalkStep(ns0, ns1, ns, m, ns0[m].list, Some(m), kids, done, todo, menu, t, tl);
    RootsSnoc(done, t);
    FlatParts(d.text, done, t, todo);
    OpenedNext(d, words, c, m, kids, done, todo, t, tl);
  }

  lemma FlatParts(text: seq<bool>, done: Forest, t: Tree, todo: Forest)
    requires Flat(text, done) && FlatBelow(text, todo) && todo != [] && t.kids == []
    ensures Flat(text, done + [t]) && FlatBelow(text, todo[0].kids + todo[1..])
  {
  }

  lemma FlattenKeep(d: Decl, words: set<Symbol>, ns0: seq<Node>, ns: seq<Node>, c0: Content, c: Content, m: nat,
                    kids: Forest, done: Forest, todo: Forest, menu: Option<nat>)
    requires DeclOk(d) && WordsOk(d, words) && Fits(d, c0, words) && |ns| == |d.sym|
    requires Flattening(d, words, ns0, ns, c0, c, m, kids, done, todo, menu) && menu.Some? && todo != [] && menu.value == todo[0].id
    requires menu.value < |d.sym| && NodeAt(ns, menu.value, Some(m), todo[0].kids, todo[1..])
    requires (todo[0].kids != [] ==> d.text[menu.value]) && (IsChoiceNode(d, m) ==> d.home[menu.value] == HomeBelow(d, m))
    requires Marked(d, words, c0, MarkValue(d, c, m, menu.value), Roots(done) + [menu.value])
    ensures Flattening(d, words, ns0, ns, c0, MarkValue(d, c, m, menu.value), m, kids, done + [todo[0]], todo[1..], ns[menu.value].next)
    ensures |Pre(todo[1..])| < |Pre(todo)|
  {
    WalkStep(ns0, ns, ns, m, ns0[m].list, Some(m), kids, done, todo, menu, todo[0], todo[1..]);
    RootsSnoc(done, todo[0]);
    assert Flat(d.text, todo[0].kids);
    assert forall u <- todo[1..] :: u in todo;
    assert Flat(d.text, done + [todo[0]]);
    OpenedNext(d, words, c, m, kids, done, todo, todo[0], todo[1..]);
  }

  lemma FlattenDone(d: Decl, words: set<Symbol>, ns0: seq<Node>, ns: seq<Node>, c0: Content, c: Content, m: nat,
                    kids: Forest, done: Forest, todo: Forest)
    requires DeclOk(d) && WordsOk(d, words) && Fits(d, c0, words) && |ns| == |d.sym|
    requires Flattening(d, words, ns0, ns, c0, c, m, kids, done, todo, None)
    ensures todo == [] && Marked(d, words, c0, c, Pre(kids)) && Roots(done) + Roots([]) == Roots(done)
  {
    assert Pre(done) + Pre([]) == Pre(done);
    RootsIn(done);
    forall i <- Pre(kids) ensures i < |d.sym| ==> HeldAt(d, words, c0, c, i)
                         ensures SettledAt(d, words, c0, i) ==> SettledAt(d, words, c, i)
    {
      if i !in Roots(done) {
        if i < |d.sym| { HeldSame(d, words, c0, c, i, Roots(done)); }
        if SettledAt(d, words, c0, i) { SettledFramed(d, words, c0, c, Roots(done), [], i); }
      }
    }
    FramedTrans(d, c0, c, c, Roots(done), [], [], [], Pre(kids), []);
  }


  lemma {:induction false} DependsContains(e: Expr, s: Symbol)
    requires Depends(e, s)
    ensures Contains(e, s)
  {
    if e.Bin? {
      if Depends(e.left, s) { DependsContains(e.left, s); } else { DependsContains(e.right, s); }
    }
  }

  /** Node `i` fails the submenu test: it does not mention the symbol of `m`, or it neither depends on it
      outright nor is anything left of it that covers the prompt of `m`. */
  ghost predicate Refused(d: Decl, c: Content, m: nat, i: nat)
    requires DeclOk(d) && |c.dep| == |d.sym| && |c.vis| == |d.props| && m < |d.sym| && i < |d.sym| && d.sym[m].Some?
  {
    assert NodeOk(d, m);
    var e, s := ShownWhen(d, c, i), SymOf(d, d.sym[m].value);
    || e.None? || !Contains(e.value, s)
    || (!Depends(e.value, s) && NoSuperset(e, PromptWhen(d, c, m)))
  }

  /** Once both are compared with n, removing what the two have in common leaves something of the second: the first
      is no conjunction with all its operands. */
  ghost predicate NoSuperset(e: OptExpr, base: OptExpr) {
    exists r: Expr, b: Expr :: ComparedWithNo(r, e) && ComparedWithNo(b, base) && Uncovered(r, b)
  }

  ghost predicate Uncovered(r: Expr, b: Expr) {
    && !IsYesExpr(EliminateEqOpt(Some(r), Some(b)).1)
    && (NoYn(r) && NoYn(b) && !IsYn(r) && !IsYn(b) ==> !Covered(r, b))
  }

  function LastId(f: Forest): Option<nat> { if f == [] then None else Some(f[|f| - 1].id) }

  /** In the middle of finalising the children of `m`: `done` are finished, made of `seen`. */
  ghost predicate Descending(d: Decl, words: set<Symbol>, ns0: seq<Node>, ns: seq<Node>, c0: Content, c: Content, m: nat,
                             kids: Forest, done: Forest, seen: Forest, todo: Forest, menu: Option<nat>)
    requires DeclOk(d) && Fits(d, c0, words)
  {
    && m < |ns0| && Walking(ns0, ns, m, ns0[m].list, Some(m), kids, done, todo, menu) && FlatBelow(d.text, done)
    && Midway(d, words, c0, c, kids, seen, todo) && |Pre(todo)| <= |Pre(kids)|
  }

  lemma DescendStart(d: Decl, words: set<Symbol>, ns: seq<Node>, c: Content, m: nat, kids: Forest)
    requires DeclOk(d) && Fits(d, c, words) && m < |ns| && Rep(ns, ns[m].list, Some(m), kids, None) && NoDup([m] + Pre(kids))
    ensures Descending(d, words, ns, ns, c, c, m, kids, [], [], kids, ns[m].list)
  {
    MidwayStart(d, words, c, kids);
  }

  lemma DescendDone(d: Decl, words: set<Symbol>, ns0: seq<Node>, ns: seq<Node>, c0: Content, c: Content, m: nat,
                    kids: Forest, done: Forest, seen: Forest, todo: Forest)
    requires DeclOk(d) && Fits(d, c0, words) && Descending(d, words, ns0, ns, c0, c, m, kids, done, seen, todo, None)
    ensures Walking(ns0, ns, m, ns[m].list, Some(m), kids, done, [], None) && Midway(d, words, c0, c, kids, kids, [])
  {
    assert todo == [];
    assert seen + [] == seen;
  }

  lemma DescendReady(d: Decl, words: set<Symbol>, ns0: seq<Node>, ns: seq<Node>, c0: Content, c: Content, m: nat,
                     kids: Forest, done: Forest, seen: Forest, todo: Forest, menu: Option<nat>)
    requires DeclOk(d) && Fits(d, c0, words) && SiblingsPrimed(d, words, c0, kids)
    requires Descending(d, words, ns0, ns, c0, c, m, kids, done, seen, todo, menu) && menu.Some?
    ensures todo != [] && menu == Some(todo[0].id) && NodeAt(ns, menu.value, Some(m), todo[0].kids, todo[1..])
    ensures |Pre(todo)| == 1 + |Pre(todo[0].kids)| + |Pre(todo[1..])|
    ensures Primed(d, words, c, todo[0].id, todo[0].kids, todo[1..])
  {
    NoDupParts([m], Pre(kids));
    WalkNext(ns0, ns, m, ns0[m].list, Some(m), kids, done, todo, menu);
    MidwayReady(d, words, c0, c, kids, seen, todo);
  }

  lemma DescendNext(d: Decl, words: set<Symbol>, ns0: seq<Node>, ns1: seq<Node>, ns2: seq<Node>, c0: Content, c1: Content, c2: Content,
                    m: nat, kids: Forest, done: Forest, seen: Forest, todo: Forest, menu: Option<nat>, ks: Forest, taken: Forest, tl: Forest)
    requires DeclOk(d) && Fits(d, c0, words) && SiblingsPrimed(d, words, c0, kids)
    requires Descending(d, words, ns0, ns1, c0, c1, m, kids, done, seen, todo, menu) && todo != [] && menu == Some(todo[0].id)
    requires Linked(d.text, ns1, ns2, todo[0].id, Some(m), todo[0].kids, todo[1..], ks, taken, tl)
    requires Worked(d, words, c1, c2, todo[0].id, todo[0].kids, taken)
    ensures var c := todo[0].id;
      Descending(d, words, ns0, ns2, c0, c2, m, kids, done + [Tree(c, ks)], seen + ([todo[0]] + taken), tl, ns2[c].next)
    ensures |Pre(tl)| < |Pre(todo)|
  {
    NoDupParts([m], Pre(kids));
    WalkAdoptOwn(d.text, ns0, ns1, ns2, m, ns0[m].list, kids, done, todo, menu, ks, taken, tl);
    MidwayNext(d, words, c0, c1, c2, kids, seen, todo, taken, tl);
  }

  /** In the middle of taking over siblings: `done` are the new children of `m`, made of `taken`. */
  ghost predicate Climbing(d: Decl, words: set<Symbol>, ns0: seq<Node>, ns: seq<Node>, c0: Content, c: Content, m: nat, par: Option<nat>,
                           rest: Forest, done: Forest, taken: Forest, todo: Forest, menu: Option<nat>)
    requires DeclOk(d) && Fits(d, c0, words) && m < |d.sym| && d.sym[m].Some?
  {
    && m < |ns0| && Walking(ns0, ns, m, ns0[m].next, par, rest, done, todo, menu) && FlatBelow(d.text, done)
    && Midway(d, words, c0, c, rest, taken, todo) && |Pre(todo)| <= |Pre(rest)|
    && forall t <- done :: t.id < |d.sym| && Placed(d, words, c0, m, t.id)
  }

  lemma ClimbStart(d: Decl, words: set<Symbol>, ns: seq<Node>, c: Content, m: nat, par: Option<nat>, rest: Forest)
    requires DeclOk(d) && Fits(d, c, words) && m < |d.sym| && d.sym[m].Some? && NodeAt(ns, m, par, [], rest)
    ensures Climbing(d, words, ns, ns, c, c, m, par, rest, [], [], rest, ns[m].next)
  {
    SubmenuStart(ns, m, par, rest);
    MidwayStart(d, words, c, rest);
  }

  /** Node `i`, the first of `todo`, is as it was when the walk began. */
  ghost predicate ReadyToTake(d: Decl, words: set<Symbol>, ns: seq<Node>, c0: Content, c: Content, par: Option<nat>, todo: Forest, i: nat)
    requires DeclOk(d) && Fits(d, c0, words) && Fits(d, c, words)
  {
    && todo != [] && i == todo[0].id && NodeAt(ns, i, par, todo[0].kids, todo[1..])
    && |Pre(todo)| == 1 + |Pre(todo[0].kids)| + |Pre(todo[1..])|
    && i < |d.sym| && ShownWhen(d, c, i) == ShownWhen(d, c0, i) && Primed(d, words, c, i, todo[0].kids, todo[1..])
  }

  lemma ClimbReady(d: Decl, words: set<Symbol>, ns0: seq<Node>, ns: seq<Node>, c0: Content, c: Content, m: nat, par: Option<nat>,
                   rest: Forest, done: Forest, taken: Forest, todo: Forest, menu: Option<nat>)
    requires DeclOk(d) && Fits(d, c0, words) && m < |d.sym| && d.sym[m].Some? && SiblingsPrimed(d, words, c0, rest)
    requires Climbing(d, words, ns0, ns, c0, c, m, par, rest, done, taken, todo, menu) && menu.Some?
    ensures ReadyToTake(d, words, ns, c0, c, par, todo, menu.value)
  {
    WalkNext(ns0, ns, m, ns0[m].next, par, rest, done, todo, menu);
    TestSame(d, words, c0, c, m, rest, taken, todo);
    MidwayReady(d, words, c0, c, rest, taken, todo);
  }

  lemma ClimbNext(d: Decl, words: set<Symbol>, ns0: seq<Node>, ns1: seq<Node>, ns2: seq<Node>, c0: Content, c1: Content, c2: Content,
                  m: nat, par: Option<nat>, rest: Forest, done: Forest, taken: Forest, todo: Forest, menu: Option<nat>,
                  ks: Forest, more: Forest, tl: Forest)
    requires DeclOk(d) && Fits(d, c0, words) && m < |d.sym| && d.sym[m].Some? && SiblingsPrimed(d, words, c0, rest)
    requires Climbing(d, words, ns0, ns1, c0, c1, m, par, rest, done, taken, todo, menu) && todo != [] && menu == Some(todo[0].id)
    requires Linked(d.text, ns1, ns2, todo[0].id, par, todo[0].kids, todo[1..], ks, more, tl)
    requires Worked(d, words, c1, c2, todo[0].id, todo[0].kids, more) && Placed(d, words, c0, m, todo[0].id)
    ensures var c := todo[0].id;
      var ns := ns2[c := ns2[c].(parent := Some(m))];
      Climbing(d, words, ns0, ns, c0, c2, m, par, rest, done + [Tree(c, ks)], taken + ([todo[0]] + more), tl, ns[c].next)
    ensures |Pre(tl)| < |Pre(todo)|
  {
    NoDupParts([m], Pre(rest));
    WalkAdopt(d.text, ns0, ns1, ns2, m, ns0[m].next, par, rest, done, todo, menu, ks, more, tl);
    MidwayNext(d, words, c0, c1, c2, rest, taken, todo, more, tl);
  }

  lemma SubmenuStart(ns: seq<Node>, m: nat, par: Option<nat>, rest: Forest)
    requires NodeAt(ns, m, par, [], rest)
    ensures Walking(ns, ns, m, ns[m].next, par, rest, [], rest, ns[m].next)
  {
    assert [m] + Pre([]) + Pre(rest) == [m] + Pre(rest);
  }

  lemma TestSame(d: Decl, words: set<Symbol>, c0: Content, c: Content, m: nat, all: Forest, seen: Forest, todo: Forest)
    requires DeclOk(d) && Fits(d, c0, words) && SiblingsPrimed(d, words, c0, all) && NoDup([m] + Pre(all))
    requires Midway(d, words, c0, c, all, seen, todo) && todo != []
    ensures NoDup(Pre(all)) && todo[0].id < |d.sym| && ShownWhen(d, c, todo[0].id) == ShownWhen(d, c0, todo[0].id)
  {
    assert todo[0] in all;
    NoDupParts([m], Pre(all));
    SplitForest(seen, todo);
    assert todo[0].id in Pre(todo);
    assert NodeOk(d, todo[0].id);
  }

  /** The links after `parent->list = parent->next; parent->next = last_menu->next; last_menu->next = NULL`. */
  function Submenu(ns: seq<Node>, m: nat, last: nat): seq<Node>
    requires m < |ns| && last < |ns|
  {
    var ms := ns[m := ns[m].(list := ns[m].next)];
    var ls := ms[m := ms[m].(next := ms[last].next)];
    ls[last := ls[last].(next := None)]
  }

  lemma SubmenuLinks(ns0: seq<Node>, ns: seq<Node>, m: nat, par: Option<nat>, rest: Forest,
                     done: Forest, taken: Forest, todo: Forest, menu: Option<nat>)
    requires NodeAt(ns0, m, par, [], rest) && rest == taken + todo
    requires Walking(ns0, ns, m, ns0[m].next, par, rest, done, todo, menu)
    ensures Pre(done) == Pre(taken)
    ensures done == [] ==> NodeAt(ns, m, par, [], todo) && SameOutside(ns0, ns, [m] + Pre(rest))
    ensures done != [] ==> LastId(done).value < |ns|
    ensures done != [] ==> NodeAt(Submenu(ns, m, LastId(done).value), m, par, done, todo)
    ensures done != [] ==> SameOutside(ns0, Submenu(ns, m, LastId(done).value), [m] + Pre(rest))
  {
    SameWalked(taken, done, todo);
    if done != [] {
      SubmenuTaken(ns0, ns, m, par, rest, done, todo, menu);
    } else {
      SubmenuNone(ns0, ns, m, par, rest, todo, menu);
    }
  }

  lemma SubmenuNone(ns0: seq<Node>, ns: seq<Node>, m: nat, par: Option<nat>, rest: Forest, todo: Forest, menu: Option<nat>)
    requires NodeAt(ns0, m, par, [], rest) && Walking(ns0, ns, m, ns0[m].next, par, rest, [], todo, menu)
    ensures NodeAt(ns, m, par, [], todo) && SameOutside(ns0, ns, [m] + Pre(rest))
  {
    NothingBetween(m, Pre(todo));
    SameOutsideMore(ns0, ns, Pre(rest), [m] + Pre(rest));
  }

  lemma NothingBetween(m: nat, ids: seq<nat>)
    ensures [] + ids == ids && [m] + [] + ids == [m] + ids
  {
  }

  lemma SubmenuTaken(ns0: seq<Node>, ns: seq<Node>, m: nat, par: Option<nat>, rest: Forest, done: Forest, todo: Forest, menu: Option<nat>)
    requires NodeAt(ns0, m, par, [], rest) && Walking(ns0, ns, m, ns0[m].next, par, rest, done, todo, menu) && done != []
    ensures LastId(done).value < |ns| && NodeAt(Submenu(ns, m, LastId(done).value), m, par, done, todo)
    ensures SameOutside(ns0, Submenu(ns, m, LastId(done).value), [m] + Pre(rest))
  {
    assert [m] + Pre(done) + Pre(todo) == [m] + (Pre(done) + Pre(todo)) == [m] + Pre(rest);
    SubmenuNonempty(ns, m, ns0[m].next, par, done, todo, menu);
    var last := LastId(done).value;
    assert last in Pre(done) + Pre(todo);
    assert SameOutside(ns0, ns, [m] + Pre(rest));
    SameOutsideTrans(ns0, ns, Submenu(ns, m, last), [m] + Pre(rest), [m] + Pre(rest));
  }

  lemma SameWalked(taken: Forest, done: Forest, todo: Forest)
    requires Pre(done) + Pre(todo) == Pre(taken + todo)
    ensures Pre(done) == Pre(taken)
  {
    PreAppend(taken, todo);
    CancelRight(Pre(done), Pre(taken), Pre(todo));
  }

  lemma CancelRight(a: seq<nat>, b: seq<nat>, c: seq<nat>)
    requires a + c == b + c
    ensures a == b
  {
    assert |a + c| == |b + c|;
    assert a == (a + c)[..|a|] && b == (b + c)[..|b|];
  }

  lemma SubmenuNonempty(ns: seq<Node>, m: nat, first: Option<nat>, par: Option<nat>, done: Forest, todo: Forest, menu: Option<nat>)
    requires m < |ns| && ns[m].next == first && done != [] && Rep(ns, first, Some(m), done, menu) && Rep(ns, menu, par, todo, None)
    requires NoDup([m] + Pre(done) + Pre(todo))
    ensures LastId(done).value in Pre(done) && LastId(done).value < |ns|
    ensures var ms := Submenu(ns, m, LastId(done).value);
      ms[m].parent == ns[m].parent && Rep(ms, ms[m].list, Some(m), done, None) && Rep(ms, ms[m].next, par, todo, None)
  {
    NoDupHead(m, Pre(done), Pre(todo));
    var f, t := done[..|done| - 1], done[|done| - 1];
    assert done == f + [t];
    LastIn(f, t);
    RepRelink(ns, first, Some(m), f, t, menu, None);
    SubmenuFrames(ns, m, first, par, done, todo, menu, t.id);
  }

  lemma SubmenuFrames(ns: seq<Node>, m: nat, first: Option<nat>, par: Option<nat>, done: Forest, todo: Forest, menu: Option<nat>, last: nat)
    requires m < |ns| && ns[m].next == first && last < |ns| && ns[last].next == menu
    requires m !in Pre(done) && m !in Pre(todo) && last in Pre(done) && forall i <- Pre(done) :: i !in Pre(todo)
    requires Rep(ns[last := ns[last].(next := None)], first, Some(m), done, None) && Rep(ns, menu, par, todo, None)
    ensures var ms := Submenu(ns, m, last);
      ms[m].parent == ns[m].parent && Rep(ms, ms[m].list, Some(m), done, None) && Rep(ms, ms[m].next, par, todo, None)
  {
    var ls := ns[last := ns[last].(next := None)];
    var ms := Submenu(ns, m, last);
    assert m != last;
    assert ms[m].list == first && ms[m].next == menu;
    assert forall i | 0 <= i < |ns| && i != m :: ms[i] == ls[i];
    assert forall i | 0 <= i < |ns| && i != m && i != last :: ms[i] == ns[i];
    RepFrame(ls, ms, first, Some(m), done, None);
    RepFrame(ns, ms, menu, par, todo, None);
  }

  // ----- about passing on -----

  /** One child has its dependency and conditions, and what it selects is entered. */
  ghost predicate PassedOne(d: Decl, words: set<Symbol>, c0: Content, c1: Content, pd: OptExpr, i: nat)
    requires DeclOk(d) && Fits(d, c0, words)
  {
    && i < |d.sym| && Fits(d, c1, words) && Framed(d, c0, c1, [i], [])
    && TameNots(c1.dep[i]) && Joined(c1.dep[i], pd, c0.dep[i], d.modules, words) && Carried(c1.dep[i], pd, c0.dep[i], d.modules, words)
    && FirmAt(d, words, c1, i) && FedAt(d, words, c1, i)
    && VisDone(d, words, i, c1.dep[i], c0.vis, c1.vis, PropsOf(d, i))
    && InProps(d, PropsOf(d, i)) && c1.syms == Entered(d, i, PropsOf(d, i), c1.vis, c0.syms)
  }

  /** In the middle of passing on to node `i`: the properties `done` are conditioned and entered. */
  ghost predicate Passing(d: Decl, words: set<Symbol>, c0: Content, c: Content, i: nat, base: OptExpr, done: seq<nat>)
    requires DeclOk(d) && Fits(d, c0, words) && i < |d.sym|
  {
    && c.dep == c0.dep[i := base] && |c.syms| == |d.syms| && InProps(d, done)
    && VisDone(d, words, i, base, c0.vis, c.vis, done) && c.syms == Entered(d, i, done, c.vis, c0.syms)
  }

  /** The roots of `f` have been passed on to. */
  ghost predicate Passed(d: Decl, words: set<Symbol>, c0: Content, c1: Content, pd: OptExpr, f: Forest)
    requires DeclOk(d) && Fits(d, c0, words)
  {
    && Fits(d, c1, words) && Framed(d, c0, c1, Roots(f), [])
    && RootsGuarded(d, words, c1, f)
    && forall t <- f :: HandedAt(d, words, c0, c1, pd, t.id) && CarriedAt(d, words, c0, c1, pd, t.id)
  }

  lemma PassedNone(d: Decl, words: set<Symbol>, c: Content, pd: OptExpr)
    requires DeclOk(d) && Fits(d, c, words)
    ensures Passed(d, words, c, c, pd, [])
  {
  }

  lemma PassedOneGuards(d: Decl, words: set<Symbol>, c0: Content, c1: Content, pd: OptExpr, i: nat)
    requires DeclOk(d) && Fits(d, c0, words) && PassedOne(d, words, c0, c1, pd, i)
    ensures GuardedAt(d, words, c1, i) && HandedAt(d, words, c0, c1, pd, i) && CarriedAt(d, words, c0, c1, pd, i)
  {
    forall p | 0 <= p < |d.props| && d.props[p].menu == i ensures Under(c1.vis[p], c1.dep[i], words) {
      assert PropOk(d, p);
      ConditionedIsUnder(d, words, i, c1.dep[i], c0.vis[p], c1.vis[p]);
    }
  }

  lemma ParentFine(d: Decl, words: set<Symbol>, c: Content, m: nat)
    requires DeclOk(d) && WordsOk(d, words) && Fits(d, c, words) && m < |d.sym| && TameNots(c.dep[m])
    ensures Known(ParentDep(d, c, m), words) && TameNots(ParentDep(d, c, m))
  {
  }

  lemma NotRoot(m: nat, kids: Forest)
    requires NoDup([m] + Pre(kids))
    ensures m !in Roots(kids)
  {
    NoDupParts([m], Pre(kids));
    assert m in [m];
    RootsIn(kids);
  }

  lemma PassedNext(d: Decl, words: set<Symbol>, c0: Content, c1: Content, c2: Content, pd: OptExpr,
                   kids: Forest, seen: Forest, todo: Forest, m: nat)
    requires DeclOk(d) && Fits(d, c0, words) && Passed(d, words, c0, c1, pd, seen)
    requires todo != [] && kids == seen + todo && NoDup([m] + Pre(kids)) && PassedOne(d, words, c1, c2, pd, todo[0].id)
    ensures Passed(d, words, c0, c2, pd, seen + [todo[0]])
    ensures kids == (seen + [todo[0]]) + todo[1..]
  {
    OneSeen(seen, todo);
    NextRoot(kids, seen, todo, m);
    PassedStep(d, words, c0, c1, c2, pd, seen, todo[0]);
  }

  lemma OneSeen(seen: Forest, todo: Forest)
    requires todo != []
    ensures seen + todo == (seen + [todo[0]]) + todo[1..]
  {
  }

  lemma NextRoot(kids: Forest, seen: Forest, todo: Forest, m: nat)
    requires todo != [] && kids == seen + todo && NoDup([m] + Pre(kids))
    ensures todo[0].id !in Roots(seen)
  {
    NoDupParts([m], Pre(kids));
    PreAppend(seen, todo);
    NoDupParts(Pre(seen), Pre(todo));
    RootsIn(seen);
    PreHead(todo);
    assert todo[0].id in Pre(todo);
  }

  lemma PassedStep(d: Decl, words: set<Symbol>, c0: Content, c1: Content, c2: Content, pd: OptExpr, seen: Forest, t: Tree)
    requires DeclOk(d) && Fits(d, c0, words) && Passed(d, words, c0, c1, pd, seen) && PassedOne(d, words, c1, c2, pd, t.id)
    requires t.id !in Roots(seen)
    ensures Passed(d, words, c0, c2, pd, seen + [t])
  {
    PassedOneGuards(d, words, c1, c2, pd, t.id);
    assert Roots(seen + [t]) == Roots(seen) + [t.id];
    forall i <- Roots(seen) | i < |d.sym| ensures StaysAt(d, c1, c2, i) { HeldSame(d, words, c1, c2, i, [t.id]); }
    FramedTrans(d, c0, c1, c2, Roots(seen), [], [t.id], [], Roots(seen + [t]), []);
    forall u <- seen
      ensures GuardedAt(d, words, c2, u.id) && HandedAt(d, words, c0, c2, pd, u.id) && CarriedAt(d, words, c0, c2, pd, u.id)
    {
      RootsHave(seen, u);
      PassedBefore(d, words, c0, c1, c2, pd, u.id, t.id);
    }
    assert HandedAt(d, words, c0, c2, pd, t.id) && CarriedAt(d, words, c0, c2, pd, t.id) by { assert c1.dep[t.id] == c0.dep[t.id]; }
  }

  lemma PassedBefore(d: Decl, words: set<Symbol>, c0: Content, c1: Content, c2: Content, pd: OptExpr, i: nat, j: nat)
    requires DeclOk(d) && Fits(d, c0, words) && Fits(d, c1, words) && Fits(d, c2, words) && Framed(d, c1, c2, [j], []) && i != j
    requires i < |d.sym| && GuardedAt(d, words, c1, i) && HandedAt(d, words, c0, c1, pd, i) && CarriedAt(d, words, c0, c1, pd, i)
    ensures GuardedAt(d, words, c2, i) && HandedAt(d, words, c0, c2, pd, i) && CarriedAt(d, words, c0, c2, pd, i)
  {
    HeldSame(d, words, c1, c2, i, [j]);
    HandedAtHeld(d, words, c0, c1, c2, pd, i);
  }

  lemma PropsFine(d: Decl, i: nat)
    requires DeclOk(d) && i < |d.sym|
    ensures NoDup(PropsOf(d, i)) && InProps(d, PropsOf(d, i))
  {
    assert NodeOk(d, i);
    if d.sym[i].Some? {
      var ps := d.syms[d.sym[i].value].props;
      assert SymOk(d, d.sym[i].value);
      forall k | 0 <= k < |ps| ensures ps[k] < |d.props| { assert ps[k] in ps; }
    }
  }

  lemma NotYet(ps: seq<nat>, n: nat)
    requires NoDup(ps) && n < |ps|
    ensures ps[n] !in ps[..n]
  {
  }

  lemma {:induction false} EnteredSame(d: Decl, i: nat, ps: seq<nat>, v: seq<OptExpr>, w: seq<OptExpr>, syms: seq<SymDeps>)
    requires DeclOk(d) && i < |d.sym| && |v| == |w| == |d.props| && |syms| == |d.syms| && InProps(d, ps)
    requires forall p <- ps :: p < |v| ==> v[p] == w[p]
    ensures Entered(d, i, ps, v, syms) == Entered(d, i, ps, w, syms)
  {
    if ps != [] { EnteredSame(d, i, ps[..|ps| - 1], v, w, syms); }
  }

  lemma EnteredNext(d: Decl, i: nat, ps: seq<nat>, p: nat, vis: seq<OptExpr>, syms: seq<SymDeps>)
    requires DeclOk(d) && i < |d.sym| && |vis| == |d.props| && |syms| == |d.syms| && InProps(d, ps) && p < |d.props|
    ensures InProps(d, ps + [p])
    ensures d.props[p].menu == i && (d.props[p].kind.Select? || d.props[p].kind.Imply?) ==>
      d.props[p].kind.target < |d.syms| && d.sym[i].Some? && d.sym[i].value < |d.syms|
    ensures Entered(d, i, ps + [p], vis, syms) ==
      if d.props[p].menu == i then EnterOne(d, i, d.props[p].kind, vis[p], Entered(d, i, ps, vis, syms))
      else Entered(d, i, ps, vis, syms)
  {
    assert (ps + [p])[..|ps|] == ps;
    assert PropOk(d, p) && NodeOk(d, i);
  }

  lemma PassedOneFrom(d: Decl, words: set<Symbol>, c0: Content, c1: Content, pd: OptExpr, i: nat, base: OptExpr)
    requires DeclOk(d) && Fits(d, c0, words) && i < |d.sym| && c1.dep == c0.dep[i := base] && AllKnown(c1.dep, words)
    requires TameNots(base) && Joined(base, pd, c0.dep[i], d.modules, words) && Carried(base, pd, c0.dep[i], d.modules, words)
    requires PassedOn(d, words, pd, d.home[i]) && RawAt(d, words, c0, i)
    requires VisDone(d, words, i, base, c0.vis, c1.vis, PropsOf(d, i))
    requires InProps(d, PropsOf(d, i)) && c1.syms == Entered(d, i, PropsOf(d, i), c1.vis, c0.syms)
    ensures PassedOne(d, words, c0, c1, pd, i)
  {
    PassedHoused(d, words, c0, c1, pd, i);
    EnteredFeeds(d, words, c0, c1, i);
    EnteredLifts(d, c0, c1, i);
    if d.sym[i].None? { CarriedFirm(d, words, base, pd, c0.dep[i], d.home[i]); }
  }

  lemma CarriedFirm(d: Decl, words: set<Symbol>, r: OptExpr, pd: OptExpr, own: OptExpr, h: Option<nat>)
    requires DeclOk(d) && Carried(r, pd, own, d.modules, words)
    requires FirmEntries(d, words, pd, h) && FirmEntries(d, words, Rewritten(own, d.modules), h)
    ensures FirmEntries(d, words, r, h)
  {
    forall j | 0 <= j < |d.sym| && EntryOf(d, j, h) && Speaks(d, r, d.sym[j].value) ensures FirmOpt(r, SymOf(d, d.sym[j].value), words) {
    }
  }

  // ----- finalising siblings one after the other -----

  ghost predicate SiblingsPrimed(d: Decl, words: set<Symbol>, c: Content, all: Forest)
    requires DeclOk(d) && Fits(d, c, words)
  {
    && Parsed(d, all) && RootsGuarded(d, words, c, all) && RawBelow(d, words, c, all) && OneHome(d, all)
    && forall i <- Pre(all) :: FreshAt(d, c, i)
  }

  predicate OneHome(d: Decl, f: Forest) { f != [] ==> f[0].id < |d.home| && AtHome(d, f, d.home[f[0].id]) }

  ghost predicate RootsRaw(d: Decl, words: set<Symbol>, c: Content, f: Forest)
    requires DeclOk(d) && Fits(d, c, words)
  {
    forall t <- f :: t.id < |d.sym| && RawAt(d, words, c, t.id)
  }

  ghost predicate AllFollow(d: Decl, c: Content, m: nat, f: Forest) { forall t <- f :: Follows(d, c, m, t) }

  /** Of the siblings `all`, those in `seen` and everything below them are finished. */
  ghost predicate Midway(d: Decl, words: set<Symbol>, c0: Content, c: Content, all: Forest, seen: Forest, todo: Forest)
    requires DeclOk(d) && Fits(d, c0, words)
  {
    && Fits(d, c, words) && all == seen + todo && Framed(d, c0, c, Pre(seen), Pre(seen))
    && (forall i <- Pre(seen) :: SettledAt(d, words, c, i))
    && HandedBelow(d, words, c0, c, seen)
  }

  lemma MidwayStart(d: Decl, words: set<Symbol>, c: Content, all: Forest)
    requires DeclOk(d) && Fits(d, c, words)
    ensures Midway(d, words, c, c, all, [], all)
  {
  }

  /** The next sibling is ready to be finalised. */
  lemma MidwayReady(d: Decl, words: set<Symbol>, c0: Content, c: Content, all: Forest, seen: Forest, todo: Forest)
    requires DeclOk(d) && Fits(d, c0, words) && SiblingsPrimed(d, words, c0, all) && NoDup(Pre(all))
    requires Midway(d, words, c0, c, all, seen, todo) && todo != []
    ensures Primed(d, words, c, todo[0].id, todo[0].kids, todo[1..])
  {
    SplitForest(seen, todo);
    TailPrimed(d, words, c0, seen, todo);
    StillFresh(d, c0, c, Pre(seen), Pre(todo));
    StillGuarded(d, words, c0, c, Pre(seen), Pre(seen), todo);
    StillRawBelow(d, words, c0, c, Pre(seen), Pre(seen), todo);
    HeadPrimed(d, words, c, todo);
  }

  lemma TailPrimed(d: Decl, words: set<Symbol>, c: Content, seen: Forest, todo: Forest)
    requires DeclOk(d) && Fits(d, c, words) && SiblingsPrimed(d, words, c, seen + todo) && todo != []
    ensures Parsed(d, todo) && RootsGuarded(d, words, c, todo) && RawBelow(d, words, c, todo)
    ensures todo[0].id < |d.home| && AtHome(d, todo, d.home[todo[0].id])
    ensures forall i <- Pre(todo) :: FreshAt(d, c, i)
  {
    PreAppend(seen, todo);
    LeavesPart(d, seen, todo);
    assert forall t <- todo :: t in seen + todo;
    assert todo[0] in seen + todo;
  }

  lemma StillFresh(d: Decl, c0: Content, c: Content, owners: seq<nat>, ids: seq<nat>)
    requires |c0.syms| == |d.syms| && OwnersSame(d, c0, c, owners) && forall i <- ids :: FreshAt(d, c0, i) && i !in owners
    ensures forall i <- ids :: FreshAt(d, c, i)
  {
    forall i <- ids ensures FreshAt(d, c, i) { FreshFramed(d, c0, c, owners, i); }
  }

  lemma StillGuarded(d: Decl, words: set<Symbol>, c0: Content, c: Content, nodes: seq<nat>, owners: seq<nat>, f: Forest)
    requires DeclOk(d) && Fits(d, c0, words) && Fits(d, c, words) && Framed(d, c0, c, nodes, owners)
    requires RootsGuarded(d, words, c0, f) && forall i <- Pre(f) :: i !in nodes
    ensures RootsGuarded(d, words, c, f)
  {
    forall t <- f ensures t.id < |d.sym| && GuardedAt(d, words, c, t.id) { KidsIn(f, t); }
  }

  lemma StillRawBelow(d: Decl, words: set<Symbol>, c0: Content, c: Content, nodes: seq<nat>, owners: seq<nat>, f: Forest)
    requires DeclOk(d) && Fits(d, c0, words) && Fits(d, c, words) && Framed(d, c0, c, nodes, owners)
    requires RawBelow(d, words, c0, f) && forall i <- Pre(f) :: i !in nodes
    ensures RawBelow(d, words, c, f)
  {
    forall t <- f ensures RawIn(d, words, c, Pre(t.kids)) {
      KidsIn(f, t);
      RawFramed(d, words, c0, c, nodes, owners, Pre(t.kids));
    }
  }

  lemma HeadPrimed(d: Decl, words: set<Symbol>, c: Content, f: Forest)
    requires DeclOk(d) && Fits(d, c, words) && f != [] && Parsed(d, f) && RootsGuarded(d, words, c, f) && RawBelow(d, words, c, f)
    requires f[0].id < |d.home| && AtHome(d, f, d.home[f[0].id]) && forall i <- Pre(f) :: FreshAt(d, c, i)
    ensures Primed(d, words, c, f[0].id, f[0].kids, f[1..])
  {
    PreHead(f);
    assert Tree(f[0].id, f[0].kids) == f[0] && f[0] in f;
    assert forall t <- f[1..] :: t in f;
  }

  lemma SplitForest(a: Forest, b: Forest)
    requires NoDup(Pre(a + b))
    ensures NoDup(Pre(a)) && NoDup(Pre(b)) && forall i <- Pre(a) :: i !in Pre(b)
    ensures forall i <- Pre(a) :: i in Pre(a + b)
    ensures forall i <- Pre(b) :: i in Pre(a + b)
  {
    PreAppend(a, b);
    NoDupParts(Pre(a), Pre(b));
  }

  /** The next sibling has been finalised and took over `taken` of those after it. */
  lemma MidwayNext(d: Decl, words: set<Symbol>, c0: Content, c1: Content, c2: Content, all: Forest, seen: Forest, todo: Forest,
                   taken: Forest, tl: Forest)
    requires DeclOk(d) && Fits(d, c0, words) && SiblingsPrimed(d, words, c0, all) && NoDup(Pre(all))
    requires Midway(d, words, c0, c1, all, seen, todo) && todo != [] && todo[1..] == taken + tl
    requires Worked(d, words, c1, c2, todo[0].id, todo[0].kids, taken)
    ensures Midway(d, words, c0, c2, all, seen + ([todo[0]] + taken), tl)
  {
    Batch(all, seen, todo, taken, tl);
    MidwaySettled(d, words, c0, c1, c2, Pre(seen), Pre(todo[0].kids) + Pre(taken), [todo[0].id] + (Pre(todo[0].kids) + Pre(taken)));
    MidwayBelowSeen(d, words, c0, c1, c2, all, seen, todo, taken, tl);
    MidwayBelowNew(d, words, c0, c1, c2, all, seen, todo, taken, tl);
    BelowBoth(d, words, c0, c2, seen, [todo[0]] + taken);
  }

  lemma Batch(all: Forest, seen: Forest, todo: Forest, taken: Forest, tl: Forest)
    requires NoDup(Pre(all)) && all == seen + todo && todo != [] && todo[1..] == taken + tl
    ensures var t, batch := todo[0], [todo[0]] + taken;
      && todo == batch + tl && all == (seen + batch) + tl
      && Pre(seen + batch) == Pre(seen) + ([t.id] + (Pre(t.kids) + Pre(taken)))
      && forall i <- Pre(seen) :: i !in [t.id] + (Pre(t.kids) + Pre(taken))
  {
    var t := todo[0];
    var batch := [t] + taken;
    assert todo == batch + tl && all == (seen + batch) + tl;
    PreCons(t, taken);
    PreAppend(seen, batch);
    assert Pre(batch) == [t.id] + (Pre(t.kids) + Pre(taken));
    SplitForest(seen + batch, tl);
    SplitForest(seen, batch);
  }

  lemma BelowBoth(d: Decl, words: set<Symbol>, c0: Content, c1: Content, f: Forest, g: Forest)
    requires |d.sym| == |c0.dep| == |c1.dep| && |c1.syms| == |d.syms|
    requires HandedBelow(d, words, c0, c1, f) && HandedBelow(d, words, c0, c1, g)
    ensures HandedBelow(d, words, c0, c1, f + g)
  {
  }

  lemma MidwaySettled(d: Decl, words: set<Symbol>, c0: Content, c1: Content, c2: Content, a: seq<nat>, region: seq<nat>, b: seq<nat>)
    requires DeclOk(d) && Fits(d, c0, words) && Fits(d, c1, words) && Fits(d, c2, words)
    requires Framed(d, c0, c1, a, a) && Framed(d, c1, c2, region, b) && forall i <- region :: i in b
    requires (forall i <- a :: SettledAt(d, words, c1, i) && i !in b) && forall i <- b :: SettledAt(d, words, c2, i)
    ensures Framed(d, c0, c2, a + b, a + b) && forall i <- a + b :: SettledAt(d, words, c2, i)
  {
    forall i <- a | i < |d.sym| ensures StaysAt(d, c1, c2, i) { HeldSame(d, words, c1, c2, i, region); }
    FramedTrans(d, c0, c1, c2, a, a, region, b, a + b, a + b);
  }

  lemma MidwayBelowSeen(d: Decl, words: set<Symbol>, c0: Content, c1: Content, c2: Content, all: Forest, seen: Forest, todo: Forest,
                        taken: Forest, tl: Forest)
    requires DeclOk(d) && Fits(d, c0, words) && SiblingsPrimed(d, words, c0, all) && NoDup(Pre(all))
    requires Midway(d, words, c0, c1, all, seen, todo) && todo != [] && todo[1..] == taken + tl
    requires Worked(d, words, c1, c2, todo[0].id, todo[0].kids, taken)
    ensures HandedBelow(d, words, c0, c2, seen)
  {
    var region := Pre(todo[0].kids) + Pre(taken);
    Batch(all, seen, todo, taken, tl);
    HeldElsewhere(d, words, c1, c2, Pre(seen), region);
    LeavesPart(d, seen, todo);
    HandedBelowHeld(d, words, c0, c0, c1, c2, seen);
  }

  lemma HeldElsewhere(d: Decl, words: set<Symbol>, c1: Content, c2: Content, ids: seq<nat>, nodes: seq<nat>)
    requires |d.sym| == |c1.dep| && |c2.syms| == |d.syms| && NodesSame(d, c1, c2, nodes) && forall i <- ids :: i !in nodes
    ensures Held(d, words, c1, c2, ids)
  {
    forall i <- ids ensures i < |d.sym| ==> HeldAt(d, words, c1, c2, i) {
      if i < |d.sym| { HeldSame(d, words, c1, c2, i, nodes); }
    }
  }

  lemma LeavesPart(d: Decl, a: Forest, b: Forest)
    requires Parsed(d, a + b)
    ensures Parsed(d, a) && Parsed(d, b)
  {
  }

  lemma MidwayBelowNew(d: Decl, words: set<Symbol>, c0: Content, c1: Content, c2: Content, all: Forest, seen: Forest, todo: Forest,
                       taken: Forest, tl: Forest)
    requires DeclOk(d) && Fits(d, c0, words) && SiblingsPrimed(d, words, c0, all) && NoDup(Pre(all))
    requires Midway(d, words, c0, c1, all, seen, todo) && todo != [] && todo[1..] == taken + tl
    requires Worked(d, words, c1, c2, todo[0].id, todo[0].kids, taken)
    ensures HandedBelow(d, words, c0, c2, [todo[0]] + taken)
  {
    var t := todo[0];
    BatchOrder(seen, todo, taken, tl);
    BatchParsed(d, seen, t, taken, tl);
    BatchNodes(seen, t, taken, tl);
    BelowBatch(d, words, c0, c1, c2, Pre(seen), t, taken);
  }

  lemma BatchOrder(seen: Forest, todo: Forest, taken: Forest, tl: Forest)
    requires todo != [] && todo[1..] == taken + tl
    ensures seen + todo == seen + ([todo[0]] + (taken + tl))
  {
    assert todo == [todo[0]] + todo[1..];
  }

  lemma BatchParsed(d: Decl, seen: Forest, t: Tree, taken: Forest, tl: Forest)
    requires Parsed(d, seen + ([t] + (taken + tl)))
    ensures Parsed(d, [t]) && Parsed(d, taken)
  {
    LeavesPart(d, seen, [t] + (taken + tl));
    LeavesPart(d, [t], taken + tl);
    LeavesPart(d, taken, tl);
  }

  lemma BatchNodes(seen: Forest, t: Tree, taken: Forest, tl: Forest)
    requires NoDup(Pre(seen + ([t] + (taken + tl))))
    ensures t.id !in Pre(t.kids) + Pre(taken) && t.id !in Pre(seen) && forall i <- Pre(t.kids) + Pre(taken) :: i !in Pre(seen)
  {
    SplitForest(seen, [t] + (taken + tl));
    BatchApart(t, taken, tl);
  }

  lemma BatchApart(t: Tree, taken: Forest, tl: Forest)
    requires NoDup(Pre([t] + (taken + tl)))
    ensures t.id !in Pre(t.kids) + Pre(taken)
    ensures t.id in Pre([t] + (taken + tl)) && forall i <- Pre(t.kids) + Pre(taken) :: i in Pre([t] + (taken + tl))
  {
    PreCons(t, taken + tl);
    PreAppend(taken, tl);
    NoDupHead(t.id, Pre(t.kids), Pre(taken) + Pre(tl));
  }

  lemma BelowBatch(d: Decl, words: set<Symbol>, c0: Content, c1: Content, c2: Content, before: seq<nat>, t: Tree, taken: Forest)
    requires DeclOk(d) && Fits(d, c0, words) && Fits(d, c1, words) && NodesSame(d, c0, c1, before)
    requires Worked(d, words, c1, c2, t.id, t.kids, taken)
    requires Parsed(d, [t]) && Parsed(d, taken)
    requires t.id !in Pre(t.kids) + Pre(taken) && t.id !in before && forall i <- Pre(t.kids) + Pre(taken) :: i !in before
    ensures HandedBelow(d, words, c0, c2, [t] + taken)
  {
    assert t in [t] && Parsed(d, t.kids);
    BatchHeld(d, words, c0, c1, c2, before, t.id, Pre(t.kids) + Pre(taken));
    assert SameDeps(c1, c0, Pre(t.kids)) && SameDeps(c1, c0, Pre(taken));
    HeldStill(d, words, c2, Pre(t.kids));
    HeldStill(d, words, c2, Pre(taken));
    HandedHeld(d, words, c1, c0, c2, c2, ParentDep(d, c2, t.id), t.kids);
    forall u <- taken ensures VisSameAt(d, c1, c0, u.id) { KidsIn(taken, u); }
    HandedBelowHeld(d, words, c1, c0, c2, c2, taken);
  }

  lemma BatchHeld(d: Decl, words: set<Symbol>, c0: Content, c1: Content, c2: Content, before: seq<nat>, i: nat, region: seq<nat>)
    requires i < |d.sym| == |c0.dep| && |c2.syms| == |d.syms| && NodesSame(d, c0, c1, before) && NodesSame(d, c1, c2, region)
    requires i !in before && i !in region
    ensures HeldAt(d, words, c0, c2, i)
  {
  }

  lemma HeldStill(d: Decl, words: set<Symbol>, c: Content, ids: seq<nat>)
    requires |c.dep| == |d.sym| && |c.syms| == |d.syms| && |c.vis| == |d.props|
    ensures Held(d, words, c, c, ids)
  {
  }

  // ----- the links of siblings being finalised -----

  lemma WalkNext(ns0: seq<Node>, ns: seq<Node>, m: nat, first: Option<nat>, q: Option<nat>,
                 all: Forest, done: Forest, todo: Forest, menu: Option<nat>)
    requires Walking(ns0, ns, m, first, q, all, done, todo, menu) && menu.Some?
    ensures todo != [] && menu == Some(todo[0].id) && NodeAt(ns, menu.value, q, todo[0].kids, todo[1..])
    ensures |Pre(todo)| == 1 + |Pre(todo[0].kids)| + |Pre(todo[1..])|
  {
    WalkingParts(ns0, ns, m, first, q, all, done, todo, menu);
  }

  /** The node at `menu` has been finalised, taking over `taken`, and now belongs to `m`. */
  lemma WalkAdopt(text: seq<bool>, ns0: seq<Node>, ns1: seq<Node>, ns2: seq<Node>, m: nat, first: Option<nat>, q: Option<nat>,
                  all: Forest, done: Forest, todo: Forest, menu: Option<nat>, ks: Forest, taken: Forest, tl: Forest)
    requires Walking(ns0, ns1, m, first, q, all, done, todo, menu) && menu.Some? && todo != [] && menu.value == todo[0].id
    requires Linked(text, ns1, ns2, menu.value, q, todo[0].kids, todo[1..], ks, taken, tl) && FlatBelow(text, done)
    ensures var c := menu.value;
      var ns := ns2[c := ns2[c].(parent := Some(m))];
      && Walking(ns0, ns, m, first, q, all, done + [Tree(c, ks)], tl, ns[c].next)
      && FlatBelow(text, done + [Tree(c, ks)])
    ensures |Pre(tl)| < |Pre(todo)|
  {
    var c := menu.value;
    var ns := ns2[c := ns2[c].(parent := Some(m))];
    WalkingParts(ns0, ns1, m, first, q, all, done, todo, menu);
    Adopted(text, ns1, ns2, m, c, q, todo, ks, taken, tl);
    WalkStep(ns0, ns1, ns, m, first, q, all, done, todo, menu, Tree(c, ks), tl);
    FlatSnoc(text, done, Tree(c, ks));
  }

  /** The same where the node belongs to `m` already. */
  lemma WalkAdoptOwn(text: seq<bool>, ns0: seq<Node>, ns1: seq<Node>, ns2: seq<Node>, m: nat, first: Option<nat>,
                     all: Forest, done: Forest, todo: Forest, menu: Option<nat>, ks: Forest, taken: Forest, tl: Forest)
    requires Walking(ns0, ns1, m, first, Some(m), all, done, todo, menu) && todo != [] && menu == Some(todo[0].id)
    requires Linked(text, ns1, ns2, todo[0].id, Some(m), todo[0].kids, todo[1..], ks, taken, tl) && FlatBelow(text, done)
    ensures Walking(ns0, ns2, m, first, Some(m), all, done + [Tree(todo[0].id, ks)], tl, ns2[todo[0].id].next)
    ensures FlatBelow(text, done + [Tree(todo[0].id, ks)]) && |Pre(tl)| < |Pre(todo)|
  {
    var c := todo[0].id;
    assert ns2[c := ns2[c].(parent := Some(m))] == ns2;
    WalkAdopt(text, ns0, ns1, ns2, m, first, Some(m), all, done, todo, menu, ks, taken, tl);
  }

  lemma FlatSnoc(text: seq<bool>, done: Forest, t: Tree)
    requires FlatBelow(text, done) && Flat(text, t.kids)
    ensures FlatBelow(text, done + [t])
  {
  }

  lemma Adopted(text: seq<bool>, ns1: seq<Node>, ns2: seq<Node>, m: nat, c: nat, q: Option<nat>,
                todo: Forest, ks: Forest, taken: Forest, tl: Forest)
    requires todo != [] && c == todo[0].id && Pre(todo) == [c] + Pre(todo[0].kids) + Pre(todo[1..])
    requires Linked(text, ns1, ns2, c, q, todo[0].kids, todo[1..], ks, taken, tl)
    ensures var ns := ns2[c := ns2[c].(parent := Some(m))];
      && SameOutside(ns1, ns, Pre(todo))
      && Rep(ns, ns[c].list, Some(c), ks, None) && Rep(ns, ns[c].next, q, tl, None)
    ensures Pre(ks) + Pre(tl) == Pre(todo[0].kids) + Pre(todo[1..])
  {
    var ns := ns2[c := ns2[c].(parent := Some(m))];
    NoDupHead(c, Pre(ks), Pre(tl));
    RepFrame(ns2, ns, ns2[c].list, Some(c), ks, None);
    RepFrame(ns2, ns, ns2[c].next, q, tl, None);
    AdoptedOrder(todo, ks, taken, tl);
    assert c in [c] + Pre(todo[0].kids) + Pre(todo[1..]);
  }

  lemma AdoptedOrder(todo: Forest, ks: Forest, taken: Forest, tl: Forest)
    requires todo != [] && todo[1..] == taken + tl && Pre(ks) == Pre(todo[0].kids) + Pre(taken)
    ensures Pre(ks) + Pre(tl) == Pre(todo[0].kids) + Pre(todo[1..])
  {
    PreAppend(taken, tl);
    Reassociate(Pre(ks), Pre(todo[0].kids), Pre(taken), Pre(tl));
  }

  lemma Reassociate(k: seq<nat>, a: seq<nat>, b: seq<nat>, c: seq<nat>)
    requires k == a + b
    ensures k + c == a + (b + c)
  {
  }

  // ----- one node, all together -----

  /** As Linked, before the list of `m` is flattened. */
  ghost predicate Grouped(text: seq<bool>, ns0: seq<Node>, ns: seq<Node>, m: nat, par: Option<nat>,
                          kids: Forest, rest: Forest, kids': Forest, taken: Forest, rest': Forest) {
    && NodeAt(ns, m, par, kids', rest') && |ns| == |ns0|
    && rest == taken + rest' && Pre(kids') == Pre(kids) + Pre(taken)
    && FlatBelow(text, kids') && SameOutside(ns0, ns, [m] + Pre(kids) + Pre(rest))
  }

  lemma FlattenLinks(text: seq<bool>, ns0: seq<Node>, ns1: seq<Node>, ns: seq<Node>, m: nat, par: Option<nat>,
                     kids: Forest, rest: Forest, kids1: Forest, taken: Forest, rest': Forest, kids': Forest)
    requires Grouped(text, ns0, ns1, m, par, kids, rest, kids1, taken, rest') && m < |ns|
    requires Walking(ns1, ns, m, ns[m].list, Some(m), kids1, kids', [], None) && Flat(text, kids')
    ensures Linked(text, ns0, ns, m, par, kids, rest, kids', taken, rest')
  {
    assert Pre(kids') + Pre([]) == Pre(kids');
    NoDupHead(m, Pre(kids1), Pre(rest'));
    RepFrame(ns1, ns, ns1[m].next, par, rest', None);
    PreAppend(taken, rest');
    SameOutsideTrans(ns0, ns1, ns, [m] + Pre(kids) + Pre(rest), Pre(kids1));
  }

  lemma AfterFlatten(d: Decl, words: set<Symbol>, c0: Content, c1: Content, c2: Content, m: nat,
                     kids: Forest, rest: Forest, kids1: Forest, taken: Forest, rest': Forest)
    requires DeclOk(d) && Fits(d, c0, words) && Primed(d, words, c0, m, kids, rest) && rest == taken + rest'
    requires Worked(d, words, c0, c1, m, kids, taken) && Pre(kids1) == Pre(kids) + Pre(taken) && NoDup([m] + Pre(kids1))
    requires Marked(d, words, c1, c2, Pre(kids1))
    ensures Worked(d, words, c0, c2, m, kids, taken) && m !in Pre(kids) + Pre(taken)
    ensures Parsed(d, kids) && Parsed(d, taken)
  {
    NoDupParts([m], Pre(kids1));
    assert m in [m];
    assert Tree(m, kids) in [Tree(m, kids)];
    LeavesPart(d, taken, rest');
    WorkedLater(d, words, c0, c1, c2, m, kids, taken);
  }

  lemma InsideLinks(text: seq<bool>, ns0: seq<Node>, ns: seq<Node>, m: nat, par: Option<nat>,
                    kids: Forest, rest: Forest, kids': Forest)
    requires NodeAt(ns0, m, par, kids, rest) && m < |ns|
    requires Walking(ns0, ns, m, ns[m].list, Some(m), kids, kids', [], None) && FlatBelow(text, kids')
    ensures Grouped(text, ns0, ns, m, par, kids, rest, kids', [], rest)
  {
    assert Pre(kids') + Pre([]) == Pre(kids');
    assert Pre(kids) + Pre([]) == Pre(kids);
    assert rest == [] + rest;
    NoDupHead(m, Pre(kids), Pre(rest));
    RepFrame(ns0, ns, ns0[m].next, par, rest, None);
    SameOutsideTrans(ns0, ns0, ns, [m] + Pre(kids) + Pre(rest), Pre(kids));
  }

  lemma LeafLinks(text: seq<bool>, ns0: seq<Node>, ns: seq<Node>, m: nat, par: Option<nat>,
                  rest: Forest, kids': Forest, taken: Forest, rest': Forest)
    requires NodeAt(ns, m, par, kids', rest') && |ns| == |ns0| && rest == taken + rest'
    requires Pre(kids') == Pre(taken) && FlatBelow(text, kids') && SameOutside(ns0, ns, [m] + Pre(rest))
    ensures Grouped(text, ns0, ns, m, par, [], rest, kids', taken, rest')
  {
  }

  /** Work that only narrows choice values keeps what was established. */
  lemma WorkedLater(d: Decl, words: set<Symbol>, c0: Content, c1: Content, c2: Content, m: nat, kids: Forest, taken: Forest)
    requires DeclOk(d) && Fits(d, c0, words) && Worked(d, words, c0, c1, m, kids, taken)
    requires Marked(d, words, c1, c2, Pre(kids) + Pre(taken)) && m !in Pre(kids) + Pre(taken)
    requires Parsed(d, kids) && Parsed(d, taken)
    ensures Worked(d, words, c0, c2, m, kids, taken)
  {
    var region := Pre(kids) + Pre(taken);
    SettledFramed(d, words, c1, c2, region, [], m);
    WorkedFrom(d, words, c0, c1, c2, m, kids, taken, region, []);
  }

  lemma WorkedFrom(d: Decl, words: set<Symbol>, c0: Content, c1: Content, c2: Content, m: nat, kids: Forest, taken: Forest,
                   nodes: seq<nat>, owners: seq<nat>)
    requires DeclOk(d) && Fits(d, c0, words) && Worked(d, words, c0, c1, m, kids, taken)
    requires Fits(d, c2, words) && Framed(d, c1, c2, nodes, owners) && Held(d, words, c1, c2, [m] + (Pre(kids) + Pre(taken)))
    requires (forall i <- nodes :: i in Pre(kids) + Pre(taken)) && forall i <- owners :: i == m
    requires forall i <- [m] + (Pre(kids) + Pre(taken)) :: SettledAt(d, words, c1, i) ==> SettledAt(d, words, c2, i)
    requires Parsed(d, kids) && Parsed(d, taken) && m !in Pre(kids) + Pre(taken)
    ensures Worked(d, words, c0, c2, m, kids, taken)
  {
    var region := Pre(kids) + Pre(taken);
    HeldIsStays(d, words, c1, c2, region, [m] + region);
    FramedTrans(d, c0, c1, c2, region, [m] + region, nodes, owners, region, [m] + region);
    assert ParentDep(d, c1, m) == ParentDep(d, c2, m);
    assert Held(d, words, c1, c2, Pre(kids)) by { assert forall i <- Pre(kids) :: i in [m] + region; }
    assert Held(d, words, c1, c2, Pre(taken)) by { assert forall i <- Pre(taken) :: i in [m] + region; }
    HandedHeld(d, words, c0, c0, c1, c2, ParentDep(d, c1, m), kids);
    HandedBelowHeld(d, words, c0, c0, c1, c2, taken);
  }

  lemma HeldIsStays(d: Decl, words: set<Symbol>, c1: Content, c2: Content, a: seq<nat>, b: seq<nat>)
    requires |d.sym| == |c1.dep| == |c2.dep| && |c2.syms| == |d.syms| && Held(d, words, c1, c2, b) && forall i <- a :: i in b
    ensures Stays(d, c1, c2, a) && Stays(d, c1, c2, b)
  {
    forall i <- b | i < |d.sym| ensures StaysAt(d, c1, c2, i) { assert HeldAt(d, words, c1, c2, i); }
  }

  /** A choice that is not optional selects m whenever its prompt is shown. */
  function WithMinimum(d: Decl, c: Content, m: nat): Content
    requires DeclOk(d) && m < |d.sym| && |c.vis| == |d.props| && |c.syms| == |d.syms| && d.sym[m].Some? && d.prompt[m].Some?
  {
    assert NodeOk(d, m);
    var s := d.sym[m].value;
    c.(syms := c.syms[s := c.syms[s].(revDep := AllocOr(c.syms[s].revDep, AllocAnd(c.vis[d.prompt[m].value], Some(Sym(SymMod)))))])
  }

  lemma MinimumThere(d: Decl, c: Content, m: nat)
    requires DeclOk(d) && m < |d.sym| && |c.vis| == |d.props| && |c.syms| == |d.syms|
    requires d.sym[m].Some? && d.prompt[m].Some? && d.sym[m].value < |d.syms|
    ensures MinimumAt(d, WithMinimum(d, c, m), m)
  {
    assert NodeOk(d, m);
    var shown := AllocAnd(c.vis[d.prompt[m].value], Some(Sym(SymMod)));
    forall v: Valuation
      ensures RevTri(AllocOr(c.syms[d.sym[m].value].revDep, shown), v) >= TriAnd(EvalOpt(c.vis[d.prompt[m].value], v), MOD)
    {
      OrRaises(c.syms[d.sym[m].value].revDep, shown, v);
      assert Eval(shown.value, v) == TriAnd(EvalOpt(c.vis[d.prompt[m].value], v), Eval(Sym(SymMod), v));
    }
  }

  /** The minimum is all that a choice node adds. */
  lemma MinimumLifts(d: Decl, c: Content, m: nat)
    requires DeclOk(d) && m < |d.sym| && |c.vis| == |d.props| && |c.syms| == |d.syms| && d.sym[m].Some? && d.prompt[m].Some?
    requires d.sym[m].value < |d.syms| && !d.syms[d.sym[m].value].optional
    ensures Lifted(d, c, WithMinimum(d, c, m), [], [m])
  {
    assert NodeOk(d, m);
    var s, p, c1 := d.sym[m].value, d.prompt[m].value, WithMinimum(d, c, m);
    var shown := AllocAnd(c.vis[p], Some(Sym(SymMod)));
    forall v: Valuation, x: Tri | RevTri(c.syms[s].revDep, v) <= x && AtMost(d, c1, [], [m], Select(s), v, x)
      ensures RevTri(c1.syms[s].revDep, v) <= x
    {
      OrRaises(c.syms[s].revDep, shown, v);
      assert Eval(shown.value, v) == TriAnd(EvalOpt(c.vis[p], v), Eval(Sym(SymMod), v));
      assert m in [m] && Least(d, c1, m, s, v) <= x;
    }
  }

  lemma MinimumChangesNoDeps(d: Decl, words: set<Symbol>, c: Content, m: nat, ids: seq<nat>)
    requires DeclOk(d) && Fits(d, c, words) && m < |d.sym| && d.sym[m].Some? && d.prompt[m].Some?
    requires d.sym[m].value < |d.syms| && !d.syms[d.sym[m].value].optional
    ensures var c1 := WithMinimum(d, c, m);
      && Fits(d, c1, words) && Framed(d, c, c1, [], [m]) && Held(d, words, c, c1, ids) && Said(d, c, c1, ids)
      && forall i <- ids :: SettledAt(d, words, c, i) ==> SettledAt(d, words, c1, i)
  {
    assert NodeOk(d, m);
    MinimumHoused(d, words, c, m);
    MinimumLifts(d, c, m);
    MinimumGrows(d, c, m);
    forall i <- ids | SettledAt(d, words, c, i) ensures SettledAt(d, words, WithMinimum(d, c, m), i) {
      MinimumFeeds(d, words, c, m, i);
    }
  }

  lemma MinimumGrows(d: Decl, c: Content, m: nat)
    requires DeclOk(d) && m < |d.sym| && |c.vis| == |d.props| && |c.syms| == |d.syms| && d.sym[m].Some? && d.prompt[m].Some?
    requires d.sym[m].value < |d.syms|
    ensures Grown(c, WithMinimum(d, c, m))
  {
    assert NodeOk(d, m);
    var s, shown := d.sym[m].value, AllocAnd(c.vis[d.prompt[m].value], Some(Sym(SymMod)));
    forall v: Valuation ensures RevTri(c.syms[s].revDep, v) <= RevTri(AllocOr(c.syms[s].revDep, shown), v) {
      OrRaises(c.syms[s].revDep, shown, v);
    }
  }

  lemma MinimumFeeds(d: Decl, words: set<Symbol>, c: Content, m: nat, i: nat)
    requires DeclOk(d) && |c.dep| == |d.sym| && m < |d.sym| && |c.vis| == |d.props| && |c.syms| == |d.syms|
    requires d.sym[m].Some? && d.prompt[m].Some? && d.sym[m].value < |d.syms| && SettledAt(d, words, c, i)
    ensures SettledAt(d, words, WithMinimum(d, c, m), i)
  {
    assert NodeOk(d, m);
    var c1 := WithMinimum(d, c, m);
    MinimumGrows(d, c, m);
    forall p | 0 <= p < |d.props| && d.props[p].menu == i ensures Fed(d, words, c1, i, p) {
      assert Fed(d, words, c, i, p);
      var kind := d.props[p].kind;
      if kind.Select? || kind.Imply? {
        assert SymGrown(c.syms[kind.target], c1.syms[kind.target]);
      }
    }
  }

  lemma InsidePrimed(d: Decl, words: set<Symbol>, c0: Content, c1: Content, m: nat, kids: Forest, rest: Forest)
    requires DeclOk(d) && Fits(d, c0, words) && Primed(d, words, c0, m, kids, rest)
    requires Passed(d, words, c0, c1, ParentDep(d, c0, m), kids) && NoDup(Pre(kids))
    ensures SiblingsPrimed(d, words, c1, kids)
  {
    assert Tree(m, kids) in [Tree(m, kids)];
    forall i <- Pre(kids) ensures FreshAt(d, c1, i) {
      assert i in [m] + Pre(kids) + Pre(rest);
      FreshFramed(d, c0, c1, [], i);
    }
    forall t <- kids ensures RawIn(d, words, c1, Pre(t.kids)) {
      RootsApart(kids, t);
      KidsIn(kids, t);
      RawFramed(d, words, c0, c1, Roots(kids), [], Pre(t.kids));
    }
    assert EntriesOk(d, Tree(m, kids));
  }

  lemma RawFramed(d: Decl, words: set<Symbol>, c0: Content, c1: Content, nodes: seq<nat>, owners: seq<nat>, ids: seq<nat>)
    requires DeclOk(d) && Fits(d, c0, words) && Framed(d, c0, c1, nodes, owners) && RawIn(d, words, c0, ids)
    requires forall i <- ids :: i !in nodes
    ensures RawIn(d, words, c1, ids)
  {
    forall i <- ids ensures i < |d.sym| && RawAt(d, words, c1, i) { assert RawAt(d, words, c0, i); }
  }

  lemma RootsApart(f: Forest, t: Tree)
    requires t in f && NoDup(Pre(f))
    ensures forall i <- Pre(t.kids) :: i !in Roots(f)
  {
    PreHead(f);
    NoDupHead(f[0].id, Pre(f[0].kids), Pre(f[1..]));
    RootsIn(f[1..]);
    assert f == [f[0]] + f[1..];
    assert Roots(f) == [f[0].id] + Roots(f[1..]);
    if t != f[0] {
      RootsApart(f[1..], t);
      KidsIn(f[1..], t);
    }
  }

  lemma InsideWorked(d: Decl, words: set<Symbol>, c0: Content, c1: Content, c2: Content, m: nat, kids: Forest, rest: Forest)
    requires DeclOk(d) && Fits(d, c0, words) && Primed(d, words, c0, m, kids, rest) && NoDup([m] + Pre(kids)) && kids != []
    requires Passed(d, words, c0, c1, ParentDep(d, c0, m), kids) && Midway(d, words, c1, c2, kids, kids, [])
    ensures Worked(d, words, c0, c2, m, kids, [])
  {
    NoDupParts([m], Pre(kids));
    assert m in [m];
    assert Pre(kids) + Pre([]) == Pre(kids);
    RootsIn(kids);
    forall i <- Roots(kids) | i < |d.sym| ensures StaysAt(d, c1, c2, i) {
      var t := RootOf(kids, i);
      assert HeldAt(d, words, c1, c2, t.id);
    }
    FramedTrans(d, c0, c1, c2, Roots(kids), [], Pre(kids), Pre(kids), Pre(kids), [m] + Pre(kids));
    InsideNode(d, words, c0, c2, m, kids);
    InsideHanded(d, words, c0, c1, c2, m, kids);
  }

  /** The node itself is not touched, and has no direct dependency. */
  lemma InsideNode(d: Decl, words: set<Symbol>, c0: Content, c2: Content, m: nat, kids: Forest)
    requires DeclOk(d) && Fits(d, c0, words) && Fits(d, c2, words) && m < |d.sym| && GuardedAt(d, words, c0, m)
    requires Parsed(d, [Tree(m, kids)]) && kids != [] && Framed(d, c0, c2, Pre(kids), [m] + Pre(kids)) && m !in Pre(kids)
    ensures SettledAt(d, words, c2, m) && ParentDep(d, c2, m) == ParentDep(d, c0, m) && Parsed(d, kids)
  {
    assert Tree(m, kids) in [Tree(m, kids)] && EntriesOk(d, Tree(m, kids)) && HomeOk(d, m);
    assert GuardedAt(d, words, c2, m);
    assert DirAt(d, c2, m);
  }

  lemma InsideHanded(d: Decl, words: set<Symbol>, c0: Content, c1: Content, c2: Content, m: nat, kids: Forest)
    requires DeclOk(d) && Fits(d, c0, words) && m < |d.sym| && NoDup(Pre(kids)) && Parsed(d, kids)
    requires Passed(d, words, c0, c1, ParentDep(d, c0, m), kids) && Midway(d, words, c1, c2, kids, kids, [])
    ensures Handed(d, words, c0, c2, ParentDep(d, c0, m), kids)
  {
    forall t <- kids ensures SameDeps(c0, c1, Pre(t.kids)) {
      RootsApart(kids, t);
    }
    PassedThenBelow(d, words, c0, c1, c2, ParentDep(d, c0, m), kids);
  }

  lemma LeafPrimed(d: Decl, words: set<Symbol>, c: Content, m: nat, rest: Forest)
    requires DeclOk(d) && Fits(d, c, words) && Primed(d, words, c, m, [], rest)
    ensures SiblingsPrimed(d, words, c, rest)
    ensures d.sym[m].None? ==> Worked(d, words, c, c, m, [], [])
  {
  }

  lemma LeafWorked(d: Decl, words: set<Symbol>, c0: Content, c1: Content, c2: Content, m: nat, rest: Forest, taken: Forest, rest': Forest)
    requires DeclOk(d) && Fits(d, c0, words) && Primed(d, words, c0, m, [], rest) && NoDup([m] + Pre([]) + Pre(rest))
    requires Midway(d, words, c0, c1, rest, taken, rest') && d.sym[m].Some? && d.sym[m].value < |d.syms|
    requires c2 == WithDep(d, c1, m) && Fits(d, c2, words)
    ensures Worked(d, words, c0, c2, m, [], taken)
  {
    NothingBetween(m, Pre(rest));
    NothingBetween(m, Pre(taken));
    LeafApart(m, taken, rest');
    LeafFramed(d, c1, c2, m);
    HeldByDep(d, words, c1, c2, m, Pre(taken));
    FramedTrans(d, c0, c1, c2, Pre(taken), Pre(taken), [], [m], Pre(taken), [m] + Pre(taken));
    LeafSettled(d, words, c0, c1, c2, m, Pre(taken));
    LeafBelow(d, words, c0, c1, c2, m, rest, taken, rest');
  }

  lemma LeafBelow(d: Decl, words: set<Symbol>, c0: Content, c1: Content, c2: Content, m: nat, rest: Forest, taken: Forest, rest': Forest)
    requires DeclOk(d) && Fits(d, c0, words) && Parsed(d, rest)
    requires Midway(d, words, c0, c1, rest, taken, rest') && m < |d.sym| && d.sym[m].Some? && d.sym[m].value < |d.syms|
    requires c2 == WithDep(d, c1, m) && Grown(c1, c2)
    ensures HandedBelow(d, words, c0, c2, taken)
  {
    HeldByDep(d, words, c1, c2, m, Pre(taken));
    LeavesPart(d, taken, rest');
    HandedBelowHeld(d, words, c0, c0, c1, c2, taken);
  }

  lemma HeldByDep(d: Decl, words: set<Symbol>, c1: Content, c2: Content, m: nat, ids: seq<nat>)
    requires m < |d.sym| == |c1.dep| && d.sym[m].Some? && d.sym[m].value < |c1.syms| == |d.syms| && |c1.vis| == |d.props|
    requires c2 == WithDep(d, c1, m)
    ensures Held(d, words, c1, c2, ids) && Stays(d, c1, c2, ids)
  {
  }

  lemma LeafApart(m: nat, taken: Forest, rest': Forest)
    requires NoDup([m] + Pre(taken + rest'))
    ensures m !in Pre(taken)
  {
    NoDupParts([m], Pre(taken + rest'));
    assert m in [m];
    SplitForest(taken, rest');
  }

  /** The dependency of node `m` added to the direct dependency of its symbol. */
  function WithDep(d: Decl, c: Content, m: nat): Content
    requires m < |d.sym| && d.sym[m].Some? && d.sym[m].value < |c.syms| && m < |c.dep|
  {
    var s := d.sym[m].value;
    c.(syms := c.syms[s := c.syms[s].(dirDep := AllocOr(c.syms[s].dirDep, c.dep[m]))])
  }

  lemma LeafFramed(d: Decl, c1: Content, c2: Content, m: nat)
    requires m < |d.sym| == |c1.dep| && d.sym[m].Some? && d.sym[m].value < |c1.syms| == |d.syms| && |c1.vis| == |d.props|
    requires c2 == WithDep(d, c1, m)
    ensures Framed(d, c1, c2, [], [m])
  {
    AndMentions(c1.syms[d.sym[m].value].dirDep, c1.dep[m]);
  }

  lemma LeafSettled(d: Decl, words: set<Symbol>, c0: Content, c1: Content, c2: Content, m: nat, ids: seq<nat>)
    requires DeclOk(d) && Fits(d, c0, words) && Fits(d, c1, words) && m < |d.sym| && GuardedAt(d, words, c0, m) && FreshAt(d, c0, m)
    requires Framed(d, c0, c1, ids, ids) && m !in ids && forall i <- ids :: SettledAt(d, words, c1, i)
    requires d.sym[m].Some? && d.sym[m].value < |d.syms|
    requires c2 == WithDep(d, c1, m)
    ensures forall i <- [m] + ids :: SettledAt(d, words, c2, i)
  {
  }

  // ----- who mentions a closed choice -----

  lemma ListHomes(d: Decl, c: Content, m: nat, f: Forest)
    requires DeclOk(d) && m < |d.sym| && LevelTied(d, c, m, f)
    ensures ListHome(d, m, Pre(f))
  {
  }

  lemma AfterFlattenTied(d: Decl, words: set<Symbol>, c1: Content, c2: Content, m: nat, kids1: Forest, kids': Forest)
    requires DeclOk(d) && Fits(d, c1, words) && Fits(d, c2, words) && m < |d.sym|
    requires LevelTied(d, c1, m, kids1) && Marked(d, words, c1, c2, Pre(kids1)) && Pre(kids') == Pre(kids1)
    requires Opened(d.text, kids1, kids') && (IsChoiceNode(d, m) ==> RootsMarked(d, c2, kids'))
    ensures Tied(d, c2, Tree(m, kids'))
  {
    assert HomeOk(d, m) && NodeOk(d, m);
    if d.sym[m].Some? && !IsChoiceNode(d, m) {
      TiedHeld(d, words, c1, c2, Tree(m, kids1));
      forall x <- d.closed ensures Hung(d, c2, x, Pre(kids'), Loose(d, Tree(m, kids'), x)) {
        assert Hung(d, c2, x, Pre(kids1), Loose(d, Tree(m, kids1), x));
      }
    } else {
      AllTiedHeld(d, words, c1, c2, kids1);
      assert kids1 == [] ==> kids' == [] by { if kids' != [] { PreHead(kids'); } }
      FlattenedTied(d, words, c2, m, kids1, kids');
    }
  }

  lemma AllTiedHeld(d: Decl, words: set<Symbol>, c1: Content, c2: Content, f: Forest)
    requires DeclOk(d) && Fits(d, c1, words) && Fits(d, c2, words)
    requires Said(d, c1, c2, Pre(f)) && Grown(c1, c2) && AllTied(d, c1, f)
    ensures AllTied(d, c2, f)
  {
    forall t <- f ensures Tied(d, c2, t) && MinimumAt(d, c2, t.id) {
      KidsIn(f, t);
      OneTiedHeld(d, words, c1, c2, Pre(f), t);
    }
  }

  lemma OneTiedHeld(d: Decl, words: set<Symbol>, c1: Content, c2: Content, ids: seq<nat>, t: Tree)
    requires DeclOk(d) && Fits(d, c1, words) && Fits(d, c2, words) && Said(d, c1, c2, ids) && Grown(c1, c2)
    requires Tied(d, c1, t) && MinimumAt(d, c1, t.id) && t.id in ids && forall i <- Pre(t.kids) :: i in ids
    ensures Tied(d, c2, t) && MinimumAt(d, c2, t.id)
  {
    TiedHeld(d, words, c1, c2, t);
    MinimumHeld(d, c1, c2, t.id);
  }

  lemma AllFollowHeld(d: Decl, words: set<Symbol>, c1: Content, c2: Content, m: nat, f: Forest)
    requires DeclOk(d) && Fits(d, c1, words) && Fits(d, c2, words)
    requires Said(d, c1, c2, Pre(f)) && Grown(c1, c2) && AllFollow(d, c1, m, f)
    ensures AllFollow(d, c2, m, f)
  {
    forall t <- f ensures Follows(d, c2, m, t) {
      KidsIn(f, t);
      FollowsHeld(d, words, c1, c2, m, t);
    }
  }

  /** Work elsewhere leaves what was said. */
  lemma SaidFramed(d: Decl, words: set<Symbol>, c1: Content, c2: Content, nodes: seq<nat>, owners: seq<nat>, ids: seq<nat>)
    requires DeclOk(d) && Fits(d, c1, words) && Fits(d, c2, words) && Framed(d, c1, c2, nodes, owners)
    requires forall i <- ids :: i !in nodes
    ensures Said(d, c1, c2, ids) && Grown(c1, c2)
  {
  }

  lemma InsideParsed(d: Decl, words: set<Symbol>, c: Content, m: nat, kids: Forest, rest: Forest)
    requires DeclOk(d) && Fits(d, c, words) && Primed(d, words, c, m, kids, rest) && kids != []
    ensures PassedOn(d, words, ParentDep(d, c, m), HomeBelow(d, m))
    ensures AtHome(d, kids, HomeBelow(d, m)) && RootsRaw(d, words, c, kids) && EntriesOk(d, Tree(m, kids))
  {
    var t := Tree(m, kids);
    assert t in [t] && EntriesOk(d, t) && HomeOk(d, m) && DepHoused(d, c, m) && FirmAt(d, words, c, m);
    forall u <- kids ensures u.id < |d.sym| && RawAt(d, words, c, u.id) { KidsIn(kids, u); }
    if IsChoiceNode(d, m) {
      forall j | 0 <= j < |d.sym| && EntryOf(d, j, HomeBelow(d, m)) ensures !Speaks(d, ParentDep(d, c, m), d.sym[j].value) {
        assert HomeOk(d, j);
      }
    }
  }

  lemma InsideTied(d: Decl, c: Content, m: nat, kids: Forest, kids': Forest)
    requires DeclOk(d) && m < |d.sym| && EntriesOk(d, Tree(m, kids)) && Parsed(d, kids) && kids != []
    requires AllTied(d, c, kids') && AtHome(d, kids', HomeBelow(d, m)) && Pre(kids') == Pre(kids)
    ensures LevelTied(d, c, m, kids')
  {
    assert HomeOk(d, m) && NodeOk(d, m);
    if IsChoiceNode(d, m) { HomesBelow(d, kids, HomeBelow(d, m)); }
  }

  /** A closed choice without entries takes over nothing, since nothing around it mentions it. */
  lemma ClosedTakesNone(d: Decl, words: set<Symbol>, c: Content, m: nat, t: Tree)
    requires DeclOk(d) && Fits(d, c, words) && m < |d.sym| && d.sym[m].Some? && IsChoiceNode(d, m) && d.sym[m].value in d.closed
    requires t.id < |d.sym| && d.home[t.id] == d.home[m]
    ensures !Placed(d, words, c, m, t.id)
  {
    assert NodeOk(d, m) && NodeOk(d, t.id) && HomeOk(d, m) && DepHoused(d, c, t.id);
    assert d.prompt[t.id].Some? ==> VisHoused(d, c, d.prompt[t.id].value);
    var e := ShownWhen(d, c, t.id);
    if e.Some? { ContainsMentions(e.value, SymOf(d, d.sym[m].value)); }
  }

  /** What a symbol without entries of its own leaves behind once its submenu is made. */
  lemma LeafFinish(d: Decl, words: set<Symbol>, c0: Content, c1: Content, m: nat, rest: Forest, kids': Forest, taken: Forest, rest': Forest)
    requires DeclOk(d) && WordsOk(d, words) && Fits(d, c0, words) && Fits(d, c1, words) && Primed(d, words, c0, m, [], rest)
    requires NoDup([m] + Pre([]) + Pre(rest)) && d.sym[m].Some? && d.sym[m].value < |d.syms|
    requires Midway(d, words, c0, c1, rest, taken, rest') && AllFollow(d, c1, m, kids') && Finished(d, c1, kids', taken, d.home[m])
    requires forall t <- kids' :: t.id < |d.sym| && Placed(d, words, c0, m, t.id)
    requires forall i <- Pre(kids') :: i < |d.sym|
    ensures var c2 := WithDep(d, c1, m);
      Fits(d, c2, words) && Worked(d, words, c0, c2, m, [], taken) && LevelTied(d, c2, m, kids')
  {
    var c2 := WithDep(d, c1, m);
    DirHoused(d, words, c1, m);
    LeafWorked(d, words, c0, c1, c2, m, rest, taken, rest');
    LeafTied(d, words, c0, c1, c2, m, rest, kids');
  }

  lemma LeafTied(d: Decl, words: set<Symbol>, c0: Content, c1: Content, c2: Content, m: nat, rest: Forest, kids': Forest)
    requires DeclOk(d) && Fits(d, c0, words) && Fits(d, c1, words) && Fits(d, c2, words) && Primed(d, words, c0, m, [], rest)
    requires d.sym[m].Some? && d.sym[m].value < |d.syms| && AllTied(d, c1, kids') && AllFollow(d, c1, m, kids')
    requires forall t <- kids' :: t.id < |d.sym| && Placed(d, words, c0, m, t.id)
    requires forall i <- Pre(kids') :: i < |d.sym|
    requires c2 == WithDep(d, c1, m)
    ensures LevelTied(d, c2, m, kids')
  {
    var t := Tree(m, []);
    assert t in [t] && EntriesOk(d, t) && HomeOk(d, m);
    AndMentions(c1.syms[d.sym[m].value].dirDep, c1.dep[m]);
    assert Said(d, c1, c2, Pre(kids')) && Grown(c1, c2);
    AllTiedHeld(d, words, c1, c2, kids');
    AllFollowHeld(d, words, c1, c2, m, kids');
    if IsChoiceNode(d, m) {
      if d.sym[m].value in d.closed && kids' != [] {
        assert Follows(d, c1, m, kids'[0]);
        ClosedTakesNone(d, words, c0, m, kids'[0]);
      }
      forall t <- kids' ensures d.home[t.id] == None { assert Follows(d, c1, m, t); }
      forall i <- Pre(kids') ensures d.home[i] == HomeBelow(d, m) { assert HomeOk(d, i); }
    } else {
      AdoptedTied(d, c2, m, kids');
    }
  }

  lemma StillRaw(d: Decl, words: set<Symbol>, c0: Content, c1: Content, pd: OptExpr, kids: Forest, seen: Forest, todo: Forest, m: nat)
    requires DeclOk(d) && Fits(d, c0, words) && Passed(d, words, c0, c1, pd, seen)
    requires todo != [] && kids == seen + todo && NoDup([m] + Pre(kids)) && RootsRaw(d, words, c0, kids)
    ensures todo[0].id < |d.sym| && RawAt(d, words, c1, todo[0].id)
  {
    NextRoot(kids, seen, todo, m);
    assert todo[0] in kids;
  }

  /** The next sibling has been finalised as the tree `t`. */
  lemma NextTied(d: Decl, words: set<Symbol>, c1: Content, c2: Content, all: Forest, done: Forest, seen: Forest, todo: Forest,
                 taken: Forest, tl: Forest, t: Tree, h: Option<nat>)
    requires DeclOk(d) && Fits(d, c1, words) && NoDup(Pre(all)) && all == seen + todo && todo != [] && todo[1..] == taken + tl
    requires Finished(d, c1, done, seen, h) && AtHome(d, all, h)
    requires Worked(d, words, c1, c2, todo[0].id, todo[0].kids, taken) && Tied(d, c2, t) && MinimumAt(d, c2, t.id)
    requires t.id == todo[0].id && Pre(t.kids) == Pre(todo[0].kids) + Pre(taken)
    ensures Finished(d, c2, done + [t], seen + ([todo[0]] + taken), h)
    ensures Said(d, c1, c2, Pre(done)) && Grown(c1, c2)
  {
    Batch(all, seen, todo, taken, tl);
    SamePre(done, t, seen, todo[0], taken);
    HomeSnoc(d, all, seen, todo, done, t, h);
    NextHeld(d, words, c1, c2, done, todo[0], taken);
  }

  lemma NextHeld(d: Decl, words: set<Symbol>, c1: Content, c2: Content, done: Forest, s: Tree, taken: Forest)
    requires DeclOk(d) && Fits(d, c1, words) && AllTied(d, c1, done) && Worked(d, words, c1, c2, s.id, s.kids, taken)
    requires forall i <- Pre(done) :: i !in [s.id] + (Pre(s.kids) + Pre(taken))
    ensures AllTied(d, c2, done) && Said(d, c1, c2, Pre(done)) && Grown(c1, c2)
  {
    var region := Pre(s.kids) + Pre(taken);
    SaidFramed(d, words, c1, c2, region, [s.id] + region, Pre(done));
    AllTiedHeld(d, words, c1, c2, done);
  }

  lemma SamePre(done: Forest, t: Tree, seen: Forest, s: Tree, taken: Forest)
    requires Pre(done) == Pre(seen) && t.id == s.id && Pre(t.kids) == Pre(s.kids) + Pre(taken)
    ensures Pre(done + [t]) == Pre(seen + ([s] + taken))
  {
    PreSnoc(done, t);
    PreCons(s, taken);
    PreAppend(seen, [s] + taken);
    Chained4(Pre(done), [t.id], Pre(s.kids), Pre(taken));
  }

  lemma Chained4(a: seq<nat>, b: seq<nat>, c: seq<nat>, e: seq<nat>)
    ensures a + b + (c + e) == a + (b + c + e)
  {
  }

  lemma DescendTied(d: Decl, words: set<Symbol>, ns0: seq<Node>, ns1: seq<Node>, ns2: seq<Node>, c0: Content, c1: Content, c2: Content,
                    m: nat, kids: Forest, done: Forest, seen: Forest, todo: Forest, menu: Option<nat>, ks: Forest, taken: Forest, tl: Forest)
    requires DeclOk(d) && Fits(d, c0, words) && Fits(d, c1, words) && m < |d.sym| && AtHome(d, kids, HomeBelow(d, m))
    requires Descending(d, words, ns0, ns1, c0, c1, m, kids, done, seen, todo, menu) && todo != []
    requires Linked(d.text, ns1, ns2, todo[0].id, Some(m), todo[0].kids, todo[1..], ks, taken, tl)
    requires Worked(d, words, c1, c2, todo[0].id, todo[0].kids, taken) && Settles(d, c2, todo[0].id, ks, taken)
    requires Finished(d, c1, done, seen, HomeBelow(d, m))
    ensures Finished(d, c2, done + [Tree(todo[0].id, ks)], seen + ([todo[0]] + taken), HomeBelow(d, m))
  {
    NoDupParts([m], Pre(kids));
    NextTied(d, words, c1, c2, kids, done, seen, todo, taken, tl, Tree(todo[0].id, ks), HomeBelow(d, m));
  }

  lemma HomeSnoc(d: Decl, all: Forest, seen: Forest, todo: Forest, done: Forest, t: Tree, h: Option<nat>)
    requires AtHome(d, done, h) && AtHome(d, all, h) && all == seen + todo && todo != [] && t.id == todo[0].id
    ensures AtHome(d, done + [t], h)
  {
    assert todo[0] in all;
  }

  /** Node `t` was put below `m` and finalised. */
  lemma PlacedFollows(d: Decl, words: set<Symbol>, c0: Content, c1: Content, c2: Content, m: nat, s: Tree, rest: Forest, more: Forest, t: Tree)
    requires DeclOk(d) && Fits(d, c0, words) && Fits(d, c1, words) && m < |d.sym| && d.sym[m].Some?
    requires Primed(d, words, c1, s.id, s.kids, rest) && Worked(d, words, c1, c2, s.id, s.kids, more) && s.id !in Pre(s.kids) + Pre(more)
    requires ShownWhen(d, c1, s.id) == ShownWhen(d, c0, s.id) && Placed(d, words, c0, m, s.id) && d.home[s.id] == d.home[m]
    requires t.id == s.id && Pre(t.kids) == Pre(s.kids) + Pre(more) && (d.sym[s.id].None? ==> more == [])
    ensures Follows(d, c2, m, t)
  {
    assert NodeOk(d, m) && NodeOk(d, s.id) && HomeOk(d, s.id);
    var e := ShownWhen(d, c0, s.id);
    ContainsMentions(e.value, SymOf(d, d.sym[m].value));
    forall x <- d.closed | d.home[m] == Some(x)
      ensures if d.sym[t.id].Some? then Heeds(d, c2, x, m, t.id) else forall i <- Pre(t.kids) | Rooted(d, c2, x, i) :: Heeds(d, c2, x, m, i)
    {
      assert Tree(s.id, s.kids) in [Tree(s.id, s.kids)] && EntriesOk(d, Tree(s.id, s.kids));
      assert SettledAt(d, words, c2, s.id);
      if d.sym[s.id].Some? {
        if d.prompt[s.id].None? { DirSaying(d, words, c2, x, m, s.id); }
      } else if s.kids != [] {
        assert Pre(s.kids) + Pre([]) == Pre(s.kids);
        assert forall i <- Pre(s.kids) :: SettledAt(d, words, c2, i);
        IfFollows(d, words, c1, c2, m, s, x);
      }
    }
  }

  lemma ClimbTied(d: Decl, words: set<Symbol>, ns0: seq<Node>, ns1: seq<Node>, ns2: seq<Node>, c0: Content, c1: Content, c2: Content,
                  m: nat, par: Option<nat>, rest: Forest, done: Forest, taken: Forest, todo: Forest, menu: Option<nat>,
                  ks: Forest, more: Forest, tl: Forest)
    requires DeclOk(d) && Fits(d, c0, words) && Fits(d, c1, words) && m < |d.sym| && d.sym[m].Some? && AtHome(d, rest, d.home[m])
    requires Climbing(d, words, ns0, ns1, c0, c1, m, par, rest, done, taken, todo, menu) && todo != []
    requires Primed(d, words, c1, todo[0].id, todo[0].kids, todo[1..]) && Linked(d.text, ns1, ns2, todo[0].id, par, todo[0].kids, todo[1..], ks, more, tl)
    requires Worked(d, words, c1, c2, todo[0].id, todo[0].kids, more) && Settles(d, c2, todo[0].id, ks, more)
    requires ShownWhen(d, c1, todo[0].id) == ShownWhen(d, c0, todo[0].id) && Placed(d, words, c0, m, todo[0].id)
    requires Finished(d, c1, done, taken, d.home[m]) && AllFollow(d, c1, m, done)
    ensures Finished(d, c2, done + [Tree(todo[0].id, ks)], taken + ([todo[0]] + more), d.home[m])
    ensures AllFollow(d, c2, m, done + [Tree(todo[0].id, ks)])
  {
    var t := Tree(todo[0].id, ks);
    NoDupParts([m], Pre(rest));
    NextTied(d, words, c1, c2, rest, done, taken, todo, more, tl, t, d.home[m]);
    AllFollowHeld(d, words, c1, c2, m, done);
    NextApart(taken, todo, more, tl);
    HomeSnoc(d, rest, taken, todo, done, t, d.home[m]);
    assert t in done + [t];
    PlacedFollows(d, words, c0, c1, c2, m, todo[0], todo[1..], more, t);
  }

  lemma NextApart(seen: Forest, todo: Forest, more: Forest, tl: Forest)
    requires todo != [] && NoDup(Pre(seen + todo)) && todo[1..] == more + tl
    ensures todo[0].id !in Pre(todo[0].kids) + Pre(more)
  {
    SplitForest(seen, todo);
    assert todo == [todo[0]] + (more + tl);
    BatchApart(todo[0], more, tl);
  }
}
