/** The recursive-dependency check of scripts/config/symbol.c (sym_check_deps) and what its
    success is worth to evaluation. */
module SymbolCheck {
  import opened Tristates
  import opened Exprs
  import opened SymbolSpec

  // ----- the edges the check follows -----

  function OptSeq(e: OptExpr): seq<Expr> { if e.Some? then [e.value] else [] }

  function PromptExprs(ps: seq<OptExpr>): (r: seq<Expr>)
    ensures forall p <- ps :: p.Some? ==> p.value in r
  {
    if ps == [] then [] else OptSeq(ps[0]) + PromptExprs(ps[1..])
  }

  function DefaultExprs(ds: seq<Default>): (r: seq<Expr>)
    ensures forall f <- ds :: f.value in r && (f.cond.Some? ==> f.cond.value in r)
  {
    if ds == [] then [] else OptSeq(ds[0].cond) + [ds[0].value] + DefaultExprs(ds[1..])
  }

  function PickExprs(ps: seq<ChoiceDefault>): (r: seq<Expr>)
    ensures forall p <- ps :: p.cond.Some? ==> p.cond.value in r
  {
    if ps == [] then [] else OptSeq(ps[0].cond) + PickExprs(ps[1..])
  }

  /** The expressions sym_check_sym_deps walks: dependencies, then the properties. */
  function CheckedExprs(d: Def): seq<Expr> {
    OptSeq(d.dirDep) + OptSeq(d.revDep) + OptSeq(d.implied) + PromptExprs(d.prompts)
    + (if d.kind.Choice? then PickExprs(d.kind.picks) else DefaultExprs(d.defaults))
  }

  /** The order in which the expressions of each symbol are walked: all of them, and no others but such as
      mention nothing new, like the condition of P_SYMBOL, which menu_finalize makes the dependency of the node. */
  ghost predicate Walks(g: seq<Def>, walk: seq<seq<Expr>>) {
    |walk| == |g| && forall s | 0 <= s < |g| :: WalksAt(g, walk[s], s)
  }

  ghost predicate WalksAt(g: seq<Def>, es: seq<Expr>, s: nat)
    requires s < |g|
  {
    && (forall e <- CheckedExprs(g[s]) :: e in es)
    && forall e <- es :: forall y <- Mentions(e) | y.Config? :: y.id in Uses(g, s)
  }

  /** The symbols that symbol `s` mentions. */
  function Uses(g: seq<Def>, s: nat): set<nat>
    requires s < |g|
  {
    set e, y | e in CheckedExprs(g[s]) && y in Mentions(e) && y.Config? :: y.id
  }

  ghost predicate LinkedAt(g: seq<Def>, s: nat)
    requires s < |g|
  {
    && (forall t <- Uses(g, s) :: t < |g|)
    && (match g[s].kind
        case Plain => true
        case ChoiceValue(c) => c < |g| && g[c].kind.Choice? && s in g[c].kind.values
        case Choice(values, _) => forall v <- values :: v < |g| && g[v].kind == ChoiceValue(s))
  }

  /** Mentions stay inside the graph, and choices and their values point at each other. */
  ghost predicate Linked(g: seq<Def>) { forall s | 0 <= s < |g| :: LinkedAt(g, s) }

  /** The symbol, or the choice it belongs to. */
  function Rep(g: seq<Def>, s: nat): nat
    requires s < |g|
  {
    if g[s].kind.ChoiceValue? then g[s].kind.choice else s
  }

  /** Some member of group `a` mentions some member of group `b`; a value may mention its own choice. */
  ghost predicate GroupUses(g: seq<Def>, a: nat, b: nat) {
    exists x: nat, y: nat :: UsesIn(g, x, y) && Rep(g, x) == a && Rep(g, y) == b
  }

  ghost predicate UsesIn(g: seq<Def>, x: nat, y: nat) {
    x < |g| && y < |g| && y in Uses(g, x) && g[x].kind != ChoiceValue(y)
  }

  /** A recursive dependency between groups. */
  ghost predicate Cycle(g: seq<Def>, p: seq<nat>) {
    |p| > 0 && Chain(g, p) && GroupUses(g, p[|p| - 1], p[0])
  }

  ghost predicate Chain(g: seq<Def>, p: seq<nat>) {
    forall i | 0 <= i < |p| - 1 :: GroupUses(g, p[i], p[i + 1])
  }

  /** The order in which symbols pass the check: each after everything it mentions, and after the
      whole of every choice it mentions a value of. */
  ghost predicate OrderedAt(g: seq<Def>, num: map<nat, nat>, s: nat)
    requires s < |g|
  {
    s in num && forall t <- Uses(g, s) :: t < |g| && Before(g, num, t, num[s])
  }

  ghost predicate Before(g: seq<Def>, num: map<nat, nat>, t: nat, n: nat)
    requires t < |g|
  {
    && t in num && num[t] < n
    && (g[t].kind.ChoiceValue? ==> g[t].kind.choice in num && num[g[t].kind.choice] < n)
    && forall w <- Siblings(g, t) :: w in num && num[w] < n
  }

  /** The values of the choice that `t` is a value of. */
  function Siblings(g: seq<Def>, t: nat): seq<nat>
    requires t < |g|
  {
    if g[t].kind.ChoiceValue? && g[t].kind.choice < |g| && g[g[t].kind.choice].kind.Choice?
    then g[g[t].kind.choice].kind.values else []
  }

  ghost predicate Ordered(g: seq<Def>, num: map<nat, nat>) {
    forall s | 0 <= s < |g| :: OrderedAt(g, num, s)
  }

  function Ids(n: nat): (r: set<nat>)
    ensures forall i: nat :: i in r <==> i < n
  {
    if n == 0 then {} else Ids(n - 1) + {n - 1}
  }

  // ----- states of the check -----

  /** SYMBOL_CHECK, SYMBOL_CHECKED, and the numbers given to symbols that have passed. */
  datatype Flags = Flags(check: set<nat>, checked: set<nat>, num: map<nat, nat>, clock: nat)

  /** A choice and its values enter the check together. */
  ghost predicate Small(g: seq<Def>, f: Flags) {
    && Linked(g) && f.check <= f.checked && (forall s <- f.checked :: s < |g|)
    && (forall v: nat | v < |g| && g[v].kind.ChoiceValue? :: v in f.checked <==> g[v].kind.choice in f.checked)
  }

  /** What has left the check without an error is in order; the values of a choice leave together. */
  ghost predicate Inv(g: seq<Def>, f: Flags) {
    && Small(g, f)
    && f.checked - f.check <= f.num.Keys <= f.checked
    && (forall s <- f.num :: f.num[s] < f.clock && OrderedAt(g, f.num, s))
    && (forall v <- f.check :: forall w <- Siblings(g, v) :: w in f.check)
    && (forall c <- f.check :: c < |g| && forall w <- Members(g, c) :: w in f.check)
  }

  /** What one step of the check does; `ok` if it found no error. */
  ghost predicate Step(g: seq<Def>, f: Flags, h: Flags, extra: set<nat>, ok: bool) {
    && Small(g, h) && h.check == f.check && f.checked <= h.checked
    && (ok ==> Inv(g, h) && Grown(f, h, extra))
  }

  /** Numbers are never changed, and only symbols new to the check, or `extra`, are numbered. */
  ghost predicate Grown(f: Flags, h: Flags, extra: set<nat>) {
    && f.clock <= h.clock
    && (forall t <- f.num :: t in h.num && h.num[t] == f.num[t])
    && (forall t <- h.num :: t in f.num || t in extra || t !in f.checked)
  }

  lemma StepTrans(g: seq<Def>, f: Flags, h: Flags, k: Flags, extra: set<nat>, ok: bool)
    requires Step(g, f, h, extra, true) && Step(g, h, k, {}, ok)
    ensures Step(g, f, k, extra, ok)
  {
  }

  ghost predicate AllBefore(g: seq<Def>, f: Flags, e: Expr) {
    forall y <- Mentions(e) | y.Config? :: y.id < |g| && Before(g, f.num, y.id, f.clock)
  }

  /** The first `n` expressions mention only symbols that have passed. */
  ghost predicate FirstBefore(g: seq<Def>, f: Flags, es: seq<Expr>, n: nat) {
    n <= |es| && forall j | 0 <= j < n :: AllBefore(g, f, es[j])
  }

  lemma StillBefore(g: seq<Def>, f: Flags, h: Flags, e: Expr)
    requires Grown(f, h, {}) && AllBefore(g, f, e)
    ensures AllBefore(g, h, e)
  {
  }

  lemma StillFirst(g: seq<Def>, f: Flags, h: Flags, es: seq<Expr>, n: nat)
    requires Grown(f, h, {}) && FirstBefore(g, f, es, n) && n < |es| && AllBefore(g, h, es[n])
    ensures FirstBefore(g, h, es, n + 1)
  {
  }

  lemma AllWalked(g: seq<Def>, f: Flags, es: seq<Expr>, s: nat)
    requires s < |g| && WalksAt(g, es, s) && FirstBefore(g, f, es, |es|)
    ensures FirstBefore(g, f, CheckedExprs(g[s]), |CheckedExprs(g[s])|)
  {
    forall j | 0 <= j < |CheckedExprs(g[s])| ensures AllBefore(g, f, CheckedExprs(g[s])[j]) {
      var e := CheckedExprs(g[s])[j];
      assert e in CheckedExprs(g[s]);
      var i :| 0 <= i < |es| && es[i] == e;
    }
  }

  /** A symbol that has passed gets the next number. */
  ghost function Enter(f: Flags, s: nat): Flags { f.(num := f.num[s := f.clock], clock := f.clock + 1) }

  lemma EnterInv(g: seq<Def>, f: Flags, s: nat)
    requires Inv(g, f) && s < |g| && s in f.checked && s !in f.num
    requires FirstBefore(g, f, CheckedExprs(g[s]), |CheckedExprs(g[s])|)
    ensures Inv(g, Enter(f, s)) && Grown(f, Enter(f, s), {s})
  {
    var h := Enter(f, s);
    forall i <- h.num ensures h.num[i] < h.clock && OrderedAt(g, h.num, i) {
      if i == s {
        forall t <- Uses(g, s) ensures t < |g| && Before(g, h.num, t, h.num[s]) {
          var e, y :| e in CheckedExprs(g[s]) && y in Mentions(e) && y.Config? && y.id == t;
          assert AllBefore(g, f, e);
        }
      } else {
        assert OrderedAt(g, f.num, i);
        forall t <- Uses(g, i) ensures t < |g| && Before(g, h.num, t, h.num[i]) { assert Before(g, f.num, t, f.num[i]); }
      }
    }
  }

  /** Symbol `a` mentions a member of the group of `b`. */
  ghost predicate Asks(g: seq<Def>, a: nat, b: nat) {
    a < |g| && b < |g| && exists y <- Uses(g, a) :: y < |g| && Rep(g, y) == Rep(g, b)
  }

  /** Symbols whose expressions are being walked, outermost first: each mentions the group of the next,
      and no group is entered twice. */
  ghost predicate Trail(g: seq<Def>, path: seq<nat>) {
    && (forall i | 0 <= i < |path| :: path[i] < |g|)
    && (forall i | 0 <= i < |path| - 1 :: Asks(g, path[i], path[i + 1]))
    && Apart(g, path)
  }

  ghost predicate Apart(g: seq<Def>, path: seq<nat>)
    requires forall i | 0 <= i < |path| :: path[i] < |g|
  {
    forall i, j | 0 <= i < j < |path| :: Rep(g, path[i]) != Rep(g, path[j])
  }

  /** While `a` is being walked `y` is marked: it is `a` itself, or a value in the group of `a`. */
  ghost predicate Marks(g: seq<Def>, a: nat, y: nat) {
    a < |g| && y < |g| && (a == y || (g[y].kind.ChoiceValue? && Rep(g, a) == Rep(g, y)))
  }

  /** A recursion the check can see: the last symbol of the trail mentions a marked one. */
  ghost predicate Report(g: seq<Def>, path: seq<nat>, y: nat) {
    Trail(g, path) && path != [] && y in Uses(g, path[|path| - 1]) && exists a <- path :: Marks(g, a, y)
  }

  /** A report with a trail that begins with `path`. */
  ghost predicate Found(g: seq<Def>, path: seq<nat>) {
    exists full: seq<nat>, y: nat :: path <= full && Report(g, full, y)
  }

  /** A report with a trail that begins in the group of `s`. */
  ghost predicate FoundFrom(g: seq<Def>, s: nat) {
    exists a: nat :: a < |g| && s < |g| && Rep(g, a) == Rep(g, s) && Found(g, [a])
  }

  /** What a report of a call for `s` under `path` comes to. */
  ghost predicate Reported(g: seq<Def>, path: seq<nat>, s: nat) {
    if path == [] then FoundFrom(g, s) else Found(g, path)
  }

  ghost predicate OnPath(g: seq<Def>, f: Flags, path: seq<nat>) {
    && Small(g, f) && Trail(g, path) && (forall a <- path :: a in f.checked)
    && forall y <- f.check :: exists a <- path :: Marks(g, a, y)
  }

  /** Symbol `s` may be asked for while `path` is under way. */
  ghost predicate MayAsk(g: seq<Def>, f: Flags, path: seq<nat>, s: nat) {
    && OnPath(g, f, path) && s < |g|
    && (path != [] ==> s in Uses(g, path[|path| - 1]) || (s !in f.checked && Asks(g, path[|path| - 1], s)))
  }

  /** The dependencies of `s` are being walked: it is the innermost symbol. */
  ghost predicate Asking(g: seq<Def>, f: Flags, path: seq<nat>, s: nat) {
    s < |g| && OnPath(g, f, path) && path != [] && path[|path| - 1] == s
  }

  // ----- the check -----

  class Checker {
    const g: seq<Def>
    const walk: seq<seq<Expr>>
    const recursiveIsError: bool
    var check: set<nat>      // SYMBOL_CHECK: being checked
    var checked: set<nat>    // SYMBOL_CHECKED
    ghost var num: map<nat, nat>
    ghost var clock: nat

    constructor (g: seq<Def>, walk: seq<seq<Expr>>, recursiveIsError: bool)
      ensures this.g == g && this.walk == walk && this.recursiveIsError == recursiveIsError && F() == Flags({}, {}, map[], 0)
    {
      this.g, this.walk, this.recursiveIsError := g, walk, recursiveIsError;
      check, checked, num, clock := {}, {}, map[], 0;
    }

    ghost function F(): Flags
      reads this
    {
      Flags(check, checked, num, clock)
    }

    ghost predicate Ready()
      reads this
    {
      Walks(g, walk) && Small(g, F()) && (recursiveIsError ==> Inv(g, F()))
    }

    ghost function Unchecked(): set<nat>
      reads this
    {
      Ids(|g|) - checked
    }

    /** sym_check_deps on every symbol, in order. A report always points at a real cycle, one that is in
        sight from the first symbol not reached before. With recursion treated as an error and no report,
        every symbol comes after all it mentions, and the only cycles left pass bare mentions of a choice. */
    method CheckAll() returns (r: Option<nat>)
      requires Linked(g) && Walks(g, walk) && F() == Flags({}, {}, map[], 0)
      modifies this
      ensures recursiveIsError && r.None? ==> Ordered(g, num)
      ensures r.Some? ==> exists p :: Cycle(g, p)
      ensures recursiveIsError && r.Some? ==> InSight(g)
      ensures recursiveIsError && r.None? ==> forall p | Cycle(g, p) :: BareStep(g, p)
      ensures recursiveIsError && Covered(g) ==> (r.None? <==> !exists p :: Cycle(g, p))
    {
      r := None;
      for s := 0 to |g|
        invariant r.None? && Ready() && check == {}
        invariant recursiveIsError ==> forall i | 0 <= i < s :: i in num
      {
        ghost var f := F();
        r := CheckDeps(s, []);
        if r.Some? {
          ReportedAll(g, f, s, recursiveIsError);
          return;
        }
      }
      if recursiveIsError { PassedAll(g, num); }
    }

    /** sym_check_deps: None when the dependencies are fine. */
    method CheckDeps(s: nat, ghost path: seq<nat>) returns (r: Option<nat>)
      requires Ready() && MayAsk(g, F(), path, s)
      modifies this
      ensures Step(g, old(F()), F(), {}, recursiveIsError && r.None?)
      ensures recursiveIsError && r.None? ==> Before(g, num, s, clock)
      ensures recursiveIsError && r.None? && s !in old(checked) ==>
        Before(g, num, Rep(g, s), clock) && forall v <- Members(g, s) :: v < |g| && Before(g, num, v, clock)
      ensures r.Some? ==> Reported(g, path, s) && (s in old(checked) ==> s in old(check))
      decreases Unchecked(), 1, if s < |g| && g[s].kind.ChoiceValue? then 1 else 0
    {
      assert LinkedAt(g, s);
      if s in check {
        MarkedIsFound(g, F(), path, s);
        return Some(s);
      }
      if s in checked {
        if recursiveIsError { LeftTogether(g, F(), s); }
        return None;
      }
      if g[s].kind.ChoiceValue? {
        // the check of a choice group starts with the choice
        r := CheckDeps(g[s].kind.choice, path);
      } else if g[s].kind.Choice? {
        r := CheckChoiceDeps(s, path);
      } else {
        r := CheckPlainDeps(s, path);
      }
      if !recursiveIsError && r == Some(s) {
        r := None;
      }
    }

    /** The last branch of sym_check_deps. */
    method CheckPlainDeps(s: nat, ghost path: seq<nat>) returns (r: Option<nat>)
      requires Ready() && MayAsk(g, F(), path, s) && g[s].kind.Plain? && s !in checked
      modifies this
      ensures Step(g, old(F()), F(), {}, recursiveIsError && r.None?)
      ensures recursiveIsError && r.None? ==> Before(g, num, s, clock)
      ensures r.Some? ==> Reported(g, path, s)
      decreases Unchecked(), 0
    {
      LongerTrail(g, F(), path, s);
      PlainOpened(g, F(), s, recursiveIsError);
      check, checked := check + {s}, checked + {s};
      Deeper(g, old(F()), F(), path, s);
      r := CheckSymDeps(s, path + [s]);
      PlainClosed(g, old(F()), F(), s, recursiveIsError && r.None?);
      if recursiveIsError && r.None? { Number(s); }
      check := check - {s};
      if r.Some? { FoundShorter(g, path, s, s); }
    }

    ghost method Number(s: nat)
      requires Inv(g, F()) && s < |g| && s in checked && s !in num
      requires FirstBefore(g, F(), CheckedExprs(g[s]), |CheckedExprs(g[s])|)
      modifies this`num, this`clock
      ensures F() == Enter(old(F()), s) && Inv(g, F()) && Grown(old(F()), F(), {s})
    {
      EnterInv(g, F(), s);
      num, clock := num[s := clock], clock + 1;
    }

    /** sym_check_sym_deps. */
    method CheckSymDeps(s: nat, ghost path: seq<nat>) returns (r: Option<nat>)
      requires Ready() && Asking(g, F(), path, s)
      modifies this
      ensures Step(g, old(F()), F(), {}, recursiveIsError && r.None?)
      ensures recursiveIsError && r.None? ==> FirstBefore(g, F(), CheckedExprs(g[s]), |CheckedExprs(g[s])|)
      ensures r.Some? ==> Found(g, path)
      decreases Unchecked(), 3
    {
      r := None;
      var es := walk[s];
      assert WalksAt(g, es, s);
      for i := 0 to |es|
        invariant r.None? && Ready() && Asking(g, F(), path, s)
        invariant Step(g, old(F()), F(), {}, recursiveIsError)
        invariant recursiveIsError ==> FirstBefore(g, F(), es, i)
      {
        ghost var f := F();
        r := CheckExprDeps(es[i], s, path);
        if recursiveIsError { StepTrans(g, old(F()), f, F(), {}, r.None?); }
        if r.Some? {
          return;
        }
        if recursiveIsError { StillFirst(g, f, F(), es, i); }
      }
      if recursiveIsError { AllWalked(g, F(), es, s); }
    }

    /** sym_check_expr_deps, for an expression of symbol `s`. */
    method CheckExprDeps(e: Expr, ghost s: nat, ghost path: seq<nat>) returns (r: Option<nat>)
      requires Ready() && Asking(g, F(), path, s)
      requires forall y <- Mentions(e) | y.Config? :: y.id in Uses(g, s)
      modifies this
      ensures Step(g, old(F()), F(), {}, recursiveIsError && r.None?)
      ensures recursiveIsError && r.None? ==> AllBefore(g, F(), e)
      ensures r.Some? ==> Found(g, path)
      decreases Unchecked(), 2, e
    {
      match e
      case Sym(y) =>
        assert y in Mentions(e);
        r := CheckMention(y, s, path);
      case Not(f) =>
        r := CheckExprDeps(f, s, path);
      case Bin(_, a, b) =>
        r := CheckExprDeps(a, s, path);
        if r.Some? {
          return;
        }
        ghost var f := F();
        r := CheckExprDeps(b, s, path);
        if recursiveIsError {
          StepTrans(g, old(F()), f, F(), {}, r.None?);
          if r.None? { StillBefore(g, f, F(), a); }
        }
      case Cmp(_, y, z) =>
        assert y in Mentions(e) && z in Mentions(e);
        r := CheckMention(y, s, path);
        if r.Some? {
          return;
        }
        ghost var f := F();
        r := CheckMention(z, s, path);
        if recursiveIsError {
          StepTrans(g, old(F()), f, F(), {}, r.None?);
          if r.None? { StillBefore(g, f, F(), Sym(y)); }
        }
    }

    /** One symbol of an expression; constants are always fine. */
    method CheckMention(y: Symbol, ghost s: nat, ghost path: seq<nat>) returns (r: Option<nat>)
      requires Ready() && Asking(g, F(), path, s) && (y.Config? ==> y.id in Uses(g, s))
      modifies this
      ensures Step(g, old(F()), F(), {}, recursiveIsError && r.None?)
      ensures recursiveIsError && r.None? ==> AllBefore(g, F(), Sym(y))
      ensures r.Some? ==> Found(g, path)
      decreases Unchecked(), 1, 2
    {
      if !y.Config? {
        return None;
      }
      assert LinkedAt(g, s);
      r := CheckDeps(y.id, path);
    }

    /** sym_check_choice_deps. */
    method CheckChoiceDeps(c: nat, ghost path: seq<nat>) returns (r: Option<nat>)
      requires Ready() && MayAsk(g, F(), path, c) && g[c].kind.Choice? && c !in checked
      modifies this
      ensures Step(g, old(F()), F(), {}, recursiveIsError && r.None?)
      ensures recursiveIsError && r.None? ==>
        Before(g, num, c, clock) && forall v <- g[c].kind.values :: v < |g| && Before(g, num, v, clock)
      ensures r.Some? ==> Reported(g, path, c)
      decreases Unchecked(), 0
    {
      var vs := g[c].kind.values;
      var members := set v | v in vs;
      LongerTrail(g, F(), path, c);
      check, checked := check + members + {c}, checked + members + {c};
      OpenChoice(g, old(F()), F(), c, members, path);
      if recursiveIsError { StartChoice(g, old(F()), F(), c, members); }
      r := CheckGroup(c, path, members);
      if recursiveIsError && r.None? { EndChoice(g, old(F()), F(), c, members); }
      check := check - members;
      if r.Some? && r.value in members {
        r := Some(c);
      }
    }

    /** The choice and then its values; the values are left marked. */
    method CheckGroup(c: nat, ghost path: seq<nat>, ghost members: set<nat>) returns (r: Option<nat>)
      requires Ready() && c < |g| && g[c].kind.Choice? && c in check && (recursiveIsError ==> c !in num)
      requires OnPath(g, F(), path + [c])
      requires members == (set v | v in g[c].kind.values) && members <= check - {c}
      modifies this
      ensures Small(g, F()) && check == old(check) - {c} && old(checked) <= checked
      ensures recursiveIsError && r.None? ==> Inv(g, F()) && Grown(old(F()), F(), members + {c})
      ensures recursiveIsError && r.None? ==> c in num && forall v <- g[c].kind.values :: v in num
      ensures r.Some? ==> Reported(g, path, c)
      decreases Unchecked(), 6
    {
      r := CheckChoiceItself(c, path);
      if r.None? {
        r := CheckChoiceValues(c, path, members);
      }
    }

    /** The choice's own dependencies, while it and all its values are being checked. */
    method CheckChoiceItself(c: nat, ghost path: seq<nat>) returns (r: Option<nat>)
      requires Ready() && c < |g| && g[c].kind.Choice? && c in check && (recursiveIsError ==> c !in num)
      requires OnPath(g, F(), path + [c])
      modifies this
      ensures Small(g, F()) && check == old(check) - {c} && old(checked) <= checked
      ensures recursiveIsError && r.None? ==> Inv(g, F()) && c in num && Grown(old(F()), F(), {c})
      ensures r.Some? ==> Reported(g, path, c)
      decreases Unchecked(), 4
    {
      r := CheckSymDeps(c, path + [c]);
      if recursiveIsError && r.None? {
        Number(c);
        DropChoice(g, F(), c);
      }
      check := check - {c};
      if r.Some? { FoundShorter(g, path, c, c); }
    }

    /** The values of a choice in turn, the choice itself being done. */
    method CheckChoiceValues(c: nat, ghost path: seq<nat>, ghost members: set<nat>) returns (r: Option<nat>)
      requires Ready() && OnPath(g, F(), path + [c]) && c < |g| && g[c].kind.Choice? && c in checked - check
      requires forall v <- g[c].kind.values :: v in members
      modifies this
      ensures Step(g, old(F()), F(), members, recursiveIsError && r.None?)
      ensures recursiveIsError && r.None? ==> forall v <- g[c].kind.values :: v in num
      ensures r.Some? ==> Reported(g, path, c)
      decreases Unchecked(), 5
    {
      var vs := g[c].kind.values;
      r := None;
      for i := 0 to |vs|
        invariant r.None? && Ready() && OnPath(g, F(), path + [c])
        invariant Step(g, old(F()), F(), members, recursiveIsError)
        invariant recursiveIsError ==> forall j | 0 <= j < i :: vs[j] in num
      {
        ghost var f := F();
        r := CheckChoiceOne(vs[i], path, c, i, members);
        if recursiveIsError { StepMembers(g, old(F()), f, F(), members, r.None?); }
        if r.Some? {
          return;
        }
      }
    }

    /** The value at `i` of the choice `c`. */
    method CheckChoiceOne(v: nat, ghost path: seq<nat>, ghost c: nat, ghost i: nat, ghost members: set<nat>) returns (r: Option<nat>)
      requires Ready() && OnPath(g, F(), path + [c]) && c < |g| && g[c].kind.Choice? && c in checked - check
      requires i < |g[c].kind.values| && v == g[c].kind.values[i] && forall v <- g[c].kind.values :: v in members
      modifies this
      ensures Step(g, old(F()), F(), members, recursiveIsError && r.None?)
      ensures r.None? ==> OnPath(g, F(), path + [c])
      ensures recursiveIsError && r.None? ==> v in num
      ensures r.Some? ==> Reported(g, path, c)
      decreases Unchecked(), 4
    {
      AskValue(g, F(), path, c, i, members);
      r := CheckSymDeps(v, path + [v]);
      if r.Some? { FoundShorter(g, path, v, c); }
      if recursiveIsError && r.None? && v !in num {
        StepEnter(g, old(F()), F(), v, members);
        Number(v);
      }
    }
  }

  /** What a report for `s`, the first symbol not reached before, comes to. */
  lemma ReportedAll(g: seq<Def>, f: Flags, s: nat, error: bool)
    requires Linked(g) && FoundFrom(g, s)
    requires error ==> Inv(g, f) && f.check == {} && s < |g| && s !in f.checked && forall i: nat | i < s :: i in f.num
    ensures (exists p :: Cycle(g, p)) && (error ==> InSight(g))
  {
    FoundIsCycle(g, s);
    if error { ClosedWhenDone(g, f, s); }
  }

  /** The values of the choice `s`, if it is one. */
  function Members(g: seq<Def>, s: nat): seq<nat>
    requires s < |g|
  {
    if g[s].kind.Choice? then g[s].kind.values else []
  }

  lemma LeftTogether(g: seq<Def>, f: Flags, s: nat)
    requires Inv(g, f) && s in f.checked - f.check
    ensures Before(g, f.num, s, f.clock)
  {
    assert LinkedAt(g, s);
    forall w <- Siblings(g, s) ensures w in f.num && f.num[w] < f.clock {
      assert LinkedAt(g, g[s].kind.choice);
      assert g[w].kind == g[s].kind;
    }
  }

  lemma AskValue(g: seq<Def>, f: Flags, path: seq<nat>, c: nat, i: nat, members: set<nat>)
    requires OnPath(g, f, path + [c]) && c < |g| && g[c].kind.Choice? && c in f.checked - f.check
    requires i < |g[c].kind.values| && forall v <- g[c].kind.values :: v in members
    ensures var v := g[c].kind.values[i]; v in members && v < |g| && Rep(g, v) == c && Asking(g, f, path + [v], v)
  {
    GroupOf(g, c);
    assert LinkedAt(g, c) && g[c].kind.values[i] in g[c].kind.values;
    ValueTrail(g, f, path, c, g[c].kind.values[i]);
  }

  /** A value takes the place of its choice at the end of the trail, the choice being unmarked. */
  lemma ValueTrail(g: seq<Def>, f: Flags, path: seq<nat>, c: nat, v: nat)
    requires OnPath(g, f, path + [c]) && c < |g| && c !in f.check && v in f.checked && Rep(g, c) == c
    requires v < |g| && g[v].kind == ChoiceValue(c)
    ensures OnPath(g, f, path + [v])
  {
    var p, q := path + [c], path + [v];
    TrailPrefix(g, path, c);
    if path != [] {
      assert Asks(g, p[|path| - 1], p[|path|]);
      assert p[|path| - 1] == path[|path| - 1];
    }
    TrailSnoc(g, path, v);
    forall y <- f.check ensures exists a <- q :: Marks(g, a, y) {
      var a :| a in p && Marks(g, a, y);
      if a == c { assert v in q && Marks(g, v, y); } else { assert a in q; }
    }
    forall a <- q ensures a in f.checked { if a != v { assert a in p; } }
  }

  lemma TrailPrefix(g: seq<Def>, path: seq<nat>, c: nat)
    requires Trail(g, path + [c])
    ensures Trail(g, path) && c < |g| && forall a <- path :: a < |g| && Rep(g, a) != Rep(g, c)
  {
    var p := path + [c];
    assert p[|path|] == c;
    forall i | 0 <= i < |path| ensures path[i] < |g| { assert p[i] == path[i]; }
    forall i | 0 <= i < |path| - 1 ensures Asks(g, path[i], path[i + 1]) {
      assert Asks(g, p[i], p[i + 1]);
    }
    forall i, j | 0 <= i < j < |path| ensures Rep(g, path[i]) != Rep(g, path[j]) {
      assert Rep(g, p[i]) != Rep(g, p[j]);
    }
    forall a <- path ensures Rep(g, a) != Rep(g, c) {
      var i :| 0 <= i < |path| && path[i] == a;
      assert Rep(g, p[i]) != Rep(g, p[|path|]);
    }
  }

  lemma TrailSnoc(g: seq<Def>, path: seq<nat>, s: nat)
    requires Trail(g, path) && s < |g| && (path != [] ==> Asks(g, path[|path| - 1], s))
    requires forall a <- path :: a < |g| && Rep(g, a) != Rep(g, s)
    ensures Trail(g, path + [s])
  {
    var q := path + [s];
    forall i | 0 <= i < |q| - 1 ensures Asks(g, q[i], q[i + 1]) {
      if i < |path| - 1 { assert Asks(g, path[i], path[i + 1]); }
    }
    forall i, j | 0 <= i < j < |q| ensures Rep(g, q[i]) != Rep(g, q[j]) {
      assert q[i] == path[i] && path[i] in path;
      if j < |path| { assert Rep(g, path[i]) != Rep(g, path[j]); }
    }
  }

  lemma StepMembers(g: seq<Def>, f: Flags, h: Flags, k: Flags, extra: set<nat>, ok: bool)
    requires Step(g, f, h, extra, true) && Step(g, h, k, extra, ok)
    ensures Step(g, f, k, extra, ok)
  {
  }

  lemma StepEnter(g: seq<Def>, f: Flags, h: Flags, s: nat, extra: set<nat>)
    requires (Step(g, f, h, extra, true) || Step(g, f, h, {}, true)) && s in extra && s < |g| && s in h.checked && s !in h.num
    requires FirstBefore(g, h, CheckedExprs(g[s]), |CheckedExprs(g[s])|)
    ensures Step(g, f, Enter(h, s), extra, true)
  {
    EnterInv(g, h, s);
  }

  lemma SiblingKinds(g: seq<Def>)
    requires Linked(g)
    ensures forall v: nat | v < |g| :: forall w <- Siblings(g, v) :: w < |g| && g[w].kind.ChoiceValue?
  {
    forall v: nat | v < |g| ensures forall w <- Siblings(g, v) :: w < |g| && g[w].kind.ChoiceValue? {
      assert LinkedAt(g, v);
      if g[v].kind.ChoiceValue? { assert LinkedAt(g, g[v].kind.choice); }
    }
  }

  /** A choice whose own dependencies are done is unmarked; its values stay marked. */
  lemma DropChoice(g: seq<Def>, f: Flags, c: nat)
    requires Inv(g, f) && c < |g| && g[c].kind.Choice? && c in f.num
    ensures Inv(g, f.(check := f.check - {c}))
  {
    SiblingKinds(g);
    var h := f.(check := f.check - {c});
    forall b <- h.check ensures forall w <- Members(g, b) :: w in h.check { assert LinkedAt(g, b); }
  }

  lemma OpenChoice(g: seq<Def>, f: Flags, h: Flags, c: nat, members: set<nat>, path: seq<nat>)
    requires OnPath(g, f, path) && c < |g| && g[c].kind.Choice? && members == set v | v in g[c].kind.values
    requires h == f.(check := f.check + members + {c}, checked := f.checked + members + {c}) && Trail(g, path + [c])
    ensures Small(g, h) && c !in members && (c !in f.checked ==> h.check - {c} - members == f.check)
    ensures OnPath(g, h, path + [c])
  {
    GroupOf(g, c);
    assert LinkedAt(g, c);
    var p := path + [c];
    forall y <- h.check ensures exists a <- p :: Marks(g, a, y) {
      if y in f.check {
        var a :| a in path && Marks(g, a, y);
        assert a in p;
      } else {
        assert c in p && Marks(g, c, y);
      }
    }
  }

  lemma StartChoice(g: seq<Def>, f: Flags, h: Flags, c: nat, members: set<nat>)
    requires Inv(g, f) && c < |g| && g[c].kind.Choice? && c !in f.checked && members == set v | v in g[c].kind.values
    requires h == f.(check := f.check + members + {c}, checked := f.checked + members + {c})
    ensures Inv(g, h) && c !in h.num && (members !! f.checked)
  {
    GroupOf(g, c);
    assert LinkedAt(g, c);
    forall v <- h.check ensures forall w <- Siblings(g, v) :: w in h.check {
      assert LinkedAt(g, v);
    }
  }

  /** A choice leaves the check with all its values. */
  lemma EndChoice(g: seq<Def>, f: Flags, h: Flags, c: nat, members: set<nat>)
    requires Inv(g, f) && c < |g| && g[c].kind.Choice? && c !in f.checked && members == set v | v in g[c].kind.values
    requires Inv(g, h) && h.check == f.check + members && f.checked <= h.checked
    requires Grown(f.(checked := f.checked + members + {c}), h, members + {c})
    requires c in h.num && forall v <- g[c].kind.values :: v in h.num
    ensures Inv(g, h.(check := h.check - members)) && Grown(f, h, {}) && members !! f.checked
    ensures Before(g, h.num, c, h.clock) && forall v <- g[c].kind.values :: v < |g| && Before(g, h.num, v, h.clock)
  {
    GroupOf(g, c);
    assert LinkedAt(g, c);
    forall v <- h.check - members ensures forall w <- Siblings(g, v) :: w in h.check - members {
      assert LinkedAt(g, v);
    }
  }

  lemma PlainAlone(g: seq<Def>, s: nat)
    requires Linked(g) && s < |g| && g[s].kind.Plain?
    ensures forall v: nat | v < |g| && g[v].kind.ChoiceValue? :: v != s && g[v].kind.choice != s
  {
    forall v: nat | v < |g| && g[v].kind.ChoiceValue? ensures g[v].kind.choice != s { assert LinkedAt(g, v); }
  }

  /** An ordinary symbol enters the check, */
  lemma PlainOpened(g: seq<Def>, f: Flags, s: nat, ok: bool)
    requires Small(g, f) && (ok ==> Inv(g, f)) && s < |g| && g[s].kind.Plain? && s !in f.checked
    ensures var h := Marked(f, s); Small(g, h) && (ok ==> Inv(g, h))
  {
    PlainAlone(g, s);
  }

  function Marked(f: Flags, s: nat): Flags { f.(check := f.check + {s}, checked := f.checked + {s}) }

  /** and leaves it. */
  lemma PlainClosed(g: seq<Def>, f: Flags, h: Flags, s: nat, ok: bool)
    requires Small(g, f) && (ok ==> Inv(g, f)) && s < |g| && g[s].kind.Plain? && s !in f.checked
    requires Step(g, Marked(f, s), h, {}, ok) && (ok ==> FirstBefore(g, h, CheckedExprs(g[s]), |CheckedExprs(g[s])|))
    ensures s in h.checked && (ok ==> s !in h.num)
    ensures var k := if ok then Enter(h, s) else h;
      var l := k.(check := k.check - {s});
      Step(g, f, l, {}, ok) && (ok ==> Before(g, l.num, s, l.clock))
  {
    PlainAlone(g, s);
    if ok { EnterInv(g, h, s); }
  }

  lemma GroupOf(g: seq<Def>, c: nat)
    requires Linked(g) && c < |g| && g[c].kind.Choice?
    ensures forall v: nat | v < |g| && g[v].kind.ChoiceValue? :: (v in g[c].kind.values <==> g[v].kind.choice == c) && g[v].kind.choice !in g[c].kind.values
  {
    assert LinkedAt(g, c);
    forall v: nat | v < |g| && g[v].kind.ChoiceValue?
      ensures (v in g[c].kind.values <==> g[v].kind.choice == c) && g[v].kind.choice !in g[c].kind.values
    {
      assert LinkedAt(g, v);
    }
  }

  lemma UsesOf(g: seq<Def>, s: nat, e: Expr)
    requires s < |g| && e in CheckedExprs(g[s])
    ensures forall y <- Mentions(e) | y.Config? :: y.id in Uses(g, s)
  {
  }

  /** The trail goes on to a symbol of a group not met before. */
  lemma LongerTrail(g: seq<Def>, f: Flags, path: seq<nat>, s: nat)
    requires MayAsk(g, f, path, s) && s !in f.checked
    ensures Trail(g, path + [s])
  {
    assert LinkedAt(g, s);
    forall a <- path ensures a < |g| && Rep(g, a) != Rep(g, s) {
      assert a in f.checked && LinkedAt(g, a);
    }
    TrailSnoc(g, path, s);
  }

  lemma Deeper(g: seq<Def>, f: Flags, h: Flags, path: seq<nat>, s: nat)
    requires OnPath(g, f, path) && s < |g| && Trail(g, path + [s]) && Small(g, h)
    requires h == f.(check := f.check + {s}, checked := f.checked + {s})
    ensures Asking(g, h, path + [s], s)
  {
    var q := path + [s];
    forall y <- h.check ensures exists a <- q :: Marks(g, a, y) {
      if y in f.check {
        var a :| a in path && Marks(g, a, y);
        assert a in q;
      } else {
        assert s in q && Marks(g, s, y);
      }
    }
  }

  lemma MarkedIsFound(g: seq<Def>, f: Flags, path: seq<nat>, s: nat)
    requires MayAsk(g, f, path, s) && s in f.check
    ensures Reported(g, path, s)
  {
    assert Report(g, path, s);
  }

  lemma FoundShorter(g: seq<Def>, path: seq<nat>, a: nat, s: nat)
    requires Found(g, path + [a]) && a < |g| && s < |g| && Rep(g, a) == Rep(g, s)
    ensures Reported(g, path, s)
  {
    if path == [] {
      assert path + [a] == [a];
    } else {
      FoundBefore(g, path, a);
    }
  }

  lemma FoundBefore(g: seq<Def>, path: seq<nat>, a: nat)
    requires Found(g, path + [a])
    ensures Found(g, path)
  {
    var full: seq<nat>, y: nat :| path + [a] <= full && Report(g, full, y);
    assert path <= path + [a] <= full;
  }

  /** What a report shows is a cycle of groups. */
  lemma ReportIsCycle(g: seq<Def>, path: seq<nat>, y: nat)
    requires Linked(g) && Report(g, path, y)
    ensures exists p :: Cycle(g, p)
  {
    var b :| b in path && Marks(g, b, y);
    var j :| 0 <= j < |path| && path[j] == b;
    GroupsOfTrail(g, path, j, y);
  }

  function Reps(g: seq<Def>, path: seq<nat>): (r: seq<nat>)
    requires forall i | 0 <= i < |path| :: path[i] < |g|
    ensures |r| == |path| && forall i | 0 <= i < |path| :: r[i] == Rep(g, path[i])
  {
    if path == [] then [] else Reps(g, path[..|path| - 1]) + [Rep(g, path[|path| - 1])]
  }

  lemma GroupsOfTrail(g: seq<Def>, path: seq<nat>, j: nat, y: nat)
    requires Linked(g) && Trail(g, path) && j < |path| && Marks(g, path[j], y) && y in Uses(g, path[|path| - 1])
    ensures exists p :: Cycle(g, p)
  {
    var all := Reps(g, path);
    forall i | 0 <= i < |all| - 1 ensures GroupUses(g, all[i], all[i + 1]) {
      StepIsUse(g, path, i);
    }
    LastIsUse(g, path, j, y);
    ClosesChain(g, all, all[j]);
  }

  lemma StepIsUse(g: seq<Def>, path: seq<nat>, i: nat)
    requires Linked(g) && Trail(g, path) && i + 1 < |path|
    ensures GroupUses(g, Rep(g, path[i]), Rep(g, path[i + 1]))
  {
    assert Asks(g, path[i], path[i + 1]) && LinkedAt(g, path[i]);
    var y :| y in Uses(g, path[i]) && y < |g| && Rep(g, y) == Rep(g, path[i + 1]);
    assert LinkedAt(g, y) && Rep(g, path[i]) != Rep(g, path[i + 1]);
    assert UsesIn(g, path[i], y);
  }

  lemma LastIsUse(g: seq<Def>, path: seq<nat>, j: nat, y: nat)
    requires Linked(g) && Trail(g, path) && j < |path| && Marks(g, path[j], y) && y in Uses(g, path[|path| - 1])
    ensures GroupUses(g, Rep(g, path[|path| - 1]), Rep(g, path[j]))
  {
    var x := path[|path| - 1];
    assert LinkedAt(g, x) && LinkedAt(g, y) && LinkedAt(g, path[j]);
    assert j < |path| - 1 ==> Rep(g, path[j]) != Rep(g, x);
    assert UsesIn(g, x, y);
  }

  lemma FoundIsCycle(g: seq<Def>, s: nat)
    requires Linked(g) && FoundFrom(g, s)
    ensures exists p :: Cycle(g, p)
  {
    var a: nat :| a < |g| && s < |g| && Rep(g, a) == Rep(g, s) && Found(g, [a]);
    var full: seq<nat>, y: nat :| [a] <= full && Report(g, full, y);
    ReportIsCycle(g, full, y);
  }

  // ----- which report comes first -----

  /** All that the symbols of `seen` mention is there too, and of a choice and its values all or none. */
  ghost predicate Closed(g: seq<Def>, seen: set<nat>) {
    && (forall t <- seen :: t < |g| && Uses(g, t) <= seen)
    && (forall v: nat | v < |g| && g[v].kind.ChoiceValue? :: v in seen <==> g[v].kind.choice in seen)
  }

  predicate AllBelow(seen: set<nat>, s: nat) { forall i: nat | i < s :: i in seen }

  /** A report for symbol `s`, after all symbols before it and all they lead to have passed. */
  ghost predicate InSightAt(g: seq<Def>, s: nat, seen: set<nat>) {
    s < |g| && s !in seen && Closed(g, seen) && AllBelow(seen, s) && FoundFrom(g, s)
  }

  ghost predicate InSight(g: seq<Def>) { exists s: nat, seen: set<nat> :: InSightAt(g, s, seen) }

  lemma ClosedWhenDone(g: seq<Def>, f: Flags, s: nat)
    requires Inv(g, f) && f.check == {} && s < |g| && s !in f.checked && FoundFrom(g, s)
    requires forall i: nat | i < s :: i in f.num
    ensures InSight(g)
  {
    assert f.num.Keys == f.checked;
    forall t <- f.checked ensures Uses(g, t) <= f.checked {
      assert OrderedAt(g, f.num, t);
      forall u <- Uses(g, t) ensures u in f.checked { assert Before(g, f.num, u, f.num[t]); }
    }
    assert Closed(g, f.checked);
    assert InSightAt(g, s, f.checked);
  }

  // ----- what success is worth -----

  /** A walk along mentions. */
  ghost predicate Walk(g: seq<Def>, p: seq<nat>) {
    forall i | 0 <= i < |p| - 1 :: p[i] < |g| && p[i + 1] in Uses(g, p[i])
  }

  /** No symbol mentions itself, directly or through others. */
  lemma {:induction false} NoLoop(g: seq<Def>, num: map<nat, nat>, p: seq<nat>)
    requires Ordered(g, num) && Walk(g, p) && |p| > 1
    ensures p[0] in num && p[|p| - 1] in num && num[p[|p| - 1]] < num[p[0]]
    ensures p[0] != p[|p| - 1]
  {
    assert OrderedAt(g, num, p[0]) && p[1] in Uses(g, p[0]);
    if |p| > 2 {
      var q := p[1..];
      forall i | 0 <= i < |q| - 1 ensures q[i] < |g| && q[i + 1] in Uses(g, q[i]) {
        assert p[i + 1] < |g| && p[i + 2] in Uses(g, p[i + 1]);
      }
      NoLoop(g, num, q);
    }
  }

  /** Symbol `s` leads, through mentions, to a value of choice `c`. */
  ghost predicate Leads(g: seq<Def>, s: nat, c: nat) {
    c < |g| && g[c].kind.Choice? && exists p :: |p| > 1 && p[0] == s && Walk(g, p) && p[|p| - 1] in g[c].kind.values
  }

  /** A mention of a choice by a symbol that is not its value and leads to none of its values, as a
      Kconfig file can make it when the choice has a name. */
  ghost predicate Bare(g: seq<Def>, s: nat, t: nat)
    requires s < |g|
  {
    t < |g| && g[t].kind.Choice? && g[s].kind != ChoiceValue(t) && !Leads(g, s, t)
  }

  /** No mention of a choice is bare. menu_finalize makes only mentions of this kind where the choice has no
      name: it stands in the conditions of its values, of what hangs below them in the menu, and of what these
      select. */
  ghost predicate Covered(g: seq<Def>) {
    forall s | 0 <= s < |g| :: forall t <- Uses(g, s) :: !Bare(g, s, t)
  }

  /** Group `a` mentions group `b` other than by bare mentions. */
  ghost predicate CoveredUses(g: seq<Def>, a: nat, b: nat) {
    exists x: nat, y: nat :: UsesIn(g, x, y) && Rep(g, x) == a && Rep(g, y) == b && !Bare(g, x, y)
  }

  /** The group after the one at `i`, round the cycle. */
  function After(p: seq<nat>, i: nat): nat
    requires i < |p|
  {
    if i + 1 < |p| then p[i + 1] else p[0]
  }

  /** Somewhere along the cycle there are only bare mentions. */
  ghost predicate BareStep(g: seq<Def>, p: seq<nat>) {
    !AllCovered(g, p)
  }

  ghost predicate AllCovered(g: seq<Def>, p: seq<nat>) { forall i | 0 <= i < |p| :: CoveredAt(g, p, i) }

  ghost predicate CoveredAt(g: seq<Def>, p: seq<nat>, i: nat)
    requires i < |p|
  {
    CoveredUses(g, p[i], After(p, i))
  }

  /** The highest number among a choice and its values. */
  function HighestOf(num: map<nat, nat>, vs: seq<nat>, least: nat): (r: nat)
    ensures r >= least
    ensures forall v <- vs | v in num :: num[v] <= r
    ensures r == least || exists v <- vs | v in num :: r == num[v]
  {
    if vs == [] then least
    else
      var r := HighestOf(num, vs[1..], least);
      assert forall v <- vs :: v == vs[0] || v in vs[1..];
      if vs[0] in num && num[vs[0]] > r then num[vs[0]] else r
  }

  function GroupNumber(g: seq<Def>, num: map<nat, nat>, c: nat): nat
    requires c < |g| && c in num
  {
    HighestOf(num, Members(g, c), num[c])
  }

  /** What a symbol leads to comes before it, and so do the other values and the choice of a value it
      leads to. */
  lemma {:induction false} LeadsBefore(g: seq<Def>, num: map<nat, nat>, p: seq<nat>)
    requires Linked(g) && Ordered(g, num) && Walk(g, p) && |p| > 1
    ensures p[0] in num && p[|p| - 1] < |g| && Before(g, num, p[|p| - 1], num[p[0]])
  {
    assert OrderedAt(g, num, p[0]) && p[1] in Uses(g, p[0]);
    if |p| > 2 {
      var q := p[1..];
      forall i | 0 <= i < |q| - 1 ensures q[i] < |g| && q[i + 1] in Uses(g, q[i]) {
        assert p[i + 1] < |g| && p[i + 2] in Uses(g, p[i + 1]);
      }
      LeadsBefore(g, num, q);
    }
  }

  /** A mention that is not bare, other than that of a value's own choice, leads to an earlier group. */
  lemma LateDrops(g: seq<Def>, num: map<nat, nat>, s: nat, t: nat)
    requires Linked(g) && Ordered(g, num) && s < |g| && t in Uses(g, s) && g[s].kind != ChoiceValue(t) && !Bare(g, s, t)
    ensures t < |g| && Rep(g, s) < |g| && Rep(g, t) < |g|
    ensures Rep(g, s) in num && Rep(g, t) in num && GroupNumber(g, num, Rep(g, t)) < GroupNumber(g, num, Rep(g, s))
  {
    assert LinkedAt(g, s) && OrderedAt(g, num, s);
    assert LinkedAt(g, t) && OrderedAt(g, num, t) && Before(g, num, t, num[s]);
    if g[s].kind.ChoiceValue? {
      assert LinkedAt(g, g[s].kind.choice) && OrderedAt(g, num, g[s].kind.choice);
    }
    if g[t].kind.ChoiceValue? {
      var c := g[t].kind.choice;
      assert LinkedAt(g, c) && OrderedAt(g, num, c);
      assert GroupNumber(g, num, c) < num[s];
    } else if g[t].kind.Choice? {
      assert Leads(g, s, t);
      var p :| |p| > 1 && p[0] == s && Walk(g, p) && p[|p| - 1] in g[t].kind.values;
      LeadsBefore(g, num, p);
      assert GroupNumber(g, num, t) < num[s];
    }
  }

  /** The cycles that pass the check unseen go through bare mentions. */
  lemma MissedCycle(g: seq<Def>, num: map<nat, nat>, p: seq<nat>)
    requires Linked(g) && Ordered(g, num) && Cycle(g, p)
    ensures BareStep(g, p)
  {
    if AllCovered(g, p) {
      StepDrops(g, num, p, |p| - 1);
      ChainDrops(g, num, p, |p| - 1);
    }
  }

  lemma NoCycle(g: seq<Def>, num: map<nat, nat>, p: seq<nat>)
    requires Linked(g) && Ordered(g, num) && Covered(g)
    ensures !Cycle(g, p)
  {
    if Cycle(g, p) {
      forall i | 0 <= i < |p| ensures CoveredAt(g, p, i) {
        assert i + 1 < |p| ==> GroupUses(g, p[i], p[i + 1]);
        UsesCovered(g, p[i], After(p, i));
      }
      MissedCycle(g, num, p);
    }
  }

  lemma PassedAll(g: seq<Def>, num: map<nat, nat>)
    requires Linked(g) && Ordered(g, num)
    ensures forall p | Cycle(g, p) :: BareStep(g, p)
    ensures Covered(g) ==> forall p :: !Cycle(g, p)
  {
    forall p | Cycle(g, p) ensures BareStep(g, p) { MissedCycle(g, num, p); }
    if Covered(g) {
      forall p ensures !Cycle(g, p) { NoCycle(g, num, p); }
    }
  }

  lemma UsesCovered(g: seq<Def>, a: nat, b: nat)
    requires Covered(g) && GroupUses(g, a, b)
    ensures CoveredUses(g, a, b)
  {
    var x: nat, y: nat :| UsesIn(g, x, y) && Rep(g, x) == a && Rep(g, y) == b;
    assert !Bare(g, x, y);
  }

  lemma GroupDrops(g: seq<Def>, num: map<nat, nat>, a: nat, b: nat)
    requires Linked(g) && Ordered(g, num) && CoveredUses(g, a, b)
    ensures a < |g| && b < |g| && a in num && b in num && GroupNumber(g, num, b) < GroupNumber(g, num, a)
  {
    var x: nat, y: nat :| UsesIn(g, x, y) && Rep(g, x) == a && Rep(g, y) == b && !Bare(g, x, y);
    LateDrops(g, num, x, y);
  }

  lemma StepDrops(g: seq<Def>, num: map<nat, nat>, p: seq<nat>, i: nat)
    requires Linked(g) && Ordered(g, num) && i < |p| && AllCovered(g, p)
    ensures p[i] < |g| && p[i] in num && After(p, i) < |g| && After(p, i) in num
    ensures GroupNumber(g, num, After(p, i)) < GroupNumber(g, num, p[i])
  {
    assert CoveredAt(g, p, i);
    GroupDrops(g, num, p[i], After(p, i));
  }

  ghost predicate NotAfter(g: seq<Def>, num: map<nat, nat>, a: nat, b: nat) {
    a < |g| && a in num && b < |g| && b in num && GroupNumber(g, num, a) <= GroupNumber(g, num, b)
  }

  lemma NotAfterTrans(g: seq<Def>, num: map<nat, nat>, a: nat, b: nat, c: nat)
    requires NotAfter(g, num, a, b) && NotAfter(g, num, b, c)
    ensures NotAfter(g, num, a, c)
  {
  }

  lemma {:induction false} ChainDrops(g: seq<Def>, num: map<nat, nat>, p: seq<nat>, n: nat)
    requires Linked(g) && Ordered(g, num) && n < |p| && p[0] < |g| && p[0] in num
    requires AllCovered(g, p)
    ensures NotAfter(g, num, p[n], p[0])
  {
    if n > 0 {
      ChainDrops(g, num, p, n - 1);
      NextNotAfter(g, num, p, n);
      NotAfterTrans(g, num, p[n], p[n - 1], p[0]);
    }
  }

  lemma NextNotAfter(g: seq<Def>, num: map<nat, nat>, p: seq<nat>, n: nat)
    requires Linked(g) && Ordered(g, num) && 0 < n < |p| && AllCovered(g, p)
    ensures NotAfter(g, num, p[n], p[n - 1])
  {
    StepDrops(g, num, p, n - 1);
    assert After(p, n - 1) == p[n];
  }

  // ----- an order of evaluation -----

  /** Some group of `R` mentions no other group of `R`: a trail through `R` without repetition that could
      always go on would outgrow `R`. */
  lemma {:induction false} Sink(g: seq<Def>, R: set<nat>, p: seq<nat>) returns (a: nat)
    requires (forall q :: !Cycle(g, q)) && p != [] && Chain(g, p) && (forall i <- p :: i in R) && NoRepeat(p)
    ensures a in R && forall b <- R :: !GroupUses(g, a, b)
    decreases |R| + 1 - |p|
  {
    a := p[|p| - 1];
    Fewer(R, p);
    if b :| b in R && GroupUses(g, a, b) {
      if b in p {
        ClosesChain(g, p, b);
      } else {
        LongerChain(g, p, b);
        a := Sink(g, R, p + [b]);
      }
    }
  }

  predicate NoRepeat(p: seq<nat>) { forall i, j | 0 <= i < j < |p| :: p[i] != p[j] }

  lemma ClosesChain(g: seq<Def>, p: seq<nat>, b: nat)
    requires p != [] && Chain(g, p) && b in p && GroupUses(g, p[|p| - 1], b)
    ensures exists q :: Cycle(g, q)
  {
    var j :| 0 <= j < |p| && p[j] == b;
    var q := p[j..];
    forall i | 0 <= i < |q| - 1 ensures GroupUses(g, q[i], q[i + 1]) {
      assert q[i] == p[j + i] && q[i + 1] == p[j + i + 1];
    }
    assert q[|q| - 1] == p[|p| - 1];
    assert Cycle(g, q);
  }

  lemma LongerChain(g: seq<Def>, p: seq<nat>, b: nat)
    requires p != [] && Chain(g, p) && GroupUses(g, p[|p| - 1], b)
    ensures Chain(g, p + [b])
  {
    var q := p + [b];
    forall i | 0 <= i < |q| - 1 ensures GroupUses(g, q[i], q[i + 1]) {
      if i < |p| - 1 { assert q[i] == p[i] && q[i + 1] == p[i + 1]; }
    }
  }

  lemma {:induction false} Fewer(R: set<nat>, p: seq<nat>)
    requires (forall i <- p :: i in R) && NoRepeat(p)
    ensures |p| <= |R|
  {
    if p != [] {
      var q := p[..|p| - 1];
      assert forall i <- q :: i in p && i != p[|p| - 1];
      Fewer(R - {p[|p| - 1]}, q);
    }
  }

  /** Without a cycle the groups can be numbered so that each comes after all it mentions. */
  lemma {:induction false} Topological(g: seq<Def>, R: set<nat>) returns (pos: map<nat, nat>)
    requires forall q :: !Cycle(g, q)
    ensures pos.Keys == R
    ensures forall a, b | a in R && b in R && GroupUses(g, a, b) :: pos[b] < pos[a]
  {
    if R == {} {
      pos := map[];
    } else {
      var r :| r in R;
      var a := Sink(g, R, [r]);
      var rest := Topological(g, R - {a});
      pos := map b | b in R :: if b == a then 0 else rest[b] + 1;
    }
  }

  ghost predicate Numbered(g: seq<Def>, pos: map<nat, nat>, rank: seq<nat>) {
    && Linked(g) && |rank| == |g| && (forall a: nat | a < |g| :: a in pos && Rep(g, a) in pos)
    && (forall a, b | a in pos && b in pos && GroupUses(g, a, b) :: pos[b] < pos[a])
    && forall i | 0 <= i < |g| :: rank[i] == 2 * pos[Rep(g, i)] + if g[i].kind.ChoiceValue? then 1 else 0
  }

  /** A graph without a cycle has an order of evaluation. */
  lemma AcyclicIsRanked(S: Setup) returns (rank: seq<nat>)
    requires WellFormed(S) && Linked(S.g) && !exists p :: Cycle(S.g, p)
    ensures Ranked(S, rank)
    ensures forall s | 0 <= s < |S.g| :: RankedAt(S, rank, s)
  {
    var g := S.g;
    var pos := Topological(g, Ids(|g|));
    forall i: nat | i < |g| ensures Rep(g, i) in pos { assert LinkedAt(g, i); }
    rank := seq(|g|, i requires 0 <= i < |g| => 2 * pos[Rep(g, i)] + if g[i].kind.ChoiceValue? then 1 else 0);
    assert Numbered(g, pos, rank);
    forall s | 0 <= s < |g| ensures RankedAt(S, rank, s) {
      RankedFromNumbers(S, pos, rank, s);
    }
  }

  /** A graph that passes the check without bare mentions has an order of evaluation. */
  lemma CheckedIsRanked(S: Setup, num: map<nat, nat>) returns (rank: seq<nat>)
    requires WellFormed(S) && Linked(S.g) && Ordered(S.g, num) && Covered(S.g)
    ensures Ranked(S, rank)
    ensures forall s | 0 <= s < |S.g| :: RankedAt(S, rank, s)
  {
    forall p ensures !Cycle(S.g, p) { NoCycle(S.g, num, p); }
    rank := AcyclicIsRanked(S);
  }

  /** Every expression of `s` mentions only earlier symbols, except that a value may mention its
      own choice. */
  ghost predicate AllEarlier(S: Setup, rank: seq<nat>, s: nat, r: nat, e: OptExpr)
    requires s < |S.g| == |rank| && r < |rank|
  {
    e.Some? ==> forall y <- Mentions(e.value) | y.Config? ::
      y.id < |rank| && (S.g[s].kind == ChoiceValue(y.id) || rank[y.id] < rank[r]) && rank[y.id] < rank[s]
  }

  lemma EarlierExpr(S: Setup, pos: map<nat, nat>, rank: seq<nat>, s: nat, e: OptExpr)
    requires Numbered(S.g, pos, rank) && s < |S.g| && (e.Some? ==> e.value in CheckedExprs(S.g[s]))
    ensures Rep(S.g, s) < |rank| && AllEarlier(S, rank, s, Rep(S.g, s), e)
  {
    var g := S.g;
    assert LinkedAt(g, s) && LinkedAt(g, Rep(g, s));
    if e.Some? {
      UsesOf(g, s, e.value);
      forall y <- Mentions(e.value) | y.Config?
        ensures y.id < |rank| && (g[s].kind == ChoiceValue(y.id) || rank[y.id] < rank[Rep(g, s)]) && rank[y.id] < rank[s]
      {
        assert y.id in Uses(g, s) && LinkedAt(g, y.id);
        if g[s].kind != ChoiceValue(y.id) {
          assert UsesIn(g, s, y.id);
          assert GroupUses(g, Rep(g, s), Rep(g, y.id));
        }
      }
    }
  }

  lemma RankedFromNumbers(S: Setup, pos: map<nat, nat>, rank: seq<nat>, s: nat)
    requires WellFormed(S) && Numbered(S.g, pos, rank) && s < |S.g|
    ensures RankedAt(S, rank, s)
  {
    var d, r := S.g[s], Rep(S.g, s);
    assert LinkedAt(S.g, s) && KindOk(S, s);
    EarlierExpr(S, pos, rank, s, None);
    PropertiesChecked(d);
    forall p <- d.prompts ensures AllEarlier(S, rank, s, r, p) { EarlierExpr(S, pos, rank, s, p); }
    EarlierExpr(S, pos, rank, s, d.dirDep);
    EarlierExpr(S, pos, rank, s, d.revDep);
    EarlierExpr(S, pos, rank, s, d.implied);
    DefaultsEarlier(S, pos, rank, s);
    if d.kind.ChoiceValue? {
      assert rank[r] < rank[s];
      forall p <- d.prompts ensures BelowOr(p, rank, rank[r], r) { assert AllEarlier(S, rank, s, r, p); }
    }
  }

  lemma PropertiesChecked(d: Def)
    ensures forall p <- d.prompts :: p.Some? ==> p.value in CheckedExprs(d)
    ensures !d.kind.Choice? ==> forall f <- d.defaults :: f.value in CheckedExprs(d) && (f.cond.Some? ==> f.cond.value in CheckedExprs(d))
    ensures d.kind.Choice? ==> forall p <- d.kind.picks :: p.cond.Some? ==> p.cond.value in CheckedExprs(d)
    ensures d.dirDep.Some? ==> d.dirDep.value in CheckedExprs(d)
    ensures d.revDep.Some? ==> d.revDep.value in CheckedExprs(d)
    ensures d.implied.Some? ==> d.implied.value in CheckedExprs(d)
  {
  }

  lemma DefaultsEarlier(S: Setup, pos: map<nat, nat>, rank: seq<nat>, s: nat)
    requires WellFormed(S) && Numbered(S.g, pos, rank) && s < |S.g|
    ensures forall f <- S.g[s].defaults :: Below(Some(f.value), rank, rank[s]) && Below(f.cond, rank, rank[s])
    ensures S.g[s].kind.Choice? ==> forall p <- S.g[s].kind.picks :: Below(p.cond, rank, rank[s])
  {
    var d, r := S.g[s], Rep(S.g, s);
    assert LinkedAt(S.g, s) && KindOk(S, s);
    PropertiesChecked(d);
    EarlierExpr(S, pos, rank, s, None);
    if d.kind.Choice? {
      forall p <- d.kind.picks ensures Below(p.cond, rank, rank[s]) { EarlierExpr(S, pos, rank, s, p.cond); }
    } else {
      forall f <- d.defaults ensures Below(Some(f.value), rank, rank[s]) && Below(f.cond, rank, rank[s]) {
        EarlierExpr(S, pos, rank, s, Some(f.value));
        EarlierExpr(S, pos, rank, s, f.cond);
      }
    }
  }
}
