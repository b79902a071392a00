/** What menu_finalize of scripts/config/menu.c does to the expressions hanging off the menu tree:
    the dependency of each node, the condition of each property, and what selects, implies and
    choices add to symbols. */
module MenuContent {
  import opened Tristates
  import opened Exprs
  import opened Simplify
  import opened Dups
  import opened MenuTrees
  import opened MenuDeps

  datatype PropKind = PromptProp | Select(target: nat) | Imply(target: nat) | OtherProp

  /** A property names the menu node it was written at. */
  datatype Prop = Prop(menu: nat, kind: PropKind)

  datatype SymDecl = SymDecl(typ: SymType, isChoice: bool, optional: bool, props: seq<nat>)

  /** What the parser fixed: the symbol and prompt of each node, the properties, the symbols. `closed` are
      choices that are mentioned nowhere, having no name, and share no entry with another choice; `home` is
      the closed choice a node was written inside. */
  datatype Decl = Decl(
    sym: seq<Option<nat>>,
    prompt: seq<Option<nat>>,
    text: seq<bool>,
    home: seq<Option<nat>>,
    props: seq<Prop>,
    syms: seq<SymDecl>,
    modules: Symbol,
    closed: set<nat>)

  datatype SymDeps = SymDeps(dirDep: OptExpr, revDep: OptExpr, implied: OptExpr, choiceVal: bool, values: seq<nat>)

  datatype Content = Content(dep: seq<OptExpr>, vis: seq<OptExpr>, syms: seq<SymDeps>)

  predicate IsChoiceNode(d: Decl, i: nat)
    requires i < |d.sym|
  {
    d.sym[i].Some? && d.sym[i].value < |d.syms| && d.syms[d.sym[i].value].isChoice
  }

  function SymOf(d: Decl, s: nat): Symbol
    requires s < |d.syms|
  {
    Config(s, d.syms[s].typ)
  }

  /** The properties menu_finalize looks at for one node. */
  function PropsOf(d: Decl, i: nat): seq<nat>
    requires i < |d.sym| == |d.prompt|
  {
    if d.sym[i].Some? && d.sym[i].value < |d.syms| then d.syms[d.sym[i].value].props
    else if d.prompt[i].Some? then [d.prompt[i].value] else []
  }

  ghost predicate PropOk(d: Decl, p: nat)
    requires p < |d.props| && |d.sym| == |d.prompt|
  {
    var i := d.props[p].menu;
    && i < |d.sym| && p in PropsOf(d, i)
    && (d.props[p].kind.Select? || d.props[p].kind.Imply? ==>
          d.props[p].kind.target < |d.syms| && d.sym[i].Some? && d.sym[i].value !in d.closed)
  }

  ghost predicate NodeOk(d: Decl, i: nat)
    requires i < |d.sym| == |d.prompt| == |d.text|
  {
    && (d.sym[i].Some? ==> d.sym[i].value < |d.syms|)
    && (d.prompt[i].Some? ==> d.prompt[i].value < |d.props| && d.props[d.prompt[i].value].menu == i)
    && (d.text[i] ==> d.prompt[i].Some?)
  }

  ghost predicate SymOk(d: Decl, s: nat)
    requires s < |d.syms|
  {
    NoDup(d.syms[s].props) && forall p <- d.syms[s].props :: p < |d.props| && OwnedBy(d, p, s)
  }

  predicate OwnedBy(d: Decl, p: nat, s: nat)
    requires p < |d.props|
  {
    d.props[p].menu < |d.sym| && d.sym[d.props[p].menu] == Some(s)
  }

  /** All nodes of a symbol have the same home, and no choice stands inside another. */
  ghost predicate HomeOk(d: Decl, i: nat)
    requires i < |d.sym| == |d.home|
  {
    && (d.home[i].Some? ==> d.home[i].value in d.closed && !IsChoiceNode(d, i))
    && (d.sym[i].Some? ==> forall j | 0 <= j < |d.sym| && d.sym[j] == d.sym[i] :: d.home[j] == d.home[i])
  }

  predicate ClosedOk(d: Decl) {
    (forall x <- d.closed :: x < |d.syms| && d.syms[x].isChoice) && (d.modules.Config? ==> d.modules.id !in d.closed)
  }

  ghost predicate DeclOk(d: Decl) {
    && |d.sym| == |d.prompt| == |d.text| == |d.home| && ClosedOk(d)
    && (forall i | 0 <= i < |d.sym| :: NodeOk(d, i) && HomeOk(d, i))
    && (forall p | 0 <= p < |d.props| :: PropOk(d, p))
    && (forall s | 0 <= s < |d.syms| :: SymOk(d, s))
  }

  /** `words` holds every symbol there is to mention. */
  ghost predicate WordsOk(d: Decl, words: set<Symbol>) {
    Complete(words, d.modules) && forall s | 0 <= s < |d.syms| :: SymOf(d, s) in words
  }

  ghost predicate AllKnown(es: seq<OptExpr>, words: set<Symbol>) { forall e <- es :: Known(e, words) }

  ghost predicate Fits(d: Decl, c: Content, words: set<Symbol>) {
    && |c.dep| == |d.sym| && |c.vis| == |d.props| && |c.syms| == |d.syms|
    && AllKnown(c.dep, words) && AllKnown(c.vis, words) && Housed(d, c)
  }

  // ----- who mentions a choice -----

  /** The expression mentions symbol `x`. */
  predicate Speaks(d: Decl, e: OptExpr, x: nat) { x < |d.syms| && SymOf(d, x) in MentionsOpt(e) }

  /** Closed choices are mentioned only in the dependencies of what was written inside them, */
  ghost predicate DepHoused(d: Decl, c: Content, i: nat)
    requires i < |c.dep|
  {
    forall x <- d.closed | Speaks(d, c.dep[i], x) :: i < |d.home| && d.home[i] == Some(x)
  }

  /** in the conditions of the properties there, */
  ghost predicate VisHoused(d: Decl, c: Content, p: nat)
    requires p < |c.vis| == |d.props|
  {
    forall x <- d.closed | Speaks(d, c.vis[p], x) :: d.props[p].menu < |c.dep| && Speaks(d, c.dep[d.props[p].menu], x)
  }

  /** and in what these add to symbols: their own dependency, and what they select or imply. */
  ghost predicate SymHoused(d: Decl, c: Content, s: nat)
    requires s < |c.syms|
  {
    VoicedIn(d, c, s, c.syms[s].dirDep) && VoicedIn(d, c, s, c.syms[s].revDep) && VoicedIn(d, c, s, c.syms[s].implied)
  }

  ghost predicate VoicedIn(d: Decl, c: Content, s: nat, e: OptExpr) {
    forall x <- d.closed | Speaks(d, e, x) :: Voiced(d, c, s, e, x)
  }

  /** Where `e`, an expression of symbol `s`, mentions the choice `x`, an entry of `x` is at work: `s` itself,
      or one that `e` mentions too. */
  ghost predicate Voiced(d: Decl, c: Content, s: nat, e: OptExpr, x: nat) { exists k: nat :: VoicedBy(d, c, s, e, x, k) }

  ghost predicate VoicedBy(d: Decl, c: Content, s: nat, e: OptExpr, x: nat, k: nat) {
    && k < |d.sym| && k < |d.home| && k < |c.dep| && d.sym[k].Some? && d.home[k] == Some(x) && Speaks(d, c.dep[k], x)
    && (d.sym[k].value == s || Speaks(d, e, d.sym[k].value))
  }

  /** A choice value is in the list of the choice its nodes stand in. */
  ghost predicate EntryHoused(d: Decl, c: Content, s: nat)
    requires s < |c.syms|
  {
    c.syms[s].choiceVal ==> forall i | 0 <= i < |d.sym| && d.sym[i] == Some(s) && i < |d.home| && d.home[i].Some? :: Listed(d, c, d.home[i].value, s)
  }

  predicate Listed(d: Decl, c: Content, x: nat, s: nat) { x < |c.syms| && s in c.syms[x].values }

  ghost predicate Housed(d: Decl, c: Content)
    requires |c.vis| == |d.props|
  {
    && (forall i | 0 <= i < |c.dep| :: DepHoused(d, c, i))
    && (forall p | 0 <= p < |c.vis| :: VisHoused(d, c, p))
    && (forall s | 0 <= s < |c.syms| :: SymHoused(d, c, s) && EntryHoused(d, c, s))
    && (forall x <- d.closed :: ListHoused(d, c, x))
  }

  /** The list of a closed choice holds only what was written inside it. */
  ghost predicate ListHoused(d: Decl, c: Content, x: nat) {
    x < |c.syms| ==> forall s <- c.syms[x].values :: EntrySymbol(d, s, x)
  }

  ghost predicate EntrySymbol(d: Decl, s: nat, x: nat) { exists j :: 0 <= j < |d.sym| && d.sym[j] == Some(s) && EntryOf(d, j, Some(x)) }

  /** Every entry of the choice `h` that `e` mentions is one `e` is about, or depends on. */
  ghost predicate FirmEntries(d: Decl, words: set<Symbol>, e: OptExpr, h: Option<nat>) {
    forall j | 0 <= j < |d.sym| && EntryOf(d, j, h) && Speaks(d, e, d.sym[j].value) :: FirmOpt(e, SymOf(d, d.sym[j].value), words)
  }

  predicate EntryOf(d: Decl, j: nat, h: Option<nat>) { h.Some? && j < |d.sym| && j < |d.home| && d.home[j] == h && d.sym[j].Some? }

  /** What was parsed at node `i`: no mention of a closed choice, and inside one an `if` mentions entries
      only in ways that matter to its value. */
  ghost predicate RawAt(d: Decl, words: set<Symbol>, c: Content, i: nat)
    requires i < |c.dep| == |d.sym| == |d.home| && |c.vis| == |d.props|
  {
    && Silent(d, c.dep[i]) && (forall p | 0 <= p < |d.props| && d.props[p].menu == i :: Silent(d, c.vis[p]))
    && (d.sym[i].None? ==> FirmEntries(d, words, Rewritten(c.dep[i], d.modules), d.home[i]))
  }

  ghost predicate Silent(d: Decl, e: OptExpr) { forall x <- d.closed :: !Speaks(d, e, x) }

  ghost predicate RawBelow(d: Decl, words: set<Symbol>, c: Content, f: Forest)
    requires |c.dep| == |d.sym| == |d.home| && |c.vis| == |d.props|
  {
    forall t <- f :: RawIn(d, words, c, Pre(t.kids))
  }

  ghost predicate RawIn(d: Decl, words: set<Symbol>, c: Content, ids: seq<nat>)
    requires |c.dep| == |d.sym| == |d.home| && |c.vis| == |d.props|
  {
    forall i <- ids :: i < |d.sym| && RawAt(d, words, c, i)
  }

  /** The home of what is written inside node `i`. */
  function HomeBelow(d: Decl, i: nat): Option<nat>
    requires i < |d.sym| == |d.home|
  {
    if !IsChoiceNode(d, i) then d.home[i] else if d.sym[i].value in d.closed then d.sym[i] else None
  }

  /** What nodes with home `h` are made to depend on mentions no other closed choice. */
  ghost predicate PassedOn(d: Decl, words: set<Symbol>, pd: OptExpr, h: Option<nat>) {
    (forall x <- d.closed | Speaks(d, pd, x) :: h == Some(x)) && FirmEntries(d, words, pd, h)
  }

  // ----- handing dependencies down -----

  /** What the children of node `i` are made to depend on: its own dependency, or the choice. */
  function ParentDep(d: Decl, c: Content, i: nat): OptExpr
    requires i < |d.sym| == |c.dep|
  {
    if IsChoiceNode(d, i) then Some(Sym(SymOf(d, d.sym[i].value))) else c.dep[i]
  }

  predicate IsValue(d: Decl, c: Content, i: nat)
    requires i < |d.sym| && |c.syms| == |d.syms|
  {
    d.sym[i].Some? && d.sym[i].value < |d.syms| && c.syms[d.sym[i].value].choiceVal
  }

  /** The dependency and the conditions of node `i` stayed, or it became a choice value and the dependency got narrower. */
  ghost predicate HeldAt(d: Decl, words: set<Symbol>, c0: Content, c1: Content, i: nat)
    requires i < |d.sym| == |c0.dep| == |c1.dep| && |c1.syms| == |d.syms|
  {
    && StaysAt(d, c0, c1, i)
    && forall v: Valuation | Sane(v, words) :: EvalOpt(c1.dep[i], v) <= EvalOpt(c0.dep[i], v)
  }

  /** The dependency of node `i` and the conditions of its properties stayed, or it is a choice value now. */
  ghost predicate StaysAt(d: Decl, c0: Content, c1: Content, i: nat)
    requires i < |d.sym| == |c0.dep| == |c1.dep| && |c1.syms| == |d.syms|
  {
    && (c1.dep[i] == c0.dep[i] || IsValue(d, c1, i)) && |c0.vis| == |c1.vis| == |d.props|
    && forall p | 0 <= p < |d.props| && d.props[p].menu == i :: c1.vis[p] == c0.vis[p] || IsValue(d, c1, i)
  }

  ghost predicate VisSameAt(d: Decl, c0: Content, c1: Content, i: nat) {
    |c0.vis| == |c1.vis| == |d.props| && forall p | 0 <= p < |d.props| && d.props[p].menu == i :: c1.vis[p] == c0.vis[p]
  }

  /** Node `i` got its own rewritten dependency and `pd`, and no more unless it is a choice value. */
  ghost predicate HandedAt(d: Decl, words: set<Symbol>, c0: Content, c1: Content, pd: OptExpr, i: nat)
    requires i < |d.sym| == |c0.dep| == |c1.dep| && |c1.syms| == |d.syms|
  {
    forall v: Valuation | Sane(v, words) ::
      var both := TriAnd(EvalOpt(pd, v), EvalOpt(RewriteMOpt(c0.dep[i], d.modules), v));
      EvalOpt(c1.dep[i], v) <= both && (!IsValue(d, c1, i) ==> EvalOpt(c1.dep[i], v) == both)
  }

  /** Nothing the dependency of node `i` or `pd` is firm about got lost on the way, nor was anything added. */
  ghost predicate CarriedAt(d: Decl, words: set<Symbol>, c0: Content, c1: Content, pd: OptExpr, i: nat)
    requires i < |d.sym| == |c0.dep| == |c1.dep| && |c1.syms| == |d.syms|
  {
    IsValue(d, c1, i) || Carried(c1.dep[i], pd, c0.dep[i], d.modules, words)
  }

  /** Every node of the forest got its own dependency and that of the node above it. */
  ghost predicate Handed(d: Decl, words: set<Symbol>, c0: Content, c1: Content, pd: OptExpr, f: Forest)
    requires |d.sym| == |c0.dep| == |c1.dep| && |c1.syms| == |d.syms|
    decreases f
  {
    forall t <- f :: t.id < |d.sym| && HandedAt(d, words, c0, c1, pd, t.id) && CarriedAt(d, words, c0, c1, pd, t.id)
                     && Handed(d, words, c0, c1, ParentDep(d, c1, t.id), t.kids)
  }

  /** The same below the roots of the forest, the roots themselves held. */
  ghost predicate HandedBelow(d: Decl, words: set<Symbol>, c0: Content, c1: Content, f: Forest)
    requires |d.sym| == |c0.dep| == |c1.dep| && |c1.syms| == |d.syms|
  {
    forall t <- f :: t.id < |d.sym| && HeldAt(d, words, c0, c1, t.id)
                     && Handed(d, words, c0, c1, ParentDep(d, c1, t.id), t.kids)
  }

  /** Only menus, ifs and choices are parsed with entries inside them. */
  ghost predicate Parsed(d: Decl, f: Forest) {
    forall t <- f :: t.id < |d.sym| && EntriesOk(d, t) && Parsed(d, t.kids)
  }

  /** Inside a choice there are only symbols, comments and ifs, and these have no prompt. If some choice
      is closed, all choices without entries are. */
  ghost predicate EntriesOk(d: Decl, t: Tree)
    requires t.id < |d.sym|
  {
    && |d.sym| == |d.home| == |d.prompt| && AtHome(d, t.kids, HomeBelow(d, t.id))
    && (t.kids != [] && d.sym[t.id].Some? ==> IsChoiceNode(d, t.id))
    && (t.kids != [] && d.home[t.id].Some? ==> d.prompt[t.id].None?)
    && (IsChoiceNode(d, t.id) ==> NoChoice(d, Pre(t.kids)) && (t.kids == [] && d.closed != {} ==> d.sym[t.id].value in d.closed))
  }

  predicate NoChoice(d: Decl, ids: seq<nat>) { forall i <- ids :: i < |d.sym| && !IsChoiceNode(d, i) }

  predicate AtHome(d: Decl, f: Forest, h: Option<nat>) { forall t <- f :: t.id < |d.home| && d.home[t.id] == h }

  /** Everything inside a choice has the same home. */
  lemma {:induction false} HomesBelow(d: Decl, f: Forest, h: Option<nat>)
    requires DeclOk(d) && Parsed(d, f) && AtHome(d, f, h) && (h.Some? || NoChoice(d, Pre(f)))
    ensures forall i <- Pre(f) :: i < |d.sym| && d.home[i] == h
    decreases f
  {
    if f != [] {
      PreHead(f);
      assert EntriesOk(d, f[0]) && HomeOk(d, f[0].id) && f[0].id in Pre(f);
      HomesBelow(d, f[0].kids, h);
      HomesBelow(d, f[1..], h);
    }
  }

  /** Choice values stay, and nothing is taken out of a direct dependency or the list of a choice. */
  ghost predicate Grown(c0: Content, c1: Content) {
    |c0.syms| == |c1.syms| && forall s | 0 <= s < |c0.syms| :: SymGrown(c0.syms[s], c1.syms[s])
  }

  ghost predicate SymGrown(a: SymDeps, b: SymDeps) {
    && (a.choiceVal ==> b.choiceVal) && MentionsOpt(a.dirDep) <= MentionsOpt(b.dirDep) && Raised(a.dirDep, b.dirDep)
    && (forall s <- a.values :: s in b.values) && Raised(a.revDep, b.revDep) && Raised(a.implied, b.implied)
  }

  /** A missing reverse dependency is worth n. */
  function RevTri(e: OptExpr, v: Valuation): Tri { if e.None? then NO else Eval(e.value, v) }

  ghost predicate Raised(a: OptExpr, b: OptExpr) { forall v: Valuation :: RevTri(a, v) <= RevTri(b, v) }

  /** The dependency of node `i` stayed, or it became a choice value; no mention was lost, and no condition got
      wider. */
  ghost predicate SaidAt(d: Decl, c0: Content, c1: Content, i: nat)
    requires i < |d.sym| == |c0.dep| == |c1.dep| && |c1.syms| == |d.syms| && |c0.vis| == |c1.vis| == |d.props|
  {
    && (c1.dep[i] == c0.dep[i] || IsValue(d, c1, i)) && MentionsOpt(c0.dep[i]) <= MentionsOpt(c1.dep[i])
    && forall p | 0 <= p < |d.props| && d.props[p].menu == i ::
         MentionsOpt(c0.vis[p]) <= MentionsOpt(c1.vis[p]) && forall v: Valuation :: EvalOpt(c1.vis[p], v) <= EvalOpt(c0.vis[p], v)
  }

  /** A choice that is not optional is at least m while its prompt is shown. */
  ghost predicate MinimumAt(d: Decl, c: Content, i: nat)
    requires |c.vis| == |d.props| && |c.syms| == |d.syms|
  {
    i < |d.sym| && i < |d.prompt| && d.sym[i].Some? && d.sym[i].value < |d.syms| && !d.syms[d.sym[i].value].optional
    && d.prompt[i].Some? && d.prompt[i].value < |d.props| ==>
      forall v: Valuation :: TriAnd(EvalOpt(c.vis[d.prompt[i].value], v), MOD) <= RevTri(c.syms[d.sym[i].value].revDep, v)
  }

  lemma MinimumHeld(d: Decl, c0: Content, c1: Content, i: nat)
    requires DeclOk(d) && |d.sym| == |c0.dep| == |c1.dep| && |c0.syms| == |c1.syms| == |d.syms| && |c0.vis| == |c1.vis| == |d.props|
    requires i < |d.sym| && SaidAt(d, c0, c1, i) && Grown(c0, c1) && MinimumAt(d, c0, i)
    ensures MinimumAt(d, c1, i)
  {
    assert NodeOk(d, i);
    if d.sym[i].Some? && d.prompt[i].Some? {
      var s, p := d.sym[i].value, d.prompt[i].value;
      assert SymGrown(c0.syms[s], c1.syms[s]);
      forall v: Valuation ensures RevTri(c0.syms[s].revDep, v) <= RevTri(c1.syms[s].revDep, v) && EvalOpt(c1.vis[p], v) <= EvalOpt(c0.vis[p], v) {
        assert Raised(c0.syms[s].revDep, c1.syms[s].revDep);
      }
    }
  }

  ghost predicate Said(d: Decl, c0: Content, c1: Content, ids: seq<nat>)
    requires |d.sym| == |c0.dep| == |c1.dep| && |c1.syms| == |d.syms| && |c0.vis| == |c1.vis| == |d.props|
  {
    forall i <- ids | i < |d.sym| :: SaidAt(d, c0, c1, i)
  }

  ghost predicate SameDeps(c0: Content, c1: Content, ids: seq<nat>) {
    |c0.dep| == |c1.dep| && forall i <- ids :: i < |c0.dep| ==> c1.dep[i] == c0.dep[i]
  }

  ghost predicate Held(d: Decl, words: set<Symbol>, c0: Content, c1: Content, ids: seq<nat>)
    requires |d.sym| == |c0.dep| == |c1.dep| && |c1.syms| == |d.syms|
  {
    forall i <- ids :: i < |d.sym| ==> HeldAt(d, words, c0, c1, i)
  }

  lemma HandedAtHeld(d: Decl, words: set<Symbol>, c0: Content, c1: Content, c2: Content, pd: OptExpr, i: nat)
    requires i < |d.sym| == |c0.dep| == |c1.dep| == |c2.dep| && |c1.syms| == |d.syms| == |c2.syms|
    requires HandedAt(d, words, c0, c1, pd, i) && CarriedAt(d, words, c0, c1, pd, i) && HeldAt(d, words, c1, c2, i) && Grown(c1, c2)
    ensures HandedAt(d, words, c0, c2, pd, i) && CarriedAt(d, words, c0, c2, pd, i)
  {
  }

  /** What was handed down stays handed down while the nodes are held. */
  lemma {:induction false} HandedHeld(d: Decl, words: set<Symbol>, c0: Content, c0': Content, c1: Content, c2: Content, pd: OptExpr, f: Forest)
    requires |d.sym| == |c0.dep| == |c0'.dep| == |c1.dep| == |c2.dep| && |c1.syms| == |d.syms| == |c2.syms|
    requires Handed(d, words, c0, c1, pd, f) && SameDeps(c0, c0', Pre(f)) && Held(d, words, c1, c2, Pre(f)) && Grown(c1, c2)
    requires Parsed(d, f)
    ensures Handed(d, words, c0', c2, pd, f)
    decreases f
  {
    forall t <- f
      ensures HandedAt(d, words, c0', c2, pd, t.id) && CarriedAt(d, words, c0', c2, pd, t.id)
      ensures Handed(d, words, c0', c2, ParentDep(d, c2, t.id), t.kids)
    {
      KidsIn(f, t);
      HandedAtHeld(d, words, c0, c1, c2, pd, t.id);
      assert c0'.dep[t.id] == c0.dep[t.id];
      if t.kids != [] {
        HandedHeld(d, words, c0, c0', c1, c2, ParentDep(d, c1, t.id), t.kids);
        assert ParentDep(d, c1, t.id) == ParentDep(d, c2, t.id);
      }
    }
  }

  lemma HeldTrans(d: Decl, words: set<Symbol>, c0: Content, c1: Content, c2: Content, i: nat)
    requires i < |d.sym| == |c0.dep| == |c1.dep| == |c2.dep| && |c1.syms| == |d.syms| == |c2.syms|
    requires HeldAt(d, words, c0, c1, i) && HeldAt(d, words, c1, c2, i) && Grown(c1, c2)
    ensures HeldAt(d, words, c0, c2, i)
  {
    forall v: Valuation | Sane(v, words) ensures EvalOpt(c2.dep[i], v) <= EvalOpt(c0.dep[i], v) {
      assert EvalOpt(c1.dep[i], v) <= EvalOpt(c0.dep[i], v);
    }
  }

  lemma HandedBelowHeld(d: Decl, words: set<Symbol>, c0: Content, c0': Content, c1: Content, c2: Content, f: Forest)
    requires |d.sym| == |c0.dep| == |c0'.dep| == |c1.dep| == |c2.dep| && |c1.syms| == |d.syms| == |c2.syms|
    requires HandedBelow(d, words, c0, c1, f) && SameDeps(c0, c0', Pre(f)) && Held(d, words, c1, c2, Pre(f)) && Grown(c1, c2)
    requires Parsed(d, f) && forall t <- f :: VisSameAt(d, c0, c0', t.id)
    ensures HandedBelow(d, words, c0', c2, f)
  {
    forall t <- f
      ensures HeldAt(d, words, c0', c2, t.id) && Handed(d, words, c0', c2, ParentDep(d, c2, t.id), t.kids)
    {
      KidsIn(f, t);
      HeldTrans(d, words, c0, c1, c2, t.id);
      if t.kids != [] {
        HandedHeld(d, words, c0, c0', c1, c2, ParentDep(d, c1, t.id), t.kids);
        assert ParentDep(d, c1, t.id) == ParentDep(d, c2, t.id);
      }
    }
  }

  /** Passing on to the roots, then finalising each of them. */
  lemma PassedThenBelow(d: Decl, words: set<Symbol>, c0: Content, c1: Content, c2: Content, pd: OptExpr, f: Forest)
    requires |d.sym| == |c0.dep| == |c1.dep| == |c2.dep| && |c1.syms| == |d.syms| == |c2.syms| && Grown(c1, c2)
    requires forall t <- f :: t.id < |d.sym| && HandedAt(d, words, c0, c1, pd, t.id) && CarriedAt(d, words, c0, c1, pd, t.id)
    requires forall t <- f :: SameDeps(c0, c1, Pre(t.kids))
    requires HandedBelow(d, words, c1, c2, f) && Parsed(d, f)
    ensures Handed(d, words, c0, c2, pd, f)
  {
    forall t <- f
      ensures HandedAt(d, words, c0, c2, pd, t.id) && CarriedAt(d, words, c0, c2, pd, t.id)
      ensures Handed(d, words, c0, c2, ParentDep(d, c2, t.id), t.kids)
    {
      PassedTree(d, words, c0, c1, c2, pd, t);
    }
  }

  lemma PassedTree(d: Decl, words: set<Symbol>, c0: Content, c1: Content, c2: Content, pd: OptExpr, t: Tree)
    requires |d.sym| == |c0.dep| == |c1.dep| == |c2.dep| && |c1.syms| == |d.syms| == |c2.syms| && Grown(c1, c2) && t.id < |d.sym|
    requires HandedAt(d, words, c0, c1, pd, t.id) && CarriedAt(d, words, c0, c1, pd, t.id) && SameDeps(c0, c1, Pre(t.kids))
    requires HeldAt(d, words, c1, c2, t.id) && Handed(d, words, c1, c2, ParentDep(d, c2, t.id), t.kids) && Parsed(d, t.kids)
    ensures HandedAt(d, words, c0, c2, pd, t.id) && CarriedAt(d, words, c0, c2, pd, t.id)
    ensures Handed(d, words, c0, c2, ParentDep(d, c2, t.id), t.kids)
  {
    HandedAtHeld(d, words, c0, c1, c2, pd, t.id);
    HandedHeld(d, words, c1, c0, c2, c2, ParentDep(d, c2, t.id), t.kids);
  }

  // ----- the conditions of properties, and direct dependencies -----

  /** Every property written at node `i` is n wherever the dependency of the node is. */
  ghost predicate GuardedAt(d: Decl, words: set<Symbol>, c: Content, i: nat)
    requires i < |d.sym| == |c.dep| && |c.vis| == |d.props|
  {
    && TameNots(c.dep[i]) && (forall p | 0 <= p < |d.props| && d.props[p].menu == i :: Under(c.vis[p], c.dep[i], words))
    && FirmAt(d, words, c, i) && FedAt(d, words, c, i)
  }

  /** What is selected or implied at node `i` got at least the value of the symbol there, as far as the condition
      allows. */
  ghost predicate FedAt(d: Decl, words: set<Symbol>, c: Content, i: nat)
    requires i < |d.sym| && |c.vis| == |d.props|
  {
    forall p | 0 <= p < |d.props| && d.props[p].menu == i :: Fed(d, words, c, i, p)
  }

  ghost predicate Fed(d: Decl, words: set<Symbol>, c: Content, i: nat, p: nat)
    requires i < |d.sym| && p < |c.vis| == |d.props|
  {
    var kind := d.props[p].kind;
    kind.Select? || kind.Imply? ==>
      && kind.target < |c.syms| && d.sym[i].Some? && d.sym[i].value < |d.syms|
      && forall v: Valuation | Sane(v, words) ::
           TriAnd(TriValue(v, SymOf(d, d.sym[i].value)), EvalOpt(c.vis[p], v)) <= RevTri(FedBy(c.syms[kind.target], kind), v)
  }

  /** Where selects and where implies are collected. */
  function FedBy(s: SymDeps, kind: PropKind): OptExpr { if kind.Imply? then s.implied else s.revDep }

  ghost predicate FirmAt(d: Decl, words: set<Symbol>, c: Content, i: nat)
    requires i < |d.sym| == |c.dep|
  {
    d.sym[i].None? && i < |d.home| ==> FirmEntries(d, words, c.dep[i], d.home[i])
  }

  /** The symbol of node `i` is a config symbol defined nowhere else. */
  ghost predicate Sole(d: Decl, i: nat)
    requires i < |d.sym|
  {
    && d.sym[i].Some? && d.sym[i].value < |d.syms| && !d.syms[d.sym[i].value].isChoice
    && forall j | 0 <= j < |d.sym| :: d.sym[j] == d.sym[i] ==> j == i
  }

  ghost predicate FreshAt(d: Decl, c: Content, i: nat)
    requires |c.syms| == |d.syms|
  {
    i < |d.sym| && (Sole(d, i) ==> c.syms[d.sym[i].value].dirDep.None?)
  }

  /** The direct dependency of a symbol defined at one place is that of its node. */
  ghost predicate DirAt(d: Decl, c: Content, i: nat)
    requires i < |d.sym| == |c.dep| && |c.syms| == |d.syms|
  {
    && (Sole(d, i) ==> IsValue(d, c, i) || c.syms[d.sym[i].value].dirDep == c.dep[i])
    && DirSays(d, c, i) && DirFed(d, c, i)
  }

  /** The direct dependency of a symbol defined at several places is at least that of each of its nodes. */
  ghost predicate DirFed(d: Decl, c: Content, i: nat)
    requires i < |d.sym| == |c.dep| && |c.syms| == |d.syms|
  {
    d.sym[i].Some? && d.sym[i].value < |d.syms| && !d.syms[d.sym[i].value].isChoice ==>
      IsValue(d, c, i) || Raised(c.dep[i], c.syms[d.sym[i].value].dirDep)
  }

  /** The direct dependency of an entry of a choice mentions all that the dependency of its node does. */
  ghost predicate DirSays(d: Decl, c: Content, i: nat)
    requires i < |d.sym| == |c.dep| && |c.syms| == |d.syms|
  {
    i < |d.home| && d.home[i].Some? && d.sym[i].Some? && d.sym[i].value < |d.syms| ==>
      IsValue(d, c, i) || MentionsOpt(c.dep[i]) <= MentionsOpt(c.syms[d.sym[i].value].dirDep)
  }

  ghost predicate SettledAt(d: Decl, words: set<Symbol>, c: Content, i: nat)
    requires |d.sym| == |c.dep| && |c.vis| == |d.props| && |c.syms| == |d.syms|
  {
    i < |d.sym| && GuardedAt(d, words, c, i) && DirAt(d, c, i)
  }

  // ----- frames -----

  /** Dependencies and conditions changed only at `nodes`. */
  ghost predicate NodesSame(d: Decl, c0: Content, c1: Content, nodes: seq<nat>) {
    && |c0.dep| == |c1.dep| && |c0.vis| == |c1.vis| == |d.props|
    && (forall i | 0 <= i < |c0.dep| && i !in nodes :: c1.dep[i] == c0.dep[i])
    && (forall p | 0 <= p < |d.props| && d.props[p].menu !in nodes :: c1.vis[p] == c0.vis[p])
  }

  ghost predicate Owned(d: Decl, s: nat, nodes: seq<nat>) {
    exists i <- nodes :: i < |d.sym| && d.sym[i] == Some(s)
  }

  /** Direct dependencies changed only for the symbols of `nodes`. */
  ghost predicate OwnersSame(d: Decl, c0: Content, c1: Content, nodes: seq<nat>) {
    && |c0.syms| == |c1.syms| && Grown(c0, c1)
    && forall s | 0 <= s < |c0.syms| && !Owned(d, s, nodes) :: c1.syms[s].dirDep == c0.syms[s].dirDep
  }

  ghost predicate Framed(d: Decl, c0: Content, c1: Content, nodes: seq<nat>, owners: seq<nat>) {
    NodesSame(d, c0, c1, nodes) && OwnersSame(d, c0, c1, owners) && Lifted(d, c0, c1, nodes, owners)
  }

  // ----- what selects, implies and minima may add -----

  /** What property `p` adds to the target of its select or imply: the symbol it is written at, under its condition;
      for a choice value, whose conditions may have been narrowed since, the symbol. */
  function Given(d: Decl, c: Content, p: nat, v: Valuation): Tri
    requires p < |d.props| == |c.vis| && |c.syms| == |d.syms|
  {
    var i := d.props[p].menu;
    if i < |d.sym| && d.sym[i].Some? && d.sym[i].value < |d.syms| then
      var x := TriValue(v, SymOf(d, d.sym[i].value));
      if IsValue(d, c, i) then x else TriAnd(x, EvalOpt(c.vis[p], v))
    else NO
  }

  /** The minimum of a choice `s` that is not optional: m, under the condition of its prompt at node `i`. */
  function Least(d: Decl, c: Content, i: nat, s: nat, v: Valuation): Tri {
    if i < |d.sym| && i < |d.prompt| && d.sym[i] == Some(s) && s < |d.syms| && !d.syms[s].optional
       && d.prompt[i].Some? && d.prompt[i].value < |c.vis|
    then TriAnd(EvalOpt(c.vis[d.prompt[i].value], v), MOD) else NO
  }

  /** Neither what `nodes` select or imply as `kind` says nor a minimum added at `owners` is above `x`. */
  ghost predicate AtMost(d: Decl, c: Content, nodes: seq<nat>, owners: seq<nat>, kind: PropKind, v: Valuation, x: Tri)
    requires |c.vis| == |d.props| && |c.syms| == |d.syms|
  {
    && (forall p | 0 <= p < |d.props| && d.props[p].menu in nodes && d.props[p].kind == kind :: Given(d, c, p, v) <= x)
    && (kind.Select? ==> forall i <- owners :: Least(d, c, i, kind.target, v) <= x)
  }

  /** Of reverse and implied dependencies nothing else came in; those of choice values are never read. */
  ghost predicate Lifted(d: Decl, c0: Content, c1: Content, nodes: seq<nat>, owners: seq<nat>) {
    && |c0.syms| == |c1.syms| == |d.syms| && |c1.vis| == |d.props|
    && forall s | 0 <= s < |d.syms| :: LiftedAt(d, c0, c1, nodes, owners, s)
  }

  ghost predicate LiftedAt(d: Decl, c0: Content, c1: Content, nodes: seq<nat>, owners: seq<nat>, s: nat)
    requires |c1.vis| == |d.props| && |c0.syms| == |c1.syms| == |d.syms| && s < |d.syms|
  {
    !c1.syms[s].choiceVal ==>
      LiftedBy(d, c0, c1, nodes, owners, Select(s)) && LiftedBy(d, c0, c1, nodes, owners, Imply(s)) && DirLifted(d, c0, c1, owners, s)
  }

  /** Nothing but the dependencies of the nodes of `s` came into its direct dependency. */
  ghost predicate DirLifted(d: Decl, c0: Content, c1: Content, owners: seq<nat>, s: nat)
    requires |c0.syms| == |c1.syms| == |d.syms| && s < |d.syms|
  {
    forall v: Valuation, x: Tri | RevTri(c0.syms[s].dirDep, v) <= x && DepsAtMost(d, c1, owners, s, v, x) ::
      RevTri(c1.syms[s].dirDep, v) <= x
  }

  ghost predicate DepsAtMost(d: Decl, c: Content, owners: seq<nat>, s: nat, v: Valuation, x: Tri) {
    forall i <- owners :: NodeDep(d, c, i, s, v) <= x
  }

  /** The dependency of a node of `s`; a missing one adds nothing, as in expr_alloc_or. */
  function NodeDep(d: Decl, c: Content, i: nat, s: nat, v: Valuation): Tri {
    if i < |d.sym| && d.sym[i] == Some(s) && i < |c.dep| then RevTri(c.dep[i], v) else NO
  }

  ghost predicate LiftedBy(d: Decl, c0: Content, c1: Content, nodes: seq<nat>, owners: seq<nat>, kind: PropKind)
    requires |c1.vis| == |d.props| && |c0.syms| == |c1.syms| == |d.syms| && (kind.Select? || kind.Imply?) && kind.target < |d.syms|
  {
    forall v: Valuation, x: Tri | RevTri(FedBy(c0.syms[kind.target], kind), v) <= x && AtMost(d, c1, nodes, owners, kind, v, x) ::
      RevTri(FedBy(c1.syms[kind.target], kind), v) <= x
  }

  ghost predicate Stays(d: Decl, c0: Content, c1: Content, ids: seq<nat>)
    requires |d.sym| == |c0.dep| == |c1.dep| && |c1.syms| == |d.syms|
  {
    forall i <- ids | i < |d.sym| :: StaysAt(d, c0, c1, i)
  }

  lemma LiftedTrans(d: Decl, c0: Content, c1: Content, c2: Content, n1: seq<nat>, o1: seq<nat>, n2: seq<nat>, o2: seq<nat>,
                    n: seq<nat>, o: seq<nat>)
    requires DeclOk(d) && Lifted(d, c0, c1, n1, o1) && Lifted(d, c1, c2, n2, o2) && Grown(c1, c2)
    requires |d.sym| == |c1.dep| == |c2.dep|
    requires Stays(d, c1, c2, n1) && Stays(d, c1, c2, o1)
    requires (forall i <- n1 :: i in n) && (forall i <- n2 :: i in n)
    requires (forall i <- o1 :: i in o) && (forall i <- o2 :: i in o)
    ensures Lifted(d, c0, c2, n, o)
  {
    forall s | 0 <= s < |d.syms| && !c2.syms[s].choiceVal ensures DirLifted(d, c0, c2, o, s) {
      DirLiftedTrans(d, c0, c1, c2, n1, o1, n2, o2, o, s);
    }
    forall s, kind: PropKind | 0 <= s < |d.syms| && !c2.syms[s].choiceVal && (kind == Select(s) || kind == Imply(s))
      ensures LiftedBy(d, c0, c2, n, o, kind)
    {
      assert SymGrown(c1.syms[s], c2.syms[s]);
      assert LiftedAt(d, c0, c1, n1, o1, s) && LiftedAt(d, c1, c2, n2, o2, s);
      forall v: Valuation, x: Tri | RevTri(FedBy(c0.syms[s], kind), v) <= x && AtMost(d, c2, n, o, kind, v, x)
        ensures RevTri(FedBy(c2.syms[s], kind), v) <= x
      {
        AtMostBefore(d, c1, c2, n1, o1, n, o, kind, v, x);
        assert AtMost(d, c2, n2, o2, kind, v, x);
      }
    }
  }

  lemma DirLiftedTrans(d: Decl, c0: Content, c1: Content, c2: Content, n1: seq<nat>, o1: seq<nat>, n2: seq<nat>, o2: seq<nat>,
                       o: seq<nat>, s: nat)
    requires Lifted(d, c0, c1, n1, o1) && Lifted(d, c1, c2, n2, o2) && Grown(c1, c2) && s < |d.syms| && !c2.syms[s].choiceVal
    requires |d.sym| == |c1.dep| == |c2.dep| && Stays(d, c1, c2, o1) && (forall i <- o1 :: i in o) && (forall i <- o2 :: i in o)
    ensures DirLifted(d, c0, c2, o, s)
  {
    assert SymGrown(c1.syms[s], c2.syms[s]) && LiftedAt(d, c0, c1, n1, o1, s) && LiftedAt(d, c1, c2, n2, o2, s);
    forall v: Valuation, x: Tri | RevTri(c0.syms[s].dirDep, v) <= x && DepsAtMost(d, c2, o, s, v, x)
      ensures RevTri(c2.syms[s].dirDep, v) <= x
    {
      forall i <- o1 ensures NodeDep(d, c1, i, s, v) <= x { assert NodeDep(d, c2, i, s, v) <= x; }
      assert DepsAtMost(d, c1, o1, s, v, x) && DepsAtMost(d, c2, o2, s, v, x);
    }
  }

  lemma AtMostBefore(d: Decl, c1: Content, c2: Content, n1: seq<nat>, o1: seq<nat>, n: seq<nat>, o: seq<nat>,
                     kind: PropKind, v: Valuation, x: Tri)
    requires DeclOk(d) && |c1.vis| == |c2.vis| == |d.props| && |c1.syms| == |c2.syms| == |d.syms| && Grown(c1, c2)
    requires |d.sym| == |c1.dep| == |c2.dep|
    requires Stays(d, c1, c2, n1) && Stays(d, c1, c2, o1) && (forall i <- n1 :: i in n) && (forall i <- o1 :: i in o)
    requires (kind.Select? || kind.Imply?) && kind.target < |d.syms| && !c2.syms[kind.target].choiceVal
    requires AtMost(d, c2, n, o, kind, v, x)
    ensures AtMost(d, c1, n1, o1, kind, v, x)
  {
    forall p | 0 <= p < |d.props| && d.props[p].menu in n1 && d.props[p].kind == kind ensures Given(d, c1, p, v) <= x {
      GivenHeld(d, c1, c2, p, v);
      assert Given(d, c2, p, v) <= x;
    }
    if kind.Select? {
      forall i <- o1 ensures Least(d, c1, i, kind.target, v) <= x {
        LeastHeld(d, c1, c2, i, kind.target, v);
        assert Least(d, c2, i, kind.target, v) <= x;
      }
    }
  }

  lemma GivenHeld(d: Decl, c1: Content, c2: Content, p: nat, v: Valuation)
    requires |c1.vis| == |c2.vis| == |d.props| && |c1.syms| == |c2.syms| == |d.syms| && Grown(c1, c2) && p < |d.props|
    requires |d.sym| == |c1.dep| == |c2.dep|
    requires d.props[p].menu < |d.sym| ==> StaysAt(d, c1, c2, d.props[p].menu)
    ensures Given(d, c1, p, v) <= Given(d, c2, p, v)
  {
    var i := d.props[p].menu;
    if i < |d.sym| && d.sym[i].Some? && d.sym[i].value < |d.syms| {
      assert SymGrown(c1.syms[d.sym[i].value], c2.syms[d.sym[i].value]);
    }
  }

  lemma LeastHeld(d: Decl, c1: Content, c2: Content, i: nat, s: nat, v: Valuation)
    requires DeclOk(d) && |c1.vis| == |c2.vis| == |d.props| && |c2.syms| == |d.syms| && s < |d.syms| && !c2.syms[s].choiceVal
    requires |d.sym| == |c1.dep| == |c2.dep|
    requires i < |d.sym| ==> StaysAt(d, c1, c2, i)
    ensures Least(d, c1, i, s, v) == Least(d, c2, i, s, v)
  {
    if i < |d.sym| { assert NodeOk(d, i); }
  }

  lemma FramedTrans(d: Decl, c0: Content, c1: Content, c2: Content, n1: seq<nat>, o1: seq<nat>, n2: seq<nat>, o2: seq<nat>,
                    n: seq<nat>, o: seq<nat>)
    requires DeclOk(d) && |c0.dep| == |d.sym|
    requires Framed(d, c0, c1, n1, o1) && Framed(d, c1, c2, n2, o2) && Stays(d, c1, c2, n1) && Stays(d, c1, c2, o1)
    requires (forall i <- n1 :: i in n) && (forall i <- n2 :: i in n)
    requires (forall i <- o1 :: i in o) && (forall i <- o2 :: i in o)
    ensures Framed(d, c0, c2, n, o)
  {
    LiftedTrans(d, c0, c1, c2, n1, o1, n2, o2, n, o);
    forall s | 0 <= s < |c0.syms| && !Owned(d, s, o) ensures c2.syms[s].dirDep == c0.syms[s].dirDep {
      assert !Owned(d, s, o1) && !Owned(d, s, o2);
    }
  }

  /** A settled node stays settled when other nodes are worked on. */
  lemma SettledFramed(d: Decl, words: set<Symbol>, c0: Content, c1: Content, nodes: seq<nat>, owners: seq<nat>, i: nat)
    requires |d.sym| == |c0.dep| && |c0.vis| == |d.props| && |c0.syms| == |d.syms|
    requires SettledAt(d, words, c0, i) && Framed(d, c0, c1, nodes, owners) && i !in nodes && i !in owners
    ensures SettledAt(d, words, c1, i)
  {
    if Sole(d, i) {
      var s := d.sym[i].value;
      assert !Owned(d, s, owners);
    }
  }

  lemma FreshFramed(d: Decl, c0: Content, c1: Content, owners: seq<nat>, i: nat)
    requires |c0.syms| == |d.syms| && FreshAt(d, c0, i) && OwnersSame(d, c0, c1, owners) && i !in owners
    ensures FreshAt(d, c1, i)
  {
    if Sole(d, i) {
      var s := d.sym[i].value;
      assert !Owned(d, s, owners);
    }
  }

  // ----- passing on to one child -----

  /** The condition of a property at a node with dependency `base`. */
  ghost predicate Conditioned(d: Decl, words: set<Symbol>, i: nat, base: OptExpr, own: OptExpr, r: OptExpr)
    requires i < |d.sym|
  {
    && Known(r, words) && JoinedBool(r, base, own, d.modules, words)
    && MentionsOpt(r) <= MentionsOpt(base) + MentionsOpt(own) + {d.modules, SymYes, SymMod, SymNo}
    && (!MadeBool(d, i) ==> Joined(r, base, own, d.modules, words)) && (MadeBool(d, i) && r.Some? ==> NoNeNo(r.value))
  }

  predicate MadeBool(d: Decl, i: nat)
    requires i < |d.sym|
  {
    d.sym[i].Some? && d.sym[i].value < |d.syms| && d.syms[d.sym[i].value].typ != TristateType
  }

  /** The properties among `done` that belong to node `i` are conditioned, the others as before. */
  ghost predicate VisDone(d: Decl, words: set<Symbol>, i: nat, base: OptExpr, v0: seq<OptExpr>, v1: seq<OptExpr>, done: seq<nat>)
    requires i < |d.sym|
  {
    && |v0| == |v1| == |d.props| && AllKnown(v1, words)
    && forall p | 0 <= p < |d.props| ::
         if p in done && d.props[p].menu == i then Conditioned(d, words, i, base, v0[p], v1[p]) else v1[p] == v0[p]
  }

  lemma VisNext(d: Decl, words: set<Symbol>, i: nat, base: OptExpr, v0: seq<OptExpr>, v1: seq<OptExpr>, done: seq<nat>, p: nat, r: OptExpr)
    requires i < |d.sym| && VisDone(d, words, i, base, v0, v1, done) && p < |d.props| && p !in done
    requires if d.props[p].menu == i then Conditioned(d, words, i, base, v0[p], r) && Known(r, words) else r == v1[p]
    ensures VisDone(d, words, i, base, v0, v1[p := r], done + [p])
  {
    forall e <- v1[p := r] ensures Known(e, words) {
      if e in v1 {}
    }
  }

  lemma ConditionedIsUnder(d: Decl, words: set<Symbol>, i: nat, base: OptExpr, own: OptExpr, r: OptExpr)
    requires i < |d.sym| && Conditioned(d, words, i, base, own, r)
    ensures Under(r, base, words)
  {
  }

  predicate InProps(d: Decl, ps: seq<nat>) { forall k | 0 <= k < |ps| :: ps[k] < |d.props| }

  /** The selects and implies among `ps` that belong to node `i`, entered in turn at their targets. */
  function Entered(d: Decl, i: nat, ps: seq<nat>, vis: seq<OptExpr>, syms: seq<SymDeps>): (r: seq<SymDeps>)
    requires DeclOk(d) && i < |d.sym| && |vis| == |d.props| && |syms| == |d.syms|
    requires InProps(d, ps)
    ensures |r| == |syms|
    ensures forall s | 0 <= s < |syms| :: r[s].dirDep == syms[s].dirDep && r[s].choiceVal == syms[s].choiceVal && r[s].values == syms[s].values
  {
    if ps == [] then syms
    else
      var p := ps[|ps| - 1];
      var r := Entered(d, i, ps[..|ps| - 1], vis, syms);
      assert PropOk(d, p) && NodeOk(d, i);
      if d.props[p].menu == i then EnterOne(d, i, d.props[p].kind, vis[p], r) else r
  }

  function EnterOne(d: Decl, i: nat, kind: PropKind, vis: OptExpr, syms: seq<SymDeps>): (r: seq<SymDeps>)
    requires i < |d.sym| && |syms| == |d.syms|
    requires kind.Select? || kind.Imply? ==> kind.target < |d.syms| && d.sym[i].Some? && d.sym[i].value < |d.syms|
    ensures |r| == |syms|
    ensures forall s | 0 <= s < |syms| :: r[s].dirDep == syms[s].dirDep && r[s].choiceVal == syms[s].choiceVal && r[s].values == syms[s].values
  {
    match kind
    case Select(t) =>
      syms[t := syms[t].(revDep := AllocOr(syms[t].revDep, AllocAnd(Some(Sym(SymOf(d, d.sym[i].value))), vis)))]
    case Imply(t) =>
      syms[t := syms[t].(implied := AllocOr(syms[t].implied, AllocAnd(Some(Sym(SymOf(d, d.sym[i].value))), vis)))]
    case _ => syms
  }

  /** What the properties `ps` of node `i` add to the target of `kind`, a select or an imply. */
  function SelectTri(d: Decl, i: nat, ps: seq<nat>, vis: seq<OptExpr>, kind: PropKind, v: Valuation): Tri
    requires i < |d.sym| && |vis| == |d.props| && InProps(d, ps)
  {
    if ps == [] then NO
    else
      var p := ps[|ps| - 1];
      var rest := SelectTri(d, i, ps[..|ps| - 1], vis, kind, v);
      if d.props[p].menu == i && d.props[p].kind == kind && d.sym[i].Some? && d.sym[i].value < |d.syms|
      then TriOr(rest, TriAnd(TriValue(v, SymOf(d, d.sym[i].value)), EvalOpt(vis[p], v)))
      else rest
  }

  /** A select raises its target to the value of the selecting symbol under the condition; selects
      add up, and touch nothing but their targets. Implies likewise. */
  lemma {:induction false} EnteredMeaning(d: Decl, i: nat, ps: seq<nat>, vis: seq<OptExpr>, syms: seq<SymDeps>, kind: PropKind, v: Valuation)
    requires DeclOk(d) && i < |d.sym| && |vis| == |d.props| && |syms| == |d.syms|
    requires (kind.Select? || kind.Imply?) && kind.target < |syms| && InProps(d, ps)
    ensures RevTri(FedBy(Entered(d, i, ps, vis, syms)[kind.target], kind), v)
         == TriOr(RevTri(FedBy(syms[kind.target], kind), v), SelectTri(d, i, ps, vis, kind, v))
  {
    if ps != [] {
      var p := ps[|ps| - 1];
      EnteredMeaning(d, i, ps[..|ps| - 1], vis, syms, kind, v);
      assert PropOk(d, p) && NodeOk(d, i);
      if d.props[p].menu == i {
        EnterOneMeaning(d, i, d.props[p].kind, vis[p], Entered(d, i, ps[..|ps| - 1], vis, syms), kind, v);
      }
    }
  }

  lemma EnterOneMeaning(d: Decl, i: nat, entered: PropKind, vis: OptExpr, syms: seq<SymDeps>, kind: PropKind, v: Valuation)
    requires i < |d.sym| && |syms| == |d.syms| && (kind.Select? || kind.Imply?) && kind.target < |syms|
    requires entered.Select? || entered.Imply? ==> entered.target < |d.syms| && d.sym[i].Some? && d.sym[i].value < |d.syms|
    ensures RevTri(FedBy(EnterOne(d, i, entered, vis, syms)[kind.target], kind), v)
         == (if entered == kind
             then TriOr(RevTri(FedBy(syms[kind.target], kind), v), TriAnd(TriValue(v, SymOf(d, d.sym[i].value)), EvalOpt(vis, v)))
             else RevTri(FedBy(syms[kind.target], kind), v))
  {
    if entered == kind {
      var x := Sym(SymOf(d, d.sym[i].value));
      var both := AllocAnd(Some(x), vis);
      assert Eval(both.value, v) == TriAnd(Eval(x, v), EvalOpt(vis, v));
      OrRaises(FedBy(syms[kind.target], kind), both, v);
    }
  }

  lemma OrRaises(e: OptExpr, more: OptExpr, v: Valuation)
    ensures RevTri(AllocOr(e, more), v) == TriOr(RevTri(e, v), RevTri(more, v))
  {
  }

  /** Each of the properties counts. */
  lemma {:induction false} SelectCounts(d: Decl, i: nat, ps: seq<nat>, vis: seq<OptExpr>, p: nat, v: Valuation)
    requires i < |d.sym| && |vis| == |d.props| && InProps(d, ps) && p in ps && d.props[p].menu == i
    requires d.sym[i].Some? && d.sym[i].value < |d.syms|
    ensures TriAnd(TriValue(v, SymOf(d, d.sym[i].value)), EvalOpt(vis[p], v)) <= SelectTri(d, i, ps, vis, d.props[p].kind, v)
  {
    if p != ps[|ps| - 1] { SelectCounts(d, i, ps[..|ps| - 1], vis, p, v); }
  }

  /** What is entered is what the properties give. */
  lemma {:induction false} SelectWithin(d: Decl, c: Content, i: nat, ps: seq<nat>, kind: PropKind, v: Valuation, x: Tri)
    requires i < |d.sym| && |c.vis| == |d.props| && |c.syms| == |d.syms| && InProps(d, ps) && AtMost(d, c, [i], [], kind, v, x)
    ensures SelectTri(d, i, ps, c.vis, kind, v) <= x
  {
    if ps != [] {
      SelectWithin(d, c, i, ps[..|ps| - 1], kind, v, x);
      var p := ps[|ps| - 1];
      assert d.props[p].menu == i && d.props[p].kind == kind ==> Given(d, c, p, v) <= x;
    }
  }

  /** Entering the properties of a node raises reverse and implied dependencies by what these give and no more. */
  lemma EnteredLifts(d: Decl, c0: Content, c: Content, i: nat)
    requires DeclOk(d) && i < |d.sym| && |c.vis| == |d.props| && |c0.syms| == |d.syms| && InProps(d, PropsOf(d, i))
    requires c.syms == Entered(d, i, PropsOf(d, i), c.vis, c0.syms)
    ensures Lifted(d, c0, c, [i], [])
  {
    var ps := PropsOf(d, i);
    forall s, kind: PropKind | 0 <= s < |d.syms| && (kind == Select(s) || kind == Imply(s)) ensures LiftedBy(d, c0, c, [i], [], kind) {
      forall v: Valuation, x: Tri | RevTri(FedBy(c0.syms[s], kind), v) <= x && AtMost(d, c, [i], [], kind, v, x)
        ensures RevTri(FedBy(c.syms[s], kind), v) <= x
      {
        EnteredMeaning(d, i, ps, c.vis, c0.syms, kind, v);
        SelectWithin(d, c, i, ps, kind, v, x);
      }
    }
  }

  /** After its properties are entered, a node has fed all that it selects and implies, and nothing was lowered. */
  lemma EnteredFeeds(d: Decl, words: set<Symbol>, c0: Content, c: Content, i: nat)
    requires DeclOk(d) && i < |d.sym| && |c.vis| == |d.props| && |c0.syms| == |d.syms| && InProps(d, PropsOf(d, i))
    requires c.syms == Entered(d, i, PropsOf(d, i), c.vis, c0.syms)
    ensures FedAt(d, words, c, i)
    ensures forall s | 0 <= s < |c0.syms| :: Raised(c0.syms[s].revDep, c.syms[s].revDep) && Raised(c0.syms[s].implied, c.syms[s].implied)
  {
    var ps := PropsOf(d, i);
    forall p | 0 <= p < |d.props| && d.props[p].menu == i ensures Fed(d, words, c, i, p) {
      var kind := d.props[p].kind;
      assert PropOk(d, p) && NodeOk(d, i);
      if kind.Select? || kind.Imply? {
        forall v: Valuation | Sane(v, words)
          ensures TriAnd(TriValue(v, SymOf(d, d.sym[i].value)), EvalOpt(c.vis[p], v)) <= RevTri(FedBy(c.syms[kind.target], kind), v)
        {
          EnteredMeaning(d, i, ps, c.vis, c0.syms, kind, v);
          SelectCounts(d, i, ps, c.vis, p, v);
        }
      }
    }
    forall s | 0 <= s < |c0.syms|
      ensures Raised(c0.syms[s].revDep, c.syms[s].revDep) && Raised(c0.syms[s].implied, c.syms[s].implied)
    {
      forall v: Valuation
        ensures RevTri(c0.syms[s].revDep, v) <= RevTri(c.syms[s].revDep, v) && RevTri(c0.syms[s].implied, v) <= RevTri(c.syms[s].implied, v)
      {
        EnteredMeaning(d, i, ps, c.vis, c0.syms, Select(s), v);
        EnteredMeaning(d, i, ps, c.vis, c0.syms, Imply(s), v);
      }
    }
  }

  // ----- choice values -----

  /** menu_finalize meets node `i` in the list of the choice node `m`. */
  function MarkValue(d: Decl, c: Content, m: nat, i: nat): Content
    requires DeclOk(d) && m < |d.sym| && i < |d.sym| && |c.dep| == |d.sym| && |c.vis| == |d.props| && |c.syms| == |d.syms|
  {
    if !IsChoiceNode(d, m) || d.sym[i].None? || d.sym[i].value >= |d.syms| || c.syms[d.sym[i].value].choiceVal then c
    else
      var ch, s := d.sym[m].value, d.sym[i].value;
      var c1 := if d.syms[ch].typ == TristateType && d.syms[s].typ != TristateType
                then Narrowed(d, c, IsYes(d, ch), i) else c;
      Listing(c1, ch, s)
  }

  /** The dependency and the properties of node `i` under one more condition. */
  function Narrowed(d: Decl, c: Content, base: Expr, i: nat): Content
    requires i < |d.sym| == |c.dep| && |c.vis| == |d.props|
  {
    c.(dep := c.dep[i := AllocAnd(Some(base), c.dep[i])],
       vis := seq(|c.vis|, p requires 0 <= p < |c.vis| =>
                if d.props[p].menu == i then AllocAnd(Some(base), c.vis[p]) else c.vis[p]))
  }

  /** What the list loop may do to the contents. */
  ghost predicate Marked(d: Decl, words: set<Symbol>, c0: Content, c1: Content, ids: seq<nat>)
    requires |d.sym| == |c0.dep| && |c0.vis| == |d.props| && |c0.syms| == |d.syms|
  {
    && Fits(d, c1, words) && Framed(d, c0, c1, ids, []) && Held(d, words, c0, c1, ids) && Said(d, c0, c1, ids)
    && forall i <- ids :: SettledAt(d, words, c0, i) ==> SettledAt(d, words, c1, i)
  }

  lemma MarkNarrows(d: Decl, words: set<Symbol>, c: Content, ch: nat, i: nat)
    requires DeclOk(d) && WordsOk(d, words) && Fits(d, c, words) && i < |d.sym| && ch < |d.syms| && d.sym[i].Some?
    requires ch in d.closed ==> d.home[i] == Some(ch)
    ensures var c1 := Narrowed(d, c, IsYes(d, ch), i);
      && Fits(d, c1, words) && NodesSame(d, c, c1, [i]) && c1.syms == c.syms
      && (GuardedAt(d, words, c, i) ==> GuardedAt(d, words, c1, i))
      && forall v: Valuation | Sane(v, words) :: EvalOpt(c1.dep[i], v) <= EvalOpt(c.dep[i], v)
  {
    var c1 := Narrowed(d, c, IsYes(d, ch), i);
    assert AllKnown(c1.vis, words) by {
      forall p | 0 <= p < |c1.vis| ensures Known(c1.vis[p], words) {
        assert c.vis[p] in c.vis;
      }
    }
    assert AllKnown(c1.dep, words) by {
      forall j | 0 <= j < |c1.dep| ensures Known(c1.dep[j], words) {
        assert c.dep[j] in c.dep;
      }
    }
    NarrowedHoused(d, words, c, ch, i);
    if GuardedAt(d, words, c, i) {
      forall p | 0 <= p < |d.props| && d.props[p].menu == i ensures Under(c1.vis[p], c1.dep[i], words) {
        assert Under(c.vis[p], c.dep[i], words);
      }
    }
  }

  /** The comparison of a choice with y. */
  function IsYes(d: Decl, ch: nat): Expr
    requires ch < |d.syms|
  {
    Cmp(Eq, SymOf(d, ch), SymYes)
  }

  lemma AndMentions(x: OptExpr, y: OptExpr)
    ensures MentionsOpt(AllocAnd(x, y)) == MentionsOpt(x) + MentionsOpt(y)
    ensures MentionsOpt(AllocOr(x, y)) == MentionsOpt(x) + MentionsOpt(y)
  {
  }

  lemma NarrowedHoused(d: Decl, words: set<Symbol>, c: Content, ch: nat, i: nat)
    requires DeclOk(d) && Fits(d, c, words) && i < |d.sym| && ch < |d.syms|
    requires ch in d.closed ==> d.home[i] == Some(ch)
    ensures Housed(d, Narrowed(d, c, IsYes(d, ch), i))
  {
    var base := IsYes(d, ch);
    var c1 := Narrowed(d, c, base, i);
    AndMentions(Some(base), c.dep[i]);
    forall j | 0 <= j < |c1.dep| ensures DepHoused(d, c1, j) { assert DepHoused(d, c, j); }
    forall p | 0 <= p < |c1.vis| ensures VisHoused(d, c1, p) {
      AndMentions(Some(base), c.vis[p]);
      assert VisHoused(d, c, p) && PropOk(d, p);
    }
    forall s | 0 <= s < |c1.syms| ensures SymHoused(d, c1, s) && EntryHoused(d, c1, s) {
      assert SymHoused(d, c, s) && EntryHoused(d, c, s);
      VoicedLater(d, c, c1, s, c.syms[s].dirDep, c.syms[s].dirDep);
      VoicedLater(d, c, c1, s, c.syms[s].revDep, c.syms[s].revDep);
      VoicedLater(d, c, c1, s, c.syms[s].implied, c.syms[s].implied);
    }
    forall x <- d.closed ensures ListHoused(d, c1, x) { assert ListHoused(d, c, x); }
  }

  /** What is at work stays at work while dependencies and the expression grow. */
  lemma VoicedLater(d: Decl, c0: Content, c1: Content, s: nat, e0: OptExpr, e1: OptExpr)
    requires VoicedIn(d, c0, s, e0) && MentionsOpt(e0) <= MentionsOpt(e1)
    requires |c0.dep| == |c1.dep|
    requires forall i | 0 <= i < |c0.dep| :: forall x <- d.closed | Speaks(d, c0.dep[i], x) :: Speaks(d, c1.dep[i], x)
    ensures forall x <- d.closed | Speaks(d, e0, x) :: Voiced(d, c1, s, e1, x)
  {
    forall x <- d.closed | Speaks(d, e0, x) ensures Voiced(d, c1, s, e1, x) {
      assert Voiced(d, c0, s, e0, x);
      var k: nat :| VoicedBy(d, c0, s, e0, x, k);
      assert VoicedBy(d, c1, s, e1, x, k);
    }
  }

  /** Marking a choice value whose nodes all stand in that choice. */
  lemma MarkedHoused(d: Decl, words: set<Symbol>, c: Content, ch: nat, i: nat)
    requires DeclOk(d) && Fits(d, c, words) && i < |d.sym| && ch < |d.syms| && d.sym[i].Some? && d.sym[i].value < |d.syms|
    requires (d.home[i].Some? ==> d.home[i] == Some(ch)) && (ch in d.closed ==> d.home[i] == Some(ch))
    ensures Housed(d, Listing(c, ch, d.sym[i].value))
  {
    var s := d.sym[i].value;
    var c1 := Listing(c, ch, s);
    forall j | 0 <= j < |c1.dep| ensures DepHoused(d, c1, j) { assert DepHoused(d, c, j); }
    forall p | 0 <= p < |c1.vis| ensures VisHoused(d, c1, p) { assert VisHoused(d, c, p); }
    forall r | 0 <= r < |c1.syms| ensures SymHoused(d, c1, r) && EntryHoused(d, c1, r) {
      assert SymHoused(d, c, r) && EntryHoused(d, c, r) && HomeOk(d, i);
      VoicedLater(d, c, c1, r, c.syms[r].dirDep, c.syms[r].dirDep);
      VoicedLater(d, c, c1, r, c.syms[r].revDep, c.syms[r].revDep);
      VoicedLater(d, c, c1, r, c.syms[r].implied, c.syms[r].implied);
    }
    forall x <- d.closed ensures ListHoused(d, c1, x) {
      assert ListHoused(d, c, x);
      assert x == ch ==> EntryOf(d, i, Some(x));
    }
  }

  function Listing(c: Content, ch: nat, s: nat): Content
    requires ch < |c.syms| && s < |c.syms|
  {
    var c1 := c.(syms := c.syms[s := c.syms[s].(choiceVal := true)]);
    c1.(syms := c1.syms[ch := c1.syms[ch].(values := c1.syms[ch].values + [s])])
  }

  lemma MarkMarks(d: Decl, words: set<Symbol>, c: Content, m: nat, i: nat)
    requires DeclOk(d) && WordsOk(d, words) && Fits(d, c, words) && m < |d.sym| && i < |d.sym|
    requires IsChoiceNode(d, m) ==> d.home[i] == HomeBelow(d, m)
    ensures Marked(d, words, c, MarkValue(d, c, m, i), [i])
    ensures IsChoiceNode(d, m) && d.sym[i].Some? ==> IsValue(d, MarkValue(d, c, m, i), i)
  {
    assert NodeOk(d, m) && NodeOk(d, i);
    MarkSays(d, c, m, i);
    if IsChoiceNode(d, m) && d.sym[i].Some? && !c.syms[d.sym[i].value].choiceVal { MarkNew(d, words, c, m, i); }
  }

  /** Marking puts the symbol in the list of the choice and, if the choice is tristate and the symbol is not, makes the
      node and its properties depend on the choice being y, and on nothing else. */
  lemma MarkMeaning(d: Decl, c: Content, m: nat, i: nat, v: Valuation)
    requires DeclOk(d) && m < |d.sym| && i < |d.sym| && |c.dep| == |d.sym| && |c.vis| == |d.props| && |c.syms| == |d.syms|
    requires IsChoiceNode(d, m) && d.sym[i].Some? && d.sym[i].value < |d.syms| && !c.syms[d.sym[i].value].choiceVal
    requires d.sym[m] != d.sym[i] && Typed(v) && SymOf(d, d.sym[m].value).IsTri()
    ensures var ch, s, c1 := d.sym[m].value, d.sym[i].value, MarkValue(d, c, m, i);
      var gate := if d.syms[ch].typ == TristateType && d.syms[s].typ != TristateType && v.tri(SymOf(d, ch)) != YES then NO else YES;
      && c1.syms[s].choiceVal && c1.syms[ch].values == c.syms[ch].values + [s]
      && EvalOpt(c1.dep[i], v) == TriAnd(gate, EvalOpt(c.dep[i], v))
      && forall p | 0 <= p < |d.props| && d.props[p].menu == i :: EvalOpt(c1.vis[p], v) == TriAnd(gate, EvalOpt(c.vis[p], v))
  {
    var ch := d.sym[m].value;
    CompareConst(v, SymOf(d, ch), SymYes);
    assert Eval(IsYes(d, ch), v) == OfBool(v.tri(SymOf(d, ch)) == YES);
    AndGate(IsYes(d, ch), c.dep[i], v);
    forall p | 0 <= p < |d.props| ensures EvalOpt(AllocAnd(Some(IsYes(d, ch)), c.vis[p]), v) == TriAnd(Eval(IsYes(d, ch), v), EvalOpt(c.vis[p], v)) {
      AndGate(IsYes(d, ch), c.vis[p], v);
    }
  }

  lemma AndGate(x: Expr, y: OptExpr, v: Valuation)
    ensures EvalOpt(AllocAnd(Some(x), y), v) == TriAnd(Eval(x, v), EvalOpt(y, v))
  {
  }

  lemma MarkNew(d: Decl, words: set<Symbol>, c: Content, m: nat, i: nat)
    requires DeclOk(d) && WordsOk(d, words) && Fits(d, c, words) && m < |d.sym| && i < |d.sym|
    requires IsChoiceNode(d, m) && d.home[i] == HomeBelow(d, m) && d.sym[i].Some? && d.sym[i].value < |d.syms|
    requires !c.syms[d.sym[i].value].choiceVal
    ensures var c1 := MarkValue(d, c, m, i);
      && Fits(d, c1, words) && Framed(d, c, c1, [i], []) && Held(d, words, c, c1, [i]) && IsValue(d, c1, i)
      && (SettledAt(d, words, c, i) ==> SettledAt(d, words, c1, i))
  {
    var ch, c1 := d.sym[m].value, MarkValue(d, c, m, i);
    assert HomeOk(d, i);
    MarkNarrows(d, words, c, ch, i);
    MarkListed(d, words, c, if c1.dep == c.dep && c1.vis == c.vis then c else Narrowed(d, c, IsYes(d, ch), i), ch, i);
  }

  /** The narrowed contents `n`, and the value put in the list of its choice. */
  lemma MarkListed(d: Decl, words: set<Symbol>, c: Content, n: Content, ch: nat, i: nat)
    requires DeclOk(d) && Fits(d, c, words) && Fits(d, n, words) && i < |d.sym| && ch < |d.syms| && d.sym[i].Some? && d.sym[i].value < |d.syms|
    requires (d.home[i].Some? ==> d.home[i] == Some(ch)) && (ch in d.closed ==> d.home[i] == Some(ch))
    requires NodesSame(d, c, n, [i]) && n.syms == c.syms && (GuardedAt(d, words, c, i) ==> GuardedAt(d, words, n, i))
    requires forall v: Valuation | Sane(v, words) :: EvalOpt(n.dep[i], v) <= EvalOpt(c.dep[i], v)
    ensures var c1 := Listing(n, ch, d.sym[i].value);
      && Fits(d, c1, words) && Framed(d, c, c1, [i], []) && Held(d, words, c, c1, [i])
      && (SettledAt(d, words, c, i) ==> SettledAt(d, words, c1, i))
  {
    var s := d.sym[i].value;
    MarkedHoused(d, words, n, ch, i);
    ListingFrames(d, c, n, ch, s, i);
    ListingHolds(d, words, c, n, ch, s, i);
    ListingSettles(d, words, c, n, ch, s, i);
  }

  lemma ListingFrames(d: Decl, c: Content, n: Content, ch: nat, s: nat, i: nat)
    requires NodesSame(d, c, n, [i]) && n.syms == c.syms && ch < |c.syms| == |d.syms| && s < |c.syms|
    ensures Framed(d, c, Listing(n, ch, s), [i], [])
  {
  }

  lemma ListingHolds(d: Decl, words: set<Symbol>, c: Content, n: Content, ch: nat, s: nat, i: nat)
    requires i < |d.sym| == |c.dep| == |n.dep| && |n.syms| == |d.syms| && ch < |d.syms| && s < |d.syms| && d.sym[i] == Some(s)
    requires |c.vis| == |n.vis| == |d.props|
    requires forall v: Valuation | Sane(v, words) :: EvalOpt(n.dep[i], v) <= EvalOpt(c.dep[i], v)
    ensures Held(d, words, c, Listing(n, ch, s), [i])
  {
    assert HeldAt(d, words, c, Listing(n, ch, s), i);
  }

  lemma ListingSettles(d: Decl, words: set<Symbol>, c: Content, n: Content, ch: nat, s: nat, i: nat)
    requires |d.sym| == |c.dep| == |n.dep| && |c.vis| == |n.vis| == |d.props| && |c.syms| == |d.syms| && n.syms == c.syms
    requires ch < |d.syms| && s < |d.syms| && i < |d.sym| && d.sym[i] == Some(s)
    requires GuardedAt(d, words, c, i) ==> GuardedAt(d, words, n, i)
    ensures SettledAt(d, words, c, i) ==> SettledAt(d, words, Listing(n, ch, s), i)
  {
  }

  lemma MarkSays(d: Decl, c: Content, m: nat, i: nat)
    requires DeclOk(d) && m < |d.sym| && i < |d.sym| && |c.dep| == |d.sym| && |c.vis| == |d.props| && |c.syms| == |d.syms|
    ensures SaidAt(d, c, MarkValue(d, c, m, i), i)
  {
    if d.sym[m].Some? && d.sym[m].value < |d.syms| {
      var base := IsYes(d, d.sym[m].value);
      AndMentions(Some(base), c.dep[i]);
      forall p | 0 <= p < |d.props|
        ensures MentionsOpt(c.vis[p]) <= MentionsOpt(AllocAnd(Some(base), c.vis[p]))
        ensures forall v: Valuation :: EvalOpt(AllocAnd(Some(base), c.vis[p]), v) <= EvalOpt(c.vis[p], v)
      {
        AndMentions(Some(base), c.vis[p]);
      }
    }
  }

  lemma MarkedTrans(d: Decl, words: set<Symbol>, c0: Content, c1: Content, c2: Content, a: seq<nat>, b: seq<nat>)
    requires DeclOk(d) && Fits(d, c0, words) && Marked(d, words, c0, c1, a) && Marked(d, words, c1, c2, b) && forall i <- a :: i !in b
    ensures Marked(d, words, c0, c2, a + b)
  {
    forall i <- a | i < |d.sym| ensures StaysAt(d, c1, c2, i) { HeldSame(d, words, c1, c2, i, b); }
    FramedTrans(d, c0, c1, c2, a, [], b, [], a + b, []);
    forall i <- a + b ensures i < |d.sym| ==> HeldAt(d, words, c0, c2, i)
                      ensures SettledAt(d, words, c0, i) ==> SettledAt(d, words, c2, i)
    {
      if i in a {
        assert i !in b;
        if SettledAt(d, words, c1, i) { SettledFramed(d, words, c1, c2, b, [], i); }
        if i < |d.sym| { HeldSame(d, words, c1, c2, i, b); HeldTrans(d, words, c0, c1, c2, i); }
      } else {
        if SettledAt(d, words, c0, i) { SettledFramed(d, words, c0, c1, a, [], i); }
        if i < |d.sym| { HeldSame(d, words, c0, c1, i, a); HeldTrans(d, words, c0, c1, c2, i); }
      }
    }
  }

  lemma HeldSame(d: Decl, words: set<Symbol>, c0: Content, c1: Content, i: nat, nodes: seq<nat>)
    requires i < |d.sym| == |c0.dep| && |c1.syms| == |d.syms| && NodesSame(d, c0, c1, nodes) && i !in nodes
    ensures HeldAt(d, words, c0, c1, i)
  {
  }
}
