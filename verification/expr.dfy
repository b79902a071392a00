/** Three-valued dependency expressions of scripts/config: the values, the trees, and
    what a tree means under an assignment of values to symbols. */
module Tristates {
  /** The C enumeration `no, mod, yes`; the order of the numbers matters. */
  type Tri = t: int | 0 <= t <= 2

  const NO: Tri := 0
  const MOD: Tri := 1
  const YES: Tri := 2

  function TriAnd(a: Tri, b: Tri): Tri { if a < b then a else b }

  function TriOr(a: Tri, b: Tri): Tri { if a > b then a else b }

  function TriNot(a: Tri): Tri { 2 - a }

  function OfBool(b: bool): Tri { if b then YES else NO }

  datatype Option<+T> = None | Some(value: T)
}

module Exprs {
  import opened Tristates

  datatype SymType = UnknownType | BooleanType | TristateType | IntType | HexType | StringType

  /** A symbol is a pointer in the source: two symbols are the same when they are equal here.
      SymYes, SymMod and SymNo are symbol_yes, symbol_mod and symbol_no; Const is any other
      symbol with SYMBOL_CONST set (a quoted word or a number). */
  datatype Symbol =
    | SymYes
    | SymMod
    | SymNo
    | Const(text: string)
    | Config(id: nat, typ: SymType)
  {
    function Type(): SymType {
      if Config? then typ else UnknownType
    }

    predicate IsConst() { !Config? }

    predicate IsYN() { this == SymYes || this == SymNo }

    predicate IsYMN() { this == SymYes || this == SymMod || this == SymNo }

    predicate IsTri() { Type() == BooleanType || Type() == TristateType }
  }

  datatype CmpOp = Eq | Ne | Lt | Le | Gt | Ge

  datatype Op = AND | OR

  /** Bin(AND, ..) is E_AND and Bin(OR, ..) is E_OR. */
  datatype Expr =
    | Sym(sym: Symbol)
    | Not(arg: Expr)
    | Bin(op: Op, left: Expr, right: Expr)
    | Cmp(cmp: CmpOp, a: Symbol, b: Symbol)

  predicate IsOp(e: Expr, op: Op) { e.Bin? && e.op == op }

  function Size(e: Expr): nat {
    match e
    case Sym(_) => 1
    case Cmp(_, _, _) => 1
    case Not(x) => 1 + Size(x)
    case Bin(_, l, r) => 1 + Size(l) + Size(r)
  }

  // ----- meaning -----

  /** What strtoll/strtoull make of a text that is wholly a number. */
  datatype Number = Signed(s: int) | Unsigned(u: nat)

  /** One assignment of values. `number` is the numeral reader of expr_parse_string for the
      types that are not bool or tristate; it is a parameter because it depends on nothing
      but the text and the type. */
  datatype Valuation = Valuation(
    tri: Symbol -> Tri,
    text: Symbol -> string,
    modules: bool,
    number: (string, SymType) -> Option<Number>)

  /** The words y, m and n are not numerals in any base. */
  ghost predicate WordsAreNotNumbers(v: Valuation) {
    forall t: SymType ::
      v.number("y", t) == None && v.number("m", t) == None && v.number("n", t) == None
  }

  ghost predicate TypedTri(v: Valuation) {
    forall s: Symbol ::
      (s.Type() == BooleanType ==> v.tri(s) != MOD) &&
      (s.Type() == TristateType && !v.modules ==> v.tri(s) != MOD)
  }

  /** A bool symbol is n or y; without modules no tristate symbol is m. */
  ghost predicate Typed(v: Valuation) { WordsAreNotNumbers(v) && TypedTri(v) }

  /** sym->curr.tri once the symbol is valid. */
  function TriValue(v: Valuation, s: Symbol): Tri {
    match s
    case SymYes => YES
    case SymMod => MOD
    case SymNo => NO
    case Const(_) => NO
    case Config(_, typ) => if typ == BooleanType || typ == TristateType then v.tri(s) else NO
  }

  function TriText(t: Tri, modules: bool): string {
    if t == NO then "n" else if t == YES then "y" else if modules then "m" else "n"
  }

  /** sym_get_string_value. */
  function StringValue(v: Valuation, s: Symbol): string {
    match s
    case SymYes => "y"
    case SymMod => "m"
    case SymNo => "n"
    case Const(text) => text
    case Config(_, typ) =>
      if typ == BooleanType || typ == TristateType then TriText(v.tri(s), v.modules) else v.text(s)
  }

  /** strcmp, up to the size of the result. */
  function StrCmp(x: string, y: string): int {
    if x == [] then (if y == [] then 0 else -1)
    else if y == [] then 1
    else if x[0] < y[0] then -1
    else if x[0] > y[0] then 1
    else StrCmp(x[1..], y[1..])
  }

  lemma {:induction false} StrCmpZero(x: string, y: string)
    ensures StrCmp(x, y) == 0 <==> x == y
  {
    if x != [] && y != [] && x[0] == y[0] {
      StrCmpZero(x[1..], y[1..]);
      assert x == [x[0]] + x[1..] && y == [y[0]] + y[1..];
    }
  }

  /** expr_parse_string. */
  function ParseValue(v: Valuation, s: Symbol): Option<Number> {
    var str := StringValue(v, s);
    if s.IsTri() then
      Some(Signed(if str == "n" then 0 else if str == "m" then 1 else if str == "y" then 2 else -1))
    else
      v.number(str, s.Type())
  }

  const TWO64: int := 0x1_0000_0000_0000_0000

  function Sign(x: int, y: int): int { if x > y then 1 else if x < y then -1 else 0 }

  function Bits(n: Number): int { match n case Signed(s) => s % TWO64 case Unsigned(u) => u % TWO64 }

  function CompareNumbers(x: Number, y: Number): int {
    if x.Unsigned? || y.Unsigned? then Sign(Bits(x), Bits(y)) else Sign(x.s, y.s)
  }

  /** The integer `res` of expr_calc_value. */
  function Compare(v: Valuation, a: Symbol, b: Symbol): int {
    if a.Type() == StringType && b.Type() == StringType then
      StrCmp(StringValue(v, a), StringValue(v, b))
    else
      var x, y := ParseValue(v, a), ParseValue(v, b);
      if x.Some? && y.Some? then CompareNumbers(x.value, y.value)
      else StrCmp(StringValue(v, a), StringValue(v, b))
  }

  function Holds(cmp: CmpOp, res: int): bool {
    match cmp
    case Eq => res == 0
    case Ne => res != 0
    case Lt => res < 0
    case Le => res <= 0
    case Gt => res > 0
    case Ge => res >= 0
  }

  function Apply(op: Op, x: Tri, y: Tri): Tri { if op.AND? then TriAnd(x, y) else TriOr(x, y) }

  /** expr_calc_value. */
  function Eval(e: Expr, v: Valuation): Tri {
    match e
    case Sym(s) => TriValue(v, s)
    case Not(x) => TriNot(Eval(x, v))
    case Bin(op, l, r) => Apply(op, Eval(l, v), Eval(r, v))
    case Cmp(cmp, a, b) => OfBool(Holds(cmp, Compare(v, a, b)))
  }

  /** The values of a tristate symbol that compare equal to `k`. */
  predicate Matches(v: Valuation, t: Tri, k: Symbol) {
    match k
    case SymYes => t == YES
    case SymMod => t == MOD
    case SymNo => t == NO
    case Const(text) =>
      (match v.number(text, UnknownType)
       case Some(n) => CompareNumbers(Signed(t), n) == 0
       case None => text == TriText(t, true))
    case Config(_, _) => false
  }

  /** Comparing a bool or tristate symbol for equality with a constant. */
  lemma CompareConst(v: Valuation, a: Symbol, k: Symbol)
    requires Typed(v) && a.IsTri() && k.IsConst()
    ensures Compare(v, a, k) == 0 <==> Matches(v, v.tri(a), k)
  {
    StrCmpZero(StringValue(v, a), StringValue(v, k));
    assert "y" != "m" && "y" != "n" && "m" != "n" by { assert "y"[0] != "m"[0] && "m"[0] != "n"[0]; }
  }

  // ----- expressions as the engine stores them: NULL means y -----

  type OptExpr = Option<Expr>

  function EvalOpt(e: OptExpr, v: Valuation): Tri { if e.None? then YES else Eval(e.value, v) }

  /** expr_alloc_and. */
  function AllocAnd(x: OptExpr, y: OptExpr): OptExpr {
    if x.None? then y else if y.None? then x else Some(Bin(AND, x.value, y.value))
  }

  /** expr_alloc_or; as in the source, a missing operand is dropped, not taken for y. */
  function AllocOr(x: OptExpr, y: OptExpr): OptExpr {
    if x.None? then y else if y.None? then x else Some(Bin(OR, x.value, y.value))
  }

  predicate IsYesExpr(e: OptExpr) { e.None? || e.value == Sym(SymYes) }

  // ----- syntactic classes -----

  /** NOT stands only over a symbol other than y, m, n, and no bool symbol is compared with them. */
  predicate Normal(e: Expr) {
    match e
    case Sym(_) => true
    case Not(x) => x.Sym? && !x.sym.IsYMN()
    case Bin(_, l, r) => Normal(l) && Normal(r)
    case Cmp(cmp, a, b) => !((cmp.Eq? || cmp.Ne?) && a.Type() == BooleanType && b.IsYMN())
  }

  /** NOT stands only over symbols. */
  predicate NotOverSymbols(e: Expr) {
    match e
    case Sym(_) => true
    case Not(x) => x.Sym?
    case Bin(_, l, r) => NotOverSymbols(l) && NotOverSymbols(r)
    case Cmp(_, _, _) => true
  }

  /** The symbols an expression mentions. */
  function Mentions(e: Expr): set<Symbol> {
    match e
    case Sym(s) => {s}
    case Not(x) => Mentions(x)
    case Bin(_, l, r) => Mentions(l) + Mentions(r)
    case Cmp(_, a, b) => {a, b}
  }

  // ----- what a value depends on -----

  ghost predicate AgreeOn(v: Valuation, w: Valuation, e: OptExpr) {
    && v.text == w.text && v.modules == w.modules && v.number == w.number
    && (e.Some? ==> forall x <- Mentions(e.value) :: TriValue(v, x) == TriValue(w, x))
  }

  lemma {:induction false} EvalAgree(e: Expr, v: Valuation, w: Valuation)
    requires AgreeOn(v, w, Some(e))
    ensures Eval(e, v) == Eval(e, w)
  {
    match e
    case Sym(x) => assert x in Mentions(e);
    case Not(x) => EvalAgree(x, v, w);
    case Bin(_, l, r) =>
      EvalAgree(l, v, w);
      EvalAgree(r, v, w);
    case Cmp(_, a, b) =>
      assert a in Mentions(e) && b in Mentions(e);
      assert StringValue(v, a) == StringValue(w, a) && StringValue(v, b) == StringValue(w, b);
  }
}
