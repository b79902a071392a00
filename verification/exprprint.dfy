/** Printing an expression (expr_print of scripts/config/expr.c) and parsing it back with the grammar
    of scripts/config/parser.y: shift and reduce by precedence. */
module PrintParse {
  import opened Tristates
  import opened Exprs

  datatype Token = TSym(sym: Symbol) | TCmp(cmp: CmpOp) | TOpen | TClose | TNot | TOp(op: Op)

  // ----- printing -----

  /** The operator an expression is printed under; None at the top. */
  datatype Under = Top | UnderOr | UnderAnd | UnderNot

  function UnderOp(op: Op): Under { if op.AND? then UnderAnd else UnderOr }

  /** expr_compare_type(prevtoken, e->type) > 0. */
  predicate NeedsParens(u: Under, e: Expr) {
    match u
    case Top => false
    case UnderOr => false
    case UnderAnd => IsOp(e, OR)
    case UnderNot => e.Bin?
  }

  function Print(e: Expr, u: Under): seq<Token>
    decreases e, 1
  {
    if NeedsParens(u, e) then [TOpen] + Bare(e) + [TClose] else Bare(e)
  }

  function Bare(e: Expr): seq<Token>
    decreases e, 0
  {
    match e
    case Sym(s) => [TSym(s)]
    case Cmp(c, a, b) => [TSym(a), TCmp(c), TSym(b)]
    case Not(x) => [TNot] + Print(x, UnderNot)
    case Bin(op, l, r) => Print(l, UnderOp(op)) + [TOp(op)] + Print(r, UnderOp(op))
  }

  // ----- parsing -----

  /** What the parser keeps on its stack: a symbol, an expression, or a token. */
  datatype Item = IS(s: Symbol) | IE(e: Expr) | IT(t: Token)

  datatype Action = Shift | ReduceSym | ReduceCmp | ReduceNot | ReduceBin | ReduceParen | Accept | Fail

  function Tail(st: seq<Item>, k: nat): Option<Item> { if k < |st| then Some(st[|st| - 1 - k]) else None }

  predicate IsTok(i: Option<Item>, t: Token) { i == Some(IT(t)) }

  /** What to do, from the top of the stack and the next token. After `expr && expr` always reduce;
      after `expr || expr` reduce unless `&&` follows; after `! expr` always reduce. */
  function Act(st: seq<Item>, la: Option<Token>): Action {
    var t0, t1, t2 := Tail(st, 0), Tail(st, 1), Tail(st, 2);
    if t0.None? then AtOperand(la)
    else match t0.value
      case IS(_) =>
        if t1.Some? && t1.value.IT? && t1.value.t.TCmp? && t2.Some? && t2.value.IS? then ReduceCmp
        else if la.Some? && la.value.TCmp? then Shift
        else ReduceSym
      case IE(_) =>
        if IsTok(t1, TNot) then ReduceNot
        else if t1.Some? && t1.value.IT? && t1.value.t.TOp? && t2.Some? && t2.value.IE? then
          if t1.value.t.op.OR? && la == Some(TOp(AND)) then Shift else ReduceBin
        else if la.Some? && la.value.TOp? then Shift
        else if la == Some(TClose) && IsTok(t1, TOpen) then Shift
        else if la.None? && |st| == 1 then Accept
        else Fail
      case IT(TClose) => if t1.Some? && t1.value.IE? && IsTok(t2, TOpen) then ReduceParen else Fail
      case IT(TCmp(_)) => if la.Some? && la.value.TSym? then Shift else Fail
      case IT(_) => AtOperand(la)
  }

  /** An operand is expected. */
  function AtOperand(la: Option<Token>): Action {
    if la.Some? && (la.value.TSym? || la.value.TOpen? || la.value.TNot?) then Shift else Fail
  }

  function ItemWeight(i: Item): nat { if i.IS? then 2 else 1 }

  function Weight(st: seq<Item>): nat {
    if st == [] then 0 else Weight(st[..|st| - 1]) + ItemWeight(st[|st| - 1])
  }

  function Shifted(t: Token): Item { if t.TSym? then IS(t.sym) else IT(t) }

  /** Popping what the rule matched and pushing its value. */
  function Reduced(st: seq<Item>, a: Action): seq<Item>
    requires a == Act(st, None) || exists t :: a == Act(st, Some(t))
    requires a.ReduceSym? || a.ReduceCmp? || a.ReduceNot? || a.ReduceBin? || a.ReduceParen?
  {
    var n := |st|;
    match a
    case ReduceSym => st[..n - 1] + [IE(Sym(st[n - 1].s))]
    case ReduceCmp => st[..n - 3] + [IE(Cmp(st[n - 2].t.cmp, st[n - 3].s, st[n - 1].s))]
    case ReduceNot => st[..n - 2] + [IE(Not(st[n - 1].e))]
    case ReduceBin => st[..n - 3] + [IE(Bin(st[n - 2].t.op, st[n - 3].e, st[n - 1].e))]
    case ReduceParen => st[..n - 3] + [st[n - 2]]
  }

  function Ahead(toks: seq<Token>): Option<Token> { if toks == [] then None else Some(toks[0]) }

  lemma WeightPush(st: seq<Item>, i: Item)
    ensures Weight(st + [i]) == Weight(st) + ItemWeight(i)
  {
    assert (st + [i])[..|st|] == st;
  }

  lemma WeightPop(st: seq<Item>, k: nat)
    requires k <= |st| && k <= 3
    ensures Weight(st) >= Weight(st[..|st| - k]) + k
    ensures k == 1 ==> Weight(st) == Weight(st[..|st| - 1]) + ItemWeight(st[|st| - 1])
  {
    if k == 0 {
      assert st[..|st|] == st;
    } else {
      assert st[..|st| - 1][..|st| - 1 - (k - 1)] == st[..|st| - k];
      WeightPop(st[..|st| - 1], k - 1);
    }
  }

  lemma ReducedLighter(st: seq<Item>, la: Option<Token>)
    requires var a := Act(st, la); a.ReduceSym? || a.ReduceCmp? || a.ReduceNot? || a.ReduceBin? || a.ReduceParen?
    ensures Weight(Reduced(st, Act(st, la))) < Weight(st)
  {
    var a := Act(st, la);
    var k := if a.ReduceSym? then 1 else if a.ReduceNot? then 2 else 3;
    WeightPop(st, k);
    var r := Reduced(st, a);
    assert r == st[..|st| - k] + [r[|r| - 1]] && r[|r| - 1].IE?;
    WeightPush(st[..|st| - k], r[|r| - 1]);
  }

  /** The parser from a stack and the remaining tokens. */
  function Run(st: seq<Item>, toks: seq<Token>): Option<Expr>
    decreases 3 * |toks| + Weight(st)
  {
    var a := Act(st, Ahead(toks));
    match a
    case Accept => Some(st[0].e)
    case Fail => None
    case Shift => WeightPush(st, Shifted(toks[0])); Run(st + [Shifted(toks[0])], toks[1..])
    case _ => ReducedLighter(st, Ahead(toks)); Run(Reduced(st, a), toks)
  }

  function Parse(toks: seq<Token>): Option<Expr> { Run([], toks) }

  /** yyparse: the loop that pushes and pops. */
  method Yyparse(toks: seq<Token>) returns (r: Option<Expr>)
    ensures r == Parse(toks)
  {
    var st: seq<Item>, pos := [], 0;
    assert toks[0..] == toks;
    while true
      invariant pos <= |toks| && Run(st, toks[pos..]) == Parse(toks)
      decreases 3 * (|toks| - pos) + Weight(st)
    {
      var a := Act(st, Ahead(toks[pos..]));
      match a
      case Accept => return Some(st[0].e);
      case Fail => return None;
      case Shift =>
        WeightPush(st, Shifted(toks[pos]));
        assert toks[pos..][1..] == toks[pos + 1..];
        st, pos := st + [Shifted(toks[pos])], pos + 1;
      case _ =>
        ReducedLighter(st, Ahead(toks[pos..]));
        st := Reduced(st, a);
    }
  }

  // ----- what comes back -----

  /** `a op b` with the operands of `b` taken one by one, so that like operators group to the left. */
  function Graft(op: Op, a: Expr, b: Expr): Expr {
    if IsOp(b, op) then Bin(op, Graft(op, a, b.left), b.right) else Bin(op, a, b)
  }

  /** The same expression with like operators grouped to the left. */
  function LeftGrouped(e: Expr): Expr {
    match e
    case Sym(_) => e
    case Cmp(_, _, _) => e
    case Not(x) => Not(LeftGrouped(x))
    case Bin(op, l, r) => Graft(op, LeftGrouped(l), LeftGrouped(r))
  }

  lemma {:induction false} GraftMeaning(op: Op, a: Expr, b: Expr, v: Valuation)
    ensures Eval(Graft(op, a, b), v) == Apply(op, Eval(a, v), Eval(b, v))
  {
    if IsOp(b, op) { GraftMeaning(op, a, b.left, v); }
  }

  /** Regrouping does not change the value. */
  lemma {:induction false} LeftGroupedMeaning(e: Expr, v: Valuation)
    ensures Eval(LeftGrouped(e), v) == Eval(e, v)
  {
    match e
    case Not(x) => LeftGroupedMeaning(x, v);
    case Bin(op, l, r) =>
      LeftGroupedMeaning(l, v);
      LeftGroupedMeaning(r, v);
      GraftMeaning(op, LeftGrouped(l), LeftGrouped(r), v);
    case _ =>
  }

  lemma {:induction false} GraftAssoc(op: Op, a: Expr, b: Expr, c: Expr)
    ensures Graft(op, a, Graft(op, b, c)) == Graft(op, Graft(op, a, b), c)
  {
    if IsOp(c, op) { GraftAssoc(op, a, b, c.left); }
  }

  /** How tightly the printed form of an expression binds. */
  function Level(e: Expr, u: Under): nat {
    if NeedsParens(u, e) || !e.Bin? then 3 else if e.op.AND? then 2 else 1
  }

  function OpLevel(op: Op): nat { if op.AND? then 2 else 1 }

  /** How tightly an operand must bind to be complete before anything below it is reduced. */
  function Holds(st: seq<Item>): Option<nat> {
    var t0, t1 := Tail(st, 0), Tail(st, 1);
    if t0.None? then Some(0)
    else if IsTok(t0, TOpen) then Some(0)
    else if IsTok(t0, TNot) then Some(2)
    else if t0.value.IT? && t0.value.t.TOp? && t1.Some? && t1.value.IE? then Some(OpLevel(t0.value.t.op))
    else None
  }

  /** What may follow a printed expression without being drawn into it. */
  predicate Ends(level: nat, rest: seq<Token>) {
    && !(rest != [] && rest[0].TCmp?)
    && (level == 1 ==> Ahead(rest) != Some(TOp(AND)))
  }

  lemma RunShift(st: seq<Item>, t: Token, rest: seq<Token>)
    requires Act(st, Some(t)).Shift?
    ensures Run(st, [t] + rest) == Run(st + [Shifted(t)], rest)
  {
    assert ([t] + rest)[1..] == rest;
  }

  /** Where an operand is expected, a printed expression becomes one expression on the stack. */
  lemma {:induction false} PrintParsed(e: Expr, u: Under, st: seq<Item>, rest: seq<Token>)
    requires Holds(st).Some? && Holds(st).value < Level(e, u) && Ends(Level(e, u), rest)
    ensures Run(st, Print(e, u) + rest) == Run(st + [IE(LeftGrouped(e))], rest)
    decreases e, 2
  {
    if NeedsParens(u, e) {
      var st1 := st + [IT(TOpen)];
      var b := Bare(e);
      assert [TOpen] + b + [TClose] + rest == [TOpen] + (b + ([TClose] + rest));
      RunShift(st, TOpen, b + ([TClose] + rest));
      BareParsed(e, st1, [TClose] + rest);
      var st2 := st1 + [IE(LeftGrouped(e))];
      RunShift(st2, TClose, rest);
      var st3 := st2 + [IT(TClose)];
      assert Tail(st3, 1) == Some(IE(LeftGrouped(e))) && IsTok(Tail(st3, 2), TOpen);
      assert st3[..|st3| - 3] == st;
    } else {
      BareParsed(e, st, rest);
    }
  }

  lemma {:induction false} BareParsed(e: Expr, st: seq<Item>, rest: seq<Token>)
    requires Holds(st).Some? && Holds(st).value < Level(e, Top) && Ends(Level(e, Top), rest)
    ensures Run(st, Bare(e) + rest) == Run(st + [IE(LeftGrouped(e))], rest)
    decreases e, 1
  {
    match e
    case Sym(s) => SymParsed(s, st, rest);
    case Cmp(c, a, b) => CmpParsed(c, a, b, st, rest);
    case Not(x) =>
      assert [TNot] + Print(x, UnderNot) + rest == [TNot] + (Print(x, UnderNot) + rest);
      RunShift(st, TNot, Print(x, UnderNot) + rest);
      var st1 := st + [IT(TNot)];
      PrintParsed(x, UnderNot, st1, rest);
      var st2 := st1 + [IE(LeftGrouped(x))];
      assert st2[..|st2| - 2] == st;
    case Bin(op, l, r) =>
      BinParsed(op, l, r, st, rest);
  }

  lemma SymParsed(s: Symbol, st: seq<Item>, rest: seq<Token>)
    requires Holds(st).Some? && Ends(3, rest)
    ensures Run(st, [TSym(s)] + rest) == Run(st + [IE(Sym(s))], rest)
  {
    RunShift(st, TSym(s), rest);
    var st1 := st + [IS(s)];
    assert Tail(st1, 1) == Tail(st, 0);
    assert st1[..|st1| - 1] == st;
  }

  lemma CmpParsed(c: CmpOp, a: Symbol, b: Symbol, st: seq<Item>, rest: seq<Token>)
    requires Holds(st).Some? && Ends(3, rest)
    ensures Run(st, [TSym(a), TCmp(c), TSym(b)] + rest) == Run(st + [IE(Cmp(c, a, b))], rest)
  {
    assert [TSym(a), TCmp(c), TSym(b)] + rest == [TSym(a)] + ([TCmp(c)] + ([TSym(b)] + rest));
    RunShift(st, TSym(a), [TCmp(c)] + ([TSym(b)] + rest));
    var st1 := st + [IS(a)];
    assert Tail(st1, 1) == Tail(st, 0);
    RunShift(st1, TCmp(c), [TSym(b)] + rest);
    var st2 := st1 + [IT(TCmp(c))];
    RunShift(st2, TSym(b), rest);
    var st3 := st2 + [IS(b)];
    assert st3[..|st3| - 3] == st;
  }

  /** Below an operand of `op` that is complete, `op` itself is shifted. */
  lemma OpShifts(op: Op, st: seq<Item>, a: Expr)
    requires Holds(st).Some? && Holds(st).value < OpLevel(op)
    ensures Act(st + [IE(a)], Some(TOp(op))).Shift?
  {
    var st1 := st + [IE(a)];
    assert Tail(st1, 1) == Tail(st, 0) && Tail(st1, 2) == Tail(st, 1);
  }

  lemma {:induction false} BinParsed(op: Op, l: Expr, r: Expr, st: seq<Item>, rest: seq<Token>)
    requires Holds(st).Some? && Holds(st).value < OpLevel(op) && Ends(OpLevel(op), rest)
    ensures Run(st, Bare(Bin(op, l, r)) + rest) == Run(st + [IE(LeftGrouped(Bin(op, l, r)))], rest)
    decreases Bin(op, l, r), 0
  {
    var u := UnderOp(op);
    var more := Print(r, u) + rest;
    assert Print(l, u) + [TOp(op)] + Print(r, u) + rest == Print(l, u) + ([TOp(op)] + more);
    PrintParsed(l, u, st, [TOp(op)] + more);
    OpShifts(op, st, LeftGrouped(l));
    RunShift(st + [IE(LeftGrouped(l))], TOp(op), more);
    Absorbed(op, LeftGrouped(l), r, st, rest);
  }

  /** With `a op` on the stack, the operands of what comes next are grafted on one by one. */
  lemma {:induction false} Absorbed(op: Op, a: Expr, r: Expr, st: seq<Item>, rest: seq<Token>)
    requires Holds(st).Some? && Holds(st).value < OpLevel(op) && Ends(OpLevel(op), rest)
    ensures Run(st + [IE(a)] + [IT(TOp(op))], Print(r, UnderOp(op)) + rest) == Run(st + [IE(Graft(op, a, LeftGrouped(r)))], rest)
    decreases r, 4
  {
    var u := UnderOp(op);
    if IsOp(r, op) {
      var more := Print(r.right, u) + rest;
      assert Print(r, u) + rest == Print(r.left, u) + ([TOp(op)] + more);
      Absorbed(op, a, r.left, st, [TOp(op)] + more);
      var g := Graft(op, a, LeftGrouped(r.left));
      OpShifts(op, st, g);
      RunShift(st + [IE(g)], TOp(op), more);
      Absorbed(op, g, r.right, st, rest);
      GraftAssoc(op, a, LeftGrouped(r.left), LeftGrouped(r.right));
    } else {
      AbsorbedOne(op, a, r, st, rest);
    }
  }

  lemma {:induction false} AbsorbedOne(op: Op, a: Expr, r: Expr, st: seq<Item>, rest: seq<Token>)
    requires Holds(st).Some? && Holds(st).value < OpLevel(op) && Ends(OpLevel(op), rest) && !IsOp(r, op)
    ensures Run(st + [IE(a)] + [IT(TOp(op))], Print(r, UnderOp(op)) + rest) == Run(st + [IE(Graft(op, a, LeftGrouped(r)))], rest)
    decreases r, 3
  {
    var st1 := st + [IE(a)] + [IT(TOp(op))];
    assert Holds(st1) == Some(OpLevel(op));
    PrintParsed(r, UnderOp(op), st1, rest);
    var st2 := st1 + [IE(LeftGrouped(r))];
    assert Tail(st2, 1) == Some(IT(TOp(op))) && Tail(st2, 2) == Some(IE(a));
    assert st2[..|st2| - 3] == st;
  }

  /** The tokens of any expression parse back to the same expression with like operators grouped to
      the left, and so to the same value. */
  lemma PrintThenParse(e: Expr)
    ensures Parse(Print(e, Top)) == Some(LeftGrouped(e))
    ensures forall v: Valuation :: Eval(LeftGrouped(e), v) == Eval(e, v)
  {
    assert Print(e, Top) + [] == Print(e, Top) && [] + [IE(LeftGrouped(e))] == [IE(LeftGrouped(e))];
    PrintParsed(e, Top, [], []);
    forall v: Valuation ensures Eval(LeftGrouped(e), v) == Eval(e, v) {
      LeftGroupedMeaning(e, v);
    }
  }

  lemma PrintedSym(a: Symbol, u: Under)
    ensures Print(Sym(a), u) == [TSym(a)]
  {
  }

  lemma PrintedPair(op: Op, a: Symbol, b: Symbol)
    ensures Bare(Bin(op, Sym(a), Sym(b))) == [TSym(a), TOp(op), TSym(b)]
  {
    PrintedSym(a, UnderOp(op));
    PrintedSym(b, UnderOp(op));
  }

  lemma CmpReading(a: Symbol, b: Symbol, cmp: CmpOp)
    ensures Parse([TSym(a), TCmp(cmp), TSym(b)]) == Some(Cmp(cmp, a, b))
  {
    PrintThenParse(Cmp(cmp, a, b));
  }

  /** Operands stay in their order, and `&&` binds tighter than `||`, */
  lemma AndOrReading(a: Symbol, b: Symbol, c: Symbol)
    ensures Parse([TSym(a), TOp(AND), TSym(b), TOp(OR), TSym(c)]) == Some(Bin(OR, Bin(AND, Sym(a), Sym(b)), Sym(c)))
  {
    var ab := Bin(AND, Sym(a), Sym(b));
    PrintedPair(AND, a, b);
    PrintedSym(c, UnderOr);
    assert Print(ab, UnderOr) == Bare(ab);
    assert Print(Bin(OR, ab, Sym(c)), Top) == Bare(ab) + [TOp(OR)] + [TSym(c)];
    assert Bare(ab) + [TOp(OR)] + [TSym(c)] == [TSym(a), TOp(AND), TSym(b), TOp(OR), TSym(c)];
    assert LeftGrouped(ab) == ab && LeftGrouped(Bin(OR, ab, Sym(c))) == Bin(OR, ab, Sym(c));
    PrintThenParse(Bin(OR, ab, Sym(c)));
  }

  lemma OrAndReading(a: Symbol, b: Symbol, c: Symbol)
    ensures Parse([TSym(a), TOp(OR), TSym(b), TOp(AND), TSym(c)]) == Some(Bin(OR, Sym(a), Bin(AND, Sym(b), Sym(c))))
  {
    var bc := Bin(AND, Sym(b), Sym(c));
    PrintedPair(AND, b, c);
    PrintedSym(a, UnderOr);
    assert Print(bc, UnderOr) == Bare(bc);
    assert Print(Bin(OR, Sym(a), bc), Top) == [TSym(a)] + [TOp(OR)] + Bare(bc);
    assert [TSym(a)] + [TOp(OR)] + Bare(bc) == [TSym(a), TOp(OR), TSym(b), TOp(AND), TSym(c)];
    assert LeftGrouped(bc) == bc && LeftGrouped(Bin(OR, Sym(a), bc)) == Bin(OR, Sym(a), bc);
    PrintThenParse(Bin(OR, Sym(a), bc));
  }

  /** and `!` binds tighter than both. */
  lemma NotReading(a: Symbol, b: Symbol, op: Op)
    ensures Parse([TNot, TSym(a), TOp(op), TSym(b)]) == Some(Bin(op, Not(Sym(a)), Sym(b)))
  {
    var na := Not(Sym(a));
    PrintedSym(a, UnderNot);
    PrintedSym(b, UnderOp(op));
    assert Print(na, UnderOp(op)) == [TNot] + [TSym(a)];
    assert Print(Bin(op, na, Sym(b)), Top) == [TNot] + [TSym(a)] + [TOp(op)] + [TSym(b)];
    assert [TNot] + [TSym(a)] + [TOp(op)] + [TSym(b)] == [TNot, TSym(a), TOp(op), TSym(b)];
    assert LeftGrouped(na) == na && LeftGrouped(Sym(b)) == Sym(b) && Graft(op, na, Sym(b)) == Bin(op, na, Sym(b));
    assert LeftGrouped(Bin(op, na, Sym(b))) == Bin(op, na, Sym(b));
    PrintThenParse(Bin(op, na, Sym(b)));
  }

  /** Like operators already grouped to the left. */
  predicate IsLeftGrouped(e: Expr) {
    match e
    case Not(x) => IsLeftGrouped(x)
    case Bin(op, l, r) => IsLeftGrouped(l) && IsLeftGrouped(r) && !IsOp(r, op)
    case _ => true
  }

  /** Exactly such expressions come back unchanged. */
  lemma {:induction false} LeftGroupedFixes(e: Expr)
    ensures IsLeftGrouped(LeftGrouped(e)) && (LeftGrouped(e) == e <==> IsLeftGrouped(e))
  {
    match e
    case Not(x) => LeftGroupedFixes(x);
    case Bin(op, l, r) =>
      LeftGroupedFixes(l);
      LeftGroupedFixes(r);
      GraftGrouped(op, LeftGrouped(l), LeftGrouped(r));
    case _ =>
  }

  lemma {:induction false} GraftGrouped(op: Op, a: Expr, b: Expr)
    requires IsLeftGrouped(a) && IsLeftGrouped(b)
    ensures IsLeftGrouped(Graft(op, a, b))
  {
    if IsOp(b, op) { GraftGrouped(op, a, b.left); }
  }
}
