/** What the comparisons of expr_calc_value mean: bool and tristate symbols are ordered n, m, y, numbers by size,
    and texts as in a dictionary. */
module Comparisons {
  import opened Tristates
  import opened Exprs

  /** The six comparisons of two symbols of bool or tristate type. */
  lemma TriOrder(v: Valuation, a: Symbol, b: Symbol)
    requires Typed(v) && a.IsTri() && b.IsTri()
    ensures Eval(Cmp(Eq, a, b), v) == YES <==> v.tri(a) == v.tri(b)
    ensures Eval(Cmp(Ne, a, b), v) == YES <==> v.tri(a) != v.tri(b)
    ensures Eval(Cmp(Lt, a, b), v) == YES <==> v.tri(a) < v.tri(b)
    ensures Eval(Cmp(Le, a, b), v) == YES <==> v.tri(a) <= v.tri(b)
    ensures Eval(Cmp(Gt, a, b), v) == YES <==> v.tri(a) > v.tri(b)
    ensures Eval(Cmp(Ge, a, b), v) == YES <==> v.tri(a) >= v.tri(b)
    ensures forall cmp: CmpOp :: Eval(Cmp(cmp, a, b), v) != MOD
  {
    TriParsed(v, a);
    TriParsed(v, b);
  }

  lemma TriParsed(v: Valuation, a: Symbol)
    requires Typed(v) && a.IsTri()
    ensures ParseValue(v, a) == Some(Signed(v.tri(a)))
  {
    assert "y" != "m" && "y" != "n" && "m" != "n" by { assert "y"[0] != "m"[0] && "m"[0] != "n"[0]; }
  }

  /** Two symbols that are not both strings and whose values read as signed numbers, as decimal ones do. */
  lemma NumberOrder(v: Valuation, a: Symbol, b: Symbol, x: int, y: int)
    requires a.Type() != StringType || b.Type() != StringType
    requires ParseValue(v, a) == Some(Signed(x)) && ParseValue(v, b) == Some(Signed(y))
    ensures Eval(Cmp(Eq, a, b), v) == YES <==> x == y
    ensures Eval(Cmp(Ne, a, b), v) == YES <==> x != y
    ensures Eval(Cmp(Lt, a, b), v) == YES <==> x < y
    ensures Eval(Cmp(Le, a, b), v) == YES <==> x <= y
    ensures Eval(Cmp(Gt, a, b), v) == YES <==> x > y
    ensures Eval(Cmp(Ge, a, b), v) == YES <==> x >= y
  {
  }

  /** `x` stands before `y` in a dictionary: where they first differ it ends or has the smaller character. */
  predicate Before(x: string, y: string) {
    exists k | 0 <= k <= |x| && k < |y| :: x[..k] == y[..k] && (k == |x| || x[k] < y[k])
  }

  lemma {:induction false} StrCmpOrder(x: string, y: string)
    ensures StrCmp(x, y) < 0 <==> Before(x, y)
    ensures StrCmp(x, y) > 0 <==> Before(y, x)
  {
    if x != [] && y != [] {
      StrCmpOrder(x[1..], y[1..]);
      BeforeTail(x, y);
      BeforeTail(y, x);
    } else {
      if x != [] { assert x[..0] == y[..0]; }
      if y != [] { assert x[..0] == y[..0]; }
    }
  }

  lemma BeforeTail(x: string, y: string)
    requires x != [] && y != []
    ensures Before(x, y) <==> x[0] < y[0] || (x[0] == y[0] && Before(x[1..], y[1..]))
  {
    if Before(x, y) { TailBefore(x, y); }
    if x[0] < y[0] { assert x[..0] == y[..0]; }
    if x[0] == y[0] && Before(x[1..], y[1..]) { ConsBefore(x, y); }
  }

  lemma TailBefore(x: string, y: string)
    requires x != [] && y != [] && Before(x, y)
    ensures x[0] < y[0] || (x[0] == y[0] && Before(x[1..], y[1..]))
  {
    var k :| 0 <= k <= |x| && k < |y| && x[..k] == y[..k] && (k == |x| || x[k] < y[k]);
    if k > 0 {
      assert x[0] == x[..k][0] && y[0] == y[..k][0];
      assert x[1..][..k - 1] == x[..k][1..] && y[1..][..k - 1] == y[..k][1..];
    }
  }

  lemma ConsBefore(x: string, y: string)
    requires x != [] && y != [] && x[0] == y[0] && Before(x[1..], y[1..])
    ensures Before(x, y)
  {
    var u, w := x[1..], y[1..];
    var k :| 0 <= k <= |u| && k < |w| && u[..k] == w[..k] && (k == |u| || u[k] < w[k]);
    assert x[..k + 1] == [x[0]] + u[..k] && y[..k + 1] == [y[0]] + w[..k];
    assert 0 <= k + 1 <= |x| && x[..k + 1] == y[..k + 1];
  }

  /** Two string symbols are compared by their texts. */
  lemma TextOrder(v: Valuation, a: Symbol, b: Symbol)
    requires a.Type() == StringType && b.Type() == StringType
    ensures Eval(Cmp(Eq, a, b), v) == YES <==> v.text(a) == v.text(b)
    ensures Eval(Cmp(Ne, a, b), v) == YES <==> v.text(a) != v.text(b)
    ensures Eval(Cmp(Lt, a, b), v) == YES <==> Before(v.text(a), v.text(b))
    ensures Eval(Cmp(Gt, a, b), v) == YES <==> Before(v.text(b), v.text(a))
    ensures Eval(Cmp(Le, a, b), v) == YES <==> !Before(v.text(b), v.text(a))
    ensures Eval(Cmp(Ge, a, b), v) == YES <==> !Before(v.text(a), v.text(b))
  {
    StrCmpZero(v.text(a), v.text(b));
    StrCmpOrder(v.text(a), v.text(b));
  }
}
