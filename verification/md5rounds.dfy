/** The data flow of the MD5 block function, for any arithmetic on words: section 3.4 of RFC 1321
    beside MD5_body of scripts/mkhash.c, which turns the parts of four variables instead of moving
    them. */
module Md5Rounds {
  /** Addition; the sum of a, the auxiliary function, X[k] and T[i]; the auxiliary functions; circular
      left shift. */
  datatype Md5Ops<!T> = Md5Ops(
    add: (T, T) -> T,
    sum: (T, T, T, T) -> T,
    fun: (nat, T, T, T) -> T,
    rotl: (T, nat) -> T)

  datatype Regs<T> = Regs(a: T, b: T, c: T, d: T)

  // ----- the standard -----

  /** Which word of the block operation `i` uses. */
  function WordIndex(i: nat): (k: nat)
    ensures k < 16
  {
    if i < 16 then i
    else if i < 32 then (5 * i + 1) % 16
    else if i < 48 then (3 * i + 5) % 16
    else (7 * i) % 16
  }

  function ShiftBy(i: nat): (s: nat)
    ensures 0 < s < 32
  {
    if i < 16 then [7, 12, 17, 22][i % 4]
    else if i < 32 then [5, 9, 14, 20][i % 4]
    else if i < 48 then [4, 11, 16, 23][i % 4]
    else [6, 10, 15, 21][i % 4]
  }

  /** One operation; the variables then move on by one place. */
  function Operation<T>(o: Md5Ops<T>, K: seq<T>, X: seq<T>, r: Regs<T>, i: nat): Regs<T>
    requires |K| == 64 && |X| == 16 && i < 64
  {
    var total := o.sum(r.a, o.fun(i / 16, r.b, r.c, r.d), X[WordIndex(i)], K[i]);
    Regs(r.d, o.add(r.b, o.rotl(total, ShiftBy(i))), r.b, r.c)
  }

  function Operations<T>(o: Md5Ops<T>, K: seq<T>, X: seq<T>, r: Regs<T>, n: nat): Regs<T>
    requires |K| == 64 && |X| == 16 && n <= 64
  {
    if n == 0 then r else Operation(o, K, X, Operations(o, K, X, r, n - 1), n - 1)
  }

  function AddRegs<T>(o: Md5Ops<T>, r: Regs<T>, s: Regs<T>): Regs<T> {
    Regs(o.add(r.a, s.a), o.add(r.b, s.b), o.add(r.c, s.c), o.add(r.d, s.d))
  }

  function Mixed<T>(o: Md5Ops<T>, K: seq<T>, X: seq<T>, r: Regs<T>): Regs<T>
    requires |K| == 64 && |X| == 16
  {
    AddRegs(o, Operations(o, K, X, r, 64), r)
  }

  // ----- the program -----

  /** The words of the block in the order the STEP lines name them. */
  function Order(i: nat): nat
    requires i < 64
  {
    if i < 16 then [0, 1, 2, 3, 4, 5, 6, 7, 8, 9, 10, 11, 12, 13, 14, 15][i]
    else if i < 32 then [1, 6, 11, 0, 5, 10, 15, 4, 9, 14, 3, 8, 13, 2, 7, 12][i - 16]
    else if i < 48 then [5, 8, 11, 14, 1, 4, 7, 10, 13, 0, 3, 6, 9, 12, 15, 2][i - 32]
    else [0, 7, 14, 5, 12, 3, 10, 1, 8, 15, 6, 13, 4, 11, 2, 9][i - 48]
  }

  lemma OrderAgrees(i: nat)
    requires i < 64
    ensures Order(i) == WordIndex(i)
  {
    if i < 16 {
    } else if i < 32 {
      SecondRound(i - 16);
    } else if i < 48 {
      ThirdRound(i - 32);
    } else {
      FourthRound(i - 48);
    }
  }

  lemma SecondRound(j: nat)
    requires j < 16
    ensures [1, 6, 11, 0, 5, 10, 15, 4, 9, 14, 3, 8, 13, 2, 7, 12][j] == (5 * (j + 16) + 1) % 16
  {
    assert [1, 6, 11, 0, 5, 10, 15, 4, 9, 14, 3, 8, 13, 2, 7, 12] == seq(16, k => (5 * (k + 16) + 1) % 16);
  }

  lemma ThirdRound(j: nat)
    requires j < 16
    ensures [5, 8, 11, 14, 1, 4, 7, 10, 13, 0, 3, 6, 9, 12, 15, 2][j] == (3 * (j + 32) + 5) % 16
  {
    assert [5, 8, 11, 14, 1, 4, 7, 10, 13, 0, 3, 6, 9, 12, 15, 2] == seq(16, k => (3 * (k + 32) + 5) % 16);
  }

  lemma FourthRound(j: nat)
    requires j < 16
    ensures [0, 7, 14, 5, 12, 3, 10, 1, 8, 15, 6, 13, 4, 11, 2, 9][j] == 7 * (j + 48) % 16
  {
    assert [0, 7, 14, 5, 12, 3, 10, 1, 8, 15, 6, 13, 4, 11, 2, 9] == seq(16, k => 7 * (k + 48) % 16);
  }

  /** The function a STEP line names: F, G, H, I as 0 to 3, and H2 as 4. */
  function Named(i: nat): nat { if i / 16 == 2 && i % 2 == 1 then 4 else i / 16 }

  /** H2 is another way of writing H. */
  ghost predicate H2IsH<T(!new)>(p: Md5Ops<T>) {
    forall x, y, z :: p.fun(4, x, y, z) == p.fun(2, x, y, z)
  }

  /** One STEP line: the new value of the variable it overwrites. */
  method Step<T(!new)>(p: Md5Ops<T>, K: seq<T>, X: seq<T>, i: nat, a: T, b: T, c: T, d: T) returns (a': T)
    requires |K| == 64 && |X| == 16 && i < 64 && H2IsH(p)
    ensures Regs(d, a', b, c) == Operation(p, K, X, Regs(a, b, c, d), i)
  {
    OrderAgrees(i);
    a' := p.sum(a, p.fun(Named(i), b, c, d), X[Order(i)], K[i]);
    a' := p.rotl(a', ShiftBy(i));
    a' := p.add(b, a');
  }

  /** Four STEP lines, from line `i` on: a, d, c and b are overwritten in turn. */
  method FourSteps<T(!new)>(p: Md5Ops<T>, K: seq<T>, X: seq<T>, r: Regs<T>, i: nat, ghost r0: Regs<T>) returns (s: Regs<T>)
    requires |K| == 64 && |X| == 16 && i + 4 <= 64 && i % 4 == 0 && H2IsH(p)
    requires r == Operations(p, K, X, r0, i)
    ensures s == Operations(p, K, X, r0, i + 4)
  {
    var a, b, c, d := r.a, r.b, r.c, r.d;
    OneMore(p, K, X, r0, i);
    a := Step(p, K, X, i, a, b, c, d);
    OneMore(p, K, X, r0, i + 1);
    d := Step(p, K, X, i + 1, d, a, b, c);
    OneMore(p, K, X, r0, i + 2);
    c := Step(p, K, X, i + 2, c, d, a, b);
    OneMore(p, K, X, r0, i + 3);
    b := Step(p, K, X, i + 3, b, c, d, a);
    s := Regs(a, b, c, d);
  }

  /** MD5_body on one block already decoded into `X`. */
  method Body<T(!new)>(p: Md5Ops<T>, K: seq<T>, X: seq<T>, r: Regs<T>) returns (s: Regs<T>)
    requires |K| == 64 && |X| == 16 && H2IsH(p)
    ensures s == Mixed(p, K, X, r)
  {
    s := Lines(p, K, X, r);
    s := AddRegs(p, s, r);
  }

  method Lines<T(!new)>(p: Md5Ops<T>, K: seq<T>, X: seq<T>, r: Regs<T>) returns (s: Regs<T>)
    requires |K| == 64 && |X| == 16 && H2IsH(p)
    ensures s == Operations(p, K, X, r, |K|)
  {
    s := r;
    var i := 0;
    while i < |K|
      invariant i % 4 == 0 && i <= |K| && s == Operations(p, K, X, r, i)
    {
      s := FourSteps(p, K, X, s, i, r);
      i := i + 4;
    }
  }

  lemma OneMore<T>(p: Md5Ops<T>, K: seq<T>, X: seq<T>, r: Regs<T>, i: nat)
    requires |K| == 64 && |X| == 16 && i < 64
    ensures Operations(p, K, X, r, i + 1) == Operation(p, K, X, Operations(p, K, X, r, i), i)
  {
  }

  // ----- both at once -----

  ghost predicate Md5Agree<T(!new)>(o: Md5Ops<T>, p: Md5Ops<T>) {
    && (forall x, y :: o.add(x, y) == p.add(x, y))
    && (forall a, f, x, t :: o.sum(a, f, x, t) == p.sum(a, f, x, t))
    && (forall f: nat, x, y, z | f < 4 :: o.fun(f, x, y, z) == p.fun(f, x, y, z))
    && (forall x, s: nat :: o.rotl(x, s) == p.rotl(x, s))
  }

  lemma {:induction false} OperationsAgree<T(!new)>(o: Md5Ops<T>, p: Md5Ops<T>, K: seq<T>, X: seq<T>, r: Regs<T>, n: nat)
    requires Md5Agree(o, p) && |K| == 64 && |X| == 16 && n <= 64
    ensures Operations(o, K, X, r, n) == Operations(p, K, X, r, n)
  {
    if n > 0 { OperationsAgree(o, p, K, X, r, n - 1); }
  }

  lemma MixedAgree<T(!new)>(o: Md5Ops<T>, p: Md5Ops<T>, K: seq<T>, X: seq<T>, r: Regs<T>)
    requires Md5Agree(o, p) && |K| == 64 && |X| == 16
    ensures Mixed(o, K, X, r) == Mixed(p, K, X, r)
  {
    OperationsAgree(o, p, K, X, r, 64);
  }
}
