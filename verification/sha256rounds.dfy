/** The data flow of the SHA-256 compression function, for any arithmetic on words: section 6.2.2 of
    FIPS 180-4 beside SHA256_Transform of scripts/mkhash.c, which turns the parts eight words play
    instead of moving them, and lets the message schedule grow in place. */
module ShaRounds {
  /** Addition, the sum of h, Sigma1(e), Ch(e, f, g), K and W, the functions of section 4.1.2 and, as `small0` and `small1`, those of the schedule. */
  datatype Ops<!T> = Ops(
    add: (T, T) -> T,
    sum: (T, T, T, T, T) -> T,
    sigma0: T -> T,
    sigma1: T -> T,
    small0: T -> T,
    small1: T -> T,
    ch: (T, T, T) -> T,
    maj: (T, T, T) -> T)

  datatype Vars<T> = Vars(a: T, b: T, c: T, d: T, e: T, f: T, g: T, h: T)

  // ----- the standard -----

  function W<T>(o: Ops<T>, M: seq<T>, t: nat): T
    requires |M| == 16
  {
    if t < 16 then M[t]
    else o.add(o.add(o.add(o.small1(W(o, M, t - 2)), W(o, M, t - 7)), o.small0(W(o, M, t - 15))), W(o, M, t - 16))
  }

  function Round<T>(o: Ops<T>, v: Vars<T>, k: T, w: T): Vars<T> {
    var t1 := o.sum(v.h, o.sigma1(v.e), o.ch(v.e, v.f, v.g), k, w);
    var t2 := o.add(o.sigma0(v.a), o.maj(v.a, v.b, v.c));
    Vars(o.add(t1, t2), v.a, v.b, v.c, o.add(v.d, t1), v.e, v.f, v.g)
  }

  function Rounds<T>(o: Ops<T>, K: seq<T>, v: Vars<T>, M: seq<T>, n: nat): Vars<T>
    requires |M| == 16 && n <= |K|
  {
    if n == 0 then v else Round(o, Rounds(o, K, v, M, n - 1), K[n - 1], W(o, M, n - 1))
  }

  function FromState<T>(s: seq<T>): Vars<T>
    requires |s| == 8
  {
    Vars(s[0], s[1], s[2], s[3], s[4], s[5], s[6], s[7])
  }

  function ToState<T>(v: Vars<T>): (r: seq<T>)
    ensures |r| == 8
  {
    [v.a, v.b, v.c, v.d, v.e, v.f, v.g, v.h]
  }

  function AddEach<T>(o: Ops<T>, s: seq<T>, t: seq<T>): (r: seq<T>)
    requires |s| == |t|
    ensures |r| == |s|
  {
    seq(|s|, i requires 0 <= i < |s| => o.add(s[i], t[i]))
  }

  function Compress<T>(o: Ops<T>, K: seq<T>, s: seq<T>, M: seq<T>): (r: seq<T>)
    requires |s| == 8 && |M| == 16 && |K| == 64
    ensures |r| == 8
  {
    AddEach(o, s, ToState(Rounds(o, K, FromState(s), M, 64)))
  }

  // ----- the program -----

  /** Two ways of writing the same operations. */
  ghost predicate Agree<T(!new)>(o: Ops<T>, p: Ops<T>) {
    && (forall x, y :: o.add(x, y) == p.add(x, y))
    && (forall h, s, c, k, w :: o.sum(h, s, c, k, w) == p.sum(h, s, c, k, w))
    && (forall x :: o.sigma0(x) == p.sigma0(x) && o.sigma1(x) == p.sigma1(x))
    && (forall x :: o.small0(x) == p.small0(x) && o.small1(x) == p.small1(x))
    && (forall x, y, z :: o.ch(x, y, z) == p.ch(x, y, z))
    && (forall x, y, z :: o.maj(x, y, z) == p.maj(x, y, z))
  }

  /** The place of the k-th working variable in round i. */
  function Slot(k: nat, i: nat): nat
    requires k < 8 && i < 64
  {
    (64 + k - i) % 8
  }

  /** The working variables as round i finds them. */
  function Turned<T>(s: seq<T>, i: nat): Vars<T>
    requires |s| == 8 && i <= 16
  {
    Vars(s[Slot(0, i)], s[Slot(1, i)], s[Slot(2, i)], s[Slot(3, i)], s[Slot(4, i)], s[Slot(5, i)], s[Slot(6, i)], s[Slot(7, i)])
  }

  lemma SlotsShift(i: nat)
    requires i < 16
    ensures Slot(0, i + 1) == Slot(7, i) && Slot(1, i + 1) == Slot(0, i) && Slot(2, i + 1) == Slot(1, i) && Slot(3, i + 1) == Slot(2, i)
    ensures Slot(4, i + 1) == Slot(3, i) && Slot(5, i + 1) == Slot(4, i) && Slot(6, i + 1) == Slot(5, i) && Slot(7, i + 1) == Slot(6, i)
  {
  }

  lemma SlotsApart(j: nat, k: nat, i: nat)
    requires j < k < 8 && i < 16
    ensures Slot(j, i) != Slot(k, i)
  {
  }

  /** Storing into the places of h and d, and turning by one. */
  lemma SlotsTurn<T>(s: seq<T>, i: nat, h: T, d: T)
    requires |s| == 8 && i < 16
    ensures Slot(3, i) != Slot(7, i)
    ensures var v := Turned(s, i);
      Turned(s[Slot(7, i) := h][Slot(3, i) := d], i + 1) == Vars(h, v.a, v.b, v.c, d, v.e, v.f, v.g)
  {
    SlotsShift(i);
    forall j | 0 <= j < 8 ensures j != 3 ==> Slot(j, i) != Slot(3, i) ensures j != 7 ==> Slot(j, i) != Slot(7, i) {
      if j < 3 { SlotsApart(j, 3, i); } else if j > 3 { SlotsApart(3, j, i); }
      if j < 7 { SlotsApart(j, 7, i); }
    }
  }

  /** The three assignments of RND, on the places of the eight variables. */
  function Rounded<T>(p: Ops<T>, s: seq<T>, at: seq<nat>, k: T, w: T): (r: seq<T>)
    requires |at| == 8 && forall j | 0 <= j < 8 :: at[j] < |s|
    ensures |r| == |s|
  {
    var t1 := p.sum(s[at[7]], p.sigma1(s[at[4]]), p.ch(s[at[4]], s[at[5]], s[at[6]]), k, w);
    var d1 := p.add(s[at[3]], t1);
    var h1 := p.add(t1, p.add(p.sigma0(s[at[0]]), p.maj(s[at[0]], s[at[1]], s[at[2]])));
    s[at[7] := h1][at[3] := d1]
  }

  /** RND. */
  method Rnd<T>(p: Ops<T>, S: array<T>, at: seq<nat>, k: T, w: T)
    requires |at| == 8 && (forall j | 0 <= j < 8 :: at[j] < S.Length) && forall j, l | 0 <= j < l < 8 :: at[j] != at[l]
    modifies S
    ensures S[..] == Rounded(p, old(S[..]), at, k, w)
  {
    var a, b, c, d, e, f, g, h := at[0], at[1], at[2], at[3], at[4], at[5], at[6], at[7];
    assert a != d && a != h && b != d && b != h && c != d && c != h && d != h;
    S[h] := p.sum(S[h], p.sigma1(S[e]), p.ch(S[e], S[f], S[g]), k, w);
    S[d] := p.add(S[d], S[h]);
    S[h] := p.add(S[h], p.add(p.sigma0(S[a]), p.maj(S[a], S[b], S[c])));
  }

  /** RNDr(S, W, i, ii). */
  method Rndr<T>(p: Ops<T>, S: array<T>, w: T, k: T, i: nat)
    requires S.Length == 8 && i < 16
    modifies S
    ensures Turned(S[..], i + 1) == Round(p, Turned(old(S[..]), i), k, w)
  {
    var at := [(64 - i) % 8, (65 - i) % 8, (66 - i) % 8, (67 - i) % 8, (68 - i) % 8, (69 - i) % 8, (70 - i) % 8, (71 - i) % 8];
    forall j, l | 0 <= j < l < 8 ensures at[j] != at[l] {
      assert at[j] == Slot(j, i) && at[l] == Slot(l, i);
      SlotsApart(j, l, i);
    }
    RndTurns(p, S[..], at, i, k, w);
    Rnd(p, S, at, k, w);
  }

  lemma RndTurns<T>(p: Ops<T>, s: seq<T>, at: seq<nat>, i: nat, k: T, w: T)
    requires |s| == 8 == |at| && i < 16 && forall j | 0 <= j < 8 :: at[j] < 8 && at[j] == Slot(j, i)
    ensures Turned(Rounded(p, s, at, k, w), i + 1) == Round(p, Turned(s, i), k, w)
  {
    var r := Rounded(p, s, at, k, w);
    SlotsTurn(s, i, r[at[7]], r[at[3]]);
    assert r == s[at[7] := r[at[7]]][at[3] := r[at[3]]];
  }

  /** The schedule is worked out up to `n`. */
  ghost predicate Scheduled<T>(p: Ops<T>, M: seq<T>, Wa: seq<T>, n: nat)
    requires |M| == 16
  {
    n <= |Wa| && forall t | 0 <= t < n :: Wa[t] == W(p, M, t)
  }

  /** Sixteen rounds from word `i` on. */
  method SixteenRounds<T>(p: Ops<T>, K: seq<T>, M: seq<T>, Wa: array<T>, S: array<T>, i: nat, ghost v0: Vars<T>)
    requires S.Length == 8 && Wa.Length == 64 == |K| && |M| == 16 && i + 16 <= 64 && S != Wa
    requires Scheduled(p, M, Wa[..], i + 16) && Turned(S[..], 0) == Rounds(p, K, v0, M, i)
    modifies S
    ensures Turned(S[..], 0) == Rounds(p, K, v0, M, i + 16)
  {
    for j := 0 to 16
      invariant Scheduled(p, M, Wa[..], i + 16)
      invariant Turned(S[..], j) == Rounds(p, K, v0, M, i + j)
    {
      Rndr(p, S, Wa[i + j], K[i + j], j);
    }
    assert Turned(S[..], 16) == Turned(S[..], 0);
  }

  /** MSCH(W, j, i) for j from 0 to 15: in place, each word using those just written. */
  method SixteenWords<T>(p: Ops<T>, M: seq<T>, Wa: array<T>, i: nat)
    requires Wa.Length == 64 && |M| == 16 && i + 32 <= 64 && Scheduled(p, M, Wa[..], i + 16)
    modifies Wa
    ensures Scheduled(p, M, Wa[..], i + 32)
  {
    for j := 0 to 16
      invariant Scheduled(p, M, Wa[..], i + 16 + j)
    {
      ghost var w0, t := Wa[..], i + 16 + j;
      assert Wa[t - 2] == W(p, M, t - 2) && Wa[t - 7] == W(p, M, t - 7) && Wa[t - 15] == W(p, M, t - 15) && Wa[t - 16] == W(p, M, t - 16);
      Wa[i + j + 16] := p.add(p.add(p.add(p.small1(Wa[i + j + 14]), Wa[i + j + 9]), p.small0(Wa[i + j + 1])), Wa[i + j]);
      assert Wa[..] == w0[t := W(p, M, t)];
    }
  }

  /** SHA256_Transform on a block already decoded into `M`. */
  method Transform<T(0)>(p: Ops<T>, K: seq<T>, state: array<T>, M: seq<T>)
    requires state.Length == 8 && |M| == 16 && |K| == 64
    modifies state
    ensures state[..] == Compress(p, K, old(state[..]), M)
  {
    ghost var s0 := state[..];
    var Wa, S := new T[64], new T[8];
    Prepare(p, state, M, Wa, S);
    ghost var v0 := FromState(s0);
    Mix(p, K, M, Wa, S, v0);
    ghost var v := Rounds(p, K, v0, M, 64);
    assert S[..] == ToState(v);
    for k := 0 to 8
      invariant S[..] == ToState(v)
      invariant forall j | 0 <= j < 8 :: state[j] == if j < k then p.add(s0[j], S[j]) else s0[j]
    {
      state[k] := p.add(state[k], S[k]);
    }
    assert state[..] == AddEach(p, s0, ToState(v));
  }

  /** Steps 1 and 2: the first words of the schedule, and the working variables. */
  method Prepare<T>(p: Ops<T>, state: array<T>, M: seq<T>, Wa: array<T>, S: array<T>)
    requires state.Length == 8 == S.Length && |M| == 16 && Wa.Length == 64 && state != Wa && state != S && S != Wa
    modifies Wa, S
    ensures Scheduled(p, M, Wa[..], 16) && Turned(S[..], 0) == FromState(state[..])
  {
    for t := 0 to 16
      invariant forall k | 0 <= k < t :: Wa[k] == M[k]
    {
      Wa[t] := M[t];
    }
    for k := 0 to 8
      invariant forall t | 0 <= t < 16 :: Wa[t] == M[t]
      invariant forall j | 0 <= j < k :: S[j] == state[j]
    {
      S[k] := state[k];
    }
    assert S[..] == state[..];
  }

  /** Step 3. */
  method Mix<T>(p: Ops<T>, K: seq<T>, M: seq<T>, Wa: array<T>, S: array<T>, ghost v0: Vars<T>)
    requires S.Length == 8 && |M| == 16 && |K| == 64 == Wa.Length && S != Wa
    requires Scheduled(p, M, Wa[..], 16) && Turned(S[..], 0) == v0
    modifies Wa, S
    ensures Turned(S[..], 0) == Rounds(p, K, v0, M, 64)
  {
    var i := 0;
    while i < 64
      invariant 0 <= i <= 64 && i % 16 == 0 && Mixed(p, K, M, Wa[..], S[..], v0, i)
    {
      MixMore(p, K, M, Wa, S, v0, i);
      i := i + 16;
    }
  }

  /** The first `i` rounds are done, and the schedule is ahead of them. */
  ghost predicate Mixed<T>(p: Ops<T>, K: seq<T>, M: seq<T>, wa: seq<T>, s: seq<T>, v0: Vars<T>, i: nat)
    requires |M| == 16 && |s| == 8
  {
    i <= |K| && (i < 64 ==> Scheduled(p, M, wa, i + 16)) && Turned(s, 0) == Rounds(p, K, v0, M, i)
  }

  method MixMore<T>(p: Ops<T>, K: seq<T>, M: seq<T>, Wa: array<T>, S: array<T>, ghost v0: Vars<T>, i: nat)
    requires S.Length == 8 && |M| == 16 && |K| == 64 == Wa.Length && S != Wa
    requires i < 64 && i % 16 == 0 && Mixed(p, K, M, Wa[..], S[..], v0, i)
    modifies Wa, S
    ensures Mixed(p, K, M, Wa[..], S[..], v0, i + 16)
  {
    SixteenRounds(p, K, M, Wa, S, i, v0);
    ghost var parts := S[..];
    if i != 48 {
      SixteenWords(p, M, Wa, i);
      assert S[..] == parts;
    }
  }

  // ----- both at once -----

  lemma {:induction false} WAgree<T(!new)>(o: Ops<T>, p: Ops<T>, M: seq<T>, t: nat)
    requires Agree(o, p) && |M| == 16
    ensures W(o, M, t) == W(p, M, t)
  {
    if t >= 16 {
      WAgree(o, p, M, t - 2);
      WAgree(o, p, M, t - 7);
      WAgree(o, p, M, t - 15);
      WAgree(o, p, M, t - 16);
    }
  }

  lemma {:induction false} RoundsAgree<T(!new)>(o: Ops<T>, p: Ops<T>, K: seq<T>, v: Vars<T>, M: seq<T>, n: nat)
    requires Agree(o, p) && |M| == 16 && n <= |K|
    ensures Rounds(o, K, v, M, n) == Rounds(p, K, v, M, n)
  {
    if n > 0 {
      RoundsAgree(o, p, K, v, M, n - 1);
      WAgree(o, p, M, n - 1);
    }
  }

  lemma CompressAgree<T(!new)>(o: Ops<T>, p: Ops<T>, K: seq<T>, s: seq<T>, M: seq<T>)
    requires Agree(o, p) && |s| == 8 && |M| == 16 && |K| == 64
    ensures Compress(o, K, s, M) == Compress(p, K, s, M)
  {
    RoundsAgree(o, p, K, FromState(s), M, 64);
  }
}
