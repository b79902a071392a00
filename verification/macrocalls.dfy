/** Calls of user-defined functions: how a clause is cut into a name and arguments, which argument `$(1)`, `$(2)` and
    so on stand for, and what a call comes to. */
module MacroCalls {
  import opened Tristates
  import opened Chars
  import opened Macros
  import opened MacroLaws

  // ----- argument numbers -----

  function Digit(k: nat): char
    requires k < 10
  {
    "0123456789"[k]
  }

  /** The usual way to write a number. */
  function Digits(k: nat): (r: string)
    ensures r != [] && forall c <- r :: IsDigit(c)
  {
    if k < 10 then [Digit(k)] else Digits(k / 10) + [Digit(k % 10)]
  }

  lemma {:induction false} DecimalOfDigits(k: nat)
    ensures Decimal(Digits(k)) == Some(k)
  {
    var d := Digits(k);
    if k >= 10 {
      DecimalOfDigits(k / 10);
      assert d[..|d| - 1] == Digits(k / 10);
    }
  }

  lemma WholeOfDigits(k: nat)
    ensures WholeNumber(Digits(k)) == Some(if k < ULONG then k else ULONG - 1)
  {
    DecimalOfDigits(k);
    assert Digits(k)[0] in Digits(k);
  }

  /** A text that a number is not read from to its end. */
  predicate StartsName(s: string) {
    s != "" ==> !IsDigit(s[0]) && !IsSpace(s[0]) && s[0] != '-' && s[0] != '+'
  }

  lemma {:induction false} DecimalIsDigits(s: string)
    requires Decimal(s).Some?
    ensures s != [] && IsDigit(s[0])
  {
    if |s| > 1 {
      DecimalIsDigits(s[..|s| - 1]);
    }
  }

  lemma NameIsNoNumber(s: string, argc: nat)
    requires StartsName(s)
    ensures ArgumentIndex(s, argc).None?
  {
    if Decimal(s).Some? {
      DecimalIsDigits(s);
    }
  }

  /** `$(k)` is the k-th argument of the enclosing call, counted from 1; with fewer arguments it is an ordinary call
      by that name. */
  lemma ArgumentNamed(w: World, vars: seq<Variable>, k: nat, argv: seq<string>)
    requires |argv| < ULONG - 1
    ensures 1 <= k <= |argv| ==> Clause(w, vars, Digits(k), argv) == Ok(argv[k - 1])
    ensures k == 0 || k > |argv| ==> Clause(w, vars, Digits(k), argv) == Call(w, vars, Digits(k), [])
  {
    WholeOfDigits(k);
    if k == 0 || k > |argv| {
      DigitsArePlain(k);
      ClauseOfName(w, vars, Digits(k), argv);
    }
  }

  lemma DigitsArePlain(k: nat)
    ensures PlainName(Digits(k))
  {
  }

  // ----- parentheses and commas -----

  /** Opening less closing parentheses. */
  function Depth(s: string): int {
    if s == [] then 0 else (if s[0] == '(' then 1 else if s[0] == ')' then -1 else 0) + Depth(s[1..])
  }

  lemma DepthPrefix(s: string, i: nat)
    requires 0 < i <= |s|
    ensures Depth(s[..i]) == (if s[0] == '(' then 1 else if s[0] == ')' then -1 else 0) + Depth(s[1..][..i - 1])
  {
    assert s[..i][1..] == s[1..][..i - 1];
  }

  /** No comma of `s` stands outside parentheses, if `nest` are open in front. */
  ghost predicate NoFreeComma(s: string, nest: int) {
    forall i | 0 <= i < |s| && s[i] == ',' :: nest + Depth(s[..i]) != 0
  }

  lemma NoFreeCommaTail(s: string, nest: int)
    requires s != [] && NoFreeComma(s, nest)
    ensures !(nest == 0 && s[0] == ',')
    ensures NoFreeComma(s[1..], if s[0] == '(' then nest + 1 else if s[0] == ')' then nest - 1 else nest)
  {
    if s[0] == ',' { assert nest + Depth(s[..0]) != 0; }
    forall i | 0 <= i < |s| - 1 && s[1..][i] == ','
      ensures (if s[0] == '(' then nest + 1 else if s[0] == ')' then nest - 1 else nest) + Depth(s[1..][..i]) != 0
    {
      DepthPrefix(s, i + 1);
      assert s[i + 1] == ',';
    }
  }

  lemma {:induction false} CommaAfter(s: string, t: string, nest: int)
    requires NoFreeComma(s, nest) && nest + Depth(s) == 0
    ensures CommaAt(s + "," + t, nest) == Some(|s|)
  {
    var u := s + "," + t;
    if s != [] {
      NoFreeCommaTail(s, nest);
      assert u[0] == s[0] && u[1..] == s[1..] + "," + t;
      CommaAfter(s[1..], t, if s[0] == '(' then nest + 1 else if s[0] == ')' then nest - 1 else nest);
    }
  }

  lemma {:induction false} CommaNowhere(s: string, nest: int)
    requires NoFreeComma(s, nest)
    ensures CommaAt(s, nest).None?
  {
    if s != [] {
      NoFreeCommaTail(s, nest);
      CommaNowhere(s[1..], if s[0] == '(' then nest + 1 else if s[0] == ')' then nest - 1 else nest);
    }
  }

  /** No closing parenthesis of `s` is one too many, and none is missing, if `nest` are open in front. */
  ghost predicate Closed(s: string, nest: int) {
    nest + Depth(s) == 0 && forall i | 0 <= i <= |s| :: nest + Depth(s[..i]) >= 0
  }

  lemma {:induction false} CloseAfter(s: string, t: string, nest: nat)
    requires Closed(s, nest)
    ensures CloseAt(s + ")" + t, nest) == Some(|s|)
  {
    var u := s + ")" + t;
    if s != [] {
      var n := if s[0] == '(' then nest + 1 else if s[0] == ')' then nest - 1 else nest;
      assert u[0] == s[0] && u[1..] == s[1..] + ")" + t;
      forall i | 0 <= i <= |s| - 1 ensures n + Depth(s[1..][..i]) >= 0 {
        DepthPrefix(s, i + 1);
        assert nest + Depth(s[..i + 1]) >= 0;
      }
      assert n + Depth(s[1..][..0]) >= 0;
      CloseAfter(s[1..], t, n);
    }
  }

  lemma {:induction false} FlatDepth(s: string)
    requires forall c <- s :: c != '(' && c != ')'
    ensures Depth(s) == 0
  {
    if s != [] {
      assert s[0] in s && forall c <- s[1..] :: c in s;
      FlatDepth(s[1..]);
    }
  }

  lemma FlatClosed(s: string)
    requires forall c <- s :: c != '(' && c != ')'
    ensures Closed(s, 0)
  {
    FlatDepth(s);
    forall i | 0 <= i <= |s| ensures Depth(s[..i]) >= 0 {
      assert forall c <- s[..i] :: c in s;
      FlatDepth(s[..i]);
    }
  }

  /** A reference ends at the parenthesis that closes it. */
  lemma ReferenceIs(w: World, vars: seq<Variable>, s: string, post: string, argv: seq<string>)
    requires Closed(s, 0)
    ensures Dollar(w, vars, "(" + s + ")" + post, argv) == Step(Clause(w, vars, s, argv), post)
  {
    var t := "(" + s + ")" + post;
    assert t[1..] == s + ")" + post;
    CloseAfter(s, post, 0);
    assert t[1..|s| + 1] == s && t[|s| + 2..] == post;
  }

  lemma ExpandReference(w: World, vars: seq<Variable>, s: string, argv: seq<string>)
    requires Closed(s, 0)
    ensures Expand(w, vars, "$(" + s + ")", false, argv).r == Clause(w, vars, s, argv)
  {
    var t := "$(" + s + ")";
    assert t[0] == '$' && t[1..] == "(" + s + ")" + "";
    ReferenceIs(w, vars, s, "", argv);
    var r := Clause(w, vars, s, argv);
    if r.Ok? { assert r.text + "" == r.text; }
  }

  /** Texts with commas between them. */
  function CommaList(ps: seq<string>): string
    requires ps != []
  {
    if |ps| == 1 then ps[0] else ps[0] + "," + CommaList(ps[1..])
  }

  /** Texts that a list of them can be cut into again. */
  ghost predicate Separable(ps: seq<string>) {
    forall p <- ps :: NoFreeComma(p, 0) && Depth(p) == 0
  }

  /** A clause is cut at its commas outside parentheses, and nowhere else. */
  lemma {:induction false} PartsOfList(ps: seq<string>)
    requires ps != [] && Separable(ps)
    ensures Parts(CommaList(ps)) == ps
  {
    var s := CommaList(ps);
    assert ps[0] in ps;
    if |ps| == 1 {
      CommaNowhere(s, 0);
    } else {
      var t := CommaList(ps[1..]);
      CommaAfter(ps[0], t, 0);
      assert s[..|ps[0]|] == ps[0] && s[|ps[0]| + 1..] == t;
      assert forall p <- ps[1..] :: p in ps;
      PartsOfList(ps[1..]);
    }
  }

  // ----- calls -----

  /** The expansions of several texts. */
  ghost predicate ExpandTo(w: World, vars: seq<Variable>, ps: seq<string>, argv: seq<string>, xs: seq<string>) {
    |xs| == |ps| && forall i | 0 <= i < |ps| :: Expand(w, vars, ps[i], false, argv).r == Ok(xs[i])
  }

  lemma {:induction false} PartsExpand(w: World, vars: seq<Variable>, ps: seq<string>, argv: seq<string>, xs: seq<string>, bound: nat)
    requires ExpandTo(w, vars, ps, argv, xs) && forall i | 0 <= i < |ps| :: |ps[i]| <= bound
    ensures ExpandParts(w, vars, ps, argv, bound) == GoodParts(xs)
    decreases |ps|
  {
    if ps != [] {
      assert forall i | 0 <= i < |ps| - 1 :: ps[1..][i] == ps[i + 1] && xs[1..][i] == xs[i + 1];
      PartsExpand(w, vars, ps[1..], argv, xs[1..], bound);
      assert xs == [xs[0]] + xs[1..];
    }
  }

  lemma ListStarts(ps: seq<string>)
    requires ps != [] && StartsName(ps[0])
    ensures StartsName(CommaList(ps))
  {
  }

  /** A clause calls what its first part expands to with what the others expand to; it may have fifteen arguments. */
  lemma ClauseOfCall(w: World, vars: seq<Variable>, ps: seq<string>, argv: seq<string>, xs: seq<string>)
    requires ps != [] && Separable(ps) && StartsName(ps[0]) && ExpandTo(w, vars, ps, argv, xs)
    ensures Clause(w, vars, CommaList(ps), argv) == if |ps| <= 16 then Call(w, vars, xs[0], xs[1..]) else Err(TooManyParts)
  {
    ListStarts(ps);
    NameIsNoNumber(CommaList(ps), |argv|);
    PartsOfList(ps);
    if |ps| <= 16 { PartsExpand(w, vars, ps, argv, xs, |CommaList(ps)|); }
  }

  /** A piece of the text of a user-defined function: plain text, or an argument. */
  datatype Piece = Text(text: string) | Arg(number: nat)

  predicate PieceOk(p: Piece, argc: nat) {
    match p
    case Text(t) => NoDollar(t)
    case Arg(k) => 1 <= k <= argc
  }

  function PieceText(p: Piece): string {
    match p
    case Text(t) => t
    case Arg(k) => "$(" + Digits(k) + ")"
  }

  function PieceValue(p: Piece, args: seq<string>): string
    requires PieceOk(p, |args|)
  {
    match p
    case Text(t) => t
    case Arg(k) => args[k - 1]
  }

  function Body(ps: seq<Piece>): string { if ps == [] then "" else PieceText(ps[0]) + Body(ps[1..]) }

  /** The text with the arguments in place of their numbers. */
  function Filled(ps: seq<Piece>, args: seq<string>): string
    requires forall p <- ps :: PieceOk(p, |args|)
  {
    if ps == [] then "" else PieceValue(ps[0], args) + Filled(ps[1..], args)
  }

  lemma {:induction false} NoDollarWhole(s: string)
    requires NoDollar(s)
    ensures Whole(s)
    decreases |s|
  {
    if s != [] {
      assert s[0] in s && forall c <- s[1..] :: c in s;
      NoDollarWhole(s[1..]);
    }
  }

  lemma PieceExpands(w: World, vars: seq<Variable>, p: Piece, args: seq<string>)
    requires PieceOk(p, |args|) && |args| < ULONG - 1
    ensures Whole(PieceText(p)) && Expand(w, vars, PieceText(p), false, args).r == Ok(PieceValue(p, args))
  {
    match p
    case Text(t) =>
      NoDollarWhole(t);
      ExpandPlain(w, vars, t, args);
    case Arg(k) =>
      var s, t := Digits(k), PieceText(p);
      assert t[0] == '$' && t[1] == '(' && t[2..] == s + ")" + "";
      CloseAtPlain(s, "");
      assert t[|s| + 3..] == "";
      ArgumentNamed(w, vars, k, args);
      assert t[1..][1..] == t[2..] && t[1..][1..|s| + 1] == s && t[1..][|s| + 2..] == "";
      assert args[k - 1] + "" == args[k - 1];
  }

  /** The text of a function expands to itself with the arguments filled in. */
  lemma {:induction false} BodyExpands(w: World, vars: seq<Variable>, ps: seq<Piece>, args: seq<string>)
    requires (forall p <- ps :: PieceOk(p, |args|)) && |args| < ULONG - 1
    ensures Expand(w, vars, Body(ps), false, args).r == Ok(Filled(ps, args))
  {
    if ps != [] {
      assert ps[0] in ps && forall p <- ps[1..] :: p in ps;
      PieceExpands(w, vars, ps[0], args);
      BodyExpands(w, vars, ps[1..], args);
      ExpandConcat(w, vars, PieceText(ps[0]), Body(ps[1..]), args);
    }
  }

  /** A call of a user-defined function is its text with the arguments filled in. */
  lemma UserFunction(w: World, vars: seq<Variable>, f: string, ps: seq<Piece>, args: seq<string>)
    requires Lookup(vars, f).Some? && (forall p <- ps :: PieceOk(p, |args|)) && |args| < ULONG - 1
    requires var v := vars[Lookup(vars, f).value]; v.flavor.RecursiveVar? && v.value == Some(Body(ps)) && v.expCount == 0
    ensures Call(w, vars, f, args) == Ok(Filled(ps, args))
  {
    var i := Lookup(vars, f).value;
    EnteringSpends(vars, i);
    BodyExpands(w, Entering(vars, i), ps, args);
  }

  /** The same for the call as it is written, with arguments that are expanded first. */
  lemma UserCall(w: World, vars: seq<Variable>, f: string, ps: seq<Piece>, args: seq<string>, xs: seq<string>, argv: seq<string>)
    requires PlainName(f) && StartsName(f) && |args| <= 15 && Separable([f] + args) && ExpandTo(w, vars, args, argv, xs)
    requires Closed(CommaList([f] + args), 0)
    requires Lookup(vars, f).Some? && (forall p <- ps :: PieceOk(p, |xs|))
    requires var v := vars[Lookup(vars, f).value]; v.flavor.RecursiveVar? && v.value == Some(Body(ps)) && v.expCount == 0
    ensures Expand(w, vars, "$(" + CommaList([f] + args) + ")", false, argv).r == Ok(Filled(ps, xs))
  {
    NamedCall(w, vars, f, args, xs, argv);
    UserFunction(w, vars, f, ps, xs);
    ExpandReference(w, vars, CommaList([f] + args), argv);
  }

  lemma NamedCall(w: World, vars: seq<Variable>, f: string, args: seq<string>, xs: seq<string>, argv: seq<string>)
    requires PlainName(f) && StartsName(f) && |args| <= 15 && Separable([f] + args) && ExpandTo(w, vars, args, argv, xs)
    ensures Clause(w, vars, CommaList([f] + args), argv) == Call(w, vars, f, xs)
  {
    ExpandPlain(w, vars, f, argv);
    assert ([f] + xs)[1..] == xs && ([f] + args)[0] == f;
    ClauseOfCall(w, vars, [f] + args, argv, [f] + xs);
  }

  // ----- the end of a token -----

  /** Text without `$` is read up to the first character that ends a token. */
  lemma {:induction false} TokenStops(w: World, vars: seq<Variable>, s: string, k: nat, argv: seq<string>)
    requires NoDollar(s) && k <= |s| && (forall i | 0 <= i < k :: !EndsToken(s[i])) && (k < |s| ==> EndsToken(s[k]))
    ensures Expand(w, vars, s, true, argv) == Step(Ok(s[..k]), s[k..])
    decreases |s|
  {
    if k > 0 {
      assert s[0] in s && forall c <- s[1..] :: c in s;
      TokenStops(w, vars, s[1..], k - 1, argv);
      assert s[..1] + s[1..][..k - 1] == s[..k] && s[1..][k - 1..] == s[k..];
    } else if s != [] {
      assert s[0] in s && s[0..] == s;
    }
  }

  // ----- calls within calls -----

  /** A function whose text is a call of itself is cut off. */
  lemma {:induction false} EndlessCall(w: World, vars: seq<Variable>, f: string, x: string, args: seq<string>)
    requires PlainName(f) && PlainName(x) && StartsName(f) && args != [] && Lookup(vars, f).Some?
    requires var v := vars[Lookup(vars, f).value]; v.flavor.RecursiveVar? && v.value == Some("$(" + CommaList([f] + [x]) + ")")
    ensures Call(w, vars, f, args) == Err(TooDeep)
    decreases Budget(vars)
  {
    var i := Lookup(vars, f).value;
    if vars[i].expCount <= MAX_DEPTH {
      EnteringSpends(vars, i);
      LookupEntering(vars, i, f);
      EndlessCall(w, Entering(vars, i), f, x, [x]);
      EndlessStep(w, Entering(vars, i), f, x, args);
    }
  }

  lemma EndlessStep(w: World, vars: seq<Variable>, f: string, x: string, args: seq<string>)
    requires PlainName(f) && PlainName(x) && StartsName(f) && Call(w, vars, f, [x]) == Err(TooDeep)
    ensures Expand(w, vars, "$(" + CommaList([f] + [x]) + ")", false, args).r == Err(TooDeep)
  {
    PlainPair(f, x);
    ExpandPlain(w, vars, x, args);
    NamedCall(w, vars, f, [x], [x], args);
    ExpandReference(w, vars, CommaList([f] + [x]), args);
  }

  lemma PlainPair(f: string, x: string)
    requires PlainName(f) && PlainName(x)
    ensures Separable([f] + [x]) && Closed(CommaList([f] + [x]), 0)
  {
    FlatDepth(f);
    FlatDepth(x);
    forall s: string, i | (s == f || s == x) && 0 <= i < |s| ensures s[i] != ',' { assert s[i] in s; }
    assert forall p <- [f] + [x] :: p == f || p == x;
    assert CommaList([f] + [x]) == f + "," + x;
    FlatClosed(f + "," + x);
  }

  // ----- names that are no variables -----

  /** The built-in functions, when no variable hides them: `error-if` alone can stop the program, and only for y. */
  lemma Builtins(w: World, vars: seq<Variable>, x: string, y: string)
    requires forall v <- vars :: !IsFunction(v.name)
    ensures Call(w, vars, "error-if", [x, y]) == if x == "y" then Err(UserError(y)) else Ok("")
    ensures Call(w, vars, "warning-if", [x, y]) == Ok("") && Call(w, vars, "info", [x]) == Ok("")
    ensures Call(w, vars, "filename", []) == Ok(w.filename) && Call(w, vars, "lineno", []) == Ok(w.lineno)
    ensures w.shell(x).Some? ==> Call(w, vars, "shell", [x]) == Ok(w.shell(x).value)
    ensures Call(w, vars, "shell", []) == Err(TooFewArguments("shell")) && Call(w, vars, "lineno", [x]) == Err(TooManyArguments("lineno"))
  {
    forall n: string | IsFunction(n) ensures Lookup(vars, n).None? { LookupNone(vars, n); }
  }

  /** A name that is neither a variable nor a function is the environment variable, if it comes without arguments, and
      otherwise nothing. */
  lemma FromEnvironment(w: World, vars: seq<Variable>, n: string, args: seq<string>)
    requires !IsFunction(n) && (forall v <- vars :: v.name != n)
    ensures args == [] && n != "" && w.getenv(n).Some? ==> Call(w, vars, n, args) == Ok(w.getenv(n).value)
    ensures args != [] || n == "" || w.getenv(n).None? ==> Call(w, vars, n, args) == Ok("")
  {
    LookupNone(vars, n);
  }
}
