/** Laws of macro expansion. */
module MacroLaws {
  import opened Tristates
  import opened Macros

  // ----- how many expansions are under way does not show in a result -----

  /** The same variables, none busier. */
  ghost predicate LessBusy(a: seq<Variable>, b: seq<Variable>) {
    |a| == |b| && forall i | 0 <= i < |a| :: a[i] == b[i].(expCount := a[i].expCount) && a[i].expCount <= b[i].expCount
  }

  lemma {:induction false} LookupLessBusy(a: seq<Variable>, b: seq<Variable>, name: string)
    requires LessBusy(a, b)
    ensures Lookup(a, name) == Lookup(b, name)
    decreases |a|
  {
    if a != [] {
      assert a[0] == b[0].(expCount := a[0].expCount);
      LookupLessBusy(a[1..], b[1..], name);
    }
  }

  /** What expands without error expands to the same where fewer expansions are under way: errors
      apart, the counts cannot be seen. */
  lemma {:induction false} ExpandLessBusy(w: World, a: seq<Variable>, b: seq<Variable>, s: string, token: bool, argv: seq<string>)
    requires LessBusy(a, b) && Expand(w, b, s, token, argv).r.Ok?
    ensures Expand(w, a, s, token, argv) == Expand(w, b, s, token, argv)
    decreases Budget(b), |s|, 2, 0
  {
    if s != [] {
      if s[0] == '$' {
        var d := Dollar(w, b, s[1..], argv);
        DollarLessBusy(w, a, b, s[1..], argv);
        ExpandLessBusy(w, a, b, d.rest, token, argv);
      } else if !(token && EndsToken(s[0])) {
        ExpandLessBusy(w, a, b, s[1..], token, argv);
      }
    }
  }

  lemma {:induction false} DollarLessBusy(w: World, a: seq<Variable>, b: seq<Variable>, s: string, argv: seq<string>)
    requires LessBusy(a, b) && Dollar(w, b, s, argv).r.Ok?
    ensures Dollar(w, a, s, argv) == Dollar(w, b, s, argv)
    decreases Budget(b), |s|, 5, 0
  {
    if s != [] && s[0] == '(' {
      var k := CloseAt(s[1..], 0);
      ClauseLessBusy(w, a, b, s[1..k.value + 1], argv);
    }
  }

  lemma {:induction false} ClauseLessBusy(w: World, a: seq<Variable>, b: seq<Variable>, s: string, argv: seq<string>)
    requires LessBusy(a, b) && Clause(w, b, s, argv).Ok?
    ensures Clause(w, a, s, argv) == Clause(w, b, s, argv)
    decreases Budget(b), |s|, 4, 0
  {
    if ArgumentIndex(s, |argv|).None? {
      var parts := Parts(s);
      var texts := ExpandParts(w, b, parts, argv, |s|);
      PartsLessBusy(w, a, b, parts, argv, |s|);
      CallLessBusy(w, a, b, texts.texts[0], texts.texts[1..]);
    }
  }

  lemma {:induction false} PartsLessBusy(w: World, a: seq<Variable>, b: seq<Variable>, parts: seq<string>, argv: seq<string>, bound: nat)
    requires forall i | 0 <= i < |parts| :: |parts[i]| <= bound
    requires LessBusy(a, b) && ExpandParts(w, b, parts, argv, bound).GoodParts?
    ensures ExpandParts(w, a, parts, argv, bound) == ExpandParts(w, b, parts, argv, bound)
    decreases Budget(b), bound, 3, |parts|
  {
    if parts != [] {
      ExpandLessBusy(w, a, b, parts[0], false, argv);
      PartsLessBusy(w, a, b, parts[1..], argv, bound);
    }
  }

  lemma {:induction false} CallLessBusy(w: World, a: seq<Variable>, b: seq<Variable>, name: string, args: seq<string>)
    requires LessBusy(a, b) && Call(w, b, name, args).Ok?
    ensures Call(w, a, name, args) == Call(w, b, name, args)
    decreases Budget(b), 0, 0, 0
  {
    LookupLessBusy(a, b, name);
    var i := Lookup(b, name);
    if i.Some? {
      assert a[i.value] == b[i.value].(expCount := a[i.value].expCount);
      if b[i.value].flavor.RecursiveVar? {
        EnteringSpends(b, i.value);
        ExpandLessBusy(w, Entering(a, i.value), Entering(b, i.value), b[i.value].value.value, false, args);
      }
    }
  }

  // ----- references that come back to themselves -----

  predicate PlainName(n: string) { forall c <- n :: c != '$' && c != '(' && c != ')' && c != ',' }

  predicate NoDollar(s: string) { forall c <- s :: c != '$' }

  /** `text` starts, after text without `$`, with a reference to `name`. */
  ghost predicate RefersTo(text: string, name: string) {
    exists pre: string, post: string :: NoDollar(pre) && text == pre + ("$(" + name + ")") + post
  }

  /** Each of the names is a recursive variable whose text refers to the next one. */
  ghost predicate Ring(vars: seq<Variable>, next: map<string, string>) {
    forall n <- next :: RingAt(vars, next, n)
  }

  ghost predicate RingAt(vars: seq<Variable>, next: map<string, string>, n: string)
    requires n in next
  {
    && PlainName(n) && Lookup(vars, n).Some? && next[n] in next
    && var v := vars[Lookup(vars, n).value]; v.flavor.RecursiveVar? && v.value.Some? && RefersTo(v.value.value, next[n])
  }

  lemma {:induction false} CloseAtPlain(n: string, post: string)
    requires PlainName(n)
    ensures CloseAt(n + ")" + post, 0) == Some(|n|)
  {
    var s := n + ")" + post;
    if n != [] {
      assert s[0] == n[0] && s[1..] == n[1..] + ")" + post;
      assert n[0] in n && forall c <- n[1..] :: c in n;
      CloseAtPlain(n[1..], post);
    }
  }

  lemma {:induction false} CommaAtPlain(n: string)
    requires PlainName(n)
    ensures CommaAt(n, 0).None?
  {
    if n != [] {
      assert n[0] in n && forall c <- n[1..] :: c in n;
      CommaAtPlain(n[1..]);
    }
  }

  /** Text without `$` stands for itself. */
  lemma {:induction false} ExpandPlain(w: World, vars: seq<Variable>, s: string, argv: seq<string>)
    requires NoDollar(s)
    ensures Expand(w, vars, s, false, argv) == Step(Ok(s), "")
    decreases |s|
  {
    if s != [] {
      assert s[0] in s && forall c <- s[1..] :: c in s;
      ExpandPlain(w, vars, s[1..], argv);
      assert s[..1] + s[1..] == s;
    }
  }

  lemma {:induction false} ExpandAfterPlain(w: World, vars: seq<Variable>, pre: string, t: string, argv: seq<string>)
    requires NoDollar(pre) && Expand(w, vars, t, false, argv).r.Err?
    ensures Expand(w, vars, pre + t, false, argv).r == Expand(w, vars, t, false, argv).r
    decreases |pre|
  {
    if pre == [] {
      assert pre + t == t;
    } else {
      assert pre[0] in pre && forall c <- pre[1..] :: c in pre;
      assert (pre + t)[0] == pre[0] && (pre + t)[1..] == pre[1..] + t;
      ExpandAfterPlain(w, vars, pre[1..], t, argv);
    }
  }

  /** A clause that is just a name, and no argument, calls it. */
  lemma ClauseOfName(w: World, vars: seq<Variable>, n: string, argv: seq<string>)
    requires PlainName(n) && ArgumentIndex(n, |argv|).None?
    ensures Clause(w, vars, n, argv) == Call(w, vars, n, [])
  {
    CommaAtPlain(n);
    assert Parts(n) == [n];
    ExpandPlain(w, vars, n, argv);
    assert [n][1..] == [];
    assert ExpandParts(w, vars, [n], argv, |n|) == GoodParts([n]);
  }

  lemma DollarOfName(w: World, vars: seq<Variable>, n: string, post: string)
    requires PlainName(n)
    ensures Dollar(w, vars, "(" + n + ")" + post, []).r == Call(w, vars, n, [])
  {
    var s := "(" + n + ")" + post;
    assert s[1..] == n + ")" + post;
    CloseAtPlain(n, post);
    assert s[1..|n| + 1] == n;
    ClauseOfName(w, vars, n, []);
  }

  lemma RefersFails(w: World, vars: seq<Variable>, text: string, n: string)
    requires PlainName(n) && RefersTo(text, n) && Call(w, vars, n, []).Err?
    ensures Expand(w, vars, text, false, []).r == Call(w, vars, n, [])
  {
    var pre: string, post: string :| NoDollar(pre) && text == pre + ("$(" + n + ")") + post;
    var t := "$(" + n + ")" + post;
    assert text == pre + t;
    assert t[0] == '$' && t[1..] == "(" + n + ")" + post;
    DollarOfName(w, vars, n, post);
    ExpandAfterPlain(w, vars, pre, t, []);
  }

  /** Variables that refer to each other in a ring never expand: each ends in the error that one of them refers to
      itself, not in an endless expansion. */
  lemma {:induction false} RingFails(w: World, vars: seq<Variable>, next: map<string, string>, n: string)
    requires Ring(vars, next) && n in next
    ensures Call(w, vars, n, []).Err? && var e := Call(w, vars, n, []).error; e.SelfReference? && e.name in next
    decreases Budget(vars)
  {
    assert RingAt(vars, next, n);
    var i := Lookup(vars, n).value;
    if vars[i].expCount == 0 {
      EnteringSpends(vars, i);
      RingEntering(vars, i, next);
      RingFails(w, Entering(vars, i), next, next[n]);
      assert RingAt(vars, next, next[n]);
      RefersFails(w, Entering(vars, i), vars[i].value.value, next[n]);
      CallOpens(w, vars, n);
    }
  }

  lemma CallOpens(w: World, vars: seq<Variable>, n: string)
    requires Lookup(vars, n).Some?
    requires var v := vars[Lookup(vars, n).value]; v.flavor.RecursiveVar? && v.value.Some? && v.expCount == 0
    ensures var i := Lookup(vars, n).value; Call(w, vars, n, []) == Expand(w, Entering(vars, i), vars[i].value.value, false, []).r
  {
  }

  lemma RingEntering(vars: seq<Variable>, i: nat, next: map<string, string>)
    requires i < |vars| && Ring(vars, next)
    ensures Ring(Entering(vars, i), next)
  {
    forall n <- next ensures RingAt(Entering(vars, i), next, n) {
      assert RingAt(vars, next, n);
      LookupEntering(vars, i, n);
    }
  }

  lemma {:induction false} LookupEntering(vars: seq<Variable>, i: nat, x: string)
    requires i < |vars|
    ensures Lookup(Entering(vars, i), x) == Lookup(vars, x)
  {
    if i == 0 {
      assert Entering(vars, i)[1..] == vars[1..];
    } else {
      LookupEntering(vars[1..], i - 1, x);
      assert Entering(vars, i)[1..] == Entering(vars[1..], i - 1);
    }
  }

  // ----- texts side by side -----

  /** Every reference is closed within the text, and it does not end in a bare `$`. */
  predicate Whole(s: string)
    decreases |s|
  {
    if s == [] then true
    else if s[0] != '$' then Whole(s[1..])
    else if |s| == 1 then false
    else if s[1] != '(' then Whole(s[1..])
    else
      var k := CloseAt(s[2..], 0);
      k.Some? && Whole(s[k.value + 3..])
  }

  lemma {:induction false} CloseAtAppend(s: string, t: string, nest: nat)
    requires CloseAt(s, nest).Some?
    ensures CloseAt(s + t, nest) == CloseAt(s, nest)
  {
    assert (s + t)[1..] == s[1..] + t;
    if !(s[0] == ')' && nest == 0) {
      CloseAtAppend(s[1..], t, if s[0] == '(' then nest + 1 else if s[0] == ')' then nest - 1 else nest);
    }
  }

  function Joined(x: Result, y: Result): Result { if x.Err? then x else Before(x.text, y) }

  lemma JoinedBefore(x: string, y: Result, z: Result)
    ensures Joined(Before(x, y), z) == Before(x, Joined(y, z))
  {
  }

  /** A text whose references are closed expands by itself: what follows it does not matter. */
  lemma {:induction false} ExpandConcat(w: World, vars: seq<Variable>, a: string, b: string, argv: seq<string>)
    requires Whole(a)
    ensures Expand(w, vars, a + b, false, argv).r == Joined(Expand(w, vars, a, false, argv).r, Expand(w, vars, b, false, argv).r)
    decreases |a|
  {
    if a == [] {
      assert a + b == b;
      var r := Expand(w, vars, b, false, argv).r;
      if r.Ok? { assert "" + r.text == r.text; }
    } else {
      assert (a + b)[0] == a[0] && (a + b)[1..] == a[1..] + b && (a + b)[..1] == a[..1];
      if a[0] != '$' {
        ExpandConcat(w, vars, a[1..], b, argv);
        JoinedBefore(a[..1], Expand(w, vars, a[1..], false, argv).r, Expand(w, vars, b, false, argv).r);
      } else {
        var x := Dollar(w, vars, a[1..], argv);
        DollarConcat(w, vars, a[1..], b, argv);
        if x.r.Ok? {
          ExpandConcat(w, vars, x.rest, b, argv);
          JoinedBefore(x.r.text, Expand(w, vars, x.rest, false, argv).r, Expand(w, vars, b, false, argv).r);
        }
      }
    }
  }

  lemma DollarConcat(w: World, vars: seq<Variable>, s: string, b: string, argv: seq<string>)
    requires s != [] && Whole("$" + s)
    ensures var x := Dollar(w, vars, s, argv); Whole(x.rest) && Dollar(w, vars, s + b, argv) == Step(x.r, x.rest + b)
  {
    var t := "$" + s;
    assert t[1..] == s && t[1] == s[0];
    if s[0] == '(' {
      assert t[2..] == s[1..];
      var k := CloseAt(s[1..], 0).value;
      assert t[k + 3..] == s[k + 2..];
      ClosedConcat(s, b, k);
    }
  }

  lemma ClosedConcat(s: string, b: string, k: nat)
    requires s != [] && CloseAt(s[1..], 0) == Some(k)
    ensures k + 2 <= |s| && (s + b)[1..] == s[1..] + b && CloseAt((s + b)[1..], 0) == Some(k)
    ensures (s + b)[k + 2..] == s[k + 2..] + b && (s + b)[1..k + 1] == s[1..k + 1]
  {
    assert (s + b)[1..] == s[1..] + b;
    CloseAtAppend(s[1..], b, 0);
  }

  // ----- assignments -----

  predicate DistinctNames(vars: seq<Variable>) {
    forall i, j | 0 <= i < j < |vars| :: vars[i].name != vars[j].name
  }

  lemma {:induction false} LookupIs(vars: seq<Variable>, i: nat)
    requires i < |vars| && DistinctNames(vars)
    ensures Lookup(vars, vars[i].name) == Some(i)
  {
    if i > 0 {
      assert vars[0].name != vars[i].name;
      LookupIs(vars[1..], i - 1);
    }
  }

  lemma {:induction false} LookupNone(vars: seq<Variable>, name: string)
    ensures Lookup(vars, name).None? <==> forall v <- vars :: v.name != name
  {
    if vars != [] {
      LookupNone(vars[1..], name);
    }
  }

  /** An assignment leaves the variables at rest with distinct names, changes no other variable, and
      gives the named one its value: the text itself, its expansion, or the old value, a blank and
      either of them. */
  lemma AssignKeeps(w: World, vars: seq<Variable>, name: string, value: string, how: Assignment)
    requires AtRest(vars) && DistinctNames(vars) && Assign(w, vars, name, value, how).Variables?
    ensures NewText(w, vars, name, value, how).Ok?
    ensures Assigns(vars, Assign(w, vars, name, value, how).vars, name, how, NewText(w, vars, name, value, how).text)
  {
    StoredAssigns(vars, name, how, NewText(w, vars, name, value, how).text);
  }

  ghost predicate Assigns(vars: seq<Variable>, r: seq<Variable>, name: string, how: Assignment, text: string) {
    var i, j := Lookup(vars, name), Lookup(r, name);
    && AtRest(r) && DistinctNames(r) && j.Some? && |r| == (if i.Some? then |vars| else |vars| + 1)
    && (forall k | 0 <= k < |vars| && vars[k].name != name :: r[k] == vars[k])
    && r[j.value].flavor == FlavorFor(vars, name, how)
    && (how.Simple? ==> r[j.value].flavor == SimpleVar) && (how.Recursive? ==> r[j.value].flavor == RecursiveVar)
    && (how.Append? ==> r[j.value].flavor == if i.Some? then vars[i.value].flavor else RecursiveVar)
    && r[j.value].value == Some(if how.Append? && i.Some? && vars[i.value].value.Some? then vars[i.value].value.value + " " + text else text)
  }

  lemma StoredAssigns(vars: seq<Variable>, name: string, how: Assignment, text: string)
    requires AtRest(vars) && DistinctNames(vars)
    ensures Assigns(vars, Stored(vars, name, how, text), name, how, text)
  {
    var i := Lookup(vars, name);
    LookupNone(vars, name);
    if i.None? {
      AddedOne(vars, Variable(name, Some(text), FlavorFor(vars, name, how), 0));
      assert Stored(vars, name, how, text) == vars + [Variable(name, Some(text), FlavorFor(vars, name, how), 0)];
    } else {
      var v := Stored(vars, name, how, text)[i.value];
      assert v.name == name && Stored(vars, name, how, text) == vars[i.value := v];
      ReplacedOne(vars, i.value, v);
    }
  }

  lemma AddedOne(vars: seq<Variable>, v: Variable)
    requires AtRest(vars) && DistinctNames(vars) && v.value.Some? && v.expCount == 0 && forall u <- vars :: u.name != v.name
    ensures AtRest(vars + [v]) && DistinctNames(vars + [v]) && Lookup(vars + [v], v.name) == Some(|vars|)
  {
    LookupIs(vars + [v], |vars|);
  }

  lemma ReplacedOne(vars: seq<Variable>, i: nat, v: Variable)
    requires AtRest(vars) && DistinctNames(vars) && v.value.Some? && v.expCount == 0 && i < |vars| && v.name == vars[i].name
    ensures AtRest(vars[i := v]) && DistinctNames(vars[i := v]) && Lookup(vars[i := v], v.name) == Some(i)
  {
    LookupIs(vars[i := v], i);
  }

  /** When an assigned text is expanded: at the assignment with `:=`, and at each use with `=`. */
  lemma AssignedCall(w: World, vars: seq<Variable>, name: string, value: string, how: Assignment, args: seq<string>)
    requires AtRest(vars) && DistinctNames(vars) && Assign(w, vars, name, value, how).Variables?
    ensures var r := Assign(w, vars, name, value, how).vars; Lookup(r, name).Some?
    ensures how.Simple? ==>
      Call(w, Assign(w, vars, name, value, how).vars, name, args) == Expand(w, Emptied(vars, name, how), value, false, []).r
    ensures how.Recursive? ==>
      var r := Assign(w, vars, name, value, how).vars;
      Call(w, r, name, args) == Expand(w, Entering(r, Lookup(r, name).value), value, false, args).r
  {
    AssignKeeps(w, vars, name, value, how);
  }

  /** A variable assigned with `:=` in terms of itself has no value to read at that point. */
  lemma ImmediateSelf(w: World, vars: seq<Variable>, name: string)
    requires AtRest(vars) && PlainName(name)
    ensures Assign(w, vars, name, "$(" + name + ")", Simple) == Failed(NoValueYet(name))
  {
    var during, text := Emptied(vars, name, Simple), "$(" + name + ")";
    EmptiedLookup(vars, name);
    assert text[0] == '$' && text[1..] == "(" + name + ")" + "";
    DollarOfName(w, during, name, "");
  }

  lemma EmptiedLookup(vars: seq<Variable>, name: string)
    requires AtRest(vars)
    ensures var e := Emptied(vars, name, Simple);
      Lookup(e, name).Some? && e[Lookup(e, name).value].value.None? && e[Lookup(e, name).value].expCount == 0
  {
    var i := Lookup(vars, name);
    if i.Some? {
      LookupUpdate(vars, i.value, vars[i.value].(value := None, flavor := SimpleVar), name);
    } else {
      LookupPast(vars, Variable(name, None, SimpleVar, 0));
    }
  }

  lemma {:induction false} LookupUpdate(vars: seq<Variable>, i: nat, v: Variable, x: string)
    requires i < |vars| && v.name == vars[i].name
    ensures Lookup(vars[i := v], x) == Lookup(vars, x)
  {
    if i == 0 {
      assert vars[i := v][1..] == vars[1..];
    } else {
      LookupUpdate(vars[1..], i - 1, v, x);
      assert vars[i := v][1..] == vars[1..][i - 1 := v];
    }
  }

  lemma {:induction false} LookupPast(vars: seq<Variable>, v: Variable)
    requires Lookup(vars, v.name).None?
    ensures Lookup(vars + [v], v.name) == Some(|vars|)
  {
    if vars != [] {
      assert (vars + [v])[1..] == vars[1..] + [v];
      LookupPast(vars[1..], v);
    }
  }
}
