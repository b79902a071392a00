/** scripts/config/preprocess.c as it runs: expansion counts go up and down in place, clauses are cut
    at their commas, output grows in a loop. */
module Preprocess {
  import opened Tristates
  import opened Macros
  import opened MacroCalls

  function Prepend(x: string, o: Step): Step { Step(Before(x, o.r), o.rest) }

  lemma PrependTwice(x: string, y: string, o: Step)
    ensures Prepend(x, Prepend(y, o)) == Prepend(x + y, o)
  {
    if o.r.Ok? { assert x + (y + o.r.text) == (x + y) + o.r.text; }
  }

  lemma DollarStep(w: World, vars: seq<Variable>, s: string, token: bool, argv: seq<string>, x: Step)
    requires s != [] && s[0] == '$' && x == Dollar(w, vars, s[1..], argv)
    ensures Expand(w, vars, s, token, argv) == if x.r.Err? then x else Prepend(x.r.text, Expand(w, vars, x.rest, token, argv))
  {
  }

  lemma CharStep(w: World, vars: seq<Variable>, s: string, token: bool, argv: seq<string>)
    requires s != [] && s[0] != '$' && !(token && EndsToken(s[0]))
    ensures Expand(w, vars, s, token, argv) == Prepend(s[..1], Expand(w, vars, s[1..], token, argv))
  {
  }

  lemma EndStep(w: World, vars: seq<Variable>, s: string, token: bool, argv: seq<string>)
    requires s == [] || (s[0] != '$' && token && EndsToken(s[0]))
    ensures Expand(w, vars, s, token, argv) == Step(Ok(""), s)
  {
  }

  /** The loop of __expand_string at `p`: `done` has been produced, `ahead` is still to come. */
  ghost predicate Scanned(w: World, vars: seq<Variable>, str: string, token: bool, argv: seq<string>, goal: Step,
                          done: string, ahead: Step, p: nat) {
    p <= |str| && goal == Prepend(done, ahead) && ahead == Expand(w, vars, str[p..], token, argv)
  }

  lemma ScanStart(w: World, vars: seq<Variable>, str: string, token: bool, argv: seq<string>, goal: Step)
    requires goal == Expand(w, vars, str, token, argv)
    ensures Scanned(w, vars, str, token, argv, goal, "", goal, 0)
  {
  }

  lemma ScanChar(w: World, vars: seq<Variable>, str: string, token: bool, argv: seq<string>, goal: Step, done: string, ahead: Step, p: nat)
    returns (next: Step)
    requires Scanned(w, vars, str, token, argv, goal, done, ahead, p) && p < |str| && str[p] != '$' && !(token && EndsToken(str[p]))
    ensures Scanned(w, vars, str, token, argv, goal, done + [str[p]], next, p + 1)
  {
    var here := str[p..];
    assert here[..1] == [str[p]] && here[1..] == str[p + 1..];
    CharStep(w, vars, here, token, argv);
    next := Expand(w, vars, here[1..], token, argv);
    PrependTwice(done, [str[p]], next);
  }

  lemma ScanDollar(w: World, vars: seq<Variable>, str: string, token: bool, argv: seq<string>, goal: Step, done: string, ahead: Step, p: nat, x: Step)
    returns (next: Step)
    requires Scanned(w, vars, str, token, argv, goal, done, ahead, p) && p < |str| && str[p] == '$'
    requires x == Dollar(w, vars, str[p + 1..], argv)
    ensures x.r.Err? ==> goal == x
    ensures x.r.Ok? ==> p < |str| - |x.rest| && Scanned(w, vars, str, token, argv, goal, done + x.r.text, next, |str| - |x.rest|)
  {
    var here := str[p..];
    assert here[0] == '$' && here[1..] == str[p + 1..];
    DollarStep(w, vars, here, token, argv, x);
    next := x;
    if x.r.Ok? {
      next := Expand(w, vars, x.rest, token, argv);
      PrependTwice(done, x.r.text, next);
      DollarRest(w, vars, str[p + 1..], argv);
      assert str[|str| - |x.rest|..] == x.rest;
    }
  }

  lemma ScanEnd(w: World, vars: seq<Variable>, str: string, token: bool, argv: seq<string>, goal: Step, done: string, ahead: Step, p: nat)
    requires Scanned(w, vars, str, token, argv, goal, done, ahead, p) && (p == |str| || (str[p] != '$' && token && EndsToken(str[p])))
    ensures goal == Step(Ok(done), str[p..])
  {
    EndStep(w, vars, str[p..], token, argv);
    assert done + "" == done;
  }

  lemma NothingPending(out: string, str: string, p: nat)
    requires p <= |str|
    ensures out + str[p..p] == out
  {
  }

  lemma OneMorePending(out: string, str: string, start: nat, p: nat)
    requires start <= p < |str|
    ensures out + str[start..p + 1] == out + str[start..p] + [str[p]]
  {
  }

  /** The closing parenthesis of the reference is the one that closes `nest` more from `q` on. */
  ghost predicate Closing(str: string, q: nat, nest: nat) {
    1 <= q <= |str| && CloseAt(str[1..], 0) == Later(CloseAt(str[q..], nest), q - 1)
  }

  lemma ClosingNext(str: string, q: nat, nest: nat)
    requires Closing(str, q, nest) && q < |str|
    ensures str[q] == ')' && nest == 0 ==> CloseAt(str[1..], 0) == Some(q - 1)
    ensures str[q] == '(' ==> Closing(str, q + 1, nest + 1)
    ensures str[q] == ')' && nest > 0 ==> Closing(str, q + 1, nest - 1)
    ensures str[q] != '(' && str[q] != ')' ==> Closing(str, q + 1, nest)
  {
    assert str[q..][0] == str[q] && str[q..][1..] == str[q + 1..];
  }

  class Preprocessor {
    const w: World
    var vars: seq<Variable>

    /** __expand_string; `rest` is where the input pointer ends up. */
    method ExpandString(str: string, token: bool, argv: seq<string>) returns (o: Step)
      modifies this
      ensures o == Expand(w, old(vars), str, token, argv)
      ensures o.r.Ok? ==> vars == old(vars)
      decreases Budget(vars), |str|, 2, 0
    {
      ghost var goal, ahead := Expand(w, vars, str, token, argv), Expand(w, vars, str, token, argv);
      var start, p, out := 0, 0, "";
      ScanStart(w, vars, str, token, argv, goal);
      while p < |str| && (str[p] == '$' || !(token && EndsToken(str[p])))
        invariant 0 <= start <= p <= |str| && vars == old(vars)
        invariant Scanned(w, vars, str, token, argv, goal, out + str[start..p], ahead, p)
        decreases |str| - p
      {
        if str[p] == '$' {
          var x;
          x, ahead := Reference(str, p, token, argv, goal, out + str[start..p], ahead);
          if x.r.Err? {
            return x;
          }
          out := out + str[start..p] + x.r.text;
          p := |str| - |x.rest|;
          start := p;
          NothingPending(out, str, p);
        } else {
          ahead := ScanChar(w, vars, str, token, argv, goal, out + str[start..p], ahead, p);
          OneMorePending(out, str, start, p);
          p := p + 1;
        }
      }
      ScanEnd(w, vars, str, token, argv, goal, out + str[start..p], ahead, p);
      o := Step(Ok(out + str[start..p]), str[p..]);
    }

    /** The reference at `p`. */
    method Reference(str: string, p: nat, token: bool, argv: seq<string>, ghost goal: Step, ghost done: string, ghost ahead: Step)
      returns (x: Step, ghost next: Step)
      requires p < |str| && str[p] == '$' && Scanned(w, vars, str, token, argv, goal, done, ahead, p)
      modifies this
      ensures x.r.Err? ==> goal == x
      ensures x.r.Ok? ==> vars == old(vars) && p < |str| - |x.rest|
      ensures x.r.Ok? ==> Scanned(w, vars, str, token, argv, goal, done + x.r.text, next, |str| - |x.rest|)
      decreases Budget(vars), |str| - p - 1, 6, 0
    {
      ghost var v0 := vars;
      x := ExpandDollar(str[p + 1..], argv);
      next := ScanDollar(w, v0, str, token, argv, goal, done, ahead, p, x);
    }

    /** expand_dollar_with_args. */
    method ExpandDollar(str: string, argv: seq<string>) returns (o: Step)
      modifies this
      ensures o == Dollar(w, old(vars), str, argv)
      ensures o.r.Ok? ==> vars == old(vars)
      decreases Budget(vars), |str|, 5, 1
    {
      if str == [] || str[0] != '(' {
        return Step(Ok("$"), str);
      }
      var q := FindClose(str);
      if q == |str| {
        return Step(Err(Unterminated), str);
      }
      var r := EvalClause(str[1..q], argv);
      o := Step(r, str[q + 1..]);
    }

    /** The loop that looks for the parenthesis that closes the reference. */
    method FindClose(str: string) returns (q: nat)
      requires str != []
      ensures 1 <= q <= |str|
      ensures CloseAt(str[1..], 0) == if q == |str| then None else Some((q - 1) as nat)
    {
      var nest := 0;
      q := 1;
      while q < |str|
        invariant 0 <= nest && Closing(str, q, nest)
        decreases |str| - q
      {
        ClosingNext(str, q, nest);
        if str[q] == '(' {
          nest := nest + 1;
        } else if str[q] == ')' {
          if nest == 0 {
            break;
          }
          nest := nest - 1;
        }
        q := q + 1;
      }
    }

    /** eval_clause. */
    method EvalClause(str: string, argv: seq<string>) returns (r: Result)
      modifies this
      ensures r == Clause(w, old(vars), str, argv)
      ensures r.Ok? ==> vars == old(vars)
      ensures forall k: nat | 1 <= k <= |argv| < ULONG - 1 && str == Digits(k) :: r == Ok(argv[k - 1])
      decreases Budget(vars), |str|, 4, 1
    {
      var i := ArgumentIndex(str, |argv|);
      forall k: nat | 1 <= k <= |argv| < ULONG - 1 && str == Digits(k) ensures i == Some(k - 1) { WholeOfDigits(k); }
      if i.Some? {
        return Ok(argv[i.value]);
      }
      var parts := SplitClause(str);
      if |parts| > MAX_PARTS {
        return Err(TooManyParts);
      }
      var texts := ExpandAll(parts, argv, |str|);
      if texts.BadPart? {
        return Err(texts.error);
      }
      r := CallName(texts.texts[0], texts.texts[1..]);
    }

    /** The name and the arguments, each expanded in turn. */
    method ExpandAll(parts: seq<string>, argv: seq<string>, ghost bound: nat) returns (r: Texts)
      requires forall i | 0 <= i < |parts| :: |parts[i]| <= bound
      modifies this
      ensures r == ExpandParts(w, old(vars), parts, argv, bound)
      ensures r.GoodParts? ==> vars == old(vars)
      decreases Budget(vars), bound, 3, |parts|
    {
      var texts := [];
      var n := 0;
      ghost var v0, goal := vars, ExpandParts(w, vars, parts, argv, bound);
      assert parts[0..] == parts;
      assert After([], goal) == goal by { if goal.GoodParts? { assert [] + goal.texts == goal.texts; } }
      while n < |parts|
        invariant 0 <= n <= |parts| && |texts| == n && vars == v0
        invariant goal == After(texts, ExpandParts(w, v0, parts[n..], argv, bound))
        decreases |parts| - n
      {
        assert parts[n..][0] == parts[n] && parts[n..][1..] == parts[n + 1..];
        var x := ExpandString(parts[n], false, argv);
        if x.r.Err? {
          return BadPart(x.r.error);
        }
        AfterOne(texts, x.r.text, ExpandParts(w, v0, parts[n + 1..], argv, bound));
        texts := texts + [x.r.text];
        n := n + 1;
      }
      assert texts + [] == texts;
      r := GoodParts(texts);
    }

    /** The loop that cuts a clause at its commas. */
    method SplitClause(str: string) returns (parts: seq<string>)
      ensures parts == Parts(str)
    {
      var prev, p, nest := 0, 0, 0;
      parts := [];
      CutStart(str);
      while p < |str|
        invariant Cutting(str, parts, prev, p, nest)
        decreases |str| - p
      {
        CutStep(str, parts, prev, p, nest);
        if nest == 0 && str[p] == ',' {
          parts := parts + [str[prev..p]];
          prev := p + 1;
        } else {
          nest := if str[p] == '(' then nest + 1 else if str[p] == ')' then nest - 1 else nest;
        }
        p := p + 1;
      }
      CutEnd(str, parts, prev, nest);
      parts := parts + [str[prev..]];
    }

    /** The last part of eval_clause: variable_expand, function_expand, env_expand in turn. */
    method CallName(name: string, args: seq<string>) returns (r: Result)
      modifies this
      ensures r == Call(w, old(vars), name, args)
      ensures r.Ok? ==> vars == old(vars)
      decreases Budget(vars), 0, 0, 1
    {
      var i := Lookup(vars, name);
      if i.None? {
        return Elsewhere(w, name, args);
      }
      var v := vars[i.value];
      if args == [] && v.expCount > 0 {
        return Err(SelfReference(name));
      }
      if v.expCount > MAX_DEPTH {
        return Err(TooDeep);
      }
      if v.value.None? {
        return Err(NoValueYet(name));
      }
      EnteringSpends(vars, i.value);
      ghost var v0 := vars;
      vars := vars[i.value := vars[i.value].(expCount := vars[i.value].expCount + 1)];
      if v.flavor.RecursiveVar? {
        var o := ExpandString(v.value.value, false, args);
        r := o.r;
        if r.Err? {
          return;
        }
      } else {
        r := Ok(v.value.value);
      }
      vars := vars[i.value := vars[i.value].(expCount := vars[i.value].expCount - 1)];
      assert vars == v0;
    }

    /** variable_add: `=`, `:=` and `+=`. */
    method VariableAdd(name: string, value: string, how: Assignment) returns (failed: Option<Error>)
      requires AtRest(vars)
      modifies this
      ensures failed == (var a := Assign(w, old(vars), name, value, how); if a.Failed? then Some(a.error) else None)
      ensures failed.None? ==> Variables(vars) == Assign(w, old(vars), name, value, how)
    {
      var found := Lookup(vars, name);
      var flavor := if how.Simple? then SimpleVar else RecursiveVar;
      var append := false;
      var i := |vars|;
      if found.Some? {
        i := found.value;
        if how.Append? {
          flavor := vars[i].flavor;
          append := true;
        } else {
          vars := vars[i := vars[i].(value := None)];
        }
      } else {
        vars := vars + [Variable(name, None, flavor, 0)];
      }
      vars := vars[i := vars[i].(flavor := flavor)];
      assert vars == Emptied(old(vars), name, how);
      var newValue := value;
      if flavor.SimpleVar? {
        var o := ExpandString(value, false, []);
        if o.r.Err? {
          return Some(o.r.error);
        }
        newValue := o.r.text;
      }
      if append {
        newValue := vars[i].value.value + " " + newValue;
      }
      vars := vars[i := vars[i].(value := Some(newValue))];
      failed := None;
    }
  }

  function Later(k: Option<nat>, n: nat): Option<nat> { if k.None? then None else Some(k.value + n) }

  /** `parts` are cut off before `prev`, and no comma outside parentheses lies between there and `p`. */
  ghost predicate Cutting(str: string, parts: seq<string>, prev: nat, p: nat, nest: int) {
    && prev <= p <= |str|
    && parts + Parts(str[prev..]) == Parts(str)
    && CommaAt(str[prev..], 0) == Later(CommaAt(str[p..], nest), p - prev)
  }

  lemma CutStart(str: string)
    ensures Cutting(str, [], 0, 0, 0)
  {
  }

  lemma CutEnd(str: string, parts: seq<string>, prev: nat, nest: int)
    requires Cutting(str, parts, prev, |str|, nest)
    ensures parts + [str[prev..]] == Parts(str)
  {
  }

  function NestAfter(c: char, nest: int): int { if c == '(' then nest + 1 else if c == ')' then nest - 1 else nest }

  lemma CutStep(str: string, parts: seq<string>, prev: nat, p: nat, nest: int)
    requires Cutting(str, parts, prev, p, nest) && p < |str|
    ensures nest == 0 && str[p] == ',' ==> Cutting(str, parts + [str[prev..p]], p + 1, p + 1, 0)
    ensures !(nest == 0 && str[p] == ',') ==> Cutting(str, parts, prev, p + 1, NestAfter(str[p], nest))
  {
    if nest == 0 && str[p] == ',' {
      CutComma(str, parts, prev, p);
    } else {
      CommaStep(str, p, nest);
      LaterTwice(CommaAt(str[p + 1..], NestAfter(str[p], nest)), p - prev);
    }
  }

  lemma LaterTwice(k: Option<nat>, n: nat)
    ensures Later(Later(k, 1), n) == Later(k, n + 1)
  {
  }

  lemma CutComma(str: string, parts: seq<string>, prev: nat, p: nat)
    requires Cutting(str, parts, prev, p, 0) && p < |str| && str[p] == ','
    ensures Cutting(str, parts + [str[prev..p]], p + 1, p + 1, 0)
  {
    assert str[p..][0] == str[p];
    assert CommaAt(str[p..], 0) == Some(0);
    CutAt(str, prev, p, parts);
  }

  lemma CommaStep(str: string, p: nat, nest: int)
    requires p < |str| && !(nest == 0 && str[p] == ',')
    ensures CommaAt(str[p..], nest) == Later(CommaAt(str[p + 1..], NestAfter(str[p], nest)), 1)
  {
  }

  lemma CutAt(str: string, prev: nat, p: nat, parts: seq<string>)
    requires prev <= p < |str| && CommaAt(str[prev..], 0) == Some(p - prev)
    ensures parts + Parts(str[prev..]) == (parts + [str[prev..p]]) + Parts(str[p + 1..])
  {
    assert str[prev..][..p - prev] == str[prev..p] && str[prev..][p - prev + 1..] == str[p + 1..];
    assert parts + ([str[prev..p]] + Parts(str[p + 1..])) == (parts + [str[prev..p]]) + Parts(str[p + 1..]);
  }

  lemma DollarRest(w: World, vars: seq<Variable>, s: string, argv: seq<string>)
    ensures var o := Dollar(w, vars, s, argv); o.rest == s[|s| - |o.rest|..]
  {
  }

  /** Texts already expanded, followed by the rest. */
  function After(xs: seq<string>, r: Texts): Texts {
    if r.BadPart? then r else GoodParts(xs + r.texts)
  }

  lemma AfterOne(xs: seq<string>, x: string, r: Texts)
    ensures After(xs, if r.BadPart? then r else GoodParts([x] + r.texts)) == After(xs + [x], r)
  {
  }
}
