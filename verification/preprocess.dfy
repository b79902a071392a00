/** The character classes of ctype.h that several files use. */
module Chars {
  predicate IsDigit(c: char) { '0' <= c <= '9' }
}

/** The macro language of scripts/config/preprocess.c as plain recursion: what a text expands to,
    given the variables and how many expansions of each are under way. */
module Macros {
  import opened Tristates
  import opened Chars

  datatype Flavor = SimpleVar | RecursiveVar

  /** `value` is missing while the variable is being given its value. */
  datatype Variable = Variable(name: string, value: Option<string>, flavor: Flavor, expCount: nat)

  datatype Error =
    | SelfReference(name: string)
    | TooDeep
    | Unterminated
    | TooManyParts
    | TooFewArguments(name: string)
    | TooManyArguments(name: string)
    | UserError(text: string)
    | ShellFailed
    | NoValueYet(name: string)

  /** pperror ends the program: an error is the whole result. */
  datatype Result = Ok(text: string) | Err(error: Error)

  /** What the built-in functions and the environment say. */
  datatype World = World(
    filename: string,
    lineno: string,
    shell: string -> Option<string>,
    getenv: string -> Option<string>)

  const MAX_PARTS := 16
  const MAX_DEPTH := 1000

  // ----- scanning -----

  /** The first unmatched `)` at or after a point `nest` parentheses deep. */
  function CloseAt(s: string, nest: nat): (k: Option<nat>)
    ensures k.Some? ==> k.value < |s| && s[k.value] == ')'
  {
    if s == [] then None
    else if s[0] == ')' && nest == 0 then Some(0)
    else
      var k := CloseAt(s[1..], if s[0] == '(' then nest + 1 else if s[0] == ')' then nest - 1 else nest);
      if k.None? then None else Some(k.value + 1)
  }

  /** The first comma outside parentheses. */
  function CommaAt(s: string, nest: int): (k: Option<nat>)
    ensures k.Some? ==> k.value < |s| && s[k.value] == ','
  {
    if s == [] then None
    else if nest == 0 && s[0] == ',' then Some(0)
    else
      var k := CommaAt(s[1..], if s[0] == '(' then nest + 1 else if s[0] == ')' then nest - 1 else nest);
      if k.None? then None else Some(k.value + 1)
  }

  /** The parts of a clause, between commas outside parentheses. */
  function Parts(s: string): (r: seq<string>)
    ensures |r| >= 1 && forall i | 0 <= i < |r| :: |r[i]| <= |s|
    decreases |s|
  {
    var k := CommaAt(s, 0);
    if k.None? then [s]
    else
      var r := Parts(s[k.value + 1..]);
      [s[..k.value]] + r
  }

  predicate IsSpace(c: char) { c == ' ' || '\t' <= c <= '\r' }

  function Trimmed(s: string): (r: string)
    ensures |r| <= |s|
  {
    if s != [] && IsSpace(s[0]) then Trimmed(s[1..]) else s
  }

  /** The number written by a text of digits only. */
  function Decimal(s: string): Option<nat> {
    if s == [] || !IsDigit(s[|s| - 1]) then None
    else if |s| == 1 then Some((s[0] as int) - ('0' as int))
    else
      var n := Decimal(s[..|s| - 1]);
      if n.None? then None else Some(10 * n.value + (s[|s| - 1] as int) - ('0' as int))
  }

  const ULONG := 0x1_0000_0000_0000_0000

  /** strtoul when it reads the whole text; None when it stops before the end. An empty text reads
      as 0. */
  function WholeNumber(s: string): Option<nat> {
    var t := Trimmed(s);
    var neg := t != [] && t[0] == '-';
    var n := Decimal(if neg || (t != [] && t[0] == '+') then t[1..] else t);
    if s == [] then Some(0)
    else if n.None? then None
    else if n.value >= ULONG then Some(ULONG - 1)
    else Some(if neg then (ULONG - n.value) % ULONG else n.value)
  }

  /** The argument of the enclosing call that a clause names. */
  function ArgumentIndex(s: string, argc: nat): (i: Option<nat>)
    ensures i.Some? ==> i.value < argc
  {
    var n := WholeNumber(s);
    if n.Some? && 0 < n.value <= argc then Some(n.value - 1) else None
  }

  predicate IsAlnum(c: char) { IsDigit(c) || 'a' <= c <= 'z' || 'A' <= c <= 'Z' }

  predicate EndsToken(c: char) { !(IsAlnum(c) || c == '_' || c == '-' || c == '.' || c == '/') }

  // ----- variables -----

  function Lookup(vars: seq<Variable>, name: string): (i: Option<nat>)
    ensures i.Some? ==> i.value < |vars| && vars[i.value].name == name
  {
    if vars == [] then None
    else if vars[0].name == name then Some(0)
    else
      var i := Lookup(vars[1..], name);
      if i.None? then None else Some(i.value + 1)
  }

  /** How many more expansions the depth limit allows. */
  function Budget(vars: seq<Variable>): nat {
    if vars == [] then 0
    else (if vars[0].expCount > MAX_DEPTH then 0 else MAX_DEPTH + 1 - vars[0].expCount) + Budget(vars[1..])
  }

  function Entering(vars: seq<Variable>, i: nat): seq<Variable>
    requires i < |vars|
  {
    vars[i := vars[i].(expCount := vars[i].expCount + 1)]
  }

  lemma {:induction false} EnteringSpends(vars: seq<Variable>, i: nat)
    requires i < |vars| && vars[i].expCount <= MAX_DEPTH
    ensures Budget(Entering(vars, i)) < Budget(vars)
  {
    if i > 0 {
      EnteringSpends(vars[1..], i - 1);
      assert Entering(vars, i)[1..] == Entering(vars[1..], i - 1);
    } else {
      assert Entering(vars, i)[1..] == vars[1..];
    }
  }

  // ----- built-in functions and the environment -----

  function MinArgs(name: string): nat { if name == "error-if" || name == "warning-if" then 2 else if name == "info" || name == "shell" then 1 else 0 }

  predicate IsFunction(name: string) {
    name in {"error-if", "filename", "info", "lineno", "shell", "warning-if"}
  }

  function CallFunction(w: World, name: string, args: seq<string>): Result
    requires IsFunction(name)
  {
    if |args| < MinArgs(name) then Err(TooFewArguments(name))
    else if |args| > MinArgs(name) then Err(TooManyArguments(name))
    else if name == "error-if" then (if args[0] == "y" then Err(UserError(args[1])) else Ok(""))
    else if name == "filename" then Ok(w.filename)
    else if name == "lineno" then Ok(w.lineno)
    else if name == "shell" then (var r := w.shell(args[0]); if r.Some? then Ok(r.value) else Err(ShellFailed))
    else Ok("")
  }

  /** What a name that is no variable stands for. */
  function Elsewhere(w: World, name: string, args: seq<string>): Result {
    if IsFunction(name) then CallFunction(w, name, args)
    else if args == [] && name != "" && w.getenv(name).Some? then Ok(w.getenv(name).value)
    else Ok("")
  }

  // ----- expansion -----

  function Before(x: string, r: Result): Result { if r.Ok? then Ok(x + r.text) else r }

  /** The text and what is left of the input. */
  datatype Step = Step(r: Result, rest: string)

  /** A text up to its end, or up to the end of a token. */
  function Expand(w: World, vars: seq<Variable>, s: string, token: bool, argv: seq<string>): (o: Step)
    ensures |o.rest| <= |s|
    decreases Budget(vars), |s|, 2, 0
  {
    if s == [] then Step(Ok(""), s)
    else if s[0] == '$' then
      var d := Dollar(w, vars, s[1..], argv);
      if d.r.Err? then d
      else
        var o := Expand(w, vars, d.rest, token, argv);
        Step(Before(d.r.text, o.r), o.rest)
    else if token && EndsToken(s[0]) then Step(Ok(""), s)
    else
      var o := Expand(w, vars, s[1..], token, argv);
      Step(Before(s[..1], o.r), o.rest)
  }

  /** What follows a `$`. */
  function Dollar(w: World, vars: seq<Variable>, s: string, argv: seq<string>): (o: Step)
    ensures |o.rest| <= |s|
    decreases Budget(vars), |s|, 5, 0
  {
    if s == [] || s[0] != '(' then Step(Ok("$"), s)
    else
      var k := CloseAt(s[1..], 0);
      if k.None? then Step(Err(Unterminated), s)
      else Step(Clause(w, vars, s[1..k.value + 1], argv), s[k.value + 2..])
  }

  /** eval_clause. */
  function Clause(w: World, vars: seq<Variable>, s: string, argv: seq<string>): Result
    decreases Budget(vars), |s|, 4, 0
  {
    var i := ArgumentIndex(s, |argv|);
    if i.Some? then Ok(argv[i.value])
    else
      var parts := Parts(s);
      if |parts| > MAX_PARTS then Err(TooManyParts)
      else
        var texts := ExpandParts(w, vars, parts, argv, |s|);
        if texts.BadPart? then Err(texts.error) else Call(w, vars, texts.texts[0], texts.texts[1..])
  }

  datatype Texts = GoodParts(texts: seq<string>) | BadPart(error: Error)

  function ExpandParts(w: World, vars: seq<Variable>, parts: seq<string>, argv: seq<string>, bound: nat): (r: Texts)
    requires forall i | 0 <= i < |parts| :: |parts[i]| <= bound
    ensures r.GoodParts? ==> |r.texts| == |parts|
    decreases Budget(vars), bound, 3, |parts|
  {
    if parts == [] then GoodParts([])
    else
      var x := Expand(w, vars, parts[0], false, argv).r;
      if x.Err? then BadPart(x.error)
      else
        var r := ExpandParts(w, vars, parts[1..], argv, bound);
        if r.BadPart? then r else GoodParts([x.text] + r.texts)
  }

  /** A name with its arguments: a variable, else a function, else the environment. */
  function Call(w: World, vars: seq<Variable>, name: string, args: seq<string>): Result
    decreases Budget(vars), 0, 0, 0
  {
    var i := Lookup(vars, name);
    if i.None? then Elsewhere(w, name, args)
    else
      var v := vars[i.value];
      if args == [] && v.expCount > 0 then Err(SelfReference(name))
      else if v.expCount > MAX_DEPTH then Err(TooDeep)
      else if v.value.None? then Err(NoValueYet(name))
      else if v.flavor.SimpleVar? then Ok(v.value.value)
      else
        EnteringSpends(vars, i.value);
        Expand(w, Entering(vars, i.value), v.value.value, false, args).r
  }

  // ----- assignments -----

  datatype Assignment = Simple | Recursive | Append

  /** Between expansions every variable has a value and none is being expanded. */
  predicate AtRest(vars: seq<Variable>) {
    forall i | 0 <= i < |vars| :: vars[i].value.Some? && vars[i].expCount == 0
  }

  function FlavorFor(vars: seq<Variable>, name: string, how: Assignment): Flavor {
    var i := Lookup(vars, name);
    if how.Simple? then SimpleVar
    else if how.Append? && i.Some? then vars[i.value].flavor
    else RecursiveVar
  }

  /** The variables while the new value is worked out: it is missing, unless it is appended to. */
  function Emptied(vars: seq<Variable>, name: string, how: Assignment): seq<Variable> {
    var i, flavor := Lookup(vars, name), FlavorFor(vars, name, how);
    if i.None? then vars + [Variable(name, None, flavor, 0)]
    else if how.Append? then vars
    else vars[i.value := vars[i.value].(value := None, flavor := flavor)]
  }

  datatype Assigned = Variables(vars: seq<Variable>) | Failed(error: Error)

  /** What the text handed to variable_add stands for: itself, or its expansion for a `:=` variable. */
  function NewText(w: World, vars: seq<Variable>, name: string, value: string, how: Assignment): Result {
    if FlavorFor(vars, name, how).SimpleVar? then Expand(w, Emptied(vars, name, how), value, false, []).r else Ok(value)
  }

  /** The variables once the new text is stored. */
  function Stored(vars: seq<Variable>, name: string, how: Assignment, text: string): seq<Variable>
    requires AtRest(vars)
  {
    var i, during := Lookup(vars, name), Emptied(vars, name, how);
    if i.None? then during[|vars| := during[|vars|].(value := Some(text))]
    else if how.Append? then vars[i.value := vars[i.value].(value := Some(vars[i.value].value.value + " " + text))]
    else during[i.value := during[i.value].(value := Some(text))]
  }

  /** variable_add. */
  function Assign(w: World, vars: seq<Variable>, name: string, value: string, how: Assignment): Assigned
    requires AtRest(vars)
  {
    var text := NewText(w, vars, name, value, how);
    if text.Err? then Failed(text.error) else Variables(Stored(vars, name, how, text.text))
  }
}
