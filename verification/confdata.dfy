/** The lines of a .config file (scripts/config/confdata.c): what is printed for a symbol, and what a
    line read back does to the user values. */
module ConfLines {
  import opened Tristates
  import opened Chars
  import opened Exprs

  /** The value of a choice is kept in the same record: `pick` is the chosen symbol. */
  datatype Def = Def(has: bool, tri: Tri, val: Option<string>, pick: Option<nat>)

  /** A symbol as the file sees it; a choice has no name, and `choice` names the choice of a value. */
  datatype Entry = Entry(name: string, typ: SymType, isChoice: bool, choice: Option<nat>)

  const PREFIX := "CONFIG_"

  predicate TableOk(tb: seq<Entry>) {
    forall i | 0 <= i < |tb| :: tb[i].choice.Some? ==> tb[i].choice.value < |tb| && tb[tb[i].choice.value].isChoice && !tb[i].isChoice
  }

  // ----- string escapes -----

  predicate Special(c: char) { c == '"' || c == '\\' }

  function Escaped(s: string): string {
    if s == [] then [] else (if Special(s[0]) then ['\\', s[0]] else [s[0]]) + Escaped(s[1..])
  }

  /** escape_string_value. */
  function Quoted(s: string): string { "\"" + Escaped(s) + "\"" }

  /** What the loop in conf_set_sym_val makes of the text after the opening quote; None when the
      closing quote is missing. A backslash is dropped and the character after it kept. */
  function Unescaped(s: string): Option<string>
    decreases |s|
  {
    if s == [] then None
    else if s[0] == '"' then Some("")
    else if s[0] == '\\' then
      if |s| == 1 then None
      else
        var r := Unescaped(s[2..]);
        if r.None? then None else Some([s[1]] + r.value)
    else
      var r := Unescaped(s[1..]);
      if r.None? then None else Some([s[0]] + r.value)
  }

  /** Unescaping undoes escaping, whatever follows the closing quote. */
  lemma {:induction false} UnescapeEscaped(s: string, rest: string)
    ensures Unescaped(Escaped(s) + "\"" + rest) == Some(s)
  {
    if s != [] {
      var e := if Special(s[0]) then ['\\', s[0]] else [s[0]];
      UnescapeEscaped(s[1..], rest);
      assert Escaped(s) + "\"" + rest == e + (Escaped(s[1..]) + "\"" + rest);
      assert (e + (Escaped(s[1..]) + "\"" + rest))[|e|..] == Escaped(s[1..]) + "\"" + rest;
      assert [s[0]] + s[1..] == s;
    }
  }

  // ----- validity -----

  predicate IsHexDigit(c: char) { IsDigit(c) || 'a' <= c <= 'f' || 'A' <= c <= 'F' }

  /** sym_string_valid. */
  predicate StringValid(typ: SymType, s: string) {
    match typ
    case StringType => true
    case IntType =>
      var t := if s != [] && s[0] == '-' then s[1..] else s;
      t != [] && IsDigit(t[0]) && (t[0] == '0' ==> |t| == 1) && forall c <- t :: IsDigit(c)
    case HexType =>
      var t := if |s| >= 2 && s[0] == '0' && (s[1] == 'x' || s[1] == 'X') then s[2..] else s;
      t != [] && forall c <- t :: IsHexDigit(c)
    case BooleanType => s != [] && s[0] in "yYmMnN"
    case TristateType => s != [] && s[0] in "yYmMnN"
    case UnknownType => false
  }

  // ----- writing -----

  /** print_symbol_for_dotconfig. */
  function Print(e: Entry, val: string): string {
    if e.typ.UnknownType? then ""
    else if (e.typ.BooleanType? || e.typ.TristateType?) && val != [] && val[0] == 'n' then
      "# " + PREFIX + e.name + " is not set\n"
    else PREFIX + e.name + "=" + (if e.typ.StringType? then Quoted(val) else val) + "\n"
  }

  // ----- reading -----

  /** strchr, as an index. */
  function IndexOf(s: string, c: char): (i: Option<nat>)
    ensures i.Some? ==> i.value < |s| && s[i.value] == c && c !in s[..i.value]
    ensures i.None? ==> c !in s
  {
    if s == [] then None
    else if s[0] == c then Some(0)
    else
      var i := IndexOf(s[1..], c);
      if i.None? then None else Some(i.value + 1)
  }

  /** sym_find. */
  function Find(tb: seq<Entry>, name: string): (i: Option<nat>)
    ensures i.Some? ==> i.value < |tb| && tb[i.value].name == name && !tb[i.value].isChoice
  {
    if tb == [] then None
    else if tb[0].name == name && !tb[0].isChoice then Some(0)
    else
      var i := Find(tb[1..], name);
      if i.None? then None else Some(i.value + 1)
  }

  /** The value of an assignment: up to the end of the line, less a carriage return. */
  function Chopped(v: string): string {
    var k := IndexOf(v, '\n');
    if k.None? then v
    else if k.value > 0 && v[k.value - 1] == '\r' then v[..k.value - 1]
    else v[..k.value]
  }

  /** conf_set_sym_val: the new record, or None if the value is refused. */
  function SetVal(typ: SymType, d: Def, p: string): Option<Def> {
    match typ
    case TristateType => if p != [] && p[0] == 'm' then Some(d.(tri := MOD, has := true)) else SetBool(d, p)
    case BooleanType => SetBool(d, p)
    case StringType =>
      if p == [] || p[0] != '"' then Some(d)
      else
        var s := Unescaped(p[1..]);
        if s.None? then None else Some(d.(val := s, has := true))
    case IntType => if StringValid(typ, p) then Some(d.(val := Some(p), has := true)) else None
    case HexType => if StringValid(typ, p) then Some(d.(val := Some(p), has := true)) else None
    case UnknownType => Some(d)
  }

  function SetBool(d: Def, p: string): Option<Def> {
    if p != [] && p[0] == 'y' then Some(d.(tri := YES, has := true))
    else if p != [] && p[0] == 'n' then Some(d.(tri := NO, has := true))
    else None
  }

  /** What a choice value read from the file does to its choice. */
  function SetChoice(tb: seq<Entry>, defs: seq<Def>, i: nat): (r: seq<Def>)
    requires TableOk(tb) && |defs| == |tb| && i < |tb|
    ensures |r| == |defs|
    ensures forall j | 0 <= j < |defs| && !tb[j].isChoice :: r[j] == defs[j]
  {
    if tb[i].choice.None? then defs
    else
      var c, t := tb[i].choice.value, defs[i].tri;
      var d := defs[c];
      var d1 := if t == MOD && d.tri == YES then d.(has := false)
                else if t == YES then d.(pick := Some(i)) else d;
      defs[c := d1.(tri := TriOr(d.tri, t))]
  }

  /** A line like `# CONFIG_FOO is not set`. */
  function UnsetName(line: string): Option<string> {
    if |line| < 2 + |PREFIX| || line[2..2 + |PREFIX|] != PREFIX then None
    else
      var rest := line[2 + |PREFIX|..];
      var p := IndexOf(rest, ' ');
      if p.None? || !("is not set" <= rest[p.value + 1..]) then None else Some(rest[..p.value])
  }

  /** One line of conf_read_simple for S_DEF_USER. */
  function ReadLine(tb: seq<Entry>, defs: seq<Def>, line: string): (r: seq<Def>)
    requires TableOk(tb) && |defs| == |tb|
    ensures |r| == |defs|
  {
    if line != [] && line[0] == '#' then
      var name := UnsetName(line);
      if name.None? then defs else ReadUnset(tb, defs, name.value)
    else if PREFIX <= line then
      var rest := line[|PREFIX|..];
      var p := IndexOf(rest, '=');
      if p.None? then defs else ReadSet(tb, defs, rest[..p.value], Chopped(rest[p.value + 1..]))
    else defs
  }

  function ReadUnset(tb: seq<Entry>, defs: seq<Def>, name: string): (r: seq<Def>)
    requires TableOk(tb) && |defs| == |tb|
    ensures |r| == |defs|
  {
    var s := Find(tb, name);
    if s.None? then defs
    else
      var i := s.value;
      SetChoice(tb, if tb[i].typ.BooleanType? || tb[i].typ.TristateType? then defs[i := defs[i].(tri := NO, has := true)] else defs, i)
  }

  function ReadSet(tb: seq<Entry>, defs: seq<Def>, name: string, val: string): (r: seq<Def>)
    requires TableOk(tb) && |defs| == |tb|
    ensures |r| == |defs|
  {
    var s := Find(tb, name);
    if s.None? then defs
    else
      var d := SetVal(tb[s.value].typ, defs[s.value], val);
      if d.None? then defs else SetChoice(tb, defs[s.value := d.value], s.value)
  }

  /** The lines of a file, each with its newline. */
  function Lines(text: string): seq<string>
    decreases |text|
  {
    if text == [] then []
    else
      var k := IndexOf(text, '\n');
      if k.None? then [text] else [text[..k.value + 1]] + Lines(text[k.value + 1..])
  }

  function ReadLines(tb: seq<Entry>, defs: seq<Def>, lines: seq<string>): (r: seq<Def>)
    requires TableOk(tb) && |defs| == |tb|
    ensures |r| == |defs|
    decreases |lines|
  {
    if lines == [] then defs else ReadLines(tb, ReadLine(tb, defs, lines[0]), lines[1..])
  }

  /** conf_reset: nothing is set, except that a choice counts as set by the user. */
  function Reset(tb: seq<Entry>): (r: seq<Def>)
    ensures |r| == |tb|
  {
    seq(|tb|, i requires 0 <= i < |tb| => Def(tb[i].isChoice, NO, None, None))
  }

  // ----- round trip -----

  predicate GoodName(name: string) { name != [] && forall c <- name :: c != ' ' && c != '=' && c != '\n' && c != '#' }

  predicate DistinctNames(tb: seq<Entry>) {
    forall i, j | 0 <= i < j < |tb| && !tb[i].isChoice && !tb[j].isChoice :: tb[i].name != tb[j].name
  }

  /** A value sym_get_string_value can give for a symbol of this type, on one line. */
  predicate GoodValue(typ: SymType, val: string) {
    && OneLine(val)
    && match typ
       case BooleanType => val == "y" || val == "n"
       case TristateType => val == "y" || val == "m" || val == "n"
       case UnknownType => false
       case _ => StringValid(typ, val)
  }

  /** The user value that stands for `val`. */
  function Restored(typ: SymType, val: string): Def {
    match typ
    case BooleanType => Def(true, if val == "y" then YES else NO, None, None)
    case TristateType => Def(true, if val == "y" then YES else if val == "m" then MOD else NO, None, None)
    case _ => Def(true, NO, Some(val), None)
  }

  lemma {:induction false} FindIs(tb: seq<Entry>, i: nat)
    requires i < |tb| && !tb[i].isChoice && DistinctNames(tb)
    ensures Find(tb, tb[i].name) == Some(i)
  {
    if i > 0 {
      assert tb[0].isChoice || tb[0].name != tb[i].name;
      FindIs(tb[1..], i - 1);
    }
  }

  lemma {:induction false} IndexOfFirst(a: string, c: char, b: string)
    requires c !in a
    ensures IndexOf(a + [c] + b, c) == Some(|a|)
  {
    var s := a + [c] + b;
    if a != [] {
      assert s[0] == a[0] && s[1..] == a[1..] + [c] + b;
      IndexOfFirst(a[1..], c, b);
    }
  }

  predicate OneLine(s: string) { forall c <- s :: c != '\n' }

  lemma {:induction false} EscapedOneLine(s: string)
    requires OneLine(s)
    ensures OneLine(Escaped(s))
  {
    if s != [] {
      assert s[0] in s && forall c <- s[1..] :: c in s;
      EscapedOneLine(s[1..]);
    }
  }

  lemma OneLineConcat(a: string, b: string)
    requires OneLine(a) && OneLine(b)
    ensures OneLine(a + b)
  {
  }

  /** What stands before the newline of a printed line. */
  function Body(e: Entry, val: string): string {
    if (e.typ.BooleanType? || e.typ.TristateType?) && val != [] && val[0] == 'n' then "# " + PREFIX + e.name + " is not set"
    else PREFIX + e.name + "=" + (if e.typ.StringType? then Quoted(val) else val)
  }

  lemma BodyOneLine(e: Entry, val: string)
    requires GoodName(e.name) && GoodValue(e.typ, val)
    ensures OneLine(Body(e, val)) && Print(e, val) == Body(e, val) + ['\n']
  {
    assert OneLine("# ") && OneLine(PREFIX) && OneLine(" is not set") && OneLine("=") && OneLine("\"") && OneLine(e.name);
    EscapedOneLine(val);
    OneLineConcat("\"", Escaped(val));
    OneLineConcat("\"" + Escaped(val), "\"");
    OneLineConcat("# ", PREFIX);
    OneLineConcat("# " + PREFIX, e.name);
    OneLineConcat("# " + PREFIX + e.name, " is not set");
    OneLineConcat(PREFIX, e.name);
    OneLineConcat(PREFIX + e.name, "=");
    OneLineConcat(PREFIX + e.name + "=", if e.typ.StringType? then Quoted(val) else val);
  }

  /** The printed line holds one newline, at its end. */
  lemma PrintIsLine(e: Entry, val: string, rest: string)
    requires GoodName(e.name) && GoodValue(e.typ, val)
    ensures Lines(Print(e, val) + rest) == [Print(e, val)] + Lines(rest)
  {
    var p, body := Print(e, val), Body(e, val);
    BodyOneLine(e, val);
    IndexOfFirst(body, '\n', rest);
    assert body + ['\n'] + rest == p + rest;
    assert (p + rest)[..|body| + 1] == p && (p + rest)[|body| + 1..] == rest;
  }

  lemma ChoppedLine(v: string)
    requires OneLine(v) && (v != [] ==> v[|v| - 1] != '\r')
    ensures Chopped(v + "\n") == v
  {
    IndexOfFirst(v, '\n', "");
    assert v + ['\n'] + "" == v + "\n" && (v + "\n")[..|v|] == v;
  }

  /** Numbers end in a digit. */
  lemma LastDigit(typ: SymType, val: string)
    requires (typ.IntType? || typ.HexType?) && StringValid(typ, val)
    ensures val != [] && IsHexDigit(val[|val| - 1])
  {
  }

  function Shown(typ: SymType, val: string): string { if typ.StringType? then Quoted(val) else val }

  /** What `SetVal` makes of the printed value. */
  lemma SetPrinted(typ: SymType, d: Def, val: string)
    requires GoodValue(typ, val) && d == Def(false, NO, None, None)
    requires !((typ.BooleanType? || typ.TristateType?) && val == "n")
    ensures OneLine(Shown(typ, val)) && (Shown(typ, val) != [] ==> Shown(typ, val)[|Shown(typ, val)| - 1] != '\r')
    ensures SetVal(typ, d, Shown(typ, val)) == Some(Restored(typ, val))
  {
    if typ.StringType? {
      EscapedOneLine(val);
      UnescapeEscaped(val, "");
      assert Quoted(val)[1..] == Escaped(val) + "\"" + "";
    } else if typ.IntType? || typ.HexType? {
      LastDigit(typ, val);
    }
  }

  lemma UnsetLine(name: string)
    requires GoodName(name)
    ensures UnsetName("# " + PREFIX + name + " is not set\n") == Some(name)
  {
    var line := "# " + PREFIX + name + " is not set\n";
    var rest := name + [' '] + "is not set\n";
    assert line[2..2 + |PREFIX|] == PREFIX && line[2 + |PREFIX|..] == rest;
    IndexOfFirst(name, ' ', "is not set\n");
    assert rest[|name| + 1..] == "is not set\n" && rest[..|name|] == name;
    assert "is not set\n" == "is not set" + "\n";
  }

  lemma SetLine(tb: seq<Entry>, defs: seq<Def>, name: string, v: string)
    requires TableOk(tb) && |defs| == |tb| && GoodName(name) && OneLine(v) && (v != [] ==> v[|v| - 1] != '\r')
    ensures ReadLine(tb, defs, PREFIX + name + "=" + v + "\n") == ReadSet(tb, defs, name, v)
  {
    var line, rest := PREFIX + name + "=" + v + "\n", name + ['='] + (v + "\n");
    assert line == PREFIX + rest;
    AfterPrefix(line, rest);
    SplitAssignment(name, v + "\n");
    ChoppedLine(v);
  }

  lemma AfterPrefix(line: string, rest: string)
    requires line == PREFIX + rest
    ensures PREFIX <= line && line[|PREFIX|..] == rest && line[0] == 'C'
  {
  }

  lemma SplitAssignment(name: string, v: string)
    requires GoodName(name)
    ensures var rest := name + ['='] + v;
      IndexOf(rest, '=') == Some(|name|) && rest[..|name|] == name && rest[|name| + 1..] == v
  {
    IndexOfFirst(name, '=', v);
  }

  /** One printed line, read back, restores the value of its symbol. */
  lemma ReadPrinted(tb: seq<Entry>, defs: seq<Def>, i: nat, val: string)
    requires TableOk(tb) && DistinctNames(tb) && |defs| == |tb| && i < |tb| && !tb[i].isChoice
    requires GoodName(tb[i].name) && GoodValue(tb[i].typ, val) && defs[i] == Def(false, NO, None, None)
    ensures ReadLine(tb, defs, Print(tb[i], val)) == SetChoice(tb, defs[i := Restored(tb[i].typ, val)], i)
  {
    var e := tb[i];
    FindIs(tb, i);
    if (e.typ.BooleanType? || e.typ.TristateType?) && val == "n" {
      UnsetLine(e.name);
      assert Print(e, val)[0] == '#';
    } else {
      SetPrinted(e.typ, defs[i], val);
      SetLine(tb, defs, e.name, Shown(e.typ, val));
      assert Print(e, val) == PREFIX + e.name + "=" + Shown(e.typ, val) + "\n";
    }
  }

  function PrintAll(tb: seq<Entry>, ids: seq<nat>, vals: seq<string>): string
    requires |ids| == |vals| && forall k | 0 <= k < |ids| :: ids[k] < |tb|
  {
    if ids == [] then "" else Print(tb[ids[0]], vals[0]) + PrintAll(tb, ids[1..], vals[1..])
  }

  /** Distinct symbols that are no choices, each with a value of its type. */
  predicate Writable(tb: seq<Entry>, ids: seq<nat>, vals: seq<string>) {
    && |ids| == |vals|
    && (forall j, k | 0 <= j < k < |ids| :: ids[j] != ids[k])
    && forall k | 0 <= k < |ids| ::
         ids[k] < |tb| && !tb[ids[k]].isChoice && GoodName(tb[ids[k]].name) && GoodValue(tb[ids[k]].typ, vals[k])
  }

  /** What a printed value is worth to the choice of its symbol. */
  function PrintedTri(typ: SymType, val: string): Tri {
    if typ.BooleanType? && val == "y" then YES
    else if typ.TristateType? && val == "y" then YES
    else if typ.TristateType? && val == "m" then MOD
    else NO
  }

  /** The k-th symbol printed is a value of choice `c`, printed as `t`. */
  predicate PrintedAt(tb: seq<Entry>, ids: seq<nat>, vals: seq<string>, c: nat, k: nat, t: Tri) {
    k < |ids| == |vals| && ids[k] < |tb| && tb[ids[k]].choice == Some(c) && PrintedTri(tb[ids[k]].typ, vals[k]) == t
  }

  /** What reading the values of choice `c` in the order printed makes of its record `d`: the pick is the last one
      that is y, the mode the highest of all, and the user flag goes when an m comes after a y. */
  ghost predicate ChoiceRead(tb: seq<Entry>, ids: seq<nat>, vals: seq<string>, c: nat, d: Def, r: Def) {
    && r.val == d.val && PickRead(tb, ids, vals, c, d, r) && ModeRead(tb, ids, vals, c, d, r)
    && (r.has <==> d.has && !exists k: nat :: Clash(tb, ids, vals, c, d, k))
  }

  ghost predicate PickRead(tb: seq<Entry>, ids: seq<nat>, vals: seq<string>, c: nat, d: Def, r: Def) {
    || (exists k: nat :: LastYes(tb, ids, vals, c, k) && r.pick == Some(ids[k]))
    || (r.pick == d.pick && forall j: nat :: !PrintedAt(tb, ids, vals, c, j, YES))
  }

  ghost predicate LastYes(tb: seq<Entry>, ids: seq<nat>, vals: seq<string>, c: nat, k: nat) {
    PrintedAt(tb, ids, vals, c, k, YES) && forall j: nat | k < j :: !PrintedAt(tb, ids, vals, c, j, YES)
  }

  ghost predicate ModeRead(tb: seq<Entry>, ids: seq<nat>, vals: seq<string>, c: nat, d: Def, r: Def) {
    && d.tri <= r.tri && (forall k: nat, t: Tri | PrintedAt(tb, ids, vals, c, k, t) :: t <= r.tri)
    && (r.tri == d.tri || exists k: nat :: PrintedAt(tb, ids, vals, c, k, r.tri))
  }

  /** The k-th symbol printed is m, and the choice was y by then. */
  ghost predicate Clash(tb: seq<Entry>, ids: seq<nat>, vals: seq<string>, c: nat, d: Def, k: nat) {
    PrintedAt(tb, ids, vals, c, k, MOD) && (d.tri == YES || exists j: nat :: j < k && PrintedAt(tb, ids, vals, c, j, YES))
  }

  lemma PrintedTail(tb: seq<Entry>, ids: seq<nat>, vals: seq<string>, c: nat)
    requires ids != [] && |vals| == |ids|
    ensures forall k: nat, t: Tri | k > 0 :: PrintedAt(tb, ids, vals, c, k, t) <==> PrintedAt(tb, ids[1..], vals[1..], c, k - 1, t)
    ensures forall k: nat, t: Tri | PrintedAt(tb, ids[1..], vals[1..], c, k, t) ::
      PrintedAt(tb, ids, vals, c, k + 1, t) && ids[1..][k] == ids[k + 1]
  {
  }

  /** What one symbol, printed first, does to the record of a choice. */
  predicate FirstRead(tb: seq<Entry>, ids: seq<nat>, vals: seq<string>, c: nat, d: Def, d1: Def) {
    && ids != [] && |vals| == |ids| && ids[0] < |tb|
    && var t := PrintedTri(tb[ids[0]].typ, vals[0]);
       if tb[ids[0]].choice != Some(c) then d1 == d
       else d1 == Def(d.has && !(t == MOD && d.tri == YES), if t > d.tri then t else d.tri, d.val, if t == YES then Some(ids[0]) else d.pick)
  }

  /** One symbol read, and the rest after it. */
  lemma ChoiceReadNext(tb: seq<Entry>, ids: seq<nat>, vals: seq<string>, c: nat, d: Def, d1: Def, r: Def)
    requires FirstRead(tb, ids, vals, c, d, d1) && ChoiceRead(tb, ids[1..], vals[1..], c, d1, r)
    ensures ChoiceRead(tb, ids, vals, c, d, r)
  {
    PickReadNext(tb, ids, vals, c, d, d1, r);
    ModeReadNext(tb, ids, vals, c, d, d1, r);
    FlagReadNext(tb, ids, vals, c, d, d1);
  }

  lemma PickReadNext(tb: seq<Entry>, ids: seq<nat>, vals: seq<string>, c: nat, d: Def, d1: Def, r: Def)
    requires FirstRead(tb, ids, vals, c, d, d1) && PickRead(tb, ids[1..], vals[1..], c, d1, r)
    ensures PickRead(tb, ids, vals, c, d, r)
  {
    PrintedTail(tb, ids, vals, c);
    if k: nat :| LastYes(tb, ids[1..], vals[1..], c, k) && r.pick == Some(ids[1..][k]) {
      assert LastYes(tb, ids, vals, c, k + 1);
    } else if PrintedAt(tb, ids, vals, c, 0, YES) {
      assert LastYes(tb, ids, vals, c, 0);
    }
  }

  lemma ModeReadNext(tb: seq<Entry>, ids: seq<nat>, vals: seq<string>, c: nat, d: Def, d1: Def, r: Def)
    requires FirstRead(tb, ids, vals, c, d, d1) && ModeRead(tb, ids[1..], vals[1..], c, d1, r)
    ensures ModeRead(tb, ids, vals, c, d, r)
  {
    PrintedTail(tb, ids, vals, c);
    if r.tri != d1.tri {
      var k: nat :| PrintedAt(tb, ids[1..], vals[1..], c, k, r.tri);
      assert PrintedAt(tb, ids, vals, c, k + 1, r.tri);
    } else if d1.tri != d.tri {
      assert PrintedAt(tb, ids, vals, c, 0, r.tri);
    }
  }

  lemma FlagReadNext(tb: seq<Entry>, ids: seq<nat>, vals: seq<string>, c: nat, d: Def, d1: Def)
    requires FirstRead(tb, ids, vals, c, d, d1)
    ensures (d1.has && !exists k: nat :: Clash(tb, ids[1..], vals[1..], c, d1, k)) <==> (d.has && !exists k: nat :: Clash(tb, ids, vals, c, d, k))
  {
    PrintedTail(tb, ids, vals, c);
    assert d1.tri == YES <==> d.tri == YES || PrintedAt(tb, ids, vals, c, 0, YES);
    forall k: nat | Clash(tb, ids[1..], vals[1..], c, d1, k) ensures Clash(tb, ids, vals, c, d, k + 1) {
      if d1.tri != YES {
        var j: nat :| j < k && PrintedAt(tb, ids[1..], vals[1..], c, j, YES);
        assert PrintedAt(tb, ids, vals, c, j + 1, YES);
      }
    }
    forall k: nat | Clash(tb, ids, vals, c, d, k) && k > 0 ensures Clash(tb, ids[1..], vals[1..], c, d1, k - 1) {
      if d1.tri != YES {
        var j: nat :| j < k && PrintedAt(tb, ids, vals, c, j, YES);
        assert PrintedAt(tb, ids[1..], vals[1..], c, j - 1, YES);
      }
    }
    assert Clash(tb, ids, vals, c, d, 0) <==> PrintedAt(tb, ids, vals, c, 0, MOD) && d.tri == YES;
    assert d1.has <==> d.has && !Clash(tb, ids, vals, c, d, 0);
  }

  lemma WritableTail(tb: seq<Entry>, ids: seq<nat>, vals: seq<string>)
    requires Writable(tb, ids, vals) && ids != []
    ensures Writable(tb, ids[1..], vals[1..]) && ids[0] !in ids[1..]
    ensures forall k | 0 <= k < |ids[1..]| :: ids[1..][k] == ids[k + 1] && ids[k + 1] != ids[0]
  {
  }

  /** The first of the printed lines, and the rest. */
  lemma ReadNext(tb: seq<Entry>, defs: seq<Def>, ids: seq<nat>, vals: seq<string>) returns (defs1: seq<Def>)
    requires TableOk(tb) && DistinctNames(tb) && |defs| == |tb| && Writable(tb, ids, vals) && ids != []
    requires forall k | 0 <= k < |ids| :: defs[ids[k]] == Def(false, NO, None, None)
    ensures defs1 == SetChoice(tb, defs[ids[0] := Restored(tb[ids[0]].typ, vals[0])], ids[0])
    ensures ReadLines(tb, defs, Lines(PrintAll(tb, ids, vals))) == ReadLines(tb, defs1, Lines(PrintAll(tb, ids[1..], vals[1..])))
    ensures Writable(tb, ids[1..], vals[1..]) && ids[0] !in ids[1..]
    ensures forall k | 0 <= k < |ids[1..]| :: defs1[ids[1..][k]] == Def(false, NO, None, None)
  {
    var i, e := ids[0], tb[ids[0]];
    var line, rest := Print(e, vals[0]), PrintAll(tb, ids[1..], vals[1..]);
    PrintIsLine(e, vals[0], rest);
    ReadPrinted(tb, defs, i, vals[0]);
    defs1 := ReadLine(tb, defs, line);
    WritableTail(tb, ids, vals);
    assert ([line] + Lines(rest))[1..] == Lines(rest);
  }

  /** Reading the lines printed for any list of symbols gives each of them its value back, leaves every other symbol
      that is no choice alone, and gives each choice the mode, the pick and the flag its printed values stand for. */
  lemma {:induction false} ReadBack(tb: seq<Entry>, defs: seq<Def>, ids: seq<nat>, vals: seq<string>)
    requires TableOk(tb) && DistinctNames(tb) && |defs| == |tb| && Writable(tb, ids, vals)
    requires forall k | 0 <= k < |ids| :: defs[ids[k]] == Def(false, NO, None, None)
    ensures var r := ReadLines(tb, defs, Lines(PrintAll(tb, ids, vals)));
      && (forall k | 0 <= k < |ids| :: r[ids[k]] == Restored(tb[ids[k]].typ, vals[k]))
      && (forall i | 0 <= i < |tb| && !tb[i].isChoice && i !in ids :: r[i] == defs[i])
      && (forall c | 0 <= c < |tb| && tb[c].isChoice :: ChoiceRead(tb, ids, vals, c, defs[c], r[c]))
    decreases |ids|
  {
    if ids != [] {
      var defs1 := ReadNext(tb, defs, ids, vals);
      ReadBack(tb, defs1, ids[1..], vals[1..]);
      var r := ReadLines(tb, defs1, Lines(PrintAll(tb, ids[1..], vals[1..])));
      forall k | 0 <= k < |ids| ensures r[ids[k]] == Restored(tb[ids[k]].typ, vals[k]) {
        if k > 0 { assert ids[k] == ids[1..][k - 1]; }
      }
      forall c | 0 <= c < |tb| && tb[c].isChoice ensures ChoiceRead(tb, ids, vals, c, defs[c], r[c]) {
        FirstIsRead(tb, defs, ids, vals, c);
        ChoiceReadNext(tb, ids, vals, c, defs[c], defs1[c], r[c]);
      }
    }
  }

  lemma FirstIsRead(tb: seq<Entry>, defs: seq<Def>, ids: seq<nat>, vals: seq<string>, c: nat)
    requires TableOk(tb) && |defs| == |tb| && Writable(tb, ids, vals) && ids != [] && c < |tb| && tb[c].isChoice
    ensures FirstRead(tb, ids, vals, c, defs[c], SetChoice(tb, defs[ids[0] := Restored(tb[ids[0]].typ, vals[0])], ids[0])[c])
  {
    assert PrintedTri(tb[ids[0]].typ, vals[0]) == Restored(tb[ids[0]].typ, vals[0]).tri;
  }

  /** Writing, then reading into a cleared table: exactly the written symbols have their values, and every choice the
      mode, the pick and the flag that its written values stand for. */
  lemma WriteThenRead(tb: seq<Entry>, ids: seq<nat>, vals: seq<string>)
    requires TableOk(tb) && DistinctNames(tb) && Writable(tb, ids, vals)
    ensures var r := ReadLines(tb, Reset(tb), Lines(PrintAll(tb, ids, vals)));
      && (forall i | 0 <= i < |tb| && !tb[i].isChoice ::
            (forall k | 0 <= k < |ids| && ids[k] == i :: r[i] == Restored(tb[i].typ, vals[k]))
            && (i !in ids ==> !r[i].has))
      && (forall c | 0 <= c < |tb| && tb[c].isChoice :: ChoiceRead(tb, ids, vals, c, Def(true, NO, None, None), r[c]))
  {
    ReadBack(tb, Reset(tb), ids, vals);
  }
}
