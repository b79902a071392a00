/** The reading and escaping code of scripts/config/confdata.c as it runs. */
module ConfReader {
  import opened Tristates
  import opened Exprs
  import opened ConfLines

  const NUL: char := '\0'

  // ----- escape_string_value -----

  function SpecialCount(s: string): nat {
    if s == [] then 0 else (if Special(s[0]) then 1 else 0) + SpecialCount(s[1..])
  }

  lemma {:induction false} EscapedLength(s: string)
    ensures |Escaped(s)| == |s| + SpecialCount(s)
  {
    if s != [] { EscapedLength(s[1..]); }
  }

  lemma {:induction false} SpecialCountAppend(a: string, b: string)
    ensures SpecialCount(a + b) == SpecialCount(a) + SpecialCount(b)
  {
    if a == [] {
      assert a + b == b;
    } else {
      assert (a + b)[1..] == a[1..] + b;
      SpecialCountAppend(a[1..], b);
    }
  }

  lemma {:induction false} EscapedAppend(a: string, b: string)
    ensures Escaped(a + b) == Escaped(a) + Escaped(b)
  {
    if a == [] {
      assert a + b == b;
    } else {
      assert (a + b)[1..] == a[1..] + b;
      EscapedAppend(a[1..], b);
      assert (if Special(a[0]) then ['\\', a[0]] else [a[0]]) + (Escaped(a[1..]) + Escaped(b)) == Escaped(a) + Escaped(b);
    }
  }

  /** strcspn(p, "\"\\") from `p` on: how far the text goes without a quote or backslash. */
  method Span(s: string, p: nat) returns (n: nat)
    requires p <= |s|
    ensures p + n <= |s| && (forall k | p <= k < p + n :: !Special(s[k]))
    ensures p + n < |s| ==> Special(s[p + n])
  {
    n := 0;
    while p + n < |s| && !Special(s[p + n])
      invariant p + n <= |s| && forall k | p <= k < p + n :: !Special(s[k])
    {
      n := n + 1;
    }
  }

  lemma {:induction false} PlainPart(s: string)
    requires forall c <- s :: !Special(c)
    ensures Escaped(s) == s && SpecialCount(s) == 0
  {
    if s != [] {
      assert s[0] in s && forall c <- s[1..] :: c in s;
      PlainPart(s[1..]);
      assert [s[0]] + s[1..] == s;
    }
  }

  /** The first loop: the size of the buffer, closing NUL included. */
  method EscapedSize(s: string) returns (len: nat)
    ensures len == |Quoted(s)| + 1
  {
    len := |s| + 2 + 1;
    var p := 0;
    assert s[..0] == "";
    while true
      invariant p <= |s| && len == |s| + 3 + SpecialCount(s[..p])
      decreases |s| - p
    {
      var n := Span(s, p);
      CountPlain(s, p, p + n);
      p := p + n;
      if p == |s| {
        break;
      }
      CountSpecial(s, p);
      len := len + 1;
      p := p + 1;
    }
    assert s[..|s|] == s;
    EscapedLength(s);
  }

  lemma CountPlain(s: string, p: nat, q: nat)
    requires p <= q <= |s| && forall k | p <= k < q :: !Special(s[k])
    ensures SpecialCount(s[..q]) == SpecialCount(s[..p])
  {
    PlainPart(s[p..q]);
    SpecialCountAppend(s[..p], s[p..q]);
    assert s[..p] + s[p..q] == s[..q];
  }

  lemma CountSpecial(s: string, p: nat)
    requires p < |s| && Special(s[p])
    ensures SpecialCount(s[..p + 1]) == SpecialCount(s[..p]) + 1
  {
    SpecialCountAppend(s[..p], [s[p]]);
    assert s[..p] + [s[p]] == s[..p + 1];
    assert [s[p]][1..] == [];
  }

  /** The buffer is allocated at the computed size and filled exactly. */
  method EscapeString(s: string) returns (out: array<char>)
    ensures out[..] == Quoted(s) + [NUL] && fresh(out)
  {
    var len := EscapedSize(s);
    out := new char[len];
    out[0] := '"';
    var used: nat, p: nat := 1, 0;
    FilledStart(out[..], s);
    var more := true;
    while more
      invariant Filled(out[..], s, used, p) && (!more ==> p == |s|)
      decreases |s| - p, more
    {
      used, p, more := EscapeNext(out, s, used, p);
    }
    FilledEnd(out[..], s, used);
    out[used] := '"';
    out[used + 1] := NUL;
  }

  /** One round of the second loop: the text up to the next special character, and that character. */
  method EscapeNext(out: array<char>, s: string, used: nat, p: nat) returns (used': nat, p': nat, more: bool)
    requires Filled(out[..], s, used, p)
    modifies out
    ensures Filled(out[..], s, used', p') && (if more then p < p' else p <= p' == |s|)
  {
    ghost var b := out[..];
    var n := Span(s, p);
    FillPlain(b, s, used, p, n);
    Append(out, used, s[p..p + n]);
    used', p' := used + n, p + n;
    more := p' < |s|;
    if more {
      b := out[..];
      FillSpecial(b, s, used', p');
      Append(out, used', ['\\', s[p']]);
      used', p' := used' + 2, p' + 1;
    }
  }

  /** The text before `p` has been escaped into the first `used` characters; what is left fits. */
  ghost predicate Filled(out: seq<char>, s: string, used: nat, p: nat) {
    && p <= |s| && used == 1 + |Escaped(s[..p])| && used + |Escaped(s[p..])| + 2 == |out|
    && out[..used] == "\"" + Escaped(s[..p])
  }

  lemma FilledStart(b: seq<char>, s: string)
    requires |b| == |Quoted(s)| + 1 && b[0] == '"'
    ensures Filled(b, s, 1, 0)
  {
  }

  lemma FillPlain(b: seq<char>, s: string, used: nat, p: nat, n: nat)
    requires Filled(b, s, used, p) && p + n <= |s| && forall k | p <= k < p + n :: !Special(s[k])
    ensures used + n <= |b|
    ensures forall c: seq<char> | |c| == |b| && c[..used + n] == b[..used] + s[p..p + n] :: Filled(c, s, used + n, p + n)
  {
    EscapedSplit(s, p, p + n);
    PlainPart(s[p..p + n]);
    Longer("\"", Escaped(s[..p]), s[p..p + n]);
  }

  lemma FillSpecial(b: seq<char>, s: string, used: nat, p: nat)
    requires Filled(b, s, used, p) && p < |s| && Special(s[p])
    ensures used + 2 <= |b|
    ensures forall c: seq<char> | |c| == |b| && c[..used + 2] == b[..used] + ['\\', s[p]] :: Filled(c, s, used + 2, p + 1)
  {
    EscapedSplit(s, p, p + 1);
    assert s[p..p + 1] == [s[p]] && [s[p]][1..] == [] && Escaped([s[p]]) == ['\\', s[p]];
    Longer("\"", Escaped(s[..p]), ['\\', s[p]]);
  }

  lemma Longer(x: string, y: string, z: string)
    ensures (x + y) + z == x + (y + z)
  {
  }

  lemma FilledEnd(b: seq<char>, s: string, used: nat)
    requires Filled(b, s, used, |s|)
    ensures used + 2 == |b| && b[used := '"'][used + 1 := NUL] == Quoted(s) + [NUL]
  {
    assert s[..|s|] == s && s[|s|..] == [];
    assert b[used := '"'][used + 1 := NUL] == b[..used] + ['"', NUL];
    assert "\"" + Escaped(s) + ['"', NUL] == "\"" + Escaped(s) + "\"" + [NUL];
  }

  lemma EscapedSplit(s: string, p: nat, q: nat)
    requires p <= q <= |s|
    ensures Escaped(s[..q]) == Escaped(s[..p]) + Escaped(s[p..q])
    ensures Escaped(s[p..]) == Escaped(s[p..q]) + Escaped(s[q..])
  {
    assert s[..q] == s[..p] + s[p..q] && s[p..] == s[p..q] + s[q..];
    EscapedAppend(s[..p], s[p..q]);
    EscapedAppend(s[p..q], s[q..]);
  }

  /** strncat at a known end. */
  method Append(out: array<char>, used: nat, t: string)
    requires used + |t| <= out.Length
    modifies out
    ensures out[..used + |t|] == old(out[..used]) + t
  {
    ghost var o0 := out[..used];
    for k := 0 to |t|
      invariant out[..used + k] == o0 + t[..k]
    {
      out[used + k] := t[k];
    }
  }

  // ----- unescaping in place -----

  /** The loop of conf_set_sym_val over the text from `start` on: escapes are closed up with memmove,
      and the closing quote becomes the end of the text. */
  method UnescapeInPlace(a: array<char>, start: nat, ghost s: string) returns (ok: bool)
    requires start + |s| < a.Length && NUL !in s && a[start..start + |s| + 1] == s + [NUL]
    modifies a
    ensures ok == Unescaped(s).Some?
    ensures ok ==> start + |Unescaped(s).value| < a.Length && a[start..start + |Unescaped(s).value| + 1] == Unescaped(s).value + [NUL]
    ensures a[..start] == old(a[..start])
  {
    var p2: nat := start;
    ghost var done, left, a0 := "", s, a[..start];
    ReadingStart(a[..], start, s);
    while a[p2] != NUL
      invariant Reading(a[..], a0, start, p2, done, left, s)
      decreases |left|
    {
      ghost var b := a[..];
      Ahead(b[p2..p2 + |left| + 1], left);
      if a[p2] == '"' {
        a[p2] := NUL;
        ReadingQuote(b, a0, start, p2, done, left, s);
        return true;
      }
      if a[p2] == '\\' {
        CloseUp(a, p2, left);
        if a[p2] == NUL {
          // the terminator that was moved still stands one further on
          ReadingLone(b, a[..], a0, start, p2, done, left, s);
          return false;
        }
        ReadingEscape(b, a[..], a0, start, p2, done, left, s);
        done, left := done + [left[1]], left[2..];
      } else {
        ReadingPlain(b, a0, start, p2, done, left, s);
        done, left := done + [left[0]], left[1..];
      }
      p2 := p2 + 1;
    }
    Ahead(a[..][p2..p2 + |left| + 1], left);
    ok := false;
  }

  /** At `p2`: `done` has been closed up before it, `left` is still ahead. */
  ghost predicate Reading(b: seq<char>, b0: seq<char>, start: nat, p2: nat, done: string, left: string, s: string) {
    && start <= p2 && p2 + |left| < |b| && NUL !in left
    && b[p2..p2 + |left| + 1] == left + [NUL] && b[start..p2] == done && b[..start] == b0
    && Unescaped(s) == Behind(done, Unescaped(left))
  }

  lemma ReadingStart(b: seq<char>, start: nat, s: string)
    requires start + |s| < |b| && NUL !in s && b[start..start + |s| + 1] == s + [NUL]
    ensures Reading(b, b[..start], start, start, "", s, s)
  {
    if Unescaped(s).Some? { assert "" + Unescaped(s).value == Unescaped(s).value; }
  }

  lemma ReadingPlain(b: seq<char>, b0: seq<char>, start: nat, p2: nat, done: string, left: string, s: string)
    requires Reading(b, b0, start, p2, done, left, s) && left != [] && !Special(left[0])
    ensures Reading(b, b0, start, p2 + 1, done + [left[0]], left[1..], s)
  {
    Ahead(b[p2..p2 + |left| + 1], left);
    assert b[p2 + 1..p2 + 1 + |left[1..]| + 1] == b[p2..p2 + |left| + 1][1..];
    Kept(done, left[0], Unescaped(left[1..]));
  }

  lemma ReadingEscape(b: seq<char>, c: seq<char>, b0: seq<char>, start: nat, p2: nat, done: string, left: string, s: string)
    requires Reading(b, b0, start, p2, done, left, s) && left != [] && left[0] == '\\' && |c| == |b|
    requires c[..p2] == b[..p2] && c[p2..p2 + |left|] == left[1..] + [NUL] && c[p2] != NUL
    ensures |left| >= 2 && Reading(c, b0, start, p2 + 1, done + [left[1]], left[2..], s)
  {
    Ahead(c[p2..p2 + |left|], left[1..]);
    assert c[p2 + 1..p2 + 1 + |left[2..]| + 1] == c[p2..p2 + |left|][1..];
    assert left[1..][1..] == left[2..];
    assert c[start..p2] == c[..p2][start..] && c[..start] == c[..p2][..start];
    Kept(done, left[1], Unescaped(left[2..]));
  }

  lemma ReadingLone(b: seq<char>, c: seq<char>, b0: seq<char>, start: nat, p2: nat, done: string, left: string, s: string)
    requires Reading(b, b0, start, p2, done, left, s) && left != [] && left[0] == '\\' && |c| == |b|
    requires c[..p2] == b[..p2] && c[p2..p2 + |left|] == left[1..] + [NUL] && c[p2] == NUL
    ensures Unescaped(s).None? && c[..start] == b0
  {
  }

  lemma ReadingQuote(b: seq<char>, b0: seq<char>, start: nat, p2: nat, done: string, left: string, s: string)
    requires Reading(b, b0, start, p2, done, left, s) && left != [] && left[0] == '"'
    ensures Unescaped(s) == Some(done) && start + |done| == p2
    ensures b[p2 := NUL][start..p2 + 1] == done + [NUL] && b[p2 := NUL][..start] == b0
  {
    assert done + "" == done;
  }

  function Behind(done: string, r: Option<string>): Option<string> {
    if r.None? then None else Some(done + r.value)
  }

  lemma Kept(done: string, c: char, r: Option<string>)
    ensures Behind(done, Behind([c], r)) == Behind(done + [c], r)
  {
    if r.Some? { assert done + ([c] + r.value) == (done + [c]) + r.value; }
  }

  /** The first character of the text that is still ahead. */
  lemma Ahead(b: seq<char>, left: string)
    requires b == left + [NUL] && NUL !in left
    ensures b[0] == NUL <==> left == []
    ensures left != [] ==> b[0] == left[0] && b[1..] == left[1..] + [NUL] && NUL !in left[1..]
  {
  }

  /** memmove(p2, p2 + 1, strlen(p2)). */
  method CloseUp(a: array<char>, p2: nat, ghost left: string)
    requires left != [] && p2 + |left| < a.Length && a[p2..p2 + |left| + 1] == left + [NUL] && NUL !in left
    modifies a
    ensures a[..p2] == old(a[..p2]) && a[p2..p2 + |left|] == left[1..] + [NUL]
  {
    ghost var w := a[..];
    var n := StrLen(a, p2, left);
    assert Closing(w, p2, 0) == w;
    for j := 0 to n
      invariant a[..] == Closing(w, p2, j)
    {
      ClosingNext(w, p2, j);
      a[p2 + j] := a[p2 + j + 1];
    }
    ClosedUp(w, a[..], p2, left);
  }

  /** The text from `p2` on, its first `j` characters overwritten by those one further on. */
  function Closing(w: seq<char>, p2: nat, j: nat): (r: seq<char>)
    requires p2 + j < |w|
    ensures |r| == |w|
  {
    w[..p2] + w[p2 + 1..p2 + 1 + j] + w[p2 + j..]
  }

  lemma ClosingNext(w: seq<char>, p2: nat, j: nat)
    requires p2 + j + 1 < |w|
    ensures Closing(w, p2, j)[p2 + j + 1] == w[p2 + j + 1]
    ensures Closing(w, p2, j)[p2 + j := w[p2 + j + 1]] == Closing(w, p2, j + 1)
  {
  }

  lemma ClosedUp(w: seq<char>, b: seq<char>, p2: nat, left: string)
    requires left != [] && p2 + |left| < |w| && w[p2..p2 + |left| + 1] == left + [NUL]
    requires b == Closing(w, p2, |left|)
    ensures |b| == |w| && b[..p2] == w[..p2] && b[p2..p2 + |left|] == left[1..] + [NUL]
  {
  }

  method StrLen(a: array<char>, p: nat, ghost left: string) returns (n: nat)
    requires p + |left| < a.Length && a[p..p + |left| + 1] == left + [NUL] && NUL !in left
    ensures n == |left|
  {
    n := 0;
    ghost var b := a[p..p + |left| + 1];
    while a[p + n] != NUL
      invariant n <= |left|
      decreases |left| - n
    {
      assert a[p + n] == b[n];
      n := n + 1;
    }
    assert a[p + n] == b[n] && forall k | 0 <= k < |left| :: b[k] == left[k] && left[k] in left;
  }

  // ----- conf_read_simple -----

  class Reader {
    const tb: seq<Entry>
    var defs: seq<Def>

    ghost predicate Valid()
      reads this
    {
      TableOk(tb) && |defs| == |tb|
    }

    /** conf_set_sym_val. */
    method SetSymVal(i: nat, p: string) returns (failed: bool)
      requires Valid() && i < |tb| && NUL !in p
      modifies this
      ensures Valid() && failed == SetVal(tb[i].typ, old(defs)[i], p).None?
      ensures defs == if failed then old(defs) else old(defs)[i := SetVal(tb[i].typ, old(defs)[i], p).value]
    {
      var d := defs[i];
      assert defs[i := d] == defs;
      match tb[i].typ
      case TristateType =>
        if p != [] && p[0] == 'm' {
          defs := defs[i := d.(tri := MOD, has := true)];
          return false;
        }
        failed := SetBoolean(i, p);
      case BooleanType =>
        failed := SetBoolean(i, p);
      case StringType =>
        if p == [] || p[0] != '"' {
          return false;
        }
        var s := Unescape(p[1..]);
        if s.None? {
          return true;
        }
        defs := defs[i := d.(val := s, has := true)];
        failed := false;
      case UnknownType =>
        failed := false;
      case _ =>
        if !StringValid(tb[i].typ, p) {
          return true;
        }
        defs := defs[i := d.(val := Some(p), has := true)];
        failed := false;
    }

    method SetBoolean(i: nat, p: string) returns (failed: bool)
      requires Valid() && i < |tb|
      modifies this
      ensures Valid() && failed == SetBool(old(defs)[i], p).None?
      ensures defs == if failed then old(defs) else old(defs)[i := SetBool(old(defs)[i], p).value]
    {
      if p != [] && p[0] == 'y' {
        defs := defs[i := defs[i].(tri := YES, has := true)];
        return false;
      }
      if p != [] && p[0] == 'n' {
        defs := defs[i := defs[i].(tri := NO, has := true)];
        return false;
      }
      failed := true;
    }

    /** The part of conf_read_simple after a value is set. */
    method UpdateChoice(i: nat)
      requires Valid() && i < |tb|
      modifies this
      ensures Valid() && defs == SetChoice(tb, old(defs), i)
      ensures tb[i].choice.Some? ==>
        var c, t := tb[i].choice.value, old(defs)[i].tri;
        && defs[c].pick == (if t == YES then Some(i) else old(defs)[c].pick)
        && (defs[c].tri == t || defs[c].tri == old(defs)[c].tri) && t <= defs[c].tri && old(defs)[c].tri <= defs[c].tri
        && defs[c].has == (old(defs)[c].has && !(t == MOD && old(defs)[c].tri == YES))
    {
      if tb[i].choice.Some? {
        var cs, tri := tb[i].choice.value, defs[i].tri;
        var was := defs[cs].tri;
        if tri == MOD {
          if was == YES {
            defs := defs[cs := defs[cs].(has := false)];
          }
        } else if tri == YES {
          defs := defs[cs := defs[cs].(pick := Some(i))];
        }
        defs := defs[cs := defs[cs].(tri := TriOr(was, tri))];
      }
    }

    method ReadOne(line: string)
      requires Valid() && NUL !in line
      modifies this
      ensures Valid() && defs == ReadLine(tb, old(defs), line)
    {
      if line != [] && line[0] == '#' {
        var name := UnsetName(line);
        if name.None? {
          return;
        }
        var i := Find(tb, name.value);
        if i.None? {
          return;
        }
        if tb[i.value].typ.BooleanType? || tb[i.value].typ.TristateType? {
          defs := defs[i.value := defs[i.value].(tri := NO, has := true)];
        }
        UpdateChoice(i.value);
      } else if PREFIX <= line {
        var rest := line[|PREFIX|..];
        var p := IndexOf(rest, '=');
        if p.None? {
          return;
        }
        var i := Find(tb, rest[..p.value]);
        if i.None? {
          return;
        }
        var failed := SetSymVal(i.value, Chopped(rest[p.value + 1..]));
        if failed {
          return;
        }
        UpdateChoice(i.value);
      }
    }

    /** The whole file: reset, then line by line. */
    method ReadSimple(text: string)
      requires TableOk(tb) && NUL !in text
      modifies this
      ensures Valid() && defs == ReadLines(tb, Reset(tb), Lines(text))
    {
      defs := Reset(tb);
      var left := text;
      while left != []
        invariant Valid() && NUL !in left
        invariant ReadLines(tb, defs, Lines(left)) == ReadLines(tb, Reset(tb), Lines(text))
        decreases |left|
      {
        var k := IndexOf(left, '\n');
        var end := if k.None? then |left| else k.value + 1;
        NextLine(left, end, k);
        ReadOne(left[..end]);
        left := left[end..];
      }
    }
  }

  lemma NextLine(left: string, end: nat, k: Option<nat>)
    requires left != [] && k == IndexOf(left, '\n') && end == if k.None? then |left| else k.value + 1
    ensures Lines(left) != [] && Lines(left)[0] == left[..end] && Lines(left)[1..] == Lines(left[end..])
  {
    if k.None? {
      assert left[..end] == left && left[end..] == [];
    } else {
      HeadAndTail(left[..end], Lines(left[end..]), Lines(left));
    }
  }

  lemma HeadAndTail(head: string, tail: seq<string>, all: seq<string>)
    requires all == [head] + tail
    ensures all != [] && all[0] == head && all[1..] == tail
  {
  }

  /** The unescaping loop on a copy of the text. */
  method Unescape(s: string) returns (r: Option<string>)
    requires NUL !in s
    ensures r == Unescaped(s)
  {
    var a := new char[|s| + 1](k requires 0 <= k < |s| + 1 => if k < |s| then s[k] else NUL);
    assert a[0..0 + |s| + 1] == s + [NUL];
    var ok := UnescapeInPlace(a, 0, s);
    if !ok {
      return None;
    }
    ghost var t := Unescaped(s).value;
    NoNul(s);
    var n := StrLen(a, 0, t);
    r := Some(a[..n]);
    assert a[..n] == a[0..0 + |t| + 1][..|t|];
  }

  lemma {:induction false} NoNul(s: string)
    requires NUL !in s && Unescaped(s).Some?
    ensures NUL !in Unescaped(s).value
    decreases |s|
  {
    if s[0] == '\\' { NoNul(s[2..]); } else if s[0] != '"' { NoNul(s[1..]); }
  }
}
