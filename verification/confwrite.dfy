/** The walk over the menu tree that writes .config (conf_write of scripts/config/confdata.c):
    a loop over list, next and parent links, without a stack. */
module ConfWrite {
  import opened Tristates
  import opened MenuTrees

  datatype Item = Heading(menu: nat) | SymbolLine(sym: nat) | EndOf(menu: nat) | BlankLine

  /** What the walk reads: the symbol of each node, whether a symbol is a choice, whether it is
      marked SYMBOL_WRITE once calculated, whether a node is visible and has a menu prompt. */
  datatype Page = Page(sym: seq<Option<nat>>, isChoice: seq<bool>, write: seq<bool>, visible: seq<bool>, isMenu: seq<bool>)

  predicate PageOk(p: Page) {
    && |p.sym| == |p.visible| == |p.isMenu| && |p.isChoice| == |p.write|
    && forall i | 0 <= i < |p.sym| :: p.sym[i].Some? ==> p.sym[i].value < |p.isChoice|
  }

  datatype Progress = Progress(written: seq<bool>, newline: bool, out: seq<Item>)

  predicate Fits(p: Page, w: Progress) { PageOk(p) && |w.written| == |p.isChoice| }

  // ----- what should be written -----

  function Enter(p: Page, w: Progress, i: nat): (r: Progress)
    requires Fits(p, w) && i < |p.sym|
    ensures Fits(p, r)
  {
    if p.sym[i].None? then (if p.visible[i] then w.(out := w.out + [Heading(i)], newline := false) else w)
    else
      var s := p.sym[i].value;
      if p.isChoice[s] || w.written[s] || !p.write[s] then w
      else Progress(w.written[s := true], false, w.out + (if w.newline then [BlankLine] else []) + [SymbolLine(s)])
  }

  predicate Closes(p: Page, i: nat)
    requires PageOk(p) && i < |p.sym|
  {
    p.sym[i].None? && p.visible[i] && p.isMenu[i]
  }

  function Leave(p: Page, w: Progress, i: nat): (r: Progress)
    requires Fits(p, w) && i < |p.sym|
    ensures Fits(p, r)
  {
    if Closes(p, i) then w.(out := w.out + [EndOf(i)], newline := true) else w
  }

  ghost predicate Inside(p: Page, f: Forest) { forall i <- Pre(f) :: i < |p.sym| }

  lemma InsideParts(p: Page, f: Forest)
    requires f != [] && Inside(p, f)
    ensures f[0].id < |p.sym| && Inside(p, f[0].kids) && Inside(p, f[1..])
  {
    assert forall i <- [f[0].id] + Pre(f[0].kids) + Pre(f[1..]) :: i in Pre(f);
    assert f[0].id in [f[0].id] + Pre(f[0].kids) + Pre(f[1..]);
    assert forall i <- Pre(f[0].kids) :: i in [f[0].id] + Pre(f[0].kids) + Pre(f[1..]);
    assert forall i <- Pre(f[1..]) :: i in [f[0].id] + Pre(f[0].kids) + Pre(f[1..]);
  }

  /** The recursive reading: each node, what is inside it, its end, then what follows. */
  ghost function Emit(p: Page, w: Progress, f: Forest): (r: Progress)
    requires Fits(p, w) && Inside(p, f)
    ensures Fits(p, r)
    decreases f
  {
    if f == [] then w
    else
      InsideParts(p, f);
      Emit(p, Leave(p, Emit(p, Enter(p, w, f[0].id), f[0].kids), f[0].id), f[1..])
  }

  // ----- properties of what is written -----

  function Printed(out: seq<Item>): seq<nat> {
    if out == [] then []
    else Printed(out[..|out| - 1]) + (if out[|out| - 1].SymbolLine? then [out[|out| - 1].sym] else [])
  }

  /** The flags SYMBOL_WRITTEN say what has been printed, once each. */
  ghost predicate Once(w: Progress) {
    && NoDup(Printed(w.out))
    && forall s: nat :: s in Printed(w.out) <==> s < |w.written| && w.written[s]
  }

  /** Node `i` stands for the symbol `s`, which is to be written. */
  predicate Writable(p: Page, i: nat, s: nat)
    requires PageOk(p)
  {
    i < |p.sym| && p.sym[i] == Some(s) && !p.isChoice[s] && p.write[s]
  }

  lemma EnterOnce(p: Page, w: Progress, i: nat)
    requires Fits(p, w) && i < |p.sym| && Once(w)
    ensures Once(Enter(p, w, i))
    ensures forall s | 0 <= s < |w.written| :: Enter(p, w, i).written[s] <==> w.written[s] || Writable(p, i, s)
  {
    EnterWrites(p, w, i);
    EnterKeepsOnce(p, w, i);
  }

  lemma EnterWrites(p: Page, w: Progress, i: nat)
    requires Fits(p, w) && i < |p.sym|
    ensures forall s | 0 <= s < |w.written| :: Enter(p, w, i).written[s] <==> w.written[s] || Writable(p, i, s)
  {
  }

  lemma EnterKeepsOnce(p: Page, w: Progress, i: nat)
    requires Fits(p, w) && i < |p.sym| && Once(w)
    ensures Once(Enter(p, w, i))
  {
    if p.sym[i].None? {
      HeadingOnce(w, i);
    } else {
      var s := p.sym[i].value;
      if !w.written[s] { SymbolOnce(w, s); }
    }
  }

  lemma HeadingOnce(w: Progress, i: nat)
    requires Once(w)
    ensures Once(w.(out := w.out + [Heading(i)], newline := false))
  {
    PrintedNext(w.out, Heading(i));
  }

  lemma SymbolOnce(w: Progress, s: nat)
    requires Once(w) && s < |w.written| && !w.written[s]
    ensures Once(Progress(w.written[s := true], false, w.out + (if w.newline then [BlankLine] else []) + [SymbolLine(s)]))
  {
    var gap := w.out + if w.newline then [BlankLine] else [];
    assert Printed(gap) == Printed(w.out) by {
      if w.newline { PrintedNext(w.out, BlankLine); } else { assert gap == w.out; }
    }
    PrintedNext(gap, SymbolLine(s));
  }

  lemma PrintedNext(out: seq<Item>, item: Item)
    ensures Printed(out + [item]) == Printed(out) + if item.SymbolLine? then [item.sym] else []
    ensures !item.SymbolLine? ==> Printed(out + [item]) == Printed(out)
  {
    assert (out + [item])[..|out|] == out;
  }

  lemma LeaveOnce(p: Page, w: Progress, i: nat)
    requires Fits(p, w) && i < |p.sym| && Once(w)
    ensures Once(Leave(p, w, i)) && Leave(p, w, i).written == w.written
  {
  }

  /** Every symbol to be written is printed exactly once, no other symbol at all. */
  lemma {:induction false} EmitOnce(p: Page, w: Progress, f: Forest)
    requires Fits(p, w) && Inside(p, f) && Once(w)
    ensures Once(Emit(p, w, f))
    ensures forall s | 0 <= s < |w.written| ::
      Emit(p, w, f).written[s] <==> w.written[s] || exists i <- Pre(f) :: Writable(p, i, s)
    decreases f
  {
    if f != [] {
      InsideParts(p, f);
      var t := f[0];
      var w1 := Enter(p, w, t.id);
      EnterOnce(p, w, t.id);
      EmitOnce(p, w1, t.kids);
      var w2 := Emit(p, w1, t.kids);
      LeaveOnce(p, w2, t.id);
      EmitOnce(p, Leave(p, w2, t.id), f[1..]);
      assert Pre(f) == [t.id] + Pre(t.kids) + Pre(f[1..]);
      forall s | 0 <= s < |w.written|
        ensures Emit(p, w, f).written[s] <==> w.written[s] || exists i <- Pre(f) :: Writable(p, i, s)
      {
        OneOf(p, s, t.id, Pre(t.kids), Pre(f[1..]));
      }
    }
  }

  lemma OneOf(p: Page, s: nat, x: nat, a: seq<nat>, b: seq<nat>)
    requires PageOk(p)
    ensures (exists i <- [x] + a + b :: Writable(p, i, s))
       <==> Writable(p, x, s) || (exists i <- a :: Writable(p, i, s)) || (exists i <- b :: Writable(p, i, s))
  {
  }

  /** Reading menu headings as opening and "# end of" as closing brackets: the stack of open menus
      after `out`, if every end matches. */
  function Brackets(p: Page, out: seq<Item>, open: seq<nat>): Option<seq<nat>>
    requires PageOk(p)
  {
    if out == [] then Some(open)
    else match out[0]
      case Heading(i) => Brackets(p, out[1..], if i < |p.sym| && Closes(p, i) then open + [i] else open)
      case EndOf(i) =>
        if open != [] && open[|open| - 1] == i then Brackets(p, out[1..], open[..|open| - 1]) else None
      case _ => Brackets(p, out[1..], open)
  }

  lemma {:induction false} BracketsAppend(p: Page, a: seq<Item>, b: seq<Item>, open: seq<nat>)
    requires PageOk(p) && Brackets(p, a, open).Some?
    ensures Brackets(p, a + b, open) == Brackets(p, b, Brackets(p, a, open).value)
    decreases |a|
  {
    if a == [] {
      assert a + b == b;
    } else {
      assert (a + b)[1..] == a[1..] + b;
      match a[0]
      case Heading(i) => BracketsAppend(p, a[1..], b, if i < |p.sym| && Closes(p, i) then open + [i] else open);
      case EndOf(i) => BracketsAppend(p, a[1..], b, open[..|open| - 1]);
      case _ => BracketsAppend(p, a[1..], b, open);
    }
  }

  /** What comes after `out` leaves the menus `open` when `out` itself does. */
  lemma BracketsOne(p: Page, out: seq<Item>, x: Item, open0: seq<nat>, open: seq<nat>)
    requires PageOk(p) && Brackets(p, out, open0) == Some(open)
    ensures Brackets(p, out + [x], open0) == Brackets(p, [x], open)
    ensures [x][1..] == []
  {
    BracketsAppend(p, out, [x], open0);
  }

  lemma EnterBrackets(p: Page, w: Progress, i: nat, open: seq<nat>)
    requires Fits(p, w) && i < |p.sym| && Brackets(p, w.out, []) == Some(open)
    ensures Brackets(p, Enter(p, w, i).out, []) == Some(if Closes(p, i) then open + [i] else open)
  {
    var r := Enter(p, w, i);
    if r != w {
      if p.sym[i].None? {
        BracketsOne(p, w.out, Heading(i), [], open);
      } else {
        var s := p.sym[i].value;
        if w.newline {
          BracketsOne(p, w.out, BlankLine, [], open);
          BracketsOne(p, w.out + [BlankLine], SymbolLine(s), [], open);
        } else {
          assert w.out + [] == w.out;
          BracketsOne(p, w.out, SymbolLine(s), [], open);
        }
      }
    }
  }

  lemma LeaveBrackets(p: Page, w: Progress, i: nat, open: seq<nat>)
    requires Fits(p, w) && i < |p.sym|
    requires Brackets(p, w.out, []) == Some(if Closes(p, i) then open + [i] else open)
    ensures Brackets(p, Leave(p, w, i).out, []) == Some(open)
  {
    if Closes(p, i) {
      BracketsOne(p, w.out, EndOf(i), [], open + [i]);
      assert (open + [i])[..|open|] == open;
    }
  }

  /** Menu headings and their ends nest. */
  lemma {:induction false} EmitBrackets(p: Page, w: Progress, f: Forest, open: seq<nat>)
    requires Fits(p, w) && Inside(p, f) && Brackets(p, w.out, []) == Some(open)
    ensures Brackets(p, Emit(p, w, f).out, []) == Some(open)
    decreases f
  {
    if f != [] {
      InsideParts(p, f);
      var t := f[0];
      var w1 := Enter(p, w, t.id);
      var inner := if Closes(p, t.id) then open + [t.id] else open;
      EnterBrackets(p, w, t.id, open);
      EmitBrackets(p, w1, t.kids, inner);
      var w2 := Emit(p, w1, t.kids);
      LeaveBrackets(p, w2, t.id, open);
      EmitBrackets(p, Leave(p, w2, t.id), f[1..], open);
    }
  }

  // ----- the order of the file -----

  /** The headings and symbols of an output. */
  function Entries(out: seq<Item>): seq<Item> {
    if out == [] then []
    else Entries(out[..|out| - 1]) + (if out[|out| - 1].Heading? || out[|out| - 1].SymbolLine? then [out[|out| - 1]] else [])
  }

  predicate Nodes(p: Page, ids: seq<nat>) { forall k | 0 <= k < |ids| :: ids[k] < |p.sym| }

  /** What the nodes `ids` give in this order, if `written` has been written before: a visible node without a symbol its
      heading, the first node of a symbol to be written the symbol. */
  function Expected(p: Page, ids: seq<nat>, written: seq<bool>): seq<Item>
    requires PageOk(p) && |written| == |p.isChoice| && Nodes(p, ids)
  {
    if ids == [] then []
    else
      var i := ids[0];
      if p.sym[i].None? then (if p.visible[i] then [Heading(i)] else []) + Expected(p, ids[1..], written)
      else if Writable(p, i, p.sym[i].value) && !written[p.sym[i].value] then
        [SymbolLine(p.sym[i].value)] + Expected(p, ids[1..], written[p.sym[i].value := true])
      else Expected(p, ids[1..], written)
  }

  /** What has been written after the nodes `ids`. */
  function Done(p: Page, ids: seq<nat>, written: seq<bool>): (r: seq<bool>)
    requires PageOk(p) && |written| == |p.isChoice| && Nodes(p, ids)
    ensures |r| == |written|
  {
    if ids == [] then written
    else if p.sym[ids[0]].Some? && Writable(p, ids[0], p.sym[ids[0]].value) then
      Done(p, ids[1..], written[p.sym[ids[0]].value := true])
    else Done(p, ids[1..], written)
  }

  lemma {:induction false} ExpectedAppend(p: Page, a: seq<nat>, b: seq<nat>, written: seq<bool>)
    requires PageOk(p) && |written| == |p.isChoice| && Nodes(p, a) && Nodes(p, b)
    ensures Expected(p, a + b, written) == Expected(p, a, written) + Expected(p, b, Done(p, a, written))
    ensures Done(p, a + b, written) == Done(p, b, Done(p, a, written))
    decreases |a|
  {
    if a == [] {
      assert a + b == b;
    } else {
      assert (a + b)[1..] == a[1..] + b;
      var s := p.sym[a[0]];
      ExpectedAppend(p, a[1..], b, if s.Some? && Writable(p, a[0], s.value) then written[s.value := true] else written);
      if s.Some? && written[s.value] { assert written[s.value := true] == written; }
    }
  }

  /** A blank line stands exactly between the end of a menu and a symbol that follows it. */
  ghost predicate Spaced(out: seq<Item>) {
    forall k | 0 <= k < |out| :: SpacedAt(out, k)
  }

  predicate SpacedAt(out: seq<Item>, k: nat)
    requires k < |out|
  {
    && (out[k].BlankLine? ==> k > 0 && out[k - 1].EndOf? && k + 1 < |out| && out[k + 1].SymbolLine?)
    && (out[k].SymbolLine? ==> k == 0 || !out[k - 1].EndOf?)
  }

  /** The flag need_newline says whether the last thing written is the end of a menu. */
  ghost predicate Paced(w: Progress) {
    Spaced(w.out) && (w.newline <==> w.out != [] && w.out[|w.out| - 1].EndOf?)
  }

  lemma EntriesNext(out: seq<Item>, x: Item)
    ensures Entries(out + [x]) == Entries(out) + if x.Heading? || x.SymbolLine? then [x] else []
  {
    assert (out + [x])[..|out|] == out;
  }

  lemma SpacedNext(out: seq<Item>, x: Item)
    requires Spaced(out) && (x.SymbolLine? ==> out == [] || !out[|out| - 1].EndOf?) && !x.BlankLine?
    ensures Spaced(out + [x])
  {
    forall k | 0 <= k <= |out| ensures SpacedAt(out + [x], k) {
      if k < |out| { assert SpacedAt(out, k); }
    }
  }

  lemma SpacedGap(out: seq<Item>, s: nat)
    requires Spaced(out) && out != [] && out[|out| - 1].EndOf?
    ensures Spaced(out + [BlankLine] + [SymbolLine(s)])
  {
    var r := out + [BlankLine] + [SymbolLine(s)];
    forall k | 0 <= k < |r| ensures SpacedAt(r, k) {
      if k < |out| { assert SpacedAt(out, k); }
    }
  }

  lemma ExpectedOne(p: Page, i: nat, written: seq<bool>)
    requires PageOk(p) && |written| == |p.isChoice| && i < |p.sym|
    ensures p.sym[i].None? ==> Done(p, [i], written) == written && Expected(p, [i], written) == if p.visible[i] then [Heading(i)] else []
    ensures p.sym[i].Some? ==>
      var s := p.sym[i].value;
      && Done(p, [i], written) == (if Writable(p, i, s) then written[s := true] else written)
      && Expected(p, [i], written) == if Writable(p, i, s) && !written[s] then [SymbolLine(s)] else []
  {
    assert [i][1..] == [];
  }

  lemma EnterExpected(p: Page, w: Progress, i: nat)
    requires Fits(p, w) && i < |p.sym| && Paced(w)
    ensures Paced(Enter(p, w, i)) && Enter(p, w, i).written == Done(p, [i], w.written)
    ensures Entries(Enter(p, w, i).out) == Entries(w.out) + Expected(p, [i], w.written)
  {
    ExpectedOne(p, i, w.written);
    assert Entries(w.out) + [] == Entries(w.out);
    if p.sym[i].None? {
      if p.visible[i] {
        EntriesNext(w.out, Heading(i));
        SpacedNext(w.out, Heading(i));
      }
    } else {
      var s := p.sym[i].value;
      if w.written[s] { assert w.written[s := true] == w.written; }
      if Writable(p, i, s) && !w.written[s] { EnterSymbol(w, s); }
    }
  }

  lemma EnterSymbol(w: Progress, s: nat)
    requires Paced(w)
    ensures var out := w.out + (if w.newline then [BlankLine] else []) + [SymbolLine(s)];
      Spaced(out) && Entries(out) == Entries(w.out) + [SymbolLine(s)]
  {
    if w.newline {
      EntriesNext(w.out, BlankLine);
      EntriesNext(w.out + [BlankLine], SymbolLine(s));
      SpacedGap(w.out, s);
    } else {
      assert w.out + [] == w.out;
      EntriesNext(w.out, SymbolLine(s));
      SpacedNext(w.out, SymbolLine(s));
    }
  }

  lemma LeaveExpected(p: Page, w: Progress, i: nat)
    requires Fits(p, w) && i < |p.sym| && Paced(w)
    ensures Paced(Leave(p, w, i)) && Leave(p, w, i).written == w.written && Entries(Leave(p, w, i).out) == Entries(w.out)
  {
    if Closes(p, i) {
      EntriesNext(w.out, EndOf(i));
      SpacedNext(w.out, EndOf(i));
    }
  }

  /** From `w` to `r` the nodes `ids` have been gone through. */
  ghost predicate Through(p: Page, w: Progress, r: Progress, ids: seq<nat>) {
    && Fits(p, w) && Fits(p, r) && Nodes(p, ids) && Paced(r) && r.written == Done(p, ids, w.written)
    && Entries(r.out) == Entries(w.out) + Expected(p, ids, w.written)
  }

  lemma ThroughBoth(p: Page, w: Progress, u: Progress, r: Progress, a: seq<nat>, b: seq<nat>)
    requires Through(p, w, u, a) && Through(p, u, r, b)
    ensures Through(p, w, r, a + b)
  {
    ExpectedAppend(p, a, b, w.written);
    var x, y := Expected(p, a, w.written), Expected(p, b, u.written);
    assert Expected(p, a + b, w.written) == x + y && Entries(w.out) + (x + y) == Entries(w.out) + x + y;
  }

  /** Headings and symbols come in the order of the menu tree, the symbols at their first place, and blank lines only
      after the ends of menus. */
  lemma {:induction false} EmitExpected(p: Page, w: Progress, f: Forest)
    requires Fits(p, w) && Inside(p, f) && Paced(w)
    ensures Through(p, w, Emit(p, w, f), Pre(f))
    decreases f
  {
    if f != [] {
      InsideParts(p, f);
      var t := f[0];
      var w1 := Enter(p, w, t.id);
      var w2 := Emit(p, w1, t.kids);
      var w3 := Leave(p, w2, t.id);
      EnterExpected(p, w, t.id);
      EmitExpected(p, w1, t.kids);
      LeaveExpected(p, w2, t.id);
      EmitExpected(p, w3, f[1..]);
      ThroughBoth(p, w, w1, w2, [t.id], Pre(t.kids));
      assert Through(p, w2, w3, []);
      ThroughBoth(p, w, w2, w3, [t.id] + Pre(t.kids), []);
      assert [t.id] + Pre(t.kids) + [] == [t.id] + Pre(t.kids);
      ThroughBoth(p, w, w3, Emit(p, w3, f[1..]), [t.id] + Pre(t.kids), Pre(f[1..]));
    }
  }

  /** The headings expected are those of the visible nodes without a symbol. */
  lemma {:induction false} HeadingsExpected(p: Page, ids: seq<nat>, written: seq<bool>, i: nat)
    requires PageOk(p) && |written| == |p.isChoice| && Nodes(p, ids)
    ensures Heading(i) in Expected(p, ids, written) <==> i in ids && p.sym[i].None? && p.visible[i]
    decreases |ids|
  {
    if ids != [] {
      var s := p.sym[ids[0]];
      assert ids == [ids[0]] + ids[1..];
      HeadingsExpected(p, ids[1..], written, i);
      if s.Some? { HeadingsExpected(p, ids[1..], written[s.value := true], i); }
    }
  }

  /** From a clean start: what the whole file holds. */
  lemma EmitFromStart(p: Page, w: Progress, f: Forest)
    requires Fits(p, w) && Inside(p, f) && w.out == [] && !w.newline && forall s | 0 <= s < |w.written| :: !w.written[s]
    ensures Spaced(Emit(p, w, f).out) && Nodes(p, Pre(f)) && Entries(Emit(p, w, f).out) == Expected(p, Pre(f), w.written)
    ensures forall i <- Pre(f) :: Heading(i) in Entries(Emit(p, w, f).out) <==> p.sym[i].None? && p.visible[i]
    ensures NoDup(Printed(Emit(p, w, f).out))
    ensures forall s: nat :: s in Printed(Emit(p, w, f).out) <==> exists i <- Pre(f) :: Writable(p, i, s)
    ensures Brackets(p, Emit(p, w, f).out, []) == Some([])
  {
    EmitOnce(p, w, f);
    EmitBrackets(p, w, f, []);
    EmitExpected(p, w, f);
    forall i <- Pre(f) ensures Heading(i) in Entries(Emit(p, w, f).out) <==> p.sym[i].None? && p.visible[i] {
      HeadingsExpected(p, Pre(f), w.written, i);
    }
  }

  // ----- the walk -----

  /** An open ancestor of the current node, with the siblings that follow it. */
  datatype Frame = Frame(id: nat, rest: Forest)

  function Above(root: nat, frames: seq<Frame>): nat {
    if frames == [] then root else frames[|frames| - 1].id
  }

  /** The ancestors below `root`, innermost last, as the links have them. */
  ghost predicate Frames(ns: seq<Node>, root: nat, frames: seq<Frame>) {
    frames != [] ==>
      var fr, outer := frames[|frames| - 1], frames[..|frames| - 1];
      && fr.id < |ns| && ns[fr.id].parent == Some(Above(root, outer))
      && Rep(ns, ns[fr.id].next, Some(Above(root, outer)), fr.rest, None)
      && Frames(ns, root, outer)
  }

  ghost predicate FramesInside(p: Page, frames: seq<Frame>) {
    forall k | 0 <= k < |frames| :: frames[k].id < |p.sym| && Inside(p, frames[k].rest)
  }

  /** What is still written once the current list is done: the ends of the ancestors and what
      follows them. */
  ghost function Rest(p: Page, w: Progress, frames: seq<Frame>): (r: Progress)
    requires Fits(p, w) && FramesInside(p, frames)
    ensures Fits(p, r)
    decreases |frames|
  {
    if frames == [] then w
    else
      var fr := frames[|frames| - 1];
      Rest(p, Emit(p, Leave(p, w, fr.id), fr.rest), frames[..|frames| - 1])
  }

  ghost function PreRest(frames: seq<Frame>): seq<nat> {
    if frames == [] then [] else Pre(frames[|frames| - 1].rest) + PreRest(frames[..|frames| - 1])
  }

  class Writer {
    const p: Page
    const ns: seq<Node>
    var w: Progress

    ghost predicate Valid()
      reads this
    {
      Fits(p, w) && |ns| == |p.sym|
    }

    /** The part before `next:`. */
    method EnterNode(menu: nat)
      requires Valid() && menu < |ns|
      modifies this
      ensures Valid() && w == Enter(p, old(w), menu)
    {
      var sym := p.sym[menu];
      if sym.None? {
        if !p.visible[menu] {
          return;
        }
        w := w.(out := w.out + [Heading(menu)]);
        w := w.(newline := false);
      } else if !p.isChoice[sym.value] && !w.written[sym.value] {
        if !p.write[sym.value] {
          return;
        }
        if w.newline {
          w := w.(out := w.out + [BlankLine], newline := false);
        } else {
          assert w.out + [] == w.out;
        }
        w := w.(written := w.written[sym.value := true]);
        w := w.(out := w.out + [SymbolLine(sym.value)]);
      }
    }

    /** The part after `end_check:`. */
    method LeaveNode(menu: nat, root: nat)
      requires Valid() && menu < |ns|
      modifies this
      ensures Valid() && w == if menu != root then Leave(p, old(w), menu) else old(w)
    {
      if p.sym[menu].None? && p.visible[menu] && menu != root && p.isMenu[menu] {
        w := w.(out := w.out + [EndOf(menu)]);
        w := w.(newline := true);
      }
    }

    /** conf_write from a clean start: every symbol to be written is printed exactly once, and menu
        headings and ends nest. */
    method ConfWrite(root: nat, ghost kids: Forest) returns (out: seq<Item>, ghost visited: seq<nat>)
      requires Valid() && root < |ns| && ns[root].next.None? && ns[root].parent.None?
      requires Rep(ns, ns[root].list, Some(root), kids, None) && Inside(p, kids) && NoDup([root] + Pre(kids))
      requires w == Progress(seq(|p.isChoice|, _ => false), false, [])
      modifies this
      ensures Valid() && visited == Pre(kids) && out == Emit(p, old(w), kids).out && w.written == old(w).written
      ensures NoDup(Printed(out)) && forall s: nat :: s in Printed(out) <==> exists i <- Pre(kids) :: Writable(p, i, s)
      ensures Brackets(p, out, []) == Some([]) && Spaced(out)
      ensures Nodes(p, Pre(kids)) && Entries(out) == Expected(p, Pre(kids), old(w).written)
      ensures forall i <- Pre(kids) :: Heading(i) in Entries(out) <==> p.sym[i].None? && p.visible[i]
    {
      EmitFromStart(p, w, kids);
      visited := Write(root, kids);
      out := w.out;
    }

    /** The whole walk below `root`. It ends, visits every node once, in order, and writes what the
        recursive reading says; the flags are clear again afterwards. */
    method Write(root: nat, ghost kids: Forest) returns (ghost visited: seq<nat>)
      requires Valid() && root < |ns| && ns[root].next.None? && ns[root].parent.None?
      requires Rep(ns, ns[root].list, Some(root), kids, None) && Inside(p, kids) && NoDup([root] + Pre(kids))
      requires w == Progress(seq(|p.isChoice|, _ => false), false, [])
      modifies this
      ensures Valid() && visited == Pre(kids)
      ensures w.out == Emit(p, old(w), kids).out && w.written == old(w).written
    {
      NoDupParts([root], Pre(kids));
      assert root in [root];
      visited := WriteBelow(root, kids);
      w := w.(written := seq(|p.isChoice|, _ => false));
    }

    /** The loop of the walk. */
    method WriteBelow(root: nat, ghost kids: Forest) returns (ghost visited: seq<nat>)
      requires Valid() && root < |ns| && ns[root].next.None? && ns[root].parent.None?
      requires Rep(ns, ns[root].list, Some(root), kids, None) && Inside(p, kids) && root !in Pre(kids)
      modifies this
      ensures Valid() && visited == Pre(kids) && w == Emit(p, old(w), kids)
    {
      ghost var goal := Emit(p, w, kids);
      ghost var todo: Forest, frames: seq<Frame> := kids, [];
      visited := [];
      var menu := ns[root].list;
      while menu.Some?
        invariant Valid() && Walk(p, ns, root, menu, todo, frames) && Visited(kids, visited, todo, frames)
        invariant Rest(p, Emit(p, w, todo), frames) == goal
        invariant menu.None? ==> todo == [] && frames == []
        decreases |Pre(todo) + PreRest(frames)|
      {
        ghost var c, before, v0 := menu.value, Pre(todo) + PreRest(frames), visited;
        menu, todo, frames := Step(menu.value, root, todo, frames, goal);
        Advance(v0, c, before, Pre(todo) + PreRest(frames));
        visited := v0 + [c];
      }
    }

    /** One node: it is entered, and the walk goes on to the next one. */
    method Step(c: nat, root: nat, ghost todo0: Forest, ghost frames0: seq<Frame>, ghost goal: Progress)
      returns (menu: Option<nat>, ghost todo: Forest, ghost frames: seq<Frame>)
      requires Valid() && root < |ns| && ns[root].next.None? && ns[root].parent.None?
      requires Walk(p, ns, root, Some(c), todo0, frames0) && Rest(p, Emit(p, w, todo0), frames0) == goal
      modifies this
      ensures Valid() && Walk(p, ns, root, menu, todo, frames) && Rest(p, Emit(p, w, todo), frames) == goal
      ensures Pre(todo0) + PreRest(frames0) == [c] + (Pre(todo) + PreRest(frames))
      ensures menu.None? ==> todo == [] && frames == []
    {
      WalkHead(p, ns, root, Some(c), todo0, frames0);
      ghost var t, tl := todo0[0], todo0[1..];
      StepOrder(c, Pre(t.kids), Pre(tl), PreRest(frames0));
      EnterNode(c);
      if ns[c].list.Some? {
        menu := ns[c].list;
        WalkDown(p, ns, root, c, t, tl, frames0, w);
        frames, todo := frames0 + [Frame(c, tl)], t.kids;
      } else {
        assert Pre(t.kids) + (Pre(tl) + PreRest(frames0)) == Pre(tl) + PreRest(frames0);
        menu, todo, frames := Climb(c, root, tl, frames0, goal);
      }
    }

    /** The loop through `end_check`: up until there is a next node. */
    method Climb(c: nat, root: nat, ghost rest0: Forest, ghost frames0: seq<Frame>, ghost goal: Progress)
      returns (menu: Option<nat>, ghost todo: Forest, ghost frames: seq<Frame>)
      requires Valid() && root < |ns| && ns[root].next.None? && ns[root].parent.None?
      requires Leaving(p, ns, root, c, rest0, frames0) && c != root
      requires Rest(p, Emit(p, Leave(p, w, c), rest0), frames0) == goal
      modifies this
      ensures Valid() && Walk(p, ns, root, menu, todo, frames)
      ensures Rest(p, Emit(p, w, todo), frames) == goal
      ensures Pre(todo) + PreRest(frames) == Pre(rest0) + PreRest(frames0)
      ensures menu.None? ==> todo == [] && frames == []
    {
      todo, frames := rest0, frames0;
      var cur := c;
      while true
        invariant Valid() && Leaving(p, ns, root, cur, todo, frames)
        invariant Rest(p, Emit(p, if cur != root then Leave(p, w, cur) else w, todo), frames) == goal
        invariant Pre(todo) + PreRest(frames) == Pre(rest0) + PreRest(frames0)
        decreases |frames|, if cur != root then 1 else 0
      {
        LeaveNode(cur, root);
        if ns[cur].next.Some? {
          menu := ns[cur].next;
          return;
        }
        LeavingLast(p, ns, root, cur, todo, frames);
        menu := ns[cur].parent;
        if menu.None? {
          return;
        }
        if frames != [] {
          todo, frames := frames[|frames| - 1].rest, frames[..|frames| - 1];
        }
        cur := menu.value;
      }
    }
  }

  lemma Advance(a: seq<nat>, c: nat, before: seq<nat>, after: seq<nat>)
    requires before == [c] + after
    ensures (a + [c]) + after == a + before && |after| < |before|
  {
  }

  /** What was visited and what is left make up the whole. */
  ghost predicate Visited(kids: Forest, visited: seq<nat>, todo: Forest, frames: seq<Frame>) {
    visited + (Pre(todo) + PreRest(frames)) == Pre(kids)
  }

  lemma StepOrder(c: nat, kids: seq<nat>, tl: seq<nat>, above: seq<nat>)
    ensures ([c] + kids + tl) + above == [c] + (kids + (tl + above))
  {
  }

  /** The walk stands at `menu`, with `todo` from there on and `frames` above. */
  ghost predicate Walk(p: Page, ns: seq<Node>, root: nat, menu: Option<nat>, todo: Forest, frames: seq<Frame>) {
    && |ns| == |p.sym| && Rep(ns, menu, Some(Above(root, frames)), todo, None) && Inside(p, todo)
    && Frames(ns, root, frames) && FramesInside(p, frames)
    && root !in Pre(todo) && (forall k | 0 <= k < |frames| :: frames[k].id != root && root !in Pre(frames[k].rest))
  }

  /** The walk is about to leave `c`, which `rest` follows; `c` may be the root at last. */
  ghost predicate Leaving(p: Page, ns: seq<Node>, root: nat, c: nat, rest: Forest, frames: seq<Frame>) {
    && c < |ns| == |p.sym| && Inside(p, rest) && Frames(ns, root, frames) && FramesInside(p, frames)
    && root !in Pre(rest) && (forall k | 0 <= k < |frames| :: frames[k].id != root && root !in Pre(frames[k].rest))
    && (if c == root then rest == [] && frames == []
        else ns[c].parent == Some(Above(root, frames)) && Rep(ns, ns[c].next, Some(Above(root, frames)), rest, None))
  }

  lemma WalkHead(p: Page, ns: seq<Node>, root: nat, menu: Option<nat>, todo: Forest, frames: seq<Frame>)
    requires Walk(p, ns, root, menu, todo, frames) && menu.Some?
    ensures todo != [] && todo[0].id == menu.value && menu.value < |ns| && menu.value != root
    ensures Inside(p, todo[0].kids) && Inside(p, todo[1..])
    ensures Pre(todo) == [menu.value] + Pre(todo[0].kids) + Pre(todo[1..])
    ensures Leaving(p, ns, root, menu.value, todo[1..], frames)
    ensures ns[menu.value].list.Some? <==> todo[0].kids != []
  {
    InsideParts(p, todo);
    assert Rep(ns, ns[menu.value].list, Some(menu.value), todo[0].kids, None);
  }

  lemma WalkDown(p: Page, ns: seq<Node>, root: nat, c: nat, t: Tree, tl: Forest, frames: seq<Frame>, w: Progress)
    requires Fits(p, w) && Leaving(p, ns, root, c, tl, frames) && c != root && t.id == c
    requires Rep(ns, ns[c].list, Some(c), t.kids, None) && Inside(p, t.kids) && root !in Pre(t.kids)
    ensures Walk(p, ns, root, ns[c].list, t.kids, frames + [Frame(c, tl)])
    ensures Rest(p, Emit(p, w, t.kids), frames + [Frame(c, tl)]) == Rest(p, Emit(p, Leave(p, Emit(p, w, t.kids), c), tl), frames)
    ensures PreRest(frames + [Frame(c, tl)]) == Pre(tl) + PreRest(frames)
  {
  }

  lemma LeavingLast(p: Page, ns: seq<Node>, root: nat, c: nat, rest: Forest, frames: seq<Frame>)
    requires Leaving(p, ns, root, c, rest, frames) && root < |ns| && ns[root].parent.None? && ns[c].next.None?
    ensures rest == []
    ensures c == root ==> ns[c].parent.None?
    ensures c != root ==> ns[c].parent == Some(Above(root, frames))
    ensures c != root && frames == [] ==> Leaving(p, ns, root, root, [], [])
    ensures c != root && frames != [] ==> Above(root, frames) != root
    ensures c != root && frames != [] ==> Leaving(p, ns, root, Above(root, frames), frames[|frames| - 1].rest, frames[..|frames| - 1])
  {
  }
}
