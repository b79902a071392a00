/** The menu tree of scripts/config as linked nodes, and the trees the links stand for. */
module MenuTrees {
  import opened Tristates

  /** The three pointers of struct menu; a node is a number, None is NULL. */
  datatype Node = Node(next: Option<nat>, parent: Option<nat>, list: Option<nat>)

  datatype Tree = Tree(id: nat, kids: seq<Tree>)

  type Forest = seq<Tree>

  /** The nodes in the order they are read. */
  function Pre(f: Forest): seq<nat> {
    if f == [] then [] else [f[0].id] + Pre(f[0].kids) + Pre(f[1..])
  }

  /** The chain from `first` up to (not including) `end` is the forest, and every node names the
      node whose list holds it. */
  ghost predicate Rep(ns: seq<Node>, first: Option<nat>, parent: Option<nat>, f: Forest, end: Option<nat>)
    decreases f
  {
    if f == [] then first == end
    else
      && f[0].id < |ns| && first == Some(f[0].id)
      && ns[f[0].id].parent == parent
      && Rep(ns, ns[f[0].id].list, Some(f[0].id), f[0].kids, None)
      && Rep(ns, ns[f[0].id].next, parent, f[1..], end)
  }

  ghost predicate NoDup(s: seq<nat>) { forall i, j | 0 <= i < j < |s| :: s[i] != s[j] }

  /** Outside `ids` nothing changed. */
  ghost predicate SameOutside(ns: seq<Node>, ms: seq<Node>, ids: seq<nat>) {
    |ns| == |ms| && forall i | 0 <= i < |ns| && i !in ids :: ms[i] == ns[i]
  }

  lemma SameOutsideTrans(a: seq<Node>, b: seq<Node>, c: seq<Node>, ids: seq<nat>, more: seq<nat>)
    requires SameOutside(a, b, ids) && SameOutside(b, c, more) && forall i <- more :: i in ids
    ensures SameOutside(a, c, ids)
  {
  }

  lemma SameOutsideMore(a: seq<Node>, b: seq<Node>, ids: seq<nat>, more: seq<nat>)
    requires SameOutside(a, b, ids) && forall i <- ids :: i in more
    ensures SameOutside(a, b, more)
  {
  }

  lemma PreCons(t: Tree, f: Forest)
    ensures Pre([t] + f) == [t.id] + Pre(t.kids) + Pre(f)
  {
  }

  lemma {:induction false} PreAppend(f: Forest, g: Forest)
    ensures Pre(f + g) == Pre(f) + Pre(g)
    decreases |f|
  {
    if f == [] {
      assert f + g == g;
    } else {
      assert (f + g)[1..] == f[1..] + g;
      PreAppend(f[1..], g);
    }
  }

  lemma PreSnoc(f: Forest, t: Tree)
    ensures Pre(f + [t]) == Pre(f) + [t.id] + Pre(t.kids)
  {
    PreAppend(f, [t]);
    PreCons(t, []);
    assert [t] + [] == [t];
  }

  lemma PreHead(f: Forest)
    requires f != []
    ensures Pre(f) == [f[0].id] + Pre(f[0].kids) + Pre(f[1..])
  {
  }

  lemma {:induction false} RepInRange(ns: seq<Node>, first: Option<nat>, parent: Option<nat>, f: Forest, end: Option<nat>)
    requires Rep(ns, first, parent, f, end)
    ensures forall i <- Pre(f) :: i < |ns|
    decreases f
  {
    if f != [] {
      RepInRange(ns, ns[f[0].id].list, Some(f[0].id), f[0].kids, None);
      RepInRange(ns, ns[f[0].id].next, parent, f[1..], end);
    }
  }

  /** Links elsewhere do not matter. */
  lemma {:induction false} RepFrame(ns: seq<Node>, ms: seq<Node>, first: Option<nat>, parent: Option<nat>, f: Forest, end: Option<nat>)
    requires Rep(ns, first, parent, f, end) && |ns| == |ms|
    requires forall i <- Pre(f) :: i < |ns| ==> ms[i] == ns[i]
    ensures Rep(ms, first, parent, f, end)
    decreases f
  {
    if f != [] {
      RepFrame(ns, ms, ns[f[0].id].list, Some(f[0].id), f[0].kids, None);
      RepFrame(ns, ms, ns[f[0].id].next, parent, f[1..], end);
    }
  }

  lemma {:induction false} RepAppend(ns: seq<Node>, first: Option<nat>, parent: Option<nat>, f: Forest, mid: Option<nat>, g: Forest, end: Option<nat>)
    requires Rep(ns, first, parent, f, mid) && Rep(ns, mid, parent, g, end)
    ensures Rep(ns, first, parent, f + g, end)
    decreases |f|
  {
    if f == [] {
      assert f + g == g;
    } else {
      assert (f + g)[1..] == f[1..] + g;
      RepAppend(ns, ns[f[0].id].next, parent, f[1..], mid, g, end);
    }
  }

  lemma {:induction false} RepSplit(ns: seq<Node>, first: Option<nat>, parent: Option<nat>, f: Forest, g: Forest, end: Option<nat>) returns (mid: Option<nat>)
    requires Rep(ns, first, parent, f + g, end)
    ensures Rep(ns, first, parent, f, mid) && Rep(ns, mid, parent, g, end)
    decreases |f|
  {
    if f == [] {
      assert f + g == g;
      mid := first;
    } else {
      assert (f + g)[1..] == f[1..] + g;
      mid := RepSplit(ns, ns[f[0].id].next, parent, f[1..], g, end);
    }
  }

  lemma NoDupParts(a: seq<nat>, b: seq<nat>)
    requires NoDup(a + b)
    ensures NoDup(a) && NoDup(b) && forall x <- a :: x !in b
  {
    var s := a + b;
    assert forall i | 0 <= i < |a| :: s[i] == a[i];
    assert forall i | 0 <= i < |b| :: s[|a| + i] == b[i];
  }

  /** Redirecting the end of a chain: its last node gets the new successor. */
  lemma {:induction false} RepRelink(ns: seq<Node>, first: Option<nat>, parent: Option<nat>, f: Forest, last: Tree, end: Option<nat>, end': Option<nat>)
    requires Rep(ns, first, parent, f + [last], end) && NoDup(Pre(f + [last]))
    ensures last.id < |ns| && ns[last.id].next == end
    ensures Rep(ns[last.id := ns[last.id].(next := end')], first, parent, f + [last], end')
    decreases |f|
  {
    var g := f + [last];
    assert Pre(g) == ([g[0].id] + Pre(g[0].kids)) + Pre(g[1..]);
    NoDupParts([g[0].id] + Pre(g[0].kids), Pre(g[1..]));
    if f == [] {
      assert g[1..] == [] && g[0] == last;
      var ms := ns[last.id := ns[last.id].(next := end')];
      NoDupParts([last.id], Pre(last.kids));
      assert last.id in [last.id];
      RepFrame(ns, ms, ns[last.id].list, Some(last.id), last.kids, None);
    } else {
      assert g[1..] == f[1..] + [last];
      RepRelink(ns, ns[g[0].id].next, parent, f[1..], last, end, end');
      var ms := ns[last.id := ns[last.id].(next := end')];
      LastIn(f[1..], last);
      assert g[0].id in [g[0].id] + Pre(g[0].kids);
      RepFrame(ns, ms, ns[g[0].id].list, Some(g[0].id), g[0].kids, None);
    }
  }

  lemma LastIn(f: Forest, last: Tree)
    ensures last.id in Pre(f + [last])
  {
    PreAppend(f, [last]);
    PreCons(last, []);
  }

  /** No node without prompt text keeps children. */
  ghost predicate Flat(text: seq<bool>, f: Forest) {
    forall t <- f :: (t.kids != [] ==> t.id < |text| && text[t.id]) && Flat(text, t.kids)
  }

  ghost predicate FlatBelow(text: seq<bool>, f: Forest) { forall t <- f :: Flat(text, t.kids) }

  function Roots(f: Forest): seq<nat> { seq(|f|, k requires 0 <= k < |f| => f[k].id) }

  lemma KidsIn(f: Forest, t: Tree)
    requires t in f
    ensures t.id in Pre(f) && forall i <- Pre(t.kids) :: i in Pre(f)
  {
    if f[0] != t { KidsIn(f[1..], t); }
  }

  lemma RootsIn(f: Forest)
    ensures forall i <- Roots(f) :: i in Pre(f)
  {
    forall i <- Roots(f) ensures i in Pre(f) {
      var k :| 0 <= k < |f| && f[k].id == i;
      KidsIn(f, f[k]);
    }
  }

  // ----- walking a chain while it is being rearranged -----

  /** In the middle of a walk over `all`, the chain from `first`: `done` lies behind `menu` and belongs
      to `m`; `todo` lies from `menu` on and still belongs to `q`. Node `m` is as it was. */
  ghost predicate Walking(ns0: seq<Node>, ns: seq<Node>, m: nat, first: Option<nat>, q: Option<nat>,
                          all: Forest, done: Forest, todo: Forest, menu: Option<nat>) {
    && m < |ns| == |ns0| && ns[m] == ns0[m] && NoDup([m] + Pre(all))
    && Rep(ns, first, Some(m), done, menu) && Rep(ns, menu, q, todo, None)
    && Pre(done) + Pre(todo) == Pre(all) && SameOutside(ns0, ns, Pre(all))
  }

  lemma WalkingParts(ns0: seq<Node>, ns: seq<Node>, m: nat, first: Option<nat>, q: Option<nat>,
                     all: Forest, done: Forest, todo: Forest, menu: Option<nat>)
    requires Walking(ns0, ns, m, first, q, all, done, todo, menu) && menu.Some?
    ensures todo != [] && menu == Some(todo[0].id)
    ensures Pre(todo) == [todo[0].id] + Pre(todo[0].kids) + Pre(todo[1..])
    ensures NoDup(Pre(todo)) && m !in Pre(todo) && forall i <- Pre(done) :: i !in Pre(todo)
    ensures forall i <- Pre(todo) :: i in Pre(all)
  {
    NoDupParts([m], Pre(all));
    assert m in [m];
    NoDupParts(Pre(done), Pre(todo));
  }

  /** One step: the node at `menu` became the tree `t`, with `tl` after it. */
  lemma WalkStep(ns0: seq<Node>, ns1: seq<Node>, ns: seq<Node>, m: nat, first: Option<nat>, q: Option<nat>,
                 all: Forest, done: Forest, todo: Forest, menu: Option<nat>, t: Tree, tl: Forest)
    requires Walking(ns0, ns1, m, first, q, all, done, todo, menu) && menu == Some(t.id) && t.id < |ns| == |ns1| && todo != []
    requires SameOutside(ns1, ns, Pre(todo)) && ns[t.id].parent == Some(m)
    requires Rep(ns, ns[t.id].list, Some(t.id), t.kids, None) && Rep(ns, ns[t.id].next, q, tl, None)
    requires Pre(t.kids) + Pre(tl) == Pre(todo[0].kids) + Pre(todo[1..])
    ensures Walking(ns0, ns, m, first, q, all, done + [t], tl, ns[t.id].next)
    ensures |Pre(tl)| < |Pre(todo)|
  {
    WalkingParts(ns0, ns1, m, first, q, all, done, todo, menu);
    OneMore(done, t, tl, todo, all);
    WalkLinks(ns0, ns1, ns, m, first, q, all, done, todo, menu, t);
  }

  lemma WalkLinks(ns0: seq<Node>, ns1: seq<Node>, ns: seq<Node>, m: nat, first: Option<nat>, q: Option<nat>,
                  all: Forest, done: Forest, todo: Forest, menu: Option<nat>, t: Tree)
    requires Walking(ns0, ns1, m, first, q, all, done, todo, menu) && menu == Some(t.id) && t.id < |ns| == |ns1| && todo != []
    requires SameOutside(ns1, ns, Pre(todo)) && ns[t.id].parent == Some(m)
    requires Rep(ns, ns[t.id].list, Some(t.id), t.kids, None)
    ensures SameOutside(ns0, ns, Pre(all)) && m < |ns| == |ns0| && ns[m] == ns0[m]
    ensures Rep(ns, first, Some(m), done + [t], ns[t.id].next)
  {
    WalkingParts(ns0, ns1, m, first, q, all, done, todo, menu);
    SameOutsideTrans(ns0, ns1, ns, Pre(all), Pre(todo));
    RepFrame(ns1, ns, first, Some(m), done, menu);
    assert [t][1..] == [];
    assert Rep(ns, menu, Some(m), [t], ns[t.id].next);
    RepAppend(ns, first, Some(m), done, menu, [t], ns[t.id].next);
  }

  lemma OneMore(done: Forest, t: Tree, tl: Forest, todo: Forest, all: Forest)
    requires todo != [] && todo[0].id == t.id && Pre(done) + Pre(todo) == Pre(all)
    requires Pre(t.kids) + Pre(tl) == Pre(todo[0].kids) + Pre(todo[1..])
    ensures Pre(done + [t]) + Pre(tl) == Pre(all) && |Pre(tl)| < |Pre(todo)|
  {
    PreSnoc(done, t);
    PreHead(todo);
    Regroup(Pre(done), t.id, Pre(t.kids), Pre(tl), Pre(todo[0].kids), Pre(todo[1..]));
  }

  lemma Regroup(d: seq<nat>, t: nat, a: seq<nat>, b: seq<nat>, x: seq<nat>, y: seq<nat>)
    requires a + b == x + y
    ensures (d + [t] + a) + b == d + ([t] + x + y) && |b| < |[t] + x + y|
  {
    assert |a + b| == |a| + |b| && |x + y| == |x| + |y|;
    assert (d + [t] + a) + b == d + [t] + (a + b);
    assert d + ([t] + x + y) == d + [t] + (x + y);
  }

  // ----- splicing the children of a node into the list after it -----

  /** The first `k` nodes of the chain from `first` belong to `m` already, the rest still to `c`. */
  ghost predicate Moving(ns0: seq<Node>, ns: seq<Node>, first: Option<nat>, m: nat, c: nat, ks: Forest, k: nat, last: nat) {
    && 0 < k <= |ks| && last == ks[k - 1].id < |ns| && NoDup(Pre(ks)) && SameOutside(ns0, ns, Pre(ks))
    && Rep(ns, first, Some(m), ks[..k], ns[last].next) && Rep(ns, ns[last].next, Some(c), ks[k..], None)
  }

  /** Giving the node after `done` its new parent. */
  lemma Reparent(ns: seq<Node>, first: Option<nat>, m: nat, c: nat, done: Forest, t: Tree, tl: Forest)
    requires Rep(ns, first, Some(m), done, Some(t.id)) && Rep(ns, Some(t.id), Some(c), [t] + tl, None)
    requires NoDup(Pre(done + ([t] + tl)))
    ensures t.id < |ns| && t.id in Pre(done + ([t] + tl))
    ensures var ms := ns[t.id := ns[t.id].(parent := Some(m))];
      Rep(ms, first, Some(m), done + [t], ms[t.id].next) && Rep(ms, ms[t.id].next, Some(c), tl, None)
  {
    assert ([t] + tl)[0] == t && ([t] + tl)[1..] == tl && [t][1..] == [];
    var ms := ns[t.id := ns[t.id].(parent := Some(m))];
    PreAppend(done, [t] + tl);
    PreCons(t, tl);
    NoDupParts(Pre(done), [t.id] + Pre(t.kids) + Pre(tl));
    NoDupHead(t.id, Pre(t.kids), Pre(tl));
    RepFrame(ns, ms, first, Some(m), done, Some(t.id));
    RepFrame(ns, ms, ns[t.id].list, Some(t.id), t.kids, None);
    RepFrame(ns, ms, ns[t.id].next, Some(c), tl, None);
    assert Rep(ms, Some(t.id), Some(m), [t], ms[t.id].next);
    RepAppend(ms, first, Some(m), done, Some(t.id), [t], ms[t.id].next);
  }

  lemma NoDupHead(x: nat, a: seq<nat>, b: seq<nat>)
    requires NoDup([x] + a + b)
    ensures x !in a && x !in b && NoDup(a) && NoDup(b) && forall i <- a :: i !in b
  {
    assert [x] + a + b == [x] + (a + b);
    NoDupParts([x], a + b);
    assert x in [x];
    NoDupParts(a, b);
    assert forall i <- a :: i in a + b;
    assert forall i <- b :: i in a + b;
  }

  lemma MoveFirst(ns: seq<Node>, m: nat, c: nat, ks: Forest, first: nat)
    requires ks != [] && Rep(ns, Some(first), Some(c), ks, None) && NoDup(Pre(ks))
    ensures first < |ns| && Moving(ns, ns[first := ns[first].(parent := Some(m))], Some(first), m, c, ks, 1, first)
  {
    assert ks == [] + ([ks[0]] + ks[1..]);
    Reparent(ns, Some(first), m, c, [], ks[0], ks[1..]);
    assert ks[..1] == [] + [ks[0]];
  }

  lemma MoveNext(ns0: seq<Node>, ns: seq<Node>, first: Option<nat>, m: nat, c: nat, ks: Forest, k: nat, last: nat)
    requires Moving(ns0, ns, first, m, c, ks, k, last) && ns[last].next.Some?
    ensures k < |ks| && ks[k].id < |ns| && ns[last].next == Some(ks[k].id)
    ensures Moving(ns0, ns[ks[k].id := ns[ks[k].id].(parent := Some(m))], first, m, c, ks, k + 1, ks[k].id)
  {
    assert ks[k..] == [ks[k]] + ks[k + 1..];
    assert ks == ks[..k] + ([ks[k]] + ks[k + 1..]);
    Reparent(ns, first, m, c, ks[..k], ks[k], ks[k + 1..]);
    assert ks[..k + 1] == ks[..k] + [ks[k]];
  }

  /** The links after `last.next = menu->next; menu->next = menu->list; menu->list = NULL`. */
  function Spliced(ns: seq<Node>, c: nat, last: nat): seq<Node>
    requires c < |ns| && last < |ns|
  {
    var ms := ns[last := ns[last].(next := ns[c].next)];
    ms[c := ms[c].(next := ms[c].list, list := None)]
  }

  lemma SpliceLinks(ns0: seq<Node>, ns: seq<Node>, m: nat, c: nat, ks: Forest, tl: Forest, last: nat)
    requires c < |ns| == |ns0| && ns[c] == ns0[c] && ns[c].list.Some? && Moving(ns0, ns, ns[c].list, m, c, ks, |ks|, last) && ns[last].next.None?
    requires NoDup([c] + Pre(ks) + Pre(tl)) && Rep(ns0, ns0[c].next, Some(m), tl, None)
    ensures var ms := Spliced(ns, c, last);
      && Rep(ms, ms[c].next, Some(m), ks + tl, None) && ms[c].list == None && ms[c].parent == ns0[c].parent
      && SameOutside(ns0, ms, [c] + Pre(ks))
  {
    assert ks[..|ks|] == ks == ks[..|ks| - 1] + [ks[|ks| - 1]];
    NoDupHead(c, Pre(ks), Pre(tl));
    var t, next := ks[|ks| - 1], ns[c].next;
    LastIn(ks[..|ks| - 1], t);
    RepRelink(ns, ns[c].list, Some(m), ks[..|ks| - 1], t, None, next);
    var ls := ns[last := ns[last].(next := next)];
    var ms := Spliced(ns, c, last);
    assert c != last && ms == ls[c := ls[c].(next := ls[c].list, list := None)];
    SplicedOthers(ns0, ns, c, ks, tl, last);
    RepFrame(ls, ms, ns[c].list, Some(m), ks, next);
    RepFrame(ns0, ms, next, Some(m), tl, None);
    RepAppend(ms, ms[c].next, Some(m), ks, next, tl, None);
  }

  /** Splicing touches nothing but `c` and the nodes in its list. */
  lemma SplicedOthers(ns0: seq<Node>, ns: seq<Node>, c: nat, ks: Forest, tl: Forest, last: nat)
    requires c < |ns| && last < |ns| && SameOutside(ns0, ns, Pre(ks)) && last in Pre(ks) && c !in Pre(ks) && c !in Pre(tl)
    requires forall i <- Pre(ks) :: i !in Pre(tl)
    ensures SameOutside(ns0, Spliced(ns, c, last), [c] + Pre(ks)) && Spliced(ns, c, last)[c].parent == ns0[c].parent
    ensures forall i <- Pre(tl) :: i < |ns| ==> Spliced(ns, c, last)[i] == ns0[i]
    ensures forall i <- Pre(ks) :: i < |ns| ==> Spliced(ns, c, last)[i] == ns[last := ns[last].(next := ns[c].next)][i]
  {
  }
}
