/** Path compression of the page map (`phys_page_compact`) and why the walk still finds the right
section.

Compaction makes an entry skip nodes that have a single used slot, and thereby makes the walk ignore
the address bits that would select that slot.  The nodes are rewritten in place, but each entry can
be understood from the nodes as they were before: it is a shortening of the entry it replaces.
*/
module Compaction {
  import opened Radix
  import opened PhysMap

  /** Slot j is the only used slot of the node. */
  ghost predicate Only(node: Node, j: nat) {
    && j < |node| && node[j].ptr != NIL
    && forall i :: 0 <= i < |node| && i != j ==> node[i].ptr == NIL
  }

  /** One level less to skip. */
  function Drop(c: Entry): Entry {
    if c.skip == 0 then c else Entry(c.skip - 1, c.ptr)
  }

  /** Entry c, for a level l, is e or leads past the nodes below e that have one used slot only. */
  ghost predicate Shortens(g: Geometry, nodes: seq<Node>, c: Entry, e: Entry, l: nat)
    decreases l
  {
    || c == e
    || (&& l >= 1 && e.skip == 1 && e.ptr != NIL && e.ptr < |nodes| && |nodes[e.ptr]| == g.size && c.skip != 1
        && exists j :: 0 <= j < g.size && Only(nodes[e.ptr], j) && Shortens(g, nodes, Drop(c), nodes[e.ptr][j], l - 1))
  }

  /** Every entry of cur shortens the one in the same place of nodes. */
  ghost predicate AllShorten(g: Geometry, nodes: seq<Node>, labels: seq<Label>, cur: seq<Node>) {
    && |labels| == |nodes| == |cur|
    && (forall n :: 0 <= n < |nodes| ==> |nodes[n]| == |cur[n]| == g.size)
    && forall n, i :: 0 <= n < |nodes| && 0 <= i < g.size ==> Shortens(g, nodes, cur[n][i], nodes[n][i], labels[n].level)
  }

  /** What a shortened entry keeps: whether it leads anywhere, and the level it leads to. */
  lemma {:induction false} ShortensKeeps(g: Geometry, nodes: seq<Node>, labels: seq<Label>, c: Entry, e: Entry, l: nat, q: nat)
    requires Tree(g, nodes, labels) && EntryOk(nodes, labels, e, l, q) && Shortens(g, nodes, c, e, l)
    ensures c.ptr == NIL <==> e.ptr == NIL
    ensures c.skip == 0 ==> c.ptr < NIL
    ensures c.skip != 0 && c.ptr != NIL ==> c.skip <= l && c.ptr < |nodes| && labels[c.ptr].level == l - c.skip
    ensures c.skip != 0 && c.ptr == NIL ==> c == e
    decreases l
  {
    if c != e {
      var n := e.ptr;
      var j :| 0 <= j < g.size && Only(nodes[n], j) && Shortens(g, nodes, Drop(c), nodes[n][j], l - 1);
      assert EntryOk(nodes, labels, nodes[n][j], labels[n].level, Child(g, labels[n], j));
      ShortensKeeps(g, nodes, labels, Drop(c), nodes[n][j], l - 1, Child(g, labels[n], j));
    }
  }

  /** Skipping one more single-slot node from a shortened entry gives a shortened entry. */
  lemma {:induction false} ShortensMore(
    g: Geometry, nodes: seq<Node>, labels: seq<Label>, c: Entry, e: Entry, l: nat, q: nat, j: nat, d: Entry)
    requires Tree(g, nodes, labels) && EntryOk(nodes, labels, e, l, q) && Shortens(g, nodes, c, e, l)
    requires c.skip != 0 && c.ptr != NIL && c.ptr < |nodes| && c.skip <= l
    requires j < g.size && Only(nodes[c.ptr], j) && Shortens(g, nodes, d, nodes[c.ptr][j], l - c.skip)
    ensures Shortens(g, nodes, if d.skip == 0 then d else Entry(c.skip + d.skip, d.ptr), e, l)
    decreases l
  {
    var c' := if d.skip == 0 then d else Entry(c.skip + d.skip, d.ptr);
    if c == e {
      assert Drop(c') == d;
    } else {
      var n := e.ptr;
      var k :| 0 <= k < g.size && Only(nodes[n], k) && Shortens(g, nodes, Drop(c), nodes[n][k], l - 1);
      assert EntryOk(nodes, labels, nodes[n][k], labels[n].level, Child(g, labels[n], k));
      ShortensMore(g, nodes, labels, Drop(c), nodes[n][k], l - 1, Child(g, labels[n], k), j, d);
    }
  }

  /** The walk of a shortened entry is that of the entry one level down with one level less to skip. */
  lemma DropWalk(g: Geometry, cur: seq<Node>, c: Entry, l: nat, p: nat)
    requires g.Valid() && l >= 1 && c.skip != 1
    requires c.skip <= l
    ensures Walk(g, cur, c, l, p) == Walk(g, cur, Drop(c), l - 1, p)
  {
    hide Digit;
  }

  /** Whatever the walk finds in the compacted nodes is found by some page in the original nodes. */
  lemma {:induction false} FindsSomething(
    g: Geometry, nodes: seq<Node>, labels: seq<Label>, cur: seq<Node>, c: Entry, e: Entry, l: nat, q: nat, p: nat)
    returns (p': nat)
    requires Tree(g, nodes, labels) && AllShorten(g, nodes, labels, cur)
    requires EntryOk(nodes, labels, e, l, q) && Shortens(g, nodes, c, e, l)
    ensures Prefix(g, p', l) == q && Walk(g, nodes, e, l, p') == Walk(g, cur, c, l, p)
    decreases l
  {
    hide Prefix, Digit, Base, Step, AllShorten;
    BaseAligned(g, q, l);
    p' := Base(g, q, l);
    if e.skip == 0 || e.ptr == NIL {
      ShortensKeeps(g, nodes, labels, c, e, l, q);
    } else if c == e {
      var n := e.ptr;
      var d := Digit(g, p, l - 1);
      assert EntryOk(nodes, labels, nodes[n][d], labels[n].level, Child(g, labels[n], d));
      SlotShortens(g, nodes, labels, cur, n, d);
      p' := FindsSomething(g, nodes, labels, cur, cur[n][d], nodes[n][d], l - 1, Child(g, labels[n], d), p);
      DigitOfChild(g, p', l - 1, q, d);
    } else {
      var n := e.ptr;
      var j :| 0 <= j < g.size && Only(nodes[n], j) && Shortens(g, nodes, Drop(c), nodes[n][j], l - 1);
      assert EntryOk(nodes, labels, nodes[n][j], labels[n].level, Child(g, labels[n], j));
      p' := FindsSomething(g, nodes, labels, cur, Drop(c), nodes[n][j], l - 1, Child(g, labels[n], j), p);
      DigitOfChild(g, p', l - 1, q, j);
      ShortensKeeps(g, nodes, labels, c, e, l, q);
      DropWalk(g, cur, c, l, p);
    }
  }

  lemma SlotShortens(g: Geometry, nodes: seq<Node>, labels: seq<Label>, cur: seq<Node>, n: nat, i: nat)
    requires AllShorten(g, nodes, labels, cur) && n < |nodes| && i < g.size
    ensures |cur| == |nodes| && |cur[n]| == g.size == |nodes[n]|
    ensures Shortens(g, nodes, cur[n][i], nodes[n][i], labels[n].level)
  {
  }

  lemma DigitOfChild(g: Geometry, p: nat, l: nat, q: nat, d: nat)
    requires g.Valid() && d < g.size && Prefix(g, p, l) == q * g.size + d
    ensures Prefix(g, p, l + 1) == q && Digit(g, p, l) == d
  {
    hide Prefix, Base, Step;
    PrefixUp(g, p, l);
    DivideOnce(Prefix(g, p, l + 1), q, Digit(g, p, l), d, g.size);
  }

  lemma DivideOnce(a: nat, b: nat, x: nat, y: nat, s: nat)
    requires a * s + x == b * s + y && x < s && y < s
    ensures a == b && x == y
  {
    if a < b {
      MulMonotone(a + 1, b, s);
    } else if a > b {
      MulMonotone(b + 1, a, s);
    }
  }

  /** A page that is assigned in the original nodes is found as before in the compacted nodes. */
  lemma {:induction false} FindsTheSame(
    g: Geometry, nodes: seq<Node>, labels: seq<Label>, cur: seq<Node>, c: Entry, e: Entry, l: nat, q: nat, p: nat)
    requires Tree(g, nodes, labels) && AllShorten(g, nodes, labels, cur)
    requires EntryOk(nodes, labels, e, l, q) && Shortens(g, nodes, c, e, l)
    requires Prefix(g, p, l) == q
    ensures Walk(g, nodes, e, l, p) == UNASSIGNED || Walk(g, cur, c, l, p) == Walk(g, nodes, e, l, p)
    decreases l
  {
    hide Prefix, Digit, Base, Step, AllShorten;
    if e.skip == 0 || e.ptr == NIL {
      ShortensKeeps(g, nodes, labels, c, e, l, q);
    } else {
      var n := e.ptr;
      var d := Digit(g, p, l - 1);
      PrefixUp(g, p, l - 1);
      assert EntryOk(nodes, labels, nodes[n][d], labels[n].level, Child(g, labels[n], d));
      if c == e {
        SlotShortens(g, nodes, labels, cur, n, d);
        FindsTheSame(g, nodes, labels, cur, cur[n][d], nodes[n][d], l - 1, Child(g, labels[n], d), p);
      } else {
        var j :| 0 <= j < g.size && Only(nodes[n], j) && Shortens(g, nodes, Drop(c), nodes[n][j], l - 1);
        ShortensKeeps(g, nodes, labels, c, e, l, q);
        DropWalk(g, cur, c, l, p);
        if d == j {
          FindsTheSame(g, nodes, labels, cur, Drop(c), nodes[n][j], l - 1, Child(g, labels[n], j), p);
        }
      }
    }
  }

  // ---------------------------------------------------------------- phys_page_compact

  /** The entry cannot be shortened any further. */
  ghost predicate Maximal(nodes: seq<Node>, e: Entry) {
    e.skip == 0 || e.ptr == NIL || e.ptr >= |nodes| || !exists j :: Only(nodes[e.ptr], j)
  }

  /** Neither the entry nor any entry that a walk can reach from it can be shortened any further. */
  ghost predicate MaximalBelow(g: Geometry, nodes: seq<Node>, cur: seq<Node>, e: Entry, l: nat)
    decreases l
  {
    && Maximal(nodes, e)
    && (1 <= e.skip <= l && e.ptr != NIL && e.ptr < |cur| ==>
          forall i :: 0 <= i < |cur[e.ptr]| ==> MaximalBelow(g, nodes, cur, cur[e.ptr][i], l - e.skip))
  }

  /** Entries that cannot be shortened are left alone. */
  ghost predicate MaximalKept(nodes: seq<Node>, cur: seq<Node>, cur': seq<Node>) {
    && |cur| == |cur'|
    && (forall n :: 0 <= n < |cur| ==> |cur[n]| == |cur'[n]|)
    && forall n, i :: 0 <= n < |cur| && 0 <= i < |cur[n]| && Maximal(nodes, cur[n][i]) ==> cur'[n][i] == cur[n][i]
  }

  lemma {:induction false} MaximalStable(g: Geometry, nodes: seq<Node>, cur: seq<Node>, cur': seq<Node>, e: Entry, l: nat)
    requires MaximalBelow(g, nodes, cur, e, l) && MaximalKept(nodes, cur, cur')
    ensures MaximalBelow(g, nodes, cur', e, l)
    decreases l
  {
    hide Only;
    if 1 <= e.skip <= l && e.ptr != NIL && e.ptr < |cur| {
      forall i | 0 <= i < |cur'[e.ptr]| ensures MaximalBelow(g, nodes, cur', cur'[e.ptr][i], l - e.skip) {
        assert MaximalBelow(g, nodes, cur, cur[e.ptr][i], l - e.skip);
        MaximalStable(g, nodes, cur, cur', cur[e.ptr][i], l - e.skip);
      }
    }
  }

  /** The six bits of the skip field suffice. */
  ghost predicate SkipsFit(cur: seq<Node>) {
    forall n, i :: 0 <= n < |cur| && 0 <= i < |cur[n]| ==> cur[n][i].skip < 64
  }

  /** Entries at level l and above, other than lp, are untouched. */
  ghost predicate AboveKept(labels: seq<Label>, cur: seq<Node>, cur': seq<Node>, l: nat, lp: Ref) {
    && |labels| == |cur| == |cur'|
    && (forall n :: 0 <= n < |cur| ==> |cur[n]| == |cur'[n]|)
    && forall n, i :: 0 <= n < |cur| && 0 <= i < |cur[n]| && labels[n].level >= l && lp != Slot(n, i) ==> cur'[n][i] == cur[n][i]
  }

  /** The nodes, their labels and the root entry before compaction started. */
  datatype Original = Original(nodes: seq<Node>, labels: seq<Label>, root: Entry) {
    ghost predicate Valid(g: Geometry) {
      Tree(g, nodes, labels) && EntryOk(nodes, labels, root, g.levels, 0)
    }

    /** lp is the place of the entry for prefix q at level l. */
    ghost predicate At(g: Geometry, lp: Ref, l: nat, q: nat) {
      match lp
      case Root => l == g.levels && q == 0
      case Slot(n, i) => n < |nodes| && n < |labels| && i < g.size && labels[n].level == l && Child(g, labels[n], i) == q
    }

    ghost function Get(g: Geometry, lp: Ref): Entry
      requires Valid(g)
      requires lp.Slot? ==> lp.node < |nodes| && lp.idx < g.size
    {
      match lp
      case Root => root
      case Slot(n, i) => nodes[n][i]
    }
  }

  /** The table is a shortening of the original. */
  ghost predicate Shortened(t: PhysPageMap, o: Original)
    reads t
  {
    && o.Valid(t.g)
    && AllShorten(t.g, o.nodes, o.labels, t.nodes)
    && Shortens(t.g, o.nodes, t.root, o.root, t.g.levels)
    && SkipsFit(t.nodes) && t.root.skip < 64
  }

  /** phys_page_compact */
  method PageCompact(t: PhysPageMap, lp: Ref, ghost o: Original, ghost l: nat, ghost q: nat)
    requires Shortened(t, o) && o.At(t.g, lp, l, q) && l <= t.g.levels
    requires t.Get(lp).skip != 0
    modifies t`nodes, t`root
    ensures Shortened(t, o)
    ensures AboveKept(o.labels, old(t.nodes), t.nodes, l, lp)
    ensures lp != Root ==> t.root == old(t.root)
    ensures MaximalKept(o.nodes, old(t.nodes), t.nodes)
    ensures Maximal(o.nodes, old(t.Get(lp))) ==> t.Get(lp) == old(t.Get(lp))
    ensures t.g.levels < 64 ==> MaximalBelow(t.g, o.nodes, t.nodes, t.Get(lp), l)
    decreases l, 0
  {
    hide Child, Maximal, MaximalBelow, Shortens, SkipsFit, Only;
    var e := t.Get(lp);
    ShortensKeeps(t.g, o.nodes, o.labels, e, o.Get(t.g, lp), l, q);
    if e.ptr == NIL {
      MaximalLeaf(t.g, o.nodes, t.nodes, e, l);
      return;
    }
    var n := e.ptr;
    ghost var ln := l - e.skip;
    var valid, validPtr: nat := 0, t.g.size;
    var i := 0;
    while i < t.g.size
      invariant 0 <= i <= t.g.size
      invariant Shortened(t, o)
      invariant AboveKept(o.labels, old(t.nodes), t.nodes, ln + 1, Root)
      invariant t.root == old(t.root)
      invariant MaximalKept(o.nodes, old(t.nodes), t.nodes)
      invariant Counted(o.nodes[n], i, valid, validPtr)
      invariant t.g.levels < 64 ==> FirstMaximal(t.g, o.nodes, t.nodes, n, i, ln)
    {
      ghost var before := t.nodes;
      SlotKeeps(t.g, o, t.nodes, n, i);
      if t.nodes[n][i].ptr != NIL {
        valid, validPtr := valid + 1, i;
      }
      CompactSlot(t, n, i, o);
      MaximalKeptTrans(o.nodes, old(t.nodes), before, t.nodes);
      FirstMaximalStep(t.g, o.nodes, before, t.nodes, n, i, ln);
      i := i + 1;
    }
    if valid == 1 {
      IsOnly(o.nodes[n], validPtr);
      Merge(t, lp, o, l, q, e, validPtr);
    } else {
      NotOnly(o.nodes, e, valid, validPtr);
      FirstMaximalAll(t.g, o.nodes, t.nodes, e, l);
    }
  }

  /** One round of the loop of phys_page_compact: compact what is below slot i of node n. */
  method CompactSlot(t: PhysPageMap, n: nat, i: nat, ghost o: Original)
    requires Shortened(t, o) && n < |o.nodes| && i < t.g.size
    modifies t`nodes, t`root
    ensures Shortened(t, o)
    ensures AboveKept(o.labels, old(t.nodes), t.nodes, o.labels[n].level, Slot(n, i))
    ensures t.root == old(t.root)
    ensures MaximalKept(o.nodes, old(t.nodes), t.nodes)
    ensures t.g.levels < 64 ==> MaximalBelow(t.g, o.nodes, t.nodes, t.nodes[n][i], o.labels[n].level)
    decreases o.labels[n].level, 1
  {
    hide Child, Maximal, MaximalBelow, Shortens, SkipsFit, Only;
    MaximalLeaf(t.g, o.nodes, t.nodes, t.nodes[n][i], o.labels[n].level);
    if t.nodes[n][i].ptr != NIL && t.nodes[n][i].skip != 0 {
      PageCompact(t, Slot(n, i), o, o.labels[n].level, Child(t.g, o.labels[n], i));
    }
  }

  lemma IsOnly(node: Node, j: nat)
    requires Counted(node, |node|, 1, j)
    ensures Only(node, j)
  {
  }

  /** What the loop has learnt from the first k slots. */
  ghost predicate Counted(node: Node, k: nat, valid: nat, validPtr: nat) {
    && k <= |node|
    && (valid == 0 ==> forall i :: 0 <= i < k ==> node[i].ptr == NIL)
    && (valid >= 1 ==> validPtr < k && node[validPtr].ptr != NIL)
    && (valid == 1 ==> forall i :: 0 <= i < k && i != validPtr ==> node[i].ptr == NIL)
    && (valid >= 2 ==> exists i :: 0 <= i < validPtr && node[i].ptr != NIL)
  }

  /** The end of phys_page_compact: lp's node n = e.ptr has one used slot only, so let lp skip it. */
  method Merge(t: PhysPageMap, lp: Ref, ghost o: Original, ghost l: nat, ghost q: nat, e: Entry, validPtr: nat)
    requires Shortened(t, o) && o.At(t.g, lp, l, q) && l <= t.g.levels
    requires e == t.Get(lp) && e.skip != 0 && e.ptr != NIL && e.ptr < |t.nodes|
    requires validPtr < t.g.size && Only(o.nodes[e.ptr], validPtr)
    requires t.g.levels < 64 ==> e.skip <= l && FirstMaximal(t.g, o.nodes, t.nodes, e.ptr, t.g.size, l - e.skip)
    modifies t`nodes, t`root
    ensures Shortened(t, o)
    ensures AboveKept(o.labels, old(t.nodes), t.nodes, l, lp)
    ensures lp != Root ==> t.root == old(t.root)
    ensures MaximalKept(o.nodes, old(t.nodes), t.nodes)
    ensures t.g.levels < 64 ==> MaximalBelow(t.g, o.nodes, t.nodes, t.Get(lp), l)
    ensures !Maximal(o.nodes, e)
  {
    hide Child, MaximalBelow, Shortens;
    var child := t.nodes[e.ptr][validPtr];
    ShortensKeeps(t.g, o.nodes, o.labels, e, o.Get(t.g, lp), l, q);
    SlotKeeps(t.g, o, t.nodes, e.ptr, validPtr);
    if t.g.levels >= 64 && e.skip + child.skip >= 64 {
      return;
    }
    var e' := Entry(if child.skip == 0 then 0 else e.skip + child.skip, child.ptr);
    ShortensMore(t.g, o.nodes, o.labels, e, o.Get(t.g, lp), l, q, validPtr, child);
    match lp {
      case Root =>
        t.root := e';
      case Slot(m, j) =>
        t.nodes := t.nodes[m := t.nodes[m][j := e']];
    }
    if t.g.levels < 64 {
      MergedMaximal(t.g, o.nodes, old(t.nodes), e, e', validPtr, l);
      MaximalStable(t.g, o.nodes, old(t.nodes), t.nodes, e', l);
    }
  }

  /** The first k slots of node n lead only to entries that cannot be shortened. */
  ghost predicate FirstMaximal(g: Geometry, nodes: seq<Node>, cur: seq<Node>, n: nat, k: nat, l: nat) {
    && n < |cur| && k <= |cur[n]|
    && forall i :: 0 <= i < k ==> MaximalBelow(g, nodes, cur, cur[n][i], l)
  }

  lemma FirstMaximalStep(g: Geometry, nodes: seq<Node>, cur: seq<Node>, cur': seq<Node>, n: nat, i: nat, l: nat)
    requires MaximalKept(nodes, cur, cur') && n < |cur| && i < |cur[n]|
    requires g.levels < 64 ==> FirstMaximal(g, nodes, cur, n, i, l) && MaximalBelow(g, nodes, cur', cur'[n][i], l)
    ensures g.levels < 64 ==> FirstMaximal(g, nodes, cur', n, i + 1, l)
  {
    hide Only;
    if g.levels < 64 {
      forall k | 0 <= k < i ensures MaximalBelow(g, nodes, cur', cur'[n][k], l) {
        assert MaximalBelow(g, nodes, cur, cur[n][k], l);
        MaximalStable(g, nodes, cur, cur', cur[n][k], l);
      }
    }
  }

  lemma MaximalKeptTrans(nodes: seq<Node>, a: seq<Node>, b: seq<Node>, c: seq<Node>)
    requires MaximalKept(nodes, a, b) && MaximalKept(nodes, b, c)
    ensures MaximalKept(nodes, a, c)
  {
    hide Maximal;
  }

  lemma MaximalLeaf(g: Geometry, nodes: seq<Node>, cur: seq<Node>, e: Entry, l: nat)
    ensures e.skip == 0 || e.ptr == NIL ==> Maximal(nodes, e) && MaximalBelow(g, nodes, cur, e, l)
  {
  }

  lemma SlotKeeps(g: Geometry, o: Original, cur: seq<Node>, n: nat, i: nat)
    requires o.Valid(g) && AllShorten(g, o.nodes, o.labels, cur) && n < |o.nodes| && i < g.size
    ensures |cur| == |o.nodes| && |cur[n]| == g.size == |o.nodes[n]|
    ensures Shortens(g, o.nodes, cur[n][i], o.nodes[n][i], o.labels[n].level)
    ensures cur[n][i].ptr == NIL <==> o.nodes[n][i].ptr == NIL
    ensures cur[n][i].skip != 0 && cur[n][i].ptr != NIL ==> cur[n][i].skip <= o.labels[n].level && cur[n][i].ptr < |o.nodes|
  {
    SlotShortens(g, o.nodes, o.labels, cur, n, i);
    assert EntryOk(o.nodes, o.labels, o.nodes[n][i], o.labels[n].level, Child(g, o.labels[n], i));
    ShortensKeeps(g, o.nodes, o.labels, cur[n][i], o.nodes[n][i], o.labels[n].level, Child(g, o.labels[n], i));
  }

  lemma MergedMaximal(g: Geometry, nodes: seq<Node>, cur: seq<Node>, e: Entry, e': Entry, j: nat, l: nat)
    requires 1 <= e.skip <= l && e.ptr < |cur| && j < |cur[e.ptr]|
    requires FirstMaximal(g, nodes, cur, e.ptr, |cur[e.ptr]|, l - e.skip)
    requires var child := cur[e.ptr][j]; e' == Entry(if child.skip == 0 then 0 else e.skip + child.skip, child.ptr)
    ensures MaximalBelow(g, nodes, cur, e', l)
  {
    hide Only;
    var child := cur[e.ptr][j];
    assert MaximalBelow(g, nodes, cur, child, l - e.skip);
    if child.skip != 0 {
      assert l - e'.skip == (l - e.skip) - child.skip;
    }
  }

  lemma NotOnly(nodes: seq<Node>, e: Entry, valid: nat, validPtr: nat)
    requires e.ptr < |nodes| && Counted(nodes[e.ptr], |nodes[e.ptr]|, valid, validPtr) && valid != 1
    ensures Maximal(nodes, e)
  {
  }

  lemma FirstMaximalAll(g: Geometry, nodes: seq<Node>, cur: seq<Node>, e: Entry, l: nat)
    requires Maximal(nodes, e) && 1 <= e.skip <= l && e.ptr < |cur|
    requires g.levels < 64 ==> FirstMaximal(g, nodes, cur, e.ptr, |cur[e.ptr]|, l - e.skip)
    ensures g.levels < 64 ==> MaximalBelow(g, nodes, cur, e, l)
  {
  }

  /** address_space_dispatch_compact: afterwards nothing is left to shorten, every skip count fits its
      six bits, and every entry is a shortening of the one before. */
  method DispatchCompact(t: PhysPageMap)
    requires t.Valid()
    modifies t`nodes, t`root
    ensures Shortened(t, old(Original(t.nodes, t.labels, t.root)))
    ensures t.g.levels < 64 ==> MaximalBelow(t.g, old(t.nodes), t.nodes, t.root, t.g.levels)
  {
    ghost var o := Original(t.nodes, t.labels, t.root);
    forall n, i | 0 <= n < |t.nodes| && 0 <= i < t.g.size ensures t.nodes[n][i].skip < 64 {
      assert EntryOk(t.nodes, t.labels, t.nodes[n][i], t.labels[n].level, Child(t.g, t.labels[n], i));
    }
    if t.root.skip != 0 {
      PageCompact(t, Root, o, t.g.levels, 0);
    } else {
      MaximalLeaf(t.g, t.nodes, t.nodes, t.root, t.g.levels);
    }
  }
}
