/** The multi-level page map of exec.c: `phys_map_node_alloc`, `phys_page_set` and the walk of
`phys_page_find`, for any node size and any number of levels.

A table is a root entry and a sequence of nodes.  Every node carries a ghost label that says where
it hangs: a node with label (l, q) is below the pages whose prefix at level l + 1 is q, and its slot
i is for those whose prefix at level l is q * size + i.
*/
module PhysMap {
  import opened Radix

  datatype Entry = Entry(skip: nat, ptr: nat)

  type Node = seq<Entry>

  const NIL := 0x3ffffff          // PHYS_MAP_NODE_NIL
  const UNASSIGNED := 0           // PHYS_SECTION_UNASSIGNED

  datatype Label = Label(level: nat, prefix: nat)

  /** The loop of phys_page_find, from entry `e` with `i` levels to go.  It stops at a leaf, at a
      missing node, or when the entry skips more levels than there are. */
  function Walk(g: Geometry, nodes: seq<Node>, e: Entry, i: nat, p: nat): nat
    requires g.Valid()
    decreases i
  {
    if e.skip == 0 || i < e.skip then e.ptr
    else if e.ptr == NIL then UNASSIGNED
    else if e.ptr < |nodes| && |nodes[e.ptr]| == g.size then
      Walk(g, nodes, nodes[e.ptr][Digit(g, p, i - e.skip)], i - e.skip, p)
    else UNASSIGNED
  }

  /** The child number of slot i below a node with label `b`. */
  function Child(g: Geometry, b: Label, i: nat): nat {
    b.prefix * g.size + i
  }

  /** An entry, not yet compacted, for the pages whose prefix at `level` is `prefix`. */
  ghost predicate EntryOk(nodes: seq<Node>, labels: seq<Label>, e: Entry, level: nat, prefix: nat) {
    if e.skip == 0 then e.ptr < NIL
    else
      && e.skip == 1 && level >= 1
      && (e.ptr == NIL || (e.ptr < |nodes| && e.ptr < |labels| && labels[e.ptr] == Label(level - 1, prefix)))
  }

  ghost predicate Tree(g: Geometry, nodes: seq<Node>, labels: seq<Label>) {
    && g.Valid()
    && |labels| == |nodes| <= NIL
    && (forall n :: 0 <= n < |nodes| ==> |nodes[n]| == g.size && labels[n].level < g.levels)
    && (forall n, i :: 0 <= n < |nodes| && 0 <= i < g.size ==>
          EntryOk(nodes, labels, nodes[n][i], labels[n].level, Child(g, labels[n], i)))
  }

  /** Is the page below the node with this label? */
  predicate Below(g: Geometry, b: Label, p: nat)
    requires g.Valid()
  {
    Prefix(g, p, b.level + 1) == b.prefix
  }

  function WalkFrom(g: Geometry, nodes: seq<Node>, labels: seq<Label>, n: nat, p: nat): nat
    requires g.Valid() && n < |nodes| && n < |labels| && |nodes[n]| == g.size
  {
    Walk(g, nodes, nodes[n][Digit(g, p, labels[n].level)], labels[n].level, p)
  }

  /** nodes' extends nodes and differs from it at most in slot j of node m. */
  ghost predicate DiffersAt(g: Geometry, nodes: seq<Node>, nodes': seq<Node>, m: nat, j: nat) {
    && |nodes| <= |nodes'|
    && (forall n :: 0 <= n < |nodes| ==> |nodes'[n]| == |nodes[n]|)
    && (forall n, i :: 0 <= n < |nodes| && 0 <= i < |nodes[n]| && !(n == m && i == j) ==> nodes'[n][i] == nodes[n][i])
  }

  /** A change of one slot is seen only through that slot: if the walk of page p would not come
      through it, or finds the same below it as before, then p is found as before from everywhere. */
  lemma {:induction false} SlotFrame(
    g: Geometry, nodes: seq<Node>, labels: seq<Label>, nodes': seq<Node>, m: nat, j: nat, n: nat, p: nat)
    requires Tree(g, nodes, labels) && DiffersAt(g, nodes, nodes', m, j)
    requires n < |nodes| && Below(g, labels[n], p)
    requires m < |nodes| && j < g.size && Prefix(g, p, labels[m].level) == Child(g, labels[m], j) ==>
               Walk(g, nodes', nodes'[m][j], labels[m].level, p) == Walk(g, nodes, nodes[m][j], labels[m].level, p)
    ensures WalkFrom(g, nodes', labels, n, p) == WalkFrom(g, nodes, labels, n, p)
    decreases labels[n].level
  {
    hide Prefix, Digit;
    var l := labels[n].level;
    var d := Digit(g, p, l);
    PrefixUp(g, p, l);
    assert EntryOk(nodes, labels, nodes[n][d], l, Child(g, labels[n], d));
    if n == m && d == j {
    } else {
      var e := nodes[n][d];
      assert nodes'[n][d] == e;
      if e.skip == 1 && e.ptr != NIL {
        SlotFrame(g, nodes, labels, nodes', m, j, e.ptr, p);
      }
    }
  }

  /** From every node, every page outside [lo, hi) is found as before. */
  ghost predicate SameOutside(g: Geometry, nodes: seq<Node>, nodes': seq<Node>, labels: seq<Label>, lo: nat, hi: nat)
    requires g.Valid()
  {
    && |nodes| <= |labels| && |nodes| <= |nodes'|
    && (forall n :: 0 <= n < |nodes| ==> |nodes[n]| == g.size && |nodes'[n]| == g.size)
    && forall n, p: nat :: 0 <= n < |nodes| && Below(g, labels[n], p) && !(lo <= p < hi) ==>
         WalkFrom(g, nodes', labels, n, p) == WalkFrom(g, nodes, labels, n, p)
  }

  /** No leaf above the lowest level reaches into [lo, hi). */
  ghost predicate NoLargeLeaf(g: Geometry, nodes: seq<Node>, labels: seq<Label>, lo: nat, hi: nat)
    requires g.Valid() && |nodes| == |labels|
  {
    forall n, i :: 0 <= n < |nodes| && 0 <= i < |nodes[n]| && nodes[n][i].skip == 0 && labels[n].level >= 1 ==>
      Outside(g, labels[n], i, lo, hi)
  }

  ghost predicate Outside(g: Geometry, b: Label, i: nat, lo: nat, hi: nat)
    requires g.Valid()
  {
    Base(g, Child(g, b, i) + 1, b.level) <= lo || hi <= Base(g, Child(g, b, i), b.level)
  }

  ghost predicate Inside(g: Geometry, b: Label, i: nat, lo: nat, hi: nat)
    requires g.Valid()
  {
    lo <= Base(g, Child(g, b, i), b.level) && Base(g, Child(g, b, i) + 1, b.level) <= hi
  }

  /** The large leaves of nodes' are those of nodes and leaves for `leaf` inside [lo, hi). */
  ghost predicate NewLeaves(
    g: Geometry, nodes: seq<Node>, labels: seq<Label>, nodes': seq<Node>, labels': seq<Label>, leaf: nat, lo: nat, hi: nat)
    requires g.Valid() && |nodes| <= |nodes'| == |labels'|
  {
    forall n, i :: 0 <= n < |nodes'| && 0 <= i < |nodes'[n]| && nodes'[n][i].skip == 0 && labels'[n].level >= 1 ==>
      || (n < |nodes| && i < |nodes[n]| && nodes[n][i] == nodes'[n][i])
      || (nodes'[n][i].ptr == leaf && Inside(g, labels'[n], i, lo, hi))
  }

  /** Entries above `level`, other than slot `lp`, are untouched. */
  ghost predicate UpperUntouched(nodes: seq<Node>, labels: seq<Label>, nodes': seq<Node>, level: nat, lp: Ref) {
    && |nodes| <= |nodes'| && |nodes| <= |labels|
    && forall n, i :: 0 <= n < |nodes| && 0 <= i < |nodes[n]| && labels[n].level > level && lp != Slot(n, i) ==>
         i < |nodes'[n]| && nodes'[n][i] == nodes[n][i]
  }

  /** A PhysPageEntry pointer: the root entry of the dispatch table or an entry of a node. */
  datatype Ref = Root | Slot(node: nat, idx: nat)

  function Min(a: nat, b: nat): nat {
    if a < b then a else b
  }

  // ---------------------------------------------------------------- steps on the nodes

  /** nodes' is nodes after setting the pages [lo, hi) to `leaf`, as far as the nodes can tell. */
  ghost predicate Updated(
    g: Geometry, nodes: seq<Node>, labels: seq<Label>, nodes': seq<Node>, labels': seq<Label>, leaf: nat, lo: nat, hi: nat)
  {
    && Tree(g, nodes', labels')
    && labels <= labels' && |nodes| == |labels|
    && SameOutside(g, nodes, nodes', labels', lo, hi)
    && NewLeaves(g, nodes, labels, nodes', labels', leaf, lo, hi)
  }

  lemma UpdatedTrans(
    g: Geometry, a: seq<Node>, la: seq<Label>, b: seq<Node>, lb: seq<Label>, c: seq<Node>, lc: seq<Label>,
    leaf: nat, lo: nat, mid: nat, hi: nat)
    requires Updated(g, a, la, b, lb, leaf, lo, mid) && Updated(g, b, lb, c, lc, leaf, mid, hi)
    requires lo <= mid <= hi
    ensures Updated(g, a, la, c, lc, leaf, lo, hi)
  {
    hide Base, Walk, WalkFrom, Below;
    forall n, p: nat | 0 <= n < |a| && Below(g, lc[n], p) && !(lo <= p < hi)
      ensures WalkFrom(g, c, lc, n, p) == WalkFrom(g, a, lc, n, p)
    {
      assert lb[n] == lc[n];
      SameLabels(g, a, lb, lc, n, p);
      SameLabels(g, b, lb, lc, n, p);
    }
  }

  lemma SameLabels(g: Geometry, nodes: seq<Node>, la: seq<Label>, lb: seq<Label>, n: nat, p: nat)
    requires g.Valid() && n < |nodes| && n < |la| && la <= lb && |nodes[n]| == g.size
    ensures WalkFrom(g, nodes, la, n, p) == WalkFrom(g, nodes, lb, n, p)
  {
  }

  /** Setting one slot to a leaf updates exactly the pages of the slot. */
  lemma LeafWrite(g: Geometry, nodes: seq<Node>, labels: seq<Label>, m: nat, j: nat, leaf: nat)
    requires Tree(g, nodes, labels) && m < |nodes| && j < g.size && leaf < NIL
    ensures var nodes' := nodes[m := nodes[m][j := Entry(0, leaf)]];
            var c := Child(g, labels[m], j);
            Updated(g, nodes, labels, nodes', labels, leaf, Base(g, c, labels[m].level), Base(g, c + 1, labels[m].level))
  {
    hide Base, Walk, Prefix, Digit;
    var nodes' := nodes[m := nodes[m][j := Entry(0, leaf)]];
    var l, c := labels[m].level, Child(g, labels[m], j);
    assert DiffersAt(g, nodes, nodes', m, j);
    forall n, p: nat | 0 <= n < |nodes| && Below(g, labels[n], p) && !(Base(g, c, l) <= p < Base(g, c + 1, l))
      ensures WalkFrom(g, nodes', labels, n, p) == WalkFrom(g, nodes, labels, n, p)
    {
      PrefixRange(g, p, l, c);
      SlotFrame(g, nodes, labels, nodes', m, j, n, p);
    }
    forall n, i | 0 <= n < |nodes'| && 0 <= i < g.size
      ensures EntryOk(nodes', labels, nodes'[n][i], labels[n].level, Child(g, labels[n], i))
    {
      assert EntryOk(nodes, labels, nodes[n][i], labels[n].level, Child(g, labels[n], i));
    }
  }

  /** The entries of a fresh node, and what a walk finds below an entry for it. */
  ghost predicate FreshNode(g: Geometry, node: Node, level: nat) {
    && |node| == g.size
    && forall i :: 0 <= i < g.size ==> node[i] == (if level == 0 then Entry(0, UNASSIGNED) else Entry(1, NIL))
  }

  /** Hanging a fresh node below an entry that had none changes nothing a walk can find. */
  lemma NodeHung(g: Geometry, nodes: seq<Node>, labels: seq<Label>, lp: Ref, level: nat, prefix: nat, node: Node)
    requires Tree(g, nodes, labels) && |nodes| < NIL && level < g.levels && FreshNode(g, node, level)
    requires lp.Slot? ==>
               && lp.node < |nodes| && lp.idx < g.size && nodes[lp.node][lp.idx] == Entry(1, NIL)
               && labels[lp.node].level == level + 1 && Child(g, labels[lp.node], lp.idx) == prefix
    ensures var nodes1 := nodes + [node];
            var nodes' := if lp.Root? then nodes1 else nodes1[lp.node := nodes1[lp.node][lp.idx := Entry(1, |nodes|)]];
            forall leaf, lo :: Updated(g, nodes, labels, nodes', labels + [Label(level, prefix)], leaf, lo, lo)
  {
    hide Base, Prefix, Digit;
    var nodes1 := nodes + [node];
    var nodes' := if lp.Root? then nodes1 else nodes1[lp.node := nodes1[lp.node][lp.idx := Entry(1, |nodes|)]];
    var labels' := labels + [Label(level, prefix)];
    var m, j := if lp.Root? then |nodes| else lp.node, if lp.Root? then 0 else lp.idx;
    assert DiffersAt(g, nodes, nodes', m, j);
    forall n, i | 0 <= n < |nodes'| && 0 <= i < g.size
      ensures EntryOk(nodes', labels', nodes'[n][i], labels'[n].level, Child(g, labels'[n], i))
    {
      if n < |nodes| {
        assert EntryOk(nodes, labels, nodes[n][i], labels[n].level, Child(g, labels[n], i));
      }
    }
    forall n, p: nat | 0 <= n < |nodes| && Below(g, labels'[n], p)
      ensures WalkFrom(g, nodes', labels', n, p) == WalkFrom(g, nodes, labels', n, p)
    {
      FreshWalk(g, nodes', node, |nodes|, level, p);
      SlotFrame(g, nodes, labels, nodes', m, j, n, p);
    }
  }

  lemma FreshWalk(g: Geometry, nodes: seq<Node>, node: Node, n: nat, level: nat, p: nat)
    requires g.Valid() && n < |nodes| && n != NIL && nodes[n] == node && FreshNode(g, node, level)
    ensures Walk(g, nodes, Entry(1, n), level + 1, p) == UNASSIGNED
  {
    hide Digit;
  }

  /** Below an entry for prefix q at level l: the pages [lo, hi) are now found to be `leaf` and the
      others are found as before. */
  ghost predicate RangeSet(
    g: Geometry, nodes: seq<Node>, e: Entry, nodes': seq<Node>, e': Entry, l: nat, q: nat, leaf: nat, lo: nat, hi: nat)
    requires g.Valid()
  {
    forall p: nat :: Prefix(g, p, l) == q ==>
      Walk(g, nodes', e', l, p) == if lo <= p < hi then leaf else Walk(g, nodes, e, l, p)
  }

  lemma FreshBelow(g: Geometry, nodes: seq<Node>, nodes': seq<Node>, node: Node, n: nat, level: nat, q: nat)
    requires g.Valid() && n < |nodes'| && n != NIL && nodes'[n] == node && FreshNode(g, node, level)
    ensures RangeSet(g, nodes, Entry(1, NIL), nodes', Entry(1, n), level + 1, q, 0, 0, 0)
  {
    hide Prefix, Digit;
    var l, e, e' := level + 1, Entry(1, NIL), Entry(1, n);
    forall p: nat ensures Walk(g, nodes', e', l, p) == Walk(g, nodes, e, l, p) {
      FreshWalk(g, nodes', node, n, level, p);
    }
  }

  /** The walk from an entry for node m is the walk from node m. */
  lemma WalkEnters(g: Geometry, nodes: seq<Node>, labels: seq<Label>, m: nat, p: nat)
    requires Tree(g, nodes, labels) && m < |nodes|
    ensures Walk(g, nodes, Entry(1, m), labels[m].level + 1, p) == WalkFrom(g, nodes, labels, m, p)
  {
    hide Prefix, Digit;
  }

  // ---------------------------------------------------------------- the loop of phys_page_set_level

  /** Where the loop of phys_page_set_level stands before slot j of node m, whose label is
      (level, prefix): [index0, index) has been set. */
  ghost predicate LoopAt(
    g: Geometry, nodes1: seq<Node>, labels1: seq<Label>, nodes: seq<Node>, labels: seq<Label>,
    m: nat, j0: nat, j: nat, leaf: nat, index0: nat, index: nat, end: nat)
  {
    && Updated(g, nodes1, labels1, nodes, labels, leaf, index0, index)
    && m < |nodes1|
    && j0 <= j <= g.size && index0 <= index <= end
    && NoLargeLeaf(g, nodes, labels, index, end)
    && (forall p: nat :: index0 <= p < index && Below(g, labels[m], p) ==> WalkFrom(g, nodes, labels, m, p) == leaf)
    && (if j == j0 then index == index0 else index == Min(end, Base(g, Child(g, labels[m], j), labels[m].level)))
  }

  /** In the loop, with pages and slots left, slot j is the slot of the current page. */
  lemma LoopSlot(
    g: Geometry, nodes1: seq<Node>, labels1: seq<Label>, nodes: seq<Node>, labels: seq<Label>,
    m: nat, j0: nat, j: nat, leaf: nat, index0: nat, index: nat, end: nat)
    requires LoopAt(g, nodes1, labels1, nodes, labels, m, j0, j, leaf, index0, index, end)
    requires index < end && j < g.size
    requires Below(g, labels[m], index0) && j0 == Digit(g, index0, labels[m].level)
    ensures Prefix(g, index, labels[m].level) == Child(g, labels[m], j)
  {
    hide Base, Prefix, Digit, Step;
    var l := labels[m].level;
    if j == j0 {
      PrefixUp(g, index0, l);
    } else {
      BaseAligned(g, Child(g, labels[m], j), l);
    }
  }

  /** One round that sets [index, index'), where index' is the end of slot j or of the range. */
  lemma LoopStep(
    g: Geometry, nodes1: seq<Node>, labels1: seq<Label>, nodes: seq<Node>, labels: seq<Label>,
    nodes': seq<Node>, labels': seq<Label>,
    m: nat, j0: nat, j: nat, leaf: nat, index0: nat, index: nat, index': nat, end: nat)
    requires LoopAt(g, nodes1, labels1, nodes, labels, m, j0, j, leaf, index0, index, end)
    requires j < g.size && Updated(g, nodes, labels, nodes', labels', leaf, index, index')
    requires index <= index' == Min(end, Base(g, Child(g, labels[m], j) + 1, labels[m].level))
    requires forall p: nat :: index <= p < index' && Below(g, labels[m], p) ==> WalkFrom(g, nodes', labels', m, p) == leaf
    ensures LoopAt(g, nodes1, labels1, nodes', labels', m, j0, j + 1, leaf, index0, index', end)
  {
    hide Base, Prefix, Digit, Step, Walk, WalkFrom, Below;
    UpdatedTrans(g, nodes1, labels1, nodes, labels, nodes', labels', leaf, index0, index, index');
    forall p: nat | index0 <= p < index' && Below(g, labels'[m], p)
      ensures WalkFrom(g, nodes', labels', m, p) == leaf
    {
      assert labels'[m] == labels[m];
      SameLabels(g, nodes, labels, labels', m, p);
    }
  }

  // ---------------------------------------------------------------- the table

  class PhysPageMap {
    const g: Geometry
    var root: Entry                 // d->phys_map
    var nodes: seq<Node>
    var nodesAlloc: nat             // nodes_nb_alloc
    var allocHint: nat
    ghost var labels: seq<Label>

    constructor (g: Geometry)
      requires g.Valid()
      ensures Valid() && this.g == g && nodes == [] && root == Entry(1, NIL)
    {
      this.g := g;
      root := Entry(1, NIL);
      nodes, labels := [], [];
      nodesAlloc, allocHint := 0, 16;
    }

    ghost predicate Valid()
      reads this
    {
      && Tree(g, nodes, labels)
      && EntryOk(nodes, labels, root, g.levels, 0)
    }

    /** The section number phys_page_find arrives at for a page. */
    ghost function PageAt(p: nat): nat
      requires g.Valid()
      reads this
    {
      Walk(g, nodes, root, g.levels, p)
    }

    function Get(lp: Ref): Entry
      requires lp.Slot? ==> lp.node < |nodes| && lp.idx < |nodes[lp.node]|
      reads this
    {
      match lp
      case Root => root
      case Slot(n, i) => nodes[n][i]
    }

    /** The entry `lp` points to is the one for the pages whose prefix at `level` is `prefix`. */
    ghost predicate At(lp: Ref, level: nat, prefix: nat)
      reads this
    {
      match lp
      case Root => level == g.levels && prefix == 0
      case Slot(n, i) =>
        && n < |nodes| && n < |labels| && i < g.size && |nodes[n]| == g.size
        && labels[n].level == level && Child(g, labels[n], i) == prefix
    }

    /** phys_map_node_reserve */
    method Reserve(count: nat)
      modifies `nodesAlloc, `allocHint
      ensures |nodes| + count <= nodesAlloc
    {
      if |nodes| + count > nodesAlloc {
        nodesAlloc := if allocHint > |nodes| + count then allocHint else |nodes| + count;
        allocHint := nodesAlloc;
      }
    }

    /** phys_map_node_alloc; the two preconditions are its assertions. */
    method NodeAlloc(level: nat, ghost prefix: nat) returns (ret: nat)
      requires g.Valid() && |nodes| == |labels|
      requires |nodes| != NIL && |nodes| != nodesAlloc
      modifies `nodes, `labels
      ensures ret == |old(nodes)| && |nodes| == ret + 1 && nodes[..ret] == old(nodes)
      ensures FreshNode(g, nodes[ret], level)
      ensures labels == old(labels) + [Label(level, prefix)]
    {
      ret := |nodes|;
      var e := Entry(if level == 0 then 0 else 1, if level == 0 then UNASSIGNED else NIL);
      var node: Node := [];
      while |node| < g.size
        invariant |node| <= g.size
        invariant forall i :: 0 <= i < |node| ==> node[i] == e
      {
        node := node + [e];
      }
      nodes := nodes + [node];
      labels := labels + [Label(level, prefix)];
    }

    /** The first lines of phys_page_set_level: make sure there is a node below the entry. */
    method NodeBelow(lp: Ref, level: nat, ghost prefix: nat) returns (m: nat)
      requires Valid() && level < g.levels && At(lp, level + 1, prefix) && Get(lp).skip != 0
      requires |nodes| < NIL && |nodes| < nodesAlloc
      modifies `nodes, `labels, `root
      ensures Valid() && At(lp, level + 1, prefix) && Get(lp) == Entry(1, m)
      ensures m < |nodes| && labels[m] == Label(level, prefix)
      ensures |nodes| <= |old(nodes)| + 1
      ensures forall leaf, lo :: Updated(g, old(nodes), old(labels), nodes, labels, leaf, lo, lo)
      ensures UpperUntouched(old(nodes), old(labels), nodes, level, lp)
      ensures lp != Root ==> root == old(root)
      ensures RangeSet(g, old(nodes), old(Get(lp)), nodes, Get(lp), level + 1, prefix, 0, 0, 0)
    {
      hide Base, Prefix, Digit, Step;
      assert EntryOk(nodes, labels, Get(lp), level + 1, prefix);
      if Get(lp).ptr == NIL {
        m := NodeAlloc(level, prefix);
        ghost var node := nodes[m];
        assert nodes == old(nodes) + [node];
        NodeHung(g, old(nodes), old(labels), lp, level, prefix, node);
        match lp {
          case Root =>
            root := Entry(1, m);
          case Slot(n, i) =>
            nodes := nodes[n := nodes[n][i := Entry(1, m)]];
        }
        FreshBelow(g, old(nodes), nodes, node, m, level, prefix);
        assert Updated(g, old(nodes), old(labels), nodes, labels, 0, 0, 0);
      } else {
        m := Get(lp).ptr;
        forall leaf, lo ensures Updated(g, old(nodes), old(labels), nodes, labels, leaf, lo, lo) {
        }
      }
    }

    /** How many nodes phys_page_set_level may allocate: one per level along either end of the range
        that lies properly inside the entry's pages, and one shared node. */
    ghost function AllocBound(index: nat, end: nat, level: nat, prefix: nat): nat
      requires g.Valid()
    {
      if index == Base(g, prefix, level + 1) || end >= Base(g, prefix + 1, level + 1) then level + 1
      else 2 * level + 1
    }

    /** How many nodes one round of its loop may allocate. */
    ghost function SlotBound(index: nat, end: nat, level: nat, c: nat): nat
      requires g.Valid()
    {
      if index == Base(g, c, level) then (if end >= Base(g, c + 1, level) then 0 else level)
      else if end >= Base(g, c + 1, level) then level
      else if level == 0 then 0
      else 2 * level - 1
    }

    /** phys_page_set_level */
    method SetLevel(lp: Ref, index0: nat, nb0: nat, leaf: nat, level: nat, ghost prefix: nat)
      returns (index: nat, nb: nat)
      requires Valid() && level < g.levels && At(lp, level + 1, prefix) && Get(lp).skip != 0
      requires leaf < NIL && nb0 > 0 && Prefix(g, index0, level + 1) == prefix
      requires NoLargeLeaf(g, nodes, labels, index0, index0 + nb0)
      requires |nodes| + AllocBound(index0, index0 + nb0, level, prefix) <= Min(NIL, nodesAlloc)
      modifies `nodes, `labels, `root
      ensures Valid() && At(lp, level + 1, prefix) && Get(lp).skip == 1
      ensures index == Min(index0 + nb0, Base(g, prefix + 1, level + 1)) && index + nb == index0 + nb0
      ensures Updated(g, old(nodes), old(labels), nodes, labels, leaf, index0, index)
      ensures UpperUntouched(old(nodes), old(labels), nodes, level, lp)
      ensures lp != Root ==> root == old(root)
      ensures RangeSet(g, old(nodes), old(Get(lp)), nodes, Get(lp), level + 1, prefix, leaf, index0, index)
      ensures |nodes| <= |old(nodes)| + AllocBound(index0, index0 + nb0, level, prefix)
      decreases level, 1
    {
      hide Base, Prefix, Digit, Step, Walk, WalkFrom, SameOutside, NewLeaves, RangeSet, NoLargeLeaf, EntryOk;
      var m := NodeBelow(lp, level, prefix);
      ghost var nodes1, labels1, end, e1 := nodes, labels, index0 + nb0, Get(lp);
      var j: nat := Digit(g, index0, level);
      ghost var j0, c0 := j, Child(g, labels[m], j);
      index, nb := index0, nb0;
      PrefixUp(g, index0, level);
      Begin(level, prefix, index0, end, m, leaf, old(nodes), old(labels));
      while nb > 0 && j < g.size
        invariant LoopAt(g, nodes1, labels1, nodes, labels, m, j0, j, leaf, index0, index, end)
        invariant index + nb == end && nb >= 0
        invariant EntryOk(nodes, labels, root, g.levels, 0)
        invariant lp != Root ==> root == old(root)
        invariant At(lp, level + 1, prefix) && Get(lp) == e1
        invariant UpperUntouched(nodes1, labels1, nodes, level, Root)
        invariant |nodes| <= |nodes1| + Spent(index0, index, end, level, c0, j == j0, prefix)
      {
        LoopSlot(g, nodes1, labels1, nodes, labels, m, j0, j, leaf, index0, index, end);
        ghost var nodes2, labels2, index2 := nodes, labels, index;
        Budget(index0, index, end, level, c0, Child(g, labels[m], j), j == j0, prefix);
        index, nb := SetSlot(m, j, index, nb, leaf, level);
        LoopStep(g, nodes1, labels1, nodes2, labels2, nodes, labels, m, j0, j, leaf, index0, index2, index, end);
        j := j + 1;
      }
      Finish(old(nodes), old(labels), old(Get(lp)), nodes1, labels1, m, j0, j, leaf, index0, index, end);
    }

    /** phys_page_set: a range update of the page map, with at most 2 * levels - 1 new nodes, so
        that the reservation of 3 * levels nodes always suffices. */
    method Set(index: nat, nb: nat, leaf: nat)
      requires Valid() && root.skip != 0 && leaf < NIL
      requires nb > 0 && index + nb <= Step(g, g.levels)
      requires NoLargeLeaf(g, nodes, labels, index, index + nb)
      requires |nodes| + 2 * g.levels - 1 <= NIL
      modifies this
      ensures Valid() && root.skip != 0
      ensures forall p: nat :: p < Step(g, g.levels) ==> PageAt(p) == if index <= p < index + nb then leaf else old(PageAt(p))
      ensures |nodes| <= |old(nodes)| + 2 * g.levels - 1
      ensures old(labels) <= labels && NewLeaves(g, old(nodes), old(labels), nodes, labels, leaf, index, index + nb)
    {
      hide Base, Prefix, Digit, Step, Walk, WalkFrom;
      Reserve(3 * g.levels);
      PrefixRange(g, index, g.levels, 0);
      BaseNext(g, 0, g.levels);
      BaseZero(g, g.levels);
      var end, left := SetLevel(Root, index, nb, leaf, g.levels - 1, 0);
      forall p: nat | p < Step(g, g.levels)
        ensures PageAt(p) == if index <= p < index + nb then leaf else old(PageAt(p))
      {
        PrefixRange(g, p, g.levels, 0);
      }
    }

    /** One round of the loop of phys_page_set_level, for slot j of node m. */
    method SetSlot(m: nat, j: nat, index0: nat, nb0: nat, leaf: nat, level: nat) returns (index: nat, nb: nat)
      requires Valid() && m < |nodes| && labels[m].level == level && j < g.size
      requires leaf < NIL && nb0 > 0 && Prefix(g, index0, level) == Child(g, labels[m], j)
      requires NoLargeLeaf(g, nodes, labels, index0, index0 + nb0)
      requires |nodes| + SlotBound(index0, index0 + nb0, level, Child(g, labels[m], j)) <= Min(NIL, nodesAlloc)
      modifies `nodes, `labels, `root
      ensures Valid() && root == old(root)
      ensures index == Min(index0 + nb0, Base(g, Child(g, old(labels[m]), j) + 1, level)) && index + nb == index0 + nb0
      ensures index0 <= index
      ensures Updated(g, old(nodes), old(labels), nodes, labels, leaf, index0, index)
      ensures UpperUntouched(old(nodes), old(labels), nodes, level, Root)
      ensures forall p: nat :: index0 <= p < index && Below(g, old(labels[m]), p) ==> WalkFrom(g, nodes, labels, m, p) == leaf
      ensures |nodes| <= |old(nodes)| + SlotBound(index0, index0 + nb0, level, Child(g, old(labels[m]), j))
      decreases level, 0
    {
      hide Base, Prefix, Digit, Step, Walk, WalkFrom;
      ghost var c, end := Child(g, labels[m], j), index0 + nb0;
      var step := Step(g, level);
      PrefixRange(g, index0, level, c);
      BaseNext(g, c, level);
      if index0 % step == 0 && nb0 >= step {
        LeafRound(nodes, labels, m, j, leaf, index0);
        nodes := nodes[m := nodes[m][j := Entry(0, leaf)]];
        index, nb := index0 + step, nb0 - step;
      } else {
        LargerThanStep(level, m, j, index0, end);
        BaseAligned(g, c, level);
        index, nb := SetLevel(Slot(m, j), index0, nb0, leaf, level - 1, c);
        DeepRound(old(nodes), nodes, labels, m, j, leaf, index0, index);
      }
    }

    /** A slot that the range covers only partly lies above the lowest level and is no leaf. */
    lemma LargerThanStep(level: nat, m: nat, j: nat, index: nat, end: nat)
      requires Valid() && m < |nodes| && labels[m].level == level && j < g.size
      requires Prefix(g, index, level) == Child(g, labels[m], j) && index < end
      requires index % Step(g, level) != 0 || end - index < Step(g, level)
      requires NoLargeLeaf(g, nodes, labels, index, end)
      ensures level >= 1 && nodes[m][j].skip == 1
    {
      hide Base, Prefix;
      PrefixRange(g, index, level, Child(g, labels[m], j));
      assert EntryOk(nodes, labels, nodes[m][j], level, Child(g, labels[m], j));
    }

    /** What the recursive call set below slot j of node m is seen from node m. */
    lemma DeepRound(nodes2: seq<Node>, nodes': seq<Node>, labels: seq<Label>, m: nat, j: nat, leaf: nat, index: nat, index': nat)
      requires Tree(g, nodes', labels) && m < |nodes'| && m < |nodes2| && j < g.size && j < |nodes2[m]|
      requires RangeSet(g, nodes2, nodes2[m][j], nodes', nodes'[m][j], labels[m].level, Child(g, labels[m], j), leaf, index, index')
      requires Base(g, Child(g, labels[m], j), labels[m].level) <= index
      requires index' <= Base(g, Child(g, labels[m], j) + 1, labels[m].level)
      ensures forall p: nat :: index <= p < index' && Below(g, labels[m], p) ==> WalkFrom(g, nodes', labels, m, p) == leaf
    {
      hide Base, Prefix, Digit, Step, Walk;
      var l, c := labels[m].level, Child(g, labels[m], j);
      forall p: nat | index <= p < index' && Below(g, labels[m], p) ensures WalkFrom(g, nodes', labels, m, p) == leaf {
        PrefixRange(g, p, l, c);
        PrefixUp(g, p, l);
      }
    }

    /** Setting a slot to a leaf is seen from its node. */
    lemma LeafRound(nodes2: seq<Node>, labels: seq<Label>, m: nat, j: nat, leaf: nat, index: nat)
      requires Tree(g, nodes2, labels) && m < |nodes2| && j < g.size && leaf < NIL
      requires Prefix(g, index, labels[m].level) == Child(g, labels[m], j) && index % Step(g, labels[m].level) == 0
      ensures var nodes' := nodes2[m := nodes2[m][j := Entry(0, leaf)]];
              var c := Child(g, labels[m], j);
              var index' := Base(g, c + 1, labels[m].level);
              && index == Base(g, c, labels[m].level) && index' == index + Step(g, labels[m].level)
              && Updated(g, nodes2, labels, nodes', labels, leaf, index, index')
              && forall p: nat :: index <= p < index' && Below(g, labels[m], p) ==> WalkFrom(g, nodes', labels, m, p) == leaf
    {
      hide Base, Prefix, Digit, Step;
      var l, c := labels[m].level, Child(g, labels[m], j);
      var nodes' := nodes2[m := nodes2[m][j := Entry(0, leaf)]];
      Aligned(g, index, l);
      BaseNext(g, c, l);
      LeafWrite(g, nodes2, labels, m, j, leaf);
      forall p: nat | index <= p < Base(g, c + 1, l) && Below(g, labels[m], p)
        ensures WalkFrom(g, nodes', labels, m, p) == leaf
      {
        PrefixRange(g, p, l, c);
        PrefixUp(g, p, l);
      }
    }

    /** How many nodes the loop may have allocated when it stands at `index`. */
    ghost function Spent(index0: nat, index: nat, end: nat, level: nat, c0: nat, first: bool, prefix: nat): nat
      requires g.Valid()
    {
      if first then 0
      else if index < end then (if index0 == Base(g, c0, level) then 0 else level)
      else AllocBound(index0, end, level, prefix) - 1
    }

    /** The next round stays within the bound. */
    lemma Budget(index0: nat, index: nat, end: nat, level: nat, c0: nat, c: nat, first: bool, prefix: nat)
      requires g.Valid() && prefix * g.size <= c0 <= c < prefix * g.size + g.size
      requires Prefix(g, index0, level) == c0 && Prefix(g, index, level) == c && index < end
      requires if first then index == index0 else index == Base(g, c, level)
      ensures Spent(index0, index, end, level, c0, first, prefix) + SlotBound(index, end, level, c)
              <= Spent(index0, Min(end, Base(g, c + 1, level)), end, level, c0, false, prefix)
              <= AllocBound(index0, end, level, prefix) - 1
    {
      hide Base, Prefix, Step;
      PrefixRange(g, index0, level, c0);
      PrefixRange(g, index, level, c);
      BaseUp(g, prefix, level);
      BaseUp(g, prefix + 1, level);
      assert (prefix + 1) * g.size == prefix * g.size + g.size;
      BaseMonotone(g, prefix * g.size, c0, level);
      BaseMonotone(g, c + 1, (prefix + 1) * g.size, level);
    }

    lemma Begin(level: nat, prefix: nat, index0: nat, end: nat, m: nat, leaf: nat, nodes0: seq<Node>, labels0: seq<Label>)
      requires Valid() && level < g.levels
      requires m < |nodes| && labels[m] == Label(level, prefix)
      requires index0 <= end
      requires |nodes0| == |labels0|
      requires Updated(g, nodes0, labels0, nodes, labels, leaf, 0, 0)
      requires NoLargeLeaf(g, nodes0, labels0, index0, end)
      ensures LoopAt(g, nodes, labels, nodes, labels, m, Digit(g, index0, level), Digit(g, index0, level), leaf, index0, index0, end)
    {
      hide Base, Prefix, Digit, Step, Walk, WalkFrom, Below;
    }

    /** What the loop leaves behind. */
    lemma Finish(nodes0: seq<Node>, labels0: seq<Label>, e0: Entry, nodes1: seq<Node>, labels1: seq<Label>,
                 m: nat, j0: nat, j: nat, leaf: nat, index0: nat, index: nat, end: nat)
      requires LoopAt(g, nodes1, labels1, nodes, labels, m, j0, j, leaf, index0, index, end)
      requires Tree(g, nodes1, labels1) && j0 < g.size && index0 < end
      requires index == end || j == g.size
      requires Updated(g, nodes0, labels0, nodes1, labels1, leaf, index0, index0)
      requires RangeSet(g, nodes0, e0, nodes1, Entry(1, m), labels1[m].level + 1, labels1[m].prefix, 0, 0, 0)
      ensures index == Min(end, Base(g, labels[m].prefix + 1, labels[m].level + 1))
      ensures Updated(g, nodes0, labels0, nodes, labels, leaf, index0, index)
      ensures RangeSet(g, nodes0, e0, nodes, Entry(1, m), labels[m].level + 1, labels[m].prefix, leaf, index0, index)
    {
      hide Base, Prefix, Digit, Step, Walk, WalkFrom;
      var l, q, l1 := labels[m].level, labels[m].prefix, labels[m].level + 1;
      UpdatedTrans(g, nodes0, labels0, nodes1, labels1, nodes, labels, leaf, index0, index0, index);
      BaseUp(g, q + 1, l);
      assert (q + 1) * g.size == q * g.size + g.size;
      BaseMonotone(g, q * g.size + j, (q + 1) * g.size, l);
      forall p: nat | Prefix(g, p, l1) == q
        ensures Walk(g, nodes, Entry(1, m), l1, p) == if index0 <= p < index then leaf else Walk(g, nodes0, e0, l1, p)
      {
        WalkEnters(g, nodes, labels, m, p);
        WalkEnters(g, nodes1, labels1, m, p);
        SameLabels(g, nodes1, labels1, labels, m, p);
      }
    }
  }
}
