/** The graph of block nodes of block.c: nodes, the edges (BdrvChild) between them, the permissions on
the edges, and what the check, set and abort functions rely on.

An edge has a target, the node it lets its parent use, and a parent, the node that uses it; an edge
without a parent belongs to a user outside the graph.  The permissions on the edges are kept apart
from the shape of the graph because the permission functions leave the shape alone.
*/
module BlockGraph {
  import opened Wrappers
  import opened Permissions

  /** What a node does in a permission check.  A driver with a bdrv_check_perm of its own decides by
      itself and has no children; one without bdrv_child_perm has none either; one with bdrv_child_perm
      asks its children. */
  datatype Driver = NoDriver | Own | Plain | Interior(childPerm: (nat, Need) -> Need)

  datatype Node = Node(driver: Driver, writable: bool, unaligned: bool, forceShare: bool, children: seq<nat>)

  datatype Graph = Graph(nodes: seq<Node>, target: seq<nat>, parent: seq<Option<nat>>, rank: seq<nat>)

  /** The permissions on an edge: those in force and, during an update, those before. */
  datatype Edge = Edge(now: Need, backup: Option<Need>)

  type Edges = seq<Edge>

  // ---------------------------------------------------------------- shape

  ghost predicate ShapeOk(g: Graph) {
    && |g.parent| == |g.target| && |g.rank| == |g.nodes|
    && (forall e :: 0 <= e < |g.parent| && g.parent[e].Some? ==> EdgeOk(g, e))
    && (forall n, i :: 0 <= n < |g.nodes| && 0 <= i < |g.nodes[n].children| ==>
          g.nodes[n].children[i] < |g.target| && g.parent[g.nodes[n].children[i]] == Some(n))
    && (forall n, i, j :: 0 <= n < |g.nodes| && 0 <= i < j < |g.nodes[n].children| ==>
          g.nodes[n].children[i] != g.nodes[n].children[j])
  }

  /** An edge that belongs to a node leads to a node of lower rank: there are no cycles. */
  ghost predicate EdgeOk(g: Graph, e: nat)
    requires |g.parent| == |g.target| && |g.rank| == |g.nodes| && e < |g.parent| && g.parent[e].Some?
  {
    var n := g.parent[e].value;
    && n < |g.nodes| && g.target[e] < |g.nodes| && g.rank[g.target[e]] < g.rank[n]
    && g.nodes[n].driver.Interior? && e in g.nodes[n].children
  }

  /** Node m is n or below n. */
  ghost predicate Reaches(g: Graph, n: nat, m: nat)
    requires ShapeOk(g) && n < |g.nodes|
    decreases g.rank[n]
  {
    n == m || exists e :: 0 <= e < |g.parent| && g.parent[e] == Some(n) && ReachesFrom(g, n, e, m)
  }

  ghost predicate ReachesFrom(g: Graph, n: nat, e: nat, m: nat)
    requires ShapeOk(g) && n < |g.nodes| && e < |g.parent| && g.parent[e] == Some(n)
    decreases g.rank[n], 0
  {
    assert EdgeOk(g, e);
    Reaches(g, g.target[e], m)
  }

  /** Edge e belongs to n or to a node below n. */
  ghost predicate Below(g: Graph, n: nat, e: nat)
    requires ShapeOk(g) && n < |g.nodes| && e < |g.parent|
  {
    g.parent[e].Some? && Reaches(g, n, g.parent[e].value)
  }

  lemma {:induction false} ReachesRank(g: Graph, n: nat, m: nat)
    requires ShapeOk(g) && n < |g.nodes| && Reaches(g, n, m)
    ensures m < |g.nodes| && (m == n || g.rank[m] < g.rank[n])
    decreases g.rank[n]
  {
    if n != m {
      var e :| 0 <= e < |g.parent| && g.parent[e] == Some(n) && ReachesFrom(g, n, e, m);
      assert EdgeOk(g, e);
      ReachesRank(g, g.target[e], m);
    }
  }

  lemma {:induction false} ReachesTrans(g: Graph, n: nat, m: nat, k: nat)
    requires ShapeOk(g) && n < |g.nodes| && m < |g.nodes| && Reaches(g, n, m) && Reaches(g, m, k)
    ensures Reaches(g, n, k)
    decreases g.rank[n]
  {
    if n != m {
      var e :| 0 <= e < |g.parent| && g.parent[e] == Some(n) && ReachesFrom(g, n, e, m);
      assert EdgeOk(g, e);
      ReachesTrans(g, g.target[e], m, k);
      assert ReachesFrom(g, n, e, k);
    }
  }

  lemma ReachesSelf(g: Graph, n: nat)
    requires ShapeOk(g) && n < |g.nodes|
    ensures Reaches(g, n, n)
  {
  }

  /** One edge down. */
  lemma ReachesTarget(g: Graph, e: nat)
    requires ShapeOk(g) && e < |g.parent| && g.parent[e].Some?
    ensures EdgeOk(g, e) && Reaches(g, g.parent[e].value, g.target[e])
  {
    assert EdgeOk(g, e);
    assert ReachesFrom(g, g.parent[e].value, e, g.target[e]);
  }

  /** What is strictly below n is below one of n's edges. */
  lemma ReachesDown(g: Graph, n: nat, m: nat) returns (e: nat)
    requires ShapeOk(g) && n < |g.nodes| && Reaches(g, n, m) && m != n
    ensures e < |g.parent| && g.parent[e] == Some(n) && EdgeOk(g, e) && Reaches(g, g.target[e], m)
  {
    e :| 0 <= e < |g.parent| && g.parent[e] == Some(n) && ReachesFrom(g, n, e, m);
    assert EdgeOk(g, e);
  }

  /** The target of an edge below n is below n. */
  lemma BelowTarget(g: Graph, n: nat, e: nat)
    requires ShapeOk(g) && n < |g.nodes| && e < |g.parent| && Below(g, n, e)
    ensures EdgeOk(g, e) && Reaches(g, n, g.target[e]) && g.target[e] != n
  {
    ReachesTarget(g, e);
    ReachesRank(g, n, g.parent[e].value);
    ReachesTrans(g, n, g.parent[e].value, g.target[e]);
  }

  // ---------------------------------------------------------------- permissions

  /** What the parents of n need together, leaving out the edges in ign: bdrv_get_cumulative_perm. */
  ghost function Cum(g: Graph, es: Edges, ign: set<nat>, n: nat): Need
    requires |es| == |g.target|
  {
    Need(set p: Perm | Used(g, es, ign, n, p), set p: Perm | Shared(g, es, ign, n, p))
  }

  ghost predicate Used(g: Graph, es: Edges, ign: set<nat>, n: nat, p: Perm)
    requires |es| == |g.target|
  {
    exists e :: 0 <= e < |es| && g.target[e] == n && e !in ign && p in es[e].now.perm
  }

  ghost predicate Shared(g: Graph, es: Edges, ign: set<nat>, n: nat, p: Perm)
    requires |es| == |g.target|
  {
    forall e :: 0 <= e < |es| && g.target[e] == n && e !in ign ==> p in es[e].now.shared
  }

  /** bdrv_child_perm: what node n needs of edge e when its parents need c of n. */
  ghost function ChildNeed(g: Graph, n: nat, e: nat, c: Need): Need
    requires n < |g.nodes| && g.nodes[n].driver.Interior? && e < |g.target| && g.target[e] < |g.nodes|
  {
    var need := g.nodes[n].driver.childPerm(e, c);
    if g.nodes[g.target[e]].forceShare then Need(need.perm, ALL) else need
  }

  /** The parents of each node get along. */
  ghost predicate ConflictFree(g: Graph, es: Edges, ign: set<nat>)
    requires |es| == |g.target|
  {
    forall e, f ::
      && 0 <= e < |es| && 0 <= f < |es| && e != f && e !in ign && f !in ign
      && g.target[e] == g.target[f] && g.target[e] < |g.nodes|
      ==> es[e].now.perm <= es[f].now.shared
  }

  /** Can the node be used like this?  Writing takes a writable image, and one whose size is aligned
      unless it may be resized. */
  predicate Accepts(node: Node, cum: Need) {
    Write in cum.perm || WriteUnchanged in cum.perm ==> node.writable && (Resize in cum.perm || !node.unaligned)
  }

  /** Node n can be used as its parents do, and its edges carry what n needs for that. */
  ghost predicate Settled(g: Graph, es: Edges, ign: set<nat>, n: nat)
    requires ShapeOk(g) && |es| == |g.target|
  {
    && (n < |g.nodes| ==> Accepts(g.nodes[n], Cum(g, es, ign, n)))
    && forall e :: 0 <= e < |es| && g.parent[e] == Some(n) ==> EdgeOk(g, e) && es[e].now == ChildNeed(g, n, e, Cum(g, es, ign, n))
  }

  /** The edges of n carry at least what n needs. */
  ghost predicate Enough(g: Graph, es: Edges, ign: set<nat>, n: nat)
    requires ShapeOk(g) && |es| == |g.target|
  {
    forall e :: 0 <= e < |es| && g.parent[e] == Some(n) ==>
      EdgeOk(g, e) && Looser(ChildNeed(g, n, e, Cum(g, es, ign, n)), es[e].now)
  }

  /** Every edge shares WRITE_UNCHANGED. */
  ghost predicate ShareUnchanged(es: Edges) {
    forall e :: 0 <= e < |es| ==> WriteUnchanged in es[e].now.shared && WriteUnchanged in Origin(es[e]).shared
  }

  /** The permissions of an edge before the update. */
  function Origin(x: Edge): Need {
    if x.backup.Some? then x.backup.value else x.now
  }

  ghost predicate NoBackups(es: Edges) {
    forall e :: 0 <= e < |es| ==> es[e].backup == None
  }

  // ---------------------------------------------------------------- drivers

  /** No driver stops sharing WRITE_UNCHANGED. */
  ghost predicate DriversShare(g: Graph) {
    forall n, e: nat, c: Need :: 0 <= n < |g.nodes| && g.nodes[n].driver.Interior? && WriteUnchanged in c.shared ==>
      WriteUnchanged in g.nodes[n].driver.childPerm(e, c).shared
  }

  /** No driver needs more when less is needed of it. */
  ghost predicate DriversMonotone(g: Graph) {
    forall n, e: nat, a: Need, b: Need :: 0 <= n < |g.nodes| && g.nodes[n].driver.Interior? && Looser(a, b) ==>
      Looser(g.nodes[n].driver.childPerm(e, a), g.nodes[n].driver.childPerm(e, b))
  }

  /** The driver uses bdrv_default_perms, with the role of each edge. */
  ghost predicate UsesDefault(d: Driver, flags: Flags, roles: seq<set<Role>>) {
    d.Interior? && forall e: nat, c: Need :: DefaultAt(d, flags, roles, e, c)
  }

  ghost predicate DefaultAt(d: Driver, flags: Flags, roles: seq<set<Role>>, e: nat, c: Need)
    requires d.Interior?
  {
    if e < |roles| then RoleOk(roles[e]) && d.childPerm(e, c) == DefaultPerms(flags, roles[e], c)
    else d.childPerm(e, c) == c
  }

  /** A graph of such drivers satisfies both. */
  lemma DefaultDrivers(g: Graph, flags: seq<Flags>, roles: seq<set<Role>>)
    requires |flags| == |g.nodes|
    requires forall n :: 0 <= n < |g.nodes| && g.nodes[n].driver.Interior? ==> UsesDefault(g.nodes[n].driver, flags[n], roles)
    ensures DriversShare(g) && DriversMonotone(g)
  {
    hide DefaultPerms, RoleOk;
    forall n, e: nat, c: Need | 0 <= n < |g.nodes| && g.nodes[n].driver.Interior? && WriteUnchanged in c.shared
      ensures WriteUnchanged in g.nodes[n].driver.childPerm(e, c).shared
    {
      assert DefaultAt(g.nodes[n].driver, flags[n], roles, e, c);
      if e < |roles| {
        DefaultPermsShareUnchanged(flags[n], roles[e], c);
      }
    }
    forall n, e: nat, a: Need, b: Need | 0 <= n < |g.nodes| && g.nodes[n].driver.Interior? && Looser(a, b)
      ensures Looser(g.nodes[n].driver.childPerm(e, a), g.nodes[n].driver.childPerm(e, b))
    {
      assert DefaultAt(g.nodes[n].driver, flags[n], roles, e, a) && DefaultAt(g.nodes[n].driver, flags[n], roles, e, b);
      if e < |roles| {
        DefaultPermsMonotone(flags[n], roles[e], a, b);
      }
    }
  }

  lemma ChildNeedMonotone(g: Graph, n: nat, e: nat, a: Need, b: Need)
    requires n < |g.nodes| && g.nodes[n].driver.Interior? && e < |g.target| && g.target[e] < |g.nodes|
    requires DriversMonotone(g) && Looser(a, b)
    ensures Looser(ChildNeed(g, n, e, a), ChildNeed(g, n, e, b))
  {
    forall p: Perm { AllPerms(p); }
    assert Looser(g.nodes[n].driver.childPerm(e, a), g.nodes[n].driver.childPerm(e, b));
  }

  // ---------------------------------------------------------------- locality

  /** The cumulative permissions of m depend on the edges to m that are not left out. */
  lemma CumSame(g: Graph, es: Edges, es': Edges, ign: set<nat>, ign': set<nat>, m: nat)
    requires |es| == |es'| == |g.target|
    requires forall e :: 0 <= e < |es| && g.target[e] == m ==> (e in ign <==> e in ign') && (e in ign || es'[e].now == es[e].now)
    ensures Cum(g, es', ign', m) == Cum(g, es, ign, m)
  {
    forall p: Perm ensures Used(g, es', ign', m, p) == Used(g, es, ign, m, p) && Shared(g, es', ign', m, p) == Shared(g, es, ign, m, p) {
      if Used(g, es', ign', m, p) {
        var e :| 0 <= e < |es| && g.target[e] == m && e !in ign' && p in es'[e].now.perm;
        assert p in es[e].now.perm;
      }
      if Used(g, es, ign, m, p) {
        var e :| 0 <= e < |es| && g.target[e] == m && e !in ign && p in es[e].now.perm;
        assert p in es'[e].now.perm;
      }
    }
  }

  /** Only the edges below n, and those in `also`, differ. */
  ghost predicate OnlyBelow(g: Graph, es: Edges, es': Edges, n: nat, also: set<nat>)
    requires ShapeOk(g) && n < |g.nodes|
  {
    && |es| == |es'| == |g.target|
    && forall e :: 0 <= e < |es| && !Below(g, n, e) && e !in also ==> es'[e] == es[e]
  }

  /** A change at edge c and below its target leaves alone what is not below the target, apart from
      the parent of c. */
  lemma ElsewhereSame(g: Graph, es: Edges, es': Edges, ign: set<nat>, c: nat, m: nat)
    requires ShapeOk(g) && c < |g.target| && g.target[c] < |g.nodes| && OnlyBelow(g, es, es', g.target[c], {c})
    requires !Reaches(g, g.target[c], m)
    ensures Cum(g, es', ign, m) == Cum(g, es, ign, m)
    ensures forall e :: 0 <= e < |es| && g.parent[e] == Some(m) && e != c ==> es'[e] == es[e]
    ensures g.parent[c] != Some(m) ==> (Settled(g, es', ign, m) <==> Settled(g, es, ign, m))
    ensures g.parent[c] != Some(m) ==> (Enough(g, es', ign, m) <==> Enough(g, es, ign, m))
  {
    hide Cum, ChildNeed, Reaches, Accepts;
    ReachesSelf(g, g.target[c]);
    forall e | 0 <= e < |es| && g.target[e] == m && e !in ign ensures es'[e].now == es[e].now {
      if Below(g, g.target[c], e) {
        BelowTarget(g, g.target[c], e);
      }
    }
    CumSame(g, es, es', ign, ign, m);
  }

  /** What is needed together when edge c needs `need`. */
  lemma CumWith(g: Graph, es: Edges, es': Edges, ign: set<nat>, c: nat, need: Need)
    requires |es| == |es'| == |g.target| && c < |es| && c !in ign
    requires es'[c].now == need
    requires forall e :: 0 <= e < |es| && g.target[e] == g.target[c] && e !in ign && e != c ==> es'[e].now == es[e].now
    ensures Cum(g, es', ign, g.target[c]) == Join(need, Cum(g, es, ign + {c}, g.target[c]))
  {
    var n := g.target[c];
    forall p: Perm
      ensures Used(g, es', ign, n, p) <==> p in need.perm || Used(g, es, ign + {c}, n, p)
      ensures Shared(g, es', ign, n, p) <==> p in need.shared && Shared(g, es, ign + {c}, n, p)
    {
      if Used(g, es', ign, n, p) && p !in need.perm {
        var e :| 0 <= e < |es| && g.target[e] == n && e !in ign && p in es'[e].now.perm;
        assert e != c && p in es[e].now.perm;
      }
      if Used(g, es, ign + {c}, n, p) {
        var e :| 0 <= e < |es| && g.target[e] == n && e !in ign + {c} && p in es[e].now.perm;
        assert p in es'[e].now.perm;
      }
      if p in need.perm {
        assert p in es'[c].now.perm;
      }
    }
  }
}
