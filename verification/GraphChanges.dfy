/** Operations on the block graph (block.c): changing the permissions of an edge, attaching and detaching
edges, and replacing a node by another.
*/
module GraphChanges {
  import opened Permissions
  import opened BlockGraph
  import opened PermissionUpdate
  import opened Tightening
  import opened EdgeMoves
  import opened Lists
  import opened Wrappers

  /** An edge over which is written leads to a node that is writable. */
  ghost predicate WriterOk(g: Graph, es: Edges, e: nat)
    requires |es| == |g.target| && e < |es|
  {
    g.target[e] < |g.nodes| && (Write in es[e].now.perm || WriteUnchanged in es[e].now.perm) ==> g.nodes[g.target[e]].writable
  }

  /** No read-only node has a writer. */
  ghost predicate ReadOnlySafe(g: Graph, es: Edges)
    requires |es| == |g.target|
  {
    forall e :: 0 <= e < |es| ==> WriterOk(g, es, e)
  }

  /** There are no cycles, the parents of each node get along, no read-only node has a writer, and no
      update is under way. */
  ghost predicate Quiet(g: Graph, es: Edges) {
    Ready(g, es, {}) && NoBackups(es) && ReadOnlySafe(g, es)
  }

  /** A node that is settled has no writer if it is read-only. */
  lemma SettledWriter(g: Graph, es: Edges, e: nat)
    requires ShapeOk(g) && |es| == |g.target| && e < |es| && (g.target[e] < |g.nodes| ==> Settled(g, es, {}, g.target[e]))
    ensures WriterOk(g, es, e)
  {
    hide ChildNeed, Cum;
    if g.target[e] < |g.nodes| {
      CumHas(g, es, e);
    }
  }

  lemma CumHas(g: Graph, es: Edges, e: nat)
    requires |es| == |g.target| && e < |es|
    ensures es[e].now.perm <= Cum(g, es, {}, g.target[e]).perm
  {
    forall p | p in es[e].now.perm ensures p in Cum(g, es, {}, g.target[e]).perm {
      assert Used(g, es, {}, g.target[e], p);
    }
  }

  /** What a settled node has of each edge: all is shared with others if the child forces that, and
      otherwise what the driver shares for what is needed of the node. */
  lemma SettledEdge(g: Graph, es: Edges, m: nat, e: nat)
    requires ShapeOk(g) && |es| == |g.target| && m < |g.nodes| && Settled(g, es, {}, m) && e < |es| && g.parent[e] == Some(m)
    ensures EdgeOk(g, e)
    ensures var need := g.nodes[m].driver.childPerm(e, Cum(g, es, {}, m));
            && es[e].now.perm == need.perm
            && es[e].now.shared == if g.nodes[g.target[e]].forceShare then {ConsistentRead, Write, WriteUnchanged, Resize, GraphMod} else need.shared
  {
    hide Cum;
  }

  /** A change that settles everything from node n on brings no writer to a read-only node. */
  lemma SafeAfter(g: Graph, es: Edges, es': Edges, n: nat, also: set<nat>)
    requires ShapeOk(g) && |es| == |g.target| && n < |g.nodes| && ReadOnlySafe(g, es)
    requires OnlyBelow(g, es, es', n, also) && SettledFrom(g, es', {}, n) && forall c :: 0 <= c < |es| && c in also ==> g.target[c] == n
    ensures ReadOnlySafe(g, es')
  {
    hide Reaches, Settled, Cum;
    forall e | 0 <= e < |es| ensures WriterOk(g, es', e) {
      ReachesSelf(g, n);
      if Below(g, n, e) {
        BelowTarget(g, n, e);
      }
      assert WriterOk(g, es, e);
      if Reaches(g, n, g.target[e]) {
        SettledWriter(g, es', e);
      }
    }
  }

  ghost predicate Sound(b: Blocks)
    reads b
  {
    b.Shape() && Quiet(b.G(), b.edges)
  }

  /** The graph is at rest: besides, each node has what it needs from its children for what its parents
      need of it, and no driver needs more when less is needed of it. */
  ghost predicate AtRest(g: Graph, es: Edges) {
    && Quiet(g, es) && DriversMonotone(g)
    && forall n :: 0 <= n < |g.nodes| ==> Enough(g, es, {}, n)
  }

  ghost predicate Resting(b: Blocks)
    reads b
  {
    b.Shape() && AtRest(b.G(), b.edges)
  }

  lemma RestEnough(g: Graph, es: Edges, n: nat)
    requires AtRest(g, es) && n < |g.nodes|
    ensures EnoughFrom(g, es, n)
  {
    hide Enough, Reaches;
    forall m | Reaches(g, n, m) ensures Enough(g, es, {}, m) {
      ReachesRank(g, n, m);
    }
  }

  lemma NothingIgnored(g: Graph, t: nat)
    requires ShapeOk(g) && t < |g.nodes|
    ensures IgnoreFrom(g, t, {}, {}) && IgnoreBelow(g, t, {}, {})
  {
  }

  /** In a graph at rest a file that does not force sharing has at most one writable format node, and
      then no other active one. */
  lemma SingleWriter(g: Graph, es: Edges, flags: seq<Flags>, roles: seq<set<Role>>, e: nat, f: nat, m: nat, k: nat)
    requires AtRest(g, es) && |flags| == |g.nodes| && |roles| == |g.target| && e < |es| && f < |es| && e != f
    requires g.parent[e] == Some(m) && g.parent[f] == Some(k) && m < |g.nodes| && k < |g.nodes|
    requires UsesDefault(g.nodes[m].driver, flags[m], roles) && UsesDefault(g.nodes[k].driver, flags[k], roles)
    requires Metadata in roles[e] && Metadata in roles[f] && flags[m].Writable() && !flags[k].inactive
    requires g.target[e] == g.target[f] && g.target[e] < |g.nodes|
    ensures g.nodes[g.target[e]].forceShare
  {
    hide Cum, DefaultPerms, RoleOk, DriversMonotone, DriversShare;
    var a, c := Cum(g, es, {}, m), Cum(g, es, {}, k);
    assert Enough(g, es, {}, m) && Enough(g, es, {}, k);
    assert DefaultAt(g.nodes[m].driver, flags[m], roles, e, a) && DefaultAt(g.nodes[k].driver, flags[k], roles, f, c);
    OneFormatNode(flags[m], roles[e], a, flags[k], roles[f], c);
    assert es[e].now.perm <= es[f].now.shared && es[f].now.perm <= es[e].now.shared;
  }

  // ---------------------------------------------------------------- bdrv_child_try_set_perm

  /** After a successful update of edge c everything below has followed. */
  lemma UpdateEnds(g: Graph, es: Edges, es1: Edges, es2: Edges, c: nat, need: Need)
    requires Quiet(g, es) && c < |es| && g.target[c] < |g.nodes|
    requires Undoable(g, es, es1, g.target[c], {c}) && es1[c].now == need
    requires ConflictFree(g, es1, {}) && SettledFrom(g, es1, {}, g.target[c])
    requires Ended(g, es1, es2, g.target[c], {c}, Commit)
    ensures Quiet(g, es2) && SettledFrom(g, es2, {}, g.target[c]) && es2[c] == Edge(need, None)
    ensures OnlyBelow(g, es, es2, g.target[c], {c}) && (AllLooser(es, es1) ==> AllLooser(es, es2))
  {
    hide Reaches, Settled, ChildNeed, Cum, DriversShare, ReadOnlySafe;
    forall m | Reaches(g, g.target[c], m) ensures Settled(g, es2, {}, m) {
      SettledSameNow(g, es1, es2, m);
    }
    SafeAfter(g, es, es2, g.target[c], {c});
  }

  /** What node m needs it still has, if edge c, should it belong to m, got enough. */
  lemma UpdateEnough(g: Graph, es: Edges, es': Edges, c: nat, need: Need, m: nat)
    requires ShapeOk(g) && |es| == |g.target| && c < |es| && g.target[c] < |g.nodes| && OnlyBelow(g, es, es', g.target[c], {c})
    requires SettledFrom(g, es', {}, g.target[c]) && Enough(g, es, {}, m) && es'[c].now == need
    requires g.parent[c] == Some(m) ==> EdgeOk(g, c) && Looser(ChildNeed(g, m, c, Cum(g, es, {}, m)), need)
    ensures Enough(g, es', {}, m)
  {
    hide Reaches, Settled, ChildNeed, Cum;
    if Reaches(g, g.target[c], m) {
      SettledIsEnough(g, es', m);
    } else {
      ElsewhereSame(g, es, es', {}, c, m);
    }
  }

  /** The need is no less than what the node needs that edge c belongs to. */
  ghost predicate ParentHasEnough(g: Graph, es: Edges, c: nat, need: Need)
    requires ShapeOk(g) && |es| == |g.target| && c < |es|
  {
    g.parent[c].Some? ==> EdgeOk(g, c) && Looser(NeedNow(g, es, c), need)
  }

  lemma UpdateRests(g: Graph, es: Edges, es': Edges, c: nat, need: Need)
    requires AtRest(g, es) && c < |es| && g.target[c] < |g.nodes| && ParentHasEnough(g, es, c, need)
    requires Quiet(g, es') && OnlyBelow(g, es, es', g.target[c], {c}) && SettledFrom(g, es', {}, g.target[c]) && es'[c].now == need
    ensures AtRest(g, es')
  {
    hide Reaches, Settled, ChildNeed, Cum, DriversMonotone, Enough, OnlyBelow, SettledFrom;
    forall m | 0 <= m < |g.nodes| ensures Enough(g, es', {}, m) {
      UpdateEnough(g, es, es', c, need, m);
    }
  }

  /** Why a check of node n for a need on top of the parents not ignored fails.  It visits nodes from n
      on, each for what an earlier visit asks of an edge; and the need conflicts with another parent of n,
      or what a visit asks of an edge conflicts with what another edge to the same node has or is asked for,
      or the node visited last cannot be written to, or not without being resized, or has refused. */
  ghost predicate Cause(g: Graph, es: Edges, ign: set<nat>, ignore: set<nat>, n: nat, need: Need, r: Result, log: seq<Visit>)
    requires ShapeOk(g) && |es| == |g.target| && n < |g.nodes|
  {
    && LogIn(g, n, log) && LogOk(g, es, ign, log) && Derived(g, log)
    && (log != [] ==> log[0] == Visit(n, Cum(g, es, ign, n), Join(need, Cum(g, es, ignore, n))))
    && !r.Ok? && LastRefuses(g, log, r) && (log == [] ==> r.Conflict?)
    && (r.Conflict? ==>
          if log == [] then FirstConflict(g, ignore, n, need, r) && r.edge < |es| && !Compatible(need, es[r.edge].now)
          else ConflictFound(g, log, r) && r.edge < |es| && exists had :: Had(g, es, log, r.edge, had) && !Compatible(r.need, had))
  }

  /** What edge f has, or is asked for. */
  ghost predicate Had(g: Graph, es: Edges, log: seq<Visit>, f: nat, had: Need)
    requires f < |es|
  {
    had == es[f].now || Asked(g, log, f, had)
  }

  lemma UpdateCause(
    g: Graph, es: Edges, es1: Edges, ign: set<nat>, ignore: set<nat>, n: nat, need: Need, track: bool, r: Result, tighten: bool, log: seq<Visit>)
    requires ShapeOk(g) && |es| == |es1| == |g.target| && n < |g.nodes| && !r.Ok?
    requires UpdateFacts(g, es, es1, ign, ignore, n, need, track, r, tighten, log) && Reason(g, es1, n, r)
    ensures Cause(g, es, ign, ignore, n, need, r, log)
  {
    hide Reaches, Cum, LooseCheck, SteadyCheck, AllLooser, Calm, LogEnds, AllCompatible, Asked, DerivedAt, Value;
    if r.Conflict? {
      assert log != [] ==> Had(g, es, log, r.edge, es1[r.edge].now);
    }
  }

  lemma EdgeCause(g: Graph, es: Edges, es1: Edges, c: nat, need: Need, r: Result, tighten: bool, log: seq<Visit>)
    requires ShapeOk(g) && |es| == |es1| == |g.target| && c < |es| && g.target[c] < |g.nodes| && !r.Ok?
    requires EdgeFacts(g, es, es1, {}, c, need, true, r, tighten, log) && Reason(g, es1, g.target[c], r) && es1[c] == es[c]
    ensures Cause(g, es, {}, {c}, g.target[c], need, r, log)
  {
    hide Reaches, Cum, LooseChild, SteadyChild, AllLooser, Calm, Asked, DerivedAt, Value;
    assert {} + {c} == {c};
    if r.Conflict? {
      assert log != [] ==> Had(g, es, log, r.edge, es1[r.edge].now);
    }
  }

  /** A check for less does not tighten. */
  lemma TryFacts(g: Graph, es: Edges, es1: Edges, c: nat, need: Need, r: Result, tighten: bool, log: seq<Visit>)
    requires ShapeOk(g) && |es| == |es1| == |g.target| && c < |es| && g.target[c] < |g.nodes|
    requires EdgeFacts(g, es, es1, {}, c, need, true, r, tighten, log)
    ensures LooseChild(g, es, {}, c, need) ==> !tighten && AllLooser(es, es1)
    ensures tighten <==> r.Conflict? || TightLog(log)
  {
    hide Cum, LooseChild, SteadyChild, AllLooser, Calm, LogIn, LogOk, Value, CauseLog;
  }

  /** A node that has no children and no check of its own. */
  predicate Leaf(node: Node) {
    !node.driver.Interior? && !node.driver.Own?
  }

  /** A check of such a node fails there only. */
  lemma LeafReason(g: Graph, es: Edges, n: nat, r: Result)
    requires ShapeOk(g) && |es| == |g.target| && n < |g.nodes| && Leaf(g.nodes[n]) && Reason(g, es, n, r)
    ensures r.Ok? || (r.Conflict? && g.target[r.edge] == n) || r == ReadOnly(n) || r == Unaligned(n)
  {
    forall m: nat | Reaches(g, n, m) ensures m == n {
      if m != n {
        var e := ReachesDown(g, n, m);
      }
    }
  }

  /** bdrv_child_try_set_perm: either the edge gets its new permissions and everything below follows, or
      there is a cause and nothing changes.  That is an error unless no visit of the check tightens.  Where
      the target has no children and no check of its own, the permissions are granted if and only if they
      conflict with no other parent and the target can be used like this. */
  method TrySetPerm(b: Blocks, c: nat, need: Need) returns (r: Result, ghost why: Result, ghost log: seq<Visit>)
    requires Sound(b) && c < |b.target| && b.target[c] < |b.nodes| && WriteUnchanged in need.shared
    modifies b`edges
    ensures Sound(b)
    ensures why.Ok? ==>
              && r.Ok? && b.edges[c] == Edge(need, None) && SettledFrom(b.G(), b.edges, {}, b.target[c])
              && OnlyBelow(b.G(), old(b.edges), b.edges, b.target[c], {c})
              && WritersFit(b.G(), b.edges, {}, b.target[c], Cum(b.G(), b.edges, {}, b.target[c]))
    ensures !why.Ok? ==>
              && b.edges == old(b.edges) && Cause(b.G(), b.edges, {}, {c}, b.target[c], need, why, log)
              && r == if why.Conflict? || TightLog(log) then why else Ok
    ensures !AllCompatible(b.G(), old(b.edges), {c}, b.target[c], need) ==> r.Conflict? && r.need == need && b.target[r.edge] == b.target[c]
    ensures Leaf(b.nodes[b.target[c]]) ==>
              (why.Ok? <==>
                 && AllCompatible(b.G(), old(b.edges), {c}, b.target[c], need)
                 && Fits(b.nodes[b.target[c]], Join(need, Cum(b.G(), old(b.edges), {c}, b.target[c]))))
    ensures LooseChild(b.G(), old(b.edges), {}, c, need) ==> r.Ok? && AllLooser(old(b.edges), b.edges)
    ensures old(Resting(b)) && ParentHasEnough(b.G(), old(b.edges), c, need) ==> Resting(b)
  {
    hide Reaches, Settled, ChildNeed, Cum, ConflictFree, Enough, DriversMonotone, DriversShare, SettledFrom, BackedUp, AllCompatible, EdgeFacts, LooseChild, ParentHasEnough;
    hide Cause, WritersFit, Fits, ReadOnlySafe, TightLog;
    ghost var g, es := b.G(), b.edges;
    NothingIgnored(g, b.target[c]);
    assert {} + {c} == {c};
    var tighten;
    r, tighten, log := b.ChildCheckPerm(c, need, {}, true, {});
    why := r;
    ghost var es1 := b.edges;
    TryFacts(g, es, es1, c, need, r, tighten, log);
    if Leaf(b.nodes[b.target[c]]) {
      LeafReason(g, es1, b.target[c], r);
    }
    if !r.Ok? {
      EdgeCause(g, es, es1, c, need, r, tighten, log);
      b.ChildAbortPermUpdate(c);
      AbortUndoes(g, es, es1, b.edges, b.target[c], {c});
      if !tighten {
        r := Ok;
      }
      return;
    }
    b.ChildSetPerm(c, need);
    UpdateEnds(g, es, es1, b.edges, c, need);
    SettledFit(g, b.edges, {}, b.target[c]);
    if old(Resting(b)) && ParentHasEnough(g, es, c, need) {
      UpdateRests(g, es, b.edges, c, need);
    }
  }

  /** bdrv_child_refresh_perms: edge c, which belongs to a node, gets what that node needs of it now. */
  method RefreshPerms(b: Blocks, c: nat) returns (r: Result, ghost why: Result, ghost log: seq<Visit>)
    requires Sound(b) && c < |b.target| && b.parent[c].Some?
    modifies b`edges
    ensures Sound(b) && EdgeOk(b.G(), c)
    ensures why.Ok? ==>
              && r.Ok? && b.edges[c] == Edge(NeedNow(b.G(), old(b.edges), c), None) && SettledFrom(b.G(), b.edges, {}, b.target[c])
              && OnlyBelow(b.G(), old(b.edges), b.edges, b.target[c], {c})
    ensures !why.Ok? ==>
              && b.edges == old(b.edges) && Cause(b.G(), b.edges, {}, {c}, b.target[c], NeedNow(b.G(), b.edges, c), why, log)
              && r == if why.Conflict? || TightLog(log) then why else Ok
    ensures old(Resting(b)) ==> r.Ok? && Resting(b) && AllLooser(old(b.edges), b.edges)
  {
    hide Reaches, Settled, Cum, ConflictFree, Enough, DriversMonotone, SettledFrom, AllCompatible, ChildNeed, Cause, WritersFit, Fits, ReadOnlySafe, TightLog;
    ghost var g, es := b.G(), b.edges;
    var n := b.parent[c].value;
    assert EdgeOk(g, c);
    var cum := b.CumulativePerm(n);
    var need := b.ChildPerm(n, c, cum);
    CumShares(g, es, {}, n, NO_NEED);
    NeedShares(g, n, c, cum);
    if Resting(b) {
      RestLoose(g, es, c);
    }
    r, why, log := TrySetPerm(b, c, need);
  }

  lemma RestLoose(g: Graph, es: Edges, c: nat)
    requires AtRest(g, es) && c < |es| && g.parent[c].Some?
    ensures EdgeOk(g, c) && LooseChild(g, es, {}, c, NeedNow(g, es, c))
  {
    hide Reaches, Cum, ChildNeed, DriversMonotone;
    assert EdgeOk(g, c);
    RestEnough(g, es, g.target[c]);
    assert Enough(g, es, {}, g.parent[c].value);
  }

  // ---------------------------------------------------------------- bdrv_replace_child_noperm

  /** bdrv_replace_child_noperm: edge c leaves its node and is put in front of the parents of `to`. */
  method MoveEdge(b: Blocks, c: nat, to: nat)
    requires b.Shape() && c < |b.target| && to <= |b.nodes| && !b.frozen[c] && NoCycle(b.G(), {c}, to)
    modifies b`target, b`parents, b`rank
    ensures b.Shape() && Moved(old(b.G()), b.G(), {c}, to)
  {
    hide Reaches;
    ghost var g := b.G();
    var from := b.target[c];
    if from < |b.nodes| {
      b.parents := b.parents[from := Without(b.parents[from], c)];
    }
    b.target := b.target[c := to];
    if to < |b.nodes| {
      b.parents := b.parents[to := [c] + b.parents[to]];
    }
    b.rank := NewRank(g, to);
    MovedShape(g, b.G(), {c}, to);
    forall n | 0 <= n < |b.nodes| ensures ParentList(b.G(), b.parents[n], n) {
      assert ParentList(g, old(b.parents[n]), n);
      MovedParents(old(b.parents[n]), b.parents[n], g, b.G(), c, to, n);
    }
  }

  lemma MovedParents(list: seq<nat>, list': seq<nat>, g: Graph, g': Graph, c: nat, to: nat, n: nat)
    requires ParentList(g, list, n) && Moved(g, g', {c}, to) && c < |g.target|
    requires var rest := if n == g.target[c] then Without(list, c) else list; list' == if n == to then [c] + rest else rest
    ensures ParentList(g', list', n)
  {
    forall e: nat ensures e in list' <==> (if n == g.target[c] then e in list && e != c else e in list) || (n == to && e == c) {
      WithoutIs(list, c);
    }
    forall i | 0 <= i < |list'| ensures list'[i] < |g'.target| && g'.target[list'[i]] == n {
      assert list'[i] in list';
    }
  }

  // ---------------------------------------------------------------- moving checked edges

  /** The edges of the list may be moved to `to`: the node has been checked for them. */
  ghost predicate Prepared(g: Graph, es: Edges, list: set<nat>, to: nat)
    requires ShapeOk(g) && |es| == |g.target| && to <= |g.nodes|
  {
    && ConflictFree(g, es, list) && NoCycle(g, list, to)
    && (forall e, f :: 0 <= e < |es| && 0 <= f < |es| && e != f && e in list && f in list ==> es[e].now.perm <= es[f].now.shared)
    && (to < |g.nodes| ==>
          && AllCompatible(g, es, list, to, NeedOf(es, list))
          && Checked(g, es, list, to, Join(NeedOf(es, list), Cum(g, es, list, to))))
    && (forall e :: 0 <= e < |es| && es[e].backup.Some? ==> to < |g.nodes| && Below(g, to, e))
    && (forall e :: 0 <= e < |es| && (to < |g.nodes| ==> !Reaches(g, to, g.target[e])) ==> WriterOk(g, es, e))
  }

  /** Node m has been checked with `to`, or has what it needs. */
  ghost predicate EnoughUpTo(g: Graph, es: Edges, to: nat, m: nat)
    requires ShapeOk(g) && |es| == |g.target| && to <= |g.nodes|
  {
    (to < |g.nodes| && Reaches(g, to, m)) || Enough(g, es, {}, m)
  }

  ghost predicate AllEnoughUpTo(g: Graph, es: Edges, to: nat)
    requires ShapeOk(g) && |es| == |g.target| && to <= |g.nodes|
  {
    forall m :: 0 <= m < |g.nodes| ==> EnoughUpTo(g, es, to, m)
  }

  /** A node that has enough keeps it, unless one of its edges loses forced sharing. */
  ghost predicate EnoughKept(g: Graph, es: Edges, g': Graph, es': Edges, list: set<nat>, to: nat)
    requires ShapeOk(g) && ShapeOk(g') && |es| == |g.target| && |es'| == |g'.target| && to <= |g.nodes|
  {
    forall m :: 0 <= m < |g.nodes| && KeptAt(g, list, to, m) && EnoughUpTo(g, es, to, m) ==> Enough(g', es', {}, m)
  }

  /** What holds after the move. */
  lemma PreparedMoved(g: Graph, g': Graph, es: Edges, list: set<nat>, to: nat)
    requires ShapeOk(g) && ShapeOk(g') && |es| == |g.target| && to <= |g.nodes| && Moved(g, g', list, to)
    requires Prepared(g, es, list, to)
    ensures ConflictFree(g', es, {})
    ensures to < |g.nodes| ==> SettledFrom(g', es, {}, to) && forall e :: 0 <= e < |es| ==> (Below(g', to, e) <==> Below(g, to, e))
    ensures DriversMonotone(g) ==> EnoughKept(g, es, g', es, list, to)
  {
    hide Reaches, Cum, Settled, DriversMonotone, Enough, ConflictFree, Checked, AllCompatible, NeedOf, NoCycle, Below, KeptAt;
    MovedConflictFree(g, g', es, list, to);
    if to < |g.nodes| {
      MovedSettled(g, g', es, list, to);
      ReachesSelf(g, to);
    }
    if DriversMonotone(g) {
      forall m | 0 <= m < |g.nodes| && KeptAt(g, list, to, m) && EnoughUpTo(g, es, to, m) ensures Enough(g', es, {}, m) {
        if to < |g.nodes| && Reaches(g, to, m) {
          assert NoCycle(g, list, to);
          MovedReach(g, g', list, to, to, m);
          SettledIsEnough(g', es, m);
        } else {
          MovedEnough(g, g', es, list, to, m);
        }
      }
    }
  }

  /** Committing drops the backups and nothing else. */
  lemma CommitRests(g: Graph, es: Edges, es': Edges, to: nat)
    requires ShapeOk(g) && to < |g.nodes| && |es| == |g.target| && Ended(g, es, es', to, {}, Commit)
    requires forall e :: 0 <= e < |es| && es[e].backup.Some? ==> Below(g, to, e)
    ensures NoBackups(es') && forall e :: 0 <= e < |es| ==> es'[e].now == es[e].now
  {
    hide Reaches, Below;
  }

  lemma SameNow(g: Graph, es: Edges, es': Edges)
    requires ShapeOk(g) && |es| == |es'| == |g.target| && forall e :: 0 <= e < |es| ==> es'[e].now == es[e].now
    ensures ConflictFree(g, es, {}) ==> ConflictFree(g, es', {})
    ensures forall n :: Enough(g, es, {}, n) ==> Enough(g, es', {}, n)
    ensures forall n :: Settled(g, es, {}, n) ==> Settled(g, es', {}, n)
  {
    hide Cum, ChildNeed, Accepts;
    forall n ensures Cum(g, es', {}, n) == Cum(g, es, {}, n) {
      CumSame(g, es, es', {}, {}, n);
    }
  }

  lemma PreparedNoCycle(g: Graph, es: Edges, list: set<nat>, to: nat)
    requires ShapeOk(g) && |es| == |g.target| && to <= |g.nodes| && Prepared(g, es, list, to)
    ensures NoCycle(g, list, to)
  {
  }

  lemma DriversSame(g: Graph, g': Graph)
    requires |g'.nodes| == |g.nodes| && forall n :: 0 <= n < |g.nodes| ==> g'.nodes[n].driver == g.nodes[n].driver
    ensures DriversShare(g) ==> DriversShare(g')
    ensures DriversMonotone(g) ==> DriversMonotone(g')
  {
  }

  /** After the move and the set no update is under way. */
  lemma MoveEnds(g: Graph, g': Graph, es: Edges, es': Edges, list: set<nat>, to: nat)
    requires ShapeOk(g) && ShapeOk(g') && |es| == |es'| == |g.target| && to <= |g.nodes| && Moved(g, g', list, to)
    requires Prepared(g, es, list, to) && ShareUnchanged(es) && DriversShare(g)
    requires if to < |g.nodes| then Ended(g', es, es', to, {}, Commit) else es' == es
    ensures Quiet(g', es') && (DriversMonotone(g) ==> DriversMonotone(g') && EnoughKept(g, es, g', es', list, to))
    ensures forall e :: 0 <= e < |es| ==> es'[e].now == es[e].now
    ensures to < |g.nodes| ==> SettledFrom(g', es', {}, to)
  {
    hide Reaches, Cum, Settled, ChildNeed, ConflictFree, Enough, DriversMonotone, DriversShare, NoCycle, KeptAt, Checked, AllCompatible, Below, EnoughUpTo;
    PreparedMoved(g, g', es, list, to);
    DriversSame(g, g');
    if to < |g.nodes| {
      CommitRests(g', es, es', to);
      SameNow(g', es, es');
    }
    MoveSafe(g, g', es, es', list, to);
  }

  lemma MoveSafe(g: Graph, g': Graph, es: Edges, es': Edges, list: set<nat>, to: nat)
    requires ShapeOk(g) && ShapeOk(g') && |es| == |es'| == |g.target| && to <= |g.nodes| && Moved(g, g', list, to) && NoCycle(g, list, to)
    requires forall e :: 0 <= e < |es| ==> es'[e].now == es[e].now
    requires forall e :: 0 <= e < |es| && (to < |g.nodes| ==> !Reaches(g, to, g.target[e])) ==> WriterOk(g, es, e)
    requires to < |g.nodes| ==> SettledFrom(g', es', {}, to)
    ensures ReadOnlySafe(g', es')
  {
    hide Reaches, Settled, NoCycle;
    forall e | 0 <= e < |es| ensures WriterOk(g', es', e) {
      if to < |g.nodes| {
        ReachesSelf(g', to);
        ReachesSelf(g, to);
        MovedReach(g, g', list, to, to, g'.target[e]);
        if Reaches(g', to, g'.target[e]) {
          SettledWriter(g', es', e);
        }
      }
    }
  }

  lemma EnoughRests(g: Graph, es: Edges, g': Graph, es': Edges, list: set<nat>, to: nat)
    requires ShapeOk(g) && ShapeOk(g') && |es| == |g.target| && |es'| == |g'.target| && to <= |g.nodes| == |g'.nodes|
    requires Quiet(g', es') && DriversMonotone(g') && EnoughKept(g, es, g', es', list, to)
    requires ForceKept(g, list, to) && AllEnoughUpTo(g, es, to)
    ensures AtRest(g', es')
  {
    hide Enough, KeptAt, EnoughUpTo, Quiet, DriversMonotone, ShapeOk;
  }

  // ---------------------------------------------------------------- bdrv_replace_child

  /** A change below n only leaves alone the parents of n and what is not below n. */
  lemma NotBelowSame(g: Graph, es: Edges, es': Edges, n: nat, m: nat)
    requires ShapeOk(g) && n < |g.nodes| && OnlyBelow(g, es, es', n, {})
    requires m == n || !Reaches(g, n, m)
    ensures Cum(g, es', {}, m) == Cum(g, es, {}, m)
    ensures m != n ==> (Settled(g, es', {}, m) <==> Settled(g, es, {}, m)) && (Enough(g, es', {}, m) <==> Enough(g, es, {}, m))
  {
    hide Cum, ChildNeed, Reaches, Accepts;
    forall e | 0 <= e < |es| && g.target[e] == m ensures es'[e] == es[e] {
      if Below(g, n, e) {
        BelowTarget(g, n, e);
      }
    }
    CumSame(g, es, es', {}, {}, m);
  }

  lemma NotBelowSelf(g: Graph, n: nat, m: nat)
    requires ShapeOk(g) && n < |g.nodes| && !Reaches(g, n, m)
    ensures m != n
  {
    ReachesSelf(g, n);
  }

  lemma CheckedSettles(g: Graph, es: Edges, es1: Edges, n: nat)
    requires ShapeOk(g) && n < |g.nodes| && |es| == |g.target| && OnlyBelow(g, es, es1, n, {})
    requires Checked(g, es1, {}, n, Cum(g, es, {}, n))
    ensures SettledFrom(g, es1, {}, n) && Carries(g, es1, n, Cum(g, es, {}, n))
  {
    hide Reaches, Cum, ChildNeed, Accepts;
    NotBelowSame(g, es, es1, n, n);
  }

  /** The part of bdrv_replace_child for the node that has lost a parent, up to its assertion that
      nothing is tightened if that does not hold.  In a graph at rest it does, and no edge needs more than
      before. */
  method Loosen(b: Blocks, n: nat) returns (held: bool, why: Result)
    requires Sound(b) && n < |b.nodes|
    modifies b`edges
    ensures b.Shape() && LoosenFacts(b.G(), old(b.edges), n, held, why)
    ensures held ==> Sound(b) && OnlyBelow(b.G(), old(b.edges), b.edges, n, {})
    ensures held ==> b.edges == old(b.edges) || SettledFrom(b.G(), b.edges, {}, n)
    ensures held && Willing(b.G(), old(b.edges), n) && !why.Refused? ==> SettledFrom(b.G(), b.edges, {}, n)
    ensures held ==> forall m :: 0 <= m < |b.nodes| && Enough(b.G(), old(b.edges), {}, m) ==> Enough(b.G(), b.edges, {}, m)
    ensures DriversMonotone(b.G()) && EnoughFrom(b.G(), old(b.edges), n) ==> AllLooser(old(b.edges), b.edges)
  {
    hide Reaches, Cum, Settled, ChildNeed, ConflictFree, Enough, DriversMonotone, DriversShare, SettledFrom, BackedUp, Carries, SettledBelow, NodeFacts, LoosenFacts, Willing, EnoughFrom;
    ghost var g, es := b.G(), b.edges;
    var cum := b.CumulativePerm(n);
    NothingIgnored(g, n);
    CumShares(g, es, {}, n, NO_NEED);
    var tighten; ghost var log;
    why, tighten, log := b.CheckPerm(n, cum, {}, true, {});
    ghost var es1 := b.edges;
    LoosenExact(g, es, es1, n, why, tighten, log);
    LoosensAll(g, es, es1, n, why, tighten, log);
    held := tighten == false;
    if !held {
      return;
    }
    if !why.Ok? {
      b.AbortPermUpdate(n);
      AbortUndoes(g, es, es1, b.edges, n, {});
    } else {
      CheckedSettles(g, es, es1, n);
      b.SetPerm(n, cum);
      LoosenEnds(g, es, es1, b.edges, n);
    }
  }

  lemma LoosensAll(g: Graph, es: Edges, es1: Edges, n: nat, r: Result, tighten: bool, log: seq<Visit>)
    requires ShapeOk(g) && |es| == |es1| == |g.target| && n < |g.nodes|
    requires NodeFacts(g, es, es1, {}, n, Cum(g, es, {}, n), true, r, tighten, log)
    ensures DriversMonotone(g) && EnoughFrom(g, es, n) ==> !tighten && AllLooser(es, es1)
  {
    hide Cum, EnoughFrom, DriversMonotone, PartLog, LogEnds, LastRefuses, TightLog, SteadyCheck, Calm, AllLooser;
  }

  lemma LoosenEnds(g: Graph, es: Edges, es1: Edges, es2: Edges, n: nat)
    requires Quiet(g, es) && n < |g.nodes| && Undoable(g, es, es1, n, {})
    requires ConflictFree(g, es1, {}) && SettledFrom(g, es1, {}, n) && Ended(g, es1, es2, n, {}, Commit)
    ensures Quiet(g, es2) && OnlyBelow(g, es, es2, n, {}) && SettledFrom(g, es2, {}, n)
    ensures forall m :: 0 <= m < |g.nodes| && Enough(g, es, {}, m) ==> Enough(g, es2, {}, m)
    ensures AllLooser(es, es1) ==> AllLooser(es, es2)
  {
    hide Reaches, Cum, Settled, ChildNeed, Enough, ConflictFree, DriversShare, ReadOnlySafe;
    SameNow(g, es1, es2);
    SafeAfter(g, es, es2, n, {});
    forall m | 0 <= m < |g.nodes| && Enough(g, es, {}, m) ensures Enough(g, es2, {}, m) {
      if Reaches(g, n, m) {
        SettledIsEnough(g, es2, m);
      } else {
        NotBelowSelf(g, n, m);
        NotBelowSame(g, es, es2, n, m);
      }
    }
  }

  /** bdrv_replace_child: edge c, for which `to` has been checked, leads to `to` afterwards.  Its
      assertion holds if every node has what it needs and none loses forced sharing. */
  method ReplaceChild(b: Blocks, c: nat, to: nat) returns (held: bool, why: Result)
    requires b.Shape() && c < |b.target| && to <= |b.nodes| && !b.frozen[c]
    requires ShareUnchanged(b.edges) && DriversShare(b.G()) && Prepared(b.G(), b.edges, {c}, to)
    modifies b`target, b`parents, b`rank, b`edges
    ensures b.Shape() && Moved(old(b.G()), b.G(), {c}, to)
    ensures held ==> Sound(b)
    ensures old(b.target[c]) >= |b.nodes| ==>
              && held && (forall e :: 0 <= e < |b.edges| ==> b.edges[e].now == old(b.edges)[e].now)
              && (to < |b.nodes| ==> SettledFrom(b.G(), b.edges, {}, to))
    ensures old(b.target[c]) < |b.nodes| ==> LoosenFacts(b.G(), old(b.edges), old(b.target[c]), held, why)
    ensures DriversMonotone(old(b.G())) && ForceKept(old(b.G()), {c}, to) && AllEnoughUpTo(old(b.G()), old(b.edges), to) ==>
              held && Resting(b) && AllLooser(old(b.edges), b.edges)
  {
    hide Reaches, Cum, Settled, ChildNeed, ConflictFree, Enough, DriversMonotone, DriversShare, Carries, SettledBelow, Prepared, NoCycle, ForceKept, Ready, Checked;
    hide LoosenFacts, EnoughKept, AllEnoughUpTo, EnoughFrom;
    ghost var g, es := b.G(), b.edges;
    var from := b.target[c];
    held, why := true, Ok;
    PreparedNoCycle(g, es, {c}, to);
    MoveEdge(b, c, to);
    PreparedMoved(g, b.G(), es, {c}, to);
    if to < |b.nodes| {
      var cum := b.CumulativePerm(to);
      SettledCarries(b.G(), es, es, to);
      b.SetPerm(to, cum);
    }
    ghost var es1 := b.edges;
    MoveEnds(g, b.G(), es, es1, {c}, to);
    ghost var rests := DriversMonotone(g) && ForceKept(g, {c}, to) && AllEnoughUpTo(g, es, to);
    if rests {
      EnoughRests(g, es, b.G(), es1, {c}, to);
    }
    if from < |b.nodes| {
      if rests {
        RestEnough(b.G(), es1, from);
      }
      held, why := Loosen(b, from);
      LoosenSameNow(b.G(), es1, es, from, held, why);
      if rests {
        LoosenRests(b.G(), es, es1, b.edges, from, held, why);
      }
    }
  }

  lemma LoosenRests(g: Graph, es: Edges, es1: Edges, es2: Edges, n: nat, held: bool, why: Result)
    requires AtRest(g, es1) && n < |g.nodes| && EnoughFrom(g, es1, n) && |es| == |es1| == |es2|
    requires LoosenFacts(g, es, n, held, why) && forall e :: 0 <= e < |es| ==> es1[e].now == es[e].now
    requires held ==> Quiet(g, es2) && forall m :: 0 <= m < |g.nodes| && Enough(g, es1, {}, m) ==> Enough(g, es2, {}, m)
    requires AllLooser(es1, es2)
    ensures held && AtRest(g, es2) && AllLooser(es, es2)
  {
    hide Enough, EnoughFrom, DriversMonotone, ConflictFree, DriversShare, ShareUnchanged, Stale, Willing, HarmlessFrom;
    SameNowSame(g, es1, es, n);
  }

  /** A check of `to` for the edges of the list prepares their move. */
  lemma CheckPrepares(g: Graph, es: Edges, es1: Edges, list: set<nat>, to: nat)
    requires Quiet(g, es) && to < |g.nodes| && NoCycle(g, list, to) && Undoable(g, es, es1, to, {})
    requires forall e, f :: 0 <= e < |es| && 0 <= f < |es| && e != f && e in list && f in list ==> es[e].now.perm <= es[f].now.shared
    requires AllCompatible(g, es, list, to, NeedOf(es, list))
    requires Checked(g, es1, list, to, Join(NeedOf(es, list), Cum(g, es, list, to)))
    ensures Prepared(g, es1, list, to)
  {
    hide Reaches, Cum, Settled, ChildNeed, ConflictFree, DriversShare, NeedOf, Carries, SettledBelow, BackedUp;
    forall e | 0 <= e < |es| && e in list ensures es1[e] == es[e] {
      assert g.parent[e].Some? ==> !Below(g, to, e);
    }
    NeedSame(es, es1, list);
    forall e | 0 <= e < |es| && g.target[e] == to ensures es1[e] == es[e] {
      if Below(g, to, e) {
        BelowTarget(g, to, e);
      }
    }
    CumSame(g, es, es1, list, list, to);
    forall e | 0 <= e < |es| && !Reaches(g, to, g.target[e]) ensures WriterOk(g, es1, e) {
      assert WriterOk(g, es, e);
      if Below(g, to, e) {
        BelowTarget(g, to, e);
      }
    }
  }

  lemma CheckEnough(g: Graph, es: Edges, es1: Edges, to: nat)
    requires ShapeOk(g) && to < |g.nodes| && OnlyBelow(g, es, es1, to, {})
    ensures forall m :: 0 <= m < |g.nodes| && Enough(g, es, {}, m) ==> EnoughUpTo(g, es1, to, m)
  {
    hide Reaches, Enough, Below;
    forall m | 0 <= m < |g.nodes| && Enough(g, es, {}, m) ensures EnoughUpTo(g, es1, to, m) {
      if !Reaches(g, to, m) {
        NotBelowSelf(g, to, m);
        NotBelowSame(g, es, es1, to, m);
      }
    }
  }

  lemma NeedSame(es: Edges, es1: Edges, list: set<nat>)
    requires |es| == |es1| && forall e :: 0 <= e < |es| && e in list ==> es1[e] == es[e]
    ensures NeedOf(es1, list) == NeedOf(es, list)
  {
    forall p: Perm ensures SomeUses(es1, list, p) == SomeUses(es, list, p) && AllShare(es1, list, p) == AllShare(es, list, p) {
    }
  }

  lemma NeedOfOne(es: Edges, c: nat)
    requires c < |es|
    ensures NeedOf(es, {c}) == es[c].now
  {
    forall p: Perm ensures SomeUses(es, {c}, p) == (p in es[c].now.perm) && AllShare(es, {c}, p) == (p in es[c].now.shared) {
    }
  }

  /** bdrv_root_attach_child, for an edge that leads nowhere yet: either it is attached, or there is a cause
      and nothing changes.  A node without children and check of its own takes the edge if and only if its
      need conflicts with no parent and the node can be used like this. */
  method RootAttach(b: Blocks, c: nat, to: nat) returns (r: Result, ghost log: seq<Visit>)
    requires Sound(b) && c < |b.target| && b.target[c] == |b.nodes| && to < |b.nodes| && !b.frozen[c]
    modifies b`target, b`parents, b`rank, b`edges
    ensures Sound(b) && (old(Resting(b)) ==> Resting(b))
    ensures r.Ok? ==>
              && Moved(old(b.G()), b.G(), {c}, to) && SettledFrom(b.G(), b.edges, {}, to) && b.edges[c].now == old(b.edges[c].now)
              && WritersFit(b.G(), b.edges, {}, to, Cum(b.G(), b.edges, {}, to))
    ensures !r.Ok? ==>
              && b.edges == old(b.edges) && b.G() == old(b.G())
              && Cause(old(b.G()), old(b.edges), {c}, {c}, to, old(b.edges[c].now), r, log)
    ensures !AllCompatible(old(b.G()), old(b.edges), {c}, to, old(b.edges[c].now)) ==> r.Conflict?
    ensures Leaf(b.nodes[to]) ==>
              (r.Ok? <==>
                 && AllCompatible(old(b.G()), old(b.edges), {c}, to, old(b.edges[c].now))
                 && Fits(b.nodes[to], Join(old(b.edges[c].now), Cum(old(b.G()), old(b.edges), {c}, to))))
  {
    hide Reaches, Cum, Settled, ChildNeed, ConflictFree, Enough, DriversMonotone, DriversShare, Carries, SettledBelow, AllCompatible, Checked, SettledFrom;
    hide ForceKept, UpdateFacts, LoosenFacts, EnoughUpTo, Cause, WritersFit, Fits, ReadOnlySafe;
    ghost var g, es := b.G(), b.edges;
    RootEdge(g, es, c, to);
    var tighten;
    r, tighten, log := b.CheckUpdatePerm(to, b.edges[c].now, {c}, false, {c});
    ghost var es1 := b.edges;
    if Leaf(b.nodes[to]) {
      LeafReason(g, es1, to, r);
    }
    if !r.Ok? {
      UpdateCause(g, es, es1, {c}, {c}, to, es[c].now, false, r, tighten, log);
      b.AbortPermUpdate(to);
      AbortUndoes(g, es, es1, b.edges, to, {});
      return;
    }
    NeedOfOne(es, c);
    CheckPrepares(g, es, es1, {c}, to);
    CheckEnough(g, es, es1, to);
    var held, _ := ReplaceChild(b, c, to);
    assert held;
    SettledFit(b.G(), b.edges, {}, to);
  }

  lemma RootEdge(g: Graph, es: Edges, c: nat, to: nat)
    requires Quiet(g, es) && c < |g.target| && g.target[c] == |g.nodes| && to < |g.nodes|
    ensures g.parent[c] == None && !Below(g, to, c)
    ensures Ready(g, es, {c}) && IgnoreBelow(g, to, {c}, {c}) && NoCycle(g, {c}, to) && ForceKept(g, {c}, to)
  {
    hide Reaches;
    assert g.parent[c].Some? ==> EdgeOk(g, c);
  }

  // ---------------------------------------------------------------- bdrv_detach_child

  /** g' is g after edge c has been taken out of the children of its node. */
  ghost predicate Dropped(g: Graph, g': Graph, c: nat) {
    && c < |g.parent| && g'.target == g.target && g'.rank == g.rank && g'.parent == g.parent[c := None]
    && |g'.nodes| == |g.nodes|
    && forall n :: 0 <= n < |g.nodes| ==>
         g'.nodes[n] == if g.parent[c] == Some(n) then g.nodes[n].(children := Without(g.nodes[n].children, c)) else g.nodes[n]
  }

  lemma DroppedShape(g: Graph, g': Graph, c: nat)
    requires ShapeOk(g) && Dropped(g, g', c)
    ensures ShapeOk(g')
  {
    forall n | 0 <= n < |g.nodes|
      ensures Distinct(g'.nodes[n].children)
      ensures forall e: nat :: e in g'.nodes[n].children <==> e in g.nodes[n].children && e != c
    {
      WithoutIs(g.nodes[n].children, c);
      assert Distinct(g.nodes[n].children);
    }
    forall e | 0 <= e < |g'.parent| && g'.parent[e].Some? ensures EdgeOk(g', e) {
      assert EdgeOk(g, e);
    }
    forall n, i | 0 <= n < |g'.nodes| && 0 <= i < |g'.nodes[n].children|
      ensures g'.nodes[n].children[i] < |g'.target| && g'.parent[g'.nodes[n].children[i]] == Some(n)
    {
      assert g'.nodes[n].children[i] in g'.nodes[n].children;
    }
  }

  lemma DroppedQuiet(g: Graph, g': Graph, es: Edges, c: nat)
    requires Quiet(g, es) && Dropped(g, g', c) && ShapeOk(g')
    ensures Quiet(g', es) && (AtRest(g, es) ==> AtRest(g', es))
  {
    hide DriversMonotone, DriversShare, Cum, ShapeOk;
    DriversSame(g, g');
    forall e | 0 <= e < |es| ensures WriterOk(g', es, e) {
      assert WriterOk(g, es, e);
    }
    if AtRest(g, es) {
      forall m | 0 <= m < |g.nodes| ensures Enough(g', es, {}, m) {
        DroppedEnough(g, g', es, c, m);
      }
    }
  }

  lemma DroppedEnough(g: Graph, g': Graph, es: Edges, c: nat, m: nat)
    requires ShapeOk(g) && ShapeOk(g') && |es| == |g.target| && Dropped(g, g', c) && Enough(g, es, {}, m)
    ensures Enough(g', es, {}, m)
  {
    hide Cum;
    SameTargets(g, g', es, m);
    forall e | 0 <= e < |es| && g'.parent[e] == Some(m)
      ensures EdgeOk(g', e) && Looser(ChildNeed(g', m, e, Cum(g', es, {}, m)), es[e].now)
    {
      assert EdgeOk(g, e) && EdgeOk(g', e);
    }
  }

  lemma SameTargets(g: Graph, g': Graph, es: Edges, m: nat)
    requires |es| == |g.target| && g'.target == g.target
    ensures Cum(g', es, {}, m) == Cum(g, es, {}, m)
  {
    forall p: Perm ensures Used(g', es, {}, m, p) == Used(g, es, {}, m, p) && Shared(g', es, {}, m, p) == Shared(g, es, {}, m, p) {
    }
  }

  /** QLIST_SAFE_REMOVE of edge c from the children of its node. */
  method DropEdge(b: Blocks, c: nat)
    requires Sound(b) && c < |b.target|
    modifies b`nodes, b`parent
    ensures Sound(b) && Dropped(old(b.G()), b.G(), c) && (old(Resting(b)) ==> Resting(b))
  {
    hide Quiet, AtRest;
    ghost var g := b.G();
    if b.parent[c].Some? {
      var n := b.parent[c].value;
      assert EdgeOk(g, c);
      b.nodes := b.nodes[n := b.nodes[n].(children := Without(b.nodes[n].children, c))];
      b.parent := b.parent[c := None];
    }
    assert Dropped(g, b.G(), c);
    DroppedShape(g, b.G(), c);
    DroppedQuiet(g, b.G(), b.edges, c);
    DroppedParents(g, b.G(), b.parents);
  }

  lemma DroppedParents(g: Graph, g': Graph, parents: seq<seq<nat>>)
    requires g'.target == g.target && |g'.nodes| == |g.nodes| == |parents| && forall n :: 0 <= n < |parents| ==> ParentList(g, parents[n], n)
    ensures forall n :: 0 <= n < |parents| ==> ParentList(g', parents[n], n)
  {
  }

  /** An edge that does not belong to a node may always be made to lead nowhere. */
  lemma LeavesNode(g: Graph, es: Edges, c: nat)
    requires Quiet(g, es) && c < |es| && g.parent[c] == None
    ensures Prepared(g, es, {c}, |g.nodes|) && ForceKept(g, {c}, |g.nodes|)
    ensures AtRest(g, es) ==> AllEnoughUpTo(g, es, |g.nodes|)
  {
    hide Reaches, Enough, DriversMonotone, DriversShare;
  }

  /** bdrv_detach_child: edge c leaves its node, if it belongs to one, and leads nowhere.  A graph at
      rest stays at rest, and no edge needs more than before. */
  method DetachChild(b: Blocks, c: nat) returns (held: bool, why: Result)
    requires Sound(b) && c < |b.target| && !b.frozen[c]
    modifies b`nodes, b`parent, b`target, b`parents, b`rank, b`edges
    ensures b.Shape() && |b.nodes| == old(|b.nodes|) && b.target == old(b.target)[c := |b.nodes|]
    ensures exists g :: Dropped(old(b.G()), g, c) && Moved(g, b.G(), {c}, |b.nodes|)
    ensures held ==> Sound(b)
    ensures old(b.target[c]) < |b.nodes| ==> LoosenFacts(b.G(), old(b.edges), old(b.target[c]), held, why)
    ensures old(Resting(b)) ==> held && Resting(b) && AllLooser(old(b.edges), b.edges)
  {
    hide Reaches, Enough, LoosenFacts, DriversMonotone, DriversShare, ConflictFree, ForceKept, Prepared, AllEnoughUpTo, NoBackups;
    DropEdge(b, c);
    ghost var g := b.G();
    assert Dropped(old(b.G()), g, c);
    LeavesNode(g, b.edges, c);
    held, why := ReplaceChild(b, c, |b.nodes|);
    assert Moved(g, b.G(), {c}, |b.nodes|);
  }

  // ---------------------------------------------------------------- should_update_child

  /** Every edge of the nodes in `done` leads to a node in found, and none is c. */
  ghost predicate Explored(g: Graph, found: set<nat>, done: set<nat>, c: nat)
    requires ShapeOk(g)
  {
    forall e :: 0 <= e < |g.parent| && g.parent[e].Some? && g.parent[e].value in done ==> e != c && g.target[e] in found
  }

  lemma {:induction false} ExploredAll(g: Graph, found: set<nat>, c: nat, n: nat, m: nat)
    requires ShapeOk(g) && n < |g.nodes| && Explored(g, found, found, c) && n in found && Reaches(g, n, m)
    ensures m in found
    decreases g.rank[n]
  {
    if n != m {
      var e := ReachesDown(g, n, m);
      ExploredAll(g, found, c, g.target[e], m);
    }
  }

  function FirstNodes(k: nat): (r: set<nat>)
    ensures forall n: nat :: n in r <==> n < k
  {
    if k == 0 then {} else FirstNodes(k - 1) + {k - 1}
  }

  /** One round of the search: look at the edges of v, until c is met. */
  method Explore(b: Blocks, v: nat, c: nat, found0: set<nat>, queue0: seq<nat>) returns (hit: bool, found: set<nat>, queue: seq<nat>)
    requires b.Shape() && v < |b.nodes|
    ensures found0 <= found && queue0 <= queue && (|queue| > |queue0| ==> found != found0)
    ensures forall n :: n in found ==> n in found0 || n in queue
    ensures forall n :: n in queue ==> n in queue0 || n in found
    ensures forall n :: n in found && n !in found0 ==> n < |b.nodes| && Reaches(b.G(), v, n)
    ensures hit ==> c < |b.parent| && b.parent[c] == Some(v)
    ensures !hit ==> forall j :: 0 <= j < |b.nodes[v].children| ==> b.nodes[v].children[j] != c && b.target[b.nodes[v].children[j]] in found
  {
    hide Reaches;
    ghost var g := b.G();
    hit, found, queue := false, found0, queue0;
    for i := 0 to |b.nodes[v].children|
      invariant found0 <= found && queue0 <= queue && (|queue| > |queue0| ==> found != found0)
      invariant forall n :: n in found ==> n in found0 || n in queue
      invariant forall n :: n in queue ==> n in queue0 || n in found
      invariant forall n :: n in found && n !in found0 ==> n < |b.nodes| && Reaches(g, v, n)
      invariant !hit
      invariant forall j :: 0 <= j < i ==> b.nodes[v].children[j] != c && b.target[b.nodes[v].children[j]] in found
    {
      var c2 := b.nodes[v].children[i];
      ReachesTarget(g, c2);
      if c2 == c {
        hit := true;
        break;
      }
      if b.target[c2] !in found {
        queue := queue + [b.target[c2]];
        found := found + {b.target[c2]};
      }
    }
  }

  /** should_update_child: no exactly if the edge is to stay where it is or belongs to `to` or to a node
      below `to`. */
  method ShouldUpdateChild(b: Blocks, c: nat, to: nat) returns (ret: bool)
    requires b.Shape() && c < |b.target| && to < |b.nodes|
    ensures ret <==> !b.stay[c] && !Below(b.G(), to, c)
  {
    hide Reaches;
    if b.stay[c] {
      return false;
    }
    ghost var g := b.G();
    ghost var done: set<nat> := {};
    ReachesSelf(g, to);
    ret := true;
    var found: set<nat>, queue: seq<nat> := {to}, [to];
    while queue != []
      invariant to in found && done <= found && (forall n :: n in queue ==> n in found)
      invariant forall n :: n in found ==> n in done || n in queue
      invariant forall n :: n in found ==> n < |b.nodes| && Reaches(g, to, n)
      invariant if ret then Explored(g, found, done, c) else Below(g, to, c)
      decreases FirstNodes(|b.nodes|) - found, |queue|
    {
      var v := queue[0];
      ghost var rest, before := queue[1..], found;
      assert queue == [v] + rest && v in queue;
      var hit;
      hit, found, queue := Explore(b, v, c, found, queue[1..]);
      ExploreStep(g, to, v, before, found);
      if hit {
        ret := false;
      }
      if ret {
        ExploredMore(g, before, found, done, v, c);
      }
      done := done + {v};
    }
    if ret && Below(g, to, c) {
      assert done == found;
      ExploredAll(g, found, c, to, g.parent[c].value);
    }
  }

  lemma ExploreStep(g: Graph, to: nat, v: nat, found: set<nat>, found': set<nat>)
    requires ShapeOk(g) && to < |g.nodes| && v < |g.nodes| && Reaches(g, to, v)
    requires forall n :: n in found ==> n < |g.nodes| && Reaches(g, to, n)
    requires forall n :: n in found' && n !in found ==> n < |g.nodes| && Reaches(g, v, n)
    ensures forall n :: n in found' ==> n < |g.nodes| && Reaches(g, to, n)
  {
    hide Reaches;
    forall n | n in found' && n !in found ensures Reaches(g, to, n) {
      ReachesTrans(g, to, v, n);
    }
  }

  lemma ExploredMore(g: Graph, found: set<nat>, found': set<nat>, done: set<nat>, v: nat, c: nat)
    requires ShapeOk(g) && v < |g.nodes| && found <= found' && Explored(g, found, done, c)
    requires forall j :: 0 <= j < |g.nodes[v].children| ==> g.nodes[v].children[j] != c && g.target[g.nodes[v].children[j]] in found'
    ensures Explored(g, found', done + {v}, c)
  {
    forall e | 0 <= e < |g.parent| && g.parent[e] == Some(v) ensures e != c && g.target[e] in found' {
      assert EdgeOk(g, e);
    }
  }

  // ---------------------------------------------------------------- bdrv_replace_node

  datatype Replaced = Done | Frozen(edge: nat) | Failed(why: Result)

  /** The edges to `from` that bdrv_replace_node moves to `to`. */
  ghost predicate Moves(g: Graph, stay: seq<bool>, from: nat, to: nat, e: nat)
    requires ShapeOk(g) && |stay| == |g.target| && to < |g.nodes|
  {
    e < |g.target| && g.target[e] == from && !stay[e] && !Below(g, to, e)
  }

  ghost predicate MoveList(g: Graph, stay: seq<bool>, from: nat, to: nat, list: set<nat>)
    requires ShapeOk(g) && |stay| == |g.target| && to < |g.nodes|
  {
    forall e: nat :: e in list <==> Moves(g, stay, from, to, e)
  }

  lemma NeedOfMore(es: Edges, list: set<nat>, c: nat)
    requires c < |es|
    ensures NeedOf(es, list + {c}) == Join(NeedOf(es, list), es[c].now)
  {
    forall p: Perm
      ensures SomeUses(es, list + {c}, p) <==> SomeUses(es, list, p) || p in es[c].now.perm
      ensures AllShare(es, list + {c}, p) <==> AllShare(es, list, p) && p in es[c].now.shared
    {
      if SomeUses(es, list + {c}, p) && p !in es[c].now.perm {
        var e :| 0 <= e < |es| && e in list + {c} && p in es[e].now.perm;
        assert e in list;
      }
      if SomeUses(es, list, p) {
        var e :| 0 <= e < |es| && e in list && p in es[e].now.perm;
        assert e in list + {c};
      }
      if AllShare(es, list + {c}, p) {
        assert c in list + {c};
        forall e | 0 <= e < |es| && e in list ensures p in es[e].now.shared {
          assert e in list + {c};
        }
      }
    }
  }

  lemma NeedOfNone(es: Edges)
    ensures NeedOf(es, {}) == NO_NEED
  {
    forall p: Perm { AllPerms(p); }
    assert forall p :: AllShare(es, {}, p) && !SomeUses(es, {}, p);
  }

  function Elements(q: seq<nat>): set<nat> {
    set e | e in q
  }

  /** The first loop of bdrv_replace_node. */
  method CollectParents(b: Blocks, from: nat, to: nat) returns (stuck: Option<nat>, list: seq<nat>, need: Need)
    requires b.Shape() && from < |b.nodes| && to < |b.nodes|
    ensures stuck.Some? ==> Moves(b.G(), b.stay, from, to, stuck.value) && b.frozen[stuck.value]
    ensures stuck.None? ==> MoveList(b.G(), b.stay, from, to, Elements(list)) && need == NeedOf(b.edges, Elements(list))
    ensures stuck.None? ==> forall i :: 0 <= i < |list| ==> list[i] < |b.target| && !b.frozen[list[i]]
  {
    hide Reaches, Below, NeedOf;
    ghost var g := b.G();
    stuck, list, need := None, [], NO_NEED;
    NeedOfNone(b.edges);
    assert Elements(list) == {};
    var all := b.parents[from];
    for i := 0 to |all|
      invariant need == NeedOf(b.edges, Elements(list))
      invariant forall j :: 0 <= j < |list| ==> Moves(g, b.stay, from, to, list[j]) && !b.frozen[list[j]]
      invariant forall j :: 0 <= j < i && Moves(g, b.stay, from, to, all[j]) ==> all[j] in list
    {
      var c := all[i];
      var update := ShouldUpdateChild(b, c, to);
      if update {
        if b.frozen[c] {
          return Some(c), list, need;
        }
        NeedOfMore(b.edges, Elements(list), c);
        ghost var before := list;
        list := [c] + list;
        assert Elements(list) == Elements(before) + {c};
        need := Join(need, b.edges[c].now);
      }
    }
  }

  /** The second loop of bdrv_replace_node. */
  method MoveEdges(b: Blocks, list: seq<nat>, to: nat)
    requires b.Shape() && to < |b.nodes| && NoCycle(b.G(), Elements(list), to)
    requires forall i :: 0 <= i < |list| ==> list[i] < |b.target| && !b.frozen[list[i]]
    modifies b`target, b`parents, b`rank
    ensures b.Shape() && Moved(old(b.G()), b.G(), Elements(list), to)
  {
    hide Reaches;
    ghost var g := b.G();
    ghost var moved: set<nat> := {};
    for i := 0 to |list|
      invariant b.Shape() && Moved(g, b.G(), moved, to) && moved == Elements(list[..i])
    {
      assert list[..i + 1] == list[..i] + [list[i]];
      MoveOn(g, b.G(), moved, list[i], to);
      MoveEdge(b, list[i], to);
      moved := moved + {list[i]};
    }
    assert list[..|list|] == list;
  }

  /** A move that makes no cycle makes none after others have moved to the same node. */
  lemma MoveOn(g: Graph, g': Graph, moved: set<nat>, c: nat, to: nat)
    requires ShapeOk(g) && ShapeOk(g') && to < |g.nodes| && c < |g.target| && Moved(g, g', moved, to)
    requires NoCycle(g, moved, to) && NoCycle(g, {c}, to)
    ensures NoCycle(g', {c}, to)
  {
    hide Reaches;
    if g.parent[c].Some? {
      ReachesSelf(g, to);
      assert !Below(g, to, c);
      MovedReach(g, g', moved, to, to, g.parent[c].value);
    }
  }

  /** `to` can take over the edges of the list. */
  ghost predicate CanTake(g: Graph, es: Edges, list: set<nat>, to: nat)
    requires ShapeOk(g) && |es| == |g.target| && to < |g.nodes|
  {
    && AllCompatible(g, es, list, to, NeedOf(es, list))
    && Fits(g.nodes[to], Join(NeedOf(es, list), Cum(g, es, list, to)))
  }

  /** bdrv_replace_node: either every edge to `from` that may be moved leads to `to`, or there is a cause
      and nothing changes.  The graph has no cycles afterwards, what is below `to` is the same as before, the
      parents of every node get along, and nodes that have what they need keep it unless they lose forced
      sharing. */
  method ReplaceNode(b: Blocks, from: nat, to: nat) returns (r: Replaced, ghost list: set<nat>, ghost log: seq<Visit>)
    requires Sound(b) && from < |b.nodes| && to < |b.nodes|
    modifies b`target, b`parents, b`rank, b`edges
    ensures MoveList(old(b.G()), b.stay, from, to, list) && NoCycle(old(b.G()), list, to)
    ensures Sound(b)
    ensures r.Done? ==> Moved(old(b.G()), b.G(), list, to) && SettledFrom(b.G(), b.edges, {}, to)
    ensures r.Done? ==> OnlyBelow(old(b.G()), old(b.edges), b.edges, to, {})
    ensures r.Done? ==> WritersFit(b.G(), b.edges, {}, to, Cum(b.G(), b.edges, {}, to))
    ensures r.Done? && DriversMonotone(old(b.G())) ==>
              forall m :: 0 <= m < |b.nodes| && KeptAt(old(b.G()), list, to, m) && Enough(old(b.G()), old(b.edges), {}, m) ==>
                Enough(b.G(), b.edges, {}, m)
    ensures r.Done? && old(Resting(b)) && ForceKept(old(b.G()), list, to) ==> Resting(b)
    ensures !r.Done? ==> b.edges == old(b.edges) && b.G() == old(b.G()) && b.parents == old(b.parents)
    ensures r.Frozen? <==> exists e :: e in list && b.frozen[e]
    ensures r.Done? ==> CanTake(old(b.G()), old(b.edges), list, to)
    ensures r.Failed? ==> Cause(old(b.G()), old(b.edges), list, list, to, NeedOf(old(b.edges), list), r.why, log)
    ensures !r.Frozen? && Leaf(b.nodes[to]) ==> (r.Done? <==> CanTake(old(b.G()), old(b.edges), list, to))
  {
    hide Reaches, Cum, Settled, ChildNeed, ConflictFree, Enough, DriversMonotone, DriversShare, Carries, SettledBelow, AllCompatible, Checked, SettledFrom, NeedOf, ForceKept;
    hide KeptAt, UpdateFacts, EnoughKept, CanTake, NoCycle, Moved, Cause, WritersFit, Fits, ReadOnlySafe;
    ghost var g, es := b.G(), b.edges;
    list := set e | 0 <= e < |b.target| && Moves(g, b.stay, from, to, e);
    log := [];
    MoveListFacts(g, es, b.stay, from, to, list);
    var stuck, moving, need := CollectParents(b, from, to);
    if stuck.Some? {
      r := Frozen(stuck.value);
      return;
    }
    assert Elements(moving) == list;
    var why, tighten;
    why, tighten, log := b.CheckUpdatePerm(to, need, Elements(moving), false, list);
    ghost var es1 := b.edges;
    CheckSays(g, es, es1, list, to, why);
    if !why.Ok? {
      UpdateCause(g, es, es1, list, list, to, need, false, why, tighten, log);
      b.AbortPermUpdate(to);
      AbortUndoes(g, es, es1, b.edges, to, {});
      r := Failed(why);
      return;
    }
    CheckPrepares(g, es, es1, list, to);
    MoveEdges(b, moving, to);
    PreparedMoved(g, b.G(), es1, list, to);
    var cum := b.CumulativePerm(to);
    SettledCarries(b.G(), es1, es1, to);
    b.SetPerm(to, cum);
    MoveEnds(g, b.G(), es1, b.edges, list, to);
    SettledFit(b.G(), b.edges, {}, to);
    ReplaceEnds(g, b.G(), es, es1, b.edges, list, to);
    r := Done;
  }

  /** What the outcome of the check says. */
  lemma CheckSays(g: Graph, es: Edges, es1: Edges, list: set<nat>, to: nat, why: Result)
    requires ShapeOk(g) && |es| == |es1| == |g.target| && to < |g.nodes| && Reason(g, es1, to, why)
    requires why.Conflict? && g.target[why.edge] == to <==> !AllCompatible(g, es, list, to, NeedOf(es, list))
    requires AllCompatible(g, es, list, to, NeedOf(es, list)) ==>
               (why != ReadOnly(to) && why != Unaligned(to) <==> Fits(g.nodes[to], Join(NeedOf(es, list), Cum(g, es, list, to))))
    ensures why.Ok? ==> CanTake(g, es, list, to)
    ensures Leaf(g.nodes[to]) ==> (why.Ok? <==> CanTake(g, es, list, to))
  {
    hide Reaches, Cum, NeedOf, AllCompatible, Fits;
    if Leaf(g.nodes[to]) {
      LeafReason(g, es1, to, why);
    }
  }

  lemma ReplaceEnds(g: Graph, g': Graph, es: Edges, es1: Edges, es2: Edges, list: set<nat>, to: nat)
    requires Quiet(g, es) && ShapeOk(g') && to < |g.nodes| == |g'.nodes| && Moved(g, g', list, to) && NoCycle(g, list, to)
    requires OnlyBelow(g, es, es1, to, {}) && Ended(g', es1, es2, to, {}, Commit) && Quiet(g', es2)
    requires DriversMonotone(g) ==> DriversMonotone(g') && EnoughKept(g, es1, g', es2, list, to)
    ensures OnlyBelow(g, es, es2, to, {})
    ensures DriversMonotone(g) ==>
              forall m :: 0 <= m < |g.nodes| && KeptAt(g, list, to, m) && Enough(g, es, {}, m) ==> Enough(g', es2, {}, m)
    ensures AtRest(g, es) && ForceKept(g, list, to) ==> AtRest(g', es2)
  {
    hide Reaches, Enough, DriversMonotone, ConflictFree, DriversShare, ShareUnchanged, KeptAt, EnoughUpTo, NoBackups;
    SubtreeSame(g, g', list, to);
    CheckEnough(g, es, es1, to);
    forall e | 0 <= e < |es| && !Below(g, to, e) ensures es2[e] == es[e] {
      assert !Below(g', to, e);
    }
  }

  lemma MoveListFacts(g: Graph, es: Edges, stay: seq<bool>, from: nat, to: nat, list: set<nat>)
    requires Quiet(g, es) && |stay| == |g.target| && from < |g.nodes| && to < |g.nodes| && MoveList(g, stay, from, to, list)
    ensures Ready(g, es, list) && NoCycle(g, list, to) && IgnoreBelow(g, to, list, list)
    ensures WriteUnchanged in NeedOf(es, list).shared
    ensures forall e, f :: 0 <= e < |es| && 0 <= f < |es| && e != f && e in list && f in list ==> es[e].now.perm <= es[f].now.shared
  {
    hide Reaches, Below;
    assert AllShare(es, list, WriteUnchanged);
  }

  lemma SubtreeSame(g: Graph, g': Graph, list: set<nat>, to: nat)
    requires ShapeOk(g) && ShapeOk(g') && to < |g.nodes| && Moved(g, g', list, to) && NoCycle(g, list, to)
    ensures forall m :: Reaches(g', to, m) <==> Reaches(g, to, m)
  {
    ReachesSelf(g, to);
    hide Reaches;
    forall m ensures Reaches(g', to, m) <==> Reaches(g, to, m) {
      MovedReach(g, g', list, to, to, m);
    }
  }

  // ---------------------------------------------------------------- runs

  datatype Change = SetPerms(c: nat, need: Need) | Refresh(c: nat) | Attach(c: nat, to: nat) | Detach(c: nat) | Replace(from: nat, to: nat)

  /** Any changes in any order: the users outside the graph change their permissions, nodes have theirs
      refreshed, edges are attached and detached, and nodes are replaced, though not one that forces
      sharing by one that does not.  The parents of every node get along at the end, no read-only node has a
      writer, there are no cycles, no update is left half done, and no assertion fails. */
  method Run(b: Blocks, changes: seq<Change>)
    requires Resting(b)
    modifies b`nodes, b`parent, b`target, b`parents, b`rank, b`edges
    ensures Resting(b) && ReadOnlySafe(b.G(), b.edges)
  {
    hide DriversMonotone, Enough, ParentHasEnough, LooseChild, KeptAt, NoCycle, CanTake, Moved, SettledFrom, Cause, WritersFit, Fits, ReadOnlySafe, Ready;
    for i := 0 to |changes|
      invariant Resting(b)
    {
      match changes[i] {
        case SetPerms(c, need) =>
          if c < |b.target| && b.target[c] < |b.nodes| && b.parent[c] == None && WriteUnchanged in need.shared {
            OutsideUser(b.G(), b.edges, c, need);
            var _, _, _ := TrySetPerm(b, c, need);
          }
        case Refresh(c) =>
          if c < |b.target| && b.parent[c].Some? {
            var r, _, _ := RefreshPerms(b, c);
            assert r.Ok?;
          }
        case Attach(c, to) =>
          if c < |b.target| && b.target[c] == |b.nodes| && to < |b.nodes| && !b.frozen[c] {
            var _, _ := RootAttach(b, c, to);
          }
        case Detach(c) =>
          if c < |b.target| && !b.frozen[c] {
            var held, _ := DetachChild(b, c);
            assert held;
          }
        case Replace(from, to) =>
          if from < |b.nodes| && to < |b.nodes| && (b.nodes[from].forceShare ==> b.nodes[to].forceShare) {
            ghost var g := b.G();
            var _, list, _ := ReplaceNode(b, from, to);
            MovesKeepForce(g, b.stay, from, to, list);
          }
      }
    }
  }

  lemma OutsideUser(g: Graph, es: Edges, c: nat, need: Need)
    requires ShapeOk(g) && |es| == |g.target| && c < |es| && g.parent[c] == None
    ensures ParentHasEnough(g, es, c, need)
  {
  }

  lemma MovesKeepForce(g: Graph, stay: seq<bool>, from: nat, to: nat, list: set<nat>)
    requires ShapeOk(g) && |stay| == |g.target| && from < |g.nodes| && to < |g.nodes| && MoveList(g, stay, from, to, list)
    requires g.nodes[from].forceShare ==> g.nodes[to].forceShare
    ensures ForceKept(g, list, to)
  {
    hide Below;
    forall e | 0 <= e < |g.target| && e in list && g.parent[e].Some? ensures EdgeOk(g, e) && g.target[e] == from {
      assert EdgeOk(g, e);
    }
  }
}
