/** What becomes of a block graph when edges are made to lead to another node. */
module EdgeMoves {
  import opened Permissions
  import opened BlockGraph
  import opened Wrappers
  import opened PermissionUpdate

  /** g' is g with the edges of `list` leading to `to`. */
  ghost predicate Moved(g: Graph, g': Graph, list: set<nat>, to: nat) {
    && g'.nodes == g.nodes && g'.parent == g.parent && |g'.target| == |g.target|
    && forall e :: 0 <= e < |g.target| ==> g'.target[e] == if e in list then to else g.target[e]
  }

  /** Moving the edges makes no cycle: none belongs to `to` or to a node below, and one that belongs to
      a node does not lead nowhere. */
  ghost predicate NoCycle(g: Graph, list: set<nat>, to: nat)
    requires ShapeOk(g) && to <= |g.nodes|
  {
    forall e :: 0 <= e < |g.target| && e in list && g.parent[e].Some? ==> to < |g.nodes| && !Below(g, to, e)
  }

  /** Ranks for the graph after the move: what is not below `to` moves up. */
  ghost function NewRank(g: Graph, to: nat): seq<nat>
    requires ShapeOk(g)
  {
    if to < |g.nodes| then
      seq(|g.nodes|, m requires 0 <= m < |g.nodes| => if Reaches(g, to, m) then g.rank[m] else g.rank[m] + g.rank[to] + 1)
    else g.rank
  }

  /** A move that makes no cycle leaves the graph without cycles. */
  lemma MovedShape(g: Graph, g': Graph, list: set<nat>, to: nat)
    requires ShapeOk(g) && to <= |g.nodes| && Moved(g, g', list, to) && NoCycle(g, list, to) && g'.rank == NewRank(g, to)
    ensures ShapeOk(g')
  {
    hide Reaches;
    forall e | 0 <= e < |g'.parent| && g'.parent[e].Some? ensures EdgeOk(g', e) {
      ReachesTarget(g, e);
      if to < |g.nodes| {
        var n := g.parent[e].value;
        if Reaches(g, to, n) {
          ReachesTrans(g, to, n, g.target[e]);
        } else if e in list {
          ReachesSelf(g, to);
        } else if Reaches(g, to, g.target[e]) {
          ReachesRank(g, to, g.target[e]);
        }
      }
    }
  }

  /** The nodes below `to` stay as they are. */
  lemma {:induction false} MovedReach(g: Graph, g': Graph, list: set<nat>, to: nat, n: nat, m: nat)
    requires ShapeOk(g) && ShapeOk(g') && to < |g.nodes| && Moved(g, g', list, to) && NoCycle(g, list, to)
    requires n < |g.nodes| && Reaches(g, to, n)
    ensures Reaches(g', n, m) <==> Reaches(g, n, m)
    decreases g.rank[n]
  {
    forall e | 0 <= e < |g.parent| && g.parent[e] == Some(n) ensures ReachesFrom(g', n, e, m) <==> ReachesFrom(g, n, e, m) {
      ReachesTarget(g, e);
      ReachesTrans(g, to, n, g.target[e]);
      assert Below(g, to, e) && e !in list;
      MovedReach(g, g', list, to, g.target[e], m);
    }
  }

  /** What a set of edges needs together. */
  ghost function NeedOf(es: Edges, list: set<nat>): Need {
    Need(set p: Perm | SomeUses(es, list, p), set p: Perm | AllShare(es, list, p))
  }

  ghost predicate SomeUses(es: Edges, list: set<nat>, p: Perm) {
    exists e :: 0 <= e < |es| && e in list && p in es[e].now.perm
  }

  ghost predicate AllShare(es: Edges, list: set<nat>, p: Perm) {
    forall e :: 0 <= e < |es| && e in list ==> p in es[e].now.shared
  }

  /** The cumulative permissions after the move. */
  lemma MovedCum(g: Graph, g': Graph, es: Edges, list: set<nat>, to: nat, m: nat)
    requires |es| == |g.target| && Moved(g, g', list, to)
    ensures Cum(g', es, {}, m) == if m == to then Join(NeedOf(es, list), Cum(g, es, list, to)) else Cum(g, es, list, m)
  {
    forall p: Perm
      ensures Used(g', es, {}, m, p) <==> Used(g, es, list, m, p) || (m == to && SomeUses(es, list, p))
      ensures Shared(g', es, {}, m, p) <==> Shared(g, es, list, m, p) && (m == to ==> AllShare(es, list, p))
    {
      if Used(g', es, {}, m, p) {
        var e :| 0 <= e < |es| && g'.target[e] == m && p in es[e].now.perm;
        assert e in list || g.target[e] == m;
      }
      if Used(g, es, list, m, p) {
        var e :| 0 <= e < |es| && g.target[e] == m && e !in list && p in es[e].now.perm;
        assert g'.target[e] == m;
      }
      if m == to && SomeUses(es, list, p) {
        var e :| 0 <= e < |es| && e in list && p in es[e].now.perm;
        assert g'.target[e] == m;
      }
      if Shared(g', es, {}, m, p) {
        forall e | 0 <= e < |es| && g.target[e] == m && e !in list ensures p in es[e].now.shared {
          assert g'.target[e] == m;
        }
        forall e | 0 <= e < |es| && m == to && e in list ensures p in es[e].now.shared {
          assert g'.target[e] == m;
        }
      }
    }
  }

  /** Leaving out parents loosens. */
  lemma CumLess(g: Graph, es: Edges, list: set<nat>, m: nat)
    requires |es| == |g.target|
    ensures Looser(Cum(g, es, list, m), Cum(g, es, {}, m))
  {
    forall p: Perm
      ensures Used(g, es, list, m, p) ==> Used(g, es, {}, m, p)
      ensures Shared(g, es, {}, m, p) ==> Shared(g, es, list, m, p)
    {
    }
  }

  /** No edge of node m loses forced sharing by moving. */
  ghost predicate KeptAt(g: Graph, list: set<nat>, to: nat, m: nat)
    requires ShapeOk(g) && to <= |g.nodes|
  {
    forall e :: 0 <= e < |g.target| && e in list && g.parent[e] == Some(m) ==>
      && EdgeOk(g, e) && to < |g.nodes| && (g.nodes[g.target[e]].forceShare ==> g.nodes[to].forceShare)
  }

  ghost predicate ForceKept(g: Graph, list: set<nat>, to: nat)
    requires ShapeOk(g) && to <= |g.nodes|
  {
    forall m :: 0 <= m < |g.nodes| ==> KeptAt(g, list, to, m)
  }

  /** Outside the nodes below `to`, a move takes nothing away that a node needs unless one of its edges
      loses forced sharing. */
  lemma MovedEnough(g: Graph, g': Graph, es: Edges, list: set<nat>, to: nat, m: nat)
    requires ShapeOk(g) && ShapeOk(g') && to <= |g.nodes| && |es| == |g.target| && Moved(g, g', list, to)
    requires DriversMonotone(g) && KeptAt(g, list, to, m) && Enough(g, es, {}, m) && m != to && m < |g.nodes|
    ensures Enough(g', es, {}, m)
  {
    hide Cum, DriversMonotone;
    MovedCum(g, g', es, list, to, m);
    CumLess(g, es, list, m);
    forall p: Perm { AllPerms(p); }
    forall e | 0 <= e < |es| && g.parent[e] == Some(m)
      ensures EdgeOk(g', e) && Looser(ChildNeed(g', m, e, Cum(g', es, {}, m)), es[e].now)
    {
      assert EdgeOk(g, e) && EdgeOk(g', e);
      ChildNeedMonotone(g, m, e, Cum(g, es, list, m), Cum(g, es, {}, m));
    }
  }

  /** What has been checked below `to`, leaving out the edges of the list, is settled after the move. */
  lemma MovedSettled(g: Graph, g': Graph, es: Edges, list: set<nat>, to: nat)
    requires ShapeOk(g) && ShapeOk(g') && to < |g.nodes| && |es| == |g.target| && Moved(g, g', list, to) && NoCycle(g, list, to)
    requires Checked(g, es, list, to, Join(NeedOf(es, list), Cum(g, es, list, to)))
    ensures SettledFrom(g', es, {}, to)
    ensures forall e :: 0 <= e < |es| ==> (Below(g', to, e) <==> Below(g, to, e))
  {
    ReachesSelf(g, to);
    hide Reaches, Cum, Accepts, NoCycle, ConflictFree, BackedUp, NeedOf;
    forall m ensures Reaches(g', to, m) <==> Reaches(g, to, m) {
      MovedReach(g, g', list, to, to, m);
    }
    forall m | Reaches(g', to, m) ensures Settled(g', es, {}, m) {
      MovedCum(g, g', es, list, to, m);
      ReachesRank(g, to, m);
      if m != to {
        assert Settled(g, es, list, m);
      }
      MovedSettledAt(g, g', es, list, to, m, Cum(g', es, {}, m));
    }
  }

  lemma MovedSettledAt(g: Graph, g': Graph, es: Edges, list: set<nat>, to: nat, m: nat, cum: Need)
    requires ShapeOk(g) && ShapeOk(g') && to < |g.nodes| && |es| == |g.target| && Moved(g, g', list, to) && NoCycle(g, list, to)
    requires Reaches(g, to, m) && m < |g.nodes| && cum == Cum(g', es, {}, m) && Carries(g, es, m, cum)
    ensures Settled(g', es, {}, m)
  {
    hide Reaches, Cum, Accepts;
    forall e | 0 <= e < |es| && g.parent[e] == Some(m) ensures EdgeOk(g', e) && es[e].now == ChildNeed(g', m, e, cum) {
      assert EdgeOk(g, e) && EdgeOk(g', e) && Below(g, to, e);
      assert e !in list;
    }
  }

  /** The parents of each node get along after the move. */
  lemma MovedConflictFree(g: Graph, g': Graph, es: Edges, list: set<nat>, to: nat)
    requires |es| == |g.target| && to <= |g.nodes| && Moved(g, g', list, to) && ConflictFree(g, es, list)
    requires forall e, f :: 0 <= e < |es| && 0 <= f < |es| && e != f && e in list && f in list ==> es[e].now.perm <= es[f].now.shared
    requires to < |g.nodes| ==> AllCompatible(g, es, list, to, NeedOf(es, list))
    ensures ConflictFree(g', es, {})
  {
    forall e, f |
      && 0 <= e < |es| && 0 <= f < |es| && e != f
      && g'.target[e] == g'.target[f] && g'.target[e] < |g'.nodes|
      ensures es[e].now.perm <= es[f].now.shared
    {
      if e in list && f !in list {
        assert Compatible(NeedOf(es, list), es[f].now);
        assert forall p :: p in es[e].now.perm ==> SomeUses(es, list, p);
      } else if e !in list && f in list {
        assert Compatible(NeedOf(es, list), es[e].now);
        assert forall p :: AllShare(es, list, p) ==> p in es[f].now.shared;
      }
    }
  }
}
