/** What becomes of the assertion of bdrv_replace_child after bdrv_replace_node has put a node that does
not force its users to share everything in the place of one that does (block.c).
*/
module ForcedSharing {
  import opened Permissions
  import opened BlockGraph
  import opened PermissionUpdate
  import opened Tightening
  import opened EdgeMoves
  import opened GraphChanges
  import opened Wrappers

  /** Edge e, of a node below o, moves from a node that forces sharing to one that does not. */
  ghost predicate Lost(g: Graph, list: set<nat>, to: nat, o: nat, e: nat)
    requires ShapeOk(g) && to < |g.nodes| && o < |g.nodes|
  {
    && e < |g.target| && e in list && Below(g, o, e) && EdgeOk(g, e)
    && g.nodes[g.target[e]].forceShare && !g.nodes[to].forceShare
  }

  /** What the driver withholds on edge e is withheld from `to` by another of its parents-to-be as well,
      and is used by none. */
  ghost predicate Covered(g: Graph, es: Edges, list: set<nat>, to: nat, e: nat)
    requires ShapeOk(g) && |es| == |g.target| && e < |es| && g.parent[e].Some? && EdgeOk(g, e)
  {
    var m := g.parent[e].value;
    var shared := g.nodes[m].driver.childPerm(e, Cum(g, es, {}, m)).shared;
    && Join(NeedOf(es, list), Cum(g, es, list, to)).shared <= shared
    && forall f :: 0 <= f < |es| && f != e && (f in list || g.target[f] == to) ==> es[f].now.perm <= shared
  }

  ghost predicate AllCovered(g: Graph, es: Edges, list: set<nat>, to: nat, o: nat)
    requires ShapeOk(g) && |es| == |g.target| && to < |g.nodes| && o < |g.nodes|
  {
    forall e :: 0 <= e < |es| && Lost(g, list, to, o, e) ==> Covered(g, es, list, to, e)
  }

  /** What the driver of a lost edge below o never shares on it is withheld by a parent-to-be of `to`
      anyway. */
  ghost predicate WithheldAnyway(g: Graph, es: Edges, list: set<nat>, to: nat, o: nat)
    requires ShapeOk(g) && |es| == |g.target| && to < |g.nodes| && o < |g.nodes|
  {
    forall e, q :: 0 <= e < |es| && Lost(g, list, to, o, e) && DriverWithholds(g, e, q) ==>
      q !in Join(NeedOf(es, list), Cum(g, es, list, to)).shared
  }

  ghost predicate DriverWithholds(g: Graph, e: nat, q: Perm)
    requires ShapeOk(g) && e < |g.target| && g.parent[e].Some? && EdgeOk(g, e)
  {
    forall u :: q !in g.nodes[g.parent[e].value].driver.childPerm(e, u).shared
  }

  ghost predicate NoneLost(g: Graph, list: set<nat>, to: nat, o: nat)
    requires ShapeOk(g) && to < |g.nodes| && o < |g.nodes|
  {
    forall e :: 0 <= e < |g.target| ==> !Lost(g, list, to, o, e)
  }

  /** The other parents of the target need what edge c needs. */
  ghost predicate Spare(g: Graph, es: Edges, c: nat)
    requires |es| == |g.target| && c < |es|
  {
    Cum(g, es, {c}, g.target[c]) == Cum(g, es, {}, g.target[c])
  }

  /** Edges that stay at their node belong to users outside the graph. */
  ghost predicate StayOutside(g: Graph, stay: seq<bool>)
    requires |g.parent| == |stay|
  {
    forall e :: 0 <= e < |stay| && stay[e] ==> g.parent[e] == None
  }

  ghost predicate Aligned(g: Graph, n: nat)
    requires ShapeOk(g) && n < |g.nodes|
  {
    forall m :: 0 <= m < |g.nodes| && Reaches(g, n, m) ==> !g.nodes[m].unaligned
  }

  // ---------------------------------------------------------------- reachability

  /** The last edge on the way to m. */
  lemma {:induction false} ReachesUp(g: Graph, n: nat, m: nat) returns (f: nat)
    requires ShapeOk(g) && n < |g.nodes| && Reaches(g, n, m) && m != n
    ensures f < |g.target| && g.target[f] == m && Below(g, n, f)
    decreases g.rank[n]
  {
    var e := ReachesDown(g, n, m);
    ReachesSelf(g, n);
    hide Reaches;
    if g.target[e] == m {
      return e;
    }
    f := ReachesUp(g, g.target[e], m);
    ReachesTarget(g, e);
    ReachesTrans(g, n, g.target[e], g.parent[f].value);
  }

  /** Edges of users outside the graph make no difference. */
  lemma {:induction false} OutsideReach(g: Graph, g': Graph, n: nat, m: nat)
    requires ShapeOk(g) && ShapeOk(g') && |g'.nodes| == |g.nodes| && g'.parent == g.parent && n < |g.nodes|
    requires forall e :: 0 <= e < |g.parent| && g.parent[e].Some? ==> g'.target[e] == g.target[e]
    requires Reaches(g, n, m)
    ensures Reaches(g', n, m)
    decreases g.rank[n]
  {
    ReachesSelf(g', n);
    if m != n {
      var e := ReachesDown(g, n, m);
      hide Reaches;
      OutsideReach(g, g', g.target[e], m);
      ReachesTarget(g', e);
      ReachesTrans(g', n, g'.target[e], m);
    }
  }

  /** Whatever n reaches after the move it reached before, or `to` did. */
  lemma {:induction false} ReachOld(g: Graph, g': Graph, list: set<nat>, to: nat, n: nat, m: nat)
    requires ShapeOk(g) && ShapeOk(g') && to < |g.nodes| && Moved(g, g', list, to) && NoCycle(g, list, to)
    requires n < |g.nodes| && Reaches(g', n, m)
    ensures Reaches(g, n, m) || Reaches(g, to, m)
    decreases g'.rank[n]
  {
    ReachesSelf(g, n);
    ReachesSelf(g, to);
    if m != n {
      var e := ReachesDown(g', n, m);
      hide Reaches;
      if e in list {
        MovedReach(g, g', list, to, to, m);
      } else {
        ReachOld(g, g', list, to, g.target[e], m);
        ReachesTarget(g, e);
        if Reaches(g, g.target[e], m) {
          ReachesTrans(g, n, g.target[e], m);
        }
      }
    }
  }

  /** Whatever n reached before the move it reaches afterwards, or `from` reached it. */
  lemma {:induction false} ReachNew(g: Graph, g': Graph, list: set<nat>, from: nat, to: nat, n: nat, m: nat)
    requires ShapeOk(g) && ShapeOk(g') && from < |g.nodes| && to < |g.nodes| && Moved(g, g', list, to)
    requires forall e :: 0 <= e < |g.target| && e in list ==> g.target[e] == from
    requires n < |g.nodes| && Reaches(g, n, m)
    ensures Reaches(g', n, m) || Reaches(g, from, m)
    decreases g.rank[n]
  {
    ReachesSelf(g', n);
    if m != n {
      var e := ReachesDown(g, n, m);
      hide Reaches;
      if e !in list {
        ReachNew(g, g', list, from, to, g.target[e], m);
        ReachesTarget(g', e);
        if Reaches(g', g'.target[e], m) {
          ReachesTrans(g', n, g'.target[e], m);
        }
      }
    }
  }

  // ---------------------------------------------------------------- the three graphs

  /** g with the edges of the list moved from `from` to `to` becomes g1, and then edge c leads nowhere in
      g2.  The permissions change from es to es1 with the move. */
  ghost predicate Setting(
    g: Graph, g1: Graph, g2: Graph, es: Edges, es1: Edges, stay: seq<bool>, list: set<nat>, from: nat, to: nat, c: nat)
  {
    && ShapeOk(g) && ShapeOk(g1) && ShapeOk(g2) && |es| == |es1| == |g.target| == |stay| && from < |g.nodes| && to < |g.nodes|
    && MoveList(g, stay, from, to, list) && Moved(g, g1, list, to)
    && c < |g.target| && g.target[c] < |g.nodes| && g.parent[c] == None && Moved(g1, g2, {c}, |g.nodes|)
    && OnlyBelow(g, es, es1, to, {}) && SettledFrom(g1, es1, {}, to) && ConflictFree(g1, es1, {})
  }

  lemma MovedEdge(g: Graph, stay: seq<bool>, list: set<nat>, from: nat, to: nat, e: nat)
    requires ShapeOk(g) && |stay| == |g.target| && to < |g.nodes| && MoveList(g, stay, from, to, list)
    ensures e in list ==> e < |g.target| && g.target[e] == from && !Below(g, to, e)
    ensures e < |g.target| && g.target[e] == from && e !in list ==> stay[e] || Below(g, to, e)
    ensures NoCycle(g, list, to)
  {
    hide Below;
    assert e in list <==> Moves(g, stay, from, to, e);
  }

  /** Where an edge is lost below the target of c, that is neither moved nor below `to`. */
  lemma LostApart(g: Graph, stay: seq<bool>, list: set<nat>, from: nat, to: nat, c: nat, e: nat)
    requires ShapeOk(g) && |stay| == |g.target| && from < |g.nodes| && to < |g.nodes| && MoveList(g, stay, from, to, list)
    requires c < |g.target| && g.target[c] < |g.nodes| && Lost(g, list, to, g.target[c], e)
    ensures g.target[e] == from && g.target[c] != from && c !in list && !Reaches(g, to, g.target[c])
    ensures g.nodes[from].forceShare && !g.nodes[to].forceShare && from != to
  {
    hide Reaches;
    MovedEdge(g, stay, list, from, to, e);
    MovedEdge(g, stay, list, from, to, c);
    var o, p := g.target[c], g.parent[e].value;
    ReachesRank(g, o, p);
    if Reaches(g, to, o) {
      ReachesTrans(g, to, o, p);
    }
  }

  /** The target of c stands apart as above. */
  ghost predicate Apart(g: Graph, list: set<nat>, from: nat, to: nat, c: nat)
    requires ShapeOk(g) && c < |g.target| && to < |g.nodes| && from < |g.nodes|
  {
    && g.target[c] != from && c !in list && !Reaches(g, to, g.target[c])
    && g.nodes[from].forceShare && !g.nodes[to].forceShare && from != to
  }

  /** A node below the target of c afterwards is below `to` and settled with it, or is one that was below
      before, and its parents need the same as before. */
  lemma NodeBelow(
    g: Graph, g1: Graph, g2: Graph, es: Edges, es1: Edges, stay: seq<bool>, list: set<nat>, from: nat, to: nat, c: nat, m: nat)
    requires Setting(g, g1, g2, es, es1, stay, list, from, to, c) && Apart(g, list, from, to, c) && StayOutside(g, stay)
    requires Spare(g, es, c) && Reaches(g2, g.target[c], m)
    ensures m < |g.nodes|
    ensures if Reaches(g, to, m) then Settled(g1, es1, {}, m) && Cum(g2, es1, {}, m) == Cum(g1, es1, {}, m)
            else Reaches(g, g.target[c], m) && m != from && m != to && Cum(g2, es1, {}, m) == Cum(g, es, {}, m)
  {
    var o := g.target[c];
    ReachesSelf(g, to);
    ReachesRank(g2, o, m);
    hide Reaches, Cum, Settled, ConflictFree;
    MovedEdge(g, stay, list, from, to, c);
    OutsideReach(g2, g1, o, m);
    ReachOld(g, g1, list, to, o, m);
    if Reaches(g, to, m) {
      MovedReach(g, g1, list, to, to, m);
      SameBut(g1, g2, es1, c, m);
    } else {
      NotFrom(g, g1, stay, list, from, to, o, m);
      CumElsewhere(g, g1, g2, es, es1, stay, list, from, to, c, m);
    }
  }

  /** Making c lead nowhere leaves the parents of the other nodes alone. */
  lemma SameBut(g1: Graph, g2: Graph, es: Edges, c: nat, m: nat)
    requires |es| == |g1.target| && c < |es| && Moved(g1, g2, {c}, |g1.nodes|) && m < |g1.nodes|
    ensures Cum(g2, es, {}, m) == Cum(g1, es, {c}, m)
    ensures g1.target[c] != m ==> Cum(g2, es, {}, m) == Cum(g1, es, {}, m)
  {
    hide Cum;
    MovedCum(g1, g2, es, {c}, |g1.nodes|, m);
    if g1.target[c] != m {
      CumSame(g1, es, es, {}, {c}, m);
    }
  }

  lemma NotFrom(g: Graph, g1: Graph, stay: seq<bool>, list: set<nat>, from: nat, to: nat, o: nat, m: nat)
    requires ShapeOk(g) && ShapeOk(g1) && |stay| == |g.target| && from < |g.nodes| && to < |g.nodes| && from != to
    requires MoveList(g, stay, from, to, list) && Moved(g, g1, list, to) && StayOutside(g, stay)
    requires o < |g.nodes| && o != from && Reaches(g1, o, m) && !Reaches(g, to, m)
    ensures m != from
  {
    hide Reaches;
    if m == from {
      var f := ReachesUp(g1, o, m);
      MovedEdge(g, stay, list, from, to, f);
      BelowTarget(g, to, f);
    }
  }

  lemma CumElsewhere(
    g: Graph, g1: Graph, g2: Graph, es: Edges, es1: Edges, stay: seq<bool>, list: set<nat>, from: nat, to: nat, c: nat, m: nat)
    requires Setting(g, g1, g2, es, es1, stay, list, from, to, c) && Apart(g, list, from, to, c) && Spare(g, es, c)
    requires m < |g.nodes| && !Reaches(g, to, m) && m != from && m != to
    ensures Cum(g2, es1, {}, m) == Cum(g, es, {}, m)
  {
    hide Reaches, Cum, SettledFrom, ConflictFree;
    SameBut(g1, g2, es1, c, m);
    MovedCum(g, g1, es1, list, to, m);
    forall f | 0 <= f < |es| && g.target[f] == m ensures es1[f] == es[f] && f !in list {
      MovedEdge(g, stay, list, from, to, f);
      if Below(g, to, f) {
        BelowTarget(g, to, f);
      }
    }
    CumSame(g, es, es1, {}, list, m);
    if m == g.target[c] {
      MovedCumBut(g, g1, es1, list, to, c, m);
      CumSame(g, es, es1, {c}, {c}, m);
    }
  }

  lemma MovedCumBut(g: Graph, g1: Graph, es: Edges, list: set<nat>, to: nat, c: nat, m: nat)
    requires |es| == |g.target| && Moved(g, g1, list, to) && m != to && forall f :: 0 <= f < |es| && g.target[f] == m ==> f !in list
    ensures Cum(g1, es, {c}, m) == Cum(g, es, {c}, m)
  {
    forall p: Perm ensures Used(g1, es, {c}, m, p) == Used(g, es, {c}, m, p) && Shared(g1, es, {c}, m, p) == Shared(g, es, {c}, m, p) {
      assert forall f :: 0 <= f < |es| ==> (g1.target[f] == m <==> g.target[f] == m);
    }
  }

  // ---------------------------------------------------------------- the edges below the target of c

  /** The parents of `to` need the same as was checked for the move. */
  lemma CumAtTo(
    g: Graph, g1: Graph, g2: Graph, es: Edges, es1: Edges, stay: seq<bool>, list: set<nat>, from: nat, to: nat, c: nat)
    requires Setting(g, g1, g2, es, es1, stay, list, from, to, c) && Apart(g, list, from, to, c)
    ensures Cum(g2, es1, {}, to) == Join(NeedOf(es, list), Cum(g, es, list, to))
    ensures forall f :: 0 <= f < |es| ==> (g2.target[f] == to <==> f in list || g.target[f] == to) && (g2.target[f] == to ==> es1[f] == es[f])
  {
    ReachesSelf(g, to);
    hide Reaches, Cum, SettledFrom, ConflictFree, NeedOf;
    SameBut(g1, g2, es1, c, to);
    MovedCum(g, g1, es1, list, to, to);
    forall f | 0 <= f < |es| && (f in list || g.target[f] == to) ensures es1[f] == es[f] {
      MovedEdge(g, stay, list, from, to, f);
      if Below(g, to, f) {
        BelowTarget(g, to, f);
      }
    }
    NeedSame(es, es1, list);
    CumSame(g, es, es1, list, list, to);
  }

  /** An edge below the target of c is as stale as it was, except if it lost forced sharing; then giving
      it what it is needed for is harmless if and only if that is covered. */
  lemma EdgeBelow(
    g: Graph, g1: Graph, g2: Graph, es: Edges, es1: Edges, stay: seq<bool>, list: set<nat>, from: nat, to: nat, c: nat, x: nat)
    requires Setting(g, g1, g2, es, es1, stay, list, from, to, c) && Apart(g, list, from, to, c) && StayOutside(g, stay)
    requires Spare(g, es, c) && SettledFrom(g, es, {}, g.target[c])
    requires x < |es| && Below(g2, g.target[c], x)
    ensures StaleEdge(g2, es1, x)
    ensures if x in list
            then Lost(g, list, to, g.target[c], x) && (Harmless(g2, es1, x, NeedNow(g2, es1, x)) <==> Covered(g, es, list, to, x))
            else Harmless(g2, es1, x, NeedNow(g2, es1, x))
  {
    hide Reaches, Cum, Settled, ConflictFree, NeedOf, SettledFrom, Covered, Harmless, ChildNeed;
    var m := g.parent[x].value;
    NodeBelow(g, g1, g2, es, es1, stay, list, from, to, c, m);
    MovedEdge(g, stay, list, from, to, x);
    assert EdgeOk(g, x) && EdgeOk(g1, x) && EdgeOk(g2, x);
    if Reaches(g, to, m) {
      SettledNeed(g1, g2, es1, es1, m, x);
      StillHarmless(g1, g2, es1, c, x);
    } else {
      SettledAt(g, es, g.target[c], m);
      assert es1[x] == es[x];
      if x in list {
        LostNeed(g, g2, es, es1, to, m, x);
        CumAtTo(g, g1, g2, es, es1, stay, list, from, to, c);
        LostHarmless(g, g2, es, es1, list, to, x);
      } else {
        SettledNeed(g, g2, es, es1, m, x);
        StillHarmless(g1, g2, es1, c, x);
      }
    }
  }

  lemma SettledAt(g: Graph, es: Edges, o: nat, m: nat)
    requires ShapeOk(g) && |es| == |g.target| && o < |g.nodes| && SettledFrom(g, es, {}, o) && Reaches(g, o, m)
    ensures Settled(g, es, {}, m)
  {
  }

  /** An edge that leads where it did carries what it is needed for. */
  lemma SettledNeed(g: Graph, g2: Graph, es: Edges, es1: Edges, m: nat, x: nat)
    requires ShapeOk(g) && ShapeOk(g2) && g2.nodes == g.nodes && g2.parent == g.parent && |es| == |es1| == |g.target|
    requires x < |es| && g.parent[x] == Some(m) && EdgeOk(g2, x) && g2.target[x] == g.target[x]
    requires Settled(g, es, {}, m) && es1[x].now == es[x].now && Cum(g2, es1, {}, m) == Cum(g, es, {}, m)
    ensures NeedNow(g2, es1, x) == es1[x].now
  {
    hide Cum, Accepts;
  }

  lemma StillHarmless(g1: Graph, g2: Graph, es1: Edges, c: nat, x: nat)
    requires |es1| == |g1.target| && ConflictFree(g1, es1, {}) && Moved(g1, g2, {c}, |g1.nodes|) && x < |es1| && g2.target[x] < |g1.nodes|
    ensures Harmless(g2, es1, x, es1[x].now)
  {
    hide Cum;
    CumWithin(g2, es1, x);
  }

  /** An edge that has lost forced sharing is needed for what the driver says. */
  lemma LostNeed(g: Graph, g2: Graph, es: Edges, es1: Edges, to: nat, m: nat, x: nat)
    requires ShapeOk(g) && ShapeOk(g2) && g2.nodes == g.nodes && g2.parent == g.parent && |es| == |es1| == |g.target| && to < |g.nodes|
    requires x < |es| && g.parent[x] == Some(m) && EdgeOk(g, x) && EdgeOk(g2, x) && g2.target[x] == to
    requires g.nodes[g.target[x]].forceShare && !g.nodes[to].forceShare
    requires Settled(g, es, {}, m) && es1[x].now == es[x].now && Cum(g2, es1, {}, m) == Cum(g, es, {}, m)
    ensures NeedNow(g2, es1, x) == g.nodes[m].driver.childPerm(x, Cum(g, es, {}, m)) && StaleEdge(g2, es1, x)
  {
    hide Cum, Accepts;
    forall p: Perm { AllPerms(p); }
  }

  lemma LostHarmless(g: Graph, g2: Graph, es: Edges, es1: Edges, list: set<nat>, to: nat, x: nat)
    requires ShapeOk(g) && ShapeOk(g2) && |es| == |es1| == |g.target| == |g2.target| && x < |es| && g2.target[x] == to
    requires g.parent[x].Some? && EdgeOk(g, x) && g2.parent == g.parent && EdgeOk(g2, x)
    requires Cum(g2, es1, {}, to) == Join(NeedOf(es, list), Cum(g, es, list, to))
    requires forall f :: 0 <= f < |es| ==> (g2.target[f] == to <==> f in list || g.target[f] == to) && (g2.target[f] == to ==> es1[f] == es[f])
    requires var m := g.parent[x].value; NeedNow(g2, es1, x) == g.nodes[m].driver.childPerm(x, Cum(g, es, {}, m))
    ensures Harmless(g2, es1, x, NeedNow(g2, es1, x)) <==> Covered(g, es, list, to, x)
  {
    hide Cum, NeedOf, NeedNow;
  }

  // ---------------------------------------------------------------- the assertion

  /** No node below the target of c minds being used less. */
  lemma WillingBelow(
    g: Graph, g1: Graph, g2: Graph, es: Edges, es1: Edges, stay: seq<bool>, list: set<nat>, from: nat, to: nat, c: nat)
    requires Setting(g, g1, g2, es, es1, stay, list, from, to, c) && Apart(g, list, from, to, c) && StayOutside(g, stay)
    requires Spare(g, es, c) && SettledFrom(g, es, {}, g.target[c]) && Aligned(g, g.target[c]) && Aligned(g, to)
    ensures Willing(g2, es1, g.target[c])
  {
    hide Reaches, Cum, ConflictFree, SettledFrom, ChildNeed;
    forall m | 0 <= m < |g.nodes| && Reaches(g2, g.target[c], m) ensures AcceptsLess(g2.nodes[m], Cum(g2, es1, {}, m)) {
      NodeBelow(g, g1, g2, es, es1, stay, list, from, to, c, m);
      if !Reaches(g, to, m) {
        SettledAt(g, es, g.target[c], m);
      }
    }
  }

  /** If an edge is lost, the check is harmless if and only if all lost edges are covered. */
  lemma LostExact(
    g: Graph, g1: Graph, g2: Graph, es: Edges, es1: Edges, stay: seq<bool>, list: set<nat>, from: nat, to: nat, c: nat)
    requires Setting(g, g1, g2, es, es1, stay, list, from, to, c) && Apart(g, list, from, to, c) && StayOutside(g, stay)
    requires Spare(g, es, c) && SettledFrom(g, es, {}, g.target[c])
    ensures Stale(g2, es1, g.target[c]) && (HarmlessFrom(g2, es1, g.target[c]) <==> AllCovered(g, es, list, to, g.target[c]))
  {
    hide Reaches, Cum, ConflictFree, SettledFrom, Covered, Harmless, NeedNow, Spare, OnlyBelow, Apart;
    var o := g.target[c];
    forall x | 0 <= x < |es| && Below(g2, o, x)
      ensures StaleEdge(g2, es1, x)
      ensures if x in list
              then Lost(g, list, to, o, x) && (Harmless(g2, es1, x, NeedNow(g2, es1, x)) <==> Covered(g, es, list, to, x))
              else Harmless(g2, es1, x, NeedNow(g2, es1, x))
    {
      EdgeBelow(g, g1, g2, es, es1, stay, list, from, to, c, x);
    }
    forall e | 0 <= e < |es| && Lost(g, list, to, o, e) ensures Below(g2, o, e) {
      LostBelow(g, g1, g2, stay, list, from, to, c, e);
    }
  }

  /** A lost edge is still below the target of c. */
  lemma LostBelow(g: Graph, g1: Graph, g2: Graph, stay: seq<bool>, list: set<nat>, from: nat, to: nat, c: nat, e: nat)
    requires ShapeOk(g) && ShapeOk(g1) && ShapeOk(g2) && |stay| == |g.target| && from < |g.nodes| && to < |g.nodes|
    requires MoveList(g, stay, from, to, list) && Moved(g, g1, list, to)
    requires c < |g.target| && g.target[c] < |g.nodes| && g.parent[c] == None && Moved(g1, g2, {c}, |g.nodes|)
    requires Lost(g, list, to, g.target[c], e)
    ensures Below(g2, g.target[c], e)
  {
    hide Reaches;
    var o, p := g.target[c], g.parent[e].value;
    forall f | 0 <= f < |g.target| && f in list ensures g.target[f] == from {
      MovedEdge(g, stay, list, from, to, f);
    }
    if Reaches(g, from, p) {
      ReachesRank(g, from, p);
    }
    ReachNew(g, g1, list, from, to, o, p);
    OutsideReach(g1, g2, o, p);
  }

  /** If no edge is lost, every node below the target that c has after the move has what it needs. */
  lemma NoneLostEnough(
    g: Graph, g1: Graph, g2: Graph, es: Edges, es1: Edges, stay: seq<bool>, list: set<nat>, from: nat, to: nat, c: nat)
    requires Setting(g, g1, g2, es, es1, stay, list, from, to, c) && DriversMonotone(g1) && NoneLost(g, list, to, g.target[c])
    requires forall m :: 0 <= m < |g.nodes| && KeptAt(g, list, to, m) ==> Enough(g1, es1, {}, m)
    ensures g1.target[c] < |g.nodes| && EnoughFrom(g2, es1, g1.target[c])
  {
    hide Reaches, Cum, ConflictFree, SettledFrom, Enough, OnlyBelow, DriversMonotone;
    var o := g1.target[c];
    forall m | Reaches(g2, o, m) ensures Enough(g2, es1, {}, m) {
      ReachesRank(g2, o, m);
      OutsideReach(g2, g1, o, m);
      NoneLostKept(g, g1, stay, list, from, to, c, m);
      MovedEnough(g1, g2, es1, {c}, |g.nodes|, m);
    }
  }

  lemma NoneLostKept(g: Graph, g1: Graph, stay: seq<bool>, list: set<nat>, from: nat, to: nat, c: nat, m: nat)
    requires ShapeOk(g) && ShapeOk(g1) && |stay| == |g.target| && from < |g.nodes| && to < |g.nodes|
    requires MoveList(g, stay, from, to, list) && Moved(g, g1, list, to)
    requires c < |g.target| && g.target[c] < |g.nodes| && g1.target[c] < |g.nodes| && NoneLost(g, list, to, g.target[c])
    requires Reaches(g1, g1.target[c], m)
    ensures KeptAt(g, list, to, m)
  {
    hide Reaches;
    forall e | 0 <= e < |g.target| && e in list && g.parent[e] == Some(m)
      ensures EdgeOk(g, e) && (g.nodes[g.target[e]].forceShare ==> g.nodes[to].forceShare)
    {
      assert EdgeOk(g, e);
      MovedEdge(g, stay, list, from, to, e);
      ReachOld(g, g1, list, to, g1.target[c], m);
      assert !Lost(g, list, to, g.target[c], e);
    }
  }

  /** A lost edge whose driver never shares what the others do is one such edge afterwards. */
  lemma LostWithheld(
    g: Graph, g1: Graph, g2: Graph, es: Edges, es1: Edges, stay: seq<bool>, list: set<nat>, from: nat, to: nat, c: nat)
    requires Setting(g, g1, g2, es, es1, stay, list, from, to, c) && Apart(g, list, from, to, c) && WithheldFrom(g2, es1, g.target[c])
    ensures WithheldAnyway(g, es, list, to, g.target[c])
  {
    hide Reaches, Cum, ConflictFree, SettledFrom, OnlyBelow, NeedOf, Moves;
    CumAtTo(g, g1, g2, es, es1, stay, list, from, to, c);
    forall e, q | 0 <= e < |es| && Lost(g, list, to, g.target[c], e) && DriverWithholds(g, e, q)
      ensures q !in Join(NeedOf(es, list), Cum(g, es, list, to)).shared
    {
      LostBelow(g, g1, g2, stay, list, from, to, c, e);
      assert EdgeOk(g2, e) && g2.target[e] == to;
      assert Withholds(g2, e, q);
    }
  }

  /** What the assertion comes down to, in terms of the graph before the replacement. */
  ghost predicate AssertionFacts(g: Graph, es: Edges, stay: seq<bool>, list: set<nat>, to: nat, c: nat, held: bool, why: Result)
    requires ShapeOk(g) && |es| == |g.target| == |stay| && to < |g.nodes| && c < |es| && g.target[c] < |g.nodes|
  {
    && OwnRefusal(g, why)
    && (NoneLost(g, list, to, g.target[c]) ==> held)
    && (held && why.Ok? ==> WithheldAnyway(g, es, list, to, g.target[c]))
    && (StayOutside(g, stay) && Spare(g, es, c) && SettledFrom(g, es, {}, g.target[c])
        && Aligned(g, g.target[c]) && Aligned(g, to) && !why.Refused? ==>
          (held <==> AllCovered(g, es, list, to, g.target[c])))
  }

  lemma AssertionExact(
    g: Graph, g1: Graph, g2: Graph, es: Edges, es1: Edges, stay: seq<bool>, list: set<nat>, from: nat, to: nat, c: nat,
    held: bool, why: Result)
    requires Setting(g, g1, g2, es, es1, stay, list, from, to, c) && DriversMonotone(g1) && DriversMonotone(g2)
    requires forall m :: 0 <= m < |g.nodes| && KeptAt(g, list, to, m) ==> Enough(g1, es1, {}, m)
    requires g1.target[c] < |g.nodes| && LoosenFacts(g2, es1, g1.target[c], held, why)
    ensures AssertionFacts(g, es, stay, list, to, c, held, why)
  {
    hide Reaches, Cum, ConflictFree, SettledFrom, Enough, OnlyBelow, DriversMonotone, Covered, Stale, HarmlessFrom, Willing, EnoughFrom;
    hide Spare, StayOutside, Aligned, KeptAt, EdgeOk, Below, WithheldFrom, DriverWithholds;
    if NoneLost(g, list, to, g.target[c]) {
      NoneLostEnough(g, g1, g2, es, es1, stay, list, from, to, c);
    } else {
      var e :| 0 <= e < |g.target| && Lost(g, list, to, g.target[c], e);
      LostApart(g, stay, list, from, to, c, e);
      if held && why.Ok? {
        LostWithheld(g, g1, g2, es, es1, stay, list, from, to, c);
      }
      if StayOutside(g, stay) && Spare(g, es, c) && SettledFrom(g, es, {}, g.target[c]) {
        LostExact(g, g1, g2, es, es1, stay, list, from, to, c);
        if Aligned(g, g.target[c]) && Aligned(g, to) {
          WillingBelow(g, g1, g2, es, es1, stay, list, from, to, c);
        }
      }
    }
  }

  /** In a graph at rest, replace `from` by `to` and take edge c away from its node then.  The assertion of
      bdrv_replace_child holds if no node below loses forced sharing, and fails, if no node refuses, where
      a lost edge never shares what the parents of its new node share.  If taking c away changes nothing
      for its node, and no driver of its own stops the check, the assertion holds if and only if what is
      withheld again is withheld by others already and used by none. */
  method ReplaceThenDetach(b: Blocks, from: nat, to: nat, c: nat) returns (r: Replaced, held: bool, why: Result, ghost list: set<nat>)
    requires Resting(b) && from < |b.nodes| && to < |b.nodes|
    requires c < |b.target| && b.parent[c] == None && b.target[c] < |b.nodes| && !b.frozen[c]
    modifies b`nodes, b`parent, b`target, b`parents, b`rank, b`edges
    ensures MoveList(old(b.G()), b.stay, from, to, list)
    ensures r.Frozen? <==> exists e :: e in list && b.frozen[e]
    ensures !r.Frozen? && Leaf(old(b.nodes)[to]) ==> (r.Done? <==> CanTake(old(b.G()), old(b.edges), list, to))
    ensures r.Done? ==> AssertionFacts(old(b.G()), old(b.edges), b.stay, list, to, c, held, why)
  {
    hide Quiet, DriversMonotone, Enough, KeptAt, NoCycle, CanTake, SettledFrom, Cause, WritersFit, LoosenFacts, AssertionFacts, OnlyBelow;
    ghost var g, es := b.G(), b.edges;
    held, why := true, Ok;
    ghost var log;
    r, list, log := ReplaceNode(b, from, to);
    if r.Done? {
      ghost var g1, es1 := b.G(), b.edges;
      held, why := DetachChild(b, c);
      TheSetting(g, g1, b.G(), es, es1, b.stay, list, from, to, c);
      AssertionExact(g, g1, b.G(), es, es1, b.stay, list, from, to, c, held, why);
    }
  }

  lemma TheSetting(
    g: Graph, g1: Graph, g2: Graph, es: Edges, es1: Edges, stay: seq<bool>, list: set<nat>, from: nat, to: nat, c: nat)
    requires AtRest(g, es) && Quiet(g1, es1) && ShapeOk(g2) && |stay| == |g.target| && from < |g.nodes| && to < |g.nodes|
    requires MoveList(g, stay, from, to, list) && Moved(g, g1, list, to) && OnlyBelow(g, es, es1, to, {}) && SettledFrom(g1, es1, {}, to)
    requires c < |g.target| && g.target[c] < |g.nodes| && g.parent[c] == None
    requires exists d :: Dropped(g1, d, c) && Moved(d, g2, {c}, |g.nodes|)
    ensures Setting(g, g1, g2, es, es1, stay, list, from, to, c) && DriversMonotone(g1) && DriversMonotone(g2)
  {
    hide Reaches, Enough, DriversMonotone, OnlyBelow, SettledFrom, Below;
    var d :| Dropped(g1, d, c) && Moved(d, g2, {c}, |g.nodes|);
    assert d.nodes == g1.nodes && d.parent == g1.parent;
    DriversSame(g, g1);
    DriversSame(g, g2);
  }

  /** A format node that is not inactive shares writing of its metadata with nobody, so the removal of any
      user above it makes the assertion fail once it has lost forced sharing to a file whose users share
      writing. */
  lemma MetadataWithheld(g: Graph, es: Edges, flags: Flags, roles: seq<set<Role>>, list: set<nat>, to: nat, o: nat, e: nat)
    requires ShapeOk(g) && |es| == |g.target| && to < |g.nodes| && o < |g.nodes| && e < |roles| && Lost(g, list, to, o, e)
    requires UsesDefault(g.nodes[g.parent[e].value].driver, flags, roles) && Metadata in roles[e] && !flags.inactive
    requires Write in Join(NeedOf(es, list), Cum(g, es, list, to)).shared
    ensures !WithheldAnyway(g, es, list, to, o)
  {
    hide Reaches, Cum, NeedOf;
    forall u: Need ensures Write !in g.nodes[g.parent[e].value].driver.childPerm(e, u).shared {
      assert DefaultAt(g.nodes[g.parent[e].value].driver, flags, roles, e, u);
    }
    assert DriverWithholds(g, e, Write);
  }

  // ---------------------------------------------------------------- an example

  const READ_ONLY := Flags(false, false, false)

  /** Edge 0 leads to the image file of a format node; other edges are passed on. */
  function FormatPerms(e: nat, c: Need): Need {
    if e == 0 then DefaultPerms(READ_ONLY, {Metadata}, c) else c
  }

  /** A read-only format node 2 on file 0, which was opened with force-share, with two users of its own;
      file 1 was opened without. */
  function Example(): Graph {
    Graph([Node(Plain, false, false, true, []), Node(Plain, false, false, false, []), Node(Interior(FormatPerms), false, false, false, [0])],
          [0, 2, 2], [Some(2), None, None], [0, 0, 1])
  }

  const EXAMPLE_EDGES: Edges := [Edge(Need({ConsistentRead}, ALL), None), Edge(NO_NEED, None), Edge(NO_NEED, None)]

  lemma ExampleShape()
    ensures ShapeOk(Example()) && EdgeOk(Example(), 0)
  {
    var g := Example();
    assert g.nodes[2].children[0] == 0;
    assert EdgeOk(g, 0);
  }

  lemma ExampleReach(n: nat, m: nat)
    requires n < 3 && ShapeOk(Example()) && Reaches(Example(), n, m)
    ensures m == n || (n == 2 && m == 0)
  {
    var g := Example();
    if m != n {
      var e := ReachesDown(g, n, m);
      ReachesRank(g, g.target[e], m);
    }
  }

  lemma ExampleCum()
    ensures Cum(Example(), EXAMPLE_EDGES, {}, 2) == NO_NEED && Cum(Example(), EXAMPLE_EDGES, {2}, 2) == NO_NEED
    ensures Cum(Example(), EXAMPLE_EDGES, {}, 0).perm == {ConsistentRead} && Cum(Example(), EXAMPLE_EDGES, {0}, 1) == NO_NEED
  {
    var g, es := Example(), EXAMPLE_EDGES;
    forall p: Perm
      ensures Shared(g, es, {}, 2, p) && !Used(g, es, {}, 2, p) && Shared(g, es, {2}, 2, p) && !Used(g, es, {2}, 2, p)
      ensures Used(g, es, {}, 0, p) <==> p == ConsistentRead
      ensures Shared(g, es, {0}, 1, p) && !Used(g, es, {0}, 1, p)
    {
      AllPerms(p);
      assert p == ConsistentRead ==> g.target[0] == 0 && p in es[0].now.perm;
    }
    forall p: Perm { AllPerms(p); }
  }

  lemma ExampleSettled(n: nat)
    requires ShapeOk(Example()) && EdgeOk(Example(), 0) && n < 3
    ensures Settled(Example(), EXAMPLE_EDGES, {}, n)
  {
    hide Cum, ShapeOk;
    ExampleCum();
    var g, es := Example(), EXAMPLE_EDGES;
    assert forall e :: 0 <= e < 3 && g.parent[e].Some? ==> e == 0 && g.parent[e] == Some(2);
    if n == 1 {
      assert Cum(g, es, {}, 1) == Cum(g, es, {0}, 1) by {
        CumSame(g, es, es, {}, {0}, 1);
      }
    }
  }

  /** The example is a graph at rest, settled throughout; its format node uses bdrv_default_perms, and the
      file that forces sharing is not writable. */
  lemma ExampleRests()
    ensures AtRest(Example(), EXAMPLE_EDGES) && forall n :: 0 <= n < 3 ==> Settled(Example(), EXAMPLE_EDGES, {}, n)
    ensures UsesDefault(Example().nodes[2].driver, READ_ONLY, [{Metadata}])
  {
    ExampleShape();
    hide ShapeOk, Settled, Enough, Cum, EdgeOk, DefaultPerms;
    var g, es := Example(), EXAMPLE_EDGES;
    forall e: nat, c: Need ensures DefaultAt(g.nodes[2].driver, READ_ONLY, [{Metadata}], e, c) {
    }
    DefaultDrivers(g, [READ_ONLY, READ_ONLY, READ_ONLY], [{Metadata}]);
    forall n | 0 <= n < 3 ensures Settled(g, es, {}, n) && Enough(g, es, {}, n) {
      ExampleSettled(n);
      SettledIsEnough(g, es, n);
    }
    ExampleFree();
  }

  lemma ExampleFree()
    ensures ConflictFree(Example(), EXAMPLE_EDGES, {}) && ShareUnchanged(EXAMPLE_EDGES) && NoBackups(EXAMPLE_EDGES)
  {
  }

  method BuildExample() returns (b: Blocks)
    ensures fresh(b) && b.G() == Example() && b.edges == EXAMPLE_EDGES && Resting(b)
    ensures b.stay == b.frozen == [false, false, false]
  {
    hide AtRest, ShapeOk;
    b := new Blocks(Example(), [[0], [], [2, 1]], EXAMPLE_EDGES);
    ExampleRests();
    ExampleShape();
  }

  /** Replacing file 0 by file 1 succeeds, and the edge that moves is lost and not covered. */
  lemma ExampleLoses(list: set<nat>)
    requires ShapeOk(Example()) && EdgeOk(Example(), 0) && MoveList(Example(), [false, false, false], 0, 1, list)
    ensures list == {0} && CanTake(Example(), EXAMPLE_EDGES, list, 1)
    ensures Lost(Example(), list, 1, 2, 0) && !Covered(Example(), EXAMPLE_EDGES, list, 1, 0)
  {
    var g, es := Example(), EXAMPLE_EDGES;
    ReachesSelf(g, 2);
    if Reaches(g, 1, 2) {
      ExampleReach(1, 2);
    }
    hide Reaches, Cum, ShapeOk, EdgeOk, NeedOf;
    forall e: nat ensures e in list <==> e == 0 {
      assert e in list <==> Moves(g, [false, false, false], 0, 1, e);
    }
    assert list == {0};
    NeedOfOne(es, 0);
    ExampleCum();
    assert Write in Join(NeedOf(es, list), Cum(g, es, list, 1)).shared;
    assert Write !in g.nodes[2].driver.childPerm(0, NO_NEED).shared;
  }

  lemma ExampleExact(held: bool, why: Result)
    requires ShapeOk(Example()) && AssertionFacts(Example(), EXAMPLE_EDGES, [false, false, false], {0}, 1, 2, held, why)
    ensures held <==> AllCovered(Example(), EXAMPLE_EDGES, {0}, 1, 2)
  {
    hide ShapeOk, Reaches, Cum, Settled, AllCovered, NoneLost;
    var g, es := Example(), EXAMPLE_EDGES;
    ExampleRests();
    ExampleCum();
    forall m | Reaches(g, 2, m) ensures Settled(g, es, {}, m) {
      ExampleReach(2, m);
    }
  }

  /** From a graph at rest, bdrv_replace_node and then bdrv_detach_child of one of two users that need
      nothing: the assertion of bdrv_replace_child fails. */
  method ForceShareLost(b: Blocks) returns (r: Replaced, held: bool)
    requires Resting(b) && b.G() == Example() && b.edges == EXAMPLE_EDGES && b.stay == b.frozen == [false, false, false]
    modifies b`nodes, b`parent, b`target, b`parents, b`rank, b`edges
    ensures r.Done? && !held
  {
    hide ShapeOk, Reaches, MoveList, AssertionFacts, CanTake, AtRest, Lost, Covered, EdgeOk;
    ExampleShape();
    var why; ghost var list;
    r, held, why, list := ReplaceThenDetach(b, 0, 1, 2);
    ExampleLoses(list);
    ExampleExact(held, why);
    assert Lost(Example(), list, 1, 2, 0);
  }
}
