/** When taking a parent away from a node tightens restrictions (block.c, the assertion of
bdrv_replace_child).
*/
module Tightening {
  import opened Permissions
  import opened BlockGraph
  import opened PermissionUpdate
  import opened Wrappers

  /** The edges below n have the permissions that they are needed for, and let others do at least what
      they are allowed to. */
  ghost predicate Stale(g: Graph, es: Edges, n: nat)
    requires ShapeOk(g) && |es| == |g.target| && n < |g.nodes|
  {
    forall x :: 0 <= x < |es| && Below(g, n, x) ==> StaleEdge(g, es, x)
  }

  ghost predicate StaleEdge(g: Graph, es: Edges, x: nat)
    requires ShapeOk(g) && |es| == |g.target| && x < |es| && g.parent[x].Some?
  {
    EdgeOk(g, x) && NeedNow(g, es, x).perm == es[x].now.perm && NeedNow(g, es, x).shared <= es[x].now.shared
  }

  /** What the edges below n are needed for changes nothing for the nodes they lead to. */
  ghost predicate HarmlessFrom(g: Graph, es: Edges, n: nat)
    requires ShapeOk(g) && |es| == |g.target| && n < |g.nodes|
  {
    forall x :: 0 <= x < |es| && Below(g, n, x) ==> EdgeOk(g, x) && Harmless(g, es, x, NeedNow(g, es, x))
  }

  /** No node below n minds being used less. */
  ghost predicate Willing(g: Graph, es: Edges, n: nat)
    requires ShapeOk(g) && |es| == |g.target| && n < |g.nodes|
  {
    forall m :: 0 <= m < |g.nodes| && Reaches(g, n, m) ==> AcceptsLess(g.nodes[m], Cum(g, es, {}, m))
  }

  ghost predicate AcceptsLess(node: Node, use: Need) {
    forall cum :: Looser(cum, use) ==> Accepts(node, cum)
  }

  /** Whatever it is needed for itself, the node of edge x never shares q on it. */
  ghost predicate Withholds(g: Graph, x: nat, q: Perm)
    requires ShapeOk(g) && x < |g.parent| && g.parent[x].Some?
  {
    && EdgeOk(g, x) && !g.nodes[g.target[x]].forceShare
    && forall u :: q !in g.nodes[g.parent[x].value].driver.childPerm(x, u).shared
  }

  /** What is never shared on an edge below n is not shared by all parents of the target. */
  ghost predicate WithheldFrom(g: Graph, es: Edges, n: nat)
    requires ShapeOk(g) && |es| == |g.target| && n < |g.nodes|
  {
    forall x, q :: 0 <= x < |es| && Below(g, n, x) && Withholds(g, x, q) ==> q !in Cum(g, es, {}, g.target[x]).shared
  }

  /** Only drivers with a check of their own refuse. */
  predicate OwnRefusal(g: Graph, why: Result) {
    why.Refused? ==> why.node < |g.nodes| && g.nodes[why.node].driver.Own?
  }

  /** Whether a check of node n for what its parents need goes without tightening. */
  ghost predicate LoosenFacts(g: Graph, es: Edges, n: nat, held: bool, why: Result)
    requires ShapeOk(g) && |es| == |g.target| && n < |g.nodes|
  {
    && OwnRefusal(g, why)
    && (DriversMonotone(g) && EnoughFrom(g, es, n) ==> held)
    && (held && why.Ok? ==> WithheldFrom(g, es, n))
    && (Stale(g, es, n) && HarmlessFrom(g, es, n) ==> held)
    && (Stale(g, es, n) && Willing(g, es, n) && !why.Refused? ==> (held <==> HarmlessFrom(g, es, n)))
  }

  /** If nothing is tightened, a check for what the parents need now leaves that as it is for every
      node below. */
  lemma {:induction false} SameBelow(g: Graph, es: Edges, es1: Edges, n: nat, log: seq<Visit>, m: nat)
    requires Ready(g, es, {}) && |es1| == |es| && n < |g.nodes| && Stale(g, es, n) && OnlyBelow(g, es, es1, n, {})
    requires Checked(g, es1, {}, n, Cum(g, es, {}, n))
    requires LogOk(g, es, {}, log) && LogEnds(g, es, es1, {}, n, log) && !TightLog(log)
    requires Reaches(g, n, m)
    ensures m < |g.nodes| && Cum(g, es1, {}, m) == Cum(g, es, {}, m)
    decreases g.rank[n] as int - if m < |g.rank| then g.rank[m] as int else 0
  {
    hide Reaches, Cum, Value, Checked, Accepts, ConflictFree, DriversShare, ShareUnchanged, LogOk, TightLog, ChildNeed;
    ReachesRank(g, n, m);
    TopSame(g, es, es1, n);
    if m != n {
      LooseLog(g, es, {}, log, m);
      forall e | 0 <= e < |es| && g.target[e] == m
        ensures es1[e].now.perm == es[e].now.perm && es1[e].now.shared <= es[e].now.shared
      {
        if Below(g, n, e) {
          assert StaleEdge(g, es, e);
          SameBelow(g, es, es1, n, log, g.parent[e].value);
          CheckedEdge(g, es1, n, Cum(g, es, {}, n), e);
        }
      }
      CumShrinks(g, es, es1, m);
    }
  }

  lemma CumShrinks(g: Graph, es: Edges, es1: Edges, m: nat)
    requires |es| == |es1| == |g.target| && Looser(Cum(g, es1, {}, m), Cum(g, es, {}, m))
    requires forall e :: 0 <= e < |es| && g.target[e] == m ==> es1[e].now.perm == es[e].now.perm && es1[e].now.shared <= es[e].now.shared
    ensures Cum(g, es1, {}, m) == Cum(g, es, {}, m)
  {
    forall p: Perm ensures Used(g, es1, {}, m, p) == Used(g, es, {}, m, p) && (Shared(g, es1, {}, m, p) ==> Shared(g, es, {}, m, p)) {
      if Used(g, es, {}, m, p) {
        var e :| 0 <= e < |es| && g.target[e] == m && p in es[e].now.perm;
        assert p in es1[e].now.perm;
      }
    }
    assert Cum(g, es1, {}, m).shared == Cum(g, es, {}, m).shared;
  }

  /** After the check an edge below n carries what its node needs. */
  lemma CheckedEdge(g: Graph, es1: Edges, n: nat, cum: Need, e: nat)
    requires ShapeOk(g) && |es1| == |g.target| && n < |g.nodes| && e < |es1| && Below(g, n, e)
    requires Checked(g, es1, {}, n, cum) && Cum(g, es1, {}, n) == cum
    ensures EdgeOk(g, e) && es1[e].now == NeedNow(g, es1, e)
  {
    hide Reaches, Cum, ConflictFree, BackedUp, ChildNeed, Accepts;
    var m := g.parent[e].value;
    if m != n {
      assert Settled(g, es1, {}, m);
    }
  }

  /** So giving the edges what they are needed for was harmless. */
  lemma HeldHarmless(g: Graph, es: Edges, es1: Edges, n: nat, log: seq<Visit>)
    requires Ready(g, es, {}) && |es1| == |es| && n < |g.nodes| && Stale(g, es, n) && OnlyBelow(g, es, es1, n, {})
    requires Checked(g, es1, {}, n, Cum(g, es, {}, n))
    requires LogOk(g, es, {}, log) && LogEnds(g, es, es1, {}, n, log) && !TightLog(log)
    ensures HarmlessFrom(g, es, n)
  {
    hide Reaches, Cum, LogOk, LogEnds, TightLog, ChildNeed, Checked, DriversShare, ShareUnchanged;
    TopSame(g, es, es1, n);
    forall e | 0 <= e < |es| && Below(g, n, e) ensures EdgeOk(g, e) && es1[e].now == NeedNow(g, es, e) && es1[e].now.perm == es[e].now.perm {
      assert StaleEdge(g, es, e);
      SameBelow(g, es, es1, n, log, g.parent[e].value);
      CheckedEdge(g, es1, n, Cum(g, es, {}, n), e);
    }
    forall x | 0 <= x < |es| && Below(g, n, x) ensures Harmless(g, es, x, NeedNow(g, es, x)) {
      BelowTarget(g, n, x);
      SameBelow(g, es, es1, n, log, g.target[x]);
      CumWithin(g, es1, x);
      CheckedFree(g, es1, n, Cum(g, es, {}, n), x);
    }
  }

  lemma CumWithin(g: Graph, es: Edges, x: nat)
    requires |es| == |g.target| && x < |es|
    ensures Cum(g, es, {}, g.target[x]).shared <= es[x].now.shared
  {
    forall p | p in Cum(g, es, {}, g.target[x]).shared ensures p in es[x].now.shared {
      assert Shared(g, es, {}, g.target[x], p);
    }
  }

  lemma CheckedFree(g: Graph, es1: Edges, n: nat, cum: Need, x: nat)
    requires ShapeOk(g) && |es1| == |g.target| && n < |g.nodes| && x < |es1| && g.target[x] < |g.nodes| && Checked(g, es1, {}, n, cum)
    ensures forall f :: 0 <= f < |es1| && f != x && g.target[f] == g.target[x] ==> es1[f].now.perm <= es1[x].now.shared
  {
  }

  /** If nothing is tightened, what is withheld afterwards was withheld before. */
  lemma HeldWithheld(g: Graph, es: Edges, es1: Edges, n: nat, log: seq<Visit>)
    requires ShapeOk(g) && |es| == |es1| == |g.target| && n < |g.nodes| && OnlyBelow(g, es, es1, n, {})
    requires Checked(g, es1, {}, n, Cum(g, es, {}, n))
    requires LogOk(g, es, {}, log) && LogEnds(g, es, es1, {}, n, log) && !TightLog(log)
    ensures WithheldFrom(g, es, n)
  {
    hide Reaches, Cum, LogOk, TightLog, Checked, Value, OnlyBelow;
    TopSame(g, es, es1, n);
    forall x, q | 0 <= x < |es| && Below(g, n, x) && Withholds(g, x, q) ensures q !in Cum(g, es, {}, g.target[x]).shared {
      CheckedEdge(g, es1, n, Cum(g, es, {}, n), x);
      BelowTarget(g, n, x);
      CumWithin(g, es1, x);
      LooseLog(g, es, {}, log, g.target[x]);
    }
  }

  lemma TopSame(g: Graph, es: Edges, es1: Edges, n: nat)
    requires ShapeOk(g) && n < |g.nodes| && OnlyBelow(g, es, es1, n, {})
    ensures Cum(g, es1, {}, n) == Cum(g, es, {}, n)
  {
    hide Reaches, Cum;
    forall e | 0 <= e < |es| && g.target[e] == n ensures es1[e] == es[e] {
      if Below(g, n, e) {
        BelowTarget(g, n, e);
      }
    }
    CumSame(g, es, es1, {}, {}, n);
  }

  /** A node that does not mind being used less accepts what it is checked for as long as nothing is
      tightened. */
  lemma WillingAccepts(g: Graph, es: Edges, n: nat, m: nat, log: seq<Visit>)
    requires ShapeOk(g) && |es| == |g.target| && n < |g.nodes| && Willing(g, es, n)
    requires LogOk(g, es, {}, log) && LogIn(g, n, log) && !TightLog(log) && LastIs(log, m) && m < |g.nodes|
    ensures Accepts(g.nodes[m], log[|log| - 1].cum)
  {
    hide Reaches, Cum, Accepts;
    var v, rest := log[|log| - 1], log[..|log| - 1];
    assert forall i :: 0 <= i < |rest| ==> rest[i] == log[i] && rest[..i] == log[..i];
    LooseLog(g, es, {}, rest, m);
    assert Looser(v.cum, v.before);
    assert AcceptsLess(g.nodes[m], Cum(g, es, {}, m));
  }

  /** The check of bdrv_replace_child for the old node. */
  lemma LoosenExact(g: Graph, es: Edges, es1: Edges, n: nat, r: Result, tighten: bool, log: seq<Visit>)
    requires Ready(g, es, {}) && |es1| == |es| && n < |g.nodes| && OnlyBelow(g, es, es1, n, {})
    requires NodeFacts(g, es, es1, {}, n, Cum(g, es, {}, n), true, r, tighten, log)
    requires (r.Ok? ==> Checked(g, es1, {}, n, Cum(g, es, {}, n))) && OwnRefusal(g, r)
    ensures LoosenFacts(g, es, n, !tighten, r)
    ensures !tighten && Willing(g, es, n) && !r.Refused? ==> r.Ok?
  {
    hide Reaches, Cum, LogOk, LogEnds, LogIn, TightLog, Checked, OnlyBelow, Willing, EnoughFrom, DriversMonotone;
    hide Harmless, NeedNow, ConflictFree, DriversShare, ShareUnchanged, Calm, AllLooser, WithheldFrom;
    if !tighten && Willing(g, es, n) && (r.ReadOnly? || r.Unaligned?) {
      WillingAccepts(g, es, n, r.node, log);
    }
    if !tighten && r.Ok? {
      HeldWithheld(g, es, es1, n, log);
      if Stale(g, es, n) {
        HeldHarmless(g, es, es1, n, log);
      }
    }
    if Stale(g, es, n) && HarmlessFrom(g, es, n) {
      forall x | 0 <= x < |es| && Below(g, n, x) ensures EdgeOk(g, x) && SteadyEdge(g, es, x, NeedNow(g, es, x)) {
        assert StaleEdge(g, es, x);
      }
    }
  }

  /** All this depends on the permissions in force only. */
  lemma SameNowSame(g: Graph, es: Edges, es': Edges, n: nat)
    requires ShapeOk(g) && |es| == |es'| == |g.target| && n < |g.nodes| && forall e :: 0 <= e < |es| ==> es'[e].now == es[e].now
    ensures Stale(g, es, n) ==> Stale(g, es', n)
    ensures HarmlessFrom(g, es, n) ==> HarmlessFrom(g, es', n)
    ensures Willing(g, es, n) ==> Willing(g, es', n)
    ensures WithheldFrom(g, es, n) ==> WithheldFrom(g, es', n)
    ensures EnoughFrom(g, es, n) ==> EnoughFrom(g, es', n)
  {
    hide Reaches, Cum, ChildNeed, Looser, AcceptsLess, Withholds;
    forall m ensures Cum(g, es', {}, m) == Cum(g, es, {}, m) {
      CumSame(g, es, es', {}, {}, m);
    }
    forall x | 0 <= x < |es| && g.parent[x].Some? && EdgeOk(g, x) ensures NeedNow(g, es', x) == NeedNow(g, es, x) {
    }
    if Stale(g, es, n) {
      forall x | 0 <= x < |es| && Below(g, n, x) ensures StaleEdge(g, es', x) {
        assert StaleEdge(g, es, x);
      }
    }
  }

  lemma LoosenSameNow(g: Graph, es: Edges, es': Edges, n: nat, held: bool, why: Result)
    requires ShapeOk(g) && |es| == |es'| == |g.target| && n < |g.nodes| && forall e :: 0 <= e < |es| ==> es'[e].now == es[e].now
    requires LoosenFacts(g, es, n, held, why)
    ensures LoosenFacts(g, es', n, held, why)
  {
    hide Stale, HarmlessFrom, Willing, EnoughFrom, DriversMonotone, WithheldFrom;
    SameNowSame(g, es, es', n);
    SameNowSame(g, es', es, n);
  }
}
