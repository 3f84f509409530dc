/** Permission updates in the block graph (block.c): a check that recurses through the graph and
writes the new permissions, keeping a backup, followed by a set that drops the backups or by an abort
that restores them.
*/
module PermissionUpdate {
  import opened Permissions
  import opened BlockGraph
  import opened Wrappers

  /** What came of a check, and which edge or node stands in the way. */
  datatype Result = Ok | Conflict(edge: nat, need: Need) | ReadOnly(node: nat) | Unaligned(node: nat) | Refused(node: nat)

  // ---------------------------------------------------------------- what a check does

  /** Edges keep what they had before the update, in force or as backup. */
  ghost predicate SameOrigin(es: Edges, es': Edges) {
    |es| == |es'| && forall e :: 0 <= e < |es| ==> Origin(es'[e]) == Origin(es[e])
  }

  ghost predicate Ready(g: Graph, es: Edges, ign: set<nat>) {
    ShapeOk(g) && |es| == |g.target| && ConflictFree(g, es, ign) && ShareUnchanged(es) && DriversShare(g)
  }

  /** `ignore` leaves out, among the edges to t and to nodes below t, those in ign and no others. */
  ghost predicate IgnoreFrom(g: Graph, t: nat, ignore: set<nat>, ign: set<nat>)
    requires ShapeOk(g) && t < |g.nodes|
  {
    && (forall e :: 0 <= e < |g.target| && Reaches(g, t, g.target[e]) ==> (e in ignore <==> e in ign))
    && (forall e :: 0 <= e < |g.target| && Below(g, t, e) ==> e !in ign)
  }

  /** The same for the nodes strictly below n. */
  ghost predicate IgnoreBelow(g: Graph, n: nat, ignore: set<nat>, ign: set<nat>)
    requires ShapeOk(g) && n < |g.nodes|
  {
    && (forall e :: 0 <= e < |g.target| && Reaches(g, n, g.target[e]) && g.target[e] != n ==> (e in ignore <==> e in ign))
    && (forall e :: 0 <= e < |g.target| && Below(g, n, e) ==> e !in ign)
  }

  lemma IgnoreAtChild(g: Graph, n: nat, c: nat, ignore: set<nat>, ign: set<nat>)
    requires ShapeOk(g) && c < |g.target| && g.parent[c] == Some(n) && n < |g.nodes| && IgnoreBelow(g, n, ignore, ign)
    ensures g.target[c] < |g.nodes| && IgnoreFrom(g, g.target[c], ignore, ign) && c !in ign
  {
    hide Reaches;
    ReachesTarget(g, c);
    ReachesSelf(g, n);
    var t := g.target[c];
    assert Below(g, n, c);
    forall e | 0 <= e < |g.target| && Reaches(g, t, g.target[e]) ensures e in ignore <==> e in ign {
      ReachesTrans(g, n, t, g.target[e]);
      ReachesRank(g, t, g.target[e]);
    }
    forall e | 0 <= e < |g.target| && Below(g, t, e) ensures e !in ign {
      ReachesTrans(g, n, t, g.parent[e].value);
      assert Below(g, n, e);
    }
  }

  lemma IgnoreItself(g: Graph, c: nat, ignore: set<nat>, ign: set<nat>)
    requires ShapeOk(g) && c < |g.target| && g.target[c] < |g.nodes| && IgnoreFrom(g, g.target[c], ignore, ign)
    ensures IgnoreBelow(g, g.target[c], ignore + {c}, ign)
  {
  }

  /** Node n can be used for cum, and its edges carry what n needs for that. */
  ghost predicate Carries(g: Graph, es: Edges, n: nat, cum: Need)
    requires ShapeOk(g) && |es| == |g.target| && n < |g.nodes|
  {
    && Accepts(g.nodes[n], cum)
    && forall e :: 0 <= e < |es| && g.parent[e] == Some(n) ==> EdgeOk(g, e) && es[e].now == ChildNeed(g, n, e, cum)
  }

  ghost predicate SettledBelow(g: Graph, es: Edges, ign: set<nat>, n: nat)
    requires ShapeOk(g) && |es| == |g.target| && n < |g.nodes|
  {
    forall m :: Reaches(g, n, m) && m != n ==> Settled(g, es, ign, m)
  }

  ghost predicate SettledFrom(g: Graph, es: Edges, ign: set<nat>, t: nat)
    requires ShapeOk(g) && |es| == |g.target| && t < |g.nodes|
  {
    forall m :: Reaches(g, t, m) ==> Settled(g, es, ign, m)
  }

  ghost predicate BackedUp(g: Graph, es: Edges, n: nat)
    requires ShapeOk(g) && |es| == |g.target| && n < |g.nodes|
  {
    forall e :: 0 <= e < |es| && Below(g, n, e) ==> es[e].backup.Some?
  }

  /** Node n has been checked for cum, with everything below it. */
  ghost predicate Checked(g: Graph, es: Edges, ign: set<nat>, n: nat, cum: Need)
    requires ShapeOk(g) && |es| == |g.target| && n < |g.nodes|
  {
    ConflictFree(g, es, ign) && Carries(g, es, n, cum) && SettledBelow(g, es, ign, n) && BackedUp(g, es, n)
  }

  /** The first k edges of n have been checked. */
  ghost predicate CheckedPart(g: Graph, es: Edges, ign: set<nat>, n: nat, cum: Need, k: nat)
    requires ShapeOk(g) && |es| == |g.target| && n < |g.nodes| && k <= |g.nodes[n].children|
  {
    && ConflictFree(g, es, ign)
    && forall j :: 0 <= j < k ==> EdgeChecked(g, es, ign, n, cum, g.nodes[n].children[j])
  }

  ghost predicate EdgeChecked(g: Graph, es: Edges, ign: set<nat>, n: nat, cum: Need, e: nat)
    requires ShapeOk(g) && |es| == |g.target| && e < |es| && g.parent[e] == Some(n)
  {
    && EdgeOk(g, e) && es[e].now == ChildNeed(g, n, e, cum) && es[e].backup.Some?
    && SettledFrom(g, es, ign, g.target[e]) && BackedUp(g, es, g.target[e])
  }

  /** Every node from n on down that is written to, as its parents need it, is writable, and has an aligned
      size unless it may be resized; for n the need is cum. */
  ghost predicate WritersFit(g: Graph, es: Edges, ign: set<nat>, n: nat, cum: Need)
    requires ShapeOk(g) && |es| == |g.target| && n < |g.nodes|
  {
    forall m :: 0 <= m < |g.nodes| && Reaches(g, n, m) ==>
      var use := if m == n then cum else Cum(g, es, ign, m);
      Write in use.perm || WriteUnchanged in use.perm ==> g.nodes[m].writable && (Resize in use.perm || !g.nodes[m].unaligned)
  }

  /** The node can be used like this: it is writable if it is to be written to, and aligned if it is to be
      written to without being resized. */
  ghost predicate Fits(node: Node, use: Need) {
    && (Write in use.perm ==> node.writable) && (WriteUnchanged in use.perm ==> node.writable)
    && ((Write in use.perm || WriteUnchanged in use.perm) && node.unaligned ==> Resize in use.perm)
  }

  lemma CheckedFit(g: Graph, es: Edges, ign: set<nat>, n: nat, cum: Need)
    requires ShapeOk(g) && |es| == |g.target| && n < |g.nodes| && Checked(g, es, ign, n, cum)
    ensures WritersFit(g, es, ign, n, cum)
  {
    hide Reaches, Cum, ChildNeed, ConflictFree, BackedUp;
    forall m | 0 <= m < |g.nodes| && Reaches(g, n, m) && m != n ensures Accepts(g.nodes[m], Cum(g, es, ign, m)) {
      assert Settled(g, es, ign, m);
    }
  }

  lemma SettledFit(g: Graph, es: Edges, ign: set<nat>, n: nat)
    requires ShapeOk(g) && |es| == |g.target| && n < |g.nodes| && SettledFrom(g, es, ign, n)
    ensures WritersFit(g, es, ign, n, Cum(g, es, ign, n))
  {
    hide Reaches, Cum, ChildNeed;
    forall m | 0 <= m < |g.nodes| && Reaches(g, n, m) ensures Accepts(g.nodes[m], Cum(g, es, ign, m)) {
      assert Settled(g, es, ign, m);
    }
  }

  lemma CheckedAll(g: Graph, es: Edges, ign: set<nat>, n: nat, cum: Need)
    requires ShapeOk(g) && |es| == |g.target| && n < |g.nodes| && Accepts(g.nodes[n], cum)
    requires CheckedPart(g, es, ign, n, cum, |g.nodes[n].children|)
    ensures Checked(g, es, ign, n, cum)
  {
    hide Reaches, Settled, ConflictFree, ChildNeed;
    forall e | 0 <= e < |es| && g.parent[e] == Some(n) ensures EdgeChecked(g, es, ign, n, cum, e) {
      assert EdgeOk(g, e);
    }
    forall m | Reaches(g, n, m) && m != n ensures Settled(g, es, ign, m) {
      var e := ReachesDown(g, n, m);
      assert EdgeChecked(g, es, ign, n, cum, e);
    }
    forall e | 0 <= e < |es| && Below(g, n, e) ensures es[e].backup.Some? {
      if g.parent[e].value != n {
        var d := ReachesDown(g, n, g.parent[e].value);
        assert EdgeChecked(g, es, ign, n, cum, d);
        assert Below(g, g.target[d], e);
      }
    }
  }

  /** Checking one more edge keeps what was found for the others. */
  lemma EdgeStaysChecked(g: Graph, es: Edges, es': Edges, ign: set<nat>, n: nat, cum: Need, e: nat, c: nat)
    requires ShapeOk(g) && |es| == |g.target| && e < |es| && c < |es| && e != c && g.parent[e] == g.parent[c] == Some(n)
    requires EdgeOk(g, c) && EdgeChecked(g, es, ign, n, cum, e) && OnlyBelow(g, es, es', g.target[c], {c})
    requires SettledFrom(g, es', ign, g.target[c]) && BackedUp(g, es', g.target[c])
    ensures EdgeChecked(g, es', ign, n, cum, e)
  {
    hide Reaches, Settled, ChildNeed, Enough;
    ReachesTarget(g, c);
    ReachesTarget(g, e);
    if Reaches(g, g.target[c], n) {
      ReachesRank(g, g.target[c], n);
    }
    assert es'[e] == es[e];
    forall m | Reaches(g, g.target[e], m) ensures Settled(g, es', ign, m) {
      if !Reaches(g, g.target[c], m) {
        ReachesRank(g, g.target[e], m);
        assert Settled(g, es, ign, m);
        ElsewhereSame(g, es, es', ign, c, m);
      }
    }
    forall d | 0 <= d < |es| && Below(g, g.target[e], d) ensures es'[d].backup.Some? {
      if !Below(g, g.target[c], d) && d == c {
        ReachesRank(g, g.target[e], n);
      }
    }
  }

  // ---------------------------------------------------------------- loosening

  /** Every node from n on down carries at least what is needed. */
  ghost predicate EnoughFrom(g: Graph, es: Edges, n: nat)
    requires ShapeOk(g) && |es| == |g.target| && n < |g.nodes|
  {
    forall m :: Reaches(g, n, m) ==> Enough(g, es, {}, m)
  }

  ghost predicate EnoughBelow(g: Graph, es: Edges, n: nat)
    requires ShapeOk(g) && |es| == |g.target| && n < |g.nodes|
  {
    forall m :: Reaches(g, n, m) && m != n ==> Enough(g, es, {}, m)
  }

  lemma SettledIsEnough(g: Graph, es: Edges, n: nat)
    requires ShapeOk(g) && |es| == |g.target| && Settled(g, es, {}, n)
    ensures Enough(g, es, {}, n)
  {
    hide ChildNeed, Cum;
  }

  lemma EnoughStays(g: Graph, es: Edges, es': Edges, n: nat, c: nat)
    requires ShapeOk(g) && |es| == |g.target| && n < |g.nodes| && c < |es| && g.parent[c] == Some(n)
    requires EdgeOk(g, c) && EnoughBelow(g, es, n) && OnlyBelow(g, es, es', g.target[c], {c})
    requires SettledFrom(g, es', {}, g.target[c])
    ensures EnoughBelow(g, es', n)
  {
    hide Reaches, Settled, ChildNeed, Enough;
    forall m | Reaches(g, n, m) && m != n ensures Enough(g, es', {}, m) {
      if Reaches(g, g.target[c], m) {
        SettledIsEnough(g, es', m);
      } else {
        ReachesRank(g, n, m);
        ElsewhereSame(g, es, es', {}, c, m);
      }
    }
  }

  lemma EnoughAtChild(g: Graph, es: Edges, n: nat, c: nat)
    requires ShapeOk(g) && |es| == |g.target| && n < |g.nodes| && c < |es| && g.parent[c] == Some(n) && EnoughBelow(g, es, n)
    ensures g.target[c] < |g.nodes| && EnoughFrom(g, es, g.target[c])
  {
    hide Reaches, Enough;
    ReachesTarget(g, c);
    forall m | Reaches(g, g.target[c], m) ensures Enough(g, es, {}, m) {
      ReachesTrans(g, n, g.target[c], m);
      ReachesRank(g, g.target[c], m);
    }
  }

  /** A node whose parents need less needs no more of its edges than they carry. */
  lemma LooserChild(g: Graph, es: Edges, n: nat, e: nat, cum: Need)
    requires ShapeOk(g) && |es| == |g.target| && e < |es| && g.parent[e] == Some(n) && n < |g.nodes|
    requires DriversMonotone(g) && Enough(g, es, {}, n) && Looser(cum, Cum(g, es, {}, n))
    ensures EdgeOk(g, e) && Looser(ChildNeed(g, n, e, cum), es[e].now)
  {
    hide ChildNeed, Cum;
    assert EdgeOk(g, e);
    ChildNeedMonotone(g, n, e, cum, Cum(g, es, {}, n));
  }

  // ---------------------------------------------------------------- folding over the parents

  /** What the first k edges of the list need together. */
  function Fold(es: Edges, list: seq<nat>, ignore: set<nat>, k: nat): Need
    requires k <= |list| && forall i :: 0 <= i < |list| ==> list[i] < |es|
  {
    if k == 0 then NO_NEED
    else if list[k - 1] in ignore then Fold(es, list, ignore, k - 1)
    else Join(Fold(es, list, ignore, k - 1), es[list[k - 1]].now)
  }

  lemma {:induction false} FoldMembers(es: Edges, list: seq<nat>, ignore: set<nat>, k: nat, p: Perm)
    requires k <= |list| && forall i :: 0 <= i < |list| ==> list[i] < |es|
    ensures p in Fold(es, list, ignore, k).perm <==> exists i :: 0 <= i < k && list[i] !in ignore && p in es[list[i]].now.perm
    ensures p in Fold(es, list, ignore, k).shared <==> forall i :: 0 <= i < k && list[i] !in ignore ==> p in es[list[i]].now.shared
  {
    if k == 0 {
      AllPerms(p);
    } else {
      FoldMembers(es, list, ignore, k - 1, p);
    }
  }

  /** The list holds exactly the edges to n. */
  ghost predicate ParentList(g: Graph, list: seq<nat>, n: nat) {
    && (forall i :: 0 <= i < |list| ==> list[i] < |g.target| && g.target[list[i]] == n)
    && (forall e :: 0 <= e < |g.target| && g.target[e] == n ==> e in list)
  }

  lemma FoldIsCum(g: Graph, es: Edges, ignore: set<nat>, n: nat, list: seq<nat>)
    requires |es| == |g.target| && ParentList(g, list, n)
    ensures Fold(es, list, ignore, |list|) == Cum(g, es, ignore, n)
  {
    hide Fold;
    forall p: Perm
      ensures p in Fold(es, list, ignore, |list|).perm <==> Used(g, es, ignore, n, p)
      ensures p in Fold(es, list, ignore, |list|).shared <==> Shared(g, es, ignore, n, p)
    {
      FoldMembers(es, list, ignore, |list|, p);
      forall e | 0 <= e < |es| && g.target[e] == n ensures exists i :: 0 <= i < |list| && list[i] == e {
        assert e in list;
      }
    }
  }

  lemma JoinNothing(need: Need)
    ensures Join(need, NO_NEED) == need
  {
    forall p: Perm { AllPerms(p); }
  }

  // ---------------------------------------------------------------- the checks

  /** What a failed check says is so. */
  ghost predicate Reason(g: Graph, es: Edges, n: nat, r: Result)
    requires ShapeOk(g) && |es| == |g.target| && n < |g.nodes|
  {
    match r
    case Ok => true
    case Conflict(f, need) => f < |es| && Reaches(g, n, g.target[f]) && !Compatible(need, es[f].now)
    case ReadOnly(m) => Reaches(g, n, m) && m < |g.nodes| && !g.nodes[m].writable
    case Unaligned(m) => Reaches(g, n, m) && m < |g.nodes| && g.nodes[m].unaligned
    case Refused(m) => Reaches(g, n, m) && m < |g.nodes| && g.nodes[m].driver.Own?
  }

  lemma ReasonUp(g: Graph, es: Edges, n: nat, c: nat, r: Result)
    requires ShapeOk(g) && |es| == |g.target| && n < |g.nodes| && c < |es| && g.parent[c] == Some(n) && EdgeOk(g, c)
    requires Reason(g, es, g.target[c], r)
    ensures Reason(g, es, n, r)
  {
    hide Reaches;
    ReachesTarget(g, c);
    match r {
      case Ok =>
      case Conflict(f, need) => ReachesTrans(g, n, g.target[c], g.target[f]);
      case ReadOnly(m) => ReachesTrans(g, n, g.target[c], m);
      case Unaligned(m) => ReachesTrans(g, n, g.target[c], m);
      case Refused(m) => ReachesTrans(g, n, g.target[c], m);
    }
  }

  /** The update so far can be undone below n. */
  ghost predicate Undoable(g: Graph, es: Edges, es': Edges, n: nat, also: set<nat>)
    requires ShapeOk(g) && n < |g.nodes|
  {
    OnlyBelow(g, es, es', n, also) && SameOrigin(es, es') && ShareUnchanged(es')
  }

  lemma UndoableUp(g: Graph, es: Edges, es': Edges, es'': Edges, n: nat, c: nat)
    requires ShapeOk(g) && n < |g.nodes| && c < |g.target| && g.parent[c] == Some(n) && EdgeOk(g, c)
    requires Undoable(g, es, es', n, {}) && Undoable(g, es', es'', g.target[c], {c})
    ensures Undoable(g, es, es'', n, {})
  {
    hide Reaches;
    ReachesSelf(g, n);
    forall e | 0 <= e < |es| && !Below(g, n, e) ensures es''[e] == es[e] {
      if Below(g, g.target[c], e) {
        ReachesTarget(g, c);
        ReachesTrans(g, n, g.target[c], g.parent[e].value);
      }
    }
  }

  /** No edge needs more than before. */
  ghost predicate AllLooser(es: Edges, es': Edges) {
    |es| == |es'| && forall e :: 0 <= e < |es| ==> Looser(es'[e].now, es[e].now)
  }

  ghost predicate LooseCheck(g: Graph, es: Edges, ign: set<nat>, n: nat, cum: Need)
    requires ShapeOk(g) && |es| == |g.target| && n < |g.nodes|
  {
    ign == {} && DriversMonotone(g) && EnoughFrom(g, es, n) && Looser(cum, Cum(g, es, {}, n))
  }

  ghost predicate LooseChild(g: Graph, es: Edges, ign: set<nat>, c: nat, need: Need)
    requires ShapeOk(g) && |es| == |g.target| && c < |es| && g.target[c] < |g.nodes|
  {
    ign == {} && DriversMonotone(g) && EnoughFrom(g, es, g.target[c]) && Looser(need, es[c].now)
  }

  /** The need gets along with the edges to n that are not ignored. */
  ghost predicate AllCompatible(g: Graph, es: Edges, ignore: set<nat>, n: nat, need: Need)
    requires |es| == |g.target|
  {
    forall e :: 0 <= e < |es| && g.target[e] == n && e !in ignore ==> Compatible(need, es[e].now)
  }

  ghost predicate LooseUpdate(g: Graph, es: Edges, ign: set<nat>, ignore: set<nat>, n: nat, need: Need)
    requires ShapeOk(g) && |es| == |g.target| && n < |g.nodes|
  {
    AllCompatible(g, es, ignore, n, need) && LooseCheck(g, es, ign, n, Join(need, Cum(g, es, ignore, n)))
  }

  lemma CumShares(g: Graph, es: Edges, ignore: set<nat>, n: nat, need: Need)
    requires |es| == |g.target| && ShareUnchanged(es) && WriteUnchanged in need.shared
    ensures WriteUnchanged in Join(need, Cum(g, es, ignore, n)).shared
  {
    assert Shared(g, es, ignore, n, WriteUnchanged);
  }

  /** A smaller need on an edge is compatible with the others, and loosens its target. */
  lemma LooseChildUpdate(g: Graph, es: Edges, ignore: set<nat>, c: nat, need: Need)
    requires Ready(g, es, {}) && c < |es| && g.target[c] < |g.nodes| && LooseChild(g, es, {}, c, need)
    requires IgnoreFrom(g, g.target[c], ignore, {})
    ensures LooseUpdate(g, es, {}, ignore + {c}, g.target[c], need)
  {
    hide EnoughFrom, DriversMonotone, DriversShare;
    var t := g.target[c];
    ReachesSelf(g, t);
    hide Reaches;
    forall e | 0 <= e < |es| && g.target[e] == t && e !in ignore + {c} ensures Compatible(need, es[e].now) {
      assert es[c].now.perm <= es[e].now.shared && es[e].now.perm <= es[c].now.shared;
    }
    forall p: Perm
      ensures p in need.perm || Used(g, es, ignore + {c}, t, p) ==> Used(g, es, {}, t, p)
      ensures Shared(g, es, {}, t, p) ==> p in need.shared && Shared(g, es, ignore + {c}, t, p)
    {
      if p in need.perm {
        assert p in es[c].now.perm;
      }
      if Shared(g, es, {}, t, p) {
        assert p in es[c].now.shared;
      }
    }
  }

  /** What holds once edge c is given its new need. */
  lemma ChildChecked(g: Graph, es: Edges, es1: Edges, es2: Edges, ignore: set<nat>, ign: set<nat>, c: nat, need: Need)
    requires ShapeOk(g) && |es| == |g.target| && c < |es| && g.target[c] < |g.nodes|
    requires IgnoreFrom(g, g.target[c], ignore, ign) && c !in ign && OnlyBelow(g, es, es1, g.target[c], {})
    requires AllCompatible(g, es, ignore + {c}, g.target[c], need)
    requires Checked(g, es1, ign, g.target[c], Join(need, Cum(g, es, ignore + {c}, g.target[c])))
    requires |es2| == |es1| && es2 == es1[c := es2[c]] && es2[c].now == need && es2[c].backup.Some?
    ensures ConflictFree(g, es2, ign) && SettledFrom(g, es2, ign, g.target[c]) && BackedUp(g, es2, g.target[c])
  {
    var t := g.target[c];
    ReachesSelf(g, t);
    hide Reaches, ChildNeed, Cum;
    forall e | 0 <= e < |es| && g.target[e] == t ensures es1[e] == es[e] {
      if Below(g, t, e) {
        BelowTarget(g, t, e);
      }
    }
    CumSame(g, es, es1, ignore + {c}, ign + {c}, t);
    CumWith(g, es1, es2, ign, c, need);
    assert g.parent[c].Some? ==> EdgeOk(g, c);
    forall m | Reaches(g, t, m) ensures Settled(g, es2, ign, m) {
      ReachesRank(g, t, m);
      if m != t {
        assert Settled(g, es1, ign, m);
        CumSame(g, es1, es2, ign, ign, m);
      }
    }
  }

  lemma NothingBelow(g: Graph, es: Edges, ign: set<nat>, n: nat, cum: Need)
    requires ShapeOk(g) && |es| == |g.target| && n < |g.nodes| && !g.nodes[n].driver.Interior? && ConflictFree(g, es, ign)
    requires Accepts(g.nodes[n], cum)
    ensures Checked(g, es, ign, n, cum)
  {
    forall e | 0 <= e < |es| && g.parent[e].Some? ensures g.parent[e] != Some(n) {
      assert EdgeOk(g, e);
    }
  }

  lemma NothingYet(g: Graph, es: Edges, ign: set<nat>, n: nat, cum: Need)
    requires Ready(g, es, ign) && n < |g.nodes|
    ensures Undoable(g, es, es, n, {}) && CheckedPart(g, es, ign, n, cum, 0)
    ensures EnoughFrom(g, es, n) ==> EnoughBelow(g, es, n) && Enough(g, es, {}, n)
  {
    ReachesSelf(g, n);
  }

  lemma NeedShares(g: Graph, n: nat, e: nat, cum: Need)
    requires ShapeOk(g) && DriversShare(g) && e < |g.target| && g.parent[e] == Some(n) && WriteUnchanged in cum.shared
    ensures EdgeOk(g, e) && WriteUnchanged in ChildNeed(g, n, e, cum).shared
  {
    assert EdgeOk(g, e);
  }

  lemma NotBelowItself(g: Graph, c: nat)
    requires ShapeOk(g) && c < |g.target| && g.target[c] < |g.nodes|
    ensures !Below(g, g.target[c], c)
  {
    hide Reaches;
    if Below(g, g.target[c], c) {
      BelowTarget(g, g.target[c], c);
    }
  }

  lemma NothingEnough(g: Graph, es: Edges, n: nat)
    requires ShapeOk(g) && |es| == |g.target| && n < |g.nodes| && EnoughFrom(g, es, n)
    ensures Enough(g, es, {}, n)
  {
    ReachesSelf(g, n);
  }

  /** Checking edge c of n leaves the other edges of n alone. */
  lemma SiblingsSame(g: Graph, es: Edges, es': Edges, n: nat, c: nat)
    requires ShapeOk(g) && c < |g.target| && g.parent[c] == Some(n) && EdgeOk(g, c) && OnlyBelow(g, es, es', g.target[c], {c})
    ensures forall e :: 0 <= e < |es| && g.parent[e] == Some(n) && e != c ==> es'[e] == es[e]
  {
    hide Reaches;
    if Reaches(g, g.target[c], n) {
      ReachesRank(g, g.target[c], n);
    }
  }

  // ---------------------------------------------------------------- how an update ends

  datatype Ending = Commit | Abort

  /** An edge after the update: with the new permissions, or with those before. */
  function End(x: Edge, how: Ending): Edge {
    Edge(if how.Commit? then x.now else Origin(x), None)
  }

  /** The update has ended on the edges below n and those in `also`; the others are untouched. */
  ghost predicate Ended(g: Graph, es: Edges, es': Edges, n: nat, also: set<nat>, how: Ending)
    requires ShapeOk(g) && n < |g.nodes|
  {
    && |es| == |es'| == |g.target|
    && forall e :: 0 <= e < |es| ==> es'[e] == if Below(g, n, e) || e in also then End(es[e], how) else es[e]
  }

  ghost predicate EndedPart(g: Graph, es: Edges, es': Edges, n: nat, k: nat, how: Ending)
    requires ShapeOk(g) && n < |g.nodes| && k <= |g.nodes[n].children|
  {
    && OnlyBelow(g, es, es', n, {})
    && (forall e :: 0 <= e < |es| ==> es'[e] == es[e] || es'[e] == End(es[e], how))
    && (forall j :: 0 <= j < k ==> EndedEdge(g, es, es', n, g.nodes[n].children[j], how))
  }

  /** Edge c of n, and everything below it. */
  ghost predicate EndedEdge(g: Graph, es: Edges, es': Edges, n: nat, c: nat, how: Ending)
    requires ShapeOk(g) && n < |g.nodes| && c < |g.target| && g.parent[c] == Some(n) && |es| == |es'| == |g.target|
  {
    && EdgeOk(g, c) && es'[c] == End(es[c], how)
    && forall e :: 0 <= e < |es| && Below(g, g.target[c], e) ==> es'[e] == End(es[e], how)
  }

  lemma NoEdges(g: Graph, n: nat)
    requires ShapeOk(g) && n < |g.nodes| && !g.nodes[n].driver.Interior?
    ensures forall e :: 0 <= e < |g.parent| ==> !Below(g, n, e)
  {
    forall e | 0 <= e < |g.parent| && g.parent[e].Some? ensures g.parent[e] != Some(n) {
      assert EdgeOk(g, e);
    }
  }

  lemma ChildOf(g: Graph, n: nat, i: nat)
    requires ShapeOk(g) && n < |g.nodes| && i < |g.nodes[n].children|
    ensures var c := g.nodes[n].children[i]; c < |g.target| && g.parent[c] == Some(n) && EdgeOk(g, c)
  {
    assert EdgeOk(g, g.nodes[n].children[i]);
  }

  lemma EndedStep(g: Graph, es: Edges, es1: Edges, es2: Edges, n: nat, i: nat, how: Ending)
    requires ShapeOk(g) && n < |g.nodes| && i < |g.nodes[n].children| && EndedPart(g, es, es1, n, i, how)
    requires var c := g.nodes[n].children[i]; EdgeOk(g, c) && Ended(g, es1, es2, g.target[c], {c}, how)
    ensures EndedPart(g, es, es2, n, i + 1, how)
  {
    hide Reaches;
    var c := g.nodes[n].children[i];
    ReachesSelf(g, n);
    ReachesTarget(g, c);
    forall e | 0 <= e < |es| && !Below(g, n, e) ensures es2[e] == es[e] {
      if Below(g, g.target[c], e) {
        ReachesTrans(g, n, g.target[c], g.parent[e].value);
      }
    }
    forall j | 0 <= j < i ensures EndedEdge(g, es, es2, n, g.nodes[n].children[j], how) {
      assert EndedEdge(g, es, es1, n, g.nodes[n].children[j], how);
    }
  }

  lemma EndedAll(g: Graph, es: Edges, es': Edges, n: nat, how: Ending)
    requires ShapeOk(g) && n < |g.nodes| && EndedPart(g, es, es', n, |g.nodes[n].children|, how)
    ensures Ended(g, es, es', n, {}, how)
  {
    hide Reaches;
    forall e | 0 <= e < |es| && Below(g, n, e) ensures es'[e] == End(es[e], how) {
      var m := g.parent[e].value;
      var d := e;
      if m != n {
        d := ReachesDown(g, n, m);
      }
      assert EdgeOk(g, d);
      var j :| 0 <= j < |g.nodes[n].children| && g.nodes[n].children[j] == d;
      assert EndedEdge(g, es, es', n, g.nodes[n].children[j], how);
      assert m != n ==> Below(g, g.target[d], e);
    }
  }

  /** After a failed check the abort gives every edge back what it had, and leaves no backup. */
  lemma AbortUndoes(g: Graph, es: Edges, es1: Edges, es2: Edges, n: nat, also: set<nat>)
    requires ShapeOk(g) && n < |g.nodes| && |es| == |g.target| && NoBackups(es)
    requires OnlyBelow(g, es, es1, n, also) && SameOrigin(es, es1) && Ended(g, es1, es2, n, also, Abort)
    ensures es2 == es
  {
    hide Reaches, Below;
  }

  lemma SettledSameNow(g: Graph, es: Edges, es': Edges, n: nat)
    requires ShapeOk(g) && |es| == |es'| == |g.target| && forall e :: 0 <= e < |es| ==> es'[e].now == es[e].now
    ensures Settled(g, es', {}, n) == Settled(g, es, {}, n)
  {
    hide Cum, ChildNeed, Accepts;
    CumSame(g, es, es', {}, {}, n);
  }

  lemma SettledAtChild(g: Graph, es: Edges, es': Edges, n: nat, c: nat)
    requires ShapeOk(g) && n < |g.nodes| && c < |g.target| && g.parent[c] == Some(n) && EdgeOk(g, c)
    requires |es| == |es'| == |g.target| && forall e :: 0 <= e < |es| ==> es'[e].now == es[e].now
    requires SettledBelow(g, es, {}, n)
    ensures SettledFrom(g, es', {}, g.target[c])
  {
    hide Reaches, Settled;
    ReachesTarget(g, c);
    forall m | Reaches(g, g.target[c], m) ensures Settled(g, es', {}, m) {
      ReachesTrans(g, n, g.target[c], m);
      ReachesRank(g, g.target[c], m);
      SettledSameNow(g, es, es', m);
    }
  }

  lemma SettledCarries(g: Graph, es: Edges, es': Edges, t: nat)
    requires ShapeOk(g) && t < |g.nodes| && |es| == |es'| == |g.target| && forall e :: 0 <= e < |es| ==> es'[e].now == es[e].now
    requires SettledFrom(g, es, {}, t)
    ensures Carries(g, es', t, Cum(g, es', {}, t)) && SettledBelow(g, es', {}, t)
  {
    ReachesSelf(g, t);
    hide Reaches, Settled;
    forall m | Reaches(g, t, m) ensures Settled(g, es', {}, m) {
      SettledSameNow(g, es, es', m);
    }
    SettledIsCarried(g, es', t);
  }

  lemma SettledIsCarried(g: Graph, es: Edges, t: nat)
    requires ShapeOk(g) && t < |g.nodes| && |es| == |g.target| && Settled(g, es, {}, t)
    ensures Carries(g, es, t, Cum(g, es, {}, t))
  {
  }

  // ---------------------------------------------------------------- the log of a check

  /** A node whose parents need `before` together is checked for cum. */
  datatype Visit = Visit(node: nat, before: Need, cum: Need)

  /** What the parents of m need together after the visits of the log, leaving out the edges in ign. */
  ghost function Value(g: Graph, es: Edges, ign: set<nat>, log: seq<Visit>, m: nat): Need
    requires |es| == |g.target|
  {
    if log == [] then Cum(g, es, ign, m)
    else if log[|log| - 1].node == m then log[|log| - 1].cum
    else Value(g, es, ign, log[..|log| - 1], m)
  }

  /** The log records what the parents of each node needed when it was visited. */
  ghost predicate LogOk(g: Graph, es: Edges, ign: set<nat>, log: seq<Visit>)
    requires |es| == |g.target|
  {
    forall i :: 0 <= i < |log| ==> log[i].before == Value(g, es, ign, log[..i], log[i].node)
  }

  /** Some visit takes new permissions or stops sharing some. */
  ghost predicate TightLog(log: seq<Visit>) {
    exists i :: 0 <= i < |log| && !Looser(log[i].cum, log[i].before)
  }

  ghost predicate LogIn(g: Graph, n: nat, log: seq<Visit>)
    requires ShapeOk(g) && n < |g.nodes|
  {
    forall i :: 0 <= i < |log| ==> Reaches(g, n, log[i].node)
  }

  /** After the visits the parents of every node but n need what the log says. */
  ghost predicate LogEnds(g: Graph, es: Edges, es': Edges, ign: set<nat>, n: nat, log: seq<Visit>)
    requires |es| == |es'| == |g.target|
  {
    forall m: nat :: m != n ==> Cum(g, es', ign, m) == Value(g, es, ign, log, m)
  }

  /** A node that refuses is the one visited last: it is to be written and is read-only, or it is to be
      written without being resized and is not aligned, or it has a check of its own. */
  ghost predicate LastRefuses(g: Graph, log: seq<Visit>, r: Result) {
    match r
    case Ok => true
    case Conflict(_, _) => true
    case ReadOnly(m) =>
      && LastIs(log, m) && m < |g.nodes| && !g.nodes[m].writable
      && (Write in log[|log| - 1].cum.perm || WriteUnchanged in log[|log| - 1].cum.perm)
    case Unaligned(m) =>
      && LastIs(log, m) && m < |g.nodes| && g.nodes[m].unaligned && Resize !in log[|log| - 1].cum.perm
      && (Write in log[|log| - 1].cum.perm || WriteUnchanged in log[|log| - 1].cum.perm)
    case Refused(m) => LastIs(log, m) && m < |g.nodes| && g.nodes[m].driver.Own?
  }

  predicate LastIs(log: seq<Visit>, m: nat) {
    log != [] && log[|log| - 1].node == m
  }

  /** The log of a check from node n on: n comes first and only once. */
  ghost predicate PartLog(g: Graph, es: Edges, ign: set<nat>, n: nat, cum: Need, log: seq<Visit>)
    requires ShapeOk(g) && |es| == |g.target| && n < |g.nodes|
  {
    && log != [] && log[0] == Visit(n, Cum(g, es, ign, n), cum) && (forall i :: 0 < i < |log| ==> log[i].node != n)
    && LogIn(g, n, log) && LogOk(g, es, ign, log)
  }

  lemma {:induction false} ValueAppend(g: Graph, es: Edges, es1: Edges, ign: set<nat>, log: seq<Visit>, log1: seq<Visit>, m: nat)
    requires |es| == |es1| == |g.target| && Cum(g, es1, ign, m) == Value(g, es, ign, log, m)
    ensures Value(g, es, ign, log + log1, m) == Value(g, es1, ign, log1, m)
    decreases |log1|
  {
    hide Cum;
    if log1 == [] {
      assert log + log1 == log;
    } else {
      assert (log + log1)[..|log + log1| - 1] == log + log1[..|log1| - 1];
      ValueAppend(g, es, es1, ign, log, log1[..|log1| - 1], m);
    }
  }

  lemma LogAppend(g: Graph, es: Edges, es1: Edges, ign: set<nat>, n: nat, log: seq<Visit>, log1: seq<Visit>)
    requires |es| == |es1| == |g.target| && LogOk(g, es, ign, log) && LogOk(g, es1, ign, log1) && LogEnds(g, es, es1, ign, n, log)
    requires forall i :: 0 <= i < |log1| ==> log1[i].node != n
    ensures LogOk(g, es, ign, log + log1)
    ensures forall m: nat :: m != n ==> Value(g, es, ign, log + log1, m) == Value(g, es1, ign, log1, m)
  {
    hide Cum, Value;
    forall m: nat | m != n ensures Value(g, es, ign, log + log1, m) == Value(g, es1, ign, log1, m) {
      ValueAppend(g, es, es1, ign, log, log1, m);
    }
    forall i | 0 <= i < |log + log1| ensures (log + log1)[i].before == Value(g, es, ign, (log + log1)[..i], (log + log1)[i].node) {
      if i < |log| {
        assert (log + log1)[..i] == log[..i];
      } else {
        assert (log + log1)[..i] == log + log1[..i - |log|];
        ValueAppend(g, es, es1, ign, log, log1[..i - |log|], log1[i - |log|].node);
      }
    }
  }

  lemma TightAppend(log: seq<Visit>, log1: seq<Visit>)
    ensures TightLog(log + log1) <==> TightLog(log) || TightLog(log1)
  {
    if TightLog(log) {
      var i :| 0 <= i < |log| && !Looser(log[i].cum, log[i].before);
      assert (log + log1)[i] == log[i];
    }
    if TightLog(log1) {
      var i :| 0 <= i < |log1| && !Looser(log1[i].cum, log1[i].before);
      assert (log + log1)[|log| + i] == log1[i];
    }
  }

  /** The first visit of a node is the last as long as it does not come again. */
  lemma {:induction false} ValueFirst(g: Graph, es: Edges, ign: set<nat>, log: seq<Visit>, n: nat)
    requires |es| == |g.target| && log != [] && log[0].node == n && forall i :: 0 < i < |log| ==> log[i].node != n
    ensures Value(g, es, ign, log, n) == log[0].cum
    decreases |log|
  {
    hide Cum;
    if |log| > 1 {
      ValueFirst(g, es, ign, log[..|log| - 1], n);
    }
  }

  /** If no visit tightens, the parents of no node need more at the end than at the beginning. */
  lemma {:induction false} LooseLog(g: Graph, es: Edges, ign: set<nat>, log: seq<Visit>, m: nat)
    requires |es| == |g.target| && LogOk(g, es, ign, log) && !TightLog(log)
    ensures Looser(Value(g, es, ign, log, m), Cum(g, es, ign, m))
    decreases |log|
  {
    hide Cum;
    if log != [] {
      var rest := log[..|log| - 1];
      assert forall i :: 0 <= i < |rest| ==> rest[i] == log[i] && rest[..i] == log[..i];
      LooseLog(g, es, ign, rest, m);
      assert log[..|log| - 1] == rest;
      assert Looser(log[|log| - 1].cum, log[|log| - 1].before);
    }
  }

  // ---------------------------------------------------------------- why a check fails

  /** At the visit u the node needs nd of its edge x. */
  ghost predicate AsksFor(g: Graph, u: Visit, x: nat, nd: Need) {
    && x < |g.target| && |g.parent| == |g.target| && g.parent[x] == Some(u.node) && u.node < |g.nodes|
    && g.nodes[u.node].driver.Interior? && g.target[x] < |g.nodes| && nd == ChildNeed(g, u.node, x, u.cum)
  }

  ghost predicate Asked(g: Graph, log: seq<Visit>, x: nat, nd: Need) {
    exists j :: 0 <= j < |log| && AsksFor(g, log[j], x, nd)
  }

  /** Visit v is for what visit u asks of edge x, on top of what other parents need. */
  ghost predicate DerivedFrom(g: Graph, u: Visit, x: nat, nd: Need, v: Visit) {
    AsksFor(g, u, x, nd) && v.node == g.target[x] && Looser(nd, v.cum) && Looser(v.cum, Join(nd, v.before))
  }

  /** Every visit but the first derives from an earlier one. */
  ghost predicate Derived(g: Graph, log: seq<Visit>) {
    forall i :: 0 < i < |log| ==> DerivedAt(g, log, i)
  }

  ghost predicate DerivedAt(g: Graph, log: seq<Visit>, i: nat)
    requires i < |log|
  {
    exists j, x, nd :: 0 <= j < i && DerivedFrom(g, log[j], x, nd, log[i])
  }

  /** Edges have what they had, or what a visit asked of them. */
  ghost predicate Given(g: Graph, es: Edges, es': Edges, log: seq<Visit>, also: set<nat>) {
    && |es'| == |es|
    && forall e :: 0 <= e < |es| && e !in also ==> es'[e].now == es[e].now || Asked(g, log, e, es'[e].now)
  }

  /** A conflict is between what a visit asks of an edge and another edge to the same node. */
  ghost predicate ConflictFound(g: Graph, log: seq<Visit>, r: Result) {
    r.Conflict? && r.edge < |g.target| && exists x :: 0 <= x < |g.target| && x != r.edge && g.target[x] == g.target[r.edge] && Asked(g, log, x, r.need)
  }

  ghost predicate CauseLog(g: Graph, es: Edges, es': Edges, log: seq<Visit>, r: Result, also: set<nat>) {
    Derived(g, log) && Given(g, es, es', log, also) && (r.Conflict? && log != [] ==> ConflictFound(g, log, r))
  }

  lemma AskedMore(g: Graph, log: seq<Visit>, log1: seq<Visit>, x: nat, nd: Need)
    ensures Asked(g, log, x, nd) || Asked(g, log1, x, nd) ==> Asked(g, log + log1, x, nd)
  {
    hide AsksFor;
    if Asked(g, log, x, nd) {
      var j :| 0 <= j < |log| && AsksFor(g, log[j], x, nd);
      assert (log + log1)[j] == log[j];
    }
    if Asked(g, log1, x, nd) {
      var j :| 0 <= j < |log1| && AsksFor(g, log1[j], x, nd);
      assert (log + log1)[|log| + j] == log1[j];
    }
  }

  lemma DerivedAppend(g: Graph, log: seq<Visit>, log1: seq<Visit>, x: nat, nd: Need)
    requires Derived(g, log) && Derived(g, log1) && log != [] && (log1 != [] ==> DerivedFrom(g, log[0], x, nd, log1[0]))
    ensures Derived(g, log + log1)
  {
    hide DerivedFrom;
    var all := log + log1;
    forall i | 0 < i < |all| ensures DerivedAt(g, all, i) {
      if i < |log| {
        assert DerivedAt(g, log, i);
        var j, y, n :| 0 <= j < i && DerivedFrom(g, log[j], y, n, log[i]);
        assert all[j] == log[j] && all[i] == log[i];
      } else if i == |log| {
        assert all[0] == log[0] && all[i] == log1[0];
      } else {
        assert DerivedAt(g, log1, i - |log|);
        var j, y, n :| 0 <= j < i - |log| && DerivedFrom(g, log1[j], y, n, log1[i - |log|]);
        assert all[|log| + j] == log1[j] && all[i] == log1[i - |log|];
      }
    }
  }

  /** One more edge, c of the node visited first. */
  lemma CauseStep(
    g: Graph, es: Edges, es1: Edges, es2: Edges, log: seq<Visit>, c: nat, need: Need, r: Result, log1: seq<Visit>)
    requires |es| == |es1| == |es2| == |g.target| && c < |es| && log != [] && AsksFor(g, log[0], c, need)
    requires CauseLog(g, es, es1, log, Ok, {}) && CauseLog(g, es1, es2, log1, r, {c})
    requires log1 != [] ==> DerivedFrom(g, log[0], c, need, log1[0])
    requires log1 == [] && r.Conflict? ==> r.need == need && r.edge != c && r.edge < |es| && g.target[r.edge] == g.target[c]
    requires es2[c].now == es1[c].now || es2[c].now == need
    ensures CauseLog(g, es, es2, log + log1, r, {})
  {
    hide AsksFor, DerivedFrom, Asked, Derived;
    DerivedAppend(g, log, log1, c, need);
    AskedFirst(g, log, c, need);
    forall e | 0 <= e < |es| ensures es2[e].now == es[e].now || Asked(g, log + log1, e, es2[e].now) {
      AskedMore(g, log, log1, e, es2[e].now);
    }
    if r.Conflict? {
      if log1 == [] {
        AskedMore(g, log, log1, c, r.need);
      } else {
        var x :| 0 <= x < |g.target| && x != r.edge && g.target[x] == g.target[r.edge] && Asked(g, log1, x, r.need);
        AskedMore(g, log, log1, x, r.need);
      }
    }
  }

  lemma AskedFirst(g: Graph, log: seq<Visit>, x: nat, nd: Need)
    requires log != [] && AsksFor(g, log[0], x, nd)
    ensures Asked(g, log, x, nd)
  {
  }

  // ---------------------------------------------------------------- steady checks

  /** The need of node m on its edge x has the permissions in force, shares no more than them and no
      less than all parents of the target do, and gets along with the others. */
  ghost predicate SteadyEdge(g: Graph, es: Edges, x: nat, need: Need)
    requires |es| == |g.target| && x < |es|
  {
    && need.perm == es[x].now.perm && need.shared <= es[x].now.shared && Harmless(g, es, x, need)
  }

  /** Giving edge x the need would not change what the parents of its target share together, and would
      not conflict with one of them. */
  ghost predicate Harmless(g: Graph, es: Edges, x: nat, need: Need)
    requires |es| == |g.target| && x < |es|
  {
    && Cum(g, es, {}, g.target[x]).shared <= need.shared
    && forall f :: 0 <= f < |es| && f != x && g.target[f] == g.target[x] ==> es[f].now.perm <= need.shared
  }

  /** What edge x, which belongs to a node, is needed for now. */
  ghost function NeedNow(g: Graph, es: Edges, x: nat): Need
    requires ShapeOk(g) && |es| == |g.target| && x < |es| && g.parent[x].Some? && EdgeOk(g, x)
  {
    ChildNeed(g, g.parent[x].value, x, Cum(g, es, {}, g.parent[x].value))
  }

  ghost predicate SteadyFrom(g: Graph, es: Edges, n: nat)
    requires ShapeOk(g) && |es| == |g.target| && n < |g.nodes|
  {
    forall x :: 0 <= x < |es| && Below(g, n, x) ==> EdgeOk(g, x) && SteadyEdge(g, es, x, NeedNow(g, es, x))
  }

  /** Edges keep their permissions or get what they are needed for, and that leaves what the parents of
      each node need together as it is. */
  ghost predicate Calm(g: Graph, es: Edges, es': Edges, also: set<nat>)
    requires ShapeOk(g) && |es| == |g.target|
  {
    && |es'| == |es|
    && (forall e :: 0 <= e < |es| && e !in also ==>
          es'[e].now == es[e].now || (g.parent[e].Some? && EdgeOk(g, e) && es'[e].now == NeedNow(g, es, e)))
    && forall m: nat :: Cum(g, es', {}, m) == Cum(g, es, {}, m)
  }

  ghost predicate SteadyCheck(g: Graph, es: Edges, ign: set<nat>, n: nat, cum: Need)
    requires ShapeOk(g) && |es| == |g.target| && n < |g.nodes|
  {
    ign == {} && cum == Cum(g, es, {}, n) && SteadyFrom(g, es, n)
  }

  ghost predicate SteadyChild(g: Graph, es: Edges, ign: set<nat>, c: nat, need: Need)
    requires ShapeOk(g) && |es| == |g.target| && c < |es| && g.target[c] < |g.nodes|
  {
    ign == {} && SteadyFrom(g, es, g.target[c]) && SteadyEdge(g, es, c, need)
  }

  /** A calm change below n keeps a steady graph steady. */
  lemma SteadyKept(g: Graph, es: Edges, es': Edges, n: nat)
    requires ShapeOk(g) && |es| == |g.target| && n < |g.nodes|
    requires SteadyFrom(g, es, n) && Calm(g, es, es', {}) && OnlyBelow(g, es, es', n, {})
    ensures SteadyFrom(g, es', n)
  {
    hide Cum, Reaches, ChildNeed, EdgeOk;
    forall f | 0 <= f < |es| ensures es'[f].now.perm == es[f].now.perm {
      if Below(g, n, f) {
        assert SteadyEdge(g, es, f, NeedNow(g, es, f));
      }
    }
    forall x | 0 <= x < |es| && Below(g, n, x) ensures EdgeOk(g, x) && SteadyEdge(g, es', x, NeedNow(g, es', x)) {
      assert SteadyEdge(g, es, x, NeedNow(g, es, x));
      assert NeedNow(g, es', x) == NeedNow(g, es, x);
    }
  }

  /** Giving an edge a steady need leaves what the parents of the target need together as it is. */
  lemma SteadyCum(g: Graph, es: Edges, ignore: set<nat>, c: nat, need: Need)
    requires Ready(g, es, {}) && c < |es| && g.target[c] < |g.nodes| && SteadyEdge(g, es, c, need)
    requires IgnoreFrom(g, g.target[c], ignore, {})
    ensures Join(need, Cum(g, es, ignore + {c}, g.target[c])) == Cum(g, es, {}, g.target[c])
    ensures AllCompatible(g, es, ignore + {c}, g.target[c], need)
  {
    hide DriversShare;
    var t := g.target[c];
    ReachesSelf(g, t);
    hide Reaches;
    forall e | 0 <= e < |es| && g.target[e] == t && e !in ignore + {c} ensures Compatible(need, es[e].now) {
      assert es[c].now.perm <= es[e].now.shared;
    }
    forall p: Perm
      ensures p in need.perm || Used(g, es, ignore + {c}, t, p) <==> Used(g, es, {}, t, p)
      ensures p in need.shared && Shared(g, es, ignore + {c}, t, p) <==> Shared(g, es, {}, t, p)
    {
      if Used(g, es, {}, t, p) && p !in need.perm {
        var e :| 0 <= e < |es| && g.target[e] == t && p in es[e].now.perm;
        assert e != c && e !in ignore;
      }
      if p in need.perm {
        assert p in es[c].now.perm;
      }
      if Shared(g, es, {}, t, p) {
        assert p in Cum(g, es, {}, t).shared;
      }
      if p in need.shared && Shared(g, es, ignore + {c}, t, p) {
        assert p in es[c].now.shared;
      }
    }
  }

  // ---------------------------------------------------------------- what a check says of tightening

  /** What is known of a check of node n for cum besides its result.  It reports tightening if and only
      if there is a conflict or some visit takes new permissions or stops sharing some.  A check that
      loosens, and one that is steady, do neither. */
  ghost predicate NodeFacts(
    g: Graph, es: Edges, es': Edges, ign: set<nat>, n: nat, cum: Need, track: bool, r: Result, tighten: bool, log: seq<Visit>)
    requires ShapeOk(g) && |es| == |es'| == |g.target| && n < |g.nodes|
  {
    && PartLog(g, es, ign, n, cum, log) && LastRefuses(g, log, r) && (r.Ok? ==> LogEnds(g, es, es', ign, n, log))
    && CauseLog(g, es, es', log, r, {})
    && (ign == {} ==> (tighten <==> track && (r.Conflict? || TightLog(log)))) && (tighten ==> track)
    && (LooseCheck(g, es, ign, n, cum) ==> !tighten && !r.Conflict? && AllLooser(es, es'))
    && (SteadyCheck(g, es, ign, n, cum) ==> !tighten && !r.Conflict? && Calm(g, es, es', {}))
  }

  /** The same for a need on top of what the parents of n need that are not ignored; a conflict with one
      of these is found before anything is visited. */
  ghost predicate UpdateFacts(
    g: Graph, es: Edges, es': Edges, ign: set<nat>, ignore: set<nat>, n: nat, need: Need, track: bool, r: Result, tighten: bool, log: seq<Visit>)
    requires ShapeOk(g) && |es| == |es'| == |g.target| && n < |g.nodes|
  {
    if AllCompatible(g, es, ignore, n, need)
    then NodeFacts(g, es, es', ign, n, Join(need, Cum(g, es, ignore, n)), track, r, tighten, log)
    else tighten == track && log == [] && es' == es && FirstConflict(g, ignore, n, need, r)
  }

  ghost predicate FirstConflict(g: Graph, ignore: set<nat>, n: nat, need: Need, r: Result) {
    r.Conflict? && r.need == need && r.edge !in ignore && r.edge < |g.target| && g.target[r.edge] == n
  }

  /** The same for a need on edge c. */
  ghost predicate EdgeFacts(
    g: Graph, es: Edges, es': Edges, ign: set<nat>, c: nat, need: Need, track: bool, r: Result, tighten: bool, log: seq<Visit>)
    requires ShapeOk(g) && |es| == |es'| == |g.target| && c < |es| && g.target[c] < |g.nodes|
  {
    && LogIn(g, g.target[c], log) && LogOk(g, es, ign, log) && LastRefuses(g, log, r)
    && (log == [] ==> es' == es && FirstConflict(g, {c}, g.target[c], need, r))
    && (log != [] ==> log[0] == Visit(g.target[c], Cum(g, es, ign, g.target[c]), Join(need, Cum(g, es, ign + {c}, g.target[c]))))
    && (r.Ok? ==> forall m: nat :: Cum(g, es', ign, m) == Value(g, es, ign, log, m))
    && CauseLog(g, es, es', log, r, {c})
    && (ign == {} ==> (tighten <==> track && (r.Conflict? || TightLog(log)))) && (tighten ==> track)
    && (LooseChild(g, es, ign, c, need) ==> !tighten && !r.Conflict? && AllLooser(es, es'))
    && (SteadyChild(g, es, ign, c, need) ==> !tighten && !r.Conflict? && Calm(g, es, es', {c}))
  }

  /** The same while the edges of n are being checked. */
  ghost predicate PartFacts(
    g: Graph, es: Edges, cur: Edges, ign: set<nat>, n: nat, cum: Need, track: bool, tighten: bool, log: seq<Visit>)
    requires ShapeOk(g) && |es| == |cur| == |g.target| && n < |g.nodes|
  {
    && PartLog(g, es, ign, n, cum, log) && LogEnds(g, es, cur, ign, n, log)
    && CauseLog(g, es, cur, log, Ok, {})
    && (ign == {} ==> (tighten <==> track && TightLog(log))) && (tighten ==> track)
    && (LooseCheck(g, es, ign, n, cum) ==> !tighten && EnoughBelow(g, cur, n) && AllLooser(es, cur))
    && (SteadyCheck(g, es, ign, n, cum) ==> !tighten && Calm(g, es, cur, {}))
  }

  lemma FactsStart(g: Graph, es: Edges, ign: set<nat>, n: nat, cum: Need, track: bool, tighten: bool)
    requires Ready(g, es, ign) && n < |g.nodes|
    requires tighten <==> track && !Looser(cum, Cum(g, es, {}, n))
    ensures PartFacts(g, es, es, ign, n, cum, track, tighten, [Visit(n, Cum(g, es, ign, n), cum)])
  {
    ReachesSelf(g, n);
    hide Cum, Reaches, Enough, ConflictFree, DriversShare, DriversMonotone, SteadyFrom;
    var log := [Visit(n, Cum(g, es, ign, n), cum)];
    assert log[..0] == [];
    assert TightLog(log) <==> !Looser(log[0].cum, log[0].before);
    LogStart(g, es, ign, n, log[0]);
  }

  lemma LogStart(g: Graph, es: Edges, ign: set<nat>, n: nat, v: Visit)
    requires |es| == |g.target| && v.node == n
    ensures LogEnds(g, es, es, ign, n, [v])
  {
    hide Cum;
    forall m: nat | m != n ensures Value(g, es, ign, [v], m) == Cum(g, es, ign, m) {
      assert [v][..|[v]| - 1] == [];
    }
  }

  /** A check that ends at node n. */
  lemma FactsEnd(g: Graph, es: Edges, cur: Edges, ign: set<nat>, n: nat, cum: Need, track: bool, r: Result, tighten: bool, log: seq<Visit>)
    requires ShapeOk(g) && |es| == |cur| == |g.target| && n < |g.nodes|
    requires PartFacts(g, es, cur, ign, n, cum, track, tighten, log)
    requires r.Ok? || (|log| == 1 && !r.Conflict? && LastRefuses(g, log, r))
    ensures NodeFacts(g, es, cur, ign, n, cum, track, r, tighten, log)
  {
    hide LooseCheck, SteadyCheck, Calm, LogEnds, TightLog, PartLog, Derived, Given;
  }

  /** One more edge. */
  lemma FactsStep(
    g: Graph, es: Edges, es1: Edges, es2: Edges, ign: set<nat>, n: nat, cum: Need, track: bool,
    tighten: bool, log: seq<Visit>, c: nat, r: Result, tighten1: bool, log1: seq<Visit>)
    requires ShapeOk(g) && |es| == |es1| == |es2| == |g.target| && n < |g.nodes| && c < |es| && g.parent[c] == Some(n) && EdgeOk(g, c)
    requires PartFacts(g, es, es1, ign, n, cum, track, tighten, log)
    requires EdgeFacts(g, es1, es2, ign, c, ChildNeed(g, n, c, cum), track, r, tighten1, log1)
    requires OnlyBelow(g, es, es1, n, {}) && OnlyBelow(g, es1, es2, g.target[c], {c}) && es1[c] == es[c]
    requires if r.Ok? then SettledFrom(g, es2, ign, g.target[c]) && es2[c].now == ChildNeed(g, n, c, cum) else es2[c] == es1[c]
    ensures r.Ok? ==> PartFacts(g, es, es2, ign, n, cum, track, tighten || tighten1, log + log1)
    ensures !r.Ok? ==> NodeFacts(g, es, es2, ign, n, cum, track, r, tighten || tighten1, log + log1)
  {
    hide PartLog, LogEnds, LogIn, LogOk, LastRefuses, TightLog, LooseCheck, LooseChild, SteadyCheck, SteadyChild, Calm, AllLooser;
    hide EnoughBelow, OnlyBelow, EdgeOk, ChildNeed, SettledFrom, Value, Cum, Derived, Given, ConflictFound;
    TightAppend(log, log1);
    StepLog(g, es, es1, es2, ign, n, cum, log, c, r, log1);
    StepCause(g, es, es1, es2, ign, n, cum, log, c, r, log1);
    if LooseCheck(g, es, ign, n, cum) {
      StepLoose(g, es, es1, es2, ign, n, cum, c, r);
    }
    if SteadyCheck(g, es, ign, n, cum) {
      StepSteady(g, es, es1, es2, ign, n, cum, c, r);
    }
  }

  lemma StepCause(
    g: Graph, es: Edges, es1: Edges, es2: Edges, ign: set<nat>, n: nat, cum: Need, log: seq<Visit>, c: nat, r: Result, log1: seq<Visit>)
    requires ShapeOk(g) && |es| == |es1| == |es2| == |g.target| && n < |g.nodes| && c < |es| && g.parent[c] == Some(n) && EdgeOk(g, c)
    requires PartLog(g, es, ign, n, cum, log) && CauseLog(g, es, es1, log, Ok, {}) && CauseLog(g, es1, es2, log1, r, {c})
    requires log1 == [] ==> FirstConflict(g, {c}, g.target[c], ChildNeed(g, n, c, cum), r)
    requires log1 != [] ==>
               log1[0] == Visit(g.target[c], Cum(g, es1, ign, g.target[c]), Join(ChildNeed(g, n, c, cum), Cum(g, es1, ign + {c}, g.target[c])))
    requires es2[c].now == es1[c].now || es2[c].now == ChildNeed(g, n, c, cum)
    ensures CauseLog(g, es, es2, log + log1, r, {})
  {
    hide CauseLog, ChildNeed, Cum, LogIn, LogOk;
    CumFewer(g, es1, ign, c, g.target[c]);
    CauseStep(g, es, es1, es2, log, c, ChildNeed(g, n, c, cum), r, log1);
  }

  /** Leaving out another edge loosens. */
  lemma CumFewer(g: Graph, es: Edges, ign: set<nat>, c: nat, m: nat)
    requires |es| == |g.target|
    ensures Looser(Cum(g, es, ign + {c}, m), Cum(g, es, ign, m))
  {
    forall p: Perm
      ensures Used(g, es, ign + {c}, m, p) ==> Used(g, es, ign, m, p)
      ensures Shared(g, es, ign, m, p) ==> Shared(g, es, ign + {c}, m, p)
    {
    }
  }

  lemma StepLog(
    g: Graph, es: Edges, es1: Edges, es2: Edges, ign: set<nat>, n: nat, cum: Need, log: seq<Visit>, c: nat, r: Result, log1: seq<Visit>)
    requires ShapeOk(g) && |es| == |es1| == |es2| == |g.target| && n < |g.nodes| && c < |es| && g.parent[c] == Some(n) && EdgeOk(g, c)
    requires PartLog(g, es, ign, n, cum, log) && LogEnds(g, es, es1, ign, n, log)
    requires LogIn(g, g.target[c], log1) && LogOk(g, es1, ign, log1) && LastRefuses(g, log1, r)
    requires r.Ok? ==> forall m: nat :: Cum(g, es2, ign, m) == Value(g, es1, ign, log1, m)
    ensures PartLog(g, es, ign, n, cum, log + log1) && LastRefuses(g, log + log1, r)
    ensures r.Ok? ==> LogEnds(g, es, es2, ign, n, log + log1)
  {
    hide Reaches, Cum, Value, LogOk;
    ReachesTarget(g, c);
    forall i | 0 <= i < |log1| ensures log1[i].node != n && Reaches(g, n, log1[i].node) {
      ReachesRank(g, g.target[c], log1[i].node);
      ReachesTrans(g, n, g.target[c], log1[i].node);
    }
    LogAppend(g, es, es1, ign, n, log, log1);
  }

  lemma StepLoose(g: Graph, es: Edges, es1: Edges, es2: Edges, ign: set<nat>, n: nat, cum: Need, c: nat, r: Result)
    requires ShapeOk(g) && |es| == |es1| == |es2| == |g.target| && n < |g.nodes| && c < |es| && g.parent[c] == Some(n) && EdgeOk(g, c)
    requires LooseCheck(g, es, ign, n, cum) && EnoughBelow(g, es1, n) && AllLooser(es, es1) && es1[c] == es[c]
    requires OnlyBelow(g, es1, es2, g.target[c], {c}) && (r.Ok? ==> SettledFrom(g, es2, ign, g.target[c]))
    ensures LooseChild(g, es1, ign, c, ChildNeed(g, n, c, cum))
    ensures AllLooser(es1, es2) ==> AllLooser(es, es2)
    ensures r.Ok? ==> EnoughBelow(g, es2, n)
  {
    hide EnoughBelow, ChildNeed, SettledFrom, Cum, Reaches, Enough, DriversMonotone, OnlyBelow, EnoughFrom;
    NothingEnough(g, es, n);
    LooserChild(g, es, n, c, cum);
    EnoughAtChild(g, es1, n, c);
    if r.Ok? {
      EnoughStays(g, es1, es2, n, c);
    }
  }

  lemma StepSteady(g: Graph, es: Edges, es1: Edges, es2: Edges, ign: set<nat>, n: nat, cum: Need, c: nat, r: Result)
    requires ShapeOk(g) && |es| == |es1| == |es2| == |g.target| && n < |g.nodes| && c < |es| && g.parent[c] == Some(n) && EdgeOk(g, c)
    requires SteadyCheck(g, es, ign, n, cum) && Calm(g, es, es1, {}) && OnlyBelow(g, es, es1, n, {}) && es1[c] == es[c]
    requires if r.Ok? then es2[c].now == ChildNeed(g, n, c, cum) else es2[c] == es1[c]
    ensures SteadyChild(g, es1, ign, c, ChildNeed(g, n, c, cum))
    ensures Calm(g, es1, es2, {c}) ==> Calm(g, es, es2, {})
  {
    ReachesSelf(g, n);
    hide Cum, Reaches, ChildNeed, EdgeOk;
    SteadyKept(g, es, es1, n);
    ReachesTarget(g, c);
    assert Below(g, n, c);
    forall x | 0 <= x < |es| && Below(g, g.target[c], x) ensures Below(g, n, x) {
      ReachesTrans(g, n, g.target[c], g.parent[x].value);
    }
    assert NeedNow(g, es1, c) == ChildNeed(g, n, c, cum);
  }

  /** What the parents of each node need together once edge c has its new need. */
  lemma CumAfter(g: Graph, es: Edges, es1: Edges, es2: Edges, ignore: set<nat>, ign: set<nat>, c: nat, need: Need, m: nat)
    requires ShapeOk(g) && |es| == |es1| == |g.target| && c < |es| && g.target[c] < |g.nodes| && c !in ign
    requires IgnoreFrom(g, g.target[c], ignore, ign) && OnlyBelow(g, es, es1, g.target[c], {})
    requires |es2| == |es1| && es2 == es1[c := es2[c]] && es2[c].now == need
    ensures Cum(g, es2, ign, m) == if m == g.target[c] then Join(need, Cum(g, es, ignore + {c}, g.target[c])) else Cum(g, es1, ign, m)
  {
    var t := g.target[c];
    ReachesSelf(g, t);
    hide Reaches, Cum;
    if m == t {
      forall e | 0 <= e < |es| && g.target[e] == t ensures es1[e] == es[e] {
        if Below(g, t, e) {
          BelowTarget(g, t, e);
        }
      }
      CumSame(g, es, es1, ignore + {c}, ign + {c}, t);
      CumWith(g, es1, es2, ign, c, need);
    } else {
      CumSame(g, es1, es2, ign, ign, m);
    }
  }

  /** From the check of its target to that of an edge. */
  lemma ChildFacts(
    g: Graph, es: Edges, es1: Edges, es2: Edges, ignore: set<nat>, ign: set<nat>, c: nat, need: Need,
    track: bool, r: Result, tighten: bool, log: seq<Visit>)
    requires Ready(g, es, ign) && |es1| == |es2| == |es| && c < |es| && g.target[c] < |g.nodes| && c !in ign
    requires IgnoreFrom(g, g.target[c], ignore, ign) && OnlyBelow(g, es, es1, g.target[c], {})
    requires UpdateFacts(g, es, es1, ign, ignore + {c}, g.target[c], need, track, r, tighten, log)
    requires if r.Ok? then es2 == es1[c := es2[c]] && es2[c].now == need else es2 == es1
    ensures EdgeFacts(g, es, es2, ign, c, need, track, r, tighten, log)
  {
    hide LogEnds, LogOk, LogIn, LooseCheck, LooseChild, SteadyCheck, SteadyChild, Calm, AllLooser, CauseLog;
    hide OnlyBelow, IgnoreFrom, Value, Cum, AllCompatible, TightLog, ConflictFree, DriversShare, ShareUnchanged;
    NoTightLog();
    ChildLog(g, es, es1, es2, ignore, ign, c, need, r, log);
    ChildCause(g, es, es1, es2, c, r, log);
    if LooseChild(g, es, ign, c, need) {
      ChildLoose(g, es, es1, es2, ignore, ign, c, need, r);
    }
    if SteadyChild(g, es, ign, c, need) {
      ChildSteady(g, es, es1, es2, ignore, ign, c, need, r);
    }
  }

  lemma NoTightLog()
    ensures !TightLog([])
  {
  }

  lemma ChildCause(g: Graph, es: Edges, es1: Edges, es2: Edges, c: nat, r: Result, log: seq<Visit>)
    requires |es1| == |es2| == |es| && c < |es| && (es2 == es1 || es2 == es1[c := es2[c]])
    requires CauseLog(g, es, es1, log, r, {}) || (log == [] && es1 == es)
    ensures CauseLog(g, es, es2, log, r, {c})
  {
    hide Asked, DerivedAt;
  }

  lemma ChildLog(
    g: Graph, es: Edges, es1: Edges, es2: Edges, ignore: set<nat>, ign: set<nat>, c: nat, need: Need, r: Result, log: seq<Visit>)
    requires ShapeOk(g) && |es| == |es1| == |es2| == |g.target| && c < |es| && g.target[c] < |g.nodes| && c !in ign
    requires IgnoreFrom(g, g.target[c], ignore, ign) && OnlyBelow(g, es, es1, g.target[c], {})
    requires || (r.Conflict? && log == [])
             || (&& PartLog(g, es, ign, g.target[c], Join(need, Cum(g, es, ignore + {c}, g.target[c])), log)
                 && (r.Ok? ==> LogEnds(g, es, es1, ign, g.target[c], log)))
    requires r.Ok? ==> es2 == es1[c := es2[c]] && es2[c].now == need
    ensures LogIn(g, g.target[c], log) && LogOk(g, es, ign, log) && (log == [] ==> r.Conflict?)
    ensures log != [] ==> log[0] == Visit(g.target[c], Cum(g, es, ign, g.target[c]), Join(need, Cum(g, es, ign + {c}, g.target[c])))
    ensures r.Ok? ==> forall m: nat :: Cum(g, es2, ign, m) == Value(g, es, ign, log, m)
  {
    ReachesSelf(g, g.target[c]);
    hide Reaches, Cum, Value, OnlyBelow;
    CumSame(g, es, es, ignore + {c}, ign + {c}, g.target[c]);
    if r.Ok? {
      ValueFirst(g, es, ign, log, g.target[c]);
      forall m: nat ensures Cum(g, es2, ign, m) == Value(g, es, ign, log, m) {
        CumAfter(g, es, es1, es2, ignore, ign, c, need, m);
      }
    }
  }

  lemma ChildLoose(g: Graph, es: Edges, es1: Edges, es2: Edges, ignore: set<nat>, ign: set<nat>, c: nat, need: Need, r: Result)
    requires Ready(g, es, ign) && |es1| == |es2| == |es| && c < |es| && g.target[c] < |g.nodes|
    requires IgnoreFrom(g, g.target[c], ignore, ign) && LooseChild(g, es, ign, c, need)
    requires if r.Ok? then es2 == es1[c := es2[c]] && es2[c].now == need else es2 == es1
    ensures AllCompatible(g, es, ignore + {c}, g.target[c], need)
    ensures LooseCheck(g, es, ign, g.target[c], Join(need, Cum(g, es, ignore + {c}, g.target[c])))
    ensures AllLooser(es, es1) ==> AllLooser(es, es2)
  {
    hide Ready, IgnoreFrom, EnoughFrom, DriversMonotone, Cum, AllCompatible;
    LooseChildUpdate(g, es, ignore, c, need);
  }

  lemma ChildSteady(g: Graph, es: Edges, es1: Edges, es2: Edges, ignore: set<nat>, ign: set<nat>, c: nat, need: Need, r: Result)
    requires Ready(g, es, ign) && |es1| == |es2| == |es| && c < |es| && g.target[c] < |g.nodes| && c !in ign
    requires IgnoreFrom(g, g.target[c], ignore, ign) && OnlyBelow(g, es, es1, g.target[c], {}) && SteadyChild(g, es, ign, c, need)
    requires if r.Ok? then es2 == es1[c := es2[c]] && es2[c].now == need else es2 == es1
    ensures AllCompatible(g, es, ignore + {c}, g.target[c], need)
    ensures SteadyCheck(g, es, ign, g.target[c], Join(need, Cum(g, es, ignore + {c}, g.target[c])))
    ensures Calm(g, es, es1, {}) ==> Calm(g, es, es2, {c})
  {
    hide IgnoreFrom, SteadyFrom, SteadyEdge, Cum, OnlyBelow, AllCompatible, EdgeOk, NeedNow, ConflictFree, DriversShare, ShareUnchanged;
    SteadyCum(g, es, ignore, c, need);
    if r.Ok? {
      forall m: nat ensures Cum(g, es2, {}, m) == if m == g.target[c] then Cum(g, es, {}, m) else Cum(g, es1, {}, m) {
        CumAfter(g, es, es1, es2, ignore, ign, c, need, m);
      }
    }
  }

  class Blocks {
    var nodes: seq<Node>
    var target: seq<nat>                  // child->bs
    var parent: seq<Option<nat>>          // child->opaque, for the children of nodes
    var parents: seq<seq<nat>>            // bs->parents
    var edges: Edges
    var stay: seq<bool>                   // child->klass->stay_at_node
    var frozen: seq<bool>                 // child->frozen
    ghost var rank: seq<nat>

    /** A given graph, with edges that may be moved. */
    constructor (g: Graph, parents: seq<seq<nat>>, edges: Edges)
      ensures G() == g && this.parents == parents && this.edges == edges
      ensures stay == seq(|edges|, i => false) && frozen == seq(|edges|, i => false)
    {
      this.nodes, this.target, this.parent, this.rank := g.nodes, g.target, g.parent, g.rank;
      this.parents, this.edges := parents, edges;
      this.stay, this.frozen := seq(|edges|, i => false), seq(|edges|, i => false);
    }

    ghost function G(): Graph
      reads this
    {
      Graph(nodes, target, parent, rank)
    }

    ghost predicate Shape()
      reads this
    {
      && ShapeOk(G()) && |edges| == |stay| == |frozen| == |target| && |parents| == |nodes|
      && forall n :: 0 <= n < |nodes| ==> ParentList(G(), parents[n], n)
    }

    /** bdrv_child_perm */
    method ChildPerm(n: nat, e: nat, cum: Need) returns (need: Need)
      requires n < |nodes| && nodes[n].driver.Interior? && e < |target| && target[e] < |nodes|
      ensures need == ChildNeed(G(), n, e, cum)
    {
      need := nodes[n].driver.childPerm(e, cum);
      if nodes[target[e]].forceShare {
        need := need.(shared := ALL);
      }
    }

    /** bdrv_get_cumulative_perm */
    method CumulativePerm(n: nat) returns (cum: Need)
      requires Shape() && n < |nodes|
      ensures cum == Cum(G(), edges, {}, n)
    {
      hide Cum, ShapeOk;
      cum := NO_NEED;
      var list := parents[n];
      for i := 0 to |list|
        invariant cum == Fold(edges, list, {}, i)
      {
        cum := Join(cum, edges[list[i]].now);
      }
      FoldIsCum(G(), edges, {}, n, list);
    }

    /** bdrv_check_perm */
    method CheckPerm(n: nat, cum: Need, ignore: set<nat>, track: bool, ghost ign: set<nat>)
      returns (r: Result, tighten: bool, ghost log: seq<Visit>)
      requires Shape() && n < |nodes| && Ready(G(), edges, ign) && WriteUnchanged in cum.shared
      requires IgnoreBelow(G(), n, ignore, ign)
      modifies `edges
      ensures Undoable(G(), old(edges), edges, n, {}) && Reason(G(), edges, n, r)
      ensures r.Ok? ==> Checked(G(), edges, ign, n, cum) && WritersFit(G(), edges, ign, n, cum)
      ensures r.Conflict? ==> target[r.edge] != n
      ensures r == ReadOnly(n) <==> (Write in cum.perm || WriteUnchanged in cum.perm) && !nodes[n].writable
      ensures r == Unaligned(n) <==>
                (Write in cum.perm || WriteUnchanged in cum.perm) && nodes[n].writable && Resize !in cum.perm && nodes[n].unaligned
      ensures NodeFacts(G(), old(edges), edges, ign, n, cum, track, r, tighten, log)
      decreases rank[n], 1
    {
      hide Cum, Reaches, ChildNeed, ConflictFree, Settled, DriversShare, EdgeChecked, Below, NodeFacts, PartFacts, WritersFit;
      ghost var g, es := G(), edges;
      ReachesSelf(g, n);
      NothingYet(g, es, ign, n, cum);
      tighten := false;
      if track {
        var current := CumulativePerm(n);
        var added, removed := cum.perm - current.perm, current.shared - cum.shared;
        tighten := added != {} || removed != {};
        assert forall p :: p in cum.perm ==> p in current.perm || p in added;
        assert forall p :: p in current.shared ==> p in cum.shared || p in removed;
      }
      log := [Visit(n, Cum(g, es, ign, n), cum)];
      FactsStart(g, es, ign, n, cum, track, tighten);
      if (Write in cum.perm || WriteUnchanged in cum.perm) && !nodes[n].writable {
        r := ReadOnly(n);
        FactsEnd(g, es, edges, ign, n, cum, track, r, tighten, log);
        return;
      }
      if (Write in cum.perm || WriteUnchanged in cum.perm) && Resize !in cum.perm && nodes[n].unaligned {
        r := Unaligned(n);
        FactsEnd(g, es, edges, ign, n, cum, track, r, tighten, log);
        return;
      }
      if nodes[n].driver.Own? {
        if * {
          r := Refused(n);
          FactsEnd(g, es, edges, ign, n, cum, track, r, tighten, log);
          return;
        }
      }
      r := Ok;
      if !nodes[n].driver.Interior? {
        NothingBelow(g, edges, ign, n, cum);
        CheckedFit(g, edges, ign, n, cum);
        FactsEnd(g, es, edges, ign, n, cum, track, r, tighten, log);
        return;
      }
      for i := 0 to |nodes[n].children|
        invariant Undoable(g, es, edges, n, {}) && CheckedPart(g, edges, ign, n, cum, i) && r.Ok?
        invariant forall j :: i <= j < |nodes[n].children| ==> edges[nodes[n].children[j]] == es[nodes[n].children[j]]
        invariant PartFacts(g, es, edges, ign, n, cum, track, tighten, log)
      {
        r, tighten, log := CheckEdge(n, cum, i, ignore, track, ign, es, tighten, log);
        if !r.Ok? {
          return;
        }
      }
      CheckedAll(g, edges, ign, n, cum);
      CheckedFit(g, edges, ign, n, cum);
      FactsEnd(g, es, edges, ign, n, cum, track, r, tighten, log);
    }

    /** One round of the loop of bdrv_check_perm. */
    method CheckEdge(
      n: nat, cum: Need, i: nat, ignore: set<nat>, track: bool, ghost ign: set<nat>, ghost es: Edges, tight: bool, ghost sofar: seq<Visit>)
      returns (r: Result, tighten: bool, ghost log: seq<Visit>)
      requires Shape() && n < |nodes| && i < |nodes[n].children| && nodes[n].driver.Interior?
      requires DriversShare(G()) && WriteUnchanged in cum.shared && IgnoreBelow(G(), n, ignore, ign)
      requires Undoable(G(), es, edges, n, {}) && CheckedPart(G(), edges, ign, n, cum, i)
      requires forall j :: i <= j < |nodes[n].children| ==> edges[nodes[n].children[j]] == es[nodes[n].children[j]]
      requires PartFacts(G(), es, edges, ign, n, cum, track, tight, sofar)
      modifies `edges
      ensures Undoable(G(), es, edges, n, {}) && Reason(G(), edges, n, r)
      ensures r.Ok? ==> CheckedPart(G(), edges, ign, n, cum, i + 1)
      ensures r.Ok? ==> forall j :: i < j < |nodes[n].children| ==> edges[nodes[n].children[j]] == es[nodes[n].children[j]]
      ensures r.Conflict? ==> target[r.edge] != n
      ensures r != ReadOnly(n) && r != Unaligned(n)
      ensures sofar <= log
      ensures if r.Ok? then PartFacts(G(), es, edges, ign, n, cum, track, tighten, log)
              else NodeFacts(G(), es, edges, ign, n, cum, track, r, tighten, log)
      decreases rank[n], 0
    {
      hide Cum, Reaches, ChildNeed, ConflictFree, Settled, DriversShare, Below, SettledFrom, BackedUp, NodeFacts, PartFacts, EdgeFacts;
      ghost var g, es1 := G(), edges;
      var c := nodes[n].children[i];
      assert EdgeOk(g, c);
      var need := ChildPerm(n, c, cum);
      NeedShares(g, n, c, cum);
      IgnoreAtChild(g, n, c, ignore, ign);
      ghost var more;
      r, tighten, more := ChildCheckPerm(c, need, ignore, track, ign);
      log := sofar + more;
      FactsStep(g, es, es1, edges, ign, n, cum, track, tight, sofar, c, r, tighten, more);
      tighten := tight || tighten;
      UndoableUp(g, es, es1, edges, n, c);
      ReasonUp(g, edges, n, c, r);
      SiblingsSame(g, es1, edges, n, c);
      match r {
        case Ok =>
        case Conflict(f, _) => ReachesRank(g, target[c], target[f]);
        case ReadOnly(m) => ReachesRank(g, target[c], m);
        case Unaligned(m) => ReachesRank(g, target[c], m);
        case Refused(m) =>
      }
      if r.Ok? {
        forall j | 0 <= j < i ensures EdgeChecked(g, edges, ign, n, cum, nodes[n].children[j]) {
          EdgeStaysChecked(g, es1, edges, ign, n, cum, nodes[n].children[j], c);
        }
      }
    }

    /** bdrv_check_update_perm */
    method CheckUpdatePerm(n: nat, need: Need, ignore: set<nat>, track: bool, ghost ign: set<nat>)
      returns (r: Result, tighten: bool, ghost log: seq<Visit>)
      requires Shape() && n < |nodes| && Ready(G(), edges, ign)
      requires WriteUnchanged in need.shared
      requires IgnoreBelow(G(), n, ignore, ign)
      modifies `edges
      ensures Undoable(G(), old(edges), edges, n, {}) && Reason(G(), edges, n, r)
      ensures r.Ok? ==>
                && AllCompatible(G(), old(edges), ignore, n, need)
                && Checked(G(), edges, ign, n, Join(need, Cum(G(), old(edges), ignore, n)))
                && WritersFit(G(), edges, ign, n, Join(need, Cum(G(), old(edges), ignore, n)))
      ensures r.Conflict? && target[r.edge] == n <==> !AllCompatible(G(), old(edges), ignore, n, need)
      ensures r.Conflict? && target[r.edge] == n ==> r.need == need && r.edge !in ignore
      ensures AllCompatible(G(), old(edges), ignore, n, need) ==>
                (r != ReadOnly(n) && r != Unaligned(n) <==> Fits(nodes[n], Join(need, Cum(G(), old(edges), ignore, n))))
      ensures UpdateFacts(G(), old(edges), edges, ign, ignore, n, need, track, r, tighten, log)
      decreases rank[n], 2
    {
      hide Cum, Reaches, ChildNeed, ConflictFree, Settled, DriversShare, Below, Checked, NodeFacts, WritersFit;
      ghost var g := G();
      ReachesSelf(g, n);
      NothingYet(g, edges, ign, n, need);
      var cum, list := need, parents[n];
      JoinNothing(need);
      log := [];
      for i := 0 to |list|
        invariant cum == Join(need, Fold(edges, list, ignore, i))
        invariant forall j :: 0 <= j < i && list[j] !in ignore ==> Compatible(need, edges[list[j]].now)
      {
        var c := list[i];
        if c !in ignore {
          if !(need.perm <= edges[c].now.shared) || !(edges[c].now.perm <= need.shared) {
            return Conflict(c, need), track, [];
          }
          cum := Join(cum, edges[c].now);
        }
      }
      FoldIsCum(g, edges, ignore, n, list);
      CumShares(g, edges, ignore, n, need);
      r, tighten, log := CheckPerm(n, cum, ignore, track, ign);
    }

    /** bdrv_child_check_perm */
    method ChildCheckPerm(c: nat, need: Need, ignore: set<nat>, track: bool, ghost ign: set<nat>)
      returns (r: Result, tighten: bool, ghost log: seq<Visit>)
      requires Shape() && c < |target| && target[c] < |nodes| && Ready(G(), edges, ign)
      requires WriteUnchanged in need.shared
      requires IgnoreFrom(G(), target[c], ignore, ign) && c !in ign
      modifies `edges
      ensures Undoable(G(), old(edges), edges, target[c], if r.Ok? then {c} else {}) && Reason(G(), edges, target[c], r)
      ensures if r.Ok? then
                && edges[c] == Edge(need, Some(Origin(old(edges)[c])))
                && ConflictFree(G(), edges, ign) && SettledFrom(G(), edges, ign, target[c]) && BackedUp(G(), edges, target[c])
                && WritersFit(G(), edges, ign, target[c], Cum(G(), edges, ign, target[c]))
              else edges[c] == old(edges)[c]
      ensures r.Conflict? && target[r.edge] == target[c] <==> !AllCompatible(G(), old(edges), ignore + {c}, target[c], need)
      ensures r.Conflict? && target[r.edge] == target[c] ==> r.need == need && r.edge != c
      ensures AllCompatible(G(), old(edges), ignore + {c}, target[c], need) ==>
                (r != ReadOnly(target[c]) && r != Unaligned(target[c]) <==>
                   Fits(nodes[target[c]], Join(need, Cum(G(), old(edges), ignore + {c}, target[c]))))
      ensures EdgeFacts(G(), old(edges), edges, ign, c, need, track, r, tighten, log)
      decreases rank[target[c]], 3
    {
      hide Cum, Reaches, ChildNeed, ConflictFree, Settled, DriversShare, Checked, SettledFrom, BackedUp, AllCompatible, EdgeFacts, UpdateFacts, WritersFit, Fits;
      ghost var g, es := G(), edges;
      IgnoreItself(g, c, ignore, ign);
      NotBelowItself(g, c);
      r, tighten, log := CheckUpdatePerm(target[c], need, ignore + {c}, track, ign);
      ghost var es1 := edges;
      if r.Ok? {
        edges := edges[c := Edge(need, Some(Origin(edges[c])))];
        ChildChecked(g, es, es1, edges, ignore, ign, c, need);
        SettledFit(g, edges, ign, target[c]);
      }
      ChildFacts(g, es, es1, edges, ignore, ign, c, need, track, r, tighten, log);
    }

    /** bdrv_abort_perm_update: every edge below n gets back what it had. */
    method AbortPermUpdate(n: nat)
      requires Shape() && n < |nodes|
      modifies `edges
      ensures Ended(G(), old(edges), edges, n, {}, Abort)
      decreases rank[n], 0
    {
      hide Reaches, Below;
      ghost var g, es := G(), edges;
      if nodes[n].driver.NoDriver? {
        NoEdges(g, n);
        return;
      }
      for i := 0 to |nodes[n].children|
        invariant EndedPart(g, es, edges, n, i, Abort)
      {
        ghost var es1 := edges;
        ChildOf(g, n, i);
        ChildAbortPermUpdate(nodes[n].children[i]);
        EndedStep(g, es, es1, edges, n, i, Abort);
      }
      EndedAll(g, es, edges, n, Abort);
    }

    /** bdrv_child_abort_perm_update */
    method ChildAbortPermUpdate(c: nat)
      requires Shape() && c < |target| && target[c] < |nodes|
      modifies `edges
      ensures Ended(G(), old(edges), edges, target[c], {c}, Abort)
      decreases rank[target[c]], 1
    {
      hide Reaches;
      ghost var g := G();
      NotBelowItself(g, c);
      if edges[c].backup.Some? {
        edges := edges[c := Edge(edges[c].backup.value, None)];
      }
      AbortPermUpdate(target[c]);
    }

    /** bdrv_set_perm: after a check it changes no permission and only drops the backups. */
    method SetPerm(n: nat, cum: Need)
      requires Shape() && n < |nodes| && Carries(G(), edges, n, cum) && SettledBelow(G(), edges, {}, n)
      modifies `edges
      ensures Ended(G(), old(edges), edges, n, {}, Commit)
      decreases rank[n], 0
    {
      hide Reaches, Below, Cum, ChildNeed, Settled;
      ghost var g, es := G(), edges;
      if !nodes[n].driver.Interior? {
        NoEdges(g, n);
        return;
      }
      for i := 0 to |nodes[n].children|
        invariant EndedPart(g, es, edges, n, i, Commit)
      {
        ghost var es1 := edges;
        ChildOf(g, n, i);
        var c := nodes[n].children[i];
        var need := ChildPerm(n, c, cum);
        SettledAtChild(g, es, edges, n, c);
        ChildSetPerm(c, need);
        EndedStep(g, es, es1, edges, n, i, Commit);
      }
      EndedAll(g, es, edges, n, Commit);
    }

    /** bdrv_child_set_perm */
    method ChildSetPerm(c: nat, need: Need)
      requires Shape() && c < |target| && target[c] < |nodes|
      requires edges[c].now == need && SettledFrom(G(), edges, {}, target[c])
      modifies `edges
      ensures Ended(G(), old(edges), edges, target[c], {c}, Commit)
      decreases rank[target[c]], 1
    {
      hide Reaches, Cum, ChildNeed, Settled, Carries;
      ghost var g := G();
      NotBelowItself(g, c);
      edges := edges[c := Edge(need, None)];
      var cum := CumulativePerm(target[c]);
      SettledCarries(g, old(edges), edges, target[c]);
      SetPerm(target[c], cum);
    }
  }
}
