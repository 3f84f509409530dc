/** Linked lists of the source, as sequences of distinct numbers. */
module Lists {

  predicate Distinct(list: seq<nat>) {
    forall i, j :: 0 <= i < j < |list| ==> list[i] != list[j]
  }

  /** QLIST_REMOVE */
  function Without(list: seq<nat>, j: nat): seq<nat> {
    if list == [] then [] else if list[0] == j then Without(list[1..], j) else [list[0]] + Without(list[1..], j)
  }

  lemma {:induction false} WithoutIs(list: seq<nat>, j: nat)
    ensures forall k :: k in Without(list, j) <==> k in list && k != j
    ensures |Without(list, j)| <= |list| && (j in list ==> |Without(list, j)| < |list|)
    ensures Distinct(list) ==> Distinct(Without(list, j))
  {
    if list != [] {
      WithoutIs(list[1..], j);
      assert list == [list[0]] + list[1..];
      if Distinct(list) {
        var rest := Without(list[1..], j);
        assert forall i :: 0 <= i < |rest| ==> rest[i] in rest && rest[i] in list[1..];
        assert list[0] !in list[1..];
      }
    }
  }
}
