/** Arithmetic of the page indices of a radix tree with `size` slots per node. */
module Radix {

  /** P_L2_SIZE and P_L2_LEVELS. */
  datatype Geometry = Geometry(size: nat, levels: nat) {
    ghost predicate Valid() {
      size >= 2 && levels >= 1
    }
  }

  /** size to the power of l: the number of pages below one slot at level l. */
  function Step(g: Geometry, l: nat): (s: nat)
    requires g.Valid()
    ensures s >= 1
  {
    if l == 0 then 1 else g.size * Step(g, l - 1)
  }

  /** index >> (l * P_L2_BITS) */
  function Prefix(g: Geometry, p: nat, l: nat): nat
    requires g.Valid()
  {
    p / Step(g, l)
  }

  /** (index >> (l * P_L2_BITS)) & (P_L2_SIZE - 1) */
  function Digit(g: Geometry, p: nat, l: nat): (d: nat)
    requires g.Valid()
    ensures d < g.size
  {
    Prefix(g, p, l) % g.size
  }

  /** The first page whose prefix at level l is q. */
  function Base(g: Geometry, q: nat, l: nat): nat
    requires g.Valid()
  {
    q * Step(g, l)
  }

  lemma BaseNext(g: Geometry, q: nat, l: nat)
    requires g.Valid()
    ensures Base(g, q + 1, l) == Base(g, q, l) + Step(g, l)
  {
  }

  lemma BaseMonotone(g: Geometry, q: nat, r: nat, l: nat)
    requires g.Valid() && q <= r
    ensures Base(g, q, l) <= Base(g, r, l)
  {
    MulMonotone(q, r, Step(g, l));
  }

  lemma MulAssoc(a: nat, b: nat, c: nat)
    ensures a * b * c == a * (b * c)
  {
  }

  lemma BaseUp(g: Geometry, q: nat, l: nat)
    requires g.Valid()
    ensures Base(g, q * g.size, l) == Base(g, q, l + 1)
  {
    MulAssoc(q, g.size, Step(g, l));
  }

  lemma MulMonotone(a: nat, b: nat, s: nat)
    requires a <= b
    ensures a * s <= b * s
  {
    assert b * s == a * s + (b - a) * s;
  }

  lemma DivUnique(p: nat, s: nat, q: nat)
    requires s >= 1
    ensures p / s == q <==> q * s <= p < (q + 1) * s
  {
    var d := p / s;
    DivBounds(p, s);
    if d < q {
      MulMonotone(d + 1, q, s);
    } else if d > q {
      MulMonotone(q + 1, d, s);
    }
  }

  lemma DivBounds(p: nat, s: nat)
    requires s >= 1
    ensures (p / s) * s <= p < (p / s + 1) * s
  {
    assert p == p / s * s + p % s;
    assert (p / s + 1) * s == p / s * s + s;
  }

  lemma PrefixRange(g: Geometry, p: nat, l: nat, q: nat)
    requires g.Valid()
    ensures Prefix(g, p, l) == q <==> Base(g, q, l) <= p < Base(g, q + 1, l)
  {
    DivUnique(p, Step(g, l), q);
  }

  lemma PrefixUp(g: Geometry, p: nat, l: nat)
    requires g.Valid()
    ensures Prefix(g, p, l) == Prefix(g, p, l + 1) * g.size + Digit(g, p, l)
  {
    var s, q := Step(g, l), Prefix(g, p, l);
    var r := q / g.size;
    assert q == r * g.size + q % g.size;
    PrefixRange(g, p, l, q);
    BaseUp(g, r, l);
    BaseUp(g, r + 1, l);
    BaseMonotone(g, r * g.size, q, l);
    assert (r + 1) * g.size == r * g.size + g.size;
    BaseMonotone(g, q + 1, (r + 1) * g.size, l);
    PrefixRange(g, p, l + 1, r);
  }

  lemma Aligned(g: Geometry, p: nat, l: nat)
    requires g.Valid() && p % Step(g, l) == 0
    ensures p == Base(g, Prefix(g, p, l), l)
  {
  }

  lemma BaseAligned(g: Geometry, q: nat, l: nat)
    requires g.Valid()
    ensures Base(g, q, l) % Step(g, l) == 0 && Prefix(g, Base(g, q, l), l) == q
  {
    BaseNext(g, q, l);
    PrefixRange(g, Base(g, q, l), l, q);
    var s, b := Step(g, l), Base(g, q, l);
    assert b == b / s * s + b % s;
  }

  lemma BaseZero(g: Geometry, l: nat)
    requires g.Valid()
    ensures Base(g, 0, l) == 0
  {
  }
}
