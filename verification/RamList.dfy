/** The list of RAM blocks (exec.c): best-fit allocation in the 64-bit ram_addr_t space, removal, and
lookup behind a most-recently-used block.
*/
module RamList {
  import opened Wrappers
  import opened Radix

  const SPACE: nat := 0x1_0000_0000_0000_0000   // 2^64
  const RAM_ADDR_MAX: nat := 0xffff_ffff_ffff_ffff
  const BITS_PER_LONG: nat := 64

  datatype RamBlock = RamBlock(offset: nat, len: nat)

  /** ROUND_UP(n, d) in 64-bit arithmetic: it wraps to 0 near the end of the space. */
  function RoundUp(n: nat, d: nat): (r: nat)
    requires d >= 1
  {
    var m := (n + d - 1) % SPACE;
    m - m % d
  }

  predicate Holds(b: RamBlock, a: nat) {
    b.offset <= a < b.offset + b.len
  }

  predicate Apart(b: RamBlock, c: RamBlock) {
    b.offset + b.len <= c.offset || c.offset + c.len <= b.offset
  }

  predicate BlockOk(b: RamBlock, align: nat)
    requires align >= 1
  {
    b.len >= 1 && b.offset % align == 0 && b.offset + b.len <= RAM_ADDR_MAX
  }

  /** Blocks are aligned and apart, biggest first. */
  predicate ListOk(blocks: seq<RamBlock>, align: nat)
    requires align >= 1
  {
    && (forall i :: 0 <= i < |blocks| ==> BlockOk(blocks[i], align))
    && (forall i, j :: 0 <= i < j < |blocks| ==> Apart(blocks[i], blocks[j]) && blocks[i].len >= blocks[j].len)
  }

  predicate AlignOk(align: nat) {
    align >= 2 && SPACE % align == 0
  }

  // ---------------------------------------------------------------- gaps

  /** Where the gap after block b begins. */
  function Candidate(b: RamBlock, align: nat): nat
    requires align >= 1
  {
    RoundUp((b.offset + b.len) % SPACE, align)
  }

  /** The first block at or after c begins at n, or n is the end of the space. */
  predicate NextIs(blocks: seq<RamBlock>, c: nat, n: nat) {
    && (n == RAM_ADDR_MAX || exists i :: 0 <= i < |blocks| && blocks[i].offset == n && n >= c)
    && n <= RAM_ADDR_MAX
    && forall i :: 0 <= i < |blocks| && blocks[i].offset >= c ==> n <= blocks[i].offset
  }

  /** The gap after block i fits and has g bytes. */
  predicate Fits(blocks: seq<RamBlock>, align: nat, i: nat, size: nat, g: nat)
    requires align >= 1 && i < |blocks|
  {
    g >= size && NextIs(blocks, Candidate(blocks[i], align), Candidate(blocks[i], align) + g)
  }

  lemma RoundUpIs(n: nat, d: nat)
    requires AlignOk(d) && n <= RAM_ADDR_MAX
    ensures RoundUp(n, d) % d == 0
    ensures n + d - 1 < SPACE ==> n <= RoundUp(n, d) < n + d
    ensures n + d - 1 >= SPACE ==> RoundUp(n, d) == 0
    ensures RoundUp(n, d) < RAM_ADDR_MAX
  {
    var m := (n + d - 1) % SPACE;
    Multiple(m, d);
    NotAligned(d);
    if n + d - 1 >= SPACE {
      WrapsOnce(n + d - 1, d);
      Remainder(m, d, 0, m);
    }
  }

  lemma WrapsOnce(x: nat, d: nat)
    requires AlignOk(d) && SPACE <= x < SPACE + d
    ensures x % SPACE == x - SPACE
  {
    AlignBelow(d);
  }

  lemma AlignBelow(d: nat)
    requires AlignOk(d)
    ensures d <= SPACE
  {
    var k := SPACE / d;
    assert SPACE == k * d;
    MulMonotone(1, k, d);
  }

  lemma Multiple(m: nat, d: nat)
    requires d >= 1
    ensures (m - m % d) % d == 0 && m - m % d == m / d * d
  {
    Remainder(m / d * d, d, m / d, 0);
  }

  lemma Remainder(n: nat, d: nat, q: nat, r: nat)
    requires d >= 1 && n == q * d + r && r < d
    ensures n % d == r && n / d == q
  {
    assert (q + 1) * d == q * d + d;
    DivUnique(n, d, q);
  }

  /** The last address is not aligned. */
  lemma NotAligned(d: nat)
    requires AlignOk(d)
    ensures RAM_ADDR_MAX % d != 0
  {
    var k := SPACE / d;
    assert SPACE == k * d;
    assert (k - 1) * d == k * d - d;
    Remainder(RAM_ADDR_MAX, d, k - 1, d - 1);
  }

  /** Different aligned numbers are at least d apart. */
  lemma AlignedApart(a: nat, b: nat, d: nat)
    requires d >= 1 && a % d == 0 && b % d == 0 && a < b
    ensures a + d <= b
  {
    var i, j := a / d, b / d;
    assert a == i * d && b == j * d && (i + 1) * d == i * d + d;
    if i < j {
      MulMonotone(i + 1, j, d);
    } else {
      MulMonotone(j, i, d);
    }
  }

  /** A block put into a gap that fits is aligned and apart from every block of the list. */
  lemma GapIsFree(blocks: seq<RamBlock>, align: nat, i: nat, size: nat, g: nat, j: nat)
    requires AlignOk(align) && ListOk(blocks, align) && i < |blocks| && j < |blocks| && size >= 1
    requires Fits(blocks, align, i, size, g)
    ensures BlockOk(RamBlock(Candidate(blocks[i], align), size), align)
    ensures Apart(RamBlock(Candidate(blocks[i], align), size), blocks[j])
  {
    hide RoundUp;
    var b, e := blocks[i], blocks[j];
    var end := b.offset + b.len;
    assert end % SPACE == end;
    RoundUpIs(end, align);
    var c := Candidate(b, align);
    if e.offset < c && i != j {
      // e begins before the end of b, for otherwise it would begin at c or after
      if e.offset >= end {
        AlignedApart(e.offset, c, align);
      }
      assert Apart(b, e);
    }
  }

  // ---------------------------------------------------------------- the best fit

  /** The aligned space after block b begins at o, the least multiple of align not below its end; where
      that is not below 2^64 it begins at 0. */
  ghost predicate StartsAfter(b: RamBlock, align: nat, o: nat)
    requires align >= 1
  {
    || (IsAligned(o, align) && b.offset + b.len <= o < SPACE
        && forall m: nat :: IsAligned(m, align) && b.offset + b.len <= m ==> o <= m)
    || (o == 0 && forall m: nat :: IsAligned(m, align) && b.offset + b.len <= m ==> SPACE <= m)
  }

  predicate IsAligned(m: nat, align: nat)
    requires align >= 1
  {
    m % align == 0
  }

  /** From o on g bytes are free up to the next block, enough for `size`. */
  ghost predicate GapAt(blocks: seq<RamBlock>, o: nat, size: nat, g: nat) {
    g >= size && NextIs(blocks, o, o + g)
  }

  /** The offset lies at the smallest gap of `size` bytes or more that follows a block. */
  ghost predicate BestFit(blocks: seq<RamBlock>, align: nat, size: nat, offset: nat)
    requires align >= 1
  {
    if blocks == [] then offset == 0
    else exists i, g: nat ::
           && 0 <= i < |blocks| && StartsAfter(blocks[i], align, offset) && GapAt(blocks, offset, size, g)
           && forall j, o: nat, h: nat :: 0 <= j < |blocks| && StartsAfter(blocks[j], align, o) && GapAt(blocks, o, size, h) ==> g <= h
  }

  /** The bytes from o on are aligned, in the space and free. */
  ghost predicate RoomAt(blocks: seq<RamBlock>, align: nat, size: nat, o: nat)
    requires align >= 1
  {
    IsAligned(o, align) && o + size <= RAM_ADDR_MAX && forall j :: 0 <= j < |blocks| ==> Apart(RamBlock(o, size), blocks[j])
  }

  /** No gap that follows a block is big enough, and whatever room there is lies before all blocks. */
  ghost predicate NoFit(blocks: seq<RamBlock>, align: nat, size: nat)
    requires align >= 1
  {
    && blocks != []
    && (forall j, o: nat, g: nat :: 0 <= j < |blocks| && StartsAfter(blocks[j], align, o) ==> !GapAt(blocks, o, size, g))
    && (forall o: nat, i :: 0 <= i < |blocks| && RoomAt(blocks, align, size, o) ==> o < blocks[i].offset + blocks[i].len)
  }

  /** Rounding up the end of a block finds where the space after it begins, and nothing else does. */
  lemma CandidateIs(b: RamBlock, align: nat, o: nat)
    requires AlignOk(align) && BlockOk(b, align)
    ensures StartsAfter(b, align, o) <==> o == Candidate(b, align)
  {
    hide RoundUp;
    var end, c := b.offset + b.len, Candidate(b, align);
    assert end % SPACE == end;
    RoundUpIs(end, align);
    forall m: nat | IsAligned(m, align) && end <= m ensures if end + align - 1 < SPACE then c <= m else SPACE <= m {
      if m < c {
        AlignedApart(m, c, align);
      }
      if m < SPACE && end + align - 1 >= SPACE {
        AlignedApart(m, SPACE, align);
      }
    }
    assert IsAligned(c, align);
    if end + align - 1 >= SPACE && StartsAfter(b, align, o) {
      assert IsAligned(o, align);
    }
  }

  /** No gap after the first k blocks that fits is smaller than g. */
  ghost predicate NoSmaller(blocks: seq<RamBlock>, align: nat, k: nat, size: nat, g: nat)
    requires align >= 1 && k <= |blocks|
  {
    forall j, h: nat :: 0 <= j < k && Fits(blocks, align, j, size, h) ==> g <= h
  }

  lemma NextUnique(blocks: seq<RamBlock>, c: nat, n: nat, n': nat)
    requires NextIs(blocks, c, n) && NextIs(blocks, c, n') && (forall i :: 0 <= i < |blocks| ==> blocks[i].offset < RAM_ADDR_MAX)
    ensures n == n'
  {
  }

  /** A block at a best fit is aligned and apart from the others. */
  lemma BestFitIsFree(blocks: seq<RamBlock>, align: nat, size: nat, offset: nat)
    requires AlignOk(align) && ListOk(blocks, align) && 1 <= size <= RAM_ADDR_MAX && BestFit(blocks, align, size, offset)
    ensures BlockOk(RamBlock(offset, size), align)
    ensures forall j :: 0 <= j < |blocks| ==> Apart(RamBlock(offset, size), blocks[j])
  {
    hide Candidate, ListOk, NextIs, StartsAfter;
    if blocks != [] {
      var i, g: nat :| 0 <= i < |blocks| && StartsAfter(blocks[i], align, offset) && GapAt(blocks, offset, size, g);
      BlockIn(blocks, align, i);
      CandidateIs(blocks[i], align, offset);
      GapIsFree(blocks, align, i, size, g, 0);
      forall j | 0 <= j < |blocks| ensures Apart(RamBlock(offset, size), blocks[j]) {
        GapIsFree(blocks, align, i, size, g, j);
      }
    }
  }

  lemma BestFitHasRoom(blocks: seq<RamBlock>, align: nat, size: nat, offset: nat)
    requires AlignOk(align) && ListOk(blocks, align) && 1 <= size <= RAM_ADDR_MAX && BestFit(blocks, align, size, offset)
    ensures RoomAt(blocks, align, size, offset)
  {
    hide BestFit, ListOk;
    BestFitIsFree(blocks, align, size, offset);
  }

  lemma BlockIn(blocks: seq<RamBlock>, align: nat, i: nat)
    requires align >= 1 && ListOk(blocks, align) && i < |blocks|
    ensures BlockOk(blocks[i], align)
  {
  }

  /** The smallest gap at a candidate is a best fit. */
  lemma SmallestIsBest(blocks: seq<RamBlock>, align: nat, size: nat, i: nat, g: nat)
    requires AlignOk(align) && ListOk(blocks, align) && i < |blocks| && Fits(blocks, align, i, size, g)
    requires NoSmaller(blocks, align, |blocks|, size, g)
    ensures BestFit(blocks, align, size, Candidate(blocks[i], align))
  {
    hide Candidate, ListOk, NextIs, StartsAfter;
    BlockIn(blocks, align, i);
    CandidateIs(blocks[i], align, Candidate(blocks[i], align));
    assert GapAt(blocks, Candidate(blocks[i], align), size, g);
    forall j, o: nat, h: nat | 0 <= j < |blocks| && StartsAfter(blocks[j], align, o) && GapAt(blocks, o, size, h) ensures g <= h {
      BlockIn(blocks, align, j);
      CandidateIs(blocks[j], align, o);
      assert Fits(blocks, align, j, size, h);
    }
  }

  /** Among the blocks that end by o, one ends last. */
  lemma {:induction false} LastBefore(blocks: seq<RamBlock>, o: nat, i: nat) returns (k: nat)
    requires i < |blocks| && blocks[i].offset + blocks[i].len <= o
    ensures k < |blocks| && blocks[k].offset + blocks[k].len <= o
    ensures forall j :: 0 <= j < |blocks| && blocks[j].offset + blocks[j].len <= o ==>
              blocks[j].offset + blocks[j].len <= blocks[k].offset + blocks[k].len
    decreases |blocks|
  {
    var n := |blocks| - 1;
    var rest := blocks[..n];
    if j :| 0 <= j < n && blocks[j].offset + blocks[j].len <= o {
      assert rest[j] == blocks[j];
      k := LastBefore(rest, o, j);
      assert forall m :: 0 <= m < n ==> rest[m] == blocks[m];
      if blocks[k].offset + blocks[k].len < blocks[n].offset + blocks[n].len <= o {
        k := n;
      }
    } else {
      k := n;
    }
  }

  lemma {:induction false} NextExists(blocks: seq<RamBlock>, c: nat) returns (n: nat)
    requires c <= RAM_ADDR_MAX
    ensures NextIs(blocks, c, n) && n >= c
    decreases |blocks|
  {
    if blocks == [] {
      n := RAM_ADDR_MAX;
    } else {
      var last := |blocks| - 1;
      var rest := blocks[..last];
      n := NextExists(rest, c);
      assert forall m :: 0 <= m < last ==> rest[m] == blocks[m];
      if c <= blocks[last].offset < n {
        n := blocks[last].offset;
      }
    }
  }

  /** Room after some block makes the gap after the last block before it fit. */
  lemma RoomFits(blocks: seq<RamBlock>, align: nat, size: nat, o: nat, i: nat) returns (k: nat, g: nat)
    requires AlignOk(align) && ListOk(blocks, align) && size >= 1 && RoomAt(blocks, align, size, o)
    requires i < |blocks| && blocks[i].offset + blocks[i].len <= o
    ensures k < |blocks| && Fits(blocks, align, k, size, g)
  {
    hide RoundUp;
    k := LastBefore(blocks, o, i);
    BlockIn(blocks, align, k);
    var c := Candidate(blocks[k], align);
    CandidateIs(blocks[k], align, c);
    var n := NextExists(blocks, c);
    forall j | 0 <= j < |blocks| && blocks[j].offset >= c ensures o + size <= blocks[j].offset {
      BlockIn(blocks, align, j);
      assert Apart(RamBlock(o, size), blocks[j]);
    }
    g := n - c;
  }

  lemma NothingFits(blocks: seq<RamBlock>, align: nat, size: nat)
    requires AlignOk(align) && ListOk(blocks, align) && size >= 1 && blocks != []
    requires forall i, g: nat :: 0 <= i < |blocks| ==> !Fits(blocks, align, i, size, g)
    ensures NoFit(blocks, align, size)
  {
    hide Candidate, ListOk, NextIs, StartsAfter, RoomAt;
    forall j, o: nat, g: nat | 0 <= j < |blocks| && StartsAfter(blocks[j], align, o) ensures !GapAt(blocks, o, size, g) {
      BlockIn(blocks, align, j);
      CandidateIs(blocks[j], align, o);
      assert !Fits(blocks, align, j, size, g);
    }
    forall o: nat, i | 0 <= i < |blocks| && RoomAt(blocks, align, size, o) ensures o < blocks[i].offset + blocks[i].len {
      if blocks[i].offset + blocks[i].len <= o {
        var k, g := RoomFits(blocks, align, size, o, i);
      }
    }
  }

  // ---------------------------------------------------------------- the list

  class RamBlocks {
    const align: nat                      // BITS_PER_LONG << TARGET_PAGE_BITS
    var blocks: seq<RamBlock>
    var mru: Option<RamBlock>             // ram_list.mru_block

    ghost predicate Valid()
      reads this
    {
      AlignOk(align) && ListOk(blocks, align) && (mru.Some? ==> mru.value in blocks)
    }

    constructor (align: nat)
      requires AlignOk(align)
      ensures Valid() && blocks == [] && this.align == align
    {
      this.align := align;
      blocks, mru := [], None;
    }

    /** The inner loop of find_ram_offset. */
    method FindNext(c: nat) returns (next: nat)
      requires Valid()
      ensures NextIs(blocks, c, next)
    {
      next := RAM_ADDR_MAX;
      for i := 0 to |blocks|
        invariant NextIs(blocks[..i], c, next)
      {
        assert blocks[..i + 1] == blocks[..i] + [blocks[i]];
        if blocks[i].offset >= c {
          next := if next < blocks[i].offset then next else blocks[i].offset;
          assert next == blocks[i].offset ==> blocks[..i + 1][i].offset == next;
        }
      }
      assert blocks[..|blocks|] == blocks;
    }

    /** find_ram_offset; None is where the source gives up. */
    method FindRamOffset(size: nat) returns (offset: Option<nat>)
      requires Valid() && 1 <= size <= RAM_ADDR_MAX
      ensures offset.Some? ==> BestFit(blocks, align, size, offset.value) && RoomAt(blocks, align, size, offset.value)
      ensures offset.None? ==> NoFit(blocks, align, size)
    {
      if blocks == [] {
        return Some(0);
      }
      hide Candidate, NextIs, BestFit, RoomAt, ListOk, NoFit;
      var found: nat, mingap: nat := RAM_ADDR_MAX, RAM_ADDR_MAX;
      for i := 0 to |blocks|
        invariant NoSmaller(blocks, align, i, size, mingap)
        invariant if found == RAM_ADDR_MAX then mingap == RAM_ADDR_MAX
                  else exists k :: 0 <= k < i && Fits(blocks, align, k, size, mingap) && found == Candidate(blocks[k], align)
      {
        var candidate := Candidate(blocks[i], align);
        var next := FindNext(candidate);
        CandidateInSpace(blocks, align, i, next);
        if next - candidate >= size && next - candidate < mingap {
          found, mingap := candidate, next - candidate;
          assert Fits(blocks, align, i, size, mingap);
        }
        GapKnown(blocks, align, i, size, next);
      }
      if found == RAM_ADDR_MAX {
        forall i, g: nat | 0 <= i < |blocks| ensures !Fits(blocks, align, i, size, g) {
          GapBelowMax(blocks, align, i, size, g);
        }
        NothingFits(blocks, align, size);
        return None;
      }
      offset := Some(found);
      ghost var k :| 0 <= k < |blocks| && Fits(blocks, align, k, size, mingap) && found == Candidate(blocks[k], align);
      SmallestIsBest(blocks, align, size, k, mingap);
      BestFitHasRoom(blocks, align, size, found);
    }

    /** The end of ram_block_add: put the block before the first smaller one. */
    method Insert(b: RamBlock)
      requires Valid() && BlockOk(b, align) && forall j :: 0 <= j < |blocks| ==> Apart(b, blocks[j])
      modifies this
      ensures Valid() && mru == None
      ensures multiset(blocks) == multiset(old(blocks)) + multiset{b}
      ensures forall x :: x in blocks <==> x in old(blocks) || x == b
    {
      var i := 0;
      while i < |blocks| && blocks[i].len >= b.len
        invariant 0 <= i <= |blocks| && forall j :: 0 <= j < i ==> blocks[j].len >= b.len
      {
        i := i + 1;
      }
      InsertOk(blocks, align, b, i);
      assert blocks == blocks[..i] + blocks[i..];
      blocks := blocks[..i] + [b] + blocks[i..];
      mru := None;
    }

    /** qemu_ram_free */
    method Free(i: nat)
      requires Valid() && i < |blocks|
      modifies this
      ensures Valid() && mru == None && blocks == old(blocks)[..i] + old(blocks)[i + 1..]
    {
      blocks := blocks[..i] + blocks[i + 1..];
      mru := None;
    }

    /** qemu_get_ram_block: the block that holds the address, whether or not it was used last; None is
        where the source gives up. */
    method GetRamBlock(addr: nat) returns (b: Option<RamBlock>)
      requires Valid() && addr < SPACE
      modifies `mru
      ensures Valid()
      ensures b.Some? ==> b.value in blocks && Holds(b.value, addr) && forall c :: c in blocks && Holds(c, addr) ==> c == b.value
      ensures b.None? ==> forall c :: c in blocks ==> !Holds(c, addr)
    {
      OneHolder(blocks, align, addr);
      if mru.Some? {
        DifferenceWraps(mru.value, align, addr);
        if Difference(addr, mru.value.offset) < mru.value.len {
          return mru;
        }
      }
      for i := 0 to |blocks|
        invariant Valid() && mru == old(mru)
        invariant forall j :: 0 <= j < i ==> !Holds(blocks[j], addr)
      {
        DifferenceWraps(blocks[i], align, addr);
        if Difference(addr, blocks[i].offset) < blocks[i].len {
          mru := Some(blocks[i]);
          return mru;
        }
      }
      b := None;
    }
  }

  /** addr - offset in 64-bit arithmetic */
  function Difference(addr: nat, offset: nat): int {
    (addr - offset) % SPACE
  }

  /** The single comparison of the source says whether the block holds the address. */
  lemma DifferenceWraps(b: RamBlock, align: nat, addr: nat)
    requires align >= 1 && BlockOk(b, align) && addr < SPACE
    ensures Difference(addr, b.offset) < b.len <==> Holds(b, addr)
  {
  }

  lemma OneHolder(blocks: seq<RamBlock>, align: nat, addr: nat)
    requires align >= 1 && ListOk(blocks, align)
    ensures forall b, c :: b in blocks && c in blocks && Holds(b, addr) && Holds(c, addr) ==> b == c
  {
    forall b, c | b in blocks && c in blocks && Holds(b, addr) && Holds(c, addr) ensures b == c {
      var i :| 0 <= i < |blocks| && blocks[i] == b;
      var j :| 0 <= j < |blocks| && blocks[j] == c;
    }
  }

  lemma CandidateInSpace(blocks: seq<RamBlock>, align: nat, i: nat, next: nat)
    requires AlignOk(align) && ListOk(blocks, align) && i < |blocks| && NextIs(blocks, Candidate(blocks[i], align), next)
    ensures Candidate(blocks[i], align) < RAM_ADDR_MAX && Candidate(blocks[i], align) <= next
  {
    hide RoundUp;
    RoundUpIs((blocks[i].offset + blocks[i].len) % SPACE, align);
  }

  lemma GapKnown(blocks: seq<RamBlock>, align: nat, i: nat, size: nat, next: nat)
    requires AlignOk(align) && ListOk(blocks, align) && i < |blocks| && NextIs(blocks, Candidate(blocks[i], align), next)
    ensures forall g: nat :: Fits(blocks, align, i, size, g) ==> Candidate(blocks[i], align) + g == next
  {
    hide Candidate;
    forall g: nat | Fits(blocks, align, i, size, g) ensures Candidate(blocks[i], align) + g == next {
      NextUnique(blocks, Candidate(blocks[i], align), next, Candidate(blocks[i], align) + g);
    }
  }

  /** No gap is as big as the whole space, for there is a block. */
  lemma GapBelowMax(blocks: seq<RamBlock>, align: nat, i: nat, size: nat, g: nat)
    requires AlignOk(align) && ListOk(blocks, align) && i < |blocks|
    requires NoSmaller(blocks, align, |blocks|, size, RAM_ADDR_MAX)
    ensures !Fits(blocks, align, i, size, g)
  {
    hide RoundUp;
    RoundUpIs((blocks[i].offset + blocks[i].len) % SPACE, align);
    assert BlockOk(blocks[i], align);
  }

  lemma InsertOk(blocks: seq<RamBlock>, align: nat, b: RamBlock, i: nat)
    requires align >= 1 && ListOk(blocks, align) && BlockOk(b, align) && i <= |blocks|
    requires forall j :: 0 <= j < |blocks| ==> Apart(b, blocks[j])
    requires forall j :: 0 <= j < i ==> blocks[j].len >= b.len
    requires i < |blocks| ==> blocks[i].len < b.len
    ensures ListOk(blocks[..i] + [b] + blocks[i..], align)
  {
  }
}
