/** The dirty bitmaps (exec.c): one bit per page and client, kept in chunks of a fixed size that are
allocated as RAM blocks are added.  A chunked bitmap stands for one flat map of the pages.
*/
module DirtyMemory {
  import opened Radix
  import opened RamList
  import opened Wrappers

  const CHUNK: nat := 256 * 1024 * 8        // DIRTY_MEMORY_BLOCK_SIZE
  const WORD: nat := 64                     // 1 << BITS_PER_LEVEL
  const CLIENTS: nat := 3                   // DIRTY_MEMORY_NUM

  type Chunk = seq<bool>

  ghost predicate ChunksOk(chunks: seq<Chunk>) {
    forall i :: 0 <= i < |chunks| ==> |chunks[i]| == CHUNK
  }

  /** Is page p dirty? */
  function Bit(chunks: seq<Chunk>, p: nat): bool
    requires ChunksOk(chunks) && p < |chunks| * CHUNK
  {
    chunks[p / CHUNK][p % CHUNK]
  }

  /** The bits [lo, hi) of a chunk set to v: bitmap_set, bitmap_clear. */
  function Assign(c: Chunk, lo: nat, hi: nat, v: bool): Chunk {
    seq(|c|, k requires 0 <= k < |c| => if lo <= k < hi then v else c[k])
  }

  /** chunks' differs from chunks in that the pages [lo, hi) are v. */
  ghost predicate Assigned(chunks: seq<Chunk>, chunks': seq<Chunk>, lo: nat, hi: nat, v: bool) {
    && ChunksOk(chunks) && ChunksOk(chunks') && |chunks'| == |chunks|
    && forall p: nat :: p < |chunks| * CHUNK ==> Bit(chunks', p) == if lo <= p < hi then v else Bit(chunks, p)
  }

  /** Some page of [lo, hi) is dirty. */
  ghost predicate AnyDirty(chunks: seq<Chunk>, lo: nat, hi: nat)
    requires ChunksOk(chunks) && hi <= |chunks| * CHUNK
  {
    exists p: nat :: lo <= p < hi && Bit(chunks, p)
  }

  /** The part of [page, end) in one chunk. */
  function Num(page: nat, end: nat): nat
    requires page <= end
  {
    if end - page < CHUNK - page % CHUNK then end - page else CHUNK - page % CHUNK
  }

  lemma InChunk(page: nat, end: nat, n: nat)
    requires page < end <= n * CHUNK
    ensures page / CHUNK < n && 1 <= Num(page, end) <= end - page
    ensures forall p: nat :: page <= p < page + Num(page, end) ==> p / CHUNK == page / CHUNK && p % CHUNK == page % CHUNK + (p - page)
  {
    var q, r := page / CHUNK, page % CHUNK;
    assert page == q * CHUNK + r;
    forall p: nat | page <= p < page + Num(page, end) ensures p / CHUNK == q && p % CHUNK == r + (p - page) {
      assert p == q * CHUNK + (r + (p - page));
    }
  }

  /** One chunk assigned, all of them assigned. */
  lemma AssignChunk(chunks: seq<Chunk>, page: nat, end: nat, v: bool)
    requires ChunksOk(chunks) && page < end <= |chunks| * CHUNK
    ensures page / CHUNK < |chunks|
    ensures var i, o, num := page / CHUNK, page % CHUNK, Num(page, end);
            Assigned(chunks, chunks[i := Assign(chunks[i], o, o + num, v)], page, page + num, v)
  {
    InChunk(page, end, |chunks|);
    var i, o, num := page / CHUNK, page % CHUNK, Num(page, end);
    var chunks' := chunks[i := Assign(chunks[i], o, o + num, v)];
    forall p: nat | p < |chunks| * CHUNK ensures Bit(chunks', p) == if page <= p < page + num then v else Bit(chunks, p) {
      assert page == i * CHUNK + o && p == (p / CHUNK) * CHUNK + p % CHUNK;
    }
  }

  lemma AssignedTrans(a: seq<Chunk>, b: seq<Chunk>, c: seq<Chunk>, lo: nat, mid: nat, hi: nat, v: bool)
    requires lo <= mid <= hi && Assigned(a, b, lo, mid, v) && Assigned(b, c, mid, hi, v)
    ensures Assigned(a, c, lo, hi, v)
  {
    hide Bit;
  }

  predicate AnySet(c: Chunk, lo: nat, hi: nat)
    requires hi <= |c|
  {
    exists k :: lo <= k < hi && c[k]
  }

  lemma AnySetIsDirty(chunks: seq<Chunk>, page: nat, end: nat)
    requires ChunksOk(chunks) && page < end <= |chunks| * CHUNK
    ensures page / CHUNK < |chunks| && page % CHUNK + Num(page, end) <= CHUNK
    ensures AnySet(chunks[page / CHUNK], page % CHUNK, page % CHUNK + Num(page, end)) <==> AnyDirty(chunks, page, page + Num(page, end))
  {
    InChunk(page, end, |chunks|);
    var i, o, num := page / CHUNK, page % CHUNK, Num(page, end);
    if k :| o <= k < o + num && chunks[i][k] {
      var p: nat := page + (k - o);
      assert Bit(chunks, p);
    }
    if AnyDirty(chunks, page, page + num) {
      var p: nat :| page <= p < page + num && Bit(chunks, p);
      assert chunks[i][p % CHUNK];
    }
  }

  /** The loop of cpu_physical_memory_test_and_clear_dirty over the pages [start, end). */
  method TestAndClearPages(chunks: seq<Chunk>, start: nat, end: nat) returns (chunks': seq<Chunk>, dirty: bool)
    requires ChunksOk(chunks) && start <= end <= |chunks| * CHUNK
    ensures Assigned(chunks, chunks', start, end, false)
    ensures dirty <==> AnyDirty(chunks, start, end)
  {
    hide Bit;
    chunks', dirty := chunks, false;
    var page := start;
    while page < end
      invariant start <= page <= end && Assigned(chunks, chunks', start, page, false)
      invariant dirty <==> AnyDirty(chunks, start, page)
      decreases end - page
    {
      var idx, offset, num := page / CHUNK, page % CHUNK, Num(page, end);
      AnySetIsDirty(chunks', page, end);
      AssignChunk(chunks', page, end, false);
      DirtySplit(chunks, chunks', start, page, page + num);
      dirty := dirty || AnySet(chunks'[idx], offset, offset + num);
      ghost var before := chunks';
      chunks' := chunks'[idx := Assign(chunks'[idx], offset, offset + num, false)];
      AssignedTrans(chunks, before, chunks', start, page, page + num, false);
      page := page + num;
    }
  }

  lemma DirtySplit(chunks: seq<Chunk>, chunks': seq<Chunk>, lo: nat, mid: nat, hi: nat)
    requires lo <= mid <= hi <= |chunks| * CHUNK && Assigned(chunks, chunks', lo, mid, false)
    ensures AnyDirty(chunks, lo, hi) <==> AnyDirty(chunks, lo, mid) || AnyDirty(chunks', mid, hi)
  {
    hide Bit;
    if AnyDirty(chunks, lo, hi) {
      var p: nat :| lo <= p < hi && Bit(chunks, p);
      assert p >= mid ==> Bit(chunks', p);
    }
    if AnyDirty(chunks', mid, hi) {
      var p: nat :| mid <= p < hi && Bit(chunks', p);
      assert Bit(chunks, p);
    }
  }

  /** The loop of cpu_physical_memory_set_dirty_range. */
  method SetPages(chunks: seq<Chunk>, start: nat, end: nat) returns (chunks': seq<Chunk>)
    requires ChunksOk(chunks) && start <= end <= |chunks| * CHUNK
    ensures Assigned(chunks, chunks', start, end, true)
  {
    hide Bit;
    chunks' := chunks;
    var page := start;
    while page < end
      invariant start <= page <= end && Assigned(chunks, chunks', start, page, true)
      decreases end - page
    {
      var idx, offset, num := page / CHUNK, page % CHUNK, Num(page, end);
      AssignChunk(chunks', page, end, true);
      InChunk(page, end, |chunks|);
      ghost var before := chunks';
      chunks' := chunks'[idx := Assign(chunks'[idx], offset, offset + num, true)];
      AssignedTrans(chunks, before, chunks', start, page, page + num, true);
      page := page + num;
    }
  }

  // ---------------------------------------------------------------- snapshots

  /** A snapshot of the pages [start, start + |bits|). */
  datatype Snapshot = Snapshot(start: nat, bits: seq<bool>)

  /** The snapshot says of its pages what the chunks say. */
  ghost predicate Captures(s: Snapshot, chunks: seq<Chunk>)
    requires ChunksOk(chunks)
  {
    && s.start + |s.bits| <= |chunks| * CHUNK
    && forall k :: 0 <= k < |s.bits| ==> s.bits[k] == Bit(chunks, s.start + k)
  }

  /** Was page p dirty? */
  predicate WasDirty(s: Snapshot, p: nat) {
    s.start <= p < s.start + |s.bits| && s.bits[p - s.start]
  }

  lemma WordAligned(page: nat, end: nat)
    requires page % WORD == 0 && end % WORD == 0 && page < end
    ensures page % CHUNK % WORD == 0 && Num(page, end) % WORD == 0 && (page + Num(page, end)) % WORD == 0
  {
    var a, b := page / WORD, end / WORD;
    assert page == a * 64 && end == b * 64;
    assert page % CHUNK == a % 32768 * 64;
  }

  /** The loop of cpu_physical_memory_snapshot_and_clear_dirty over the pages [start, end). */
  method SnapshotPages(chunks: seq<Chunk>, start: nat, end: nat) returns (chunks': seq<Chunk>, snap: Snapshot)
    requires ChunksOk(chunks) && start <= end <= |chunks| * CHUNK && start % WORD == 0 && end % WORD == 0
    ensures Assigned(chunks, chunks', start, end, false)
    ensures snap.start == start && |snap.bits| == end - start && Captures(snap, chunks)
  {
    hide Bit;
    chunks', snap := chunks, Snapshot(start, []);
    var page := start;
    while page < end
      invariant start <= page <= end && page % WORD == 0 && Assigned(chunks, chunks', start, page, false)
      invariant snap.start == start && |snap.bits| == page - start && Captures(snap, chunks)
      decreases end - page
    {
      var idx, offset, num := page / CHUNK, page % CHUNK, Num(page, end);
      WordAligned(page, end);
      // the assertions of the source: whole words are copied
      assert offset % WORD == 0 && num % WORD == 0;
      InChunk(page, end, |chunks|);
      AssignChunk(chunks', page, end, false);
      CopyChunk(chunks, chunks', snap, page, end);
      snap := snap.(bits := snap.bits + chunks'[idx][offset..offset + num]);
      ghost var before := chunks';
      chunks' := chunks'[idx := Assign(chunks'[idx], offset, offset + num, false)];
      AssignedTrans(chunks, before, chunks', start, page, page + num, false);
      page := page + num;
    }
  }

  lemma CopyChunk(chunks: seq<Chunk>, chunks': seq<Chunk>, snap: Snapshot, page: nat, end: nat)
    requires page < end <= |chunks| * CHUNK && snap.start + |snap.bits| == page
    requires Assigned(chunks, chunks', snap.start, page, false) && Captures(snap, chunks)
    ensures page / CHUNK < |chunks| && page % CHUNK + Num(page, end) <= CHUNK
    ensures Captures(snap.(bits := snap.bits + chunks'[page / CHUNK][page % CHUNK..page % CHUNK + Num(page, end)]), chunks)
  {
    InChunk(page, end, |chunks|);
    var i, o, num := page / CHUNK, page % CHUNK, Num(page, end);
    var bits := snap.bits + chunks'[i][o..o + num];
    forall k | 0 <= k < |bits| ensures bits[k] == Bit(chunks, snap.start + k) {
      var p: nat := snap.start + k;
      if k >= |snap.bits| {
        assert Bit(chunks', p) == Bit(chunks, p);
      }
    }
  }

  // ---------------------------------------------------------------- pages of addresses

  /** TARGET_PAGE_ALIGN(a) >> TARGET_PAGE_BITS */
  function PageUp(a: nat, ps: nat): nat
    requires ps >= 1
  {
    (a + ps - 1) / ps
  }

  lemma PageUpIs(a: nat, ps: nat, q: nat)
    requires ps >= 1
    ensures PageUp(a, ps) <= q <==> a <= q * ps
    ensures a / ps <= PageUp(a, ps)
  {
    var u := PageUp(a, ps);
    DivBounds(a + ps - 1, ps);
    DivBounds(a, ps);
    assert (u + 1) * ps == u * ps + ps;
    if u <= q {
      MulMonotone(u, q, ps);
    } else {
      MulMonotone(q + 1, u, ps);
      assert (q + 1) * ps == q * ps + ps;
    }
    if u < a / ps {
      MulMonotone(u + 1, a / ps, ps);
    }
  }

  lemma PageBelow(a: nat, ps: nat, q: nat)
    requires ps >= 1 && q * ps <= a
    ensures q <= a / ps
  {
    DivBounds(a, ps);
    if a / ps < q {
      MulMonotone(a / ps + 1, q, ps);
    }
  }

  /** The pages of a block are [FirstPage, EndPage). */
  function FirstPage(b: RamBlock, ps: nat): nat
    requires ps >= 1
  {
    b.offset / ps
  }

  function EndPage(b: RamBlock, ps: nat): nat
    requires ps >= 1
  {
    (b.offset + b.len) / ps
  }

  /** The block consists of whole pages. */
  predicate Paged(b: RamBlock, ps: nat)
    requires ps >= 1
  {
    b.offset % ps == 0 && b.len % ps == 0
  }

  lemma PagedIs(b: RamBlock, ps: nat)
    requires ps >= 1 && Paged(b, ps)
    ensures FirstPage(b, ps) * ps == b.offset && EndPage(b, ps) * ps == b.offset + b.len
  {
    var i, j := b.offset / ps, b.len / ps;
    assert b.offset == i * ps && b.len == j * ps;
    assert (i + j) * ps == i * ps + j * ps;
    Remainder(b.offset + b.len, ps, i + j, 0);
  }

  /** Blocks that are apart have no page in common. */
  lemma PagesApart(b: RamBlock, c: RamBlock, ps: nat)
    requires ps >= 1 && Paged(b, ps) && Paged(c, ps) && Apart(b, c)
    ensures EndPage(b, ps) <= FirstPage(c, ps) || EndPage(c, ps) <= FirstPage(b, ps)
  {
    PagedIs(b, ps);
    PagedIs(c, ps);
    if b.offset + b.len <= c.offset {
      PageBelow(c.offset, ps, EndPage(b, ps));
    } else {
      PageBelow(b.offset, ps, EndPage(c, ps));
    }
  }

  /** A range of bytes inside a block has its pages inside the block's. */
  lemma RangePages(b: RamBlock, ps: nat, start: nat, length: nat)
    requires ps >= 1 && Paged(b, ps) && b.offset <= start && start + length <= b.offset + b.len
    ensures FirstPage(b, ps) <= start / ps <= PageUp(start + length, ps) <= EndPage(b, ps)
  {
    PagedIs(b, ps);
    PageBelow(start, ps, FirstPage(b, ps));
    PageUpIs(start + length, ps, EndPage(b, ps));
    DivBounds(start, ps);
    DivBounds(start + length, ps);
    if (start + length) / ps < start / ps {
      MulMonotone((start + length) / ps + 1, start / ps, ps);
    }
  }

  /** QEMU_ALIGN_DOWN and QEMU_ALIGN_UP */
  function AlignDown(a: nat, d: nat): nat
    requires d >= 1
  {
    a / d * d
  }

  function AlignUp(a: nat, d: nat): nat
    requires d >= 1
  {
    PageUp(a, d) * d
  }

  /** The byte range of a snapshot is rounded to whole words of the bitmap, which does not leave the
      chunks. */
  lemma SnapshotRange(ps: nat, start: nat, end: nat, n: nat)
    requires ps >= 1 && start <= end <= n * CHUNK * ps
    ensures var first, last := AlignDown(start, WORD * ps), AlignUp(end, WORD * ps);
            && first <= start && end <= last
            && first / ps % WORD == 0 && last / ps % WORD == 0 && first / ps <= last / ps <= n * CHUNK
            && first / ps * ps == first && last / ps * ps == last
  {
    hide PageUp;
    SnapshotStart(ps, start);
    SnapshotEnd(ps, end, n);
    var first, last := AlignDown(start, WORD * ps), AlignUp(end, WORD * ps);
    hide AlignDown, AlignUp;
    if last / ps < first / ps {
      MulMonotone(last / ps, first / ps, ps);
    }
  }

  lemma SnapshotStart(ps: nat, start: nat)
    requires ps >= 1
    ensures var first := AlignDown(start, WORD * ps);
            first <= start && first / ps % WORD == 0 && first / ps * ps == first
  {
    var align := WORD * ps;
    WordsOf(ps, start / align);
    DivBounds(start, align);
  }

  lemma SnapshotEnd(ps: nat, end: nat, n: nat)
    requires ps >= 1 && end <= n * CHUNK * ps
    ensures var last := AlignUp(end, WORD * ps);
            end <= last && last / ps % WORD == 0 && last / ps * ps == last && last / ps <= n * CHUNK
  {
    hide PageUp;
    var align := WORD * ps;
    var m := PageUp(end, align);
    WordsOf(ps, m);
    PageUpIs(end, align, m);
    Regroup(n, ps);
    PageUpIs(end, align, n * 32768);
  }

  lemma Regroup(n: nat, ps: nat)
    ensures n * CHUNK * ps == n * 32768 * (WORD * ps)
  {
    assert n * CHUNK == n * 32768 * WORD;
    MulAssoc(n * 32768, WORD, ps);
  }

  lemma WordsOf(ps: nat, k: nat)
    requires ps >= 1
    ensures k * (WORD * ps) / ps == k * WORD && k * WORD % WORD == 0 && k * WORD * ps == k * (WORD * ps)
  {
    MulAssoc(k, WORD, ps);
    Remainder(k * (WORD * ps), ps, k * WORD, 0);
  }

  // ---------------------------------------------------------------- RAM with its dirty bitmaps

  /** How many chunks hold so many pages: DIV_ROUND_UP. */
  function ChunksFor(pages: nat): nat {
    (pages + CHUNK - 1) / CHUNK
  }

  /** The pages of the blocks are in the chunks of every client. */
  ghost predicate Covered(blocks: seq<RamBlock>, dirty: seq<seq<Chunk>>, ps: nat)
    requires ps >= 1
  {
    && |dirty| == CLIENTS
    && (forall c :: 0 <= c < CLIENTS ==> ChunksOk(dirty[c]) && |dirty[c]| == |dirty[0]|)
    && (forall b :: b in blocks ==> Paged(b, ps) && EndPage(b, ps) <= |dirty[0]| * CHUNK)
  }

  /** The pages below n are dirty for a client as before. */
  ghost predicate SameBelow(chunks: seq<Chunk>, chunks': seq<Chunk>, n: nat) {
    && ChunksOk(chunks) && ChunksOk(chunks') && n <= |chunks| * CHUNK && n <= |chunks'| * CHUNK
    && forall p: nat :: p < n ==> Bit(chunks', p) == Bit(chunks, p)
  }

  /** The pages of the blocks are dirty for every client as before. */
  ghost predicate LiveKept(blocks: seq<RamBlock>, dirty: seq<seq<Chunk>>, dirty': seq<seq<Chunk>>, ps: nat)
    requires ps >= 1 && Covered(blocks, dirty, ps) && Covered(blocks, dirty', ps)
  {
    forall c, b, p: nat :: 0 <= c < CLIENTS && b in blocks && FirstPage(b, ps) <= p < EndPage(b, ps) ==> Bit(dirty'[c], p) == Bit(dirty[c], p)
  }

  /** The pages of the blocks other than b are dirty for every client as before. */
  ghost predicate OthersKept(blocks: seq<RamBlock>, b: RamBlock, dirty: seq<seq<Chunk>>, dirty': seq<seq<Chunk>>, ps: nat)
    requires ps >= 1 && Covered(blocks, dirty, ps) && Covered(blocks, dirty', ps)
  {
    forall c, x, p: nat :: 0 <= c < CLIENTS && x in blocks && x != b && FirstPage(x, ps) <= p < EndPage(x, ps) ==> Bit(dirty'[c], p) == Bit(dirty[c], p)
  }

  /** The pages [lo, hi) are dirty for every client. */
  ghost predicate AllDirty(dirty: seq<seq<Chunk>>, lo: nat, hi: nat) {
    && |dirty| == CLIENTS
    && (forall c :: 0 <= c < CLIENTS ==> ChunksOk(dirty[c]) && hi <= |dirty[c]| * CHUNK)
    && forall c, p: nat :: 0 <= c < CLIENTS && lo <= p < hi ==> Bit(dirty[c], p)
  }

  /** Block b has been added at a best fit; every block keeps its dirty pages, and those of b that are in
      use are dirty for all clients. */
  ghost predicate Added(
    blocks: seq<RamBlock>, dirty: seq<seq<Chunk>>, blocks': seq<RamBlock>, dirty': seq<seq<Chunk>>,
    ps: nat, align: nat, b: RamBlock, used: nat)
    requires ps >= 1 && align >= 1
  {
    && BestFit(blocks, align, b.len, b.offset)
    && (forall x :: x in blocks' <==> x in blocks || x == b)
    && Covered(blocks, dirty, ps) && Covered(blocks, dirty', ps) && LiveKept(blocks, dirty, dirty', ps)
    && AllDirty(dirty', b.offset / ps, PageUp(b.offset + used, ps))
  }

  class Ram {
    const pageSize: nat
    const ram: RamBlocks
    var dirty: seq<seq<Chunk>>            // ram_list.dirty_memory

    ghost predicate Valid()
      reads this, ram
    {
      pageSize >= 1 && ram.align == BITS_PER_LONG * pageSize && ram.Valid() && Covered(ram.blocks, dirty, pageSize)
    }

    constructor (pageSize: nat)
      requires pageSize >= 1 && AlignOk(BITS_PER_LONG * pageSize)
      ensures Valid() && ram.blocks == [] && fresh(ram) && this.pageSize == pageSize
    {
      this.pageSize := pageSize;
      ram := new RamBlocks(BITS_PER_LONG * pageSize);
      dirty := [[], [], []];
    }

    /** last_ram_page */
    method LastRamPage() returns (last: nat)
      requires pageSize >= 1 && forall b :: b in ram.blocks ==> Paged(b, pageSize)
      ensures forall b :: b in ram.blocks ==> EndPage(b, pageSize) <= last
      ensures last == 0 || exists b :: b in ram.blocks && EndPage(b, pageSize) == last
    {
      var max := 0;
      ghost var which: Option<RamBlock> := None;
      for i := 0 to |ram.blocks|
        invariant forall j :: 0 <= j < i ==> ram.blocks[j].offset + ram.blocks[j].len <= max
        invariant if which.Some? then which.value in ram.blocks && max == which.value.offset + which.value.len else max == 0
      {
        var b := ram.blocks[i];
        if max < b.offset + b.len {
          max, which := b.offset + b.len, Some(b);
        }
      }
      last := max / pageSize;
      forall b | b in ram.blocks ensures EndPage(b, pageSize) <= last {
        PagedIs(b, pageSize);
        PageBelow(max, pageSize, EndPage(b, pageSize));
      }
    }

    /** dirty_memory_extend: the chunks that hold the old pages stay, the others are new and clean. */
    method Extend(oldPages: nat, newPages: nat)
      requires |dirty| == CLIENTS && forall c :: 0 <= c < CLIENTS ==> ChunksOk(dirty[c]) && |dirty[c]| == |dirty[0]|
      requires ChunksFor(oldPages) <= |dirty[0]|
      modifies `dirty
      ensures |dirty| == CLIENTS
      ensures forall c :: 0 <= c < CLIENTS ==>
                ChunksOk(dirty[c]) && |dirty[c]| == |dirty[0]| && SameBelow(old(dirty)[c], dirty[c], oldPages)
      ensures if ChunksFor(newPages) <= ChunksFor(oldPages) then dirty == old(dirty)
              else forall c :: 0 <= c < CLIENTS ==>
                     |dirty[c]| == ChunksFor(newPages) && dirty[c] == old(dirty)[c][..ChunksFor(oldPages)] + Clean(ChunksFor(newPages) - ChunksFor(oldPages))
    {
      hide Bit;
      var oldNum, newNum := ChunksFor(oldPages), ChunksFor(newPages);
      forall c | 0 <= c < CLIENTS ensures SameBelow(dirty[c], dirty[c], oldPages) {
        InOldChunks(dirty[c], oldPages);
      }
      if newNum <= oldNum {
        return;
      }
      for i := 0 to CLIENTS
        invariant |dirty| == CLIENTS
        invariant forall c :: i <= c < CLIENTS ==> dirty[c] == old(dirty)[c]
        invariant forall c :: 0 <= c < i ==> dirty[c] == old(dirty)[c][..oldNum] + Clean(newNum - oldNum)
      {
        dirty := dirty[i := dirty[i][..oldNum] + Clean(newNum - oldNum)];
      }
      forall c | 0 <= c < CLIENTS ensures SameBelow(old(dirty)[c], dirty[c], oldPages) {
        Extended(old(dirty)[c], oldPages, newNum - oldNum);
      }
    }

    /** cpu_physical_memory_set_dirty_range for all clients. */
    method SetDirtyRange(b: RamBlock, start: nat, length: nat)
      requires Valid() && b in ram.blocks && b.offset <= start && start + length <= b.offset + b.len
      modifies `dirty
      ensures Valid() && |dirty| == CLIENTS
      ensures forall c :: 0 <= c < CLIENTS ==> Assigned(old(dirty)[c], dirty[c], start / pageSize, PageUp(start + length, pageSize), true)
    {
      hide Bit, Assigned, PageUp, Paged, EndPage;
      RangePages(b, pageSize, start, length);
      var page, end := start / pageSize, PageUp(start + length, pageSize);
      for i := 0 to CLIENTS
        invariant |dirty| == CLIENTS && forall c :: i <= c < CLIENTS ==> dirty[c] == old(dirty)[c]
        invariant forall c :: 0 <= c < i ==> Assigned(old(dirty)[c], dirty[c], page, end, true)
      {
        var chunks := SetPages(dirty[i], page, end);
        dirty := dirty[i := chunks];
      }
      forall c | 0 <= c < CLIENTS ensures ChunksOk(dirty[c]) && |dirty[c]| == |old(dirty)[0]| {
        AssignedSize(old(dirty)[c], dirty[c], page, end, true);
      }
    }

    /** ram_block_add: used_length is `used`, max_length is `size`, and `hostMemory` says whether there is
        host memory.  None is where the source gives up or reports an error. */
    method BlockAdd(size: nat, used: nat, hostMemory: bool) returns (r: Option<RamBlock>)
      requires Valid() && 1 <= size <= RAM_ADDR_MAX && size % pageSize == 0 && used <= size
      modifies this, ram
      ensures Valid()
      ensures r.None? ==> ram.blocks == old(ram.blocks) && dirty == old(dirty)
      ensures r.Some? ==> r.value.len == size && Added(old(ram.blocks), old(dirty), ram.blocks, dirty, pageSize, ram.align, r.value, used)
      ensures (r.None? && hostMemory ==> NoFit(ram.blocks, ram.align, size)) && (r.Some? ==> hostMemory)
    {
      hide *;
      ghost var blocks := ram.blocks;
      ValidIs();
      var oldPages := LastRamPage();
      var offset := ram.FindRamOffset(size);
      if offset.None? || !hostMemory {
        return None;
      }
      var b := RamBlock(offset.value, size);
      BestFitIsFree(blocks, ram.align, size, b.offset);
      NewBlockPaged(b, ram.align, pageSize);
      ghost var d0 := dirty;
      Grow(oldPages, b);
      ghost var d1 := dirty;
      ram.Insert(b);
      CoveredMore(blocks, b, ram.blocks, dirty, pageSize);
      ValidIntro();
      SetDirtyRange(b, b.offset, used);
      AddKeeps(blocks, d0, d1, dirty, pageSize, oldPages, b, used);
      AddedIntro(blocks, d0, ram.blocks, dirty, pageSize, ram.align, b, used);
      r := Some(b);
    }

    /** The part of ram_block_add that makes room in the bitmaps for block b. */
    method Grow(oldPages: nat, b: RamBlock)
      requires pageSize >= 1 && Covered(ram.blocks, dirty, pageSize)
      requires forall x :: x in ram.blocks ==> EndPage(x, pageSize) <= oldPages
      requires oldPages == 0 || exists x :: x in ram.blocks && EndPage(x, pageSize) == oldPages
      modifies `dirty
      ensures Covered(ram.blocks, dirty, pageSize) && |dirty| == CLIENTS && EndPage(b, pageSize) <= |dirty[0]| * CHUNK
      ensures forall c :: 0 <= c < CLIENTS ==> SameBelow(old(dirty)[c], dirty[c], oldPages)
    {
      hide Bit, EndPage, Paged, ChunksFor;
      var newPages := if oldPages < EndPage(b, pageSize) then EndPage(b, pageSize) else oldPages;
      OldPagesFit(ram.blocks, dirty, pageSize, oldPages);
      if newPages > oldPages {
        Extend(oldPages, newPages);
      }
      ExtendCovers(ram.blocks, old(dirty), dirty, pageSize, oldPages, newPages, b);
    }

    lemma ValidIs()
      requires Valid()
      ensures pageSize >= 1 && ram.align == BITS_PER_LONG * pageSize && ram.Valid() && Covered(ram.blocks, dirty, pageSize)
      ensures AlignOk(ram.align) && ListOk(ram.blocks, ram.align)
      ensures forall b :: b in ram.blocks ==> Paged(b, pageSize)
      ensures |dirty| == CLIENTS && forall c :: 0 <= c < CLIENTS ==> ChunksOk(dirty[c]) && |dirty[c]| == |dirty[0]|
    {
    }

    lemma ValidIntro()
      requires pageSize >= 1 && ram.align == BITS_PER_LONG * pageSize && ram.Valid() && Covered(ram.blocks, dirty, pageSize)
      ensures Valid()
    {
    }

    /** qemu_ram_free */
    method BlockFree(i: nat)
      requires Valid() && i < |ram.blocks|
      modifies ram
      ensures Valid() && ram.blocks == old(ram.blocks)[..i] + old(ram.blocks)[i + 1..]
    {
      hide Paged, EndPage, ListOk;
      ram.Free(i);
    }

    /** cpu_physical_memory_test_and_clear_dirty, for a range inside block b */
    method TestAndClearDirty(b: RamBlock, start: nat, length: nat, client: nat) returns (isDirty: bool)
      requires Valid() && client < CLIENTS && b in ram.blocks && b.offset <= start && start + length <= b.offset + b.len
      modifies `dirty
      ensures Valid() && forall c :: 0 <= c < CLIENTS && c != client ==> dirty[c] == old(dirty)[c]
      ensures var page, end := start / pageSize, PageUp(start + length, pageSize);
              if length == 0 then !isDirty && dirty == old(dirty)
              else
                && end <= |old(dirty)[client]| * CHUNK && (isDirty <==> AnyDirty(old(dirty)[client], page, end))
                && Assigned(old(dirty)[client], dirty[client], page, end, false)
    {
      hide Bit, PageUp, Paged, EndPage, AnyDirty;
      if length == 0 {
        return false;
      }
      RangePages(b, pageSize, start, length);
      var chunks;
      chunks, isDirty := TestAndClearPages(dirty[client], start / pageSize, PageUp(start + length, pageSize));
      dirty := dirty[client := chunks];
    }

    /** cpu_physical_memory_snapshot_and_clear_dirty, for a range inside block b.  The range is rounded to
        whole words of the bitmap; what is cleared is in the snapshot. */
    method SnapshotAndClearDirty(b: RamBlock, start: nat, length: nat, client: nat) returns (snap: Snapshot)
      requires Valid() && client < CLIENTS && b in ram.blocks && b.offset <= start && start + length <= b.offset + b.len
      modifies `dirty
      ensures Valid() && forall c :: 0 <= c < CLIENTS && c != client ==> dirty[c] == old(dirty)[c]
      ensures snap.start * pageSize <= start && start + length <= (snap.start + |snap.bits|) * pageSize
      ensures Captures(snap, old(dirty)[client])
      ensures Assigned(old(dirty)[client], dirty[client], snap.start, snap.start + |snap.bits|, false)
      ensures OthersKept(ram.blocks, b, old(dirty), dirty, pageSize)
    {
      hide Bit, PageUp, Paged, EndPage, AlignDown, AlignUp, Captures, Assigned, ListOk;
      RangeBytes(b, pageSize, |dirty[0]|);
      SnapshotRange(pageSize, start, start + length, |dirty[0]|);
      var first, last := AlignDown(start, WORD * pageSize), AlignUp(start + length, WORD * pageSize);
      var chunks;
      chunks, snap := SnapshotPages(dirty[client], first / pageSize, last / pageSize);
      AssignedSize(dirty[client], chunks, first / pageSize, last / pageSize, false);
      dirty := dirty[client := chunks];
      forall x, p: nat | x in ram.blocks && x != b && FirstPage(x, pageSize) <= p < EndPage(x, pageSize)
        ensures Bit(chunks, p) == Bit(old(dirty)[client], p)
      {
        BlocksApart(ram.blocks, ram.align, b, x);
        SnapshotApart(b, x, pageSize, start, start + length);
        AssignedAt(old(dirty)[client], chunks, first / pageSize, last / pageSize, false, p);
      }
    }
  }

  lemma BlocksApart(blocks: seq<RamBlock>, align: nat, b: RamBlock, x: RamBlock)
    requires align >= 1 && ListOk(blocks, align) && b in blocks && x in blocks && x != b
    ensures Apart(b, x) && BlockOk(b, align) && BlockOk(x, align)
  {
    var i :| 0 <= i < |blocks| && blocks[i] == b;
    var j :| 0 <= j < |blocks| && blocks[j] == x;
  }

  /** Blocks begin at whole words of the bitmap, so that the rounding never enters another block. */
  lemma SnapshotApart(b: RamBlock, x: RamBlock, ps: nat, start: nat, end: nat)
    requires ps >= 1 && BlockOk(b, WORD * ps) && BlockOk(x, WORD * ps) && Paged(x, ps) && Apart(b, x)
    requires b.offset <= start <= end <= b.offset + b.len
    ensures EndPage(x, ps) <= AlignDown(start, WORD * ps) / ps || AlignUp(end, WORD * ps) / ps <= FirstPage(x, ps)
  {
    hide PageUp, EndPage, FirstPage, Paged, AlignDown, AlignUp;
    PagedIs(x, ps);
    if x.offset + x.len <= b.offset {
      DownStays(b.offset, WORD * ps, start);
      PageBelow(AlignDown(start, WORD * ps), ps, EndPage(x, ps));
    } else {
      UpStays(x.offset, WORD * ps, end);
      UpPages(ps, end);
      FirstPageIs(x, ps);
      PageBelow(x.offset, ps, AlignUp(end, WORD * ps) / ps);
    }
  }

  lemma UpPages(ps: nat, end: nat)
    requires ps >= 1
    ensures AlignUp(end, WORD * ps) / ps * ps == AlignUp(end, WORD * ps)
  {
    hide PageUp;
    WordsOf(ps, PageUp(end, WORD * ps));
  }

  lemma DownStays(a: nat, d: nat, start: nat)
    requires d >= 1 && a % d == 0 && a <= start
    ensures a <= AlignDown(start, d)
  {
    PageBelow(start, d, a / d);
    MulMonotone(a / d, start / d, d);
  }

  lemma UpStays(a: nat, d: nat, end: nat)
    requires d >= 1 && a % d == 0 && end <= a
    ensures AlignUp(end, d) <= a
  {
    hide PageUp;
    PageUpIs(end, d, a / d);
    MulMonotone(PageUp(end, d), a / d, d);
  }

  /** New chunks. */
  function Clean(n: nat): (r: seq<Chunk>)
    ensures |r| == n && ChunksOk(r)
  {
    seq(n, _ => seq(CHUNK, _ => false))
  }

  lemma InOldChunks(chunks: seq<Chunk>, pages: nat)
    requires ChunksOk(chunks) && ChunksFor(pages) <= |chunks|
    ensures pages <= |chunks| * CHUNK && SameBelow(chunks, chunks, pages)
  {
    assert pages <= ChunksFor(pages) * CHUNK;
    MulMonotone(ChunksFor(pages), |chunks|, CHUNK);
  }

  lemma Extended(chunks: seq<Chunk>, pages: nat, more: nat)
    requires ChunksOk(chunks) && ChunksFor(pages) <= |chunks|
    ensures SameBelow(chunks, chunks[..ChunksFor(pages)] + Clean(more), pages)
  {
    var n := ChunksFor(pages);
    var chunks' := chunks[..n] + Clean(more);
    assert pages <= n * CHUNK;
    MulMonotone(n, |chunks|, CHUNK);
    MulMonotone(n, |chunks'|, CHUNK);
    forall p: nat | p < pages ensures Bit(chunks', p) == Bit(chunks, p) {
      assert p / CHUNK < n;
    }
  }

  lemma AssignedSize(chunks: seq<Chunk>, chunks': seq<Chunk>, lo: nat, hi: nat, v: bool)
    requires Assigned(chunks, chunks', lo, hi, v)
    ensures ChunksOk(chunks') && |chunks'| == |chunks|
  {
  }

  lemma RangeBytes(b: RamBlock, ps: nat, n: nat)
    requires ps >= 1 && Paged(b, ps) && EndPage(b, ps) <= n * CHUNK
    ensures b.offset + b.len <= n * CHUNK * ps
  {
    hide Paged, EndPage;
    PagedIs(b, ps);
    MulMonotone(EndPage(b, ps), n * CHUNK, ps);
  }

  lemma NewBlockPaged(b: RamBlock, align: nat, ps: nat)
    requires ps >= 1 && align == BITS_PER_LONG * ps && BlockOk(b, align) && b.len % ps == 0
    ensures Paged(b, ps) && EndPage(b, ps) == (b.offset + b.len) / ps
  {
    WordsOf(ps, b.offset / align);
    Remainder(b.offset, ps, b.offset / align * WORD, 0);
  }

  /** The chunks that hold the pages up to the last block exist. */
  lemma OldPagesFit(blocks: seq<RamBlock>, dirty: seq<seq<Chunk>>, ps: nat, last: nat)
    requires ps >= 1 && Covered(blocks, dirty, ps) && (last == 0 || exists b :: b in blocks && EndPage(b, ps) == last)
    ensures ChunksFor(last) <= |dirty[0]|
  {
    hide EndPage, Paged;
    assert last <= |dirty[0]| * CHUNK;
  }

  lemma ExtendCovers(blocks: seq<RamBlock>, d0: seq<seq<Chunk>>, d1: seq<seq<Chunk>>, ps: nat, oldPages: nat, newPages: nat, b: RamBlock)
    requires ps >= 1 && Covered(blocks, d0, ps) && ChunksFor(oldPages) <= |d0[0]|
    requires forall x :: x in blocks ==> EndPage(x, ps) <= oldPages
    requires |d1| == CLIENTS && forall c :: 0 <= c < CLIENTS ==> ChunksOk(d1[c]) && |d1[c]| == |d1[0]|
    requires newPages >= oldPages && newPages >= EndPage(b, ps)
    requires if newPages == oldPages || ChunksFor(newPages) <= ChunksFor(oldPages) then d1 == d0 else |d1[0]| == ChunksFor(newPages)
    requires newPages > oldPages ==> forall c :: 0 <= c < CLIENTS ==> SameBelow(d0[c], d1[c], oldPages)
    ensures Covered(blocks, d1, ps) && EndPage(b, ps) <= |d1[0]| * CHUNK
    ensures forall c :: 0 <= c < CLIENTS ==> SameBelow(d0[c], d1[c], oldPages)
  {
    hide Bit, EndPage, Paged;
    forall c | 0 <= c < CLIENTS ensures SameBelow(d0[c], d1[c], oldPages) {
      InOldChunks(d0[c], oldPages);
    }
    assert ChunksFor(newPages) <= |d1[0]|;
    InOldChunks(d1[0], newPages);
  }

  lemma AddKeeps(blocks: seq<RamBlock>, d0: seq<seq<Chunk>>, d1: seq<seq<Chunk>>, d2: seq<seq<Chunk>>, ps: nat, last: nat, b: RamBlock, used: nat)
    requires ps >= 1 && Covered(blocks, d0, ps) && Covered(blocks, d1, ps) && Paged(b, ps) && used <= b.len
    requires forall x :: x in blocks ==> EndPage(x, ps) <= last && Apart(b, x)
    requires forall c :: 0 <= c < CLIENTS ==> SameBelow(d0[c], d1[c], last)
    requires |d2| == CLIENTS && EndPage(b, ps) <= |d1[0]| * CHUNK
    requires forall c :: 0 <= c < CLIENTS ==> Assigned(d1[c], d2[c], b.offset / ps, PageUp(b.offset + used, ps), true)
    ensures Covered(blocks, d2, ps) && LiveKept(blocks, d0, d2, ps)
    ensures AllDirty(d2, b.offset / ps, PageUp(b.offset + used, ps))
  {
    hide Bit, PageUp, EndPage, FirstPage, Paged, Apart, Assigned, SameBelow;
    RangePages(b, ps, b.offset, used);
    forall c | 0 <= c < CLIENTS ensures ChunksOk(d2[c]) && |d2[c]| == |d1[0]| {
      AssignedSize(d1[c], d2[c], b.offset / ps, PageUp(b.offset + used, ps), true);
    }
    forall c, x, p: nat | 0 <= c < CLIENTS && x in blocks && FirstPage(x, ps) <= p < EndPage(x, ps) ensures Bit(d2[c], p) == Bit(d0[c], p) {
      PagesApart(b, x, ps);
      AssignedAt(d1[c], d2[c], b.offset / ps, PageUp(b.offset + used, ps), true, p);
      SameAt(d0[c], d1[c], last, p);
      FirstPageIs(b, ps);
    }
    forall c, p: nat | 0 <= c < CLIENTS && b.offset / ps <= p < PageUp(b.offset + used, ps) ensures Bit(d2[c], p) {
      AssignedAt(d1[c], d2[c], b.offset / ps, PageUp(b.offset + used, ps), true, p);
    }
  }

  lemma FirstPageIs(b: RamBlock, ps: nat)
    requires ps >= 1
    ensures FirstPage(b, ps) == b.offset / ps
  {
  }

  lemma AssignedAt(chunks: seq<Chunk>, chunks': seq<Chunk>, lo: nat, hi: nat, v: bool, p: nat)
    requires Assigned(chunks, chunks', lo, hi, v) && p < |chunks| * CHUNK
    ensures ChunksOk(chunks) && ChunksOk(chunks') && |chunks'| == |chunks|
    ensures Bit(chunks', p) == if lo <= p < hi then v else Bit(chunks, p)
  {
  }

  lemma SameAt(chunks: seq<Chunk>, chunks': seq<Chunk>, n: nat, p: nat)
    requires SameBelow(chunks, chunks', n) && p < n
    ensures ChunksOk(chunks) && ChunksOk(chunks') && p < |chunks| * CHUNK && p < |chunks'| * CHUNK && Bit(chunks', p) == Bit(chunks, p)
  {
  }

  /** cpu_physical_memory_snapshot_get_dirty: was a page of the range dirty when the snapshot was taken? */
  method SnapshotGetDirty(snap: Snapshot, ps: nat, start: nat, length: nat) returns (isDirty: bool)
    requires ps >= 1 && snap.start * ps <= start && start + length <= (snap.start + |snap.bits|) * ps
    ensures isDirty <==> exists p: nat :: start / ps <= p < PageUp(start + length, ps) && WasDirty(snap, p)
  {
    hide PageUp;
    SnapshotPagesOf(snap, ps, start, length);
    var rel := start - snap.start * ps;
    isDirty := AnyBit(snap.bits, rel / ps, PageUp(rel + length, ps));
    BitsArePages(snap, rel / ps, PageUp(rel + length, ps));
  }

  /** The loop of cpu_physical_memory_snapshot_get_dirty. */
  method AnyBit(bits: seq<bool>, start: nat, end: nat) returns (found: bool)
    requires end <= |bits|
    ensures found <==> exists k :: start <= k < end && bits[k]
  {
    var page := start;
    while page < end
      invariant start <= page && forall k :: start <= k < page && k < end ==> !bits[k]
      decreases end - page
    {
      if bits[page] {
        return true;
      }
      page := page + 1;
    }
    found := false;
  }

  lemma BitsArePages(snap: Snapshot, lo: nat, hi: nat)
    requires hi <= |snap.bits|
    ensures (exists k :: lo <= k < hi && snap.bits[k]) <==>
              exists p: nat :: snap.start + lo <= p < snap.start + hi && WasDirty(snap, p)
  {
    if k :| lo <= k < hi && snap.bits[k] {
      assert WasDirty(snap, snap.start + k);
    }
    if p: nat :| snap.start + lo <= p < snap.start + hi && WasDirty(snap, p) {
      assert snap.bits[p - snap.start];
    }
  }

  lemma SnapshotPagesOf(snap: Snapshot, ps: nat, start: nat, length: nat)
    requires ps >= 1 && snap.start * ps <= start && start + length <= (snap.start + |snap.bits|) * ps
    ensures var rel := start - snap.start * ps;
            && rel / ps == start / ps - snap.start && PageUp(rel + length, ps) == PageUp(start + length, ps) - snap.start
            && PageUp(rel + length, ps) <= |snap.bits|
  {
    var rel := start - snap.start * ps;
    ShiftPages(rel, ps, snap.start);
    ShiftPages(rel + length + ps - 1, ps, snap.start);
    assert (snap.start + |snap.bits|) * ps == snap.start * ps + |snap.bits| * ps;
    PageUpIs(rel + length, ps, |snap.bits|);
  }

  lemma ShiftPages(a: nat, ps: nat, k: nat)
    requires ps >= 1
    ensures (a + k * ps) / ps == a / ps + k
  {
    var q, r := a / ps, a % ps;
    assert a == q * ps + r;
    assert (q + k) * ps == q * ps + k * ps;
    Remainder(a + k * ps, ps, q + k, r);
  }

  lemma CoveredMore(blocks: seq<RamBlock>, b: RamBlock, blocks': seq<RamBlock>, dirty: seq<seq<Chunk>>, ps: nat)
    requires ps >= 1 && Covered(blocks, dirty, ps) && Paged(b, ps) && EndPage(b, ps) <= |dirty[0]| * CHUNK
    requires forall x :: x in blocks' <==> x in blocks || x == b
    ensures Covered(blocks', dirty, ps)
  {
    hide Paged, EndPage;
  }

  lemma AddedIntro(
    blocks: seq<RamBlock>, dirty: seq<seq<Chunk>>, blocks': seq<RamBlock>, dirty': seq<seq<Chunk>>,
    ps: nat, align: nat, b: RamBlock, used: nat)
    requires ps >= 1 && align >= 1 && BestFit(blocks, align, b.len, b.offset) && (forall x :: x in blocks' <==> x in blocks || x == b)
    requires Covered(blocks, dirty, ps) && Covered(blocks, dirty', ps) && LiveKept(blocks, dirty, dirty', ps)
    requires AllDirty(dirty', b.offset / ps, PageUp(b.offset + used, ps))
    ensures Added(blocks, dirty, blocks', dirty', ps, align, b, used)
  {
    hide BestFit, Covered, LiveKept, AllDirty, PageUp;
  }

  datatype Op =
    | Add(size: nat, used: nat, hostMemory: bool) | Free(i: nat) | Lookup(addr: nat)
    | TestAndClear(i: nat, client: nat) | TakeSnapshot(i: nat, client: nat)

  /** Through any sequence of additions, removals, lookups and clearings the blocks stay aligned, apart
      and sorted, the bitmaps cover them, and every lookup finds the one block that holds the address,
      if there is one, whatever block was used last. */
  method Run(pageSize: nat, ops: seq<Op>) returns (r: Ram)
    requires pageSize >= 1 && AlignOk(BITS_PER_LONG * pageSize)
    ensures r.Valid() && r.pageSize == pageSize
  {
    hide Covered, ListOk;
    r := new Ram(pageSize);
    for k := 0 to |ops|
      invariant fresh(r) && fresh(r.ram) && r.Valid() && r.pageSize == pageSize
    {
      match ops[k] {
        case Add(size, used, hostMemory) =>
          if 1 <= size <= RAM_ADDR_MAX && size % pageSize == 0 && used <= size {
            var _ := r.BlockAdd(size, used, hostMemory);
          }
        case Free(i) =>
          if i < |r.ram.blocks| {
            r.BlockFree(i);
          }
        case Lookup(addr) =>
          if addr < SPACE {
            var b := r.ram.GetRamBlock(addr);
            assert forall c :: c in r.ram.blocks && Holds(c, addr) ==> b == Some(c);
            assert b.Some? ==> b.value in r.ram.blocks && Holds(b.value, addr);
          }
        case TestAndClear(i, client) =>
          if i < |r.ram.blocks| && client < CLIENTS {
            var _ := r.TestAndClearDirty(r.ram.blocks[i], r.ram.blocks[i].offset, r.ram.blocks[i].len, client);
          }
        case TakeSnapshot(i, client) =>
          if i < |r.ram.blocks| && client < CLIENTS {
            var _ := r.SnapshotAndClearDirty(r.ram.blocks[i], r.ram.blocks[i].offset, r.ram.blocks[i].len, client);
          }
      }
    }
  }
}
