/** The memory dispatch of exec.c: how sections are cut and entered into the page map, and what a
lookup finds for every byte of the address space, before and after compaction.
*/
module Dispatch {
  import opened Wrappers
  import opened Radix
  import opened PhysMap
  import opened Compaction

  const ADDRESS_SPACE: nat := 0x1_0000_0000_0000_0000   // 2^64

  datatype Region = Unassigned | Subpage(id: nat) | Memory(id: nat, ram: bool)

  /** A MemoryRegionSection: `size` bytes at `base` of the address space, which are those at
      `offset` of the region. */
  datatype Section = Section(region: Region, base: nat, offset: nat, size: nat)

  const UNASSIGNED_SECTION := Section(Unassigned, 0, 0, ADDRESS_SPACE)

  predicate SectionOk(s: Section) {
    s.size >= 1 && s.base + s.size <= ADDRESS_SPACE
  }

  /** section_covers_addr: a size of 2^64 covers everything, otherwise compare with the last byte. */
  predicate Covers(s: Section, a: nat) {
    s.size >= ADDRESS_SPACE || s.base <= a <= s.base + s.size - 1
  }

  /** The address space consists of whole pages, no more than the page map has room for. */
  ghost predicate PagesFit(g: Geometry, ps: nat)
    requires g.Valid() && ps >= 1
  {
    ADDRESS_SPACE % ps == 0 && ADDRESS_SPACE / ps <= Step(g, g.levels)
  }

  /** A dispatch table at one moment. */
  datatype View = View(g: Geometry, pageSize: nat, nodes: seq<Node>, root: Entry, sections: seq<Section>, subpages: seq<seq<nat>>) {

    ghost predicate Sized() {
      g.Valid() && pageSize >= 1 && |sections| >= 1 && PagesFit(g, pageSize)
    }

    /** Where the walk arrives for a page. */
    function Page(p: nat): nat
      requires g.Valid()
    {
      Walk(g, nodes, root, g.levels, p)
    }

    /** phys_page_find */
    function Find(a: nat): nat
      requires g.Valid() && pageSize >= 1
    {
      var s := Page(a / pageSize);
      if s < |sections| && Covers(sections[s], a) then s else UNASSIGNED
    }

    /** address_space_lookup_region with resolve_subpage, without the cached section. */
    function Resolve(a: nat): nat
      requires g.Valid() && pageSize >= 1
    {
      var s := Find(a);
      if s < |sections| && sections[s].region.Subpage? then SubEntry(sections[s].region.id, a) else s
    }

    function SubEntry(id: nat, a: nat): nat
      requires pageSize >= 1
    {
      if id < |subpages| && a % pageSize < |subpages[id]| then subpages[id][a % pageSize] else UNASSIGNED
    }
  }

  // ---------------------------------------------------------------- what holds of a table

  /** Does the section own all bytes of the page? */
  predicate OwnsPage(s: Section, ps: nat, p: nat) {
    s.base <= p * ps && p * ps + ps <= s.base + s.size
  }

  /** Sections in the page map are made of whole pages: exactly their own. */
  ghost predicate PagesOk(v: View)
    requires v.Sized()
  {
    && v.sections[UNASSIGNED] == UNASSIGNED_SECTION
    && (forall p: nat :: p < Step(v.g, v.g.levels) ==> v.Page(p) < |v.sections|)
    && (forall p: nat :: p < Step(v.g, v.g.levels) && v.Page(p) != UNASSIGNED ==>
          && OwnsPage(v.sections[v.Page(p)], v.pageSize, p)
          && v.sections[v.Page(p)].base + v.sections[v.Page(p)].size <= ADDRESS_SPACE)
    && (forall p: nat, p': nat ::
          && p < Step(v.g, v.g.levels) && p' < Step(v.g, v.g.levels)
          && v.Page(p) != UNASSIGNED && Meets(v.sections[v.Page(p)], v.pageSize, p')
          ==> v.Page(p') == v.Page(p))
  }

  /** Does the section have a byte in the page? */
  predicate Meets(s: Section, ps: nat, p: nat) {
    s.base < p * ps + ps && p * ps < s.base + s.size
  }

  /** A leaf above the lowest level is assigned, and all its pages are found through it. */
  ghost predicate LeavesOk(v: View, labels: seq<Label>)
    requires v.g.Valid() && |labels| == |v.nodes|
  {
    forall n, i :: 0 <= n < |v.nodes| && 0 <= i < |v.nodes[n]| && v.nodes[n][i].skip == 0 && labels[n].level >= 1 ==>
      && v.nodes[n][i].ptr != UNASSIGNED
      && PagesAre(v, Base(v.g, Child(v.g, labels[n], i), labels[n].level),
                  Base(v.g, Child(v.g, labels[n], i) + 1, labels[n].level), v.nodes[n][i].ptr)
  }

  ghost predicate PagesAre(v: View, lo: nat, hi: nat, s: nat)
    requires v.g.Valid()
  {
    forall p: nat :: lo <= p < hi && p < Step(v.g, v.g.levels) ==> v.Page(p) == s
  }

  /** Subpage sections are single pages with a table of sections, not all unassigned. */
  ghost predicate SubsOk(v: View)
    requires v.pageSize >= 1
  {
    && (forall s :: 0 <= s < |v.sections| && v.sections[s].region.Subpage? ==> SubOk(v, s))
    && (forall s, s' ::
          && 0 <= s < |v.sections| && 0 <= s' < |v.sections|
          && v.sections[s].region.Subpage? && v.sections[s].region == v.sections[s'].region
          ==> s == s')
  }

  ghost predicate SubOk(v: View, s: nat)
    requires v.pageSize >= 1 && s < |v.sections| && v.sections[s].region.Subpage?
  {
    var sec := v.sections[s];
    && sec.region.id < |v.subpages| && |v.subpages[sec.region.id]| == v.pageSize
    && sec.base % v.pageSize == 0 && sec.size == v.pageSize
    && (forall k :: 0 <= k < v.pageSize ==>
          var x := v.subpages[sec.region.id][k];
          x < |v.sections| && !v.sections[x].region.Subpage?)
    && (exists k :: 0 <= k < v.pageSize && v.subpages[sec.region.id][k] != UNASSIGNED)
  }

  /** What the table is meant to say: which bytes are assigned, to which region and offset. */
  type Memory = imap<nat, (Region, int)>

  /** What a section contributes. */
  ghost function AddSection(mem: Memory, s: Section): Memory {
    imap a: nat | a in mem || s.base <= a < s.base + s.size ::
      if s.base <= a < s.base + s.size then (s.region, a - s.base + s.offset) else mem[a]
  }

  /** The table says what it is meant to say about byte a. */
  ghost predicate Agrees(v: View, mem: Memory, a: nat)
    requires v.g.Valid() && v.pageSize >= 1
  {
    var r := v.Resolve(a);
    && r < |v.sections|
    && if a in mem then
         && r != UNASSIGNED && Covers(v.sections[r], a)
         && v.sections[r].region == mem[a].0 && a - v.sections[r].base + v.sections[r].offset == mem[a].1
       else r == UNASSIGNED
  }

  ghost predicate AllAgree(v: View, mem: Memory)
    requires v.g.Valid() && v.pageSize >= 1
  {
    forall a: nat :: a < ADDRESS_SPACE ==> Agrees(v, mem, a)
  }

  ghost predicate TableOk(v: View, mem: Memory) {
    v.Sized() && PagesOk(v) && SubsOk(v) && AllAgree(v, mem)
  }

  // ---------------------------------------------------------------- arithmetic of pages

  lemma PageOfAddress(ps: nat, a: nat, p: nat)
    requires ps >= 1
    ensures a / ps == p <==> p * ps <= a < p * ps + ps
  {
    DivUnique(a, ps, p);
    assert (p + 1) * ps == p * ps + ps;
  }

  lemma PageInSpace(v: View, a: nat)
    requires v.Sized() && a < ADDRESS_SPACE
    ensures a / v.pageSize < Step(v.g, v.g.levels)
  {
    hide Step;
    var ps, n := v.pageSize, ADDRESS_SPACE / v.pageSize;
    DivBounds(a, ps);
    assert ADDRESS_SPACE == n * ps;
    if a / ps >= n {
      MulMonotone(n, a / ps, ps);
    }
  }

  /** The page map section of an assigned page covers every byte of the page. */
  lemma FindPage(v: View, a: nat)
    requires v.Sized() && PagesOk(v) && a < ADDRESS_SPACE
    ensures a / v.pageSize < Step(v.g, v.g.levels)
    ensures v.Find(a) == v.Page(a / v.pageSize)
  {
    hide Step, Walk;
    PageInSpace(v, a);
    PageOfAddress(v.pageSize, a, a / v.pageSize);
  }

  lemma OffsetInPage(ps: nat, p: nat, k: nat)
    requires k < ps
    ensures (p * ps + k) / ps == p && (p * ps + k) % ps == k
  {
    PageOfAddress(ps, p * ps + k, p);
    assert p * ps + k == (p * ps + k) / ps * ps + (p * ps + k) % ps;
  }

  // ---------------------------------------------------------------- entering a section

  /** A section that may be entered: a piece of real memory whose bytes are still unassigned. */
  ghost predicate Enterable(mem: Memory, s: Section) {
    && SectionOk(s) && s.region.Memory?
    && forall a: nat :: s.base <= a < s.base + s.size ==> a !in mem
  }

  /** The pages [lo, hi) now lead to section s. */
  ghost predicate PageUpdate(v: View, v': View, lo: nat, hi: nat, s: nat)
    requires v.g.Valid()
  {
    && v'.g == v.g && v'.pageSize == v.pageSize
    && forall p: nat :: p < Step(v.g, v.g.levels) ==> v'.Page(p) == if lo <= p < hi then s else v.Page(p)
  }

  /** Nothing is entered for the page. */
  ghost predicate Vacant(v: View, p: nat)
    requires v.g.Valid()
  {
    p < Step(v.g, v.g.levels) && v.Page(p) == UNASSIGNED
  }

  lemma AgreesAt(v: View, mem: Memory, a: nat)
    requires v.g.Valid() && v.pageSize >= 1 && AllAgree(v, mem) && a < ADDRESS_SPACE
    ensures Agrees(v, mem, a)
  {
  }

  /** Some byte of a subpage is assigned. */
  lemma SubpageAssigned(v: View, p: nat) returns (a: nat)
    requires v.Sized() && PagesOk(v) && SubsOk(v) && p * v.pageSize + v.pageSize <= ADDRESS_SPACE
    requires p < Step(v.g, v.g.levels) && v.Page(p) != UNASSIGNED && v.sections[v.Page(p)].region.Subpage?
    ensures p * v.pageSize <= a < p * v.pageSize + v.pageSize && v.Resolve(a) != UNASSIGNED
  {
    hide Step, Walk;
    var s := v.Page(p);
    assert SubOk(v, s);
    var k :| 0 <= k < v.pageSize && v.subpages[v.sections[s].region.id][k] != UNASSIGNED;
    a := p * v.pageSize + k;
    OffsetInPage(v.pageSize, p, k);
    FindPage(v, a);
  }

  /** A page all of whose bytes are unassigned is unassigned. */
  lemma FreePage(v: View, mem: Memory, p: nat)
    requires TableOk(v, mem) && p * v.pageSize + v.pageSize <= ADDRESS_SPACE
    requires forall a: nat :: p * v.pageSize <= a < p * v.pageSize + v.pageSize ==> a !in mem
    ensures p < Step(v.g, v.g.levels) && v.Page(p) == UNASSIGNED
  {
    hide Step, Walk;
    var a := p * v.pageSize;
    OffsetInPage(v.pageSize, p, 0);
    FindPage(v, a);
    AgreesAt(v, mem, a);
    if v.Page(p) != UNASSIGNED && v.sections[v.Page(p)].region.Subpage? {
      var b := SubpageAssigned(v, p);
      AgreesAt(v, mem, b);
    }
  }

  /** The bytes of a section made of whole pages, by page. */
  lemma WholePages(ps: nat, s: Section, lo: nat, hi: nat, p: nat)
    requires ps >= 1 && s.base == lo * ps && s.base + s.size == hi * ps
    ensures lo <= p < hi <==> OwnsPage(s, ps, p)
    ensures lo <= p < hi <==> (Meets(s, ps, p) && lo < hi)
  {
    assert (p + 1) * ps == p * ps + ps;
    if p < lo { MulMonotone(p + 1, lo, ps); }
    if lo <= p { MulMonotone(lo, p, ps); }
    if p < hi { MulMonotone(p + 1, hi, ps); }
    if hi <= p { MulMonotone(hi, p, ps); }
  }

  /** The pages of a section that may be entered are vacant. */
  lemma PagesVacant(v: View, mem: Memory, s: Section, lo: nat, hi: nat)
    requires TableOk(v, mem) && Enterable(mem, s)
    requires s.base == lo * v.pageSize && s.base + s.size == hi * v.pageSize
    ensures forall p: nat :: lo <= p < hi ==> Vacant(v, p)
  {
    hide Step, Walk, PagesOk, SubsOk, AllAgree, Meets, PagesFit;
    forall p: nat | lo <= p < hi ensures Vacant(v, p) {
      WholePages(v.pageSize, s, lo, hi, p);
      FreePage(v, mem, p);
    }
  }

  /** register_multipage, seen from outside: entering a section made of whole pages. */
  lemma EnterPages(v: View, mem: Memory, v': View, s: Section, lo: nat, hi: nat)
    requires TableOk(v, mem) && Enterable(mem, s)
    requires s.base == lo * v.pageSize && s.base + s.size == hi * v.pageSize
    requires PageUpdate(v, v', lo, hi, |v.sections|)
    requires v'.sections == v.sections + [s] && v'.subpages == v.subpages
    ensures TableOk(v', AddSection(mem, s))
  {
    hide Step, Walk, PagesOk, SubsOk, Agrees, Meets, PagesFit;
    PagesVacant(v, mem, s, lo, hi);
    EnterPagesOk(v, v', s, lo, hi);
    EnterPagesSubs(v, v', s);
    forall a: nat | a < ADDRESS_SPACE ensures Agrees(v', AddSection(mem, s), a) {
      EnterPagesAgree(v, mem, v', s, lo, hi, a);
    }
  }

  lemma EnterPagesOk(v: View, v': View, s: Section, lo: nat, hi: nat)
    requires v.Sized() && PagesOk(v) && SectionOk(s)
    requires s.base == lo * v.pageSize && s.base + s.size == hi * v.pageSize
    requires PageUpdate(v, v', lo, hi, |v.sections|) && v'.sections == v.sections + [s]
    requires forall p: nat :: lo <= p < hi ==> Vacant(v, p)
    ensures v'.Sized() && PagesOk(v')
  {
    hide Step, Walk, OwnsPage, Meets;
    var ps := v.pageSize;
    forall p: nat { WholePages(ps, s, lo, hi, p); }
    forall p: nat, p': nat |
      && p < Step(v.g, v.g.levels) && p' < Step(v.g, v.g.levels)
      && v'.Page(p) != UNASSIGNED && Meets(v'.sections[v'.Page(p)], ps, p')
      ensures v'.Page(p') == v'.Page(p)
    {
      assert lo <= p' < hi ==> Vacant(v, p');
    }
  }

  lemma EnterPagesSubs(v: View, v': View, s: Section)
    requires v.pageSize >= 1 && SubsOk(v) && s.region.Memory? && v'.pageSize == v.pageSize
    requires v'.sections == v.sections + [s] && v'.subpages == v.subpages
    ensures SubsOk(v')
  {
    forall x | 0 <= x < |v'.sections| && v'.sections[x].region.Subpage? ensures SubOk(v', x) {
      assert SubOk(v, x);
    }
  }

  lemma EnterPagesAgree(v: View, mem: Memory, v': View, s: Section, lo: nat, hi: nat, a: nat)
    requires TableOk(v, mem) && Enterable(mem, s) && v'.Sized() && PagesOk(v') && a < ADDRESS_SPACE
    requires s.base == lo * v.pageSize && s.base + s.size == hi * v.pageSize
    requires PageUpdate(v, v', lo, hi, |v.sections|)
    requires v'.sections == v.sections + [s] && v'.subpages == v.subpages
    ensures Agrees(v', AddSection(mem, s), a)
  {
    hide Step, Walk, PagesOk, SubsOk, AllAgree, OwnsPage, Meets, PagesFit, Agrees;
    FindPage(v, a);
    FindPage(v', a);
    ByteOfPages(v.pageSize, s, lo, hi, a);
    if lo <= a / v.pageSize < hi {
      AgreesInside(v', mem, s, |v.sections|, a);
    } else {
      AgreesAt(v, mem, a);
      AgreesOutside(v, mem, v', s, a);
    }
  }

  /** A byte found in a section of real memory. */
  lemma AgreesInside(v: View, mem: Memory, s: Section, x: nat, a: nat)
    requires v.g.Valid() && v.pageSize >= 1
    requires 0 < x < |v.sections| && v.Resolve(a) == x && v.sections[x] == s && s.base <= a < s.base + s.size
    ensures Agrees(v, AddSection(mem, s), a)
  {
    hide Walk;
  }

  /** A byte outside the section, found as before. */
  lemma AgreesOutside(v: View, mem: Memory, v': View, s: Section, a: nat)
    requires v.g.Valid() && v'.g.Valid() && v.pageSize == v'.pageSize >= 1
    requires Agrees(v, mem, a) && v.sections <= v'.sections && v'.Resolve(a) == v.Resolve(a)
    requires !(s.base <= a < s.base + s.size)
    ensures Agrees(v', AddSection(mem, s), a)
  {
    hide Walk;
  }

  lemma ByteOfPages(ps: nat, s: Section, lo: nat, hi: nat, a: nat)
    requires ps >= 1 && s.base == lo * ps && s.base + s.size == hi * ps
    ensures lo <= a / ps < hi <==> s.base <= a < s.base + s.size
  {
    DivBounds(a, ps);
    var p := a / ps;
    if p < lo { MulMonotone(p + 1, lo, ps); }
    if lo <= p { MulMonotone(lo, p, ps); }
    if p < hi { MulMonotone(p + 1, hi, ps); }
    if hi <= p { MulMonotone(hi, p, ps); }
  }

  // ---------------------------------------------------------------- entering a part of a page

  /** The table of a subpage with the entries from `start` on set to x: subpage_register. */
  function Fill(tab: seq<nat>, start: nat, n: nat, x: nat): seq<nat> {
    seq(|tab|, k requires 0 <= k < |tab| => if start <= k < start + n then x else tab[k])
  }

  /** The section lies within page p. */
  ghost predicate WithinPage(ps: nat, s: Section, p: nat) {
    p * ps <= s.base && s.base + s.size <= p * ps + ps
  }

  /** If some byte of a page is unassigned, the page is vacant or a subpage. */
  lemma PartlyFree(v: View, mem: Memory, a: nat)
    requires TableOk(v, mem) && a < ADDRESS_SPACE && a !in mem
    ensures var p := a / v.pageSize;
            p < Step(v.g, v.g.levels) && (v.Page(p) == UNASSIGNED || v.sections[v.Page(p)].region.Subpage?)
  {
    hide Step, Walk, PagesFit;
    FindPage(v, a);
    AgreesAt(v, mem, a);
  }

  /** register_subpage on a page that already is a subpage. */
  lemma EnterSubpage(v: View, mem: Memory, v': View, s: Section, p: nat)
    requires TableOk(v, mem) && Enterable(mem, s) && WithinPage(v.pageSize, s, p)
    requires p < Step(v.g, v.g.levels) && v.Page(p) != UNASSIGNED && v.sections[v.Page(p)].region.Subpage?
    requires var id := v.sections[v.Page(p)].region.id;
             && id < |v.subpages|
             && v' == v.(sections := v.sections + [s],
                         subpages := v.subpages[id := Fill(v.subpages[id], s.base - p * v.pageSize, s.size, |v.sections|)])
    ensures TableOk(v', AddSection(mem, s))
  {
    hide Step, Walk, PagesOk, SubsOk, AllAgree, PagesFit, Agrees;
    PageInTable(v, p);
    SectionAppended(v, v', s);
    EnterSubpageSubs(v, v', s, v.Page(p), p);
    forall a: nat | a < ADDRESS_SPACE ensures Agrees(v', AddSection(mem, s), a) {
      EnterSubpageAgree(v, mem, v', s, p, a);
    }
    AllAgreeIntro(v', AddSection(mem, s));
  }

  lemma AllAgreeIntro(v: View, mem: Memory)
    requires v.g.Valid() && v.pageSize >= 1
    requires forall a: nat :: a < ADDRESS_SPACE ==> Agrees(v, mem, a)
    ensures AllAgree(v, mem)
  {
  }

  lemma SectionAppended(v: View, v': View, s: Section)
    requires v.Sized() && PagesOk(v)
    requires v'.g == v.g && v'.pageSize == v.pageSize && v'.nodes == v.nodes && v'.root == v.root
    requires v'.sections == v.sections + [s]
    ensures v'.Sized() && PagesOk(v')
  {
    hide Step, Walk, OwnsPage, Meets, PagesFit;
    assert forall p: nat :: v'.Page(p) == v.Page(p);
  }

  lemma EnterSubpageSubs(v: View, v': View, s: Section, x: nat, p: nat)
    requires v.pageSize >= 1 && SubsOk(v) && s.region.Memory? && s.size >= 1 && WithinPage(v.pageSize, s, p)
    requires 0 < x < |v.sections| && v.sections[x].region.Subpage? && v'.pageSize == v.pageSize
    requires v'.sections == v.sections + [s]
    requires var id := v.sections[x].region.id;
             id < |v.subpages| && v'.subpages == v.subpages[id := Fill(v.subpages[id], s.base - p * v.pageSize, s.size, |v.sections|)]
    ensures SubsOk(v')
  {
    var id := v.sections[x].region.id;
    assert SubOk(v, x);
    var start := s.base - p * v.pageSize;
    forall y | 0 <= y < |v'.sections| && v'.sections[y].region.Subpage? ensures SubOk(v', y) {
      assert SubOk(v, y);
      if y == x {
        assert v'.subpages[id][start] == |v.sections|;
      }
    }
  }

  lemma EnterSubpageAgree(v: View, mem: Memory, v': View, s: Section, p: nat, a: nat)
    requires TableOk(v, mem) && Enterable(mem, s) && WithinPage(v.pageSize, s, p) && a < ADDRESS_SPACE
    requires p < Step(v.g, v.g.levels) && v.Page(p) != UNASSIGNED && v.sections[v.Page(p)].region.Subpage?
    requires var id := v.sections[v.Page(p)].region.id;
             && id < |v.subpages|
             && v' == v.(sections := v.sections + [s],
                         subpages := v.subpages[id := Fill(v.subpages[id], s.base - p * v.pageSize, s.size, |v.sections|)])
    requires v'.Sized() && PagesOk(v')
    ensures Agrees(v', AddSection(mem, s), a)
  {
    hide Step, Walk, PagesOk, AllAgree, PagesFit, Agrees;
    FindPage(v, a);
    FindPage(v', a);
    AgreesAt(v, mem, a);
    assert v'.Page(a / v.pageSize) == v.Page(a / v.pageSize);
    FoundInTable(v, a);
    if s.base <= a < s.base + s.size {
      SubByte(v.pageSize, p, a);
      assert SubOk(v, v.Page(p));
      AgreesInside(v', mem, s, |v.sections|, a);
    } else {
      SubEntryKept(v, v', s, p, a);
      AgreesOutside(v, mem, v', s, a);
    }
  }

  lemma FoundInTable(v: View, a: nat)
    requires v.Sized() && PagesOk(v) && a < ADDRESS_SPACE
    ensures v.Find(a) < |v.sections|
    ensures v.Find(a) != UNASSIGNED ==> OwnsPage(v.sections[v.Find(a)], v.pageSize, a / v.pageSize)
  {
    hide Step, Walk, PagesFit;
    FindPage(v, a);
  }

  lemma SubByte(ps: nat, p: nat, a: nat)
    requires p * ps <= a < p * ps + ps
    ensures a / ps == p && a % ps == a - p * ps
  {
    OffsetInPage(ps, p, a - p * ps);
  }

  lemma SubEntryKept(v: View, v': View, s: Section, p: nat, a: nat)
    requires v.Sized() && PagesOk(v) && SubsOk(v) && a < ADDRESS_SPACE && !(s.base <= a < s.base + s.size)
    requires WithinPage(v.pageSize, s, p) && p < Step(v.g, v.g.levels)
    requires v.Page(p) != UNASSIGNED && v.sections[v.Page(p)].region.Subpage?
    requires var id := v.sections[v.Page(p)].region.id;
             && id < |v.subpages|
             && v'.subpages == v.subpages[id := Fill(v.subpages[id], s.base - p * v.pageSize, s.size, |v.sections|)]
    requires v'.g == v.g && v'.pageSize == v.pageSize && v'.sections == v.sections + [s] && v'.Find(a) == v.Find(a)
    ensures v'.Resolve(a) == v.Resolve(a)
  {
    hide Step, Walk, PagesFit;
    FoundInTable(v, a);
    var x, y := v.Find(a), v.Page(p);
    assert SubOk(v, y);
    if v.sections[x].region == v.sections[y].region {
      assert x == y;
      SubByteOf(v, x, p, a);
    }
  }

  /** A byte found in the subpage section of page p lies in page p. */
  lemma SubByteOf(v: View, x: nat, p: nat, a: nat)
    requires v.pageSize >= 1 && x < |v.sections| && v.sections[x].size == v.pageSize
    requires OwnsPage(v.sections[x], v.pageSize, p) && OwnsPage(v.sections[x], v.pageSize, a / v.pageSize)
    ensures a / v.pageSize == p && a % v.pageSize == a - p * v.pageSize
  {
    PageOfAddress(v.pageSize, a, a / v.pageSize);
    SubByte(v.pageSize, p, a);
  }

  lemma PageInTable(v: View, p: nat)
    requires v.Sized() && PagesOk(v) && p < Step(v.g, v.g.levels)
    ensures v.Page(p) < |v.sections|
  {
    hide Walk, Step;
  }

  /** The section of a fresh subpage for page p. */
  function SubSection(v: View, p: nat): Section {
    Section(Subpage(|v.subpages|), p * v.pageSize, 0, v.pageSize)
  }

  function Zeros(n: nat): seq<nat> {
    seq(n, _ => UNASSIGNED)
  }

  /** register_subpage on a vacant page: v1 is the table with the fresh subpage entered. */
  lemma EnterFresh(v: View, mem: Memory, v1: View, v': View, s: Section, p: nat)
    requires TableOk(v, mem) && Enterable(mem, s) && WithinPage(v.pageSize, s, p) && Vacant(v, p)
    requires p * v.pageSize + v.pageSize <= ADDRESS_SPACE
    requires PageUpdate(v, v1, p, p + 1, |v.sections|)
    requires v1.sections == v.sections + [SubSection(v, p)] && v1.subpages == v.subpages + [Zeros(v.pageSize)]
    requires v' == v1.(sections := v1.sections + [s],
                       subpages := v.subpages + [Fill(Zeros(v.pageSize), s.base - p * v.pageSize, s.size, |v1.sections|)])
    ensures TableOk(v', AddSection(mem, s))
  {
    hide Step, Walk, PagesOk, SubsOk, AllAgree, PagesFit, Agrees;
    assert p * v.pageSize + v.pageSize == (p + 1) * v.pageSize;
    EnterPagesOk(v, v1, SubSection(v, p), p, p + 1);
    SectionAppended(v1, v', s);
    FirstIsUnassigned(v);
    EnterFreshSubs(v, v', s, p);
    forall a: nat | a < ADDRESS_SPACE ensures Agrees(v', AddSection(mem, s), a) {
      EnterFreshAgree(v, mem, v', s, p, a);
    }
    AllAgreeIntro(v', AddSection(mem, s));
  }

  lemma EnterFreshSubs(v: View, v': View, s: Section, p: nat)
    requires v.pageSize >= 1 && SubsOk(v) && s.region.Memory? && s.size >= 1 && WithinPage(v.pageSize, s, p)
    requires v'.pageSize == v.pageSize && |v.sections| >= 1 && v.sections[UNASSIGNED].region == Unassigned
    requires v'.sections == v.sections + [SubSection(v, p)] + [s]
    requires v'.subpages == v.subpages + [Fill(Zeros(v.pageSize), s.base - p * v.pageSize, s.size, |v.sections| + 1)]
    ensures SubsOk(v')
  {
    var start := s.base - p * v.pageSize;
    BaseOfPage(v.pageSize, p);
    forall y | 0 <= y < |v'.sections| && v'.sections[y].region.Subpage? ensures SubOk(v', y) {
      if y == |v.sections| {
        assert v'.subpages[|v.subpages|][start] == |v.sections| + 1;
      } else {
        assert SubOk(v, y);
      }
    }
    forall y, y' |
      && 0 <= y < |v'.sections| && 0 <= y' < |v'.sections|
      && v'.sections[y].region.Subpage? && v'.sections[y].region == v'.sections[y'].region
      ensures y == y'
    {
      assert y < |v.sections| ==> SubOk(v, y);
      assert y' < |v.sections| ==> SubOk(v, y');
    }
  }

  lemma BaseOfPage(ps: nat, p: nat)
    requires ps >= 1
    ensures (p * ps) % ps == 0
  {
    OffsetInPage(ps, p, 0);
  }

  lemma EnterFreshAgree(v: View, mem: Memory, v': View, s: Section, p: nat, a: nat)
    requires TableOk(v, mem) && Enterable(mem, s) && WithinPage(v.pageSize, s, p) && Vacant(v, p) && a < ADDRESS_SPACE
    requires PageUpdate(v, v', p, p + 1, |v.sections|) && v'.Sized() && PagesOk(v')
    requires v'.sections == v.sections + [SubSection(v, p)] + [s]
    requires v'.subpages == v.subpages + [Fill(Zeros(v.pageSize), s.base - p * v.pageSize, s.size, |v.sections| + 1)]
    ensures Agrees(v', AddSection(mem, s), a)
  {
    hide Step, Walk, PagesOk, SubsOk, AllAgree, PagesFit, Agrees, Fill;
    FindPage(v, a);
    FindPage(v', a);
    AgreesAt(v, mem, a);
    PageOfAddress(v.pageSize, a, p);
    if a / v.pageSize == p {
      FreshByte(v, v', s, p, a);
      if s.base <= a < s.base + s.size {
        AgreesInside(v', mem, s, |v.sections| + 1, a);
      } else {
        AgreesOutside(v, mem, v', s, a);
      }
    } else {
      OtherByte(v, v', a);
      AgreesOutside(v, mem, v', s, a);
    }
  }

  /** A byte of the page that has become a subpage. */
  lemma FreshByte(v: View, v': View, s: Section, p: nat, a: nat)
    requires v.Sized() && PagesOk(v) && v'.g == v.g && v'.pageSize == v.pageSize
    requires p * v.pageSize <= a < p * v.pageSize + v.pageSize && WithinPage(v.pageSize, s, p)
    requires v.Find(a) == UNASSIGNED && v'.Find(a) == |v.sections|
    requires v'.sections == v.sections + [SubSection(v, p)] + [s]
    requires v'.subpages == v.subpages + [Fill(Zeros(v.pageSize), s.base - p * v.pageSize, s.size, |v.sections| + 1)]
    ensures v.Resolve(a) == UNASSIGNED
    ensures v'.Resolve(a) == if s.base <= a < s.base + s.size then |v.sections| + 1 else UNASSIGNED
  {
    hide Step, Walk, PagesFit, View.Find, View.Page, WithinPage, PagesOk;
    SubByte(v.pageSize, p, a);
    FirstIsUnassigned(v);
  }

  /** A byte of another page. */
  lemma OtherByte(v: View, v': View, a: nat)
    requires v.Sized() && PagesOk(v) && SubsOk(v) && v'.g == v.g && v'.pageSize == v.pageSize && a < ADDRESS_SPACE
    requires v'.Find(a) == v.Find(a) && v.sections <= v'.sections && v.subpages <= v'.subpages
    ensures v'.Resolve(a) == v.Resolve(a)
  {
    hide Step, Walk, PagesFit, PagesOk;
    FoundInTable(v, a);
    var x := v.Find(a);
    if v.sections[x].region.Subpage? {
      assert SubOk(v, x);
    }
  }

  lemma FirstIsUnassigned(v: View)
    requires v.Sized() && PagesOk(v)
    ensures v.sections[UNASSIGNED] == UNASSIGNED_SECTION
  {
  }

  // ---------------------------------------------------------------- large leaves

  /** A range of vacant pages holds no large leaf, so that phys_page_set applies. */
  lemma VacantHasNoLeaf(v: View, labels: seq<Label>, lo: nat, hi: nat)
    requires v.g.Valid() && |labels| == |v.nodes| && LeavesOk(v, labels) && lo < hi
    requires forall p: nat :: lo <= p < hi ==> Vacant(v, p)
    ensures NoLargeLeaf(v.g, v.nodes, labels, lo, hi)
  {
    hide Step, Walk, Base, Child;
    forall n, i | 0 <= n < |v.nodes| && 0 <= i < |v.nodes[n]| && v.nodes[n][i].skip == 0 && labels[n].level >= 1
      ensures Outside(v.g, labels[n], i, lo, hi)
    {
      var b, b' := Base(v.g, Child(v.g, labels[n], i), labels[n].level), Base(v.g, Child(v.g, labels[n], i) + 1, labels[n].level);
      assert PagesAre(v, b, b', v.nodes[n][i].ptr);
      BaseNext(v.g, Child(v.g, labels[n], i), labels[n].level);
      var p := if b < lo then lo else b;
      assert lo <= p < hi ==> Vacant(v, p);
    }
  }

  lemma LeavesKept(v: View, labels: seq<Label>, v': View, labels': seq<Label>, lo: nat, hi: nat, s: nat)
    requires v.g.Valid() && |labels| == |v.nodes| <= |v'.nodes| == |labels'| && labels <= labels'
    requires LeavesOk(v, labels) && s != UNASSIGNED && PageUpdate(v, v', lo, hi, s)
    requires NewLeaves(v.g, v.nodes, labels, v'.nodes, labels', s, lo, hi)
    requires forall p: nat :: lo <= p < hi ==> Vacant(v, p)
    ensures LeavesOk(v', labels')
  {
    hide Step, Walk, Base, Child;
    forall n, i | 0 <= n < |v'.nodes| && 0 <= i < |v'.nodes[n]| && v'.nodes[n][i].skip == 0 && labels'[n].level >= 1
      ensures v'.nodes[n][i].ptr != UNASSIGNED
      ensures PagesAre(v', Base(v.g, Child(v.g, labels'[n], i), labels'[n].level),
                       Base(v.g, Child(v.g, labels'[n], i) + 1, labels'[n].level), v'.nodes[n][i].ptr)
    {
      var x := v'.nodes[n][i].ptr;
      var b, b' := Base(v.g, Child(v.g, labels'[n], i), labels'[n].level), Base(v.g, Child(v.g, labels'[n], i) + 1, labels'[n].level);
      if n < |v.nodes| && i < |v.nodes[n]| && v.nodes[n][i] == v'.nodes[n][i] {
        assert PagesAre(v, b, b', x);
        forall p: nat | b <= p < b' && p < Step(v.g, v.g.levels) ensures v'.Page(p) == x {
          assert lo <= p < hi ==> Vacant(v, p);
        }
      }
    }
  }

  // ---------------------------------------------------------------- compaction

  /** Every node the walk can come to exists, and no entry skips past the last level. */
  ghost predicate Safe(g: Geometry, nodes: seq<Node>, e: Entry, i: nat)
    requires g.Valid()
    decreases i
  {
    e.skip != 0 ==>
      && e.skip <= i
      && (e.ptr == NIL
          || (&& e.ptr < |nodes| && |nodes[e.ptr]| == g.size
              && forall d :: 0 <= d < g.size ==> Safe(g, nodes, nodes[e.ptr][d], i - e.skip)))
  }

  lemma {:induction false} ShortenedSafe(
    g: Geometry, nodes: seq<Node>, labels: seq<Label>, cur: seq<Node>, c: Entry, e: Entry, l: nat, q: nat)
    requires Tree(g, nodes, labels) && AllShorten(g, nodes, labels, cur)
    requires EntryOk(nodes, labels, e, l, q) && Shortens(g, nodes, c, e, l)
    ensures Safe(g, cur, c, l)
    decreases l
  {
    hide AllShorten, Shortens;
    ShortensKeeps(g, nodes, labels, c, e, l, q);
    if c.skip != 0 && c.ptr != NIL {
      var n := c.ptr;
      forall d | 0 <= d < g.size ensures n < |cur| && |cur[n]| == g.size && Safe(g, cur, cur[n][d], l - c.skip) {
        SlotShortens(g, nodes, labels, cur, n, d);
        SlotOk(g, nodes, labels, n, d);
        ShortenedSafe(g, nodes, labels, cur, cur[n][d], nodes[n][d], l - c.skip, Child(g, labels[n], d));
      }
      SlotShortens(g, nodes, labels, cur, n, 0);
    }
  }

  lemma SlotOk(g: Geometry, nodes: seq<Node>, labels: seq<Label>, n: nat, i: nat)
    requires Tree(g, nodes, labels) && n < |nodes| && i < g.size
    ensures |nodes[n]| == g.size && EntryOk(nodes, labels, nodes[n][i], labels[n].level, Child(g, labels[n], i))
  {
  }

  /** Compaction changes what the walk finds for some pages, but not what a lookup returns. */
  lemma CompactionKeepsFind(v: View, labels: seq<Label>, v': View, a: nat)
    requires v.Sized() && PagesOk(v) && a < ADDRESS_SPACE
    requires v' == v.(nodes := v'.nodes, root := v'.root)
    requires Tree(v.g, v.nodes, labels) && EntryOk(v.nodes, labels, v.root, v.g.levels, 0)
    requires AllShorten(v.g, v.nodes, labels, v'.nodes) && Shortens(v.g, v.nodes, v'.root, v.root, v.g.levels)
    ensures v'.Find(a) == v.Find(a) && v'.Page(a / v.pageSize) < |v.sections|
  {
    hide Step, Walk, Tree, EntryOk, AllShorten, Shortens, PagesFit, Prefix, Base;
    var g, p := v.g, a / v.pageSize;
    FindPage(v, a);
    RootPrefix(g, p);
    FindsTheSame(g, v.nodes, labels, v'.nodes, v'.root, v.root, g.levels, 0, p);
    var p' := FindsSomething(g, v.nodes, labels, v'.nodes, v'.root, v.root, g.levels, 0, p);
    RootPrefix(g, p');
    var w := v.Page(p');
    assert v'.Page(p) == w;
    PageOfAddress(v.pageSize, a, p);
  }

  /** The root is for all pages of the map. */
  lemma RootPrefix(g: Geometry, p: nat)
    requires g.Valid()
    ensures Prefix(g, p, g.levels) == 0 <==> p < Step(g, g.levels)
  {
    hide Step, Prefix, Base;
    PrefixRange(g, p, g.levels, 0);
    BaseNext(g, 0, g.levels);
    BaseZero(g, g.levels);
  }

  /** Table v answers every lookup as table `plain` does. */
  ghost predicate Serves(v: View, plain: View)
    requires plain.Sized()
  {
    && v == plain.(nodes := v.nodes, root := v.root)
    && forall a: nat :: a < ADDRESS_SPACE ==> v.Find(a) == plain.Find(a) && v.Page(a / v.pageSize) < |v.sections|
  }

  lemma ServesAgrees(v: View, plain: View, mem: Memory, a: nat)
    requires TableOk(plain, mem) && Serves(v, plain) && a < ADDRESS_SPACE
    ensures v.Find(a) == plain.Find(a) && v.Resolve(a) == plain.Resolve(a) && Agrees(v, mem, a)
  {
    hide Step, Walk, PagesFit, PagesOk, SubsOk, View.Page;
    AgreesAt(plain, mem, a);
  }

  // ---------------------------------------------------------------- sections

  /** Every section of real memory has all its bytes. */
  ghost predicate Entered(sections: seq<Section>, mem: Memory) {
    forall x :: 0 <= x < |sections| && sections[x].region.Memory? ==> HasBytes(sections[x], mem)
  }

  ghost predicate HasBytes(s: Section, mem: Memory) {
    && SectionOk(s)
    && forall a: nat :: s.base <= a < s.base + s.size ==> a in mem && mem[a] == (s.region, a - s.base + s.offset)
  }

  lemma EnteredMore(sections: seq<Section>, mem: Memory, sections': seq<Section>, s: Section)
    requires Entered(sections, mem) && Enterable(mem, s)
    requires forall x :: 0 <= x < |sections'| && sections'[x].region.Memory? ==> sections'[x] == s || sections'[x] in sections
    ensures Entered(sections', AddSection(mem, s))
  {
    forall x | 0 <= x < |sections'| && sections'[x].region.Memory? ensures HasBytes(sections'[x], AddSection(mem, s)) {
      assert sections'[x] != s ==> HasBytes(sections'[x], mem);
    }
  }

  lemma WholeSection(ps: nat, s: Section, lo: nat, n: nat)
    requires ps >= 1 && s.base % ps == 0 && s.size % ps == 0 && lo == s.base / ps && n == s.size / ps && s.size >= 1
    ensures s.base == lo * ps && s.base + s.size == (lo + n) * ps && n >= 1
  {
    assert s.size == n * ps;
    assert (lo + n) * ps == lo * ps + n * ps;
  }

  lemma SectionFits(mem: Memory, s: Section)
    requires Enterable(mem, s)
    ensures SectionOk(s)
  {
  }

  /** addr >> TARGET_PAGE_BITS */
  function PageIndex(ps: nat, a: nat): nat
    requires ps >= 1
  {
    a / ps
  }

  /** addr & TARGET_PAGE_MASK */
  function PageBase(ps: nat, a: nat): nat
    requires ps >= 1
  {
    a / ps * ps
  }

  /** What register_subpage finds for a page in which the section goes. */
  lemma ExistingPage(v: View, mem: Memory, s: Section)
    requires TableOk(v, mem) && Enterable(mem, s)
    ensures var p, base := PageIndex(v.pageSize, s.base), PageBase(v.pageSize, s.base);
            && p < Step(v.g, v.g.levels) && p * v.pageSize + v.pageSize <= ADDRESS_SPACE
            && base / v.pageSize == p && v.Page(p) < |v.sections| && v.Find(base) == v.Page(p)
            && v.sections[UNASSIGNED].region == Unassigned
            && (v.Page(p) == UNASSIGNED || v.sections[v.Page(p)].region.Subpage?)
  {
    hide Step, Walk, PagesFit, SubsOk, AllAgree;
    var p := s.base / v.pageSize;
    PartlyFree(v, mem, s.base);
    OffsetInPage(v.pageSize, p, 0);
    DivBounds(s.base, v.pageSize);
    PageEnd(v, p);
    FindPage(v, p * v.pageSize);
  }

  /** What a lookup finds may be cached; a subpage has its table; the answer covers the address. */
  lemma FoundSection(v: View, plain: View, mem: Memory, a: nat)
    requires TableOk(plain, mem) && Serves(v, plain) && a < ADDRESS_SPACE
    ensures v.Find(a) < |v.sections| && MruOk(v, v.Find(a)) && Covers(v.sections[v.Find(a)], a)
    ensures v.sections[UNASSIGNED] == UNASSIGNED_SECTION
    ensures v.sections[v.Find(a)].region.Subpage? ==>
              var id := v.sections[v.Find(a)].region.id;
              id < |v.subpages| && a % v.pageSize < |v.subpages[id]| && v.subpages[id][a % v.pageSize] < |v.sections|
  {
    hide Step, Walk, PagesFit, SubsOk, AllAgree;
    FoundInTable(plain, a);
    PageOfAddress(v.pageSize, a, a / v.pageSize);
    var x := plain.Find(a);
    if v.sections[x].region.Subpage? {
      SubpageEntries(plain, x, a % v.pageSize);
    }
    if x != UNASSIGNED {
      forall b: nat | b < ADDRESS_SPACE && Covers(v.sections[x], b) ensures v.Find(b) == x {
        CoveredIsFound(plain, a, b);
      }
    }
  }

  /** Every byte that a found section covers is found in it. */
  lemma CoveredIsFound(v: View, a: nat, b: nat)
    requires v.Sized() && PagesOk(v) && a < ADDRESS_SPACE && b < ADDRESS_SPACE
    requires v.Find(a) < |v.sections| && v.Find(a) != UNASSIGNED && Covers(v.sections[v.Find(a)], b)
    ensures v.Find(b) == v.Find(a)
  {
    hide Step, Walk, PagesFit, OwnsPage, Meets, Covers, PagesOk, View.Find;
    FindPage(v, a);
    FindPage(v, b);
    PageSection(v, a / v.pageSize);
    CoversMeets(v.sections[v.Find(a)], v.pageSize, b);
    MeetingPages(v, a / v.pageSize, b / v.pageSize);
  }

  lemma PageSection(v: View, p: nat)
    requires v.Sized() && PagesOk(v) && p < Step(v.g, v.g.levels) && v.Page(p) != UNASSIGNED
    ensures v.Page(p) < |v.sections| && v.sections[v.Page(p)].base + v.sections[v.Page(p)].size <= ADDRESS_SPACE
  {
    hide Step, Walk, PagesFit, OwnsPage, Meets;
  }

  lemma MeetingPages(v: View, p: nat, p': nat)
    requires v.Sized() && PagesOk(v) && p < Step(v.g, v.g.levels) && p' < Step(v.g, v.g.levels)
    requires v.Page(p) < |v.sections| && v.Page(p) != UNASSIGNED && Meets(v.sections[v.Page(p)], v.pageSize, p')
    ensures v.Page(p') == v.Page(p)
  {
    hide Step, Walk, PagesFit, OwnsPage, Meets;
  }

  lemma CoversMeets(s: Section, ps: nat, b: nat)
    requires ps >= 1 && s.base + s.size <= ADDRESS_SPACE && b < ADDRESS_SPACE && Covers(s, b)
    ensures Meets(s, ps, b / ps)
  {
    PageOfAddress(ps, b, b / ps);
  }

  lemma SubpageEntries(v: View, x: nat, k: nat)
    requires v.pageSize >= 1 && SubsOk(v) && x < |v.sections| && v.sections[x].region.Subpage? && k < v.pageSize
    ensures var id := v.sections[x].region.id;
            id < |v.subpages| && k < |v.subpages[id]| && v.subpages[id][k] < |v.sections|
  {
    assert SubOk(v, x);
  }

  /** A page that begins in the address space ends there. */
  lemma PageEnd(v: View, p: nat)
    requires v.Sized() && p * v.pageSize < ADDRESS_SPACE
    ensures p * v.pageSize + v.pageSize <= ADDRESS_SPACE
  {
    hide Step;
    var ps, n := v.pageSize, ADDRESS_SPACE / v.pageSize;
    assert ADDRESS_SPACE == n * ps;
    if p >= n {
      MulMonotone(n, p, ps);
    } else {
      MulMonotone(p + 1, n, ps);
      assert (p + 1) * ps == p * ps + ps;
    }
  }

  lemma SubpageTable(v: View, x: nat)
    requires v.pageSize >= 1 && SubsOk(v) && x < |v.sections| && v.sections[x].region.Subpage?
    ensures v.sections[x].region.id < |v.subpages| && |v.subpages[v.sections[x].region.id]| == v.pageSize
  {
    assert SubOk(v, x);
  }

  /** Tables with the same nodes have the same pages. */
  lemma SamePages(v: View, v': View, labels: seq<Label>)
    requires v.g.Valid() && v'.g == v.g && v'.nodes == v.nodes && v'.root == v.root && |labels| == |v.nodes|
    ensures forall p: nat :: v'.Page(p) == v.Page(p)
    ensures forall p: nat :: Vacant(v, p) ==> Vacant(v', p)
    ensures LeavesOk(v, labels) ==> LeavesOk(v', labels)
  {
    hide Step, Walk, Base, Child;
    assert forall p: nat :: v'.Page(p) == v.Page(p);
    if LeavesOk(v, labels) {
      forall n, i | 0 <= n < |v.nodes| && 0 <= i < |v.nodes[n]| && v.nodes[n][i].skip == 0 && labels[n].level >= 1
        ensures PagesAre(v', Base(v.g, Child(v.g, labels[n], i), labels[n].level),
                         Base(v.g, Child(v.g, labels[n], i) + 1, labels[n].level), v'.nodes[n][i].ptr)
      {
        assert PagesAre(v, Base(v.g, Child(v.g, labels[n], i), labels[n].level),
                        Base(v.g, Child(v.g, labels[n], i) + 1, labels[n].level), v.nodes[n][i].ptr);
      }
    }
  }

  /** There is a node number for every node that k sections can need. */
  lemma NodeBudget(nodes: nat, k: nat, ps: nat, per: nat)
    requires 1 <= k < ps && per >= 1 && nodes <= (k - 1) * per && ps * per <= NIL
    ensures nodes + per <= NIL && nodes + per <= k * per && k < NIL
  {
    MulMonotone(k, ps, per);
    MulMonotone(1, per, ps);
    assert k * per == (k - 1) * per + per;
  }

  // ---------------------------------------------------------------- the dispatch object

  /** The first n bytes of a section, and what remains. */
  function Take(s: Section, n: nat): Section {
    s.(size := n)
  }

  function Rest(s: Section, n: nat): Section
    requires n <= s.size
  {
    Section(s.region, s.base + n, s.offset + n, s.size - n)
  }

  /** A section may be entered piece by piece. */
  lemma CutSection(mem: Memory, s: Section, n: nat)
    requires Enterable(mem, s) && 0 < n < s.size
    ensures Enterable(mem, Take(s, n)) && Enterable(AddSection(mem, Take(s, n)), Rest(s, n))
    ensures AddSection(AddSection(mem, Take(s, n)), Rest(s, n)) == AddSection(mem, s)
  {
  }

  /** Where the first page of a section that does not begin a page ends: TARGET_PAGE_ALIGN. */
  function Left(ps: nat, a: nat): nat
    requires ps >= 1
  {
    ps - a % ps
  }

  lemma HeadWithin(ps: nat, s: Section)
    requires ps >= 1 && s.base % ps != 0
    ensures Left(ps, s.base) < ps && (s.base + Left(ps, s.base)) % ps == 0
    ensures forall n: nat :: n <= Left(ps, s.base) ==> WithinPage(ps, Take(s, n), PageIndex(ps, s.base))
  {
    var p := s.base / ps;
    assert s.base == p * ps + s.base % ps;
    assert s.base + Left(ps, s.base) == (p + 1) * ps;
    BaseOfPage(ps, p + 1);
  }

  lemma TailWithin(ps: nat, s: Section)
    requires ps >= 1 && s.base % ps == 0
    ensures s.size >= ps ==> 0 < s.size - s.size % ps <= s.size && (s.size - s.size % ps) % ps == 0
    ensures (s.base + (s.size - s.size % ps)) % ps == 0 && s.size % ps < ps
    ensures s.size < ps ==> WithinPage(ps, s, PageIndex(ps, s.base))
  {
    var p, n := s.base / ps, s.size / ps;
    assert s.base == p * ps && s.size == n * ps + s.size % ps;
    assert p * ps + n * ps == (p + n) * ps;
    BaseOfPage(ps, n);
    BaseOfPage(ps, p + n);
  }

  class AddressSpaceDispatch {
    const pageSize: nat
    const t: PhysPageMap
    var sections: seq<Section>
    var subpages: seq<seq<nat>>
    var mru: Option<nat>                    // mru_section
    ghost var mem: Memory                   // what has been entered
    ghost var plain: View                   // the table before compaction

    /** address_space_dispatch_new */
    constructor (g: Geometry, pageSize: nat)
      requires g.Valid() && pageSize >= 1 && PagesFit(g, pageSize)
      requires pageSize * (2 * g.levels - 1) <= NIL
      ensures Building() && mem == imap[] && sections == [UNASSIGNED_SECTION] && fresh(t) && t.g == g && this.pageSize == pageSize
    {
      this.pageSize := pageSize;
      t := new PhysPageMap(g);
      sections := [UNASSIGNED_SECTION];
      subpages := [];
      mru := None;
      mem := imap[];
      new;
      hide Step, PagesFit;
      assert forall p: nat :: Table().Page(p) == UNASSIGNED;
    }

    ghost function Table(): View
      reads this, t
    {
      View(t.g, pageSize, t.nodes, t.root, sections, subpages)
    }

    /** The table is under construction: not yet compacted and not yet used. */
    ghost predicate Building()
      reads this, t
    {
      && mru == None && TableOk(Table(), mem) && Entered(sections, mem) && PagesReady()
      && |sections| <= pageSize
      && |t.nodes| <= (|sections| - 1) * (2 * t.g.levels - 1)
      && pageSize * (2 * t.g.levels - 1) <= NIL
    }

    ghost predicate PagesReady()
      reads this, t
    {
      t.Valid() && |t.labels| == |t.nodes| && t.root.skip != 0 && LeavesOk(Table(), t.labels)
    }

    /** The table is complete, and the cached section is one that a walk would find. */
    ghost predicate Valid()
      reads this, t
    {
      && TableOk(plain, mem) && Entered(sections, mem) && Serves(Table(), plain)
      && Safe(t.g, t.nodes, t.root, t.g.levels)
      && (mru.Some? ==> MruOk(Table(), mru.value))
    }

    /** phys_section_add, which gives up when there is one section per byte of a page. */
    method SectionAdd(s: Section) returns (index: Option<nat>)
      modifies `sections
      ensures if |old(sections)| < pageSize
              then index == Some(|old(sections)|) && sections == old(sections) + [s]
              else index == None && sections == old(sections)
    {
      if |sections| >= pageSize {
        return None;
      }
      index := Some(|sections|);
      sections := sections + [s];
    }

    /** phys_page_set on vacant pages. */
    method SetPages(lo: nat, n: nat, s: nat)
      requires pageSize >= 1 && PagesReady() && 0 < s < NIL && n > 0
      requires forall p: nat :: lo <= p < lo + n ==> Vacant(Table(), p)
      requires |t.nodes| + 2 * t.g.levels - 1 <= NIL
      modifies t
      ensures PagesReady() && PageUpdate(old(Table()), Table(), lo, lo + n, s)
      ensures |t.nodes| <= |old(t.nodes)| + 2 * t.g.levels - 1
    {
      hide Step, Walk, LeavesOk, NewLeaves, NoLargeLeaf;
      ghost var v, labels := Table(), t.labels;
      VacantHasNoLeaf(v, labels, lo, lo + n);
      assert Vacant(v, lo + n - 1);
      t.Set(lo, n, s);
      assert forall p: nat :: Table().Page(p) == t.PageAt(p);
      assert forall p: nat :: v.Page(p) == old(t.PageAt(p));
      LeavesKept(v, labels, Table(), t.labels, lo, lo + n, s);
    }

    /** register_multipage */
    method RegisterMultipage(s: Section) returns (ok: bool)
      requires Building() && Enterable(mem, s) && s.base % pageSize == 0 && s.size % pageSize == 0
      modifies this, t
      ensures ok ==> Building() && mem == AddSection(old(mem), s) && |sections| == |old(sections)| + 1
      ensures !ok ==> |old(sections)| >= pageSize
    {
      hide Step, Walk, PagesOk, SubsOk, AllAgree, PagesFit, LeavesOk, PhysPageMap.Valid, Entered, Enterable;
      ghost var v := Table();
      var lo, n := s.base / pageSize, s.size / pageSize;
      SectionFits(mem, s);
      WholeSection(pageSize, s, lo, n);
      PagesVacant(v, mem, s, lo, lo + n);
      var index := SectionAdd(s);
      if index == None {
        return false;
      }
      SamePages(v, Table(), t.labels);
      NodeBudget(|t.nodes|, |v.sections|, pageSize, 2 * t.g.levels - 1);
      SetPages(lo, n, index.value);
      EnterPages(v, mem, Table(), s, lo, lo + n);
      EnteredMore(v.sections, mem, sections, s);
      mem := AddSection(mem, s);
      ok := true;
    }

    /** subpage_init, and its entry into the page map. */
    method FreshSubpage(p: nat) returns (ok: bool)
      requires Building() && Vacant(Table(), p)
      modifies this, t
      ensures mem == old(mem) && mru == None
      ensures ok ==>
                && PagesReady() && PageUpdate(old(Table()), Table(), p, p + 1, |old(sections)|)
                && sections == old(sections) + [SubSection(old(Table()), p)] && |sections| <= pageSize
                && subpages == old(subpages) + [Zeros(pageSize)]
                && |t.nodes| <= (|sections| - 1) * (2 * t.g.levels - 1)
      ensures !ok ==> |old(sections)| >= pageSize
    {
      hide Step, Walk, PagesOk, SubsOk, AllAgree, PagesFit, LeavesOk, PhysPageMap.Valid, Entered;
      ghost var v := Table();
      var sub := Section(Subpage(|subpages|), p * pageSize, 0, pageSize);
      subpages := subpages + [Zeros(pageSize)];
      var index := SectionAdd(sub);
      if index == None {
        return false;
      }
      SamePages(v, Table(), t.labels);
      NodeBudget(|t.nodes|, |v.sections|, pageSize, 2 * t.g.levels - 1);
      SetPages(p, 1, index.value);
      ok := true;
    }

    /** subpage_register */
    method SubpageRegister(id: nat, start: nat, end: nat, s: nat) returns (r: int)
      requires id < |subpages| && |subpages[id]| == pageSize
      modifies `subpages
      ensures if start >= pageSize || end >= pageSize then r == -1 && subpages == old(subpages)
              else r == 0 && subpages == old(subpages)[id := if start <= end then Fill(old(subpages)[id], start, end - start + 1, s)
                                                              else old(subpages)[id]]
    {
      if start >= pageSize || end >= pageSize {
        return -1;
      }
      ghost var tab := subpages[id];
      var idx := start;
      while idx <= end
        invariant start <= idx && (start <= end ==> idx <= end + 1) && (start > end ==> idx == start)
        invariant |subpages| == |old(subpages)| && subpages == old(subpages)[id := subpages[id]]
        invariant subpages[id] == Fill(tab, start, idx - start, s)
        decreases end + 1 - idx
      {
        var tab': seq<nat> := subpages[id][idx := s];
        subpages := subpages[id := tab'];
        idx := idx + 1;
      }
      r := 0;
    }

    /** register_subpage: the page is vacant or a subpage already. */
    method RegisterSubpage(s: Section) returns (ok: bool)
      requires Building() && Enterable(mem, s) && WithinPage(pageSize, s, PageIndex(pageSize, s.base))
      modifies this, t
      ensures ok ==> Building() && mem == AddSection(old(mem), s) && |sections| <= |old(sections)| + 2
      ensures !ok ==> |old(sections)| + 2 > pageSize
    {
      hide Step, Walk, PagesOk, SubsOk, AllAgree, PagesFit, LeavesOk, PhysPageMap.Valid, Entered, Enterable, Safe, PageIndex, PageBase;
      ghost var v := Table();
      var p, base := PageIndex(pageSize, s.base), PageBase(pageSize, s.base);
      SectionFits(mem, s);
      ExistingPage(v, mem, s);
      ReadyIsSafe();
      var existing := PhysPageFind(base);
      // the assertion of the source
      assert sections[existing].region.Subpage? || sections[existing].region.Unassigned?;
      if sections[existing].region.Subpage? {
        ok := EnterOld(s, p, existing);
      } else {
        ok := EnterNew(s, p);
      }
    }

    /** register_subpage where the page is a subpage. */
    method EnterOld(s: Section, p: nat, existing: nat) returns (ok: bool)
      requires Building() && Enterable(mem, s) && WithinPage(pageSize, s, p)
      requires p < Step(t.g, t.g.levels) && existing == Table().Page(p) < |sections|
      requires existing != UNASSIGNED && sections[existing].region.Subpage?
      modifies this, t
      ensures ok ==> Building() && mem == AddSection(old(mem), s) && |sections| == |old(sections)| + 1
      ensures !ok ==> |old(sections)| >= pageSize
    {
      hide Step, Walk, PagesOk, SubsOk, AllAgree, PagesFit, LeavesOk, PhysPageMap.Valid, Entered, Enterable;
      ghost var v := Table();
      SectionFits(mem, s);
      SubpageTable(v, existing);
      var index := SectionAdd(s);
      if index == None {
        return false;
      }
      SamePages(v, Table(), t.labels);
      var id, start := sections[existing].region.id, s.base - p * pageSize;
      var r := SubpageRegister(id, start, start + s.size - 1, index.value);
      SamePages(v, Table(), t.labels);
      EnterSubpage(v, mem, Table(), s, p);
      EnteredMore(v.sections, mem, sections, s);
      MulMonotone(|v.sections| - 1, |v.sections|, 2 * t.g.levels - 1);
      mem := AddSection(mem, s);
      ok := true;
    }

    /** register_subpage where the page is vacant. */
    method EnterNew(s: Section, p: nat) returns (ok: bool)
      requires Building() && Enterable(mem, s) && WithinPage(pageSize, s, p)
      requires Vacant(Table(), p) && p * pageSize + pageSize <= ADDRESS_SPACE
      modifies this, t
      ensures ok ==> Building() && mem == AddSection(old(mem), s) && |sections| == |old(sections)| + 2
      ensures !ok ==> |old(sections)| + 2 > pageSize
    {
      hide Step, Walk, PagesOk, SubsOk, AllAgree, PagesFit, LeavesOk, PhysPageMap.Valid, Entered, Enterable;
      ghost var v := Table();
      SectionFits(mem, s);
      var id := |subpages|;
      ok := FreshSubpage(p);
      if !ok {
        return;
      }
      ghost var v1 := Table();
      var index := SectionAdd(s);
      if index == None {
        return false;
      }
      var start := s.base - p * pageSize;
      var r := SubpageRegister(id, start, start + s.size - 1, index.value);
      SamePages(v1, Table(), t.labels);
      assert subpages == v.subpages + [Fill(Zeros(pageSize), start, s.size, index.value)];
      EnterFresh(v, mem, v1, Table(), s, p);
      EnteredMore(v.sections, mem, sections, s);
      MulMonotone(|v1.sections| - 1, |v1.sections|, 2 * t.g.levels - 1);
      mem := AddSection(mem, s);
    }

    /** flatview_add_to_dispatch: cut the section at the page boundaries and enter the pieces.  It gives
        up only if there is no room for five more sections. */
    method AddToDispatch(s: Section) returns (ok: bool)
      requires Building() && Enterable(mem, s)
      modifies this, t
      ensures ok ==> Building() && mem == AddSection(old(mem), s) && |sections| <= |old(sections)| + 5
      ensures !ok ==> |old(sections)| + 5 > pageSize
    {
      hide TableOk, PagesReady, Entered, Enterable, WithinPage, Left, AddSection, PageIndex;
      assert pageSize >= 1 by { TableSized(); }
      var remain := s;
      if remain.base % pageSize != 0 {
        HeadWithin(pageSize, remain);
        var left := Left(pageSize, remain.base);
        var now := Take(remain, if left <= remain.size then left else remain.size);
        if now.size < remain.size {
          CutSection(mem, remain, now.size);
        }
        ok := RegisterSubpage(now);
        if !ok || remain.size == now.size {
          return;
        }
        remain := Rest(remain, now.size);
      }
      ok := AddAligned(remain);
    }

    /** The part of flatview_add_to_dispatch that begins at a page boundary. */
    method AddAligned(s: Section) returns (ok: bool)
      requires Building() && Enterable(mem, s) && s.base % pageSize == 0
      modifies this, t
      ensures ok ==> Building() && mem == AddSection(old(mem), s) && |sections| <= |old(sections)| + 3
      ensures !ok ==> |old(sections)| + 3 > pageSize
    {
      hide TableOk, PagesReady, Entered, Enterable, WithinPage, AddSection, PageIndex;
      assert pageSize >= 1 by { TableSized(); }
      var remain := s;
      TailWithin(pageSize, remain);
      if remain.size >= pageSize {
        var now := Take(remain, remain.size - remain.size % pageSize);
        if now.size < remain.size {
          CutSection(mem, remain, now.size);
        }
        ok := RegisterMultipage(now);
        if !ok || remain.size == now.size {
          return;
        }
        remain := Rest(remain, now.size);
        TailWithin(pageSize, remain);
      }
      ok := RegisterSubpage(remain);
    }

    lemma TableSized()
      requires Building()
      ensures pageSize >= 1
    {
    }

    /** address_space_dispatch_compact: every lookup finds what it found before. */
    method Compact()
      requires Building()
      modifies this, t
      ensures Valid() && mem == old(mem)
      ensures forall a: nat :: a < ADDRESS_SPACE ==> Table().Find(a) == old(Table().Find(a))
      ensures t.g.levels < 64 ==> MaximalBelow(t.g, old(t.nodes), t.nodes, t.root, t.g.levels)
    {
      hide Step, Walk, PagesOk, SubsOk, AllAgree, PagesFit, LeavesOk, Tree, EntryOk, AllShorten, Shortens, Entered, MaximalBelow;
      plain := Table();
      ghost var labels := t.labels;
      DispatchCompact(t);
      forall a: nat | a < ADDRESS_SPACE
        ensures Table().Find(a) == plain.Find(a) && Table().Page(a / pageSize) < |sections|
      {
        CompactionKeepsFind(plain, labels, Table(), a);
      }
      ShortenedSafe(t.g, plain.nodes, labels, t.nodes, t.root, plain.root, t.g.levels, 0);
    }

    /** address_space_lookup_region: the cached section never changes the answer. */
    method LookupRegion(a: nat, resolve: bool) returns (s: nat)
      requires Valid() && a < ADDRESS_SPACE
      modifies `mru
      ensures Valid() && s < |sections|
      ensures s == if resolve then Table().Resolve(a) else Table().Find(a)
      ensures resolve ==> Agrees(Table(), mem, a)
    {
      hide Step, Walk, PagesOk, SubsOk, AllAgree, PagesFit, Entered, Agrees, Safe, View.Page;
      ServesAgrees(Table(), plain, mem, a);
      FoundSection(Table(), plain, mem, a);
      if mru == None || mru.value == UNASSIGNED || !Covers(sections[mru.value], a) {
        s := PhysPageFind(a);
        mru := Some(s);
      } else {
        s := mru.value;
      }
      if resolve && sections[s].region.Subpage? {
        s := subpages[sections[s].region.id][a % pageSize];
      }
    }

    /** address_space_translate_internal: where byte a is, and how far the access may go on from there. */
    method TranslateInternal(a: nat, plen: nat, resolve: bool) returns (s: nat, xlat: int, plen': int)
      requires Valid() && a < ADDRESS_SPACE
      modifies `mru
      ensures Valid() && s < |sections| && Covers(sections[s], a)
      ensures resolve ==> if a in mem then mem[a] == (sections[s].region, xlat) else s == UNASSIGNED && xlat == a
      ensures !resolve ==> s == Table().Find(a) && xlat == a - sections[s].base + sections[s].offset
      ensures sections[s].region.Memory? && sections[s].region.ram ==>
                && plen' == (if a + plen <= sections[s].base + sections[s].size then plen else sections[s].base + sections[s].size - a)
                && (forall b: nat :: a <= b < a + plen' ==> b in mem && mem[b] == (sections[s].region, xlat + (b - a)))
      ensures !(sections[s].region.Memory? && sections[s].region.ram) ==> plen' == plen
    {
      hide Step, Walk, PagesOk, SubsOk, AllAgree, PagesFit, View.Page, Safe;
      s := LookupRegion(a, resolve);
      FoundSection(Table(), plain, mem, a);
      var addr := a - sections[s].base;
      xlat := addr + sections[s].offset;
      plen' := plen;
      if sections[s].region.Memory? && sections[s].region.ram {
        var diff := sections[s].size - addr;
        plen' := if diff < plen then diff else plen;
        assert HasBytes(sections[s], mem);
      }
    }

    lemma ReadyIsSafe()
      requires PagesReady()
      ensures Safe(t.g, t.nodes, t.root, t.g.levels)
    {
      hide LeavesOk;
      assert AllShorten(t.g, t.nodes, t.labels, t.nodes);
      ShortenedSafe(t.g, t.nodes, t.labels, t.nodes, t.root, t.root, t.g.levels, 0);
    }

    /** phys_page_find */
    method PhysPageFind(a: nat) returns (s: nat)
      requires t.g.Valid() && pageSize >= 1 && |sections| >= 1
      requires Safe(t.g, t.nodes, t.root, t.g.levels) && Table().Page(a / pageSize) < |sections|
      ensures s == Table().Find(a)
    {
      hide Digit;
      var lp, i, index := t.root, t.g.levels, a / pageSize;
      while lp.skip != 0
        invariant 0 <= i <= t.g.levels
        invariant Safe(t.g, t.nodes, lp, i)
        invariant Walk(t.g, t.nodes, lp, i, index) == Table().Page(index)
        decreases i
      {
        i := i - lp.skip;
        if lp.ptr == NIL {
          return UNASSIGNED;
        }
        lp := t.nodes[lp.ptr][Digit(t.g, index, i)];
      }
      s := if Covers(sections[lp.ptr], a) then lp.ptr else UNASSIGNED;
    }
  }

  /** Wherever the cached section covers the address, it is what the walk finds. */
  ghost predicate MruOk(v: View, s: nat)
    requires v.g.Valid() && v.pageSize >= 1
  {
    s < |v.sections| && (s != UNASSIGNED ==> forall a: nat :: a < ADDRESS_SPACE && Covers(v.sections[s], a) ==> v.Find(a) == s)
  }

  // ---------------------------------------------------------------- building a dispatch table

  /** The sections of a flat view do not overlap. */
  ghost predicate FlatView(list: seq<Section>) {
    && (forall k :: 0 <= k < |list| ==> SectionOk(list[k]) && list[k].region.Memory?)
    && (forall j, k :: 0 <= j < k < |list| ==> Apart(list[j], list[k]))
  }

  predicate Apart(s: Section, s': Section) {
    s.base + s.size <= s'.base || s'.base + s'.size <= s.base
  }

  /** mem holds the bytes of the sections and no others. */
  ghost predicate Describes(mem: Memory, list: seq<Section>) {
    && (forall k :: 0 <= k < |list| ==> HasBytes(list[k], mem))
    && (forall a: nat :: a in mem ==> ByteOf(list, a))
  }

  ghost predicate ByteOf(list: seq<Section>, a: nat) {
    exists k :: 0 <= k < |list| && list[k].base <= a < list[k].base + list[k].size
  }

  lemma DescribesMore(mem: Memory, list: seq<Section>, s: Section)
    requires Describes(mem, list) && SectionOk(s) && s.region.Memory?
    requires forall k :: 0 <= k < |list| ==> Apart(list[k], s)
    ensures Enterable(mem, s) && Describes(AddSection(mem, s), list + [s])
  {
    hide HasBytes, ByteOf;
    forall a: nat | a in mem ensures !(s.base <= a < s.base + s.size) && ByteOf(list + [s], a) {
      ByteElsewhere(list, s, a);
    }
    AddedBytes(mem, list, s);
    forall k | 0 <= k < |list + [s]| ensures HasBytes((list + [s])[k], AddSection(mem, s)) {
      if k < |list| {
        BytesKept(mem, list[k], s);
      }
    }
  }

  lemma ByteElsewhere(list: seq<Section>, s: Section, a: nat)
    requires ByteOf(list, a) && forall k :: 0 <= k < |list| ==> Apart(list[k], s)
    ensures !(s.base <= a < s.base + s.size) && ByteOf(list + [s], a)
  {
    var j :| 0 <= j < |list| && list[j].base <= a < list[j].base + list[j].size;
    assert Apart(list[j], s) && (list + [s])[j] == list[j];
  }

  lemma AddedBytes(mem: Memory, list: seq<Section>, s: Section)
    requires SectionOk(s)
    ensures HasBytes(s, AddSection(mem, s))
    ensures forall a: nat :: s.base <= a < s.base + s.size ==> ByteOf(list + [s], a)
  {
    assert (list + [s])[|list|] == s;
  }

  lemma BytesKept(mem: Memory, s: Section, s': Section)
    requires HasBytes(s, mem) && Apart(s, s')
    ensures HasBytes(s, AddSection(mem, s'))
  {
  }

  /** The table for a flat view: make it, enter the sections, compact it. */
  method BuildDispatch(g: Geometry, pageSize: nat, list: seq<Section>) returns (d: AddressSpaceDispatch, ok: bool)
    requires g.Valid() && pageSize >= 1 && PagesFit(g, pageSize) && pageSize * (2 * g.levels - 1) <= NIL
    requires FlatView(list)
    ensures ok ==> d.Valid() && Describes(d.mem, list)
    ensures !ok ==> 5 * |list| >= pageSize
  {
    hide TableOk, PagesFit, AddSection, Enterable, HasBytes, ByteOf, Apart, SectionOk;
    d := new AddressSpaceDispatch(g, pageSize);
    var k := 0;
    while k < |list|
      invariant 0 <= k <= |list|
      invariant fresh(d) && fresh(d.t) && d.Building() && d.pageSize == pageSize
      invariant Describes(d.mem, list[..k]) && |d.sections| <= 1 + 5 * k
    {
      DescribesMore(d.mem, list[..k], list[k]);
      assert list[..k + 1] == list[..k] + [list[k]];
      ok := d.AddToDispatch(list[k]);
      if !ok {
        return;
      }
      k := k + 1;
    }
    assert list[..k] == list;
    d.Compact();
    ok := true;
  }
}
