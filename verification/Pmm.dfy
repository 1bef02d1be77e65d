/** pmm.c: the physical page bitmap. */
module Pmm {
  import opened Words

  const PAGE: nat := 4096
  const LIMIT: nat := 0x1_0000_0000   // MEMORY_4GB_LIMIT
  const MAX_PAGES: nat := 1048576
  const WORDS: nat := 32768           // MAX_PAGES / BITMAP_ENTRY_BITS
  const RESERVED: nat := 256          // PAGE_TABLE_COUNT

  /** A multiboot memory map entry. */
  datatype Region = Region(available: bool, addr: nat, len: nat)

  /** One 32-bit word of the bitmap, least significant bit first; a set bit is a page in use. */
  type Word = seq<bool>

  ghost predicate IsBitmap(b: seq<Word>) { |b| == WORDS && forall i :: 0 <= i < |b| ==> |b[i]| == 32 }

  predicate Used(b: seq<Word>, p: nat) { p / 32 < |b| && p % 32 < |b[p / 32]| && b[p / 32][p % 32] }

  predicate Free(b: seq<Word>, p: nat) { p < MAX_PAGES && !Used(b, p) }

  function Full(): (w: Word)
    ensures |w| == 32 && forall k :: 0 <= k < 32 ==> w[k]
  {
    seq(32, _ => true)
  }

  /** set_bit and clear_bit */
  function SetTo(b: seq<Word>, p: nat, v: bool): (r: seq<Word>)
    requires p / 32 < |b| && p % 32 < |b[p / 32]|
    ensures |r| == |b| && (IsBitmap(b) ==> IsBitmap(r))
    ensures Used(r, p) == v
  {
    b[p / 32 := b[p / 32][p % 32 := v]]
  }

  lemma SetOther(b: seq<Word>, p: nat, v: bool, q: nat)
    requires p / 32 < |b| && p % 32 < |b[p / 32]| && q != p
    ensures Used(SetTo(b, p, v), q) == Used(b, q)
  {
  }

  lemma FillWord(b: seq<Word>, i: nat, p: nat)
    requires i < |b|
    ensures Used(b[i := Full()], p) == (Used(b, p) || p / 32 == i)
  {
  }

  function Up(x: nat): nat { (x + PAGE - 1) / PAGE }
  function Down(x: nat): nat { x / PAGE }

  /** Page p lies wholly inside an available region. */
  predicate InRegion(r: Region, p: nat)
  {
    r.available && r.addr <= 4096 * p && 4096 * (p + 1) <= r.addr + r.len
  }

  ghost predicate Available(rs: seq<Region>, p: nat)
  {
    exists k :: 0 <= k < |rs| && InRegion(rs[k], p)
  }

  /** Pages the kernel loop reserves: one per 4096 bytes from kernel_start on. */
  predicate KernelPage(ks: nat, ke: nat, p: nat)
  {
    ks / PAGE <= p && ks + PAGE * (p - ks / PAGE) < ke
  }

  /** Those are all the pages the kernel touches exactly when its first and last bytes leave no
      page over. */
  lemma KernelCovered(ks: nat, ke: nat)
    requires ks < ke
    ensures (forall p: nat :: ks / PAGE <= p <= (ke - 1) / PAGE ==> KernelPage(ks, ke, p)) <==>
      ks % PAGE + (ke - ks - 1) % PAGE < PAGE
  {
    var last := (ke - 1) / PAGE;
    assert KernelPage(ks, ke, last) <==> ks % PAGE + (ke - ks - 1) % PAGE < PAGE by { LastPage(ks, ke); }
    forall p: nat | ks / PAGE <= p <= last && KernelPage(ks, ke, last) ensures KernelPage(ks, ke, p) { }
    assert ks / PAGE <= last;
  }

  lemma LastPage(ks: nat, ke: nat)
    requires ks < ke
    ensures KernelPage(ks, ke, (ke - 1) / PAGE) <==> ks % PAGE + (ke - ks - 1) % PAGE < PAGE
  {
    var a, r := ks / PAGE, ks % PAGE;
    var n, l := (ke - ks - 1) / PAGE, (ke - ks - 1) % PAGE;
    assert ks == PAGE * a + r && ke - 1 == PAGE * (a + n) + r + l;
    if r + l < PAGE {
      assert (ke - 1) / PAGE == a + n;
    } else {
      assert (ke - 1) / PAGE == a + n + 1;
    }
  }

  /** usable_end_words from the highest region end, in 32 bits */
  function UsableWords(end: nat): nat
  {
    var pages := Up(end) % U32;
    (pages + 31) % U32 / 32
  }

  /** With memory up to 4 GiB the words cover it and stay inside the bitmap. */
  lemma UsableFits(end: nat)
    requires end <= LIMIT
    ensures UsableWords(end) <= WORDS && end <= PAGE * 32 * UsableWords(end)
  {
    assert Up(end) <= MAX_PAGES;
  }

  /** Past 4 GiB the words in use run off the end of the bitmap. */
  lemma UsableOverruns(end: nat)
    requires end % PAGE == 0 && end <= PAGE * (U32 - 32)
    ensures UsableWords(end) <= WORDS <==> end <= 0x1_0000_0000
  {
    assert Up(end) == end / PAGE < U32;
  }

  ghost predicate BelowLimit(rs: seq<Region>)
  {
    forall k :: 0 <= k < |rs| && rs[k].available ==> rs[k].addr + rs[k].len <= LIMIT
  }

  ghost predicate MaxEnd(rs: seq<Region>, end: nat)
  {
    && (forall k :: 0 <= k < |rs| && rs[k].available ==> PAGE * Down(rs[k].addr + rs[k].len) <= end)
    && (end == 0 || exists k :: 0 <= k < |rs| && rs[k].available && end == PAGE * Down(rs[k].addr + rs[k].len))
  }

  class PageAllocator {
    var bitmap: seq<Word>
    var usable: nat        // usable_end_words
    var last: nat          // last_alloc

    constructor ()
      ensures IsBitmap(bitmap) && usable == 0 && last == 0
    {
      bitmap := seq(WORDS, _ => Full());
      usable, last := 0, 0;
    }

    /** The loop over one available region. */
    method ClearRegion(r: Region)
      requires IsBitmap(bitmap) && r.available
      modifies `bitmap
      ensures IsBitmap(bitmap)
      ensures forall p: nat {:trigger Used(bitmap, p)} :: p < MAX_PAGES ==>
        Used(bitmap, p) == (old(Used(bitmap, p)) && !InRegion(r, p))
    {
      var start := Up(r.addr);
      var end := Down(r.addr + r.len);
      var q := start;
      while q < end
        invariant start <= q && (q <= end || q == start) && IsBitmap(bitmap)
        invariant forall p: nat {:trigger Used(bitmap, p)} :: p < MAX_PAGES ==>
          Used(bitmap, p) == (old(Used(bitmap, p)) && !(start <= p < q))
      {
        if q < MAX_PAGES {
          ghost var was := bitmap;
          bitmap := SetTo(bitmap, q, false);
          forall p: nat | p != q ensures Used(bitmap, p) == Used(was, p) { SetOther(was, q, false, p); }
        }
        q := q + 1;
      }
    }

    /** The walk over the memory map. */
    method ClearRegions(rs: seq<Region>) returns (usableEnd: nat)
      requires IsBitmap(bitmap) && forall p: nat :: p < MAX_PAGES ==> Used(bitmap, p)
      modifies `bitmap
      ensures IsBitmap(bitmap) && MaxEnd(rs, usableEnd)
      ensures forall p: nat {:trigger Used(bitmap, p)} :: p < MAX_PAGES ==> Used(bitmap, p) == !Available(rs, p)
    {
      usableEnd := 0;
      var k := 0;
      while k < |rs|
        invariant k <= |rs| && IsBitmap(bitmap) && MaxEnd(rs[..k], usableEnd)
        invariant forall p: nat {:trigger Used(bitmap, p)} :: p < MAX_PAGES ==>
          Used(bitmap, p) == !Available(rs[..k], p)
      {
        ghost var was := bitmap;
        MoreRegions(rs, k);
        if rs[k].available {
          var end := PAGE * Down(rs[k].addr + rs[k].len);
          ghost var before := usableEnd;
          if usableEnd < end { usableEnd := end; }
          MaxMore(rs, k, before, usableEnd);
          ClearRegion(rs[k]);
        } else {
          MaxMore(rs, k, usableEnd, usableEnd);
        }
        k := k + 1;
      }
      assert rs[..|rs|] == rs;
    }

    /** The words of the first 256 pages, then the kernel's pages. */
    method ReserveAll(ks: nat, ke: nat)
      requires IsBitmap(bitmap) && ke <= LIMIT
      modifies `bitmap
      ensures IsBitmap(bitmap)
      ensures forall p: nat {:trigger Used(bitmap, p)} :: p < MAX_PAGES ==>
        Used(bitmap, p) == (old(Used(bitmap, p)) || p < RESERVED || KernelPage(ks, ke, p))
    {
      var i := 0;
      while i < RESERVED / 32
        invariant i <= RESERVED / 32 && IsBitmap(bitmap)
        invariant forall p: nat {:trigger Used(bitmap, p)} :: p < MAX_PAGES ==>
          Used(bitmap, p) == (old(Used(bitmap, p)) || p < 32 * i)
      {
        ghost var was := bitmap;
        bitmap := bitmap[i := Full()];
        forall p: nat ensures Used(bitmap, p) == (Used(was, p) || p / 32 == i) { FillWord(was, i, p); }
        i := i + 1;
      }
      var addr := ks;
      ghost var n := 0;
      while addr < ke
        invariant addr == ks + PAGE * n && IsBitmap(bitmap)
        invariant forall p: nat {:trigger Used(bitmap, p)} :: p < MAX_PAGES ==>
          Used(bitmap, p) == (old(Used(bitmap, p)) || p < RESERVED || KernelPage(ks, if addr < ke then addr else ke, p))
      {
        ghost var was := bitmap;
        ghost var q := addr / PAGE;
        assert q == ks / PAGE + n;
        bitmap := SetTo(bitmap, addr / PAGE, true);
        forall p: nat | p != q ensures Used(bitmap, p) == Used(was, p) { SetOther(was, q, true, p); }
        addr := addr + PAGE;
        n := n + 1;
        ghost var upTo := if addr < ke then addr else ke;
        forall p: nat ensures KernelPage(ks, upTo, p) == (KernelPage(ks, addr - PAGE, p) || p == q) {
          NextKernelPage(ks, ke, n - 1, p);
        }
      }
    }

    /** Never hand out a page the words in use do not cover, nor page 0. */
    ghost predicate Valid()
      reads this
    {
      && IsBitmap(bitmap) && usable <= WORDS && (usable == 0 || last < usable)
      && Used(bitmap, 0)
      && forall p: nat :: Free(bitmap, p) ==> p < 32 * usable
    }

    /** pmm_init */
    method Init(rs: seq<Region>, ks: nat, ke: nat)
      requires ke <= LIMIT
      modifies `bitmap, `usable
      ensures forall p: nat ::
        Free(bitmap, p) <==> p < 0x10_0000 && Available(rs, p) && 256 <= p && !KernelPage(ks, ke, p)
      ensures BelowLimit(rs) && last == 0 ==> Valid()
    {
      bitmap := seq(WORDS, _ => Full());
      var end := ClearRegions(rs);
      usable := UsableWords(end);
      ReserveAll(ks, ke);
      if BelowLimit(rs) {
        UsableFits(end);
        forall p: nat | Available(rs, p) ensures p < 32 * usable { AvailableBelow(rs, end, p); }
      }
    }

    /** Mark the page of that bit and remember where it was found. */
    method Take(i: nat, bit: nat) returns (addr: nat)
      requires Valid() && i < usable && bit < 32 && Free(bitmap, 32 * i + bit)
      modifies `bitmap, `last
      ensures Valid() && addr == PAGE * (32 * i + bit) && addr / PAGE == 32 * i + bit && addr / PAGE / 32 == i
      ensures last == i && addr % PAGE == 0 && (32 * i + bit) % 32 == bit
      ensures forall p: nat {:trigger Used(bitmap, p)} :: Used(bitmap, p) == (old(Used(bitmap, p)) || p == 32 * i + bit)
    {
      ghost var p := 32 * i + bit;
      assert p / 32 == i && p % 32 == bit;
      bitmap := SetTo(bitmap, i * 32 + bit, true);
      forall q: nat | q != p ensures Used(bitmap, q) == old(Used(bitmap, q)) { SetOther(old(bitmap), p, true, q); }
      assert forall q: nat :: Free(bitmap, q) ==> Free(old(bitmap), q);
      last := i;
      addr := (i * 32 + bit) * PAGE;
    }

    /** pmm_alloc_page: the first clear bit of the next word that has one, from last_alloc on. */
    method Alloc() returns (addr: nat)
      requires Valid()
      modifies `bitmap, `last
      ensures Valid()
      ensures addr == 0 <==> forall p: nat :: !Free(old(bitmap), p)
      ensures addr == 0 ==> bitmap == old(bitmap) && last == old(last)
      ensures addr != 0 ==> addr % PAGE == 0 && Free(old(bitmap), addr / PAGE) && last == addr / PAGE / 32
      ensures addr != 0 ==>
        forall p: nat {:trigger Used(bitmap, p)} :: Used(bitmap, p) == (old(Used(bitmap, p)) || p == addr / PAGE)
      ensures addr != 0 ==> Nearest(old(bitmap), old(last), usable, addr / PAGE)
    {
      hide Nearest;
      var i := last;
      var start := i;
      if usable == 0 { return 0; }
      var tried := 0;
      while tried == 0 || i != start
        invariant i < usable && tried <= usable
        invariant i == if start + tried < usable then start + tried else start + tried - usable
        invariant forall t: nat :: t < tried ==> AllUsed(bitmap, Ahead(start, t, usable))
        invariant tried < usable || i == start
        invariant bitmap == old(bitmap) && last == old(last)
        decreases usable - tried
      {
        var bit := FirstClear(bitmap[i]);
        if bit < 32 {
          ghost var was := bitmap;
          assert Free(bitmap, 32 * i + bit);
          addr := Take(i, bit);
          NearestIs(was, start, usable, tried, i, bit);
          return;
        }
        i := i + 1;
        tried := tried + 1;
        if i >= usable { i := 0; }
      }
      addr := 0;
      forall p: nat ensures !Free(bitmap, p) {
        if p < 32 * usable { NotFree(bitmap, start, usable, p); }
      }
    }

    /** pmm_free_page */
    method FreePage(addr: nat)
      requires IsBitmap(bitmap) && addr < LIMIT
      modifies `bitmap
      ensures old(Valid()) && 0 < addr / PAGE < 32 * usable ==> Valid()
      ensures forall p: nat {:trigger Used(bitmap, p)} :: Used(bitmap, p) == (old(Used(bitmap, p)) && p != addr / PAGE)
    {
      ghost var was := bitmap;
      bitmap := SetTo(bitmap, addr / PAGE, false);
      forall p: nat | p != addr / PAGE ensures Used(bitmap, p) == Used(was, p) { SetOther(was, addr / PAGE, false, p); }
      assert addr / PAGE != 0 ==> Used(bitmap, 0) == Used(was, 0);
      assert forall p: nat :: Free(bitmap, p) ==> Free(was, p) || p == addr / PAGE;
    }
  }

  ghost predicate AllUsed(b: seq<Word>, i: nat) { i < |b| ==> forall k :: 0 <= k < |b[i]| ==> b[i][k] }

  /** The word t places after start, wrapping at the end of the words in use. */
  function Ahead(start: nat, t: nat, usable: nat): nat
  {
    if start + t < usable then start + t else if start + t < 2 * usable then start + t - usable else 0
  }

  /** Page p is the lowest clear bit of the nearest word, from start on, that has one. */
  ghost predicate Nearest(b: seq<Word>, start: nat, usable: nat, p: nat)
  {
    exists t: nat ::
      && t < usable <= |b| && p / 32 == Ahead(start, t, usable) < usable
      && (forall u: nat :: u < t ==> AllUsed(b, Ahead(start, u, usable)))
      && forall k: nat :: k < p % 32 && k < |b[p / 32]| ==> b[p / 32][k]
  }

  lemma NearestIs(b: seq<Word>, start: nat, usable: nat, t: nat, i: nat, bit: nat)
    requires start < usable <= |b| && t < usable && i == Ahead(start, t, usable) < usable && bit < 32 == |b[i]|
    requires forall u: nat :: u < t ==> AllUsed(b, Ahead(start, u, usable))
    requires forall k :: 0 <= k < bit ==> b[i][k]
    ensures Nearest(b, start, usable, 32 * i + bit)
  {
    assert (32 * i + bit) / 32 == i && (32 * i + bit) % 32 == bit;
  }

  /** __builtin_ffs(~word) - 1 */
  method FirstClear(w: Word) returns (bit: nat)
    requires |w| == 32
    ensures bit <= 32 && (bit < 32 ==> !w[bit]) && forall k :: 0 <= k < bit ==> w[k]
  {
    bit := 0;
    while bit < 32 && w[bit]
      invariant bit <= 32 && forall k :: 0 <= k < bit ==> w[k]
    {
      bit := bit + 1;
    }
  }

  lemma NotFree(b: seq<Word>, start: nat, usable: nat, p: nat)
    requires IsBitmap(b) && start < usable <= |b| && p < 32 * usable
    requires forall t: nat :: t < usable ==> AllUsed(b, Ahead(start, t, usable))
    ensures !Free(b, p)
  {
    var t := if p / 32 >= start then p / 32 - start else p / 32 + usable - start;
    assert Ahead(start, t, usable) == p / 32;
  }

  lemma NextKernelPage(ks: nat, ke: nat, n: nat, p: nat)
    requires ks + PAGE * n < ke
    ensures KernelPage(ks, if ks + PAGE * (n + 1) < ke then ks + PAGE * (n + 1) else ke, p) ==
      (KernelPage(ks, ks + PAGE * n, p) || p == ks / PAGE + n)
  {
  }

  lemma AvailableBelow(rs: seq<Region>, end: nat, p: nat)
    requires MaxEnd(rs, end) && Available(rs, p) && end <= LIMIT
    ensures p < 32 * UsableWords(end)
  {
    UsableFits(end);
    var k :| 0 <= k < |rs| && InRegion(rs[k], p);
  }

  lemma MoreRegions(rs: seq<Region>, k: nat)
    requires k < |rs|
    ensures forall p: nat :: Available(rs[..k + 1], p) <==> Available(rs[..k], p) || InRegion(rs[k], p)
  {
    forall p: nat ensures Available(rs[..k + 1], p) <==> Available(rs[..k], p) || InRegion(rs[k], p) {
      if InRegion(rs[k], p) { assert rs[..k + 1][k] == rs[k]; }
      if Available(rs[..k], p) {
        var j :| 0 <= j < k && InRegion(rs[..k][j], p);
        assert rs[..k + 1][j] == rs[..k][j];
      }
      if Available(rs[..k + 1], p) {
        var j :| 0 <= j < k + 1 && InRegion(rs[..k + 1][j], p);
        if j < k { assert rs[..k][j] == rs[..k + 1][j]; }
      }
    }
  }

  lemma MaxMore(rs: seq<Region>, k: nat, end: nat, end': nat)
    requires k < |rs| && MaxEnd(rs[..k], end)
    requires end' ==
      if rs[k].available && PAGE * Down(rs[k].addr + rs[k].len) > end then PAGE * Down(rs[k].addr + rs[k].len) else end
    ensures MaxEnd(rs[..k + 1], end')
  {
    assert rs[..k + 1][k] == rs[k];
    assert forall j :: 0 <= j < k ==> rs[..k + 1][j] == rs[..k][j];
    if end' == end && end != 0 {
      var j :| 0 <= j < k && rs[..k][j].available && end == PAGE * Down(rs[..k][j].addr + rs[..k][j].len);
      assert rs[..k + 1][j] == rs[..k][j];
    }
  }
}
