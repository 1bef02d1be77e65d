/** ext2/directory.c over the whole directory: finding, adding and removing entries. */
module Directory {
  import opened Words
  import opened Bytes
  import opened Arith
  import opened BlockTree
  import opened Layout
  import opened FsState
  import opened FileData
  import opened EntryLists
  import opened DirBlock

  // ----- a directory as a list of entries -----

  /** The bytes of block l of file i; a hole reads as zeros. */
  function BlockBytes(v: View, i: nat, l: nat): (b: Buf)
    ensures |b| == v.bs
  {
    seq<Byte>(v.bs, k requires k >= 0 => RawByte(v, i, Times(l, v.bs) + k))
  }

  function BlockList(v: View, i: nat, l: nat): seq<Entry>
  {
    Entries(BlockBytes(v, i, l))
  }

  function Lists(v: View, i: nat, n: nat): (ls: seq<seq<Entry>>)
    ensures |ls| == n && forall l :: 0 <= l < n ==> ls[l] == BlockList(v, i, l)
  {
    seq(n, l requires l >= 0 => BlockList(v, i, l))
  }

  /** The entries of the first n blocks, in order. */
  function DirList(v: View, i: nat, n: nat): seq<Entry>
  {
    Cat(Lists(v, i, n))
  }

  /** Every mapped block is a chain of records. */
  ghost predicate DirChain(v: View, i: nat, n: nat)
  {
    forall l: nat :: l < n ==> Resolve(v, i, l) == 0 || Chain(BlockBytes(v, i, l))
  }

  /** A directory of n blocks: chains of records below 4 GiB, and nothing mapped behind them. */
  ghost predicate DirOK(v: View, i: nat, n: nat)
  {
    && DirChain(v, i, n) && Times(n, v.bs) <= U32
    && forall l: nat :: n <= l < MapEnd(Ptrs(v)) ==> Resolve(v, i, l) == 0
  }

  /** A mapped block's bytes are the device block. */
  lemma MappedBlock(v: View, i: nat, l: nat)
    requires v.bs >= 4 && Resolve(v, i, l) != 0 && |At(v.disk, Resolve(v, i, l))| == v.bs
    ensures BlockBytes(v, i, l) == At(v.disk, Resolve(v, i, l))
  {
    forall k: nat | k < v.bs ensures BlockBytes(v, i, l)[k] == At(v.disk, Resolve(v, i, l))[k] {
      QuotUnique(l, v.bs, k);
    }
  }

  lemma HoleList(v: View, i: nat, l: nat)
    requires v.bs >= 8 && Resolve(v, i, l) == 0
    ensures BlockList(v, i, l) == []
  {
    forall k: nat | k < v.bs ensures BlockBytes(v, i, l)[k] == 0 {
      QuotUnique(l, v.bs, k);
    }
    var b := BlockBytes(v, i, l);
    assert b[4] == 0 && b[5] == 0;
  }

  // ----- what a block write does to directories -----

  lemma BlockBelow(bs: nat, l: nat, n: nat)
    requires l < n && Times(n, bs) <= U32 && bs > 0
    ensures Times(l, bs) + bs <= U32 && Quot(Times(l, bs), bs) == l && Rem(Times(l, bs), bs) == 0
  {
    TimesLess(l, n, bs);
    QuotUnique(l, bs, 0);
  }

  lemma LaidByte(g: Geom, s: Fs, s': Fs, d: nat, l: nat, chunk: Buf, i: nat, j: nat, k: nat)
    requires Laid(g, s, s', d, Times(l, g.bs), chunk) && |chunk| == g.bs && k < g.bs
    requires i in s.raws && Times(j, g.bs) + g.bs <= U32
    ensures RawByte(V(g, s'), i, Times(j, g.bs) + k) ==
      if i == d && j == l then chunk[k] else RawByte(V(g, s), i, Times(j, g.bs) + k)
  {
    hide RawByte, Times, Quot, Rem;
    if j < l { TimesLess(j, l, g.bs); }
    if l < j { TimesLess(l, j, g.bs); }
  }

  lemma LaidBlock(g: Geom, s: Fs, s': Fs, d: nat, l: nat, chunk: Buf, i: nat, j: nat)
    requires Laid(g, s, s', d, Times(l, g.bs), chunk) && |chunk| == g.bs
    requires i in s.raws && Times(j, g.bs) + g.bs <= U32
    ensures BlockBytes(V(g, s'), i, j) == if i == d && j == l then chunk else BlockBytes(V(g, s), i, j)
  {
    hide Laid, RawByte;
    var b := if i == d && j == l then chunk else BlockBytes(V(g, s), i, j);
    forall k: nat | k < g.bs ensures BlockBytes(V(g, s'), i, j)[k] == b[k] { LaidByte(g, s, s', d, l, chunk, i, j, k); }
  }

  lemma InMap(bs: nat, l: nat, n: nat)
    requires bs in {1024, 2048, 4096} && l < n && Times(n, bs) <= U32
    ensures l < MapEnd(bs / 4)
  {
    BlockBelow(bs, l, n);
    PosInMap(bs, Times(l, bs));
  }

  /** Rewriting block l of directory d rewrites its list and nothing else. */
  lemma {:induction false} DirRewritten(g: Geom, s: Fs, s': Fs, d: nat, n: nat, l: nat, chunk: Buf)
    requires SizesOK(g) && d in s.raws && DirOK(V(g, s), d, n) && l < n && |chunk| == g.bs && Chain(chunk)
    requires Laid(g, s, s', d, Times(l, g.bs), chunk) && MapsKept(g, s, s', d, l)
    ensures DirOK(V(g, s'), d, n)
    ensures Lists(V(g, s'), d, n) == Lists(V(g, s), d, n)[l := Entries(chunk)]
  {
    hide Laid, MapsKept, Resolve, Entries, Chain, MapEnd, Times, BlockBytes;
    forall j: nat | j < n
      ensures Resolve(V(g, s'), d, j) == 0 || Chain(BlockBytes(V(g, s'), d, j))
      ensures BlockList(V(g, s'), d, j) == if j == l then Entries(chunk) else BlockList(V(g, s), d, j)
    {
      BlockBelow(g.bs, j, n);
      InMap(g.bs, j, n);
      LaidBlock(g, s, s', d, l, chunk, d, j);
      if j != l { ResolveKept(g, s, s', d, l, d, j); }
    }
    forall j: nat | n <= j < MapEnd(g.bs / 4) ensures Resolve(V(g, s'), d, j) == 0 {
      ResolveKept(g, s, s', d, l, d, j);
    }
  }

  /** A chain put at the end of directory d adds a block of entries. */
  lemma DirExtended(g: Geom, s: Fs, s': Fs, d: nat, n: nat, chunk: Buf)
    requires SizesOK(g) && d in s.raws && DirOK(V(g, s), d, n) && |chunk| == g.bs && Chain(chunk)
    requires Times(n + 1, g.bs) <= U32
    requires Laid(g, s, s', d, Times(n, g.bs), chunk) && MapsKept(g, s, s', d, n)
    ensures DirOK(V(g, s'), d, n + 1)
    ensures DirList(V(g, s'), d, n + 1) == DirList(V(g, s), d, n) + Entries(chunk)
  {
    forall j: nat | j < n + 1
      ensures Resolve(V(g, s'), d, j) == 0 || Chain(BlockBytes(V(g, s'), d, j))
      ensures BlockList(V(g, s'), d, j) == if j == n then Entries(chunk) else BlockList(V(g, s), d, j)
    {
      BlockBelow(g.bs, j, n + 1);
      InMap(g.bs, j, n + 1);
      LaidBlock(g, s, s', d, n, chunk, d, j);
      if j != n { ResolveKept(g, s, s', d, n, d, j); }
    }
    forall j: nat | n + 1 <= j < MapEnd(g.bs / 4) ensures Resolve(V(g, s'), d, j) == 0 {
      ResolveKept(g, s, s', d, n, d, j);
    }
    assert Lists(V(g, s'), d, n + 1) == Lists(V(g, s), d, n) + [Entries(chunk)];
    CatAppend(Lists(V(g, s), d, n), Entries(chunk));
  }

  /** A directory whose bytes and map are as before is the same directory. */
  lemma DirSame(g: Geom, s: Fs, s': Fs, i: nat, n: nat)
    requires SizesOK(g) && i in s.raws && DirOK(V(g, s), i, n)
    requires forall q: nat :: q < U32 ==> RawByte(V(g, s'), i, q) == RawByte(V(g, s), i, q)
    requires forall j: nat :: j < MapEnd(g.bs / 4) ==> Resolve(V(g, s'), i, j) == Resolve(V(g, s), i, j)
    ensures DirOK(V(g, s'), i, n) && DirList(V(g, s'), i, n) == DirList(V(g, s), i, n)
  {
    forall j: nat | j < n
      ensures BlockBytes(V(g, s'), i, j) == BlockBytes(V(g, s), i, j)
      ensures Resolve(V(g, s'), i, j) == Resolve(V(g, s), i, j)
    {
      BlockSame(g, s, s', i, n, j);
    }
    assert Lists(V(g, s'), i, n) == Lists(V(g, s), i, n);
  }

  lemma BlockSame(g: Geom, s: Fs, s': Fs, i: nat, n: nat, j: nat)
    requires SizesOK(g) && i in s.raws && Times(n, g.bs) <= U32 && j < n
    requires forall q: nat :: q < U32 ==> RawByte(V(g, s'), i, q) == RawByte(V(g, s), i, q)
    requires forall j: nat :: j < MapEnd(g.bs / 4) ==> Resolve(V(g, s'), i, j) == Resolve(V(g, s), i, j)
    ensures BlockBytes(V(g, s'), i, j) == BlockBytes(V(g, s), i, j)
    ensures Resolve(V(g, s'), i, j) == Resolve(V(g, s), i, j)
  {
    hide RawByte, Resolve, MapEnd, Times;
    BlockBelow(g.bs, j, n);
    InMap(g.bs, j, n);
    forall k: nat | k < g.bs ensures BlockBytes(V(g, s'), i, j)[k] == BlockBytes(V(g, s), i, j)[k] {
      assert BlockBytes(V(g, s'), i, j)[k] == RawByte(V(g, s'), i, Times(j, g.bs) + k);
    }
  }
}
