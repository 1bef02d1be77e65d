/** ext2_truncate_inode. */
module Truncate {
  import opened Words
  import opened Bytes
  import opened Arith
  import opened BlockTree
  import opened Layout
  import opened Metadata
  import opened Volume
  import opened FsState
  import opened BlockMap
  import opened InodeTable
  import opened FileData
  import opened FileOps
  import opened FileFree

  /** A record byte by byte, low byte first. */
  lemma RecordFields(raw: RawInode, k: nat)
    requires |raw| == 128 && k < 15
    ensures SizeOf(raw) == Word32(raw, 4) && IBlocks(raw) == Word32(raw, 28) && IPtr(raw, k) == Word32(raw, 40 + 4 * k)
    ensures ModeOf(raw) == raw[0] as int + 256 * raw[1] as int
    ensures LinksOf(raw) == raw[26] as int + 256 * raw[27] as int
  {
  }

  /** (size + bs - 1) / bs in 32 bits */
  function BlockCount(size: nat, bs: nat): nat
    requires size < U32 && 0 < bs < U32
  {
    Quot(Add32(size, bs - 1), bs)
  }

  function Start(nb: nat): nat { if nb > 12 then nb - 12 else 0 }

  /** The slots a cut from ob down to nb blocks empties, given i_block[12]. */
  ghost predicate Drops(p: nat, ino: nat, nb: nat, ob: nat, q: nat, t: Slot)
  {
    match t
    case Root(i, k) => i == ino && (nb <= k < Min(ob, 12) || (k == 12 && ob > 12 && q != 0 && nb <= 12))
    case Child(up, j) => up == Root(ino, 12) && ob > 12 && q != 0 && Start(nb) <= j < p
  }

  ghost function Dropped(p: nat, ino: nat, nb: nat, ob: nat, q: nat): iset<Slot>
  {
    iset t: Slot | Drops(p, ino, nb, ob, q, t)
  }

  /** Neither the slot nor a block on the way to it is dropped. */
  ghost predicate Stays(p: nat, ino: nat, nb: nat, ob: nat, q: nat, t: Slot)
  {
    !Drops(p, ino, nb, ob, q, t) && (t.Child? ==> Stays(p, ino, nb, ob, q, t.up))
  }

  ghost function Kept(p: nat, ino: nat, nb: nat, ob: nat, q: nat): iset<Slot>
  {
    iset t: Slot | Stays(p, ino, nb, ob, q, t)
  }

  lemma {:induction false} OthersStay(p: nat, ino: nat, nb: nat, ob: nat, q: nat, t: Slot)
    requires Ino(t) != ino
    ensures Stays(p, ino, nb, ob, q, t)
  {
    if t.Child? { OthersStay(p, ino, nb, ob, q, t.up); }
  }

  /** Everything ext2_truncate_inode does, from ob blocks to nb with i_block[12] == q. */
  ghost predicate CutDone(g: Geom, s: Fs, s': Fs, ino: nat, newSize: nat, nb: nat, ob: nat, q: nat)
  {
    && s'.raws.Keys == s.raws.Keys && ino in s.raws
    && (forall i :: i in s.raws && i != ino ==> s'.raws[i] == s.raws[i])
    && SizeOf(s'.raws[ino]) == newSize && IBlocks(s'.raws[ino]) == Times(nb, g.bs / 512)
    && SameMarks(s.raws[ino], s'.raws[ino])
    && (forall t {:trigger Ptr(V(g, s'), t)} :: IsSlot(V(g, s), t) ==>
          Ptr(V(g, s'), t) == if t in Kept(g.bs / 4, ino, nb, ob, q) then Ptr(V(g, s), t) else 0)
    && Used(g, s'.m.disk) == Used(g, s.m.disk) - Held(s.owner, Dropped(g.bs / 4, ino, nb, ob, q))
    && UsedInodes(g, s'.m.disk) == UsedInodes(g, s.m.disk)
    && FreeInodesOf(s'.m) == FreeInodesOf(s.m) && DirCounts(s'.m) == DirCounts(s.m)
    && FreeBlocksOf(s'.m) == FreeBlocksOf(s.m) + |Held(s.owner, Dropped(g.bs / 4, ino, nb, ob, q))|
    && (forall b: nat :: b in s.owner && Level(s.owner[b]) == 0 ==> At(s'.m.disk, b) == At(s.m.disk, b))
  }

  /** Mode, link count, owner, group, times and flags are as they were. */
  ghost predicate SameMarks(raw: RawInode, raw': RawInode)
  {
    ModeOf(raw') == ModeOf(raw) && LinksOf(raw') == LinksOf(raw) && SameRest(raw, raw')
  }

  lemma HeaderMarks(raw: RawInode, raw': RawInode)
    requires SameHeader(raw, raw')
    ensures SameMarks(raw, raw')
  {
    assert forall k :: 0 <= k < 28 ==> raw'[k] == raw[k];
  }

  lemma DirectPart(ino: nat, p: nat, nb: nat, ob: nat)
    ensures nb < Min(ob, 12) ==> Dropped(p, ino, nb, ob, 0) == DirectRange(ino, nb, Min(ob, 12))
    ensures nb >= Min(ob, 12) ==> Dropped(p, ino, nb, ob, 0) == iset{}
    ensures ob <= 12 ==> forall q :: Dropped(p, ino, nb, ob, q) == Dropped(p, ino, nb, ob, 0)
  {
    if ob <= 12 {
      forall q ensures Dropped(p, ino, nb, ob, q) == Dropped(p, ino, nb, ob, 0) { }
    }
  }

  lemma SinglePart(ino: nat, p: nat, nb: nat, ob: nat, q: nat)
    requires ob > 12 && q != 0
    ensures Dropped(p, ino, nb, ob, q) ==
      Dropped(p, ino, nb, ob, 0) + SingleRange(ino, Start(nb), p) + (if nb <= 12 then iset{Root(ino, 12)} else iset{})
  {
  }

  /** The direct loop of ext2_truncate_inode. */
  method CutDirect(vol: Vol, raw: RawInode, nb: nat, ob: nat, ghost ino: nat, ghost s: Fs) returns (raw': RawInode)
    requires FsOK(vol.g, s) && Snap(vol) == s && ino in s.raws && s.raws[ino] == raw
    modifies vol`disk, vol`sb, vol`gds
    ensures MetaOK(vol.g, vol.M()) && Freeing(vol.g, s, vol.M(), Held(s.owner, Dropped(vol.g.bs / 4, ino, nb, ob, 0)))
    ensures |raw'| == 128 && SameHeader(raw, raw')
    ensures forall k: nat :: k < 15 ==> IPtr(raw', k) == if nb <= k < Min(ob, 12) then 0 else IPtr(raw, k)
  {
    raw' := raw;
    var hi := Min(ob, 12);
    DirectPart(ino, vol.g.bs / 4, nb, ob);
    if nb < hi {
      raw' := FreeDirect(vol, raw, nb, hi, ino, s);
    } else {
      assert Held(s.owner, Dropped(vol.g.bs / 4, ino, nb, ob, 0)) == {};
    }
  }

  /** The singly indirect part: entries from Start(nb) on, and the block itself if nothing is left. */
  method CutSingle(vol: Vol, q: nat, nb: nat, ghost ob: nat, ghost ino: nat, ghost s: Fs) returns (ind: Block)
    requires FsOK(vol.g, s) && MetaOK(vol.g, vol.M()) && ino in s.raws && ob > 12
    requires Freeing(vol.g, s, vol.M(), Held(s.owner, Dropped(vol.g.bs / 4, ino, nb, ob, 0)))
    requires q != 0 && q == Ptr(V(vol.g, s), Root(ino, 12))
    modifies vol`disk, vol`sb, vol`gds
    ensures MetaOK(vol.g, vol.M()) && Freeing(vol.g, s, vol.M(), Held(s.owner, Dropped(vol.g.bs / 4, ino, nb, ob, q)))
    ensures |ind| == vol.g.bs && q < |s.m.disk|
    ensures forall j: nat :: j < vol.g.bs / 4 ==> Word(ind, j) == if Start(nb) <= j then 0 else Word(s.m.disk[q], j)
  {
    hide FsOK, Held, MetaOK, Word, Used, UsedInodes, Ptr;
    ghost var p := vol.g.bs / 4;
    ghost var was := Dropped(p, ino, nb, ob, 0);
    TreeBlock(vol.g, s, vol.M(), ino, q);
    SinglePart(ino, p, nb, ob, q);
    ind := vol.disk[q];
    var start := if nb > 12 then nb - 12 else 0;
    if start <= vol.g.bs / 4 {
      ind := FreeSingle(vol, ind, start, ino, s, was);
    } else {
      assert was + SingleRange(ino, start, p) == was;
    }
    ghost var now := was + SingleRange(ino, start, p);
    if nb <= 12 {
      FreeSlot(vol, q, Root(ino, 12), s, now);
    } else {
      assert now + iset{} == now;
    }
  }

  /** The block pointers of the record after the cut. */
  ghost predicate RootsCut(raw: RawInode, raw': RawInode, nb: nat, ob: nat)
  {
    forall k: nat :: k < 15 ==>
      IPtr(raw', k) == if nb <= k < Min(ob, 12) || (k == 12 && ob > 12 && nb <= 12) then 0 else IPtr(raw, k)
  }

  lemma CutRoots(g: Geom, s: Fs, raws': map<nat, RawInode>, ino: nat, nb: nat, ob: nat, i: nat, k: nat)
    requires ino in s.raws && ino in raws' && |raws'[ino]| == 128 && raws' == s.raws[ino := raws'[ino]] && k < 15
    requires i in s.raws
    requires RootsCut(s.raws[ino], raws'[ino], nb, ob)
    ensures var q := IPtr(s.raws[ino], 12);
      RootWord(raws', i, k) == if Root(i, k) in Kept(g.bs / 4, ino, nb, ob, q) then RootWord(s.raws, i, k) else 0
  {
    assert RootWord(raws', ino, k) == IPtr(raws'[ino], k) && RootWord(s.raws, ino, k) == IPtr(s.raws[ino], k);
  }

  lemma CutWords(g: Geom, s: Fs, disk': seq<Block>, ino: nat, nb: nat, ob: nat, q: nat, b: nat, j: nat)
    requires Inner(s.owner, b) && b < |s.m.disk| == |disk'| && s.owner[b] in Kept(g.bs / 4, ino, nb, ob, q)
    requires j < g.bs / 4
    requires q == Ptr(V(g, s), Root(ino, 12)) && Owns(V(g, s), s.owner) && ino in s.raws
    requires b == q && ob > 12 ==> Word(disk'[b], j) == if Start(nb) <= j then 0 else Word(s.m.disk[b], j)
    requires b != q || ob <= 12 ==> disk'[b] == s.m.disk[b]
    ensures Word(disk'[b], j) ==
      if Child(s.owner[b], j) in Kept(g.bs / 4, ino, nb, ob, q) then Word(s.m.disk[b], j) else 0
  {
    if b == q { assert s.owner[b] == Root(ino, 12); }
    if s.owner[b] == Root(ino, 12) { assert b == q; }
  }

  /** The pointers after the cut. */
  lemma TruncPruned(g: Geom, s: Fs, s': Fs, ino: nat, nb: nat, ob: nat)
    requires Owns(V(g, s), s.owner) && ino in s.raws && ino in s'.raws && |s'.m.disk| == |s.m.disk|
    requires |s'.raws[ino]| == 128 && s'.raws == s.raws[ino := s'.raws[ino]]
    requires var q := IPtr(s.raws[ino], 12);
      && RootsCut(s.raws[ino], s'.raws[ino], nb, ob)
      && (forall b: nat :: Inner(s.owner, b) && b < |s.m.disk| && (b != q || ob <= 12) ==> s'.m.disk[b] == s.m.disk[b])
      && (ob > 12 && 0 < q < |s.m.disk| && nb > 12 ==> forall j: nat :: j < g.bs / 4 ==>
            Word(s'.m.disk[q], j) == if Start(nb) <= j then 0 else Word(s.m.disk[q], j))
      && s'.owner == Restrict(s.owner, Kept(g.bs / 4, ino, nb, ob, q))
    ensures Cut(g, s, s', ino, Kept(g.bs / 4, ino, nb, ob, IPtr(s.raws[ino], 12)))
  {
    var p, q := g.bs / 4, IPtr(s.raws[ino], 12);
    var keep := Kept(p, ino, nb, ob, q);
    assert q == Ptr(V(g, s), Root(ino, 12));
    forall t: Slot | Ino(t) != ino ensures t in keep { OthersStay(p, ino, nb, ob, q, t); }
    forall i, k: nat | i in s.raws && k < 15
      ensures RootWord(s'.raws, i, k) == if Root(i, k) in keep then RootWord(s.raws, i, k) else 0
    {
      CutRoots(g, s, s'.raws, ino, nb, ob, i, k);
    }
    forall b: nat, j: nat | Inner(s.owner, b) && b < |s.m.disk| && s.owner[b] in keep && j < p
      ensures Word(s'.m.disk[b], j) == if Child(s.owner[b], j) in keep then Word(s.m.disk[b], j) else 0
    {
      assert b == q && ob > 12 ==> nb > 12;
      CutWords(g, s, s'.m.disk, ino, nb, ob, q, b, j);
    }
  }

  /** The record with its new size and block count. */
  function Resized(raw: RawInode, size: nat, blocks: nat): (r: RawInode)
    requires |raw| == 128 && size < U32 && blocks < U32
    ensures |r| == 128 && SizeOf(r) == size && IBlocks(r) == blocks && SameMarks(raw, r)
    ensures forall k: nat :: k < 15 ==> IPtr(r, k) == IPtr(raw, k)
  {
    Put32(Put32(raw, I_SIZE, size), I_BLOCKS, blocks)
  }

  lemma BlockCountBelow(size: nat, bs: nat)
    requires size < U32 && bs in {1024, 2048, 4096}
    ensures Times(BlockCount(size, bs), bs / 512) < U32
  {
    var x := Add32(size, bs - 1);
    QuotRem(x, bs);
    TimesWider(Quot(x, bs), bs / 512, bs);
  }

  /** m' is m with the shortened indirect block stored, when one stays. */
  ghost predicate WroteBack(g: Geom, s: Fs, m: Meta, m': Meta, nb: nat, ob: nat, q: nat)
  {
    if ob > 12 && q != 0 && nb > 12
    then q < |m.disk| && |At(m'.disk, q)| == g.bs && m' == m.(disk := m.disk[q := At(m'.disk, q)])
         && forall j: nat :: j < g.bs / 4 ==>
              Word(At(m'.disk, q), j) == if Start(nb) <= j then 0 else Word(At(s.m.disk, q), j)
    else m' == m
  }

  /** The indirect half: free, then clear i_block[12] or store the shortened block. */
  method CutIndirect(vol: Vol, raw: RawInode, q: nat, nb: nat, ghost ob: nat, ghost ino: nat, ghost s: Fs)
    returns (raw': RawInode, ghost m: Meta)
    requires FsOK(vol.g, s) && MetaOK(vol.g, vol.M()) && ino in s.raws && ob > 12 && |raw| == 128
    requires Freeing(vol.g, s, vol.M(), Held(s.owner, Dropped(vol.g.bs / 4, ino, nb, ob, 0)))
    requires q != 0 && q == Ptr(V(vol.g, s), Root(ino, 12))
    modifies vol`disk, vol`sb, vol`gds
    ensures MetaOK(vol.g, m) && Freeing(vol.g, s, m, Held(s.owner, Dropped(vol.g.bs / 4, ino, nb, ob, q)))
    ensures WroteBack(vol.g, s, m, vol.M(), nb, ob, q)
    ensures |raw'| == 128 && SameHeader(raw, raw')
    ensures forall k: nat :: k < 15 ==> IPtr(raw', k) == if k == 12 && nb <= 12 then 0 else IPtr(raw, k)
  {
    hide FsOK, MetaOK, Owns, OwnedOK, Used, UsedInodes;
    var ind := CutSingle(vol, q, nb, ob, ino, s);
    m := vol.M();
    raw' := raw;
    if nb <= 12 {
      raw' := SetIPtr(raw, 12, 0);
    } else {
      vol.disk := vol.disk[q := ind];
    }
  }

  /** Both halves: the blocks given back and the pointers cleared. */
  method CutBlocks(vol: Vol, raw: RawInode, nb: nat, ob: nat, ghost ino: nat, ghost s: Fs)
    returns (raw': RawInode, ghost m: Meta)
    requires FsOK(vol.g, s) && Snap(vol) == s && ino in s.raws && s.raws[ino] == raw
    modifies vol`disk, vol`sb, vol`gds
    ensures MetaOK(vol.g, m) && Freeing(vol.g, s, m, Held(s.owner, Dropped(vol.g.bs / 4, ino, nb, ob, IPtr(raw, 12))))
    ensures WroteBack(vol.g, s, m, vol.M(), nb, ob, IPtr(raw, 12))
    ensures |raw'| == 128 && RootsCut(raw, raw', nb, ob) && SameHeader(raw, raw')
  {
    var q := IPtr(raw, 12);
    assert q == Ptr(V(vol.g, s), Root(ino, 12));
    raw' := CutDirect(vol, raw, nb, ob, ino, s);
    m := vol.M();
    if ob > 12 && q != 0 {
      raw', m := CutIndirect(vol, raw', q, nb, ob, ino, s);
    } else {
      DirectPart(ino, vol.g.bs / 4, nb, ob);
    }
  }

  /** ext2_truncate_inode */
  method TruncateInode(vol: Vol, inode: Inode, newSize: nat)
    requires FsOK(vol.g, Snap(vol)) && inode.ino in vol.raws && vol.raws[inode.ino] == inode.raw && newSize < U32
    modifies vol, inode`raw
    ensures FsOK(vol.g, Snap(vol)) && inode.ino in vol.raws && vol.raws[inode.ino] == inode.raw
    ensures Truncated(vol.g, old(Snap(vol)), Snap(vol), inode.ino, newSize)
    ensures Shortened(vol.g, old(Snap(vol)), Snap(vol), inode.ino, newSize)
  {
    hide FsOK, Freeing, Held, Dropped, Kept, CutDone, WroteBack, RootsCut, MetaOK, SameMarks, SameHeader, Shortened;
    ghost var s := Snap(vol);
    Shape(vol.g, s);
    var bs := vol.g.bs;
    var ob := BlockCount(SizeOf(inode.raw), bs);
    var nb := BlockCount(newSize, bs);
    var raw, m := CutBlocks(vol, inode.raw, nb, ob, inode.ino, s);
    BlockCountBelow(newSize, bs);
    HeaderMarks(inode.raw, raw);
    ghost var q := IPtr(inode.raw, 12);
    inode.raw := Resized(raw, newSize, Times(nb, bs / 512));
    MarksTrans(s.raws[inode.ino], raw, inode.raw);
    RootsResized(s.raws[inode.ino], raw, inode.raw, nb, ob);
    vol.raws := vol.raws[inode.ino := inode.raw];
    vol.owner := Restrict(vol.owner, Kept(bs / 4, inode.ino, nb, ob, q));
    TruncateDone(vol.g, s, Snap(vol), m, inode.ino, newSize, nb, ob, q);
    TruncateShortens(vol.g, s, Snap(vol), inode.ino, newSize);
  }

  lemma RootsResized(raw: RawInode, cut: RawInode, raw': RawInode, nb: nat, ob: nat)
    requires RootsCut(raw, cut, nb, ob) && forall k: nat :: k < 15 ==> IPtr(raw', k) == IPtr(cut, k)
    ensures RootsCut(raw, raw', nb, ob)
  {
  }

  lemma MarksTrans(a: RawInode, b: RawInode, c: RawInode)
    requires SameMarks(a, b) && SameMarks(b, c)
    ensures SameMarks(a, c)
  {
  }

  lemma TruncMeta(g: Geom, s: Fs, m: Meta, m': Meta, nb: nat, ob: nat, q: nat)
    requires GeomOK(g) && OwnedOK(g, s) && DiskOK(g, s.m.disk) && DiskOK(g, m.disk)
    requires OnlyMeta(g, Blocks, s.m.disk, m.disk)
    requires WroteBack(g, s, m, m', nb, ob, q) && (q != 0 ==> Inner(s.owner, q))
    ensures m' == m.(disk := m'.disk) && MetaSame(g, m.disk, m'.disk)
    ensures forall b: nat :: b in s.owner && (b != q || !(ob > 12 && nb > 12)) ==> At(m'.disk, b) == At(s.m.disk, b)
  {
  }

  lemma TruncateDone(g: Geom, s: Fs, s': Fs, m: Meta, ino: nat, newSize: nat, nb: nat, ob: nat, q: nat)
    requires FsOK(g, s) && ino in s.raws && ino in s'.raws && newSize < U32 && MetaOK(g, m)
    requires q == IPtr(s.raws[ino], 12)
    requires |s'.raws[ino]| == 128 && s'.raws == s.raws[ino := s'.raws[ino]]
    requires Freeing(g, s, m, Held(s.owner, Dropped(g.bs / 4, ino, nb, ob, q)))
    requires RootsCut(s.raws[ino], s'.raws[ino], nb, ob)
    requires SizeOf(s'.raws[ino]) == newSize && IBlocks(s'.raws[ino]) == Times(nb, g.bs / 512)
    requires SameMarks(s.raws[ino], s'.raws[ino])
    requires s'.owner == Restrict(s.owner, Kept(g.bs / 4, ino, nb, ob, q)) && WroteBack(g, s, m, s'.m, nb, ob, q)
    ensures FsOK(g, s') && CutDone(g, s, s', ino, newSize, nb, ob, q)
  {
    hide SameMarks, DirCounts, FreeInodesOf, FreeBlocksOf, Used, UsedInodes, DiskOK, RolesOK, GeomOK, Restrict, MetaOK,
         Freeing, WroteBack, RootsCut, Dropped, Kept, Held;
    var p := g.bs / 4;
    assert q == Ptr(V(g, s), Root(ino, 12));
    TruncBooks(g, s, m, s'.m, ino, nb, ob, q, Held(s.owner, Dropped(p, ino, nb, ob, q)));
    assert Cut(g, s, s', ino, Kept(p, ino, nb, ob, q)) by { TruncCut(g, s, s', m, ino, nb, ob, q); }
    TruncFs(g, s, s', ino, nb, ob, q);
  }

  lemma TruncBooks(g: Geom, s: Fs, m: Meta, m': Meta, ino: nat, nb: nat, ob: nat, q: nat, gone: set<nat>)
    requires FsOK(g, s) && ino in s.raws && MetaOK(g, m) && q == Ptr(V(g, s), Root(ino, 12))
    requires Freeing(g, s, m, gone) && WroteBack(g, s, m, m', nb, ob, q)
    ensures MetaOK(g, m') && Used(g, m'.disk) == Used(g, s.m.disk) - gone && |m'.disk| == |s.m.disk|
    ensures UsedInodes(g, m'.disk) == UsedInodes(g, s.m.disk) && FreeBlocksOf(m') == FreeBlocksOf(s.m) + |gone|
    ensures FreeInodesOf(m') == FreeInodesOf(s.m) && DirCounts(m') == DirCounts(s.m)
    ensures forall b: nat :: b in s.owner && (b != q || !(ob > 12 && nb > 12)) ==> At(m'.disk, b) == At(s.m.disk, b)
    ensures forall b: nat :: b in s.owner && Level(s.owner[b]) == 0 ==> At(m'.disk, b) == At(s.m.disk, b)
  {
    hide DirCounts, FreeInodesOf, FreeBlocksOf, Used, UsedInodes;
    TruncMeta(g, s, m, m', nb, ob, q);
    MetaKept(g, m, m');
    TruncCounts(g, s, m, m', gone);
    forall b: nat | b in s.owner && Level(s.owner[b]) == 0 ensures At(m'.disk, b) == At(s.m.disk, b) {
      assert b != q;
    }
  }

  lemma TruncCounts(g: Geom, s: Fs, m: Meta, m': Meta, gone: set<nat>)
    requires Freeing(g, s, m, gone) && m' == m.(disk := m'.disk)
    ensures FreeBlocksOf(m') == FreeBlocksOf(s.m) + |gone|
    ensures FreeInodesOf(m') == FreeInodesOf(s.m) && DirCounts(m') == DirCounts(s.m)
  {
  }

  lemma TruncCut(g: Geom, s: Fs, s': Fs, m: Meta, ino: nat, nb: nat, ob: nat, q: nat)
    requires Owns(V(g, s), s.owner) && ino in s.raws && ino in s'.raws && q == IPtr(s.raws[ino], 12)
    requires |s'.raws[ino]| == 128 && s'.raws == s.raws[ino := s'.raws[ino]] && |s'.m.disk| == |s.m.disk|
    requires RootsCut(s.raws[ino], s'.raws[ino], nb, ob)
    requires s'.owner == Restrict(s.owner, Kept(g.bs / 4, ino, nb, ob, q)) && WroteBack(g, s, m, s'.m, nb, ob, q)
    requires forall b: nat :: b in s.owner && (b != q || !(ob > 12 && nb > 12)) ==> At(s'.m.disk, b) == At(s.m.disk, b)
    ensures Cut(g, s, s', ino, Kept(g.bs / 4, ino, nb, ob, q))
  {
    forall b: nat | Inner(s.owner, b) && b < |s.m.disk| && (b != q || ob <= 12) ensures s'.m.disk[b] == s.m.disk[b] {
      assert At(s'.m.disk, b) == At(s.m.disk, b);
    }
    TruncPruned(g, s, s', ino, nb, ob);
  }

  lemma TruncFs(g: Geom, s: Fs, s': Fs, ino: nat, nb: nat, ob: nat, q: nat)
    requires FsOK(g, s) && MetaOK(g, s'.m) && ino in s.raws && ino in s'.raws
    requires |s'.raws[ino]| == 128 && s'.raws == s.raws[ino := s'.raws[ino]]
    requires Cut(g, s, s', ino, Kept(g.bs / 4, ino, nb, ob, q))
    requires Used(g, s'.m.disk) == Used(g, s.m.disk) - Held(s.owner, Dropped(g.bs / 4, ino, nb, ob, q))
    ensures FsOK(g, s')
    ensures forall t {:trigger Ptr(V(g, s'), t)} :: IsSlot(V(g, s), t) ==>
      Ptr(V(g, s'), t) == if t in Kept(g.bs / 4, ino, nb, ob, q) then Ptr(V(g, s), t) else 0
  {
    var p := g.bs / 4;
    forall t | t in Dropped(p, ino, nb, ob, q) ensures t !in Kept(p, ino, nb, ob, q) { }
    FsCut(g, s, s', ino, Kept(p, ino, nb, ob, q), Dropped(p, ino, nb, ob, q));
  }

  // ----- what a cut means -----

  /** The positions a cut from ob blocks down to nb empties: direct ones below the old count, and
      all singly indirect ones once the old count goes past the direct ones. */
  predicate Reaches(p: nat, nb: nat, ob: nat, l: nat)
  {
    nb <= l && if l < 12 then l < ob else ob > 12 && l < 12 + p
  }

  /** Rounding a size up to blocks does not leave 32 bits. */
  predicate Rounds(size: nat, bs: nat) { size + bs <= U32 }

  /** Block l starts in front of the end of a file of that size; none does when rounding overflows. */
  predicate Holds(size: nat, bs: nat, l: nat) { Rounds(size, bs) && Times(l, bs) < size }

  /** The block count in bytes: it is that of the blocks that start in front of the end. */
  lemma BlockCountIs(size: nat, bs: nat, l: nat)
    requires size < U32 && 0 < bs < U32
    ensures l < BlockCount(size, bs) <==> Holds(size, bs, l)
  {
    var x := Add32(size, bs - 1);
    var n := BlockCount(size, bs);
    QuotRem(x, bs);
    if l < n { TimesLess(l, n, bs); }
    if n < l { TimesLess(n, l, bs); }
  }

  /** The positions a truncation of a file of `size` bytes to newSize bytes empties: blocks not in
      front of the new end that are direct and in front of the old end, or singly indirect in a
      file that has such blocks. */
  predicate Cuts(bs: nat, size: nat, newSize: nat, l: nat)
  {
    !Holds(newSize, bs, l) && if l < 12 then Holds(size, bs, l) else Holds(size, bs, 12) && l < 12 + bs / 4
  }

  lemma ReachesIs(bs: nat, size: nat, newSize: nat, l: nat)
    requires size < U32 && newSize < U32 && 0 < bs < U32
    ensures Reaches(bs / 4, BlockCount(newSize, bs), BlockCount(size, bs), l) <==> Cuts(bs, size, newSize, l)
  {
    BlockCountIs(newSize, bs, l);
    BlockCountIs(size, bs, l);
    BlockCountIs(size, bs, 12);
  }

  lemma {:induction false} DeepStays(p: nat, ino: nat, nb: nat, ob: nat, q: nat, t: Slot)
    requires TopOf(t) > 12
    ensures Stays(p, ino, nb, ob, q, t)
  {
    if t.Child? { DeepStays(p, ino, nb, ob, q, t.up); }
  }

  lemma DeepTop(p: nat, ino: nat, l: nat)
    requires l >= 12 + p
    ensures TopOf(DataSlot(p, ino, l)) > 12
  {
    var l2 := l - 12 - p;
    if l2 < Times(p, p) {
      assert TopOf(Child(Root(ino, 13), Quot(l2, p))) == 13;
    } else {
      var l3 := l2 - Times(p, p);
      var a := Child(Root(ino, 14), Quot(l3, Times(p, p)));
      assert TopOf(a) == 14 && TopOf(Child(a, Quot(Rem(l3, Times(p, p)), p))) == 14;
    }
  }

  lemma ReachMaps(g: Geom, s: Fs, s': Fs, ino: nat, newSize: nat, nb: nat, ob: nat, q: nat, l: nat)
    requires SizesOK(g) && CutDone(g, s, s', ino, newSize, nb, ob, q) && q == IPtr(s.raws[ino], 12)
    requires l < MapEnd(g.bs / 4)
    ensures Resolve(V(g, s'), ino, l) == if Reaches(g.bs / 4, nb, ob, l) then 0 else Resolve(V(g, s), ino, l)
  {
    var v, p := V(g, s), g.bs / 4;
    var t := DataSlot(p, ino, l);
    DataSlotIs(v, ino, l);
    if l >= 12 + p {
      DeepTop(p, ino, l);
      DeepStays(p, ino, nb, ob, q, t);
    } else if l >= 12 {
      assert t == Child(Root(ino, 12), l - 12);
      assert Ptr(v, Root(ino, 12)) == q;
      assert q == 0 ==> Ptr(v, t) == 0;
      assert Ptr(V(g, s'), t) == if t in Kept(p, ino, nb, ob, q) then Ptr(v, t) else 0;
    }
  }

  /** Everything ext2_truncate_inode does to a file. */
  ghost predicate Truncated(g: Geom, s: Fs, s': Fs, ino: nat, newSize: nat)
  {
    && SizesOK(g) && ino in s.raws && newSize < U32
    && CutDone(g, s, s', ino, newSize, BlockCount(newSize, g.bs), BlockCount(SizeOf(s.raws[ino]), g.bs),
               IPtr(s.raws[ino], 12))
  }

  /** Exactly those positions become holes, whatever else the file maps. */
  lemma CutMaps(g: Geom, s: Fs, s': Fs, ino: nat, newSize: nat, l: nat)
    requires Truncated(g, s, s', ino, newSize) && l < MapEnd(g.bs / 4)
    ensures Resolve(V(g, s'), ino, l) ==
      if Cuts(g.bs, SizeOf(s.raws[ino]), newSize, l) then 0 else Resolve(V(g, s), ino, l)
  {
    hide CutDone, Resolve, MapEnd, Reaches, Cuts, BlockCount;
    var size := SizeOf(s.raws[ino]);
    ReachesIs(g.bs, size, newSize, l);
    ReachMaps(g, s, s', ino, newSize, BlockCount(newSize, g.bs), BlockCount(size, g.bs), IPtr(s.raws[ino], 12), l);
  }

  /** The cut goes wrong at block l: it starts behind the new end and is out of reach, or in front
      of the new end and in reach. */
  predicate Misses(bs: nat, size: nat, newSize: nat, l: nat) { Cuts(bs, size, newSize, l) <==> Times(l, bs) < newSize }

  /** So the file ends at its new size exactly when it had no block where the cut goes wrong. */
  lemma CutExact(g: Geom, s: Fs, s': Fs, ino: nat, newSize: nat)
    requires Truncated(g, s, s', ino, newSize)
    ensures (forall l: nat :: l < MapEnd(g.bs / 4) ==>
              Resolve(V(g, s'), ino, l) == if Times(l, g.bs) < newSize then Resolve(V(g, s), ino, l) else 0)
       <==> (forall l: nat :: l < MapEnd(g.bs / 4) && Misses(g.bs, SizeOf(s.raws[ino]), newSize, l) ==>
              Resolve(V(g, s), ino, l) == 0)
  {
    hide CutDone, Resolve, MapEnd, Cuts;
    forall l: nat | l < MapEnd(g.bs / 4)
      ensures Resolve(V(g, s'), ino, l) ==
        if Cuts(g.bs, SizeOf(s.raws[ino]), newSize, l) then 0 else Resolve(V(g, s), ino, l)
    {
      CutMaps(g, s, s', ino, newSize, l);
    }
  }

  lemma CutByte(g: Geom, s: Fs, s': Fs, ino: nat, newSize: nat, pos: nat)
    requires FsOK(g, s) && Truncated(g, s, s', ino, newSize) && pos < U32
    ensures RawByte(V(g, s'), ino, pos) ==
      if Cuts(g.bs, SizeOf(s.raws[ino]), newSize, Quot(pos, g.bs)) then 0 else RawByte(V(g, s), ino, pos)
  {
    PosInMap(g.bs, pos);
    CutMaps(g, s, s', ino, newSize, Quot(pos, g.bs));
    DataSlotIs(V(g, s), ino, Quot(pos, g.bs));
  }

  /** The block of a byte in front of the new end is kept, as long as rounding up does not overflow. */
  lemma BelowHolds(size: nat, bs: nat, pos: nat)
    requires pos < size && bs > 0
    ensures Holds(size, bs, Quot(pos, bs)) <==> Rounds(size, bs)
  {
    QuotRem(pos, bs);
  }

  /** No byte in front of the new end that is not zero lies in a block the cut reaches. */
  ghost predicate NoneCut(g: Geom, s: Fs, ino: nat, newSize: nat)
    requires ino in s.raws
  {
    forall p: nat :: p < newSize && Cuts(g.bs, SizeOf(s.raws[ino]), newSize, Quot(p, g.bs)) ==>
      RawByte(V(g, s), ino, p) == 0
  }

  /** Every byte in front of the new end is as it was, unless rounding the new size up leaves 32
      bits: then those in the blocks the cut reaches read as zero. */
  lemma CutKeeps(g: Geom, s: Fs, s': Fs, ino: nat, newSize: nat)
    requires FsOK(g, s) && Truncated(g, s, s', ino, newSize)
    ensures (forall p: nat :: p < newSize ==> RawByte(V(g, s'), ino, p) == RawByte(V(g, s), ino, p))
       <==> Rounds(newSize, g.bs) || NoneCut(g, s, ino, newSize)
  {
    hide FsOK, CutDone, RawByte, Cuts, Quot, BlockCount;
    forall p: nat | p < newSize
      ensures RawByte(V(g, s'), ino, p) ==
        if Cuts(g.bs, SizeOf(s.raws[ino]), newSize, Quot(p, g.bs)) then 0 else RawByte(V(g, s), ino, p)
      ensures Rounds(newSize, g.bs) ==> !Cuts(g.bs, SizeOf(s.raws[ino]), newSize, Quot(p, g.bs))
    {
      CutByte(g, s, s', ino, newSize, p);
      NotCut(g.bs, SizeOf(s.raws[ino]), newSize, p);
    }
  }

  lemma NotCut(bs: nat, size: nat, newSize: nat, pos: nat)
    requires pos < newSize && bs > 0
    ensures Rounds(newSize, bs) ==> !Cuts(bs, size, newSize, Quot(pos, bs))
  {
    BelowHolds(newSize, bs, pos);
  }

  /** The code clears nothing inside a block it keeps: bytes past the new size read as zero
      afterwards exactly when those in the blocks the cut does not reach already did. */
  lemma CutTail(g: Geom, s: Fs, s': Fs, ino: nat, newSize: nat)
    requires FsOK(g, s) && Truncated(g, s, s', ino, newSize)
    ensures TailZero(V(g, s'), ino) <==>
      forall p: nat :: newSize <= p < U32 && !Cuts(g.bs, SizeOf(s.raws[ino]), newSize, Quot(p, g.bs)) ==>
        RawByte(V(g, s), ino, p) == 0
  {
    forall p: nat | p < U32
      ensures RawByte(V(g, s'), ino, p) ==
        if Cuts(g.bs, SizeOf(s.raws[ino]), newSize, Quot(p, g.bs)) then 0 else RawByte(V(g, s), ino, p)
    {
      CutByte(g, s, s', ino, newSize, p);
    }
  }

  // ----- what is given back -----

  /** The data blocks of ino at positions the cut empties. */
  ghost function DataCut(bs: nat, owner: map<nat, Slot>, ino: nat, size: nat, newSize: nat): set<nat>
  {
    set b | b in owner && Level(owner[b]) == 0 && Ino(owner[b]) == ino &&
            Cuts(bs, size, newSize, Position(bs / 4, owner[b]))
  }

  /** The cut leaves nothing of the singly indirect range of a file that has one. */
  predicate DropsSingle(bs: nat, size: nat, newSize: nat) { Holds(size, bs, 12) && !Holds(newSize, bs, 12) }

  ghost function GivenBack(g: Geom, s: Fs, ino: nat, newSize: nat): set<nat>
    requires ino in s.raws && newSize < U32 && 0 < g.bs < U32
  {
    Held(s.owner, Dropped(g.bs / 4, ino, BlockCount(newSize, g.bs), BlockCount(SizeOf(s.raws[ino]), g.bs),
                          IPtr(s.raws[ino], 12)))
  }

  /** What is given back: those blocks, and the indirect block when the cut leaves it nothing. */
  lemma CutFrees(g: Geom, s: Fs, ino: nat, newSize: nat)
    requires SizesOK(g) && Owns(V(g, s), s.owner) && ino in s.raws && newSize < U32
    ensures var size, q := SizeOf(s.raws[ino]), IPtr(s.raws[ino], 12);
      GivenBack(g, s, ino, newSize) ==
        DataCut(g.bs, s.owner, ino, size, newSize) + (if DropsSingle(g.bs, size, newSize) && q != 0 then {q} else {})
  {
    hide Drops, Level, Ino, Cuts, Position, BlockCount, Holds;
    var p, size, q := g.bs / 4, SizeOf(s.raws[ino]), IPtr(s.raws[ino], 12);
    var nb, ob := BlockCount(newSize, g.bs), BlockCount(size, g.bs);
    assert q == Ptr(V(g, s), Root(ino, 12));
    BlockCountIs(newSize, g.bs, 12);
    BlockCountIs(size, g.bs, 12);
    forall b | b in s.owner
      ensures Drops(p, ino, nb, ob, q, s.owner[b])
         <==> b in DataCut(g.bs, s.owner, ino, size, newSize) || (nb <= 12 < ob && q != 0 && b == q)
    {
      CutSlot(g, s, ino, nb, ob, q, s.owner[b]);
      ReachesIs(g.bs, size, newSize, Position(p, s.owner[b]));
    }
    if q != 0 { assert q in s.owner && s.owner[q] == Root(ino, 12); }
  }

  lemma CutSlot(g: Geom, s: Fs, ino: nat, nb: nat, ob: nat, q: nat, t: Slot)
    requires SizesOK(g) && ino in s.raws && q == Ptr(V(g, s), Root(ino, 12)) && IsSlot(V(g, s), t)
    requires Ptr(V(g, s), t) != 0
    ensures Drops(g.bs / 4, ino, nb, ob, q, t)
       <==> (Level(t) == 0 && Ino(t) == ino && Reaches(g.bs / 4, nb, ob, Position(g.bs / 4, t)))
            || (nb <= 12 < ob && t == Root(ino, 12))
  {
    match t
    case Root(_, _) =>
    case Child(Root(_, _), _) =>
    case Child(Child(Root(_, _), _), _) => assert Ino(t) == Ino(t.up);
    case Child(Child(Child(_, _), _), _) => assert Ino(t) == Ino(t.up);
  }

  /** The free count goes up by exactly that. */
  lemma CutCounts(g: Geom, s: Fs, s': Fs, ino: nat, newSize: nat)
    requires FsOK(g, s) && Truncated(g, s, s', ino, newSize)
    ensures var size, q := SizeOf(s.raws[ino]), IPtr(s.raws[ino], 12);
      FreeBlocksOf(s'.m) == FreeBlocksOf(s.m) + |DataCut(g.bs, s.owner, ino, size, newSize)| +
        if DropsSingle(g.bs, size, newSize) && q != 0 then 1 else 0
  {
    hide MetaOK, OwnedOK, Used, Dropped, DropsSingle;
    Shape(g, s);
    CutFrees(g, s, ino, newSize);
    var size, q := SizeOf(s.raws[ino]), IPtr(s.raws[ino], 12);
    var d := DataCut(g.bs, s.owner, ino, size, newSize);
    if DropsSingle(g.bs, size, newSize) && q != 0 {
      IndirectNoData(g, s, ino, size, newSize, q);
      OneMoreBlock(d, q);
    } else {
      assert d + {} == d;
    }
  }

  lemma IndirectNoData(g: Geom, s: Fs, ino: nat, size: nat, newSize: nat, q: nat)
    requires Owns(V(g, s), s.owner) && ino in s.raws && q == IPtr(s.raws[ino], 12) && q != 0
    ensures q !in DataCut(g.bs, s.owner, ino, size, newSize)
  {
    assert q == Ptr(V(g, s), Root(ino, 12));
  }

  lemma OneMoreBlock(d: set<nat>, q: nat)
    requires q !in d
    ensures |d + {q}| == |d| + 1
  {
  }

  // ----- the call, in bytes -----

  /** i_blocks in bytes: the size rounded up to whole blocks, or 0 when that leaves 32 bits. */
  predicate SectorsFor(sectors: nat, size: nat, bs: nat)
    requires bs > 0
  {
    if Rounds(size, bs) then size <= 512 * sectors < size + bs && 512 * sectors % bs == 0 else sectors == 0
  }

  lemma SectorsAre(size: nat, bs: nat)
    requires size < U32 && bs in {1024, 2048, 4096}
    ensures SectorsFor(Times(BlockCount(size, bs), bs / 512), size, bs)
  {
    var x := Add32(size, bs - 1);
    var n := BlockCount(size, bs);
    QuotRem(x, bs);
    SectorBytes(n, bs / 512);
    QuotUnique(n, bs, 0);
    QuotIs(Times(n, bs), bs);
  }

  lemma {:induction false} SectorBytes(n: nat, u: nat)
    ensures 512 * Times(n, u) == Times(n, 512 * u)
  {
    if n > 0 { SectorBytes(n - 1, u); }
  }

  /** What a truncation to newSize bytes means for the file: which blocks and bytes it has, and what
      its record says. */
  ghost predicate Shortened(g: Geom, s: Fs, s': Fs, ino: nat, newSize: nat)
  {
    && ino in s.raws && ino in s'.raws && g.bs > 0
    && SizeOf(s'.raws[ino]) == newSize && SectorsFor(IBlocks(s'.raws[ino]), newSize, g.bs)
    && SameMarks(s.raws[ino], s'.raws[ino])
    && (forall l: nat :: l < MapEnd(g.bs / 4) ==>
          Resolve(V(g, s'), ino, l) ==
            if Cuts(g.bs, SizeOf(s.raws[ino]), newSize, l) then 0 else Resolve(V(g, s), ino, l))
    && (Rounds(newSize, g.bs) ==>
          forall p: nat :: p < newSize ==> RawByte(V(g, s'), ino, p) == RawByte(V(g, s), ino, p))
  }

  lemma TruncateShortens(g: Geom, s: Fs, s': Fs, ino: nat, newSize: nat)
    requires FsOK(g, s) && Truncated(g, s, s', ino, newSize)
    ensures Shortened(g, s, s', ino, newSize)
  {
    hide FsOK, Resolve, RawByte, SameMarks, Cuts, SectorsFor, BlockCount;
    SectorsAre(newSize, g.bs);
    forall l: nat | l < MapEnd(g.bs / 4)
      ensures Resolve(V(g, s'), ino, l) ==
        if Cuts(g.bs, SizeOf(s.raws[ino]), newSize, l) then 0 else Resolve(V(g, s), ino, l)
    {
      CutMaps(g, s, s', ino, newSize, l);
    }
    CutKeeps(g, s, s', ino, newSize);
  }
}
