/** ext2/directory.c: ext2_mkdir and ext2_rmdir. */
module SubDirs {
  import opened Words
  import opened Bytes
  import opened Arith
  import opened BlockTree
  import opened Layout
  import opened Metadata
  import opened Volume
  import opened FsState
  import opened BlockMap
  import opened InodeTable
  import opened FileData
  import opened FileOps
  import opened FileFree
  import opened Truncate
  import opened EntryLists
  import opened DirBlock
  import opened Directory
  import opened DirOps
  import opened DirAdd
  import opened NameOps

  // ----- the directory count of a group -----

  lemma BumpCounted(g: Geom, m: Meta, r: Meta, grp: nat, c: nat, kind: Kind)
    requires GeomOK(g) && MetaShape(g, m) && MetaShape(g, r) && grp < g.groups && c < U16 && Counted(g, m, kind)
    requires r.gds == m.gds[grp := Put16(m.gds[grp], GD_USED_DIRS, c)] && r.sb == m.sb
    requires forall b :: 0 <= b < g.blocks && !g.role[b].Gdt? ==> r.disk[b] == m.disk[b]
    ensures Counted(g, r, kind)
  {
    assert Half(r.gds[grp], GdOff(kind)) == Half(m.gds[grp], GdOff(kind));
    SumUpdate(m.gds, GdOff(kind), grp, r.gds[grp], g.groups);
    forall x: nat | x < g.groups
      ensures Half(r.gds[x], GdOff(kind)) == CountClear(r.disk[BitmapOf(g, kind, x)], BitsOf(g, kind, x))
    {
      assert r.disk[BitmapOf(g, kind, x)] == m.disk[BitmapOf(g, kind, x)];
    }
  }

  /** Only descriptor blocks and the directory count of one group changed. */
  ghost predicate Bumped(g: Geom, m: Meta, r: Meta, grp: nat, c: nat)
  {
    && MetaOK(g, r) && r.sb == m.sb && grp < |DirCounts(m)| && DirCounts(r) == DirCounts(m)[grp := c]
    && Used(g, r.disk) == Used(g, m.disk) && UsedInodes(g, r.disk) == UsedInodes(g, m.disk)
    && OnlyMeta(g, Inodes, m.disk, r.disk)
  }

  lemma BumpUsed(g: Geom, m: Meta, r: Meta)
    requires GeomOK(g) && DiskOK(g, m.disk) && DiskOK(g, r.disk)
    requires forall b :: 0 <= b < g.blocks && !g.role[b].Gdt? ==> r.disk[b] == m.disk[b]
    ensures Used(g, r.disk) == Used(g, m.disk) && UsedInodes(g, r.disk) == UsedInodes(g, m.disk)
  {
    forall b: nat | InBitmap(g, b) ensures BlockUsed(g, r.disk, b) == BlockUsed(g, m.disk, b) {
      GroupIndex(g, b);
    }
    forall i: nat | IsIno(g, i) ensures InodeUsed(g, r.disk, i) == InodeUsed(g, m.disk, i) {
      InoGroupIndex(g, i);
    }
  }

  lemma BumpDone(g: Geom, m: Meta, r: Meta, grp: nat, c: nat)
    requires MetaOK(g, m) && grp < g.groups && c < U16
    requires r == Meta(FlushDesc(g, m.disk, grp, Put16(m.gds[grp], GD_USED_DIRS, c)), m.sb,
                       m.gds[grp := Put16(m.gds[grp], GD_USED_DIRS, c)])
    ensures Bumped(g, m, r, grp, c)
  {
    hide WrittenThrough, Counted, BitSet, CountClear;
    var gd := Put16(m.gds[grp], GD_USED_DIRS, c);
    assert DirCounts(r) == DirCounts(m)[grp := c];
    assert Counted(g, r, Blocks) by { BumpCounted(g, m, r, grp, c, Blocks); }
    assert Counted(g, r, Inodes) by { BumpCounted(g, m, r, grp, c, Inodes); }
    BumpUsed(g, m, r);
    BumpThrough(g, m, r, grp, gd);
    assert Frozen(g, r) by { BumpFrozen(g, m, r, grp, c); }
  }

  lemma BumpFrozen(g: Geom, m: Meta, r: Meta, grp: nat, c: nat)
    requires Frozen(g, m) && grp < |m.gds| && |m.gds[grp]| == GD_SIZE && c < U16
    requires r.sb == m.sb && r.gds == m.gds[grp := Put16(m.gds[grp], GD_USED_DIRS, c)]
    ensures Frozen(g, r)
  {
    var gd := Put16(m.gds[grp], GD_USED_DIRS, c);
    assert SameDesc(m.gds[grp], gd);
    forall x | 0 <= x < |r.gds| ensures SameDesc(g.descs[x], r.gds[x]) { assert SameDesc(g.descs[x], m.gds[x]); }
  }

  lemma BumpThrough(g: Geom, m: Meta, r: Meta, grp: nat, gd: Buf)
    requires GeomOK(g) && MetaShape(g, m) && WrittenThrough(g, m) && grp < g.groups && |gd| == GD_SIZE
    requires r == Meta(FlushDesc(g, m.disk, grp, gd), m.sb, m.gds[grp := gd])
    ensures MetaShape(g, r) && WrittenThrough(g, r)
  {
    hide FlushDesc, DescAt;
  }

  /** group_desc[grp].bg_used_dirs_count = c; ext2_flush_group_desc */
  method SetDirCount(vol: Vol, grp: nat, c: nat)
    requires MetaOK(vol.g, vol.M()) && grp < vol.g.groups && c < U16
    modifies vol`disk, vol`gds
    ensures Bumped(vol.g, old(vol.M()), vol.M(), grp, c)
  {
    ghost var m := vol.M();
    vol.gds := vol.gds[grp := Put16(vol.gds[grp], GD_USED_DIRS, c)];
    FlushGroupDesc(vol, grp);
    BumpDone(vol.g, m, vol.M(), grp, c);
  }

  lemma BumpFs(g: Geom, s: Fs, s': Fs, grp: nat, c: nat, dirty: set<nat>)
    requires FsOK(g, s) && Bumped(g, s.m, s'.m, grp, c) && s' == s.(m := s'.m) && Synced(g, s, dirty)
    ensures FsOK(g, s') && SameBytes(g, s, s') && PtrsSame(g, s, s') && Synced(g, s', dirty)
  {
    InodeBitsMoved(g, s, s');
    SyncedKept(g, s, s', dirty, dirty);
  }

  // ----- a new directory -----

  /** Mode, link count 2, one block of size and of i_blocks; no pointer yet. */
  function DirHeader(mode: nat, bs: nat): (r: RawInode)
    requires bs <= 4096
    ensures NoBlocks(r) && Born(r, TYPE_DIR, mode, 2, bs, bs / 512)
  {
    var h := NewRecord(DirMode(mode), 2);
    var r := Put32(Put32(h, I_SIZE, bs), I_BLOCKS, bs / 512);
    assert r[0] == h[0] && r[1] == h[1] && r[26] == h[26] && r[27] == h[27];
    assert forall k :: 4 <= k < 8 ==> r[k] == Put32(h, I_SIZE, bs)[k];
    assert forall k :: 40 <= k < 100 ==> r[k] == h[k];
    r
  }

  function DirRecord(mode: nat, bs: nat, blk: nat): (r: RawInode)
    requires bs <= 4096 && blk < U32
    ensures |r| == 128 && Born(r, TYPE_DIR, mode, 2, bs, bs / 512)
  {
    var h := DirHeader(mode, bs);
    var r := SetWord(h, IBLOCK_WORD, blk);
    assert forall k :: 0 <= k < 40 ==> r[k] == h[k];
    r
  }

  lemma NoBlocksWord(raw: RawInode, k: nat)
    requires NoBlocks(raw) && k < 15
    ensures Word(raw, IBLOCK_WORD + k) == 0
  {
    assert raw[4 * (IBLOCK_WORD + k)] == 0 && raw[4 * (IBLOCK_WORD + k) + 1] == 0;
    assert raw[4 * (IBLOCK_WORD + k) + 2] == 0 && raw[4 * (IBLOCK_WORD + k) + 3] == 0;
  }

  /** A file without pointers in its record is all hole. */
  lemma NoBlocksResolve(v: View, i: nat, l: nat)
    requires i in v.raws && NoBlocks(v.raws[i])
    ensures Resolve(v, i, l) == 0
  {
    var p := Ptrs(v);
    forall k: nat | k < 15 ensures Ptr(v, Root(i, k)) == 0 { NoBlocksWord(v.raws[i], k); }
    if l >= 12 + p {
      var l2 := l - 12 - p;
      if l2 < Times(p, p) {
        assert Ptr(v, Child(Root(i, 13), Quot(l2, p))) == 0;
      } else {
        var l3 := l2 - Times(p, p);
        var a := Child(Root(i, 14), Quot(l3, Times(p, p)));
        assert Ptr(v, a) == 0;
        assert Ptr(v, Child(a, Quot(Rem(l3, Times(p, p)), p))) == 0;
      }
    }
  }

  lemma FreshBytes(g: Geom, s: Fs, s': Fs, x: nat, blk: Buf)
    requires SizesOK(g) && DiskOK(g, s.m.disk) && Owns(V(g, s), s.owner) && x < g.blocks && x !in s.owner
    requires s' == s.(m := s.m.(disk := s.m.disk[x := blk])) && PtrsSame(g, s, s')
    ensures SameBytes(g, s, s')
  {
    forall i, q: nat | i in s.raws && q < U32 ensures RawByte(V(g, s'), i, q) == RawByte(V(g, s), i, q) {
      PosInMap(g.bs, q);
      DataSlotIs(V(g, s), i, Quot(q, g.bs));
    }
  }

  /** Writing a block nobody owns yet. */
  lemma FreshWrite(g: Geom, s: Fs, s': Fs, x: nat, blk: Buf)
    requires FsOK(g, s) && InBitmap(g, x) && g.role[x] == Data && x !in s.owner && |blk| == g.bs
    requires s' == s.(m := s.m.(disk := s.m.disk[x := blk]))
    ensures Quiet(g, s, s') && TablesSame(g, s.m.disk, s'.m.disk)
    ensures Used(g, s'.m.disk) == Used(g, s.m.disk) && UsedInodes(g, s'.m.disk) == UsedInodes(g, s.m.disk)
  {
    FsWrote(g, s, s');
    UsedSame(g, s.m.disk, s'.m.disk);
    assert SameBytes(g, s, s') by { FreshBytes(g, s, s', x, blk); }
  }

  /** From s to s' inode x became a directory of one block blk. */
  ghost predicate DirMade(g: Geom, s: Fs, s': Fs, x: nat, blk: nat, raw: RawInode, es: seq<Entry>)
  {
    && IsIno(g, x) && x !in UsedInodes(g, s.m.disk) && UsedInodes(g, s'.m.disk) == UsedInodes(g, s.m.disk) + {x}
    && FreeInodesOf(s'.m) == FreeInodesOf(s.m) - 1 && DirCounts(s'.m) == DirCounts(s.m)
    && blk !in Used(g, s.m.disk) && Used(g, s'.m.disk) == Used(g, s.m.disk) + {blk}
    && FreeBlocksOf(s'.m) == FreeBlocksOf(s.m) - 1
    && blk !in s.owner && s'.owner == s.owner[blk := Root(x, 0)] && s'.raws == s.raws[x := raw]
    && Only(g, s, s', {x}) && IsDir(g, s', x) && ListOf(g, s', x) == es && RecordsKept(g, s.m.disk, s'.m.disk, x)
  }

  /** The volume between the steps of the creation: nothing has changed but the bitmaps. */
  ghost predicate Quiet(g: Geom, s: Fs, s': Fs)
  {
    && FsOK(g, s') && s'.raws == s.raws && s'.owner == s.owner && SameBytes(g, s, s') && PtrsSame(g, s, s')
  }

  lemma QuietTrans(g: Geom, s: Fs, s1: Fs, s2: Fs)
    requires Quiet(g, s, s1) && Quiet(g, s1, s2)
    ensures Quiet(g, s, s2)
  {
    PtrsSameTrans(g, s, s1, s2);
  }

  lemma TookQuiet(g: Geom, s: Fs, s1: Fs, s2: Fs, x: nat, blk: nat)
    requires FsOK(g, s) && MetaOK(g, s1.m) && TookInode(g, s.m, s1.m, x) && s1 == s.(m := s1.m)
    requires MetaOK(g, s2.m) && TookBlock(g, s1.m, s2.m, blk) && s2 == s1.(m := s2.m)
    ensures Quiet(g, s, s2) && TablesSame(g, s.m.disk, s2.m.disk) && blk !in s.owner
  {
    InodeBitsMoved(g, s, s1);
    TookStep(g, s1, s2, blk);
    PtrsSameTrans(g, s, s1, s2);
  }

  /** The pointer to blk goes into the record of x, which had none. */
  lemma FirstSound(g: Geom, s: Fs, h1: Fs, s1: Fs, x: nat, blk: nat, h: RawInode)
    requires FsOK(g, s) && x in s.raws && NoBlocks(s.raws[x]) && NoBlocks(h)
    requires InBitmap(g, blk) && g.role[blk] == Data && blk in Used(g, s.m.disk) && blk !in s.owner
    requires h1 == s.(raws := s.raws[x := h])
    requires s1 == Fs(s.m, s.raws[x := SetWord(h, IBLOCK_WORD, blk)], s.owner[blk := Root(x, 0)])
    ensures FsOK(g, h1) && FsOK(g, s1) && PtrsSame(g, s, h1) && Assigned(g, h1, s1, x, Root(x, 0), blk)
  {
    hide FsOK, Assigned, PtrsSame, Used;
    HeaderFs(g, s, h1, x);
    NoBlocksWord(h, 0);
    DirectStored(g, h1, s1, x, 0, blk);
  }

  lemma FirstBlock(g: Geom, s: Fs, s1: Fs, x: nat, blk: nat, h: RawInode)
    requires FsOK(g, s) && x in s.raws && NoBlocks(s.raws[x]) && NoBlocks(h)
    requires InBitmap(g, blk) && g.role[blk] == Data && blk in Used(g, s.m.disk) && blk !in s.owner
    requires s1 == Fs(s.m, s.raws[x := SetWord(h, IBLOCK_WORD, blk)], s.owner[blk := Root(x, 0)])
    ensures FsOK(g, s1) && Only(g, s, s1, {x})
    ensures Resolve(V(g, s1), x, 0) == blk
    ensures forall j: nat :: 0 < j < MapEnd(g.bs / 4) ==> Resolve(V(g, s1), x, j) == 0
  {
    hide FsOK, NoBlocks, Assigned, PtrsSame, RawByte, Resolve, MapEnd, Used, SetWord, MetaOK, Owns, OwnedOK,
         UsedInodes, DiskOK, RolesOK, GeomOK, Synced, Clean, IsDir, ListOf, DirOK;
    Shape(g, s);
    var h1 := s.(raws := s.raws[x := h]);
    FirstSound(g, s, h1, s1, x, blk, h);
    forall i, q: nat | i in s.raws && i != x && q < U32 ensures RawByte(V(g, s1), i, q) == RawByte(V(g, s), i, q) {
      HeaderByte(g, s, h1, i, q);
      BytesAfterAssign(g, h1, s1, x, 0, blk, i, q);
    }
    forall i, j: nat | i in s.raws && j < MapEnd(g.bs / 4)
      ensures Resolve(V(g, s1), i, j) == if i == x && j == 0 then blk else Resolve(V(g, s), i, j)
    {
      FirstResolve(g, s, h1, s1, x, blk, i, j);
    }
    forall j: nat | 0 < j < MapEnd(g.bs / 4) ensures Resolve(V(g, s1), x, j) == 0 {
      NoBlocksResolve(V(g, s), x, j);
    }
    MapStarts(g);
  }

  lemma MapStarts(g: Geom)
    ensures MapEnd(g.bs / 4) > 0
  {
  }

  lemma FirstResolve(g: Geom, s: Fs, h1: Fs, s1: Fs, x: nat, blk: nat, i: nat, j: nat)
    requires SizesOK(g) && PtrsSame(g, s, h1) && h1.raws.Keys == s.raws.Keys && x in s.raws && i in s.raws
    requires j < MapEnd(g.bs / 4)
    requires Assigned(g, h1, s1, x, Root(x, 0), blk)
    ensures Resolve(V(g, s1), i, j) == if i == x && j == 0 then blk else Resolve(V(g, s), i, j)
  {
    ResolveSame(g, s, h1, i, j);
    DataSlotIs(V(g, h1), i, j);
    if DataSlot(g.bs / 4, i, j) == Root(x, 0) {
      DataSlotInjective(g.bs / 4, i, j, x, 0);
    }
  }

  /** One block, holding a chain: a directory. */
  lemma OneBlockDir(g: Geom, s: Fs, x: nat, blk: nat)
    requires SizesOK(g) && DiskOK(g, s.m.disk) && x in s.raws && SizeOf(s.raws[x]) == g.bs
    requires Resolve(V(g, s), x, 0) == blk && 0 < blk < g.blocks && Chain(s.m.disk[blk])
    requires forall j: nat :: 0 < j < MapEnd(g.bs / 4) ==> Resolve(V(g, s), x, j) == 0
    ensures IsDir(g, s, x) && ListOf(g, s, x) == Entries(s.m.disk[blk])
  {
    var v := V(g, s);
    OneBlock(g.bs);
    MappedBlock(v, x, 0);
    assert DirChain(v, x, 1);
    var ls := Lists(v, x, 1);
    assert ls[..0] == [] && Cat(ls[..0]) == [];
    assert Cat(ls) == [] + ls[0];
  }

  lemma OneBlock(bs: nat)
    requires bs in {1024, 2048, 4096}
    ensures BlockCount(bs, bs) == 1 && Times(1, bs) == bs
  {
    assert Quot(bs + (bs - 1), bs) == Quot(bs - 1, bs) + 1;
    assert Times(1, bs) == Times(0, bs) + bs;
  }

  lemma SyncedPlus(g: Geom, s: Fs, s': Fs, x: nat, dirty: set<nat>)
    requires GeomOK(g) && Synced(g, s, dirty) && TablesSame(g, s.m.disk, s'.m.disk) && s'.raws.Keys == s.raws.Keys
    requires UsedInodes(g, s'.m.disk) == UsedInodes(g, s.m.disk) + {x}
    requires forall i :: i in s.raws && i != x ==> s'.raws[i] == s.raws[i]
    ensures Synced(g, s', dirty + {x})
  {
    forall i | i in UsedInodes(g, s'.m.disk) && i in s'.raws && i !in dirty + {x}
      ensures DiskInode(g, s'.m.disk, i) == s'.raws[i]
    {
      InodeSpot(g, i);
    }
  }

  /** What taking an inode and a block did to the books. */
  ghost predicate TookBoth(g: Geom, m: Meta, r: Meta, x: nat, blk: nat)
  {
    && IsIno(g, x) && x !in UsedInodes(g, m.disk) && UsedInodes(g, r.disk) == UsedInodes(g, m.disk) + {x}
    && FreeInodesOf(r) == FreeInodesOf(m) - 1 && DirCounts(r) == DirCounts(m)
    && InBitmap(g, blk) && blk < |g.role| && g.role[blk] == Data
    && blk !in Used(g, m.disk) && Used(g, r.disk) == Used(g, m.disk) + {blk}
    && FreeBlocksOf(r) == FreeBlocksOf(m) - 1
  }

  /** The last two steps of making a directory: the record and its pointer, in memory and on
      the device. */
  lemma DirMadeBy(g: Geom, s: Fs, s3: Fs, s4: Fs, x: nat, blk: nat, mode: nat, dots: Buf, dirty: set<nat>)
    requires FsOK(g, s) && Clean(g, s) && Synced(g, s, dirty) && Quiet(g, s, s3) && TablesSame(g, s.m.disk, s3.m.disk)
    requires TookBoth(g, s.m, s3.m, x, blk) && blk !in s.owner && s3.m.disk[blk] == dots && Chain(dots)
    requires s4 == Fs(s3.m.(disk := s4.m.disk), s.raws[x := DirRecord(mode, g.bs, blk)], s.owner[blk := Root(x, 0)])
    requires RecordWritten(g, s3.m.disk, s4.m.disk, x, DirRecord(mode, g.bs, blk))
    ensures FsOK(g, s4) && Synced(g, s4, dirty)
    ensures DirMade(g, s, s4, x, blk, DirRecord(mode, g.bs, blk), Entries(dots))
  {
    hide FsOK, MetaOK, Synced, IsDir, ListOf, Only, Clean, SameBytes, PtrsSame, TablesSame, RecordsKept, Entries,
         Chain, Resolve, Owns, OwnedOK, Used, UsedInodes, DiskOK, RolesOK;
    Shape(g, s);
    var raw := DirRecord(mode, g.bs, blk);
    var s3' := Fs(s3.m, s.raws[x := raw], s.owner[blk := Root(x, 0)]);
    DirRecorded(g, s, s3, s3', s4, x, blk, mode, dots, dirty);
    MadeOnly(g, s, s3, s3', s4, x);
    RecordsThrough(g, s.m.disk, s3.m.disk, s4.m.disk, x, raw);
  }

  lemma DirRecorded(g: Geom, s: Fs, s3: Fs, s3': Fs, s4: Fs, x: nat, blk: nat, mode: nat, dots: Buf, dirty: set<nat>)
    requires FsOK(g, s) && Clean(g, s) && Synced(g, s, dirty) && Quiet(g, s, s3) && TablesSame(g, s.m.disk, s3.m.disk)
    requires TookBoth(g, s.m, s3.m, x, blk) && blk !in s.owner && s3.m.disk[blk] == dots && Chain(dots)
    requires s3' == Fs(s3.m, s.raws[x := DirRecord(mode, g.bs, blk)], s.owner[blk := Root(x, 0)])
    requires s4 == s3'.(m := s3.m.(disk := s4.m.disk))
    requires RecordWritten(g, s3.m.disk, s4.m.disk, x, DirRecord(mode, g.bs, blk))
    ensures FsOK(g, s4) && Synced(g, s4, dirty) && SameBytes(g, s3', s4) && PtrsSame(g, s3', s4)
    ensures Only(g, s3, s3', {x})
    ensures IsDir(g, s4, x) && ListOf(g, s4, x) == Entries(dots)
    ensures Used(g, s4.m.disk) == Used(g, s3.m.disk) && UsedInodes(g, s4.m.disk) == UsedInodes(g, s3.m.disk)
  {
    hide FsOK, MetaOK, Synced, IsDir, ListOf, Only, Clean, SameBytes, PtrsSame, TablesSame, Entries, Chain, Resolve,
         Owns, OwnedOK, Used, Ptr, IsSlot, Word;
    Shape(g, s);
    CleanAt(g, s, x);
    FirstBlock(g, s3, s3', x, blk, DirHeader(mode, g.bs));
    SyncedPlus(g, s, s3', x, dirty);
    RecordAgain(g, s3', s4, x, dirty);
    MadeList(g, s3', s4, x, blk);
  }

  lemma RecordsThrough(g: Geom, a: seq<Block>, b: seq<Block>, c: seq<Block>, x: nat, raw: RawInode)
    requires GeomOK(g) && SizesOK(g) && TablesSame(g, a, b) && RecordWritten(g, b, c, x, raw)
    ensures RecordsKept(g, a, c, x)
  {
    TablesKeep(g, a, b, x);
  }

  lemma MadeOnly(g: Geom, s: Fs, s3: Fs, s3': Fs, s4: Fs, x: nat)
    requires SizesOK(g) && x in s.raws && Quiet(g, s, s3) && Only(g, s3, s3', {x})
    requires s4.raws == s3'.raws && s4.owner == s3'.owner && SameBytes(g, s3', s4) && PtrsSame(g, s3', s4)
    ensures Only(g, s, s4, {x})
  {
    QuietOnly(g, s, s3, x, s.raws[x]);
    QuietOnly(g, s3', s4, x, s4.raws[x]);
    OnlyTrans(g, s, s3, s3', {x}, {x}, {x});
    OnlyTrans(g, s, s3', s4, {x}, {x}, {x});
  }

  lemma MadeList(g: Geom, s: Fs, s': Fs, x: nat, blk: nat)
    requires FsOK(g, s) && DiskOK(g, s'.m.disk) && PtrsSame(g, s, s') && s'.raws == s.raws && x in s.raws
    requires SizeOf(s.raws[x]) == g.bs
    requires Resolve(V(g, s), x, 0) == blk && 0 < blk < g.blocks && Chain(s.m.disk[blk])
    requires s'.m.disk[blk] == s.m.disk[blk]
    requires forall j: nat :: 0 < j < MapEnd(g.bs / 4) ==> Resolve(V(g, s), x, j) == 0
    ensures IsDir(g, s', x) && ListOf(g, s', x) == Entries(s.m.disk[blk])
  {
    forall j: nat | j < MapEnd(g.bs / 4) ensures Resolve(V(g, s'), x, j) == Resolve(V(g, s), x, j) {
      ResolveSame(g, s, s', x, j);
    }
    OneBlockDir(g, s', x, blk);
  }

  /** "." and ".." of a new directory */
  function Dots(x: nat, parent: nat): seq<Entry>
  {
    [DirEntry([DOT], x), DirEntry([DOT, DOT], parent)]
  }

  /** The first half of ext2_mkdir: an inode, a block with "." and "..", and the record. */
  method NewDirectory(vol: Vol, parent: nat, mode: nat, ghost dirty: set<nat>) returns (x: nat, blk: nat)
    requires FsOK(vol.g, Snap(vol)) && Clean(vol.g, Snap(vol)) && Synced(vol.g, Snap(vol), dirty) && 0 < parent < U32
    modifies vol
    ensures FsOK(vol.g, Snap(vol)) && Synced(vol.g, Snap(vol), dirty)
    ensures x == 0 ==> Quiet(vol.g, old(Snap(vol)), Snap(vol)) && SameBooks(vol.g, old(vol.M()), vol.M())
    ensures x == 0 ==> TablesSame(vol.g, old(vol.disk), vol.disk)
    ensures x == 0 ==> !HasInode(vol.g, old(Snap(vol))) || FreeBlocksOf(old(vol.M())) == 0
    ensures x != 0 ==> HasInode(vol.g, old(Snap(vol))) && blk < U32
    ensures x != 0 ==>
      DirMade(vol.g, old(Snap(vol)), Snap(vol), x, blk, DirRecord(mode, vol.g.bs, blk), Dots(x, parent))
  {
    hide FsOK, Clean, Synced, Quiet, SameBooks, TablesSame, DirMade, MetaOK, Owns, OwnedOK, Used, UsedInodes, DiskOK;
    ghost var s := Snap(vol);
    Shape(vol.g, s);
    x := AllocInode(vol);
    if x == 0 {
      assert Snap(vol) == s;
      NothingHappened(vol.g, s);
      return 0, 0;
    }
    ghost var s1 := Snap(vol);
    blk := AllocBlock(vol);
    if blk == 0 {
      assert Snap(vol) == s1;
      NoneLeftOver(vol.g, s1.m);
      GiveUp(vol, x, s, dirty);
      return 0, 0;
    }
    ghost var s2 := Snap(vol);
    TookQuiet(vol.g, s, s1, s2, x, blk);
    FillDirectory(vol, x, blk, parent, mode, s, dirty);
  }

  lemma NothingHappened(g: Geom, s: Fs)
    requires FsOK(g, s)
    ensures Quiet(g, s, s) && SameBooks(g, s.m, s.m) && TablesSame(g, s.m.disk, s.m.disk)
  {
  }

  /** The books of m and r agree. */
  ghost predicate SameBooks(g: Geom, m: Meta, r: Meta)
  {
    Used(g, r.disk) == Used(g, m.disk) && SameCounts(g, m, r)
  }

  ghost predicate SameCounts(g: Geom, m: Meta, r: Meta)
  {
    && UsedInodes(g, r.disk) == UsedInodes(g, m.disk)
    && FreeInodesOf(r) == FreeInodesOf(m) && DirCounts(r) == DirCounts(m) && FreeBlocksOf(r) == FreeBlocksOf(m)
  }

  /** No block for the directory: the inode goes back. */
  method GiveUp(vol: Vol, x: nat, ghost s: Fs, ghost dirty: set<nat>)
    requires FsOK(vol.g, s) && Synced(vol.g, s, dirty) && MetaOK(vol.g, vol.M())
    requires TookInode(vol.g, s.m, vol.M(), x) && Snap(vol) == s.(m := vol.M())
    modifies vol`disk, vol`sb, vol`gds
    ensures FsOK(vol.g, Snap(vol)) && Synced(vol.g, Snap(vol), dirty)
    ensures Quiet(vol.g, s, Snap(vol)) && SameBooks(vol.g, s.m, vol.M()) && TablesSame(vol.g, s.m.disk, vol.disk)
  {
    hide Owns, OwnedOK, Synced, SameBytes, PtrsSame, TablesSame, Used, UsedInodes, OnlyMeta, FsOK, MetaOK, DiskOK,
         RolesOK, GeomOK, Clean;
    ghost var s1 := Snap(vol);
    InodeBitsMoved(vol.g, s, s1);
    FreeInode(vol, x);
    InodeBitsMoved(vol.g, s1, Snap(vol));
    QuietTrans(vol.g, s, s1, Snap(vol));
    TablesTrans(vol.g, s.m.disk, s1.m.disk, vol.disk);
    SyncedKept(vol.g, s, Snap(vol), dirty, dirty);
  }

  lemma TablesTrans(g: Geom, a: seq<Block>, b: seq<Block>, c: seq<Block>)
    requires TablesSame(g, a, b) && TablesSame(g, b, c)
    ensures TablesSame(g, a, c)
  {
  }

  method FillDirectory(vol: Vol, x: nat, blk: nat, parent: nat, mode: nat, ghost s: Fs, ghost dirty: set<nat>)
    requires FsOK(vol.g, s) && Clean(vol.g, s) && Synced(vol.g, s, dirty) && Quiet(vol.g, s, Snap(vol))
    requires 0 < parent < U32
    requires TablesSame(vol.g, s.m.disk, vol.disk) && TookBoth(vol.g, s.m, vol.M(), x, blk) && blk !in s.owner
    requires blk < U32
    modifies vol`disk, vol`raws, vol`owner
    ensures FsOK(vol.g, Snap(vol)) && Synced(vol.g, Snap(vol), dirty)
    ensures DirMade(vol.g, s, Snap(vol), x, blk, DirRecord(mode, vol.g.bs, blk), Dots(x, parent))
  {
    hide FsOK, Synced, Clean, DirMade, SameBytes, PtrsSame, TablesSame, Chain, MetaOK, Owns, OwnedOK, Used,
         UsedInodes, DiskOK;
    ghost var s2 := Snap(vol);
    Shape(vol.g, s2);
    var dots := DotBlock(vol.g.bs, x, parent);
    vol.disk := vol.disk[blk := dots];
    FreshWrite(vol.g, s2, Snap(vol), blk, dots);
    QuietTrans(vol.g, s, s2, Snap(vol));
    TablesTrans(vol.g, s.m.disk, s2.m.disk, vol.disk);
    RecordDirectory(vol, x, blk, mode, dots, s, dirty);
  }

  /** The record of the new directory, in memory and on the device. */
  method RecordDirectory(vol: Vol, x: nat, blk: nat, mode: nat, ghost dots: Buf, ghost s: Fs, ghost dirty: set<nat>)
    requires FsOK(vol.g, s) && Clean(vol.g, s) && Synced(vol.g, s, dirty) && Quiet(vol.g, s, Snap(vol))
    requires TablesSame(vol.g, s.m.disk, vol.disk) && TookBoth(vol.g, s.m, vol.M(), x, blk) && blk !in s.owner
    requires blk < U32
    requires vol.disk[blk] == dots && Chain(dots)
    modifies vol`disk, vol`raws, vol`owner
    ensures FsOK(vol.g, Snap(vol)) && Synced(vol.g, Snap(vol), dirty)
    ensures DirMade(vol.g, s, Snap(vol), x, blk, DirRecord(mode, vol.g.bs, blk), Entries(dots))
  {
    hide FsOK, MetaOK, GeomOK, DiskOK, Synced, Clean, DirMade, Entries, Chain, SameBytes, PtrsSame, TablesSame,
         RecordWritten;
    ghost var s3 := Snap(vol);
    Shape(vol.g, s3);
    var raw := DirRecord(mode, vol.g.bs, blk);
    WriteInodeRaw(vol, x, raw);
    vol.raws := vol.raws[x := raw];
    vol.owner := vol.owner[blk := Root(x, 0)];
    DirMadeBy(vol.g, s, s3, Snap(vol), x, blk, mode, dots, dirty);
  }

  // ----- taking a new directory back -----

  /** From s to s' inode x, which owned the one block blk, is free again, and so is blk. */
  ghost predicate DirUnmade(g: Geom, s: Fs, s': Fs, x: nat, blk: nat)
  {
    && x in s.raws && UsedInodes(g, s'.m.disk) == UsedInodes(g, s.m.disk) - {x}
    && FreeInodesOf(s'.m) == FreeInodesOf(s.m) + 1 && DirCounts(s'.m) == DirCounts(s.m)
    && Used(g, s'.m.disk) == Used(g, s.m.disk) - {blk} && FreeBlocksOf(s'.m) == FreeBlocksOf(s.m) + 1
    && s'.owner == Restrict(s.owner, Others(x)) && s'.raws == s.raws[x := Zeros(128)]
    && Only(g, s, s', {x}) && RecordsKept(g, s.m.disk, s'.m.disk, x)
  }

  lemma Detached(g: Geom, s: Fs, s1: Fs, x: nat)
    requires FsOK(g, s) && x in s.raws && s1 == Fs(s.m, s.raws[x := Zeros(128)], Restrict(s.owner, Others(x)))
    ensures FsOK(g, s1) && Only(g, s, s1, {x})
  {
    hide IsSlot, Word, Used, UsedInodes;
    ZeroedRoots(g, s, s.m, x);
    FsCut(g, s, s1, x, Others(x), iset{});
    forall i, j: nat | i in s.raws && i != x && j < MapEnd(g.bs / 4)
      ensures Resolve(V(g, s1), i, j) == Resolve(V(g, s), i, j)
    {
      DataSlotIs(V(g, s), i, j);
    }
    forall i, q: nat | i in s.raws && i != x && q < U32 ensures RawByte(V(g, s1), i, q) == RawByte(V(g, s), i, q) {
      PosInMap(g.bs, q);
      DataSlotIs(V(g, s), i, Quot(q, g.bs));
      OtherByte(g, s, s1, Others(x), i, q);
    }
  }

  lemma UnmadeDone(g: Geom, s: Fs, s1: Fs, s2: Fs, s3: Fs, x: nat, blk: nat, dirty: set<nat>)
    requires FsOK(g, s) && x in s.raws && Synced(g, s, dirty)
    requires s1 == Fs(s.m, s.raws[x := Zeros(128)], Restrict(s.owner, Others(x))) && FsOK(g, s1) && Only(g, s, s1, {x})
    requires blk !in s1.owner && MetaOK(g, s2.m) && GaveBlock(g, s1.m, s2.m, blk) && s2 == s1.(m := s2.m)
    requires MetaOK(g, s3.m) && GaveInode(g, s2.m, s3.m, x) && s3 == s2.(m := s3.m)
    ensures FsOK(g, s3) && DirUnmade(g, s, s3, x, blk) && Synced(g, s3, dirty)
  {
    hide RawByte, Owns, OwnedOK, Synced, UsedInodes, DiskOK, RolesOK, ListOf, DirOK, Only;
    GaveStep(g, s1, s2, blk);
    InodeBitsMoved(g, s2, s3);
    assert Only(g, s, s3, {x}) by {
      QuietOnly(g, s1, s2, x, s2.raws[x]);
      QuietOnly(g, s2, s3, x, s3.raws[x]);
      OnlyTrans(g, s, s1, s2, {x}, {x}, {x});
      OnlyTrans(g, s, s2, s3, {x}, {x}, {x});
    }
    assert Synced(g, s3, dirty) by { UnmadeSynced(g, s, s2, s3, x, dirty); }
    assert RecordsKept(g, s.m.disk, s3.m.disk, x) by { TablesKeep(g, s.m.disk, s3.m.disk, x); }
  }

  lemma UnmadeSynced(g: Geom, s: Fs, s2: Fs, s3: Fs, x: nat, dirty: set<nat>)
    requires GeomOK(g) && Synced(g, s, dirty) && OnlyMeta(g, Blocks, s.m.disk, s2.m.disk)
    requires TablesSame(g, s2.m.disk, s3.m.disk)
    requires UsedInodes(g, s3.m.disk) == UsedInodes(g, s.m.disk) - {x} && x in s.raws
    requires s3.raws == s.raws[x := Zeros(128)]
    ensures Synced(g, s3, dirty)
  {
    forall i | i in UsedInodes(g, s3.m.disk) && i in s3.raws && i !in dirty
      ensures DiskInode(g, s3.m.disk, i) == s3.raws[i]
    {
      InodeSpot(g, i);
    }
  }

  /** ext2_free_block and ext2_free_inode after the entry could not be added. */
  method UndoDirectory(vol: Vol, x: nat, blk: nat, ghost dirty: set<nat>)
    requires FsOK(vol.g, Snap(vol)) && Synced(vol.g, Snap(vol), dirty)
    requires x in UsedInodes(vol.g, vol.disk) && x in vol.raws && blk in vol.owner && Ino(vol.owner[blk]) == x
    modifies vol
    ensures FsOK(vol.g, Snap(vol)) && Synced(vol.g, Snap(vol), dirty)
    ensures DirUnmade(vol.g, old(Snap(vol)), Snap(vol), x, blk)
  {
    ghost var s := Snap(vol);
    vol.raws := vol.raws[x := Zeros(128)];
    vol.owner := Restrict(vol.owner, Others(x));
    ghost var s1 := Snap(vol);
    Detached(vol.g, s, s1, x);
    FreeBlock(vol, blk);
    ghost var s2 := Snap(vol);
    FreeInode(vol, x);
    UnmadeDone(vol.g, s, s1, s2, Snap(vol), x, blk, dirty);
  }

  // ----- mkdir -----

  /** The books and blocks after x became a directory named in d. */
  ghost predicate SubBooks(g: Geom, s: Fs, s': Fs, d: nat, x: nat)
  {
    && x !in UsedInodes(g, s.m.disk) && UsedInodes(g, s'.m.disk) == UsedInodes(g, s.m.disk) + {x}
    && FreeInodesOf(s'.m) == FreeInodesOf(s.m) - 1
    && FreeBlocksOf(s'.m) + |s'.owner| == FreeBlocksOf(s.m) + |s.owner|
    && (forall b :: b in s.owner ==> b in s'.owner && s'.owner[b] == s.owner[b])
    && (forall b :: b in s'.owner && b !in s.owner ==> Ino(s'.owner[b]) == d || s'.owner[b] == Root(x, 0))
  }

  /** From s to s' directory d gained the name e of a new directory e.ino, whose one block
      holds "." and "..". */
  ghost predicate SubAdded(g: Geom, s: Fs, s': Fs, d: nat, e: Entry, raw: RawInode)
  {
    && d in s.raws && e.ino in s'.raws && d in s'.raws && e.ino != d && Only(g, s, s', {d, e.ino})
    && SubBooks(g, s, s', d, e.ino)
    && s'.raws[e.ino] == raw && ModeOf(s'.raws[d]) == ModeOf(s.raws[d]) && SameRest(s.raws[d], s'.raws[d])
    && IsDir(g, s', e.ino) && ListOf(g, s', e.ino) == Dots(e.ino, d)
    && IsDir(g, s', d) && Added(ListOf(g, s, d), ListOf(g, s', d), e)
  }

  /** From s to s' the bytes of a record for e went into file d, and e.ino is a new directory whose
      one block holds "." and "..". */
  ghost predicate SubFiled(g: Geom, s: Fs, s': Fs, d: nat, e: Entry, raw: RawInode)
  {
    && SizesOK(g) && 0 < e.ino < U32 && |e.name| < 256
    && d in s.raws && e.ino in s'.raws && d in s'.raws && e.ino != d && Only(g, s, s', {d, e.ino})
    && e.ino !in UsedInodes(g, s.m.disk) && UsedInodes(g, s'.m.disk) == UsedInodes(g, s.m.disk) + {e.ino}
    && FreeInodesOf(s'.m) == FreeInodesOf(s.m) - 1
    && FreeBlocksOf(s'.m) + |s'.owner| + (if Displaces(g, s, d, |e.name|) then 1 else 0) ==
       FreeBlocksOf(s.m) + |s.owner|
    && s'.raws[e.ino] == raw && ModeOf(s'.raws[d]) == ModeOf(s.raws[d]) && SameRest(s.raws[d], s'.raws[d])
    && IsDir(g, s', e.ino) && ListOf(g, s', e.ino) == Dots(e.ino, d)
    && Filed(g, s, s', d, e)
  }

  lemma SubFiledBy(g: Geom, s: Fs, s1: Fs, s2: Fs, d: nat, e: Entry, blk: nat, raw: RawInode)
    requires FsOK(g, s) && DirMade(g, s, s1, e.ino, blk, raw, Dots(e.ino, d)) && d in UsedInodes(g, s.m.disk)
    requires d in s.raws && EntryPut(g, s1, s2, d, e)
    ensures SubFiled(g, s, s2, d, e, raw) && DirCounts(s2.m) == DirCounts(s.m)
    ensures LinksOf(s2.raws[d]) == LinksOf(s.raws[d])
  {
    hide FsOK, Filed, Only, Displaces, IsDir, ListOf, RecordsKept, Used, SizesOK, SameFile, UsedInodes, DirCounts,
         Dots, Filled, Splice, Put16, Need, Low16, NameLen, RecLen, InodeOf, SpotAt, FullAt, Full, FullBefore, CanAdd,
         Mappable, Missing, InDouble, Cleared, MetaOK;
    Shape(g, s);
    OnlySame(g, s, s1, {e.ino}, d);
    FullSame(g, s, s1, d, |e.name|);
    FiledSame(g, s, s1, s2, d, e);
    OtherDir(g, s1, s2, {d}, e.ino);
    OnlyTrans(g, s, s1, s2, {e.ino}, {d}, {d, e.ino});
    OnlyKeys(g, s1, s2, {d});
    OneMoreKey(s.owner, blk, Root(e.ino, 0));
  }

  lemma OnlySame(g: Geom, s: Fs, s': Fs, xs: set<nat>, d: nat)
    requires Only(g, s, s', xs) && d in s.raws && d !in xs
    ensures d in s'.raws && s'.raws[d] == s.raws[d] && SameFile(g, s, s', d)
  {
  }

  /** d's record rewritten with another link count, or a count of directories moved. */
  lemma SubFiledOn(g: Geom, s: Fs, s2: Fs, s3: Fs, d: nat, e: Entry, raw: RawInode, rd: RawInode)
    requires SubFiled(g, s, s2, d, e, raw) && s3.raws == s2.raws[d := rd] && s3.owner == s2.owner
    requires SameBytes(g, s2, s3) && PtrsSame(g, s2, s3)
    requires SameBody(s2.raws[d], rd)
    requires UsedInodes(g, s3.m.disk) == UsedInodes(g, s2.m.disk)
    requires FreeInodesOf(s3.m) == FreeInodesOf(s2.m) && FreeBlocksOf(s3.m) == FreeBlocksOf(s2.m)
    ensures SubFiled(g, s, s3, d, e, raw)
  {
    hide Only, Displaces, IsDir, ListOf, PtrsSame, Full, PlacedAt, RoomAt, Spanning;
    QuietOnly(g, s2, s3, d, rd);
    OtherDir(g, s2, s3, {d}, e.ino);
    OnlyTrans(g, s, s2, s3, {d, e.ino}, {d}, {d, e.ino});
    assert Filed(g, s, s3, d, e) by { FiledOn(g, s, s2, s3, d, e); }
  }

  lemma FiledOn(g: Geom, s: Fs, s2: Fs, s3: Fs, d: nat, e: Entry)
    requires SizesOK(g) && 0 < e.ino < U32 && |e.name| < 256 && Filed(g, s, s2, d, e) && SameBytes(g, s2, s3)
    requires d in s3.raws && SameExtent(s2.raws[d], s3.raws[d])
    ensures Filed(g, s, s3, d, e)
  {
    hide RawByte, Full, PlacedAt, RoomAt, Spanning, Pasted, SameBytes;
    if Full(g, s, d, |e.name|) {
      PastedOn(g, s, s2, s3, d, NBlocks(g, s, d), Spanning(g.bs, e.name, e.ino, e.kind));
    } else {
      var l: nat :| RoomAt(g, s, d, l, |e.name|) && Pasted(g, s, s2, d, l, PlacedAt(g, s, d, l, e));
      PastedOn(g, s, s2, s3, d, l, PlacedAt(g, s, d, l, e));
    }
  }

  lemma PastedOn(g: Geom, s: Fs, s2: Fs, s3: Fs, d: nat, l: nat, chunk: Buf)
    requires Pasted(g, s, s2, d, l, chunk) && SameBytes(g, s2, s3) && d in s2.raws
    ensures Pasted(g, s, s3, d, l, chunk)
  {
    hide RawByte;
  }

  /** What ext2_mkdir does whatever the parent is: the bytes of the record, the new directory, and
      the two counts. */
  ghost predicate PlantedSub(g: Geom, s: Fs, s': Fs, d: nat, e: Entry, raw: RawInode)
  {
    && SubFiled(g, s, s', d, e, raw) && ModeOf(raw) / 4096 == 4 && LinksOf(raw) == 2
    && LinksOf(s'.raws[d]) == Low16(Inc(LinksOf(s.raws[d]), U32))
    && InoGroup(g, e.ino) < |DirCounts(s.m)| && DirCounts(s.m)[InoGroup(g, e.ino)] < U16
    && DirCounts(s'.m) == DirCounts(s.m)[InoGroup(g, e.ino) := Inc(DirCounts(s.m)[InoGroup(g, e.ino)], U16)]
  }

  lemma SubBooksBy(g: Geom, s: Fs, s1: Fs, s2: Fs, d: nat, x: nat, blk: nat, raw: RawInode)
    requires DirMade(g, s, s1, x, blk, raw, Dots(x, d)) && DirStep(g, s1, s2, d)
    ensures SubBooks(g, s, s2, d, x)
  {
    assert s1.owner.Keys == s.owner.Keys + {blk};
    assert |s1.owner| == |s.owner| + 1;
  }

  lemma SubAddedBy(g: Geom, s: Fs, s1: Fs, s2: Fs, d: nat, e: Entry, blk: nat, raw: RawInode, dirty: set<nat>)
    requires FsOK(g, s) && DirMade(g, s, s1, e.ino, blk, raw, Dots(e.ino, d)) && IsDir(g, s, d)
    requires d in UsedInodes(g, s.m.disk)
    requires DirAdded(g, s1, s2, d, e, dirty)
    ensures SubAdded(g, s, s2, d, e, raw) && DirCounts(s2.m) == DirCounts(s.m)
    ensures LinksOf(s2.raws[d]) == LinksOf(s.raws[d])
  {
    OtherDir(g, s, s1, {e.ino}, d);
    assert Only(g, s1, s2, {d}) by { DirStepOnly(g, s1, s2, d); }
    OtherDir(g, s1, s2, {d}, e.ino);
    assert Only(g, s, s2, {d, e.ino}) by { OnlyTrans(g, s, s1, s2, {e.ino}, {d}, {d, e.ino}); }
    assert SubBooks(g, s, s2, d, e.ino) by { SubBooksBy(g, s, s1, s2, d, e.ino, blk, raw); }
  }

  /** Directory d's own record is rewritten with another link count. */
  lemma SubLinked(g: Geom, s: Fs, s2: Fs, s3: Fs, d: nat, e: Entry, raw: RawInode, rd: RawInode)
    requires SizesOK(g) && SubAdded(g, s, s2, d, e, raw) && s3.raws == s2.raws[d := rd] && s3.owner == s2.owner
    requires SameBytes(g, s2, s3) && PtrsSame(g, s2, s3) && SameBody(s2.raws[d], rd)
    requires SubBooks(g, s, s3, d, e.ino)
    ensures SubAdded(g, s, s3, d, e, raw)
  {
    assert Only(g, s2, s3, {d}) by { QuietOnly(g, s2, s3, d, rd); }
    assert IsDir(g, s3, e.ino) && ListOf(g, s3, e.ino) == ListOf(g, s2, e.ino) by { OtherDir(g, s2, s3, {d}, e.ino); }
    assert IsDir(g, s3, d) && ListOf(g, s3, d) == ListOf(g, s2, d) by { RecordDir(g, s2, s3, d, NBlocks(g, s2, d)); }
    assert Only(g, s, s3, {d, e.ino}) by { OnlyTrans(g, s, s2, s3, {d, e.ino}, {d}, {d, e.ino}); }
  }

  /** Everything ext2_mkdir does. */
  ghost predicate MadeSub(g: Geom, s: Fs, s': Fs, d: nat, e: Entry, raw: RawInode)
  {
    && SubAdded(g, s, s', d, e, raw) && ModeOf(raw) / 4096 == 4 && LinksOf(raw) == 2
    && LinksOf(s'.raws[d]) == Low16(Inc(LinksOf(s.raws[d]), U32))
    && InoGroup(g, e.ino) < |DirCounts(s.m)| && DirCounts(s.m)[InoGroup(g, e.ino)] < U16
    && DirCounts(s'.m) == DirCounts(s.m)[InoGroup(g, e.ino) := Inc(DirCounts(s.m)[InoGroup(g, e.ino)], U16)]
  }

  lemma QuietUnadded(g: Geom, s: Fs, s': Fs, d: nat, dirty: set<nat>)
    requires FsOK(g, s) && d in s.raws && Quiet(g, s, s') && SameBooks(g, s.m, s'.m)
    requires Synced(g, s', dirty) && TablesSame(g, s.m.disk, s'.m.disk)
    ensures Unadded(g, s, s', d, dirty)
  {
    QuietStep(g, s, s', d);
    assert SameFile(g, s, s', d) by {
      forall j: nat | j < MapEnd(g.bs / 4) ensures Resolve(V(g, s'), d, j) == Resolve(V(g, s), d, j) {
        ResolveSame(g, s, s', d, j);
      }
    }
    TablesKeep(g, s.m.disk, s'.m.disk, 0);
  }

  lemma QuietStep(g: Geom, s: Fs, s': Fs, d: nat)
    requires SizesOK(g) && d in s.raws && s'.raws == s.raws && s'.owner == s.owner && SameBytes(g, s, s')
    requires PtrsSame(g, s, s')
    requires SameBooks(g, s.m, s'.m)
    ensures DirStep(g, s, s', d)
  {
    QuietOnly(g, s, s', d, s.raws[d]);
  }

  lemma NoBlocksBytes(g: Geom, s: Fs, s': Fs, x: nat)
    requires x in s.raws && x in s'.raws && s.raws[x] == Zeros(128) == s'.raws[x]
    ensures forall q: nat :: q < U32 ==> RawByte(V(g, s'), x, q) == RawByte(V(g, s), x, q)
    ensures forall j: nat :: j < MapEnd(g.bs / 4) ==> Resolve(V(g, s'), x, j) == Resolve(V(g, s), x, j)
  {
    forall j: nat ensures Resolve(V(g, s'), x, j) == 0 == Resolve(V(g, s), x, j) {
      NoBlocksResolve(V(g, s), x, j);
      NoBlocksResolve(V(g, s'), x, j);
    }
  }

  lemma UndoneOthers(g: Geom, s: Fs, s1: Fs, s2: Fs, s3: Fs, d: nat, x: nat)
    requires Only(g, s, s1, {x}) && OthersKept(g, s1, s2, d) && SameFile(g, s1, s2, d) && Only(g, s2, s3, {x})
    requires x != d && d in s.raws && s1.raws.Keys == s2.raws.Keys
    requires x in s.raws && s.raws[x] == Zeros(128) && x in s3.raws && s3.raws[x] == Zeros(128)
    ensures OthersKept(g, s, s3, d) && SameFile(g, s, s3, d)
  {
    NoBlocksBytes(g, s, s3, x);
  }

  lemma UndoneOwners(s: Fs, s1: Fs, s2: Fs, s3: Fs, d: nat, x: nat, blk: nat)
    requires s1.owner == s.owner[blk := Root(x, 0)] && blk !in s.owner && x != d
    requires forall b :: b in s.owner ==> Ino(s.owner[b]) != x
    requires forall b :: b in s1.owner ==> b in s2.owner && s2.owner[b] == s1.owner[b]
    requires forall b :: b in s2.owner && b !in s1.owner ==> Ino(s2.owner[b]) == d
    requires s3.owner == Restrict(s2.owner, Others(x))
    ensures forall b :: b in s.owner ==> b in s3.owner && s3.owner[b] == s.owner[b]
    ensures forall b :: b in s3.owner && b !in s.owner ==> Ino(s3.owner[b]) == d
    ensures forall b :: b in s3.owner <==> b in s2.owner && b != blk
  {
  }

  /** One key more, one key fewer. */
  lemma KeyCounts(s: Fs, s1: Fs, s2: Fs, s3: Fs, t: Slot, blk: nat)
    requires s1.owner == s.owner[blk := t] && blk !in s.owner && blk in s2.owner
    requires forall b :: b in s3.owner <==> b in s2.owner && b != blk
    ensures |s3.owner| == |s2.owner| - 1 && |s1.owner| == |s.owner| + 1
  {
    assert s1.owner.Keys == s.owner.Keys + {blk};
    assert s3.owner.Keys == s2.owner.Keys - {blk};
  }

  /** A free inode owns nothing. */
  lemma {:induction false} FreeOwnsNothing(v: View, t: Slot, x: nat)
    requires IsSlot(v, t) && Ino(t) == x && x in v.raws && v.raws[x] == Zeros(128)
    ensures Ptr(v, t) == 0
  {
    match t
    case Root(i, k) => NoBlocksWord(v.raws[i], k);
    case Child(up, j) => FreeOwnsNothing(v, up, x);
  }

  lemma MkdirUndone(g: Geom, s: Fs, s1: Fs, s2: Fs, s3: Fs, d: nat, x: nat, blk: nat, raw: RawInode, es: seq<Entry>,
                    dirty: set<nat>)
    requires FsOK(g, s) && Clean(g, s) && DirMade(g, s, s1, x, blk, raw, es) && d in UsedInodes(g, s.m.disk)
    requires Unadded(g, s1, s2, d, dirty) && DirUnmade(g, s2, s3, x, blk) && Synced(g, s3, dirty + {d})
    ensures Unadded(g, s, s3, d, dirty) && Clean(g, s3)
  {
    assert OthersKept(g, s, s3, d) && SameFile(g, s, s3, d) by { UndoneOthers(g, s, s1, s2, s3, d, x); }
    assert DirStep(g, s, s3, d) && SameExtent(s.raws[d], s3.raws[d]) by {
      FreeOwns(g, s, x);
      MkdirUndoneStep(g, s, s1, s2, s3, d, x, blk, raw, es);
    }
  }

  lemma MkdirUndoneStep(g: Geom, s: Fs, s1: Fs, s2: Fs, s3: Fs, d: nat, x: nat, blk: nat, raw: RawInode, es: seq<Entry>)
    requires x in s.raws && x != d && s.raws[x] == Zeros(128) && DirMade(g, s, s1, x, blk, raw, es)
    requires DirStep(g, s1, s2, d)
    requires forall b :: b in s.owner ==> Ino(s.owner[b]) != x
    requires SameExtent(s1.raws[d], s2.raws[d]) && DirUnmade(g, s2, s3, x, blk) && OthersKept(g, s, s3, d)
    ensures DirStep(g, s, s3, d) && SameExtent(s.raws[d], s3.raws[d])
  {
    hide Only, IsDir, ListOf, RecordsKept, OthersKept, FsOK, MetaOK, Owns, OwnedOK, Used, UsedInodes;
    UndoneOwners(s, s1, s2, s3, d, x, blk);
    KeyCounts(s, s1, s2, s3, Root(x, 0), blk);
  }

  lemma FreeOwns(g: Geom, s: Fs, x: nat)
    requires Owns(V(g, s), s.owner) && x in s.raws && s.raws[x] == Zeros(128)
    ensures forall b :: b in s.owner ==> Ino(s.owner[b]) != x
  {
    forall b | b in s.owner ensures Ino(s.owner[b]) != x {
      if Ino(s.owner[b]) == x { FreeOwnsNothing(V(g, s), s.owner[b], x); }
    }
  }

  lemma MkdirClean(g: Geom, s: Fs, s': Fs, d: nat, e: Entry)
    requires Clean(g, s) && d in UsedInodes(g, s.m.disk) && Only(g, s, s', {d, e.ino})
    requires UsedInodes(g, s'.m.disk) == UsedInodes(g, s.m.disk) + {e.ino}
    ensures Clean(g, s')
  {
  }

  lemma BooksSame(g: Geom, s: Fs, s2: Fs, s3: Fs, d: nat, x: nat)
    requires SubBooks(g, s, s2, d, x) && SameCounts(g, s2.m, s3.m) && s3.owner == s2.owner
    ensures SubBooks(g, s, s3, d, x)
  {
  }

  lemma RecordLinked(g: Geom, s: Fs, s2: Fs, s3: Fs, d: nat, e: Entry, raw: RawInode, rd: RawInode)
    requires SizesOK(g) && SubAdded(g, s, s2, d, e, raw)
    requires RecordStep(g, s2, s3, d, rd) && SameBytes(g, s2, s3) && PtrsSame(g, s2, s3)
    requires SameBody(s2.raws[d], rd)
    ensures SubAdded(g, s, s3, d, e, raw)
  {
    assert SubBooks(g, s, s3, d, e.ino) by { BooksSame(g, s, s2, s3, d, e.ino); }
    SubLinked(g, s, s2, s3, d, e, raw, rd);
  }

  /** A group's directory count moves and nothing else. */
  lemma BumpLinked(g: Geom, s: Fs, s3: Fs, s4: Fs, d: nat, e: Entry, raw: RawInode)
    requires SizesOK(g) && SubAdded(g, s, s3, d, e, raw) && s4.raws == s3.raws && s4.owner == s3.owner
    requires s4.m.sb == s3.m.sb
    requires UsedInodes(g, s4.m.disk) == UsedInodes(g, s3.m.disk) && SameBytes(g, s3, s4) && PtrsSame(g, s3, s4)
    ensures SubAdded(g, s, s4, d, e, raw)
  {
    SubLinked(g, s, s3, s4, d, e, raw, s3.raws[d]);
  }

  /** dir->nlink = n; ext2_write_inode */
  method SetLinks(vol: Vol, dir: Inode, n: nat, ghost dirty: set<nat>)
    requires Loaded(vol, dir) && Synced(vol.g, Snap(vol), dirty) && n < U32
    modifies vol`disk, vol`raws, dir`raw, dir`nlink
    ensures Loaded(vol, dir) && Synced(vol.g, Snap(vol), dirty)
    ensures LinksOf(dir.raw) == Low16(n) && SameBody(old(dir.raw), dir.raw)
    ensures RecordStep(vol.g, old(Snap(vol)), Snap(vol), dir.ino, dir.raw)
    ensures SameBytes(vol.g, old(Snap(vol)), Snap(vol)) && PtrsSame(vol.g, old(Snap(vol)), Snap(vol))
  {
    ghost var s := Snap(vol);
    dir.nlink := n;
    WriteInode(vol, dir);
    RecordSynced(vol.g, s, Snap(vol), dir.ino, dir.raw, dirty);
  }

  /** bg_used_dirs_count = c; ext2_flush_group_desc */
  method CountDirs(vol: Vol, grp: nat, c: nat, ghost dirty: set<nat>)
    requires FsOK(vol.g, Snap(vol)) && Synced(vol.g, Snap(vol), dirty) && grp < vol.g.groups && c < U16
    modifies vol`disk, vol`gds
    ensures FsOK(vol.g, Snap(vol)) && Synced(vol.g, Snap(vol), dirty) && Bumped(vol.g, old(vol.M()), vol.M(), grp, c)
    ensures SameBytes(vol.g, old(Snap(vol)), Snap(vol)) && PtrsSame(vol.g, old(Snap(vol)), Snap(vol))
  {
    ghost var s := Snap(vol);
    SetDirCount(vol, grp, c);
    BumpFs(vol.g, s, Snap(vol), grp, c, dirty);
  }

  /** dir->nlink++, ext2_write_inode, bg_used_dirs_count++, ext2_flush_group_desc */
  method CountSubdir(vol: Vol, dir: Inode, x: nat, ghost s: Fs, ghost e: Entry, ghost raw: RawInode,
                     ghost dirty: set<nat>)
    requires Loaded(vol, dir) && Synced(vol.g, Snap(vol), dirty) && IsIno(vol.g, x) && e.ino == x
    requires SubFiled(vol.g, s, Snap(vol), dir.ino, e, raw) && DirCounts(vol.M()) == DirCounts(s.m)
    requires LinksOf(vol.raws[dir.ino]) == LinksOf(s.raws[dir.ino]) && ModeOf(raw) / 4096 == 4 && LinksOf(raw) == 2
    modifies vol, dir
    ensures Loaded(vol, dir) && Synced(vol.g, Snap(vol), dirty)
    ensures PlantedSub(vol.g, s, Snap(vol), dir.ino, e, raw)
    ensures SubAdded(vol.g, s, old(Snap(vol)), dir.ino, e, raw) ==> MadeSub(vol.g, s, Snap(vol), dir.ino, e, raw)
  {
    hide FsOK, Synced, MadeSub, PlantedSub, SubAdded, SameBytes, PtrsSame, OneMore, Only, IsDir, ListOf, Filed,
         Displaces;
    ghost var s2 := Snap(vol);
    SameInc(dir.nlink, LinksOf(dir.raw));
    SetLinks(vol, dir, Inc(dir.nlink, U32), dirty);
    ghost var s3 := Snap(vol);
    CountOneMore(vol, x, dirty);
    CountPlanted(vol.g, s, s2, s3, Snap(vol), dir.ino, e, raw, dir.raw);
    if SubAdded(vol.g, s, s2, dir.ino, e, raw) {
      CountDone(vol.g, s, s2, s3, Snap(vol), dir.ino, e, raw, dir.raw);
    }
    assert Loaded(vol, dir) by { StillLoaded(vol.g, s3, Snap(vol), dir.ino, e.ino); }
  }

  lemma StillLoaded(g: Geom, s: Fs, s': Fs, d: nat, x: nat)
    requires OneMore(g, s, s', x)
    ensures s'.raws == s.raws
  {
  }

  /** Counting up, and cutting to 16 bits before or after. */
  lemma SameInc(n: nat, m: nat)
    requires n < U32 && m == Low16(n)
    ensures Low16(Inc(n, U32)) == Low16(Inc(m, U32))
  {
  }

  lemma CountPlanted(g: Geom, s: Fs, s2: Fs, s3: Fs, s4: Fs, d: nat, e: Entry, raw: RawInode, rd: RawInode)
    requires SubFiled(g, s, s2, d, e, raw) && DirCounts(s2.m) == DirCounts(s.m)
    requires RecordStep(g, s2, s3, d, rd) && SameBytes(g, s2, s3) && PtrsSame(g, s2, s3)
    requires SameBody(s2.raws[d], rd)
    requires LinksOf(rd) == Low16(Inc(LinksOf(s.raws[d]), U32)) && ModeOf(raw) / 4096 == 4 && LinksOf(raw) == 2
    requires OneMore(g, s3, s4, e.ino)
    ensures PlantedSub(g, s, s4, d, e, raw)
  {
    hide SubFiled, SameBytes, PtrsSame, RecordWritten;
    SubFiledIn(g, s, s2, d, e, raw);
    SubFiledOn(g, s, s2, s3, d, e, raw, rd);
    assert s4.raws == s3.raws[d := rd];
    SubFiledOn(g, s, s3, s4, d, e, raw, rd);
  }

  lemma SubFiledIn(g: Geom, s: Fs, s': Fs, d: nat, e: Entry, raw: RawInode)
    requires SubFiled(g, s, s', d, e, raw)
    ensures d in s.raws && d in s'.raws
  {
  }

  /** The directory count of x's group goes up by one, in 16 bits, and nothing else moves. */
  ghost predicate OneMore(g: Geom, s: Fs, s': Fs, x: nat)
  {
    && s'.raws == s.raws && s'.owner == s.owner && s'.m.sb == s.m.sb
    && UsedInodes(g, s'.m.disk) == UsedInodes(g, s.m.disk)
    && SameBytes(g, s, s') && PtrsSame(g, s, s')
    && InoGroup(g, x) < |DirCounts(s.m)| && DirCounts(s.m)[InoGroup(g, x)] < U16
    && DirCounts(s'.m) == DirCounts(s.m)[InoGroup(g, x) := Inc(DirCounts(s.m)[InoGroup(g, x)], U16)]
  }

  lemma CountDone(g: Geom, s: Fs, s2: Fs, s3: Fs, s4: Fs, d: nat, e: Entry, raw: RawInode, rd: RawInode)
    requires SizesOK(g) && SubAdded(g, s, s2, d, e, raw) && DirCounts(s2.m) == DirCounts(s.m)
    requires RecordStep(g, s2, s3, d, rd) && SameBytes(g, s2, s3) && PtrsSame(g, s2, s3)
    requires SameBody(s2.raws[d], rd)
    requires LinksOf(rd) == Low16(Inc(LinksOf(s.raws[d]), U32)) && ModeOf(raw) / 4096 == 4 && LinksOf(raw) == 2
    requires OneMore(g, s3, s4, e.ino)
    ensures MadeSub(g, s, s4, d, e, raw)
  {
    RecordLinked(g, s, s2, s3, d, e, raw, rd);
    BumpLinked(g, s, s3, s4, d, e, raw);
  }

  /** bg_used_dirs_count++, ext2_flush_group_desc */
  method CountOneMore(vol: Vol, x: nat, ghost dirty: set<nat>)
    requires FsOK(vol.g, Snap(vol)) && Synced(vol.g, Snap(vol), dirty) && IsIno(vol.g, x)
    modifies vol`disk, vol`gds
    ensures FsOK(vol.g, Snap(vol)) && Synced(vol.g, Snap(vol), dirty)
    ensures OneMore(vol.g, old(Snap(vol)), Snap(vol), x)
  {
    hide FsOK, Synced, SameBytes, PtrsSame, Used, UsedInodes, DiskOK, RolesOK, GeomOK, Clean, IsDir, ListOf, DirOK;
    Shape(vol.g, Snap(vol));
    InoGroupIndex(vol.g, x);
    var grp := Quot(x - 1, vol.g.ipg);
    var c := Inc(Get16(vol.gds[grp], GD_USED_DIRS), U16);
    CountDirs(vol, grp, c, dirty);
  }

  /** The second half of ext2_mkdir: the entry in the parent, or everything back. */
  method NameDirectory(vol: Vol, dir: Inode, name: Buf, x: nat, blk: nat, ghost raw: RawInode, ghost s: Fs,
                       ghost dirty: set<nat>)
    returns (ok: bool)
    requires Loaded(vol, dir) && Synced(vol.g, Snap(vol), dirty) && FsOK(vol.g, s) && Clean(vol.g, s)
    requires dir.ino in s.raws && dir.ino in UsedInodes(vol.g, s.m.disk)
    requires |name| <= 255 ==> Contained(vol.g, s, dir.ino, |name|)
    requires DirMade(vol.g, s, Snap(vol), x, blk, raw, Dots(x, dir.ino)) && ModeOf(raw) / 4096 == 4 && LinksOf(raw) == 2
    modifies vol, dir
    ensures Loaded(vol, dir) && Clean(vol.g, Snap(vol))
    ensures ok <==> CanAdd(vol.g, s, dir.ino, |name|, 1)
    ensures ok ==> PlantedSub(vol.g, s, Snap(vol), dir.ino, DirEntry(name, x), raw)
    ensures ok ==> Synced(vol.g, Snap(vol), dirty)
    ensures ok && IsDir(vol.g, s, dir.ino) && Takes(vol.g, s, dir.ino, |name|) ==>
      MadeSub(vol.g, s, Snap(vol), dir.ino, DirEntry(name, x), raw)
    ensures !ok ==> Unadded(vol.g, s, Snap(vol), dir.ino, dirty)
    ensures !ok ==> OneRoot(s.owner, vol.owner, dir.ino, Cramped(vol.g, s, dir.ino, name, 3))
  {
    hide Owns, OwnedOK, MetaOK, Synced, Clean, Unadded, SubAdded, Cramped, CanAdd, Contained, Takes, OneRoot, IsDir,
         ListOf, RecordsKept, Only, DirStep, Added, EntryPut, DirAdded, FsOK, DirMade, PlantedSub, MadeSub, Used,
         UsedInodes;
    ghost var s1, e := Snap(vol), DirEntry(name, x);
    Shape(vol.g, s);
    MadeFacts(vol.g, s, s1, x, blk, raw, Dots(x, dir.ino));
    MadeSubAdds(vol.g, s, s1, x, blk, raw, Dots(x, dir.ino), dir.ino, name);
    ok := AddDirEntry(vol, dir, name, x, FT_DIR, dirty);
    ghost var s2 := Snap(vol);
    if ok {
      SubFiledBy(vol.g, s, s1, s2, dir.ino, e, blk, raw);
      if IsDir(vol.g, s, dir.ino) && Takes(vol.g, s, dir.ino, |name|) {
        SubAddedBy(vol.g, s, s1, s2, dir.ino, e, blk, raw, dirty);
      }
      CountSubdir(vol, dir, x, s, e, raw, dirty);
      PlantedClean(vol.g, s, Snap(vol), dir.ino, e, raw);
      return;
    }
    TakeBack(vol, dir, x, blk, raw, s, s1, dirty);
    UndoneRoot(vol.g, s, s1, s2, Snap(vol), dir.ino, x, blk, Cramped(vol.g, s, dir.ino, name, 3));
  }

  lemma PlantedClean(g: Geom, s: Fs, s': Fs, d: nat, e: Entry, raw: RawInode)
    requires Clean(g, s) && d in UsedInodes(g, s.m.disk) && PlantedSub(g, s, s', d, e, raw)
    ensures Clean(g, s')
  {
    MkdirClean(g, s, s', d, e);
  }

  lemma MadeFacts(g: Geom, s: Fs, s1: Fs, x: nat, blk: nat, raw: RawInode, es: seq<Entry>)
    requires FsOK(g, s) && DirMade(g, s, s1, x, blk, raw, es)
    ensures IsIno(g, x) && x !in UsedInodes(g, s.m.disk) && 0 < x < U32 && x in s.raws
    ensures blk !in s.owner && s1.owner == s.owner[blk := Root(x, 0)]
  {
    Shape(g, s);
  }

  /** The entry did not fit: the block and the inode go back. */
  method TakeBack(vol: Vol, dir: Inode, x: nat, blk: nat, ghost raw: RawInode, ghost s: Fs, ghost s1: Fs,
                  ghost dirty: set<nat>)
    requires Loaded(vol, dir) && FsOK(vol.g, s) && Clean(vol.g, s) && dir.ino in UsedInodes(vol.g, s.m.disk)
    requires DirMade(vol.g, s, s1, x, blk, raw, Dots(x, dir.ino)) && Unadded(vol.g, s1, Snap(vol), dir.ino, dirty)
    modifies vol
    ensures Loaded(vol, dir) && Clean(vol.g, Snap(vol)) && Unadded(vol.g, s, Snap(vol), dir.ino, dirty)
    ensures vol.owner == Restrict(old(vol.owner), Others(x))
  {
    hide Owns, OwnedOK, MetaOK, Synced, Clean, IsDir, ListOf, RecordsKept, Only, OthersKept, SameFile, FsOK, Used,
         UsedInodes, DiskOK, Cleared, RolesOK, GeomOK, DirOK, PtrsSame, SameBytes, TablesSame, RecordWritten, RawByte,
         Resolve, MapEnd, Ptr;
    ghost var s2 := Snap(vol);
    Shape(vol.g, s);
    UndoDirectory(vol, x, blk, dirty + {dir.ino});
    MkdirUndone(vol.g, s, s1, s2, Snap(vol), dir.ino, x, blk, raw, Dots(x, dir.ino), dirty);
  }

  lemma UndoneRoot(g: Geom, s: Fs, s1: Fs, s2: Fs, s3: Fs, d: nat, x: nat, blk: nat, lost: bool)
    requires FsOK(g, s) && Clean(g, s) && IsIno(g, x) && x !in UsedInodes(g, s.m.disk) && x != d
    requires blk !in s.owner && s1.owner == s.owner[blk := Root(x, 0)] && OneRoot(s1.owner, s2.owner, d, lost)
    requires s3.owner == Restrict(s2.owner, Others(x))
    ensures OneRoot(s.owner, s3.owner, d, lost)
  {
    hide MetaOK, Used, UsedInodes, DiskOK, MapEnd, Ptr, IsSlot, Word, Held, Freeing;
    CleanAt(g, s, x);
    FreeOwns(g, s, x);
    if lost {
      var b: nat :| b !in s1.owner && s2.owner == s1.owner[b := Root(d, 13)];
      assert s3.owner == s.owner[b := Root(d, 13)];
    } else {
      assert s3.owner == s.owner;
    }
  }

  /** Making the directory takes one of the free blocks and leaves d as it was. */
  lemma MadeSubAdds(g: Geom, s: Fs, s1: Fs, x: nat, blk: nat, raw: RawInode, es: seq<Entry>, d: nat, name: Buf)
    requires FsOK(g, s) && FsOK(g, s1) && DirMade(g, s, s1, x, blk, raw, es) && d in UsedInodes(g, s.m.disk)
    requires d in s.raws
    ensures Cramped(g, s1, d, name, 2) <==> Cramped(g, s, d, name, 3)
    ensures CanAdd(g, s1, d, |name|, 0) <==> CanAdd(g, s, d, |name|, 1)
    ensures Contained(g, s1, d, |name|) <==> Contained(g, s, d, |name|)
    ensures Takes(g, s1, d, |name|) <==> Takes(g, s, d, |name|)
    ensures IsDir(g, s, d) ==> IsDir(g, s1, d)
  {
    hide FsOK, IsDir, ListOf, Cramped, CanAdd, Contained, Full, Only, UsedInodes, Used, RecordsKept;
    Shape(g, s);
    OnlySame(g, s, s1, {x}, d);
    CrampedSame(g, s, s1, d, name, 3, 2);
    CanAddSame(g, s, s1, {x}, d, |name|, 1, 0);
    FullSame(g, s, s1, d, |name|);
    if IsDir(g, s, d) { OtherDir(g, s, s1, {x}, d); }
  }

  lemma InoFits(g: Geom, s: Fs, d: nat)
    requires FsOK(g, s) && d in s.raws
    ensures 0 < d < U32
  {
  }

  lemma QuietClean(g: Geom, s: Fs, s': Fs)
    requires Clean(g, s) && s'.raws == s.raws && SameBooks(g, s.m, s'.m)
    ensures Clean(g, s')
  {
  }

  method StartDirectory(vol: Vol, dir: Inode, mode: nat, ghost dirty: set<nat>) returns (x: nat, blk: nat)
    requires DirOpen(vol, dir, dirty)
    modifies vol
    ensures Loaded(vol, dir) && Synced(vol.g, Snap(vol), dirty)
    ensures x == 0 ==> Unadded(vol.g, old(Snap(vol)), Snap(vol), dir.ino, dirty) && Clean(vol.g, Snap(vol))
    ensures x == 0 ==> vol.owner == old(vol.owner)
    ensures x == 0 ==> (!HasInode(vol.g, old(Snap(vol))) || FreeBlocksOf(old(vol.M())) == 0)
    ensures x != 0 ==> HasInode(vol.g, old(Snap(vol))) && blk < U32
    ensures x != 0 ==>
      DirMade(vol.g, old(Snap(vol)), Snap(vol), x, blk, DirRecord(mode, vol.g.bs, blk), Dots(x, dir.ino))
  {
    hide FsOK, Synced, IsDir, ListOf, Unadded, SameBooks, TablesSame, SameBytes, PtrsSame, Only, Clean, RecordsKept;
    ghost var s := Snap(vol);
    InoFits(vol.g, s, dir.ino);
    x, blk := NewDirectory(vol, dir.ino, mode, dirty);
    if x == 0 {
      QuietUnadded(vol.g, s, Snap(vol), dir.ino, dirty);
      QuietClean(vol.g, s, Snap(vol));
    } else {
      assert x != dir.ino && vol.raws[dir.ino] == s.raws[dir.ino];
    }
  }

  /** ext2_mkdir: a fresh directory holding "." and ".." under a new name, counted in the
      parent's links and in its group; when the entry does not fit, block and inode go back. Nothing
      asks whether the parent is a directory. */
  method Mkdir(vol: Vol, dir: Inode, name: Buf, mode: nat, ghost dirty: set<nat>)
    returns (ok: bool, x: nat, ghost raw: RawInode)
    requires DirOpen(vol, dir, dirty)
    requires |name| <= 255 ==> Contained(vol.g, Snap(vol), dir.ino, |name|)
    modifies vol, dir
    ensures Loaded(vol, dir) && Clean(vol.g, Snap(vol))
    ensures ok <==> CanMkdir(vol.g, old(Snap(vol)), dir.ino, name)
    ensures ok ==> PlantedSub(vol.g, old(Snap(vol)), Snap(vol), dir.ino, DirEntry(name, x), raw)
    ensures ok ==> Synced(vol.g, Snap(vol), dirty) && Born(raw, TYPE_DIR, mode, 2, vol.g.bs, vol.g.bs / 512)
    ensures ok && IsDir(vol.g, old(Snap(vol)), dir.ino) && Takes(vol.g, old(Snap(vol)), dir.ino, |name|) ==>
      MadeSub(vol.g, old(Snap(vol)), Snap(vol), dir.ino, DirEntry(name, x), raw)
    ensures !ok ==> Unadded(vol.g, old(Snap(vol)), Snap(vol), dir.ino, dirty)
    ensures !ok ==> OneRoot(old(vol.owner), vol.owner, dir.ino, MkdirLoses(vol.g, old(Snap(vol)), dir.ino, name))
  {
    hide FsOK, Synced, IsDir, ListOf, Clean, DirMade, MadeSub, PlantedSub, Unadded, OneRoot, HasInode, Full, Contained,
         Takes, Missing, UsedInodes;
    ghost var s := Snap(vol);
    Shape(vol.g, s);
    var blk;
    x, blk := StartDirectory(vol, dir, mode, dirty);
    if x == 0 {
      NothingGained(s.owner, dir.ino);
      return false, 0, [];
    }
    raw := DirRecord(mode, vol.g.bs, blk);
    ok := NameDirectory(vol, dir, name, x, blk, raw, s, dirty);
  }

  /** What a mkdir needs: an inode, a block for itself, and what the entry takes. */
  ghost predicate CanMkdir(g: Geom, s: Fs, d: nat, name: Buf) { HasInode(g, s) && CanAdd(g, s, d, |name|, 1) }

  /** The same loss as in a create, one block later: mkdir has taken a block of its own. */
  ghost predicate MkdirLoses(g: Geom, s: Fs, d: nat, name: Buf) { HasInode(g, s) && Cramped(g, s, d, name, 3) }

  // ----- rmdir -----

  /** The inner loop of the emptiness check. */
  method CountInBlock(b: Buf) returns (n: nat)
    requires Chain(b)
    ensures n == |Entries(b)|
  {
    hide Reached, Chain, Flat, AllRecs, Live, Parse, Entries;
    var off := 0;
    n := 0;
    ghost var done: seq<Buf> := [];
    AtStart(b, []);
    while off < |b|
      invariant off <= |b| && Reached(b, off, done) && n == |Live(done)|
      decreases |b| - off
    {
      Step(b, off, done);
      ghost var c := b[off..off + RecLen(b[off..])];
      LiveConcat(done, [c]);
      LiveOne(c);
      if InodeOf(b[off..]) != 0 { n := n + 1; }
      done := done + [c];
      off := off + RecLen(b[off..]);
    }
    AtEnd(b, done);
  }

  lemma CatNone(ls: seq<seq<Entry>>)
    requires ls == []
    ensures Cat(ls) == []
  {
  }

  lemma CatMore(ls: seq<seq<Entry>>, b: nat)
    requires b < |ls|
    ensures |Cat(ls[..b + 1])| == |Cat(ls[..b])| + |ls[b]|
  {
    assert ls[..b + 1][..b] == ls[..b];
  }

  /** How many live entries directory `dir` holds. */
  method CountEntries(vol: Vol, dir: Inode) returns (n: nat)
    requires Readable(vol, dir) && dir.size == SizeOf(dir.raw) && IsDir(vol.g, Snap(vol), dir.ino)
    ensures n == |ListOf(vol.g, Snap(vol), dir.ino)|
  {
    hide Owns, DirOK, BlockList, Cat, Resolve, DiskOK, Entries, Chain, BlockBytes;
    var nb := BlockCount(dir.size, vol.g.bs);
    ghost var ls := Lists(V(vol.g, Snap(vol)), dir.ino, nb);
    var b := 0;
    n := 0;
    CatNone(ls[..0]);
    while b < nb
      invariant b <= nb && n == |Cat(ls[..b])|
    {
      CatMore(ls, b);
      var phys := BlockOf(vol, dir, b);
      if phys != 0 {
        ChainAt(vol.g, Snap(vol), dir.ino, b);
        var k := CountInBlock(vol.disk[phys]);
        n := n + k;
      }
      b := b + 1;
    }
    assert ls[..nb] == ls;
  }

  /** Everything ext2_rmdir does: the name and the directory x it named are gone. */
  ghost predicate RemovedSub(g: Geom, s: Fs, s': Fs, d: nat, name: Buf, x: nat)
  {
    && x in s.raws && d in s.raws && d in s'.raws && x != d && Only(g, s, s', {d, x})
    && IsDir(g, s', d) && Removed(ListOf(g, s, d), ListOf(g, s', d), name)
    && SameBody(s.raws[d], s'.raws[d]) && LinksOf(s'.raws[d]) == Low16(Dec32(LinksOf(s.raws[d])))
    && Erased(g, s, s', x)
    && InoGroup(g, x) < |DirCounts(s.m)|
    && DirCounts(s'.m) == DirCounts(s.m)[InoGroup(g, x) := Less(DirCounts(s.m)[InoGroup(g, x)])]
  }

  /** if (n > 0) n-- */
  function Less(n: nat): nat { if n > 0 then n - 1 else 0 }

  /** Everything but the group's directory count. */
  ghost predicate SubErased(g: Geom, s: Fs, s': Fs, d: nat, name: Buf, x: nat)
  {
    && x in s.raws && d in s.raws && d in s'.raws && x != d && Only(g, s, s', {d, x})
    && IsDir(g, s', d) && Removed(ListOf(g, s, d), ListOf(g, s', d), name)
    && SameBody(s.raws[d], s'.raws[d]) && LinksOf(s'.raws[d]) == Low16(Dec32(LinksOf(s.raws[d])))
    && Erased(g, s, s', x)
  }

  /** The name is gone and d's record rewritten; the directory it named is still there. */
  ghost predicate NameGone(g: Geom, s: Fs, s': Fs, d: nat, name: Buf)
  {
    && d in s.raws && d in s'.raws && Only(g, s, s', {d}) && s'.owner == s.owner && SameCounts(g, s.m, s'.m)
    && IsDir(g, s', d) && Removed(ListOf(g, s, d), ListOf(g, s', d), name)
    && SameBody(s.raws[d], s'.raws[d]) && LinksOf(s'.raws[d]) == Low16(Dec32(LinksOf(s.raws[d])))
  }

  lemma NameGoneBy(g: Geom, s: Fs, s1: Fs, s2: Fs, d: nat, name: Buf, rd: RawInode)
    requires SizesOK(g) && OnlyDisk(s, s1) && IsDir(g, s1, d) && DirStep(g, s, s1, d)
    requires Removed(ListOf(g, s, d), ListOf(g, s1, d), name)
    requires RecordStep(g, s1, s2, d, rd) && SameBytes(g, s1, s2) && PtrsSame(g, s1, s2)
    requires SameBody(s.raws[d], rd)
    requires LinksOf(rd) == Low16(Dec32(LinksOf(s.raws[d])))
    ensures NameGone(g, s, s2, d, name)
  {
    assert Only(g, s, s2, {d}) by {
      QuietOnly(g, s1, s2, d, rd);
      DirStepOnly(g, s, s1, d);
      OnlyTrans(g, s, s1, s2, {d}, {d}, {d});
    }
    assert IsDir(g, s2, d) && ListOf(g, s2, d) == ListOf(g, s1, d) by { RecordDir(g, s1, s2, d, NBlocks(g, s1, d)); }
    assert SameCounts(g, s.m, s2.m);
  }

  lemma SubErasedBy(g: Geom, s: Fs, s2: Fs, s3: Fs, d: nat, name: Buf, x: nat)
    requires SizesOK(g) && x != d && NameGone(g, s, s2, d, name) && Deleted(g, s2, s3, x)
    ensures SubErased(g, s, s3, d, name, x) && DirCounts(s3.m) == DirCounts(s.m)
  {
    assert Only(g, s2, s3, {x}) by { DeletedOnly(g, s2, s3, x); }
    assert IsDir(g, s3, d) && ListOf(g, s3, d) == ListOf(g, s2, d) by { OtherDir(g, s2, s3, {x}, d); }
    assert Only(g, s, s3, {d, x}) by { OnlyTrans(g, s, s2, s3, {d}, {x}, {d, x}); }
    assert Erased(g, s, s3, x);
  }

  /** The directory count of x's group goes down by one unless it is 0, and nothing else moves. */
  ghost predicate OneLess(g: Geom, s: Fs, s': Fs, x: nat)
  {
    && s'.raws == s.raws && s'.owner == s.owner && s'.m.sb == s.m.sb
    && UsedInodes(g, s'.m.disk) == UsedInodes(g, s.m.disk)
    && SameBytes(g, s, s') && PtrsSame(g, s, s')
    && InoGroup(g, x) < |DirCounts(s.m)|
    && DirCounts(s'.m) == DirCounts(s.m)[InoGroup(g, x) := Less(DirCounts(s.m)[InoGroup(g, x)])]
  }

  /** bg_used_dirs_count--, ext2_flush_group_desc */
  method CountOneLess(vol: Vol, x: nat, ghost dirty: set<nat>)
    requires FsOK(vol.g, Snap(vol)) && Synced(vol.g, Snap(vol), dirty) && IsIno(vol.g, x)
    modifies vol`disk, vol`gds
    ensures FsOK(vol.g, Snap(vol)) && Synced(vol.g, Snap(vol), dirty)
    ensures OneLess(vol.g, old(Snap(vol)), Snap(vol), x)
  {
    hide FsOK, Synced, SameBytes, PtrsSame, RolesOK, GeomOK, Clean, IsDir, ListOf, DirOK;
    Shape(vol.g, Snap(vol));
    InoGroupIndex(vol.g, x);
    var grp := Quot(x - 1, vol.g.ipg);
    var c := Less(Get16(vol.gds[grp], GD_USED_DIRS));
    CountDirs(vol, grp, c, dirty);
  }

  lemma RmdirDone(g: Geom, s: Fs, s3: Fs, s4: Fs, d: nat, name: Buf, x: nat)
    requires SizesOK(g) && SubErased(g, s, s3, d, name, x) && DirCounts(s3.m) == DirCounts(s.m) && OneLess(g, s3, s4, x)
    ensures RemovedSub(g, s, s4, d, name, x)
  {
    assert Only(g, s3, s4, {d}) by { QuietOnly(g, s3, s4, d, s3.raws[d]); }
    assert IsDir(g, s4, d) && ListOf(g, s4, d) == ListOf(g, s3, d) by { RecordDir(g, s3, s4, d, NBlocks(g, s3, d)); }
    assert Only(g, s, s4, {d, x}) by { OnlyTrans(g, s, s3, s4, {d, x}, {d}, {d, x}); }
  }

  lemma RmdirClean(g: Geom, s: Fs, s': Fs, d: nat, name: Buf, x: nat)
    requires Clean(g, s) && RemovedSub(g, s, s', d, name, x) && d in UsedInodes(g, s.m.disk)
    requires x in UsedInodes(g, s.m.disk)
    ensures Clean(g, s')
  {
  }

  /** The entry goes, and with it the parent's link from "..". */
  method EraseEntry(vol: Vol, dir: Inode, name: Buf, ghost dirty: set<nat>)
    requires DirOpen(vol, dir, dirty) && IsDir(vol.g, Snap(vol), dir.ino)
    requires !Absent(ListOf(vol.g, Snap(vol), dir.ino), name)
    modifies vol`disk, vol`raws, dir`raw, dir`nlink
    ensures Loaded(vol, dir) && Synced(vol.g, Snap(vol), dirty)
    ensures NameGone(vol.g, old(Snap(vol)), Snap(vol), dir.ino, name)
  {
    hide FsOK, Synced, IsDir, ListOf, Removed, RecordStep, SameBytes, PtrsSame, NameGone, Clean;
    ghost var s := Snap(vol);
    var _ := RemoveDirEntry(vol, dir, name, dirty);
    ghost var s1 := Snap(vol);
    SameDec(dir.nlink, LinksOf(dir.raw));
    SetLinks(vol, dir, Dec32(dir.nlink), dirty);
    NameGoneBy(vol.g, s, s1, Snap(vol), dir.ino, name, dir.raw);
  }

  lemma SameDec(n: nat, m: nat)
    requires n < U32 && m == Low16(n)
    ensures Low16(Dec32(n)) == Low16(Dec32(m))
  {
  }

  /** From the removal of the entry on. */
  method EraseSubdir(vol: Vol, dir: Inode, target: Inode, name: Buf, ghost dirty: set<nat>)
    requires DirOpen(vol, dir, dirty) && Loaded(vol, target) && target.ino in UsedInodes(vol.g, vol.disk)
    requires target.ino != dir.ino && target != dir && IsDir(vol.g, Snap(vol), dir.ino)
    requires !Absent(ListOf(vol.g, Snap(vol), dir.ino), name)
    modifies vol, dir, target
    ensures Loaded(vol, dir) && Synced(vol.g, Snap(vol), dirty)
    ensures SubErased(vol.g, old(Snap(vol)), Snap(vol), dir.ino, name, target.ino)
    ensures DirCounts(vol.M()) == DirCounts(old(vol.M()))
  {
    hide FsOK, Synced, Clean, IsDir, ListOf, Only, SubErased, Deleted, Removed, Used, UsedInodes, MetaOK, Owns, OwnedOK;
    ghost var s := Snap(vol);
    EraseEntry(vol, dir, name, dirty);
    ghost var s2 := Snap(vol);
    Shape(vol.g, s);
    OnlyKeys(vol.g, s, s2, {dir.ino});
    SyncedMore(vol.g, s2, dirty, target.ino);
    DeleteInode(vol, target, dirty);
    DeletedOnly(vol.g, s2, Snap(vol), target.ino);
    OnlyKeys(vol.g, s2, Snap(vol), {target.ino});
    SubErasedBy(vol.g, s, s2, Snap(vol), dir.ino, name, target.ino);
  }

  method RemoveSubdir(vol: Vol, dir: Inode, target: Inode, name: Buf, ghost dirty: set<nat>)
    requires DirOpen(vol, dir, dirty) && Loaded(vol, target) && target.ino in UsedInodes(vol.g, vol.disk)
    requires target.ino != dir.ino && target != dir && IsDir(vol.g, Snap(vol), dir.ino)
    requires !Absent(ListOf(vol.g, Snap(vol), dir.ino), name)
    modifies vol, dir, target
    ensures Loaded(vol, dir) && Synced(vol.g, Snap(vol), dirty) && Clean(vol.g, Snap(vol))
    ensures RemovedSub(vol.g, old(Snap(vol)), Snap(vol), dir.ino, name, target.ino)
  {
    hide FsOK, Synced, Clean, IsDir, ListOf, Only, SubErased, RemovedSub, Removed, Used, UsedInodes, MetaOK, Owns,
         OwnedOK, SameBytes, PtrsSame;
    ghost var s := Snap(vol);
    Shape(vol.g, s);
    EraseSubdir(vol, dir, target, name, dirty);
    ghost var s3 := Snap(vol);
    CountOneLess(vol, target.ino, dirty);
    RmdirDone(vol.g, s, s3, Snap(vol), dir.ino, name, target.ino);
    RmdirClean(vol.g, s, Snap(vol), dir.ino, name, target.ino);
  }

  /** ext2_rmdir: only a directory with at most two entries goes. */
  method Rmdir(vol: Vol, dir: Inode, name: Buf, ghost dirty: set<nat>) returns (ok: bool)
    requires DirOpen(vol, dir, dirty)
    requires IsDirMode(dir.mode) ==>
      IsDir(vol.g, Snap(vol), dir.ino) && TargetOK(vol.g, Snap(vol), dir.ino, name, dirty)
    modifies vol, dir
    ensures Loaded(vol, dir) && Synced(vol.g, Snap(vol), dirty) && Clean(vol.g, Snap(vol))
    ensures ok <==> IsDirMode(old(dir.mode)) && CanRmdir(vol.g, old(Snap(vol)), dir.ino, name)
    ensures !ok ==> Snap(vol) == old(Snap(vol))
    ensures ok ==>
      RemovedSub(vol.g, old(Snap(vol)), Snap(vol), dir.ino, name, TargetOf(vol.g, old(Snap(vol)), dir.ino, name))
  {
    hide Synced, Clean, RemovedSub;
    ghost var s := Snap(vol);
    var found, e := FindDirEntry(vol, dir, name);
    if !found { return false; }
    var target := ReadInode(vol, e.ino, dirty);
    if !IsDirMode(target.mode) { return false; }
    var n := CountEntries(vol, target);
    if n > 2 { return false; }
    RemoveSubdir(vol, dir, target, name, dirty);
    return true;
  }

  ghost predicate CanRmdir(g: Geom, s: Fs, d: nat, name: Buf)
  {
    NamesDir(g, s, d, name) && |ListOf(g, s, TargetOf(g, s, d, name))| <= 2
  }
}
