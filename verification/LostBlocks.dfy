/** Sound volumes on which adding a name to a directory goes wrong. The directory "x" below the root
    has one full block and a size that says it has many more, all of them holes. */
module LostBlocks {
  import opened Words
  import opened Bytes
  import opened Arith
  import opened BlockTree
  import opened Layout
  import opened Metadata
  import opened FsState
  import opened BlockMap
  import opened InodeTable
  import opened FileData
  import opened FileOps
  import opened Truncate
  import opened EntryLists
  import opened DirBlock
  import opened Directory
  import opened DirOps
  import opened DirAdd
  import opened NameOps
  import opened SubDirs
  import opened Tree
  import opened Runs
  import opened Soundness
  import opened Histories
  import opened Sample
  import opened SampleTree

  // ----- its one block: records of 256 bytes, none with room for a name of 255 -----

  function Dead(n: nat): (cs: seq<Buf>)
    ensures |cs| == n && forall k :: 0 <= k < n ==> cs[k] == Rec(256, 0, 0, [])
  {
    seq(n, k requires k >= 0 => Rec(256, 0, 0, []))
  }

  function FullRecs(bs: nat): (cs: seq<Buf>)
    requires bs in {1024, 4096}
    ensures |cs| == bs / 256
  {
    [Rec(256, 3, FT_DIR, DOT_NAME), Rec(256, 2, FT_DIR, DOTDOT_NAME)] + Dead(bs / 256 - 2)
  }

  function FullBlock(bs: nat): Buf
    requires bs in {1024, 4096}
  {
    Flat(FullRecs(bs))
  }

  lemma {:induction false} FlatEven(cs: seq<Buf>)
    requires forall k :: 0 <= k < |cs| ==> |cs[k]| == 256
    ensures |Flat(cs)| == 256 * |cs|
  {
    if cs != [] { FlatEven(cs[1..]); }
  }

  lemma {:induction false} LiveDead(cs: seq<Buf>)
    requires forall k :: 0 <= k < |cs| ==> InodeOf(cs[k]) == 0
    ensures Live(cs) == []
  {
    if cs != [] { LiveDead(cs[1..]); }
  }

  lemma FullBlockIs(bs: nat)
    requires bs in {1024, 4096}
    ensures |FullBlock(bs)| == bs && Chain(FullBlock(bs)) && Entries(FullBlock(bs)) == Dots(3, 2)
    ensures NoRoom(Parse(FullBlock(bs)), Need(255))
  {
    hide Chain, Parse, Flat, Live, Rec;
    var cs := FullRecs(bs);
    FlatEven(cs);
    assert AllRecs(cs);
    assert Chain([]) && Parse([]) == [] by { EmptyBlock(); }
    ParseFlat(cs, []);
    assert Flat(cs) + [] == Flat(cs) && cs + [] == cs;
    LiveFull(bs);
  }

  lemma LiveFull(bs: nat)
    requires bs in {1024, 4096}
    ensures Live(FullRecs(bs)) == Dots(3, 2)
  {
    hide Rec;
    var two := [Rec(256, 3, FT_DIR, DOT_NAME), Rec(256, 2, FT_DIR, DOTDOT_NAME)];
    LiveConcat(two, Dead(bs / 256 - 2));
    LiveDead(Dead(bs / 256 - 2));
    LiveTwo(two[0], two[1]);
    LiveOne(two[0]);
    LiveOne(two[1]);
  }

  // ----- a volume where "x" is n blocks long by its size, with `free` blocks left -----

  predicate Tightly(bs: nat, n: nat) { (bs == 1024 && n == 268) || (bs == 4096 && n == 1048575) }

  function XRecord(bs: nat, n: nat): (r: RawInode)
    requires Tightly(bs, n)
    ensures |r| == 128 && IsDirMode(ModeOf(r)) && SizeOf(r) == n * bs
    ensures forall w: nat :: IBLOCK_WORD <= w < IBLOCK_WORD + 15 ==>
      Word(r, w) == if w == IBLOCK_WORD then Front(bs) + 6 else 0
  {
    Pointing(0x4000, 2, n * bs, Front(bs) + 6)
  }

  function TightKit(bs: nat, n: nat, free: nat): Kit
    requires Tightly(bs, n) && free <= 3
  {
    Kit(bs, free + 2, 2, 2, XRecord(bs, n), FT_DIR, TightData(bs, free),
        map[Front(bs) + 5 := Root(2, 0), Front(bs) + 6 := Root(3, 0)])
  }

  function TightData(bs: nat, free: nat): (data: seq<Block>)
    requires bs in {1024, 4096}
    ensures |data| == free + 2 && data[0] == RootBlock(bs, FT_DIR) && data[1] == FullBlock(bs)
    ensures forall k :: 2 <= k < free + 2 ==> data[k] == Zeros(bs)
  {
    [RootBlock(bs, FT_DIR), FullBlock(bs)] + seq(free, k => Zeros(bs))
  }

  lemma TightKitOK(bs: nat, n: nat, free: nat)
    requires Tightly(bs, n) && free <= 3
    ensures KitOK(TightKit(bs, n, free))
  {
    hide RootBlock, FullBlock, TightData, Put16, Need, Low16;
    RootBlockIs(bs, FT_DIR);
    FullBlockIs(bs);
    var data := TightData(bs, free);
    forall k | 0 <= k < |data| ensures |data[k]| == bs { assert k >= 2 ==> data[k] == Zeros(bs); }
  }

  /** What the volume looks like */
  ghost predicate Sparse(v: View, n: nat)
  {
    && Tightly(v.bs, n) && Grounded(v, XRecord(v.bs, n), FT_DIR)
    && |v.disk| > Front(v.bs) + 6 && v.disk[Front(v.bs) + 6] == FullBlock(v.bs)
  }

  lemma TightSparse(bs: nat, n: nat, free: nat)
    requires Tightly(bs, n) && free <= 3 && KitOK(TightKit(bs, n, free))
    ensures Sparse(V(G(TightKit(bs, n, free)), S(TightKit(bs, n, free))), n)
  {
    hide RootRecord, Head, RootBlock, FullBlock, XRecord, Grounded;
    var k := TightKit(bs, n, free);
    KitGrounded(k);
    assert S(k).m.disk[Front(bs) + 5 + 1] == k.data[1];
  }

  lemma {:induction false} XPointers(v: View, n: nat, t: Slot)
    requires Sparse(v, n) && IsSlot(v, t)
    ensures Ptr(v, t) == if t == Root(2, 0) then Front(v.bs) + 5 else if t == Root(3, 0) then Front(v.bs) + 6 else 0
  {
    hide XRecord, FullBlock, RootRecord, RootBlock;
    if Ino(t) != 3 {
      RootPointers(v, XRecord(v.bs, n), FT_DIR, t);
    } else if t.Child? {
      XPointers(v, n, t.up);
    }
  }

  lemma SparseOwns(v: View, n: nat)
    requires Sparse(v, n)
    ensures Owns(v, map[Front(v.bs) + 5 := Root(2, 0), Front(v.bs) + 6 := Root(3, 0)])
  {
    hide XRecord, FullBlock, RootRecord, RootBlock, Ptr;
    assert IsSlot(v, Root(2, 0)) && IsSlot(v, Root(3, 0));
    forall t | IsSlot(v, t)
      ensures Ptr(v, t) == if t == Root(2, 0) then Front(v.bs) + 5 else if t == Root(3, 0) then Front(v.bs) + 6 else 0
    {
      XPointers(v, n, t);
    }
  }

  lemma SparseSize(v: View, n: nat)
    requires Sparse(v, n)
    ensures Tightly(v.bs, n) && 3 in v.raws && v.raws[3] == XRecord(v.bs, n) && Ptrs(v) == v.bs / 4
    ensures n < MapEnd(v.bs / 4) && Times(n, v.bs) == n * v.bs && BlockCount(n * v.bs, v.bs) == n
    ensures InDouble(v.bs / 4, n)
  {
    hide XRecord, FullBlock, RootRecord, RootBlock;
    if v.bs == 1024 { Sizes1024(); } else { Sizes4096(); }
  }

  lemma Sizes1024()
    ensures Times(268, 1024) == 268 * 1024 && BlockCount(268 * 1024, 1024) == 268
    ensures InDouble(256, 268) && 268 < MapEnd(256)
  {
    TimesIs(268, 1024);
    QuotIs(268 * 1024 + 1023, 1024);
    TimesIs(256, 256);
  }

  lemma Sizes4096()
    ensures Times(1048575, 4096) == 1048575 * 4096 && BlockCount(1048575 * 4096, 4096) == 1048575
    ensures InDouble(1024, 1048575) && 1048575 < MapEnd(1024)
  {
    TimesIs(1048575, 4096);
    QuotIs(1048575 * 4096 + 4095, 4096);
    TimesIs(1024, 1024);
  }

  lemma XMap(v: View, n: nat, l: nat)
    requires Sparse(v, n) && l < MapEnd(v.bs / 4)
    ensures Resolve(v, 3, l) == if l == 0 then Front(v.bs) + 6 else 0
  {
    hide Sparse, MapEnd, Ptr, IsSlot;
    SparseSize(v, n);
    DataSlotIs(v, 3, l);
    XPointers(v, n, DataSlot(v.bs / 4, 3, l));
    if DataSlot(v.bs / 4, 3, l) == Root(3, 0) { DataSlotInjective(v.bs / 4, 3, l, 3, 0); }
  }

  lemma XFirst(v: View, n: nat)
    requires Sparse(v, n)
    ensures BlockBytes(v, 3, 0) == FullBlock(v.bs)
  {
    hide Grounded, XRecord, FullBlock, BlockBytes, Resolve, MapEnd, InDouble;
    SparseSize(v, n);
    XMap(v, n, 0);
    FullBlockIs(v.bs);
    MappedBlock(v, 3, 0);
  }

  lemma XList(v: View, n: nat)
    requires Sparse(v, n)
    ensures DirList(v, 3, n) == Dots(3, 2)
  {
    hide Sparse, FullBlock, Entries, BlockBytes, MapEnd, Resolve, Cat, InDouble;
    SparseSize(v, n);
    var ls := Lists(v, 3, n);
    forall l | 0 < l < |ls| ensures ls[l] == [] {
      XMap(v, n, l);
      HoleList(v, 3, l);
    }
    CatHead(ls);
    XFirst(v, n);
    FullBlockIs(v.bs);
  }

  lemma XDir(v: View, n: nat)
    requires Sparse(v, n)
    ensures DirOK(v, 3, n)
  {
    hide Sparse, FullBlock, Chain, BlockBytes, MapEnd, Resolve, InDouble;
    SparseSize(v, n);
    forall l: nat | l < MapEnd(v.bs / 4) ensures Resolve(v, 3, l) == if l == 0 then Front(v.bs) + 6 else 0 {
      XMap(v, n, l);
    }
    XFirst(v, n);
    FullBlockIs(v.bs);
  }

  lemma TightSound(bs: nat, n: nat, free: nat)
    requires Tightly(bs, n) && free <= 3 && KitOK(TightKit(bs, n, free))
    ensures Sound3(TightKit(bs, n, free)) && NBlocks(G(TightKit(bs, n, free)), S(TightKit(bs, n, free)), 3) == n
  {
    hide Sparse, Owns, DirOK, DirList, RootBlock, FullBlock, Image, MapEnd, InDouble, RootRecord;
    var k := TightKit(bs, n, free);
    var v := V(G(k), S(k));
    TightSparse(bs, n, free);
    SparseSize(v, n);
    SparseOwns(v, n);
    XDir(v, n);
    XList(v, n);
  }

  /** No block of "x" has room for a name of 255 bytes, and the next one is the first behind double
      indirection. */
  lemma TightFull(bs: nat, n: nat, free: nat)
    requires Tightly(bs, n) && free <= 3 && KitOK(TightKit(bs, n, free)) && Sound3(TightKit(bs, n, free))
    ensures var g, s := G(TightKit(bs, n, free)), S(TightKit(bs, n, free));
            && Full(g, s, 3, 255) && NBlocks(g, s, 3) == n && InDouble(bs / 4, n) && 3 in s.raws
            && Missing(g, s, 3, n) == 2 && Word(s.raws[3], IBLOCK_WORD + 13) == 0
  {
    hide Sparse, Owns, RootBlock, FullBlock, Image, MapEnd, NoRoom, Parse, BlockBytes, Resolve, Need, IsDir, ListOf,
         FullAt, Fits, Filled, Splice, Put16, Low16, NameLen, RecLen, InodeOf, SpotAt, XRecord, Cleared, FsOK, MetaOK,
         OwnedOK, Used;
    var k := TightKit(bs, n, free);
    var g, s := G(k), S(k);
    TightSparse(bs, n, free);
    TightSound(bs, n, free);
    SparseSize(V(g, s), n);
    DirContained(g, s, 3, 255);
    XFirst(V(g, s), n);
    FullBlockIs(bs);
    forall j: nat | j < n ensures FullAt(g, s, 3, j, 255) { XMap(V(g, s), n, j); }
    XPointers(V(g, s), n, Root(3, 13));
  }

  /** Everything a caller may know of these volumes */
  lemma TightVol(bs: nat, n: nat, free: nat)
    requires Tightly(bs, n) && free <= 3
    ensures var k := TightKit(bs, n, free);
            && VolOK(G(k), S(k), 2) && HasInode(G(k), S(k)) && FreeBlocksOf(S(k).m) == free
            && IsDirIno(G(k), S(k), 3) && IsDir(G(k), S(k), 3) && G(k).bs == bs && SizesOK(G(k))
            && Full(G(k), S(k), 3, 255) && NBlocks(G(k), S(k), 3) == n && InDouble(bs / 4, n) && 3 in S(k).raws
            && Missing(G(k), S(k), 3, n) == 2 && Word(S(k).raws[3], IBLOCK_WORD + 13) == 0
  {
    hide VolOK, RootBlock, FullBlock, XRecord, Full, InDouble, Missing, IsDirIno, Owns, DirOK, DirList;
    var k := TightKit(bs, n, free);
    TightKitOK(bs, n, free);
    TightSound(bs, n, free);
    TightFull(bs, n, free);
    SampleVol(k);
    KitBooks(k);
    KitInos(k);
  }

  // ----- what happens there -----

  /** Two losses happen: a create that fails and loses one of the last two blocks, and a mkdir that
      fails and loses one of the last three. */
  lemma AddsCanLose(name: Buf, mode: nat)
    requires |name| == 255
    ensures var k := TightKit(1024, 268, 2);
            && VolOK(G(k), S(k), 2) && Apt(G(k), S(k), OpCreate(3, name, mode))
            && Legal(G(k), S(k), 2, OpCreate(3, name, mode)) && !Lossless(G(k), S(k), 2, OpCreate(3, name, mode))
    ensures var k := TightKit(1024, 268, 3);
            && VolOK(G(k), S(k), 2) && Apt(G(k), S(k), OpMkdir(3, name, mode))
            && Legal(G(k), S(k), 2, OpMkdir(3, name, mode)) && !Lossless(G(k), S(k), 2, OpMkdir(3, name, mode))
  {
    hide VolOK, KitOK, HasInode, IsDirIno, S, G, TightKit, Missing, Contained, Full, IsDir, UsedInodes, InDouble, Word;
    forall free: nat | free == 2 || free == 3
      ensures var k := TightKit(1024, 268, free);
              && VolOK(G(k), S(k), 2) && HasInode(G(k), S(k)) && Cramped(G(k), S(k), 3, name, free)
              && Apt(G(k), S(k), OpCreate(3, name, mode)) && Apt(G(k), S(k), OpMkdir(3, name, mode))
              && Mappable(G(k), S(k), 3, NBlocks(G(k), S(k), 3), free - 1) == false
    {
      var k := TightKit(1024, 268, free);
      TightVol(1024, 268, free);
      UsualCase(G(k), S(k), 2, 3, name, mode, [], 0);
    }
  }

  /** And a directory that grows to 4 GiB happens: the create succeeds, and whatever volume it leaves
      is not sound, for the directory has lost every entry. */
  lemma AddCanOverflow(name: Buf, mode: nat, s': Fs)
    requires |name| == 255
    ensures var k := TightKit(4096, 1048575, 3);
            && VolOK(G(k), S(k), 2) && Apt(G(k), S(k), OpCreate(3, name, mode))
            && IsDirIno(G(k), S(k), 3) && CanCreate(G(k), S(k), 3, name)
    ensures var k := TightKit(4096, 1048575, 3);
            Histories.Step(G(k), S(k), s', 2, OpCreate(3, name, mode)) ==>
              !VolOK(G(k), s', 2) && ListOf(G(k), s', 3) == []
  {
    hide VolOK, HasInode, IsDirIno, S, G, TightKit, KitOK, Missing, Contained, Full, IsDir, ListOf, Word, Planted,
         Created, FsOK, Synced, Clean;
    var k := TightKit(4096, 1048575, 3);
    TightVol(4096, 1048575, 3);
    UsualCase(G(k), S(k), 2, 3, name, mode, [], 0);
    TimesIs(1048576, 4096);
    if Histories.Step(G(k), S(k), s', 2, OpCreate(3, name, mode)) {
      var x: nat, raw: RawInode :| MadeFile(G(k), S(k), s', 3, FileEntry(name, x), raw, mode);
      CreateSound(G(k), S(k), s', 2, 3, FileEntry(name, x), raw);
      PlantedFiled(G(k), S(k), s', 3, FileEntry(name, x), raw);
      OverflowBreaks(G(k), S(k), s', 3, FileEntry(name, x));
    }
  }

  lemma PlantedFiled(g: Geom, s: Fs, s': Fs, d: nat, e: Entry, raw: RawInode)
    requires Planted(g, s, s', d, e, raw)
    ensures SizesOK(g) && 0 < e.ino < U32 && |e.name| < 256 && Filed(g, s, s', d, e)
  {
  }
}
