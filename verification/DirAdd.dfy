/** ext2/directory.c: adding an entry to an open inode. The code never asks whether it is a
    directory: whatever the blocks hold is walked as records. */
module DirAdd {
  import opened Words
  import opened Bytes
  import opened Arith
  import opened BlockTree
  import opened Layout
  import opened Metadata
  import opened Volume
  import opened FsState
  import opened BlockMap
  import opened InodeTable
  import opened FileData
  import opened FileOps
  import opened Truncate
  import opened EntryLists
  import opened DirBlock
  import opened RecordScan
  import opened Directory
  import opened DirOps

  /** From s to s' at most the files in xs changed. */
  ghost predicate Only(g: Geom, s: Fs, s': Fs, xs: set<nat>)
  {
    && s'.raws.Keys == s.raws.Keys
    && (forall i :: i in s.raws && i !in xs ==> s'.raws[i] == s.raws[i])
    && (forall i, q: nat :: i in s.raws && i !in xs && q < U32 ==> RawByte(V(g, s'), i, q) == RawByte(V(g, s), i, q))
    && (forall i, j: nat {:trigger Resolve(V(g, s'), i, j)} :: i in s.raws && i !in xs && j < MapEnd(g.bs / 4) ==>
          Resolve(V(g, s'), i, j) == Resolve(V(g, s), i, j))
    && (forall b :: b in s.owner && Ino(s.owner[b]) !in xs ==> b in s'.owner && s'.owner[b] == s.owner[b])
    && (forall b :: b in s'.owner && Ino(s'.owner[b]) !in xs ==> b in s.owner && s'.owner[b] == s.owner[b])
  }

  lemma OnlyTrans(g: Geom, s: Fs, s1: Fs, s2: Fs, xs: set<nat>, ys: set<nat>, zs: set<nat>)
    requires Only(g, s, s1, xs) && Only(g, s1, s2, ys) && xs <= zs && ys <= zs
    ensures Only(g, s, s2, zs)
  {
  }

  lemma DirStepOnly(g: Geom, s: Fs, s': Fs, d: nat)
    requires DirStep(g, s, s', d)
    ensures Only(g, s, s', {d})
  {
  }

  /** Some position of the list took the entry. */
  ghost predicate Added(es: seq<Entry>, es': seq<Entry>, e: Entry)
  {
    exists p: nat :: Inserted(es, es', p, e)
  }

  lemma BlockInserts(es: seq<seq<Entry>>, l: nat, t: seq<Entry>, e: Entry)
    requires l < |es| && Added(es[l], t, e)
    ensures Added(Cat(es), Cat(es[l := t]), e)
  {
    var k: nat :| Inserted(es[l], t, k, e);
    var p := CatInsert(es, l, t, k, e);
  }

  /** From s to s' directory d gained entry e. */
  ghost predicate DirAdded(g: Geom, s: Fs, s': Fs, d: nat, e: Entry, dirty: set<nat>)
  {
    && FsOK(g, s') && IsDir(g, s', d) && DirStep(g, s, s', d) && Synced(g, s', dirty)
    && Added(ListOf(g, s, d), ListOf(g, s', d), e)
  }

  // ----- where the entry goes -----

  /** What the walk finds in block b of file d for a name of nlen bytes. */
  ghost function SpotAt(g: Geom, s: Fs, d: nat, b: nat, nlen: nat): Spot
  {
    if Resolve(V(g, s), d, b) == 0 then NoSpot else Scan(BlockBytes(V(g, s), d, b), 0, nlen)
  }

  /** Block b is a hole or has no room for a name of nlen bytes. */
  ghost predicate FullAt(g: Geom, s: Fs, d: nat, b: nat, nlen: nat) { SpotAt(g, s, d, b, nlen) == NoSpot }

  ghost predicate FullBefore(g: Geom, s: Fs, d: nat, b: nat, nlen: nat)
  {
    forall j: nat :: j < b ==> FullAt(g, s, d, j, nlen)
  }

  ghost predicate Full(g: Geom, s: Fs, d: nat, nlen: nat) { FullBefore(g, s, d, NBlocks(g, s, d), nlen) }

  /** The walk stays inside the block buffer. */
  ghost predicate Contained(g: Geom, s: Fs, d: nat, nlen: nat)
  {
    forall b: nat :: b < NBlocks(g, s, d) && FullBefore(g, s, d, b, nlen) ==> SpotAt(g, s, d, b, nlen) != Outside
  }

  /** Block l is the first with room. */
  ghost predicate RoomAt(g: Geom, s: Fs, d: nat, l: nat, nlen: nat)
  {
    l < NBlocks(g, s, d) && FullBefore(g, s, d, l, nlen) && !FullAt(g, s, d, l, nlen)
  }

  /** Block l with the new record in its place. */
  ghost function PlacedAt(g: Geom, s: Fs, d: nat, l: nat, e: Entry): (b: Buf)
    ensures |b| == g.bs
  {
    var b := BlockBytes(V(g, s), d, l);
    var spot := Scan(b, 0, |e.name|);
    if Fits(b, spot, |e.name|) && |e.name| < 256 && e.ino < U32 then Placed(b, spot, e.name, e.ino, e.kind) else b
  }

  /** A directory's blocks are records, and the walk through records stays inside. */
  lemma DirContained(g: Geom, s: Fs, d: nat, nlen: nat)
    requires SizesOK(g) && IsDir(g, s, d) && nlen < 256
    ensures Contained(g, s, d, nlen)
    ensures forall b: nat :: b < NBlocks(g, s, d) ==>
      (FullAt(g, s, d, b, nlen) <==>
        Resolve(V(g, s), d, b) == 0 || NoRoom(Parse(BlockBytes(V(g, s), d, b)), Need(nlen)))
  {
    hide Scan, Parse, NoRoom, Chain;
    forall b: nat | b < NBlocks(g, s, d) && Resolve(V(g, s), d, b) != 0
      ensures SpotAt(g, s, d, b, nlen) != Outside
      ensures FullAt(g, s, d, b, nlen) <==> NoRoom(Parse(BlockBytes(V(g, s), d, b)), Need(nlen))
    {
      ScanRecords(BlockBytes(V(g, s), d, b), Zeros(nlen), 1, 0);
    }
  }

  lemma FullNext(g: Geom, s: Fs, d: nat, b: nat, nlen: nat)
    requires FullBefore(g, s, d, b, nlen) && FullAt(g, s, d, b, nlen)
    ensures FullBefore(g, s, d, b + 1, nlen)
  {
  }

  // ----- in a block that has room -----

  /** From s to s' the entry went into block l, the first with room. */
  ghost predicate PutAt(g: Geom, s: Fs, s': Fs, d: nat, l: nat, e: Entry)
  {
    RoomAt(g, s, d, l, |e.name|) && s'.raws == s.raws &&
    PartDone(g, s, s', d, Times(l, g.bs), PlacedAt(g, s, d, l, e), true)
  }

  /** One turn of the outer loop of ext2_add_dir_entry. */
  method AddAt(vol: Vol, dir: Inode, b: nat, name: Buf, ino: nat, kind: Byte, ghost dirty: set<nat>) returns (ok: bool)
    requires FsOK(vol.g, Snap(vol)) && dir.ino in vol.raws && vol.raws[dir.ino] == dir.raw
    requires Synced(vol.g, Snap(vol), dirty) && b < NBlocks(vol.g, Snap(vol), dir.ino)
    requires ino < U32 && |name| < 256 && SpotAt(vol.g, Snap(vol), dir.ino, b, |name|) != Outside
    requires FullBefore(vol.g, Snap(vol), dir.ino, b, |name|)
    modifies vol`disk
    ensures !ok ==> vol.disk == old(vol.disk)
    ensures ok ==> FsOK(vol.g, Snap(vol)) && Synced(vol.g, Snap(vol), dirty)
    ensures ok ==> PutAt(vol.g, old(Snap(vol)), Snap(vol), dir.ino, b, Entry(name, ino, kind))
    ensures ok <==> !FullAt(vol.g, old(Snap(vol)), dir.ino, b, |name|)
  {
    hide Owns, OwnedOK, Synced, Resolve, Scan, Placed, PartDone, FullBefore, Fits;
    var phys := BlockOf(vol, dir, b);
    if phys == 0 { return false; }
    var blk;
    ok, blk := AddInBlock(vol.disk[phys], name, ino, kind);
    if ok {
      StoreBlock(vol, dir, b, phys, blk, dirty);
    }
  }

  /** The outer loop of ext2_add_dir_entry: the first block with room takes the entry. */
  method AddInPlace(vol: Vol, dir: Inode, name: Buf, ino: nat, kind: Byte, ghost dirty: set<nat>)
    returns (ok: bool, ghost l: nat)
    requires FsOK(vol.g, Snap(vol)) && dir.ino in vol.raws && vol.raws[dir.ino] == dir.raw
    requires Synced(vol.g, Snap(vol), dirty) && dir.size == SizeOf(dir.raw)
    requires ino < U32 && |name| < 256 && Contained(vol.g, Snap(vol), dir.ino, |name|)
    modifies vol`disk
    ensures !ok ==> vol.disk == old(vol.disk)
    ensures ok ==> FsOK(vol.g, Snap(vol)) && Synced(vol.g, Snap(vol), dirty)
    ensures ok ==> PutAt(vol.g, old(Snap(vol)), Snap(vol), dir.ino, l, Entry(name, ino, kind))
    ensures ok <==> !Full(vol.g, old(Snap(vol)), dir.ino, |name|)
  {
    hide FullAt, Owns, OwnedOK, Synced, PartDone, PlacedAt, SpotAt;
    ghost var s := Snap(vol);
    var n := BlockCount(dir.size, vol.g.bs);
    var b := 0;
    ok := false;
    l := 0;
    while b < n
      invariant b <= n && vol.disk == old(vol.disk) && FullBefore(vol.g, s, dir.ino, b, |name|)
    {
      assert Snap(vol) == s;
      ok := AddAt(vol, dir, b, name, ino, kind, dirty);
      if ok { return true, b; }
      FullNext(vol.g, s, dir.ino, b, |name|);
      b := b + 1;
    }
    return false, n;
  }

  /** In a directory that is one entry more. */
  lemma PutAdds(g: Geom, s: Fs, s': Fs, d: nat, l: nat, e: Entry, dirty: set<nat>)
    requires FsOK(g, s) && FsOK(g, s') && Synced(g, s', dirty) && IsDir(g, s, d) && PutAt(g, s, s', d, l, e)
    requires 0 < e.ino < U32 && |e.name| < 256
    ensures DirAdded(g, s, s', d, e, dirty)
  {
    hide FsOK, Synced, DirStep, Scan, Placed, Parse, NoRoom, Chain, Entries, Cat, Inserted, FullBefore, Laid, MapsKept,
         Resolve, FileStep;
    Shape(g, s);
    BlockFits(g, s, d, l);
    var n, b := NBlocks(g, s, d), BlockBytes(V(g, s), d, l);
    ScanRecords(b, e.name, e.ino, e.kind);
    PartIsDirStep(g, s, s', d, Times(l, g.bs), PlacedAt(g, s, d, l, e), true);
    BlockInserts(Lists(V(g, s), d, n), l, Entries(PlacedAt(g, s, d, l, e)), e);
    DirRewritten(g, s, s', d, n, l, PlacedAt(g, s, d, l, e));
  }

  // ----- in a block of its own -----

  /** Taking block l off file d leaves every other byte and every other block where it was. */
  lemma UnhungByte(g: Geom, s: Fs, d: nat, l: nat, i: nat, q: nat)
    requires FsOK(g, s) && d in s.raws && l < MapEnd(g.bs / 4) && i in s.raws && q < U32
    requires i != d || Quot(q, g.bs) != l
    ensures RawByte(V(g, Unhung(g, s, d, l)), i, q) == RawByte(V(g, s), i, q)
  {
    hide MetaOK, OwnedOK, Used, DataSlot, Quot, Rem;
    Shape(g, s);
    PosInMap(g.bs, q);
    var t, u := DataSlot(g.bs / 4, d, l), DataSlot(g.bs / 4, i, Quot(q, g.bs));
    DataSlotIs(V(g, s), d, l);
    DataSlotIs(V(g, s), i, Quot(q, g.bs));
    ClearedOK(g, s, t);
    if u == t { DataSlotInjective(g.bs / 4, i, Quot(q, g.bs), d, l); }
    if Ptr(V(g, s), t) != 0 && t.Child? { ClearedIs(g, s, t); }
  }

  lemma UnhungResolve(g: Geom, s: Fs, d: nat, l: nat, i: nat, j: nat)
    requires FsOK(g, s) && d in s.raws && l < MapEnd(g.bs / 4) && i in s.raws && j < MapEnd(g.bs / 4)
    requires i != d || j != l
    ensures Resolve(V(g, Unhung(g, s, d, l)), i, j) == Resolve(V(g, s), i, j)
  {
    hide MetaOK, OwnedOK, Used, DataSlot, Owns;
    Shape(g, s);
    var t, u := DataSlot(g.bs / 4, d, l), DataSlot(g.bs / 4, i, j);
    DataSlotIs(V(g, s), d, l);
    DataSlotIs(V(g, s), i, j);
    ClearedOK(g, s, t);
    if u == t { DataSlotInjective(g.bs / 4, i, j, d, l); }
  }

  lemma UnhungMeta(g: Geom, s: Fs, d: nat, l: nat)
    requires FsOK(g, s) && d in s.raws && l < MapEnd(g.bs / 4)
    ensures var c := Unhung(g, s, d, l);
            && c.m == s.m.(disk := c.m.disk) && TablesSame(g, s.m.disk, c.m.disk)
            && Used(g, c.m.disk) == Used(g, s.m.disk) && UsedInodes(g, c.m.disk) == UsedInodes(g, s.m.disk)
            && RawsGrew(s.raws, c.raws, d)
  {
    hide MetaOK, Used, UsedInodes, DataSlot, Owns;
    Shape(g, s);
    var t := DataSlot(g.bs / 4, d, l);
    DataSlotIs(V(g, s), d, l);
    ClearedOK(g, s, t);
    if Ptr(V(g, s), t) != 0 && t.Child? {
      ClearedIs(g, s, t);
      ClearedInodes(g, s, t);
    }
  }

  /** What taking block l off file d does to the books: the block keeps its bit and loses its owner. */
  lemma UnhungBooks(g: Geom, s: Fs, d: nat, l: nat)
    requires FsOK(g, s) && d in s.raws && l < MapEnd(g.bs / 4)
    ensures var c := Unhung(g, s, d, l);
            && c.m == s.m.(disk := c.m.disk) && TablesSame(g, s.m.disk, c.m.disk)
            && Used(g, c.m.disk) == Used(g, s.m.disk) && UsedInodes(g, c.m.disk) == UsedInodes(g, s.m.disk)
            && RawsGrew(s.raws, c.raws, d)
            && |c.owner| + (if Resolve(V(g, s), d, l) != 0 then 1 else 0) == |s.owner|
            && (forall b :: b in c.owner ==> b in s.owner && c.owner[b] == s.owner[b])
            && (forall b :: b in s.owner && b !in c.owner ==> Ino(s.owner[b]) == d)
  {
    hide Used, UsedInodes, DataSlot, FsOK, TablesSame, RawsGrew, Unhung;
    Shape(g, s);
    OwnsOf(g, s);
    var t := DataSlot(g.bs / 4, d, l);
    DataSlotIs(V(g, s), d, l);
    UnhungMeta(g, s, d, l);
    if Ptr(V(g, s), t) != 0 {
      assert (s.owner - {Ptr(V(g, s), t)}).Keys == s.owner.Keys - {Ptr(V(g, s), t)};
      UnhungOwner(g, s, d, l, t);
    } else {
      UnhungOK(g, s, d, l);
    }
  }

  lemma UnhungOwner(g: Geom, s: Fs, d: nat, l: nat, t: Slot)
    requires FsOK(g, s) && IsSlot(V(g, s), t) && t == DataSlot(g.bs / 4, d, l) && Ptr(V(g, s), t) != 0
    ensures Unhung(g, s, d, l).owner == s.owner - {Ptr(V(g, s), t)}
  {
    hide MetaOK, OwnedOK, Owns, Used, DataSlot;
    if t.Child? { ClearedIs(g, s, t); }
  }

  lemma UnhungOnly(g: Geom, s: Fs, d: nat, l: nat)
    requires FsOK(g, s) && d in s.raws && l < MapEnd(g.bs / 4)
    ensures Only(g, s, Unhung(g, s, d, l), {d})
  {
    hide FsOK, Unhung, Used, UsedInodes, RawByte, Resolve;
    UnhungBooks(g, s, d, l);
    forall i, q: nat | i in s.raws && i != d && q < U32
      ensures RawByte(V(g, Unhung(g, s, d, l)), i, q) == RawByte(V(g, s), i, q)
    {
      UnhungByte(g, s, d, l, i, q);
    }
    forall i, j: nat | i in s.raws && i != d && j < MapEnd(g.bs / 4)
      ensures Resolve(V(g, Unhung(g, s, d, l)), i, j) == Resolve(V(g, s), i, j)
    {
      UnhungResolve(g, s, d, l, i, j);
    }
  }

  lemma UnhungSynced(g: Geom, s: Fs, d: nat, l: nat, dirty: set<nat>)
    requires FsOK(g, s) && d in s.raws && l < MapEnd(g.bs / 4) && Synced(g, s, dirty)
    ensures Synced(g, Unhung(g, s, d, l), dirty + {d})
  {
    Shape(g, s);
    UnhungBooks(g, s, d, l);
    SyncedKept(g, s, Unhung(g, s, d, l), dirty, dirty + {d});
  }

  /** One block of directory records more fits below 4 GiB. */
  lemma CountMore(size: nat, bs: nat)
    requires bs in {1024, 2048, 4096} && size < U32 && Times(BlockCount(size, bs) + 1, bs) < U32
    ensures BlockCount(Add32(size, bs), bs) == BlockCount(size, bs) + 1
  {
    hide Times, Quot, Rem;
    var n := BlockCount(size, bs);
    QuotRem(Add32(size, bs - 1), bs);
    NextFits(n, bs);
    NextFits(n + 1, bs);
    var end := Add32(Add32(size, bs), bs - 1);
    QuotUnique(n + 1, bs, end - Times(n + 1, bs));
  }

  lemma DirStepTrans(g: Geom, s: Fs, s1: Fs, s2: Fs, d: nat)
    requires DirStep(g, s, s1, d) && DirStep(g, s1, s2, d)
    ensures DirStep(g, s, s2, d)
  {
  }

  /** Writing d's record back, mode and links unchanged. */
  lemma RecordIsDirStep(g: Geom, s: Fs, s': Fs, d: nat, raw: RawInode)
    requires SizesOK(g) && d in s.raws && RecordStep(g, s, s', d, raw) && SameBytes(g, s, s') && PtrsSame(g, s, s')
    requires ModeOf(raw) == ModeOf(s.raws[d]) && LinksOf(raw) == LinksOf(s.raws[d]) && SameRest(s.raws[d], raw)
    ensures DirStep(g, s, s', d)
  {
    forall i, j: nat | i in s.raws && i != d && j < MapEnd(g.bs / 4)
      ensures Resolve(V(g, s'), i, j) == Resolve(V(g, s), i, j)
    {
      ResolveSame(g, s, s', i, j);
    }
  }

  lemma RecordSynced(g: Geom, s: Fs, s': Fs, d: nat, raw: RawInode, dirty: set<nat>)
    requires GeomOK(g) && Synced(g, s, dirty + {d}) && RecordStep(g, s, s', d, raw)
    requires (forall i :: i in s.raws <==> IsIno(g, i))
    ensures Synced(g, s', dirty)
  {
  }

  lemma RecordDir(g: Geom, s: Fs, s': Fs, d: nat, n: nat)
    requires SizesOK(g) && d in s.raws && SameBytes(g, s, s') && PtrsSame(g, s, s') && DirOK(V(g, s), d, n)
    ensures DirOK(V(g, s'), d, n) && DirList(V(g, s'), d, n) == DirList(V(g, s), d, n)
  {
    forall j: nat | j < MapEnd(g.bs / 4) ensures Resolve(V(g, s'), d, j) == Resolve(V(g, s), d, j) {
      ResolveSame(g, s, s', d, j);
    }
    DirSame(g, s, s', d, n);
  }

  lemma GrowDone(g: Geom, s: Fs, s1: Fs, s2: Fs, d: nat, n: nat, chunk: Buf)
    requires SizesOK(g) && d in s.raws && DirOK(V(g, s), d, n) && Times(n + 1, g.bs) < U32
    requires PartDone(g, s, s1, d, Times(n, g.bs), chunk, true) && |chunk| == g.bs && Chain(chunk)
    requires SameBytes(g, s1, s2) && PtrsSame(g, s1, s2)
    ensures DirOK(V(g, s2), d, n + 1) && DirList(V(g, s2), d, n + 1) == DirList(V(g, s), d, n) + Entries(chunk)
  {
    BlockBelow(g.bs, n, n + 1);
    DirExtended(g, s, s1, d, n, chunk);
    RecordDir(g, s1, s2, d, n + 1);
  }

  /** The directory is as before, but with more entries at the end. */
  ghost predicate Extended(g: Geom, s: Fs, s': Fs, d: nat, es: seq<Entry>)
  {
    IsDir(g, s', d) && DirStep(g, s, s', d) && ListOf(g, s', d) == ListOf(g, s, d) + es
  }

  /** i_size and i_blocks are as they were. */
  predicate SameExtent(raw: RawInode, raw': RawInode) { SizeOf(raw') == SizeOf(raw) && IBlocks(raw') == IBlocks(raw) }

  /** Everything in the record but the link count and the block pointers is as it was. */
  ghost predicate SameBody(raw: RawInode, raw': RawInode)
  {
    ModeOf(raw') == ModeOf(raw) && SameExtent(raw, raw') && SameRest(raw, raw')
  }

  /** From s to s' no file changed a byte or a mapping; file d may have gained indirect
      blocks, which its record on the device does not show. */
  ghost predicate Unadded(g: Geom, s: Fs, s': Fs, d: nat, dirty: set<nat>)
  {
    && DirStep(g, s, s', d) && SameExtent(s.raws[d], s'.raws[d]) && SameFile(g, s, s', d)
    && Synced(g, s', dirty + {d}) && DiskInode(g, s'.m.disk, d) == DiskInode(g, s.m.disk, d)
  }

  ghost predicate SameFile(g: Geom, s: Fs, s': Fs, d: nat)
  {
    && (forall q: nat :: q < U32 ==> RawByte(V(g, s'), d, q) == RawByte(V(g, s), d, q))
    && (forall j: nat {:trigger Resolve(V(g, s'), d, j)} :: j < MapEnd(g.bs / 4) ==>
          Resolve(V(g, s'), d, j) == Resolve(V(g, s), d, j))
  }

  lemma GrowStuck(g: Geom, s: Fs, s': Fs, d: nat, n: nat, chunk: Buf, dirty: set<nat>)
    requires FsOK(g, s) && d in s.raws && n == NBlocks(g, s, d)
    requires PartDone(g, s, s', d, Times(n, g.bs), chunk, false) && Synced(g, s, dirty)
    requires d in s'.raws && IBlocks(s'.raws[d]) == IBlocks(s.raws[d])
    ensures Unadded(g, s, s', d, dirty)
  {
    assert DirStep(g, s, s', d) && SizeOf(s'.raws[d]) == SizeOf(s.raws[d]) by {
      PartIsDirStep(g, s, s', d, Times(n, g.bs), chunk, false);
    }
    assert Synced(g, s', dirty + {d}) by { PartSynced(g, s, s', d, dirty); }
    assert SameFile(g, s, s', d) by {
      BlockFits(g, s, d, n);
      StuckSame(g, s, s', d, n);
    }
    assert DiskInode(g, s'.m.disk, d) == DiskInode(g, s.m.disk, d) by { SameRecord(g, s.m.disk, s'.m.disk, d); }
  }

  lemma StuckSame(g: Geom, s: Fs, s': Fs, d: nat, n: nat)
    requires SizesOK(g) && d in s.raws && MapsKept(g, s, s', d, n) && SameBytes(g, s, s')
    requires Resolve(V(g, s'), d, n) == Resolve(V(g, s), d, n)
    ensures SameFile(g, s, s', d)
  {
    forall j: nat | j < MapEnd(g.bs / 4) ensures Resolve(V(g, s'), d, j) == Resolve(V(g, s), d, j) {
      if j != n { ResolveKept(g, s, s', d, n, d, j); }
    }
  }

  lemma SameRecord(g: Geom, disk: seq<Block>, disk': seq<Block>, d: nat)
    requires GeomOK(g) && IsIno(g, d) && TablesSame(g, disk, disk')
    ensures DiskInode(g, disk', d) == DiskInode(g, disk, d)
  {
    InodeSpot(g, d);
  }

  lemma GrowStep(g: Geom, s: Fs, s1: Fs, s2: Fs, d: nat, pos: nat, chunk: Buf, raw: RawInode, dirty: set<nat>)
    requires GeomOK(g) && d in s.raws && Synced(g, s, dirty + {d}) && (forall i :: i in s.raws <==> IsIno(g, i))
    requires PartDone(g, s, s1, d, pos, chunk, true) && RecordStep(g, s1, s2, d, raw) && SameBytes(g, s1, s2)
    requires PtrsSame(g, s1, s2) && d in s1.raws && SameRest(s1.raws[d], raw)
    requires ModeOf(raw) == ModeOf(s.raws[d]) && LinksOf(raw) == LinksOf(s.raws[d])
    ensures Synced(g, s2, dirty) && DirStep(g, s, s2, d)
  {
    assert Synced(g, s2, dirty) by {
      PartSynced(g, s, s1, d, dirty + {d});
      assert dirty + {d} + {d} == dirty + {d};
      RecordSynced(g, s1, s2, d, raw, dirty);
    }
    assert DirStep(g, s, s1, d) by { PartIsDirStep(g, s, s1, d, pos, chunk, true); }
    assert DirStep(g, s, s2, d) by {
      RecordIsDirStep(g, s1, s2, d, raw);
      DirStepTrans(g, s, s1, s2, d);
    }
  }

  /** From s to s' file d grew by the block `chunk`, put under the block after its last. */
  ghost predicate Appended(g: Geom, s: Fs, s': Fs, d: nat, chunk: Buf)
  {
    var n := NBlocks(g, s, d);
    && SizesOK(g) && d in s.raws && DirStep(g, Unhung(g, s, d, n), s', d)
    && SizeOf(s'.raws[d]) == Add32(SizeOf(s.raws[d]), g.bs)
    && IBlocks(s'.raws[d]) == Add32(IBlocks(s.raws[d]), g.bs / 512)
    && Laid(g, s, s', d, Times(n, g.bs), chunk)
  }

  /** Adding a name to d overflows its size in 32 bits and leaves it no blocks at all. */
  ghost predicate Overflows(g: Geom, s: Fs, d: nat) { Times(NBlocks(g, s, d) + 1, g.bs) >= U32 }

  /** Laid over the empty block, laid over whatever was there. */
  lemma LaidUnhung(g: Geom, s: Fs, s': Fs, d: nat, n: nat, chunk: Buf)
    requires FsOK(g, s) && d in s.raws && n == NBlocks(g, s, d) && |chunk| == g.bs
    requires Laid(g, Unhung(g, s, d, n), s', d, Times(n, g.bs), chunk)
    ensures Laid(g, s, s', d, Times(n, g.bs), chunk)
  {
    hide FsOK, Unhung, RawByte, Quot, Rem, Missing, InDouble, Cleared, MetaOK, Owns, OwnedOK, Used, UsedInodes,
         DiskOK, RolesOK, GeomOK, Synced;
    Shape(g, s);
    BlockFits(g, s, d, n);
    UnhungOK(g, s, d, n);
    forall i, q: nat | i in s.raws && q < U32 && !(i == d && Times(n, g.bs) <= q < Times(n, g.bs) + |chunk|)
      ensures RawByte(V(g, s'), i, q) == RawByte(V(g, s), i, q)
    {
      if i == d && Quot(q, g.bs) == n { QuotRem(q, g.bs); }
      UnhungByte(g, s, d, n, i, q);
    }
  }

  lemma AppendDone(g: Geom, s: Fs, s1: Fs, s2: Fs, d: nat, n: nat, chunk: Buf, raw: RawInode, dirty: set<nat>)
    requires FsOK(g, s) && d in s.raws && n == NBlocks(g, s, d) && Synced(g, s, dirty) && |chunk| == g.bs
    requires PartDone(g, Unhung(g, s, d, n), s1, d, Times(n, g.bs), chunk, true) && RecordStep(g, s1, s2, d, raw)
    requires SameBytes(g, s1, s2) && PtrsSame(g, s1, s2)
    requires ModeOf(raw) == ModeOf(s1.raws[d]) && LinksOf(raw) == LinksOf(s1.raws[d]) && SameRest(s1.raws[d], raw)
    requires SizeOf(raw) == Add32(SizeOf(s.raws[d]), g.bs) && IBlocks(raw) == Add32(IBlocks(s.raws[d]), g.bs / 512)
    ensures Appended(g, s, s2, d, chunk) && Synced(g, s2, dirty)
  {
    hide FsOK, Unhung, Synced, RecordStep, PtrsSame, DirStep, MapsKept, CountsData, Times, Owns, OwnedOK, MetaOK;
    Shape(g, s);
    BlockFits(g, s, d, n);
    var c := Unhung(g, s, d, n);
    UnhungOK(g, s, d, n);
    UnhungSynced(g, s, d, n, dirty);
    PartHeader(c.raws, s1.raws, d);
    GrowStep(g, c, s1, s2, d, Times(n, g.bs), chunk, raw, dirty);
    RecordIs(g, s1, s2, d, raw);
    LaidAgain(g, c, s1, s2, d, Times(n, g.bs), chunk);
    LaidUnhung(g, s, s2, d, n, chunk);
  }

  lemma RecordIs(g: Geom, s: Fs, s': Fs, d: nat, raw: RawInode)
    requires RecordStep(g, s, s', d, raw)
    ensures d in s'.raws && s'.raws[d] == raw
  {
  }

  lemma LaidAgain(g: Geom, s: Fs, s1: Fs, s2: Fs, d: nat, pos: nat, chunk: Buf)
    requires Laid(g, s, s1, d, pos, chunk) && SameBytes(g, s1, s2) && s1.raws.Keys == s.raws.Keys
    ensures Laid(g, s, s2, d, pos, chunk)
  {
  }

  /** A directory below 4 GiB is one block of entries longer. */
  lemma AppendExtends(g: Geom, s: Fs, s1: Fs, s2: Fs, d: nat, n: nat, chunk: Buf, raw: RawInode, dirty: set<nat>)
    requires FsOK(g, s) && Synced(g, s, dirty) && IsDir(g, s, d) && n == NBlocks(g, s, d) && !Overflows(g, s, d)
    requires PartDone(g, Unhung(g, s, d, n), s1, d, Times(n, g.bs), chunk, true) && |chunk| == g.bs && Chain(chunk)
    requires RecordStep(g, s1, s2, d, raw) && SameBytes(g, s1, s2) && PtrsSame(g, s1, s2)
    requires Appended(g, s, s2, d, chunk)
    ensures Extended(g, s, s2, d, Entries(chunk))
  {
    hide PartDone, Synced, DirStep, DirList, PtrsSame, SameBytes, Chain, Entries, Laid, FsOK, RecordStep, Unhung,
         Resolve, SameRest, MetaOK, Used, UsedInodes;
    Shape(g, s);
    BlockFits(g, s, d, n);
    UnhungOK(g, s, d, n);
    assert Resolve(V(g, s), d, n) == 0;
    RecordIs(g, s1, s2, d, raw);
    assert NBlocks(g, s2, d) == n + 1 by { CountMore(SizeOf(s.raws[d]), g.bs); }
    GrowDone(g, s, s1, s2, d, n, chunk);
  }

  /** Hanging the fresh block on the end of the file. */
  method AppendBlock(vol: Vol, dir: Inode, n: nat, chunk: Buf) returns (ok: bool)
    requires Loaded(vol, dir) && n == NBlocks(vol.g, Snap(vol), dir.ino) && |chunk| == vol.g.bs
    modifies vol, dir`raw, dir`blocks
    ensures Loaded(vol, dir)
    ensures ok ==>
      PartDone(vol.g, Unhung(vol.g, old(Snap(vol)), dir.ino, n), Snap(vol), dir.ino, Times(n, vol.g.bs), chunk, true)
    ensures !ok ==> PartDone(vol.g, old(Snap(vol)), Snap(vol), dir.ino, Times(n, vol.g.bs), chunk, false)
    ensures !ok ==> OneRoot(old(vol.owner), vol.owner, dir.ino, Starves(vol.g, old(Snap(vol)), dir.ino, n))
    ensures ok <==> Mappable(vol.g, old(Snap(vol)), dir.ino, n, 1)
    ensures IBlocks(dir.raw) == if ok then Add32(IBlocks(old(dir.raw)), vol.g.bs / 512) else IBlocks(old(dir.raw))
  {
    hide OneRoot, Starves, FsOK, MapsKept, Laid, CountsData, SameBytes, Stuck, TablesSame, Resolve, MetaOK, Owns,
         OwnedOK, Used, UsedInodes, DiskOK, Unhung, Mappable, SameRest, SameExtent, SameBody, Frozen;
    ghost var s := Snap(vol);
    Shape(vol.g, s);
    BlockFits(vol.g, s, dir.ino, n);
    UnhungHeader(vol.g, s, dir.ino, n);
    ok := WriteHole(vol, dir, Times(n, vol.g.bs), chunk);
    assert Loaded(vol, dir) by {
      if ok { PartHeader(Unhung(vol.g, s, dir.ino, n).raws, vol.raws, dir.ino); }
      else { PartHeader(s.raws, vol.raws, dir.ino); }
    }
  }

  lemma UnhungHeader(g: Geom, s: Fs, d: nat, l: nat)
    requires FsOK(g, s) && d in s.raws && l < MapEnd(g.bs / 4)
    ensures var c := Unhung(g, s, d, l); d in c.raws
    ensures var c := Unhung(g, s, d, l);
            && ModeOf(c.raws[d]) == ModeOf(s.raws[d]) && LinksOf(c.raws[d]) == LinksOf(s.raws[d])
            && SizeOf(c.raws[d]) == SizeOf(s.raws[d]) && IBlocks(c.raws[d]) == IBlocks(s.raws[d])
            && SameRest(s.raws[d], c.raws[d])
  {
    hide FsOK, Unhung, Used, UsedInodes, TablesSame;
    UnhungBooks(g, s, d, l);
    var c := Unhung(g, s, d, l);
    assert forall k :: 0 <= k < 32 ==> c.raws[d][k] == s.raws[d][k];
  }

  /** dir->size += bs and ext2_write_inode */
  method EnlargeDir(vol: Vol, dir: Inode)
    requires Loaded(vol, dir) && vol.g.bs < U32
    modifies vol`disk, vol`raws, dir`raw, dir`size
    ensures Loaded(vol, dir) && dir.size == Add32(old(dir.size), vol.g.bs)
    ensures ModeOf(dir.raw) == ModeOf(old(dir.raw)) && LinksOf(dir.raw) == LinksOf(old(dir.raw))
    ensures IBlocks(dir.raw) == IBlocks(old(dir.raw)) && SameRest(old(dir.raw), dir.raw)
    ensures RecordStep(vol.g, old(Snap(vol)), Snap(vol), dir.ino, dir.raw)
    ensures SameBytes(vol.g, old(Snap(vol)), Snap(vol)) && PtrsSame(vol.g, old(Snap(vol)), Snap(vol))
  {
    dir.size := Add32(dir.size, vol.g.bs);
    WriteInode(vol, dir);
  }

  /** The tail of ext2_add_dir_entry: a fresh block at the end, holding one record. */
  method GrowDir(vol: Vol, dir: Inode, chunk: Buf, ghost dirty: set<nat>) returns (ok: bool)
    requires Loaded(vol, dir) && Synced(vol.g, Snap(vol), dirty) && |chunk| == vol.g.bs && Chain(chunk)
    modifies vol, dir`raw, dir`blocks, dir`size
    ensures Loaded(vol, dir)
    ensures ok ==> Appended(vol.g, old(Snap(vol)), Snap(vol), dir.ino, chunk) && Synced(vol.g, Snap(vol), dirty)
    ensures ok && IsDir(vol.g, old(Snap(vol)), dir.ino) && !Overflows(vol.g, old(Snap(vol)), dir.ino) ==>
      Extended(vol.g, old(Snap(vol)), Snap(vol), dir.ino, Entries(chunk))
    ensures !ok ==> Unadded(vol.g, old(Snap(vol)), Snap(vol), dir.ino, dirty)
    ensures !ok ==> OneRoot(old(vol.owner), vol.owner, dir.ino,
                            Starves(vol.g, old(Snap(vol)), dir.ino, NBlocks(vol.g, old(Snap(vol)), dir.ino)))
    ensures ok <==> Mappable(vol.g, old(Snap(vol)), dir.ino, NBlocks(vol.g, old(Snap(vol)), dir.ino), 1)
  {
    hide PartDone, Appended, Extended, Unadded, IsDir, Overflows, Synced, OneRoot, Starves, Mappable, RecordStep,
         SameBytes, PtrsSame, Chain, Entries, Unhung, MetaOK, Owns, OwnedOK, Used, DiskOK;
    ghost var s := Snap(vol);
    Shape(vol.g, s);
    var n := BlockCount(dir.size, vol.g.bs);
    ok := AppendBlock(vol, dir, n, chunk);
    ghost var s1 := Snap(vol);
    if ok {
      EnlargeDir(vol, dir);
      AppendDone(vol.g, s, s1, Snap(vol), dir.ino, n, chunk, dir.raw, dirty);
      if IsDir(vol.g, s, dir.ino) && !Overflows(vol.g, s, dir.ino) {
        AppendExtends(vol.g, s, s1, Snap(vol), dir.ino, n, chunk, dir.raw, dirty);
      }
    } else {
      GrowStuck(vol.g, s, s1, dir.ino, n, chunk, dirty);
    }
  }

  lemma AddedLast(g: Geom, s: Fs, s': Fs, d: nat, e: Entry, dirty: set<nat>)
    requires FsOK(g, s') && Extended(g, s, s', d, [e]) && Synced(g, s', dirty)
    ensures DirAdded(g, s, s', d, e, dirty)
  {
    AddedEnd(ListOf(g, s, d), e);
  }

  lemma AddedEnd(es: seq<Entry>, e: Entry)
    ensures Added(es, es + [e], e)
  {
    assert Inserted(es, es + [e], |es|, e);
  }

  lemma DirUnchanged(g: Geom, s: Fs, d: nat, dirty: set<nat>)
    requires d in s.raws && Synced(g, s, dirty)
    ensures Unadded(g, s, s, d, dirty)
  {
  }

  // ----- ext2_add_dir_entry -----

  /** The entry has no room in the blocks of d, and the position after them is taken: the block
      there is left without an owner. */
  ghost predicate Displaces(g: Geom, s: Fs, d: nat, nlen: nat)
  {
    Full(g, s, d, nlen) && Resolve(V(g, s), d, NBlocks(g, s, d)) != 0
  }

  /** From s to s' at most file d changed, mode and links excepted; `lost` if a block of it was left
      without an owner. */
  ghost predicate Touched(g: Geom, s: Fs, s': Fs, d: nat, lost: bool)
  {
    && Only(g, s, s', {d}) && d in s.raws
    && ModeOf(s'.raws[d]) == ModeOf(s.raws[d]) && LinksOf(s'.raws[d]) == LinksOf(s.raws[d])
    && SameRest(s.raws[d], s'.raws[d]) && Used(g, s.m.disk) <= Used(g, s'.m.disk)
    && UsedInodes(g, s'.m.disk) == UsedInodes(g, s.m.disk) && FreeInodesOf(s'.m) == FreeInodesOf(s.m)
    && DirCounts(s'.m) == DirCounts(s.m)
    && FreeBlocksOf(s'.m) + |s'.owner| + (if lost then 1 else 0) == FreeBlocksOf(s.m) + |s.owner|
  }

  /** From s to s' the bytes of a record for e went into file d: into the first block with room, or
      into a block of its own behind the last, by which d grew. */
  ghost predicate EntryPut(g: Geom, s: Fs, s': Fs, d: nat, e: Entry)
  {
    && SizesOK(g) && 0 < e.ino < U32 && |e.name| < 256
    && Touched(g, s, s', d, Displaces(g, s, d, |e.name|)) && Filed(g, s, s', d, e)
  }

  /** Where the bytes of the record for e went, and what that did to size and i_blocks. */
  ghost predicate Filed(g: Geom, s: Fs, s': Fs, d: nat, e: Entry)
    requires SizesOK(g) && 0 < e.ino < U32 && |e.name| < 256
  {
    && d in s.raws && d in s'.raws
    && if Full(g, s, d, |e.name|) then
         && SizeOf(s'.raws[d]) == Add32(SizeOf(s.raws[d]), g.bs)
         && IBlocks(s'.raws[d]) == Add32(IBlocks(s.raws[d]), g.bs / 512)
         && Pasted(g, s, s', d, NBlocks(g, s, d), Spanning(g.bs, e.name, e.ino, e.kind))
       else
         && SizeOf(s'.raws[d]) == SizeOf(s.raws[d]) && IBlocks(s'.raws[d]) == IBlocks(s.raws[d])
         && exists l: nat :: RoomAt(g, s, d, l, |e.name|) && Pasted(g, s, s', d, l, PlacedAt(g, s, d, l, e))
  }

  /** Block l of file d holds chunk now, and no other byte of d changed. */
  ghost predicate Pasted(g: Geom, s: Fs, s': Fs, d: nat, l: nat, chunk: Buf)
  {
    forall q: nat :: q < U32 ==>
      RawByte(V(g, s'), d, q) ==
        if Times(l, g.bs) <= q < Times(l, g.bs) + |chunk| then chunk[q - Times(l, g.bs)] else RawByte(V(g, s), d, q)
  }

  lemma LaidPasted(g: Geom, s: Fs, s': Fs, d: nat, l: nat, chunk: Buf)
    requires d in s.raws && Laid(g, s, s', d, Times(l, g.bs), chunk)
    ensures Pasted(g, s, s', d, l, chunk)
  {
  }

  /** Where the bytes went does not depend on other files. */
  lemma FiledSame(g: Geom, s: Fs, s1: Fs, s2: Fs, d: nat, e: Entry)
    requires SizesOK(g) && 0 < e.ino < U32 && |e.name| < 256 && d in s.raws && d in s1.raws
    requires s1.raws[d] == s.raws[d] && SameFile(g, s, s1, d) && Filed(g, s1, s2, d, e)
    ensures Filed(g, s, s2, d, e)
  {
    hide Full, RawByte, PlacedAt, FullBefore, Spanning, SizeOf, Scan, Placed, Cleft, Slack, Fits, Filled, Splice,
         Put16, Need, Low16, NameLen, RecLen;
    FullSame(g, s, s1, d, |e.name|);
    if !Full(g, s, d, |e.name|) {
      var l: nat :| RoomAt(g, s1, d, l, |e.name|) && Pasted(g, s1, s2, d, l, PlacedAt(g, s1, d, l, e));
      RoomSame(g, s, s1, d, l, e);
    }
  }

  lemma RoomSame(g: Geom, s: Fs, s1: Fs, d: nat, l: nat, e: Entry)
    requires SizesOK(g) && d in s.raws && d in s1.raws && s1.raws[d] == s.raws[d] && SameFile(g, s, s1, d)
    requires RoomAt(g, s1, d, l, |e.name|)
    ensures RoomAt(g, s, d, l, |e.name|) && PlacedAt(g, s, d, l, e) == PlacedAt(g, s1, d, l, e)
  {
    hide RawByte, Scan, Resolve, Placed, SizeOf, Fits;
    BlockFits(g, s, d, NBlocks(g, s, d));
    forall j: nat | j < NBlocks(g, s, d)
      ensures BlockBytes(V(g, s1), d, j) == BlockBytes(V(g, s), d, j)
      ensures SpotAt(g, s1, d, j, |e.name|) == SpotAt(g, s, d, j, |e.name|)
    {
      BlockSame(g, s, s1, d, NBlocks(g, s, d), j);
    }
    assert forall j: nat :: j < l ==> FullAt(g, s1, d, j, |e.name|) == FullAt(g, s, d, j, |e.name|);
  }

  lemma PutTouches(g: Geom, s: Fs, s': Fs, d: nat, l: nat, e: Entry)
    requires FsOK(g, s) && PutAt(g, s, s', d, l, e) && d in s.raws && 0 < e.ino < U32 && |e.name| < 256
    ensures EntryPut(g, s, s', d, e)
  {
    hide FsOK, Used, UsedInodes, Laid, PlacedAt, FullAt, Resolve;
    Shape(g, s);
    PartIsDirStep(g, s, s', d, Times(l, g.bs), PlacedAt(g, s, d, l, e), true);
    LaidPasted(g, s, s', d, l, PlacedAt(g, s, d, l, e));
    assert Only(g, s, s', {d}) by { DirStepOnly(g, s, s', d); }
  }

  lemma AppendTouches(g: Geom, s: Fs, s': Fs, d: nat, e: Entry)
    requires FsOK(g, s) && d in s.raws && 0 < e.ino < U32 && |e.name| < 256 && Full(g, s, d, |e.name|) && SizesOK(g)
    requires Appended(g, s, s', d, Spanning(g.bs, e.name, e.ino, e.kind))
    ensures EntryPut(g, s, s', d, e)
  {
    hide FsOK, Used, UsedInodes, Laid, FullAt, Resolve, Unhung, RawByte, OthersKept;
    var n := NBlocks(g, s, d);
    var c := Unhung(g, s, d, n);
    BlockFits(g, s, d, n);
    UnhungBooks(g, s, d, n);
    UnhungHeader(g, s, d, n);
    LaidPasted(g, s, s', d, n, Spanning(g.bs, e.name, e.ino, e.kind));
    assert Only(g, s, s', {d}) by {
      UnhungOnly(g, s, d, n);
      DirStepOnly(g, c, s', d);
      OnlyTrans(g, s, c, s', {d}, {d}, {d});
    }
  }

  /** When a name of nlen bytes can be added to d, with `more` free blocks to spare. */
  ghost predicate CanAdd(g: Geom, s: Fs, d: nat, nlen: nat, more: nat)
  {
    nlen <= 255 &&
    if Full(g, s, d, nlen) then Mappable(g, s, d, NBlocks(g, s, d), 1 + more) else FreeBlocksOf(s.m) >= more
  }

  /** Adding the name to d finds no room in its blocks, needs the first block of the doubly
      indirect range, and there are `free` blocks left. */
  ghost predicate Cramped(g: Geom, s: Fs, d: nat, name: Buf, free: nat)
  {
    && |name| <= 255 && Full(g, s, d, |name|)
    && InDouble(g.bs / 4, NBlocks(g, s, d)) && d in s.raws && Word(s.raws[d], IBLOCK_WORD + 13) == 0
    && FreeBlocksOf(s.m) == free
  }

  /** Files below the same owners have the same maps. */
  lemma SameMap(g: Geom, s: Fs, s': Fs, d: nat, t: Slot)
    requires Owns(V(g, s), s.owner) && Owns(V(g, s'), s'.owner) && s'.raws.Keys == s.raws.Keys
    requires forall b :: b in s.owner && Ino(s.owner[b]) == d ==> b in s'.owner && s'.owner[b] == s.owner[b]
    requires forall b :: b in s'.owner && Ino(s'.owner[b]) == d ==> b in s.owner && s'.owner[b] == s.owner[b]
    requires IsSlot(V(g, s), t) && Ino(t) == d
    ensures Ptr(V(g, s'), t) == Ptr(V(g, s), t)
  {
    IsSlotFrame(V(g, s), V(g, s'), t);
    var b, b' := Ptr(V(g, s), t), Ptr(V(g, s'), t);
    if b != 0 { assert s.owner[b] == t && s'.owner[b] == t; }
    if b' != 0 { assert s'.owner[b'] == t && s.owner[b'] == t; }
  }

  lemma MissingKept(g: Geom, s: Fs, s': Fs, d: nat, l: nat)
    requires SizesOK(g) && d in s.raws
    requires Owns(V(g, s), s.owner) && Owns(V(g, s'), s'.owner) && s'.raws.Keys == s.raws.Keys
    requires forall b :: b in s.owner && Ino(s.owner[b]) == d ==> b in s'.owner && s'.owner[b] == s.owner[b]
    requires forall b :: b in s'.owner && Ino(s'.owner[b]) == d ==> b in s.owner && s'.owner[b] == s.owner[b]
    ensures Missing(g, s', d, l) == Missing(g, s, d, l)
  {
    hide Owns, Ptr;
    var p := g.bs / 4;
    assert Ptrs(V(g, s)) == p;
    SameMap(g, s, s', d, Root(d, 12));
    SameMap(g, s, s', d, Root(d, 13));
    if InDouble(p, l) {
      QuotBelow(l - DIRECT - p, p, p);
      SameMap(g, s, s', d, Child(Root(d, 13), Quot(l - DIRECT - p, p)));
    }
  }

  /** Where the entry goes depends on the file alone. */
  lemma FullSame(g: Geom, s: Fs, s': Fs, d: nat, nlen: nat)
    requires SizesOK(g) && d in s.raws && d in s'.raws && s'.raws[d] == s.raws[d] && SameFile(g, s, s', d)
    ensures Full(g, s', d, nlen) <==> Full(g, s, d, nlen)
    ensures Contained(g, s', d, nlen) <==> Contained(g, s, d, nlen)
    ensures Displaces(g, s', d, nlen) <==> Displaces(g, s, d, nlen)
  {
    hide Scan, SizeOf, RawByte, Resolve;
    var n := NBlocks(g, s, d);
    BlockFits(g, s, d, n);
    forall j: nat | j < n ensures SpotAt(g, s', d, j, nlen) == SpotAt(g, s, d, j, nlen) {
      BlockSame(g, s, s', d, n, j);
    }
    forall b: nat | b <= n ensures FullBefore(g, s', d, b, nlen) <==> FullBefore(g, s, d, b, nlen) {
      assert forall j: nat :: j < b ==> FullAt(g, s', d, j, nlen) == FullAt(g, s, d, j, nlen);
    }
  }

  /** Whether a name fits depends on the file alone, and on the count of free blocks. */
  lemma CrampedSame(g: Geom, s: Fs, s': Fs, d: nat, name: Buf, free: nat, free': nat)
    requires SizesOK(g) && d in s.raws && d in s'.raws && s'.raws[d] == s.raws[d] && SameFile(g, s, s', d)
    requires FreeBlocksOf(s'.m) + free == FreeBlocksOf(s.m) + free'
    ensures Cramped(g, s', d, name, free') <==> Cramped(g, s, d, name, free)
  {
    hide Full, InDouble, SizeOf, Word;
    FullSame(g, s, s', d, |name|);
  }

  lemma CanAddSame(g: Geom, s: Fs, s': Fs, xs: set<nat>, d: nat, nlen: nat, more: nat, more': nat)
    requires FsOK(g, s) && FsOK(g, s') && d in s.raws && d !in xs && Only(g, s, s', xs)
    requires FreeBlocksOf(s'.m) + more == FreeBlocksOf(s.m) + more'
    ensures CanAdd(g, s', d, nlen, more') <==> CanAdd(g, s, d, nlen, more)
  {
    hide FsOK, Full, MetaOK, Owns, OwnedOK, Missing;
    Shape(g, s);
    assert SameFile(g, s, s', d);
    FullSame(g, s, s', d, nlen);
    assert Owns(V(g, s), s.owner) && Owns(V(g, s'), s'.owner) by { OwnsOf(g, s); OwnsOf(g, s'); }
    MissingKept(g, s, s', d, NBlocks(g, s, d));
  }

  lemma OwnsOf(g: Geom, s: Fs)
    requires FsOK(g, s)
    ensures Owns(V(g, s), s.owner)
  {
  }

  /** No room in the blocks there are: the entry gets a block of its own. */
  method AddByGrowing(vol: Vol, dir: Inode, name: Buf, ino: nat, kind: Byte, ghost dirty: set<nat>) returns (ok: bool)
    requires Loaded(vol, dir) && Synced(vol.g, Snap(vol), dirty) && 0 < ino < U32 && |name| < 256
    requires Full(vol.g, Snap(vol), dir.ino, |name|)
    modifies vol, dir`raw, dir`blocks, dir`size
    ensures Loaded(vol, dir)
    ensures ok ==> EntryPut(vol.g, old(Snap(vol)), Snap(vol), dir.ino, Entry(name, ino, kind))
    ensures ok ==> Synced(vol.g, Snap(vol), dirty)
    ensures ok && IsDir(vol.g, old(Snap(vol)), dir.ino) && !Overflows(vol.g, old(Snap(vol)), dir.ino) ==>
      DirAdded(vol.g, old(Snap(vol)), Snap(vol), dir.ino, Entry(name, ino, kind), dirty)
    ensures !ok ==> Unadded(vol.g, old(Snap(vol)), Snap(vol), dir.ino, dirty)
    ensures !ok ==> OneRoot(old(vol.owner), vol.owner, dir.ino,
                            Starves(vol.g, old(Snap(vol)), dir.ino, NBlocks(vol.g, old(Snap(vol)), dir.ino)))
    ensures ok <==> Mappable(vol.g, old(Snap(vol)), dir.ino, NBlocks(vol.g, old(Snap(vol)), dir.ino), 1)
  {
    hide OneRoot, Starves, Mappable, IsDir, Overflows, Full, EntryPut, DirAdded, Unadded, Appended, Extended, Synced,
         MetaOK, Owns, OwnedOK, Used, DiskOK;
    ghost var s := Snap(vol);
    Shape(vol.g, s);
    var chunk := Spanning(vol.g.bs, name, ino, kind);
    ok := GrowDir(vol, dir, chunk, dirty);
    if ok {
      AppendTouches(vol.g, s, Snap(vol), dir.ino, Entry(name, ino, kind));
      if IsDir(vol.g, s, dir.ino) && !Overflows(vol.g, s, dir.ino) {
        AddedLast(vol.g, s, Snap(vol), dir.ino, Entry(name, ino, kind), dirty);
      }
    }
  }

  /** ext2_add_dir_entry: the bytes of the record go where the walk puts them, whatever the inode
      is, and in a directory that is one entry more with everything else in its place; or nothing
      changes but indirect blocks the inode may have gained, and it is left dirty. */
  method AddDirEntry(vol: Vol, dir: Inode, name: Buf, ino: nat, kind: Byte, ghost dirty: set<nat>) returns (ok: bool)
    requires Loaded(vol, dir) && Synced(vol.g, Snap(vol), dirty) && ino < U32
    requires |name| <= 255 ==> Contained(vol.g, Snap(vol), dir.ino, |name|)
    modifies vol, dir`raw, dir`blocks, dir`size
    ensures Loaded(vol, dir)
    ensures ok <==> ino != 0 && CanAdd(vol.g, old(Snap(vol)), dir.ino, |name|, 0)
    ensures ok ==> EntryPut(vol.g, old(Snap(vol)), Snap(vol), dir.ino, Entry(name, ino, kind))
    ensures ok ==> Synced(vol.g, Snap(vol), dirty)
    ensures ok && IsDir(vol.g, old(Snap(vol)), dir.ino) && Takes(vol.g, old(Snap(vol)), dir.ino, |name|) ==>
      DirAdded(vol.g, old(Snap(vol)), Snap(vol), dir.ino, Entry(name, ino, kind), dirty)
    ensures !ok ==> Unadded(vol.g, old(Snap(vol)), Snap(vol), dir.ino, dirty)
    ensures !ok ==>
      OneRoot(old(vol.owner), vol.owner, dir.ino, ino != 0 && Cramped(vol.g, old(Snap(vol)), dir.ino, name, 2))
  {
    hide FullBefore, FsOK, Synced, IsDir, Unadded, DirAdded, EntryPut, Overflows, Missing, PutAt, MetaOK, Owns,
         OwnedOK, Used, DiskOK, Contained;
    if ino == 0 || |name| > 255 {
      DirUnchanged(vol.g, Snap(vol), dir.ino, dirty);
      return false;
    }
    ghost var s, l := Snap(vol), 0;
    ok, l := AddInPlace(vol, dir, name, ino, kind, dirty);
    if ok {
      PutTouches(vol.g, s, Snap(vol), dir.ino, l, Entry(name, ino, kind));
      if IsDir(vol.g, s, dir.ino) { PutAdds(vol.g, s, Snap(vol), dir.ino, l, Entry(name, ino, kind), dirty); }
    } else {
      assert Snap(vol) == s;
      ok := AddByGrowing(vol, dir, name, ino, kind, dirty);
    }
  }

  /** The directory has room for the name, or for a block more. */
  ghost predicate Takes(g: Geom, s: Fs, d: nat, nlen: nat) { Full(g, s, d, nlen) ==> !Overflows(g, s, d) }

  // ----- what that does to a file -----

  lemma PutDiffers(g: Geom, s: Fs, s': Fs, d: nat, l: nat, e: Entry)
    requires SizesOK(g) && d in s.raws && d in s'.raws && TailZero(V(g, s), d) && 0 < e.ino < U32 && |e.name| < 256
    requires RoomAt(g, s, d, l, |e.name|) && SpotAt(g, s, d, l, |e.name|) != Outside
    requires Pasted(g, s, s', d, l, PlacedAt(g, s, d, l, e)) && SizeOf(s'.raws[d]) == SizeOf(s.raws[d])
    ensures Content(V(g, s'), d) != Content(V(g, s), d)
  {
    hide RawByte, Scan, Placed, FullBefore, Fits, Content;
    BlockFits(g, s, d, l);
    var b, pos, size := BlockBytes(V(g, s), d, l), Times(l, g.bs), SizeOf(s.raws[d]);
    var z := if size <= pos then 0 else Min(g.bs, size - pos);
    forall k | z <= k < |b| ensures b[k] == 0 { assert b[k] == RawByte(V(g, s), d, pos + k); }
    ScanDiffers(b, e.name, e.ino, e.kind, z);
    var k: nat :| k < z && PlacedAt(g, s, d, l, e)[k] != b[k];
    ContentAt(V(g, s), d, pos + k);
    ContentAt(V(g, s'), d, pos + k);
  }

  /** A record put into a file that ends in zeros always changes what the file reads as. */
  lemma EntryDiffers(g: Geom, s: Fs, s': Fs, d: nat, e: Entry)
    requires SizesOK(g) && 0 < e.ino < U32 && |e.name| < 256 && Filed(g, s, s', d, e)
    requires TailZero(V(g, s), d) && Contained(g, s, d, |e.name|)
    ensures Content(V(g, s'), d) != Content(V(g, s), d)
  {
    hide Pasted, PlacedAt, FullBefore;
    if Full(g, s, d, |e.name|) {
      assert |Content(V(g, s'), d)| != |Content(V(g, s), d)|;
    } else {
      var l: nat :| RoomAt(g, s, d, l, |e.name|) && Pasted(g, s, s', d, l, PlacedAt(g, s, d, l, e));
      PutDiffers(g, s, s', d, l, e);
    }
  }
}
