/** ext2/directory.c: create, mkdir, unlink and rmdir. */
module NameOps {
  import opened Words
  import opened Bytes
  import opened BlockTree
  import opened Layout
  import opened Metadata
  import opened Volume
  import opened FsState
  import opened BlockMap
  import opened InodeTable
  import opened FileData
  import opened FileOps
  import opened FileFree
  import opened EntryLists
  import opened Directory
  import opened DirOps
  import opened DirAdd

  const FT_FILE: Byte := 1

  /** x - 1 in 32 bits */
  function Dec32(x: nat): (r: nat)
    requires x < U32
    ensures r < U32 && Add32(r, 1) == x
  {
    if x == 0 then U32 - 1 else x - 1
  }

  /** A free inode has no record: whatever the code leaves in its slot on the device is never
      read again before it is overwritten. */
  ghost predicate Clean(g: Geom, s: Fs)
  {
    forall i :: i in s.raws && i !in UsedInodes(g, s.m.disk) ==> s.raws[i] == Zeros(128)
  }

  lemma CleanAt(g: Geom, s: Fs, x: nat)
    requires Clean(g, s) && x in s.raws && x !in UsedInodes(g, s.m.disk)
    ensures s.raws[x] == Zeros(128) && NoBlocks(s.raws[x])
  {
  }

  /** Another directory is untouched when only the files in xs changed. */
  lemma OtherDir(g: Geom, s: Fs, s': Fs, xs: set<nat>, i: nat)
    requires SizesOK(g) && Only(g, s, s', xs) && i !in xs && IsDir(g, s, i)
    ensures IsDir(g, s', i) && ListOf(g, s', i) == ListOf(g, s, i)
  {
    DirSame(g, s, s', i, NBlocks(g, s, i));
  }

  // ----- loading an inode -----

  /** ext2_read_inode */
  method ReadInode(vol: Vol, ino: nat, ghost dirty: set<nat>) returns (inode: Inode)
    requires FsOK(vol.g, Snap(vol)) && ino in UsedInodes(vol.g, vol.disk)
    requires Synced(vol.g, Snap(vol), dirty) && ino !in dirty
    ensures fresh(inode) && inode.ino == ino && Loaded(vol, inode) && inode.nlink == LinksOf(inode.raw)
  {
    hide FsOK, Used, MetaOK, DiskInode;
    Shape(vol.g, Snap(vol));
    var raw := ReadInodeRaw(vol, ino);
    inode := new Inode(ino, raw, Get16(raw, I_MODE), Get32(raw, I_SIZE), Get16(raw, I_LINKS), Get32(raw, I_BLOCKS));
  }

  // ----- making and unmaking an inode -----

  /** A record with no blocks. */
  predicate NoBlocks(raw: RawInode) { |raw| == 128 && forall k :: 40 <= k < 100 ==> raw[k] == 0 }

  ghost predicate InodeMade(g: Geom, s: Fs, s': Fs, x: nat, raw: RawInode)
  {
    && IsIno(g, x) && x !in UsedInodes(g, s.m.disk) && UsedInodes(g, s'.m.disk) == UsedInodes(g, s.m.disk) + {x}
    && Used(g, s'.m.disk) == Used(g, s.m.disk)
    && FreeInodesOf(s'.m) == FreeInodesOf(s.m) - 1 && DirCounts(s'.m) == DirCounts(s.m)
    && FreeBlocksOf(s'.m) == FreeBlocksOf(s.m)
    && s'.owner == s.owner && s'.raws == s.raws[x := raw]
    && SameBytes(g, s, s') && PtrsSame(g, s, s') && RecordsKept(g, s.m.disk, s'.m.disk, x)
  }

  lemma MadeSynced(g: Geom, s: Fs, s1: Fs, s2: Fs, x: nat, raw: RawInode, dirty: set<nat>)
    requires GeomOK(g) && Synced(g, s, dirty) && TablesSame(g, s.m.disk, s1.m.disk) && s1.raws == s.raws
    requires (forall i :: i in s.raws <==> IsIno(g, i)) && UsedInodes(g, s1.m.disk) == UsedInodes(g, s.m.disk) + {x}
    requires RecordStep(g, s1, s2, x, raw)
    ensures Synced(g, s2, dirty)
  {
    forall i | i in UsedInodes(g, s2.m.disk) && i in s2.raws && i !in dirty
      ensures DiskInode(g, s2.m.disk, i) == s2.raws[i]
    {
      InodeSpot(g, i);
    }
  }

  lemma MadeBy(g: Geom, s: Fs, s1: Fs, s2: Fs, x: nat, raw: RawInode, dirty: set<nat>)
    requires FsOK(g, s) && Clean(g, s) && Synced(g, s, dirty) && NoBlocks(raw)
    requires MetaOK(g, s1.m) && TookInode(g, s.m, s1.m, x) && s1 == s.(m := s1.m)
    requires s2 == Fs(s1.m.(disk := s2.m.disk), s.raws[x := raw], s.owner)
    requires RecordWritten(g, s1.m.disk, s2.m.disk, x, raw)
    ensures FsOK(g, s2) && InodeMade(g, s, s2, x, raw) && Synced(g, s2, dirty)
  {
    InodeBitsMoved(g, s, s1);
    RecordBytes(g, s1, s1.(raws := s.raws[x := raw]), s2, x, raw);
    assert Synced(g, s2, dirty) by { MadeSynced(g, s, s1, s2, x, raw, dirty); }
    PtrsSameTrans(g, s, s1, s2);
    TablesKeep(g, s.m.disk, s1.m.disk, x);
  }

  /** ext2_alloc_inode, then ext2_write_inode_raw of a fresh record. */
  method NewInode(vol: Vol, raw: RawInode, ghost dirty: set<nat>) returns (x: nat)
    requires FsOK(vol.g, Snap(vol)) && Clean(vol.g, Snap(vol)) && Synced(vol.g, Snap(vol), dirty) && NoBlocks(raw)
    modifies vol`disk, vol`sb, vol`gds, vol`raws
    ensures FsOK(vol.g, Snap(vol)) && Synced(vol.g, Snap(vol), dirty)
    ensures x == 0 ==>
      Snap(vol) == old(Snap(vol)) && forall i: nat :: IsIno(vol.g, i) ==> i in UsedInodes(vol.g, vol.disk)
    ensures x != 0 ==> InodeMade(vol.g, old(Snap(vol)), Snap(vol), x, raw)
  {
    hide FsOK, Clean, Synced, InodeMade, GeomOK, Used, UsedInodes, OnlyMeta;
    ghost var s := Snap(vol);
    Shape(vol.g, s);
    x := AllocInode(vol);
    if x == 0 {
      assert Snap(vol) == s;
      return;
    }
    ghost var s1 := Snap(vol);
    WriteInodeRaw(vol, x, raw);
    vol.raws := vol.raws[x := raw];
    MadeBy(vol.g, s, s1, Snap(vol), x, raw, dirty);
  }

  ghost predicate InodeUnmade(g: Geom, s: Fs, s': Fs, x: nat)
  {
    && x in s.raws && UsedInodes(g, s'.m.disk) == UsedInodes(g, s.m.disk) - {x}
    && Used(g, s'.m.disk) == Used(g, s.m.disk)
    && FreeInodesOf(s'.m) == FreeInodesOf(s.m) + 1 && DirCounts(s'.m) == DirCounts(s.m)
    && FreeBlocksOf(s'.m) == FreeBlocksOf(s.m)
    && s'.owner == s.owner && s'.raws == s.raws[x := Zeros(128)]
    && SameBytes(g, s, s') && PtrsSame(g, s, s') && RecordsKept(g, s.m.disk, s'.m.disk, x)
  }

  lemma UnmadeBy(g: Geom, s: Fs, s1: Fs, s2: Fs, x: nat, dirty: set<nat>)
    requires FsOK(g, s) && Synced(g, s, dirty) && x in s.raws && NoBlocks(s.raws[x])
    requires MetaOK(g, s1.m) && GaveInode(g, s.m, s1.m, x) && s1 == s.(m := s1.m)
    requires s2 == s1.(raws := s1.raws[x := Zeros(128)])
    ensures FsOK(g, s2) && InodeUnmade(g, s, s2, x) && Synced(g, s2, dirty)
  {
    InodeGiven(g, s, s1, x, dirty);
    TablesKeep(g, s.m.disk, s1.m.disk, x);
    HeaderFs(g, s1, s2, x);
    PtrsSameTrans(g, s, s1, s2);
    assert SameBytes(g, s, s2) by {
      forall i, q: nat | i in s.raws && q < U32 ensures RawByte(V(g, s2), i, q) == RawByte(V(g, s), i, q) {
        HeaderByte(g, s1, s2, i, q);
      }
    }
  }

  /** ext2_free_inode of an inode that has no blocks. */
  method UndoInode(vol: Vol, x: nat, ghost dirty: set<nat>)
    requires FsOK(vol.g, Snap(vol)) && Synced(vol.g, Snap(vol), dirty)
    requires x in UsedInodes(vol.g, vol.disk) && x in vol.raws && NoBlocks(vol.raws[x])
    modifies vol`disk, vol`sb, vol`gds, vol`raws
    ensures FsOK(vol.g, Snap(vol)) && Synced(vol.g, Snap(vol), dirty)
    ensures InodeUnmade(vol.g, old(Snap(vol)), Snap(vol), x)
  {
    ghost var s := Snap(vol);
    FreeInode(vol, x);
    ghost var s1 := Snap(vol);
    vol.raws := vol.raws[x := Zeros(128)];
    UnmadeBy(vol.g, s, s1, Snap(vol), x, dirty);
  }

  // ----- create -----

  /** i_mode, i_links_count and otherwise zeros */
  function NewRecord(mode: nat, links: nat): (r: RawInode)
    requires mode < U16 && links < U16
    ensures NoBlocks(r) && ModeOf(r) == mode && LinksOf(r) == links && SizeOf(r) == 0 && IBlocks(r) == 0
    ensures SameRest(Zeros(128), r)
  {
    var r := Put16(Put16(Zeros(128), I_MODE, mode), I_LINKS, links);
    assert r[4] == 0 && r[5] == 0 && r[6] == 0 && r[7] == 0;
    assert r[28] == 0 && r[29] == 0 && r[30] == 0 && r[31] == 0;
    r
  }

  /** The type field of i_mode. */
  const TYPE_DIR := 4
  const TYPE_FILE := 8

  /** A record of that type with the permissions of mode, so many links, bytes and sectors, and
      zeros for owner, group, times and flags. */
  ghost predicate Born(raw: RawInode, kind: nat, mode: nat, links: nat, size: nat, sectors: nat)
  {
    && ModeOf(raw) / 4096 == kind && ModeOf(raw) % 4096 == mode % 4096 && LinksOf(raw) == links
    && SizeOf(raw) == size && IBlocks(raw) == sectors && SameRest(Zeros(128), raw)
  }

  /** FS_FILE_TYPE_REGULAR | (mode & 0xFFF) */
  function FileMode(mode: nat): (r: nat)
    ensures r < U16 && r / 4096 == 8 && r % 4096 == mode % 4096
  {
    0x8000 + mode % 4096
  }

  /** FS_FILE_TYPE_DIR | (mode & 0xFFF) */
  function DirMode(mode: nat): (r: nat)
    ensures r < U16 && r / 4096 == 4 && r % 4096 == mode % 4096
  {
    0x4000 + mode % 4096
  }

  /** An inode ready for an operation on one of its names; the records in dirty are newer in memory
      than on the device. */
  ghost predicate DirOpen(vol: Vol, dir: Inode, dirty: set<nat>)
    reads vol, dir
  {
    && Loaded(vol, dir) && dir.ino in UsedInodes(vol.g, vol.disk)
    && Synced(vol.g, Snap(vol), dirty) && Clean(vol.g, Snap(vol))
  }

  /** File d took the bytes of a record for e, which names a new inode e.ino with record raw. */
  ghost predicate Planted(g: Geom, s: Fs, s': Fs, d: nat, e: Entry, raw: RawInode)
  {
    && SizesOK(g) && 0 < e.ino < U32 && |e.name| < 256
    && d in s.raws && e.ino in s'.raws && e.ino != d && Only(g, s, s', {d, e.ino})
    && e.ino !in UsedInodes(g, s.m.disk) && UsedInodes(g, s'.m.disk) == UsedInodes(g, s.m.disk) + {e.ino}
    && FreeInodesOf(s'.m) == FreeInodesOf(s.m) - 1 && DirCounts(s'.m) == DirCounts(s.m)
    && FreeBlocksOf(s'.m) + |s'.owner| + (if Displaces(g, s, d, |e.name|) then 1 else 0) ==
       FreeBlocksOf(s.m) + |s.owner|
    && s'.raws[e.ino] == raw && ModeOf(s'.raws[d]) == ModeOf(s.raws[d]) && LinksOf(s'.raws[d]) == LinksOf(s.raws[d])
    && SameRest(s.raws[d], s'.raws[d]) && Filed(g, s, s', d, e)
  }

  /** Directory d gained the name e of a new inode e.ino with record raw. */
  ghost predicate Created(g: Geom, s: Fs, s': Fs, d: nat, e: Entry, raw: RawInode)
  {
    && d in s.raws && e.ino in s'.raws && e.ino != d && Only(g, s, s', {d, e.ino})
    && e.ino !in UsedInodes(g, s.m.disk) && UsedInodes(g, s'.m.disk) == UsedInodes(g, s.m.disk) + {e.ino}
    && FreeInodesOf(s'.m) == FreeInodesOf(s.m) - 1 && DirCounts(s'.m) == DirCounts(s.m)
    && FreeBlocksOf(s'.m) + |s'.owner| == FreeBlocksOf(s.m) + |s.owner|
    && (forall b :: b in s.owner ==> b in s'.owner && s'.owner[b] == s.owner[b])
    && (forall b :: b in s'.owner && b !in s.owner ==> Ino(s'.owner[b]) == d)
    && s'.raws[e.ino] == raw && ModeOf(s'.raws[d]) == ModeOf(s.raws[d]) && LinksOf(s'.raws[d]) == LinksOf(s.raws[d])
    && SameRest(s.raws[d], s'.raws[d]) && IsDir(g, s', d) && Added(ListOf(g, s, d), ListOf(g, s', d), e)
  }

  lemma MadeDir(g: Geom, s: Fs, s': Fs, x: nat, raw: RawInode, d: nat)
    requires SizesOK(g) && InodeMade(g, s, s', x, raw) && d != x && IsDir(g, s, d)
    ensures IsDir(g, s', d) && ListOf(g, s', d) == ListOf(g, s, d)
  {
    RecordDir(g, s, s', d, NBlocks(g, s, d));
  }

  lemma QuietOnly(g: Geom, s: Fs, s': Fs, x: nat, raw: RawInode)
    requires SizesOK(g) && x in s.raws && s'.raws == s.raws[x := raw] && s'.owner == s.owner && SameBytes(g, s, s')
    requires PtrsSame(g, s, s')
    ensures Only(g, s, s', {x})
  {
    forall i, j: nat | i in s.raws && j < MapEnd(g.bs / 4) ensures Resolve(V(g, s'), i, j) == Resolve(V(g, s), i, j) {
      ResolveSame(g, s, s', i, j);
    }
  }

  lemma CreateOnly(g: Geom, s: Fs, s1: Fs, s2: Fs, d: nat, x: nat, raw: RawInode)
    requires SizesOK(g) && x in s.raws && InodeMade(g, s, s1, x, raw) && Only(g, s1, s2, {d})
    ensures Only(g, s, s2, {d, x})
  {
    QuietOnly(g, s, s1, x, raw);
    OnlyTrans(g, s, s1, s2, {x}, {d}, {d, x});
  }

  lemma CreateDone(g: Geom, s: Fs, s1: Fs, s2: Fs, d: nat, e: Entry, raw: RawInode, dirty: set<nat>)
    requires SizesOK(g) && e.ino in s.raws && InodeMade(g, s, s1, e.ino, raw) && d in UsedInodes(g, s.m.disk)
    requires IsDir(g, s, d)
    requires DirAdded(g, s1, s2, d, e, dirty)
    ensures Created(g, s, s2, d, e, raw)
  {
    MadeDir(g, s, s1, e.ino, raw, d);
    DirStepOnly(g, s1, s2, d);
    CreateOnly(g, s, s1, s2, d, e.ino, raw);
  }

  lemma PlantDone(g: Geom, s: Fs, s1: Fs, s2: Fs, d: nat, e: Entry, raw: RawInode)
    requires e.ino in s.raws && InodeMade(g, s, s1, e.ino, raw) && d in UsedInodes(g, s.m.disk) && d in s.raws
    requires EntryPut(g, s1, s2, d, e)
    ensures Planted(g, s, s2, d, e, raw)
  {
    hide Filed, SameFile, SameBytes, PtrsSame, RecordsKept, Only, Displaces, Used, SameRest, Full;
    MadeSame(g, s, s1, d);
    FullSame(g, s, s1, d, |e.name|);
    FiledSame(g, s, s1, s2, d, e);
    CreateOnly(g, s, s1, s2, d, e.ino, raw);
    OnlyKeys(g, s1, s2, {d});
  }

  lemma OnlyKeys(g: Geom, s: Fs, s': Fs, xs: set<nat>)
    requires Only(g, s, s', xs)
    ensures s'.raws.Keys == s.raws.Keys && forall i :: i in s.raws && i !in xs ==> s'.raws[i] == s.raws[i]
  {
  }

  lemma PlantClean(g: Geom, s: Fs, s': Fs, d: nat, e: Entry, raw: RawInode)
    requires Clean(g, s) && d in UsedInodes(g, s.m.disk) && Planted(g, s, s', d, e, raw)
    ensures Clean(g, s')
  {
  }

  lemma CreateClean(g: Geom, s: Fs, s': Fs, d: nat, e: Entry, raw: RawInode)
    requires Clean(g, s) && d in UsedInodes(g, s.m.disk) && Created(g, s, s', d, e, raw)
    ensures Clean(g, s')
  {
  }

  lemma UndoneReads(g: Geom, s: Fs, s1: Fs, s2: Fs, s3: Fs, d: nat)
    requires SizesOK(g) && d in s.raws && s1.raws.Keys == s.raws.Keys && s2.raws.Keys == s.raws.Keys
    requires SameBytes(g, s, s1) && PtrsSame(g, s, s1) && SameFile(g, s1, s2, d) && OthersKept(g, s1, s2, d)
    requires SameBytes(g, s2, s3) && PtrsSame(g, s2, s3)
    ensures SameFile(g, s, s3, d) && OthersKept(g, s, s3, d)
  {
    forall i, j: nat | i in s.raws && j < MapEnd(g.bs / 4) ensures Resolve(V(g, s3), i, j) == Resolve(V(g, s), i, j) {
      ResolveSame(g, s, s1, i, j);
      ResolveSame(g, s2, s3, i, j);
    }
  }

  lemma CreateUndone(g: Geom, s: Fs, s1: Fs, s2: Fs, s3: Fs, d: nat, x: nat, raw: RawInode, dirty: set<nat>)
    requires SizesOK(g) && x in s.raws && d in s.raws && Clean(g, s) && InodeMade(g, s, s1, x, raw)
    requires d in UsedInodes(g, s.m.disk)
    requires Unadded(g, s1, s2, d, dirty) && InodeUnmade(g, s2, s3, x) && Synced(g, s3, dirty + {d})
    ensures Unadded(g, s, s3, d, dirty) && Clean(g, s3)
  {
    assert SameFile(g, s, s3, d) && OthersKept(g, s, s3, d) by { UndoneReads(g, s, s1, s2, s3, d); }
    assert DirStep(g, s, s3, d) && SameExtent(s.raws[d], s3.raws[d]) by {
      UndoneStep(g, s, s1, s2, s3, d, x, raw);
    }
    assert DiskInode(g, s3.m.disk, d) == DiskInode(g, s.m.disk, d);
  }

  lemma UndoneStep(g: Geom, s: Fs, s1: Fs, s2: Fs, s3: Fs, d: nat, x: nat, raw: RawInode)
    requires x in s.raws && x != d && s.raws[x] == Zeros(128) && InodeMade(g, s, s1, x, raw) && DirStep(g, s1, s2, d)
    requires SameExtent(s1.raws[d], s2.raws[d]) && InodeUnmade(g, s2, s3, x) && OthersKept(g, s, s3, d)
    ensures DirStep(g, s, s3, d) && SameExtent(s.raws[d], s3.raws[d])
  {
  }

  /** The entry did not fit: the inode goes back. */
  method UndoCreate(vol: Vol, dir: Inode, x: nat, raw: RawInode, ghost s: Fs, ghost s1: Fs, ghost dirty: set<nat>)
    requires Loaded(vol, dir) && Unadded(vol.g, s1, Snap(vol), dir.ino, dirty)
    requires x in s.raws && InodeMade(vol.g, s, s1, x, raw) && NoBlocks(raw)
    requires dir.ino in s.raws && dir.ino in UsedInodes(vol.g, s.m.disk) && Clean(vol.g, s)
    modifies vol`disk, vol`sb, vol`gds, vol`raws
    ensures Loaded(vol, dir) && Clean(vol.g, Snap(vol)) && Unadded(vol.g, s, Snap(vol), dir.ino, dirty)
    ensures vol.owner == old(vol.owner)
  {
    hide Owns, OwnedOK, MetaOK, SameFile, OthersKept, SameBytes, PtrsSame, RecordsKept, Clean, Synced, FsOK, Used,
         UsedInodes, DiskOK, RolesOK, GeomOK;
    ghost var s2 := Snap(vol);
    Shape(vol.g, s2);
    UndoInode(vol, x, dirty + {dir.ino});
    assert vol.raws == s2.raws[x := Zeros(128)];
    CreateUndone(vol.g, s, s1, s2, Snap(vol), dir.ino, x, raw, dirty);
  }

  /** A fresh inode changes nothing about where an entry goes or whether it can. */
  lemma MadeAdds(g: Geom, s: Fs, s1: Fs, x: nat, raw: RawInode, d: nat, name: Buf)
    requires FsOK(g, s) && FsOK(g, s1) && InodeMade(g, s, s1, x, raw) && d in UsedInodes(g, s.m.disk) && d in s.raws
    requires x in s.raws
    ensures Cramped(g, s1, d, name, 2) <==> Cramped(g, s, d, name, 2)
    ensures CanAdd(g, s1, d, |name|, 0) <==> CanAdd(g, s, d, |name|, 0)
    ensures Contained(g, s1, d, |name|) <==> Contained(g, s, d, |name|)
    ensures Takes(g, s1, d, |name|) <==> Takes(g, s, d, |name|)
    ensures IsDir(g, s, d) ==> IsDir(g, s1, d)
  {
    hide FsOK, Cramped, UsedInodes, Used, RecordsKept, CanAdd, Contained, IsDir, Only, Full;
    Shape(g, s);
    assert SameFile(g, s, s1, d) by { MadeSame(g, s, s1, d); }
    CrampedSame(g, s, s1, d, name, 2, 2);
    QuietOnly(g, s, s1, x, raw);
    CanAddSame(g, s, s1, {x}, d, |name|, 0, 0);
    FullSame(g, s, s1, d, |name|);
    if IsDir(g, s, d) { MadeDir(g, s, s1, x, raw, d); }
  }

  lemma MadeSame(g: Geom, s: Fs, s1: Fs, d: nat)
    requires SizesOK(g) && SameBytes(g, s, s1) && PtrsSame(g, s, s1) && d in s.raws
    ensures SameFile(g, s, s1, d)
  {
    forall j: nat | j < MapEnd(g.bs / 4) ensures Resolve(V(g, s1), d, j) == Resolve(V(g, s), d, j) {
      ResolveSame(g, s, s1, d, j);
    }
  }

  /** There is an inode to be had. */
  ghost predicate HasInode(g: Geom, s: Fs) { exists i: nat :: IsIno(g, i) && i !in UsedInodes(g, s.m.disk) }

  /** The second half of ext2_create: name the fresh inode, or give it back. */
  method NameFile(vol: Vol, dir: Inode, name: Buf, x: nat, raw: RawInode, ghost s: Fs, ghost dirty: set<nat>)
    returns (ok: bool)
    requires Loaded(vol, dir) && Synced(vol.g, Snap(vol), dirty) && FsOK(vol.g, s)
    requires |name| <= 255 ==> Contained(vol.g, s, dir.ino, |name|)
    requires x in s.raws && InodeMade(vol.g, s, Snap(vol), x, raw) && NoBlocks(raw) && 0 < x < U32
    requires dir.ino in s.raws && dir.ino in UsedInodes(vol.g, s.m.disk) && Clean(vol.g, s)
    modifies vol, dir`raw, dir`blocks, dir`size
    ensures Loaded(vol, dir) && Clean(vol.g, Snap(vol))
    ensures ok <==> CanAdd(vol.g, s, dir.ino, |name|, 0)
    ensures ok ==> Planted(vol.g, s, Snap(vol), dir.ino, FileEntry(name, x), raw)
    ensures ok ==> Synced(vol.g, Snap(vol), dirty)
    ensures ok && IsDir(vol.g, s, dir.ino) && Takes(vol.g, s, dir.ino, |name|) ==>
      Created(vol.g, s, Snap(vol), dir.ino, FileEntry(name, x), raw)
    ensures !ok ==> Unadded(vol.g, s, Snap(vol), dir.ino, dirty)
    ensures !ok ==> OneRoot(s.owner, vol.owner, dir.ino, Cramped(vol.g, s, dir.ino, name, 2))
  {
    hide Owns, OwnedOK, MetaOK, Synced, Unadded, Created, Planted, Clean, Cramped, CanAdd, Contained, Takes, OneRoot,
         IsDir, SameBytes, PtrsSame, RecordsKept, DirStep, Added, FsOK, EntryPut, DirAdded, UsedInodes, Used;
    ghost var s1 := Snap(vol);
    Shape(vol.g, s1);
    MadeAdds(vol.g, s, s1, x, raw, dir.ino, name);
    ok := AddDirEntry(vol, dir, name, x, FT_FILE, dirty);
    if ok {
      PlantDone(vol.g, s, s1, Snap(vol), dir.ino, FileEntry(name, x), raw);
      PlantClean(vol.g, s, Snap(vol), dir.ino, FileEntry(name, x), raw);
      if IsDir(vol.g, s, dir.ino) && Takes(vol.g, s, dir.ino, |name|) {
        CreateDone(vol.g, s, s1, Snap(vol), dir.ino, FileEntry(name, x), raw, dirty);
      }
    } else {
      UndoCreate(vol, dir, x, raw, s, s1, dirty);
    }
  }

  /** ext2_create: a fresh empty file under a new name; when the entry does not fit, the inode
      goes back. An existing name is not looked for, nor whether the parent is a directory. */
  method Create(vol: Vol, dir: Inode, name: Buf, mode: nat, ghost dirty: set<nat>)
    returns (ok: bool, x: nat, ghost made: RawInode)
    requires DirOpen(vol, dir, dirty)
    requires |name| <= 255 ==> Contained(vol.g, Snap(vol), dir.ino, |name|)
    modifies vol, dir`raw, dir`blocks, dir`size
    ensures Loaded(vol, dir) && Clean(vol.g, Snap(vol))
    ensures ok <==> CanCreate(vol.g, old(Snap(vol)), dir.ino, name)
    ensures ok ==> Planted(vol.g, old(Snap(vol)), Snap(vol), dir.ino, FileEntry(name, x), made)
    ensures ok ==> Born(made, TYPE_FILE, mode, 1, 0, 0) && NoBlocks(made)
    ensures ok ==> Synced(vol.g, Snap(vol), dirty)
    ensures ok && IsDir(vol.g, old(Snap(vol)), dir.ino) && Takes(vol.g, old(Snap(vol)), dir.ino, |name|) ==>
      Created(vol.g, old(Snap(vol)), Snap(vol), dir.ino, FileEntry(name, x), made)
    ensures !ok ==> Unadded(vol.g, old(Snap(vol)), Snap(vol), dir.ino, dirty)
    ensures !ok ==> OneRoot(old(vol.owner), vol.owner, dir.ino, CreateLoses(vol.g, old(Snap(vol)), dir.ino, name))
  {
    hide Owns, OwnedOK, MetaOK, Synced, Unadded, Created, Planted, Clean, Cramped, CanAdd, Contained, Takes, OneRoot,
         IsDir, SameBytes, PtrsSame, RecordsKept, Used, UsedInodes, NewRecord, FsOK;
    ghost var s := Snap(vol);
    Shape(vol.g, s);
    var raw := NewRecord(FileMode(mode), 1);
    made := raw;
    x := NewInode(vol, raw, dirty);
    if x == 0 {
      DirUnchanged(vol.g, s, dir.ino, dirty);
      NothingGained(s.owner, dir.ino);
      return false, 0, raw;
    }
    MadeNumber(vol.g, s, Snap(vol), x, raw);
    ok := NameFile(vol, dir, name, x, raw, s, dirty);
  }

  lemma MadeNumber(g: Geom, s: Fs, s1: Fs, x: nat, raw: RawInode)
    requires FsOK(g, s) && InodeMade(g, s, s1, x, raw)
    ensures x in s.raws && 0 < x < U32 && HasInode(g, s)
  {
    Shape(g, s);
  }

  /** What a create needs: an inode, a name that is not too long, and room for it or the free
      blocks that one more block of the parent takes. */
  ghost predicate CanCreate(g: Geom, s: Fs, d: nat, name: Buf) { HasInode(g, s) && CanAdd(g, s, d, |name|, 0) }

  /** Creating the name in d fails and loses a block: an inode can be had, the blocks of d are
      full, and of the two blocks left one goes to a doubly indirect tree that is then dropped. */
  ghost predicate CreateLoses(g: Geom, s: Fs, d: nat, name: Buf) { HasInode(g, s) && Cramped(g, s, d, name, 2) }

  // ----- unlink -----

  /** The inode the first entry of that name in directory d names. */
  function TargetOf(g: Geom, s: Fs, d: nat, name: Buf): nat
  {
    var es := ListOf(g, s, d);
    if First(es, name) < |es| then es[First(es, name)].ino else 0
  }

  ghost predicate NamesFile(g: Geom, s: Fs, d: nat, name: Buf)
  {
    var x := TargetOf(g, s, d, name);
    !Absent(ListOf(g, s, d), name) && x in s.raws && !IsDirMode(ModeOf(s.raws[x]))
  }

  ghost predicate NamesDir(g: Geom, s: Fs, d: nat, name: Buf)
  {
    var x := TargetOf(g, s, d, name);
    !Absent(ListOf(g, s, d), name) && x in s.raws && IsDirMode(ModeOf(s.raws[x]))
  }

  /** What an entry of that name, if there is one, may name: an inode in use other than the
      directory itself, its record on the device, and a well-formed directory if it is one. */
  ghost predicate TargetOK(g: Geom, s: Fs, d: nat, name: Buf, dirty: set<nat>)
  {
    !Absent(ListOf(g, s, d), name) ==>
      var x := TargetOf(g, s, d, name);
      && x != d && x in UsedInodes(g, s.m.disk) && x !in dirty
      && (x in s.raws && IsDirMode(ModeOf(s.raws[x])) ==> IsDir(g, s, x))
  }

  /** The file ino is gone: its record, its number, and the blocks deletion can reach. */
  ghost predicate Erased(g: Geom, s: Fs, s': Fs, x: nat)
  {
    && x in s'.raws && s'.raws[x] == Zeros(128) && s'.owner == Restrict(s.owner, Others(x))
    && UsedInodes(g, s'.m.disk) == UsedInodes(g, s.m.disk) - {x}
    && FreeInodesOf(s'.m) == FreeInodesOf(s.m) + 1
    && FreeBlocksOf(s'.m) == FreeBlocksOf(s.m) + |Held(s.owner, Deletable(g.bs / 4, x))|
  }

  /** The file x stays, with one link fewer. */
  ghost predicate LinkLess(g: Geom, s: Fs, s': Fs, x: nat)
  {
    && x in s.raws && x in s'.raws && LinksOf(s'.raws[x]) == Low16(Dec32(LinksOf(s.raws[x])))
    && SameBody(s.raws[x], s'.raws[x]) && s'.owner == s.owner
    && UsedInodes(g, s'.m.disk) == UsedInodes(g, s.m.disk) && FreeInodesOf(s'.m) == FreeInodesOf(s.m)
    && FreeBlocksOf(s'.m) == FreeBlocksOf(s.m)
    && forall q: nat :: q < U32 ==> RawByte(V(g, s'), x, q) == RawByte(V(g, s), x, q)
  }

  ghost predicate Unlinked(g: Geom, s: Fs, s': Fs, d: nat, name: Buf, x: nat)
  {
    && x in s.raws && d in s.raws && x in s'.raws && d in s'.raws && x != d && Only(g, s, s', {d, x})
    && s'.raws[d] == s.raws[d] && DirCounts(s'.m) == DirCounts(s.m)
    && IsDir(g, s', d) && Removed(ListOf(g, s, d), ListOf(g, s', d), name)
    && if LinksOf(s.raws[x]) == 1 then Erased(g, s, s', x) else LinkLess(g, s, s', x)
  }

  lemma DeletedOnly(g: Geom, s: Fs, s': Fs, x: nat)
    requires Deleted(g, s, s', x)
    ensures Only(g, s, s', {x})
  {
  }

  /** Removing an entry rewrites one block and moves no pointer or counter. */
  ghost predicate OnlyDisk(s: Fs, s': Fs)
  {
    s'.raws == s.raws && s'.owner == s.owner && s'.m == s.m.(disk := s'.m.disk)
  }

  lemma UnlinkErased(g: Geom, s: Fs, s1: Fs, s2: Fs, d: nat, name: Buf, x: nat)
    requires SizesOK(g) && x != d && OnlyDisk(s, s1) && IsDir(g, s1, d) && DirStep(g, s, s1, d)
    requires Removed(ListOf(g, s, d), ListOf(g, s1, d), name)
    requires Deleted(g, s1, s2, x) && LinksOf(s.raws[x]) == 1
    ensures Unlinked(g, s, s2, d, name, x)
  {
    assert Only(g, s1, s2, {x}) by { DeletedOnly(g, s1, s2, x); }
    OtherDir(g, s1, s2, {x}, d);
    assert Only(g, s, s2, {d, x}) by {
      DirStepOnly(g, s, s1, d);
      OnlyTrans(g, s, s1, s2, {d}, {x}, {d, x});
    }
    assert DirCounts(s1.m) == DirCounts(s.m);
  }

  lemma UnlinkKept(g: Geom, s: Fs, s1: Fs, s2: Fs, d: nat, name: Buf, x: nat, raw: RawInode)
    requires SizesOK(g) && x in s.raws && x != d && OnlyDisk(s, s1)
    requires IsDir(g, s1, d) && DirStep(g, s, s1, d) && Removed(ListOf(g, s, d), ListOf(g, s1, d), name)
    requires RecordStep(g, s1, s2, x, raw) && SameBytes(g, s1, s2) && PtrsSame(g, s1, s2)
    requires LinksOf(raw) == Low16(Dec32(LinksOf(s.raws[x]))) && SameBody(s.raws[x], raw)
    requires LinksOf(s.raws[x]) != 1
    ensures Unlinked(g, s, s2, d, name, x)
  {
    assert Only(g, s1, s2, {x}) by { QuietOnly(g, s1, s2, x, raw); }
    OtherDir(g, s1, s2, {x}, d);
    assert Only(g, s, s2, {d, x}) by {
      DirStepOnly(g, s, s1, d);
      OnlyTrans(g, s, s1, s2, {d}, {x}, {d, x});
    }
    assert DirCounts(s2.m) == DirCounts(s.m);
  }

  lemma UnlinkClean(g: Geom, s: Fs, s': Fs, d: nat, name: Buf, x: nat)
    requires Clean(g, s) && Unlinked(g, s, s', d, name, x) && d in UsedInodes(g, s.m.disk)
    requires x in UsedInodes(g, s.m.disk)
    ensures Clean(g, s')
  {
  }

  /** target->nlink-- and what follows. */
  method DropLink(vol: Vol, target: Inode, ghost dirty: set<nat>)
    requires Loaded(vol, target) && Synced(vol.g, Snap(vol), dirty) && target.ino in UsedInodes(vol.g, vol.disk)
    requires target.nlink == LinksOf(target.raw)
    modifies vol, target
    ensures FsOK(vol.g, Snap(vol)) && Synced(vol.g, Snap(vol), dirty)
    ensures LinksOf(old(target.raw)) == 1 ==> Deleted(vol.g, old(Snap(vol)), Snap(vol), target.ino)
    ensures LinksOf(old(target.raw)) != 1 ==>
      && RecordStep(vol.g, old(Snap(vol)), Snap(vol), target.ino, target.raw)
      && SameBytes(vol.g, old(Snap(vol)), Snap(vol)) && PtrsSame(vol.g, old(Snap(vol)), Snap(vol))
      && LinksOf(target.raw) == Low16(Dec32(LinksOf(old(target.raw))))
      && SameBody(old(target.raw), target.raw)
  {
    hide DiskOK, RolesOK, GeomOK, ListOf, DirOK, Only, PtrsSame, SameBytes, TablesSame, RecordsKept, RecordWritten,
         RawByte, Resolve, MapEnd, Ptr, Restrict, Others, Deletable, Deleted, Erased, Unlinked;
    ghost var s := Snap(vol);
    target.nlink := Dec32(target.nlink);
    if target.nlink == 0 {
      SyncedMore(vol.g, Snap(vol), dirty, target.ino);
      DeleteInode(vol, target, dirty);
    } else {
      SyncedMore(vol.g, Snap(vol), dirty, target.ino);
      WriteInode(vol, target);
      RecordSynced(vol.g, s, Snap(vol), target.ino, target.raw, dirty);
    }
  }

  lemma SyncedMore(g: Geom, s: Fs, dirty: set<nat>, x: nat)
    requires Synced(g, s, dirty)
    ensures Synced(g, s, dirty + {x})
  {
  }

  /** The entry of the file, then its link. */
  method EraseName(vol: Vol, dir: Inode, name: Buf, target: Inode, ghost dirty: set<nat>)
    requires DirOpen(vol, dir, dirty) && IsDir(vol.g, Snap(vol), dir.ino) && Loaded(vol, target)
    requires target.ino != dir.ino && target.nlink == LinksOf(target.raw)
    requires target.ino in UsedInodes(vol.g, vol.disk)
    requires !Absent(ListOf(vol.g, Snap(vol), dir.ino), name)
    modifies vol, target
    ensures FsOK(vol.g, Snap(vol)) && Synced(vol.g, Snap(vol), dirty) && Clean(vol.g, Snap(vol))
    ensures Unlinked(vol.g, old(Snap(vol)), Snap(vol), dir.ino, name, target.ino)
  {
    hide FsOK, Synced, IsDir, ListOf, Removed, RecordStep, Deleted, Unlinked, SameBytes, PtrsSame, Clean, Only;
    ghost var s := Snap(vol);
    Shape(vol.g, s);
    var _ := RemoveDirEntry(vol, dir, name, dirty);
    ghost var s1 := Snap(vol);
    assert OnlyDisk(s, s1);
    DropLink(vol, target, dirty);
    if LinksOf(s.raws[target.ino]) == 1 {
      UnlinkErased(vol.g, s, s1, Snap(vol), dir.ino, name, target.ino);
    } else {
      UnlinkKept(vol.g, s, s1, Snap(vol), dir.ino, name, target.ino, target.raw);
    }
    UnlinkClean(vol.g, s, Snap(vol), dir.ino, name, target.ino);
  }

  /** ext2_unlink: the first entry of that name goes unless it names a directory, and with the
      last link the file itself. */
  method Unlink(vol: Vol, dir: Inode, name: Buf, ghost dirty: set<nat>) returns (ok: bool)
    requires DirOpen(vol, dir, dirty)
    requires IsDirMode(dir.mode) ==>
      IsDir(vol.g, Snap(vol), dir.ino) && TargetOK(vol.g, Snap(vol), dir.ino, name, dirty)
    modifies vol
    ensures FsOK(vol.g, Snap(vol)) && Synced(vol.g, Snap(vol), dirty) && Clean(vol.g, Snap(vol))
    ensures ok <==> IsDirMode(dir.mode) && NamesFile(vol.g, old(Snap(vol)), dir.ino, name)
    ensures !ok ==> Snap(vol) == old(Snap(vol))
    ensures ok ==>
      Unlinked(vol.g, old(Snap(vol)), Snap(vol), dir.ino, name, TargetOf(vol.g, old(Snap(vol)), dir.ino, name))
  {
    hide Synced, Clean, Unlinked, OwnedOK, Used, UsedInodes, IsDir, ListOf, DirOK;
    ghost var s := Snap(vol);
    var found, e := FindDirEntry(vol, dir, name);
    if !found { return false; }
    var target := ReadInode(vol, e.ino, dirty);
    if IsDirMode(target.mode) { return false; }
    EraseName(vol, dir, name, target, dirty);
    return true;
  }
}
