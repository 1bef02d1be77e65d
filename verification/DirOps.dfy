/** ext2/directory.c: finding, adding and removing entries of an open directory. */
module DirOps {
  import opened Words
  import opened Bytes
  import opened Arith
  import opened BlockTree
  import opened Layout
  import opened Metadata
  import opened Volume
  import opened FsState
  import opened BlockMap
  import opened InodeTable
  import opened FileData
  import opened FileOps
  import opened Truncate
  import opened EntryLists
  import opened DirBlock
  import opened Directory

  /** FS_IS_DIR */
  predicate IsDirMode(mode: nat) { mode / 4096 % 16 == 4 }

  /** The type is bits 12 to 15 and nothing else. */
  lemma DirModeIs(mode: nat)
    requires mode < U16
    ensures IsDirMode(mode) <==> 0x4000 <= mode < 0x5000
  {
  }

  /** Blocks in directory d by its recorded size. */
  function NBlocks(g: Geom, s: Fs, d: nat): nat
  {
    if d in s.raws && 0 < g.bs <= 4096 then BlockCount(SizeOf(s.raws[d]), g.bs) else 0
  }

  ghost predicate IsDir(g: Geom, s: Fs, d: nat)
  {
    d in s.raws && DirOK(V(g, s), d, NBlocks(g, s, d))
  }

  /** The entries of directory d. */
  function ListOf(g: Geom, s: Fs, d: nat): seq<Entry>
  {
    DirList(V(g, s), d, NBlocks(g, s, d))
  }

  /** An inode in memory: the VFS fields are those of the record, the link count in 16 bits. */
  ghost predicate Loaded(vol: Vol, inode: Inode)
    reads vol, inode
  {
    && Open(vol, inode) && inode.size == SizeOf(inode.raw)
    && inode.mode == ModeOf(inode.raw) && Low16(inode.nlink) == LinksOf(inode.raw)
  }

  /** 4 GiB is a whole number of blocks. */
  lemma NextFits(n: nat, bs: nat)
    requires bs in {1024, 2048, 4096} && Times(n, bs) < U32
    ensures Times(n, bs) + bs <= U32 && Times(n + 1, bs) == Times(n, bs) + bs
  {
    if bs == 1024 { TimesIs(n, 1024); } else if bs == 2048 { TimesIs(n, 2048); } else { TimesIs(n, 4096); }
  }

  /** As many blocks as a recorded size takes, and one more, end below 4 GiB. */
  lemma CountFits(size: nat, bs: nat)
    requires size < U32 && bs in {1024, 2048, 4096}
    ensures Times(BlockCount(size, bs), bs) + bs <= U32
  {
    QuotRem(Add32(size, bs - 1), bs);
    NextFits(BlockCount(size, bs), bs);
  }

  /** Block l of a file, at most one past its last, as a position in the file. */
  lemma BlockFits(g: Geom, s: Fs, d: nat, l: nat)
    requires SizesOK(g) && l <= NBlocks(g, s, d)
    ensures Times(l, g.bs) + g.bs <= U32 && Quot(Times(l, g.bs), g.bs) == l && Rem(Times(l, g.bs), g.bs) == 0
    ensures l < MapEnd(g.bs / 4)
  {
    var n := NBlocks(g, s, d);
    if d in s.raws { CountFits(SizeOf(s.raws[d]), g.bs); }
    if l < n { TimesLess(l, n, g.bs); }
    QuotUnique(l, g.bs, 0);
    PosInMap(g.bs, Times(l, g.bs));
  }

  /** The block under logical block b of a file: its bytes, or a hole. */
  method BlockOf(vol: Vol, dir: Inode, b: nat) returns (phys: nat)
    requires Readable(vol, dir) && b < NBlocks(vol.g, Snap(vol), dir.ino)
    ensures phys == Resolve(V(vol.g, Snap(vol)), dir.ino, b)
    ensures phys == 0 ==> BlockList(V(vol.g, Snap(vol)), dir.ino, b) == []
    ensures phys != 0 ==> phys < |vol.disk| && |vol.disk[phys]| == vol.g.bs
    ensures phys != 0 ==> BlockBytes(V(vol.g, Snap(vol)), dir.ino, b) == vol.disk[phys]
    ensures phys != 0 ==> BlockList(V(vol.g, Snap(vol)), dir.ino, b) == Entries(vol.disk[phys])
  {
    ghost var v := V(vol.g, Snap(vol));
    BlockFits(vol.g, Snap(vol), dir.ino, b);
    phys := ResolveBlockNum(vol, dir.raw, b, dir.ino);
    if phys == 0 {
      HoleList(v, dir.ino, b);
    } else {
      DataSlotIs(v, dir.ino, b);
      MappedBlock(v, dir.ino, b);
    }
  }

  /** A mapped block of a directory is a chain of records. */
  lemma ChainAt(g: Geom, s: Fs, d: nat, b: nat)
    requires IsDir(g, s, d) && b < NBlocks(g, s, d) && Resolve(V(g, s), d, b) != 0
    ensures Chain(BlockBytes(V(g, s), d, b))
  {
  }

  /** One turn of the search: the first entry of that name in block b. */
  method FindAt(vol: Vol, dir: Inode, b: nat, name: Buf) returns (found: bool, e: Entry)
    requires Readable(vol, dir) && DirOK(V(vol.g, Snap(vol)), dir.ino, NBlocks(vol.g, Snap(vol), dir.ino))
    requires b < NBlocks(vol.g, Snap(vol), dir.ino)
    ensures found <==> !Absent(BlockList(V(vol.g, Snap(vol)), dir.ino, b), name)
    ensures found ==>
      e == BlockList(V(vol.g, Snap(vol)), dir.ino, b)[First(BlockList(V(vol.g, Snap(vol)), dir.ino, b), name)]
  {
    var phys := BlockOf(vol, dir, b);
    if phys == 0 { return false, Entry([], 0, 0); }
    var blk := vol.disk[phys];
    var off, done := FindInBlock(blk, name);
    if off == |blk| { return false, Entry([], 0, 0); }
    return true, EntryOf(blk[off..][..RecLen(blk[off..])]);
  }

  /** ext2_find_dir_entry: the first entry of that name, if the inode is a directory. */
  method FindDirEntry(vol: Vol, dir: Inode, name: Buf) returns (found: bool, e: Entry)
    requires Readable(vol, dir) && dir.size == SizeOf(dir.raw)
    requires IsDirMode(dir.mode) ==> IsDir(vol.g, Snap(vol), dir.ino)
    ensures found <==> IsDirMode(dir.mode) && !Absent(ListOf(vol.g, Snap(vol), dir.ino), name)
    ensures found ==> e == ListOf(vol.g, Snap(vol), dir.ino)[First(ListOf(vol.g, Snap(vol), dir.ino), name)]
  {
    hide Owns, DirOK, BlockList, Cat, First, Resolve, DiskOK;
    found, e := false, Entry([], 0, 0);
    if !IsDirMode(dir.mode) { return; }
    var n := BlockCount(dir.size, vol.g.bs);
    ghost var ls := Lists(V(vol.g, Snap(vol)), dir.ino, n);
    var b := 0;
    while b < n
      invariant b <= n && !found
      invariant forall j :: 0 <= j < b ==> Absent(ls[j], name)
    {
      found, e := FindAt(vol, dir, b, name);
      if found {
        CatFirst(ls, b, name);
        return;
      }
      b := b + 1;
    }
    CatAbsent(ls, name);
  }

  // ----- changing a directory -----

  /** From s to s' at most directory d changed: its bytes, its size, and blocks it gained. */
  ghost predicate DirStep(g: Geom, s: Fs, s': Fs, d: nat)
  {
    && s'.raws.Keys == s.raws.Keys && d in s.raws
    && (forall i :: i in s.raws && i != d ==> s'.raws[i] == s.raws[i])
    && ModeOf(s'.raws[d]) == ModeOf(s.raws[d]) && LinksOf(s'.raws[d]) == LinksOf(s.raws[d])
    && SameRest(s.raws[d], s'.raws[d])
    && (forall b :: b in s.owner ==> b in s'.owner && s'.owner[b] == s.owner[b])
    && (forall b :: b in s'.owner && b !in s.owner ==> Ino(s'.owner[b]) == d)
    && Used(g, s.m.disk) <= Used(g, s'.m.disk)
    && UsedInodes(g, s'.m.disk) == UsedInodes(g, s.m.disk) && FreeInodesOf(s'.m) == FreeInodesOf(s.m)
    && DirCounts(s'.m) == DirCounts(s.m)
    && FreeBlocksOf(s'.m) + |s'.owner| == FreeBlocksOf(s.m) + |s.owner|
    && OthersKept(g, s, s', d)
  }

  lemma PartHeader(raws: map<nat, RawInode>, raws': map<nat, RawInode>, d: nat)
    requires RawsWrote(raws, raws', d)
    ensures ModeOf(raws'[d]) == ModeOf(raws[d]) && LinksOf(raws'[d]) == LinksOf(raws[d])
    ensures SizeOf(raws'[d]) == SizeOf(raws[d])
  {
    assert forall k :: 0 <= k < 28 ==> raws'[d][k] == raws[d][k];
  }

  lemma PartIsDirStep(g: Geom, s: Fs, s': Fs, d: nat, pos: nat, chunk: Buf, ok: bool)
    requires SizesOK(g) && PartDone(g, s, s', d, pos, chunk, ok)
    ensures DirStep(g, s, s', d) && SizeOf(s'.raws[d]) == SizeOf(s.raws[d])
  {
    PartHeader(s.raws, s'.raws, d);
    assert OthersKept(g, s, s', d) by { PartOthers(g, s, s', d, pos, chunk, ok); }
  }

  lemma PartSynced(g: Geom, s: Fs, s': Fs, d: nat, dirty: set<nat>)
    requires GeomOK(g) && FileStep(g, s, s', d) && Synced(g, s, dirty) && (forall i :: i in s.raws <==> IsIno(g, i))
    ensures Synced(g, s', dirty + {d})
    ensures s'.raws == s.raws ==> Synced(g, s', dirty)
  {
    SyncedKept(g, s, s', dirty, dirty + {d});
    if s'.raws == s.raws { SyncedKept(g, s, s', dirty, dirty); }
  }

  /** ext2_write_block of an edited block. */
  method StoreBlock(vol: Vol, dir: Inode, l: nat, phys: nat, chunk: Buf, ghost dirty: set<nat>)
    requires FsOK(vol.g, Snap(vol)) && dir.ino in vol.raws && vol.raws[dir.ino] == dir.raw
    requires Synced(vol.g, Snap(vol), dirty) && l < NBlocks(vol.g, Snap(vol), dir.ino)
    requires phys != 0 && phys == Resolve(V(vol.g, Snap(vol)), dir.ino, l) && |chunk| == vol.g.bs
    modifies vol`disk
    ensures FsOK(vol.g, Snap(vol)) && Synced(vol.g, Snap(vol), dirty)
    ensures PartDone(vol.g, old(Snap(vol)), Snap(vol), dir.ino, Times(l, vol.g.bs), chunk, true)
  {
    hide FsOK, Synced, Laid, MapsKept, CountsData, Resolve, TablesSame, RawsWrote;
    ghost var s := Snap(vol);
    Shape(vol.g, s);
    BlockFits(vol.g, s, dir.ino, l);
    WriteOver(vol, dir, Times(l, vol.g.bs), chunk, phys, chunk);
    PartSynced(vol.g, s, Snap(vol), dir.ino, dirty);
  }

  /** ext2_write_block of an edited directory block. */
  method StoreDirBlock(vol: Vol, dir: Inode, l: nat, phys: nat, chunk: Buf, ghost dirty: set<nat>)
    requires FsOK(vol.g, Snap(vol)) && dir.ino in vol.raws && vol.raws[dir.ino] == dir.raw
    requires Synced(vol.g, Snap(vol), dirty)
    requires IsDir(vol.g, Snap(vol), dir.ino) && l < NBlocks(vol.g, Snap(vol), dir.ino)
    requires phys != 0 && phys == Resolve(V(vol.g, Snap(vol)), dir.ino, l) && |chunk| == vol.g.bs && Chain(chunk)
    modifies vol`disk
    ensures FsOK(vol.g, Snap(vol)) && Synced(vol.g, Snap(vol), dirty) && IsDir(vol.g, Snap(vol), dir.ino)
    ensures DirStep(vol.g, old(Snap(vol)), Snap(vol), dir.ino)
    ensures ListOf(vol.g, Snap(vol), dir.ino) ==
      Cat(Lists(V(vol.g, old(Snap(vol))), dir.ino, NBlocks(vol.g, Snap(vol), dir.ino))[l := Entries(chunk)])
  {
    hide FsOK, DirOK, Synced, Laid, MapsKept, CountsData, Resolve, Chain, Cat, OthersKept, DirStep, Lists, TablesSame,
         RawsWrote;
    ghost var s := Snap(vol);
    Shape(vol.g, s);
    ghost var n := NBlocks(vol.g, s, dir.ino);
    BlockFits(vol.g, s, dir.ino, l);
    StoreBlock(vol, dir, l, phys, chunk, dirty);
    PartIsDirStep(vol.g, s, Snap(vol), dir.ino, Times(l, vol.g.bs), chunk, true);
    DirRewritten(vol.g, s, Snap(vol), dir.ino, n, l, chunk);
  }

  /** From s to s' directory d lost its first entry of that name. */
  ghost predicate DirRemoved(g: Geom, s: Fs, s': Fs, d: nat, name: Buf, dirty: set<nat>)
  {
    && FsOK(g, s') && IsDir(g, s', d) && DirStep(g, s, s', d) && Synced(g, s', dirty)
    && Removed(ListOf(g, s, d), ListOf(g, s', d), name)
  }

  /** The name is in none of the first b blocks of directory d. */
  ghost predicate AbsentBefore(g: Geom, s: Fs, d: nat, name: Buf, b: nat)
  {
    forall j: nat :: j < b ==> Absent(BlockList(V(g, s), d, j), name)
  }

  lemma AbsentNext(g: Geom, s: Fs, d: nat, name: Buf, b: nat)
    requires AbsentBefore(g, s, d, name, b) && Absent(BlockList(V(g, s), d, b), name)
    ensures AbsentBefore(g, s, d, name, b + 1)
  {
  }

  lemma AbsentAll(g: Geom, s: Fs, d: nat, name: Buf)
    requires AbsentBefore(g, s, d, name, NBlocks(g, s, d))
    ensures Absent(ListOf(g, s, d), name)
  {
    CatAbsent(Lists(V(g, s), d, NBlocks(g, s, d)), name);
  }

  /** One turn of the outer loop of ext2_remove_dir_entry. */
  method RemoveAtBlock(vol: Vol, dir: Inode, b: nat, name: Buf, ghost dirty: set<nat>) returns (ok: bool)
    requires FsOK(vol.g, Snap(vol)) && dir.ino in vol.raws && vol.raws[dir.ino] == dir.raw
    requires Synced(vol.g, Snap(vol), dirty)
    requires IsDir(vol.g, Snap(vol), dir.ino) && b < NBlocks(vol.g, Snap(vol), dir.ino)
    requires AbsentBefore(vol.g, Snap(vol), dir.ino, name, b)
    modifies vol`disk
    ensures !ok ==> vol.disk == old(vol.disk) && AbsentBefore(vol.g, old(Snap(vol)), dir.ino, name, b + 1)
    ensures ok ==> DirRemoved(vol.g, old(Snap(vol)), Snap(vol), dir.ino, name, dirty)
  {
    hide Removed, Cat, First, Synced, DirStep, Owns, OwnedOK, Used, UsedInodes;
    ghost var s := Snap(vol);
    var phys := BlockOf(vol, dir, b);
    if phys == 0 {
      AbsentNext(vol.g, s, dir.ino, name, b);
      return false;
    }
    var blk;
    ok, blk := RemoveInBlock(vol.disk[phys], name);
    if ok {
      CatRemove(Lists(V(vol.g, s), dir.ino, NBlocks(vol.g, s, dir.ino)), b, Entries(blk), name);
      StoreDirBlock(vol, dir, b, phys, blk, dirty);
    } else {
      AbsentNext(vol.g, s, dir.ino, name, b);
    }
  }

  /** The outer loop of ext2_remove_dir_entry. */
  method RemoveInPlace(vol: Vol, dir: Inode, name: Buf, ghost dirty: set<nat>) returns (ok: bool)
    requires FsOK(vol.g, Snap(vol)) && dir.ino in vol.raws && vol.raws[dir.ino] == dir.raw
    requires Synced(vol.g, Snap(vol), dirty)
    requires IsDir(vol.g, Snap(vol), dir.ino) && dir.size == SizeOf(dir.raw)
    modifies vol`disk
    ensures !ok ==> vol.disk == old(vol.disk)
    ensures !ok ==> AbsentBefore(vol.g, old(Snap(vol)), dir.ino, name, NBlocks(vol.g, old(Snap(vol)), dir.ino))
    ensures ok ==> DirRemoved(vol.g, old(Snap(vol)), Snap(vol), dir.ino, name, dirty)
  {
    ghost var s := Snap(vol);
    var n := BlockCount(dir.size, vol.g.bs);
    var b := 0;
    ok := false;
    while b < n
      invariant b <= n && vol.disk == old(vol.disk) && AbsentBefore(vol.g, s, dir.ino, name, b)
    {
      assert Snap(vol) == s;
      ok := RemoveAtBlock(vol, dir, b, name, dirty);
      if ok { return; }
      b := b + 1;
    }
    return false;
  }

  /** ext2_remove_dir_entry: the first entry of that name goes, all others stay in order. */
  method RemoveDirEntry(vol: Vol, dir: Inode, name: Buf, ghost dirty: set<nat>) returns (ok: bool)
    requires Loaded(vol, dir) && Synced(vol.g, Snap(vol), dirty) && IsDir(vol.g, Snap(vol), dir.ino)
    modifies vol`disk
    ensures Loaded(vol, dir)
    ensures !ok ==> vol.disk == old(vol.disk) && Absent(ListOf(vol.g, Snap(vol), dir.ino), name)
    ensures ok ==> DirRemoved(vol.g, old(Snap(vol)), Snap(vol), dir.ino, name, dirty)
  {
    ghost var s := Snap(vol);
    ok := RemoveInPlace(vol, dir, name, dirty);
    if !ok {
      assert Snap(vol) == s;
      AbsentAll(vol.g, s, dir.ino, name);
    }
  }
}
