/** ext2/inode.c: where inode records live on the device, and reading and writing them. */
module InodeTable {
  import opened Bytes
  import opened Arith
  import opened BlockTree
  import opened Layout
  import opened Volume
  import opened FsState

  const RAW_SIZE := 128

  // byte offsets inside ext2_inode_t
  const I_MODE := 0
  const I_SIZE := 4
  const I_LINKS := 26
  const I_BLOCKS := 28

  function InodeBlock(g: Geom, ino: nat): nat
    requires 0 < g.isz <= g.bs
  {
    TableBlock(g, InoGroup(g, ino), Quot(InoIndex(g, ino), InodesPerBlock(g)))
  }

  function InodeOff(g: Geom, ino: nat): nat
    requires 0 < g.isz <= g.bs
  {
    Times(Rem(InoIndex(g, ino), InodesPerBlock(g)), g.isz)
  }

  /** Where the record is on the device: the table is an array of records, isz bytes each. */
  lemma InodeAddress(g: Geom, ino: nat)
    requires GeomOK(g) && IsIno(g, ino) && g.bs % g.isz == 0
    ensures InoGroup(g, ino) < g.groups
    ensures InodeBlock(g, ino) * g.bs + InodeOff(g, ino) ==
      g.itab[InoGroup(g, ino)] * g.bs + (ino - 1) % g.ipg * g.isz
  {
    hide RolesOK, Quot, Rem, Times;
    InoGroupIndex(g, ino);
    QuotIs(ino - 1, g.ipg);
    QuotIs(g.bs, g.isz);
    var n, idx := g.bs / g.isz, InoIndex(g, ino);
    QuotRem(idx, n);
    var q, r := Quot(idx, n), Rem(idx, n);
    TimesIs(q, n);
    TimesIs(r, g.isz);
    RowAddress(g.itab[InoGroup(g, ino)], q, r, n, g.isz, g.bs);
  }

  lemma RowAddress(t: nat, q: nat, r: nat, n: nat, isz: nat, bs: nat)
    requires bs == n * isz
    ensures (t + q) * bs + r * isz == t * bs + (q * n + r) * isz
  {
    assert q * (n * isz) == q * n * isz;
  }

  lemma RowFits(bs: nat, isz: nat, k: nat)
    requires 128 <= isz <= bs && k < Quot(bs, isz)
    ensures Times(k, isz) + 128 <= bs
  {
    QuotRem(bs, isz);
    TimesLess(k, Quot(bs, isz), isz);
  }

  lemma RowOfIndex(idx: nat, ipg: nat, n: nat)
    requires n > 0 && idx < ipg
    ensures Quot(idx, n) <= Quot(ipg - 1, n)
  {
    QuotRem(idx, n);
    QuotRem(ipg - 1, n);
    if Quot(ipg - 1, n) < Quot(idx, n) {
      TimesLess(Quot(ipg - 1, n), Quot(idx, n), n);
      assert false;
    }
  }

  lemma InodeSpot(g: Geom, ino: nat)
    requires GeomOK(g) && IsIno(g, ino)
    ensures InodeBlock(g, ino) < g.blocks && g.role[InodeBlock(g, ino)].InodeTable?
    ensures InodeOff(g, ino) + RAW_SIZE <= g.bs
  {
    InoGroupIndex(g, ino);
    RowOfIndex(InoIndex(g, ino), g.ipg, InodesPerBlock(g));
    RowFits(g.bs, g.isz, Rem(InoIndex(g, ino), InodesPerBlock(g)));
  }

  /** Two inode records in one block do not overlap. */
  lemma InodeApart(g: Geom, a: nat, b: nat)
    requires GeomOK(g) && IsIno(g, a) && IsIno(g, b) && a != b && InodeBlock(g, a) == InodeBlock(g, b)
    ensures InodeOff(g, a) + RAW_SIZE <= InodeOff(g, b) || InodeOff(g, b) + RAW_SIZE <= InodeOff(g, a)
  {
    var n := InodesPerBlock(g);
    InodeRole(g, a);
    InodeRole(g, b);
    InoGroupIndex(g, a);
    InoGroupIndex(g, b);
    QuotRem(InoIndex(g, a), n);
    QuotRem(InoIndex(g, b), n);
    var x, y := Rem(InoIndex(g, a), n), Rem(InoIndex(g, b), n);
    if x < y { TimesLess(x, y, g.isz); } else { TimesLess(y, x, g.isz); }
  }

  lemma InodeRole(g: Geom, ino: nat)
    requires GeomOK(g) && IsIno(g, ino)
    ensures InodeBlock(g, ino) < g.blocks
    ensures g.role[InodeBlock(g, ino)] == Role.InodeTable(InoGroup(g, ino), Quot(InoIndex(g, ino), InodesPerBlock(g)))
  {
    InoGroupIndex(g, ino);
    RowOfIndex(InoIndex(g, ino), g.ipg, InodesPerBlock(g));
  }

  /** The record of inode ino as the device holds it. */
  function DiskInode(g: Geom, disk: seq<Block>, ino: nat): Buf
    requires 0 < g.isz <= g.bs
  {
    var blk, off := At(disk, InodeBlock(g, ino)), InodeOff(g, ino);
    if off + RAW_SIZE <= |blk| then blk[off..off + RAW_SIZE] else []
  }

  /** ext2_read_inode_raw */
  method ReadInodeRaw(vol: Vol, ino: nat) returns (raw: RawInode)
    requires GeomOK(vol.g) && DiskOK(vol.g, vol.disk) && IsIno(vol.g, ino)
    ensures |raw| == RAW_SIZE && raw == DiskInode(vol.g, vol.disk, ino)
  {
    InodeSpot(vol.g, ino);
    InoGroupIndex(vol.g, ino);
    var idx := Rem(ino - 1, vol.g.ipg);
    var perBlock := Quot(vol.g.bs, vol.g.isz);
    var blk := vol.g.itab[Quot(ino - 1, vol.g.ipg)] + Quot(idx, perBlock);
    var off := Times(Rem(idx, perBlock), vol.g.isz);
    var buf := vol.disk[blk];
    raw := buf[off..off + RAW_SIZE];
  }

  /** From disk to disk' only the record of ino was rewritten. */
  ghost predicate RecordWritten(g: Geom, disk: seq<Block>, disk': seq<Block>, ino: nat, raw: RawInode)
    requires 0 < g.isz <= g.bs
  {
    && DiskOK(g, disk) && DiskOK(g, disk') && |g.role| == g.blocks
    && DiskInode(g, disk', ino) == raw
    && (forall j: nat :: IsIno(g, j) && j != ino ==> DiskInode(g, disk', j) == DiskInode(g, disk, j))
    && (forall b :: 0 <= b < g.blocks && !g.role[b].InodeTable? ==> disk'[b] == disk[b])
    && OnlyRecord(g, disk, disk', ino)
  }

  /** Byte k of block b belongs to the record of ino. */
  predicate InRecord(g: Geom, ino: nat, b: int, k: int)
    requires 0 < g.isz <= g.bs
  {
    b == InodeBlock(g, ino) && InodeOff(g, ino) <= k < InodeOff(g, ino) + 128
  }

  /** No byte of the device changed but the 128 of that record. */
  ghost predicate OnlyRecord(g: Geom, disk: seq<Block>, disk': seq<Block>, ino: nat)
    requires 0 < g.isz <= g.bs && DiskOK(g, disk) && DiskOK(g, disk')
  {
    forall b, k :: 0 <= b < g.blocks && 0 <= k < g.bs && !InRecord(g, ino, b, k) ==> disk'[b][k] == disk[b][k]
  }

  /** The device's records other than that of x are as before. */
  ghost predicate RecordsKept(g: Geom, disk: seq<Block>, disk': seq<Block>, x: nat)
  {
    SizesOK(g) && forall j: nat :: IsIno(g, j) && j != x ==> DiskInode(g, disk', j) == DiskInode(g, disk, j)
  }

  /** ext2_write_inode_raw */
  method WriteInodeRaw(vol: Vol, ino: nat, raw: RawInode)
    requires GeomOK(vol.g) && DiskOK(vol.g, vol.disk) && IsIno(vol.g, ino) && |raw| == RAW_SIZE
    modifies vol`disk
    ensures RecordWritten(vol.g, old(vol.disk), vol.disk, ino, raw)
  {
    InodeSpot(vol.g, ino);
    ghost var disk := vol.disk;
    var idx := Rem(ino - 1, vol.g.ipg);
    var perBlock := Quot(vol.g.bs, vol.g.isz);
    assert Quot(ino - 1, vol.g.ipg) < vol.g.groups by { InoGroupIndex(vol.g, ino); }
    var blk := vol.g.itab[Quot(ino - 1, vol.g.ipg)] + Quot(idx, perBlock);
    var off := Times(Rem(idx, perBlock), vol.g.isz);
    var buf := Splice(vol.disk[blk], off, raw);
    vol.disk := vol.disk[blk := buf];
    RecordStored(vol.g, disk, vol.disk, ino, raw);
  }

  lemma RecordStored(g: Geom, disk: seq<Block>, disk': seq<Block>, ino: nat, raw: RawInode)
    requires GeomOK(g) && DiskOK(g, disk) && IsIno(g, ino) && |raw| == RAW_SIZE
    requires InodeBlock(g, ino) < g.blocks && InodeOff(g, ino) + RAW_SIZE <= g.bs
    requires disk' == disk[InodeBlock(g, ino) := Splice(disk[InodeBlock(g, ino)], InodeOff(g, ino), raw)]
    ensures RecordWritten(g, disk, disk', ino, raw)
  {
    InodeSpot(g, ino);
    var off := InodeOff(g, ino);
    assert disk'[InodeBlock(g, ino)][off..off + RAW_SIZE] == raw;
    forall j: nat | IsIno(g, j) && j != ino ensures DiskInode(g, disk', j) == DiskInode(g, disk, j) {
      InodeSpot(g, j);
      if InodeBlock(g, j) == InodeBlock(g, ino) {
        InodeApart(g, ino, j);
        var o := InodeOff(g, j);
        assert disk'[InodeBlock(g, j)][o..o + RAW_SIZE] == disk[InodeBlock(g, j)][o..o + RAW_SIZE];
      }
    }
  }

  /** The device holds the records in force of all inodes in use, except those changed in
      memory only. */
  ghost predicate Synced(g: Geom, s: Fs, dirty: set<nat>)
  {
    SizesOK(g) && forall i :: i in UsedInodes(g, s.m.disk) && i in s.raws && i !in dirty ==>
      DiskInode(g, s.m.disk, i) == s.raws[i]
  }

  /** No inode table block changed. */
  ghost predicate TablesSame(g: Geom, disk: seq<Block>, disk': seq<Block>)
  {
    forall b: nat :: b < |g.role| && g.role[b].InodeTable? ==> At(disk', b) == At(disk, b)
  }

  lemma TablesKeep(g: Geom, disk: seq<Block>, disk': seq<Block>, x: nat)
    requires GeomOK(g) && TablesSame(g, disk, disk')
    ensures RecordsKept(g, disk, disk', x)
  {
    forall j: nat | IsIno(g, j) ensures DiskInode(g, disk', j) == DiskInode(g, disk, j) { InodeSpot(g, j); }
  }

  lemma SyncedKept(g: Geom, s: Fs, s': Fs, dirty: set<nat>, dirty': set<nat>)
    requires GeomOK(g) && Synced(g, s, dirty) && TablesSame(g, s.m.disk, s'.m.disk)
    requires UsedInodes(g, s'.m.disk) <= UsedInodes(g, s.m.disk) && s'.raws.Keys == s.raws.Keys
    requires forall i :: i in s.raws && i !in dirty' ==> i !in dirty && s'.raws[i] == s.raws[i]
    ensures Synced(g, s', dirty')
  {
    forall i | i in UsedInodes(g, s'.m.disk) && i in s'.raws && i !in dirty'
      ensures DiskInode(g, s'.m.disk, i) == s'.raws[i]
    {
      InodeSpot(g, i);
    }
  }

  lemma RecordFs(g: Geom, s: Fs, s': Fs, ino: nat, raw: RawInode)
    requires FsOK(g, s) && s' == s.(m := s.m.(disk := s'.m.disk)) && RecordWritten(g, s.m.disk, s'.m.disk, ino, raw)
    ensures FsOK(g, s')
    ensures PtrsSame(g, s, s')
  {
    FsWrote(g, s, s');
  }

  /** Changing bytes of a record outside i_block[] moves no pointer. */
  lemma HeaderFs(g: Geom, s: Fs, s': Fs, ino: nat)
    requires FsOK(g, s) && ino in s.raws && ino in s'.raws && |s'.raws[ino]| == 128
    requires s' == s.(raws := s.raws[ino := s'.raws[ino]])
    requires forall k :: 40 <= k < 100 ==> s'.raws[ino][k] == s.raws[ino][k]
    ensures FsOK(g, s')
    ensures PtrsSame(g, s, s')
  {
    forall i, k: nat | i in s.raws && k < 15 ensures RootWord(s'.raws, i, k) == RootWord(s.raws, i, k) {
      var o := 4 * (IBLOCK_WORD + k);
      assert s'.raws[ino][o] == s.raws[ino][o] && s'.raws[ino][o+1] == s.raws[ino][o+1];
      assert s'.raws[ino][o+2] == s.raws[ino][o+2] && s'.raws[ino][o+3] == s.raws[ino][o+3];
    }
    OwnsFrame(V(g, s), V(g, s'), s.owner);
  }
}
