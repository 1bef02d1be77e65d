/** ext2/superblock.c: reading the metadata back from the device, as a mount does. */
module Mount {
  import opened Words
  import opened Bytes
  import opened Arith
  import opened BlockTree
  import opened Layout
  import opened Metadata
  import opened Volume

  /** The device as a stream of bytes. */
  function DevByte(bs: nat, disk: seq<Block>, p: nat): Byte
  {
    var b := At(disk, Quot(p, bs));
    if Rem(p, bs) < |b| then b[Rem(p, bs)] else 0
  }

  const SECTOR := 512

  /** read_blocks while the device still works in sectors */
  method ReadSectors(vol: Vol, lba: nat, count: nat) returns (buf: Buf)
    ensures |buf| == SECTOR * count
    ensures forall k :: 0 <= k < |buf| ==> buf[k] == DevByte(vol.g.bs, vol.disk, SECTOR * lba + k)
  {
    buf := [];
    while |buf| < SECTOR * count
      invariant |buf| <= SECTOR * count
      invariant forall k :: 0 <= k < |buf| ==> buf[k] == DevByte(vol.g.bs, vol.disk, SECTOR * lba + k)
    {
      buf := buf + [DevByte(vol.g.bs, vol.disk, SECTOR * lba + |buf|)];
    }
  }

  lemma SuperByte(g: Geom, disk: seq<Block>, k: nat)
    requires SizesOK(g) && DiskOK(g, disk) && SbBlock(g) < g.blocks && k < SB_SIZE
    ensures DevByte(g.bs, disk, 1024 + k) == SuperAt(g, disk)[k]
  {
    if g.bs == 1024 {
      QuotUnique(1, 1024, k);
      assert Times(1, 1024) == 1024;
    } else {
      QuotUnique(0, g.bs, 1024 + k);
    }
  }

  /** ext2_read_superblock: sectors 2 and 3. */
  method ReadSuperblock(vol: Vol) returns (sb: Buf)
    requires GeomOK(vol.g) && DiskOK(vol.g, vol.disk)
    ensures sb == SuperAt(vol.g, vol.disk)
  {
    sb := ReadSectors(vol, 2, 2);
    forall k | 0 <= k < 1024 ensures sb[k] == SuperAt(vol.g, vol.disk)[k] {
      SuperByte(vol.g, vol.disk, k);
    }
  }

  /** (s_blocks_count - s_first_data_block + s_blocks_per_group - 1) / s_blocks_per_group in 32 bits */
  function GroupsCount(g: Geom): nat
    requires SizesOK(g)
  {
    Quot(Add32(g.blocks - g.first, g.bpg - 1), g.bpg)
  }

  /** The group count comes out right exactly when the rounding does not overflow. */
  lemma GroupsCountRight(g: Geom)
    requires SizesOK(g)
    ensures GroupsCount(g) == g.groups <==> g.blocks - g.first + g.bpg - 1 < U32
  {
    var n := g.blocks - g.first + g.bpg - 1;
    if n < U32 {
      var q := Quot(n, g.bpg);
      QuotRem(n, g.bpg);
      assert Times(g.groups, g.bpg) == Times(g.groups - 1, g.bpg) + g.bpg;
      assert Times(q, g.bpg) + Rem(n, g.bpg) == n;
      if q + 1 < g.groups { TimesLess(q, g.groups - 1, g.bpg); }
      if g.groups < q {
        TimesLess(g.groups, q, g.bpg);
      }
    } else {
      assert Quot(n - U32, g.bpg) == 0;
    }
  }

  /** The descriptors of one block of the table. */
  method CutDescs(buf: Buf, n: nat) returns (ds: seq<Buf>)
    requires n * GD_SIZE <= |buf|
    ensures |ds| == n && forall k :: 0 <= k < n ==> ds[k] == buf[k * GD_SIZE..k * GD_SIZE + GD_SIZE]
  {
    ds := [];
    while |ds| < n
      invariant |ds| <= n
      invariant forall k :: 0 <= k < |ds| ==> ds[k] == buf[k * GD_SIZE..k * GD_SIZE + GD_SIZE]
    {
      ds := ds + [buf[|ds| * GD_SIZE..|ds| * GD_SIZE + GD_SIZE]];
    }
  }

  lemma DescOfRow(g: Geom, disk: seq<Block>, row: nat, k: nat)
    requires SizesOK(g) && DiskOK(g, disk) && k < DescPerBlock(g) && g.first + 1 + row < g.blocks
    ensures DescBlock(g, Times(row, DescPerBlock(g)) + k) == g.first + 1 + row
    ensures DescAt(g, disk, Times(row, DescPerBlock(g)) + k) ==
      disk[g.first + 1 + row][k * GD_SIZE..k * GD_SIZE + GD_SIZE]
  {
    QuotUnique(row, DescPerBlock(g), k);
  }

  /** ext2_read_group_desc: block after block until all groups are in. */
  method ReadGroupDescs(vol: Vol) returns (gds: seq<Buf>)
    requires GeomOK(vol.g) && DiskOK(vol.g, vol.disk)
    ensures |gds| == vol.g.groups
    ensures forall x :: 0 <= x < vol.g.groups ==> gds[x] == DescAt(vol.g, vol.disk, x)
  {
    var g := vol.g;
    var perBlock := g.bs / GD_SIZE;
    var gdBlock := g.first + 1;
    ghost var row := 0;
    gds := [];
    while |gds| < g.groups
      invariant |gds| <= g.groups && gdBlock == g.first + 1 + row
      invariant |gds| < g.groups ==> |gds| == Times(row, perBlock)
      invariant forall x :: 0 <= x < |gds| ==> gds[x] == DescAt(g, vol.disk, x)
    {
      QuotUnique(row, perBlock, 0);
      assert DescBlock(g, |gds|) == gdBlock;
      var buf := vol.disk[gdBlock];
      var n := g.groups - |gds|;
      if n > perBlock { n := perBlock; }
      var ds := CutDescs(buf, n);
      forall k | 0 <= k < n ensures ds[k] == DescAt(g, vol.disk, |gds| + k) {
        DescOfRow(g, vol.disk, row, k);
      }
      gds := gds + ds;
      gdBlock := gdBlock + 1;
      row := row + 1;
    }
  }

  /** After any allocator or directory traffic, mounting again reads what memory holds. */
  method Remount(vol: Vol) returns (sb: Buf, gds: seq<Buf>)
    requires MetaOK(vol.g, vol.M())
    ensures sb == vol.sb && gds == vol.gds
  {
    sb := ReadSuperblock(vol);
    gds := ReadGroupDescs(vol);
  }
}
