/** Where things live on an ext2 volume, and what mounting and flushing move between the
    device and memory. */
module Layout {
  import opened Words
  import opened Bytes
  import opened BlockTree
  import opened Arith

  /** The one purpose a device block serves; giving each block a single role is what keeps
      bitmaps, tables and file data apart. */
  datatype Role =
    | Reserved
    | Super
    | Gdt(index: nat)
    | BlockBitmap(group: nat)
    | InodeBitmap(group: nat)
    | InodeTable(group: nat, index: nat)
    | Data

  /** The fields of the superblock and group descriptors that never change after mkfs. */
  datatype Geom = Geom(
    bs: nat,            // block size
    first: nat,         // s_first_data_block
    blocks: nat,        // s_blocks_count
    bpg: nat,           // s_blocks_per_group
    ipg: nat,           // s_inodes_per_group
    isz: nat,           // bytes per inode record
    groups: nat,
    bbm: seq<nat>,      // bg_block_bitmap
    ibm: seq<nat>,      // bg_inode_bitmap
    itab: seq<nat>,     // bg_inode_table
    role: seq<Role>,
    super: Buf,         // the superblock and the descriptors, whatever their counts
    descs: seq<Buf>)

  // byte offsets inside ext2_superblock_t and ext2_group_desc_t
  const SB_FREE_BLOCKS := 12
  const SB_FREE_INODES := 16
  const GD_FREE_BLOCKS := 12
  const GD_FREE_INODES := 14
  const GD_USED_DIRS := 16

  const SB_SIZE := 1024
  const GD_SIZE := 32

  function SbBlock(g: Geom): nat { if g.bs == 1024 then 1 else 0 }
  function DescPerBlock(g: Geom): nat { g.bs / GD_SIZE }
  function DescBlock(g: Geom, grp: nat): nat { g.first + 1 + Quot(grp, DescPerBlock(g)) }
  function DescOff(g: Geom, grp: nat): nat { Rem(grp, DescPerBlock(g)) * GD_SIZE }

  function InodesPerBlock(g: Geom): (n: nat)
    requires 0 < g.isz <= g.bs
    ensures n > 0
  { Quot(g.bs, g.isz) }
  /** Block k of the inode table of group grp */
  function TableBlock(g: Geom, grp: nat, k: nat): nat { if grp < |g.itab| then g.itab[grp] + k else k }
  function InodeCount(g: Geom): nat { Times(g.groups, g.ipg) }

  ghost predicate SizesOK(g: Geom)
  {
    && g.bs in {1024, 2048, 4096}
    && 0 < g.bpg <= 8 * g.bs && 0 < g.ipg <= 8 * g.bs
    && 128 <= g.isz <= g.bs
    && g.groups > 0
    && g.first < g.blocks < U32
    && Times(g.groups - 1, g.bpg) < g.blocks - g.first <= Times(g.groups, g.bpg)
    && InodeCount(g) < U32
    && |g.bbm| == |g.ibm| == |g.itab| == g.groups
    && |g.role| == g.blocks
  }

  /** Every piece of metadata sits on a block of its own role. */
  ghost predicate RolesOK(g: Geom)
    requires SizesOK(g)
  {
    && SbBlock(g) < g.blocks && g.role[SbBlock(g)] == Super
    && (forall grp :: 0 <= grp < g.groups ==>
          DescBlock(g, grp) < g.blocks && g.role[DescBlock(g, grp)] == Gdt(Quot(grp, DescPerBlock(g))))
    && (forall grp :: 0 <= grp < g.groups ==> g.bbm[grp] < g.blocks && g.role[g.bbm[grp]] == BlockBitmap(grp))
    && (forall grp :: 0 <= grp < g.groups ==> g.ibm[grp] < g.blocks && g.role[g.ibm[grp]] == InodeBitmap(grp))
    && (forall grp, k :: 0 <= grp < g.groups && 0 <= k <= Quot(g.ipg - 1, InodesPerBlock(g)) ==>
          TableBlock(g, grp, k) < g.blocks && g.role[TableBlock(g, grp, k)] == InodeTable(grp, k))
    && (forall b :: 0 <= b < g.blocks && g.role[b] == Data ==> b != 0 && g.first <= b)
  }

  ghost predicate GeomOK(g: Geom) { SizesOK(g) && RolesOK(g) }

  ghost predicate DiskOK(g: Geom, disk: seq<Block>)
  {
    |disk| == g.blocks && forall b :: 0 <= b < |disk| ==> |disk[b]| == g.bs
  }

  // ----- the block bitmap -----

  /** Bits in use in the bitmap of group grp: the last group may be shorter. */
  function BitsIn(g: Geom, grp: nat): (n: nat)
    requires SizesOK(g) && grp < g.groups
    ensures n <= g.bpg
  {
    if grp == g.groups - 1 then
      var rem := g.blocks - Times(grp, g.bpg) - g.first;
      if rem < g.bpg then rem else g.bpg
    else g.bpg
  }

  predicate InBitmap(g: Geom, b: nat) { g.first <= b < g.blocks }

  function GroupOf(g: Geom, b: nat): nat { if b < g.first then 0 else Quot(b - g.first, g.bpg) }
  function IndexOf(g: Geom, b: nat): nat { if b < g.first then 0 else Rem(b - g.first, g.bpg) }
  function BlockNo(g: Geom, grp: nat, i: nat): nat { g.first + Times(grp, g.bpg) + i }
  function InoNo(g: Geom, grp: nat, i: nat): nat { Times(grp, g.ipg) + i + 1 }

  lemma GroupIndex(g: Geom, b: nat)
    requires SizesOK(g) && InBitmap(g, b)
    ensures GroupOf(g, b) < g.groups && IndexOf(g, b) < BitsIn(g, GroupOf(g, b))
    ensures BlockNo(g, GroupOf(g, b), IndexOf(g, b)) == b
  {
    QuotRem(b - g.first, g.bpg);
    QuotBelow(b - g.first, g.bpg, g.groups);
  }

  lemma BlockNoInRange(g: Geom, grp: nat, i: nat)
    requires SizesOK(g) && grp < g.groups && i < BitsIn(g, grp)
    ensures InBitmap(g, BlockNo(g, grp, i))
    ensures GroupOf(g, BlockNo(g, grp, i)) == grp && IndexOf(g, BlockNo(g, grp, i)) == i
  {
    if grp < g.groups - 1 { TimesLess(grp, g.groups - 1, g.bpg); }
    QuotUnique(grp, g.bpg, i);
  }

  predicate BlockUsed(g: Geom, disk: seq<Block>, b: nat)
  {
    var grp := GroupOf(g, b);
    grp < |g.bbm| && g.bbm[grp] < |disk| && BitSet(disk[g.bbm[grp]], IndexOf(g, b))
  }

  /** The blocks the bitmaps mark as taken. */
  ghost function Used(g: Geom, disk: seq<Block>): set<nat>
  {
    set b: nat | g.first <= b < g.blocks && BlockUsed(g, disk, b)
  }

  // ----- the inode bitmap: inode numbers start at 1 -----

  predicate IsIno(g: Geom, ino: nat) { 1 <= ino <= InodeCount(g) }

  function InoGroup(g: Geom, ino: nat): nat { if ino == 0 then 0 else Quot(ino - 1, g.ipg) }
  function InoIndex(g: Geom, ino: nat): nat { if ino == 0 then 0 else Rem(ino - 1, g.ipg) }

  lemma InoGroupIndex(g: Geom, ino: nat)
    requires SizesOK(g) && IsIno(g, ino)
    ensures InoGroup(g, ino) < g.groups && InoIndex(g, ino) < g.ipg
    ensures InoNo(g, InoGroup(g, ino), InoIndex(g, ino)) == ino
  {
    QuotRem(ino - 1, g.ipg);
    QuotBelow(ino - 1, g.ipg, g.groups);
  }

  lemma InoInRange(g: Geom, grp: nat, i: nat)
    requires SizesOK(g) && grp < g.groups && i < g.ipg
    ensures IsIno(g, InoNo(g, grp, i))
    ensures InoGroup(g, InoNo(g, grp, i)) == grp && InoIndex(g, InoNo(g, grp, i)) == i
  {
    TimesLess(grp, g.groups, g.ipg);
    QuotUnique(grp, g.ipg, i);
  }

  predicate InodeUsed(g: Geom, disk: seq<Block>, ino: nat)
  {
    var grp := InoGroup(g, ino);
    grp < |g.ibm| && g.ibm[grp] < |disk| && BitSet(disk[g.ibm[grp]], InoIndex(g, ino))
  }

  ghost function UsedInodes(g: Geom, disk: seq<Block>): set<nat>
  {
    set i: nat | 1 <= i <= InodeCount(g) && InodeUsed(g, disk, i)
  }

  // ----- counting clear bits -----

  function CountClear(b: Buf, n: nat): (c: nat)
    ensures c <= n
  {
    if n == 0 then 0 else CountClear(b, n - 1) + if BitSet(b, n - 1) then 0 else 1
  }

  lemma {:induction false} CountFlip(b: Buf, b': Buf, n: nat, i: nat)
    requires forall j: nat :: j < n && j != i ==> BitSet(b', j) == BitSet(b, j)
    requires i < n && !BitSet(b, i) && BitSet(b', i)
    ensures CountClear(b', n) == CountClear(b, n) - 1
  {
    if n - 1 == i {
      CountSame(b, b', n - 1);
    } else {
      CountFlip(b, b', n - 1, i);
    }
  }

  lemma {:induction false} CountSame(b: Buf, b': Buf, n: nat)
    requires forall j: nat :: j < n ==> BitSet(b', j) == BitSet(b, j)
    ensures CountClear(b', n) == CountClear(b, n)
  {
    if n > 0 { CountSame(b, b', n - 1); }
  }

  lemma {:induction false} CountZero(b: Buf, n: nat)
    ensures CountClear(b, n) == 0 <==> forall j: nat :: j < n ==> BitSet(b, j)
  {
    if n > 0 { CountZero(b, n - 1); }
  }

  // ----- summing a 16-bit field over the group descriptors -----

  function Half(b: Buf, o: nat): (v: nat)
    ensures v < U16
  {
    if o + 2 <= |b| then Get16(b, o) else 0
  }

  function SumTo(gds: seq<Buf>, o: nat, k: nat): nat
    requires k <= |gds|
  {
    if k == 0 then 0 else SumTo(gds, o, k - 1) + Half(gds[k-1], o)
  }

  function SumField(gds: seq<Buf>, o: nat): nat { SumTo(gds, o, |gds|) }

  lemma {:induction false} SumUpdate(gds: seq<Buf>, o: nat, grp: nat, d: Buf, k: nat)
    requires grp < |gds| && k <= |gds|
    ensures SumTo(gds[grp := d], o, k) == SumTo(gds, o, k) + if grp < k then Half(d, o) - Half(gds[grp], o) else 0
  {
    if k > 0 { SumUpdate(gds, o, grp, d, k - 1); }
  }

  lemma {:induction false} SumAtLeast(gds: seq<Buf>, o: nat, grp: nat, k: nat)
    requires grp < k <= |gds|
    ensures Half(gds[grp], o) <= SumTo(gds, o, k)
  {
    if grp < k - 1 { SumAtLeast(gds, o, grp, k - 1); }
  }

  // ----- the device copies of the superblock and the descriptors -----

  function SuperAt(g: Geom, disk: seq<Block>): Buf
    requires SizesOK(g) && DiskOK(g, disk) && SbBlock(g) < g.blocks
  {
    if g.bs == 1024 then disk[1] else disk[0][1024..2048]
  }

  function DescAt(g: Geom, disk: seq<Block>, grp: nat): Buf
    requires SizesOK(g) && DiskOK(g, disk) && DescBlock(g, grp) < g.blocks
  {
    DescFits(g, grp);
    disk[DescBlock(g, grp)][DescOff(g, grp)..DescOff(g, grp) + GD_SIZE]
  }

  lemma DescFits(g: Geom, grp: nat)
    requires SizesOK(g)
    ensures DescOff(g, grp) + GD_SIZE <= g.bs
  {
  }

  /** Where a descriptor is on the device: they are an array of 32 bytes each, behind the first data block. */
  lemma DescAddress(g: Geom, grp: nat)
    requires SizesOK(g)
    ensures DescBlock(g, grp) * g.bs + DescOff(g, grp) == (g.first + 1) * g.bs + 32 * grp
  {
    hide Quot, Rem;
    var q, p := Quot(grp, DescPerBlock(g)), DescPerBlock(g);
    QuotRem(grp, p);
    TimesIs(q, p);
    assert g.bs == 32 * p;
    assert q * (32 * p) == 32 * (q * p);
    assert (g.first + 1 + q) * g.bs == (g.first + 1) * g.bs + q * (32 * p);
  }

  lemma DescApart(g: Geom, x: nat, y: nat)
    requires SizesOK(g) && x != y && DescBlock(g, x) == DescBlock(g, y)
    ensures DescOff(g, x) + GD_SIZE <= DescOff(g, y) || DescOff(g, y) + GD_SIZE <= DescOff(g, x)
  {
    QuotRem(x, DescPerBlock(g));
    QuotRem(y, DescPerBlock(g));
  }
}
