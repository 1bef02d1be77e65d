/** The invariant of a mounted file system: sound metadata, and every block of every file
    owned through exactly one pointer, marked used, and never a metadata block. */
module FsState {
  import opened BlockTree
  import opened Layout
  import opened Metadata
  import opened Volume

  datatype Fs = Fs(m: Meta, raws: map<nat, RawInode>, owner: map<nat, Slot>)

  function V(g: Geom, s: Fs): View { View(g.bs, s.m.disk, s.raws) }

  ghost function Snap(vol: Vol): Fs
    reads vol
  { Fs(vol.M(), vol.raws, vol.owner) }

  /** Every slot holds what it held. */
  ghost predicate PtrsSame(g: Geom, s: Fs, s': Fs)
  {
    forall t {:trigger Ptr(V(g, s'), t)} :: IsSlot(V(g, s), t) ==> Ptr(V(g, s'), t) == Ptr(V(g, s), t)
  }

  lemma PtrsSameTrans(g: Geom, s: Fs, s1: Fs, s2: Fs)
    requires PtrsSame(g, s, s1) && PtrsSame(g, s1, s2) && s1.raws.Keys == s.raws.Keys
    ensures PtrsSame(g, s, s2)
  {
    forall t | IsSlot(V(g, s), t) ensures Ptr(V(g, s2), t) == Ptr(V(g, s), t) {
      IsSlotFrame(V(g, s), V(g, s1), t);
    }
  }

  ghost predicate OwnedOK(g: Geom, s: Fs)
    requires SizesOK(g)
  {
    forall b :: b in s.owner ==> InBitmap(g, b) && g.role[b] == Data && b in Used(g, s.m.disk)
  }

  ghost predicate FsOK(g: Geom, s: Fs)
  {
    && MetaOK(g, s.m)
    && (forall i :: i in s.raws <==> IsIno(g, i))
    && (forall i :: i in s.raws ==> |s.raws[i]| == 128)
    && Owns(V(g, s), s.owner)
    && OwnedOK(g, s)
  }

  /** The parts of a sound volume that concern one state alone. */
  lemma Shape(g: Geom, s: Fs)
    requires FsOK(g, s)
    ensures GeomOK(g) && SizesOK(g) && MetaOK(g, s.m) && DiskOK(g, s.m.disk) && forall i :: i in s.raws <==> IsIno(g, i)
  {
  }

  // ----- writes outside the allocator's blocks -----

  ghost predicate IsAllocRole(r: Role) { r.Super? || r.Gdt? || r.BlockBitmap? || r.InodeBitmap? }

  /** disk' differs from disk only in file blocks and inode tables. */
  ghost predicate MetaSame(g: Geom, disk: seq<Block>, disk': seq<Block>)
  {
    && DiskOK(g, disk) && DiskOK(g, disk') && |g.role| == g.blocks
    && forall b :: 0 <= b < g.blocks && IsAllocRole(g.role[b]) ==> disk'[b] == disk[b]
  }

  lemma UsedSame(g: Geom, disk: seq<Block>, disk': seq<Block>)
    requires GeomOK(g) && MetaSame(g, disk, disk')
    ensures Used(g, disk') == Used(g, disk) && UsedInodes(g, disk') == UsedInodes(g, disk)
  {
    forall b: nat | InBitmap(g, b) ensures BlockUsed(g, disk', b) == BlockUsed(g, disk, b) {
      GroupIndex(g, b);
    }
    forall i: nat | IsIno(g, i) ensures InodeUsed(g, disk', i) == InodeUsed(g, disk, i) {
      InoGroupIndex(g, i);
    }
  }

  lemma WrittenThroughSame(g: Geom, m: Meta, m': Meta)
    requires GeomOK(g) && MetaShape(g, m) && WrittenThrough(g, m)
    requires m' == m.(disk := m'.disk) && MetaSame(g, m.disk, m'.disk)
    ensures WrittenThrough(g, m')
  {
    forall x | 0 <= x < g.groups ensures DescAt(g, m'.disk, x) == m'.gds[x] {
      assert m'.disk[DescBlock(g, x)] == m.disk[DescBlock(g, x)];
    }
  }

  lemma MetaKept(g: Geom, m: Meta, m': Meta)
    requires MetaOK(g, m) && m' == m.(disk := m'.disk) && MetaSame(g, m.disk, m'.disk)
    ensures MetaOK(g, m')
    ensures Used(g, m'.disk) == Used(g, m.disk) && UsedInodes(g, m'.disk) == UsedInodes(g, m.disk)
  {
    UsedSame(g, m.disk, m'.disk);
    assert WrittenThrough(g, m') by { WrittenThroughSame(g, m, m'); }
  }

  // ----- how the invariant moves -----

  /** After the allocator took a block, every file is as before and the block is nobody's yet. */
  lemma FsTook(g: Geom, s: Fs, s': Fs, b: nat)
    requires FsOK(g, s) && MetaOK(g, s'.m) && TookBlock(g, s.m, s'.m, b) && s' == s.(m := s'.m)
    ensures FsOK(g, s') && b !in s'.owner
    ensures forall x :: 0 <= x < g.blocks && g.role[x] == Data ==> s'.m.disk[x] == s.m.disk[x]
    ensures PtrsSame(g, s, s')
  {
    assert forall x :: 0 <= x < g.blocks && g.role[x] == Data ==> s'.m.disk[x] == s.m.disk[x];
    OwnsFrame(V(g, s), V(g, s'), s.owner);
  }

  /** Giving a block back writes no data block. */
  lemma GaveData(g: Geom, m: Meta, r: Meta, b: nat)
    requires MetaOK(g, m) && MetaOK(g, r) && GaveBlock(g, m, r, b)
    ensures GeomOK(g) && SizesOK(g) && |m.disk| == g.blocks == |r.disk| == |g.role|
    ensures forall x :: 0 <= x < g.blocks && g.role[x] == Data ==> r.disk[x] == m.disk[x]
  {
  }

  lemma FsGave(g: Geom, s: Fs, s': Fs, b: nat)
    requires FsOK(g, s) && MetaOK(g, s'.m) && GaveBlock(g, s.m, s'.m, b) && s' == s.(m := s'.m) && b !in s.owner
    ensures FsOK(g, s')
    ensures forall x :: 0 <= x < g.blocks && g.role[x] == Data ==> s'.m.disk[x] == s.m.disk[x]
    ensures PtrsSame(g, s, s')
  {
    hide MetaOK, Used, UsedInodes, DirCounts, FreeBlocksOf, FreeInodesOf, OnlyMeta, Owns, GeomOK;
    GaveData(g, s.m, s'.m, b);
    OwnsFrame(V(g, s), V(g, s'), s.owner);
  }

  /** Rewriting blocks that are not indirect blocks moves no pointer. */
  lemma FsWrote(g: Geom, s: Fs, s': Fs)
    requires FsOK(g, s) && s' == s.(m := s.m.(disk := s'.m.disk))
    requires MetaSame(g, s.m.disk, s'.m.disk)
    requires forall b: nat :: Inner(s.owner, b) && b < g.blocks ==> s'.m.disk[b] == s.m.disk[b]
    ensures FsOK(g, s')
    ensures PtrsSame(g, s, s')
  {
    MetaKept(g, s.m, s'.m);
    OwnsFrame(V(g, s), V(g, s'), s.owner);
  }

  /** Hanging a used but ownerless block on an empty slot gives it an owner. */
  lemma FsAttached(g: Geom, s: Fs, s': Fs, t: Slot, x: nat)
    requires FsOK(g, s) && s'.m == s.m.(disk := s'.m.disk) && s'.owner == s.owner[x := t]
    requires MetaSame(g, s.m.disk, s'.m.disk)
    requires InBitmap(g, x) && g.role[x] == Data && x in Used(g, s.m.disk)
    requires Attached(V(g, s), V(g, s'), s.owner, t, x)
    ensures FsOK(g, s')
    ensures forall u :: IsSlot(V(g, s'), u) == IsSlot(V(g, s), u)
    ensures forall u {:trigger Ptr(V(g, s'), u)} ::
      IsSlot(V(g, s), u) ==> Ptr(V(g, s'), u) == if u == t then x else Ptr(V(g, s), u)
  {
    MetaKept(g, s.m, s'.m);
    OwnsAttached(V(g, s), V(g, s'), s.owner, t, x);
  }

  lemma FsInodeStep(g: Geom, s: Fs, s': Fs)
    requires FsOK(g, s) && MetaOK(g, s'.m) && s' == s.(m := s'.m)
    requires OnlyMeta(g, Inodes, s.m.disk, s'.m.disk) && Used(g, s'.m.disk) == Used(g, s.m.disk)
    ensures FsOK(g, s')
    ensures forall x :: 0 <= x < g.blocks && g.role[x] == Data ==> s'.m.disk[x] == s.m.disk[x]
    ensures PtrsSame(g, s, s')
  {
    assert forall x :: 0 <= x < g.blocks && g.role[x] == Data ==> s'.m.disk[x] == s.m.disk[x];
    OwnsFrame(V(g, s), V(g, s'), s.owner);
  }
}
