/** ext2/block.c: logical to physical block resolution and assignment. */
module BlockMap {
  import opened Words
  import opened Bytes
  import opened Arith
  import opened BlockTree
  import opened Layout
  import opened Metadata
  import opened Volume
  import opened FsState

  /** inode_t together with its ext2_inode_data_t. */
  class Inode {
    const ino: nat
    var raw: RawInode   // ei->disk_inode
    var mode: nat
    var size: nat
    var nlink: nat
    var blocks: nat

    constructor (ino: nat, raw: RawInode, mode: nat, size: nat, nlink: nat, blocks: nat)
      ensures this.ino == ino && this.raw == raw && this.mode == mode && this.size == size
      ensures this.nlink == nlink && this.blocks == blocks
    {
      this.ino, this.raw, this.mode, this.size, this.nlink, this.blocks := ino, raw, mode, size, nlink, blocks;
    }
  }

  // ----- logical block numbers and slots -----

  predicate SlotUnder(v: View, i: nat, t: Slot)
  {
    IsSlot(v, t) && Level(t) >= 0 && Ino(t) == i
  }

  lemma DataSlotIs(v: View, i: nat, l: nat)
    requires i in v.raws && Ptrs(v) > 0
    requires l < MapEnd(Ptrs(v))
    ensures var t := DataSlot(Ptrs(v), i, l); IsSlot(v, t) && Level(t) == 0 && Ino(t) == i
  {
    var p := Ptrs(v);
    if l >= DIRECT + p {
      var l2 := l - DIRECT - p;
      if l2 < Times(p, p) {
        QuotBelow(l2, p, p);
        assert SlotUnder(v, i, Root(i, 13)) && SlotUnder(v, i, Child(Root(i, 13), Quot(l2, p)));
      } else {
        var l3 := l2 - Times(p, p);
        var rem := Rem(l3, Times(p, p));
        QuotBelow(l3, Times(p, p), p);
        QuotBelow(rem, p, p);
        var a := Child(Root(i, 14), Quot(l3, Times(p, p)));
        assert SlotUnder(v, i, Root(i, 14)) && SlotUnder(v, i, a) && SlotUnder(v, i, Child(a, Quot(rem, p)));
      }
    }
  }

  /** Distinct file positions use distinct slots. */
  lemma DataSlotInjective(p: nat, i: nat, l: nat, i': nat, l': nat)
    requires p > 0 && DataSlot(p, i, l) == DataSlot(p, i', l')
    ensures i == i' && l == l'
  {
    SlotIndex(p, i, l);
    SlotIndex(p, i', l');
  }

  /** The file position a data slot stands for. */
  function Position(p: nat, t: Slot): nat
  {
    match t
    case Root(_, k) => k
    case Child(Root(_, _), j) => DIRECT + j
    case Child(Child(Root(_, _), a), b) => DIRECT + p + Times(a, p) + b
    case Child(Child(Child(_, a), b), c) => MaxAssign(p) + Times(a, Times(p, p)) + Times(b, p) + c
  }

  lemma SlotIndex(p: nat, i: nat, l: nat)
    requires p > 0
    ensures Position(p, DataSlot(p, i, l)) == l && Ino(DataSlot(p, i, l)) == i
  {
    if l >= DIRECT + p {
      var l2 := l - DIRECT - p;
      if l2 < Times(p, p) {
        QuotRem(l2, p);
        assert Ino(Child(Root(i, 13), Quot(l2, p))) == i;
      } else {
        var l3 := l2 - Times(p, p);
        var rem := Rem(l3, Times(p, p));
        QuotRem(l3, Times(p, p));
        QuotRem(rem, p);
        var a := Child(Root(i, 14), Quot(l3, Times(p, p)));
        assert Ino(a) == Ino(Root(i, 14)) == i;
        assert Ino(Child(a, Quot(rem, p))) == i;
      }
    }
  }

  /** ext2_resolve_block_num: the walk through the device agrees with the pointer forest. */
  method ResolveBlockNum(vol: Vol, raw: RawInode, l: nat, ghost ino: nat) returns (r: nat)
    requires SizesOK(vol.g) && DiskOK(vol.g, vol.disk)
    requires ino in vol.raws && vol.raws[ino] == raw && |raw| == 128
    requires Owns(V(vol.g, Snap(vol)), vol.owner)
    requires l < MapEnd(vol.g.bs / 4)
    ensures r == Ptr(V(vol.g, Snap(vol)), DataSlot(vol.g.bs / 4, ino, l))
  {
    ghost var v := V(vol.g, Snap(vol));
    var ptrs := vol.g.bs / 4;
    DataSlotIs(v, ino, l);
    if l < 12 {
      return Word(raw, IBLOCK_WORD + l);
    }
    var lb := l - 12;
    if lb < ptrs {
      var b := Word(raw, IBLOCK_WORD + 12);
      assert Ptr(v, Root(ino, 12)) == b;
      if b == 0 { return 0; }
      var ind := vol.disk[b];
      return Word(ind, lb);
    }
    lb := lb - ptrs;
    if lb < Times(ptrs, ptrs) {
      var b := Word(raw, IBLOCK_WORD + 13);
      var idx1 := Quot(lb, ptrs);
      var idx2 := Rem(lb, ptrs);
      ghost var t := Child(Root(ino, 13), idx1);
      assert Ptr(v, Root(ino, 13)) == b;
      if b == 0 {
        assert Ptr(v, t) == 0;
        return 0;
      }
      var ind := vol.disk[b];
      var singly := Word(ind, idx1);
      assert Ptr(v, t) == singly;
      if singly == 0 { return 0; }
      ind := vol.disk[singly];
      return Word(ind, idx2);
    }
    lb := lb - Times(ptrs, ptrs);
    r := ResolveTriple(vol, raw, lb, ino);
  }

  /** The triply indirect tail of ext2_resolve_block_num. */
  method ResolveTriple(vol: Vol, raw: RawInode, lb: nat, ghost ino: nat) returns (r: nat)
    requires SizesOK(vol.g) && DiskOK(vol.g, vol.disk)
    requires ino in vol.raws && vol.raws[ino] == raw && |raw| == 128
    requires Owns(V(vol.g, Snap(vol)), vol.owner)
    requires lb < Times(vol.g.bs / 4, Times(vol.g.bs / 4, vol.g.bs / 4))
    ensures var p := vol.g.bs / 4; var rem := Rem(lb, Times(p, p));
      var up := Child(Child(Root(ino, 14), Quot(lb, Times(p, p))), Quot(rem, p));
      r == Ptr(V(vol.g, Snap(vol)), Child(up, Rem(rem, p)))
  {
    ghost var v := V(vol.g, Snap(vol));
    var ptrs := vol.g.bs / 4;
    var b := Word(raw, IBLOCK_WORD + 14);
    var i1 := Quot(lb, Times(ptrs, ptrs));
    var rem := Rem(lb, Times(ptrs, ptrs));
    var i2 := Quot(rem, ptrs);
    var i3 := Rem(rem, ptrs);
    QuotBelow(lb, Times(ptrs, ptrs), ptrs);
    QuotBelow(rem, ptrs, ptrs);
    ghost var t1 := Child(Root(ino, 14), i1);
    ghost var t2 := Child(t1, i2);
    assert Ptr(v, Root(ino, 14)) == b && IsSlot(v, Root(ino, 14)) && IsSlot(v, t1) && IsSlot(v, t2);
    if b == 0 {
      assert Ptr(v, t1) == 0;
      assert Ptr(v, t2) == 0;
      return 0;
    }
    var ind := vol.disk[b];
    var dbl := Word(ind, i1);
    assert Ptr(v, t1) == dbl;
    if dbl == 0 {
      assert Ptr(v, t2) == 0;
      return 0;
    }
    ind := vol.disk[dbl];
    var sgl := Word(ind, i2);
    assert Ptr(v, t2) == sgl;
    if sgl == 0 { return 0; }
    ind := vol.disk[sgl];
    return Word(ind, i3);
  }

  // ----- growing a block map -----

  /** Blocks no growth of a file may rewrite. */
  ghost predicate Untouched(g: Geom, s: Fs, b: nat)
  {
    b < |g.role| && match g.role[b]
      case Data => b in Used(g, s.m.disk) && !Inner(s.owner, b)
      case InodeTable(_, _) => true
      case InodeBitmap(_) => true
      case Reserved => true
      case _ => false
  }

  /** Bytes of the inode record outside i_block[]. */
  ghost predicate SameHeader(a: RawInode, b: RawInode)
  {
    |a| == |b| == 128 && forall k :: 0 <= k < 128 && !(40 <= k < 100) ==> b[k] == a[k]
  }

  /** No file but ino changed its record, and ino at most its block pointers. */
  ghost predicate RawsGrew(raws: map<nat, RawInode>, raws': map<nat, RawInode>, ino: nat)
  {
    && raws'.Keys == raws.Keys && ino in raws
    && (forall i :: i in raws && i != ino ==> raws'[i] == raws[i])
    && SameHeader(raws[ino], raws'[ino])
  }

  /** Owners stay; new owners are blocks that were free, and they hold indirect blocks. */
  ghost predicate OwnersGrew(g: Geom, s: Fs, s': Fs, ino: nat)
  {
    && (forall b :: b in s.owner ==> b in s'.owner && s'.owner[b] == s.owner[b])
    && (forall b :: b in s'.owner && b !in s.owner ==> b !in Used(g, s.m.disk) && Level(s'.owner[b]) > 0)
    && (forall b :: b in s'.owner && b !in s.owner ==> Ino(s'.owner[b]) == ino)
    && Used(g, s.m.disk) <= Used(g, s'.m.disk)
    && UsedInodes(g, s'.m.disk) == UsedInodes(g, s.m.disk)
    && FreeInodesOf(s'.m) == FreeInodesOf(s.m) && DirCounts(s'.m) == DirCounts(s.m)
    && FreeBlocksOf(s'.m) + |s'.owner| == FreeBlocksOf(s.m) + |s.owner|
  }

  /** From s to s' inode ino may have gained indirect blocks, each marked used and counted;
      no file lost or moved a block and every data slot still holds what it held. */
  ghost predicate Grew(g: Geom, s: Fs, s': Fs, ino: nat)
  {
    && RawsGrew(s.raws, s'.raws, ino) && OwnersGrew(g, s, s', ino)
    && BlocksKept(g, s, s')
    && (forall u {:trigger Ptr(V(g, s'), u)} :: IsSlot(V(g, s), u) && Level(u) == 0 ==>
          Ptr(V(g, s'), u) == Ptr(V(g, s), u))
  }

  lemma GrewTrans(g: Geom, s: Fs, s1: Fs, s2: Fs, ino: nat)
    requires Grew(g, s, s1, ino) && Grew(g, s1, s2, ino)
    ensures Grew(g, s, s2, ino)
  {
    forall b: nat | Untouched(g, s, b) ensures At(s2.m.disk, b) == At(s.m.disk, b) {
      assert Untouched(g, s1, b);
    }
    forall u | IsSlot(V(g, s), u) && Level(u) == 0 ensures Ptr(V(g, s2), u) == Ptr(V(g, s), u) {
      IsSlotFrame(V(g, s), V(g, s1), u);
    }
  }

  /** A freshly taken block that already holds zeros on the device. */
  ghost predicate TookZeroed(g: Geom, m: Meta, r: Meta, b: nat)
  {
    && DiskOK(g, m.disk) && DiskOK(g, r.disk) && |g.role| == g.blocks
    && InBitmap(g, b) && g.role[b] == Data
    && b !in Used(g, m.disk) && Used(g, r.disk) == Used(g, m.disk) + {b}
    && UsedInodes(g, r.disk) == UsedInodes(g, m.disk)
    && FreeBlocksOf(r) == FreeBlocksOf(m) - 1
    && FreeInodesOf(r) == FreeInodesOf(m) && DirCounts(r) == DirCounts(m)
    && r.disk[b] == Zeros(g.bs)
    && forall x :: 0 <= x < g.blocks && x != b && !g.role[x].Super? && !g.role[x].Gdt? && !g.role[x].BlockBitmap?
         ==> r.disk[x] == m.disk[x]
  }

  lemma ZeroWritten(g: Geom, m: Meta, m1: Meta, r: Meta, b: nat)
    requires MetaOK(g, m) && MetaOK(g, m1) && TookBlock(g, m, m1, b) && r == m1.(disk := m1.disk[b := Zeros(g.bs)])
    ensures MetaOK(g, r) && TookZeroed(g, m, r, b)
  {
    MetaKept(g, m1, r);
  }

  /** ext2_alloc_indirect_block */
  method AllocIndirectBlock(vol: Vol) returns (b: nat)
    requires MetaOK(vol.g, vol.M())
    modifies vol`disk, vol`sb, vol`gds
    ensures MetaOK(vol.g, vol.M())
    ensures b == 0 ==> vol.M() == old(vol.M()) && NoSpace(vol.g, vol.M())
    ensures b != 0 ==> TookZeroed(vol.g, old(vol.M()), vol.M(), b)
  {
    ghost var m := vol.M();
    b := AllocBlock(vol);
    if b == 0 { return; }
    ghost var m1 := vol.M();
    var zero := Zeros(vol.g.bs);
    vol.disk := vol.disk[b := zero];
    ZeroWritten(vol.g, m, m1, vol.M(), b);
  }

  lemma FsTookZeroed(g: Geom, s: Fs, s': Fs, b: nat)
    requires FsOK(g, s) && MetaOK(g, s'.m) && TookZeroed(g, s.m, s'.m, b) && s' == s.(m := s'.m)
    ensures FsOK(g, s') && b !in s.owner
    ensures PtrsSame(g, s, s')
  {
    OwnsFrame(V(g, s), V(g, s'), s.owner);
  }

  lemma ZeroWords(n: nat, m: nat)
    ensures Word(Zeros(n), m) == 0
  {
  }

  lemma GrewByFs(g: Geom, s: Fs, s1: Fs, s2: Fs, t: Slot, b: nat)
    requires FsOK(g, s) && MetaOK(g, s1.m) && TookZeroed(g, s.m, s1.m, b) && s1 == s.(m := s1.m)
    requires s2.m == s1.m.(disk := s2.m.disk) && s2.owner == s.owner[b := t]
    requires MetaSame(g, s1.m.disk, s2.m.disk) && Attached(V(g, s1), V(g, s2), s.owner, t, b)
    ensures FsOK(g, s2)
    ensures forall u {:trigger Ptr(V(g, s2), u)} ::
      IsSlot(V(g, s), u) ==> Ptr(V(g, s2), u) == if u == t then b else Ptr(V(g, s), u)
  {
    FsTookZeroed(g, s, s1, b);
    FsAttached(g, s1, s2, t, b);
    forall u | IsSlot(V(g, s), u) ensures Ptr(V(g, s2), u) == if u == t then b else Ptr(V(g, s), u) {
      IsSlotFrame(V(g, s), V(g, s1), u);
    }
  }

  lemma GrewByOwners(g: Geom, s: Fs, s1: Fs, s2: Fs, t: Slot, b: nat)
    requires GeomOK(g) && TookZeroed(g, s.m, s1.m, b) && s2.m == s1.m.(disk := s2.m.disk) && s2.owner == s.owner[b := t]
    requires MetaSame(g, s1.m.disk, s2.m.disk) && b !in s.owner && Level(t) > 0
    ensures OwnersGrew(g, s, s2, Ino(t))
  {
    hide DiskOK, MetaSame, Zeros;
    UsedSame(g, s1.m.disk, s2.m.disk);
    OneMoreKey(s.owner, b, t);
  }

  lemma OneMoreKey(owner: map<nat, Slot>, b: nat, t: Slot)
    requires b !in owner
    ensures |owner[b := t]| == |owner| + 1
  {
    assert owner[b := t].Keys == owner.Keys + {b};
  }

  /** One fresh indirect block hung on an empty inner slot t of inode ino is growth. */
  lemma GrewBy(g: Geom, s: Fs, s1: Fs, s2: Fs, ino: nat, t: Slot, b: nat)
    requires FsOK(g, s) && MetaOK(g, s1.m) && TookZeroed(g, s.m, s1.m, b) && s1 == s.(m := s1.m)
    requires s2.m == s1.m.(disk := s2.m.disk) && s2.owner == s.owner[b := t]
    requires MetaSame(g, s1.m.disk, s2.m.disk) && RawsGrew(s.raws, s2.raws, ino)
    requires Level(t) > 0 && Ino(t) == ino && b !in s.owner && Attached(V(g, s1), V(g, s2), s.owner, t, b)
    requires forall x: nat :: Untouched(g, s, x) ==> At(s2.m.disk, x) == At(s.m.disk, x)
    ensures FsOK(g, s2) && Grew(g, s, s2, ino) && Ptr(V(g, s2), t) == b
  {
    GrewByFs(g, s, s1, s2, t, b);
    assert OwnersGrew(g, s, s2, Ino(t)) by { GrewByOwners(g, s, s1, s2, t, b); }
    IsSlotFrame(V(g, s), V(g, s1), t);
  }

  /** From s to s' slot t took block b from the free ones. */
  ghost predicate NewBlock(s: Fs, s': Fs, t: Slot, b: nat)
  {
    b !in s.owner && s'.owner == s.owner[b := t] && FreeBlocksOf(s'.m) + 1 == FreeBlocksOf(s.m)
  }

  /** The indirect block in slot t is all zeros. */
  ghost predicate Barren(g: Geom, s: Fs, t: Slot)
  {
    forall j: nat :: j < g.bs / 4 ==> Ptr(V(g, s), Child(t, j)) == 0
  }

  lemma RootFresh(g: Geom, s: Fs, s1: Fs, s2: Fs, ino: nat, k: nat, b: nat)
    requires FsOK(g, s) && MetaOK(g, s1.m) && TookZeroed(g, s.m, s1.m, b) && s1 == s.(m := s1.m)
    requires 12 <= k < 15 && ino in s.raws && |s.raws[ino]| == 128 && Word(s.raws[ino], IBLOCK_WORD + k) == 0 && b < U32
    requires s2 == Fs(s1.m, s.raws[ino := SetWord(s.raws[ino], IBLOCK_WORD + k, b)], s.owner[b := Root(ino, k)])
    ensures NewBlock(s, s2, Root(ino, k), b) && Barren(g, s2, Root(ino, k))
  {
    hide Owns, OwnedOK, Used, UsedInodes;
    FsTookZeroed(g, s, s1, b);
    ZeroBlock(g.bs);
    assert Ptr(V(g, s2), Root(ino, k)) == b;
  }

  lemma GrewRoot(g: Geom, s: Fs, s1: Fs, s2: Fs, ino: nat, k: nat, b: nat)
    requires FsOK(g, s) && MetaOK(g, s1.m) && TookZeroed(g, s.m, s1.m, b) && s1 == s.(m := s1.m)
    requires 12 <= k < 15 && ino in s.raws && |s.raws[ino]| == 128 && Word(s.raws[ino], IBLOCK_WORD + k) == 0
    requires b < U32
    requires s2 == Fs(s1.m, s.raws[ino := SetWord(s.raws[ino], IBLOCK_WORD + k, b)], s.owner[b := Root(ino, k)])
    ensures FsOK(g, s2) && Grew(g, s, s2, ino) && Ptr(V(g, s2), Root(ino, k)) == b
  {
    hide Owns, OwnedOK, OwnersGrew, Attached, MetaSame, Used, UsedInodes;
    FsTookZeroed(g, s, s1, b);
    ZeroBlock(g.bs);
    GrewBy(g, s, s1, s2, ino, Root(ino, k), b);
  }

  /** i_block[k] = ext2_alloc_indirect_block(sb) */
  method NewRoot(vol: Vol, inode: Inode, k: nat) returns (b: nat)
    requires FsOK(vol.g, Snap(vol)) && inode.ino in vol.raws && vol.raws[inode.ino] == inode.raw
    requires 12 <= k < 15 && Word(inode.raw, IBLOCK_WORD + k) == 0
    modifies vol, inode`raw
    ensures FsOK(vol.g, Snap(vol)) && inode.ino in vol.raws && vol.raws[inode.ino] == inode.raw
    ensures b == 0 ==> Snap(vol) == old(Snap(vol)) && NoSpace(vol.g, vol.M())
    ensures b != 0 ==> Grew(vol.g, old(Snap(vol)), Snap(vol), inode.ino)
    ensures b != 0 ==> Ptr(V(vol.g, Snap(vol)), Root(inode.ino, k)) == b
    ensures b != 0 ==> NewBlock(old(Snap(vol)), Snap(vol), Root(inode.ino, k), b)
    ensures b != 0 ==> Barren(vol.g, Snap(vol), Root(inode.ino, k))
  {
    hide Owns, OwnedOK, Grew, NoSpace, Used, UsedInodes;
    ghost var s := Snap(vol);
    b := AllocIndirectBlock(vol);
    if b == 0 {
      assert Snap(vol) == s;
    } else {
      ghost var s1 := Snap(vol);
      inode.raw := SetWord(inode.raw, IBLOCK_WORD + k, b);
      vol.raws := vol.raws[inode.ino := inode.raw];
      vol.owner := vol.owner[b := Root(inode.ino, k)];
      GrewRoot(vol.g, s, s1, Snap(vol), inode.ino, k, b);
      RootFresh(vol.g, s, s1, Snap(vol), inode.ino, k, b);
    }
  }

  lemma ZeroBlock(n: nat)
    ensures forall m: nat :: Word(Zeros(n), m) == 0
  {
    forall m: nat ensures Word(Zeros(n), m) == 0 { ZeroWords(n, m); }
  }

  /** Storing x in word j of the indirect block held by slot `up`. */
  lemma AttachedChild(v: View, v': View, owner: map<nat, Slot>, up: Slot, j: nat, x: nat, q: nat)
    requires Owns(v, owner) && IsSlot(v, up) && Level(up) > 0 && j < Ptrs(v) && q == Ptr(v, up) && 0 < q < |v.disk|
    requires |v.disk[q]| == v.bs && Word(v.disk[q], j) == 0
    requires 0 < x < |v.disk| && x < U32 && x !in owner
    requires Level(up) > 1 ==> forall m: nat :: Word(v.disk[x], m) == 0
    requires v' == v.(disk := v.disk[q := SetWord(v.disk[q], j, x)])
    ensures Attached(v, v', owner, Child(up, j), x)
  {
  }

  /** Rewriting one indirect block touches nothing else and no metadata. */
  lemma InnerWrite(g: Geom, s: Fs, m1: Meta, b: nat, q: nat, blk: Block)
    requires GeomOK(g) && OwnedOK(g, s) && TookZeroed(g, s.m, m1, b) && Inner(s.owner, q) && |blk| == g.bs
    ensures q < g.blocks && q != b && m1.disk[q] == s.m.disk[q] && MetaSame(g, m1.disk, m1.disk[q := blk])
    ensures forall x: nat :: Untouched(g, s, x) ==> At(m1.disk[q := blk], x) == At(s.m.disk, x)
  {
  }

  lemma HoldsInner(g: Geom, s: Fs, up: Slot, q: nat)
    requires Owns(V(g, s), s.owner) && IsSlot(V(g, s), up) && Level(up) > 0 && q == Ptr(V(g, s), up) && q != 0
    ensures Inner(s.owner, q)
  {
  }

  lemma ChildAttached(g: Geom, s: Fs, s1: Fs, s2: Fs, up: Slot, j: nat, b: nat, q: nat)
    requires FsOK(g, s) && MetaOK(g, s1.m) && TookZeroed(g, s.m, s1.m, b) && s1 == s.(m := s1.m)
    requires IsSlot(V(g, s), up) && Level(up) > 1 && j < g.bs / 4 && b < U32
    requires q == Ptr(V(g, s), up) && 0 < q < g.blocks && Word(s.m.disk[q], j) == 0 && s1.m.disk[q] == s.m.disk[q]
    requires s2 == Fs(s1.m.(disk := s1.m.disk[q := SetWord(s.m.disk[q], j, b)]), s.raws, s.owner[b := Child(up, j)])
    ensures Attached(V(g, s1), V(g, s2), s.owner, Child(up, j), b)
  {
    FsTookZeroed(g, s, s1, b);
    IsSlotFrame(V(g, s), V(g, s1), up);
    ZeroBlock(g.bs);
    AttachedChild(V(g, s1), V(g, s2), s.owner, up, j, b, q);
  }

  lemma GrewChild(g: Geom, s: Fs, s1: Fs, s2: Fs, up: Slot, j: nat, b: nat, q: nat)
    requires FsOK(g, s) && MetaOK(g, s1.m) && TookZeroed(g, s.m, s1.m, b) && s1 == s.(m := s1.m)
    requires IsSlot(V(g, s), up) && Level(up) > 1 && j < g.bs / 4 && b < U32
    requires q == Ptr(V(g, s), up) && 0 < q < g.blocks && Word(s.m.disk[q], j) == 0
    requires s2 == Fs(s1.m.(disk := s1.m.disk[q := SetWord(s.m.disk[q], j, b)]), s.raws, s.owner[b := Child(up, j)])
    ensures FsOK(g, s2) && Grew(g, s, s2, Ino(up)) && Ptr(V(g, s2), Child(up, j)) == b
  {
    hide Owns, OwnedOK, MetaOK, Attached, OwnersGrew, MetaSame, Used, UsedInodes, TookZeroed, Zeros;
    var t := Child(up, j);
    Shape(g, s);
    FsTookZeroed(g, s, s1, b);
    HoldsInner(g, s, up, q);
    InnerWrite(g, s, s1.m, b, q, SetWord(s.m.disk[q], j, b));
    assert Attached(V(g, s1), V(g, s2), s.owner, t, b) by { ChildAttached(g, s, s1, s2, up, j, b, q); }
    GrewByFs(g, s, s1, s2, t, b);
    assert OwnersGrew(g, s, s2, Ino(t)) by { GrewByOwners(g, s, s1, s2, t, b); }
    SlotIno(V(g, s), up);
  }

  /** ind[j] = ext2_alloc_indirect_block(sb), written back to block q. */
  method NewChild(vol: Vol, q: nat, j: nat, ghost up: Slot) returns (b: nat)
    requires FsOK(vol.g, Snap(vol)) && IsSlot(V(vol.g, Snap(vol)), up) && Level(up) > 1
    requires 0 < q < vol.g.blocks && Ptr(V(vol.g, Snap(vol)), up) == q && j < vol.g.bs / 4 && Word(vol.disk[q], j) == 0
    modifies vol`disk, vol`sb, vol`gds, vol`owner
    ensures FsOK(vol.g, Snap(vol))
    ensures b == 0 ==> Snap(vol) == old(Snap(vol)) && NoSpace(vol.g, vol.M())
    ensures b != 0 ==> Grew(vol.g, old(Snap(vol)), Snap(vol), Ino(up)) && Ptr(V(vol.g, Snap(vol)), Child(up, j)) == b
    ensures b != 0 ==> FreeBlocksOf(old(vol.M())) > 0 && b !in old(vol.owner)
    ensures b != 0 ==> vol.owner == old(vol.owner)[b := Child(up, j)]
  {
    hide Owns, OwnedOK, Grew, NoSpace, Used, UsedInodes;
    ghost var s := Snap(vol);
    var ind := vol.disk[q];
    b := AllocIndirectBlock(vol);
    if b == 0 {
      assert Snap(vol) == s;
    } else {
      ghost var s1 := Snap(vol);
      ind := SetWord(ind, j, b);
      vol.disk := vol.disk[q := ind];
      vol.owner := vol.owner[b := Child(up, j)];
      GrewChild(vol.g, s, s1, Snap(vol), up, j, b, q);
      NotOwned(vol.g, s, s1.m, b);
    }
  }

  lemma NotOwned(g: Geom, s: Fs, m: Meta, b: nat)
    requires FsOK(g, s) && TookZeroed(g, s.m, m, b)
    ensures b !in s.owner
  {
  }

  lemma {:induction false} SlotIno(v: View, t: Slot)
    requires IsSlot(v, t)
    ensures Ino(t) in v.raws
  {
    if t.Child? { SlotIno(v, t.up); }
  }

  // ----- assignment -----

  ghost predicate BlocksKept(g: Geom, s: Fs, s': Fs)
  {
    forall b: nat :: Untouched(g, s, b) ==> At(s'.m.disk, b) == At(s.m.disk, b)
  }

  ghost predicate OwnersAssigned(g: Geom, s: Fs, s': Fs, t: Slot, x: nat)
  {
    && (forall b :: b in s.owner ==> b in s'.owner && s'.owner[b] == s.owner[b])
    && x in s'.owner && s'.owner[x] == t && x !in s.owner
    && (forall b :: b in s'.owner && b !in s.owner && b != x ==> b !in Used(g, s.m.disk) && Level(s'.owner[b]) > 0)
    && (forall b :: b in s'.owner && b !in s.owner ==> Ino(s'.owner[b]) == Ino(t))
    && Used(g, s.m.disk) <= Used(g, s'.m.disk)
    && UsedInodes(g, s'.m.disk) == UsedInodes(g, s.m.disk)
    && FreeInodesOf(s'.m) == FreeInodesOf(s.m) && DirCounts(s'.m) == DirCounts(s.m)
    && FreeBlocksOf(s'.m) + |s'.owner| == FreeBlocksOf(s.m) + |s.owner| + 1
  }

  /** From s to s' slot t of inode ino took the pending block x: a map update of the data
      slots, with at most new indirect blocks beside it. */
  ghost predicate Assigned(g: Geom, s: Fs, s': Fs, ino: nat, t: Slot, x: nat)
  {
    && RawsGrew(s.raws, s'.raws, ino) && OwnersAssigned(g, s, s', t, x) && BlocksKept(g, s, s')
    && (forall u {:trigger Ptr(V(g, s'), u)} :: IsSlot(V(g, s), u) && Level(u) == 0 ==>
          Ptr(V(g, s'), u) == if u == t then x else Ptr(V(g, s), u))
  }

  lemma AssignedOwners(g: Geom, s: Fs, s1: Fs, s2: Fs, t: Slot, x: nat)
    requires GeomOK(g) && OwnersGrew(g, s, s1, Ino(t)) && MetaSame(g, s1.m.disk, s2.m.disk)
    requires s2.m == s1.m.(disk := s2.m.disk) && s2.owner == s1.owner[x := t]
    requires x in Used(g, s.m.disk) && x !in s.owner
    ensures OwnersAssigned(g, s, s2, t, x)
  {
    hide DiskOK, MetaSame, GeomOK, Used, UsedInodes, Level, Ino;
    UsedSame(g, s1.m.disk, s2.m.disk);
    OneMoreKey(s1.owner, x, t);
  }

  lemma BlocksKeptTrans(g: Geom, s: Fs, s1: Fs, s2: Fs, ino: nat)
    requires OwnersGrew(g, s, s1, ino) && BlocksKept(g, s, s1) && BlocksKept(g, s1, s2)
    ensures BlocksKept(g, s, s2)
  {
    forall b: nat | Untouched(g, s, b) ensures At(s2.m.disk, b) == At(s.m.disk, b) {
      assert Untouched(g, s1, b);
    }
  }

  lemma SlotsAssigned(g: Geom, s: Fs, s1: Fs, s2: Fs, t: Slot, x: nat, u: Slot)
    requires s1.raws.Keys == s.raws.Keys && IsSlot(V(g, s), u) && Level(u) == 0
    requires forall u {:trigger Ptr(V(g, s1), u)} ::
      IsSlot(V(g, s), u) && Level(u) == 0 ==> Ptr(V(g, s1), u) == Ptr(V(g, s), u)
    requires forall u {:trigger Ptr(V(g, s2), u)} ::
      IsSlot(V(g, s1), u) ==> Ptr(V(g, s2), u) == if u == t then x else Ptr(V(g, s1), u)
    ensures Ptr(V(g, s2), u) == if u == t then x else Ptr(V(g, s), u)
  {
    IsSlotFrame(V(g, s), V(g, s1), u);
  }

  /** The last step of an assignment: the data slot t itself is filled. */
  lemma AssignedBy(g: Geom, s: Fs, s1: Fs, s2: Fs, ino: nat, t: Slot, x: nat)
    requires FsOK(g, s1) && Grew(g, s, s1, ino) && RawsGrew(s1.raws, s2.raws, ino)
    requires s2.m == s1.m.(disk := s2.m.disk) && s2.owner == s1.owner[x := t]
    requires MetaSame(g, s1.m.disk, s2.m.disk) && Attached(V(g, s1), V(g, s2), s1.owner, t, x)
    requires InBitmap(g, x) && g.role[x] == Data && x in Used(g, s.m.disk) && x !in s.owner
    requires BlocksKept(g, s1, s2) && Ino(t) == ino
    ensures FsOK(g, s2) && Assigned(g, s, s2, ino, t, x)
  {
    assert BlocksKept(g, s, s2) by { BlocksKeptTrans(g, s, s1, s2, ino); }
    assert OwnersAssigned(g, s, s2, t, x) by { AssignedOwners(g, s, s1, s2, t, x); }
    FsAttached(g, s1, s2, t, x);
    forall u | IsSlot(V(g, s), u) && Level(u) == 0
      ensures Ptr(V(g, s2), u) == if u == t then x else Ptr(V(g, s), u)
    {
      SlotsAssigned(g, s, s1, s2, t, x, u);
    }
  }

  lemma GrewRefl(g: Geom, s: Fs, ino: nat)
    requires FsOK(g, s) && ino in s.raws
    ensures Grew(g, s, s, ino)
  {
  }

  // ----- a slot that already holds a block -----

  /** s without the block in data slot t, if it holds one: the pointer gone, the block without
      an owner though still marked used. */
  ghost function Cleared(g: Geom, s: Fs, t: Slot): Fs
  {
    var x := Ptr(V(g, s), t);
    if x == 0 then s else
    match t
    case Root(i, k) =>
      if i in s.raws && |s.raws[i]| == 128 && k < 15 then
        Fs(s.m, s.raws[i := SetWord(s.raws[i], IBLOCK_WORD + k, 0)], s.owner - {x})
      else s
    case Child(up, j) =>
      var q := Ptr(V(g, s), up);
      if q < |s.m.disk| && 4 * j + 4 <= |s.m.disk[q]| then
        Fs(s.m.(disk := s.m.disk[q := SetWord(s.m.disk[q], j, 0)]), s.raws, s.owner - {x})
      else s
  }

  /** What both cases have in common. */
  ghost predicate Lighter(g: Geom, s: Fs, c: Fs, x: nat)
  {
    && MetaOK(g, c.m) && Used(g, c.m.disk) == Used(g, s.m.disk) && |c.m.disk| == |s.m.disk|
    && c.raws.Keys == s.raws.Keys && (forall i :: i in s.raws ==> |c.raws[i]| == 128)
    && c.owner == s.owner - {x}
  }

  lemma ClearedRoot(g: Geom, s: Fs, t: Slot)
    requires FsOK(g, s) && IsSlot(V(g, s), t) && t.Root? && Ptr(V(g, s), t) != 0
    ensures Lighter(g, s, Cleared(g, s, t), Ptr(V(g, s), t)) && Cleared(g, s, t).m == s.m
    ensures forall i, k: nat :: i in s.raws && k < 15 ==>
      RootWord(Cleared(g, s, t).raws, i, k) == if Root(i, k) != t then RootWord(s.raws, i, k) else 0
  {
    hide MetaOK, Owns, OwnedOK, Used;
    Shape(g, s);
  }

  lemma ClearedIs(g: Geom, s: Fs, t: Slot)
    requires FsOK(g, s) && IsSlot(V(g, s), t) && t.Child? && Ptr(V(g, s), t) != 0
    ensures var q := Ptr(V(g, s), t.up);
            && Inner(s.owner, q) && s.owner[q] == t.up && q < |s.m.disk| && 4 * t.j + 4 <= |s.m.disk[q]| == g.bs
            && Cleared(g, s, t) ==
                 Fs(s.m.(disk := s.m.disk[q := SetWord(s.m.disk[q], t.j, 0)]), s.raws, s.owner - {Ptr(V(g, s), t)})
  {
    hide MetaOK, OwnedOK, Used;
    Shape(g, s);
  }

  lemma ClearedWords(v: View, owner: map<nat, Slot>, up: Slot, k: nat, q: nat, b: nat, j: nat)
    requires Owns(v, owner) && Inner(owner, q) && owner[q] == up && q < |v.disk| && 4 * k + 4 <= |v.disk[q]|
    requires Inner(owner, b) && b < |v.disk|
    ensures Word(v.disk[q := SetWord(v.disk[q], k, 0)][b], j) ==
      if Child(owner[b], j) != Child(up, k) then Word(v.disk[b], j) else 0
  {
  }

  lemma ClearedChild(g: Geom, s: Fs, t: Slot)
    requires FsOK(g, s) && IsSlot(V(g, s), t) && t.Child? && Ptr(V(g, s), t) != 0
    ensures Lighter(g, s, Cleared(g, s, t), Ptr(V(g, s), t)) && Cleared(g, s, t).raws == s.raws
    ensures forall b: nat, j: nat :: Inner(s.owner, b) && b < |s.m.disk| && j < g.bs / 4 ==>
      Word(Cleared(g, s, t).m.disk[b], j) == if Child(s.owner[b], j) != t then Word(s.m.disk[b], j) else 0
  {
    hide MetaOK, Used, MetaSame, BlocksKept, Cleared, Ptr, Owns, Word, SetWord;
    Shape(g, s);
    ClearedIs(g, s, t);
    var q, c := Ptr(V(g, s), t.up), Cleared(g, s, t);
    LeafWrite(g, s, q, SetWord(s.m.disk[q], t.j, 0));
    MetaKept(g, s.m, c.m);
    UsedSame(g, s.m.disk, c.m.disk);
    forall b: nat, j: nat | Inner(s.owner, b) && b < |s.m.disk| && j < g.bs / 4
      ensures Word(c.m.disk[b], j) == if Child(s.owner[b], j) != t then Word(s.m.disk[b], j) else 0
    {
      ClearedWords(V(g, s), s.owner, t.up, t.j, q, b, j);
    }
  }

  lemma ClearedOwner(v: View, owner: map<nat, Slot>, t: Slot, keep: iset<Slot>)
    requires Owns(v, owner) && IsSlot(v, t) && Ptr(v, t) != 0
    requires keep == iset u: Slot | IsSlot(v, u) && u != t
    ensures owner - {Ptr(v, t)} == Restrict(owner, keep)
  {
  }

  lemma ClearedPrunes(g: Geom, s: Fs, t: Slot, keep: iset<Slot>)
    requires FsOK(g, s) && IsSlot(V(g, s), t) && Level(t) == 0 && Ptr(V(g, s), t) != 0
    requires keep == iset u: Slot | IsSlot(V(g, s), u) && u != t
    ensures Pruned(V(g, s), V(g, Cleared(g, s, t)), s.owner, keep)
    ensures Lighter(g, s, Cleared(g, s, t), Ptr(V(g, s), t))
  {
    hide MetaOK, Used, OwnedOK, Cleared, Ptr;
    if t.Root? { ClearedRoot(g, s, t); } else { ClearedChild(g, s, t); }
  }

  /** What is left is sound, with a hole at t and everything else in place. */
  lemma ClearedOK(g: Geom, s: Fs, t: Slot)
    requires FsOK(g, s) && IsSlot(V(g, s), t) && Level(t) == 0
    ensures FsOK(g, Cleared(g, s, t)) && Used(g, Cleared(g, s, t).m.disk) == Used(g, s.m.disk)
    ensures forall u {:trigger Ptr(V(g, Cleared(g, s, t)), u)} :: IsSlot(V(g, s), u) ==>
      Ptr(V(g, Cleared(g, s, t)), u) == if u == t then 0 else Ptr(V(g, s), u)
  {
    hide MetaOK, Used, Ptr, IsSlot, Owns, Pruned, Restrict;
    if Ptr(V(g, s), t) != 0 {
      var v, c := V(g, s), Cleared(g, s, t);
      var keep := iset u: Slot | IsSlot(v, u) && u != t;
      ClearedPrunes(g, s, t, keep);
      ClearedOwner(v, s.owner, t, keep);
      OwnsPruned(v, V(g, c), s.owner, keep);
      Shape(g, s);
    } else {
      ClearedHole(g, s, t);
    }
  }

  lemma ClearedHole(g: Geom, s: Fs, t: Slot)
    requires Ptr(V(g, s), t) == 0
    ensures Cleared(g, s, t) == s
  {
  }

  lemma SetTwice(b: Buf, j: nat, x: nat)
    requires 4 * j + 4 <= |b| && x < U32
    ensures SetWord(SetWord(b, j, 0), j, x) == SetWord(b, j, x)
  {
  }

  /** ind[j] = phys in the lowest indirect block, written back. */
  method StoreLeaf(vol: Vol, q: nat, j: nat, phys: nat, ghost up: Slot, ghost s: Fs)
    requires FsOK(vol.g, Snap(vol)) && IsSlot(V(vol.g, Snap(vol)), up) && Level(up) == 1
    requires 0 < q < vol.g.blocks && Ptr(V(vol.g, Snap(vol)), up) == q && j < vol.g.bs / 4
    requires Grew(vol.g, s, Snap(vol), Ino(up)) && IsSlot(V(vol.g, s), Child(up, j))
    requires Ptr(V(vol.g, s), Child(up, j)) != 0 ==> Snap(vol) == s
    requires InBitmap(vol.g, phys) && vol.g.role[phys] == Data && phys in Used(vol.g, s.m.disk) && phys !in s.owner
    modifies vol`disk, vol`owner
    ensures FsOK(vol.g, Snap(vol))
    ensures Assigned(vol.g, Cleared(vol.g, s, Child(up, j)), Snap(vol), Ino(up), Child(up, j), phys)
    ensures old(vol.owner).Values == s.owner.Values + Above(Child(up, j)) ==>
      Branched(Cleared(vol.g, s, Child(up, j)).owner, vol.owner, Child(up, j))
  {
    hide FsOK, Grew, Assigned, Ptr, Cleared, Used;
    ghost var s1 := Snap(vol);
    ghost var c := Cleared(vol.g, s, Child(up, j));
    var g := vol.g;
    LeafBlock(g, s1, phys, q);
    var ind := vol.disk[q];
    ind := SetWord(ind, j, phys);
    vol.disk := vol.disk[q := ind];
    if Ptr(V(g, s), Child(up, j)) == 0 {
      ClearedHole(g, s, Child(up, j));
      LeafFree(g, s, s1, up, j, phys, q);
      ValuesPut(vol.owner, phys, Child(up, j));
      vol.owner := vol.owner[phys := Child(up, j)];
      LeafStored(g, s, s1, Snap(vol), up, j, phys, q);
    } else {
      ValuesCleared(g, s, Child(up, j));
      ValuesPut(c.owner, phys, Child(up, j));
      NotAbove(Child(up, j));
      vol.owner := c.owner[phys := Child(up, j)];
      LeafReplaced(g, s, Snap(vol), up, j, phys, q);
    }
  }

  lemma {:induction false} AboveSmaller(t: Slot, u: Slot)
    requires u in Above(t)
    ensures u < t
  {
    if t.Child? && u != t.up { AboveSmaller(t.up, u); }
  }

  lemma NotAbove(t: Slot)
    ensures t !in Above(t)
  {
    if t in Above(t) { AboveSmaller(t, t); }
  }

  lemma LeafBlock(g: Geom, s: Fs, x: nat, q: nat)
    requires FsOK(g, s) && InBitmap(g, x) && q < g.blocks
    ensures x < U32 && q < |s.m.disk| && |s.m.disk[q]| == g.bs
  {
  }

  lemma ChildUp(v: View, t: Slot)
    requires t.Child? && Ptr(v, t) != 0
    ensures Ptr(v, t.up) != 0
  {
  }

  lemma LeafReplaced(g: Geom, s: Fs, s2: Fs, up: Slot, j: nat, x: nat, q: nat)
    requires FsOK(g, s) && IsSlot(V(g, s), Child(up, j)) && Level(up) == 1 && Ptr(V(g, s), Child(up, j)) != 0
    requires q == Ptr(V(g, s), up) && q < |s.m.disk| && |s.m.disk[q]| == g.bs
    requires InBitmap(g, x) && g.role[x] == Data && x < U32 && x in Used(g, s.m.disk) && x !in s.owner
    requires s2 == Fs(s.m.(disk := s.m.disk[q := SetWord(s.m.disk[q], j, x)]), s.raws,
                      Cleared(g, s, Child(up, j)).owner[x := Child(up, j)])
    ensures FsOK(g, s2) && Assigned(g, Cleared(g, s, Child(up, j)), s2, Ino(up), Child(up, j), x)
  {
    hide FsOK, Grew, Assigned, Ptr, Cleared, Used, Word, SetWord;
    var t := Child(up, j);
    var c := Cleared(g, s, t);
    Shape(g, s);
    ClearedOK(g, s, t);
    ClearedIs(g, s, t);
    SetTwice(s.m.disk[q], j, x);
    SlotIno(V(g, s), up);
    assert IsSlot(V(g, c), up) && IsSlot(V(g, c), t) by {
      IsSlotFrame(V(g, s), V(g, c), up);
      IsSlotFrame(V(g, s), V(g, c), t);
    }
    assert c.m.disk[q := SetWord(c.m.disk[q], j, x)] == s2.m.disk;
    GrewRefl(g, c, Ino(up));
    assert up != t && Word(c.m.disk[q], j) == 0;
    InnerPtr(g, s, up);
    assert q != 0 by { ChildUp(V(g, s), t); }
    LeafStored(g, c, c, s2, up, j, x, q);
  }

  lemma LeafFree(g: Geom, s: Fs, s1: Fs, up: Slot, j: nat, x: nat, q: nat)
    requires FsOK(g, s1) && Grew(g, s, s1, Ino(up)) && IsSlot(V(g, s), Child(up, j)) && Level(up) == 1
    requires Ptr(V(g, s), Child(up, j)) == 0
    requires InBitmap(g, x) && x in Used(g, s.m.disk) && x !in s.owner && q == Ptr(V(g, s1), up) && 0 < q < g.blocks
    ensures x < U32 && x !in s1.owner && q < |s1.m.disk| && |s1.m.disk[q]| == g.bs && Word(s1.m.disk[q], j) == 0
  {
    assert Ptr(V(g, s1), Child(up, j)) == 0;
  }

  lemma LeafStored(g: Geom, s: Fs, s1: Fs, s2: Fs, up: Slot, j: nat, x: nat, q: nat)
    requires FsOK(g, s1) && IsSlot(V(g, s1), up) && Level(up) == 1 && j < g.bs / 4
    requires Grew(g, s, s1, Ino(up))
    requires q == Ptr(V(g, s1), up) && 0 < q < g.blocks && Word(s1.m.disk[q], j) == 0
    requires InBitmap(g, x) && g.role[x] == Data && x in Used(g, s.m.disk) && x !in s.owner && x !in s1.owner
    requires s2 == Fs(s1.m.(disk := s1.m.disk[q := SetWord(s1.m.disk[q], j, x)]), s1.raws, s1.owner[x := Child(up, j)])
    ensures FsOK(g, s2) && Assigned(g, s, s2, Ino(up), Child(up, j), x)
  {
    var t := Child(up, j);
    SlotIno(V(g, s1), up);
    LeafWrite(g, s1, q, SetWord(s1.m.disk[q], j, x));
    assert Attached(V(g, s1), V(g, s2), s1.owner, t, x) by {
      AttachedChild(V(g, s1), V(g, s2), s1.owner, up, j, x, q);
    }
    AssignedBy(g, s, s1, s2, Ino(up), t, x);
  }

  lemma LeafWrite(g: Geom, s: Fs, q: nat, blk: Block)
    requires GeomOK(g) && OwnedOK(g, s) && DiskOK(g, s.m.disk) && Inner(s.owner, q) && |blk| == g.bs
    ensures q < g.blocks && MetaSame(g, s.m.disk, s.m.disk[q := blk])
    ensures BlocksKept(g, s, s.(m := s.m.(disk := s.m.disk[q := blk])))
  {
  }

  lemma DirectStored(g: Geom, s: Fs, s2: Fs, ino: nat, l: nat, x: nat)
    requires FsOK(g, s) && ino in s.raws && l < 12 && |s.raws[ino]| == 128 && Word(s.raws[ino], IBLOCK_WORD + l) == 0
    requires InBitmap(g, x) && g.role[x] == Data && x in Used(g, s.m.disk) && x !in s.owner
    requires s2 == Fs(s.m, s.raws[ino := SetWord(s.raws[ino], IBLOCK_WORD + l, x)], s.owner[x := Root(ino, l)])
    ensures FsOK(g, s2) && Assigned(g, s, s2, ino, Root(ino, l), x)
  {
    GrewRefl(g, s, ino);
    AssignedBy(g, s, s, s2, ino, Root(ino, l), x);
  }

  // ----- which slots hold a block -----

  lemma ValuesPut(owner: map<nat, Slot>, b: nat, t: Slot)
    requires b !in owner
    ensures owner[b := t].Values == owner.Values + {t}
  {
    var owner' := owner[b := t];
    forall u ensures u in owner'.Values <==> u in owner.Values + {t} {
      if u in owner.Values {
        var x :| x in owner && owner[x] == u;
        assert x in owner' && owner'[x] == u;
      }
      if u == t { assert b in owner' && owner'[b] == u; }
    }
  }

  lemma ValuesHeld(g: Geom, s: Fs, t: Slot)
    requires FsOK(g, s) && IsSlot(V(g, s), t) && Ptr(V(g, s), t) != 0
    ensures t in s.owner.Values
  {
    assert s.owner[Ptr(V(g, s), t)] == t;
  }

  /** Taking the block off slot t leaves the other slots theirs. */
  lemma ValuesCleared(g: Geom, s: Fs, t: Slot)
    requires FsOK(g, s) && IsSlot(V(g, s), t) && Ptr(V(g, s), t) != 0
    ensures Cleared(g, s, t).owner == s.owner - {Ptr(V(g, s), t)}
    ensures Cleared(g, s, t).owner.Values == s.owner.Values - {t}
  {
    hide MetaOK, Used;
    if t.Child? { ClearedIs(g, s, t); }
    var c := Cleared(g, s, t);
    forall u ensures u in c.owner.Values <==> u in s.owner.Values - {t} {
      if u in s.owner.Values && u != t {
        var x :| x in s.owner && s.owner[x] == u;
        assert x in c.owner && c.owner[x] == u;
      }
    }
  }

  /** From owner to owner' slot t and the slots above it came to hold a block, if they did not yet. */
  ghost predicate Branched(owner: map<nat, Slot>, owner': map<nat, Slot>, t: Slot)
  {
    owner'.Values == owner.Values + Above(t) + {t}
  }

  /** ext2_assign_block_num: a map update of the file's data slots on success, where a block that
      was there before is left without an owner; on failure at most indirect blocks gained. It
      succeeds exactly if the position is below triple indirection and the indirect blocks on the
      way to it are there or can be had. */
  method AssignBlockNum(vol: Vol, inode: Inode, l: nat, phys: nat) returns (ok: bool)
    requires FsOK(vol.g, Snap(vol)) && inode.ino in vol.raws && vol.raws[inode.ino] == inode.raw
    requires InBitmap(vol.g, phys) && vol.g.role[phys] == Data && phys in Used(vol.g, vol.disk) && phys !in vol.owner
    modifies vol, inode`raw
    ensures FsOK(vol.g, Snap(vol)) && inode.ino in vol.raws && vol.raws[inode.ino] == inode.raw
    ensures ok ==> var t := DataSlot(vol.g.bs / 4, inode.ino, l);
      && Assigned(vol.g, Cleared(vol.g, old(Snap(vol)), t), Snap(vol), inode.ino, t, phys)
      && Branched(Cleared(vol.g, old(Snap(vol)), t).owner, vol.owner, t)
    ensures !ok ==> Grew(vol.g, old(Snap(vol)), Snap(vol), inode.ino)
    ensures !ok ==> l >= MaxAssign(vol.g.bs / 4) || NoSpace(vol.g, vol.M())
    ensures ok <==> Mappable(vol.g, old(Snap(vol)), inode.ino, l, 0)
    ensures !ok ==>
      OneRoot(old(vol.owner), vol.owner, inode.ino, InDouble(vol.g.bs / 4, l) && LastOne(old(inode.raw), old(vol.M())))
  {
    hide Grew, Assigned, NoSpace, LastOne, Owns, OwnedOK, Used, Cleared;
    ghost var s := Snap(vol);
    var ptrs := vol.g.bs / 4;
    var ino := inode.ino;
    ghost var t := DataSlot(ptrs, ino, l);
    if l < 12 {
      assert t == Root(ino, l);
      AssignDirect(vol, inode, l, phys);
      return true;
    }
    var lb := l - 12;
    if lb < ptrs {
      assert t == Child(Root(ino, 12), lb);
      ok := AssignSingle(vol, inode, lb, phys);
      return;
    }
    lb := lb - ptrs;
    if lb < Times(ptrs, ptrs) {
      QuotBelow(lb, ptrs, ptrs);
      assert t == Child(Child(Root(ino, 13), Quot(lb, ptrs)), Rem(lb, ptrs));
      ok := AssignDouble(vol, inode, Quot(lb, ptrs), Rem(lb, ptrs), phys);
      return;
    }
    GrewRefl(vol.g, s, ino);
    return false;
  }

  method AssignDirect(vol: Vol, inode: Inode, l: nat, phys: nat)
    requires FsOK(vol.g, Snap(vol)) && inode.ino in vol.raws && vol.raws[inode.ino] == inode.raw
    requires InBitmap(vol.g, phys) && vol.g.role[phys] == Data && phys in Used(vol.g, vol.disk) && phys !in vol.owner
    requires l < 12
    modifies vol, inode`raw
    ensures FsOK(vol.g, Snap(vol)) && inode.ino in vol.raws && vol.raws[inode.ino] == inode.raw
    ensures var t := Root(inode.ino, l);
            && Assigned(vol.g, Cleared(vol.g, old(Snap(vol)), t), Snap(vol), inode.ino, t, phys)
            && Branched(Cleared(vol.g, old(Snap(vol)), t).owner, vol.owner, t)
  {
    hide Assigned, Cleared, MetaOK, Owns, OwnedOK, Used;
    ghost var s := Snap(vol);
    Shape(vol.g, s);
    inode.raw := SetWord(inode.raw, IBLOCK_WORD + l, phys);
    vol.raws := vol.raws[inode.ino := inode.raw];
    vol.owner := Cleared(vol.g, s, Root(inode.ino, l)).owner[phys := Root(inode.ino, l)];
    DirectReplaced(vol.g, s, Snap(vol), inode.ino, l, phys);
    StillFree(vol.g, s, Root(inode.ino, l), phys);
    ValuesPut(Cleared(vol.g, s, Root(inode.ino, l)).owner, phys, Root(inode.ino, l));
  }

  lemma StillFree(g: Geom, s: Fs, t: Slot, x: nat)
    requires x !in s.owner
    ensures x !in Cleared(g, s, t).owner
  {
  }

  lemma DirectReplaced(g: Geom, s: Fs, s2: Fs, ino: nat, l: nat, x: nat)
    requires FsOK(g, s) && ino in s.raws && l < 12 && |s.raws[ino]| == 128
    requires InBitmap(g, x) && g.role[x] == Data && x < U32 && x in Used(g, s.m.disk) && x !in s.owner
    requires s2 == Fs(s.m, s.raws[ino := SetWord(s.raws[ino], IBLOCK_WORD + l, x)],
                      Cleared(g, s, Root(ino, l)).owner[x := Root(ino, l)])
    ensures FsOK(g, s2) && Assigned(g, Cleared(g, s, Root(ino, l)), s2, ino, Root(ino, l), x)
  {
    hide FsOK, Assigned, Used, SetWord;
    var t := Root(ino, l);
    var c := Cleared(g, s, t);
    ClearedOK(g, s, t);
    assert Ptr(V(g, c), t) == 0;
    SetTwice(s.raws[ino], IBLOCK_WORD + l, x);
    DirectStored(g, c, s2, ino, l, x);
  }

  method AssignSingle(vol: Vol, inode: Inode, lb: nat, phys: nat) returns (ok: bool)
    requires FsOK(vol.g, Snap(vol)) && inode.ino in vol.raws && vol.raws[inode.ino] == inode.raw
    requires InBitmap(vol.g, phys) && vol.g.role[phys] == Data && phys in Used(vol.g, vol.disk) && phys !in vol.owner
    requires lb < vol.g.bs / 4
    modifies vol, inode`raw
    ensures FsOK(vol.g, Snap(vol)) && inode.ino in vol.raws && vol.raws[inode.ino] == inode.raw
    ensures ok ==> var t := Child(Root(inode.ino, 12), lb);
      && Assigned(vol.g, Cleared(vol.g, old(Snap(vol)), t), Snap(vol), inode.ino, t, phys)
      && Branched(Cleared(vol.g, old(Snap(vol)), t).owner, vol.owner, t)
    ensures !ok ==> Grew(vol.g, old(Snap(vol)), Snap(vol), inode.ino) && NoSpace(vol.g, vol.M())
    ensures !ok ==> vol.owner == old(vol.owner)
    ensures ok <==> Word(old(inode.raw), IBLOCK_WORD + 12) != 0 || FreeBlocksOf(old(vol.M())) > 0
  {
    hide FsOK, Grew, Assigned, NoSpace, Cleared;
    ghost var s := Snap(vol);
    ghost var up := Root(inode.ino, 12);
    var b := EnsureRoot(vol, inode, 12);
    if b == 0 { return false; }
    InnerPtr(vol.g, Snap(vol), up);
    assert Above(Child(up, lb)) == {up};
    StoreLeaf(vol, b, lb, phys, up, s);
    return true;
  }

  method AssignDouble(vol: Vol, inode: Inode, idx1: nat, idx2: nat, phys: nat) returns (ok: bool)
    requires FsOK(vol.g, Snap(vol)) && inode.ino in vol.raws && vol.raws[inode.ino] == inode.raw
    requires InBitmap(vol.g, phys) && vol.g.role[phys] == Data && phys in Used(vol.g, vol.disk) && phys !in vol.owner
    requires idx1 < vol.g.bs / 4 && idx2 < vol.g.bs / 4
    modifies vol, inode`raw
    ensures FsOK(vol.g, Snap(vol)) && inode.ino in vol.raws && vol.raws[inode.ino] == inode.raw
    ensures ok ==> var t := Child(Child(Root(inode.ino, 13), idx1), idx2);
      && Assigned(vol.g, Cleared(vol.g, old(Snap(vol)), t), Snap(vol), inode.ino, t, phys)
      && Branched(Cleared(vol.g, old(Snap(vol)), t).owner, vol.owner, t)
    ensures !ok ==> Grew(vol.g, old(Snap(vol)), Snap(vol), inode.ino) && NoSpace(vol.g, vol.M())
    ensures !ok ==> OneRoot(old(vol.owner), vol.owner, inode.ino, LastOne(old(inode.raw), old(vol.M())))
    ensures ok <==> FreeBlocksOf(old(vol.M())) >= OnPath(vol.g, old(Snap(vol)), inode.ino, idx1)
  {
    hide FsOK, Grew, Assigned, NoSpace, OneRoot, LastOne, Cleared;
    ghost var s := Snap(vol);
    ghost var up := Child(Root(inode.ino, 13), idx1);
    assert IsSlot(V(vol.g, s), up);
    var singly := EnsurePath(vol, inode, idx1);
    if singly == 0 { return false; }
    InnerPtr(vol.g, Snap(vol), up);
    assert Above(up) == {Root(inode.ino, 13)} && Above(Child(up, idx2)) == Above(up) + {up};
    StoreLeaf(vol, singly, idx2, phys, up, s);
    return true;
  }

  /** The singly indirect block for row idx1 of the double map, allocated on the way down. */
  method EnsurePath(vol: Vol, inode: Inode, idx1: nat) returns (b: nat)
    requires FsOK(vol.g, Snap(vol)) && inode.ino in vol.raws && vol.raws[inode.ino] == inode.raw && idx1 < vol.g.bs / 4
    modifies vol, inode`raw
    ensures FsOK(vol.g, Snap(vol)) && inode.ino in vol.raws && vol.raws[inode.ino] == inode.raw
    ensures Grew(vol.g, old(Snap(vol)), Snap(vol), inode.ino)
    ensures b == Ptr(V(vol.g, Snap(vol)), Child(Root(inode.ino, 13), idx1))
    ensures b == 0 ==> NoSpace(vol.g, vol.M())
    ensures b == 0 ==> OneRoot(old(vol.owner), vol.owner, inode.ino, LastOne(old(inode.raw), old(vol.M())))
    ensures b != 0 <==> FreeBlocksOf(old(vol.M())) >= OnPath(vol.g, old(Snap(vol)), inode.ino, idx1)
    ensures Ptr(V(vol.g, old(Snap(vol))), Child(Root(inode.ino, 13), idx1)) != 0 ==> Snap(vol) == old(Snap(vol))
    ensures b != 0 ==>
      vol.owner.Values == old(vol.owner).Values + {Root(inode.ino, 13)} + {Child(Root(inode.ino, 13), idx1)}
  {
    hide FsOK, Grew, NoSpace, Used, UsedInodes, MetaOK;
    ghost var s := Snap(vol);
    b := EnsureRoot(vol, inode, 13);
    if b == 0 {
      NoneLeftOver(vol.g, s.m);
    } else {
      ghost var s1 := Snap(vol);
      b := EnsureChild(vol, b, idx1, Root(inode.ino, 13));
      GrewTrans(vol.g, s, s1, Snap(vol), inode.ino);
      if b == 0 { NoneLeftOver(vol.g, s1.m); }
    }
  }

  lemma NoneLeftOver(g: Geom, m: Meta)
    requires NoSpace(g, m)
    ensures FreeBlocksOf(m) == 0
  {
  }

  /** Indirect blocks still missing on the way to row idx1 of the doubly indirect map. */
  ghost function OnPath(g: Geom, s: Fs, ino: nat, idx1: nat): nat
  {
    if Ptr(V(g, s), Root(ino, 13)) == 0 then 2
    else if Ptr(V(g, s), Child(Root(ino, 13), idx1)) == 0 then 1 else 0
  }

  /** Indirect blocks still missing on the way to block l of file ino. */
  ghost function Missing(g: Geom, s: Fs, ino: nat, l: nat): nat
  {
    var p := g.bs / 4;
    if l < DIRECT || p == 0 then 0
    else if l < DIRECT + p then (if Ptr(V(g, s), Root(ino, 12)) == 0 then 1 else 0)
    else if l < MaxAssign(p) then OnPath(g, s, ino, Quot(l - DIRECT - p, p)) else 0
  }

  /** Block l of file ino can be mapped, with `more` blocks to spare. */
  ghost predicate Mappable(g: Geom, s: Fs, ino: nat, l: nat, more: nat)
  {
    l < MaxAssign(g.bs / 4) && FreeBlocksOf(s.m) >= more + Missing(g, s, ino, l)
  }

  /** There is no doubly indirect tree yet, and one free block to start it with. */
  ghost predicate LastOne(raw: RawInode, m: Meta) { Word(raw, IBLOCK_WORD + 13) == 0 && FreeBlocksOf(m) == 1 }

  /** At most the root of a doubly indirect tree was gained, and that exactly if `lost`. */
  ghost predicate OneRoot(owner: map<nat, Slot>, owner': map<nat, Slot>, ino: nat, lost: bool)
  {
    if lost then exists b: nat :: b !in owner && owner' == owner[b := Root(ino, 13)] else owner' == owner
  }

  /** The indirect block held by i_block[k], allocated if there was none. */
  method EnsureRoot(vol: Vol, inode: Inode, k: nat) returns (b: nat)
    requires FsOK(vol.g, Snap(vol)) && inode.ino in vol.raws && vol.raws[inode.ino] == inode.raw && 12 <= k < 15
    modifies vol, inode`raw
    ensures FsOK(vol.g, Snap(vol)) && inode.ino in vol.raws && vol.raws[inode.ino] == inode.raw
    ensures Grew(vol.g, old(Snap(vol)), Snap(vol), inode.ino) && Ptr(V(vol.g, Snap(vol)), Root(inode.ino, k)) == b
    ensures b == 0 || Word(old(inode.raw), IBLOCK_WORD + k) != 0 ==> Snap(vol) == old(Snap(vol))
    ensures b == 0 ==> NoSpace(vol.g, vol.M()) && Word(old(inode.raw), IBLOCK_WORD + k) == 0
    ensures b != 0 <==> Word(old(inode.raw), IBLOCK_WORD + k) != 0 || FreeBlocksOf(old(vol.M())) > 0
    ensures b != 0 && Word(old(inode.raw), IBLOCK_WORD + k) == 0 ==>
      NewBlock(old(Snap(vol)), Snap(vol), Root(inode.ino, k), b) && Barren(vol.g, Snap(vol), Root(inode.ino, k))
    ensures b != 0 ==> vol.owner.Values == old(vol.owner).Values + {Root(inode.ino, k)}
  {
    GrewRefl(vol.g, Snap(vol), inode.ino);
    b := Word(inode.raw, IBLOCK_WORD + k);
    if b == 0 {
      b := NewRoot(vol, inode, k);
      if b != 0 { ValuesPut(old(vol.owner), b, Root(inode.ino, k)); }
    } else {
      ValuesHeld(vol.g, Snap(vol), Root(inode.ino, k));
    }
  }

  /** The indirect block held by word j of block q, allocated if there was none. */
  method EnsureChild(vol: Vol, q: nat, j: nat, ghost up: Slot) returns (b: nat)
    requires FsOK(vol.g, Snap(vol)) && IsSlot(V(vol.g, Snap(vol)), up) && Level(up) > 1
    requires q != 0 && Ptr(V(vol.g, Snap(vol)), up) == q && j < vol.g.bs / 4
    modifies vol`disk, vol`sb, vol`gds, vol`owner
    ensures FsOK(vol.g, Snap(vol))
    ensures Grew(vol.g, old(Snap(vol)), Snap(vol), Ino(up)) && Ptr(V(vol.g, Snap(vol)), Child(up, j)) == b
    ensures b == 0 ==> NoSpace(vol.g, vol.M()) && Snap(vol) == old(Snap(vol))
    ensures b != 0 <==> Ptr(V(vol.g, old(Snap(vol))), Child(up, j)) != 0 || FreeBlocksOf(old(vol.M())) > 0
    ensures Ptr(V(vol.g, old(Snap(vol))), Child(up, j)) != 0 ==> Snap(vol) == old(Snap(vol))
    ensures b != 0 ==> vol.owner.Values == old(vol.owner).Values + {Child(up, j)}
  {
    hide MetaOK, OwnedOK, Used, UsedInodes, Grew;
    InnerPtr(vol.g, Snap(vol), up);
    SlotIno(V(vol.g, Snap(vol)), up);
    GrewRefl(vol.g, Snap(vol), Ino(up));
    b := Word(vol.disk[q], j);
    if b == 0 {
      b := NewChild(vol, q, j, up);
      if b != 0 { ValuesPut(old(vol.owner), b, Child(up, j)); }
    } else {
      ValuesHeld(vol.g, Snap(vol), Child(up, j));
    }
  }

  lemma InnerPtr(g: Geom, s: Fs, t: Slot)
    requires FsOK(g, s) && IsSlot(V(g, s), t)
    ensures Ptr(V(g, s), t) != 0 ==> 0 < Ptr(V(g, s), t) < g.blocks
  {
  }
}
