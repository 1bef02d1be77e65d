/** The ext2 block map as a forest of pointer slots.

    A slot is a place that can hold a block number: one of the 15 words of i_block[], or one
    word of an indirect block. `Ptr` reads a slot by following pointers from the inode, as
    ext2_resolve_block_num does; `Owns` says that every block in use by any file is held by
    exactly one slot. */
module BlockTree {
  import opened Words
  import opened Bytes
  import opened Arith

  type Block = Buf
  /** ext2_inode_t, 128 raw bytes; i_block[] starts at byte 40. */
  type RawInode = Buf

  const DIRECT := 12
  const IBLOCK_WORD := 10

  /** What the file layer sees of the volume: the device blocks and, for every inode number,
      the on-disk inode record now in force. */
  datatype View = View(bs: nat, disk: seq<Block>, raws: map<nat, RawInode>)

  datatype Slot = Root(ino: nat, k: nat) | Child(up: Slot, j: nat)

  function Ptrs(v: View): nat { v.bs / 4 }

  function At(disk: seq<Block>, b: nat): Block { if b < |disk| then disk[b] else [] }

  /** Levels of indirection below a slot: 0 for a slot that holds a data block. */
  function Level(s: Slot): int
  {
    match s
    case Root(_, k) => if k < DIRECT then 0 else k - 11
    case Child(up, _) => Level(up) - 1
  }

  /** The i_block[] word a slot hangs from, and how far below. */
  function TopOf(s: Slot): nat
  {
    match s
    case Root(_, k) => k
    case Child(up, _) => TopOf(up)
  }

  function Depth(s: Slot): nat
  {
    match s
    case Root(_, _) => 0
    case Child(up, _) => Depth(up) + 1
  }

  /** The slots on the way from the inode down to slot s. */
  function Above(s: Slot): set<Slot>
  {
    match s
    case Root(_, _) => {}
    case Child(up, _) => Above(up) + {up}
  }

  function Ino(s: Slot): nat
  {
    match s
    case Root(i, _) => i
    case Child(up, _) => Ino(up)
  }

  predicate IsSlot(v: View, s: Slot)
  {
    match s
    case Root(i, k) => i in v.raws && k < 15
    case Child(up, j) => IsSlot(v, up) && Level(up) > 0 && j < Ptrs(v)
  }

  function Word(b: Buf, j: nat): (r: nat)
    ensures r < U32
  {
    if 4 * j + 4 <= |b| then Get32(b, 4 * j) else 0
  }

  function SetWord(b: Buf, j: nat, x: nat): (r: Buf)
    requires 4 * j + 4 <= |b| && x < U32
    ensures |r| == |b|
    ensures forall m: nat :: Word(r, m) == if m == j then x else Word(b, m)
  {
    Put32(b, 4 * j, x)
  }

  /** i_block[k] of inode i */
  function RootWord(raws: map<nat, RawInode>, i: nat, k: nat): (r: nat)
    ensures r < U32
  {
    if i in raws then Word(raws[i], IBLOCK_WORD + k) else 0
  }

  /** The block number held in slot s, 0 for a hole. */
  function Ptr(v: View, s: Slot): (r: nat)
    ensures r < U32
  {
    match s
    case Root(i, k) => RootWord(v.raws, i, k)
    case Child(up, j) =>
      var q := Ptr(v, up);
      if q == 0 || q >= |v.disk| then 0 else Word(v.disk[q], j)
  }

  /** No double ownership: `owner` maps each block in use to the one slot that holds it. */
  ghost predicate Owns(v: View, owner: map<nat, Slot>)
  {
    && (forall s :: IsSlot(v, s) && Ptr(v, s) != 0 ==> Ptr(v, s) in owner && owner[Ptr(v, s)] == s)
    && (forall b :: b in owner ==> 0 < b < |v.disk| && IsSlot(v, owner[b]) && Ptr(v, owner[b]) == b)
  }

  ghost predicate Inner(owner: map<nat, Slot>, b: nat)
  {
    b in owner && Level(owner[b]) > 0
  }

  // ----- what a change of the device does to the pointers -----

  /** Blocks that are not indirect blocks can be rewritten without moving any pointer. */
  ghost predicate SameInner(v: View, v': View, owner: map<nat, Slot>)
  {
    && v'.bs == v.bs && v'.raws.Keys == v.raws.Keys && |v'.disk| == |v.disk|
    && (forall i, k: nat :: i in v.raws && k < 15 ==> RootWord(v'.raws, i, k) == RootWord(v.raws, i, k))
    && (forall b: nat :: Inner(owner, b) && b < |v.disk| ==> v'.disk[b] == v.disk[b])
  }

  lemma {:induction false} PtrFrame(v: View, v': View, owner: map<nat, Slot>, s: Slot)
    requires Owns(v, owner) && SameInner(v, v', owner) && IsSlot(v, s)
    ensures IsSlot(v', s) && Ptr(v', s) == Ptr(v, s)
  {
    if s.Child? {
      IsSlotFrame(v, v', s.up);
      PtrFrame(v, v', owner, s.up);
    }
  }

  lemma {:induction false} IsSlotFrame(v: View, v': View, s: Slot)
    requires v'.bs == v.bs && v'.raws.Keys == v.raws.Keys
    ensures IsSlot(v', s) == IsSlot(v, s)
  {
    if s.Child? {
      IsSlotFrame(v, v', s.up);
    }
  }

  lemma OwnsFrame(v: View, v': View, owner: map<nat, Slot>)
    requires Owns(v, owner) && SameInner(v, v', owner)
    ensures Owns(v', owner)
    ensures forall s {:trigger Ptr(v', s)} :: IsSlot(v, s) ==> Ptr(v', s) == Ptr(v, s)
  {
    forall s ensures IsSlot(v', s) == IsSlot(v, s) {
      IsSlotFrame(v, v', s);
    }
    forall s | IsSlot(v, s) ensures Ptr(v', s) == Ptr(v, s) {
      PtrFrame(v, v', owner, s);
    }
  }

  // ----- hanging a fresh block on an empty slot -----

  /** v' is v after storing x in the empty slot s0. */
  ghost predicate Attached(v: View, v': View, owner: map<nat, Slot>, s0: Slot, x: nat)
  {
    && v'.bs == v.bs && |v'.disk| == |v.disk| && v'.raws.Keys == v.raws.Keys
    && 0 < x < |v.disk| && x < U32 && x !in owner
    && IsSlot(v, s0) && Ptr(v, s0) == 0
    && (Level(s0) > 0 ==> forall m: nat :: Word(v'.disk[x], m) == 0)
    && match s0
       case Root(i, k) =>
         && |v.raws[i]| == 128
         && v'.raws == v.raws[i := SetWord(v.raws[i], IBLOCK_WORD + k, x)]
         && (forall b: nat :: Inner(owner, b) && b < |v.disk| ==> v'.disk[b] == v.disk[b])
       case Child(up, j) =>
         var q := Ptr(v, up);
         && v'.raws == v.raws
         && 0 < q < |v.disk| && 4 * j + 4 <= |v.disk[q]|
         && v'.disk[q] == SetWord(v.disk[q], j, x)
         && (forall b: nat :: Inner(owner, b) && b < |v.disk| && b != q ==> v'.disk[b] == v.disk[b])
  }

  lemma {:induction false} PtrAttached(v: View, v': View, owner: map<nat, Slot>, s0: Slot, x: nat, s: Slot)
    requires Owns(v, owner) && Attached(v, v', owner, s0, x) && IsSlot(v, s)
    ensures Ptr(v', s) == if s == s0 then x else Ptr(v, s)
  {
    if s.Child? {
      PtrAttached(v, v', owner, s0, x, s.up);
    }
  }

  lemma OwnsAttached(v: View, v': View, owner: map<nat, Slot>, s0: Slot, x: nat)
    requires Owns(v, owner) && Attached(v, v', owner, s0, x)
    ensures Owns(v', owner[x := s0])
    ensures forall s :: IsSlot(v', s) == IsSlot(v, s)
    ensures forall s {:trigger Ptr(v', s)} :: IsSlot(v, s) ==> Ptr(v', s) == if s == s0 then x else Ptr(v, s)
  {
    forall s ensures IsSlot(v', s) == IsSlot(v, s) {
      IsSlotFrame(v, v', s);
    }
    forall s | IsSlot(v, s) ensures Ptr(v', s) == if s == s0 then x else Ptr(v, s) {
      PtrAttached(v, v', owner, s0, x, s);
    }
  }

  // ----- taking slots away -----

  /** v' keeps the pointers in the slots of `keep` and has holes everywhere else. */
  ghost predicate Pruned(v: View, v': View, owner: map<nat, Slot>, keep: iset<Slot>)
  {
    && v'.bs == v.bs && |v'.disk| == |v.disk| && v'.raws.Keys == v.raws.Keys
    && (forall s :: s in keep && s.Child? ==> s.up in keep)
    && (forall i, k: nat :: i in v.raws && k < 15 ==>
          RootWord(v'.raws, i, k) == if Root(i, k) in keep then RootWord(v.raws, i, k) else 0)
    && (forall b: nat, j: nat :: Inner(owner, b) && b < |v.disk| && owner[b] in keep && j < Ptrs(v) ==>
          Word(v'.disk[b], j) == if Child(owner[b], j) in keep then Word(v.disk[b], j) else 0)
  }

  function Restrict(owner: map<nat, Slot>, keep: iset<Slot>): map<nat, Slot>
  {
    map b | b in owner && owner[b] in keep :: owner[b]
  }

  lemma {:induction false} PtrPruned(v: View, v': View, owner: map<nat, Slot>, keep: iset<Slot>, s: Slot)
    requires Owns(v, owner) && Pruned(v, v', owner, keep) && IsSlot(v, s)
    ensures Ptr(v', s) == if s in keep then Ptr(v, s) else 0
  {
    if s.Child? {
      PtrPruned(v, v', owner, keep, s.up);
    }
  }

  lemma OwnsPruned(v: View, v': View, owner: map<nat, Slot>, keep: iset<Slot>)
    requires Owns(v, owner) && Pruned(v, v', owner, keep)
    ensures Owns(v', Restrict(owner, keep))
    ensures forall s :: IsSlot(v', s) == IsSlot(v, s)
    ensures forall s {:trigger Ptr(v', s)} :: IsSlot(v, s) ==> Ptr(v', s) == if s in keep then Ptr(v, s) else 0
  {
    forall s ensures IsSlot(v', s) == IsSlot(v, s) {
      IsSlotFrame(v, v', s);
    }
    forall s | IsSlot(v, s) ensures Ptr(v', s) == if s in keep then Ptr(v, s) else 0 {
      PtrPruned(v, v', owner, keep, s);
    }
  }

  // ----- logical block numbers -----

  /** Blocks reachable with direct, single and double indirection: what can be assigned. */
  function MaxAssign(p: nat): nat { DIRECT + p + Times(p, p) }

  /** Positions mapped through i_block[13]. */
  predicate InDouble(p: nat, l: nat) { DIRECT + p <= l < MaxAssign(p) }

  /** Logical blocks the block map can reach. */
  function MapEnd(p: nat): nat { MaxAssign(p) + Times(p, Times(p, p)) }

  /** The slot of logical block l of inode i. */
  function DataSlot(p: nat, i: nat, l: nat): Slot
  {
    if l < DIRECT then Root(i, l) else
    var l1 := l - DIRECT;
    if l1 < p then Child(Root(i, 12), l1) else
    var l2 := l1 - p;
    if l2 < Times(p, p) then Child(Child(Root(i, 13), Quot(l2, p)), Rem(l2, p)) else
    var l3 := l2 - Times(p, p);
    var rem := Rem(l3, Times(p, p));
    Child(Child(Child(Root(i, 14), Quot(l3, Times(p, p))), Quot(rem, p)), Rem(rem, p))
  }
}
