/** Sequences of file operations as the system calls run them: open the inode, act, drop it
    again. Only the root's inode stays in memory from one operation to the next. */
module Histories {
  import opened Words
  import opened Bytes
  import opened Arith
  import opened BlockTree
  import opened Layout
  import opened Metadata
  import opened Volume
  import opened FsState
  import opened BlockMap
  import opened InodeTable
  import opened FileData
  import opened FileOps
  import opened FileFree
  import opened EntryLists
  import opened DirBlock
  import opened DirOps
  import opened DirAdd
  import opened NameOps
  import opened SubDirs
  import opened Tree
  import opened Runs
  import opened Soundness

  datatype Op =
    | OpCreate(dir: nat, name: Buf, mode: nat)
    | OpMkdir(dir: nat, name: Buf, mode: nat)
    | OpUnlink(dir: nat, name: Buf)
    | OpRmdir(dir: nat, name: Buf)
    | OpWrite(ino: nat, data: Buf, offset: nat)

  /** What an operation needs to stay inside its buffers: an inode in use, and for a new name a walk
      over its blocks that does not leave them, which in a directory it never does. Lengths and
      offsets are 32-bit; what unlink and rmdir do to "." and ".." is not described. */
  ghost predicate Apt(g: Geom, s: Fs, op: Op)
  {
    match op
    case OpCreate(d, name, _) => d in UsedInodes(g, s.m.disk) && (|name| <= 255 ==> Contained(g, s, d, |name|))
    case OpMkdir(d, name, _) => d in UsedInodes(g, s.m.disk) && (|name| <= 255 ==> Contained(g, s, d, |name|))
    case OpUnlink(d, name) => d in UsedInodes(g, s.m.disk) && PlainName(name)
    case OpRmdir(d, name) => d in UsedInodes(g, s.m.disk) && PlainName(name)
    case OpWrite(i, data, offset) => i in UsedInodes(g, s.m.disk) && |data| < U32 && offset < U32
  }

  /** What nobody checks and a sound volume depends on: a name is made only in a directory, is not
      "." or "..", and does not take the directory to 4 GiB; and however far a write gets, it leaves
      a file or a directory. */
  ghost predicate Legal(g: Geom, s: Fs, root: nat, op: Op)
  {
    match op
    case OpCreate(d, name, _) =>
      CanCreate(g, s, d, name) ==> IsDirIno(g, s, d) && PlainName(name) && Takes(g, s, d, |name|)
    case OpMkdir(d, name, _) =>
      CanMkdir(g, s, d, name) ==> IsDirIno(g, s, d) && PlainName(name) && Takes(g, s, d, |name|)
    case OpUnlink(_, _) => true
    case OpRmdir(_, _) => true
    case OpWrite(i, data, offset) => forall n: nat :: n <= |data| ==> SoundWrite(g, s, root, i, data, offset, n)
  }

  /** A new name in a directory is always apt, and a write to a file below 4 GiB is always legal. */
  lemma UsualCase(g: Geom, s: Fs, root: nat, d: nat, name: Buf, mode: nat, data: Buf, offset: nat)
    requires VolOK(g, s, root)
    ensures IsDirIno(g, s, d) ==> Apt(g, s, OpCreate(d, name, mode)) && Apt(g, s, OpMkdir(d, name, mode))
    ensures IsFileIno(g, s, d) && offset + |data| < U32 ==>
      Apt(g, s, OpWrite(d, data, offset)) && Legal(g, s, root, OpWrite(d, data, offset))
  {
    hide FsOK, Synced, Clean, Tails, OneLink, Tallied, TreeOf, TreeOK, Contained, TailFits;
    Shape(g, s);
    if IsDirIno(g, s, d) && |name| <= 255 { DirContained(g, s, d, |name|); }
    if IsFileIno(g, s, d) && offset + |data| < U32 {
      forall n: nat | n <= |data| ensures SoundWrite(g, s, root, d, data, offset, n) {
        BelowWraps(s, d, data, offset, n);
      }
    }
  }

  ghost predicate DidCreate(g: Geom, s: Fs, s': Fs, d: nat, name: Buf, mode: nat)
  {
    exists x: nat, raw: RawInode :: MadeFile(g, s, s', d, FileEntry(name, x), raw, mode)
  }

  /** The bytes of the entry are in the parent, and in a directory that takes it they are an entry. */
  ghost predicate MadeFile(g: Geom, s: Fs, s': Fs, d: nat, e: Entry, raw: RawInode, mode: nat)
  {
    && Planted(g, s, s', d, e, raw) && Born(raw, TYPE_FILE, mode, 1, 0, 0) && NoBlocks(raw)
    && (IsDirIno(g, s, d) && Takes(g, s, d, |e.name|) ==> Created(g, s, s', d, e, raw))
  }

  ghost predicate DidMkdir(g: Geom, s: Fs, s': Fs, d: nat, name: Buf, mode: nat)
  {
    exists x: nat, raw: RawInode :: MadeDirectory(g, s, s', d, DirEntry(name, x), raw, mode)
  }

  ghost predicate MadeDirectory(g: Geom, s: Fs, s': Fs, d: nat, e: Entry, raw: RawInode, mode: nat)
  {
    && PlantedSub(g, s, s', d, e, raw) && Born(raw, TYPE_DIR, mode, 2, g.bs, g.bs / 512)
    && (IsDirIno(g, s, d) && Takes(g, s, d, |e.name|) ==> MadeSub(g, s, s', d, e, raw))
  }

  /** What a create or mkdir that failed leaves: nothing, except that a new doubly indirect tree that
      came to nothing belongs to the root if that was the parent, and to no file otherwise. */
  ghost predicate NotDone(g: Geom, s: Fs, s': Fs, root: nat, d: nat, lost: bool)
  {
    if d == root then Unadded(g, s, s', d, {root}) && OneRoot(s.owner, s'.owner, d, lost) else NotAdded(g, s, s', lost)
  }

  ghost predicate WroteSome(g: Geom, s: Fs, s': Fs, i: nat, data: Buf, offset: nat, n: nat)
  {
    && n <= |data| < U32 && offset < U32 && Written(g, s, s', i, data, offset, n)
    && ModeOf(s'.raws[i]) == ModeOf(s.raws[i]) && LinksOf(s'.raws[i]) == LinksOf(s.raws[i])
    && (n < |data| ==> Stuck(g, s'.m, Add32(offset, n)) && Resolve(V(g, s), i, Quot(Add32(offset, n), g.bs)) == 0)
  }

  ghost predicate DidWrite(g: Geom, s: Fs, s': Fs, i: nat, data: Buf, offset: nat)
  {
    exists n: nat :: WroteSome(g, s, s', i, data, offset, n)
  }

  /** One operation takes the volume from s to s'. Blocks keep their single owners whatever it is. */
  ghost predicate Step(g: Geom, s: Fs, s': Fs, root: nat, op: Op)
  {
    && FsOK(g, s') && Synced(g, s', {root}) && Clean(g, s')
    && match op
       case OpCreate(d, name, mode) =>
         if CanCreate(g, s, d, name) then DidCreate(g, s, s', d, name, mode)
         else NotDone(g, s, s', root, d, CreateLoses(g, s, d, name))
       case OpMkdir(d, name, mode) =>
         if CanMkdir(g, s, d, name) then DidMkdir(g, s, s', d, name, mode)
         else NotDone(g, s, s', root, d, MkdirLoses(g, s, d, name))
       case OpUnlink(d, name) =>
         if IsDirIno(g, s, d) && NamesFile(g, s, d, name) then Unlinked(g, s, s', d, name, TargetOf(g, s, d, name))
         else s' == s
       case OpRmdir(d, name) =>
         if IsDirIno(g, s, d) && CanRmdir(g, s, d, name) then RemovedSub(g, s, s', d, name, TargetOf(g, s, d, name))
         else s' == s
       case OpWrite(i, data, offset) => DidWrite(g, s, s', i, data, offset)
  }

  lemma NotDoneKeeps(g: Geom, s: Fs, s': Fs, root: nat, d: nat, lost: bool)
    requires VolOK(g, s, root) && FsOK(g, s') && Synced(g, s', {root}) && Clean(g, s')
    requires NotDone(g, s, s', root, d, lost)
    ensures VolOK(g, s', root)
  {
    hide VolOK, FsOK, Synced, Clean, Unadded, NotAdded, Intact, OneRoot;
    if d == root { UnaddedIntact(g, s, s', d, {root}); } else { NotAddedIntact(g, s, s', lost); }
    IntactKeeps(g, s, s', root);
  }

  lemma CreateStepKeeps(g: Geom, s: Fs, s': Fs, root: nat, d: nat, name: Buf, mode: nat)
    requires VolOK(g, s, root) && Legal(g, s, root, OpCreate(d, name, mode))
    requires Step(g, s, s', root, OpCreate(d, name, mode))
    ensures VolOK(g, s', root)
  {
    hide VolOK, FsOK, Synced, Clean, IsDirIno, Planted, Created, CanCreate, NotDone, Takes, CreateLoses;
    if CanCreate(g, s, d, name) {
      var x: nat, raw: RawInode :| MadeFile(g, s, s', d, FileEntry(name, x), raw, mode);
      CreateSound(g, s, s', root, d, FileEntry(name, x), raw);
    } else {
      NotDoneKeeps(g, s, s', root, d, CreateLoses(g, s, d, name));
    }
  }

  lemma MkdirStepKeeps(g: Geom, s: Fs, s': Fs, root: nat, d: nat, name: Buf, mode: nat)
    requires VolOK(g, s, root) && Legal(g, s, root, OpMkdir(d, name, mode))
    requires Step(g, s, s', root, OpMkdir(d, name, mode))
    ensures VolOK(g, s', root)
  {
    hide VolOK, FsOK, Synced, Clean, IsDirIno, PlantedSub, MadeSub, CanMkdir, NotDone, Takes, MkdirLoses;
    if CanMkdir(g, s, d, name) {
      var x: nat, raw: RawInode :| MadeDirectory(g, s, s', d, DirEntry(name, x), raw, mode);
      MkdirSound(g, s, s', root, d, DirEntry(name, x), raw);
    } else {
      NotDoneKeeps(g, s, s', root, d, MkdirLoses(g, s, d, name));
    }
  }

  lemma UnlinkGoes(g: Geom, s: Fs, s': Fs, root: nat, d: nat, name: Buf)
    requires VolOK(g, s, root) && PlainName(name) && IsDirIno(g, s, d) && NamesFile(g, s, d, name)
    requires Unlinked(g, s, s', d, name, TargetOf(g, s, d, name))
    ensures Gone(g, s, s', d, name, TargetOf(g, s, d, name)) && !IsDirIno(g, s, TargetOf(g, s, d, name))
    ensures DirCounts(s'.m) == DirCounts(s.m)
  {
    hide FsOK, Synced, Clean, Tails, Formed, Tallied, Only, IsDir, ListOf, TreeOf, OneLink, Ranked, TargetOf;
    UnlinkGone(g, s, s', root, d, name);
  }

  lemma UnlinkStepKeeps(g: Geom, s: Fs, s': Fs, root: nat, d: nat, name: Buf)
    requires VolOK(g, s, root) && PlainName(name) && Step(g, s, s', root, OpUnlink(d, name))
    ensures VolOK(g, s', root)
  {
    hide VolOK, FsOK, Synced, Clean, IsDirIno, NamesFile, Unlinked, Gone, TargetOf, DirCounts;
    if IsDirIno(g, s, d) && NamesFile(g, s, d, name) {
      UnlinkGoes(g, s, s', root, d, name);
      GoneKeeps(g, s, s', root, d, name, TargetOf(g, s, d, name));
    }
  }

  lemma RmdirGoes(g: Geom, s: Fs, s': Fs, root: nat, d: nat, name: Buf)
    requires VolOK(g, s, root) && PlainName(name) && IsDirIno(g, s, d) && CanRmdir(g, s, d, name)
    requires RemovedSub(g, s, s', d, name, TargetOf(g, s, d, name))
    ensures var x := TargetOf(g, s, d, name);
            && Gone(g, s, s', d, name, x) && IsDirIno(g, s, x) && InoGroup(g, x) < |DirCounts(s.m)|
            && DirCounts(s'.m) == DirCounts(s.m)[InoGroup(g, x) := Less(DirCounts(s.m)[InoGroup(g, x)])]
  {
    hide VolOK, Only, IsDir, ListOf, TargetOf, DirCounts, Removed, Erased;
    RmdirGone(g, s, s', d, name);
    TargetUsed(g, s, root, d, name);
  }

  lemma RmdirStepKeeps(g: Geom, s: Fs, s': Fs, root: nat, d: nat, name: Buf)
    requires VolOK(g, s, root) && PlainName(name) && Step(g, s, s', root, OpRmdir(d, name))
    ensures VolOK(g, s', root)
  {
    hide VolOK, FsOK, Synced, Clean, IsDirIno, CanRmdir, RemovedSub, Gone, TargetOf, DirCounts, Less;
    if IsDirIno(g, s, d) && CanRmdir(g, s, d, name) {
      RmdirGoes(g, s, s', root, d, name);
      GoneKeeps(g, s, s', root, d, name, TargetOf(g, s, d, name));
    }
  }

  lemma TargetUsed(g: Geom, s: Fs, root: nat, d: nat, name: Buf)
    requires VolOK(g, s, root) && PlainName(name) && IsDirIno(g, s, d) && !Absent(ListOf(g, s, d), name)
    ensures TargetOf(g, s, d, name) in UsedInodes(g, s.m.disk) && TargetOf(g, s, d, name) !in {d, root}
  {
    hide FsOK, Synced, Clean, Tails, OneLink, Tallied, TreeOf, TreeOK, Formed, IsDirIno, ListOf;
    TargetFits(g, s, root, d, name);
  }

  /** Every legal operation keeps a volume sound. */
  lemma StepKeeps(g: Geom, s: Fs, s': Fs, root: nat, op: Op)
    requires VolOK(g, s, root) && Apt(g, s, op) && Legal(g, s, root, op) && Step(g, s, s', root, op)
    ensures VolOK(g, s', root)
  {
    hide VolOK, FsOK, Synced, Clean, IsDirIno, SoundWrite, Contained, UsedInodes, CanCreate, CanMkdir, Takes, NotDone,
         DidCreate, DidMkdir, NamesFile, CanRmdir, Unlinked, RemovedSub, Written, Stuck, Resolve;
    match op
    case OpCreate(d, name, mode) => CreateStepKeeps(g, s, s', root, d, name, mode);
    case OpMkdir(d, name, mode) => MkdirStepKeeps(g, s, s', root, d, name, mode);
    case OpUnlink(d, name) => UnlinkStepKeeps(g, s, s', root, d, name);
    case OpRmdir(d, name) => RmdirStepKeeps(g, s, s', root, d, name);
    case OpWrite(i, data, offset) =>
      var n: nat :| WroteSome(g, s, s', i, data, offset, n);
      WriteSound(g, s, s', root, i, data, offset, n);
  }

  /** A create or mkdir that succeeds changes what no file reads as if and only if its parent is a
      directory: under a file it writes the record over the file's bytes. */
  lemma StepSpares(g: Geom, s: Fs, s': Fs, root: nat, op: Op)
    requires VolOK(g, s, root) && Apt(g, s, op) && Step(g, s, s', root, op)
    requires (op.OpCreate? && CanCreate(g, s, op.dir, op.name)) || (op.OpMkdir? && CanMkdir(g, s, op.dir, op.name))
    ensures Spares(g, s, s') <==> IsDirIno(g, s, op.dir)
  {
    hide FsOK, Synced, Clean, IsDirIno, Formed, Tails, TreeOf, TreeOK, OneLink, Tallied, Contained, Created, MadeSub,
         Filed, Only, Spares, UsedInodes, Takes, Missing, HasInode, Displaces, DirCounts, IsDir, ListOf;
    match op
    case OpCreate(d, name, mode) =>
      var x: nat, raw: RawInode :| MadeFile(g, s, s', d, FileEntry(name, x), raw, mode);
      AddSpares(g, s, s', d, FileEntry(name, x));
    case OpMkdir(d, name, mode) =>
      var x: nat, raw: RawInode :| MadeDirectory(g, s, s', d, DirEntry(name, x), raw, mode);
      AddSpares(g, s, s', d, DirEntry(name, x));
    case _ => assert false;
  }

  /** ss is a run of ops: each step apt and legal where it starts, and done. */
  ghost predicate Run(g: Geom, ss: seq<Fs>, ops: seq<Op>, root: nat)
  {
    |ss| == |ops| + 1 && forall k: nat :: k < |ops| ==>
      Apt(g, ss[k], ops[k]) && Legal(g, ss[k], root, ops[k]) && Step(g, ss[k], ss[k + 1], root, ops[k])
  }

  /** Over any run of write, create, mkdir, unlink and rmdir every state is sound. */
  lemma {:induction false} RunKeeps(g: Geom, ss: seq<Fs>, ops: seq<Op>, root: nat, k: nat)
    requires Run(g, ss, ops, root) && VolOK(g, ss[0], root) && k < |ss|
    ensures VolOK(g, ss[k], root)
  {
    hide VolOK, Apt, Legal, Step;
    if k > 0 {
      RunKeeps(g, ss, ops, root, k - 1);
      StepKeeps(g, ss[k - 1], ss[k], root, ops[k - 1]);
    }
  }

  /** Over any run no byte of the superblock or of a group descriptor changes but those of the counts. */
  lemma RunFormat(g: Geom, ss: seq<Fs>, ops: seq<Op>, root: nat, k: nat)
    requires Run(g, ss, ops, root) && VolOK(g, ss[0], root) && k < |ss|
    ensures SameSuper(ss[0].m.sb, ss[k].m.sb) && |ss[k].m.gds| == |ss[0].m.gds|
    ensures forall x :: 0 <= x < |ss[0].m.gds| ==> SameDesc(ss[0].m.gds[x], ss[k].m.gds[x])
  {
    hide Run, Clean, Synced, Formed, Tails, TreeOf, TreeOK, OneLink, Tallied, Counted, Owns, OwnedOK;
    RunKeeps(g, ss, ops, root, k);
    RunKeeps(g, ss, ops, root, 0);
    FrozenAlike(g, ss[0].m, ss[k].m);
  }

  lemma FrozenAlike(g: Geom, m: Meta, m': Meta)
    requires Frozen(g, m) && Frozen(g, m')
    ensures SameSuper(m.sb, m'.sb) && |m'.gds| == |m.gds|
    ensures forall x :: 0 <= x < |m.gds| ==> SameDesc(m.gds[x], m'.gds[x])
  {
    forall x | 0 <= x < |m.gds| ensures SameDesc(m.gds[x], m'.gds[x]) {
      assert SameDesc(g.descs[x], m.gds[x]) && SameDesc(g.descs[x], m'.gds[x]);
    }
  }

  /** What every step keeps of blocks, sound volume or not: a block some file points to is pointed
      to once, is marked used, and is no metadata block. */
  lemma OwnedOnce(g: Geom, s: Fs, t: Slot, u: Slot)
    requires FsOK(g, s) && IsSlot(V(g, s), t) && IsSlot(V(g, s), u) && Ptr(V(g, s), t) != 0
    ensures Ptr(V(g, s), u) == Ptr(V(g, s), t) ==> u == t
    ensures Ptr(V(g, s), t) < g.blocks && Ptr(V(g, s), t) in Used(g, s.m.disk) && g.role[Ptr(V(g, s), t)] == Data
  {
    assert Ptr(V(g, s), t) in s.owner;
  }

  // ----- conservation of blocks -----

  /** Free blocks and blocks of files together. */
  ghost function Accounted(s: Fs): nat { FreeBlocksOf(s.m) + |s.owner| }

  ghost predicate NoBigTree(s: Fs, x: nat)
  {
    x in s.raws && IPtr(s.raws[x], 13) == 0 && IPtr(s.raws[x], 14) == 0
  }

  /** What a caller can see beforehand: the operation loses no block. A create or mkdir does when it
      puts a block where a file has one already, or dies halfway into a new doubly indirect tree of
      a parent whose inode is then dropped; an unlink or rmdir when the file has such a tree. */
  ghost predicate Lossless(g: Geom, s: Fs, root: nat, op: Op)
  {
    match op
    case OpCreate(d, name, _) =>
      if CanCreate(g, s, d, name) then !Displaces(g, s, d, |name|) else d == root || !CreateLoses(g, s, d, name)
    case OpMkdir(d, name, _) =>
      if CanMkdir(g, s, d, name) then !Displaces(g, s, d, |name|) else d == root || !MkdirLoses(g, s, d, name)
    case OpUnlink(d, name) =>
      IsDirIno(g, s, d) && NamesFile(g, s, d, name) ==> NoBigTree(s, TargetOf(g, s, d, name))
    case OpRmdir(d, name) =>
      IsDirIno(g, s, d) && CanRmdir(g, s, d, name) ==> NoBigTree(s, TargetOf(g, s, d, name))
    case OpWrite(_, _, _) => true
  }

  lemma ErasedBlocks(g: Geom, s: Fs, s': Fs, x: nat)
    requires Owns(V(g, s), s.owner) && x in s.raws && Erased(g, s, s', x)
    ensures Accounted(s') <= Accounted(s)
    ensures Accounted(s') == Accounted(s) <==> NoBigTree(s, x)
  {
    var mine := BlocksOf(s.owner, x);
    assert s'.owner.Keys == s.owner.Keys - mine;
    assert |s'.owner| == |s.owner| - |mine|;
    if NoBigTree(s, x) {
      FreedAll(V(g, s), s.owner, x);
    } else {
      FreedSome(V(g, s), s.owner, x);
    }
  }

  lemma NotDoneBlocks(g: Geom, s: Fs, s': Fs, root: nat, d: nat, lost: bool)
    requires NotDone(g, s, s', root, d, lost)
    ensures Accounted(s') <= Accounted(s)
    ensures Accounted(s') == Accounted(s) <==> d == root || !lost
  {
  }

  /** No operation makes blocks, and exactly the lossless ones lose none. */
  lemma StepBlocks(g: Geom, s: Fs, s': Fs, root: nat, op: Op)
    requires VolOK(g, s, root) && Apt(g, s, op) && Step(g, s, s', root, op)
    ensures Accounted(s') <= Accounted(s)
    ensures Accounted(s') == Accounted(s) <==> Lossless(g, s, root, op)
  {
    hide MetaOK, OwnedOK, Used, UsedInodes, Synced, Clean, Formed, Tails, Tallied, Contained, Filed, Only, Takes,
         NotDone, CanCreate, CanMkdir, CreateLoses, MkdirLoses, Displaces, IsDirIno, NamesFile, CanRmdir, IsDir,
         ListOf, TreeOf, Created, MadeSub, Owns, Erased, DirCounts, TreeOK, OneLink;
    match op
    case OpCreate(d, name, mode) =>
      if CanCreate(g, s, d, name) {
        var x: nat, raw: RawInode :| MadeFile(g, s, s', d, FileEntry(name, x), raw, mode);
      } else {
        NotDoneBlocks(g, s, s', root, d, CreateLoses(g, s, d, name));
      }
    case OpMkdir(d, name, mode) =>
      if CanMkdir(g, s, d, name) {
        var x: nat, raw: RawInode :| MadeDirectory(g, s, s', d, DirEntry(name, x), raw, mode);
      } else {
        NotDoneBlocks(g, s, s', root, d, MkdirLoses(g, s, d, name));
      }
    case OpUnlink(d, name) =>
      if IsDirIno(g, s, d) && NamesFile(g, s, d, name) {
        UnlinkGoes(g, s, s', root, d, name);
        ErasedBlocks(g, s, s', TargetOf(g, s, d, name));
      }
    case OpRmdir(d, name) =>
      if IsDirIno(g, s, d) && CanRmdir(g, s, d, name) {
        ErasedBlocks(g, s, s', TargetOf(g, s, d, name));
      }
    case OpWrite(i, data, offset) =>
      var n: nat :| WroteSome(g, s, s', i, data, offset, n);
  }

  /** Over any run the free count moves by exactly the blocks files gain and release if and only
      if every operation in it was lossless. */
  lemma {:induction false} RunBlocks(g: Geom, ss: seq<Fs>, ops: seq<Op>, root: nat, k: nat)
    requires Run(g, ss, ops, root) && VolOK(g, ss[0], root) && k < |ss|
    ensures Accounted(ss[k]) <= Accounted(ss[0])
    ensures Accounted(ss[k]) == Accounted(ss[0]) <==> forall j: nat :: j < k ==> Lossless(g, ss[j], root, ops[j])
  {
    hide VolOK, Apt, Legal, Step, Lossless, Accounted;
    if k > 0 {
      RunBlocks(g, ss, ops, root, k - 1);
      RunKeeps(g, ss, ops, root, k - 1);
      StepBlocks(g, ss[k - 1], ss[k], root, ops[k - 1]);
    }
  }

  // ----- the operations as the system calls run them -----

  lemma OpensIno(g: Geom, s: Fs, root: nat, d: nat)
    requires VolOK(g, s, root) && d in UsedInodes(g, s.m.disk)
    ensures FsOK(g, s) && Synced(g, s, {root}) && Clean(g, s) && d in s.raws
    ensures IsDirIno(g, s, d) <==> IsDirMode(ModeOf(s.raws[d]))
    ensures IsDirIno(g, s, d) ==> IsDir(g, s, d)
    ensures root in UsedInodes(g, s.m.disk) && root in s.raws
  {
    hide Synced, Clean, Tails, OneLink, Tallied, IsDir, ListOf, MetaOK, Owns, OwnedOK;
    Shape(g, s);
    assert root in TreeOf(g, s, root).dirs;
  }

  /** The root's inode is in memory; that of any other is read. */
  method OpenInode(vol: Vol, d: nat, root: Inode) returns (inode: Inode)
    requires VolOK(vol.g, Snap(vol), root.ino) && Loaded(vol, root) && d in UsedInodes(vol.g, vol.disk)
    ensures inode.ino == d && DirOpen(vol, inode, {root.ino})
    ensures if d == root.ino then inode == root else fresh(inode)
  {
    hide VolOK, FsOK, Synced, Clean, UsedInodes;
    OpensIno(vol.g, Snap(vol), root.ino, d);
    if d == root.ino {
      inode := root;
    } else {
      inode := ReadInode(vol, d, {root.ino});
    }
  }

  /** inode_put of an inode whose record was not written back. */
  ghost method DropInode(vol: Vol, d: nat, s: Fs, lost: bool, dirty: set<nat>)
    requires FsOK(vol.g, s) && FsOK(vol.g, Snap(vol)) && d in UsedInodes(vol.g, s.m.disk) && Synced(vol.g, s, dirty)
    requires Unadded(vol.g, s, Snap(vol), d, dirty) && OneRoot(s.owner, vol.owner, d, lost) && d !in dirty
    requires d in s.raws && (lost ==> Word(s.raws[d], IBLOCK_WORD + 13) == 0) && Clean(vol.g, Snap(vol))
    modifies vol`raws, vol`owner
    ensures FsOK(vol.g, Snap(vol)) && Synced(vol.g, Snap(vol), dirty) && NotAdded(vol.g, s, Snap(vol), lost)
    ensures Clean(vol.g, Snap(vol)) && vol.raws == s.raws
  {
    hide Synced, SameFile, OthersKept, Owns, OwnedOK, MetaOK, ReadsSame;
    var r := Forget(s, Snap(vol), d);
    Forgets(vol.g, s, Snap(vol), d, lost, dirty);
    vol.raws := r.raws;
    vol.owner := r.owner;
    assert Snap(vol) == r;
  }

  lemma SameSet(d: nat)
    ensures {d} + {d} == {d}
  {
  }

  method DoCreate(vol: Vol, d: nat, name: Buf, mode: nat, root: Inode)
    requires VolOK(vol.g, Snap(vol), root.ino) && Loaded(vol, root) && Apt(vol.g, Snap(vol), OpCreate(d, name, mode))
    modifies vol, root
    ensures Step(vol.g, old(Snap(vol)), Snap(vol), root.ino, OpCreate(d, name, mode)) && Loaded(vol, root)
  {
    hide VolOK, FsOK, Synced, Clean, IsDir, IsDirIno, Created, Planted, Unadded, NotAdded, OneRoot, Contained, Takes,
         Full, HasInode, CanCreate, UsedInodes;
    ghost var s := Snap(vol);
    OpensIno(vol.g, s, root.ino, d);
    var dir := OpenInode(vol, d, root);
    var ok, x, raw := Create(vol, dir, name, mode, {root.ino});
    ghost var e := FileEntry(name, x);
    if ok {
      assert MadeFile(vol.g, s, Snap(vol), d, e, raw, mode);
      PlantedRest(vol.g, s, Snap(vol), d, e, raw, root.ino);
    } else if d == root.ino {
      UnaddedSynced(vol.g, s, Snap(vol), d);
    } else {
      DropInode(vol, d, s, CreateLoses(vol.g, s, d, name), {root.ino});
    }
  }

  lemma UnaddedSynced(g: Geom, s: Fs, s': Fs, d: nat)
    requires Unadded(g, s, s', d, {d})
    ensures Synced(g, s', {d})
  {
    SameSet(d);
  }

  lemma PlantedRest(g: Geom, s: Fs, s': Fs, d: nat, e: Entry, raw: RawInode, i: nat)
    requires Planted(g, s, s', d, e, raw) && i in UsedInodes(g, s.m.disk) && i in s.raws
    ensures i in s'.raws && (i != d ==> s'.raws[i] == s.raws[i])
  {
  }

  lemma PlantedSubRest(g: Geom, s: Fs, s': Fs, d: nat, e: Entry, raw: RawInode, i: nat)
    requires PlantedSub(g, s, s', d, e, raw) && i in UsedInodes(g, s.m.disk) && i in s.raws
    ensures i in s'.raws && (i != d ==> s'.raws[i] == s.raws[i])
  {
  }

  method DoMkdir(vol: Vol, d: nat, name: Buf, mode: nat, root: Inode)
    requires VolOK(vol.g, Snap(vol), root.ino) && Loaded(vol, root) && Apt(vol.g, Snap(vol), OpMkdir(d, name, mode))
    modifies vol, root
    ensures Step(vol.g, old(Snap(vol)), Snap(vol), root.ino, OpMkdir(d, name, mode)) && Loaded(vol, root)
  {
    hide VolOK, FsOK, Synced, Clean, IsDir, IsDirIno, MadeSub, PlantedSub, Unadded, NotAdded, OneRoot, Contained, Takes,
         Full, HasInode, CanMkdir, UsedInodes;
    ghost var s := Snap(vol);
    OpensIno(vol.g, s, root.ino, d);
    var dir := OpenInode(vol, d, root);
    var ok, x, raw := Mkdir(vol, dir, name, mode, {root.ino});
    if ok {
      assert MadeDirectory(vol.g, s, Snap(vol), d, DirEntry(name, x), raw, mode);
      PlantedSubRest(vol.g, s, Snap(vol), d, DirEntry(name, x), raw, root.ino);
    } else if d == root.ino {
      UnaddedSynced(vol.g, s, Snap(vol), d);
    } else {
      DropInode(vol, d, s, MkdirLoses(vol.g, s, d, name), {root.ino});
    }
  }

  method DoUnlink(vol: Vol, d: nat, name: Buf, root: Inode)
    requires VolOK(vol.g, Snap(vol), root.ino) && Loaded(vol, root) && Apt(vol.g, Snap(vol), OpUnlink(d, name))
    modifies vol, root
    ensures Step(vol.g, old(Snap(vol)), Snap(vol), root.ino, OpUnlink(d, name)) && Loaded(vol, root)
  {
    hide VolOK, FsOK, Synced, Clean, IsDir, IsDirIno, TargetOK, NamesFile, TargetOf, UsedInodes, Only, Erased, LinkLess,
         Removed, ListOf;
    ghost var s := Snap(vol);
    OpensIno(vol.g, s, root.ino, d);
    var dir := OpenInode(vol, d, root);
    if IsDirIno(vol.g, s, d) { FitTarget(vol.g, s, root.ino, d, name); }
    var ok := Unlink(vol, dir, name, {root.ino});
    if ok { OnlyKeys(vol.g, s, Snap(vol), {d, TargetOf(vol.g, s, d, name)}); }
  }

  lemma FitTarget(g: Geom, s: Fs, root: nat, d: nat, name: Buf)
    requires VolOK(g, s, root) && IsDirIno(g, s, d) && PlainName(name)
    ensures TargetOK(g, s, d, name, {root})
    ensures NamesFile(g, s, d, name) || CanRmdir(g, s, d, name) ==> TargetOf(g, s, d, name) != root
  {
    hide FsOK, Synced, Clean, Tails, OneLink, Tallied, TreeOf, TreeOK, Formed, IsDirIno, ListOf;
    TargetFits(g, s, root, d, name);
  }

  method DoRmdir(vol: Vol, d: nat, name: Buf, root: Inode)
    requires VolOK(vol.g, Snap(vol), root.ino) && Loaded(vol, root) && Apt(vol.g, Snap(vol), OpRmdir(d, name))
    modifies vol, root
    ensures Step(vol.g, old(Snap(vol)), Snap(vol), root.ino, OpRmdir(d, name)) && Loaded(vol, root)
  {
    hide VolOK, FsOK, Synced, Clean, IsDir, IsDirIno, TargetOK, CanRmdir, TargetOf, UsedInodes, Only, Erased, Removed,
         ListOf;
    ghost var s := Snap(vol);
    OpensIno(vol.g, s, root.ino, d);
    var dir := OpenInode(vol, d, root);
    if IsDirIno(vol.g, s, d) { FitTarget(vol.g, s, root.ino, d, name); }
    var ok := Rmdir(vol, dir, name, {root.ino});
    if ok { OnlyKeys(vol.g, s, Snap(vol), {d, TargetOf(vol.g, s, d, name)}); }
  }

  /** ext2_write on an inode in use, whatever it is. */
  method DoWrite(vol: Vol, i: nat, data: Buf, offset: nat, root: Inode) returns (n: nat)
    requires VolOK(vol.g, Snap(vol), root.ino) && Loaded(vol, root) && Apt(vol.g, Snap(vol), OpWrite(i, data, offset))
    modifies vol, root
    ensures WroteSome(vol.g, old(Snap(vol)), Snap(vol), i, data, offset, n)
    ensures Step(vol.g, old(Snap(vol)), Snap(vol), root.ino, OpWrite(i, data, offset)) && Loaded(vol, root)
  {
    hide VolOK, FsOK, Synced, Clean, UsedInodes, Wrote, OthersKept, MapsGrown, CountsData, DirCounts, Stuck, Resolve,
         IsDirIno, IsDir, Only;
    ghost var s := Snap(vol);
    OpensIno(vol.g, s, root.ino, i);
    var inode := OpenInode(vol, i, root);
    SyncedMore(vol.g, s, {root.ino}, i);
    n := Write(vol, inode, data, offset, {root.ino});
    WriteOnly(vol.g, s, Snap(vol), i, data, offset, n);
    OnlyKeys(vol.g, s, Snap(vol), {i});
    WriteClean(vol.g, s, Snap(vol), i);
    assert WroteSome(vol.g, s, Snap(vol), i, data, offset, n);
  }

  /** Any one operation: a step, and after a legal one the volume is sound again. */
  method Apply(vol: Vol, op: Op, root: Inode)
    requires VolOK(vol.g, Snap(vol), root.ino) && Loaded(vol, root) && Apt(vol.g, Snap(vol), op)
    modifies vol, root
    ensures Step(vol.g, old(Snap(vol)), Snap(vol), root.ino, op) && Loaded(vol, root)
    ensures Legal(vol.g, old(Snap(vol)), root.ino, op) ==> VolOK(vol.g, Snap(vol), root.ino)
  {
    hide VolOK, Apt, Legal, Step;
    ghost var s := Snap(vol);
    match op {
      case OpCreate(d, name, mode) => DoCreate(vol, d, name, mode, root);
      case OpMkdir(d, name, mode) => DoMkdir(vol, d, name, mode, root);
      case OpUnlink(d, name) => DoUnlink(vol, d, name, root);
      case OpRmdir(d, name) => DoRmdir(vol, d, name, root);
      case OpWrite(i, data, offset) => var n := DoWrite(vol, i, data, offset, root);
    }
    if Legal(vol.g, s, root.ino, op) { StepKeeps(vol.g, s, Snap(vol), root.ino, op); }
  }
}
