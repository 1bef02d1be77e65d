/** Which writes and which new names keep a volume sound, exactly. Nothing in the code tells a
    file from a directory before it writes to one or makes a name in one. */
module Soundness {
  import opened Words
  import opened Bytes
  import opened Arith
  import opened BlockTree
  import opened Layout
  import opened Metadata
  import opened FsState
  import opened InodeTable
  import opened FileData
  import opened FileOps
  import opened Truncate
  import opened EntryLists
  import opened DirBlock
  import opened Directory
  import opened DirOps
  import opened DirAdd
  import opened NameOps
  import opened SubDirs
  import opened Tree
  import opened Runs

  // ----- an operation that changes no name and no byte -----

  ghost predicate SameFace(a: RawInode, b: RawInode)
  {
    ModeOf(b) == ModeOf(a) && SizeOf(b) == SizeOf(a) && LinksOf(b) == LinksOf(a)
  }

  /** Every file reads and maps as before under the same mode, size and links. */
  ghost predicate Intact(g: Geom, s: Fs, s': Fs)
  {
    && ReadsSame(g, s, s') && s'.raws.Keys == s.raws.Keys
    && (forall i :: i in s.raws ==> SameFace(s.raws[i], s'.raws[i]))
    && UsedInodes(g, s'.m.disk) == UsedInodes(g, s.m.disk) && DirCounts(s'.m) == DirCounts(s.m)
  }

  lemma IntactDir(g: Geom, s: Fs, s': Fs, i: nat)
    requires SizesOK(g) && Intact(g, s, s') && IsDir(g, s, i)
    ensures IsDir(g, s', i) && ListOf(g, s', i) == ListOf(g, s, i)
  {
    DirSame(g, s, s', i, NBlocks(g, s, i));
  }

  lemma IntactInos(g: Geom, s: Fs, s': Fs)
    requires Intact(g, s, s')
    ensures forall i :: IsDirIno(g, s', i) <==> IsDirIno(g, s, i)
    ensures forall i :: IsFileIno(g, s', i) <==> IsFileIno(g, s, i)
  {
  }

  lemma IntactTree(g: Geom, s: Fs, s': Fs, root: nat)
    requires SizesOK(g) && Formed(g, s) && Intact(g, s, s')
    ensures TreeOf(g, s', root) == TreeOf(g, s, root) && Formed(g, s')
  {
    hide IsDir, ListOf, ReadsSame;
    forall x | IsDirIno(g, s, x) ensures IsDir(g, s', x) && ListOf(g, s', x) == ListOf(g, s, x) {
      IntactDir(g, s, s', x);
    }
  }

  lemma IntactTails(g: Geom, s: Fs, s': Fs)
    requires Intact(g, s, s') && Tails(g, s)
    ensures Tails(g, s')
  {
    forall x | IsFileIno(g, s', x) ensures TailZero(V(g, s'), x) { assert IsFileIno(g, s, x); }
  }

  lemma IntactLinks(g: Geom, s: Fs, s': Fs, t: Tree)
    requires Intact(g, s, s') && OneLink(g, s, t)
    ensures OneLink(g, s', t)
  {
    hide ReadsSame, DirCounts;
    IntactInos(g, s, s');
  }

  lemma IntactKeeps(g: Geom, s: Fs, s': Fs, root: nat)
    requires VolOK(g, s, root) && FsOK(g, s') && Synced(g, s', {root}) && Clean(g, s') && Intact(g, s, s')
    ensures VolOK(g, s', root)
  {
    hide FsOK, Synced, Intact, Formed, Tails, Clean, TreeOf, TreeOK, OneLink, Tallied;
    Shape(g, s);
    IntactTree(g, s, s', root);
    IntactTails(g, s, s');
    IntactLinks(g, s, s', TreeOf(g, s, root));
    IntactInos(g, s, s');
    assert DirCounts(s'.m) == DirCounts(s.m) by { IntactCounts(g, s, s'); }
    TallyKept(g, s, s');
  }

  lemma IntactCounts(g: Geom, s: Fs, s': Fs)
    requires Intact(g, s, s')
    ensures DirCounts(s'.m) == DirCounts(s.m)
  {
  }

  /** A failed create or mkdir whose in-memory inode was dropped. */
  lemma NotAddedIntact(g: Geom, s: Fs, s': Fs, lost: bool)
    requires NotAdded(g, s, s', lost)
    ensures Intact(g, s, s')
  {
  }

  /** A failed create or mkdir whose parent stays in memory. */
  lemma UnaddedIntact(g: Geom, s: Fs, s': Fs, d: nat, dirty: set<nat>)
    requires Unadded(g, s, s', d, dirty)
    ensures Intact(g, s, s')
  {
  }

  // ----- write -----

  /** The size of file i once n bytes have been written at offset. */
  function NewSize(s: Fs, i: nat, offset: nat, n: nat): nat
  {
    if i in s.raws && offset < U32 && n < U32 then Max(SizeOf(s.raws[i]), Add32(offset, n)) else 0
  }

  /** The byte of file i at p once the first n bytes of data have been written at offset. */
  function NewByte(g: Geom, s: Fs, i: nat, data: Buf, offset: nat, n: nat, p: nat): Byte
  {
    if offset < U32 && p < U32 && Ahead(offset, p) < n && n <= |data| then data[Ahead(offset, p)]
    else RawByte(V(g, s), i, p)
  }

  function NewBytes(g: Geom, s: Fs, i: nat, data: Buf, offset: nat, n: nat, j: nat): (b: Buf)
    ensures |b| == g.bs
  {
    seq<Byte>(g.bs, k requires k >= 0 => NewByte(g, s, i, data, offset, n, Times(j, g.bs) + k))
  }

  /** Block j of file i has a block of the device then. */
  ghost predicate NewMapped(g: Geom, s: Fs, i: nat, offset: nat, n: nat, j: nat)
  {
    Resolve(V(g, s), i, j) != 0 || WriteReaches(g.bs, offset, n, j)
  }

  function NewCount(g: Geom, s: Fs, i: nat, offset: nat, n: nat): nat
  {
    var size := NewSize(s, i, offset, n);
    if 0 < g.bs <= 4096 && size < U32 then BlockCount(size, g.bs) else 0
  }

  /** The bytes then are directory blocks, end to end. */
  ghost predicate NewDir(g: Geom, s: Fs, i: nat, data: Buf, offset: nat, n: nat)
  {
    var m := NewCount(g, s, i, offset, n);
    && (forall j: nat :: j < m && NewMapped(g, s, i, offset, n, j) ==> Chain(NewBytes(g, s, i, data, offset, n, j)))
    && (forall j: nat :: m <= j < MapEnd(g.bs / 4) ==> !NewMapped(g, s, i, offset, n, j))
  }

  function NewLists(g: Geom, s: Fs, i: nat, data: Buf, offset: nat, n: nat, m: nat): (ls: seq<seq<Entry>>)
    ensures |ls| == m && forall j :: 0 <= j < m ==> ls[j] == Entries(NewBytes(g, s, i, data, offset, n, j))
  {
    seq(m, j requires j >= 0 => Entries(NewBytes(g, s, i, data, offset, n, j)))
  }

  /** The name space those blocks spell. */
  ghost function NewTree(g: Geom, s: Fs, root: nat, i: nat, data: Buf, offset: nat, n: nat): Tree
  {
    var t := TreeOf(g, s, root);
    t.(dirs := t.dirs[i := Cat(NewLists(g, s, i, data, offset, n, NewCount(g, s, i, offset, n)))])
  }

  /** Byte k of those written at offset lies behind the end of the file. */
  predicate Behind(s: Fs, i: nat, offset: nat, n: nat, k: nat)
  {
    offset < U32 && k < U32 && Add32(offset, k) >= NewSize(s, i, offset, n)
  }

  /** Of the bytes that wrap past 4 GiB, those behind the end of the file are zeros. */
  ghost predicate TailFits(s: Fs, i: nat, data: Buf, offset: nat, n: nat)
  {
    forall k: nat {:trigger data[k]} :: k < n && k < |data| && Behind(s, i, offset, n, k) ==> data[k] == 0
  }

  /** Writing the first n bytes of data at offset leaves the volume sound: what a caller can tell
      from the volume before. A file must end in zeros as it did; a directory only takes bytes that
      spell directory blocks and a sound name space. */
  ghost predicate SoundWrite(g: Geom, s: Fs, root: nat, i: nat, data: Buf, offset: nat, n: nat)
  {
    if IsFileIno(g, s, i) then TailFits(s, i, data, offset, n)
    else
      && NewDir(g, s, i, data, offset, n)
      && TreeOK(NewTree(g, s, root, i, data, offset, n)) && OneLink(g, s, NewTree(g, s, root, i, data, offset, n))
  }

  lemma BelowWraps(s: Fs, i: nat, data: Buf, offset: nat, n: nat)
    requires i in s.raws && n <= |data| && offset + |data| < U32
    ensures TailFits(s, i, data, offset, n)
  {
  }

  lemma WriteOnly(g: Geom, s: Fs, s': Fs, i: nat, buf: Buf, offset: nat, n: nat)
    requires Written(g, s, s', i, buf, offset, n)
    ensures Only(g, s, s', {i})
  {
  }

  /** The same inodes are directories and files; those other than i are as they were. */
  ghost predicate AsBefore(g: Geom, s: Fs, s': Fs, i: nat)
  {
    && (forall x :: IsDirIno(g, s', x) <==> IsDirIno(g, s, x))
    && (forall x :: IsFileIno(g, s', x) <==> IsFileIno(g, s, x))
    && (forall x :: IsDirIno(g, s, x) && x != i ==> IsDir(g, s', x) && ListOf(g, s', x) == ListOf(g, s, x))
  }

  lemma WriteAsBefore(g: Geom, s: Fs, s': Fs, i: nat)
    requires SizesOK(g) && Formed(g, s) && Only(g, s, s', {i}) && i in s.raws && i in s'.raws
    requires ModeOf(s'.raws[i]) == ModeOf(s.raws[i]) && UsedInodes(g, s'.m.disk) == UsedInodes(g, s.m.disk)
    ensures AsBefore(g, s, s', i)
  {
    hide Only, IsDir, ListOf, UsedInodes;
    forall x: nat | x != i
      ensures IsDirIno(g, s', x) == IsDirIno(g, s, x) && IsFileIno(g, s', x) == IsFileIno(g, s, x)
      ensures IsDirIno(g, s, x) ==> IsDir(g, s', x) && ListOf(g, s', x) == ListOf(g, s, x)
    {
      KeptDir(g, s, s', {i}, x);
    }
  }

  lemma FileTree(g: Geom, s: Fs, s': Fs, root: nat, i: nat)
    requires Formed(g, s) && AsBefore(g, s, s', i) && IsFileIno(g, s, i)
    requires UsedInodes(g, s'.m.disk) == UsedInodes(g, s.m.disk)
    ensures TreeOf(g, s', root) == TreeOf(g, s, root) && Formed(g, s')
  {
    hide IsDir, ListOf, UsedInodes;
  }

  /** A write to a file keeps its tail zero exactly if what it lays behind the end is zeros. */
  lemma WriteTail(g: Geom, s: Fs, s': Fs, i: nat, data: Buf, offset: nat, n: nat)
    requires Written(g, s, s', i, data, offset, n) && n <= |data| && TailZero(V(g, s), i)
    ensures TailZero(V(g, s'), i) <==> TailFits(s, i, data, offset, n)
  {
    hide RawByte, OthersKept, CountsData, DirCounts, UsedInodes, MapsGrown;
    forall k: nat | k < n ensures Ahead(offset, Add32(offset, k)) == k { }
    if TailZero(V(g, s'), i) {
      forall k: nat | k < n && Add32(offset, k) >= NewSize(s, i, offset, n) ensures data[k] == 0 {
        assert RawByte(V(g, s'), i, Add32(offset, k)) == data[k];
      }
    }
    if TailFits(s, i, data, offset, n) {
      forall p: nat | SizeOf(s'.raws[i]) <= p < U32 ensures RawByte(V(g, s'), i, p) == 0 {
        if Ahead(offset, p) < n { assert data[Ahead(offset, p)] == 0; }
      }
    }
  }

  lemma NewBlockIs(g: Geom, s: Fs, s': Fs, i: nat, data: Buf, offset: nat, n: nat, j: nat)
    requires Written(g, s, s', i, data, offset, n) && n <= |data| && Times(j, g.bs) + g.bs <= U32
    ensures BlockBytes(V(g, s'), i, j) == NewBytes(g, s, i, data, offset, n, j)
  {
    hide RawByte, OthersKept, CountsData, DirCounts, UsedInodes, MapsGrown;
    forall k: nat | k < g.bs ensures BlockBytes(V(g, s'), i, j)[k] == NewBytes(g, s, i, data, offset, n, j)[k] {
      assert RawByte(V(g, s'), i, Times(j, g.bs) + k) == NewByte(g, s, i, data, offset, n, Times(j, g.bs) + k);
    }
  }

  lemma WroteBounds(g: Geom, s: Fs, s': Fs, i: nat, data: Buf, offset: nat, n: nat)
    requires Written(g, s, s', i, data, offset, n)
    ensures offset < U32 && n < U32
  {
  }

  /** What a directory is after a write can be told from the bytes before. */
  lemma NewDirIs(g: Geom, s: Fs, s': Fs, i: nat, data: Buf, offset: nat, n: nat)
    requires SizesOK(g) && Written(g, s, s', i, data, offset, n) && n <= |data|
    ensures IsDir(g, s', i) <==> NewDir(g, s, i, data, offset, n)
    ensures ListOf(g, s', i) == Cat(NewLists(g, s, i, data, offset, n, NewCount(g, s, i, offset, n)))
  {
    hide RawByte, Resolve, WriteReaches, Chain, Entries, Wrote, OthersKept, CountsData, DirCounts, UsedInodes, NewBytes;
    var m := NBlocks(g, s', i);
    assert m == NewCount(g, s, i, offset, n) by { WroteBounds(g, s, s', i, data, offset, n); }
    BlockFits(g, s', i, m);
    forall j: nat | j < m
      ensures BlockBytes(V(g, s'), i, j) == NewBytes(g, s, i, data, offset, n, j) && j < MapEnd(g.bs / 4)
    {
      BlockFits(g, s', i, j);
      NewBlockIs(g, s, s', i, data, offset, n, j);
    }
    assert forall j: nat :: j < MapEnd(g.bs / 4) ==>
        (Resolve(V(g, s'), i, j) != 0 <==> NewMapped(g, s, i, offset, n, j));
    assert Lists(V(g, s'), i, m) == NewLists(g, s, i, data, offset, n, m);
  }

  lemma DirTree(g: Geom, s: Fs, s': Fs, root: nat, i: nat, es: seq<Entry>)
    requires Formed(g, s) && AsBefore(g, s, s', i) && IsDirIno(g, s, i) && ListOf(g, s', i) == es
    requires UsedInodes(g, s'.m.disk) == UsedInodes(g, s.m.disk)
    ensures TreeOf(g, s', root) == TreeOf(g, s, root).(dirs := TreeOf(g, s, root).dirs[i := es])
    ensures Formed(g, s') <==> IsDir(g, s', i)
  {
    hide IsDir, ListOf, UsedInodes;
    var t, t' := TreeOf(g, s, root), TreeOf(g, s', root);
    assert t'.dirs == t.dirs[i := es];
  }

  lemma OtherTails(g: Geom, s: Fs, s': Fs, i: nat)
    requires Tails(g, s) && Only(g, s, s', {i}) && AsBefore(g, s, s', i)
    ensures Tails(g, s') <==> (IsFileIno(g, s, i) ==> i in s'.raws && TailZero(V(g, s'), i))
  {
    hide IsDir, ListOf, UsedInodes;
    forall x | IsFileIno(g, s', x) && x != i ensures TailZero(V(g, s'), x) {
      assert IsFileIno(g, s, x);
      KeptTail(g, s, s', {i}, x);
    }
  }

  lemma OtherLinks(g: Geom, s: Fs, s': Fs, i: nat, t: Tree)
    requires Only(g, s, s', {i}) && i in s.raws && i in s'.raws && AsBefore(g, s, s', i)
    requires LinksOf(s'.raws[i]) == LinksOf(s.raws[i])
    ensures OneLink(g, s', t) <==> OneLink(g, s, t)
  {
    hide IsDir, ListOf;
    assert forall x :: IsFileIno(g, s, x) ==> LinksOf(s'.raws[x]) == LinksOf(s.raws[x]);
  }

  lemma WriteClean(g: Geom, s: Fs, s': Fs, i: nat)
    requires Clean(g, s) && Only(g, s, s', {i}) && i in UsedInodes(g, s.m.disk)
    requires UsedInodes(g, s'.m.disk) == UsedInodes(g, s.m.disk)
    ensures Clean(g, s')
  {
  }

  /** A write to any inode in use leaves the volume sound if and only if it goes to a file and lays
      only zeros behind its end, or to a directory whose blocks, overlaid, still spell a sound name
      space. */
  lemma WriteSound(g: Geom, s: Fs, s': Fs, root: nat, i: nat, data: Buf, offset: nat, n: nat)
    requires VolOK(g, s, root) && i in UsedInodes(g, s.m.disk) && n <= |data|
    requires FsOK(g, s') && Synced(g, s', {root}) && Written(g, s, s', i, data, offset, n)
    requires ModeOf(s'.raws[i]) == ModeOf(s.raws[i]) && LinksOf(s'.raws[i]) == LinksOf(s.raws[i])
    ensures Clean(g, s') && (VolOK(g, s', root) <==> SoundWrite(g, s, root, i, data, offset, n))
  {
    hide FsOK, Synced, Only, Formed, Tails, Clean, TreeOf, TreeOK, OneLink, OthersKept, TailZero, Wrote, MapsGrown,
         CountsData, Tallied, NewDir, NewTree, TailFits, AsBefore, IsDir, ListOf;
    Shape(g, s);
    WriteOnly(g, s, s', i, data, offset, n);
    WriteClean(g, s, s', i);
    WriteAsBefore(g, s, s', i);
    WriteTally(g, s, s', i);
    OtherTails(g, s, s', i);
    if IsFileIno(g, s, i) {
      FileTree(g, s, s', root, i);
      OtherLinks(g, s, s', i, TreeOf(g, s, root));
      TailAt(g, s, i);
      WriteTail(g, s, s', i, data, offset, n);
    } else {
      NewDirIs(g, s, s', i, data, offset, n);
      DirTree(g, s, s', root, i, ListOf(g, s', i));
      NewTreeIs(g, s, root, i, data, offset, n);
      OtherLinks(g, s, s', i, TreeOf(g, s', root));
    }
  }

  lemma NewTreeIs(g: Geom, s: Fs, root: nat, i: nat, data: Buf, offset: nat, n: nat)
    ensures NewTree(g, s, root, i, data, offset, n) ==
      var t := TreeOf(g, s, root);
      t.(dirs := t.dirs[i := Cat(NewLists(g, s, i, data, offset, n, NewCount(g, s, i, offset, n)))])
  {
  }

  lemma WriteTally(g: Geom, s: Fs, s': Fs, i: nat)
    requires Tallied(g, s) && AsBefore(g, s, s', i) && DirCounts(s'.m) == DirCounts(s.m)
    ensures Tallied(g, s')
  {
    hide IsDir, ListOf, Tallied, DirCounts;
    TallyKept(g, s, s');
  }

  lemma TailAt(g: Geom, s: Fs, i: nat)
    requires Tails(g, s) && IsFileIno(g, s, i)
    ensures TailZero(V(g, s), i)
  {
  }

  // ----- a new name -----

  /** A name that neither stands for the directory nor for its parent. */
  predicate PlainName(name: Buf) { name != DOT_NAME && name != DOTDOT_NAME }

  lemma CountWraps(size: nat, bs: nat)
    requires bs in {1024, 2048, 4096} && size < U32 && Times(BlockCount(size, bs) + 1, bs) >= U32
    ensures BlockCount(Add32(size, bs), bs) == 0
  {
    hide Quot, Rem;
    QuotRem(Add32(size, bs - 1), bs);
    NextFits(BlockCount(size, bs), bs);
    QuotUnique(0, bs, Add32(Add32(size, bs), bs - 1));
  }

  /** A directory that grows to 4 GiB has no blocks by its size, and its entries are out of reach. */
  lemma {:induction false} OverflowBreaks(g: Geom, s: Fs, s': Fs, d: nat, e: Entry)
    requires SizesOK(g) && 0 < e.ino < U32 && |e.name| < 256 && Filed(g, s, s', d, e)
    requires Full(g, s, d, |e.name|) && Overflows(g, s, d)
    ensures !IsDir(g, s', d) && ListOf(g, s', d) == []
  {
    hide Full, Resolve, Spanning, Filled, Pasted, Laid, BlockCount;
    CountWraps(SizeOf(s.raws[d]), g.bs);
    assert NBlocks(g, s', d) == 0;
    var n := NBlocks(g, s, d);
    BlockFits(g, s, d, n);
    PastedHeld(g, s, s', d, n, e);
  }

  /** A block that holds a record is mapped. */
  lemma PastedHeld(g: Geom, s: Fs, s': Fs, d: nat, l: nat, e: Entry)
    requires SizesOK(g) && 0 < e.ino < U32 && |e.name| < 256 && Times(l, g.bs) + g.bs <= U32
    requires Pasted(g, s, s', d, l, Spanning(g.bs, e.name, e.ino, e.kind))
    ensures Resolve(V(g, s'), d, l) != 0
  {
    hide Resolve, Spanning, Filled;
    var b := Spanning(g.bs, e.name, e.ino, e.kind);
    var k := SpanningByte(g.bs, e.name, e.ino, e.kind);
    assert RawByte(V(g, s'), d, Times(l, g.bs) + k) == b[k];
    QuotUnique(l, g.bs, k);
  }

  lemma SpanningByte(bs: nat, name: Buf, ino: nat, kind: Byte) returns (k: nat)
    requires bs in {1024, 2048, 4096} && |name| < 256 && 0 < ino < U32
    ensures k < bs && Spanning(bs, name, ino, kind)[k] != 0
  {
    var b := Spanning(bs, name, ino, kind);
    assert InodeOf(b) == ino;
    k := if b[0] != 0 then 0 else if b[1] != 0 then 1 else if b[2] != 0 then 2 else 3;
  }

  lemma DottedFile(g: Geom, s: Fs, s': Fs, root: nat, d: nat, e: Entry, raw: RawInode)
    requires Created(g, s, s', d, e, raw) && IsDirIno(g, s, d) && !IsDirMode(ModeOf(raw)) && !Plain(e)
    ensures !TreeOK(TreeOf(g, s', root))
  {
    hide IsDir, ListOf, Only;
    OnlyKeys(g, s, s', {d, e.ino});
    var t' := TreeOf(g, s', root);
    var p: nat :| Inserted(ListOf(g, s, d), ListOf(g, s', d), p, e);
    assert Has(t', d, p) && t'.dirs[d][p] == e;
  }

  lemma DotsNameNothing(t: Tree, x: nat, p: nat, c: nat)
    requires x in t.dirs && t.dirs[x] == Dots(x, p)
    ensures !Names(t, x, c)
  {
    forall i: nat ensures !NameAt(t, x, i, c) { }
  }

  lemma DottedDir(g: Geom, s: Fs, s': Fs, root: nat, d: nat, e: Entry, raw: RawInode)
    requires SubAdded(g, s, s', d, e, raw) && IsDirIno(g, s, d) && IsDirMode(ModeOf(raw)) && !Plain(e)
    ensures !TreeOK(TreeOf(g, s', root))
  {
    hide IsDir, ListOf, Only, Names, HasName, Ranked, OneName, NoDangling, HasDots, Dots, UsedInodes;
    var t' := TreeOf(g, s', root);
    var p: nat :| Inserted(ListOf(g, s, d), ListOf(g, s', d), p, e);
    assert Has(t', d, p) && t'.dirs[d][p] == e;
    DotsNameNothing(t', e.ino, d, d);
  }

  /** Making a file in a directory leaves the volume sound if and only if the name is not "." or
      ".." and the directory stays below 4 GiB. */
  lemma CreateSound(g: Geom, s: Fs, s': Fs, root: nat, d: nat, e: Entry, raw: RawInode)
    requires VolOK(g, s, root) && IsDirIno(g, s, d) && FsOK(g, s') && Synced(g, s', {root})
    requires Planted(g, s, s', d, e, raw) && (Takes(g, s, d, |e.name|) ==> Created(g, s, s', d, e, raw))
    requires !IsDirMode(ModeOf(raw)) && LinksOf(raw) == 1 && NoBlocks(raw)
    ensures VolOK(g, s', root) <==> Plain(e) && Takes(g, s, d, |e.name|)
  {
    hide FsOK, Synced, Clean, Tails, OneLink, Tallied, Created, Filed, Only, TreeOf, TreeOK;
    OnlyKeys(g, s, s', {d, e.ino});
    if !Takes(g, s, d, |e.name|) {
      OverflowBreaks(g, s, s', d, e);
      assert IsDirIno(g, s', d);
    } else if Plain(e) {
      CreateKeeps(g, s, s', root, d, e, raw);
    } else {
      DottedFile(g, s, s', root, d, e, raw);
    }
  }

  lemma MkdirSound(g: Geom, s: Fs, s': Fs, root: nat, d: nat, e: Entry, raw: RawInode)
    requires VolOK(g, s, root) && IsDirIno(g, s, d) && FsOK(g, s') && Synced(g, s', {root})
    requires PlantedSub(g, s, s', d, e, raw) && (Takes(g, s, d, |e.name|) ==> MadeSub(g, s, s', d, e, raw))
    requires IsDirMode(ModeOf(raw))
    ensures VolOK(g, s', root) <==> Plain(e) && Takes(g, s, d, |e.name|)
  {
    hide FsOK, Synced, Clean, Tails, OneLink, Tallied, SubAdded, Filed, Only, TreeOf, TreeOK;
    if !Takes(g, s, d, |e.name|) {
      OverflowBreaks(g, s, s', d, e);
      assert IsDirIno(g, s', d);
    } else if Plain(e) {
      MkdirKeeps(g, s, s', root, d, e, raw);
    } else {
      DottedDir(g, s, s', root, d, e, raw);
    }
  }

  // ----- what a new name does to files -----

  /** No file reads differently. */
  ghost predicate Spares(g: Geom, s: Fs, s': Fs)
  {
    forall i :: IsFileIno(g, s, i) ==> i in s'.raws && Content(V(g, s'), i) == Content(V(g, s), i)
  }

  lemma KeptContent(g: Geom, s: Fs, s': Fs, xs: set<nat>, i: nat)
    requires Only(g, s, s', xs) && i !in xs && i in s.raws
    ensures i in s'.raws && Content(V(g, s'), i) == Content(V(g, s), i)
  {
    Get32Below(s.raws[i]);
    forall p: nat | p < SizeOf(s.raws[i]) ensures Content(V(g, s'), i)[p] == Content(V(g, s), i)[p] {
      ContentAt(V(g, s'), i, p);
      ContentAt(V(g, s), i, p);
    }
  }

  /** Making a name changes no file if and only if it is made in a directory. */
  lemma AddSpares(g: Geom, s: Fs, s': Fs, d: nat, e: Entry)
    requires SizesOK(g) && Tails(g, s) && d in UsedInodes(g, s.m.disk) && e.ino !in UsedInodes(g, s.m.disk)
    requires 0 < e.ino < U32 && |e.name| < 256 && Contained(g, s, d, |e.name|)
    requires Only(g, s, s', {d, e.ino}) && Filed(g, s, s', d, e)
    ensures Spares(g, s, s') <==> IsDirIno(g, s, d)
  {
    hide Filed, Only, Contained, UsedInodes, TailZero, Content;
    FiledIn(g, s, s', d, e);
    if IsDirIno(g, s, d) {
      forall i | IsFileIno(g, s, i) ensures i in s'.raws && Content(V(g, s'), i) == Content(V(g, s), i) {
        KeptContent(g, s, s', {d, e.ino}, i);
      }
    } else {
      TailAt(g, s, d);
      EntryDiffers(g, s, s', d, e);
    }
  }

  lemma FiledIn(g: Geom, s: Fs, s': Fs, d: nat, e: Entry)
    requires SizesOK(g) && 0 < e.ino < U32 && |e.name| < 256 && Filed(g, s, s', d, e)
    ensures d in s.raws && d in s'.raws
  {
  }
}
