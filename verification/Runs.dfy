/** Whole runs of create, mkdir, unlink, rmdir and write on one volume. */
module Runs {
  import opened Words
  import opened Bytes
  import opened Arith
  import opened BlockTree
  import opened Layout
  import opened Metadata
  import opened FsState
  import opened BlockMap
  import opened InodeTable
  import opened FileData
  import opened FileOps
  import opened FileFree
  import opened EntryLists
  import opened DirOps
  import opened DirAdd
  import opened NameOps
  import opened SubDirs
  import opened Tree

  // ----- the state of a volume at rest -----

  ghost predicate IsDirIno(g: Geom, s: Fs, i: nat)
  {
    i in UsedInodes(g, s.m.disk) && i in s.raws && IsDirMode(ModeOf(s.raws[i]))
  }

  ghost predicate IsFileIno(g: Geom, s: Fs, i: nat)
  {
    i in UsedInodes(g, s.m.disk) && i in s.raws && !IsDirMode(ModeOf(s.raws[i]))
  }

  /** The name space the directory blocks spell out. */
  ghost function TreeOf(g: Geom, s: Fs, root: nat): Tree
  {
    Tree(map i | i in UsedInodes(g, s.m.disk) && IsDirIno(g, s, i) :: ListOf(g, s, i), UsedInodes(g, s.m.disk), root)
  }

  ghost predicate Formed(g: Geom, s: Fs)
  {
    forall i :: IsDirIno(g, s, i) ==> IsDir(g, s, i)
  }

  /** A file has as many links as names: one. */
  ghost predicate OneLink(g: Geom, s: Fs, t: Tree)
  {
    forall d, i: nat, x :: NameAt(t, d, i, x) && IsFileIno(g, s, x) ==> LinksOf(s.raws[x]) == 1
  }

  ghost predicate Tails(g: Geom, s: Fs)
  {
    forall i :: IsFileIno(g, s, i) ==> TailZero(V(g, s), i)
  }

  /** The directories of a group. */
  ghost function DirsOf(g: Geom, s: Fs, grp: nat): set<nat>
  {
    set i | i in UsedInodes(g, s.m.disk) && IsDirIno(g, s, i) && InoGroup(g, i) == grp
  }

  /** bg_used_dirs_count of every group is the number of its directories. */
  ghost predicate Tallied(g: Geom, s: Fs)
  {
    |DirCounts(s.m)| == g.groups && forall grp: nat :: grp < g.groups ==> DirCounts(s.m)[grp] == |DirsOf(g, s, grp)|
  }

  /** Sound metadata, single ownership, records written back but for the root's, which stays in
      memory, well-formed directories that spell a sound name space and are counted in their
      groups, and files that end in zeros. */
  ghost predicate VolOK(g: Geom, s: Fs, root: nat)
  {
    && FsOK(g, s) && Synced(g, s, {root}) && Clean(g, s) && Formed(g, s) && Tails(g, s)
    && TreeOK(TreeOf(g, s, root)) && OneLink(g, s, TreeOf(g, s, root)) && Tallied(g, s)
  }

  // ----- counting directories -----

  ghost function Span(lo: nat, n: nat): set<nat> { if n == 0 then {} else Span(lo, n - 1) + {lo + n - 1} }

  lemma {:induction false} SpanSize(lo: nat, n: nat)
    ensures |Span(lo, n)| == n && forall i: nat :: i in Span(lo, n) <==> lo <= i < lo + n
  {
    if n > 0 { SpanSize(lo, n - 1); }
  }

  lemma Within(a: set<nat>, b: set<nat>)
    requires a <= b
    ensures |a| <= |b|
  {
    assert b == a + (b - a);
  }

  /** A group has fewer directories than a 16-bit count can hold. */
  lemma GroupSize(g: Geom, s: Fs, grp: nat)
    requires SizesOK(g) && (forall i :: i in UsedInodes(g, s.m.disk) ==> IsIno(g, i))
    ensures |DirsOf(g, s, grp)| <= 32768
  {
    hide UsedInodes, IsDirIno;
    var lo := Times(grp, g.ipg) + 1;
    SpanSize(lo, g.ipg);
    forall i | i in DirsOf(g, s, grp) ensures i in Span(lo, g.ipg) {
      QuotRem(i - 1, g.ipg);
    }
    Within(DirsOf(g, s, grp), Span(lo, g.ipg));
  }

  lemma UsedAreInodes(g: Geom, s: Fs)
    requires FsOK(g, s)
    ensures forall i :: i in UsedInodes(g, s.m.disk) ==> IsIno(g, i)
    ensures |DirCounts(s.m)| == g.groups && SizesOK(g)
  {
  }

  /** The same directories, the same counts. */
  lemma TallyKept(g: Geom, s: Fs, s': Fs)
    requires Tallied(g, s) && DirCounts(s'.m) == DirCounts(s.m)
    requires forall i :: IsDirIno(g, s', i) <==> IsDirIno(g, s, i)
    ensures Tallied(g, s')
  {
    hide DirCounts;
    forall grp: nat | grp < g.groups ensures DirsOf(g, s', grp) == DirsOf(g, s, grp) {
      forall i ensures i in DirsOf(g, s', grp) <==> i in DirsOf(g, s, grp) {
        assert IsDirIno(g, s', i) <==> IsDirIno(g, s, i);
      }
    }
  }

  /** One directory more, counted in its group. */
  lemma TallyMore(g: Geom, s: Fs, s': Fs, x: nat)
    requires FsOK(g, s) && Tallied(g, s) && InoGroup(g, x) < |DirCounts(s.m)| && !IsDirIno(g, s, x)
    requires IsDirIno(g, s', x)
    requires DirCounts(s.m)[InoGroup(g, x)] < U16
    requires DirCounts(s'.m) == DirCounts(s.m)[InoGroup(g, x) := Inc(DirCounts(s.m)[InoGroup(g, x)], U16)]
    requires forall i :: i != x ==> (IsDirIno(g, s', i) <==> IsDirIno(g, s, i))
    ensures Tallied(g, s')
  {
    hide DirCounts, FsOK, IsDirIno;
    UsedAreInodes(g, s);
    forall grp: nat | grp < g.groups
      ensures DirsOf(g, s', grp) == DirsOf(g, s, grp) + (if grp == InoGroup(g, x) then {x} else {})
    {
      DirsAre(g, s, grp);
      DirsAre(g, s', grp);
    }
    GroupSize(g, s, InoGroup(g, x));
    DirsAre(g, s, InoGroup(g, x));
  }

  lemma DirsAre(g: Geom, s: Fs, grp: nat)
    ensures forall i :: i in DirsOf(g, s, grp) <==> IsDirIno(g, s, i) && InoGroup(g, i) == grp
  {
  }

  /** One directory fewer. */
  lemma TallyLess(g: Geom, s: Fs, s': Fs, x: nat)
    requires Tallied(g, s) && InoGroup(g, x) < |DirCounts(s.m)| && IsDirIno(g, s, x) && !IsDirIno(g, s', x)
    requires DirCounts(s'.m) == DirCounts(s.m)[InoGroup(g, x) := Less(DirCounts(s.m)[InoGroup(g, x)])]
    requires forall i :: i != x ==> (IsDirIno(g, s', i) <==> IsDirIno(g, s, i))
    ensures Tallied(g, s')
  {
    hide DirCounts, IsDirIno;
    forall grp: nat | grp < g.groups
      ensures DirsOf(g, s, grp) == DirsOf(g, s', grp) + (if grp == InoGroup(g, x) then {x} else {})
    {
      DirsAre(g, s, grp);
      DirsAre(g, s', grp);
    }
    DirsAre(g, s', InoGroup(g, x));
  }

  /** Inodes other than d and x are directories now exactly if they were. */
  lemma SameDirs(g: Geom, s: Fs, s': Fs, d: nat, x: nat)
    requires KeptDirs(g, s, s', d, x) && IsDirIno(g, s, d) && IsDirIno(g, s', d)
    ensures forall i :: i != x ==> (IsDirIno(g, s', i) <==> IsDirIno(g, s, i))
  {
    forall i | i != x ensures IsDirIno(g, s', i) <==> IsDirIno(g, s, i) {
      if i != d { assert SameDir(g, s, s', i); }
    }
  }

  // ----- create -----

  /** Inodes other than xs keep their place in the name space. */
  lemma KeptDir(g: Geom, s: Fs, s': Fs, xs: set<nat>, i: nat)
    requires SizesOK(g) && Formed(g, s) && Only(g, s, s', xs) && i !in xs
    requires i in UsedInodes(g, s'.m.disk) <==> i in UsedInodes(g, s.m.disk)
    ensures IsDirIno(g, s', i) == IsDirIno(g, s, i) && IsFileIno(g, s', i) == IsFileIno(g, s, i)
    ensures IsDirIno(g, s, i) ==> IsDir(g, s', i) && ListOf(g, s', i) == ListOf(g, s, i)
  {
    if IsDirIno(g, s, i) { OtherDir(g, s, s', xs, i); }
  }

  /** The same directory or file as before, with the same entries. */
  ghost predicate SameDir(g: Geom, s: Fs, s': Fs, i: nat)
  {
    && IsDirIno(g, s', i) == IsDirIno(g, s, i) && IsFileIno(g, s', i) == IsFileIno(g, s, i)
    && (IsDirIno(g, s, i) ==> IsDir(g, s', i) && ListOf(g, s', i) == ListOf(g, s, i))
  }

  ghost predicate KeptDirs(g: Geom, s: Fs, s': Fs, d: nat, x: nat)
  {
    forall i: nat {:trigger SameDir(g, s, s', i)} :: i != d && i != x ==> SameDir(g, s, s', i)
  }

  lemma KeepsDirs(g: Geom, s: Fs, s': Fs, d: nat, x: nat)
    requires SizesOK(g) && Formed(g, s) && Only(g, s, s', {d, x})
    requires UsedInodes(g, s'.m.disk) + {x} == UsedInodes(g, s.m.disk) + {x}
    ensures KeptDirs(g, s, s', d, x)
  {
    forall i: nat | i != d && i != x ensures SameDir(g, s, s', i) {
      assert i in UsedInodes(g, s'.m.disk) + {x} <==> i in UsedInodes(g, s.m.disk) + {x};
      KeptDir(g, s, s', {d, x}, i);
    }
  }

  /** A new name in d for an inode not used before, whichever kind it is. */
  lemma TreeGrows(g: Geom, s: Fs, s': Fs, root: nat, d: nat, e: Entry, p: nat)
    requires Formed(g, s) && KeptDirs(g, s, s', d, e.ino) && IsDirIno(g, s, d) && IsDirIno(g, s', d) && IsDir(g, s', d)
    requires Plain(e) && e.ino !in UsedInodes(g, s.m.disk)
    requires UsedInodes(g, s'.m.disk) == UsedInodes(g, s.m.disk) + {e.ino}
    requires With(ListOf(g, s, d), ListOf(g, s', d), p, e)
    requires IsDirIno(g, s', e.ino) ==> IsDir(g, s', e.ino) && IsDots(ListOf(g, s', e.ino), e.ino, d)
    ensures Grown(TreeOf(g, s, root), TreeOf(g, s', root), d, p, e) && Formed(g, s') && SameFiles(g, s, s', d, e.ino)
  {
    hide IsDir, ListOf, UsedInodes, With, IsDots;
    var t, t' := TreeOf(g, s, root), TreeOf(g, s', root);
    forall i | IsDirIno(g, s', i) ensures IsDir(g, s', i) { assert i != d && i != e.ino ==> SameDir(g, s, s', i); }
    forall i: nat | i != d && i != e.ino ensures IsFileIno(g, s', i) == IsFileIno(g, s, i) {
      assert SameDir(g, s, s', i);
    }
    forall i ensures i in t'.dirs.Keys - {e.ino} <==> i in t.dirs.Keys {
      assert i != d && i != e.ino ==> SameDir(g, s, s', i);
    }
    forall c | c in t.dirs && c != d ensures c in t'.dirs && t'.dirs[c] == t.dirs[c] { assert SameDir(g, s, s', c); }
  }

  lemma KeptTail(g: Geom, s: Fs, s': Fs, xs: set<nat>, i: nat)
    requires Only(g, s, s', xs) && i !in xs && i in s.raws && TailZero(V(g, s), i)
    ensures TailZero(V(g, s'), i)
  {
  }

  lemma CreateGrows(g: Geom, s: Fs, s': Fs, root: nat, d: nat, e: Entry, raw: RawInode, p: nat)
    requires SizesOK(g) && Formed(g, s) && IsDirIno(g, s, d) && Plain(e) && !IsDirMode(ModeOf(raw))
    requires Created(g, s, s', d, e, raw) && Inserted(ListOf(g, s, d), ListOf(g, s', d), p, e)
    ensures Grown(TreeOf(g, s, root), TreeOf(g, s', root), d, p, e) && Formed(g, s') && IsDirIno(g, s', d)
    ensures SameFiles(g, s, s', d, e.ino)
  {
    assert KeptDirs(g, s, s', d, e.ino) by { KeepsDirs(g, s, s', d, e.ino); }
    assert With(ListOf(g, s, d), ListOf(g, s', d), p, e) by { InsertedWith(ListOf(g, s, d), ListOf(g, s', d), p, e); }
    TreeGrows(g, s, s', root, d, e, p);
  }

  lemma NewTail(g: Geom, s: Fs, x: nat)
    requires x in s.raws && NoBlocks(s.raws[x])
    ensures TailZero(V(g, s), x)
  {
    forall p: nat | p < U32 ensures RawByte(V(g, s), x, p) == 0 {
      NoBlocksResolve(V(g, s), x, Quot(p, g.bs));
    }
  }

  /** Inodes other than d and x are files now exactly if they were. */
  ghost predicate SameFiles(g: Geom, s: Fs, s': Fs, d: nat, x: nat)
  {
    forall i :: i != d && i != x ==> IsFileIno(g, s', i) == IsFileIno(g, s, i)
  }

  lemma TailsKept(g: Geom, s: Fs, s': Fs, d: nat, x: nat)
    requires Tails(g, s) && Only(g, s, s', {d, x}) && SameFiles(g, s, s', d, x)
    requires IsDirIno(g, s', d) && (IsFileIno(g, s', x) ==> TailZero(V(g, s'), x))
    ensures Tails(g, s')
  {
    forall i | IsFileIno(g, s', i) ensures TailZero(V(g, s'), i) {
      if i != x { KeptTail(g, s, s', {d, x}, i); }
    }
  }

  lemma LinksGrown(g: Geom, s: Fs, s': Fs, t: Tree, t': Tree, d: nat, p: nat, e: Entry)
    requires Linked(t) && Grown(t, t', d, p, e) && OneLink(g, s, t) && t.used == UsedInodes(g, s.m.disk)
    requires Only(g, s, s', {d, e.ino}) && SameFiles(g, s, s', d, e.ino)
    requires IsDirIno(g, s', d) && (IsFileIno(g, s', e.ino) ==> LinksOf(s'.raws[e.ino]) == 1)
    ensures OneLink(g, s', t')
  {
    hide Linked, UsedInodes, With, IsDots;
    forall c, i: nat, x | NameAt(t', c, i, x) && IsFileIno(g, s', x) ensures LinksOf(s'.raws[x]) == 1 {
      GrownNameAt(t, t', d, p, e, c, i, x);
      if x != e.ino { assert NameAt(t, c, Before(d, p, c, i), x) && IsFileIno(g, s, x); }
    }
  }

  lemma CreateKeeps(g: Geom, s: Fs, s': Fs, root: nat, d: nat, e: Entry, raw: RawInode)
    requires VolOK(g, s, root) && IsDirIno(g, s, d) && Plain(e)
    requires FsOK(g, s') && Synced(g, s', {root}) && Created(g, s, s', d, e, raw)
    requires !IsDirMode(ModeOf(raw)) && LinksOf(raw) == 1 && NoBlocks(raw)
    ensures VolOK(g, s', root)
  {
    var t, t' := TreeOf(g, s, root), TreeOf(g, s', root);
    var p: nat :| Inserted(ListOf(g, s, d), ListOf(g, s', d), p, e);
    CreateGrows(g, s, s', root, d, e, raw, p);
    assert Clean(g, s') by { CreateClean(g, s, s', d, e, raw); }
    assert TreeOK(t') by { GrownOK(t, t', d, p, e); }
    assert Tails(g, s') by {
      NewTail(g, s', e.ino);
      TailsKept(g, s, s', d, e.ino);
    }
    assert OneLink(g, s', t') by { LinksGrown(g, s, s', t, t', d, p, e); }
    assert Tallied(g, s') by {
      KeepsDirs(g, s, s', d, e.ino);
      SameDirs(g, s, s', d, e.ino);
      TallyKept(g, s, s');
    }
  }

  // ----- mkdir -----

  lemma MkdirGrows(g: Geom, s: Fs, s': Fs, root: nat, d: nat, e: Entry, raw: RawInode, p: nat)
    requires SizesOK(g) && Formed(g, s) && IsDirIno(g, s, d) && Plain(e) && IsDirMode(ModeOf(raw))
    requires SubAdded(g, s, s', d, e, raw) && Inserted(ListOf(g, s, d), ListOf(g, s', d), p, e)
    ensures Grown(TreeOf(g, s, root), TreeOf(g, s', root), d, p, e) && Formed(g, s') && IsDirIno(g, s', d)
    ensures IsDirIno(g, s', e.ino)
    ensures SameFiles(g, s, s', d, e.ino)
  {
    assert KeptDirs(g, s, s', d, e.ino) by { KeepsDirs(g, s, s', d, e.ino); }
    assert With(ListOf(g, s, d), ListOf(g, s', d), p, e) by { InsertedWith(ListOf(g, s, d), ListOf(g, s', d), p, e); }
    TreeGrows(g, s, s', root, d, e, p);
  }

  lemma MkdirKeeps(g: Geom, s: Fs, s': Fs, root: nat, d: nat, e: Entry, raw: RawInode)
    requires VolOK(g, s, root) && IsDirIno(g, s, d) && Plain(e)
    requires FsOK(g, s') && Synced(g, s', {root}) && MadeSub(g, s, s', d, e, raw) && IsDirMode(ModeOf(raw))
    ensures VolOK(g, s', root)
  {
    var t, t' := TreeOf(g, s, root), TreeOf(g, s', root);
    var p: nat :| Inserted(ListOf(g, s, d), ListOf(g, s', d), p, e);
    MkdirGrows(g, s, s', root, d, e, raw, p);
    assert Clean(g, s') by { MkdirClean(g, s, s', d, e); }
    assert TreeOK(t') by { GrownOK(t, t', d, p, e); }
    assert Tails(g, s') by { TailsKept(g, s, s', d, e.ino); }
    assert OneLink(g, s', t') by { LinksGrown(g, s, s', t, t', d, p, e); }
    assert Tallied(g, s') by {
      KeepsDirs(g, s, s', d, e.ino);
      SameDirs(g, s, s', d, e.ino);
      TallyMore(g, s, s', e.ino);
    }
  }

  // ----- unlink and rmdir -----

  /** In a sound name space the first entry of an ordinary name is a fit target. */
  lemma TargetFits(g: Geom, s: Fs, root: nat, d: nat, name: Buf)
    requires TreeOK(TreeOf(g, s, root)) && Formed(g, s) && IsDirIno(g, s, d) && name != DOT_NAME && name != DOTDOT_NAME
    ensures TargetOK(g, s, d, name, {root})
  {
    hide IsDir, ListOf, UsedInodes, HasDots, DotSelf, DotDotParent, Ranked;
    var t := TreeOf(g, s, root);
    var es := ListOf(g, s, d);
    if !Absent(es, name) {
      var k := First(es, name);
      var x := es[k].ino;
      assert NameAt(t, d, k, x);
      assert Has(t, d, k) && t.dirs[d][k].ino in t.used;
      if x == d { SelfNamed(t, d, k); }
    }
  }

  /** The name at position k of d is gone and so is the inode x it named. */
  ghost predicate Gone(g: Geom, s: Fs, s': Fs, d: nat, name: Buf, x: nat)
  {
    && x in s.raws && d in s'.raws && x != d && Only(g, s, s', {d, x}) && Erased(g, s, s', x)
    && IsDir(g, s', d) && ModeOf(s'.raws[d]) == ModeOf(s.raws[d])
    && x == TargetOf(g, s, d, name) && Removed(ListOf(g, s, d), ListOf(g, s', d), name)
    && (IsDirIno(g, s, x) ==> |ListOf(g, s, x)| <= 2)
  }

  lemma TreeShrinks(g: Geom, s: Fs, s': Fs, root: nat, d: nat, k: nat, x: nat)
    requires Formed(g, s) && KeptDirs(g, s, s', d, x) && IsDirIno(g, s, d) && IsDirIno(g, s', d) && IsDir(g, s', d)
    requires x != d
    requires UsedInodes(g, s'.m.disk) == UsedInodes(g, s.m.disk) - {x} && Without(ListOf(g, s, d), ListOf(g, s', d), k)
    requires Plain(ListOf(g, s, d)[k]) && ListOf(g, s, d)[k].ino == x && (IsDirIno(g, s, x) ==> |ListOf(g, s, x)| <= 2)
    ensures Shrunk(TreeOf(g, s, root), TreeOf(g, s', root), d, k, x) && Formed(g, s') && SameFiles(g, s, s', d, x)
  {
    hide IsDir, ListOf, UsedInodes;
    var t, t' := TreeOf(g, s, root), TreeOf(g, s', root);
    forall i | IsDirIno(g, s', i) ensures IsDir(g, s', i) { assert i != d && i != x ==> SameDir(g, s, s', i); }
    forall i: nat | i != d && i != x ensures IsFileIno(g, s', i) == IsFileIno(g, s, i) { assert SameDir(g, s, s', i); }
    forall i ensures i in t'.dirs.Keys <==> i in t.dirs.Keys - {x} {
      assert i != d && i != x ==> SameDir(g, s, s', i);
    }
    forall c | c in t.dirs && c != d && c != x ensures c in t'.dirs && t'.dirs[c] == t.dirs[c] {
      assert SameDir(g, s, s', c);
    }
  }

  lemma GoneShrinks(g: Geom, s: Fs, s': Fs, root: nat, d: nat, name: Buf, x: nat)
    requires SizesOK(g) && Formed(g, s) && IsDirIno(g, s, d) && name != DOT_NAME && name != DOTDOT_NAME
    requires Gone(g, s, s', d, name, x)
    ensures Shrunk(TreeOf(g, s, root), TreeOf(g, s', root), d, First(ListOf(g, s, d), name), x)
    ensures Formed(g, s') && SameFiles(g, s, s', d, x) && IsDirIno(g, s', d) && !IsFileIno(g, s', x)
  {
    var k := First(ListOf(g, s, d), name);
    assert Without(ListOf(g, s, d), ListOf(g, s', d), k) by { RemovedWithout(ListOf(g, s, d), ListOf(g, s', d), name); }
    assert KeptDirs(g, s, s', d, x) by { KeepsDirs(g, s, s', d, x); }
    TreeShrinks(g, s, s', root, d, k, x);
  }

  /** What is a file now was one before, with the same record. */
  ghost predicate OldFiles(g: Geom, s: Fs, s': Fs)
  {
    forall y :: IsFileIno(g, s', y) ==> IsFileIno(g, s, y) && s'.raws[y] == s.raws[y]
  }

  lemma ShrunkFiles(g: Geom, s: Fs, s': Fs, d: nat, x: nat)
    requires Only(g, s, s', {d, x}) && SameFiles(g, s, s', d, x) && IsDirIno(g, s', d) && !IsFileIno(g, s', x)
    ensures OldFiles(g, s, s')
  {
  }

  lemma LinksShrunk(g: Geom, s: Fs, s': Fs, t: Tree, t': Tree, d: nat, k: nat, x: nat)
    requires Linked(t) && Shrunk(t, t', d, k, x) && OneLink(g, s, t) && OldFiles(g, s, s')
    ensures OneLink(g, s', t')
  {
    forall c, i: nat, y | NameAt(t', c, i, y) && IsFileIno(g, s', y) ensures LinksOf(s'.raws[y]) == 1 {
      ShrunkNameAt(t, t', d, k, x, c, i, y);
      assert IsFileIno(g, s, y);
    }
  }

  lemma GoneClean(g: Geom, s: Fs, s': Fs, d: nat, name: Buf, x: nat)
    requires Clean(g, s) && Gone(g, s, s', d, name, x) && d in UsedInodes(g, s.m.disk)
    ensures Clean(g, s')
  {
  }

  lemma GoneKeeps(g: Geom, s: Fs, s': Fs, root: nat, d: nat, name: Buf, x: nat)
    requires VolOK(g, s, root) && IsDirIno(g, s, d) && name != DOT_NAME && name != DOTDOT_NAME
    requires FsOK(g, s') && Synced(g, s', {root}) && Gone(g, s, s', d, name, x)
    requires if IsDirIno(g, s, x) then InoGroup(g, x) < |DirCounts(s.m)| &&
               DirCounts(s'.m) == DirCounts(s.m)[InoGroup(g, x) := Less(DirCounts(s.m)[InoGroup(g, x)])]
             else DirCounts(s'.m) == DirCounts(s.m)
    ensures VolOK(g, s', root)
  {
    var t, t' := TreeOf(g, s, root), TreeOf(g, s', root);
    var k := First(ListOf(g, s, d), name);
    GoneShrinks(g, s, s', root, d, name, x);
    assert Clean(g, s') by { GoneClean(g, s, s', d, name, x); }
    assert TreeOK(t') by { ShrunkOK(t, t', d, k, x); }
    assert Tails(g, s') by { TailsKept(g, s, s', d, x); }
    assert OneLink(g, s', t') by {
      ShrunkFiles(g, s, s', d, x);
      LinksShrunk(g, s, s', t, t', d, k, x);
    }
    assert Tallied(g, s') by { GoneTally(g, s, s', d, name, x); }
  }

  lemma GoneTally(g: Geom, s: Fs, s': Fs, d: nat, name: Buf, x: nat)
    requires SizesOK(g) && Formed(g, s) && Tallied(g, s) && IsDirIno(g, s, d) && Gone(g, s, s', d, name, x)
    requires if IsDirIno(g, s, x) then InoGroup(g, x) < |DirCounts(s.m)| &&
               DirCounts(s'.m) == DirCounts(s.m)[InoGroup(g, x) := Less(DirCounts(s.m)[InoGroup(g, x)])]
             else DirCounts(s'.m) == DirCounts(s.m)
    ensures Tallied(g, s')
  {
    hide Tallied, IsDir, ListOf, DirCounts, Removed, TargetOf;
    assert KeptDirs(g, s, s', d, x) by { KeepsDirs(g, s, s', d, x); }
    SameDirs(g, s, s', d, x);
    if IsDirIno(g, s, x) { TallyLess(g, s, s', x); } else { TallyKept(g, s, s'); }
  }

  /** In a sound name space unlinking a file always erases it. */
  lemma UnlinkGone(g: Geom, s: Fs, s': Fs, root: nat, d: nat, name: Buf)
    requires OneLink(g, s, TreeOf(g, s, root)) && Linked(TreeOf(g, s, root)) && IsDirIno(g, s, d)
    requires name != DOT_NAME && name != DOTDOT_NAME && NamesFile(g, s, d, name)
    requires Unlinked(g, s, s', d, name, TargetOf(g, s, d, name))
    ensures Gone(g, s, s', d, name, TargetOf(g, s, d, name))
  {
    var t := TreeOf(g, s, root);
    var k, x := First(ListOf(g, s, d), name), TargetOf(g, s, d, name);
    assert NameAt(t, d, k, x);
    assert Has(t, d, k) && t.dirs[d][k].ino in t.used;
    assert IsFileIno(g, s, x);
  }

  lemma RmdirGone(g: Geom, s: Fs, s': Fs, d: nat, name: Buf)
    requires CanRmdir(g, s, d, name) && RemovedSub(g, s, s', d, name, TargetOf(g, s, d, name))
    ensures Gone(g, s, s', d, name, TargetOf(g, s, d, name))
  {
  }

  // ----- an operation that failed to add its entry -----

  /** The slots that d's record on the device still leads to. */
  ghost function StillHeld(raw: RawInode, d: nat): iset<Slot>
  {
    iset t: Slot | Ino(t) != d || Word(raw, IBLOCK_WORD + TopOf(t)) != 0
  }

  /** The in-memory inode of d is discarded and its record on the device stands again. */
  ghost function Forget(s: Fs, s': Fs, d: nat): Fs
    requires d in s.raws
  {
    Fs(s'.m, s'.raws[d := s.raws[d]], Restrict(s'.owner, StillHeld(s.raws[d], d)))
  }

  lemma {:induction false} TopZero(v: View, t: Slot)
    requires Ino(t) in v.raws && Word(v.raws[Ino(t)], IBLOCK_WORD + TopOf(t)) == 0
    ensures Ptr(v, t) == 0
  {
    if t.Child? { TopZero(v, t.up); }
  }

  /** Words that were set stay set: the block they name keeps its owner. */
  lemma TopKept(g: Geom, s: Fs, s': Fs, d: nat, k: nat)
    requires Owns(V(g, s), s.owner) && Owns(V(g, s'), s'.owner) && d in s.raws && k < 15
    requires forall b :: b in s.owner ==> b in s'.owner && s'.owner[b] == s.owner[b]
    requires RootWord(s.raws, d, k) != 0
    ensures RootWord(s'.raws, d, k) == RootWord(s.raws, d, k)
  {
    var b := Ptr(V(g, s), Root(d, k));
    assert b in s.owner && s.owner[b] == Root(d, k);
    assert Ptr(V(g, s'), s'.owner[b]) == b;
  }

  /** Every i_block[] word of d that was set still is. */
  ghost predicate TopsKept(raws: map<nat, RawInode>, raws': map<nat, RawInode>, d: nat)
  {
    forall k: nat {:trigger RootWord(raws', d, k)} :: k < 15 && RootWord(raws, d, k) != 0 ==>
      RootWord(raws', d, k) == RootWord(raws, d, k)
  }

  lemma ForgetTops(g: Geom, s: Fs, s': Fs, d: nat)
    requires Owns(V(g, s), s.owner) && Owns(V(g, s'), s'.owner) && d in s.raws && DirStep(g, s, s', d)
    ensures TopsKept(s.raws, s'.raws, d)
  {
    forall k: nat | k < 15 && RootWord(s.raws, d, k) != 0 ensures RootWord(s'.raws, d, k) == RootWord(s.raws, d, k) {
      TopKept(g, s, s', d, k);
    }
  }

  lemma ForgetWords(raws: map<nat, RawInode>, raws': map<nat, RawInode>, d: nat, keep: iset<Slot>, i: nat, k: nat)
    requires d in raws && TopsKept(raws, raws', d) && keep == StillHeld(raws[d], d) && i in raws' && k < 15
    ensures RootWord(raws'[d := raws[d]], i, k) == if Root(i, k) in keep then RootWord(raws', i, k) else 0
  {
    assert TopOf(Root(i, k)) == k;
  }

  lemma HeldUp(raw: RawInode, d: nat, up: Slot, j: nat)
    ensures Child(up, j) in StillHeld(raw, d) <==> up in StillHeld(raw, d)
  {
    assert Ino(Child(up, j)) == Ino(up) && TopOf(Child(up, j)) == TopOf(up);
  }

  lemma ForgetPruned(v: View, v': View, owner: map<nat, Slot>, raw: RawInode, d: nat, keep: iset<Slot>)
    requires v' == v.(raws := v.raws[d := raw]) && d in v.raws && keep == StillHeld(raw, d)
    requires forall i, k: nat :: i in v.raws && k < 15 ==>
      RootWord(v'.raws, i, k) == if Root(i, k) in keep then RootWord(v.raws, i, k) else 0
    ensures Pruned(v, v', owner, keep)
  {
    forall t | t in keep && t.Child? ensures t.up in keep { HeldUp(raw, d, t.up, t.j); }
    forall b: nat, j: nat | Inner(owner, b) && b < |v.disk| && owner[b] in keep && j < Ptrs(v)
      ensures Child(owner[b], j) in keep
    {
      HeldUp(raw, d, owner[b], j);
    }
  }

  lemma ForgetCut(g: Geom, s: Fs, s': Fs, d: nat)
    requires Owns(V(g, s), s.owner) && Owns(V(g, s'), s'.owner) && d in s.raws && DirStep(g, s, s', d)
    ensures Cut(g, s', Forget(s, s', d), d, StillHeld(s.raws[d], d))
  {
    var keep, r := StillHeld(s.raws[d], d), Forget(s, s', d);
    assert TopsKept(s.raws, s'.raws, d) by { ForgetTops(g, s, s', d); }
    assert Pruned(V(g, s'), V(g, r), s'.owner, keep) by {
      forall i, k: nat | i in s'.raws && k < 15
        ensures RootWord(r.raws, i, k) == if Root(i, k) in keep then RootWord(s'.raws, i, k) else 0
      {
        ForgetWords(s.raws, s'.raws, d, keep, i, k);
      }
      ForgetPruned(V(g, s'), V(g, r), s'.owner, s.raws[d], d, keep);
    }
  }

  lemma ForgetResolve(g: Geom, s: Fs, s': Fs, r: Fs, d: nat, i: nat, j: nat)
    requires SizesOK(g) && d in s.raws && i in s.raws && j < MapEnd(g.bs / 4) && s'.raws.Keys == s.raws.Keys
    requires OthersKept(g, s, s', d) && SameFile(g, s, s', d)
    requires forall t {:trigger Ptr(V(g, r), t)} :: IsSlot(V(g, s'), t) ==>
      Ptr(V(g, r), t) == if t in StillHeld(s.raws[d], d) then Ptr(V(g, s'), t) else 0
    ensures Resolve(V(g, r), i, j) == Resolve(V(g, s'), i, j) == Resolve(V(g, s), i, j)
  {
    var t := DataSlot(g.bs / 4, i, j);
    DataSlotIs(V(g, s'), i, j);
    if t !in StillHeld(s.raws[d], d) {
      TopZero(V(g, s), t);
    }
  }

  /** What is left of a failed create or mkdir: nothing, except that a lost block is marked used
      and belongs to no file. */
  ghost predicate NotAdded(g: Geom, s: Fs, s': Fs, lost: bool)
  {
    && ReadsSame(g, s, s') && s'.raws == s.raws && s'.owner == s.owner
    && UsedInodes(g, s'.m.disk) == UsedInodes(g, s.m.disk)
    && FreeInodesOf(s'.m) == FreeInodesOf(s.m) && DirCounts(s'.m) == DirCounts(s.m)
    && FreeBlocksOf(s'.m) + (if lost then 1 else 0) == FreeBlocksOf(s.m)
  }

  /** The tree that d's record does not lead to goes, and every block it leads to stays. */
  lemma ForgetOwners(g: Geom, s: Fs, s': Fs, d: nat, lost: bool)
    requires Owns(V(g, s), s.owner) && d in s.raws && OneRoot(s.owner, s'.owner, d, lost)
    requires lost ==> Word(s.raws[d], IBLOCK_WORD + 13) == 0
    ensures Restrict(s'.owner, StillHeld(s.raws[d], d)) == s.owner
  {
    var keep := StillHeld(s.raws[d], d);
    forall b | b in s.owner ensures s.owner[b] in keep {
      if Ino(s.owner[b]) == d { Rooted(V(g, s), s.owner[b]); }
    }
    assert TopOf(Root(d, 13)) == 13;
    if lost {
      var b: nat :| b !in s.owner && s'.owner == s.owner[b := Root(d, 13)];
      assert Restrict(s'.owner, keep) == s.owner;
    }
  }

  lemma ForgetNotAdded(g: Geom, s: Fs, s': Fs, r: Fs, d: nat, lost: bool)
    requires d in s.raws && DirStep(g, s, s', d) && r == Forget(s, s', d) && ReadsSame(g, s, r)
    requires r.owner == s.owner && OneRoot(s.owner, s'.owner, d, lost)
    ensures NotAdded(g, s, r, lost)
  {
    hide ReadsSame, OthersKept, Used, UsedInodes;
    assert r.raws == s.raws;
    if lost {
      var b: nat :| b !in s.owner && s'.owner == s.owner[b := Root(d, 13)];
      OneMoreKey(s.owner, b, Root(d, 13));
    }
  }

  /** Every file reads and maps as before. */
  ghost predicate ReadsSame(g: Geom, s: Fs, r: Fs)
  {
    && (forall i, j: nat {:trigger Resolve(V(g, r), i, j)} :: i in s.raws && j < MapEnd(g.bs / 4) ==>
          Resolve(V(g, r), i, j) == Resolve(V(g, s), i, j))
    && (forall i, q: nat :: i in s.raws && q < U32 ==> RawByte(V(g, r), i, q) == RawByte(V(g, s), i, q))
  }

  lemma ForgetReads(g: Geom, s: Fs, s': Fs, r: Fs, d: nat)
    requires SizesOK(g) && d in s.raws && s'.raws.Keys == s.raws.Keys && r.m == s'.m
    requires OthersKept(g, s, s', d) && SameFile(g, s, s', d)
    requires forall t {:trigger Ptr(V(g, r), t)} :: IsSlot(V(g, s'), t) ==>
      Ptr(V(g, r), t) == if t in StillHeld(s.raws[d], d) then Ptr(V(g, s'), t) else 0
    ensures ReadsSame(g, s, r)
  {
    forall i, j: nat | i in s.raws && j < MapEnd(g.bs / 4)
      ensures Resolve(V(g, r), i, j) == Resolve(V(g, s'), i, j) == Resolve(V(g, s), i, j)
    {
      ForgetResolve(g, s, s', r, d, i, j);
    }
    forall i, q: nat | i in s.raws && q < U32 ensures RawByte(V(g, r), i, q) == RawByte(V(g, s), i, q) {
      PosInMap(g.bs, q);
      assert RawByte(V(g, r), i, q) == RawByte(V(g, s'), i, q);
    }
  }

  lemma ForgetOK(g: Geom, s: Fs, s': Fs, r: Fs, d: nat)
    requires FsOK(g, s) && FsOK(g, s') && d in s.raws && DirStep(g, s, s', d) && SameFile(g, s, s', d)
    requires r == Forget(s, s', d)
    ensures FsOK(g, r) && ReadsSame(g, s, r)
  {
    hide OwnedOK, Used, UsedInodes, RecordWritten, RawByte, Resolve, MapEnd, Ptr, IsSlot;
    assert Cut(g, s', r, d, StillHeld(s.raws[d], d)) by { ForgetCut(g, s, s', d); }
    FsCut(g, s', r, d, StillHeld(s.raws[d], d), iset{});
    assert ReadsSame(g, s, r) by { ForgetReads(g, s, s', r, d); }
  }

  lemma Forgets(g: Geom, s: Fs, s': Fs, d: nat, lost: bool, dirty: set<nat>)
    requires FsOK(g, s) && FsOK(g, s') && d in UsedInodes(g, s.m.disk) && d !in dirty && Synced(g, s, dirty)
    requires Unadded(g, s, s', d, dirty)
    requires OneRoot(s.owner, s'.owner, d, lost) && (lost ==> Word(s.raws[d], IBLOCK_WORD + 13) == 0)
    ensures FsOK(g, Forget(s, s', d)) && Synced(g, Forget(s, s', d), dirty) && NotAdded(g, s, Forget(s, s', d), lost)
  {
    var r := Forget(s, s', d);
    assert FsOK(g, r) && ReadsSame(g, s, r) by { ForgetOK(g, s, s', r, d); }
    assert Synced(g, r, dirty) by { ForgetSynced(g, s, s', d, dirty); }
    assert NotAdded(g, s, r, lost) by {
      ForgetOwners(g, s, s', d, lost);
      ForgetNotAdded(g, s, s', r, d, lost);
    }
  }

  lemma ForgetSynced(g: Geom, s: Fs, s': Fs, d: nat, dirty: set<nat>)
    requires Synced(g, s, dirty) && d in UsedInodes(g, s.m.disk) && Unadded(g, s, s', d, dirty) && d in s.raws
    requires d !in dirty
    ensures Synced(g, Forget(s, s', d), dirty)
  {
  }
}
