/** The name space: directories as entry lists over inode numbers, and what create, mkdir,
    unlink and rmdir keep true of it. */
module Tree {
  import opened Bytes
  import opened EntryLists

  const DOT_NAME: Buf := [46]
  const DOTDOT_NAME: Buf := [46, 46]

  datatype Tree = Tree(dirs: map<nat, seq<Entry>>, used: set<nat>, root: nat)

  predicate Plain(e: Entry) { e.name != DOT_NAME && e.name != DOTDOT_NAME }

  /** Entry i of directory d, if there is one. */
  predicate Has(t: Tree, d: nat, i: nat) { d in t.dirs && i < |t.dirs[d]| }

  /** Entry i of directory d is an ordinary name of inode x. */
  predicate NameAt(t: Tree, d: nat, i: nat, x: nat) { Has(t, d, i) && Plain(t.dirs[d][i]) && t.dirs[d][i].ino == x }

  /** Directory p names c by an ordinary entry. */
  ghost predicate Names(t: Tree, p: nat, c: nat)
  {
    exists i: nat :: NameAt(t, p, i, c)
  }

  /** Every entry names an inode in use. */
  ghost predicate NoDangling(t: Tree)
  {
    forall d, i: nat :: Has(t, d, i) ==> t.dirs[d][i].ino in t.used
  }

  /** No inode has two names, and the root has none. */
  ghost predicate OneName(t: Tree)
  {
    && (forall x, d, i: nat, d', i': nat :: NameAt(t, d, i, x) && NameAt(t, d', i', x) ==> d == d' && i == i')
    && (forall d, i: nat :: !NameAt(t, d, i, t.root))
  }

  /** "." is the directory itself. */
  ghost predicate DotSelf(t: Tree)
  {
    forall d, i: nat :: Has(t, d, i) && t.dirs[d][i].name == DOT_NAME ==> t.dirs[d][i].ino == d
  }

  /** ".." is the directory that names it; the root's is the root. */
  ghost predicate DotDotParent(t: Tree)
  {
    forall d, i: nat :: Has(t, d, i) && t.dirs[d][i].name == DOTDOT_NAME ==>
      && t.dirs[d][i].ino in t.dirs
      && (if d == t.root then t.dirs[d][i].ino == d else Names(t, t.dirs[d][i].ino, d))
  }

  /** Every directory has both. */
  ghost predicate HasDots(t: Tree)
  {
    forall d :: d in t.dirs ==> HasName(t.dirs[d], DOT_NAME) && HasName(t.dirs[d], DOTDOT_NAME)
  }

  ghost predicate HasName(es: seq<Entry>, name: Buf) { exists i :: 0 <= i < |es| && es[i].name == name }

  /** A directory lies one level below the one that names it. */
  ghost predicate IsRank(t: Tree, depth: map<nat, nat>)
  {
    && t.dirs.Keys <= depth.Keys
    && forall p, i: nat, c :: NameAt(t, p, i, c) && c in t.dirs ==> depth[c] == depth[p] + 1
  }

  /** There are no cycles. */
  ghost predicate Ranked(t: Tree) { exists depth: map<nat, nat> :: IsRank(t, depth) }

  ghost predicate Linked(t: Tree)
  {
    && t.root in t.dirs && t.dirs.Keys <= t.used
    && NoDangling(t) && OneName(t) && DotSelf(t) && DotDotParent(t) && HasDots(t)
  }

  ghost predicate TreeOK(t: Tree) { Linked(t) && Ranked(t) }

  /** Directory d is reached from the root through n names. */
  ghost predicate Under(t: Tree, d: nat, n: nat)
    decreases n
  {
    if n == 0 then d == t.root else exists p :: p in t.dirs && Names(t, p, d) && Under(t, p, n - 1)
  }

  /** Every directory hangs off the root. */
  lemma Reachable(t: Tree, d: nat) returns (n: nat)
    requires TreeOK(t) && d in t.dirs
    ensures Under(t, d, n)
  {
    var depth: map<nat, nat> :| IsRank(t, depth);
    n := Climb(t, depth, d);
  }

  lemma Parent(t: Tree, d: nat) returns (p: nat, j: nat)
    requires Linked(t) && d in t.dirs && d != t.root
    ensures p in t.dirs && NameAt(t, p, j, d)
  {
    var i :| 0 <= i < |t.dirs[d]| && t.dirs[d][i].name == DOTDOT_NAME;
    assert Has(t, d, i);
    p := t.dirs[d][i].ino;
    assert Names(t, p, d);
    j :| NameAt(t, p, j, d);
  }

  lemma Climb(t: Tree, depth: map<nat, nat>, d: nat) returns (n: nat)
    requires Linked(t) && IsRank(t, depth) && d in t.dirs
    ensures Under(t, d, n)
    decreases depth[d]
  {
    if d == t.root { return 0; }
    var p, j := Parent(t, d);
    n := Climb(t, depth, p);
    n := n + 1;
    assert Names(t, p, d);
  }

  /** No directory names itself by an ordinary entry. */
  lemma SelfNamed(t: Tree, d: nat, k: nat)
    requires TreeOK(t)
    ensures !NameAt(t, d, k, d)
  {
    var depth: map<nat, nat> :| IsRank(t, depth);
  }

  // ----- one entry more -----

  /** es' has e at position p and otherwise the entries of es. */
  ghost predicate With(es: seq<Entry>, es': seq<Entry>, p: nat, e: Entry)
  {
    && p <= |es| && |es'| == |es| + 1 && es'[p] == e
    && (forall i: nat :: i < p ==> es'[i] == es[i]) && (forall i: nat :: p < i < |es'| ==> es'[i] == es[i - 1])
    && (forall i: nat :: i < |es| ==> es[i] == es'[if i < p then i else i + 1])
  }

  lemma InsertedWith(es: seq<Entry>, es': seq<Entry>, p: nat, e: Entry)
    requires Inserted(es, es', p, e)
    ensures With(es, es', p, e)
  {
  }

  /** A new plain entry e in directory d for an inode not in use so far; `more` is what the new
      inode adds to the directories: nothing for a file, its dots for a directory. */
  ghost predicate Grown(t: Tree, t': Tree, d: nat, p: nat, e: Entry)
  {
    && d in t.dirs && d in t'.dirs && Plain(e) && e.ino !in t.used && t'.root == t.root && t'.used == t.used + {e.ino}
    && t'.dirs.Keys - {e.ino} == t.dirs.Keys
    && With(t.dirs[d], t'.dirs[d], p, e)
    && (forall c :: c in t.dirs && c != d ==> c in t'.dirs && t'.dirs[c] == t.dirs[c])
    && (e.ino in t'.dirs ==> IsDots(t'.dirs[e.ino], e.ino, d))
  }

  ghost predicate IsDots(es: seq<Entry>, x: nat, parent: nat)
  {
    |es| == 2 && es[0].name == DOT_NAME && es[0].ino == x && es[1].name == DOTDOT_NAME && es[1].ino == parent
  }

  /** Where entry i of directory c was before the insertion. */
  ghost function Before(d: nat, p: nat, c: nat, i: nat): nat { if c == d && i > p then i - 1 else i }

  lemma GrownEntry(t: Tree, t': Tree, d: nat, p: nat, e: Entry, c: nat, i: nat)
    requires Linked(t) && Grown(t, t', d, p, e) && Has(t', c, i) && c != e.ino && !(c == d && i == p)
    ensures Has(t, c, Before(d, p, c, i)) && t.dirs[c][Before(d, p, c, i)] == t'.dirs[c][i]
    ensures t'.dirs[c][i].ino in t.used
  {
  }

  lemma GrownNames(t: Tree, t': Tree, d: nat, p: nat, e: Entry, a: nat, c: nat)
    requires Linked(t) && Grown(t, t', d, p, e) && Names(t, a, c)
    ensures Names(t', a, c)
  {
    var i: nat :| NameAt(t, a, i, c);
    var j := if a == d && i >= p then i + 1 else i;
    assert a != e.ino;
    assert t'.dirs[a][j] == t.dirs[a][i];
    assert NameAt(t', a, j, c);
  }

  lemma GrownNameAt(t: Tree, t': Tree, d: nat, p: nat, e: Entry, c: nat, i: nat, x: nat)
    requires Linked(t) && Grown(t, t', d, p, e) && NameAt(t', c, i, x)
    ensures if c == d && i == p then x == e.ino else x in t.used && NameAt(t, c, Before(d, p, c, i), x)
  {
    assert c == e.ino ==> IsDots(t'.dirs[c], c, d);
    if c != e.ino && !(c == d && i == p) { GrownEntry(t, t', d, p, e, c, i); }
  }

  lemma GrownOneName(t: Tree, t': Tree, d: nat, p: nat, e: Entry)
    requires Linked(t) && Grown(t, t', d, p, e)
    ensures OneName(t')
  {
    forall x, c, i: nat, c', i': nat | NameAt(t', c, i, x) && NameAt(t', c', i', x) ensures c == c' && i == i' {
      GrownNameAt(t, t', d, p, e, c, i, x);
      GrownNameAt(t, t', d, p, e, c', i', x);
    }
    forall c, i: nat ensures !NameAt(t', c, i, t'.root) {
      if NameAt(t', c, i, t'.root) { GrownNameAt(t, t', d, p, e, c, i, t'.root); }
    }
  }

  lemma GrownDotAt(t: Tree, t': Tree, d: nat, p: nat, e: Entry, c: nat, i: nat)
    requires Linked(t) && Grown(t, t', d, p, e) && Has(t', c, i)
    ensures t'.dirs[c][i].ino in t'.used
    ensures t'.dirs[c][i].name == DOT_NAME ==> t'.dirs[c][i].ino == c
    ensures t'.dirs[c][i].name == DOTDOT_NAME ==> t'.dirs[c][i].ino in t'.dirs
    ensures t'.dirs[c][i].name == DOTDOT_NAME ==>
      if c == t'.root then t'.dirs[c][i].ino == c else Names(t', t'.dirs[c][i].ino, c)
  {
    if c == e.ino {
      assert NameAt(t', d, p, e.ino);
    } else if !(c == d && i == p) {
      GrownEntry(t, t', d, p, e, c, i);
      if t'.dirs[c][i].name == DOTDOT_NAME && c != t.root {
        GrownNames(t, t', d, p, e, t'.dirs[c][i].ino, c);
      }
    }
  }

  lemma GrownDots(t: Tree, t': Tree, d: nat, p: nat, e: Entry)
    requires Linked(t) && Grown(t, t', d, p, e)
    ensures DotSelf(t') && DotDotParent(t') && NoDangling(t')
  {
    forall c, i: nat | Has(t', c, i)
      ensures t'.dirs[c][i].ino in t'.used
      ensures t'.dirs[c][i].name == DOT_NAME ==> t'.dirs[c][i].ino == c
      ensures t'.dirs[c][i].name == DOTDOT_NAME ==> t'.dirs[c][i].ino in t'.dirs
      ensures t'.dirs[c][i].name == DOTDOT_NAME ==>
        if c == t'.root then t'.dirs[c][i].ino == c else Names(t', t'.dirs[c][i].ino, c)
    {
      GrownDotAt(t, t', d, p, e, c, i);
    }
  }

  lemma GrownHasDots(t: Tree, t': Tree, d: nat, p: nat, e: Entry)
    requires Linked(t) && Grown(t, t', d, p, e)
    ensures HasDots(t')
  {
    forall c | c in t'.dirs ensures HasName(t'.dirs[c], DOT_NAME) && HasName(t'.dirs[c], DOTDOT_NAME) {
      if c == d {
        WithName(t.dirs[d], t'.dirs[d], p, e, DOT_NAME);
        WithName(t.dirs[d], t'.dirs[d], p, e, DOTDOT_NAME);
      } else if c == e.ino {
        assert t'.dirs[c][0].name == DOT_NAME && t'.dirs[c][1].name == DOTDOT_NAME;
      }
    }
  }

  lemma WithName(es: seq<Entry>, es': seq<Entry>, p: nat, e: Entry, name: Buf)
    requires With(es, es', p, e) && HasName(es, name)
    ensures HasName(es', name)
  {
    var i: nat :| i < |es| && es[i].name == name;
    assert es'[if i < p then i else i + 1].name == name;
  }

  lemma GrownRanked(t: Tree, t': Tree, d: nat, p: nat, e: Entry)
    requires TreeOK(t) && Grown(t, t', d, p, e)
    ensures Ranked(t')
  {
    var depth: map<nat, nat> :| IsRank(t, depth);
    GrownRank(t, t', d, p, e, depth, depth[e.ino := depth[d] + 1]);
  }

  lemma GrownRank(t: Tree, t': Tree, d: nat, p: nat, e: Entry, depth: map<nat, nat>, depth': map<nat, nat>)
    requires Linked(t) && Grown(t, t', d, p, e) && IsRank(t, depth) && depth' == depth[e.ino := depth[d] + 1]
    ensures IsRank(t', depth')
  {
    hide Linked, With, IsDots;
    InUse(t);
    forall c, i: nat, x | NameAt(t', c, i, x) && x in t'.dirs ensures depth'[x] == depth'[c] + 1 {
      GrownNameAt(t, t', d, p, e, c, i, x);
    }
  }

  lemma InUse(t: Tree)
    requires Linked(t)
    ensures t.dirs.Keys <= t.used
  {
  }

  /** Creating a file or a directory keeps the name space sound. */
  lemma GrownOK(t: Tree, t': Tree, d: nat, p: nat, e: Entry)
    requires TreeOK(t) && Grown(t, t', d, p, e)
    ensures TreeOK(t')
  {
    GrownRanked(t, t', d, p, e);
    GrownOneName(t, t', d, p, e);
    GrownDots(t, t', d, p, e);
    GrownHasDots(t, t', d, p, e);
  }

  // ----- one entry fewer -----

  /** es' is es without position k. */
  ghost predicate Without(es: seq<Entry>, es': seq<Entry>, k: nat)
  {
    && k < |es| && |es'| == |es| - 1
    && (forall i: nat :: i < k ==> es'[i] == es[i]) && (forall i: nat :: k <= i < |es'| ==> es'[i] == es[i + 1])
    && (forall i: nat :: i < |es| && i != k ==>
          0 <= (if i < k then i else i - 1) < |es'| && es[i] == es'[if i < k then i else i - 1])
  }

  lemma RemovedWithout(es: seq<Entry>, es': seq<Entry>, name: Buf)
    requires Removed(es, es', name)
    ensures Without(es, es', First(es, name))
  {
  }

  /** The plain entry k of directory d and the inode it named are gone; a directory goes only
      when it has no more than its two dots. */
  ghost predicate Shrunk(t: Tree, t': Tree, d: nat, k: nat, x: nat)
  {
    && Has(t, d, k) && d in t'.dirs && Plain(t.dirs[d][k]) && t.dirs[d][k].ino == x && x != d
    && t'.root == t.root && t'.used == t.used - {x} && t'.dirs.Keys == t.dirs.Keys - {x}
    && Without(t.dirs[d], t'.dirs[d], k)
    && (forall c :: c in t.dirs && c != d && c != x ==> c in t'.dirs && t'.dirs[c] == t.dirs[c])
    && (x in t.dirs ==> |t.dirs[x]| <= 2)
  }

  ghost function Back(d: nat, k: nat, c: nat, i: nat): nat { if c == d && i >= k then i + 1 else i }

  lemma ShrunkEntry(t: Tree, t': Tree, d: nat, k: nat, x: nat, c: nat, i: nat)
    requires Linked(t) && Shrunk(t, t', d, k, x) && Has(t', c, i)
    ensures c != x && Has(t, c, Back(d, k, c, i)) && t.dirs[c][Back(d, k, c, i)] == t'.dirs[c][i]
    ensures !(c == d && Back(d, k, c, i) == k)
  {
  }

  /** An empty directory names nothing. */
  lemma EmptyNames(t: Tree, x: nat, c: nat)
    requires HasDots(t) && x in t.dirs && |t.dirs[x]| <= 2
    ensures !Names(t, x, c)
  {
    if Names(t, x, c) {
      var m: nat :| NameAt(t, x, m, c);
      NothingPlain(t.dirs[x], m);
    }
  }

  lemma NothingPlain(es: seq<Entry>, m: nat)
    requires HasName(es, DOT_NAME) && HasName(es, DOTDOT_NAME) && |es| <= 2 && m < |es|
    ensures !Plain(es[m])
  {
    var i :| 0 <= i < |es| && es[i].name == DOT_NAME;
    var j :| 0 <= j < |es| && es[j].name == DOTDOT_NAME;
  }

  lemma ShrunkNames(t: Tree, t': Tree, d: nat, k: nat, x: nat, a: nat, c: nat)
    requires Linked(t) && Shrunk(t, t', d, k, x) && Names(t, a, c) && c != x
    ensures Names(t', a, c)
  {
    var i: nat :| NameAt(t, a, i, c);
    if a == x {
      EmptyNames(t, x, c);
    } else {
      var j := if a == d && i > k then i - 1 else i;
      assert t'.dirs[a][j] == t.dirs[a][i];
      assert NameAt(t', a, j, c);
    }
  }

  /** Nothing else refers to the inode that goes. */
  lemma ShrunkNoDangling(t: Tree, t': Tree, d: nat, k: nat, x: nat)
    requires Linked(t) && Shrunk(t, t', d, k, x)
    ensures NoDangling(t')
  {
    forall c, i: nat | Has(t', c, i) ensures t'.dirs[c][i].ino in t'.used {
      ShrunkEntry(t, t', d, k, x, c, i);
      var b := Back(d, k, c, i);
      var e := t.dirs[c][b];
      assert e.ino in t.used;
      if e.ino == x {
        if Plain(e) {
          assert NameAt(t, d, k, x) && NameAt(t, c, b, x);
        } else if e.name == DOTDOT_NAME && c != t.root {
          EmptyNames(t, x, c);
        }
      }
    }
  }

  lemma ShrunkDots(t: Tree, t': Tree, d: nat, k: nat, x: nat)
    requires Linked(t) && Shrunk(t, t', d, k, x)
    ensures DotSelf(t') && DotDotParent(t') && HasDots(t') && t'.root in t'.dirs
  {
    ShrunkNoDangling(t, t', d, k, x);
    assert NameAt(t, d, k, x);
    forall c, i: nat | Has(t', c, i)
      ensures t'.dirs[c][i].name == DOT_NAME ==> t'.dirs[c][i].ino == c
      ensures t'.dirs[c][i].name == DOTDOT_NAME ==> t'.dirs[c][i].ino in t'.dirs
      ensures t'.dirs[c][i].name == DOTDOT_NAME ==>
        if c == t'.root then t'.dirs[c][i].ino == c else Names(t', t'.dirs[c][i].ino, c)
    {
      ShrunkEntry(t, t', d, k, x, c, i);
      assert t'.dirs[c][i].ino in t'.used;
      if t'.dirs[c][i].name == DOTDOT_NAME && c != t.root {
        ShrunkNames(t, t', d, k, x, t'.dirs[c][i].ino, c);
      }
    }
    forall c | c in t'.dirs ensures HasName(t'.dirs[c], DOT_NAME) && HasName(t'.dirs[c], DOTDOT_NAME) {
      if c == d {
        WithoutName(t.dirs[d], t'.dirs[d], k, DOT_NAME);
        WithoutName(t.dirs[d], t'.dirs[d], k, DOTDOT_NAME);
      }
    }
  }

  lemma WithoutName(es: seq<Entry>, es': seq<Entry>, k: nat, name: Buf)
    requires Without(es, es', k) && HasName(es, name) && es[k].name != name
    ensures HasName(es', name)
  {
    var i: nat :| i < |es| && es[i].name == name;
    assert es'[if i < k then i else i - 1].name == name;
  }

  lemma ShrunkOneName(t: Tree, t': Tree, d: nat, k: nat, x: nat)
    requires Linked(t) && Shrunk(t, t', d, k, x)
    ensures OneName(t')
  {
    forall y, c, i: nat, c', i': nat | NameAt(t', c, i, y) && NameAt(t', c', i', y) ensures c == c' && i == i' {
      ShrunkNameAt(t, t', d, k, x, c, i, y);
      ShrunkNameAt(t, t', d, k, x, c', i', y);
    }
    forall c, i: nat ensures !NameAt(t', c, i, t'.root) {
      if NameAt(t', c, i, t'.root) { ShrunkNameAt(t, t', d, k, x, c, i, t'.root); }
    }
  }

  lemma ShrunkNameAt(t: Tree, t': Tree, d: nat, k: nat, x: nat, c: nat, i: nat, y: nat)
    requires Linked(t) && Shrunk(t, t', d, k, x) && NameAt(t', c, i, y)
    ensures NameAt(t, c, Back(d, k, c, i), y)
  {
    ShrunkEntry(t, t', d, k, x, c, i);
  }

  lemma ShrunkRanked(t: Tree, t': Tree, d: nat, k: nat, x: nat)
    requires TreeOK(t) && Shrunk(t, t', d, k, x)
    ensures Ranked(t')
  {
    var depth: map<nat, nat> :| IsRank(t, depth);
    forall c, i: nat, y | NameAt(t', c, i, y) && y in t'.dirs ensures depth[y] == depth[c] + 1 {
      ShrunkNameAt(t, t', d, k, x, c, i, y);
    }
    assert IsRank(t', depth);
  }

  /** Removing a file or an empty directory keeps the name space sound. */
  lemma ShrunkOK(t: Tree, t': Tree, d: nat, k: nat, x: nat)
    requires TreeOK(t) && Shrunk(t, t', d, k, x)
    ensures TreeOK(t')
  {
    ShrunkRanked(t, t', d, k, x);
    ShrunkNoDangling(t, t', d, k, x);
    ShrunkDots(t, t', d, k, x);
    ShrunkOneName(t, t', d, k, x);
  }
}
