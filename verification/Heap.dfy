/** heap-allocator.c: kmalloc and kfree. */
module Heap {
  import opened HeapLayout

  // ----- editing the free list -----

  /** Word x is next_free or prev_free of a block on the list. */
  ghost predicate IsLink(fl: seq<nat>, x: nat) { exists k :: 0 <= k < |fl| && (x == fl[k] + 1 || x == fl[k] + 2) }

  /** Word x is as before, or a link word that does not read as free. */
  ghost predicate LinkOnly(w: seq<nat>, w': seq<nat>, fl: seq<nat>, x: nat)
  {
    x < |w| && x < |w'| && (w'[x] == w[x] || (IsLink(fl, x) && !Flagged(w'[x])))
  }

  ghost predicate OnlyLinks(w: seq<nat>, w': seq<nat>, fl: seq<nat>)
  {
    |w'| == |w| && forall x: nat {:trigger LinkOnly(w, w', fl, x)} :: x < |w| ==> LinkOnly(w, w', fl, x)
  }

  function DropAt(fl: seq<nat>, k: nat): seq<nat>
    requires k < |fl|
  {
    fl[..k] + fl[k+1..]
  }

  lemma LinkEven(fl: seq<nat>, k: int)
    ensures !Flagged(Link(fl, k)) && (Link(fl, k) != 0 <==> 0 <= k < |fl|)
    ensures 0 <= k < |fl| ==> Idx(Link(fl, k)) == fl[k]
  {
    if 0 <= k < |fl| { AddrIdx(fl[k]); }
  }

  /** The words after unlinking block a from between prev and next. */
  function Cut(w: seq<nat>, a: nat, prev: nat, next: nat): (r: seq<nat>)
    requires a + 3 <= |w| && (prev != 0 ==> Idx(prev) + 3 <= |w|) && (next != 0 ==> Idx(next) + 3 <= |w|)
    ensures |r| == |w|
  {
    var w1 := if prev != 0 then w[Idx(prev) + 1 := next] else w;
    var w2 := if next != 0 then w1[Idx(next) + 2 := prev] else w1;
    w2[a + 1 := 0][a + 2 := 0]
  }

  /** The links of another block of the list after the cut. */
  lemma CutAt(w: seq<nat>, fl: seq<nat>, k: nat, i: nat)
    requires LinkedAt(w, fl, i) && Apart(fl) && k < |fl| && i < |fl| && i != k && fl[k] + 3 <= |w|
    requires k > 0 ==> fl[k-1] + 3 <= |w|
    requires k + 1 < |fl| ==> fl[k+1] + 3 <= |w|
    requires Link(fl, k - 1) != 0 ==> Idx(Link(fl, k - 1)) + 3 <= |w|
    requires Link(fl, k + 1) != 0 ==> Idx(Link(fl, k + 1)) + 3 <= |w|
    ensures var r := Cut(w, fl[k], Link(fl, k - 1), Link(fl, k + 1));
      && r[fl[i] + 1] == Link(fl, if i + 1 == k then k + 1 else i + 1)
      && r[fl[i] + 2] == Link(fl, if i == k + 1 then k - 1 else i - 1)
  {
    LinkEven(fl, k - 1);
    LinkEven(fl, k + 1);
    assert Sep(fl, i, k);
    if k > 0 && i != k - 1 { assert Sep(fl, i, k - 1); }
    if k + 1 < |fl| && i != k + 1 { assert Sep(fl, i, k + 1); }
  }

  lemma DropLink(fl: seq<nat>, k: nat, j: int)
    requires k < |fl| && -1 <= j < |fl|
    ensures Link(DropAt(fl, k), j) == Link(fl, if j < k then j else j + 1)
  {
  }

  lemma CutOnly(w: seq<nat>, fl: seq<nat>, k: nat, x: nat)
    requires k < |fl| && x < |w| && fl[k] + 3 <= |w|
    requires Link(fl, k - 1) != 0 ==> Idx(Link(fl, k - 1)) + 3 <= |w|
    requires Link(fl, k + 1) != 0 ==> Idx(Link(fl, k + 1)) + 3 <= |w|
    ensures LinkOnly(w, Cut(w, fl[k], Link(fl, k - 1), Link(fl, k + 1)), fl, x)
  {
    LinkEven(fl, k - 1);
    LinkEven(fl, k + 1);
    if k > 0 && x == fl[k-1] + 1 { assert IsLink(fl, x); }
    if k + 1 < |fl| && x == fl[k+1] + 2 { assert IsLink(fl, x); }
    if x == fl[k] + 1 || x == fl[k] + 2 { assert IsLink(fl, x); }
  }

  lemma CutLinks(w: seq<nat>, head: nat, fl: seq<nat>, k: nat, prev: nat, next: nat)
    requires Links(w, head, fl) && Apart(fl) && k < |fl| && prev == Link(fl, k - 1) && next == Link(fl, k + 1)
    ensures fl[k] + 3 <= |w| && (prev != 0 ==> Idx(prev) + 3 <= |w|) && (next != 0 ==> Idx(next) + 3 <= |w|)
    ensures Links(Cut(w, fl[k], prev, next), if prev != 0 then head else next, DropAt(fl, k))
    ensures OnlyLinks(w, Cut(w, fl[k], prev, next), fl)
  {
    LinkEven(fl, k - 1);
    LinkEven(fl, k + 1);
    assert LinkedAt(w, fl, k);
    if k > 0 { assert LinkedAt(w, fl, k - 1); }
    if k + 1 < |fl| { assert LinkedAt(w, fl, k + 1); }
    var r := Cut(w, fl[k], prev, next);
    var gl := DropAt(fl, k);
    DropLink(fl, k, 0);
    forall j: nat | j < |gl| ensures LinkedAt(r, gl, j) {
      var i := if j < k then j else j + 1;
      assert LinkedAt(w, fl, i);
      CutAt(w, fl, k, i);
      DropLink(fl, k, j + 1);
      DropLink(fl, k, j - 1);
    }
    forall x: nat | x < |w| ensures LinkOnly(w, r, fl, x) { CutOnly(w, fl, k, x); }
  }

  /** The words after hanging block a in front of the list. */
  function Push(w: seq<nat>, a: nat, head: nat): (r: seq<nat>)
    requires a + 3 <= |w| && (head != 0 ==> Idx(head) + 3 <= |w|)
    ensures |r| == |w|
  {
    var w1 := w[a + 1 := head];
    var w2 := if head != 0 then w1[Idx(head) + 2 := Addr(a)] else w1;
    w2[a + 2 := 0]
  }

  lemma PushLinks(w: seq<nat>, head: nat, fl: seq<nat>, a: nat)
    requires Links(w, head, fl) && Apart([a] + fl) && a + 3 <= |w|
    ensures head != 0 ==> Idx(head) + 3 <= |w|
    ensures Links(Push(w, a, head), Addr(a), [a] + fl) && OnlyLinks(w, Push(w, a, head), [a] + fl)
  {
    LinkEven(fl, 0);
    AddrIdx(a);
    var gl := [a] + fl;
    if fl != [] { assert LinkedAt(w, fl, 0); }
    var r := Push(w, a, head);
    forall j: nat | j < |gl| ensures LinkedAt(r, gl, j) {
      if j > 0 {
        assert LinkedAt(w, fl, j - 1) && Sep(gl, 0, j) && gl[j] == fl[j-1];
        if j > 1 { assert Sep(gl, 1, j) && gl[1] == fl[0]; }
      }
      if j == 0 && fl != [] { assert Sep(gl, 0, 1); }
    }
    forall x: nat | x < |w| ensures LinkOnly(w, r, gl, x) {
      if x == a + 1 || x == a + 2 { assert gl[0] == a; assert IsLink(gl, x); }
      if fl != [] && x == fl[0] + 2 { assert gl[1] == fl[0]; assert IsLink(gl, x); }
    }
  }

  // ----- list edits keep tags and payloads -----

  lemma NoHeaderLink(tiles: map<nat, nat>, len: nat, gl: seq<nat>, i: nat)
    requires Tiled(tiles, len) && i in tiles && (forall k :: 0 <= k < |gl| ==> gl[k] in tiles)
    ensures !IsLink(gl, i) && tiles[i] >= 3
    ensures IsLink(gl, i + tiles[i] - 1) ==> i in gl && tiles[i] == 3
    ensures i !in gl ==> forall x :: i <= x < i + tiles[i] ==> !IsLink(gl, x)
  {
    assert Placed(tiles, len, i);
    forall k | 0 <= k < |gl| && gl[k] != i ensures gl[k] + 3 <= i || i + tiles[i] <= gl[k] {
      Disjoint(tiles, len, gl[k], i);
    }
  }

  lemma LinksOnly(h: Hp, h': Hp, gl: seq<nat>, pending: set<nat>, i: nat)
    requires Tiled(h.tiles, |h.w|) && TagsOK(h, i, pending) && h'.tiles == h.tiles && h'.free == h.free
    requires OnlyLinks(h.w, h'.w, gl) && forall k :: 0 <= k < |gl| ==> gl[k] in h.tiles && gl[k] in h.free
    ensures TagsOK(h', i, pending) && (i !in h.free ==> LiveAt(h, h', i))
  {
    NoHeaderLink(h.tiles, |h.w|, gl, i);
    assert Placed(h.tiles, |h.w|, i);
    assert LinkOnly(h.w, h'.w, gl, i) && LinkOnly(h.w, h'.w, gl, i + h.tiles[i] - 1);
    if i !in h.free {
      forall k | i < k < i + h.tiles[i] - 1 ensures h'.w[k] == h.w[k] { assert LinkOnly(h.w, h'.w, gl, k); }
    }
  }

  lemma ApartList(tiles: map<nat, nat>, len: nat, fl: seq<nat>, a: nat)
    requires Tiled(tiles, len) && Apart(fl) && a in tiles && a !in fl && forall k :: 0 <= k < |fl| ==> fl[k] in tiles
    ensures Apart([a] + fl)
  {
    var gl := [a] + fl;
    forall j: nat, k: nat | j < |gl| && k < |gl| && j != k ensures Sep(gl, j, k) {
      if j > 0 && k > 0 { assert Sep(fl, j - 1, k - 1); } else { Disjoint(tiles, len, gl[j], gl[k]); }
    }
  }

  lemma CutList(fl: seq<nat>, k: nat, s: set<nat>)
    requires Apart(fl) && k < |fl| && ListIs(fl, s)
    ensures Apart(DropAt(fl, k)) && ListIs(DropAt(fl, k), s - {fl[k]})
  {
    var gl := DropAt(fl, k);
    forall j | 0 <= j < |gl| ensures gl[j] in s && gl[j] != fl[k] {
      var i := if j < k then j else j + 1;
      assert gl[j] == fl[i] && Sep(fl, i, k);
    }
    forall i | i in s - {fl[k]} ensures i in gl {
      assert i in fl;
      var j :| 0 <= j < |fl| && fl[j] == i;
      assert gl[if j < k then j else j - 1] == i;
    }
    forall i: nat, j: nat | i < |gl| && j < |gl| && i != j ensures Sep(gl, i, j) {
      assert Sep(fl, if i < k then i else i + 1, if j < k then j else j + 1);
    }
  }

  /** remove_free_block */
  lemma CutOk(h: Hp, h': Hp, pending: set<nat>, k: nat, prev: nat, next: nat)
    requires Ok(h, pending) && k < |h.fl| && prev == Link(h.fl, k - 1) && next == Link(h.fl, k + 1)
    requires h.fl[k] + 3 <= |h.w| && (prev != 0 ==> Idx(prev) + 3 <= |h.w|) && (next != 0 ==> Idx(next) + 3 <= |h.w|)
    requires h' ==
      h.(w := Cut(h.w, h.fl[k], prev, next), head := if prev != 0 then h.head else next, fl := DropAt(h.fl, k))
    ensures Ok(h', pending + {h.fl[k]}) && LiveKept(h, h')
  {
    var a := h.fl[k];
    CutLinks(h.w, h.head, h.fl, k, prev, next);
    forall i | i in h.tiles ensures TagsOK(h', i, pending + {a}) && (i !in h.free ==> LiveAt(h, h', i)) {
      assert TagsOK(h, i, pending);
      LinksOnly(h, h', h.fl, pending, i);
    }
    CutList(h.fl, k, h.free - pending);
    assert h.free - (pending + {a}) == h.free - pending - {a};
  }

  /** add_free_block */
  lemma PushOk(h: Hp, h': Hp, pending: set<nat>, a: nat)
    requires Ok(h, pending) && a in pending && a + 3 <= |h.w| && (h.head != 0 ==> Idx(h.head) + 3 <= |h.w|)
    requires h' == h.(w := Push(h.w, a, h.head), head := Addr(a), fl := [a] + h.fl)
    ensures Ok(h', pending - {a}) && LiveKept(h, h')
  {
    var gl := [a] + h.fl;
    ApartList(h.tiles, |h.w|, h.fl, a);
    PushLinks(h.w, h.head, h.fl, a);
    assert LinkedAt(h'.w, gl, 0);
    forall i | i in h.tiles ensures TagsOK(h', i, pending - {a}) && (i !in h.free ==> LiveAt(h, h', i)) {
      assert TagsOK(h, i, pending);
      LinksOnly(h, h', gl, pending, i);
    }
    forall i | i in h.free - (pending - {a}) ensures i in gl {
      if i == a { assert gl[0] == a; } else { assert i in h.fl; }
    }
  }

  // ----- rebuilding blocks -----

  /** lo..hi is made of whole blocks: block i lies before, inside or behind it. */
  ghost predicate Whole(tiles: map<nat, nat>, lo: nat, hi: nat, i: nat)
  {
    i in tiles && (i + tiles[i] <= lo || (lo <= i && i + tiles[i] <= hi) || hi <= i)
  }

  ghost predicate Window(tiles: map<nat, nat>, lo: nat, hi: nat)
  {
    forall i {:trigger Whole(tiles, lo, hi, i)} :: i in tiles ==> Whole(tiles, lo, hi, i)
  }

  /** From h to h' nothing changed outside the words lo..hi. */
  ghost predicate SameOutside(h: Hp, h': Hp, lo: nat, hi: nat)
  {
    && |h.w| <= |h'.w| && h'.head == h.head && h'.fl == h.fl
    && (forall x :: 0 <= x < |h.w| && !(lo <= x < hi) ==> h'.w[x] == h.w[x])
    && (forall i :: i in h.tiles && !(lo <= i < hi) ==> i in h'.tiles && h'.tiles[i] == h.tiles[i])
    && (forall i :: i in h'.tiles && !(lo <= i < hi) ==> i in h.tiles)
    && (forall i :: !(lo <= i < hi) ==> (i in h'.free <==> i in h.free))
  }

  lemma OutsideOk(h: Hp, h': Hp, lo: nat, hi: nat, pending: set<nat>, i: nat)
    requires TagsOK(h, i, pending) && Placed(h.tiles, |h.w|, i) && Whole(h.tiles, lo, hi, i)
    requires SameOutside(h, h', lo, hi)
    requires !(lo <= i < hi) && i !in pending
    ensures TagsOK(h', i, {}) && (i !in h.free ==> LiveAt(h, h', i))
  {
  }

  /** Rebuilding the blocks between lo and hi keeps the heap sound. */
  lemma Rebuilt(h: Hp, h': Hp, lo: nat, hi: nat, pending: set<nat>, pending': set<nat>)
    requires Ok(h, pending) && Window(h.tiles, lo, hi) && SameOutside(h, h', lo, hi)
    requires Tiled(h'.tiles, |h'.w|) && h'.free <= h'.tiles.Keys && pending' <= h'.free
    requires h'.free - pending' == h.free - pending
    requires forall i :: i in pending ==> lo <= i < hi
    requires forall i {:trigger TagsOK(h', i, pending')} :: i in h'.tiles && lo <= i < hi ==> TagsOK(h', i, pending')
    requires forall k: nat {:trigger LinkedAt(h'.w, h.fl, k)} :: k < |h.fl| && lo <= h.fl[k] < hi ==>
      LinkedAt(h'.w, h.fl, k)
    ensures Ok(h', pending')
  {
    forall i | i in h'.tiles ensures TagsOK(h', i, pending') {
      if !(lo <= i < hi) {
        assert TagsOK(h, i, pending) && Placed(h.tiles, |h.w|, i) && Whole(h.tiles, lo, hi, i);
        OutsideOk(h, h', lo, hi, pending, i);
      }
    }
    forall k: nat | k < |h.fl| ensures LinkedAt(h'.w, h.fl, k) {
      assert LinkedAt(h.w, h.fl, k);
      var i := h.fl[k];
      assert i in h.tiles;
      assert Placed(h.tiles, |h.w|, i) && Whole(h.tiles, lo, hi, i);
    }
  }

  lemma OutsideLive(h: Hp, h': Hp, lo: nat, hi: nat, pending: set<nat>, i: nat)
    requires Ok(h, pending) && Window(h.tiles, lo, hi) && SameOutside(h, h', lo, hi)
    requires i in h.tiles && i !in h.free && !(lo <= i < hi)
    ensures LiveAt(h, h', i)
  {
    assert TagsOK(h, i, pending) && Placed(h.tiles, |h.w|, i) && Whole(h.tiles, lo, hi, i);
    OutsideOk(h, h', lo, hi, {}, i);
  }

  lemma BlockWindow(tiles: map<nat, nat>, len: nat, a: nat)
    requires Tiled(tiles, len) && a in tiles
    ensures Window(tiles, a, a + tiles[a])
    ensures forall i :: i in tiles && a <= i < a + tiles[a] ==> i == a
  {
    assert Placed(tiles, len, a);
    forall i | i in tiles ensures Whole(tiles, a, a + tiles[a], i) && (a <= i < a + tiles[a] ==> i == a) {
      if i != a { Disjoint(tiles, len, i, a); }
    }
  }

  lemma PairWindow(tiles: map<nat, nat>, len: nat, a: nat, b: nat)
    requires Tiled(tiles, len) && a in tiles && b in tiles && a + tiles[a] == b
    ensures Window(tiles, a, b + tiles[b])
    ensures forall i :: i in tiles && a <= i < b + tiles[b] ==> i == a || i == b
  {
    assert Placed(tiles, len, a) && Placed(tiles, len, b);
    forall i | i in tiles ensures Whole(tiles, a, b + tiles[b], i) && (a <= i < b + tiles[b] ==> i == a || i == b) {
      if i != a { Disjoint(tiles, len, i, a); }
      if i != b { Disjoint(tiles, len, i, b); }
    }
  }

  /** update_footer after the tag of block a was set. */
  function Retag(w: seq<nat>, a: nat, n: nat, free: bool): (r: seq<nat>)
    requires n >= 3 && a + n <= |w|
    ensures |r| == |w| && r[a] == Tag(n, free) == r[a + n - 1]
    ensures forall x :: 0 <= x < |w| && x != a && x != a + n - 1 ==> r[x] == w[x]
  {
    w[a := Tag(n, free)][a + n - 1 := Tag(n, free)]
  }

  /** A pending block is handed out whole: CLEAR_FREE and the footer. */
  lemma TakeWhole(h: Hp, h': Hp, a: nat, n: nat)
    requires Ok(h, {a}) && n == h.tiles[a] >= 3 && a + n <= |h.w|
    requires h' == h.(w := Retag(h.w, a, n, false), free := h.free - {a})
    ensures HeapOK(h') && LiveKept(h, h')
  {
    BlockWindow(h.tiles, |h.w|, a);
    assert SameOutside(h, h', a, a + n);
    Decode(n, false);
    assert TagsOK(h', a, {});
    Rebuilt(h, h', a, a + n, {a}, {});
    forall i | i in h.tiles && i !in h.free ensures LiveAt(h, h', i) { OutsideLive(h, h', a, a + n, {a}, i); }
  }

  /** create_free_block: tag, footer, no links. */
  function Fresh(w: seq<nat>, b: nat, m: nat): (r: seq<nat>)
    requires m >= 3 && b + m <= |w|
    ensures |r| == |w| && r[b] == Tag(m, true) && (m > 3 ==> r[b + m - 1] == Tag(m, true)) && r[b + 1] == 0 == r[b + 2]
    ensures forall x :: 0 <= x < |w| && !(b <= x < b + m) ==> r[x] == w[x]
  {
    Retag(w, b, m, true)[b + 1 := 0][b + 2 := 0]
  }

  lemma SplitTags(h: Hp, h': Hp, a: nat, n: nat, m: nat)
    requires 3 <= n && 3 <= m && a + n + m <= |h.w| && a in h.tiles && h'.w == Fresh(Retag(h.w, a, n, false), a + n, m)
    requires h'.tiles == h.tiles[a := n][a + n := m] && h'.free == h.free - {a} + {a + n}
    ensures TagsOK(h', a, {a + n}) && TagsOK(h', a + n, {a + n})
  {
    Decode(n, false);
  }

  /** split_block of a pending block: n words are handed out, the rest is a new pending block. */
  lemma TakeSplit(h: Hp, h': Hp, a: nat, n: nat, m: nat)
    requires Ok(h, {a}) && 3 <= n && 3 <= m && n + m == h.tiles[a] && a + n + m <= |h.w|
    requires h' == h.(w := Fresh(Retag(h.w, a, n, false), a + n, m), tiles := h.tiles[a := n][a + n := m],
                      free := h.free - {a} + {a + n})
    ensures Ok(h', {a + n}) && LiveKept(h, h')
  {
    BlockWindow(h.tiles, |h.w|, a);
    TiledSplit(h.tiles, |h.w|, a, n);
    assert SameOutside(h, h', a, a + n + m);
    SplitTags(h, h', a, n, m);
    assert h'.free - {a + n} == h.free - {a};
    Rebuilt(h, h', a, a + n + m, {a}, {a + n});
    forall i | i in h.tiles && i !in h.free ensures LiveAt(h, h', i) { OutsideLive(h, h', a, a + n + m, {a}, i); }
  }

  /** coalesce_blocks once b is off the list: a takes b in. */
  lemma MergeOk(h: Hp, h': Hp, a: nat, b: nat, n: nat)
    requires Ok(h, {b}) && a in h.free && a != b && a + h.tiles[a] == b && n == h.tiles[a] + h.tiles[b] > 3
    requires a + n <= |h.w|
    requires h' == h.(w := Retag(h.w, a, n, true), tiles := (h.tiles - {b})[a := n], free := h.free - {b})
    ensures HeapOK(h') && LiveKept(h, h')
  {
    PairWindow(h.tiles, |h.w|, a, b);
    TiledMerge(h.tiles, |h.w|, a, b);
    assert Placed(h.tiles, |h.w|, a) && Placed(h.tiles, |h.w|, b);
    assert SameOutside(h, h', a, a + n);
    assert TagsOK(h', a, {});
    MergeLink(h, h', a, b, n);
    Rebuilt(h, h', a, a + n, {b}, {});
    forall i | i in h.tiles && i !in h.free ensures LiveAt(h, h', i) { OutsideLive(h, h', a, a + n, {b}, i); }
  }

  lemma MergeLink(h: Hp, h': Hp, a: nat, b: nat, n: nat)
    requires Ok(h, {b}) && a in h.free && a != b && a + h.tiles[a] == b && n == h.tiles[a] + h.tiles[b] && 3 < n
    requires a + n <= |h.w|
    requires h'.w == Retag(h.w, a, n, true) && forall i :: i in h.tiles && a <= i < a + n ==> i == a || i == b
    ensures forall k: nat {:trigger LinkedAt(h'.w, h.fl, k)} :: k < |h.fl| && a <= h.fl[k] < a + n ==>
      LinkedAt(h'.w, h.fl, k)
  {
    assert Placed(h.tiles, |h.w|, a) && Placed(h.tiles, |h.w|, b);
    forall k: nat | k < |h.fl| && a <= h.fl[k] < a + n ensures LinkedAt(h'.w, h.fl, k) {
      assert LinkedAt(h.w, h.fl, k);
      assert h.fl[k] in h.tiles && h.fl[k] != b;
    }
  }

  /** SET_FREE and update_footer on a block in use. */
  lemma MarkOk(h: Hp, h': Hp, a: nat, n: nat)
    requires HeapOK(h) && a in h.tiles && a !in h.free && n == h.tiles[a] >= 3 && a + n <= |h.w|
    requires h' == h.(w := Retag(h.w, a, n, true), free := h.free + {a})
    ensures Ok(h', {a}) && LiveBut(h, h', a)
  {
    BlockWindow(h.tiles, |h.w|, a);
    assert SameOutside(h, h', a, a + n);
    assert TagsOK(h', a, {a});
    assert h'.free - {a} == h.free - {};
    Rebuilt(h, h', a, a + n, {}, {a});
    forall i | i in h.tiles && i !in h.free && i != a ensures LiveAt(h, h', i) { OutsideLive(h, h', a, a + n, {}, i); }
  }

  /** The owner of block a stores v in its payload. */
  lemma PokeOk(h: Hp, h': Hp, a: nat, x: nat, v: nat)
    requires HeapOK(h) && a in h.tiles && a !in h.free && a < x < a + h.tiles[a] - 1 && x < |h.w|
    requires h' == h.(w := h.w[x := v])
    ensures HeapOK(h') && LiveBut(h, h', a)
  {
    var n := h.tiles[a];
    assert Placed(h.tiles, |h.w|, a) && TagsOK(h, a, {});
    BlockWindow(h.tiles, |h.w|, a);
    assert SameOutside(h, h', a, a + n);
    assert TagsOK(h', a, {});
    Rebuilt(h, h', a, a + n, {}, {});
    forall i | i in h.tiles && i !in h.free && i != a ensures LiveAt(h, h', i) { OutsideLive(h, h', a, a + n, {}, i); }
  }

  /** A zeroed page behind the heap becomes one pending block. */
  lemma GrowOk(h: Hp, h': Hp, page: seq<nat>, b: nat)
    requires HeapOK(h) && |page| == PAGE_WORDS && b == |h.w|
    requires h' == h.(w := Fresh(h.w + page, b, PAGE_WORDS), tiles := h.tiles[b := PAGE_WORDS], free := h.free + {b})
    ensures Ok(h', {b}) && LiveKept(h, h')
  {
    TiledGrow(h.tiles, b, PAGE_WORDS);
    forall i | i in h.tiles ensures i < b && Whole(h.tiles, b, b + PAGE_WORDS, i) { assert Placed(h.tiles, |h.w|, i); }
    assert SameOutside(h, h', b, b + PAGE_WORDS);
    assert TagsOK(h', b, {b});
    assert h'.free - {b} == h.free - {};
    Rebuilt(h, h', b, b + PAGE_WORDS, {}, {b});
    forall i | i in h.tiles && i !in h.free ensures LiveAt(h, h', i) { OutsideLive(h, h', b, b + PAGE_WORDS, {}, i); }
  }
}
