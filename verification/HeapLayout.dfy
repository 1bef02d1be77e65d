/** The kernel heap as words: blocks that tile it, boundary tags, and the intrusive free list. */
module HeapLayout {

  const KHEAP_START: nat := 0xC100_0000
  const PAGE_WORDS: nat := 1024

  /** The address of heap word i, and back. */
  function Addr(i: nat): nat { KHEAP_START + 4 * i }
  function Idx(p: nat): nat { if p < KHEAP_START then 0 else (p - KHEAP_START) / 4 }

  /** IS_FREE and GET_SIZE on a tag; sizes are multiples of four bytes, here counted in words. */
  predicate Flagged(v: nat) { v % 2 == 1 }
  function SizeOf(v: nat): nat { (v - v % 2) / 4 }
  function Tag(n: nat, free: bool): nat { 4 * n + if free then 1 else 0 }

  lemma Decode(n: nat, free: bool)
    ensures Flagged(Tag(n, free)) == free && SizeOf(Tag(n, free)) == n
  {
  }

  lemma AddrIdx(i: nat)
    ensures Idx(Addr(i)) == i && Addr(i) != 0 && !Flagged(Addr(i))
  {
  }

  /** A heap in memory, with the blocks, flags and list it represents. */
  datatype Hp = Hp(w: seq<nat>, head: nat, tiles: map<nat, nat>, free: set<nat>, fl: seq<nat>)

  // ----- tiling -----
  // The facts below are stated through small predicates that serve as triggers, so that a
  // proof uses them only for the blocks it names.

  /** Block i is well placed, and followed by another block or by the end. */
  ghost predicate Placed(tiles: map<nat, nat>, len: nat, i: nat)
  {
    i in tiles && tiles[i] >= 3 && i + tiles[i] <= len && (i + tiles[i] == len || i + tiles[i] in tiles)
  }

  /** Block i ends before block j starts. */
  ghost predicate Clear(tiles: map<nat, nat>, i: nat, j: nat)
  {
    i in tiles && i + tiles[i] <= j
  }

  /** Blocks of at least three words cover 0..len without gap or overlap. */
  ghost predicate Tiled(tiles: map<nat, nat>, len: nat)
  {
    && (len > 0 ==> 0 in tiles)
    && (forall i {:trigger Placed(tiles, len, i)} :: i in tiles ==> Placed(tiles, len, i))
    && (forall i, j {:trigger Clear(tiles, i, j)} :: i in tiles && j in tiles && i < j ==> Clear(tiles, i, j))
  }

  /** The block that ends where j starts. */
  lemma BlockBefore(tiles: map<nat, nat>, len: nat, j: nat) returns (i: nat)
    requires Tiled(tiles, len) && j > 0 && (j in tiles || j == len)
    ensures i in tiles && i + tiles[i] == j && i < j
  {
    if j in tiles { assert Placed(tiles, len, j); }
    i := 0;
    assert Placed(tiles, len, 0);
    if j in tiles { assert Clear(tiles, 0, j); }
    while i + tiles[i] < j
      invariant i in tiles && i < j && i + tiles[i] <= j && Placed(tiles, len, i)
      decreases j - i
    {
      i := i + tiles[i];
      assert Placed(tiles, len, i);
      if j in tiles { assert Clear(tiles, i, j); }
    }
  }

  /** Two blocks lie one before the other. */
  lemma Disjoint(tiles: map<nat, nat>, len: nat, i: nat, j: nat)
    requires Tiled(tiles, len) && i in tiles && j in tiles && i != j
    ensures i + tiles[i] <= j || j + tiles[j] <= i
    ensures tiles[i] >= 3 && tiles[j] >= 3 && i + tiles[i] <= len && j + tiles[j] <= len
  {
    assert Placed(tiles, len, i) && Placed(tiles, len, j);
    if i < j { assert Clear(tiles, i, j); } else { assert Clear(tiles, j, i); }
  }

  lemma TiledMerge(tiles: map<nat, nat>, len: nat, a: nat, b: nat)
    requires Tiled(tiles, len) && a in tiles && b in tiles && a + tiles[a] == b
    ensures Tiled((tiles - {b})[a := tiles[a] + tiles[b]], len)
  {
    var t := (tiles - {b})[a := tiles[a] + tiles[b]];
    assert Placed(tiles, len, a) && Placed(tiles, len, b);
    forall i | i in t ensures Placed(t, len, i) {
      assert Placed(tiles, len, i);
      if i != a && i + tiles[i] == b { Disjoint(tiles, len, i, a); }
    }
    forall i, j | i in t && j in t && i < j ensures Clear(t, i, j) {
      assert Clear(tiles, i, j);
      if i == a { assert Clear(tiles, b, j); }
    }
  }

  lemma TiledSplit(tiles: map<nat, nat>, len: nat, a: nat, n: nat)
    requires Tiled(tiles, len) && a in tiles && 3 <= n && n + 3 <= tiles[a]
    ensures a + n !in tiles && Tiled(tiles[a := n][a + n := tiles[a] - n], len)
  {
    var b, t := a + n, tiles[a := n][a + n := tiles[a] - n];
    assert Placed(tiles, len, a);
    if b in tiles { Disjoint(tiles, len, a, b); }
    forall i | i in t ensures Placed(t, len, i) { SplitPlaced(tiles, len, a, n, i); }
    forall i, j | i in t && j in t && i < j ensures Clear(t, i, j) { SplitClear(tiles, len, a, n, i, j); }
  }

  lemma SplitPlaced(tiles: map<nat, nat>, len: nat, a: nat, n: nat, i: nat)
    requires Tiled(tiles, len) && a in tiles && 3 <= n && n + 3 <= tiles[a] && a + n !in tiles
    requires i in tiles || i == a + n
    ensures Placed(tiles[a := n][a + n := tiles[a] - n], len, i)
  {
    assert Placed(tiles, len, a) && (i != a + n ==> Placed(tiles, len, i));
  }

  lemma SplitClear(tiles: map<nat, nat>, len: nat, a: nat, n: nat, i: nat, j: nat)
    requires Tiled(tiles, len) && a in tiles && 3 <= n && n + 3 <= tiles[a] && a + n !in tiles
    requires (i in tiles || i == a + n) && (j in tiles || j == a + n) && i < j
    ensures Clear(tiles[a := n][a + n := tiles[a] - n], i, j)
  {
    if i in tiles && j in tiles {
      assert Clear(tiles, i, j);
    } else if i == a + n {
      assert Clear(tiles, a, j);
    } else if i != a {
      Disjoint(tiles, len, i, a);
    }
  }

  lemma TiledGrow(tiles: map<nat, nat>, len: nat, n: nat)
    requires Tiled(tiles, len) && n >= 3
    ensures len !in tiles && Tiled(tiles[len := n], len + n)
  {
    var t := tiles[len := n];
    assert forall i :: i in tiles ==> Placed(tiles, len, i) && i + 3 <= len;
    forall i | i in t ensures Placed(t, len + n, i) { assert i != len ==> Placed(tiles, len, i); }
    forall i, j | i in t && j in t && i < j ensures Clear(t, i, j) {
      assert i in tiles && j in tiles ==> Clear(tiles, i, j);
      assert i in tiles ==> Placed(tiles, len, i);
    }
  }

  // ----- the free list -----

  function Link(fl: seq<nat>, k: int): nat { if 0 <= k < |fl| then Addr(fl[k]) else 0 }

  /** Blocks far enough apart that their headers do not overlap. */
  ghost predicate Sep(fl: seq<nat>, j: nat, k: nat)
  {
    j < |fl| && k < |fl| && (fl[j] + 3 <= fl[k] || fl[k] + 3 <= fl[j])
  }

  ghost predicate Apart(fl: seq<nat>)
  {
    forall j: nat, k: nat {:trigger Sep(fl, j, k)} :: j < |fl| && k < |fl| && j != k ==> Sep(fl, j, k)
  }

  /** next_free and prev_free of block k of the list. */
  ghost predicate LinkedAt(w: seq<nat>, fl: seq<nat>, k: nat)
  {
    && k < |fl| && fl[k] + 3 <= |w|
    && w[fl[k] + 1] == Link(fl, k + 1) && w[fl[k] + 2] == Link(fl, k - 1)
  }

  /** next_free and prev_free string the blocks of fl into one list from head. */
  ghost predicate Links(w: seq<nat>, head: nat, fl: seq<nat>)
  {
    && head == Link(fl, 0)
    && forall k: nat {:trigger LinkedAt(w, fl, k)} :: k < |fl| ==> LinkedAt(w, fl, k)
  }

  ghost predicate ListIs(fl: seq<nat>, s: set<nat>)
  {
    (forall k :: 0 <= k < |fl| ==> fl[k] in s) && (forall i {:trigger i in fl} :: i in s ==> i in fl)
  }

  // ----- the whole -----

  /** The last word of a block: its tag again when it is free and has room for one, and never
      a word that reads as free otherwise. */
  ghost predicate FooterOK(h: Hp, i: nat)
  {
    i in h.tiles && var e := i + h.tiles[i];
    0 < e <= |h.w| && i < |h.w| && if i in h.free && h.tiles[i] > 3 then h.w[e - 1] == h.w[i] else !Flagged(h.w[e - 1])
  }

  /** Tag and footer of block i are right; a pending block of three words has no room for both
      a footer and its links. */
  ghost predicate TagsOK(h: Hp, i: nat, pending: set<nat>)
  {
    && i in h.tiles && i < |h.w| && h.w[i] == Tag(h.tiles[i], i in h.free)
    && ((i in pending && h.tiles[i] == 3) || FooterOK(h, i))
  }

  ghost predicate Tagged(h: Hp, pending: set<nat>)
  {
    forall i {:trigger TagsOK(h, i, pending)} :: i in h.tiles ==> TagsOK(h, i, pending)
  }

  /** The heap is sound but for blocks in `pending`, flagged free and not on the list. */
  ghost predicate Ok(h: Hp, pending: set<nat>)
  {
    && Tiled(h.tiles, |h.w|) && h.free <= h.tiles.Keys && pending <= h.free
    && Apart(h.fl) && ListIs(h.fl, h.free - pending)
    && Tagged(h, pending) && Links(h.w, h.head, h.fl)
  }

  ghost predicate HeapOK(h: Hp) { Ok(h, {}) }

  /** Block i is in use, and has the same place, size and payload in h'. */
  ghost predicate LiveAt(h: Hp, h': Hp, i: nat)
  {
    && i in h.tiles && i in h'.tiles && h'.tiles[i] == h.tiles[i] && i !in h'.free
    && i + h.tiles[i] <= |h.w| && i + h.tiles[i] <= |h'.w|
    && forall k :: i < k < i + h.tiles[i] - 1 ==> h'.w[k] == h.w[k]
  }

  /** Blocks in use keep their place, size and payload. */
  ghost predicate LiveKept(h: Hp, h': Hp)
  {
    forall i {:trigger LiveAt(h, h', i)} :: i in h.tiles && i !in h.free ==> LiveAt(h, h', i)
  }

  /** All blocks in use but a do. */
  ghost predicate LiveBut(h: Hp, h': Hp, a: nat)
  {
    forall i {:trigger LiveAt(h, h', i)} :: i in h.tiles && i !in h.free && i != a ==> LiveAt(h, h', i)
  }

  lemma LiveTrans(h: Hp, h1: Hp, h2: Hp)
    requires LiveKept(h, h1) && LiveKept(h1, h2)
    ensures LiveKept(h, h2)
  {
    forall i | i in h.tiles && i !in h.free ensures LiveAt(h, h2, i) {
      assert LiveAt(h, h1, i) && LiveAt(h1, h2, i);
    }
  }

  lemma LiveButTrans(h: Hp, h1: Hp, h2: Hp, a: nat)
    requires LiveBut(h, h1, a) && LiveKept(h1, h2)
    ensures LiveBut(h, h2, a)
  {
    forall i | i in h.tiles && i !in h.free && i != a ensures LiveAt(h, h2, i) {
      assert LiveAt(h, h1, i) && LiveAt(h1, h2, i);
    }
  }
}
