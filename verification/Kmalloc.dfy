/** heap-allocator.c: the allocator's operations. */
module Kmalloc {
  import opened Words
  import opened HeapLayout
  import opened Heap

  /** ALIGN_UP */
  function AlignUp(x: nat): (r: nat)
    requires x < U32
    ensures r < U32 && r % 4 == 0
  {
    var y := Add32(x, 3);
    y - y % 4
  }

  /** The bytes of the block kmalloc looks for: payload, header and footer, at least a free header. */
  function BlockBytes(size: nat): (r: nat)
    requires size < U32
    ensures 12 <= r < U32 && r % 4 == 0
  {
    var b := Add32(AlignUp(size), 8);
    if b < 12 then 12 else b
  }

  function Want(size: nat): (n: nat)
    requires size < U32
    ensures n >= 3 && 4 * n == BlockBytes(size)
  {
    BlockBytes(size) / 4
  }

  /** The recursive call asks for the same block again. */
  lemma WantAgain(size: nat)
    requires size < U32
    ensures BlockBytes(size) - 8 < U32 && Want(BlockBytes(size) - 8) == Want(size)
  {
    var b := BlockBytes(size);
    assert (b - 8 + 3) % 4 == 3;
    assert AlignUp(b - 8) == b - 8;
  }

  /** A block of n words chosen for a request of size bytes holds them exactly when the request
      leaves room for header, footer and alignment below 2^32. */
  lemma BigEnough(size: nat, n: nat)
    requires size < U32 && Want(size) <= n < Want(size) + 3
    ensures 4 * (n - 2) >= size <==> size <= 0xFFFF_FFF4
  {
    if size <= 0xFFFF_FFF4 {
      assert AlignUp(size) >= size && AlignUp(size) <= 0xFFFF_FFF4;
    } else {
      assert BlockBytes(size) == 12;
    }
  }

  /** The block looked for is the shortest that holds the request with header and footer; past
      0xFFFFFFF4 bytes it is the shortest there is. */
  lemma WantLeast(size: nat, n: nat)
    requires size < U32
    ensures size <= 0xFFFF_FFF4 ==> (n >= Want(size) <==> n >= 3 && 4 * (n - 2) >= size)
    ensures size > 0xFFFF_FFF4 ==> Want(size) == 3
  {
    if size <= 0xFFFF_FFF4 {
      assert size <= AlignUp(size) < size + 4;
    } else {
      assert BlockBytes(size) == 12;
    }
  }

  /** Pages a block of n words can need. */
  function PagesFor(n: nat): nat { (n + PAGE_WORDS - 1) / PAGE_WORDS }

  /** The block before a, if its last word reads as a free tag, is free and this long. */
  lemma PrevFooter(h: Hp, a: nat) returns (p: nat)
    requires HeapOK(h) && a in h.tiles && a > 0
    ensures p in h.tiles && p + h.tiles[p] == a && a <= |h.w| && h.tiles[p] >= 3
    ensures Flagged(h.w[a - 1]) <==> p in h.free && h.tiles[p] > 3
    ensures Flagged(h.w[a - 1]) ==> SizeOf(h.w[a - 1]) == h.tiles[p]
  {
    p := BlockBefore(h.tiles, |h.w|, a);
    assert Placed(h.tiles, |h.w|, p) && Placed(h.tiles, |h.w|, a) && TagsOK(h, p, {});
    Decode(h.tiles[p], true);
  }

  lemma TagOf(h: Hp, i: nat, pending: set<nat>)
    requires Ok(h, pending) && i in h.tiles
    ensures i < |h.w| && h.tiles[i] >= 3 && i + h.tiles[i] <= |h.w|
    ensures h.w[i] == Tag(h.tiles[i], i in h.free) && Flagged(h.w[i]) == (i in h.free) && SizeOf(h.w[i]) == h.tiles[i]
    ensures i + h.tiles[i] < |h.w| ==> i + h.tiles[i] in h.tiles
  {
    assert TagsOK(h, i, pending) && Placed(h.tiles, |h.w|, i);
    Decode(h.tiles[i], i in h.free);
  }

  lemma LiveRefl(h: Hp)
    requires HeapOK(h)
    ensures LiveKept(h, h)
  {
    forall i | i in h.tiles && i !in h.free ensures LiveAt(h, h, i) { assert Placed(h.tiles, |h.w|, i); }
  }

  /** The last block is free and at least n words long. */
  ghost predicate Trails(h: Hp, n: nat)
  {
    exists i :: i in h.free && i in h.tiles && i + h.tiles[i] == |h.w| && h.tiles[i] >= n
  }

  /** The blocks in use. */
  ghost function Taken(h: Hp): set<nat> { h.tiles.Keys - h.free }

  /** What a successful call hands out: a block of its own, not in use before, and no other. */
  ghost predicate HandedAt(h: Hp, h': Hp, p: nat, want: nat, a: nat)
  {
    && p == 0xC100_0000 + 4 * a + 4 && a in h'.tiles && a !in h'.free && want <= h'.tiles[a] < want + 3
    && a !in Taken(h) && Taken(h') == Taken(h) + {a}
  }

  ghost predicate Handed(h: Hp, h': Hp, p: nat, want: nat) { exists a: nat :: HandedAt(h, h', p, want, a) }

  // ----- which blocks there are -----

  /** Block i, or that there is none, is as it was. */
  ghost predicate SameBlock(h: Hp, h': Hp, i: nat)
  {
    && (i in h'.tiles <==> i in h.tiles) && (i in h'.free <==> i in h.free)
    && (i in h.tiles && i in h'.tiles ==> h'.tiles[i] == h.tiles[i])
  }

  /** From h to h' the words p..p+n became one free block, and every other block is as it was. */
  ghost predicate Joined(h: Hp, h': Hp, p: nat, n: nat)
  {
    && |h'.w| == |h.w| && p in h'.free && p in h'.tiles && h'.tiles[p] == n
    && (forall i :: p < i < p + n ==> i !in h'.tiles)
    && forall i: nat {:trigger SameBlock(h, h', i)} :: i < p || p + n <= i ==> SameBlock(h, h', i)
  }

  /** Block a took in block b, which stood at place k of the list. */
  ghost predicate TookIn(h: Hp, h': Hp, a: nat, b: nat, k: nat)
  {
    && a in h.tiles && b in h.tiles && k < |h.fl| && h.fl[k] == b && |h'.w| == |h.w|
    && h'.tiles == (h.tiles - {b})[a := h.tiles[a] + h.tiles[b]] && h'.free == h.free - {b} && h'.fl == DropAt(h.fl, k)
  }

  /** Block p, free and with room for a footer, ends where block a starts. */
  ghost predicate LongBefore(h: Hp, a: nat, p: nat)
  {
    p in h.free && p in h.tiles && p + h.tiles[p] == a && h.tiles[p] > 3
  }

  /** Block a was given back: it is one free block with the free block before it if that is long
      enough, or else with the free block behind it, and it heads the list unless it joined the
      block before it. */
  ghost predicate Freed(h: Hp, h': Hp, a: nat)
  {
    && a in h.tiles
    && (forall p :: LongBefore(h, a, p) ==> Joined(h, h', p, h.tiles[p] + h.tiles[a]) && h'.fl == h.fl)
    && ((forall p :: !LongBefore(h, a, p)) ==>
          var b := a + h.tiles[a];
          if b in h.free && b in h.tiles
          then Joined(h, h', a, h.tiles[a] + h.tiles[b]) && exists k: nat :: Pulled(h.fl, h'.fl, k, b, a)
          else Joined(h, h', a, h.tiles[a]) && h'.fl == [a] + h.fl)
  }

  /** Block b went off the list at place k, and a to its head. */
  ghost predicate Pulled(fl: seq<nat>, fl': seq<nat>, k: nat, b: nat, a: nat)
  {
    k < |fl| && fl[k] == b && fl' == [a] + DropAt(fl, k)
  }

  /** The free block i, with room for a footer, ends the heap. */
  ghost predicate EndsFree(h: Hp, i: nat) { i in h.free && i in h.tiles && i + h.tiles[i] == |h.w| && h.tiles[i] > 3 }

  /** From h to h' the heap grew by m pages: they joined the free block at its end if that is long
      enough, and are a free block at the head of the list otherwise. */
  ghost predicate GrownBy(h: Hp, h': Hp, m: nat)
  {
    if m == 0 then h'.tiles == h.tiles && h'.free == h.free && h'.fl == h.fl && |h'.w| == |h.w| else
    && |h'.w| == |h.w| + 1024 * m
    && (forall i :: EndsFree(h, i) ==>
          h'.tiles == h.tiles[i := h.tiles[i] + 1024 * m] && h'.free == h.free && h'.fl == h.fl)
    && ((forall i :: !EndsFree(h, i)) ==>
          h'.tiles == h.tiles[|h.w| := 1024 * m] && h'.free == h.free + {|h.w|} && h'.fl == [|h.w|] + h.fl)
  }

  /** No free block has n words. */
  ghost predicate NoneFits(h: Hp, n: nat) { forall i :: i in h.free ==> i in h.tiles && h.tiles[i] < n }

  /** Every block before place k of the list is too short. */
  ghost predicate ShortBefore(h: Hp, n: nat, k: nat)
  {
    k <= |h.fl| && forall j :: 0 <= j < k ==> h.fl[j] in h.tiles && h.tiles[h.fl[j]] < n
  }

  /** Block a, at place k of the list, was taken; what it has beyond n words, if that makes a block,
      heads the list. */
  ghost predicate Carved(h: Hp, h': Hp, a: nat, n: nat, k: nat)
  {
    && k < |h.fl| && h.fl[k] == a && a in h.tiles && h.tiles[a] >= n && |h'.w| == |h.w|
    && if h.tiles[a] >= n + 3
       then h'.tiles == h.tiles[a := n][a + n := h.tiles[a] - n] && h'.free == h.free - {a} + {a + n}
            && h'.fl == [a + n] + DropAt(h.fl, k)
       else h'.tiles == h.tiles && h'.free == h.free - {a} && h'.fl == DropAt(h.fl, k)
  }

  /** After m pages more, one fewer of which would not do, block a of n words or hardly more is handed out. */
  ghost predicate Served(h: Hp, h': Hp, a: nat, n: nat, m: nat)
  {
    exists h1: Hp, k: nat :: ServedFrom(h, h1, h', a, n, m, k)
  }

  /** The block is the first on the list of h1 that has n words. */
  ghost predicate ServedFrom(h: Hp, h1: Hp, h': Hp, a: nat, n: nat, m: nat, k: nat)
  {
    GrownBy(h, h1, m) && NoSpare(h, h1, n, m) && ShortBefore(h1, n, k) && Carved(h1, h', a, n, k)
  }

  /** Of the m pages by which h grew to h1 none could be spared: before, no free block had n words,
      and the block the pages are in would have been too short with one fewer. */
  ghost predicate NoSpare(h: Hp, h1: Hp, n: nat, m: nat)
  {
    m > 0 ==> NoneFits(h, n) && forall i :: EndsFree(h1, i) ==> h1.tiles[i] < n + 1024
  }

  /** What happens to a heap: kmalloc hands out block a or fails, kfree of block a, and the owner of
      block a stores a word in it. */
  datatype Act = Got(a: nat) | Missed | Gave(a: nat) | Stored(a: nat, x: nat, v: nat)

  ghost predicate HeapStep(h: Hp, h': Hp, act: Act)
  {
    match act
    case Got(a) => HeapOK(h') && LiveKept(h, h') && a !in Taken(h) && Taken(h') == Taken(h) + {a}
    case Missed => HeapOK(h') && LiveKept(h, h') && Taken(h') == Taken(h)
    case Gave(a) => HeapOK(h') && LiveBut(h, h', a) && a in Taken(h) && Taken(h') == Taken(h) - {a} && Freed(h, h', a)
    case Stored(a, x, v) =>
      a in Taken(h) && a in h.tiles && a < x < a + h.tiles[a] - 1 && x < |h.w| && h' == h.(w := h.w[x := v])
  }

  /** What a call of kmalloc that returns p was. */
  function ActOf(p: nat): Act { if p < 4 then Missed else Got(Idx(p - 4)) }

  lemma StepFrom(h: Hp, h1: Hp, h': Hp, p: nat)
    requires LiveKept(h, h1) && Taken(h1) == Taken(h) && HeapStep(h1, h', ActOf(p))
    ensures HeapStep(h, h', ActOf(p))
  {
    hide Ok;
    LiveTrans(h, h1, h');
  }

  /** Nothing starts where the heap ends, or inside a block. */
  lemma NoStart(h: Hp, a: nat, x: nat)
    requires HeapOK(h)
    ensures |h.w| !in h.tiles && |h.w| !in h.free
    ensures a in h.tiles && a < x < a + h.tiles[a] ==> x !in h.tiles
  {
    assert |h.w| in h.tiles ==> Placed(h.tiles, |h.w|, |h.w|);
    if a in h.tiles && x in h.tiles && a != x { Disjoint(h.tiles, |h.w|, a, x); }
  }

  lemma EmptyList(h: Hp)
    requires HeapOK(h) && h.head == 0
    ensures h.free == {} && forall n :: !Trails(h, n)
  {
    LinkEven(h.fl, 0);
    assert forall i :: i in h.free ==> i in h.fl;
  }

  lemma HandedOut(h: Hp, h1: Hp, h': Hp, a: nat, want: nat)
    requires Taken(h1) == Taken(h) && a in h1.free && a in h'.tiles && a !in h'.free && want <= h'.tiles[a] < want + 3
    requires Taken(h') == Taken(h1) + {a}
    ensures Handed(h, h', Addr(a) + 4, want)
  {
    assert a !in Taken(h1);
    assert HandedAt(h, h', Addr(a) + 4, want, a);
  }

  lemma GotBlock(h: Hp, h1: Hp, h': Hp, a: nat)
    requires HeapOK(h') && LiveKept(h, h') && Taken(h1) == Taken(h) && a in h1.free && Taken(h') == Taken(h1) + {a}
    ensures HeapStep(h, h', ActOf(Addr(a) + 4))
  {
    AddrIdx(a);
  }

  lemma MissedBlock(h: Hp, h': Hp)
    requires HeapOK(h') && LiveKept(h, h') && Taken(h') == Taken(h)
    ensures HeapStep(h, h', ActOf(0))
  {
  }

  lemma HandedOn(h: Hp, h1: Hp, h': Hp, p: nat, want: nat)
    requires Taken(h1) == Taken(h) && Handed(h1, h', p, want)
    ensures Handed(h, h', p, want) && p >= 4
  {
    var a: nat :| HandedAt(h1, h', p, want, a);
    assert HandedAt(h, h', p, want, a);
  }

  /** A heap whose free blocks are all too short still needs pages for the request. */
  lemma TooShort(h: Hp, j: nat, want: nat)
    requires (j == 0 || Trails(h, PAGE_WORDS * j)) && NoneFits(h, want) && want > 0
    ensures j < PagesFor(want)
  {
    if j > 0 {
      var i :| i in h.free && i in h.tiles && i + h.tiles[i] == |h.w| && h.tiles[i] >= PAGE_WORDS * j;
    }
  }

  // ----- what memory alone says -----

  /** Some reading of the words as blocks and list is sound. */
  ghost predicate Sound(w: seq<nat>, head: nat)
  {
    exists tiles, free, fl :: HeapOK(Hp(w, head, tiles, free, fl))
  }

  lemma SoundIf(h: Hp)
    requires HeapOK(h)
    ensures Sound(h.w, h.head)
  {
  }

  /** Tags determine the blocks: a second reading h finds every block of tiles. */
  lemma SameTiles(h: Hp, tiles: map<nat, nat>, free: set<nat>, i: nat)
    requires HeapOK(h) && Tiled(tiles, |h.w|) && i in tiles
    requires forall j :: j in tiles ==> j < |h.w| && h.w[j] == Tag(tiles[j], j in free)
    ensures i in h.tiles && (i in h.free <==> i in free) && h.tiles[i] == tiles[i]
    decreases i
  {
    if i > 0 {
      var p := BlockBefore(tiles, |h.w|, i);
      SameTiles(h, tiles, free, p);
      assert Placed(h.tiles, |h.w|, p);
    }
    TagOf(h, i, {});
    Decode(tiles[i], i in free);
  }

  /** The links determine the list. */
  lemma {:induction false} SameList(w: seq<nat>, head: nat, fl: seq<nat>, gl: seq<nat>, k: nat)
    requires Links(w, head, fl) && Links(w, head, gl)
    ensures Link(fl, k) == Link(gl, k)
  {
    if k > 0 {
      SameList(w, head, fl, gl, k - 1);
      LinkEven(fl, k - 1);
      LinkEven(gl, k - 1);
      if k - 1 < |fl| { assert LinkedAt(w, fl, k - 1) && LinkedAt(w, gl, k - 1); }
    }
  }

  /** A block tagged free that the list does not hold spoils the heap for good. */
  lemma LostBlock(w: seq<nat>, head: nat, tiles: map<nat, nat>, free: set<nat>, fl: seq<nat>, x: nat)
    requires Tiled(tiles, |w|) && Links(w, head, fl) && x in tiles && x in free && x !in fl
    requires forall j :: j in tiles ==> j < |w| && w[j] == Tag(tiles[j], j in free)
    ensures !Sound(w, head)
  {
    if Sound(w, head) {
      var t, f, gl :| HeapOK(Hp(w, head, t, f, gl));
      SameTiles(Hp(w, head, t, f, gl), tiles, free, x);
      assert x in gl;
      var k :| 0 <= k < |gl| && gl[k] == x;
      SameList(w, head, fl, gl, k);
      LinkEven(fl, k);
      LinkEven(gl, k);
    }
  }

  /** A word past the free header inside block p is no link of any listed block. */
  lemma NoInnerLink(tiles: map<nat, nat>, len: nat, gl: seq<nat>, p: nat, x: nat)
    requires Tiled(tiles, len) && p in tiles && p + 3 <= x < p + tiles[p]
    requires forall k :: 0 <= k < |gl| ==> gl[k] in tiles
    ensures !IsLink(gl, x) && x !in tiles
  {
    forall k | 0 <= k < |gl| && gl[k] != p ensures gl[k] + 3 <= p || p + tiles[p] <= gl[k] {
      Disjoint(tiles, len, gl[k], p);
    }
    if x in tiles { Disjoint(tiles, len, x, p); }
  }

  /** Retagging the absorbed block a over block b touches no tag and no link. */
  lemma AbsorbedStands(h: Hp, w': seq<nat>, p: nat, a: nat, b: nat, m: nat)
    requires Ok(h, {b}) && p in h.tiles && p + 3 < a < b == p + h.tiles[p] && m >= 3 && a + m == b + h.tiles[b] <= |h.w|
    requires w' == Retag(h.w, a, m, true)
    ensures Links(w', h.head, h.fl)
    ensures forall j :: j in h.tiles ==> j < |w'| && w'[j] == Tag(h.tiles[j], j in h.free)
  {
    NoInnerLink(h.tiles, |h.w|, h.fl, p, a);
    NoHeaderLink(h.tiles, |h.w|, h.fl, b);
    forall j | j in h.tiles ensures j < |w'| && w'[j] == Tag(h.tiles[j], j in h.free) {
      assert TagsOK(h, j, {b}) && Placed(h.tiles, |h.w|, b);
      if j != b { Disjoint(h.tiles, |h.w|, j, b); }
    }
    forall k: nat | k < |h.fl| ensures LinkedAt(w', h.fl, k) {
      assert LinkedAt(h.w, h.fl, k);
      assert IsLink(h.fl, h.fl[k] + 1) && IsLink(h.fl, h.fl[k] + 2);
      assert Placed(h.tiles, |h.w|, b);
      assert !IsLink(h.fl, a + m - 1);
    }
  }

  /** Both neighbours of block a are free, the one before with room for its footer. */
  ghost predicate BothFree(h: Hp, a: nat)
  {
    a in h.tiles && a + h.tiles[a] in h.free && exists p :: LongBefore(h, a, p)
  }

  /** The payloads of two blocks in use have no word in common. */
  lemma PayloadsApart(h: Hp, i: nat, j: nat, x: nat)
    requires HeapOK(h) && i in h.tiles && j in h.tiles && i != j
    ensures !(i < x < i + h.tiles[i] - 1 && j < x < j + h.tiles[j] - 1)
  {
    Disjoint(h.tiles, |h.w|, i, j);
  }

  /** Two free blocks follow block a, one behind the other. */
  ghost predicate TwoFreeBehind(h: Hp, a: nat)
  {
    a in h.tiles && var b := a + h.tiles[a];
    b in h.free && b in h.tiles && b + h.tiles[b] in h.free
  }

  /** Block q is free and has word a in it. */
  ghost predicate FreeAround(h: Hp, a: nat, q: nat) { q in h.free && q in h.tiles && q <= a < q + h.tiles[q] }

  /** Behind a block given back there is no free block, unless it was followed by two: the code joins
      it with one only. */
  lemma FreedFollowed(h: Hp, h': Hp, a: nat, q: nat)
    requires HeapOK(h) && HeapStep(h, h', Gave(a)) && !BothFree(h, a) && FreeAround(h', a, q)
    ensures q + h'.tiles[q] in h'.free <==> TwoFreeBehind(h, a)
  {
    assert Placed(h.tiles, |h.w|, a);
    var b := a + h.tiles[a];
    if p :| LongBefore(h, a, p) {
      OnlyAround(h', a, p, q);
      assert SameBlock(h, h', b);
    } else {
      OnlyAround(h', a, a, q);
      if b in h.free {
        assert Placed(h.tiles, |h.w|, b);
        assert SameBlock(h, h', b + h.tiles[b]);
      } else {
        assert SameBlock(h, h', b);
      }
    }
  }

  lemma OnlyAround(h: Hp, a: nat, p: nat, q: nat)
    requires HeapOK(h) && FreeAround(h, a, p) && FreeAround(h, a, q)
    ensures p == q
  {
    if p != q { Disjoint(h.tiles, |h.w|, p, q); }
  }

  /** A block in use between two free ones, and one in use at the end */
  function Fourfold(): Hp
  {
    Hp([17, 0, Addr(7), 17, 12, 0, 12, 17, Addr(0), 0, 17, 12, 0, 12], Addr(7), map[0 := 4, 4 := 3, 7 := 4, 11 := 3],
       {0, 7}, [7, 0])
  }

  /** A sound heap in which two free blocks follow one in use. */
  lemma TwoFreeHappens() returns (h: Hp)
    ensures HeapOK(h) && 0 in h.tiles && 0 !in h.free && TwoFreeBehind(h, 0) && !BothFree(h, 0)
  {
    var w := [12, 0, 12, 17, Addr(7), 0, 17, 17, 0, Addr(3), 17, 12, 0, 12];
    h := Hp(w, Addr(3), map[0 := 3, 3 := 4, 7 := 4, 11 := 3], {3, 7}, [3, 7]);
    assert LinkedAt(w, h.fl, 0) && LinkedAt(w, h.fl, 1);
    assert Tagged(h, {}) by { assert TagsOK(h, 0, {}) && TagsOK(h, 3, {}) && TagsOK(h, 7, {}) && TagsOK(h, 11, {}); }
    assert Sep(h.fl, 0, 1) && Sep(h.fl, 1, 0);
    assert h.fl[0] == 3 && h.fl[1] == 7;
    assert ListIs(h.fl, h.free - {});
    assert Tiled(h.tiles, |w|);
  }

  lemma FourfoldTiled()
    ensures Tiled(Fourfold().tiles, |Fourfold().w|)
  {
  }

  lemma FourfoldTags()
    ensures Tagged(Fourfold(), {})
  {
    var h := Fourfold();
    assert TagsOK(h, 0, {}) && TagsOK(h, 4, {}) && TagsOK(h, 7, {}) && TagsOK(h, 11, {});
  }

  lemma FourfoldList()
    ensures Apart(Fourfold().fl) && ListIs(Fourfold().fl, Fourfold().free - {})
    ensures Links(Fourfold().w, Fourfold().head, Fourfold().fl)
  {
    var h := Fourfold();
    assert LinkedAt(h.w, h.fl, 0) && LinkedAt(h.w, h.fl, 1);
    assert Sep(h.fl, 0, 1) && Sep(h.fl, 1, 0);
    assert h.fl[0] == 7 && h.fl[1] == 0;
  }

  /** A sound heap in which a block in use lies between two free ones. */
  lemma BothFreeHappens() returns (h: Hp)
    ensures HeapOK(h) && 4 in h.tiles && 4 !in h.free && 4 + h.tiles[4] < |h.w| && BothFree(h, 4)
  {
    hide Tiled, Tagged, Apart, ListIs, Links;
    h := Fourfold();
    FourfoldTiled();
    FourfoldTags();
    FourfoldList();
    assert LongBefore(h, 4, 0);
  }

  /** Block p takes block a in. */
  lemma FreedBefore(h: Hp, h': Hp, a: nat, p: nat)
    requires HeapOK(h) && HeapOK(h') && a in h.tiles && a !in h.free && LongBefore(h, a, p) && |h'.w| == |h.w|
    requires h'.tiles == (h.tiles - {a})[p := h.tiles[p] + h.tiles[a]] && h'.free == h.free && h'.fl == h.fl
    ensures Freed(h, h', a)
  {
    assert Joined(h, h', p, h.tiles[p] + h.tiles[a]) by { JoinedBy(h, h', p, a); }
    forall p' | LongBefore(h, a, p') ensures p' == p { if p' != p { Disjoint(h.tiles, |h.w|, p', p); } }
  }

  /** Block a takes block b in, or is of that length anyway. */
  lemma JoinedBy(h: Hp, h': Hp, a: nat, b: nat)
    requires HeapOK(h) && HeapOK(h') && a in h.tiles && b in h.tiles && a + h.tiles[a] == b && |h'.w| == |h.w|
    requires h'.tiles == (h.tiles - {b})[a := h.tiles[a] + h.tiles[b]] && h'.free == h.free - {b} + {a}
    ensures Joined(h, h', a, h.tiles[a] + h.tiles[b])
  {
    var n := h.tiles[a] + h.tiles[b];
    assert Placed(h.tiles, |h.w|, a) && Placed(h.tiles, |h.w|, b);
    forall i | a < i < a + n ensures i !in h'.tiles { NoStart(h', a, i); }
    forall i: nat | i < a || a + n <= i ensures SameBlock(h, h', i) { }
  }

  lemma FreedAlone(h: Hp, h': Hp, a: nat)
    requires HeapOK(h) && HeapOK(h') && a in h.tiles && a !in h.free && |h'.w| == |h.w|
    requires (forall p :: !LongBefore(h, a, p)) && a + h.tiles[a] !in h.free
    requires h'.tiles == h.tiles && h'.free == h.free + {a} && h'.fl == [a] + h.fl
    ensures Freed(h, h', a)
  {
    forall i | a < i < a + h.tiles[a] ensures i !in h'.tiles { NoStart(h', a, i); }
    assert Placed(h.tiles, |h.w|, a);
    forall i: nat | i < a || a + h.tiles[a] <= i ensures SameBlock(h, h', i) { }
    assert Joined(h, h', a, h.tiles[a]);
  }

  /** Block a takes the free block behind it in. */
  lemma FreedBehind(h: Hp, h2: Hp, h': Hp, a: nat, k: nat)
    requires HeapOK(h) && HeapOK(h') && a in h.tiles && a !in h.free && (forall p :: !LongBefore(h, a, p))
    requires h2.tiles == h.tiles && h2.free == h.free + {a} && h2.fl == [a] + h.fl && |h2.w| == |h.w|
    requires a + h.tiles[a] in h.free && TookIn(h2, h', a, a + h.tiles[a], k)
    ensures Freed(h, h', a)
  {
    var b := a + h.tiles[a];
    assert Placed(h.tiles, |h.w|, a);
    assert h'.free == h.free - {b} + {a};
    JoinedBy(h, h', a, b);
    assert k > 0;
    assert Pulled(h.fl, h'.fl, k - 1, b, a);
  }

  /** Once on the list, block a joins the block before it or the one behind it. */
  lemma FreedBy(h: Hp, h2: Hp, h3: Hp, h': Hp, a: nat, p: nat, merged: bool, k: nat)
    requires HeapOK(h) && HeapOK(h') && a in h.tiles && a !in h.free && |h2.w| == |h.w| == |h3.w|
    requires h2.tiles == h.tiles && h2.free == h.free + {a} && h2.fl == [a] + h.fl
    requires a > 0 ==> p in h.tiles && p + h.tiles[p] == a
    requires merged <==> a > 0 && p in h2.free && h.tiles[p] > 3
    requires if merged then
               && h3.tiles == (h2.tiles - {a})[p := h2.tiles[p] + h2.tiles[a]] && h3.free == h2.free - {a}
               && h3.fl == DropAt(h2.fl, 0)
             else h3 == h2
    requires a + h.tiles[a] !in h3.free ==> h' == h3
    requires a + h.tiles[a] in h3.free ==> !merged && TookIn(h3, h', a, a + h.tiles[a], k)
    ensures Freed(h, h', a)
  {
    hide Freed;
    assert Placed(h.tiles, |h.w|, a);
    if a > 0 { assert Placed(h.tiles, |h.w|, p); }
    if merged {
      assert h3.free == h.free;
      FreedBefore(h, h', a, p);
    } else {
      forall q ensures !LongBefore(h, a, q) {
        if LongBefore(h, a, q) && q != p { Disjoint(h.tiles, |h.w|, p, q); }
      }
      if a + h.tiles[a] in h3.free { FreedBehind(h, h2, h', a, k); } else { FreedAlone(h, h', a); }
    }
  }

  /** A new page joins the free block before it. */
  lemma PageGrown(h: Hp, h2: Hp, h': Hp, p: nat, merged: bool)
    requires HeapOK(h) && |h2.w| == |h'.w| == |h.w| + PAGE_WORDS
    requires h2.tiles == h.tiles[|h.w| := PAGE_WORDS] && h2.free == h.free + {|h.w|} && h2.fl == [|h.w|] + h.fl
    requires |h.w| > 0 ==> p in h2.tiles && p + h2.tiles[p] == |h.w|
    requires merged <==> |h.w| > 0 && p in h2.free && h2.tiles[p] > 3
    requires if merged then
               && h'.tiles == (h2.tiles - {|h.w|})[p := h2.tiles[p] + h2.tiles[|h.w|]] && h'.free == h2.free - {|h.w|}
               && h'.fl == DropAt(h2.fl, 0)
             else h' == h2
    ensures GrownBy(h, h', 1)
  {
    NoStart(h, 0, 0);
    assert merged ==> EndsFree(h, p);
    forall i | EndsFree(h, i) ensures i == p && merged {
      assert Placed(h.tiles, |h.w|, i);
      if i != p { Disjoint(h.tiles, |h.w|, i, p); }
    }
    if merged { assert h'.tiles == h.tiles[p := h.tiles[p] + PAGE_WORDS] && h'.free == h.free; }
  }

  lemma GrownNone(h: Hp)
    ensures GrownBy(h, h, 0)
  {
  }

  lemma NoneFree(h: Hp, n: nat)
    requires h.free == {}
    ensures NoneFits(h, n)
  {
  }

  lemma GrownTwice(h: Hp, h1: Hp, h2: Hp, m: nat, m': nat)
    requires GrownBy(h, h1, m) && GrownBy(h1, h2, m')
    ensures GrownBy(h, h2, m + m')
  {
    if m > 0 && m' > 0 {
      GrownBoth(h, h1, h2, m, m');
    } else {
      forall i ensures m == 0 ==> (EndsFree(h, i) <==> EndsFree(h1, i)) { }
    }
  }

  lemma GrownBoth(h: Hp, h1: Hp, h2: Hp, m: nat, m': nat)
    requires GrownBy(h, h1, m) && GrownBy(h1, h2, m') && m > 0 && m' > 0
    ensures GrownBy(h, h2, m + m')
  {
    if i :| EndsFree(h, i) {
      forall i | EndsFree(h, i)
        ensures h2.tiles == h.tiles[i := h.tiles[i] + PAGE_WORDS * (m + m')] && h2.free == h.free && h2.fl == h.fl
      {
        assert EndsFree(h1, i);
      }
    } else {
      assert EndsFree(h1, |h.w|);
    }
  }

  lemma GrownFits(h: Hp, h1: Hp, m: nat, n: nat)
    requires HeapOK(h) && GrownBy(h, h1, m) && NoneFits(h1, n)
    ensures NoneFits(h, n)
  {
    NoStart(h, 0, 0);
    forall i | i in h.free ensures i in h.tiles && h.tiles[i] < n {
      if j :| m > 0 && EndsFree(h, j) { assert i in h1.free; } else { assert i in h1.free; }
    }
  }

  /** Where no block was long enough, the block with one page more is hardly too long. */
  lemma OneMorePage(h1: Hp, h2: Hp, n: nat, i: nat)
    requires HeapOK(h1) && HeapOK(h2) && GrownBy(h1, h2, 1) && NoneFits(h1, n) && n > 0 && EndsFree(h2, i)
    ensures h2.tiles[i] < n + PAGE_WORDS
  {
    if j :| EndsFree(h1, j) {
      assert EndsFree(h2, j);
      if i != j { Disjoint(h2.tiles, |h2.w|, i, j); }
    } else {
      assert EndsFree(h2, |h1.w|);
      if i != |h1.w| { Disjoint(h2.tiles, |h2.w|, i, |h1.w|); }
    }
  }

  lemma ServedNow(h: Hp, h1: Hp, h': Hp, a: nat, n: nat, m: nat, k: nat)
    requires HeapOK(h) && HeapOK(h1) && GrownBy(h, h1, m) && (m == 0 || (m == 1 && h.free == {})) && n > 0
    requires ShortBefore(h1, n, k) && Carved(h1, h', a, n, k)
    ensures Served(h, h', a, n, m)
  {
    hide Carved, ShortBefore, GrownBy;
    if m == 1 {
      NoneFree(h, n);
      forall i | EndsFree(h1, i) ensures h1.tiles[i] < n + PAGE_WORDS { OneMorePage(h, h1, n, i); }
    }
    assert ServedFrom(h, h1, h', a, n, m, k);
  }

  lemma ServedOn(h: Hp, h1: Hp, h2: Hp, h': Hp, a: nat, n: nat, m: nat, m': nat)
    requires HeapOK(h) && HeapOK(h1) && HeapOK(h2) && GrownBy(h, h1, m) && GrownBy(h1, h2, 1) && NoneFits(h1, n)
    requires n > 0
    requires Served(h2, h', a, n, m')
    ensures Served(h, h', a, n, m + 1 + m')
  {
    hide Carved, ShortBefore, GrownBy, Ok;
    var hx: Hp, k: nat :| ServedFrom(h2, hx, h', a, n, m', k);
    GrownTwice(h, h1, h2, m, 1);
    GrownTwice(h, h2, hx, m + 1, m');
    GrownFits(h, h1, m, n);
    forall i | EndsFree(hx, i) ensures hx.tiles[i] < n + PAGE_WORDS {
      if m' == 0 {
        SameEnds(h2, hx, i);
        OneMorePage(h1, h2, n, i);
      }
    }
    assert ServedFrom(h, hx, h', a, n, m + 1 + m', k);
  }

  lemma SameEnds(h: Hp, h': Hp, i: nat)
    requires GrownBy(h, h', 0) && EndsFree(h', i)
    ensures EndsFree(h, i) && h.tiles[i] == h'.tiles[i]
  {
  }

  lemma NeighboursFree(h: Hp, h2: Hp, a: nat, p: nat, merged: bool)
    requires HeapOK(h) && a in h.tiles && a !in h.free && h2.tiles == h.tiles && h2.free == h.free + {a}
    requires a > 0 ==> p in h.tiles && p + h.tiles[p] == a
    requires merged <==> a > 0 && p in h2.free && h.tiles[p] > 3
    ensures merged && a + h.tiles[a] in h2.free - {a} <==> BothFree(h, a)
    ensures merged ==> p + 3 < a && p != a
  {
    assert Placed(h.tiles, |h.w|, a);
    if a > 0 { assert Placed(h.tiles, |h.w|, p); }
    assert merged ==> LongBefore(h, a, p);
    if BothFree(h, a) {
      var q :| LongBefore(h, a, q);
      if q != p { Disjoint(h.tiles, |h.w|, p, q); }
    }
  }

  class Allocator {
    var w: seq<nat>      // the words from KHEAP_START to heap_max
    var head: nat        // free_list_head
    var pages: nat       // physical pages that can still be had
    ghost var tiles: map<nat, nat>
    ghost var free: set<nat>
    ghost var fl: seq<nat>

    /** Before the first page: an empty heap. */
    constructor (pages: nat)
      ensures HeapOK(S()) && this.pages == pages && w == []
    {
      w, head, this.pages := [], 0, pages;
      tiles, free, fl := map[], {}, [];
    }

    ghost function S(): Hp
      reads this
    { Hp(w, head, tiles, free, fl) }

    /** remove_free_block */
    method RemoveFree(a: nat, ghost k: nat, ghost pending: set<nat>)
      requires Ok(S(), pending) && k < |fl| && fl[k] == a
      modifies `w, `head, `fl
      ensures Ok(S(), pending + {a}) && LiveKept(old(S()), S()) && fl == DropAt(old(fl), k) && |w| == old(|w|)
      ensures OnlyLinks(old(w), w, old(fl))
    {
      ghost var h := S();
      CutLinks(w, head, fl, k, Link(fl, k - 1), Link(fl, k + 1));
      assert LinkedAt(w, fl, k);
      var prev, next := w[a + 2], w[a + 1];
      if prev != 0 {
        w := w[Idx(prev) + 1 := next];
      } else {
        head := next;
      }
      if next != 0 {
        w := w[Idx(next) + 2 := prev];
      }
      w := w[a + 1 := 0][a + 2 := 0];
      fl := DropAt(fl, k);
      CutOk(h, S(), pending, k, prev, next);
    }

    /** add_free_block */
    method AddFree(a: nat, ghost pending: set<nat>)
      requires Ok(S(), pending) && a in pending
      modifies `w, `head, `fl
      ensures Ok(S(), pending - {a}) && LiveKept(old(S()), S()) && fl == [a] + old(fl) && |w| == old(|w|)
    {
      ghost var h := S();
      TagOf(h, a, pending);
      ApartList(tiles, |w|, fl, a);
      PushLinks(w, head, fl, a);
      w := w[a + 1 := head];
      if head != 0 {
        w := w[Idx(head) + 2 := Addr(a)];
      }
      w := w[a + 2 := 0];
      head := Addr(a);
      fl := [a] + fl;
      PushOk(h, S(), pending, a);
    }

    /** SET_SIZE, SET_FREE and update_footer of coalesce_blocks. */
    method Absorb(a: nat, b: nat)
      requires Ok(S(), {b}) && a in free && a != b && a + tiles[a] == b
      modifies `w, `tiles, `free
      ensures HeapOK(S()) && LiveKept(old(S()), S()) && |w| == old(|w|)
      ensures tiles == (old(tiles) - {b})[a := old(tiles)[a] + old(tiles)[b]] && free == old(free) - {b}
      ensures forall x :: 0 <= x < |w| && x != a && x != a + tiles[a] - 1 ==> w[x] == old(w[x])
    {
      ghost var h := S();
      TagOf(h, a, {b});
      TagOf(h, b, {b});
      var n := SizeOf(w[a]) + SizeOf(w[b]);
      w := Retag(w, a, n, true);
      tiles, free := (tiles - {b})[a := n], free - {b};
      MergeOk(h, S(), a, b, n);
    }

    /** coalesce_blocks */
    method Coalesce(a: nat, b: nat, ghost k: nat)
      requires HeapOK(S()) && a in free && k < |fl| && fl[k] == b && a + tiles[a] == b
      modifies `w, `head, `fl, `tiles, `free
      ensures HeapOK(S()) && LiveKept(old(S()), S()) && |w| == old(|w|)
      ensures tiles == (old(tiles) - {b})[a := old(tiles)[a] + old(tiles)[b]] && free == old(free) - {b}
      ensures b < |w| && w[b] == old(w[b]) && Taken(S()) == Taken(old(S())) && fl == DropAt(old(fl), k)
    {
      ghost var h := S();
      TagOf(h, a, {});
      TagOf(h, b, {});
      NoHeaderLink(tiles, |w|, fl, b);
      RemoveFree(b, k, {});
      assert LinkOnly(h.w, w, h.fl, b);
      assert {} + {b} == {b};
      ghost var h1 := S();
      Absorb(a, b);
      LiveTrans(h, h1, S());
    }

    /** coalesce_with_prev, for the block just added in front of the list. */
    method CoalesceWithPrev(a: nat) returns (ghost p: nat, merged: bool)
      requires HeapOK(S()) && fl != [] && fl[0] == a
      modifies `w, `head, `fl, `tiles, `free
      ensures HeapOK(S()) && LiveKept(old(S()), S()) && |w| == old(|w|)
      ensures a > 0 ==> p in old(tiles) && p + old(tiles)[p] == a
      ensures merged <==> a > 0 && p in old(free) && old(tiles)[p] > 3
      ensures merged ==> tiles == (old(tiles) - {a})[p := old(tiles)[p] + old(tiles)[a]] && free == old(free) - {a}
      ensures merged ==> a < |w| && w[a] == old(w[a]) && fl == DropAt(old(fl), 0)
      ensures !merged ==> S() == old(S())
      ensures Taken(S()) == Taken(old(S()))
    {
      p, merged := 0, false;
      LiveRefl(S());
      if a == 0 { return; }
      p := PrevFooter(S(), a);
      if Flagged(w[a - 1]) {
        var prev := a - SizeOf(w[a - 1]);
        Coalesce(prev, a, 0);
        merged := true;
      }
    }

    /** coalesce_with_next of a free block that is not the last. */
    method CoalesceWithNext(a: nat) returns (ghost k: nat)
      requires HeapOK(S()) && a in free && a + tiles[a] < |w|
      modifies `w, `head, `fl, `tiles, `free
      ensures HeapOK(S()) && LiveKept(old(S()), S()) && |w| == old(|w|) && Taken(S()) == Taken(old(S()))
      ensures a + old(tiles)[a] !in old(free) ==> S() == old(S())
      ensures a + old(tiles)[a] in old(free) ==> TookIn(old(S()), S(), a, a + old(tiles)[a], k)
    {
      LiveRefl(S());
      TagOf(S(), a, {});
      var next := a + SizeOf(w[a]);
      TagOf(S(), next, {});
      k := 0;
      if Flagged(w[next]) {
        assert next in fl;
        k :| 0 <= k < |fl| && fl[k] == next;
        Coalesce(a, next, k);
      }
    }

    /** allocate_new_heap_page: one page more, merged into a free block that ends the heap. */
    method AllocatePage(ghost n: nat) returns (ok: bool)
      requires HeapOK(S()) && (n == 0 || (n > 3 && Trails(S(), n)))
      modifies this
      ensures HeapOK(S()) && LiveKept(old(S()), S()) && Taken(S()) == Taken(old(S()))
      ensures ok <==> old(pages) > 0
      ensures ok ==> pages == old(pages) - 1 && |w| == old(|w|) + PAGE_WORDS && Trails(S(), n + PAGE_WORDS)
      ensures ok ==> GrownBy(old(S()), S(), 1)
      ensures !ok ==> S() == old(S()) && pages == old(pages)
    {
      hide Joined, TookIn, LongBefore, Freed, Pulled, LiveKept, LiveBut, Tiled, Tagged, Links;
      ghost var h := S();
      LiveRefl(h);
      if pages == 0 { return false; }
      pages := pages - 1;
      var a := |w|;
      var page := seq(PAGE_WORDS, _ => 0);
      w := Fresh(w + page, a, PAGE_WORDS);
      tiles, free := tiles[a := PAGE_WORDS], free + {a};
      ghost var h1 := S();
      GrowOk(h, h1, page, a);
      NoStart(h, a, a);
      assert Taken(h1) == Taken(h);
      AddFree(a, {a});
      assert {a} - {a} == {};
      ghost var h2 := S();
      LiveTrans(h, h1, h2);
      var p, merged := CoalesceWithPrev(a);
      LiveTrans(h, h2, S());
      PageGrown(h, h2, S(), p, merged);
      if n > 0 {
        ghost var i :| i in h.free && i in h.tiles && i + h.tiles[i] == |h.w| && h.tiles[i] >= n;
        if p != i { Disjoint(h.tiles, |h.w|, i, p); }
        assert merged && tiles[p] >= n + PAGE_WORDS;
      } else {
        assert if merged then p + tiles[p] == |w| else a + tiles[a] == |w|;
      }
      return true;
    }

    /** The block found by the search: off the list, then whole or split. */
    method Take(a: nat, want: nat, ghost k: nat)
      requires HeapOK(S()) && k < |fl| && fl[k] == a && want >= 3 && tiles[a] >= want
      modifies `w, `head, `fl, `tiles, `free
      ensures HeapOK(S()) && LiveKept(old(S()), S()) && |w| == old(|w|)
      ensures a in tiles && a !in free && want <= tiles[a] < want + 3 && tiles[a] <= old(tiles)[a]
      ensures Taken(S()) == Taken(old(S())) + {a} && Carved(old(S()), S(), a, want, k)
    {
      ghost var h := S();
      TagOf(h, a, {});
      NoStart(h, a, a + want);
      var size := SizeOf(w[a]);
      RemoveFree(a, k, {});
      assert {} + {a} == {a};
      ghost var h1 := S();
      if size >= want + 3 {
        w := Fresh(Retag(w, a, want, false), a + want, size - want);
        tiles, free := tiles[a := want][a + want := size - want], free - {a} + {a + want};
        ghost var h2 := S();
        TakeSplit(h1, h2, a, want, size - want);
        LiveTrans(h, h1, h2);
        AddFree(a + want, {a + want});
        assert {a + want} - {a + want} == {};
        LiveTrans(h, h2, S());
      } else {
        w := Retag(w, a, size, false);
        free := free - {a};
        TakeWhole(h1, S(), a, size);
        LiveTrans(h, h1, S());
      }
    }

    /** The first block on the list that is long enough; 0 and !found when there is none. */
    method FirstFit(want: nat) returns (found: bool, a: nat, ghost k: nat)
      requires HeapOK(S())
      ensures found ==> k < |fl| && fl[k] == a && a in free && tiles[a] >= want && ShortBefore(S(), want, k)
      ensures !found ==> NoneFits(S(), want)
    {
      k := 0;
      var cur := head;
      LinkEven(fl, 0);
      while cur != 0
        invariant 0 <= k <= |fl| && cur == Link(fl, k)
        invariant forall j :: 0 <= j < k ==> fl[j] in tiles && tiles[fl[j]] < want
        decreases |fl| - k
      {
        LinkEven(fl, k);
        a := Idx(cur);
        TagOf(S(), a, {});
        if SizeOf(w[a]) >= want {
          return true, a, k;
        }
        assert LinkedAt(w, fl, k);
        cur := w[a + 1];
        k := k + 1;
      }
      LinkEven(fl, k);
      forall i | i in free ensures i in tiles && tiles[i] < want { assert i in fl; }
      return false, 0, k;
    }

    /** Every address of the heap, now and grown by all pages there are, has 32 bits. */
    predicate Fits()
      reads this
    {
      KHEAP_START + 4 * (|w| + PAGE_WORDS * pages) <= U32
    }

    /** kmalloc: a block long enough and nobody else's, with every block in use left as it is;
        it fails only when no page is left and no free block is long enough, and maps no page it
        could do without. The block is the first on the list that is long enough, cut to size. */
    method Kmalloc(size: nat, ghost k: nat) returns (p: nat)
      requires HeapOK(S()) && Fits() && size < U32 && (k == 0 || Trails(S(), PAGE_WORDS * k))
      modifies this
      decreases pages
      ensures HeapStep(old(S()), S(), ActOf(p)) && pages <= old(pages)
      ensures p == 0 ==> pages == 0 && GrownBy(old(S()), S(), old(pages)) && NoneFits(S(), Want(size))
      ensures p != 0 ==> Handed(old(S()), S(), p, Want(size))
      ensures p != 0 ==> Served(old(S()), S(), Idx(p - 4), Want(size), old(pages) - pages)
      ensures old(pages) - pages <= (if k < PagesFor(Want(size)) then PagesFor(Want(size)) - k else 0)
    {
      hide GrownBy, Served, NoneFits, ShortBefore, Carved, Ok, Trails, HeapStep, Handed, Taken, LiveKept, Want,
           BlockBytes, ActOf, Addr, Idx, AlignUp;
      ghost var h := S();
      var want := Want(size);
      LiveRefl(h);
      ghost var j, m := k, 0;
      GrownNone(h);
      if head == 0 {
        EmptyList(h);
        NoneFree(h, want);
        MissedBlock(h, h);
        var ok := AllocatePage(0);
        if !ok { return 0; }
        j, m := 1, 1;
      }
      ghost var h1 := S();
      var found, a, i := FirstFit(want);
      if found {
        Take(a, want, i);
        LiveTrans(h, h1, S());
        HandedOut(h, h1, S(), a, want);
        GotBlock(h, h1, S(), a);
        ServedNow(h, h1, S(), a, want, m, i);
        AddrIdx(a);
        return Addr(a) + 4;
      }
      TooShort(h1, j, want);
      var ok := AllocatePage(PAGE_WORDS * j);
      LiveTrans(h, h1, S());
      MissedBlock(h, S());
      if !ok { return 0; }
      ghost var h2 := S();
      WantAgain(size);
      GrownTwice(h, h1, h2, m, 1);
      ghost var left := pages;
      p := Kmalloc(BlockBytes(size) - 8, j + 1);
      if p != 0 {
        HandedOn(h, h2, S(), p, want);
        ServedOn(h, h1, h2, S(), Idx(p - 4), want, m, left - pages);
      } else {
        GrownTwice(h, h2, S(), m + 1, left);
      }
      StepFrom(h, h2, S(), p);
    }

    /** coalesce_with_next of a block that coalesce_with_prev has already absorbed: the next
        block leaves the list and the block before does not grow. */
    method CoalesceAbsorbed(a: nat, n: nat, ghost p: nat)
      requires HeapOK(S()) && p in tiles && p + 3 < a && a + n == p + tiles[p] && n >= 3
      requires a + n in free && a + n in tiles && a < |w| && w[a] == Tag(n, true)
      modifies `w, `head, `fl
      ensures !Sound(w, head)
    {
      ghost var h := S();
      var next := a + n;
      TagOf(h, next, {});
      TagOf(h, p, {});
      assert next in fl;
      ghost var k :| 0 <= k < |fl| && fl[k] == next;
      RemoveFree(next, k, {});
      NoInnerLink(tiles, |w|, h.fl, p, a);
      assert LinkOnly(h.w, w, h.fl, a);
      assert {} + {next} == {next};
      ghost var h1 := S();
      TagOf(h1, next, {next});
      Decode(n, true);
      var m := SizeOf(w[a]) + SizeOf(w[next]);
      w := Retag(w, a, m, true);
      AbsorbedStands(h1, w, p, a, next, m);
      LostBlock(w, head, tiles, free, fl, next);
    }

    /** coalesce_with_next(block), where the block may have been absorbed by the one before. */
    method CoalesceLast(a: nat, n: nat, merged: bool, ghost p: nat) returns (ghost k: nat)
      requires HeapOK(S()) && a + n < |w| && n >= 3 && w[a] == Tag(n, true)
      requires if merged then p in tiles && p + 3 < a && a + n ==
        p + tiles[p] else a in free && a in tiles && tiles[a] == n
      modifies `w, `head, `fl, `tiles, `free
      ensures merged && a + n in old(free) ==> !Sound(w, head)
      ensures !(merged && a + n in old(free)) ==> HeapOK(S()) && LiveKept(old(S()), S()) && |w| == old(|w|)
      ensures !(merged && a + n in old(free)) ==> Taken(S()) == Taken(old(S()))
      ensures a + n !in old(free) ==> S() == old(S())
      ensures !merged && a + n in old(free) ==> TookIn(old(S()), S(), a, a + n, k)
    {
      k := 0;
      LiveRefl(S());
      Decode(n, true);
      var next := a + SizeOf(w[a]);
      if merged { TagOf(S(), p, {}); } else { TagOf(S(), a, {}); }
      TagOf(S(), next, {});
      if Flagged(w[next]) {
        if merged {
          CoalesceAbsorbed(a, n, p);
        } else {
          k := CoalesceWithNext(a);
        }
      }
    }

    /** Set the free flag in header and footer and put the block on the list. */
    method Release(a: nat, n: nat)
      requires HeapOK(S()) && a in tiles && a !in free && n == tiles[a]
      modifies `w, `head, `fl, `free
      ensures HeapOK(S()) && LiveBut(old(S()), S(), a) && |w| == old(|w|) && free == old(free) + {a}
      ensures fl == [a] + old(fl) && Taken(S()) == Taken(old(S())) - {a}
    {
      hide Sound, BothFree, LiveBut, Ok;
      ghost var h := S();
      TagOf(h, a, {});
      w := Retag(w, a, n, true);
      free := free + {a};
      ghost var h1 := S();
      MarkOk(h, h1, a, n);
      AddFree(a, {a});
      assert {a} - {a} == {};
      LiveButTrans(h, h1, S(), a);
    }

    /** kfree of a block in use that is not the last: the heap stays sound exactly when not both
        neighbours are free, and then that block is free, one with a free neighbour, and every
        other block is as it was, with its payload if it is in use. */
    method Kfree(ptr: nat)
      requires HeapOK(S())
      requires ptr == 0 || (exists a :: a in tiles && a !in free && ptr == Addr(a) + 4 && a + tiles[a] < |w|)
      modifies `w, `head, `fl, `tiles, `free
      ensures ptr == 0 ==> S() == old(S())
      ensures forall a :: ptr == Addr(a) + 4 && a in old(tiles) ==> (Sound(w, head) <==> !BothFree(old(S()), a))
      ensures forall a :: ptr == Addr(a) + 4 && a in old(tiles) && !BothFree(old(S()), a) ==>
        HeapStep(old(S()), S(), Gave(a)) && |w| == old(|w|)
    {
      hide Sound, BothFree, LiveBut, Ok, Freed, TookIn;
      if ptr == 0 { return; }
      ghost var h := S();
      var a := Idx(ptr - 4);
      AddrIdx(a);
      ghost var b :| b in tiles && b !in free && ptr == Addr(b) + 4 && b + tiles[b] < |w|;
      AddrIdx(b);
      TagOf(h, a, {});
      var n := SizeOf(w[a]);
      Release(a, n);
      ghost var h2 := S();
      TagOf(h2, a, {});
      var p, merged := CoalesceWithPrev(a);
      ghost var h3 := S();
      LiveButTrans(h, h2, h3, a);
      NeighboursFree(h, h2, a, p, merged);
      ghost var k := CoalesceLast(a, n, merged, p);
      if !(merged && a + n in h3.free) {
        SoundIf(S());
        LiveButTrans(h, h3, S(), a);
        FreedBy(h, h2, h3, S(), a, p, merged, k);
      }
    }
  }

  // ----- runs of the heap -----

  ghost predicate HeapRun(hs: seq<Hp>, acts: seq<Act>)
  {
    |hs| == |acts| + 1 && HeapOK(hs[0]) && forall k: nat :: k < |acts| ==> HeapStep(hs[k], hs[k + 1], acts[k])
  }

  /** Block a was handed out before step k and not freed since. */
  ghost predicate Outstanding(acts: seq<Act>, k: nat, a: nat)
  {
    exists j: nat :: j < k && j < |acts| && acts[j] == Got(a) && Kept(acts, j + 1, k, a)
  }

  ghost predicate Kept(acts: seq<Act>, j: nat, k: nat, a: nat)
  {
    forall i: nat :: j <= i < k && i < |acts| ==> acts[i] != Gave(a)
  }

  lemma StepSound(h: Hp, h': Hp, act: Act)
    requires HeapOK(h) && HeapStep(h, h', act)
    ensures HeapOK(h')
  {
    hide Ok;
    if act.Stored? { PokeOk(h, h', act.a, act.x, act.v); }
  }

  lemma StepTaken(h: Hp, h': Hp, act: Act, a: nat)
    requires HeapStep(h, h', act)
    ensures a in Taken(h') <==> act == Got(a) || (a in Taken(h) && act != Gave(a))
  {
    hide Ok, LiveKept, LiveBut;
  }

  lemma OutstandingNext(acts: seq<Act>, k: nat, a: nat)
    requires k < |acts|
    ensures Outstanding(acts, k + 1, a) <==> acts[k] == Got(a) || (Outstanding(acts, k, a) && acts[k] != Gave(a))
  {
    if Outstanding(acts, k + 1, a) {
      var j: nat :| j < k + 1 && j < |acts| && acts[j] == Got(a) && Kept(acts, j + 1, k + 1, a);
      if j < k { assert Kept(acts, j + 1, k, a) && acts[k] != Gave(a); }
    }
    if acts[k] == Got(a) {
      assert Kept(acts, k + 1, k + 1, a);
    } else if Outstanding(acts, k, a) && acts[k] != Gave(a) {
      var j: nat :| j < k && j < |acts| && acts[j] == Got(a) && Kept(acts, j + 1, k, a);
      assert Kept(acts, j + 1, k + 1, a);
    }
  }

  /** Over any run from an empty heap the blocks in use are exactly those handed out and not freed,
      and the heap is sound throughout. */
  lemma {:induction false} RunInUse(hs: seq<Hp>, acts: seq<Act>, k: nat, a: nat)
    requires HeapRun(hs, acts) && Taken(hs[0]) == {} && k < |hs|
    ensures HeapOK(hs[k]) && (a in Taken(hs[k]) <==> Outstanding(acts, k, a))
  {
    hide Ok, HeapStep, Outstanding, Taken;
    if k > 0 {
      RunInUse(hs, acts, k - 1, a);
      StepSound(hs[k - 1], hs[k], acts[k - 1]);
      StepTaken(hs[k - 1], hs[k], acts[k - 1], a);
      OutstandingNext(acts, k - 1, a);
    } else {
      assert !Outstanding(acts, 0, a) by { NoneYet(acts, a); }
    }
  }

  lemma NoneYet(acts: seq<Act>, a: nat)
    ensures !Outstanding(acts, 0, a)
  {
  }

  /** What is at word x of block a, where v was, after what its owner stores in the steps from j to k */
  function LastStore(acts: seq<Act>, j: nat, k: nat, a: nat, x: nat, v: nat): nat
    requires k <= |acts|
  {
    if k <= j then v
    else if acts[k - 1].Stored? && acts[k - 1].a == a && acts[k - 1].x == x then acts[k - 1].v
    else LastStore(acts, j, k - 1, a, x, v)
  }

  /** From h to h', steps j to k of a run, block a keeps its place, its size, and what its owner put in it. */
  ghost predicate HeldAt(h: Hp, h': Hp, acts: seq<Act>, j: nat, k: nat, a: nat)
    requires k <= |acts|
  {
    && a in Taken(h') && a in h.tiles && a in h'.tiles && h'.tiles[a] == h.tiles[a]
    && a + h.tiles[a] <= |h.w| && a + h.tiles[a] <= |h'.w|
    && forall x :: a < x < a + h.tiles[a] - 1 ==> h'.w[x] == LastStore(acts, j, k, a, x, h.w[x])
  }

  lemma StepLive(h: Hp, h': Hp, act: Act, a: nat)
    requires HeapOK(h) && HeapStep(h, h', act) && a in Taken(h) && act != Gave(a)
    requires act.Stored? ==> act.a != a
    ensures LiveAt(h, h', a) && a in Taken(h')
  {
    StepTaken(h, h', act, a);
    if act.Stored? { PokeOk(h, h', act.a, act.x, act.v); }
  }

  lemma StepHeld(h: Hp, h1: Hp, h2: Hp, acts: seq<Act>, j: nat, k: nat, a: nat)
    requires j <= k < |acts| && acts[k] != Gave(a) && HeldAt(h, h1, acts, j, k, a)
    requires HeapOK(h1) && HeapStep(h1, h2, acts[k])
    ensures HeldAt(h, h2, acts, j, k + 1, a)
  {
    hide Ok;
    if !acts[k].Stored? || acts[k].a != a { StepLive(h1, h2, acts[k], a); }
  }

  lemma TakenHeld(h: Hp, acts: seq<Act>, k: nat, a: nat)
    requires HeapOK(h) && a in Taken(h) && k <= |acts|
    ensures HeldAt(h, h, acts, k, k, a)
  {
    hide Ok;
    LiveRefl(h);
    assert LiveAt(h, h, a);
  }

  /** From the call that hands it out until it is freed a block keeps its place, its size, and what
      is in it but for what its owner stores there. */
  lemma {:induction false} RunPayload(hs: seq<Hp>, acts: seq<Act>, j: nat, k: nat, a: nat)
    requires HeapRun(hs, acts) && Taken(hs[0]) == {} && j < k < |hs| && acts[j] == Got(a)
    requires Kept(acts, j + 1, k, a)
    ensures HeldAt(hs[j + 1], hs[k], acts, j + 1, k, a)
  {
    hide Ok, HeapStep, HeldAt, Outstanding, Taken;
    RunInUse(hs, acts, k, a);
    if k == j + 1 {
      StepTaken(hs[j], hs[k], acts[j], a);
      assert HeldAt(hs[k], hs[k], acts, k, k, a) by { TakenHeld(hs[k], acts, k, a); }
    } else {
      RunPayload(hs, acts, j, k - 1, a);
      RunInUse(hs, acts, k - 1, a);
      StepHeld(hs[j + 1], hs[k - 1], hs[k], acts, j + 1, k - 1, a);
    }
  }
}
