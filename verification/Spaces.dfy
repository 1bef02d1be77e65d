/** vmm.c: mapping pages and creating address spaces through the recursive windows. */
module Spaces {
  import opened Words
  import opened Paging

  /** What a page frame holding page tables is for. */
  datatype Role = Directory | UserTable(dir: nat, slot: nat) | KernelTable(slot: nat)

  /** The address spaces of the machine; kpde are the kernel's directory entries. */
  datatype Mm = Mm(mem: Mem, cur: nat, spaces: set<nat>, role: map<nat, Role>, kpde: seq<nat>)

  ghost predicate IsPage(mem: Mem, f: nat) { f in mem && |mem[f]| == ENTRIES }

  ghost predicate RolePages(m: Mm) { forall f :: f in m.role ==> IsPage(m.mem, f) }

  /** Each kernel slot has its own table. */
  ghost predicate KernelTables(m: Mm)
  {
    |m.kpde| == ENTRIES && forall i :: KERNEL <= i < SCRATCH ==>
      && Present(m.kpde[i]) && FrameOf(m.kpde[i]) in m.role && m.role[FrameOf(m.kpde[i])] == KernelTable(i)
      && !ForUser(m.kpde[i]) && Writable(m.kpde[i])
  }

  /** Directory a maps itself, out of user mode's reach, shares the kernel half, and owns its user half's tables. */
  ghost predicate SpaceOK(m: Mm, a: nat)
  {
    && a in m.role && m.role[a] == Directory && SelfMapped(m.mem, a) && !ForUser(Word(m.mem, a, SELF))
    && |m.kpde| == ENTRIES
    && (forall i: nat :: KERNEL <= i < SCRATCH ==> Word(m.mem, a, i) == m.kpde[i])
    && (forall i: nat :: i < KERNEL && Present(Word(m.mem, a, i)) ==>
          && FrameOf(Word(m.mem, a, i)) in m.role && m.role[FrameOf(Word(m.mem, a, i))] == UserTable(a, i)
          && ForUser(Word(m.mem, a, i)) && Writable(Word(m.mem, a, i)))
  }

  ghost predicate SpacesOK(m: Mm)
  {
    && m.cur in m.spaces && RolePages(m) && KernelTables(m)
    && forall a :: a in m.spaces ==> SpaceOK(m, a)
  }

  /** The kernel half translates identically in every space. */
  lemma KernelShared(m: Mm, a: nat, b: nat, d: nat, t: nat)
    requires SpacesOK(m) && a in m.spaces && b in m.spaces && KERNEL <= d < SCRATCH
    ensures PageOf(m.mem, a, d, t) == PageOf(m.mem, b, d, t)
  {
    assert SpaceOK(m, a) && SpaceOK(m, b);
  }

  // ----- single words -----

  lemma PutWord(mem: Mem, f: nat, i: nat, x: nat, f': nat, i': nat)
    requires IsPage(mem, f) && i < ENTRIES
    ensures Word(Put(mem, f, i, x), f', i') == if f' == f && i' == i then x else Word(mem, f', i')
    ensures IsPage(mem, f') ==> IsPage(Put(mem, f, i, x), f')
  {
  }

  /** From m to m' the spaces in `who` have page p at slot d, entry t, and every other page of
      the user half and the kernel half of every space is as before. */
  ghost predicate Remapped(m: Mm, m': Mm, who: set<nat>, d: nat, t: nat, p: Page)
  {
    forall a, d': nat, t': nat {:trigger PageOf(m'.mem, a, d', t')} :: a in m.spaces && d' < SCRATCH && t' < ENTRIES ==>
      PageOf(m'.mem, a, d', t') == if a in who && d' == d && t' == t then Some(p) else PageOf(m.mem, a, d', t')
  }

  /** A page of user mode, and one of the kernel */
  function UserPage(f: nat): Page { Page(f, true, true, false) }
  function KernelPage(f: nat): Page { Page(f, false, true, true) }

  /** The table a space uses at slot d. */
  lemma TableRole(m: Mm, a: nat, d: nat)
    requires SpacesOK(m) && a in m.spaces && d < SCRATCH && Present(Word(m.mem, a, d))
    ensures FrameOf(Word(m.mem, a, d)) in m.role
    ensures m.role[FrameOf(Word(m.mem, a, d))] == if d < KERNEL then UserTable(a, d) else KernelTable(d)
  {
    assert SpaceOK(m, a);
  }

  /** Writing entry t of a page table leaves all directories sound. */
  lemma TableWrite(m: Mm, m': Mm, g: nat, t: nat, x: nat)
    requires SpacesOK(m) && g in m.role && m.role[g] != Directory && t < ENTRIES && m' == m.(mem := Put(m.mem, g, t, x))
    ensures SpacesOK(m')
    ensures forall a, i: nat {:trigger Word(m'.mem, a, i)} :: a in m.spaces ==> Word(m'.mem, a, i) == Word(m.mem, a, i)
  {
    assert IsPage(m.mem, g);
    forall a, i: nat | a in m.spaces ensures Word(m'.mem, a, i) == Word(m.mem, a, i) {
      assert SpaceOK(m, a);
      PutWord(m.mem, g, t, x, a, i);
    }
    forall f | f in m.role ensures IsPage(m'.mem, f) { PutWord(m.mem, g, t, x, f, 0); }
    forall a | a in m.spaces ensures SpaceOK(m', a) { assert SpaceOK(m, a); }
  }

  /** The page behind a user table's entry with those flags */
  function PutPage(f: nat, flags: nat): Page { Page(f, ForUser(flags), Writable(flags), IsGlobal(flags)) }

  /** Setting the entry of page (d, t) in a user table of the current space. */
  lemma UserEntry(m: Mm, m': Mm, d: nat, t: nat, f: nat, flags: nat)
    requires SpacesOK(m) && UserPut(m, m', d, t, f, flags)
    ensures SpacesOK(m') && Remapped(m, m', {m.cur}, d, t, PutPage(f, flags))
  {
    var g := FrameOf(Word(m.mem, m.cur, d));
    TableRole(m, m.cur, d);
    TableWrite(m, m', g, t, Entry(f, flags));
    EntryParts(f, flags);
    forall a, d': nat, t': nat | a in m.spaces && d' < SCRATCH && t' < ENTRIES
      ensures PageOf(m'.mem, a, d', t') ==
        if a == m.cur && d' == d && t' == t then Some(PutPage(f, flags)) else PageOf(m.mem, a, d', t')
    {
      assert SpaceOK(m, a);
      assert Word(m'.mem, a, d') == Word(m.mem, a, d');
      if Present(Word(m.mem, a, d')) {
        TableRole(m, a, d');
        assert IsPage(m.mem, g);
        PutWord(m.mem, g, t, Entry(f, flags), FrameOf(Word(m.mem, a, d')), t');
      }
    }
  }

  /** Setting the entry of page (d, t) in a kernel table: every space sees it. */
  lemma KernelEntry(m: Mm, m': Mm, d: nat, t: nat, f: nat)
    requires SpacesOK(m) && KernelPut(m, m', d, t, f)
    ensures SpacesOK(m') && Remapped(m, m', m.spaces, d, t, KernelPage(f))
  {
    var g, flags := FrameOf(m.kpde[d]), KERNEL_FLAGS;
    TableWrite(m, m', g, t, Entry(f, flags));
    EntryParts(f, flags);
    forall a, d': nat, t': nat | a in m.spaces && d' < SCRATCH && t' < ENTRIES
      ensures PageOf(m'.mem, a, d', t') == if d' == d && t' == t then Some(KernelPage(f)) else PageOf(m.mem, a, d', t')
    {
      assert SpaceOK(m, a);
      assert Word(m'.mem, a, d') == Word(m.mem, a, d');
      if Present(Word(m.mem, a, d')) {
        TableRole(m, a, d');
        assert IsPage(m.mem, g);
        PutWord(m.mem, g, t, Entry(f, flags), FrameOf(Word(m.mem, a, d')), t');
      }
    }
  }

  // ----- what each call does to memory -----

  const KERNEL_FLAGS: nat := PRESENT + RW + GLOBAL
  const USER_FLAGS: nat := PRESENT + RW + USER

  /** One entry of the kernel table behind slot d. */
  ghost predicate KernelPut(m: Mm, m': Mm, d: nat, t: nat, f: nat)
  {
    && KERNEL <= d < SCRATCH && t < ENTRIES && d < |m.kpde|
    && m' == m.(mem := Put(m.mem, FrameOf(m.kpde[d]), t, Entry(f, KERNEL_FLAGS)))
  }

  /** One entry of the current space's own table behind slot d. */
  ghost predicate UserPut(m: Mm, m': Mm, d: nat, t: nat, f: nat, flags: nat)
  {
    && d < KERNEL && t < ENTRIES && Present(Word(m.mem, m.cur, d)) && flags in {USER_FLAGS, KERNEL_FLAGS}
    && m' == m.(mem := Put(m.mem, FrameOf(Word(m.mem, m.cur, d)), t, Entry(f, flags)))
  }

  /** A fresh frame n, zeroed, as the table behind a slot d the current space did not use. */
  ghost predicate Hung(m: Mm, m': Mm, d: nat, n: nat)
  {
    && d < KERNEL && !Present(Word(m.mem, m.cur, d)) && n !in m.role && IsPage(m.mem, n) && IsPage(m'.mem, n)
    && OnePage(Put(m.mem, m.cur, d, Entry(n, USER_FLAGS)), m'.mem, n, m'.mem[n])
    && (forall i :: 0 <= i < ENTRIES ==> m'.mem[n][i] == 0)
    && m' == m.(mem := m'.mem, role := m.role[n := UserTable(m.cur, d)])
  }

  /** A fresh frame n as a directory: no user half, the current kernel half, itself in the last
      slot; the scratch slot of the current directory is cleared. */
  ghost predicate Made(m: Mm, m': Mm, n: nat)
  {
    && n !in m.role && IsPage(m.mem, n) && IsPage(m'.mem, n)
    && OnePage(Put(m.mem, m.cur, SCRATCH, 0), m'.mem, n, m'.mem[n])
    && (forall i :: 0 <= i < SCRATCH ==> m'.mem[n][i] == if i < KERNEL then 0 else Word(m.mem, m.cur, i))
    && m'.mem[n][SELF] == Entry(n, KERNEL_FLAGS)
    && m' == m.(mem := m'.mem, spaces := m.spaces + {n}, role := m.role[n := Directory])
  }

  /** A call of map, create or switch. */
  ghost predicate VmStep(m: Mm, m': Mm)
  {
    || m' == m
    || (m'.cur in m.spaces && m' == m.(cur := m'.cur))
    || (exists d, t, f: nat :: KernelPut(m, m', d, t, f))
    || (exists d, t, f, flags: nat :: UserPut(m, m', d, t, f, flags))
    || (exists m1, n, d, t, f: nat :: Hung(m, m1, d, n) && UserPut(m1, m', d, t, f, USER_FLAGS))
    || (exists n: nat :: Made(m, m', n))
  }

  /** Nothing is mapped differently. */
  ghost predicate SamePages(m: Mm, m': Mm)
  {
    forall a, d: nat, t: nat {:trigger PageOf(m'.mem, a, d, t)} :: a in m.spaces && d < SCRATCH && t < ENTRIES ==>
      PageOf(m'.mem, a, d, t) == PageOf(m.mem, a, d, t)
  }

  /** mem' is mem but for page n, which holds p. */
  ghost predicate OnePage(mem: Mem, mem': Mem, n: nat, p: seq<nat>)
  {
    mem'.Keys == mem.Keys && n in mem && mem'[n] == p && forall f :: f in mem && f != n ==> mem'[f] == mem[f]
  }

  /** An empty table hung on a free user slot of the current space maps nothing yet. */
  lemma TableHung(m: Mm, m': Mm, d: nat, n: nat)
    requires SpacesOK(m) && Hung(m, m', d, n)
    ensures SpacesOK(m') && SamePages(m, m') && Word(m'.mem, m.cur, d) == Entry(n, USER_FLAGS)
  {
    var flags := USER_FLAGS;
    EntryParts(n, flags);
    assert SpaceOK(m, m.cur);
    forall f, i: nat | f != n
      ensures Word(m'.mem, f, i) == if f == m.cur && i == d then Entry(n, flags) else Word(m.mem, f, i)
    {
      PutWord(m.mem, m.cur, d, Entry(n, flags), f, i);
    }
    forall f | f in m'.role ensures IsPage(m'.mem, f) { PutWord(m.mem, m.cur, d, Entry(n, flags), f, 0); }
    forall a | a in m.spaces ensures SpaceOK(m', a) { assert SpaceOK(m, a); }
    forall a, d': nat, t': nat | a in m.spaces && d' < SCRATCH && t' < ENTRIES
      ensures PageOf(m'.mem, a, d', t') == PageOf(m.mem, a, d', t')
    {
      assert SpaceOK(m, a);
      if Present(Word(m.mem, a, d')) { TableRole(m, a, d'); }
    }
  }

  /** User mode may read and write the page it is given. */
  lemma MappedForUser(m: Mm, m': Mm, v: nat, f: nat)
    requires v < U32 && Pd(v) < SCRATCH && m.cur in m.spaces && Remapped(m, m', {m.cur}, Pd(v), Pt(v), UserPage(f))
    ensures UserMay(m'.mem, m.cur, v) && Translate(m'.mem, m.cur, v) == Some(0x1000 * f + Off(v))
  {
  }

  // ----- the code -----

  class Mmu {
    var mem: Mem
    var cr3: nat           // the frame of the current directory
    var avail: seq<nat>    // frames pmm_alloc_page will hand out, in order
    ghost var spaces: set<nat>
    ghost var role: map<nat, Role>
    ghost var kpde: seq<nat>

    ghost function M(): Mm
      reads this
    { Mm(mem, cr3, spaces, role, kpde) }

    /** Frames to be handed out are real, distinct, and not page tables; frame 0 is never one. */
    ghost predicate FreshFrames()
      reads this
    {
      && (forall k :: 0 <= k < |avail| ==> avail[k] != 0 && avail[k] !in role && IsPage(mem, avail[k]))
      && (forall j, k :: 0 <= j < k < |avail| ==> avail[j] != avail[k])
    }

    ghost predicate Ok()
      reads this
    { SpacesOK(M()) && FreshFrames() }

    /** pmm_alloc_page */
    method AllocFrame() returns (n: nat)
      requires Ok()
      modifies `avail
      ensures Ok()
      ensures n == 0 <==> old(avail) == []
      ensures n != 0 ==> n == old(avail)[0] && avail == old(avail)[1..] && n !in role && IsPage(mem, n) && n !in avail
      ensures n == 0 ==> avail == []
    {
      if |avail| == 0 { return 0; }
      n := avail[0];
      avail := avail[1..];
    }

    /** vmm_map_kernel_page of any address: the entry the walk of v uses is set, if v has a table at
        all. In the kernel half that maps the page in every space, in the user half in the current
        one; behind the last slot the table is the directory itself. */
    method MapKernelPage(v: nat, f: nat)
      requires Ok() && v < U32
      modifies `mem
      ensures Present(Word(old(mem), cr3, Pd(v))) ==>
        mem == Put(old(mem), FrameOf(Word(old(mem), cr3, Pd(v))), Pt(v), Entry(f, KERNEL_FLAGS))
      ensures !Present(Word(old(mem), cr3, Pd(v))) ==> mem == old(mem)
      ensures Pd(v) < SCRATCH ==> Ok() && VmStep(old(M()), M())
      ensures Pd(v) < SCRATCH && Present(Word(old(mem), cr3, Pd(v))) ==>
        Remapped(old(M()), M(), if v < 0xC000_0000 then {cr3} else spaces, Pd(v), Pt(v), KernelPage(f))
      ensures Pd(v) == SELF ==> mem == Put(old(mem), cr3, Pt(v), Entry(f, KERNEL_FLAGS))
    {
      hide Remapped;
      ghost var m := M();
      assert SpaceOK(m, cr3);
      WindowParts(v);
      if Present(Word(mem, cr3, Pd(v))) { WindowEntry(mem, cr3, v); }
      mem := Store(mem, cr3, PTS_WINDOW + 4 * (v / 0x1000), Entry(f, KERNEL_FLAGS));
      if Pd(v) < SCRATCH && Present(Word(m.mem, cr3, Pd(v))) {
        if Pd(v) < KERNEL {
          assert UserPut(m, M(), Pd(v), Pt(v), f, KERNEL_FLAGS);
          UserEntry(m, M(), Pd(v), Pt(v), f, KERNEL_FLAGS);
        } else {
          assert KernelPut(m, M(), Pd(v), Pt(v), f);
          KernelEntry(m, M(), Pd(v), Pt(v), f);
        }
      }
    }

    /** memset of the page at slot d of the table window. */
    method ClearTable(d: nat, ghost n: nat)
      requires d < SELF && IsPage(mem, n) && n != cr3 && IsPage(mem, cr3) && SelfMapped(mem, cr3)
      requires Present(Word(mem, cr3, d)) && FrameOf(Word(mem, cr3, d)) == n
      modifies `mem
      ensures IsPage(mem, n) && OnePage(old(mem), mem, n, mem[n]) && forall i :: 0 <= i < ENTRIES ==> mem[n][i] == 0
    {
      var i := 0;
      while i < ENTRIES
        invariant i <= ENTRIES && IsPage(mem, n) && OnePage(old(mem), mem, n, mem[n])
        invariant forall j :: 0 <= j < i ==> mem[n][j] == 0
      {
        TableWindowParts(d, i);
        mem := Store(mem, cr3, PTS_WINDOW + 0x1000 * d + 4 * i, 0);
        i := i + 1;
      }
    }

    /** vmm_map_user_page: exactly the page of v changes, in the current space alone; without a
        frame for a missing table nothing changes at all. */
    method MapUserPage(v: nat, f: nat) returns (ghost done: bool)
      requires Ok() && v < 0xC000_0000
      modifies `mem, `avail, `role
      ensures Ok() && VmStep(old(M()), M())
      ensures done ==> Remapped(old(M()), M(), {cr3}, Pd(v), Pt(v), UserPage(f))
      ensures done ==> UserMay(mem, cr3, v) && Translate(mem, cr3, v) == Some(0x1000 * f + Off(v))
      ensures !done ==> M() == old(M()) && avail == []
      ensures done <==> Present(Word(old(mem), cr3, Pd(v))) || old(avail) != []
    {
      hide UserMay, Translate;
      ghost var m := M();
      var d := Pd(v);
      assert SpaceOK(m, cr3);
      DirWindow(mem, cr3, d);
      if !Present(Load(mem, cr3, PD_WINDOW + 4 * d)) {
        var n := AllocFrame();
        if n == 0 { return false; }
        HangTable(d, n);
      }
      SetUserEntry(v, f);
      done := true;
      MappedForUser(m, M(), v, f);
    }

    /** vmm_set_pte_at of an address whose table is there. */
    method SetUserEntry(v: nat, f: nat)
      requires Ok() && v < U32 && Pd(v) < KERNEL && Present(Word(mem, cr3, Pd(v)))
      modifies `mem
      ensures Ok() && UserPut(old(M()), M(), Pd(v), Pt(v), f, USER_FLAGS)
      ensures Remapped(old(M()), M(), {cr3}, Pd(v), Pt(v), UserPage(f))
    {
      ghost var m := M();
      assert SpaceOK(m, cr3);
      WindowParts(v);
      WindowEntry(mem, cr3, v);
      mem := Store(mem, cr3, PTS_WINDOW + 4 * (v / 0x1000), Entry(f, USER_FLAGS));
      UserEntry(m, M(), Pd(v), Pt(v), f, USER_FLAGS);
    }

    /** A fresh page table in slot d, zeroed through the window. */
    method HangTable(d: nat, n: nat)
      requires Ok() && d < KERNEL && !Present(Word(mem, cr3, d)) && n !in role && IsPage(mem, n) && n !in avail
      modifies `mem, `role
      ensures Ok() && Hung(old(M()), M(), d, n) && SamePages(old(M()), M()) && Present(Word(mem, cr3, d))
    {
      ghost var m := M();
      assert SpaceOK(m, cr3);
      DirWindow(mem, cr3, d);
      EntryParts(n, USER_FLAGS);
      mem := Store(mem, cr3, PD_WINDOW + 4 * d, Entry(n, USER_FLAGS));
      ClearTable(d, n);
      role := role[n := UserTable(cr3, d)];
      TableHung(m, M(), d, n);
    }

    /** vmm_switch_address_space */
    method Switch(dir: nat)
      requires Ok() && (dir == 0 || dir in spaces)
      modifies `cr3
      ensures Ok() && cr3 == (if dir == 0 then old(cr3) else dir) && VmStep(old(M()), M())
    {
      if dir == 0 { return; }
      ghost var m := M();
      cr3 := dir;
      forall a | a in spaces ensures SpaceOK(M(), a) { assert SpaceOK(m, a); }
    }

    /** The two copy loops of vmm_create_address_space, through the scratch window. */
    method FillDirectory(ghost n: nat)
      requires IsPage(mem, cr3) && IsPage(mem, n) && n != cr3 && SelfMapped(mem, cr3)
      requires Present(Word(mem, cr3, SCRATCH)) && FrameOf(Word(mem, cr3, SCRATCH)) == n
      modifies `mem
      ensures IsPage(mem, n) && OnePage(old(mem), mem, n, mem[n])
      ensures forall i :: 0 <= i < SCRATCH ==> mem[n][i] == if i < KERNEL then 0 else Word(old(mem), cr3, i)
    {
      hide Store, Load, Present, FrameOf;
      var i := 0;
      while i < KERNEL
        invariant i <= KERNEL && IsPage(mem, n) && OnePage(old(mem), mem, n, mem[n])
        invariant forall j :: 0 <= j < i ==> mem[n][j] == 0
      {
        ScratchWindow(mem, cr3, n, i, 0);
        mem := Store(mem, cr3, PD_SCRATCH_WINDOW + 4 * i, 0);
        i := i + 1;
      }
      while i < SCRATCH
        invariant KERNEL <= i <= SCRATCH && IsPage(mem, n) && OnePage(old(mem), mem, n, mem[n])
        invariant forall j :: 0 <= j < i ==> mem[n][j] == if j < KERNEL then 0 else Word(old(mem), cr3, j)
      {
        ScratchWindow(mem, cr3, n, i, Word(mem, cr3, i));
        DirWindow(mem, cr3, i);
        mem := Store(mem, cr3, PD_SCRATCH_WINDOW + 4 * i, Load(mem, cr3, PD_WINDOW + 4 * i));
        i := i + 1;
      }
    }

    /** Frame n in the scratch slot, filled, pointed at itself, and out of the scratch slot again. */
    method BuildDirectory(n: nat, flags: nat) returns (ghost mem1: Mem, ghost mem2: Mem)
      requires IsPage(mem, cr3) && IsPage(mem, n) && n != cr3 && SelfMapped(mem, cr3) && flags < 0x1000
      requires Present(flags)
      modifies `mem
      ensures mem1 == Put(old(mem), cr3, SCRATCH, Entry(n, flags)) && IsPage(mem2, n) && OnePage(mem1, mem2, n, mem2[n])
      ensures forall i :: 0 <= i < SCRATCH ==> mem2[n][i] == if i < KERNEL then 0 else Word(mem1, cr3, i)
      ensures mem2[n][SELF] == Entry(n, flags) && mem == Put(mem2, cr3, SCRATCH, 0)
    {
      hide Store, Load, Present, FrameOf, Entry;
      EntryParts(n, flags);
      DirStore(mem, cr3, SCRATCH, Entry(n, flags));
      mem := Store(mem, cr3, PD_WINDOW + 4 * SCRATCH, Entry(n, flags));
      mem1 := mem;
      FillDirectory(n);
      ScratchWindow(mem, cr3, n, SELF, Entry(n, flags));
      mem := Store(mem, cr3, PD_SCRATCH_WINDOW + 4 * SELF, Entry(n, flags));
      mem2 := mem;
      DirStore(mem, cr3, SCRATCH, 0);
      mem := Store(mem, cr3, PD_WINDOW + 4 * SCRATCH, 0);
    }

    /** vmm_create_address_space: a space with an empty user half and the shared kernel half. */
    method CreateAddressSpace() returns (n: nat)
      requires Ok()
      modifies `mem, `avail, `spaces, `role
      ensures Ok() && VmStep(old(M()), M())
      ensures n == 0 <==> old(avail) == []
      ensures n == 0 ==> M() == old(M())
      ensures n != 0 ==> n !in old(spaces) && spaces == old(spaces) + {n} && SamePages(old(M()), M())
      ensures n != 0 ==> forall v: nat :: v < 0xC000_0000 ==> Translate(mem, n, v) == None
    {
      ghost var m := M();
      n := AllocFrame();
      if n == 0 { return; }
      assert SpaceOK(m, cr3);
      ghost var mem1, mem2 := BuildDirectory(n, KERNEL_FLAGS);
      spaces, role := spaces + {n}, role[n := Directory];
      BuiltIsMade(m, mem1, mem2, M(), n);
      SpaceMade(m, M(), n);
    }
  }

  lemma BuiltIsMade(m: Mm, mem1: Mem, mem2: Mem, m': Mm, n: nat)
    requires SpacesOK(m) && n !in m.role && IsPage(m.mem, n)
    requires mem1 == Put(m.mem, m.cur, SCRATCH, Entry(n, KERNEL_FLAGS)) && IsPage(mem2, n)
    requires OnePage(mem1, mem2, n, mem2[n])
    requires forall i :: 0 <= i < SCRATCH ==> mem2[n][i] == if i < KERNEL then 0 else Word(mem1, m.cur, i)
    requires mem2[n][SELF] == Entry(n, KERNEL_FLAGS)
    requires m' == m.(mem := Put(mem2, m.cur, SCRATCH, 0), spaces := m.spaces + {n}, role := m.role[n := Directory])
    ensures Made(m, m', n)
  {
    assert SpaceOK(m, m.cur);
    assert IsPage(m.mem, m.cur) && n != m.cur;
    forall i: nat | i < SCRATCH ensures Word(mem1, m.cur, i) == Word(m.mem, m.cur, i) {
      PutWord(m.mem, m.cur, SCRATCH, Entry(n, KERNEL_FLAGS), m.cur, i);
    }
    assert m'.mem[m.cur] == Put(m.mem, m.cur, SCRATCH, 0)[m.cur];
  }

  /** The new directory joins the others; no page of theirs is mapped differently. */
  lemma SpaceMade(m: Mm, m': Mm, n: nat)
    requires SpacesOK(m) && Made(m, m', n)
    ensures SpacesOK(m') && SamePages(m, m')
    ensures forall d: nat, t: nat :: d < KERNEL ==> PageOf(m'.mem, n, d, t) == None
  {
    EntryParts(n, KERNEL_FLAGS);
    assert SpaceOK(m, m.cur);
    assert IsPage(m.mem, m.cur) && n != m.cur;
    forall f, i: nat | f != n
      ensures Word(m'.mem, f, i) == if f == m.cur && i == SCRATCH then 0 else Word(m.mem, f, i)
    {
      PutWord(m.mem, m.cur, SCRATCH, 0, f, i);
    }
    forall f | f in m'.role ensures IsPage(m'.mem, f) { PutWord(m.mem, m.cur, SCRATCH, 0, f, 0); }
    forall a | a in m'.spaces ensures SpaceOK(m', a) { if a != n { assert SpaceOK(m, a); } }
    forall a, d: nat, t: nat | a in m.spaces && d < SCRATCH && t < ENTRIES
      ensures PageOf(m'.mem, a, d, t) == PageOf(m.mem, a, d, t)
    {
      assert SpaceOK(m, a);
      if Present(Word(m.mem, a, d)) { TableRole(m, a, d); }
    }
  }

  /** The flags of the boot code's directory entries. */
  const BOOT_FLAGS: nat := PRESENT + RW

  /** Entry i of the directory the boot code sets up. */
  function BootEntry(dir: nat, tables: nat, i: nat): nat
  {
    if KERNEL <= i < SCRATCH then Entry(tables + (i - KERNEL), BOOT_FLAGS)
    else if i == SELF then Entry(dir, BOOT_FLAGS) else 0
  }

  ghost function BootRoles(tables: nat, k: nat): (r: map<nat, Role>)
    ensures forall f :: f in r <==> tables <= f < tables + k
    ensures forall f :: f in r ==> r[f] == KernelTable(KERNEL + (f - tables))
  {
    if k == 0 then map[] else BootRoles(tables, k - 1)[tables + (k - 1) := KernelTable(KERNEL + (k - 1))]
  }

  lemma BootAt(dir: nat, tables: nat, i: nat)
    ensures i < KERNEL ==> !Present(BootEntry(dir, tables, i))
    ensures KERNEL <= i < SCRATCH ==> Present(BootEntry(dir, tables, i))
    ensures KERNEL <= i < SCRATCH ==> FrameOf(BootEntry(dir, tables, i)) == tables + (i - KERNEL)
    ensures i == SELF ==> Present(BootEntry(dir, tables, i)) && FrameOf(BootEntry(dir, tables, i)) == dir
    ensures i >= KERNEL ==> !ForUser(BootEntry(dir, tables, i))
    ensures KERNEL <= i < SCRATCH ==> Writable(BootEntry(dir, tables, i))
  {
    if KERNEL <= i < SCRATCH { EntryParts(tables + (i - KERNEL), BOOT_FLAGS); }
    if i == SELF { EntryParts(dir, BOOT_FLAGS); }
  }

  lemma BootTables(m: Mm, dir: nat, tables: nat, n: nat)
    requires |m.kpde| == ENTRIES && n == SCRATCH - KERNEL && (dir < tables || tables + n <= dir)
    requires m.role == BootRoles(tables, n)[dir := Directory]
    requires forall i: nat :: i < ENTRIES ==> m.kpde[i] == BootEntry(dir, tables, i)
    ensures KernelTables(m)
  {
    forall i: nat | KERNEL <= i < SCRATCH
      ensures Present(m.kpde[i]) && FrameOf(m.kpde[i]) in m.role && m.role[FrameOf(m.kpde[i])] == KernelTable(i)
      ensures !ForUser(m.kpde[i]) && Writable(m.kpde[i])
    {
      BootAt(dir, tables, i);
      assert m.kpde[i] == BootEntry(dir, tables, i);
    }
  }

  lemma BootDirectory(m: Mm, dir: nat, tables: nat)
    requires IsPage(m.mem, dir) && m.kpde == m.mem[dir] && dir in m.role && m.role[dir] == Directory
    requires forall i: nat :: i < ENTRIES ==> m.mem[dir][i] == BootEntry(dir, tables, i)
    ensures SpaceOK(m, dir)
  {
    forall i: nat | i < ENTRIES ensures Word(m.mem, dir, i) == BootEntry(dir, tables, i) { }
    BootAt(dir, tables, SELF);
    forall i: nat | i < KERNEL ensures !Present(Word(m.mem, dir, i)) { BootAt(dir, tables, i); }
  }

  /** A table entry of the boot code: none, or a page of the kernel. */
  ghost predicate BootPage(e: nat) { e == 0 || exists f: nat :: e == Entry(f, KERNEL_FLAGS) }

  /** What the boot code leaves: 254 kernel tables in a row behind slot 768, the directory in its
      own last slot, and nothing in the user half. */
  ghost predicate Boots(m: Mm, dir: nat, tables: nat, n: nat)
  {
    && n == SCRATCH - KERNEL && (dir < tables || tables + n <= dir)
    && (forall f: nat, i: nat :: tables <= f < tables + n ==> BootPage(Word(m.mem, f, i)))
    && IsPage(m.mem, dir) && (forall f: nat :: tables <= f < tables + n ==> IsPage(m.mem, f))
    && (forall i: nat :: i < ENTRIES ==> m.mem[dir][i] == BootEntry(dir, tables, i))
    && m == Mm(m.mem, dir, {dir}, BootRoles(tables, n)[dir := Directory], m.mem[dir])
  }

  lemma BootSpace(m: Mm, dir: nat, tables: nat, n: nat)
    requires Boots(m, dir, tables, n)
    ensures SpacesOK(m)
  {
    assert KernelTables(m) by { BootTables(m, dir, tables, n); }
    assert SpaceOK(m, dir) by { BootDirectory(m, dir, tables); }
  }

  // ----- runs -----

  /** Every call keeps the spaces sound, and changes the user half of the current space only. */
  lemma StepIsolates(m: Mm, m': Mm)
    requires SpacesOK(m) && VmStep(m, m')
    ensures SpacesOK(m') && m.spaces <= m'.spaces
    ensures forall b, d: nat, t: nat {:trigger PageOf(m'.mem, b, d, t)} ::
      b in m.spaces && b != m.cur && d < KERNEL && t < ENTRIES ==> PageOf(m'.mem, b, d, t) == PageOf(m.mem, b, d, t)
  {
    hide Hung, Made, SpaceOK;
    if m' == m {
    } else if m'.cur in m.spaces && m' == m.(cur := m'.cur) {
      SwitchKeeps(m, m');
    } else if d, t, f: nat :| KernelPut(m, m', d, t, f) {
      KernelEntry(m, m', d, t, f);
    } else if d, t, f, flags: nat :| UserPut(m, m', d, t, f, flags) {
      UserEntry(m, m', d, t, f, flags);
    } else if m1, n, d, t, f: nat :| Hung(m, m1, d, n) && UserPut(m1, m', d, t, f, USER_FLAGS) {
      TableHung(m, m1, d, n);
      UserEntry(m1, m', d, t, f, USER_FLAGS);
      assert m1.cur == m.cur && m1.spaces == m.spaces by { HungSame(m, m1, d, n); }
    } else {
      var n: nat :| Made(m, m', n);
      SpaceMade(m, m', n);
      assert m.spaces <= m'.spaces by { MadeMore(m, m', n); }
    }
  }

  lemma HungSame(m: Mm, m': Mm, d: nat, n: nat)
    requires Hung(m, m', d, n)
    ensures m'.cur == m.cur && m'.spaces == m.spaces
  {
  }

  lemma MadeMore(m: Mm, m': Mm, n: nat)
    requires Made(m, m', n)
    ensures m'.spaces == m.spaces + {n}
  {
  }

  lemma SwitchKeeps(m: Mm, m': Mm)
    requires SpacesOK(m) && m'.cur in m.spaces && m' == m.(cur := m'.cur)
    ensures SpacesOK(m')
  {
    forall a | a in m.spaces ensures SpaceOK(m', a) { assert SpaceOK(m, a); }
  }

  /** Each state comes from the one before by a call. */
  ghost predicate VmRun(ms: seq<Mm>) { forall j: nat :: j + 1 < |ms| ==> VmStep(ms[j], ms[j + 1]) }

  /** Over any run from sound spaces the spaces stay sound and none goes away. */
  lemma {:induction false} RunSound(ms: seq<Mm>, k: nat)
    requires k < |ms| && SpacesOK(ms[0]) && VmRun(ms)
    ensures SpacesOK(ms[k]) && ms[0].spaces <= ms[k].spaces
  {
    if k > 0 {
      RunSound(ms, k - 1);
      assert VmStep(ms[k - 1], ms[k - 1 + 1]);
      StepIsolates(ms[k - 1], ms[k]);
    }
  }

  /** At any point of any run from boot on, the spaces are sound and translate the kernel half alike. */
  lemma {:induction false} RunShares(ms: seq<Mm>, k: nat, dir: nat, tables: nat, n: nat, a: nat, b: nat, v: nat)
    requires k < |ms| && Boots(ms[0], dir, tables, n) && VmRun(ms)
    requires a in ms[k].spaces && b in ms[k].spaces && 0xC000_0000 <= v < 0xFF80_0000
    ensures SpacesOK(ms[k]) && PageOf(ms[k].mem, a, Pd(v), Pt(v)) == PageOf(ms[k].mem, b, Pd(v), Pt(v))
    ensures Translate(ms[k].mem, a, v) == Translate(ms[k].mem, b, v)
  {
    hide Boots, VmRun, SpacesOK, PageOf;
    BootSpace(ms[0], dir, tables, n);
    RunSound(ms, k);
    KernelShared(ms[k], a, b, Pd(v), Pt(v));
  }

  /** Over any run the user half of a space changes only while that space is current. */
  lemma {:induction false} RunIsolates(ms: seq<Mm>, b: nat, v: nat, k: nat)
    requires k < |ms| && SpacesOK(ms[0]) && VmRun(ms)
    requires b in ms[0].spaces && v < 0xC000_0000
    requires forall j: nat :: j < k ==> ms[j].cur != b
    ensures b in ms[k].spaces && PageOf(ms[k].mem, b, Pd(v), Pt(v)) == PageOf(ms[0].mem, b, Pd(v), Pt(v))
  {
    RunSound(ms, k);
    if k > 0 {
      RunIsolates(ms, b, v, k - 1);
      RunSound(ms, k - 1);
      assert VmStep(ms[k - 1], ms[k - 1 + 1]);
      StepIsolates(ms[k - 1], ms[k]);
    }
  }

  // ----- who may reach what -----

  /** User mode reaches no page of the kernel half, and no page table through the windows, in any
      space, at any point of any run from boot on. */
  lemma {:induction false} RunGuards(ms: seq<Mm>, k: nat, dir: nat, tables: nat, n: nat, a: nat, v: nat)
    requires k < |ms| && Boots(ms[0], dir, tables, n) && VmRun(ms) && a in ms[k].spaces
    requires 0xC000_0000 <= v < 0xFF80_0000 || 0xFFC0_0000 <= v < U32
    ensures match PageOf(ms[k].mem, a, Pd(v), Pt(v)) case None => true case Some(p) => !p.user
  {
    hide Boots, VmRun;
    BootSpace(ms[0], dir, tables, n);
    RunSound(ms, k);
    assert SpaceOK(ms[k], a);
  }

  /** vmm_map_kernel_page of an address in the user half */
  ghost predicate Stray(m: Mm, m': Mm) { exists d, t, f: nat :: UserPut(m, m', d, t, f, KERNEL_FLAGS) }

  /** Pages of the user half are user mode's to read and write; pages of the kernel half are not, and
      only those outlive a change of address space. */
  ghost predicate RightsOK(m: Mm)
  {
    forall a, d: nat, t: nat {:trigger PageOf(m.mem, a, d, t)} :: a in m.spaces && d < SCRATCH && t < ENTRIES ==>
      match PageOf(m.mem, a, d, t)
      case None => true
      case Some(p) => p == if d < KERNEL then UserPage(p.frame) else KernelPage(p.frame)
  }

  lemma RightsAfter(m: Mm, m': Mm, who: set<nat>, d: nat, t: nat, p: Page)
    requires RightsOK(m) && Remapped(m, m', who, d, t, p) && m'.spaces == m.spaces
    requires p == if d < KERNEL then UserPage(p.frame) else KernelPage(p.frame)
    ensures RightsOK(m')
  {
  }

  lemma RightsSame(m: Mm, m': Mm)
    requires RightsOK(m) && SamePages(m, m') && m'.spaces == m.spaces
    ensures RightsOK(m')
  {
  }

  /** The new space has the kernel half of the others and nothing else. */
  lemma RightsMade(m: Mm, m': Mm, n: nat)
    requires SpacesOK(m) && RightsOK(m) && Made(m, m', n)
    ensures RightsOK(m')
  {
    SpaceMade(m, m', n);
    forall d: nat, t: nat | KERNEL <= d < SCRATCH && t < ENTRIES
      ensures PageOf(m'.mem, n, d, t) == PageOf(m.mem, m.cur, d, t)
    {
      KernelShared(m', n, m.cur, d, t);
      assert PageOf(m'.mem, m.cur, d, t) == PageOf(m.mem, m.cur, d, t);
    }
  }

  lemma StepRights(m: Mm, m': Mm)
    requires SpacesOK(m) && RightsOK(m) && VmStep(m, m') && !Stray(m, m')
    ensures RightsOK(m')
  {
    hide Hung, Made, SpaceOK, RightsOK, Remapped, SamePages, UserPut;
    if m' == m {
    } else if m'.cur in m.spaces && m' == m.(cur := m'.cur) {
      RightsSwitched(m, m');
    } else if d, t, f: nat :| KernelPut(m, m', d, t, f) {
      KernelEntry(m, m', d, t, f);
      RightsAfter(m, m', m.spaces, d, t, KernelPage(f));
    } else if d, t, f, flags: nat :| UserPut(m, m', d, t, f, flags) {
      UserRights(m, m', d, t, f, flags);
    } else if m1, n, d, t, f: nat :| Hung(m, m1, d, n) && UserPut(m1, m', d, t, f, USER_FLAGS) {
      TableHung(m, m1, d, n);
      HungSame(m, m1, d, n);
      RightsSame(m, m1);
      UserRights(m1, m', d, t, f, USER_FLAGS);
    } else {
      var n: nat :| Made(m, m', n);
      RightsMade(m, m', n);
    }
  }

  lemma RightsSwitched(m: Mm, m': Mm)
    requires RightsOK(m) && m' == m.(cur := m'.cur)
    ensures RightsOK(m')
  {
  }

  lemma UserRights(m: Mm, m': Mm, d: nat, t: nat, f: nat, flags: nat)
    requires SpacesOK(m) && RightsOK(m) && UserPut(m, m', d, t, f, flags)
    requires flags == USER_FLAGS || !Stray(m, m')
    ensures RightsOK(m')
  {
    hide SpaceOK, RightsOK, Remapped;
    UserEntry(m, m', d, t, f, flags);
    assert flags == USER_FLAGS;
    RightsAfter(m, m', {m.cur}, d, t, UserPage(f));
  }

  /** The boot code maps kernel pages only. */
  lemma BootRights(m: Mm, dir: nat, tables: nat, n: nat)
    requires Boots(m, dir, tables, n)
    ensures RightsOK(m)
  {
    forall d: nat, t: nat | d < SCRATCH && t < ENTRIES
      ensures match PageOf(m.mem, dir, d, t) case None => true case Some(p) => d >= KERNEL && p == KernelPage(p.frame)
    {
      BootAt(dir, tables, d);
      assert Word(m.mem, dir, d) == BootEntry(dir, tables, d);
      if d >= KERNEL { BootPageIs(Word(m.mem, tables + (d - KERNEL), t)); }
    }
  }

  lemma BootPageIs(e: nat)
    requires BootPage(e)
    ensures Present(e) ==> !ForUser(e) && Writable(e) && IsGlobal(e)
  {
    if e != 0 {
      var f: nat :| e == Entry(f, KERNEL_FLAGS);
      EntryParts(f, KERNEL_FLAGS);
    }
  }

  /** Over any run from boot on that maps kernel pages in the kernel half only, pages of the user half are
      user mode's and pages of the kernel half are not. */
  lemma {:induction false} RunRights(ms: seq<Mm>, k: nat, dir: nat, tables: nat, n: nat)
    requires k < |ms| && Boots(ms[0], dir, tables, n) && VmRun(ms)
    requires forall j: nat :: j < k ==> !Stray(ms[j], ms[j + 1])
    ensures SpacesOK(ms[k]) && RightsOK(ms[k])
  {
    hide SpaceOK, Stray, Boots;
    BootSpace(ms[0], dir, tables, n);
    RunSound(ms, k);
    if k == 0 {
      BootRights(ms[0], dir, tables, n);
    } else {
      RunRights(ms, k - 1, dir, tables, n);
      assert VmStep(ms[k - 1], ms[k - 1 + 1]);
      StepRights(ms[k - 1], ms[k]);
    }
  }

  /** So a translation that outlives a change of address space is the same in the new one. */
  lemma RunGlobals(ms: seq<Mm>, k: nat, dir: nat, tables: nat, n: nat, a: nat, b: nat, v: nat, p: Page)
    requires k < |ms| && Boots(ms[0], dir, tables, n) && VmRun(ms)
    requires forall j: nat :: j < k ==> !Stray(ms[j], ms[j + 1])
    requires a in ms[k].spaces && b in ms[k].spaces && v < 0xFF80_0000
    requires PageOf(ms[k].mem, a, Pd(v), Pt(v)) == Some(p) && p.global
    ensures 0xC000_0000 <= v && PageOf(ms[k].mem, b, Pd(v), Pt(v)) == Some(p)
  {
    RunRights(ms, k, dir, tables, n);
    KernelShared(ms[k], a, b, if Pd(v) < KERNEL then KERNEL else Pd(v), Pt(v));
  }
}
