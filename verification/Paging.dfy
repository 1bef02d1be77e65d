/** 32-bit paging as the processor walks it, and the recursive windows of vmm.c. */
module Paging {
  import opened Words

  const ENTRIES: nat := 1024
  const PD_WINDOW: nat := 0xFFFF_F000
  const PTS_WINDOW: nat := 0xFFC0_0000
  const PD_SCRATCH_WINDOW: nat := 0xFFFF_E000
  const SELF: nat := 1023      // the slot through which a directory maps itself
  const SCRATCH: nat := 1022   // the slot a directory under construction hangs on
  const KERNEL: nat := 768     // first slot of the kernel half

  const PRESENT: nat := 0x001
  const RW: nat := 0x002
  const USER: nat := 0x004
  const GLOBAL: nat := 0x100

  /** Physical memory: page frames of 1024 words. */
  type Mem = map<nat, seq<nat>>

  function Pd(v: nat): nat { v / 0x40_0000 }
  function Pt(v: nat): nat { v / 0x1000 % 0x400 }
  function Off(v: nat): nat { v % 0x1000 }

  /** A directory or table entry: frame number and flags. */
  function Entry(f: nat, flags: nat): nat { 0x1000 * f + flags }
  function FrameOf(e: nat): nat { e / 0x1000 }

  /** Bits 0, 1, 2 and 8: P, R/W, U/S and G. */
  predicate Present(e: nat) { e % 2 == 1 }
  predicate Writable(e: nat) { e / 2 % 2 == 1 }
  predicate ForUser(e: nat) { e / 4 % 2 == 1 }
  predicate IsGlobal(e: nat) { e / 0x100 % 2 == 1 }

  lemma EvenMore(n: nat, m: nat)
    ensures (2 * n + m) % 2 == m % 2
  {
  }

  lemma EntryParts(f: nat, flags: nat)
    requires flags < 0x1000
    ensures FrameOf(Entry(f, flags)) == f && (Present(Entry(f, flags)) <==> Present(flags))
    ensures Writable(Entry(f, flags)) <==> Writable(flags)
    ensures ForUser(Entry(f, flags)) <==> ForUser(flags)
    ensures IsGlobal(Entry(f, flags)) <==> IsGlobal(flags)
  {
    var e := Entry(f, flags);
    assert e / 2 == 2 * (0x400 * f) + flags / 2 && e / 4 == 2 * (0x200 * f) + flags / 4;
    assert e / 0x100 == 2 * (8 * f) + flags / 0x100;
    EvenMore(0x800 * f, flags);
    EvenMore(0x400 * f, flags / 2);
    EvenMore(0x200 * f, flags / 4);
    EvenMore(8 * f, flags / 0x100);
  }

  function Word(mem: Mem, f: nat, i: nat): nat
  {
    if f in mem && i < |mem[f]| then mem[f][i] else 0
  }

  /** What the processor finds for a page: its frame, whether user mode may reach it and may write
      it there, and whether its translation outlives a change of address space. */
  datatype Page = Page(frame: nat, user: bool, write: bool, global: bool)

  /** The page that directory dir maps at slot d, entry t: both entries must be present, and both
      must allow what user mode does. */
  function PageOf(mem: Mem, dir: nat, d: nat, t: nat): Option<Page>
  {
    var pde := Word(mem, dir, d);
    if !Present(pde) then None else
    var pte := Word(mem, FrameOf(pde), t);
    if !Present(pte) then None else
    Some(Page(FrameOf(pte), ForUser(pde) && ForUser(pte), Writable(pde) && Writable(pte), IsGlobal(pte)))
  }

  /** Whether user mode may read and write the page at v. */
  predicate UserMay(mem: Mem, dir: nat, v: nat)
  {
    match PageOf(mem, dir, Pd(v), Pt(v))
    case None => false
    case Some(p) => p.user && p.write
  }

  /** The hardware translation of v. */
  function Translate(mem: Mem, dir: nat, v: nat): Option<nat>
  {
    match PageOf(mem, dir, Pd(v), Pt(v))
    case None => None
    case Some(p) => Some(0x1000 * p.frame + Off(v))
  }

  /** Reading and writing an aligned word at virtual address v. */
  function Load(mem: Mem, dir: nat, v: nat): nat
  {
    match PageOf(mem, dir, Pd(v), Pt(v))
    case None => 0
    case Some(p) => Word(mem, p.frame, Off(v) / 4)
  }

  function Put(mem: Mem, f: nat, i: nat, x: nat): Mem
  {
    if f in mem && i < |mem[f]| then
      var page: seq<nat> := mem[f][i := x];
      mem[f := page]
    else mem
  }

  function Store(mem: Mem, dir: nat, v: nat, x: nat): Mem
  {
    match PageOf(mem, dir, Pd(v), Pt(v))
    case None => mem
    case Some(p) => Put(mem, p.frame, Off(v) / 4, x)
  }

  /** The directory maps itself in its last slot. */
  predicate SelfMapped(mem: Mem, dir: nat)
  {
    Present(Word(mem, dir, SELF)) && FrameOf(Word(mem, dir, SELF)) == dir
  }

  // ----- the windows -----

  lemma WindowParts(v: nat)
    requires v < U32
    ensures var w := PTS_WINDOW + 4 * (v / 0x1000);
      w < U32 && Pd(w) == SELF && Pt(w) == Pd(v) && Off(w) == 4 * Pt(v)
  {
    var q := v / 0x1000;
    var w := PTS_WINDOW + 4 * q;
    assert q < 0x10_0000;
    assert w / 0x1000 == 1023 * 0x400 + q / 0x400;
    assert Pd(v) == q / 0x400;
    assert 4 * q == 0x1000 * (q / 0x400) + 4 * (q % 0x400);
  }

  lemma DirWindowParts(d: nat)
    requires d < ENTRIES
    ensures var w := PD_WINDOW + 4 * d; w < U32 && Pd(w) == SELF && Pt(w) == SELF && Off(w) == 4 * d
  {
  }

  lemma ScratchParts(i: nat)
    requires i < ENTRIES
    ensures var w := PD_SCRATCH_WINDOW + 4 * i; w < U32 && Pd(w) == SELF && Pt(w) == SCRATCH && Off(w) == 4 * i
  {
  }

  lemma TableWindowParts(d: nat, i: nat)
    requires d < ENTRIES && i < ENTRIES
    ensures var w := PTS_WINDOW + 0x1000 * d + 4 * i; w < U32 && Pd(w) == SELF && Pt(w) == d && Off(w) == 4 * i
  {
    var w := PTS_WINDOW + 0x1000 * d + 4 * i;
    assert w / 0x1000 == 1023 * 0x400 + d;
  }

  /** The walk of PTS_WINDOW + 4 * (v >> 12) lands on the very entry the walk of v uses. */
  lemma WindowEntry(mem: Mem, dir: nat, v: nat)
    requires v < U32 && SelfMapped(mem, dir) && Present(Word(mem, dir, Pd(v)))
    ensures Translate(mem, dir, PTS_WINDOW + 4 * (v / 0x1000)) ==
      Some(0x1000 * FrameOf(Word(mem, dir, Pd(v))) + 4 * Pt(v))
    ensures Load(mem, dir, PTS_WINDOW + 4 * (v / 0x1000)) == Word(mem, FrameOf(Word(mem, dir, Pd(v))), Pt(v))
  {
    WindowParts(v);
  }

  /** The walk of PD_WINDOW + 4 * d lands on directory entry d. */
  lemma DirWindow(mem: Mem, dir: nat, d: nat)
    requires d < ENTRIES && SelfMapped(mem, dir)
    ensures Load(mem, dir, PD_WINDOW + 4 * d) == Word(mem, dir, d)
    ensures forall x :: Store(mem, dir, PD_WINDOW + 4 * d, x) == Put(mem, dir, d, x)
  {
    DirWindowParts(d);
  }

  lemma DirStore(mem: Mem, dir: nat, d: nat, x: nat)
    requires d < ENTRIES && SelfMapped(mem, dir)
    ensures Store(mem, dir, PD_WINDOW + 4 * d, x) == Put(mem, dir, d, x)
  {
    DirWindow(mem, dir, d);
  }

  /** A write through the scratch window lands in the frame its slot names. */
  lemma ScratchWindow(mem: Mem, dir: nat, n: nat, i: nat, x: nat)
    requires i < ENTRIES && SelfMapped(mem, dir)
    requires Present(Word(mem, dir, SCRATCH)) && FrameOf(Word(mem, dir, SCRATCH)) == n
    ensures Store(mem, dir, PD_SCRATCH_WINDOW + 4 * i, x) == Put(mem, n, i, x)
  {
    ScratchParts(i);
  }

  /** vmm_virt_to_phys, reading through the windows. */
  function VirtToPhys(mem: Mem, dir: nat, v: nat): nat
  {
    if !Present(Load(mem, dir, PD_WINDOW + 4 * (v / 0x40_0000))) then 0 else
    var pte := Load(mem, dir, PTS_WINDOW + 4 * (v / 0x1000));
    if !Present(pte) then 0 else 0x1000 * FrameOf(pte) + v % 0x1000
  }

  /** vmm_is_mapped */
  predicate IsMapped(mem: Mem, dir: nat, v: nat)
  {
    Present(Load(mem, dir, PD_WINDOW + 4 * (v / 0x40_0000))) && Present(Load(mem, dir, PTS_WINDOW + 4 * (v / 0x1000)))
  }

  /** Both agree with the hardware translation at every address. */
  lemma VirtToPhysIs(mem: Mem, dir: nat, v: nat)
    requires v < U32 && SelfMapped(mem, dir)
    ensures IsMapped(mem, dir, v) <==> Translate(mem, dir, v).Some?
    ensures VirtToPhys(mem, dir, v) == match Translate(mem, dir, v) case None => 0 case Some(p) => p
  {
    assert v / 0x40_0000 < ENTRIES;
    DirWindow(mem, dir, Pd(v));
    if Present(Word(mem, dir, Pd(v))) { WindowEntry(mem, dir, v); }
  }
}
