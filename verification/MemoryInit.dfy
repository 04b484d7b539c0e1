/**
 `mem_pool_init` of `kernel/memory.c` and the page tables that the loader leaves behind
 (`boot/loader_func.S`): the state that page allocation starts from.
 */
module MemoryInit {
  import opened Common
  import opened Paging
  import opened Bitmap
  import opened PageModel
  import opened PageSteps
  import opened PageManager

  const USED_MEM := 0x200000
  const BOOT_DIR := 0x100000

  /** The numbers that `mem_pool_init` computes in 32-bit and 16-bit variables. */
  datatype Layout = Layout(kernelPages: nat, userPages: nat, kernelLen: nat, userLen: nat, kernelStart: int,
                           userStart: int)

  function PoolLayout(allMem: int): (l: Layout)
    requires Addr(allMem)
  {
    var freeMem := (allMem - USED_MEM) % WORD;
    var pages := freeMem / 4096 % 0x1_0000;
    var kernelPages := pages / 2;
    var userPages := pages - kernelPages;
    Layout(kernelPages, userPages, kernelPages / 8, userPages / 8, USED_MEM, USED_MEM + kernelPages * 4096)
  }

  function Zeros(n: nat): (s: seq<bool>)
    ensures |s| == n && forall i :: 0 <= i < n ==> !s[i]
  {
    seq(n, _ => false)
  }

  /** The two pools and the window of the kernel with the guard bit that happens to follow it.  A kernel thread
      has no window of its own: what stands for it has no pages, and the page behind it is the first of the
      kernel, as for a process. */
  function InitPages(m: Mem, allMem: int, guard: bool): (p: Pages)
    requires Addr(allMem)
  {
    var l := PoolLayout(allMem);
    Pages(m, BOOT_DIR, Pool(l.kernelStart, Zeros(8 * l.kernelLen)), Pool(l.userStart, Zeros(8 * l.userLen)),
          Window(K_HEAP_START, Zeros(8 * l.kernelLen) + [guard]), Window(USER_END, [true]))
  }

  /** All frames of both pools lie in the installed memory exactly if there is more memory than the
      kernel uses before; with less, the subtraction wraps around. */
  lemma PoolsInMemory(allMem: int)
    requires Addr(allMem)
    ensures var l := PoolLayout(allMem);
            (forall j :: 0 <= j < 8 * l.kernelLen ==> Frame(Pool(l.kernelStart, []), j) + 4096 <= allMem)
            && (forall j :: 0 <= j < 8 * l.userLen ==> Frame(Pool(l.userStart, []), j) + 4096 <= allMem)
            <==> allMem >= USED_MEM
  {
    var l := PoolLayout(allMem);
    if allMem >= USED_MEM {
      assert (allMem - USED_MEM) % WORD == allMem - USED_MEM;
      assert 4096 * (l.kernelPages + l.userPages) <= allMem - USED_MEM;
      forall j | 0 <= j < 8 * l.kernelLen ensures Frame(Pool(l.kernelStart, []), j) + 4096 <= allMem {}
      forall j | 0 <= j < 8 * l.userLen ensures Frame(Pool(l.userStart, []), j) + 4096 <= allMem {}
    } else {
      assert (allMem - USED_MEM) % WORD == allMem - USED_MEM + WORD;
      assert l.kernelLen > 0;
      assert Frame(Pool(l.kernelStart, []), 0) + 4096 > allMem;
    }
  }

  /** With one mebibyte, less than the kernel uses before, even the first frame lies outside the memory. */
  lemma TooLittleMemory()
    ensures var l := PoolLayout(0x100000); l.kernelLen > 0 && Frame(Pool(l.kernelStart, []), 0) + 4096 > 0x100000
  {
    assert (0x100000 - USED_MEM) % WORD == WORD - 0x100000;
  }

  /** The kernel pool ends where the user pool begins, and the three bitmaps fit between their base and
      the stack of the main thread. */
  lemma LayoutFits(allMem: int)
    requires Addr(allMem)
    ensures var l := PoolLayout(allMem);
            && l.kernelStart + 4096 * l.kernelPages == l.userStart
            && 0 <= 8 * l.kernelLen <= l.kernelPages && 0 <= 8 * l.userLen <= l.userPages
            && l.kernelLen + l.userLen + l.kernelLen <= 0xc009e000 - 0xc009a000
            && l.kernelLen <= 4095
  {
  }

  // ---------------------------------------------------------------------------------------
  // The boot page tables
  // ---------------------------------------------------------------------------------------

  /** Entry `k` of the boot directory: entries 0 and 768 share the first table, entries 769 to 1022 have
      one each, and entry 1023 is the directory. */
  function BootEntry(k: int): int {
    if k == 0 || k == 768 then 0x101000 + 7
    else if 769 <= k < 1023 then 0x102000 + (k - 769) * 4096 + 7
    else if k == 1023 then BOOT_DIR + 7
    else 0
  }

  /** Memory as the loader leaves it: the directory, and the first megabyte in the first table.  The loader
      writes nothing else into the tables. */
  ghost predicate BootMemory(m: Mem) {
    && (forall k :: 0 <= k < 1024 ==> Entry(m, BOOT_DIR, k) == BootEntry(k))
    && (forall k :: 0 <= k < 256 ==> Entry(m, 0x101000, k) == 4096 * k + 7)
  }

  /** The table entries of the first `n` pages of the kernel heap, which the loader does not write, happen
      not to be present. */
  ghost predicate Blank(m: Mem, n: nat) {
    forall i :: 0 <= i < n ==> !Present(Pte(m, BOOT_DIR, K_HEAP_START + 4096 * i))
  }

  lemma BootBase(k: int)
    requires 0 <= k < 1024
    ensures Present(BootEntry(k)) <==> k == 0 || k >= 768
    ensures Present(BootEntry(k)) ==> Base(BootEntry(k)) == BootEntry(k) - 7
  {
    if k == 0 || k == 768 {
      FlagsOf(0x101000);
    } else if 769 <= k < 1023 {
      AlignedSum(0x102000, k - 769);
      FlagsOf(0x102000 + (k - 769) * 4096);
    } else if k == 1023 {
      FlagsOf(BOOT_DIR);
    }
  }

  /** All tables of the kernel heap are there at boot. */
  lemma BootTables(m: Mem, v: int)
    requires BootMemory(m) && K_HEAP_START <= v < 0xffc00000 && v % 4096 == 0
    ensures Present(Pde(m, BOOT_DIR, v)) && 768 <= Dir(v) < 1023
  {
    Decompose(v);
    BootBase(Dir(v));
    hide Base, Present, Dir, Tab, Off;
  }

  lemma BootDirectory(m: Mem, p: Pages)
    requires BootMemory(m) && p.m == m && p.cr3 == BOOT_DIR && Geometry(p)
    requires p.kwin.start == K_HEAP_START && p.uwin == Window(USER_END, [true]) && p.kpool.start == USED_MEM
    ensures DirOk(p, {})
  {
    forall k | 0 <= k < 1024 && Present(Entry(m, BOOT_DIR, k))
      ensures Base(Entry(m, BOOT_DIR, k)) == BootEntry(k) - 7 && (k < 1023 ==> Base(Entry(m, BOOT_DIR, k)) != BOOT_DIR)
      ensures !InPool(p.kpool, Base(Entry(m, BOOT_DIR, k))) && !InPool(p.upool, Base(Entry(m, BOOT_DIR, k)))
    {
      BootBase(k);
    }
    forall v, w | WindowPage(p, v) && WindowPage(p, w) && Dir(v) != Dir(w)
                  && Present(Pde(m, BOOT_DIR, v)) && Present(Pde(m, BOOT_DIR, w))
      ensures Base(Pde(m, BOOT_DIR, v)) != Base(Pde(m, BOOT_DIR, w))
    {
      WindowIndices(p, v);
      WindowIndices(p, w);
      BootBase(Dir(v));
      BootBase(Dir(w));
    }
  }

  /** The pages that the kernel window stands for after `mem_pool_init`: all with a clear guard bit. */
  function BootShape(allMem: int, guard: bool): (sh: Shape)
    requires Addr(allMem)
  {
    var n := 8 * PoolLayout(allMem).kernelLen;
    Shape(if guard then n else n + 1, 0, {})
  }

  /** The state after `mem_pool_init` satisfies the agreement exactly if the tables are blank, whatever the
      guard bit is; then nothing is mapped and nothing is reserved. */
  lemma BootAgreement(m: Mem, allMem: int, guard: bool)
    requires BootMemory(m) && Addr(allMem)
    ensures var p, sh := InitPages(m, allMem, guard), BootShape(allMem, guard);
            && TablesThere(p, PfKernel)
            && (Agreement(p, sh) <==> Blank(m, sh.kspan))
            && (Agreement(p, sh) ==> ViewFor(p, sh, PfKernel) == map[] && ViewFor(p, sh, PfUser) == map[])
  {
    hide Walk, Present, Pde, Pte, DirOk, Geometry, BootMemory, Beyond, View, PoolOk, DirTaken, BitsOk, InitPages,
         BootShape, Blank;
    var p, sh := InitPages(m, allMem, guard), BootShape(allMem, guard);
    BootFields(m, allMem, guard);
    BootDirectory(m, p);
    BootTablesThere(m, p);
    BlankViews(p, sh);
    if Blank(m, sh.kspan) {
      BlankPools(p);
      BlankBits(p.kwin, sh.kspan, Beyond(m, BOOT_DIR, p.kwin, sh.kspan));
      BlankBits(p.uwin, sh.uspan, Beyond(m, BOOT_DIR, p.uwin, sh.uspan));
    } else {
      UsedWindow(p, sh);
    }
  }

  lemma BootFields(m: Mem, allMem: int, guard: bool)
    requires Addr(allMem)
    ensures var p, sh := InitPages(m, allMem, guard), BootShape(allMem, guard);
            && Geometry(p) && p.m == m && p.cr3 == BOOT_DIR && p.kwin.start == K_HEAP_START
            && p.uwin == Window(USER_END, [true]) && sh.uspan == 0 && sh.reserved == {}
            && p.kpool.start == USED_MEM && p.upool.start >= USED_MEM
            && (forall j :: 0 <= j < |p.kpool.bits| ==> !p.kpool.bits[j])
            && (forall j :: 0 <= j < |p.upool.bits| ==> !p.upool.bits[j])
            && sh.kspan <= |p.kwin.bits| <= sh.kspan + 1 && |p.kwin.bits| > 0
            && (forall i :: 0 <= i < sh.kspan ==> !p.kwin.bits[i])
            && (sh.kspan < |p.kwin.bits| ==> p.kwin.bits[sh.kspan])
  {
    LayoutFits(allMem);
    hide PoolLayout;
  }

  lemma BootTablesThere(m: Mem, p: Pages)
    requires BootMemory(m) && Geometry(p) && p.m == m && p.cr3 == BOOT_DIR && p.kwin.start == K_HEAP_START
    ensures TablesThere(p, PfKernel)
  {
    hide Present, Pde, BootMemory;
    forall i | 0 <= i < |p.kwin.bits|
      ensures Present(Pde(m, BOOT_DIR, Page(p.kwin, i)))
    {
      PageIsWindowPage(p, PfKernel, i);
      BootTables(m, Page(p.kwin, i));
    }
  }

  /** A page of the kernel window is in the view exactly if its entry is not blank. */
  lemma BlankViews(p: Pages, sh: Shape)
    requires Geometry(p) && TablesThere(p, PfKernel) && p.cr3 == BOOT_DIR && p.kwin.start == K_HEAP_START
    requires sh.kspan <= |p.kwin.bits| && sh.uspan == 0
    ensures forall i :: i in ViewFor(p, sh, PfKernel) <==>
              0 <= i < sh.kspan && Present(Pte(p.m, BOOT_DIR, K_HEAP_START + 4096 * i))
    ensures Blank(p.m, sh.kspan) ==> ViewFor(p, sh, PfKernel) == map[]
    ensures ViewFor(p, sh, PfUser) == map[]
  {
    hide Present, Pde, Pte, Geometry;
    forall i | 0 <= i < sh.kspan
      ensures Present(Pde(p.m, BOOT_DIR, K_HEAP_START + 4096 * i))
    {
      assert Present(Pde(p.m, p.cr3, Page(Win(p, PfKernel), i)));
    }
    if Blank(p.m, sh.kspan) {
      forall i | i in ViewFor(p, sh, PfKernel)
        ensures false
      {
      }
    }
  }

  lemma BlankBits(w: Window, span: nat, beyond: bool)
    requires span <= |w.bits| <= span + 1 && |w.bits| > 0 && (forall i :: 0 <= i < span ==> !w.bits[i])
    requires span < |w.bits| ==> w.bits[span]
    ensures BitsOk(w, span, map[], beyond, 0, 0)
  {
  }

  lemma UsedWindow(p: Pages, sh: Shape)
    requires !Blank(p.m, sh.kspan) && sh.kspan <= |p.kwin.bits| && forall i :: 0 <= i < sh.kspan ==> !p.kwin.bits[i]
    requires forall i :: i in ViewFor(p, sh, PfKernel) <==>
               0 <= i < sh.kspan && Present(Pte(p.m, BOOT_DIR, K_HEAP_START + 4096 * i))
    ensures !Agreement(p, sh)
  {
    hide Present, Pte, View, Geometry, DirOk, PoolOk, DirTaken, Beyond;
    var i :| 0 <= i < sh.kspan && Present(Pte(p.m, BOOT_DIR, K_HEAP_START + 4096 * i));
    assert i in ViewFor(p, sh, PfKernel) && !p.kwin.bits[i];
  }

  lemma BlankPools(p: Pages)
    requires p.cr3 == BOOT_DIR && p.kpool.start == USED_MEM && p.upool.start >= USED_MEM
    requires forall j :: 0 <= j < |p.kpool.bits| ==> !p.kpool.bits[j]
    requires forall j :: 0 <= j < |p.upool.bits| ==> !p.upool.bits[j]
    ensures PoolOk(p.kpool, map[], {}) && PoolOk(p.upool, map[], {}) && DirTaken(p, map[], {})
  {
  }

  /** In the boot directory, mapping a page of the first four megabytes of the kernel half also maps the
      page at the same place of the lower half, because the two directory entries share a table. */
  lemma BootAlias(m: Mem, v: int, frame: int)
    requires BootMemory(m) && K_HEAP_START <= v < 0xc0400000 && v % 4096 == 0 && frame % 4096 == 0
    requires !Present(Pte(m, BOOT_DIR, v))
    ensures PageTableAdd(m, BOOT_DIR, v, frame, 0).Done?
    ensures var m' := PageTableAdd(m, BOOT_DIR, v, frame, 0).value;
            Walk(m', BOOT_DIR, v) == Walk(m', BOOT_DIR, v - 0xc0000000) == Some(frame)
  {
    hide Dir, Tab, Off, Base, Present, PageTableAdd, Walk, SelfMapped, SameSlot, Pde, Pte, BootMemory;
    LowIndices(v);
    LowTables(m, v);
    AddTranslates(m, BOOT_DIR, v, frame, 0);
  }

  lemma LowIndices(v: int)
    requires 0xc0000000 <= v < 0xc0400000 && v % 4096 == 0
    ensures Dir(v) == 768 && Off(v) == 0
    ensures Dir(v - 0xc0000000) == 0 && Tab(v - 0xc0000000) == Tab(v) && Off(v - 0xc0000000) == 0 && 0 <= Tab(v) < 1024
  {
    Decompose(v);
    IndicesOf(v - 0xc0000000, 0, Tab(v), 0);
  }

  /** Entries 0 and 768 of the boot directory share a table. */
  lemma LowTables(m: Mem, v: int)
    requires BootMemory(m) && K_HEAP_START <= v < 0xc0400000 && v % 4096 == 0
    ensures SelfMapped(m, BOOT_DIR) && SameSlot(m, BOOT_DIR, v, v - 0xc0000000)
    ensures Present(Pde(m, BOOT_DIR, v)) && Base(Pde(m, BOOT_DIR, v)) != BOOT_DIR
  {
    hide Dir, Tab, Off, Base, Present, Word;
    LowIndices(v);
    BootTables(m, v);
    BootBase(768);
    BootBase(0);
    BootBase(1023);
  }
}
