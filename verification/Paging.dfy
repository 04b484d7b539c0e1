/**
 The two-level page tables of `kernel/memory.c` and the window onto them that the last directory
 entry opens by pointing at the directory itself.

 Physical memory is a map from word addresses to 32-bit words; a word that is not in the map is
 zero.  `Walk` is the translation of the hardware (section 4.3, "32-Bit Paging", of the Intel SDM,
 volume 3A).  The kernel reads and writes table entries through virtual addresses, so in the model
 every such access goes through `Walk` too.
 */
module Paging {
  import opened Common

  type Mem = map<int, int>

  /** How an access ends: done, a failed assertion, or a page fault. */
  datatype Access<+T> = Done(value: T) | Panic | Fault

  function Word(m: Mem, a: int): int {
    if a in m then m[a] else 0
  }

  predicate Present(entry: int) {
    entry % 2 == 1
  }

  /** `entry & 0xfffff000` */
  function Base(entry: int): int {
    entry - entry % 4096
  }

  /** `PDE_IDX` */
  function Dir(v: int): int {
    v / 0x400000
  }

  /** `PTE_IDX` */
  function Tab(v: int): int {
    v / 4096 % 1024
  }

  function Off(v: int): int {
    v % 4096
  }

  predicate Addr(v: int) {
    0 <= v < WORD
  }

  // ---------------------------------------------------------------------------------------
  // The hardware
  // ---------------------------------------------------------------------------------------

  function PdeAddr(cr3: int, v: int): int {
    cr3 + 4 * Dir(v)
  }

  /** Entry `k` of the directory. */
  function Entry(m: Mem, cr3: int, k: int): int {
    Word(m, cr3 + 4 * k)
  }

  function Pde(m: Mem, cr3: int, v: int): int {
    Entry(m, cr3, Dir(v))
  }

  function PteAddr(m: Mem, cr3: int, v: int): int {
    Base(Pde(m, cr3, v)) + 4 * Tab(v)
  }

  function Pte(m: Mem, cr3: int, v: int): int {
    Word(m, PteAddr(m, cr3, v))
  }

  /** The physical address of `v`, or a page fault. */
  function Walk(m: Mem, cr3: int, v: int): (pa: Option<int>) {
    if Present(Pde(m, cr3, v)) && Present(Pte(m, cr3, v)) then Some(Base(Pte(m, cr3, v)) + Off(v)) else None
  }

  function Load(m: Mem, cr3: int, v: int): (x: Access<int>) {
    match Walk(m, cr3, v)
    case Some(pa) => Done(Word(m, pa))
    case None => Fault
  }

  function Store(m: Mem, cr3: int, v: int, x: int): (m': Access<Mem>) {
    match Walk(m, cr3, v)
    case Some(pa) => Done(m[pa := x])
    case None => Fault
  }

  /** `f` zeroed, a frame of 4096 bytes. */
  function ZeroFrame(m: Mem, f: int): Mem {
    map a | a in m && !(f <= a < f + 4096) :: m[a]
  }

  /** `memset` of the page at the page address `v`. */
  function ZeroPage(m: Mem, cr3: int, v: int): (m': Access<Mem>) {
    match Walk(m, cr3, v)
    case Some(pa) => Done(ZeroFrame(m, pa))
    case None => Fault
  }

  // ---------------------------------------------------------------------------------------
  // The kernel
  // ---------------------------------------------------------------------------------------

  /** `pte_ptr`: 0xffc00000 + ((v & 0xffc00000) >> 10) + PTE_IDX(v) * 4 */
  function PtePtr(v: int): (a: int) {
    0xffc00000 + (v - v % 0x400000) / 1024 + Tab(v) * 4
  }

  /** `pde_ptr` */
  function PdePtr(v: int): (a: int) {
    0xfffff000 + Dir(v) * 4
  }

  /** `addr | PG_US_U | PG_RW_W | PG_P_1` */
  function Flags(addr: int): int {
    addr - addr % 8 + 7
  }

  /** `addr_v2p` */
  function AddrV2P(m: Mem, cr3: int, v: int): (pa: Access<int>) {
    match Load(m, cr3, PtePtr(v))
    case Done(pte) => Done(Base(pte) + Off(v))
    case Panic => Panic
    case Fault => Fault
  }

  /** `page_table_add`; `table` is the frame that `palloc` delivers if a new table is needed. */
  function PageTableAdd(m: Mem, cr3: int, v: int, frame: int, table: int): (r: Access<Mem>) {
    var pde := Load(m, cr3, PdePtr(v));
    if !pde.Done? then Fault
    else if Present(pde.value) then FillEntry(m, cr3, v, frame)
    else
      var linked := Store(m, cr3, PdePtr(v), Flags(table));
      if !linked.Done? then Fault
      else
        var zeroed := ZeroPage(linked.value, cr3, Base(PtePtr(v)));
        if !zeroed.Done? then Fault else FillEntry(zeroed.value, cr3, v, frame)
  }

  /** The assertion that the entry is free, and the store into it. */
  function FillEntry(m: Mem, cr3: int, v: int, frame: int): (r: Access<Mem>) {
    var pte := Load(m, cr3, PtePtr(v));
    if !pte.Done? then Fault
    else if Present(pte.value) then Panic
    else Store(m, cr3, PtePtr(v), Flags(frame))
  }

  /** `page_table_pte_remove` */
  function PteRemove(m: Mem, cr3: int, v: int): (r: Access<Mem>) {
    var pte := Load(m, cr3, PtePtr(v));
    if !pte.Done? then Fault else Store(m, cr3, PtePtr(v), pte.value - pte.value % 2)
  }

  // ---------------------------------------------------------------------------------------
  // The window onto the tables
  // ---------------------------------------------------------------------------------------

  /** Directory entry 1023 points at the directory, whatever its other flags. */
  predicate SelfMapped(m: Mem, cr3: int) {
    Present(Entry(m, cr3, 1023)) && Base(Entry(m, cr3, 1023)) == cr3
  }

  lemma PtrIndices(v: int)
    requires Addr(v)
    ensures Addr(PtePtr(v)) && Dir(PtePtr(v)) == 1023 && Tab(PtePtr(v)) == Dir(v) && Off(PtePtr(v)) == 4 * Tab(v)
    ensures Addr(PdePtr(v)) && Dir(PdePtr(v)) == 1023 && Tab(PdePtr(v)) == 1023 && Off(PdePtr(v)) == 4 * Dir(v)
    ensures Addr(Base(PtePtr(v))) && Dir(Base(PtePtr(v))) == 1023 && Tab(Base(PtePtr(v))) == Dir(v)
            && Off(Base(PtePtr(v))) == 0
    ensures 0 <= Dir(v) < 1024 && 0 <= Tab(v) < 1024
  {
    Decompose(v);
    var d, t := Dir(v), Tab(v);
    assert PtePtr(v) == 0x400000 * 1023 + 4096 * d + 4 * t by { PtePtrSum(v); }
    IndicesOf(PtePtr(v), 1023, d, 4 * t);
    IndicesOf(PdePtr(v), 1023, 1023, 4 * d);
    assert Base(PtePtr(v)) == 0x400000 * 1023 + 4096 * d by { assert Off(PtePtr(v)) == 4 * t; }
    IndicesOf(Base(PtePtr(v)), 1023, d, 0);
    hide PtePtr, Dir, Tab, Off, Base;
  }

  lemma PtePtrSum(v: int)
    ensures PtePtr(v) == 0x400000 * 1023 + 4096 * Dir(v) + 4 * Tab(v)
  {
    var d := v / 0x400000;
    assert v - v % 0x400000 == 1024 * (4096 * d);
    hide Tab;
  }

  lemma Decompose(v: int)
    requires Addr(v)
    ensures 0 <= Dir(v) < 1024 && 0 <= Tab(v) < 1024
    ensures v == 0x400000 * Dir(v) + 4096 * Tab(v) + Off(v)
  {
  }

  lemma IndicesOf(a: int, d: int, t: int, x: int)
    requires a == 0x400000 * d + 4096 * t + x && 0 <= t < 1024 && 0 <= x < 4096
    ensures Dir(a) == d && Tab(a) == t && Off(a) == x
  {
    assert a / 4096 == 1024 * d + t;
  }

  lemma Odd(x: int, q: int)
    requires x == 4096 * q + 7
    ensures Present(x)
  {
    assert x == 2 * (2048 * q + 3) + 1;
  }

  lemma FlagsOf(f: int)
    requires f % 4096 == 0
    ensures Flags(f) == f + 7 && Present(f + 7) && Base(f + 7) == f
  {
    FlagsBase(f);
    FlagsSum(f);
    Odd(f + 7, f / 4096);
    hide *;
  }

  lemma FlagsBase(f: int)
    requires f % 4096 == 0
    ensures Base(f + 7) == f
  {
  }

  lemma FlagsSum(f: int)
    requires f % 4096 == 0
    ensures Flags(f) == f + 7
  {
  }

  lemma BaseAligned(e: int)
    ensures Base(e) % 4096 == 0
  {
  }

  /** Words of different frames are different. */
  lemma Apart(b: int, i: int, c: int, j: int)
    requires b % 4096 == 0 && c % 4096 == 0 && 0 <= i < 1024 && 0 <= j < 1024
    ensures b + 4 * i == c + 4 * j <==> b == c && i == j
  {
  }

  /** Addresses behind the last directory entry see the directory as their table. */
  lemma WalkWindow(m: Mem, cr3: int, w: int)
    requires SelfMapped(m, cr3) && Dir(w) == 1023
    ensures Present(Pde(m, cr3, w)) && PteAddr(m, cr3, w) == cr3 + 4 * Tab(w)
    ensures Walk(m, cr3, w) ==
            if Present(Entry(m, cr3, Tab(w))) then Some(Base(Entry(m, cr3, Tab(w))) + Off(w)) else None
  {
    hide Dir, Tab, Off, Base, Present, Word;
  }

  /** The hardware walk of `pde_ptr(v)` ends at the directory entry of `v`; where that is present, the
      walk of `pte_ptr(v)` ends at the table entry of `v`. */
  lemma WindowOntoTables(m: Mem, cr3: int, v: int)
    requires SelfMapped(m, cr3) && Addr(v)
    ensures Walk(m, cr3, PdePtr(v)) == Some(PdeAddr(cr3, v))
    ensures Walk(m, cr3, PtePtr(v)) == if Present(Pde(m, cr3, v)) then Some(PteAddr(m, cr3, v)) else None
    ensures Walk(m, cr3, Base(PtePtr(v))) == if Present(Pde(m, cr3, v)) then Some(Base(Pde(m, cr3, v))) else None
  {
    hide PtePtr, PdePtr, Dir, Tab, Off, Base, Present, Walk, Word, Addr;
    PtrIndices(v);
    WalkWindow(m, cr3, PtePtr(v));
    WalkWindow(m, cr3, PdePtr(v));
    WalkWindow(m, cr3, Base(PtePtr(v)));
  }

  /** `addr_v2p` is the hardware translation of every mapped address. */
  lemma AddrV2PIsWalk(m: Mem, cr3: int, v: int)
    requires SelfMapped(m, cr3) && Addr(v) && Walk(m, cr3, v).Some?
    ensures AddrV2P(m, cr3, v) == Done(Walk(m, cr3, v).value)
  {
    hide PtePtr, PdePtr, Dir, Tab, Off, Present, Addr, SelfMapped;
    WindowOntoTables(m, cr3, v);
  }

  // ---------------------------------------------------------------------------------------
  // What changing an entry does to all translations
  // ---------------------------------------------------------------------------------------

  /** `f` is neither the directory nor one of the tables it points at. */
  ghost predicate NotTable(m: Mem, cr3: int, f: int) {
    forall k :: 0 <= k < 1024 && Present(Entry(m, cr3, k)) ==> Base(Entry(m, cr3, k)) != f
  }

  /** The entry of `w` is the entry of `v`: one page, or two directory entries with one table. */
  ghost predicate SameSlot(m: Mem, cr3: int, v: int, w: int) {
    Present(Pde(m, cr3, w)) && PteAddr(m, cr3, w) == PteAddr(m, cr3, v)
  }

  /** The table of `w` is the directory itself, as it is for all addresses behind entry 1023. */
  ghost predicate SeesDirectory(m: Mem, cr3: int, w: int) {
    Present(Pde(m, cr3, w)) && Base(Pde(m, cr3, w)) == cr3
  }

  lemma FillEffect(m: Mem, cr3: int, v: int, frame: int)
    requires SelfMapped(m, cr3) && Addr(v) && Present(Pde(m, cr3, v))
    ensures FillEntry(m, cr3, v, frame) ==
            if Present(Pte(m, cr3, v)) then Panic else Done(m[PteAddr(m, cr3, v) := Flags(frame)])
  {
    hide PtePtr, PdePtr, Dir, Tab, Off, Present, Addr, SelfMapped;
    WindowOntoTables(m, cr3, v);
  }

  /** With a table in place, `page_table_add` writes exactly the entry of `v`, and its assertion fires
      exactly if that is in use. */
  lemma AddEffect(m: Mem, cr3: int, v: int, frame: int, table: int)
    requires SelfMapped(m, cr3) && Addr(v) && Present(Pde(m, cr3, v))
    ensures PageTableAdd(m, cr3, v, frame, table) ==
            if Present(Pte(m, cr3, v)) then Panic else Done(m[PteAddr(m, cr3, v) := Flags(frame)])
  {
    hide PtePtr, PdePtr, Dir, Tab, Off, Base, Present, Walk, Flags, FillEntry;
    WindowOntoTables(m, cr3, v);
    FillEffect(m, cr3, v, frame);
  }

  /** The memory after `page_table_add` has brought in a new table. */
  function WithTable(m: Mem, cr3: int, v: int, frame: int, table: int): Mem {
    ZeroFrame(m[PdeAddr(cr3, v) := Flags(table)], table)[table + 4 * Tab(v) := Flags(frame)]
  }

  /** Without a table, `page_table_add` links a zeroed one and fills the entry of `v`. */
  lemma AddTableEffect(m: Mem, cr3: int, v: int, frame: int, table: int)
    requires SelfMapped(m, cr3) && Addr(v) && !Present(Pde(m, cr3, v))
    requires table % 4096 == 0 && table != cr3
    ensures PageTableAdd(m, cr3, v, frame, table) == Done(WithTable(m, cr3, v, frame, table))
  {
    hide PtePtr, PdePtr, Dir, Tab, Off, Base, Present, Walk, Flags, FillEntry, ZeroFrame, Word, Addr;
    PtrIndices(v);
    FlagsOf(table);
    SelfAligned(m, cr3);
    WindowOntoTables(m, cr3, v);
    assert Dir(v) != 1023;
    var m1 := m[PdeAddr(cr3, v) := Flags(table)];
    LinkedEntry(m, cr3, Dir(v), 1023, Flags(table));
    LinkedEntry(m, cr3, Dir(v), Dir(v), Flags(table));
    assert SelfMapped(m1, cr3) && Pde(m1, cr3, v) == table + 7;
    WindowOntoTables(m1, cr3, v);
    var m2 := ZeroFrame(m1, table);
    ZeroedEntry(m1, cr3, table, 1023);
    ZeroedEntry(m1, cr3, table, Dir(v));
    assert SelfMapped(m2, cr3) && Pde(m2, cr3, v) == table + 7;
    ZeroedWords(m1, table, table + 4 * Tab(v));
    assert Pte(m2, cr3, v) == 0;
    NotPresentZero();
    FillEffect(m2, cr3, v, frame);
  }

  lemma LinkedEntry(m: Mem, cr3: int, k: int, i: int, x: int)
    ensures Entry(m[cr3 + 4 * k := x], cr3, i) == if i == k then x else Entry(m, cr3, i)
  {
  }

  lemma NotPresentZero()
    ensures !Present(0)
  {
  }

  lemma ZeroedWords(m: Mem, f: int, a: int)
    ensures Word(ZeroFrame(m, f), a) == if f <= a < f + 4096 then 0 else Word(m, a)
  {
  }

  /** Zeroing another frame leaves the directory alone. */
  lemma ZeroedEntry(m: Mem, cr3: int, f: int, k: int)
    requires cr3 % 4096 == 0 && f % 4096 == 0 && f != cr3 && 0 <= k < 1024
    ensures Entry(ZeroFrame(m, f), cr3, k) == Entry(m, cr3, k)
  {
    ZeroedWords(m, f, cr3 + 4 * k);
  }

  lemma RemoveEffect(m: Mem, cr3: int, v: int)
    requires SelfMapped(m, cr3) && Addr(v) && Present(Pde(m, cr3, v))
    ensures PteRemove(m, cr3, v) == Done(m[PteAddr(m, cr3, v) := Pte(m, cr3, v) - Pte(m, cr3, v) % 2])
  {
    hide PtePtr, PdePtr, Dir, Tab, Off, Present, Addr, SelfMapped;
    WindowOntoTables(m, cr3, v);
  }

  /** A store into a table that is not the directory changes no directory entry, and no translation
      but those that go through the stored word. */
  lemma StoreInTable(m: Mem, cr3: int, v: int, x: int)
    requires SelfMapped(m, cr3) && Addr(v) && Present(Pde(m, cr3, v)) && Base(Pde(m, cr3, v)) != cr3
    ensures var m' := m[PteAddr(m, cr3, v) := x];
            && (forall k :: 0 <= k < 1024 ==> Entry(m', cr3, k) == Entry(m, cr3, k))
            && (forall w :: Addr(w) ==>
                  Walk(m', cr3, w) ==
                    if SameSlot(m, cr3, v, w) then (if Present(x) then Some(Base(x) + Off(w)) else None)
                    else Walk(m, cr3, w))
  {
    hide *;
    var m' := m[PteAddr(m, cr3, v) := x];
    forall k | 0 <= k < 1024
      ensures Entry(m', cr3, k) == Entry(m, cr3, k)
    {
      StoredEntry(m, cr3, v, x, k);
    }
    forall w | Addr(w)
      ensures Walk(m', cr3, w) ==
        if SameSlot(m, cr3, v, w) then (if Present(x) then Some(Base(x) + Off(w)) else None) else Walk(m, cr3, w)
    {
      PtrIndices(w);
      StoredEntry(m, cr3, v, x, Dir(w));
      StoredWalk(m, cr3, v, x, w);
    }
  }

  lemma StoredEntry(m: Mem, cr3: int, v: int, x: int, k: int)
    requires SelfMapped(m, cr3) && Addr(v) && Base(Pde(m, cr3, v)) != cr3 && 0 <= k < 1024
    ensures Entry(m[PteAddr(m, cr3, v) := x], cr3, k) == Entry(m, cr3, k)
  {
    hide Tab, Dir, Base, Present, Addr, SelfMapped, PtePtr, PdePtr, Off;
    PtrIndices(v);
    SelfAligned(m, cr3);
    BaseAligned(Pde(m, cr3, v));
    Apart(Base(Pde(m, cr3, v)), Tab(v), cr3, k);
  }

  lemma StoredWalk(m: Mem, cr3: int, v: int, x: int, w: int)
    requires Entry(m[PteAddr(m, cr3, v) := x], cr3, Dir(w)) == Entry(m, cr3, Dir(w))
    ensures Walk(m[PteAddr(m, cr3, v) := x], cr3, w) ==
            if SameSlot(m, cr3, v, w) then (if Present(x) then Some(Base(x) + Off(w)) else None) else Walk(m, cr3, w)
  {
    hide Entry, Dir, Tab, Off, Base, Present;
  }

  /** Mapping `v` maps exactly the addresses that share its entry. */
  lemma AddTranslates(m: Mem, cr3: int, v: int, frame: int, table: int)
    requires SelfMapped(m, cr3) && Addr(v) && Present(Pde(m, cr3, v)) && Base(Pde(m, cr3, v)) != cr3
    requires !Present(Pte(m, cr3, v)) && frame % 4096 == 0
    ensures PageTableAdd(m, cr3, v, frame, table).Done?
    ensures var m' := PageTableAdd(m, cr3, v, frame, table).value;
            && Walk(m', cr3, v) == Some(frame + Off(v))
            && (forall w :: Addr(w) ==>
                  Walk(m', cr3, w) == if SameSlot(m, cr3, v, w) then Some(frame + Off(w)) else Walk(m, cr3, w))
  {
    hide *;
    AddEffect(m, cr3, v, frame, table);
    FlagsOf(frame);
    SlotSelf(m, cr3, v);
    StoreInTable(m, cr3, v, Flags(frame));
  }

  lemma SlotSelf(m: Mem, cr3: int, v: int)
    requires Present(Pde(m, cr3, v))
    ensures SameSlot(m, cr3, v, v)
  {
    hide Present, Pde, PteAddr;
  }

  lemma WithTableWords(m: Mem, cr3: int, v: int, frame: int, table: int)
    requires Addr(v) && table % 4096 == 0
    ensures var m' := WithTable(m, cr3, v, frame, table);
            forall a :: Word(m', a) ==
              if a == table + 4 * Tab(v) then Flags(frame)
              else if table <= a < table + 4096 then 0
              else if a == PdeAddr(cr3, v) then table + 7
              else Word(m, a)
  {
    PtrIndices(v);
    FlagsOf(table);
    hide Dir, Tab, Flags, ZeroFrame;
    var m1 := m[PdeAddr(cr3, v) := Flags(table)];
    var m' := WithTable(m, cr3, v, frame, table);
    forall a: int
      ensures Word(m', a) ==
        if a == table + 4 * Tab(v) then Flags(frame)
        else if table <= a < table + 4096 then 0
        else if a == PdeAddr(cr3, v) then table + 7
        else Word(m, a)
    {
      ZeroedWords(m1, table, a);
    }
  }

  lemma WithTableEntries(m: Mem, cr3: int, v: int, frame: int, table: int)
    requires SelfMapped(m, cr3) && Addr(v) && table % 4096 == 0 && table != cr3
    ensures var m' := WithTable(m, cr3, v, frame, table);
            forall k :: 0 <= k < 1024 ==>
              Entry(m', cr3, k) == if k == Dir(v) then table + 7 else Entry(m, cr3, k)
  {
    PtrIndices(v);
    SelfAligned(m, cr3);
    hide Dir, Tab, Flags, WithTable, Word, SelfMapped;
    WithTableWords(m, cr3, v, frame, table);
    forall k | 0 <= k < 1024
      ensures Entry(WithTable(m, cr3, v, frame, table), cr3, k) == if k == Dir(v) then table + 7 else Entry(m, cr3, k)
    {
      OutsideFrame(cr3, k, table);
    }
  }

  /** Mapping `v` with a new table maps the page of `v`, opens the window page onto the new table, and
      changes no other translation. */
  lemma AddTableTranslates(m: Mem, cr3: int, v: int, frame: int, table: int)
    requires SelfMapped(m, cr3) && Addr(v) && !Present(Pde(m, cr3, v))
    requires frame % 4096 == 0 && table % 4096 == 0 && NotTable(m, cr3, table)
    ensures PageTableAdd(m, cr3, v, frame, table).Done?
    ensures var m' := PageTableAdd(m, cr3, v, frame, table).value;
            forall w :: Addr(w) ==>
              Walk(m', cr3, w) ==
                if Dir(w) == Dir(v) && Tab(w) == Tab(v) then Some(frame + Off(w))
                else if SeesDirectory(m, cr3, w) && Tab(w) == Dir(v) then Some(table + Off(w))
                else Walk(m, cr3, w)
  {
    hide *;
    TableNotDirectory(m, cr3, table);
    AddTableEffect(m, cr3, v, frame, table);
    forall w | Addr(w)
      ensures Walk(WithTable(m, cr3, v, frame, table), cr3, w) ==
        if Dir(w) == Dir(v) && Tab(w) == Tab(v) then Some(frame + Off(w))
        else if SeesDirectory(m, cr3, w) && Tab(w) == Dir(v) then Some(table + Off(w))
        else Walk(m, cr3, w)
    {
      WithTableWalk(m, cr3, v, frame, table, w);
    }
  }

  lemma TableNotDirectory(m: Mem, cr3: int, table: int)
    requires SelfMapped(m, cr3) && NotTable(m, cr3, table)
    ensures table != cr3
  {
    hide Present, Base;
    assert Present(Entry(m, cr3, 1023));
  }

  lemma WithTableWalk(m: Mem, cr3: int, v: int, frame: int, table: int, w: int)
    requires SelfMapped(m, cr3) && Addr(v) && Addr(w) && !Present(Pde(m, cr3, v))
    requires frame % 4096 == 0 && table % 4096 == 0 && table != cr3 && NotTable(m, cr3, table)
    ensures Walk(WithTable(m, cr3, v, frame, table), cr3, w) ==
            if Dir(w) == Dir(v) && Tab(w) == Tab(v) then Some(frame + Off(w))
            else if SeesDirectory(m, cr3, w) && Tab(w) == Dir(v) then Some(table + Off(w))
            else Walk(m, cr3, w)
  {
    hide WithTable, Dir, Tab, Off, Flags, Present, Base, Word, SelfMapped;
    PtrIndices(v);
    PtrIndices(w);
    FlagsOf(table);
    FlagsOf(frame);
    NotPresentZero();
    WithTableWords(m, cr3, v, frame, table);
    WithTableEntries(m, cr3, v, frame, table);
    var m' := WithTable(m, cr3, v, frame, table);
    if Dir(w) == Dir(v) {
      assert PteAddr(m', cr3, w) == table + 4 * Tab(w);
    } else if Present(Pde(m, cr3, w)) {
      var b := Base(Pde(m, cr3, w));
      BaseAligned(Pde(m, cr3, w));
      SelfAligned(m, cr3);
      Apart(b, Tab(w), table, Tab(v));
      Apart(b, Tab(w), cr3, Dir(v));
      OutsideFrame(b, Tab(w), table);
    }
  }

  lemma SelfAligned(m: Mem, cr3: int)
    requires SelfMapped(m, cr3)
    ensures cr3 % 4096 == 0
  {
    hide Base, Present, Entry;
    BaseAligned(Entry(m, cr3, 1023));
  }

  lemma OutsideFrame(b: int, i: int, f: int)
    requires b % 4096 == 0 && f % 4096 == 0 && b != f && 0 <= i < 1024
    ensures !(f <= b + 4 * i < f + 4096)
  {
  }

  /** Unmapping `v` unmaps exactly the addresses that share its entry. */
  lemma RemoveTranslates(m: Mem, cr3: int, v: int)
    requires SelfMapped(m, cr3) && Addr(v) && Present(Pde(m, cr3, v)) && Base(Pde(m, cr3, v)) != cr3
    ensures PteRemove(m, cr3, v).Done?
    ensures var m' := PteRemove(m, cr3, v).value;
            forall w :: Addr(w) ==> Walk(m', cr3, w) == if SameSlot(m, cr3, v, w) then None else Walk(m, cr3, w)
  {
    hide *;
    RemoveEffect(m, cr3, v);
    NotPresentEven(Pte(m, cr3, v));
    StoreInTable(m, cr3, v, Pte(m, cr3, v) - Pte(m, cr3, v) % 2);
  }

  lemma NotPresentEven(e: int)
    ensures !Present(e - e % 2)
  {
    assert e - e % 2 == 2 * (e / 2);
  }
}
