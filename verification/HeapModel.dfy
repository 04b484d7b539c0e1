/**
 Arenas, blocks and free lists of `sys_malloc` and `sys_free` (`kernel/memory.c`).

 An arena is one page cut into equal blocks, or a run of pages for one large request, with a header
 of 12 bytes at its start.  The blocks of all arenas of a size class that are not handed out are on
 one list.
 */
module HeapModel {
  import opened Common

  const DESC_CNT := 7
  const ARENA := 12  // sizeof(struct arena)

  /** `struct arena`: a small arena has a descriptor and counts its free blocks; a large one has none and
      counts its pages. */
  datatype Arena = Small(d: nat, cnt: nat) | Large(pages: nat)

  /** `struct mem_block_desc` */
  datatype Desc = Desc(blockSize: nat, perArena: nat, free: seq<int>)

  /** The block size of class `d`. */
  function Size(d: nat): (s: nat)
    requires d < DESC_CNT
    ensures 16 <= s <= 1024
  {
    if d == 0 then 16 else if d == 1 then 32 else if d == 2 then 64 else if d == 3 then 128
    else if d == 4 then 256 else if d == 5 then 512 else 1024
  }

  /** The number of blocks in an arena of class `d`. */
  function PerArena(d: nat): (n: nat)
    requires d < DESC_CNT
    ensures 3 <= n <= 255
  {
    (4096 - ARENA) / Size(d)
  }

  /** `arena2block` */
  function Block(a: int, d: nat, k: int): (b: int)
    requires d < DESC_CNT
  {
    a + ARENA + k * Size(d)
  }

  /** `block2arena` */
  function Home(b: int): (a: int) {
    b - b % 4096
  }

  /** The smallest class that holds `size` bytes. */
  function ClassOf(size: nat): (d: nat)
    requires size <= 1024
    ensures d < DESC_CNT && size <= Size(d) && (d > 0 ==> Size(d - 1) < size)
  {
    if size <= 16 then 0 else if size <= 32 then 1 else if size <= 64 then 2 else if size <= 128 then 3
    else if size <= 256 then 4 else if size <= 512 then 5 else 6
  }

  // ---------------------------------------------------------------------------------------
  // Addresses
  // ---------------------------------------------------------------------------------------

  /** A block lies behind the header and inside its page. */
  lemma BlockInPage(a: int, d: nat, k: int)
    requires d < DESC_CNT && 0 <= k < PerArena(d)
    ensures a + ARENA <= Block(a, d, k) && Block(a, d, k) + Size(d) <= a + 4096
  {
    if d == 0 { assert PerArena(d) == 255; } else if d == 1 { assert PerArena(d) == 127; }
    else if d == 2 { assert PerArena(d) == 63; } else if d == 3 { assert PerArena(d) == 31; }
    else if d == 4 { assert PerArena(d) == 15; } else if d == 5 { assert PerArena(d) == 7; }
    else { assert PerArena(d) == 3; }
  }

  /** `block2arena` undoes `arena2block`, and finds the header of a large arena from the pointer behind it. */
  lemma HomeOfBlock(a: int, d: nat, k: int)
    requires a % 4096 == 0 && d < DESC_CNT && 0 <= k < PerArena(d)
    ensures Home(Block(a, d, k)) == a && Home(a + ARENA) == a
  {
    BlockInPage(a, d, k);
    hide Block;
    Inside(a, Block(a, d, k));
    Inside(a, a + ARENA);
  }

  lemma Inside(a: int, b: int)
    requires a % 4096 == 0 && a <= b < a + 4096
    ensures Home(b) == a
  {
  }

  /** Different blocks of a class in one arena do not overlap. */
  lemma BlocksApart(a: int, d: nat, j: int, k: int)
    requires d < DESC_CNT && j < k
    ensures Block(a, d, j) + Size(d) <= Block(a, d, k)
  {
    var s := Size(d);
    assert k * s - j * s == (k - j) * s >= s;
  }

  // ---------------------------------------------------------------------------------------
  // The invariant
  // ---------------------------------------------------------------------------------------

  /** Block `k` of the small arena at `a`. */
  ghost predicate IsBlock(arenas: map<int, Arena>, d: nat, a: int, k: int, b: int) {
    && a in arenas && arenas[a].Small? && arenas[a].d == d && d < DESC_CNT
    && 0 <= k < PerArena(d) && b == Block(a, d, k)
  }

  /** Some block of class `d`. */
  ghost predicate SomeBlock(arenas: map<int, Arena>, d: nat, b: int) {
    exists a, k :: IsBlock(arenas, d, a, k, b)
  }

  /** The numbers of the blocks of an arena that are not handed out. */
  ghost function FreeBlocks(a: int, d: nat, live: map<int, nat>): set<int>
    requires d < DESC_CNT
  {
    set k | 0 <= k < PerArena(d) && Block(a, d, k) !in live
  }

  function PageCount(ar: Arena): nat {
    if ar.Small? then 1 else ar.pages
  }

  /** The byte range of the pages of an arena. */
  predicate Covers(a: int, ar: Arena, x: int) {
    a <= x < a + 4096 * PageCount(ar)
  }

  /** Arenas start at pages and do not overlap. */
  ghost predicate ArenasApart(arenas: map<int, Arena>) {
    && (forall a :: a in arenas ==> a % 4096 == 0 && PageCount(arenas[a]) > 0)
    && (forall a :: a in arenas && arenas[a].Small? ==> arenas[a].d < DESC_CNT)
    && (forall a, b, x :: a in arenas && b in arenas && Covers(a, arenas[a], x) && Covers(b, arenas[b], x) ==> a == b)
  }

  /** A small arena counts its free blocks and has some block handed out, unless it is `untouched`. */
  ghost predicate CountOk(arenas: map<int, Arena>, live: map<int, nat>, a: int, untouched: bool) {
    a in arenas && arenas[a].Small? ==>
      && arenas[a].d < DESC_CNT
      && arenas[a].cnt == |FreeBlocks(a, arenas[a].d, live)|
      && (untouched || arenas[a].cnt < PerArena(arenas[a].d))
  }

  /** A list holds exactly the blocks of its class that are not handed out, once each. */
  ghost predicate ListOk(arenas: map<int, Arena>, live: map<int, nat>, d: nat, q: seq<int>) {
    && NoDup(q)
    && (forall b :: b in q <==> SomeBlock(arenas, d, b) && b !in live)
  }

  /** A pointer that is handed out is a block of at least its size, or the space behind the header of a
      large arena that holds it. */
  ghost predicate LiveOk(arenas: map<int, Arena>, p: int, size: nat) {
    Home(p) in arenas &&
    match arenas[Home(p)]
    case Small(d, _) => d < DESC_CNT && size <= Size(d) && SomeBlock(arenas, d, p)
    case Large(n) => p == Home(p) + ARENA && size + ARENA <= 4096 * n
  }

  ghost predicate DescsOk(descs: seq<Desc>) {
    && |descs| == DESC_CNT
    && forall d :: 0 <= d < DESC_CNT ==> descs[d].blockSize == Size(d) && descs[d].perArena == PerArena(d)
  }

  /** `young` is the address of an arena just created, or no address. */
  ghost predicate HeapOk(descs: seq<Desc>, arenas: map<int, Arena>, live: map<int, nat>, young: int) {
    && DescsOk(descs)
    && ArenasApart(arenas)
    && (forall a :: a in arenas ==> CountOk(arenas, live, a, a == young))
    && (forall d :: 0 <= d < DESC_CNT ==> ListOk(arenas, live, d, descs[d].free))
    && (forall p :: p in live ==> LiveOk(arenas, p, live[p]))
    && (forall a :: a in arenas && arenas[a].Large? ==> a + ARENA in live)
  }

  // ---------------------------------------------------------------------------------------
  // What a caller gets
  // ---------------------------------------------------------------------------------------

  /** A block belongs to one arena, under one number. */
  lemma BlockUnique(arenas: map<int, Arena>, d: nat, a: int, k: int, e: nat, c: int, j: int, b: int)
    requires ArenasApart(arenas) && IsBlock(arenas, d, a, k, b) && IsBlock(arenas, e, c, j, b)
    ensures a == c == Home(b) && d == e && k == j
  {
    HomeOfBlock(a, d, k);
    HomeOfBlock(c, e, j);
    if k < j { BlocksApart(a, d, k, j); }
    if j < k { BlocksApart(a, d, j, k); }
    hide Block, PerArena, Size;
  }

  /** The space of a pointer that is handed out lies in the pages of its arena, behind the header, which
      `block2arena` finds. */
  lemma LivePlace(descs: seq<Desc>, arenas: map<int, Arena>, live: map<int, nat>, p: int)
    requires HeapOk(descs, arenas, live, -1) && p in live
    ensures var a := Home(p);
            && a in arenas && a % 4096 == 0 && a + ARENA <= p
            && p + live[p] <= a + 4096 * PageCount(arenas[a])
  {
    assert LiveOk(arenas, p, live[p]);
    var a := Home(p);
    if arenas[a].Small? {
      var d := arenas[a].d;
      var c, k :| IsBlock(arenas, d, c, k, p);
      HomeOfBlock(c, d, k);
      BlockInPage(c, d, k);
    }
  }

  /** Two pointers that are handed out never share a byte. */
  lemma LiveDisjoint(descs: seq<Desc>, arenas: map<int, Arena>, live: map<int, nat>, p: int, q: int)
    requires HeapOk(descs, arenas, live, -1) && p in live && q in live && p < q
    ensures p + live[p] <= q
  {
    hide ListOk, CountOk, Block, PerArena, DescsOk, Home;
    LivePlace(descs, arenas, live, p);
    LivePlace(descs, arenas, live, q);
    assert LiveOk(arenas, p, live[p]) && LiveOk(arenas, q, live[q]);
    var a, b := Home(p), Home(q);
    if a == b {
      if arenas[a].Small? {
        var d := arenas[a].d;
        var c, k :| IsBlock(arenas, d, c, k, p);
        var e, j :| IsBlock(arenas, d, e, j, q);
        HomeOfBlock(c, d, k);
        HomeOfBlock(e, d, j);
        if k < j { BlocksApart(a, d, k, j); } else if j < k { BlocksApart(a, d, j, k); }
      }
    } else {
      LiveCovered(arenas, live, q);
      assert !Covers(a, arenas[a], q);
    }
  }

  lemma LiveCovered(arenas: map<int, Arena>, live: map<int, nat>, q: int)
    requires ArenasApart(arenas) && q in live && LiveOk(arenas, q, live[q])
    ensures Covers(Home(q), arenas[Home(q)], q)
  {
  }

  /** No byte that is handed out is in the header of an arena. */
  lemma LiveAvoidsHeaders(descs: seq<Desc>, arenas: map<int, Arena>, live: map<int, nat>, p: int, x: int, a: int)
    requires HeapOk(descs, arenas, live, -1) && p in live && p <= x < p + live[p] && a in arenas
    ensures !(a <= x < a + ARENA)
  {
    hide CountOk, DescsOk, ListOk, Home;
    LivePlace(descs, arenas, live, p);
    assert Covers(Home(p), arenas[Home(p)], x);
    if a != Home(p) {
      assert !Covers(a, arenas[a], x);
    }
  }

  /** No byte that is handed out is in a free block. */
  lemma LiveAvoidsFree(descs: seq<Desc>, arenas: map<int, Arena>, live: map<int, nat>, p: int, x: int, d: nat, b: int)
    requires HeapOk(descs, arenas, live, -1) && p in live && p <= x < p + live[p]
    requires d < DESC_CNT && b in descs[d].free
    ensures !(b <= x < b + Size(d))
  {
    hide CountOk, Home, Size, NoDup, SomeBlock, LiveOk, ArenasApart;
    LivePlace(descs, arenas, live, p);
    assert ListOk(arenas, live, d, descs[d].free) && LiveOk(arenas, p, live[p]);
    FreeAvoids(arenas, live, p, d, b, x);
  }

  lemma FreeAvoids(arenas: map<int, Arena>, live: map<int, nat>, p: int, d: nat, b: int, x: int)
    requires ArenasApart(arenas) && p in live && LiveOk(arenas, p, live[p]) && Home(p) in arenas
    requires d < DESC_CNT && SomeBlock(arenas, d, b) && b !in live && p <= x < p + live[p]
    requires Covers(Home(p), arenas[Home(p)], x)
    ensures !(b <= x < b + Size(d))
  {
    var c, k :| IsBlock(arenas, d, c, k, b);
    BlockInPage(c, d, k);
    var a := Home(p);
    if c != a {
      assert !Covers(c, arenas[c], x);
    } else {
      var e, j :| IsBlock(arenas, d, e, j, p);
      HomeOfBlock(e, d, j);
      hide Home, PerArena, Size;
      if k < j { BlocksApart(a, d, k, j); } else if j < k { BlocksApart(a, d, j, k); }
    }
  }

  /** With nothing handed out there are no arenas and the lists are empty. */
  lemma NothingLive(descs: seq<Desc>, arenas: map<int, Arena>, live: map<int, nat>)
    requires HeapOk(descs, arenas, live, -1) && live == map[]
    ensures arenas == map[] && forall d :: 0 <= d < DESC_CNT ==> descs[d].free == []
  {
    forall a | a in arenas
      ensures false
    {
      assert CountOk(arenas, live, a, a == -1);
      if arenas[a].Small? {
        AllFree(a, arenas[a].d, live);
      }
    }
    assert arenas == map[];
    forall d | 0 <= d < DESC_CNT
      ensures descs[d].free == []
    {
      assert ListOk(arenas, live, d, descs[d].free);
      SomeElement(descs[d].free);
    }
  }

  lemma SomeElement(q: seq<int>)
    ensures q == [] || exists b :: b in q
  {
    if q != [] {
      var b := q[0];
      assert b in q;
    }
  }

  // ---------------------------------------------------------------------------------------
  // Counting
  // ---------------------------------------------------------------------------------------

  ghost function Upto(n: nat): set<int> {
    set k {:trigger Number(k)} | 0 <= k < n && Number(k)
  }

  predicate Number(k: int) {
    true
  }

  lemma {:induction false} UptoSize(n: nat)
    ensures |Upto(n)| == n
  {
    if n > 0 {
      UptoSize(n - 1);
      assert Upto(n) == Upto(n - 1) + {n - 1};
    } else {
      assert Upto(0) == {};
    }
  }

  /** All numbers are free exactly if there are as many as blocks. */
  lemma FullCount(a: int, d: nat, live: map<int, nat>)
    requires d < DESC_CNT
    ensures |FreeBlocks(a, d, live)| <= PerArena(d)
    ensures |FreeBlocks(a, d, live)| == PerArena(d) <==> forall k :: 0 <= k < PerArena(d) ==> Block(a, d, k) !in live
  {
    hide Block, PerArena;
    var f, u := FreeBlocks(a, d, live), Upto(PerArena(d));
    UptoSize(PerArena(d));
    assert f <= u;
    SubsetSize(f, u);
    if forall k :: 0 <= k < PerArena(d) ==> Block(a, d, k) !in live {
      assert f == u;
    }
    if |f| == PerArena(d) {
      forall k | 0 <= k < PerArena(d)
        ensures Block(a, d, k) !in live
      {
        assert k in u;
      }
    }
  }

  lemma {:induction false} SubsetSize<T>(s: set<T>, t: set<T>)
    requires s <= t
    ensures |s| <= |t| && (|s| == |t| ==> s == t)
  {
    if |s| > 0 {
      var x :| x in s;
      SubsetSize(s - {x}, t - {x});
      assert s == (s - {x}) + {x} && t == (t - {x}) + {x};
    }
  }

  lemma AllFree(a: int, d: nat, live: map<int, nat>)
    requires d < DESC_CNT && live == map[]
    ensures |FreeBlocks(a, d, live)| == PerArena(d)
  {
    FullCount(a, d, live);
  }
}
