/**
 Every step of `sys_malloc` and `sys_free` on arenas, lists and pointers keeps the invariant of `HeapModel`.
 */
module HeapSteps {
  import opened Common
  import opened HeapModel

  // ---------------------------------------------------------------------------------------
  // Lists
  // ---------------------------------------------------------------------------------------

  /** The first `n` blocks of an arena, in order. */
  function Blocks(a: int, d: nat, n: nat): (q: seq<int>)
    requires d < DESC_CNT
    ensures |q| == n
  {
    if n == 0 then [] else Blocks(a, d, n - 1) + [Block(a, d, n - 1)]
  }

  lemma {:induction false} BlocksAt(a: int, d: nat, n: nat, k: int)
    requires d < DESC_CNT && 0 <= k < n
    ensures Blocks(a, d, n)[k] == Block(a, d, k)
  {
    if k < n - 1 { BlocksAt(a, d, n - 1, k); }
  }

  lemma BlocksNoDup(a: int, d: nat, n: nat)
    requires d < DESC_CNT
    ensures NoDup(Blocks(a, d, n))
  {
    forall i, j | 0 <= i < j < n
      ensures Blocks(a, d, n)[i] != Blocks(a, d, n)[j]
    {
      BlocksAt(a, d, n, i);
      BlocksAt(a, d, n, j);
      BlocksApart(a, d, i, j);
      hide Block, Blocks;
    }
  }

  lemma BlocksIn(a: int, d: nat, n: nat, b: int)
    requires d < DESC_CNT
    ensures b in Blocks(a, d, n) <==> exists k :: 0 <= k < n && b == Block(a, d, k)
  {
    var q := Blocks(a, d, n);
    forall k | 0 <= k < n
      ensures q[k] == Block(a, d, k)
    {
      BlocksAt(a, d, n, k);
    }
    hide Blocks, Block;
    if k :| 0 <= k < n && b == Block(a, d, k) { assert q[k] == b; }
  }

  /** `list_remove` of `b`. */
  function RemoveOne(q: seq<int>, b: int): (r: seq<int>) {
    if q == [] then [] else if q[0] == b then q[1..] else [q[0]] + RemoveOne(q[1..], b)
  }

  /** What is left of a list, in order, without the elements of a set. */
  ghost function Without(q: seq<int>, gone: set<int>): (r: seq<int>) {
    if q == [] then [] else (if q[0] in gone then [] else [q[0]]) + Without(q[1..], gone)
  }

  lemma {:induction false} WithoutIn(q: seq<int>, gone: set<int>, b: int)
    ensures b in Without(q, gone) <==> b in q && b !in gone
  {
    if q != [] {
      WithoutIn(q[1..], gone, b);
      assert q == [q[0]] + q[1..];
    }
  }

  lemma {:induction false} WithoutNoDup(q: seq<int>, gone: set<int>)
    requires NoDup(q)
    ensures NoDup(Without(q, gone))
  {
    if q != [] {
      WithoutNoDup(q[1..], gone);
      WithoutIn(q[1..], gone, q[0]);
      NotLater(q);
    }
  }

  lemma NotLater(q: seq<int>)
    requires NoDup(q) && q != []
    ensures q[0] !in q[1..]
  {
    var t := q[1..];
    forall i | 0 <= i < |t|
      ensures t[i] != q[0]
    {
      assert t[i] == q[i + 1];
    }
  }

  lemma {:induction false} WithoutNone(q: seq<int>)
    ensures Without(q, {}) == q
  {
    if q != [] { WithoutNone(q[1..]); }
  }

  lemma WithoutStep(q: seq<int>, gone: set<int>)
    requires q != []
    ensures Without(q, gone) == if q[0] in gone then Without(q[1..], gone) else [q[0]] + Without(q[1..], gone)
  {
  }

  lemma RemoveStep(x: int, w: seq<int>, b: int)
    ensures RemoveOne([x] + w, b) == if x == b then w else [x] + RemoveOne(w, b)
  {
    assert ([x] + w)[1..] == w;
  }

  /** Removing one element after another removes the set. */
  lemma {:induction false} RemoveMore(q: seq<int>, gone: set<int>, b: int)
    requires NoDup(q) && b !in gone
    ensures RemoveOne(Without(q, gone), b) == Without(q, gone + {b})
  {
    if q != [] {
      hide Without, RemoveOne, NoDup;
      var t := q[1..];
      NotLater(q);
      TailNoDup(q);
      RemoveMore(t, gone, b);
      WithoutStep(q, gone);
      WithoutStep(q, gone + {b});
      RemoveStep(q[0], Without(t, gone), b);
      if q[0] == b { Absent(t, gone, b); }
    }
  }

  lemma TailNoDup(q: seq<int>)
    requires NoDup(q) && q != []
    ensures NoDup(q[1..])
  {
  }

  lemma {:induction false} Absent(q: seq<int>, gone: set<int>, b: int)
    requires b !in q
    ensures Without(q, gone + {b}) == Without(q, gone)
  {
    if q != [] { Absent(q[1..], gone, b); }
  }

  // ---------------------------------------------------------------------------------------
  // Counts
  // ---------------------------------------------------------------------------------------

  /** Handing out a free block. */
  lemma CountTake(a: int, d: nat, k: int, live: map<int, nat>, size: nat)
    requires d < DESC_CNT && 0 <= k < PerArena(d) && Block(a, d, k) !in live
    ensures |FreeBlocks(a, d, live)| > 0
    ensures |FreeBlocks(a, d, live[Block(a, d, k) := size])| == |FreeBlocks(a, d, live)| - 1
  {
    var b := Block(a, d, k);
    forall j | 0 <= j < PerArena(d) && j != k
      ensures Block(a, d, j) != b
    {
      if j < k { BlocksApart(a, d, j, k); } else { BlocksApart(a, d, k, j); }
    }
    hide Block, PerArena;
    assert k in FreeBlocks(a, d, live);
    assert FreeBlocks(a, d, live) - {k} == FreeBlocks(a, d, live[b := size]);
  }

  /** Taking a block back. */
  lemma CountGive(a: int, d: nat, k: int, live: map<int, nat>)
    requires d < DESC_CNT && 0 <= k < PerArena(d) && Block(a, d, k) in live
    ensures |FreeBlocks(a, d, live - {Block(a, d, k)})| == |FreeBlocks(a, d, live)| + 1
  {
    var b := Block(a, d, k);
    forall j | 0 <= j < PerArena(d) && j != k
      ensures Block(a, d, j) != b
    {
      if j < k { BlocksApart(a, d, j, k); } else { BlocksApart(a, d, k, j); }
    }
    hide Block, PerArena;
    assert FreeBlocks(a, d, live - {b}) == FreeBlocks(a, d, live) + {k};
  }

  /** Pointers of other arenas do not matter. */
  lemma CountSame(a: int, d: nat, live: map<int, nat>, live': map<int, nat>, b: int)
    requires d < DESC_CNT && a % 4096 == 0 && Home(b) != a
    requires forall x :: x != b ==> (x in live <==> x in live')
    ensures FreeBlocks(a, d, live) == FreeBlocks(a, d, live')
  {
    forall k | 0 <= k < PerArena(d)
      ensures Block(a, d, k) != b
    {
      HomeOfBlock(a, d, k);
    }
    hide Block, PerArena, Home;
  }

  // ---------------------------------------------------------------------------------------
  // A change of the count of one arena
  // ---------------------------------------------------------------------------------------

  /** Only the count of the arena at `a` differs. */
  ghost predicate Recount(arenas: map<int, Arena>, arenas': map<int, Arena>, a: int) {
    && a in arenas && arenas[a].Small?
    && arenas'.Keys == arenas.Keys
    && (forall c :: c in arenas && c != a ==> arenas'[c] == arenas[c])
    && arenas'[a].Small? && arenas'[a].d == arenas[a].d
  }

  lemma RecountBlocks(arenas: map<int, Arena>, arenas': map<int, Arena>, a: int, d: nat, b: int)
    requires Recount(arenas, arenas', a)
    ensures SomeBlock(arenas', d, b) <==> SomeBlock(arenas, d, b)
  {
    hide Block, PerArena;
    if SomeBlock(arenas, d, b) {
      var c, k :| IsBlock(arenas, d, c, k, b);
      assert IsBlock(arenas', d, c, k, b);
    }
    if SomeBlock(arenas', d, b) {
      var c, k :| IsBlock(arenas', d, c, k, b);
      assert IsBlock(arenas, d, c, k, b);
    }
  }

  lemma RecountApart(arenas: map<int, Arena>, arenas': map<int, Arena>, a: int)
    requires Recount(arenas, arenas', a) && ArenasApart(arenas)
    ensures ArenasApart(arenas')
  {
    forall c, b, x | c in arenas' && b in arenas' && Covers(c, arenas'[c], x) && Covers(b, arenas'[b], x)
      ensures c == b
    {
      assert Covers(c, arenas[c], x) && Covers(b, arenas[b], x);
    }
  }

  lemma RecountLive(arenas: map<int, Arena>, arenas': map<int, Arena>, a: int, p: int, size: nat)
    requires Recount(arenas, arenas', a) && LiveOk(arenas, p, size)
    ensures LiveOk(arenas', p, size)
  {
    hide Block, PerArena, Home, SomeBlock, Size;
    if arenas[Home(p)].Small? {
      RecountBlocks(arenas, arenas', a, arenas[Home(p)].d, p);
    }
  }

  // ---------------------------------------------------------------------------------------
  // Handing out a block
  // ---------------------------------------------------------------------------------------

  /** The block of a list element. */
  lemma Listed(arenas: map<int, Arena>, live: map<int, nat>, d: nat, q: seq<int>, b: int)
    requires ArenasApart(arenas) && d < DESC_CNT && ListOk(arenas, live, d, q) && b in q
    ensures b !in live && Home(b) in arenas && arenas[Home(b)].Small? && arenas[Home(b)].d == d
    ensures exists k :: IsBlock(arenas, d, Home(b), k, b)
  {
    var a, k :| IsBlock(arenas, d, a, k, b);
    HomeOfBlock(a, d, k);
    hide Block, Home, PerArena;
  }

  lemma PopCount(arenas: map<int, Arena>, arenas': map<int, Arena>, live: map<int, nat>, b: int, k: int, size: nat,
                 c: int)
    requires ArenasApart(arenas) && Recount(arenas, arenas', Home(b)) && c in arenas
    requires IsBlock(arenas, arenas[Home(b)].d, Home(b), k, b) && b !in live
    requires CountOk(arenas, live, Home(b), true) && (c != Home(b) ==> CountOk(arenas, live, c, false))
    requires arenas'[Home(b)].cnt == arenas[Home(b)].cnt - 1
    ensures arenas[Home(b)].cnt > 0 && CountOk(arenas', live[b := size], c, false)
  {
    var a := Home(b);
    CountTake(a, arenas[a].d, k, live, size);
    FullCount(a, arenas[a].d, live);
    hide FreeBlocks, Home, PerArena, Block;
    if c != a && arenas[c].Small? {
      CountSame(c, arenas[c].d, live, live[b := size], b);
    }
  }

  lemma PopList(arenas: map<int, Arena>, arenas': map<int, Arena>, live: map<int, nat>, d: nat, b: int, k: int,
                size: nat, e: nat, q: seq<int>)
    requires ArenasApart(arenas) && Recount(arenas, arenas', Home(b)) && d < DESC_CNT && e < DESC_CNT
    requires IsBlock(arenas, d, Home(b), k, b) && b !in live && ListOk(arenas, live, e, q)
    requires e == d ==> q != [] && q[0] == b
    ensures ListOk(arenas', live[b := size], e, if e == d then q[1..] else q)
  {
    hide Block, PerArena, IsBlock, Home;
    var q' := if e == d then q[1..] else q;
    if e == d { NotLater(q); assert q == [b] + q[1..]; }
    forall x
      ensures x in q' <==> SomeBlock(arenas', e, x) && x !in live[b := size]
    {
      RecountBlocks(arenas, arenas', Home(b), e, x);
      if x == b && e != d && SomeBlock(arenas, e, b) {
        var c, j :| IsBlock(arenas, e, c, j, b);
        BlockUnique(arenas, d, Home(b), k, e, c, j, b);
      }
      hide SomeBlock;
    }
  }

  lemma Relax(arenas: map<int, Arena>, live: map<int, nat>, a: int, untouched: bool)
    requires CountOk(arenas, live, a, untouched)
    ensures CountOk(arenas, live, a, true)
  {
  }

  lemma CountPositive(arenas: map<int, Arena>, live: map<int, nat>, a: int, k: int, b: int)
    requires CountOk(arenas, live, a, true) && a in arenas && arenas[a].Small?
    requires IsBlock(arenas, arenas[a].d, a, k, b) && b !in live
    ensures arenas[a].cnt > 0
  {
    CountTake(a, arenas[a].d, k, live, 0);
    hide FreeBlocks;
  }

  lemma BlockLive(arenas: map<int, Arena>, d: nat, k: int, b: int, size: nat)
    requires IsBlock(arenas, d, Home(b), k, b) && size <= Size(d)
    ensures LiveOk(arenas, b, size)
  {
    hide Home, Block, Size, PerArena;
  }

  /** `sys_malloc` takes the first block of a list. */
  lemma PopKeeps(descs: seq<Desc>, arenas: map<int, Arena>, live: map<int, nat>, young: int, d: nat, size: nat)
    requires HeapOk(descs, arenas, live, young) && d < DESC_CNT && descs[d].free != [] && size <= Size(d)
    requires young in arenas ==> Home(descs[d].free[0]) == young
    ensures var b := descs[d].free[0]; var a := Home(b);
            && b !in live && a in arenas && arenas[a].Small? && arenas[a].d == d && arenas[a].cnt > 0
            && HeapOk(descs[d := descs[d].(free := descs[d].free[1..])],
                      arenas[a := Small(d, arenas[a].cnt - 1)], live[b := size], -1)
  {
    hide NoDup, Home, Size, PerArena, Block, LiveOk, CountOk, ListOk, ArenasApart;
    var q := descs[d].free;
    var b := q[0];
    var a := Home(b);
    assert ListOk(arenas, live, d, q);
    Listed(arenas, live, d, q, b);
    var k :| IsBlock(arenas, d, a, k, b);
    assert CountOk(arenas, live, a, a == young);
    Relax(arenas, live, a, a == young);
    CountPositive(arenas, live, a, k, b);
    var arenas' := arenas[a := Small(d, arenas[a].cnt - 1)];
    var descs' := descs[d := descs[d].(free := q[1..])];
    var live' := live[b := size];
    RecountApart(arenas, arenas', a);
    forall c | c in arenas'
      ensures CountOk(arenas', live', c, c == -1)
    {
      assert CountOk(arenas, live, c, c == young);
      PopCount(arenas, arenas', live, b, k, size, c);
    }
    forall e | 0 <= e < DESC_CNT
      ensures ListOk(arenas', live', e, descs'[e].free)
    {
      assert ListOk(arenas, live, e, descs[e].free);
      PopList(arenas, arenas', live, d, b, k, size, e, descs[e].free);
    }
    forall p | p in live'
      ensures LiveOk(arenas', p, live'[p])
    {
      if p == b { BlockLive(arenas, d, k, b, size); }
      RecountLive(arenas, arenas', a, p, live'[p]);
    }
  }

  // ---------------------------------------------------------------------------------------
  // New arenas
  // ---------------------------------------------------------------------------------------

  /** No arena reaches into the `n` pages at `a`. */
  ghost predicate Vacant(arenas: map<int, Arena>, a: int, n: nat) {
    forall c, x :: c in arenas && Covers(c, arenas[c], x) ==> !(a <= x < a + 4096 * n)
  }

  lemma AddApart(arenas: map<int, Arena>, a: int, ar: Arena)
    requires ArenasApart(arenas) && Vacant(arenas, a, PageCount(ar)) && a % 4096 == 0 && PageCount(ar) > 0
    requires ar.Small? ==> ar.d < DESC_CNT
    ensures a !in arenas && ArenasApart(arenas[a := ar])
  {
    assert a in arenas ==> Covers(a, arenas[a], a);
    assert forall b, x :: b in arenas && Covers(b, arenas[b], x) ==> !Covers(a, ar, x);
    hide Covers;
  }

  lemma Aligned(arenas: map<int, Arena>, a: int)
    requires ArenasApart(arenas) && a in arenas
    ensures a % 4096 == 0 && a != -1
  {
  }

  /** The blocks of a new arena come on top of those there were. */
  lemma AddBlocks(arenas: map<int, Arena>, a: int, ar: Arena, e: nat, b: int)
    requires a !in arenas && e < DESC_CNT
    ensures SomeBlock(arenas[a := ar], e, b) <==>
              SomeBlock(arenas, e, b)
              || (ar.Small? && ar.d == e && exists k :: 0 <= k < PerArena(e) && b == Block(a, e, k))
  {
    hide Block, PerArena;
    var arenas' := arenas[a := ar];
    if SomeBlock(arenas, e, b) {
      var c, k :| IsBlock(arenas, e, c, k, b);
      assert IsBlock(arenas', e, c, k, b);
    }
    if SomeBlock(arenas', e, b) {
      var c, k :| IsBlock(arenas', e, c, k, b);
      assert c != a ==> IsBlock(arenas, e, c, k, b);
    }
    if ar.Small? && ar.d == e {
      if k :| 0 <= k < PerArena(e) && b == Block(a, e, k) {
        assert IsBlock(arenas', e, a, k, b);
      }
    }
  }

  lemma AddLive(arenas: map<int, Arena>, a: int, ar: Arena, p: int, size: nat)
    requires a !in arenas && LiveOk(arenas, p, size)
    ensures LiveOk(arenas[a := ar], p, size) && Home(p) != a
  {
    hide Block, PerArena, Home, SomeBlock, Size;
    if arenas[Home(p)].Small? {
      AddBlocks(arenas, a, ar, arenas[Home(p)].d, p);
    }
  }

  /** No block of a new arena is handed out. */
  lemma NewBlocks(arenas: map<int, Arena>, live: map<int, nat>, a: int, d: nat)
    requires a !in arenas && a % 4096 == 0 && d < DESC_CNT
    requires forall p :: p in live ==> LiveOk(arenas, p, live[p])
    ensures |FreeBlocks(a, d, live)| == PerArena(d)
    ensures forall k :: 0 <= k < PerArena(d) ==> Block(a, d, k) !in live
  {
    hide Block, PerArena, Home, SomeBlock, Size;
    FullCount(a, d, live);
    forall k | 0 <= k < PerArena(d)
      ensures Block(a, d, k) !in live
    {
      HomeOfBlock(a, d, k);
    }
  }

  lemma NewList(arenas: map<int, Arena>, live: map<int, nat>, a: int, d: nat, e: nat, q: seq<int>)
    requires a !in arenas && d < DESC_CNT && e < DESC_CNT && ListOk(arenas, live, e, q) && (e == d ==> q == [])
    requires forall k :: 0 <= k < PerArena(d) ==> Block(a, d, k) !in live
    ensures ListOk(arenas[a := Small(d, PerArena(d))], live, e, if e == d then Blocks(a, d, PerArena(d)) else q)
  {
    hide Block, PerArena, Blocks, SomeBlock;
    var q' := if e == d then Blocks(a, d, PerArena(d)) else q;
    BlocksNoDup(a, d, PerArena(d));
    forall x
      ensures x in q' <==> SomeBlock(arenas[a := Small(d, PerArena(d))], e, x) && x !in live
    {
      AddBlocks(arenas, a, Small(d, PerArena(d)), e, x);
      BlocksIn(a, d, PerArena(d), x);
    }
  }

  /** `sys_malloc` cuts a new page into blocks and puts them on the empty list. */
  lemma NewSmallKeeps(descs: seq<Desc>, arenas: map<int, Arena>, live: map<int, nat>, d: nat, a: int)
    requires HeapOk(descs, arenas, live, -1) && d < DESC_CNT && descs[d].free == []
    requires a % 4096 == 0 && Vacant(arenas, a, 1)
    ensures a !in arenas
    ensures HeapOk(descs[d := descs[d].(free := Blocks(a, d, PerArena(d)))], arenas[a := Small(d, PerArena(d))],
                   live, a)
  {
    hide Home, Size, PerArena, Block, LiveOk, ListOk, ArenasApart, Blocks, FreeBlocks, Vacant;
    var ar := Small(d, PerArena(d));
    var arenas' := arenas[a := ar];
    var descs' := descs[d := descs[d].(free := Blocks(a, d, PerArena(d)))];
    AddApart(arenas, a, ar);
    NewBlocks(arenas, live, a, d);
    forall c | c in arenas'
      ensures CountOk(arenas', live, c, c == a)
    {
      if c != a {
        Aligned(arenas, c);
        assert CountOk(arenas, live, c, c == -1);
      }
    }
    hide CountOk;
    forall e | 0 <= e < DESC_CNT
      ensures ListOk(arenas', live, e, descs'[e].free)
    {
      assert ListOk(arenas, live, e, descs[e].free);
      NewList(arenas, live, a, d, e, descs[e].free);
    }
    forall p | p in live
      ensures LiveOk(arenas', p, live[p])
    {
      AddLive(arenas, a, ar, p, live[p]);
    }
  }

  lemma LargeList(arenas: map<int, Arena>, live: map<int, nat>, a: int, n: nat, size: nat, e: nat, q: seq<int>)
    requires a !in arenas && a % 4096 == 0 && e < DESC_CNT && ArenasApart(arenas) && ListOk(arenas, live, e, q)
    ensures ListOk(arenas[a := Large(n)], live[a + ARENA := size], e, q)
  {
    hide Block, PerArena, Home;
    forall x
      ensures x in q <==> SomeBlock(arenas[a := Large(n)], e, x) && x !in live[a + ARENA := size]
    {
      AddBlocks(arenas, a, Large(n), e, x);
      if x == a + ARENA && SomeBlock(arenas, e, x) {
        var c, k :| IsBlock(arenas, e, c, k, x);
        HomeOfBlock(c, e, k);
        Inside(a, x);
        assert false;
      }
      hide SomeBlock;
    }
  }

  /** `sys_malloc` of more than 1024 bytes. */
  lemma NewLargeKeeps(descs: seq<Desc>, arenas: map<int, Arena>, live: map<int, nat>, a: int, n: nat, size: nat)
    requires HeapOk(descs, arenas, live, -1) && a % 4096 == 0 && n > 0 && Vacant(arenas, a, n)
             && size + ARENA <= 4096 * n
    ensures a !in arenas && a + ARENA !in live && Home(a + ARENA) == a
    ensures HeapOk(descs, arenas[a := Large(n)], live[a + ARENA := size], -1)
  {
    hide Home, Size, PerArena, Block, ListOk, ArenasApart, FreeBlocks, Vacant, SomeBlock, CountOk;
    var ar := Large(n);
    var arenas', live' := arenas[a := ar], live[a + ARENA := size];
    AddApart(arenas, a, ar);
    Inside(a, a + ARENA);
    assert a + ARENA !in live;
    forall c | c in arenas'
      ensures CountOk(arenas', live', c, c == -1)
    {
      if c != a {
        Aligned(arenas, c);
        assert CountOk(arenas, live, c, c == -1);
        CountElsewhere(arenas, arenas', live, live', c, a + ARENA);
      } else {
        CountLarge(arenas', live', a);
      }
    }
    forall e | 0 <= e < DESC_CNT
      ensures ListOk(arenas', live', e, descs[e].free)
    {
      assert ListOk(arenas, live, e, descs[e].free);
      LargeList(arenas, live, a, n, size, e, descs[e].free);
    }
    forall p | p in live'
      ensures LiveOk(arenas', p, live'[p])
    {
      if p != a + ARENA {
        assert LiveOk(arenas, p, live[p]);
        AddLive(arenas, a, ar, p, live[p]);
      }
    }
  }

  lemma CountElsewhere(arenas: map<int, Arena>, arenas': map<int, Arena>, live: map<int, nat>, live': map<int, nat>,
                       c: int, b: int)
    requires ArenasApart(arenas) && c in arenas && c in arenas' && arenas'[c] == arenas[c] && Home(b) != c
    requires forall x :: x != b ==> (x in live <==> x in live')
    requires CountOk(arenas, live, c, false)
    ensures CountOk(arenas', live', c, false)
  {
    hide Home, FreeBlocks, PerArena;
    if arenas[c].Small? {
      CountSame(c, arenas[c].d, live, live', b);
    }
  }

  lemma CountLarge(arenas: map<int, Arena>, live: map<int, nat>, a: int)
    requires a in arenas && arenas[a].Large?
    ensures CountOk(arenas, live, a, false)
  {
  }

  // ---------------------------------------------------------------------------------------
  // Taking a block back
  // ---------------------------------------------------------------------------------------

  /** The block of a pointer into a small arena. */
  lemma LiveBlock(arenas: map<int, Arena>, p: int, size: nat)
    requires ArenasApart(arenas) && LiveOk(arenas, p, size) && arenas[Home(p)].Small?
    ensures arenas[Home(p)].d < DESC_CNT && exists k :: IsBlock(arenas, arenas[Home(p)].d, Home(p), k, p)
  {
    var d := arenas[Home(p)].d;
    var a, k :| IsBlock(arenas, d, a, k, p);
    HomeOfBlock(a, d, k);
    hide Block, Home, PerArena;
  }

  lemma PushCount(arenas: map<int, Arena>, arenas': map<int, Arena>, live: map<int, nat>, p: int, k: int, c: int)
    requires ArenasApart(arenas) && Recount(arenas, arenas', Home(p)) && c in arenas
    requires IsBlock(arenas, arenas[Home(p)].d, Home(p), k, p) && p in live
    requires CountOk(arenas, live, Home(p), false) && CountOk(arenas, live, c, false)
    requires arenas'[Home(p)].cnt == arenas[Home(p)].cnt + 1
    ensures CountOk(arenas', live - {p}, c, c == Home(p))
  {
    var a := Home(p);
    CountGive(a, arenas[a].d, k, live);
    hide FreeBlocks, Home, PerArena, Block;
    if c != a && arenas[c].Small? {
      CountSame(c, arenas[c].d, live, live - {p}, p);
    }
  }

  lemma PushList(arenas: map<int, Arena>, arenas': map<int, Arena>, live: map<int, nat>, d: nat, p: int, k: int,
                 e: nat, q: seq<int>)
    requires ArenasApart(arenas) && Recount(arenas, arenas', Home(p)) && d < DESC_CNT && e < DESC_CNT
    requires IsBlock(arenas, d, Home(p), k, p) && p in live && ListOk(arenas, live, e, q)
    ensures ListOk(arenas', live - {p}, e, if e == d then q + [p] else q)
  {
    hide Block, PerArena, IsBlock, Home;
    var q' := if e == d then q + [p] else q;
    forall x
      ensures x in q' <==> SomeBlock(arenas', e, x) && x !in live - {p}
    {
      RecountBlocks(arenas, arenas', Home(p), e, x);
      if x == p && e != d && SomeBlock(arenas, e, p) {
        var c, j :| IsBlock(arenas, e, c, j, p);
        BlockUnique(arenas, d, Home(p), k, e, c, j, p);
      }
      assert SomeBlock(arenas, d, p);
      hide SomeBlock;
    }
    assert p !in q;
  }

  /** `sys_free` puts a block behind the others; its arena may now be unused. */
  lemma PushKeeps(descs: seq<Desc>, arenas: map<int, Arena>, live: map<int, nat>, p: int)
    requires HeapOk(descs, arenas, live, -1) && p in live && arenas[Home(p)].Small?
    ensures var a := Home(p); var d := arenas[a].d; var arenas' := arenas[a := Small(d, arenas[a].cnt + 1)];
            && d < DESC_CNT && arenas[a].cnt < PerArena(d)
            && HeapOk(descs[d := descs[d].(free := descs[d].free + [p])], arenas', live - {p}, a)
  {
    hide NoDup, Home, Size, PerArena, Block, LiveOk, CountOk, ListOk, ArenasApart;
    var a := Home(p);
    assert LiveOk(arenas, p, live[p]);
    LiveBlock(arenas, p, live[p]);
    var d := arenas[a].d;
    var k :| IsBlock(arenas, d, a, k, p);
    Counted(arenas, live, a);
    var arenas' := arenas[a := Small(d, arenas[a].cnt + 1)];
    var descs' := descs[d := descs[d].(free := descs[d].free + [p])];
    var live' := live - {p};
    RecountApart(arenas, arenas', a);
    Aligned(arenas, a);
    forall c | c in arenas'
      ensures CountOk(arenas', live', c, c == a)
    {
      Aligned(arenas, c);
      assert CountOk(arenas, live, c, c == -1) && CountOk(arenas, live, a, a == -1);
      PushCount(arenas, arenas', live, p, k, c);
    }
    forall e | 0 <= e < DESC_CNT
      ensures ListOk(arenas', live', e, descs'[e].free)
    {
      assert ListOk(arenas, live, e, descs[e].free);
      PushList(arenas, arenas', live, d, p, k, e, descs[e].free);
    }
    forall r | r in live'
      ensures LiveOk(arenas', r, live'[r])
    {
      RecountLive(arenas, arenas', a, r, live'[r]);
    }
    LargeKept(arenas, live, p);
  }

  lemma Counted(arenas: map<int, Arena>, live: map<int, nat>, a: int)
    requires ArenasApart(arenas) && a in arenas && arenas[a].Small? && CountOk(arenas, live, a, a == -1)
    ensures arenas[a].d < DESC_CNT && arenas[a].cnt < PerArena(arenas[a].d)
  {
  }

  /** The pointers of the large arenas stay when a block goes. */
  lemma LargeKept(arenas: map<int, Arena>, live: map<int, nat>, p: int)
    requires ArenasApart(arenas) && Home(p) in arenas && arenas[Home(p)].Small?
    requires forall a :: a in arenas && arenas[a].Large? ==> a + ARENA in live
    ensures forall a :: a in arenas && arenas[a].Large? ==> a + ARENA in live - {p}
  {
    forall a | a in arenas && arenas[a].Large?
      ensures a + ARENA != p
    {
      Inside(a, a + ARENA);
    }
  }

  /** An arena with all blocks back is kept as it is while it is not full. */
  lemma NotUnused(descs: seq<Desc>, arenas: map<int, Arena>, live: map<int, nat>, a: int)
    requires HeapOk(descs, arenas, live, a) && a in arenas && arenas[a].Small?
    requires arenas[a].d < DESC_CNT ==> arenas[a].cnt < PerArena(arenas[a].d)
    ensures HeapOk(descs, arenas, live, -1)
  {
    hide PerArena, FreeBlocks, ListOk, LiveOk, DescsOk;
    forall c | c in arenas
      ensures CountOk(arenas, live, c, c == -1)
    {
      Aligned(arenas, c);
      hide ArenasApart;
      assert CountOk(arenas, live, c, c == a);
    }
  }

  // ---------------------------------------------------------------------------------------
  // Arenas that go
  // ---------------------------------------------------------------------------------------

  lemma DropApart(arenas: map<int, Arena>, a: int)
    requires ArenasApart(arenas)
    ensures ArenasApart(arenas - {a})
  {
    hide Covers;
  }

  lemma DropBlocks(arenas: map<int, Arena>, a: int, e: nat, b: int)
    requires ArenasApart(arenas)
    ensures SomeBlock(arenas - {a}, e, b) <==> SomeBlock(arenas, e, b) && Home(b) != a
  {
    hide Block, PerArena, Home;
    if SomeBlock(arenas, e, b) {
      var c, k :| IsBlock(arenas, e, c, k, b);
      HomeOfBlock(c, e, k);
      assert c != a ==> IsBlock(arenas - {a}, e, c, k, b);
    }
    if SomeBlock(arenas - {a}, e, b) {
      var c, k :| IsBlock(arenas - {a}, e, c, k, b);
      assert IsBlock(arenas, e, c, k, b);
      HomeOfBlock(c, e, k);
    }
  }

  lemma DropLive(arenas: map<int, Arena>, a: int, p: int, size: nat)
    requires ArenasApart(arenas) && LiveOk(arenas, p, size) && Home(p) != a
    ensures LiveOk(arenas - {a}, p, size)
  {
    hide Block, PerArena, Home, SomeBlock, Size;
    if arenas[Home(p)].Small? {
      DropBlocks(arenas, a, arenas[Home(p)].d, p);
    }
  }

  /** The blocks of an arena. */
  ghost function BlockSet(a: int, d: nat, n: nat): set<int>
    requires d < DESC_CNT
  {
    set b | b in Blocks(a, d, n)
  }

  lemma DropList(arenas: map<int, Arena>, live: map<int, nat>, a: int, d: nat, e: nat, q: seq<int>)
    requires ArenasApart(arenas) && a in arenas && arenas[a].Small? && arenas[a].d == d && d < DESC_CNT && e < DESC_CNT
    requires ListOk(arenas, live, e, q)
    ensures ListOk(arenas - {a}, live, e, if e == d then Without(q, BlockSet(a, d, PerArena(d))) else q)
  {
    hide Block, PerArena, Blocks, Home;
    var q' := if e == d then Without(q, BlockSet(a, d, PerArena(d))) else q;
    WithoutNoDup(q, BlockSet(a, d, PerArena(d)));
    forall x
      ensures x in q' <==> SomeBlock(arenas - {a}, e, x) && x !in live
    {
      DropBlocks(arenas, a, e, x);
      WithoutIn(q, BlockSet(a, d, PerArena(d)), x);
      BlocksIn(a, d, PerArena(d), x);
      if SomeBlock(arenas, e, x) {
        var c, k :| IsBlock(arenas, e, c, k, x);
        HomeOfBlock(c, e, k);
        OwnBlock(arenas, a, d, c, e, k, x);
      }
      hide SomeBlock, Without, BlockSet;
    }
  }

  lemma OwnBlock(arenas: map<int, Arena>, a: int, d: nat, c: int, e: nat, k: int, x: int)
    requires ArenasApart(arenas) && a in arenas && arenas[a].Small? && arenas[a].d == d && d < DESC_CNT
    requires IsBlock(arenas, e, c, k, x) && Home(x) == c
    ensures (exists j :: 0 <= j < PerArena(d) && x == Block(a, d, j)) <==> Home(x) == a
    ensures Home(x) == a ==> e == d
  {
    hide Block, PerArena, Home;
    if j :| 0 <= j < PerArena(d) && x == Block(a, d, j) { HomeOfBlock(a, d, j); }
  }

  /** With the count of its blocks reached, all blocks of an arena are on the list and none is handed out. */
  lemma AllListed(descs: seq<Desc>, arenas: map<int, Arena>, live: map<int, nat>, a: int, k: int)
    requires HeapOk(descs, arenas, live, a) && a in arenas && arenas[a].Small? && arenas[a].d < DESC_CNT
    requires arenas[a].cnt == PerArena(arenas[a].d) && 0 <= k < PerArena(arenas[a].d)
    ensures Block(a, arenas[a].d, k) !in live && Block(a, arenas[a].d, k) in descs[arenas[a].d].free
  {
    hide Block, PerArena, ArenasApart, LiveOk;
    var d := arenas[a].d;
    assert CountOk(arenas, live, a, a == a) && ListOk(arenas, live, d, descs[d].free);
    FullCount(a, d, live);
    assert IsBlock(arenas, d, a, k, Block(a, d, k));
    hide NoDup, FreeBlocks;
  }

  /** `sys_free` of the last block of an arena takes all its blocks off the list and gives the page back. */
  lemma DropKeeps(descs: seq<Desc>, arenas: map<int, Arena>, live: map<int, nat>, a: int)
    requires HeapOk(descs, arenas, live, a) && a in arenas && arenas[a].Small? && arenas[a].d < DESC_CNT
    requires arenas[a].cnt == PerArena(arenas[a].d)
    ensures var d := arenas[a].d;
            HeapOk(descs[d := descs[d].(free := Without(descs[d].free, BlockSet(a, d, PerArena(d))))], arenas - {a},
                   live, -1)
  {
    hide NoDup, Home, Size, PerArena, Block, LiveOk, CountOk, ListOk, ArenasApart, Without, BlockSet;
    var d := arenas[a].d;
    var arenas' := arenas - {a};
    var descs' := descs[d := descs[d].(free := Without(descs[d].free, BlockSet(a, d, PerArena(d))))];
    DropApart(arenas, a);
    forall c | c in arenas'
      ensures CountOk(arenas', live, c, c == -1)
    {
      Aligned(arenas, c);
      assert CountOk(arenas, live, c, c == a);
      CountDrop(arenas, live, a, c);
    }
    forall e | 0 <= e < DESC_CNT
      ensures ListOk(arenas', live, e, descs'[e].free)
    {
      assert ListOk(arenas, live, e, descs[e].free);
      DropList(arenas, live, a, d, e, descs[e].free);
    }
    forall p | p in live
      ensures LiveOk(arenas', p, live[p])
    {
      assert LiveOk(arenas, p, live[p]);
      if Home(p) == a {
        HomeKnown(arenas, p, live[p]);
        LiveBlock(arenas, p, live[p]);
        var k :| IsBlock(arenas, d, a, k, p);
        AllListed(descs, arenas, live, a, k);
        assert false;
      }
      DropLive(arenas, a, p, live[p]);
    }
  }

  lemma HomeKnown(arenas: map<int, Arena>, p: int, size: nat)
    requires LiveOk(arenas, p, size)
    ensures Home(p) in arenas
  {
  }

  lemma CountDrop(arenas: map<int, Arena>, live: map<int, nat>, a: int, c: int)
    requires CountOk(arenas, live, c, false) && c != a
    ensures CountOk(arenas - {a}, live, c, false)
  {
    hide FreeBlocks, PerArena;
  }

  /** `sys_free` of the pointer of a large arena. */
  lemma FreeLargeKeeps(descs: seq<Desc>, arenas: map<int, Arena>, live: map<int, nat>, p: int)
    requires HeapOk(descs, arenas, live, -1) && p in live && Home(p) in arenas && arenas[Home(p)].Large?
    ensures HeapOk(descs, arenas - {Home(p)}, live - {p}, -1)
  {
    hide NoDup, Home, Size, PerArena, Block, SomeBlock, CountOk, ListOk, ArenasApart;
    var a := Home(p);
    var arenas', live' := arenas - {a}, live - {p};
    assert LiveOk(arenas, p, live[p]);
    DropApart(arenas, a);
    forall c | c in arenas'
      ensures CountOk(arenas', live', c, c == -1)
    {
      Aligned(arenas, c);
      assert CountOk(arenas, live, c, c == -1);
      CountElsewhere(arenas, arenas', live, live', c, p);
    }
    forall e | 0 <= e < DESC_CNT
      ensures ListOk(arenas', live', e, descs[e].free)
    {
      assert ListOk(arenas, live, e, descs[e].free);
      LargeGone(arenas, live, p, e, descs[e].free);
    }
    forall r | r in live'
      ensures LiveOk(arenas', r, live'[r])
    {
      assert LiveOk(arenas, r, live[r]);
      assert Home(r) != a;
      DropLive(arenas, a, r, live[r]);
    }
  }

  lemma LargeGone(arenas: map<int, Arena>, live: map<int, nat>, p: int, e: nat, q: seq<int>)
    requires ArenasApart(arenas) && e < DESC_CNT && ListOk(arenas, live, e, q)
    requires Home(p) in arenas && arenas[Home(p)].Large?
    ensures ListOk(arenas - {Home(p)}, live - {p}, e, q)
  {
    hide Block, PerArena, Home;
    forall x
      ensures x in q <==> SomeBlock(arenas - {Home(p)}, e, x) && x !in live - {p}
    {
      DropBlocks(arenas, Home(p), e, x);
      if SomeBlock(arenas, e, x) {
        var c, k :| IsBlock(arenas, e, c, k, x);
        HomeOfBlock(c, e, k);
      }
      hide SomeBlock;
    }
  }
}
