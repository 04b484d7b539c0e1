/**
 `lib/kernel/bitmap.c`: a bitmap of bytes, and the search for a run of clear bits.

 The search looks at one byte, and for runs longer than one bit at one bit, behind the bitmap.
 The model keeps that guard byte and says what it does to the result.
 */
module Bitmap {
  import opened Common

  /** The outcome of `bitmap_scan`: a start index, -1, or the assertion on a full bitmap. */
  datatype ScanResult = Found(start: nat) | NotFound | AssertFailed

  // ---------------------------------------------------------------------------------------
  // Bytes as bits
  // ---------------------------------------------------------------------------------------

  /** `BITMAP_MASK << i` in a byte. */
  function Mask(i: nat): bv8
    requires i < 8
  {
    if i == 0 then 1 else if i == 1 then 2 else if i == 2 then 4 else if i == 3 then 8
    else if i == 4 then 16 else if i == 5 then 32 else if i == 6 then 64 else 128
  }

  predicate BitAt(b: bv8, i: nat)
    requires i < 8
  {
    b & Mask(i) != 0
  }

  function Bits(bytes: seq<bv8>): (s: seq<bool>)
    ensures |s| == 8 * |bytes|
  {
    seq(8 * |bytes|, i requires 0 <= i < 8 * |bytes| => BitAt(bytes[i / 8], i % 8))
  }

  lemma FullByte(b: bv8)
    ensures b == 0xff <==> forall i :: 0 <= i < 8 ==> BitAt(b, i)
  {
    if forall i :: 0 <= i < 8 ==> BitAt(b, i) {
      assert BitAt(b, 0) && BitAt(b, 1) && BitAt(b, 2) && BitAt(b, 3);
      assert BitAt(b, 4) && BitAt(b, 5) && BitAt(b, 6) && BitAt(b, 7);
    }
  }

  /** The bits of one byte in the whole bitmap. */
  lemma ByteBits(bytes: seq<bv8>, j: nat)
    requires j < |bytes|
    ensures forall i :: 0 <= i < 8 ==> Bits(bytes)[8 * j + i] == BitAt(bytes[j], i)
    ensures bytes[j] == 0xff <==> forall k :: 8 * j <= k < 8 * j + 8 ==> Bits(bytes)[k]
  {
    hide BitAt;
    FullByte(bytes[j]);
    assert forall i :: 0 <= i < 8 ==> Bits(bytes)[8 * j + i] == BitAt(bytes[j], i);
    assert forall k :: 8 * j <= k < 8 * j + 8 ==> Bits(bytes)[k] == BitAt(bytes[j], k - 8 * j);
  }

  lemma SetOneBit(b: bv8, i: nat, j: nat)
    requires i < 8 && j < 8
    ensures BitAt(b | Mask(j), i) == (i == j || BitAt(b, i))
    ensures BitAt(b & !Mask(j), i) == (i != j && BitAt(b, i))
  {
  }

  /** The new byte that `bitmap_set` stores. */
  function SetByte(b: bv8, odd: nat, value: bool): bv8
    requires odd < 8
  {
    if value then b | Mask(odd) else b & !Mask(odd)
  }

  lemma SetByteBit(b: bv8, i: nat, j: nat, value: bool)
    requires i < 8 && j < 8
    ensures BitAt(SetByte(b, j, value), i) == if i == j then value else BitAt(b, i)
  {
    SetOneBit(b, i, j);
    hide BitAt, Mask;
  }

  lemma SetByteBits(bytes: seq<bv8>, idx: nat, value: bool)
    requires idx / 8 < |bytes|
    ensures Bits(bytes[idx / 8 := SetByte(bytes[idx / 8], idx % 8, value)]) == Bits(bytes)[idx := value]
  {
    hide BitAt, Mask, SetByte;
    var bytes' := bytes[idx / 8 := SetByte(bytes[idx / 8], idx % 8, value)];
    forall k | 0 <= k < 8 * |bytes|
      ensures Bits(bytes')[k] == Bits(bytes)[idx := value][k]
    {
      if k / 8 == idx / 8 {
        SetByteBit(bytes[idx / 8], k % 8, idx % 8, value);
      }
    }
  }

  // ---------------------------------------------------------------------------------------
  // What a search should find
  // ---------------------------------------------------------------------------------------

  predicate AllClear(s: seq<bool>, start: nat, cnt: nat)
    requires start + cnt <= |s|
  {
    forall i :: start <= i < start + cnt ==> !s[i]
  }

  /** The lowest start, from `from` on, of `cnt` clear bits in a row. */
  function LowestRun(s: seq<bool>, cnt: nat, from: nat): (r: Option<nat>)
    ensures r.Some? ==> from <= r.value && r.value + cnt <= |s| && AllClear(s, r.value, cnt)
    ensures forall k: nat :: from <= k && k + cnt <= |s| && (r.Some? ==> k < r.value) ==> !AllClear(s, k, cnt)
    decreases |s| - from
  {
    if from + cnt > |s| then None
    else if AllClear(s, from, cnt) then Some(from)
    else LowestRun(s, cnt, from + 1)
  }

  lemma LowestRunIs(s: seq<bool>, cnt: nat, p: nat)
    requires p + cnt <= |s| && AllClear(s, p, cnt)
    requires forall k: nat :: k < p ==> !AllClear(s, k, cnt)
    ensures LowestRun(s, cnt, 0) == Some(p)
  {
    hide LowestRun;
    var r := LowestRun(s, cnt, 0);
    assert r.Some? && r.value <= p;
  }

  lemma LowestRunNone(s: seq<bool>, cnt: nat)
    requires forall k: nat :: k + cnt <= |s| ==> !AllClear(s, k, cnt)
    ensures LowestRun(s, cnt, 0) == None
  {
    hide LowestRun;
  }

  /** The first clear bit, if there is one. */
  lemma FirstClear(s: seq<bool>, p: nat)
    requires p <= |s| && (forall k :: 0 <= k < p ==> s[k]) && (p < |s| ==> !s[p])
    ensures LowestRun(s, 1, 0) == if p < |s| then Some(p) else None
  {
    hide LowestRun;
    forall k: nat | k < p ensures !AllClear(s, k, 1) {
      assert s[k];
    }
    if p < |s| { LowestRunIs(s, 1, p); } else { LowestRunNone(s, 1); }
  }

  /** The lowest set bit from `from` on. */
  function LowestSet(s: seq<bool>, from: nat): (r: Option<nat>)
    ensures r.Some? ==> from <= r.value < |s| && s[r.value]
    ensures forall k: nat :: from <= k < |s| && (r.Some? ==> k < r.value) ==> !s[k]
    decreases |s| - from
  {
    if from >= |s| then None else if s[from] then Some(from) else LowestSet(s, from + 1)
  }

  /** What `bitmap_scan` answers on `n` bits followed by a guard bit.  A search for more than one bit
      runs over the guard bit too.  A search for no bits stops behind the first set bit that
      follows a clear one. */
  function Scan(s: seq<bool>, n: nat, cnt: nat): (r: ScanResult)
    requires n < |s|
  {
    if LowestRun(s[..n], 1, 0).None? then AssertFailed
    else
      var first := LowestRun(s[..n], 1, 0).value;
      if cnt == 1 then Found(first)
      else if cnt == 0 then
        match LowestSet(s[..n + 1], first + 1)
        case Some(p) => Found(p + 1)
        case None => NotFound
      else
        match LowestRun(s[..n + 1], cnt, 0)
        case Some(start) => Found(start)
        case None => NotFound
  }

  lemma PrefixClear(s: seq<bool>, n: nat, k: nat, cnt: nat)
    requires k + cnt <= n <= |s|
    ensures AllClear(s[..n], k, cnt) == AllClear(s, k, cnt)
  {
    if !AllClear(s, k, cnt) {
      var i :| k <= i < k + cnt && s[i];
      assert s[..n][i];
    }
  }

  /** On a bitmap with a clear bit the search for a run gives what a search inside the bitmap gives,
      exactly unless the guard bit completes the first run to be found. */
  lemma GuardMatters(s: seq<bool>, n: nat, cnt: nat)
    requires n < |s| && cnt >= 1 && LowestRun(s[..n], 1, 0).Some?
    ensures Scan(s, n, cnt) == (match LowestRun(s[..n], cnt, 0) case Some(start) => Found(start) case None => NotFound)
            <==>
            (cnt == 1 || s[n] || n + 1 < cnt || !AllClear(s, n + 1 - cnt, cnt - 1) || LowestRun(s[..n], cnt, 0).Some?)
  {
    if cnt > 1 {
      var s1 := s[..n + 1];
      var inner := LowestRun(s[..n], cnt, 0);
      forall k: nat | k + cnt <= n
        ensures AllClear(s[..n], k, cnt) == AllClear(s1, k, cnt)
      {
        PrefixClear(s, n, k, cnt);
        PrefixClear(s, n + 1, k, cnt);
      }
      if inner.Some? {
        LowestRunIs(s1, cnt, inner.value);
      } else if n + 1 >= cnt && AllClear(s, n + 1 - cnt, cnt - 1) && !s[n] {
        PrefixClear(s, n + 1, n + 1 - cnt, cnt);
        assert AllClear(s, n + 1 - cnt, cnt);
        LowestRunIs(s1, cnt, n + 1 - cnt);
      } else {
        forall k: nat | k + cnt <= n + 1 ensures !AllClear(s1, k, cnt) {
          if k + cnt == n + 1 {
            if s[n] {
              assert s1[n];
            } else {
              var i :| k <= i < k + cnt - 1 && s[i];
              assert s1[i];
            }
          }
        }
        LowestRunNone(s1, cnt);
      }
    }
  }

  /** When a run is found that only the guard bit completes. */
  lemma RunAtGuard(s: seq<bool>, n: nat, cnt: nat)
    requires n < |s| && cnt >= 1 && LowestRun(s[..n], 1, 0).Some?
    ensures Scan(s, n, cnt).Found? && Scan(s, n, cnt).start + cnt > n <==>
            cnt > 1 && !s[n] && cnt <= n + 1 && AllClear(s, n + 1 - cnt, cnt - 1) && LowestRun(s[..n], cnt, 0).None?
  {
    GuardMatters(s, n, cnt);
    var r := Scan(s, n, cnt);
    if r.Found? && LowestRun(s[..n], cnt, 0).None? && r.start + cnt <= n {
      ScanFound(s, n, cnt);
      PrefixClear(s, n, r.start, cnt);
    }
    hide AllClear;
  }

  /** Seven set bits, a clear one and a clear guard bit: a search for two bits finds the last and the guard. */
  lemma GuardRun()
    ensures var s := [true, true, true, true, true, true, true, false, false];
            Scan(s, 8, 2) == Found(7) && LowestRun(s[..8], 2, 0) == None
  {
    var s := [true, true, true, true, true, true, true, false, false];
    FirstClear(s[..8], 7);
    forall k: nat | k + 2 <= 8 ensures !AllClear(s[..8], k, 2) { assert s[..8][k]; }
    LowestRunNone(s[..8], 2);
    forall k: nat | k < 7 ensures !AllClear(s[..9], k, 2) { assert s[..9][k]; }
    LowestRunIs(s[..9], 2, 7);
  }

  /** A successful search gives clear bits, which for one bit lie inside the bitmap. */
  lemma ScanFound(s: seq<bool>, n: nat, cnt: nat)
    requires n < |s| && cnt >= 1 && Scan(s, n, cnt).Found?
    ensures var p := Scan(s, n, cnt).start;
            p + cnt <= (if cnt == 1 then n else n + 1) && AllClear(s, p, cnt)
  {
    var p := Scan(s, n, cnt).start;
    assert cnt == 1 ==> AllClear(s[..n], p, 1);
    assert cnt > 1 ==> AllClear(s[..n + 1], p, cnt);
    hide LowestRun;
  }

  /** `cnt` bits from `start` on set to `v`: what the loops of `vaddr_get` and `vaddr_remove` do. */
  function Fill(s: seq<bool>, start: nat, cnt: nat, v: bool): (r: seq<bool>)
    requires start + cnt <= |s|
    ensures |r| == |s|
  {
    seq(|s|, i requires 0 <= i < |s| => if start <= i < start + cnt then v else s[i])
  }

  lemma FillStep(s: seq<bool>, start: nat, cnt: nat, v: bool)
    requires start + cnt < |s|
    ensures Fill(s, start, 0, v) == s
    ensures Fill(s, start, cnt, v)[start + cnt := v] == Fill(s, start, cnt + 1, v)
  {
  }

  // ---------------------------------------------------------------------------------------
  // The bitmap itself
  // ---------------------------------------------------------------------------------------

  class ByteMap {
    /** The bytes of the bitmap followed by at least one more byte of memory. */
    const bits: array<bv8>
    const len: nat

    ghost predicate Valid() {
      len < bits.Length
    }

    ghost function View(): (s: seq<bool>)
      reads bits
    {
      Bits(bits[..])
    }

    constructor (bits: array<bv8>, len: nat)
      requires len < bits.Length
      ensures Valid() && this.bits == bits && this.len == len
    {
      this.bits := bits;
      this.len := len;
    }

    /** `bitmap_init` */
    method Init()
      requires Valid()
      modifies bits
      ensures Valid() && View() == Fill(old(View()), 0, 8 * len, false)
    {
      var i := 0;
      while i < len
        invariant 0 <= i <= len
        invariant forall k :: 0 <= k < i ==> bits[k] == 0
        invariant forall k :: i <= k < bits.Length ==> bits[k] == old(bits[k])
      {
        bits[i] := 0;
        i := i + 1;
      }
      assert forall k :: 0 <= k < 8 * len ==> bits[..][k / 8] == 0;
    }

    /** `bitmap_scan_test` */
    method Test(idx: nat) returns (set_: bool)
      requires Valid() && idx / 8 < bits.Length
      ensures set_ == View()[idx]
    {
      set_ := BitAt(bits[idx / 8], idx % 8);
    }

    /** `bitmap_set` */
    method Set(idx: nat, value: bool)
      requires Valid() && idx / 8 < bits.Length
      modifies bits
      ensures Valid() && View() == old(View())[idx := value]
    {
      hide BitAt, Bits, SetByte;
      var byte, odd := idx / 8, idx % 8;
      SetByteBits(bits[..], idx, value);
      bits[byte] := SetByte(bits[byte], odd, value);
      assert bits[..] == old(bits[..])[byte := bits[byte]];
    }

    /** `bitmap_scan` */
    method ScanFor(cnt: nat) returns (r: ScanResult)
      requires Valid()
      ensures r == Scan(View(), 8 * len, cnt)
    {
      hide LowestRun, Bits, BitAt;
      ghost var s := View();
      ghost var n := 8 * len;
      var byte := 0;
      while 0xff == bits[byte] && byte < len
        invariant 0 <= byte <= len
        invariant forall k :: 0 <= k < 8 * byte ==> s[k]
      {
        ByteBits(bits[..], byte);
        byte := byte + 1;
      }
      if byte == len {
        FirstClear(s[..n], n);
        return AssertFailed;
      }
      ByteBits(bits[..], byte);
      var odd := 0;
      while BitAt(bits[byte], odd)
        invariant 0 <= odd < 8
        invariant forall k :: 0 <= k < 8 * byte + odd ==> s[k]
        decreases 8 - odd
      {
        assert s[8 * byte + odd];
        odd := odd + 1;
      }
      var first := byte * 8 + odd;
      assert !s[first];
      FirstClear(s[..n], first);
      if cnt == 1 {
        return Found(first);
      }
      r := ScanRun(cnt, first);
    }

    /** The last loop of `bitmap_scan`, from the first clear bit on. */
    method ScanRun(cnt: nat, first: nat) returns (r: ScanResult)
      requires Valid() && cnt != 1 && first < 8 * len && !View()[first]
      requires forall k :: 0 <= k < first ==> View()[k]
      ensures cnt > 1 ==>
                r == match LowestRun(View()[..8 * len + 1], cnt, 0) case Some(p) => Found(p) case None => NotFound
      ensures cnt == 0 ==>
                r == match LowestSet(View()[..8 * len + 1], first + 1)
                     case Some(p) => Found(p + 1) case None => NotFound
    {
      hide LowestRun, LowestSet, Bits;
      ghost var s := View()[..8 * len + 1];
      var left := 8 * len - first;
      var count, next := 1, first + 1;
      forall k: nat | cnt > 1 && k + cnt <= next ensures !AllClear(s, k, cnt) {
        assert s[k];
      }
      while left > 0
        invariant 0 <= left && next + left == 8 * len + 1 && first < next
        invariant count <= next && (cnt > 1 ==> count < cnt) && (cnt == 0 ==> count > 0)
        invariant AllClear(s, next - count, count)
        invariant next - count > 0 ==> s[next - count - 1]
        invariant cnt > 1 ==> forall k: nat :: k + cnt <= next ==> !AllClear(s, k, cnt)
        invariant cnt == 0 ==> next - count == first
      {
        left := left - 1;
        var b := Test(next);
        assert b == s[next];
        count := if b then 0 else count + 1;
        if count == cnt {
          if cnt == 0 {
            assert forall k: nat :: first + 1 <= k < next ==> !s[k];
            assert LowestSet(s, first + 1) == Some(next);
          } else {
            LowestRunIs(s, cnt, next + 1 - cnt);
          }
          return Found(next + 1 - cnt);
        }
        next := next + 1;
        if cnt > 1 {
          forall k: nat | k + cnt <= next
            ensures !AllClear(s, k, cnt)
          {
            assert k + cnt == next ==> s[next - count - 1];
          }
        }
      }
      if cnt == 0 {
        assert forall k: nat :: first + 1 <= k < |s| ==> !s[k];
      } else {
        LowestRunNone(s, cnt);
      }
      return NotFound;
    }

    /** The search and the setting loop of `vaddr_get`: on success exactly the found bits, clear
        before, are set. */
    method Claim(cnt: nat) returns (r: ScanResult)
      requires Valid() && cnt >= 1
      modifies bits
      ensures r == Scan(old(View()), 8 * len, cnt)
      ensures !r.Found? ==> View() == old(View())
      ensures r.Found? ==>
                && r.start + cnt <= 8 * len + 1
                && AllClear(old(View()), r.start, cnt)
                && View() == Fill(old(View()), r.start, cnt, true)
    {
      r := ScanFor(cnt);
      if r.Found? {
        ghost var s := View();
        ScanFound(s, 8 * len, cnt);
        hide Scan, Bits, Fill, AllClear;
        FillStep(s, r.start, 0, true);
        var i := 0;
        while i < cnt
          invariant 0 <= i <= cnt
          invariant View() == Fill(s, r.start, i, true)
        {
          FillStep(s, r.start, i, true);
          Set(r.start + i, true);
          i := i + 1;
        }
      }
    }
  }
}
