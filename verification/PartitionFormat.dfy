/**
 The layout and the block bitmap that `partition_format` (`fs/fs.c`) makes for a partition.
 */
module PartitionFormat {
  import opened Common
  import opened Disk
  import opened InodeTable

  const BITS := 4096       // bits in a sector
  const FIXED := 611       // boot sector, super block, inode bitmap and inode table
  const LARGEST := WORD - 3485  // the largest partition whose sizes do not wrap around

  /** The sectors and the bit count that `partition_format` works out. */
  datatype Layout = Layout(bitmapLba: nat, bitmapSects: nat, inodeBitmapLba: nat, tableLba: nat, dataLba: nat,
                           bitLen: nat)

  /** `DIV_ROUND_UP` by the bits of a sector, in 32 bits. */
  function RoundUp(x: nat): nat {
    (x + BITS - 1) % WORD / BITS
  }

  /** The sector before the super block: the start of a partition, or the one before sector 0, where the sum of
      the source wraps around. */
  type Origin = x: int | -1 <= x witness 0

  /** The sizes, in two passes, in 32 bits. */
  function Plan(start: Origin, cnt: nat): (l: Layout)
    requires cnt < WORD
  {
    var free := (cnt - FIXED) % WORD;
    var bitLen := (free - RoundUp(free)) % WORD;
    var sects := RoundUp(bitLen);
    var table := start + 2 + sects + 1;
    Layout(start + 2, sects, start + 2 + sects, table, table + TABLE_SECTORS + TABLE_SECTORS, bitLen)
  }

  /** There are bits for `bitLen` sectors, and these sectors and the metadata fit into the partition. */
  predicate Fits(l: Layout, cnt: nat) {
    l.bitLen <= BITS * l.bitmapSects && FIXED + l.bitmapSects + l.bitLen <= cnt
  }

  /** The sectors that neither the metadata nor the bits account for. */
  function Slack(l: Layout, cnt: nat): int {
    cnt - FIXED - l.bitmapSects - l.bitLen
  }

  /** The two passes leave few sectors unused, at most one on a disk within the limit, and no sector of the
      bitmap is without need. */
  lemma PlanSizes(start: Origin, cnt: nat)
    requires FIXED <= cnt <= LARGEST
    ensures var l := Plan(start, cnt);
            && Fits(l, cnt) && BITS * Slack(l, cnt) < BITS + RoundUp(cnt - FIXED)
            && (cnt <= MAX_LBA + 1 ==> Slack(l, cnt) <= 1)
            && l.bitLen > BITS * (l.bitmapSects - 1)
  {
    var free := cnt - FIXED;
    assert (cnt - FIXED) % WORD == free;
    var q := RoundUp(free);
    RoundUpIs(free);
    var bitLen := free - q;
    assert bitLen % WORD == bitLen;
    RoundUpIs(bitLen);
    hide RoundUp;
  }

  lemma RoundUpIs(x: nat)
    requires x <= WORD - BITS
    ensures BITS * RoundUp(x) - BITS < x <= BITS * RoundUp(x) && RoundUp(x) <= x
  {
  }

  /** The plan fits exactly if the partition has room for the fixed part and rounding up does not wrap around. */
  lemma PlanFits(start: Origin, cnt: nat)
    requires cnt < WORD
    ensures Fits(Plan(start, cnt), cnt) <==> FIXED <= cnt <= LARGEST
  {
    if FIXED <= cnt <= LARGEST {
      PlanSizes(start, cnt);
    } else {
      var free := if cnt < FIXED then cnt - FIXED + WORD else cnt - FIXED;
      assert (cnt - FIXED) % WORD == free;
      assert (free + BITS - 1) % WORD == free + BITS - 1 - WORD;
      assert RoundUp(free) == 0;
    }
  }

  /** The regions follow each other without overlap. */
  lemma RegionsInOrder(start: Origin, cnt: nat)
    requires FIXED <= cnt <= LARGEST
    ensures var l := Plan(start, cnt);
            && start + 1 < l.bitmapLba
            && l.bitmapLba + l.bitmapSects == l.inodeBitmapLba
            && l.inodeBitmapLba + 1 == l.tableLba
            && l.tableLba + TABLE_SECTORS <= l.dataLba
            && l.tableLba + TABLE_SECTORS <= start + cnt
  {
    PlanSizes(start, cnt);
  }

  /** Bit `i` stands for sector `dataLba + i`.  The table is counted twice, so the last 608 bits, less the
      slack, stand for sectors behind the partition. */
  lemma BitsBehind(start: Origin, cnt: nat, i: nat)
    requires FIXED <= cnt <= LARGEST
    ensures var l := Plan(start, cnt);
            && (l.dataLba + i < start + cnt <==> i + TABLE_SECTORS < l.bitLen + Slack(l, cnt))
            && 0 <= Slack(l, cnt) && (cnt <= MAX_LBA + 1 ==> Slack(l, cnt) <= 1)
  {
    hide RoundUp;
    PlanSizes(start, cnt);
  }

  // ---------------------------------------------------------------------------------------
  // The block bitmap
  // ---------------------------------------------------------------------------------------

  /** `1 << k` in a byte. */
  function Power(k: nat): (p: nat)
    requires k < 8
    ensures 0 < p <= 128
  {
    if k == 0 then 1 else if k == 1 then 2 else if k == 2 then 4 else if k == 3 then 8
    else if k == 4 then 16 else if k == 5 then 32 else if k == 6 then 64 else 128
  }

  predicate BitIn(b: Byte, k: nat)
    requires k < 8
  {
    b / Power(k) % 2 == 1
  }

  predicate BitSet(b: seq<Byte>, i: nat)
    requires i / 8 < |b|
  {
    BitIn(b[i / 8], i % 8)
  }

  /** `b &= ~(1 << k)` */
  function ClearBit(b: Byte, k: nat): (r: Byte)
    requires k < 8
  {
    if BitIn(b, k) then b - Power(k) else b
  }

  /** `b |= 1` */
  function SetLowest(b: Byte): (r: Byte) {
    if BitIn(b, 0) then b else b + 1
  }

  /** The byte whose bits from `k` on are set. */
  function From(k: nat): (b: Byte)
    requires k < 8
  {
    256 - Power(k)
  }

  lemma FromBits(k: nat, j: nat)
    requires k < 8 && j < 8
    ensures BitIn(From(k), j) <==> j >= k
  {
    if k == 0 { } else if k == 1 { } else if k == 2 { } else if k == 3 { }
    else if k == 4 { } else if k == 5 { } else if k == 6 { } else { }
  }

  lemma FromNext(k: nat)
    requires k < 7
    ensures ClearBit(From(k), k) == From(k + 1)
  {
    FromBits(k, k);
  }

  lemma ZeroBits(j: nat)
    requires j < 8
    ensures !BitIn(0, j) && (BitIn(1, j) <==> j == 0)
  {
  }

  /** The bytes after the loop: zeros, the first with bit 0 set, then the byte where the bits end, then ones. */
  ghost predicate Made(b: seq<Byte>, bitLen: nat) {
    var last, size := bitLen / 8, SECTOR * (bitLen / BITS + 1);
    && size <= |b| && last < size
    && (forall i :: 0 <= i < last ==> b[i] == if i == 0 then 1 else 0)
    && b[last] == From(bitLen % 8)
    && (forall i :: last < i < size ==> b[i] == 255)
    && (forall i :: size <= i < |b| ==> b[i] == 0)
  }

  /** The construction of the block bitmap in a buffer of zeros; it fails, writing past the end, exactly if the
      buffer does not hold the sector in which the bits end. */
  method BlockBitmap(buf: array<Byte>, bitLen: nat) returns (ok: bool)
    requires forall i :: 0 <= i < buf.Length ==> buf[i] == 0
    modifies buf
    ensures ok <==> SECTOR * (bitLen / BITS + 1) <= buf.Length
    ensures ok ==> Made(buf[..], bitLen)
  {
    LastByte(bitLen);
    ok := bitLen / 8 + SECTOR - bitLen / 8 % SECTOR <= buf.Length;
    if !ok { return; }
    buf[0] := SetLowest(buf[0]);
    var last, bits := bitLen / 8, bitLen % 8;
    var size := SECTOR - last % SECTOR;
    forall i | last <= i < last + size {
      buf[i] := 255;
    }
    var k := 0;
    while k < bits
      invariant 0 <= k <= bits && buf[last] == From(k)
      invariant forall i :: 0 <= i < last ==> buf[i] == if i == 0 then 1 else 0
      invariant forall i :: last < i < last + size ==> buf[i] == 255
      invariant forall i :: last + size <= i < buf.Length ==> buf[i] == 0
    {
      FromNext(k);
      buf[last] := ClearBit(buf[last], k);
      k := k + 1;
    }
  }

  lemma LastByte(bitLen: nat)
    ensures var last := bitLen / 8;
            last < SECTOR * (bitLen / BITS + 1) && last + SECTOR - last % SECTOR == SECTOR * (bitLen / BITS + 1)
  {
    assert bitLen / 8 / SECTOR == bitLen / BITS;
  }

  /** Bit for bit: set from `bitLen` on, and bit 0 if it is not in the byte that is made last. */
  lemma MadeBits(b: seq<Byte>, bitLen: nat, i: nat)
    requires Made(b, bitLen) && i < BITS * (bitLen / BITS + 1)
    ensures i / 8 < |b| && (BitSet(b, i) <==> i >= bitLen || (i == 0 && bitLen >= 8))
  {
    var last, k := bitLen / 8, bitLen % 8;
    var m, j := i / 8, i % 8;
    assert i == 8 * m + j && bitLen == 8 * last + k;
    ZeroBits(j);
    FromBits(k, j);
    FromBits(0, j);
    hide BitIn, From;
    assert From(0) == 255 by { AllOnes(); }
  }

  lemma AllOnes()
    ensures From(0) == 255
  {
  }

  /** In the sectors that are written, a bit is set iff it is bit 0 or at or past `bitLen`: exactly if there
      are no bits or at least 8. */
  lemma BitmapRight(b: seq<Byte>, bitLen: nat)
    requires Made(b, bitLen)
    ensures (forall i :: 0 <= i < BITS * ((bitLen + BITS - 1) / BITS) ==>
               i / 8 < |b| && (BitSet(b, i) <==> i == 0 || i >= bitLen))
            <==> bitLen == 0 || bitLen >= 8
  {
    var n := BITS * ((bitLen + BITS - 1) / BITS);
    assert n <= BITS * (bitLen / BITS + 1);
    forall i | 0 <= i < n
      ensures i / 8 < |b| && (BitSet(b, i) <==> i >= bitLen || (i == 0 && bitLen >= 8))
    {
      MadeBits(b, bitLen, i);
    }
    hide BitSet, Made;
    if 0 < bitLen < 8 {
      assert 0 < n;
      assert !BitSet(b, 0);
    }
  }

  /** The buffer that `partition_format` allocates is long enough, except when its longest part is the
      block bitmap and the bits fill its last sector: then the constant bytes go one sector too far. */
  lemma BufferHolds(bitLen: nat)
    ensures var sects := (bitLen + BITS - 1) / BITS;
            SECTOR * (bitLen / BITS + 1) <= BufferSize(sects) <==> sects < TABLE_SECTORS || bitLen % BITS != 0
  {
  }

  /** The buffer has room for the longer of block bitmap and inode table. */
  function BufferSize(sects: nat): (size: nat)
    ensures size >= SECTOR * sects && size >= SECTOR * TABLE_SECTORS
  {
    SECTOR * if sects >= TABLE_SECTORS then sects else TABLE_SECTORS
  }

  // ---------------------------------------------------------------------------------------
  // Inputs on which the expected properties fail
  // ---------------------------------------------------------------------------------------

  /** One sector less than the fixed part: the sizes wrap around. */
  lemma TooSmall(start: Origin)
    ensures var l := Plan(start, 610); l.bitmapSects == 0 && l.bitLen == WORD - 1 && !Fits(l, 610)
  {
    assert (610 - FIXED) % WORD == WORD - 1;
    assert (WORD - 1 + BITS - 1) % WORD == BITS - 2;
    assert RoundUp(WORD - 1) == 0;
  }

  /** A partition of 613 sectors has one data bit, and it is not set. */
  lemma OneBit(start: Origin, b: seq<Byte>)
    requires Made(b, 1)
    ensures Plan(start, 613).bitLen == 1 && |b| > 0 && !BitSet(b, 0)
  {
    MadeBits(b, 1, 0);
  }

  /** In a partition of 4096 sectors bit 3000, which is in use, stands for a sector behind the end. */
  lemma SectorBehind(start: Origin)
    ensures var l := Plan(start, 4096); 3000 < l.bitLen && l.dataLba + 3000 >= start + 4096
  {
  }

  /** 608 full sectors of bits: the buffer of 608 sectors is one too short. */
  lemma ShortBuffer()
    ensures var bitLen := BITS * TABLE_SECTORS;
            SECTOR * (bitLen / BITS + 1) > BufferSize((bitLen + BITS - 1) / BITS)
  {
    BufferHolds(BITS * TABLE_SECTORS);
  }
}
