/**
 `partition_format` (`fs/fs.c`) as a whole: what is on the disk afterwards.
 */
module Format {
  import opened Common
  import D = Disk
  import opened InodeTable
  import P = PartitionFormat

  const MAGIC := 0x19590318
  const DIR_ENTRY := 24     // sizeof(struct dir_entry)
  const FT_DIRECTORY := 2

  /** The sector of the super block, in 32 bits. */
  function First(start: nat): (s: nat) {
    (start + 1) % WORD
  }

  function PlanFor(start: nat, cnt: nat): P.Layout
    requires cnt < WORD
  {
    P.Plan(First(start) - 1, cnt)
  }

  /** The super block; `pad` is what the stack happens to hold behind the fields. */
  function SuperBlock(start: nat, cnt: nat, pad: seq<D.Byte>): (b: seq<D.Byte>)
    requires start < WORD && cnt < WORD && |pad| == 460
    ensures |b| == D.SECTOR
  {
    var l := PlanFor(start, cnt);
    Bytes([MAGIC, cnt, INODES, start, l.bitmapLba % WORD, l.bitmapSects, l.inodeBitmapLba % WORD, 1,
           l.tableLba % WORD, TABLE_SECTORS, l.dataLba % WORD, 0, DIR_ENTRY]) + pad
  }

  /** The inode of the root directory. */
  function Root(dataLba: nat): (i: Inode)
    requires dataLba < WORD
    ensures ValidInode(i)
  {
    Inode(0, 2 * DIR_ENTRY, 0, 0, [dataLba] + seq(12, i => 0), 0, 0)
  }

  /** A directory entry for a directory with inode 0. */
  function Entry(name: seq<D.Byte>): (b: seq<D.Byte>)
    requires |name| <= 16
    ensures |b| == DIR_ENTRY
  {
    name + Zeros(16 - |name|) + Bytes([0, FT_DIRECTORY])
  }

  /** The first sector of the root directory. */
  function RootDirectory(): (b: seq<D.Byte>)
    ensures |b| == D.SECTOR
  {
    Entry([46]) + Entry([46, 46]) + Zeros(D.SECTOR - 2 * DIR_ENTRY)
  }

  /** `sects` sectors that begin with `head`. */
  function Padded(head: seq<D.Byte>, sects: nat): (b: seq<D.Byte>)
    requires |head| <= D.SECTOR * sects
    ensures |b| == D.SECTOR * sects
  {
    head + Zeros(D.SECTOR * sects - |head|)
  }

  /** All writes: super block, block bitmap, inode bitmap, inode table and root directory. */
  ghost predicate Written(data: seq<D.Byte>, data': seq<D.Byte>, start: nat, cnt: nat, pad: seq<D.Byte>,
                          bitmap: seq<D.Byte>)
    requires start < WORD && cnt < WORD && |pad| == 460
  {
    var l := PlanFor(start, cnt);
    && l.dataLba < WORD && |bitmap| == D.SECTOR * l.bitmapSects
    && First(start) + 1 <= l.bitmapLba && l.bitmapLba + l.bitmapSects <= l.inodeBitmapLba < l.tableLba
    && l.tableLba + TABLE_SECTORS <= l.dataLba && D.SECTOR * (l.dataLba + 1) <= |data|
    && var d1 := D.Splice(data, D.SECTOR * First(start), SuperBlock(start, cnt, pad));
       var d2 := D.Splice(d1, D.SECTOR * l.bitmapLba, bitmap);
       var d3 := D.Splice(d2, D.SECTOR * l.inodeBitmapLba, Padded([1], 1));
       var d4 := D.Splice(d3, D.SECTOR * l.tableLba, Padded(Encode(Root(l.dataLba)), TABLE_SECTORS));
       data' == D.Splice(d4, D.SECTOR * l.dataLba, RootDirectory())
  }

  // ---------------------------------------------------------------------------------------
  // Reading back
  // ---------------------------------------------------------------------------------------

  /** A part that a replacement does not touch. */
  lemma Untouched<T>(s: seq<T>, at: nat, t: seq<T>, lo: nat, hi: nat)
    requires at + |t| <= |s| && lo <= hi <= |s| && (hi <= at || at + |t| <= lo)
    ensures D.Splice(s, at, t)[lo..hi] == s[lo..hi]
  {
  }

  /** After formatting every region holds what was written to it, and everything else is as before. */
  lemma RegionsHold(data: seq<D.Byte>, data': seq<D.Byte>, start: nat, cnt: nat, pad: seq<D.Byte>, bitmap: seq<D.Byte>)
    requires start < WORD && cnt < WORD && |pad| == 460 && Written(data, data', start, cnt, pad, bitmap)
    ensures var l := PlanFor(start, cnt);
            && |data'| == |data|
            && data'[D.SECTOR * First(start)..D.SECTOR * (First(start) + 1)] == SuperBlock(start, cnt, pad)
            && data'[D.SECTOR * l.bitmapLba..D.SECTOR * (l.bitmapLba + l.bitmapSects)] == bitmap
            && data'[D.SECTOR * l.inodeBitmapLba..D.SECTOR * (l.inodeBitmapLba + 1)] == Padded([1], 1)
            && data'[D.SECTOR * l.tableLba..D.SECTOR * (l.tableLba + TABLE_SECTORS)] ==
              Padded(Encode(Root(l.dataLba)), TABLE_SECTORS)
            && data'[D.SECTOR * l.dataLba..D.SECTOR * (l.dataLba + 1)] == RootDirectory()
  {
    hide D.Splice, SuperBlock, Padded, RootDirectory, Encode, Root, P.Plan;
    var l := PlanFor(start, cnt);
    var sb, ib, tb := SuperBlock(start, cnt, pad), Padded([1], 1), Padded(Encode(Root(l.dataLba)), TABLE_SECTORS);
    var d1 := D.Splice(data, D.SECTOR * First(start), sb);
    var d2 := D.Splice(d1, D.SECTOR * l.bitmapLba, bitmap);
    var d3 := D.Splice(d2, D.SECTOR * l.inodeBitmapLba, ib);
    var d4 := D.Splice(d3, D.SECTOR * l.tableLba, tb);
    D.SpliceRead(data, D.SECTOR * First(start), sb);
    D.SpliceRead(d1, D.SECTOR * l.bitmapLba, bitmap);
    D.SpliceRead(d2, D.SECTOR * l.inodeBitmapLba, ib);
    D.SpliceRead(d3, D.SECTOR * l.tableLba, tb);
    D.SpliceRead(d4, D.SECTOR * l.dataLba, RootDirectory());
    var a, b := D.SECTOR * First(start), D.SECTOR * (First(start) + 1);
    Untouched(d1, D.SECTOR * l.bitmapLba, bitmap, a, b);
    Untouched(d2, D.SECTOR * l.inodeBitmapLba, ib, a, b);
    Untouched(d3, D.SECTOR * l.tableLba, tb, a, b);
    Untouched(d4, D.SECTOR * l.dataLba, RootDirectory(), a, b);
    a, b := D.SECTOR * l.bitmapLba, D.SECTOR * (l.bitmapLba + l.bitmapSects);
    Untouched(d2, D.SECTOR * l.inodeBitmapLba, ib, a, b);
    Untouched(d3, D.SECTOR * l.tableLba, tb, a, b);
    Untouched(d4, D.SECTOR * l.dataLba, RootDirectory(), a, b);
    a, b := D.SECTOR * l.inodeBitmapLba, D.SECTOR * (l.inodeBitmapLba + 1);
    Untouched(d3, D.SECTOR * l.tableLba, tb, a, b);
    Untouched(d4, D.SECTOR * l.dataLba, RootDirectory(), a, b);
    a, b := D.SECTOR * l.tableLba, D.SECTOR * (l.tableLba + TABLE_SECTORS);
    Untouched(d4, D.SECTOR * l.dataLba, RootDirectory(), a, b);
  }

  /** Nothing outside the metadata and the first data sector changes. */
  lemma RestHolds(data: seq<D.Byte>, data': seq<D.Byte>, start: nat, cnt: nat, pad: seq<D.Byte>,
                  bitmap: seq<D.Byte>, i: nat)
    requires start < WORD && cnt < WORD && |pad| == 460 && Written(data, data', start, cnt, pad, bitmap) && i < |data|
    requires var l := PlanFor(start, cnt);
             && !(D.SECTOR * First(start) <= i < D.SECTOR * (l.tableLba + TABLE_SECTORS))
             && !(D.SECTOR * l.dataLba <= i < D.SECTOR * (l.dataLba + 1))
    ensures |data'| == |data| && data'[i] == data[i]
  {
    hide D.Splice, SuperBlock, Padded, RootDirectory, Encode, Root, P.Plan;
    var l := PlanFor(start, cnt);
    var sb, ib, tb := SuperBlock(start, cnt, pad), Padded([1], 1), Padded(Encode(Root(l.dataLba)), TABLE_SECTORS);
    var d1 := D.Splice(data, D.SECTOR * First(start), sb);
    var d2 := D.Splice(d1, D.SECTOR * l.bitmapLba, bitmap);
    var d3 := D.Splice(d2, D.SECTOR * l.inodeBitmapLba, ib);
    var d4 := D.Splice(d3, D.SECTOR * l.tableLba, tb);
    D.SpliceAt(data, D.SECTOR * First(start), sb, i);
    D.SpliceAt(d1, D.SECTOR * l.bitmapLba, bitmap, i);
    D.SpliceAt(d2, D.SECTOR * l.inodeBitmapLba, ib, i);
    D.SpliceAt(d3, D.SECTOR * l.tableLba, tb, i);
    D.SpliceAt(d4, D.SECTOR * l.dataLba, RootDirectory(), i);
  }

  /** Slot 0 of the table holds the root directory, and every other slot an inode of zeros, so only slot 0
      holds its own number. */
  lemma FormattedSlots(data: seq<D.Byte>, data': seq<D.Byte>, start: nat, cnt: nat, pad: seq<D.Byte>,
                       bitmap: seq<D.Byte>, no: nat)
    requires start < WORD && cnt < WORD && |pad| == 460 && Written(data, data', start, cnt, pad, bitmap) && no < INODES
    ensures var l := PlanFor(start, cnt);
            && D.SECTOR * l.tableLba + INODE * no + INODE <= |data'|
            && Slot(data', l.tableLba, no) ==
               if no == 0 then Root(l.dataLba) else Inode(0, 0, 0, 0, seq(13, i => 0), 0, 0)
  {
    hide D.Splice, SuperBlock, RootDirectory, Encode, Decode, Root, P.Plan, Padded;
    RegionsHold(data, data', start, cnt, pad, bitmap);
    var l := PlanFor(start, cnt);
    var at, rec := D.SECTOR * l.tableLba, Encode(Root(l.dataLba));
    var region := data'[at..D.SECTOR * (l.tableLba + TABLE_SECTORS)];
    assert INODE * no + INODE <= D.SECTOR * TABLE_SECTORS;
    D.SliceOfSlice(data', at, D.SECTOR * TABLE_SECTORS, INODE * no, INODE);
    PaddedPart(rec, no);
    if no == 0 { RoundTrip(Root(l.dataLba)); } else { ZeroRecord(); }
  }

  lemma PaddedPart(rec: seq<D.Byte>, no: nat)
    requires |rec| == INODE && no < INODES
    ensures Padded(rec, TABLE_SECTORS)[INODE * no..INODE * no + INODE] == if no == 0 then rec else Zeros(INODE)
  {
    assert INODE * no + INODE <= D.SECTOR * TABLE_SECTORS;
    if no > 0 {
      assert INODE * no >= INODE;
    }
  }

  // ---------------------------------------------------------------------------------------
  // The operation
  // ---------------------------------------------------------------------------------------

  /** `memset` with zeros, and then some bytes at the start. */
  method Prepare(buf: array<D.Byte>, head: seq<D.Byte>)
    requires |head| <= buf.Length
    modifies buf
    ensures forall n :: |head| <= D.SECTOR * n <= buf.Length ==> buf[..D.SECTOR * n] == Padded(head, n)
  {
    forall i | 0 <= i < buf.Length {
      buf[i] := if i < |head| then head[i] else 0;
    }
  }

  /** If the first data sector can be written, so can everything before it. */
  lemma AllServed(size: nat, start: nat, cnt: nat)
    requires P.FIXED <= cnt <= P.LARGEST
    ensures var l := PlanFor(start, cnt);
            && (D.Served(size, l.dataLba, 1) <==> l.dataLba <= D.MAX_LBA && D.SECTOR * (l.dataLba + 1) <= size)
            && (D.Served(size, l.dataLba, 1) ==>
                  && D.Served(size, First(start), 1) && D.Served(size, l.inodeBitmapLba, 1)
                  && D.Served(size, l.tableLba, TABLE_SECTORS)
                  && (l.bitmapSects > 0 ==> D.Served(size, l.bitmapLba, l.bitmapSects)))
            && (l.bitmapSects > 0 <==> l.bitLen > 0)
            && (D.Served(size, l.bitmapLba, l.bitmapSects) ==> l.bitmapSects > 0)
  {
    P.RegionsInOrder(First(start) - 1, cnt);
    P.PlanSizes(First(start) - 1, cnt);
    hide P.Plan;
    var l := PlanFor(start, cnt);
    if l.bitmapSects > 0 {
      assert 256 * ((l.bitmapSects - 1) / 256) <= l.bitmapSects;
    }
  }

  /** What formatting comes to: all written, a transfer that stops, or a write past the end of the buffer. */
  datatype Result = Formatted | Stopped | Overrun

  /** Formatting goes through: the sizes do not wrap around, there is a bit for the root directory, the buffer
      holds the bitmap, and the first data sector exists. */
  predicate Formats(size: nat, start: nat, cnt: nat)
    requires cnt < WORD
  {
    var l := PlanFor(start, cnt);
    && P.FIXED <= cnt <= P.LARGEST && l.bitLen > 0 && Held(l)
    && l.dataLba <= D.MAX_LBA && D.SECTOR * (l.dataLba + 1) <= size
  }

  /** The buffer holds the block bitmap. */
  predicate Held(l: P.Layout) {
    D.SECTOR * (l.bitLen / P.BITS + 1) <= P.BufferSize(l.bitmapSects)
  }

  /** Sizes that wrap around give a bitmap without sectors and far too many bits for the buffer. */
  lemma WrappedPlan(start: nat, cnt: nat)
    requires cnt < WORD && !(P.FIXED <= cnt <= P.LARGEST)
    ensures !Held(PlanFor(start, cnt))
  {
    var free := if cnt < P.FIXED then cnt - P.FIXED + WORD else cnt - P.FIXED;
    assert (cnt - P.FIXED) % WORD == free;
    assert (free + P.BITS - 1) % WORD == free + P.BITS - 1 - WORD;
    assert P.RoundUp(free) == 0;
  }

  /** Sector numbers behind a super block within the limit do not wrap around. */
  lemma SmallPlan(start: nat, cnt: nat)
    requires cnt < WORD && First(start) <= D.MAX_LBA
    ensures PlanFor(start, cnt).dataLba < WORD
  {
  }

  /** `partition_format`, for every partition.  The block bitmap is as `MadeBits` says. */
  method Format(disk: D.Disk, start: nat, cnt: nat, pad: seq<D.Byte>) returns (r: Result, ghost bitmap: seq<D.Byte>)
    requires start < WORD && cnt < WORD && |pad| == 460
    modifies disk
    ensures r.Formatted? <==> Formats(old(|disk.data|), start, cnt)
    ensures r.Overrun? <==> D.Served(old(|disk.data|), First(start), 1) && !Held(PlanFor(start, cnt))
    ensures r.Formatted? ==>
              && P.Made(bitmap, PlanFor(start, cnt).bitLen) && D.SECTOR * PlanFor(start, cnt).bitmapSects <= |bitmap|
              && Written(old(disk.data), disk.data, start, cnt, pad,
                         bitmap[..D.SECTOR * PlanFor(start, cnt).bitmapSects])
  {
    hide D.Splice, SuperBlock, Padded, RootDirectory, Encode, Root, P.Plan, D.Served, P.Made, P.BufferSize;
    var l := PlanFor(start, cnt);
    bitmap := [];
    r := Stopped;
    if P.FIXED <= cnt <= P.LARGEST {
      P.RegionsInOrder(First(start) - 1, cnt);
      AllServed(|disk.data|, start, cnt);
    } else {
      WrappedPlan(start, cnt);
    }
    var buf := new D.Byte[P.BufferSize(l.bitmapSects)];
    Prepare(buf, SuperBlock(start, cnt, pad));
    WholePadded(SuperBlock(start, cnt, pad));
    var out := disk.Write(First(start), buf, 1);
    if !out.Done? { return; }
    WithinLimit(|disk.data|, First(start));
    SmallPlan(start, cnt);
    Clear(buf);
    var ok := P.BlockBitmap(buf, l.bitLen);
    if !ok { return Overrun, bitmap; }
    bitmap := buf[..];
    out := disk.Write(l.bitmapLba, buf, l.bitmapSects);
    if !out.Done? { return; }
    assert buf[..D.SECTOR * l.bitmapSects] == bitmap[..D.SECTOR * l.bitmapSects];
    Prepare(buf, [1]);
    out := disk.Write(l.inodeBitmapLba, buf, 1);
    if !out.Done? { return; }
    Prepare(buf, Encode(Root(l.dataLba)));
    out := disk.Write(l.tableLba, buf, TABLE_SECTORS);
    if !out.Done? { return; }
    Prepare(buf, RootDirectory());
    WholePadded(RootDirectory());
    out := disk.Write(l.dataLba, buf, 1);
    if out.Done? { r := Formatted; }
  }

  lemma WithinLimit(size: nat, lba: nat)
    requires D.Served(size, lba, 1)
    ensures lba <= D.MAX_LBA
  {
  }

  /** `memset` with zeros. */
  method Clear(buf: array<D.Byte>)
    modifies buf
    ensures forall i :: 0 <= i < buf.Length ==> buf[i] == 0
  {
    forall i | 0 <= i < buf.Length {
      buf[i] := 0;
    }
  }

  lemma WholePadded(b: seq<D.Byte>)
    requires |b| == D.SECTOR
    ensures Padded(b, 1) == b
  {
  }
}
