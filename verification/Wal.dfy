/**
 Log sequence numbers and WAL segment names: internal/manifest/manifest.go (LSN),
 internal/backup/wallag.go and the cutoff name of internal/retention/prune.go.
 */
module Wal {
  import opened Common
  import opened Text
  import opened Arith

  type LSN = x: int | 0 <= x < 0x1_0000_0000_0000_0000
  type Timeline = x: int | 0 <= x < 0x1_0000_0000

  /** A conversion to Go's uint32. */
  function U32(x: nat): Timeline { x % 0x1_0000_0000 }

  // -------------------------------------------------------- LSN text round trip

  /** LSN.String. */
  function LsnString(l: LSN): string {
    HalvesString(U32(l / 0x1_0000_0000), U32(l % 0x1_0000_0000))
  }

  /** `%X/%X`. */
  function HalvesString(hi: Timeline, lo: Timeline): string {
    VarHex(hi) + "/" + VarHex(lo)
  }

  /** ParseLSN; None for every error return. */
  function ParseLSN(s: string): Option<LSN> {
    var i := Find(s, '/');
    if i == |s| then None
    else
      var hiText, loText := s[..i], s[i + 1..];
      if hiText == "" || loText == "" || '/' in loText then None
      else
        var hi, lo := ScanHex(hiText, 0x1_0000_0000_0000_0000), ScanHex(loText, 0x1_0000_0000_0000_0000);
        if hi.None? || lo.None? || hi.value >= 0x1_0000_0000 || lo.value >= 0x1_0000_0000 then None
        else Some(hi.value * 0x1_0000_0000 + lo.value)
  }

  lemma {:induction false} HexHasNoSlash(s: string)
    requires IsHex(s)
    ensures '/' !in s
  {
    assert !IsHexDigit('/');
  }

  /** Scanning what VarHex printed gives the number back. */
  lemma {:induction false} ScanPrinted(n: nat)
    requires n < 0x1_0000_0000_0000_0000
    ensures ScanHex(VarHex(n), 0x1_0000_0000_0000_0000) == Some(n)
  {
    VarHexValue(n);
    HexRunAll(VarHex(n));
  }

  lemma {:induction false} ParseJoined(hi: string, lo: string, h: nat, o: nat)
    requires '/' !in hi && '/' !in lo && hi != "" && lo != ""
    requires ScanHex(hi, 0x1_0000_0000_0000_0000) == Some(h) && h < 0x1_0000_0000
    requires ScanHex(lo, 0x1_0000_0000_0000_0000) == Some(o) && o < 0x1_0000_0000
    ensures ParseLSN(hi + "/" + lo) == Some(h * 0x1_0000_0000 + o)
  {
    var s := hi + ['/'] + lo;
    FindAfter(hi, '/', lo);
    assert s[..|hi|] == hi && s[|hi| + 1..] == lo;
  }

  lemma {:induction false} ParsePrinted(h: nat, o: nat)
    requires h < 0x1_0000_0000 && o < 0x1_0000_0000
    ensures ParseLSN(HalvesString(h, o)) == Some(h * 0x1_0000_0000 + o)
  {
    ScanPrinted(h);
    ScanPrinted(o);
    HexHasNoSlash(VarHex(h));
    HexHasNoSlash(VarHex(o));
    ParseJoined(VarHex(h), VarHex(o), h, o);
  }

  /** Printing and parsing agree for every 64-bit LSN. */
  lemma {:induction false} LsnRoundTrip(l: LSN)
    ensures ParseLSN(LsnString(l)) == Some(l)
  {
    var hi, lo := U32(l / 0x1_0000_0000), U32(l % 0x1_0000_0000);
    assert ParseLSN(HalvesString(hi, lo)) == Some(l) by {
      HalvesRejoin(l);
      ParsePrinted(hi, lo);
    }
  }

  lemma {:induction false} HalvesRejoin(l: LSN)
    ensures U32(l / 0x1_0000_0000) * 0x1_0000_0000 + U32(l % 0x1_0000_0000) == l
  {
  }

  // ------------------------------------------------------------- segment names

  /** PG's xlog_seg_size: a power of two from 1 MiB to 1 GiB. */
  predicate SegmentSize(size: int) {
    || size == 0x10_0000 || size == 0x20_0000 || size == 0x40_0000 || size == 0x80_0000
    || size == 0x100_0000 || size == 0x200_0000 || size == 0x400_0000 || size == 0x800_0000
    || size == 0x1000_0000 || size == 0x2000_0000 || size == 0x4000_0000
  }

  /** `%08X%08X%08X`. */
  function FormatName(tli: Timeline, hi: Timeline, lo: Timeline): (s: string)
    ensures |s| == 24 && IsHex(s)
  {
    FixedHex(tli, 8) + (FixedHex(hi, 8) + FixedHex(lo, 8))
  }

  /** segmentsPerXLogID. */
  function SegmentsPerXLogID(size: int): nat
    requires size > 0
  {
    0x1_0000_0000 / size
  }

  /** The name of segment number n. */
  function NumberedName(tli: Timeline, n: nat, size: int): string
    requires SegmentSize(size)
  {
    PerXLogIDPositive(size);
    FormatName(tli, U32(n / SegmentsPerXLogID(size)), U32(n % SegmentsPerXLogID(size)))
  }

  lemma {:induction false} PerXLogIDPositive(size: int)
    requires SegmentSize(size)
    ensures 4 <= SegmentsPerXLogID(size) <= 0x1000
  {
  }

  lemma {:induction false} PerXLogIDProduct(size: int)
    requires SegmentSize(size)
    ensures SegmentsPerXLogID(size) * size == 0x1_0000_0000
  {
  }

  /** WALSegmentName. */
  function WALSegmentName(tli: Timeline, lsn: LSN, size: int): string
    requires size <= 0 || SegmentSize(size)
  {
    if size <= 0 then "" else
      DivMonotone(0, lsn, size);
      NumberedName(tli, lsn / size, size)
  }

  /** The quotient and remainder WALSegmentName takes are those of the LSN's two halves. */
  lemma {:induction false} FieldValues(lsn: LSN, size: int)
    requires SegmentSize(size)
    ensures lsn / size / SegmentsPerXLogID(size) == lsn / 0x1_0000_0000 < 0x1_0000_0000
    ensures 0 <= lsn / size % SegmentsPerXLogID(size) == lsn % 0x1_0000_0000 / size < 0x1000
  {
    PerXLogIDPositive(size);
    PerXLogIDProduct(size);
    DivDiv(lsn, size, SegmentsPerXLogID(size), 0x1_0000_0000);
  }

  /**
   The two casts to uint32 never truncate, and the fields are the high half of the LSN
   and the segment's index inside it.
   */
  lemma {:induction false} NameFields(tli: Timeline, lsn: LSN, size: int)
    requires SegmentSize(size)
    ensures 0 <= lsn % 0x1_0000_0000 / size < 0x1000
    ensures WALSegmentName(tli, lsn, size) == FormatName(tli, lsn / 0x1_0000_0000, lsn % 0x1_0000_0000 / size)
  {
    FieldValues(lsn, size);
    var hi, lo := lsn / size / SegmentsPerXLogID(size), lsn / size % SegmentsPerXLogID(size);
    assert U32(hi) == hi && U32(lo) == lo;
  }

  lemma {:induction false} TwoColumns(a: string, b: string, x: string, y: string)
    requires |a| == |b|
    ensures Less(a + x, b + y) <==> Less(a, b) || (a == b && Less(x, y))
    ensures a + x == b + y <==> a == b && x == y
  {
    LessConcat(a, b, x, y);
    ConcatEqual(a, b, x, y);
  }

  /** Names compare field by field. */
  lemma {:induction false} FormatNameOrder(t: Timeline, hi: Timeline, lo: Timeline, t': Timeline, hi': Timeline, lo': Timeline)
    ensures Less(FormatName(t, hi, lo), FormatName(t', hi', lo')) <==>
            t < t' || (t == t' && (hi < hi' || (hi == hi' && lo < lo')))
    ensures FormatName(t, hi, lo) == FormatName(t', hi', lo') <==> t == t' && hi == hi' && lo == lo'
  {
    Pow16Eight();
    FixedHexOrder(t, t', 8);
    FixedHexOrder(hi, hi', 8);
    FixedHexOrder(lo, lo', 8);
    TwoColumns(FixedHex(hi, 8), FixedHex(hi', 8), FixedHex(lo, 8), FixedHex(lo', 8));
    TwoColumns(FixedHex(t, 8), FixedHex(t', 8), FixedHex(hi, 8) + FixedHex(lo, 8), FixedHex(hi', 8) + FixedHex(lo', 8));
  }

  /** A segment number is its two fields, compared high field first. */
  lemma {:induction false} FieldOrder(a: LSN, b: LSN, size: int)
    requires SegmentSize(size)
    ensures a / size < b / size <==>
            a / 0x1_0000_0000 < b / 0x1_0000_0000 ||
            (a / 0x1_0000_0000 == b / 0x1_0000_0000 && a % 0x1_0000_0000 / size < b % 0x1_0000_0000 / size)
    ensures a / size == b / size <==>
            a / 0x1_0000_0000 == b / 0x1_0000_0000 && a % 0x1_0000_0000 / size == b % 0x1_0000_0000 / size
  {
    FieldValues(a, size);
    FieldValues(b, size);
    PerXLogIDPositive(size);
    SplitOrder(a / size, b / size, SegmentsPerXLogID(size));
  }

  /** Names order by timeline and then by segment number, so a name determines both. */
  lemma {:induction false} NameOrder(t: Timeline, a: LSN, t': Timeline, b: LSN, size: int)
    requires SegmentSize(size)
    ensures Less(WALSegmentName(t, a, size), WALSegmentName(t', b, size)) <==> t < t' || (t == t' && a / size < b / size)
    ensures WALSegmentName(t, a, size) == WALSegmentName(t', b, size) <==> t == t' && a / size == b / size
  {
    NameFields(t, a, size);
    NameFields(t', b, size);
    FormatNameOrder(t, a / 0x1_0000_0000, a % 0x1_0000_0000 / size, t', b / 0x1_0000_0000, b % 0x1_0000_0000 / size);
    FieldOrder(a, b, size);
  }

  /** PostgreSQL prints segment names in upper case, and so are these: 24 characters of 0-9 and A-F. */
  lemma {:induction false} NamesAreUpperCase(tli: Timeline, lsn: LSN, size: int)
    requires SegmentSize(size)
    ensures |WALSegmentName(tli, lsn, size)| == |CutoffName(tli, lsn)| == 24
    ensures forall i :: 0 <= i < 24 ==> '0' <= WALSegmentName(tli, lsn, size)[i] <= '9' || 'A' <= WALSegmentName(tli, lsn, size)[i] <= 'F'
    ensures forall i :: 0 <= i < 24 ==> '0' <= CutoffName(tli, lsn)[i] <= '9' || 'A' <= CutoffName(tli, lsn)[i] <= 'F'
  {
    NameFields(tli, lsn, size);
    CutoffIs(tli, lsn);
    FormatIsUpper(tli, lsn / 0x1_0000_0000, lsn % 0x1_0000_0000 / size);
    FormatIsUpper(tli, lsn / 0x1_0000_0000 / 0x100_0000, lsn / 0x100_0000 % 0x1_0000_0000);
  }

  lemma {:induction false} FormatIsUpper(tli: Timeline, hi: Timeline, lo: Timeline)
    ensures IsUpperHex(FormatName(tli, hi, lo))
  {
    FixedHexIsUpper(tli, 8);
    FixedHexIsUpper(hi, 8);
    FixedHexIsUpper(lo, 8);
  }

  // --------------------------------------------------------- bracket segments

  /** The segment of that name holds a byte of [start, stop). */
  predicate Needed(name: string, tli: Timeline, start: LSN, stop: LSN, size: int)
    requires SegmentSize(size)
  {
    exists x: LSN :: start <= x < stop && name == WALSegmentName(tli, x, size)
  }

  /** `out` names exactly the segments that hold a byte of [start, stop), in log order. */
  predicate ExactCover(out: seq<string>, tli: Timeline, start: LSN, stop: LSN, size: int)
    requires SegmentSize(size)
  {
    && (forall x: LSN :: start <= x < stop ==> WALSegmentName(tli, x, size) in out)
    && (forall k :: 0 <= k < |out| ==> Needed(out[k], tli, start, stop, size))
    && (forall j, k :: 0 <= j < k < |out| ==> Less(out[j], out[k]))
  }

  /** The names of `count` consecutive numbers. */
  function Range(name: nat -> string, first: nat, count: nat): (names: seq<string>)
    ensures |names| == count
    ensures forall k :: 0 <= k < count ==> names[k] == name(first + k)
  {
    if count == 0 then [] else Range(name, first, count - 1) + [name(first + count - 1)]
  }

  function Namer(tli: Timeline, size: int): nat -> string
    requires SegmentSize(size)
  {
    (n: nat) => NumberedName(tli, n, size)
  }

  /** The names of `count` consecutive segments. */
  function NameRange(tli: Timeline, first: nat, count: nat, size: int): (names: seq<string>)
    requires SegmentSize(size)
    ensures |names| == count
    ensures forall k :: 0 <= k < count ==> names[k] == NumberedName(tli, first + k, size)
  {
    Range(Namer(tli, size), first, count)
  }

  /** WALSegmentsBetween. */
  method WALSegmentsBetween(tli: Timeline, start: LSN, stop: LSN, size: int) returns (out: seq<string>)
    requires size <= 0 || SegmentSize(size)
    ensures size <= 0 || stop < start ==> out == []
    ensures size > 0 && start == stop ==> out == [WALSegmentName(tli, start, size)]
    ensures size > 0 && start < stop ==>
              && ExactCover(out, tli, start, stop, size)
              && out == NameRange(tli, start / size, |out|, size)
  {
    if size <= 0 || stop < start {
      return [];
    }
    DivMonotone(0, start, size);
    DivMonotone(start, stop, size);
    var first, last := start / size, stop / size;
    if stop % size == 0 && stop > start && last > 0 {
      last := last - 1;
    }
    out := Enumerate(Namer(tli, size), first, last);
    if start < stop {
      PredecessorUnit(stop, size);
      DivMonotone(start, stop - 1, size);
      RangeIsExactCover(out, tli, start, stop, size);
    }
  }

  /** The loop of WALSegmentsBetween. */
  method Enumerate(name: nat -> string, first: nat, last: int) returns (out: seq<string>)
    requires first <= last + 1
    ensures out == Range(name, first, last - first + 1)
  {
    out := [];
    var n := first;
    while n <= last
      invariant first <= n <= last + 1
      invariant out == Range(name, first, n - first)
    {
      out := out + [name(n)];
      n := n + 1;
    }
  }

  lemma {:induction false} CoversPoint(out: seq<string>, tli: Timeline, first: int, last: int, x: LSN, size: int)
    requires SegmentSize(size) && 0 <= first <= x / size <= last
    requires out == NameRange(tli, first, last - first + 1, size)
    ensures WALSegmentName(tli, x, size) in out
  {
    assert out[x / size - first] == NumberedName(tli, x / size, size);
  }

  /** Segment numbers of [start, stop) run from start's to that of stop - 1. */
  lemma {:induction false} RangeIsExactCover(out: seq<string>, tli: Timeline, start: LSN, stop: LSN, size: int)
    requires SegmentSize(size) && start < stop
    requires 0 <= start / size <= (stop - 1) / size
    requires out == NameRange(tli, start / size, (stop - 1) / size - start / size + 1, size)
    ensures ExactCover(out, tli, start, stop, size)
  {
    forall x: LSN | start <= x < stop
      ensures WALSegmentName(tli, x, size) in out
    {
      DivMonotone(start, x, size);
      DivMonotone(x, stop - 1, size);
      CoversPoint(out, tli, start / size, (stop - 1) / size, x, size);
    }
    forall k | 0 <= k < |out|
      ensures Needed(out[k], tli, start, stop, size)
    {
      var x := RangeElement(out, tli, start, stop, size, k);
    }
    forall j, k | 0 <= j < k < |out|
      ensures Less(out[j], out[k])
    {
      RangeIncreasing(out, tli, start, stop, size, j, k);
    }
  }

  lemma {:induction false} RangeIncreasing(out: seq<string>, tli: Timeline, start: LSN, stop: LSN, size: int, j: nat, k: nat)
    requires SegmentSize(size) && start < stop && j < k < |out|
    requires 0 <= start / size <= (stop - 1) / size
    requires out == NameRange(tli, start / size, (stop - 1) / size - start / size + 1, size)
    ensures Less(out[j], out[k])
  {
    var x := RangeElement(out, tli, start, stop, size, j);
    var y := RangeElement(out, tli, start, stop, size, k);
    NameOrder(tli, x, tli, y, size);
  }

  lemma {:induction false} RangeElement(out: seq<string>, tli: Timeline, start: LSN, stop: LSN, size: int, k: nat) returns (x: LSN)
    requires SegmentSize(size) && start < stop
    requires 0 <= start / size <= (stop - 1) / size
    requires out == NameRange(tli, start / size, (stop - 1) / size - start / size + 1, size) && k < |out|
    ensures start <= x < stop && x / size == start / size + k
    ensures out[k] == WALSegmentName(tli, x, size)
  {
    x := NamedPoint(Namer(tli, size), out, start, stop, size, k);
  }

  /** The same for any way of naming segment numbers. */
  lemma {:induction false} NamedPoint(name: nat -> string, out: seq<string>, start: LSN, stop: LSN, size: int, k: nat) returns (x: LSN)
    requires 0 < size && start < stop && 0 <= start / size <= (stop - 1) / size
    requires out == Range(name, start / size, (stop - 1) / size - start / size + 1) && k < |out|
    ensures start <= x < stop && x / size == start / size + k && out[k] == name(x / size)
  {
    x := SegmentPoint(start, stop, size, k);
  }

  /** Some position of the range lies in its k-th segment. */
  lemma {:induction false} SegmentPoint(start: LSN, stop: LSN, size: int, k: nat) returns (x: LSN)
    requires 0 < size && start < stop && start / size + k <= (stop - 1) / size
    ensures start <= x < stop && x / size == start / size + k
  {
    var y := UnitWitness(start / size + k, start, stop - 1, size);
    x := y;
  }

  // ------------------------------------------------------------- prune cutoff

  /** walSegmentNameForTimeline: segment number at 16 MiB, split into two 32-bit halves. */
  function CutoffName(tli: Timeline, lsn: LSN): string {
    var segNo := lsn / 0x100_0000;
    FormatName(tli, U32(segNo / 0x1_0000_0000), U32(segNo % 0x1_0000_0000))
  }

  lemma {:induction false} CutoffFields(lsn: LSN)
    ensures 0 <= lsn / 0x100_0000 / 0x1_0000_0000 == lsn / 0x1_0000_0000 / 0x100_0000 < 0x1_0000_0000
    ensures lsn < 0x1_0000_0000 ==> lsn / 0x100_0000 % 0x1_0000_0000 == lsn / 0x100_0000
  {
    DivDiv(lsn, 0x100_0000, 0x1_0000_0000, 0x100_0000_0000_0000);
    DivDiv(lsn, 0x1_0000_0000, 0x100_0000, 0x100_0000_0000_0000);
  }

  lemma {:induction false} CutoffIs(tli: Timeline, lsn: LSN)
    ensures 0 <= lsn / 0x1_0000_0000 / 0x100_0000 < 0x1_0000_0000
    ensures CutoffName(tli, lsn) ==
            FormatName(tli, lsn / 0x1_0000_0000 / 0x100_0000, lsn / 0x100_0000 % 0x1_0000_0000)
  {
    CutoffFields(lsn);
    U32Id(lsn / 0x100_0000 / 0x1_0000_0000);
    U32Id(lsn / 0x100_0000 % 0x1_0000_0000);
  }

  lemma {:induction false} U32Id(x: nat)
    ensures x < 0x1_0000_0000 ==> U32(x) == x
  {
  }

  /** How the cutoff name compares with PostgreSQL's own name of the segment holding lsn. */
  lemma {:induction false} CutoffOrder(tli: Timeline, lsn: LSN, size: int)
    requires SegmentSize(size)
    ensures lsn >= 0x1_0000_0000 ==> Less(CutoffName(tli, lsn), WALSegmentName(tli, lsn, size))
    ensures lsn < 0x1_0000_0000 ==>
              && (Less(CutoffName(tli, lsn), WALSegmentName(tli, lsn, size)) <==> lsn / 0x100_0000 < lsn / size)
              && (CutoffName(tli, lsn) == WALSegmentName(tli, lsn, size) <==> lsn / 0x100_0000 == lsn / size)
  {
    NameFields(tli, lsn, size);
    CutoffIs(tli, lsn);
    var hi, lo := lsn / 0x1_0000_0000 / 0x100_0000, lsn / 0x100_0000 % 0x1_0000_0000;
    var major, minor := lsn / 0x1_0000_0000, lsn % 0x1_0000_0000 / size;
    FormatNameOrder(tli, hi, lo, tli, major, minor);
    if lsn >= 0x1_0000_0000 {
      assert hi < major;
    } else {
      assert hi == major == 0;
      CutoffFields(lsn);
      assert lsn % 0x1_0000_0000 == lsn;
    }
  }

  /** The cutoff agrees with PostgreSQL's own name exactly while the LSN is below 4 GiB. */
  lemma {:induction false} CutoffAgrees(tli: Timeline, lsn: LSN)
    ensures CutoffName(tli, lsn) == WALSegmentName(tli, lsn, 0x100_0000) <==> lsn < 0x1_0000_0000
  {
    CutoffOrder(tli, lsn, 0x100_0000);
    Trichotomy(CutoffName(tli, lsn), WALSegmentName(tli, lsn, 0x100_0000));
  }

  lemma {:induction false} QuotientOrder(lsn: LSN, size: int)
    requires SegmentSize(size) && lsn < 0x1_0000_0000
    ensures lsn / 0x100_0000 <= lsn / size <==> size <= 0x100_0000 || lsn < 0x100_0000
  {
    if size <= 0x100_0000 {
      DivAntitone(lsn, size, 0x100_0000);
    } else {
      DivAntitone(lsn, 0x200_0000, size);
      DivMonotone(0, lsn, size);
    }
  }

  /**
   The cutoff never passes the segment that holds lsn, for exactly these clusters and
   positions: segments of at most 16 MiB, or an LSN from 4 GiB up, or one below 16 MiB.
   */
  lemma {:induction false} CutoffSafeIff(tli: Timeline, lsn: LSN, size: int)
    requires SegmentSize(size)
    ensures AtMost(CutoffName(tli, lsn), WALSegmentName(tli, lsn, size)) <==>
            size <= 0x100_0000 || lsn >= 0x1_0000_0000 || lsn < 0x100_0000
  {
    CutoffOrder(tli, lsn, size);
    if lsn < 0x1_0000_0000 {
      QuotientOrder(lsn, size);
    }
  }
}
