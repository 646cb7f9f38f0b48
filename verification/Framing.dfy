/** The RPC envelope: readFrame and writeFrame of internal/transport/rpc/dual_codec.go. */
module Framing {
  import opened Common
  import Arith

  const JSON: byte := 74
  const GOB: byte := 71
  const REQUEST: byte := 113
  const RESPONSE: byte := 114

  type Long = x: int | 0 <= x < 0x1_0000_0000_0000_0000

  datatype Frame = Frame(disc: byte, seq_: Long, kind: byte, method_: Bytes, errMsg: Bytes, body: Bytes)

  // ------------------------------------------------------------ big-endian numbers

  function Pow256(w: nat): nat { if w == 0 then 1 else 256 * Pow256(w - 1) }

  function Be(n: nat, w: nat): (b: Bytes)
    ensures |b| == w
  {
    if w == 0 then [] else Be(n / 256, w - 1) + [n % 256]
  }

  function FromBe(b: Bytes): (n: nat)
    ensures n < Pow256(|b|)
  {
    if b == [] then 0 else 256 * FromBe(b[..|b| - 1]) + b[|b| - 1]
  }

  lemma {:induction false} FromBeOfBe(n: nat, w: nat)
    requires n < Pow256(w)
    ensures FromBe(Be(n, w)) == n
  {
    if w > 0 {
      FromBeOfBe(n / 256, w - 1);
      assert Be(n, w)[..w - 1] == Be(n / 256, w - 1);
    }
  }

  lemma {:induction false} BeOfFromBe(b: Bytes)
    ensures Be(FromBe(b), |b|) == b
  {
    if b != [] {
      BeOfFromBe(b[..|b| - 1]);
    }
  }

  lemma {:induction false} Widths()
    ensures Pow256(4) == 0x1_0000_0000 && Pow256(8) == 0x1_0000_0000_0000_0000
  {
    assert Pow256(2) == 0x1_0000;
    assert Pow256(4) == 0x1_0000_0000;
    assert Pow256(6) == 0x1_0000_0000_0000;
  }

  // --------------------------------------------------------------------- writing

  /** writeLenPrefixed: the length is cut to 32 bits, the bytes are not. */
  function Prefixed(p: Bytes): Bytes { Be(|p| % 0x1_0000_0000, 4) + p }

  function Encode(f: Frame): Bytes {
    [f.disc] + Be(f.seq_, 8) + [f.kind] + Prefixed(f.method_) + Prefixed(f.errMsg) + Prefixed(f.body)
  }

  // --------------------------------------------------------------------- reading

  datatype Parsed<+T> = Got(value: T, rest: Bytes) | Short | BadDisc | BadKind

  function TakeBytes(b: Bytes, n: nat): Parsed<Bytes> {
    if |b| < n then Short else Got(b[..n], b[n..])
  }

  /** readLenPrefixed */
  function TakePrefixed(b: Bytes): Parsed<Bytes> {
    if |b| < 4 then Short else TakeBytes(b[4..], FromBe(b[..4]))
  }

  /** The three length-prefixed fields. */
  function TakeFields(b: Bytes): Parsed<(Bytes, Bytes, Bytes)> {
    match TakePrefixed(b)
    case Got(m, b1) => (
      match TakePrefixed(b1)
      case Got(e, b2) => (
        match TakePrefixed(b2)
        case Got(p, b3) => Got((m, e, p), b3)
        case _ => Short)
      case _ => Short)
    case _ => Short
  }

  /** readFrame. */
  function Parse(b: Bytes): Parsed<Frame> {
    if |b| < 1 then Short
    else if b[0] != JSON && b[0] != GOB then BadDisc
    else if |b| < 10 then Short
    else if b[9] != REQUEST && b[9] != RESPONSE then BadKind
    else
      match TakeFields(b[10..])
      case Got(fields, rest) =>
        Widths();
        Got(Frame(b[0], FromBe(b[1..9]), b[9], fields.0, fields.1, fields.2), rest)
      case _ => Short
  }

  /** The tags are known ones. */
  predicate Tagged(f: Frame) { (f.disc == JSON || f.disc == GOB) && (f.kind == REQUEST || f.kind == RESPONSE) }

  /** Every length fits in 32 bits. */
  predicate Fits(f: Frame) { |f.method_| < 0x1_0000_0000 && |f.errMsg| < 0x1_0000_0000 && |f.body| < 0x1_0000_0000 }

  // ------------------------------------------------------------------ round trips

  lemma {:induction false} TakePrefixedOf(p: Bytes, rest: Bytes)
    requires |p| < 0x1_0000_0000
    ensures TakePrefixed(Prefixed(p) + rest) == Got(p, rest)
  {
    var n := Be(|p|, 4);
    Widths();
    FromBeOfBe(|p|, 4);
    Halves(n, p, rest);
    assert Prefixed(p) + rest == n + p + rest;
  }

  lemma {:induction false} Halves(n: Bytes, p: Bytes, rest: Bytes)
    ensures var b := n + p + rest; b[..|n|] == n && b[|n|..][..|p|] == p && b[|n|..][|p|..] == rest
  {
    assert (n + p + rest)[|n|..] == p + rest;
  }

  lemma {:induction false} Rejoin(b: Bytes, i: nat, k: nat)
    requires i <= |b| && k <= |b[i..]|
    ensures b == b[..i] + b[i..][..k] + b[i..][k..]
  {
    assert b[i..] == b[i..][..k] + b[i..][k..];
  }

  lemma {:induction false} TakePrefixedInverse(b: Bytes)
    ensures TakePrefixed(b).Got? ==>
              && |TakePrefixed(b).value| < 0x1_0000_0000 && b == Prefixed(TakePrefixed(b).value) + TakePrefixed(b).rest
  {
    if TakePrefixed(b).Got? {
      Widths();
      BeOfFromBe(b[..4]);
      Rejoin(b, 4, FromBe(b[..4]));
    }
  }

  lemma {:induction false} TakeFieldsOf(m: Bytes, e: Bytes, p: Bytes, rest: Bytes)
    requires |m| < 0x1_0000_0000 && |e| < 0x1_0000_0000 && |p| < 0x1_0000_0000
    ensures TakeFields(Prefixed(m) + Prefixed(e) + Prefixed(p) + rest) == Got((m, e, p), rest)
  {
    var b := Prefixed(m) + Prefixed(e) + Prefixed(p) + rest;
    assert b == Prefixed(m) + (Prefixed(e) + (Prefixed(p) + rest));
    TakePrefixedOf(m, Prefixed(e) + (Prefixed(p) + rest));
    TakePrefixedOf(e, Prefixed(p) + rest);
    TakePrefixedOf(p, rest);
  }

  lemma {:induction false} Regroup(b: Bytes, m: Bytes, b1: Bytes, e: Bytes, b2: Bytes, p: Bytes, rest: Bytes)
    requires b == m + b1 && b1 == e + b2 && b2 == p + rest
    ensures b == m + e + p + rest
  {
  }

  lemma {:induction false} TakeFieldsInverse(b: Bytes)
    ensures TakeFields(b).Got? ==>
              var t := TakeFields(b);
              && |t.value.0| < 0x1_0000_0000 && |t.value.1| < 0x1_0000_0000 && |t.value.2| < 0x1_0000_0000
              && b == Prefixed(t.value.0) + Prefixed(t.value.1) + Prefixed(t.value.2) + t.rest
  {
    var r := TakePrefixed(b);
    TakePrefixedInverse(b);
    if r.Got? {
      var r1 := TakePrefixed(r.rest);
      TakePrefixedInverse(r.rest);
      if r1.Got? {
        var r2 := TakePrefixed(r1.rest);
        TakePrefixedInverse(r1.rest);
        if r2.Got? {
          Regroup(b, Prefixed(r.value), r.rest, Prefixed(r1.value), r1.rest, Prefixed(r2.value), r2.rest);
        }
      }
    }
  }

  lemma {:induction false} HeaderOf(f: Frame, rest: Bytes)
    ensures var b, tail := Encode(f) + rest, Prefixed(f.method_) + Prefixed(f.errMsg) + Prefixed(f.body) + rest;
            |b| >= 10 && b[0] == f.disc && b[1..9] == Be(f.seq_, 8) && b[9] == f.kind && b[10..] == tail
  {
    var tail := Prefixed(f.method_) + Prefixed(f.errMsg) + Prefixed(f.body) + rest;
    var b := Encode(f) + rest;
    assert b == [f.disc] + Be(f.seq_, 8) + [f.kind] + tail;
  }

  lemma {:induction false} PowPositive(w: nat)
    ensures Pow256(w) > 0
  {
    if w > 0 {
      PowPositive(w - 1);
    }
  }

  /** How often 256 to the e goes into n, without the units above it. */
  function Units(n: nat, e: nat): nat {
    PowPositive(e);
    n / Pow256(e) % 256
  }

  /** The k-th byte of a big-endian number counts units of 256 to the number of bytes after it. */
  lemma {:induction false} BeDigit(n: nat, w: nat, k: nat)
    requires k < w
    ensures Be(n, w)[k] == Units(n, w - 1 - k)
    decreases w
  {
    PowPositive(w - 1 - k);
    if k < w - 1 {
      BeDigit(n / 256, w - 1, k);
      PowPositive(w - 2 - k);
      Arith.DivDiv(n, 256, Pow256(w - 2 - k), Pow256(w - 1 - k));
    }
  }

  /** A number in w bytes from position i on, most significant byte first. */
  predicate NumberAt(b: Bytes, i: nat, w: nat, n: nat) {
    i + w <= |b| && forall e :: 0 <= e < w ==> b[i + w - 1 - e] == Units(n, e)
  }

  lemma {:induction false} BeIsNumber(n: nat, w: nat)
    ensures NumberAt(Be(n, w), 0, w, n)
  {
    forall e | 0 <= e < w
      ensures Be(n, w)[w - 1 - e] == Units(n, e)
    {
      BeDigit(n, w, w - 1 - e);
    }
  }

  /** A number keeps its bytes wherever it is put. */
  lemma {:induction false} NumberWithin(a: Bytes, number: Bytes, rest: Bytes, n: nat)
    requires NumberAt(number, 0, |number|, n)
    ensures NumberAt(a + number + rest, |a|, |number|, n)
  {
    var b := a + number + rest;
    forall e | 0 <= e < |number|
      ensures b[|a| + |number| - 1 - e] == Units(n, e)
    {
      assert b[|a| + (|number| - 1 - e)] == number[0 + |number| - 1 - e];
    }
  }

  /** p stands at position i, behind its length in four bytes. */
  predicate FieldAt(b: Bytes, i: nat, p: Bytes) {
    NumberAt(b, i, 4, |p|) && i + 4 + |p| <= |b| && b[i + 4..i + 4 + |p|] == p
  }

  lemma {:induction false} PrefixedWithin(a: Bytes, p: Bytes, rest: Bytes)
    requires |p| < 0x1_0000_0000
    ensures FieldAt(a + Prefixed(p) + rest, |a|, p)
  {
    BeIsNumber(|p|, 4);
    NumberWithin(a, Be(|p|, 4), p + rest, |p|);
    assert a + Prefixed(p) + rest == a + Be(|p|, 4) + (p + rest);
  }

  /**
   The bytes on the wire: the encoding's tag, the sequence number in eight bytes with the most significant
   first, the kind's tag, then method, error message and body, each behind its length in four such bytes.
   */
  lemma {:induction false} WireLayout(f: Frame)
    requires Fits(f)
    ensures var b, m, e, p := Encode(f), |f.method_|, |f.errMsg|, |f.body|;
            && |b| == 22 + m + e + p && b[0] == f.disc && NumberAt(b, 1, 8, f.seq_) && b[9] == f.kind
            && FieldAt(b, 10, f.method_) && FieldAt(b, 14 + m, f.errMsg) && FieldAt(b, 18 + m + e, f.body)
  {
    HeadLayout(f.disc, f.seq_, f.kind, Prefixed(f.method_) + Prefixed(f.errMsg) + Prefixed(f.body));
    FieldsLayout([f.disc] + Be(f.seq_, 8) + [f.kind], f.method_, f.errMsg, f.body);
    EncodeIs(f);
  }

  lemma {:induction false} EncodeIs(f: Frame)
    ensures Encode(f) == [f.disc] + Be(f.seq_, 8) + [f.kind] + (Prefixed(f.method_) + Prefixed(f.errMsg) + Prefixed(f.body))
  {
  }

  lemma {:induction false} HeadLayout(disc: byte, n: nat, kind: byte, tail: Bytes)
    ensures var b := [disc] + Be(n, 8) + [kind] + tail; |b| == 10 + |tail| && b[0] == disc && NumberAt(b, 1, 8, n) && b[9] == kind
  {
    BeIsNumber(n, 8);
    NumberWithin([disc], Be(n, 8), [kind] + tail, n);
    assert [disc] + Be(n, 8) + [kind] + tail == [disc] + Be(n, 8) + ([kind] + tail);
  }

  lemma {:induction false} FieldsLayout(head: Bytes, m: Bytes, e: Bytes, p: Bytes)
    requires |head| == 10 && |m| < 0x1_0000_0000 && |e| < 0x1_0000_0000 && |p| < 0x1_0000_0000
    ensures var b := head + (Prefixed(m) + Prefixed(e) + Prefixed(p));
            |b| == 22 + |m| + |e| + |p| && FieldAt(b, 10, m) && FieldAt(b, 14 + |m|, e) && FieldAt(b, 18 + |m| + |e|, p)
  {
    var x, y, z := Prefixed(m), Prefixed(e), Prefixed(p);
    PrefixedWithin(head, m, y + z);
    PrefixedWithin(head + x, e, z);
    PrefixedWithin(head + x + y, p, []);
    Regroupings(head, x, y, z);
  }

  lemma {:induction false} Regroupings(head: Bytes, x: Bytes, y: Bytes, z: Bytes)
    ensures head + (x + y + z) == head + x + (y + z) == (head + x) + y + z == (head + x + y) + z + []
  {
  }

  /** Reading what was written, whatever follows it on the stream. */
  lemma {:induction false} ParseOfEncode(f: Frame, rest: Bytes)
    requires Tagged(f) && Fits(f)
    ensures Parse(Encode(f) + rest) == Got(f, rest)
  {
    HeaderOf(f, rest);
    TakeFieldsOf(f.method_, f.errMsg, f.body, rest);
    Widths();
    FromBeOfBe(f.seq_, 8);
  }

  lemma {:induction false} HeaderSplit(b: Bytes, m: Bytes, e: Bytes, p: Bytes, rest: Bytes)
    requires |b| >= 10 && b[10..] == m + e + p + rest
    ensures b == [b[0]] + b[1..9] + [b[9]] + m + e + p + rest
  {
    assert b == [b[0]] + b[1..9] + [b[9]] + b[10..];
  }

  /** The reader accepts only what the writer writes, and such frames fit. */
  lemma {:induction false} EncodeOfParse(b: Bytes)
    ensures Parse(b).Got? ==> Tagged(Parse(b).value) && Fits(Parse(b).value) && b == Encode(Parse(b).value) + Parse(b).rest
  {
    if Parse(b).Got? {
      var t := TakeFields(b[10..]);
      TakeFieldsInverse(b[10..]);
      BeOfFromBe(b[1..9]);
      HeaderSplit(b, Prefixed(t.value.0), Prefixed(t.value.1), Prefixed(t.value.2), t.rest);
    }
  }

  /** A frame survives the wire exactly when its tags are known and every length fits in 32 bits. */
  lemma {:induction false} FrameRoundTripIff(f: Frame, rest: Bytes)
    ensures Parse(Encode(f) + rest) == Got(f, rest) <==> Tagged(f) && Fits(f)
  {
    if Tagged(f) && Fits(f) {
      ParseOfEncode(f, rest);
    }
    EncodeOfParse(Encode(f) + rest);
  }

  /** The frames of a whole stream, or None when it does not end at a frame boundary. */
  function ParseAll(b: Bytes): Option<seq<Frame>>
    decreases |b|
  {
    if b == [] then Some([])
    else
      match Parse(b)
      case Got(f, rest) => (
        ParseShrinks(b);
        match ParseAll(rest)
        case Some(more) => Some([f] + more)
        case None => None)
      case _ => None
  }

  lemma {:induction false} ParseShrinks(b: Bytes)
    ensures Parse(b).Got? ==> |Parse(b).rest| < |b|
  {
    EncodeOfParse(b);
  }

  function EncodeAll(frames: seq<Frame>): Bytes {
    if frames == [] then [] else Encode(frames[0]) + EncodeAll(frames[1..])
  }

  /** A stream of frames decodes to those frames with nothing left over, and to nothing else. */
  lemma {:induction false} StreamRoundTrip(frames: seq<Frame>)
    requires forall i :: 0 <= i < |frames| ==> Tagged(frames[i]) && Fits(frames[i])
    ensures ParseAll(EncodeAll(frames)) == Some(frames)
    decreases |frames|
  {
    if frames != [] {
      ParseOfEncode(frames[0], EncodeAll(frames[1..]));
      StreamRoundTrip(frames[1..]);
      ParseAllStep(EncodeAll(frames), frames[0], EncodeAll(frames[1..]), frames[1..]);
      assert [frames[0]] + frames[1..] == frames;
    }
  }

  lemma {:induction false} ParseAllStep(b: Bytes, f: Frame, rest: Bytes, more: seq<Frame>)
    requires Parse(b) == Got(f, rest) && ParseAll(rest) == Some(more)
    ensures ParseAll(b) == Some([f] + more)
  {
  }

  lemma {:induction false} StreamInverse(b: Bytes)
    ensures ParseAll(b).Some? ==> EncodeAll(ParseAll(b).value) == b
    decreases |b|
  {
    if b != [] && Parse(b).Got? {
      EncodeOfParse(b);
      ParseShrinks(b);
      StreamInverse(Parse(b).rest);
      if ParseAll(b).Some? {
        assert ParseAll(b).value[1..] == ParseAll(Parse(b).rest).value;
      }
    }
  }

  // -------------------------------------------------------------- on a stream

  /** An io.Reader over bytes that have arrived, and the bytes written so far. */
  class Stream {
    var input: Bytes
    var output: Bytes

    constructor (input: Bytes)
      ensures this.input == input && output == []
    {
      this.input, output := input, [];
    }

    /** io.ReadFull; on a short stream everything is consumed. */
    method ReadFull(n: nat) returns (b: Option<Bytes>)
      modifies this`input
      ensures TakeBytes(old(input), n).Got? ==> b == Some(TakeBytes(old(input), n).value) && input == TakeBytes(old(input), n).rest
      ensures !TakeBytes(old(input), n).Got? ==> b == None
    {
      if |input| < n {
        input := [];
        return None;
      }
      b, input := Some(input[..n]), input[n..];
    }

    method ReadLenPrefixed() returns (p: Option<Bytes>)
      modifies this`input
      ensures var r := TakePrefixed(old(input));
              if r.Got? then p == Some(r.value) && input == r.rest else p == None
    {
      var n := ReadFull(4);
      if n.None? { return None; }
      if FromBe(n.value) == 0 { return Some([]); }
      p := ReadFull(FromBe(n.value));
    }

    method ReadFields() returns (r: Option<(Bytes, Bytes, Bytes)>)
      modifies this`input
      ensures var t := TakeFields(old(input));
              if t.Got? then r == Some(t.value) && input == t.rest else r == None
    {
      var m := ReadLenPrefixed();
      if m.None? { return None; }
      var e := ReadLenPrefixed();
      if e.None? { return None; }
      var p := ReadLenPrefixed();
      r := if p.None? then None else Some((m.value, e.value, p.value));
    }

    method ReadFrame() returns (f: Option<Frame>)
      modifies this`input
      ensures var r := Parse(old(input));
              if r.Got? then f == Some(r.value) && input == r.rest else f == None
    {
      var disc := ReadFull(1);
      if disc.None? || (disc.value[0] != JSON && disc.value[0] != GOB) { return None; }
      var number := ReadFull(8);
      if number.None? { return None; }
      var kind := ReadFull(1);
      if kind.None? || (kind.value[0] != REQUEST && kind.value[0] != RESPONSE) { return None; }
      assert old(input)[1..][..8] == old(input)[1..9] && old(input)[1..][8..][1..] == old(input)[10..];
      Widths();
      var fields := ReadFields();
      f := if fields.None? then None
           else Some(Frame(disc.value[0], FromBe(number.value), kind.value[0], fields.value.0, fields.value.1, fields.value.2));
    }

    method WriteFrame(f: Frame)
      modifies this`output
      ensures output == old(output) + Encode(f)
    {
      var buf := [f.disc] + Be(f.seq_, 8) + [f.kind];
      buf := buf + Prefixed(f.method_);
      buf := buf + Prefixed(f.errMsg);
      buf := buf + Prefixed(f.body);
      output := output + buf;
    }
  }
}
