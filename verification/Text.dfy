/**
 Strings as pgSafe uses them: Go's byte-wise order, hexadecimal formatting and
 scanning, and splitting at a separator.
 */
module Text {
  import opened Common

  // ---------------------------------------------------------------- ordering

  /** Go's `a < b` on strings. */
  predicate Less(a: string, b: string) {
    b != [] && (a == [] || a[0] < b[0] || (a[0] == b[0] && Less(a[1..], b[1..])))
  }

  predicate AtMost(a: string, b: string) { a == b || Less(a, b) }

  /** The order is total: exactly one of the three cases holds. */
  lemma {:induction false} Trichotomy(a: string, b: string)
    ensures a == b || Less(a, b) || Less(b, a)
    ensures !(Less(a, b) && Less(b, a)) && !Less(a, a)
    decreases |a|
  {
    if a != [] {
      Trichotomy(a[1..], a[1..]);
      if b != [] && a[0] == b[0] {
        Trichotomy(a[1..], b[1..]);
        assert a == [a[0]] + a[1..] && b == [b[0]] + b[1..];
      }
    }
  }

  lemma {:induction false} LessTransitive(a: string, b: string, c: string)
    requires Less(a, b) && Less(b, c)
    ensures Less(a, c)
    decreases |a|
  {
    if a != [] && a[0] == b[0] == c[0] {
      LessTransitive(a[1..], b[1..], c[1..]);
    }
  }

  /** Strings with heads of equal length compare head first. */
  lemma {:induction false} LessConcat(a: string, b: string, x: string, y: string)
    requires |a| == |b|
    ensures Less(a + x, b + y) <==> Less(a, b) || (a == b && Less(x, y))
    decreases |a|
  {
    if a == [] {
      assert a + x == x && b + y == y;
    } else {
      assert (a + x)[1..] == a[1..] + x && (b + y)[1..] == b[1..] + y;
      LessConcat(a[1..], b[1..], x, y);
      assert a == [a[0]] + a[1..] && b == [b[0]] + b[1..];
    }
  }

  lemma {:induction false} ConcatEqual(a: string, b: string, x: string, y: string)
    requires |a| == |b|
    ensures a + x == b + y <==> a == b && x == y
  {
    var s, t := a + x, b + y;
    assert s[..|a|] == a && s[|a|..] == x && t[..|a|] == b && t[|a|..] == y;
  }

  // ------------------------------------------------------------- hexadecimal

  predicate IsHexDigit(c: char) { '0' <= c <= '9' || 'A' <= c <= 'F' || 'a' <= c <= 'f' }

  /** archive.isHex. */
  predicate IsHex(s: string) { forall i :: 0 <= i < |s| ==> IsHexDigit(s[i]) }

  function Digit(d: nat): (c: char)
    requires d < 16
    ensures IsHexDigit(c) && DigitValue(c) == d
  {
    if d < 10 then (48 + d) as char else (55 + d) as char
  }

  function DigitValue(c: char): nat
    requires IsHexDigit(c)
    ensures DigitValue(c) < 16
  {
    if '0' <= c <= '9' then c as int - 48 else if 'A' <= c <= 'F' then c as int - 55 else c as int - 87
  }

  function Pow16(w: nat): nat { if w == 0 then 1 else 16 * Pow16(w - 1) }

  /** `%0wX`, for a value that fits in w digits. */
  function FixedHex(n: nat, w: nat): (s: string)
    ensures |s| == w && IsHex(s)
  {
    if w == 0 then "" else FixedHex(n / 16, w - 1) + [Digit(n % 16)]
  }

  /** `%X`: no leading zeros. */
  function VarHex(n: nat): (s: string)
    ensures s != "" && IsHex(s)
  {
    if n < 16 then [Digit(n)] else VarHex(n / 16) + [Digit(n % 16)]
  }

  /** Printed numbers have no lower-case digits. */
  predicate IsUpperHex(s: string) { forall i :: 0 <= i < |s| ==> '0' <= s[i] <= '9' || 'A' <= s[i] <= 'F' }

  lemma {:induction false} FixedHexIsUpper(n: nat, w: nat)
    ensures IsUpperHex(FixedHex(n, w))
  {
    if w > 0 {
      FixedHexIsUpper(n / 16, w - 1);
    }
  }

  lemma {:induction false} VarHexIsUpper(n: nat)
    ensures IsUpperHex(VarHex(n))
  {
    if n >= 16 {
      VarHexIsUpper(n / 16);
    }
  }

  function HexValue(s: string): nat
    requires IsHex(s)
  {
    if s == "" then 0 else 16 * HexValue(s[..|s| - 1]) + DigitValue(s[|s| - 1])
  }

  lemma {:induction false} VarHexValue(n: nat)
    ensures HexValue(VarHex(n)) == n
  {
    if n >= 16 {
      VarHexValue(n / 16);
      assert VarHex(n)[..|VarHex(n)| - 1] == VarHex(n / 16);
    } else {
      assert VarHex(n)[..0] == "";
    }
  }

  /** Numbers of one width: lexicographic order of the text is numeric order. */
  lemma {:induction false} FixedHexOrder(a: nat, b: nat, w: nat)
    requires a < Pow16(w) && b < Pow16(w)
    ensures Less(FixedHex(a, w), FixedHex(b, w)) <==> a < b
    ensures FixedHex(a, w) == FixedHex(b, w) <==> a == b
  {
    if w > 0 {
      FixedHexOrder(a / 16, b / 16, w - 1);
      LessConcat(FixedHex(a / 16, w - 1), FixedHex(b / 16, w - 1), [Digit(a % 16)], [Digit(b % 16)]);
      var s, t := FixedHex(a, w), FixedHex(b, w);
      assert s[..w - 1] == FixedHex(a / 16, w - 1) && t[..w - 1] == FixedHex(b / 16, w - 1);
      assert s[w - 1] == Digit(a % 16) && t[w - 1] == Digit(b % 16);
    }
  }

  lemma {:induction false} Pow16Eight()
    ensures Pow16(8) == 0x1_0000_0000
  {
    assert Pow16(4) == 0x1_0000;
    assert Pow16(6) == 0x100_0000;
  }

  /** The digits fmt.Sscanf("%x") consumes: the longest leading run of hex digits. */
  function HexRun(s: string): (r: string)
    ensures r <= s && IsHex(r)
    ensures |r| < |s| ==> !IsHexDigit(s[|r|])
  {
    if s == "" || !IsHexDigit(s[0]) then "" else [s[0]] + HexRun(s[1..])
  }

  /** fmt.Sscanf("%x") into an integer of `limit` values: at least one digit, and in range. */
  function ScanHex(s: string, limit: nat): Option<nat> {
    var run := HexRun(s);
    if run == "" || HexValue(run) >= limit then None else Some(HexValue(run))
  }

  lemma {:induction false} HexRunAll(s: string)
    requires IsHex(s)
    ensures HexRun(s) == s
  {
    if s != "" {
      HexRunAll(s[1..]);
    }
  }

  // ------------------------------------------------------------- separators

  /** Index of the first occurrence of c in s, or |s|. */
  function Find(s: string, c: char): (i: nat)
    ensures i <= |s| && c !in s[..i]
    ensures i < |s| ==> s[i] == c
  {
    if s == "" || s[0] == c then 0
    else
      var k := Find(s[1..], c);
      assert s[..k + 1] == [s[0]] + s[1..][..k];
      k + 1
  }

  /** The first occurrence is determined by the text before it. */
  lemma {:induction false} FindAfter(a: string, c: char, b: string)
    requires c !in a
    ensures Find(a + [c] + b, c) == |a|
  {
    if a != "" {
      assert (a + [c] + b)[1..] == a[1..] + [c] + b;
      FindAfter(a[1..], c, b);
    }
  }

  predicate HasPrefix(s: string, p: string) { p <= s }

  predicate HasSuffix(s: string, t: string) { |t| <= |s| && s[|s| - |t|..] == t }

  /** filepath.Dir: the text before the last slash. */
  function DirOf(p: string): string {
    if p == "" then "" else if p[|p| - 1] == '/' then p[..|p| - 1] else DirOf(p[..|p| - 1])
  }

  /** The directory of a slash-free name. */
  lemma {:induction false} DirOfName(dir: string, name: string)
    requires '/' !in name
    ensures DirOf(dir + "/" + name) == dir
  {
    var p := dir + "/" + name;
    if name == "" {
      assert p[..|p| - 1] == dir;
    } else {
      var n := |name| - 1;
      assert p[..|p| - 1] == dir + "/" + name[..n];
      assert p[|p| - 1] == name[n];
      DirOfName(dir, name[..n]);
    }
  }

  // ---------------------------------------------------------------- digests

  /** A SHA-256 value. */
  type Digest = d: seq<byte> | |d| == 32 witness seq(32, i => 0)

  /** SHA-256, which no proof looks into. */
  type Hash = Bytes -> Digest

  function LowerDigit(d: nat): (c: char)
    requires d < 16
    ensures IsHexDigit(c) && DigitValue(c) == d && !('A' <= c <= 'F')
  {
    if d < 10 then (48 + d) as char else (87 + d) as char
  }

  /** hex.EncodeToString. */
  function HexEncode(b: seq<byte>): (s: string)
    ensures |s| == 2 * |b| && IsHex(s)
    ensures forall i :: 0 <= i < |b| ==> s[2 * i] == LowerDigit(b[i] / 16) && s[2 * i + 1] == LowerDigit(b[i] % 16)
  {
    if b == [] then ""
    else HexEncode(b[..|b| - 1]) + [LowerDigit(b[|b| - 1] / 16), LowerDigit(b[|b| - 1] % 16)]
  }

  lemma {:induction false} HexEncodeInjective(a: seq<byte>, b: seq<byte>)
    requires HexEncode(a) == HexEncode(b)
    ensures a == b
  {
    assert |a| == |b|;
    forall i | 0 <= i < |a|
      ensures a[i] == b[i]
    {
      assert LowerDigit(a[i] / 16) == LowerDigit(b[i] / 16) && LowerDigit(a[i] % 16) == LowerDigit(b[i] % 16);
    }
  }
}
