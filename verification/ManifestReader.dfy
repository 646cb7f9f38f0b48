/**
 Reading a finalized manifest back, as restore, verify and info do with encoding/json: the text is a JSON
 value, and its members are the builder's fields. Nothing here calls the printer; the theorem does.
 */
module ManifestReader {
  import opened Common
  import opened Text
  import opened Wal
  import opened Json
  import opened Manifest
  import opened ManifestText
  import Scan

  // ----------------------------------------------------------------- the reader

  /** hex.DecodeString. */
  function HexDecode(s: string): Option<Bytes> {
    if s == "" then Some([])
    else if |s| == 1 || !IsHexDigit(s[|s| - 2]) || !IsHexDigit(s[|s| - 1]) then None
    else
      match HexDecode(s[..|s| - 2])
      case None => None
      case Some(b) => Some(b + [16 * DigitValue(s[|s| - 2]) + DigitValue(s[|s| - 1])])
  }

  /** One entry of "Files". */
  datatype Entry = Entry(path: string, size: nat, stamp: string, algorithm: string, digest: Bytes, incremental: bool)

  datatype Contents = Contents(system: nat, files: seq<Entry>, tli: nat, start: LSN, stop: LSN, checksum: Bytes)

  function ReadEntry(v: Value): Option<Entry> {
    match v
    case Obj(m) =>
      (match (GetText(m, "Path"), GetNumber(m, "Size"), GetText(m, "Last-Modified"),
              GetText(m, "Checksum-Algorithm"), GetText(m, "Checksum"))
       case (Some(path), Some(size), Some(stamp), Some(algorithm), Some(checksum)) =>
         (match HexDecode(checksum)
          case Some(digest) => Some(Entry(path, size, stamp, algorithm, digest, Get(m, "Incremental") == Some(True)))
          case None => None)
       case _ => None)
    case _ => None
  }

  function ReadEntries(items: Items): Option<seq<Entry>> {
    match items
    case NoItem => Some([])
    case Item(v, rest) =>
      match (ReadEntry(v), ReadEntries(rest))
      case (Some(e), Some(es)) => Some([e] + es)
      case _ => None
  }

  datatype Range = Range(tli: nat, start: LSN, stop: LSN)

  /** The first of the WAL ranges. */
  function ReadRange(v: Value): Option<Range> {
    match v
    case Arr(Item(Obj(m), _)) =>
      (match (GetNumber(m, "Timeline"), GetText(m, "Start-LSN"), GetText(m, "End-LSN"))
       case (Some(tli), Some(start), Some(stop)) =>
         (match (ParseLSN(start), ParseLSN(stop))
          case (Some(a), Some(b)) => Some(Range(tli, a, b))
          case _ => None)
       case _ => None)
    case _ => None
  }

  function ReadMembers(m: Members): Option<Contents> {
    match (GetNumber(m, "PostgreSQL-Backup-Manifest-Version"), GetNumber(m, "System-Identifier"), Get(m, "Files"),
           Get(m, "WAL-Ranges"), GetText(m, "Manifest-Checksum"))
    case (Some(version), Some(system), Some(Arr(items)), Some(ranges), Some(checksum)) =>
      (match (ReadEntries(items), ReadRange(ranges), HexDecode(checksum))
       case (Some(files), Some(range), Some(digest)) =>
         if version == 2 then Some(Contents(system, files, range.tli, range.start, range.stop, digest)) else None
       case _ => None)
    case _ => None
  }

  /** What a consumer gets out of a manifest's text. */
  function ReadManifest(text: string): Option<Contents> {
    match Read(text)
    case Some(Obj(m)) => ReadMembers(m)
    case _ => None
  }

  // ------------------------------------------------------------ characters and numbers

  lemma {:induction false} HexDecodeByte(s: string, c: byte)
    ensures HexDecode(s + [LowerDigit(c / 16), LowerDigit(c % 16)]) ==
            (if HexDecode(s).Some? then Some(HexDecode(s).value + [c]) else None)
  {
    var t := s + [LowerDigit(c / 16), LowerDigit(c % 16)];
    assert t[..|t| - 2] == s;
  }

  lemma {:induction false} HexDecodes(b: Bytes)
    ensures HexDecode(HexEncode(b)) == Some(b)
  {
    if b != [] {
      var n := |b| - 1;
      HexDecodes(b[..n]);
      HexDecodeByte(HexEncode(b[..n]), b[n]);
      HexEncodeLast(b);
      assert b == b[..n] + [b[n]];
    }
  }

  lemma {:induction false} HexEncodeLast(b: Bytes)
    requires b != []
    ensures HexEncode(b) == HexEncode(b[..|b| - 1]) + [LowerDigit(b[|b| - 1] / 16), LowerDigit(b[|b| - 1] % 16)]
  {
  }

  /** A character is a digit's in either case exactly when it stands for that digit. */
  lemma {:induction false} FoldedDigit(c: char, d: nat)
    requires d < 16
    ensures Lower(c) == Lower(LowerDigit(d)) <==> IsHexDigit(c) && DigitValue(c) == d
  {
  }

  /** Text that equals a digest's up to case is text that decodes to it. */
  lemma {:induction false} FoldIsDecode(rec: string, b: Bytes)
    ensures EqualFold(rec, HexEncode(b)) <==> HexDecode(rec) == Some(b)
    decreases |b|
  {
    if b == [] {
      HexDecodeSize(rec);
    } else if |rec| < 2 {
      HexDecodeSize(rec);
    } else {
      FoldIsDecode(rec[..|rec| - 2], b[..|b| - 1]);
      FoldIsDecodeStep(rec, b, HexEncode(b[..|b| - 1]));
    }
  }

  lemma {:induction false} FoldIsDecodeStep(rec: string, b: Bytes, hex: string)
    requires |rec| >= 2 && b != []
    requires var k, n := |rec| - 2, |b| - 1; EqualFold(rec[..k], hex) <==> HexDecode(rec[..k]) == Some(b[..n])
    ensures EqualFold(rec, hex + [LowerDigit(b[|b| - 1] / 16), LowerDigit(b[|b| - 1] % 16)]) <==> HexDecode(rec) == Some(b)
  {
    var n, k := |b| - 1, |rec| - 2;
    FoldedDigit(rec[k], b[n] / 16);
    FoldedDigit(rec[k + 1], b[n] % 16);
    FoldLastTwo(rec, hex, LowerDigit(b[n] / 16), LowerDigit(b[n] % 16));
    DecodeLastTwo(rec, b);
  }

  lemma {:induction false} HexDecodeSize(s: string)
    ensures HexDecode(s).Some? ==> |s| == 2 * |HexDecode(s).value|
  {
    if |s| >= 2 {
      HexDecodeSize(s[..|s| - 2]);
    }
  }

  lemma {:induction false} FoldLastTwo(rec: string, hex: string, x: char, y: char)
    requires |rec| >= 2
    ensures var k := |rec| - 2;
            EqualFold(rec, hex + [x, y]) <==>
            EqualFold(rec[..k], hex) && Lower(rec[k]) == Lower(x) && Lower(rec[k + 1]) == Lower(y)
  {
    var k, t := |rec| - 2, hex + [x, y];
    assert |rec| == |t| ==> t[k] == x && t[k + 1] == y && forall i :: 0 <= i < k ==> t[i] == hex[i];
    if EqualFold(rec[..k], hex) && Lower(rec[k]) == Lower(x) && Lower(rec[k + 1]) == Lower(y) {
      forall i | 0 <= i < |rec|
        ensures Lower(rec[i]) == Lower(t[i])
      {
        assert i < k ==> rec[..k][i] == rec[i];
      }
    }
  }

  lemma {:induction false} DecodeLastTwo(rec: string, b: Bytes)
    requires |rec| >= 2 && b != []
    ensures var k, n := |rec| - 2, |b| - 1;
            HexDecode(rec) == Some(b) <==>
            && HexDecode(rec[..k]) == Some(b[..n]) && IsHexDigit(rec[k]) && DigitValue(rec[k]) == b[n] / 16
            && IsHexDigit(rec[k + 1]) && DigitValue(rec[k + 1]) == b[n] % 16
  {
    var n := |b| - 1;
    assert b == b[..n] + [b[n]];
  }

  /**
   The checker accepts a marker-free text exactly when what the closing field records decodes, in either
   case, to the digest of the text.
   */
  lemma {:induction false} CheckerDecodes(name: string, sep: string, hash: TextHash, pre: string, rec: string)
    requires '"' !in name && '"' !in sep && '"' !in rec && !Scan.Occurs(pre + "\"", Scan.Quoted(name))
    ensures Checked(name, sep, hash, pre + Recorded(name, sep, rec)) <==> HexDecode(rec) == Some(hash(pre))
  {
    CheckerCompares(name, sep, hash, pre, rec);
    FoldIsDecode(rec, hash(pre));
  }

  /** A control character's escape names its code. */
  lemma {:induction false} ControlUnescapes(c: char, rest: string)
    requires c < ' '
    ensures var e := "\\u00" + [LowerDigit(c as int / 16), LowerDigit(c as int % 16)];
            Unescaped(e + rest) == Some((c, 6)) && |e| == 6
  {
    var e := "\\u00" + [LowerDigit(c as int / 16), LowerDigit(c as int % 16)];
    var x, y := LowerDigit(c as int / 16), LowerDigit(c as int % 16);
    var s := e + rest;
    assert s[2..6] == "" + ['0'] + ['0'] + [x] + [y];
    HexValuePush("", '0');
    HexValuePush("" + ['0'], '0');
    HexValuePush("" + ['0'] + ['0'], x);
    HexValuePush("" + ['0'] + ['0'] + [x], y);
    assert HexValue("") == 0;
  }

  lemma {:induction false} HexValuePush(s: string, d: char)
    requires IsHex(s) && IsHexDigit(d)
    ensures IsHex(s + [d]) && HexValue(s + [d]) == 16 * HexValue(s) + DigitValue(d)
  {
    assert (s + [d])[..|s|] == s;
  }

  /** Each character is read back from its escape, whatever follows. */
  lemma {:induction false} CharUnescapes(c: char, rest: string)
    ensures Unescaped(EscapeChar(c) + rest) == Some((c, |EscapeChar(c)|))
  {
    if c < ' ' && c != '\n' && c != '\r' && c != '\t' {
      ControlUnescapes(c, rest);
    }
  }

  lemma {:induction false} EscapePush(esc: Escaper, s: string, c: char)
    ensures Escape(esc, s + [c]) == Escape(esc, s) + esc(c)
  {
    assert (s + [c])[..|s|] == s;
  }

  lemma {:induction false} EscapeCons(esc: Escaper, c: char, s: string)
    ensures Escape(esc, [c] + s) == esc(c) + Escape(esc, s)
    decreases |s|
  {
    if s == "" {
      EscapePush(esc, "", c);
      assert "" + [c] == [c] + s && Escape(esc, "") == "";
    } else {
      var init, d := s[..|s| - 1], s[|s| - 1];
      EscapeCons(esc, c, init);
      EscapePush(esc, [c] + init, d);
      EscapePush(esc, init, d);
      assert ([c] + init) + [d] == [c] + s && init + [d] == s;
      AssocText(esc(c), Escape(esc, init), esc(d));
    }
  }

  lemma {:induction false} AssocText(a: string, b: string, c: string)
    ensures (a + b) + c == a + (b + c)
  {
  }

  lemma {:induction false} FirstChar(c: char)
    ensures EscapeChar(c) != "" && EscapeChar(c)[0] != '"'
  {
  }

  /** A JSON string is read back, whatever characters it is made of. */
  lemma {:induction false} StringReads(s: string, rest: string)
    ensures ReadString(Escape(EscapeChar, s) + "\"" + rest) == Some((s, rest))
    decreases |s|
  {
    if s == "" {
      assert (Escape(EscapeChar, s) + "\"" + rest)[1..] == rest;
    } else {
      StringReads(s[1..], rest);
      CharReads(s[0], s[1..], Escape(EscapeChar, s[1..]), rest);
      EscapeCons(EscapeChar, s[0], s[1..]);
      assert s == [s[0]] + s[1..];
    }
  }

  /** One more character in front. */
  lemma {:induction false} CharReads(c: char, more: string, quoted: string, rest: string)
    requires ReadString(quoted + "\"" + rest) == Some((more, rest))
    ensures ReadString((EscapeChar(c) + quoted) + "\"" + rest) == Some(([c] + more, rest))
  {
    CharUnescapes(c, quoted + "\"" + rest);
    FirstChar(c);
    ReadCons(c, EscapeChar(c), quoted + "\"" + rest, more, rest);
    AssocQuote(EscapeChar(c), quoted, "\"", rest);
  }

  lemma {:induction false} AssocQuote(e: string, quoted: string, quote: string, rest: string)
    ensures (e + quoted) + quote + rest == e + (quoted + quote + rest)
  {
  }

  lemma {:induction false} ReadCons(c: char, e: string, after: string, more: string, rest: string)
    requires e != "" && e[0] != '"' && Unescaped(e + after) == Some((c, |e|)) && ReadString(after) == Some((more, rest))
    ensures ReadString(e + after) == Some(([c] + more, rest))
  {
    assert (e + after)[|e|..] == after;
  }

  /** Decimal text is made of digits, has no leading zero and stands for its number. */
  lemma {:induction false} DecReads(n: nat)
    ensures Dec(n) != "" && AllDecimal(Dec(n)) && DecValue(Dec(n)) == n
    ensures Dec(n)[0] == '0' ==> n == 0
  {
    if n >= 10 {
      DecReads(n / 10);
      assert Dec(n)[..|Dec(n)| - 1] == Dec(n / 10);
    } else {
      assert Dec(n)[..0] == "";
    }
  }

  lemma {:induction false} DigitRunAll(s: string)
    requires AllDecimal(s)
    ensures DigitRun(s) == s
  {
    if s != "" {
      DigitRunAll(s[1..]);
    }
  }

  lemma {:induction false} LexDec(n: nat)
    ensures Lex(Dec(n)) == Some([Number(n)])
  {
    var s := Dec(n);
    DecReads(n);
    DigitRunAll(s);
    assert s[|s|..] == "";
    var none: seq<Token> := [];
    assert Lex("") == Some(none) && [Number(n)] + none == [Number(n)];
    if |s| > 1 {
      assert n >= 10;
    }
  }

  // ------------------------------------------------------------------ the fields

  function TextOf(f: Field): string { if f.Plain? then f.body else f.path }

  /** Text between two strings: punctuation and numbers. */
  predicate PadReads(s: string, t: seq<Token>) { '"' !in s && Lex(s).Some? && Lex(s).value == t }

  predicate FieldReads(f: Field) {
    '"' !in f.pad && Lex(f.pad).Some? && (f.Plain? ==> AllSafe(f.body))
  }

  function FieldTokens(f: Field): seq<Token> {
    (if Lex(f.pad).Some? then Lex(f.pad).value else []) + [Quote(TextOf(f))]
  }

  function TokensOf(fields: seq<Field>): seq<Token> { RenderBy(FieldTokens, fields) }

  predicate FieldsRead(fields: seq<Field>) { forall i :: 0 <= i < |fields| ==> FieldReads(fields[i]) }

  lemma {:induction false} LexField(f: Field, rest: string)
    requires FieldReads(f)
    ensures Lex(FieldText(EscapeChar, f) + rest) == Joined(Some(FieldTokens(f)), Lex(rest))
  {
    var quoted := Escape(EscapeChar, TextOf(f));
    StringReads(TextOf(f), rest);
    FieldTextIs(f, quoted, rest);
    LexPadQuote(f.pad, quoted, TextOf(f), rest);
    FieldTokensJoin(f, Lex(rest));
  }

  lemma {:induction false} FieldTextIs(f: Field, quoted: string, rest: string)
    requires FieldReads(f) && quoted == Escape(EscapeChar, TextOf(f))
    ensures FieldText(EscapeChar, f) + rest == f.pad + ("\"" + quoted + "\"" + rest)
  {
    if f.Plain? {
      EscapeCharIsEscaping();
      EscapeOfSafe(EscapeChar, f.body);
    }
  }

  lemma {:induction false} LexPadQuote(pad: string, quoted: string, text: string, rest: string)
    requires '"' !in pad && Lex(pad).Some? && ReadString(quoted + "\"" + rest) == Some((text, rest))
    ensures Lex(pad + ("\"" + quoted + "\"" + rest)) == Joined(Lex(pad), Prepend(Quote(text), Lex(rest)))
  {
    LexQuote(quoted, text, rest);
    LexConcat(pad, "\"" + quoted + "\"" + rest);
  }

  lemma {:induction false} FieldTokensJoin(f: Field, rest: Option<seq<Token>>)
    requires FieldReads(f)
    ensures Joined(Lex(f.pad), Prepend(Quote(TextOf(f)), rest)) == Joined(Some(FieldTokens(f)), rest)
  {
    if rest.Some? {
      assert Lex(f.pad).value + ([Quote(TextOf(f))] + rest.value) == FieldTokens(f) + rest.value;
    }
  }

  lemma {:induction false} JoinedJoined(a: seq<Token>, b: seq<Token>, rest: Option<seq<Token>>)
    ensures Joined(Some(a), Joined(Some(b), rest)) == Joined(Some(a + b), rest)
  {
    if rest.Some? {
      assert a + (b + rest.value) == (a + b) + rest.value;
    }
  }

  /** Rendered fields are read one after the other. */
  lemma {:induction false} LexFields(fields: seq<Field>, rest: string)
    requires FieldsRead(fields)
    ensures Lex(Render(EscapeChar, fields) + rest) == Joined(Some(TokensOf(fields)), Lex(rest))
    decreases |fields|
  {
    if fields == [] {
      assert Render(EscapeChar, fields) + rest == rest;
      assert Lex(rest).Some? ==> [] + Lex(rest).value == Lex(rest).value;
    } else {
      var n := |fields| - 1;
      var text := FieldText(EscapeChar, fields[n]);
      assert Render(EscapeChar, fields) + rest == Render(EscapeChar, fields[..n]) + (text + rest);
      LexFields(fields[..n], text + rest);
      LexField(fields[n], rest);
      JoinedJoined(TokensOf(fields[..n]), FieldTokens(fields[n]), Lex(rest));
    }
  }

  lemma {:induction false} FieldsReadConcat(a: seq<Field>, b: seq<Field>)
    requires FieldsRead(a) && FieldsRead(b)
    ensures FieldsRead(a + b)
  {
  }

  lemma {:induction false} RenderOne<T>(text: Field -> seq<T>, f: Field)
    ensures RenderBy(text, [f]) == text(f)
  {
    assert [f][..0] == [];
    assert RenderBy(text, []) == [];
  }

  lemma {:induction false} RenderTwo<T>(text: Field -> seq<T>, f: Field, g: Field)
    ensures RenderBy(text, [f, g]) == text(f) + text(g)
  {
    RenderConcat(text, [f], [g]);
    RenderOne(text, f);
    RenderOne(text, g);
    assert [f] + [g] == [f, g];
  }

  lemma {:induction false} RenderThree<T>(text: Field -> seq<T>, f: Field, g: Field, h: Field)
    ensures RenderBy(text, [f, g, h]) == text(f) + text(g) + text(h)
  {
    RenderConcat(text, [f, g], [h]);
    RenderTwo(text, f, g);
    RenderOne(text, h);
    assert [f, g] + [h] == [f, g, h];
  }
}
