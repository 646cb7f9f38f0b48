/**
 The backup manifest: Builder and jsonString of internal/manifest/manifest.go, and the checker
 manifestChecksumOK of internal/verify/verify.go. The hash is a function of the text.
 */
module Manifest {
  import opened Common
  import opened Text
  import opened Scan

  type TextHash = string -> Digest

  const NAME := "Manifest-Checksum"
  const COLON := ": "

  /** Characters a JSON string shows as they are. */
  predicate Safe(c: char) { c >= ' ' && c != '"' && c != '\\' }

  predicate AllSafe(s: string) { forall i :: 0 <= i < |s| ==> Safe(s[i]) }

  // ---------------------------------------------------------------- jsonString

  function EscapeChar(c: char): (e: string)
    ensures if Safe(c) then e == [c] else '\\' in e
    ensures c != '"' ==> '"' !in e
  {
    if c == '"' then "\\\""
    else if c == '\\' then "\\\\"
    else if c == '\n' then "\\n"
    else if c == '\r' then "\\r"
    else if c == '\t' then "\\t"
    else if c < ' ' then "\\u00" + [LowerDigit(c as int / 16), LowerDigit(c as int % 16)]
    else [c]
  }

  type Escaper = char -> string

  /** What a JSON string needs of the way characters are written. */
  ghost predicate Escaping(esc: Escaper) {
    && esc('"') == "\\\""
    && forall c :: (if Safe(c) then esc(c) == [c] else '\\' in esc(c)) && (c != '"' ==> '"' !in esc(c))
  }

  lemma {:induction false} EscapeCharIsEscaping()
    ensures Escaping(EscapeChar)
  {
  }

  function Escape(esc: Escaper, s: string): string {
    if s == "" then "" else Escape(esc, s[..|s| - 1]) + esc(s[|s| - 1])
  }

  method JsonString(s: string) returns (r: string)
    ensures r == Quoted(Escape(EscapeChar, s))
  {
    r := JsonStringWith(EscapeChar, s);
  }

  /** The loop of jsonString. */
  method JsonStringWith(esc: Escaper, s: string) returns (r: string)
    ensures r == Quoted(Escape(esc, s))
  {
    var buf := "\"";
    for i := 0 to |s|
      invariant buf == "\"" + Escape(esc, s[..i])
    {
      assert s[..i + 1][..i] == s[..i];
      buf := buf + esc(s[i]);
    }
    assert s[..|s|] == s;
    r := buf + "\"";
  }

  /** The part of a path after its last quote. */
  function LastPart(p: string): string {
    if p == "" || p[|p| - 1] == '"' then "" else LastPart(p[..|p| - 1]) + [p[|p| - 1]]
  }

  /** The paths whose quoted form ends in the marker. */
  predicate BadPath(name: string, p: string) { p == name || HasSuffix(p, "\"" + name) }

  lemma {:induction false} LastPartIs(p: string, name: string)
    requires '"' !in name
    ensures LastPart(p) == name <==> p == name || HasSuffix(p, "\"" + name)
  {
    if p != "" {
      if name != "" {
        LastPartIs(p[..|p| - 1], name[..|name| - 1]);
      }
      LastPartStep(p, name);
    }
  }

  lemma {:induction false} LastPartStep(p: string, name: string)
    requires p != "" && '"' !in name
    requires name != "" ==>
               var a, m := p[..|p| - 1], name[..|name| - 1];
               LastPart(a) == m <==> a == m || HasSuffix(a, "\"" + m)
    ensures LastPart(p) == name <==> p == name || HasSuffix(p, "\"" + name)
  {
    var n, e := |p| - 1, "\"" + name;
    SuffixSplit(p, e);
    if name == "" {
      assert e == "\"";
    } else {
      var k := |name| - 1;
      assert e[..|e| - 1] == "\"" + name[..k];
      assert name == name[..k] + [name[k]] && p == p[..n] + [p[n]];
    }
  }

  lemma {:induction false} EscapeOfSafe(esc: Escaper, s: string)
    requires Escaping(esc)
    ensures if AllSafe(s) then Escape(esc, s) == s else '\\' in Escape(esc, s)
  {
    if s != "" {
      var a, c := s[..|s| - 1], s[|s| - 1];
      EscapeOfSafe(esc, a);
      assert s == a + [c];
      assert AllSafe(s) <==> AllSafe(a) && Safe(c);
      InEither('\\', Escape(esc, a), esc(c));
    }
  }

  lemma {:induction false} InEither(x: char, a: string, b: string)
    ensures x in a + b <==> x in a || x in b
  {
  }

  lemma {:induction false} EscapeEquals(esc: Escaper, s: string, name: string)
    requires Escaping(esc) && AllSafe(name)
    ensures Escape(esc, s) == name <==> s == name
  {
    EscapeOfSafe(esc, s);
    EscapeOfSafe(esc, name);
  }

  lemma {:induction false} LastPartPush(esc: Escaper, p: string)
    requires p != ""
    ensures p[|p| - 1] == '"' ==> LastPart(p) == ""
    ensures p[|p| - 1] != '"' ==> Escape(esc, LastPart(p)) == Escape(esc, LastPart(p[..|p| - 1])) + esc(p[|p| - 1])
  {
    if p[|p| - 1] != '"' {
      assert LastPart(p)[..|LastPart(p)| - 1] == LastPart(p[..|p| - 1]);
    }
  }

  /** One escaped character: an inner quote always follows a backslash. */
  lemma {:induction false} AppendEscapedChar(name: string, sep: string, sc: string -> State, u: string, c: char, e: string)
    requires Lawful(name, sep, sc) && AllSafe(name) && AllSafe(sep)
    requires if c == '"' then e == "\\\"" else '"' !in e
    requires sc(u).gap.Some? && sc(u).prev != Some(name)
    ensures var a, b := sc(u), sc(u + e);
            && b.marked == a.marked && b.prefixed == a.prefixed && b.prev != Some(name)
            && b.gap == Some(if c == '"' then "" else a.gap.value + e)
  {
    if c == '"' {
      var g := sc(u).gap.value;
      assert u + e == u + "\\" + "\"";
      assert (g + "\\")[|g|] == '\\';
      assert g + "\\" != name && g + "\\" != sep;
      assert sc(u + "\\").gap == Some(g + "\\");
    }
  }

  /** Inside a JSON string no quoted name appears. */
  lemma {:induction false} AppendEscaped(esc: Escaper, name: string, sep: string, sc: string -> State, t: string, p: string)
    requires Escaping(esc) && Lawful(name, sep, sc) && AllSafe(name) && AllSafe(sep)
    requires sc(t).gap == Some("") && sc(t).prev != Some(name)
    ensures var a, b := sc(t), sc(t + Escape(esc, p));
            && b.marked == a.marked && b.prefixed == a.prefixed
            && b.gap == Some(Escape(esc, LastPart(p))) && b.prev != Some(name)
  {
    if p == "" {
      assert t + Escape(esc, p) == t;
    } else {
      var n := |p| - 1;
      var u, e := t + Escape(esc, p[..n]), esc(p[n]);
      AppendEscaped(esc, name, sep, sc, t, p[..n]);
      EscapingOf(esc, p[n]);
      AppendEscapedChar(name, sep, sc, u, p[n], e);
      LastPartPush(esc, p);
      EscapeLast(esc, p);
      assert t + Escape(esc, p) == u + e;
    }
  }

  lemma {:induction false} EscapingOf(esc: Escaper, c: char)
    requires Escaping(esc)
    ensures if c == '"' then esc(c) == "\\\"" else '"' !in esc(c)
  {
  }

  lemma {:induction false} EscapeLast(esc: Escaper, p: string)
    requires p != ""
    ensures Escape(esc, p) == Escape(esc, p[..|p| - 1]) + esc(p[|p| - 1])
  {
  }

  // ------------------------------------------------------------------- the text

  /** A piece of the manifest: unquoted text, then a quoted one. */
  datatype Field = Plain(pad: string, body: string) | Path(pad: string, path: string)

  function FieldText(esc: Escaper, f: Field): string {
    match f
    case Plain(pad, body) => pad + Quoted(body)
    case Path(pad, path) => pad + Quoted(Escape(esc, path))
  }

  function RenderBy<T>(text: Field -> seq<T>, fields: seq<Field>): seq<T> {
    if fields == [] then [] else RenderBy(text, fields[..|fields| - 1]) + text(fields[|fields| - 1])
  }

  function Renderer(esc: Escaper): Field -> string { f => FieldText(esc, f) }

  function Render(esc: Escaper, fields: seq<Field>): string { RenderBy(Renderer(esc), fields) }

  predicate FieldOk(name: string, f: Field) {
    '"' !in f.pad && f.pad != name && (f.Plain? ==> '"' !in f.body && f.body != name)
  }

  /** A lone colon follows member names and plain values only, never a path. */
  predicate FieldsOk(name: string, sep: string, fields: seq<Field>) {
    && (forall i :: 0 <= i < |fields| ==> FieldOk(name, fields[i]))
    && (forall i :: 0 < i < |fields| && fields[i].pad == sep ==> fields[i - 1].Plain?)
  }

  predicate HasBad(name: string, fields: seq<Field>) {
    exists i :: 0 <= i < |fields| && fields[i].Path? && BadPath(name, fields[i].path)
  }

  lemma {:induction false} NameIsSafe()
    ensures AllSafe(NAME) && AllSafe(COLON) && '"' !in NAME && NAME != COLON && |NAME| == 17
  {
  }

  /** The closing quote completes the marker when the text before it spells the name. */
  lemma {:induction false} AppendClosing(name: string, sep: string, sc: string -> State, u: string)
    requires Lawful(name, sep, sc) && sc(u).prev != Some(name)
    ensures var a, b := sc(u), sc(u + "\"");
            b.gap == Some("") && b.prefixed == a.prefixed && (b.marked <==> a.marked || a.gap == Some(name))
  {
  }

  lemma {:induction false} AppendPath(esc: Escaper, name: string, sep: string, sc: string -> State, t: string, pad: string, path: string)
    requires Escaping(esc) && Lawful(name, sep, sc) && AllSafe(name) && AllSafe(sep)
    requires '"' !in pad && pad != name && AtQuote(sc(t))
    requires pad == sep ==> sc(t).prev != Some(name)
    ensures var a, b := sc(t), sc(t + (pad + Quoted(Escape(esc, path))));
            && b.gap == Some("") && b.prefixed == a.prefixed && (b.marked <==> a.marked || BadPath(name, path))
  {
    var u, e := t + pad + "\"", Escape(esc, path);
    AppendOpening(name, sep, sc, t, pad);
    AppendEscaped(esc, name, sep, sc, u, path);
    AppendClosing(name, sep, sc, u + e);
    LastPartIs(path, name);
    EscapeEquals(esc, LastPart(path), name);
    Regroup(t, pad, e);
  }

  lemma {:induction false} Regroup(t: string, pad: string, e: string)
    ensures t + (pad + Quoted(e)) == t + pad + "\"" + e + "\""
  {
  }

  lemma {:induction false} AppendFieldText(esc: Escaper, name: string, sep: string, sc: string -> State, t: string, f: Field)
    requires Escaping(esc) && Lawful(name, sep, sc) && AllSafe(name) && AllSafe(sep)
    requires FieldOk(name, f) && AtQuote(sc(t)) && (f.pad == sep ==> sc(t).prev != Some(name))
    ensures var a, b := sc(t), sc(t + FieldText(esc, f));
            && b.gap == Some("") && b.prefixed == a.prefixed && (f.Plain? ==> b.prev == Some(f.body))
            && (b.marked <==> a.marked || (f.Path? && BadPath(name, f.path)))
  {
    match f
    case Plain(pad, body) => AppendField(name, sep, sc, t, pad, body);
    case Path(pad, path) => AppendPath(esc, name, sep, sc, t, pad, path);
  }

  /** What the scanner knows after the rendered fields: the marker occurs exactly when a path spells it. */
  predicate RenderedState(name: string, fields: seq<Field>, s: State) {
    && AtQuote(s) && (fields != [] ==> s.gap == Some("")) && !s.prefixed && (s.marked <==> HasBad(name, fields))
    && (fields == [] ==> s.prev == None)
    && (fields != [] && fields[|fields| - 1].Plain? ==> s.prev == Some(fields[|fields| - 1].body))
  }

  lemma {:induction false} RenderedPush(name: string, sep: string, fields: seq<Field>, a: State, b: State)
    requires fields != [] && FieldsOk(name, sep, fields)
    requires var n := |fields| - 1; RenderedState(name, fields[..n], a)
    requires var f := fields[|fields| - 1];
             && b.gap == Some("") && b.prefixed == a.prefixed && (f.Plain? ==> b.prev == Some(f.body))
             && (b.marked <==> a.marked || (f.Path? && BadPath(name, f.path)))
    ensures RenderedState(name, fields, b)
  {
    HasBadPush(name, fields);
  }

  lemma {:induction false} FieldsOkPush(name: string, sep: string, fields: seq<Field>, a: State)
    requires fields != [] && FieldsOk(name, sep, fields)
    ensures FieldsOk(name, sep, fields[..|fields| - 1]) && FieldOk(name, fields[|fields| - 1])
    ensures RenderedState(name, fields[..|fields| - 1], a) && fields[|fields| - 1].pad == sep ==> a.prev != Some(name)
  {
    var n := |fields| - 1;
    assert n > 0 ==> fields[..n][n - 1] == fields[n - 1] && FieldOk(name, fields[n - 1]);
  }

  lemma {:induction false} RenderScan(esc: Escaper, name: string, sep: string, sc: string -> State, fields: seq<Field>)
    requires Escaping(esc) && Lawful(name, sep, sc) && FieldsOk(name, sep, fields) && AllSafe(name) && AllSafe(sep)
    ensures RenderedState(name, fields, sc(Render(esc, fields)))
  {
    if fields != [] {
      var n := |fields| - 1;
      var t := Render(esc, fields[..n]);
      FieldsOkPush(name, sep, fields, sc(t));
      RenderScan(esc, name, sep, sc, fields[..n]);
      AppendFieldText(esc, name, sep, sc, t, fields[n]);
      RenderedPush(name, sep, fields, sc(t), sc(t + FieldText(esc, fields[n])));
    }
  }

  lemma {:induction false} HasBadPush(name: string, fields: seq<Field>)
    requires fields != []
    ensures var n := |fields| - 1;
            HasBad(name, fields) <==> HasBad(name, fields[..n]) || (fields[n].Path? && BadPath(name, fields[n].path))
  {
    var n := |fields| - 1;
    if HasBad(name, fields[..n]) {
      var i :| 0 <= i < n && fields[..n][i].Path? && BadPath(name, fields[..n][i].path);
      assert fields[i].Path? && BadPath(name, fields[i].path);
    }
    if i :| 0 <= i < |fields| && fields[i].Path? && BadPath(name, fields[i].path) {
      assert i < n ==> fields[..n][i] == fields[i];
    }
  }

  // ------------------------------------------------------------------ the checker

  function Lower(c: char): char { if 'A' <= c <= 'Z' then (c as int + 32) as char else c }

  /** strings.EqualFold against hexadecimal text. */
  predicate EqualFold(a: string, b: string) {
    |a| == |b| && forall i :: 0 <= i < |a| ==> Lower(a[i]) == Lower(b[i])
  }

  /** The digest recorded from there on is that of the text up to idx. */
  predicate Accepts(hash: TextHash, body: string, idx: nat, from: nat)
    requires idx <= |body| && from <= |body|
  {
    var rest := body[from..];
    var end := Find(rest, '"');
    0 < end < |rest| && EqualFold(rest[..end], HexEncode(hash(body[..idx])))
  }

  /** manifestChecksumOK, for the field called name. */
  predicate Checked(name: string, sep: string, hash: TextHash, body: string) {
    match (Index(body, Quoted(name)), Index(body, Quoted(name) + sep + "\""))
    case (Some(idx), Some(at)) => Accepts(hash, body, idx, at + |Quoted(name) + sep + "\""|)
    case _ => false
  }

  predicate ChecksumOK(hash: TextHash, body: string) { Checked(NAME, COLON, hash, body) }

  /** The closing field. */
  function Trailer(name: string, sep: string, d: Digest): string { Recorded(name, sep, HexEncode(d)) }

  /** A closing field that records any text. */
  function Recorded(name: string, sep: string, rec: string): string {
    Quoted(name) + sep + "\"" + rec + "\"}\n"
  }

  lemma {:induction false} HexIsLower(b: seq<byte>)
    ensures '"' !in HexEncode(b) && forall i :: 0 <= i < |HexEncode(b)| ==> Lower(HexEncode(b)[i]) == HexEncode(b)[i]
  {
    if b != [] {
      HexIsLower(b[..|b| - 1]);
      DigitIsLower(b[|b| - 1] / 16);
      DigitIsLower(b[|b| - 1] % 16);
    }
  }

  lemma {:induction false} DigitIsLower(d: nat)
    requires d < 16
    ensures Lower(LowerDigit(d)) == LowerDigit(d) != '"'
  {
  }

  lemma {:induction false} FoldedHexEqual(a: Digest, b: Digest)
    ensures EqualFold(HexEncode(a), HexEncode(b)) <==> a == b
  {
    HexIsLower(a);
    HexIsLower(b);
    if EqualFold(HexEncode(a), HexEncode(b)) {
      assert HexEncode(a) == HexEncode(b);
      HexEncodeInjective(a, b);
    }
  }

  /** The recorded text is found right after the closing marker. */
  lemma {:induction false} CheckedMeans(name: string, sep: string, hash: TextHash, pre: string, rec: string, idx: nat)
    requires '"' !in rec && idx <= |pre|
    requires var body := pre + Recorded(name, sep, rec);
             Index(body, Quoted(name)) == Some(idx) && Index(body, Quoted(name) + sep + "\"") == Some(|pre|)
    ensures Checked(name, sep, hash, pre + Recorded(name, sep, rec)) <==> EqualFold(rec, HexEncode(hash(pre[..idx])))
  {
    var m := Quoted(name) + sep + "\"";
    assert pre + Recorded(name, sep, rec) == pre + m + (rec + "\"}\n");
    AcceptsMeans(hash, pre, m, rec, idx);
  }

  lemma {:induction false} AcceptsMeans(hash: TextHash, pre: string, m: string, rec: string, idx: nat)
    requires '"' !in rec && idx <= |pre|
    ensures Accepts(hash, pre + m + (rec + "\"}\n"), idx, |pre| + |m|) <==> EqualFold(rec, HexEncode(hash(pre[..idx])))
  {
    assert (pre + m + (rec + "\"}\n"))[..idx] == pre[..idx];
    AfterPrefix(pre, m, rec);
  }

  lemma {:induction false} AfterPrefix(pre: string, m: string, hex: string)
    requires '"' !in hex
    ensures var rest := (pre + m + (hex + "\"}\n"))[|pre| + |m|..]; Find(rest, '"') == |hex| < |rest| && rest[..|hex|] == hex
  {
    assert hex + "\"}\n" == hex + ['"'] + "}\n";
    FindAfter(hex, '"', "}\n");
    assert (pre + m + (hex + "\"}\n"))[|pre| + |m|..] == hex + "\"}\n";
  }

  // --------------------------------------------------- where the markers are found

  lemma {:induction false} OccursInPrefix(t: string, rest: string, j: nat, m: string)
    requires j + |m| <= |t|
    ensures OccursAt(t + rest, j, m) <==> OccursAt(t, j, m)
  {
    var a, b := (t + rest)[j..j + |m|], t[j..j + |m|];
    assert forall k :: 0 <= k < |m| ==> a[k] == b[k];
    assert a == b;
  }

  /** An occurrence that starts before the quote at |pre| and does not end there needs a quote inside. */
  lemma {:induction false} StraddlingQuote(t: string, n: nat, j: nat, m: string)
    requires OccursAt(t, j, m) && j <= n < j + |m| && t[n] == '"'
    ensures m[n - j] == '"'
  {
    assert t[j..j + |m|][n - j] == t[n];
  }

  lemma {:induction false} FirstMark(name: string, pre: string, rest: string)
    requires '"' !in name && !Occurs(pre + "\"", Quoted(name))
    ensures Index(pre + "\"" + name + "\"" + rest, Quoted(name)) == Some(|pre|)
  {
    var m, t := Quoted(name), pre + "\"" + name + "\"" + rest;
    assert OccursAt(t, |pre|, m) by { assert t[|pre|..|pre| + |m|] == m; }
    forall j | 0 <= j < |pre|
      ensures !OccursAt(t, j, m)
    {
      NoEarlierMark(name, pre, rest, j);
    }
    IndexIs(t, m, |pre|);
  }

  lemma {:induction false} NoEarlierMark(name: string, pre: string, rest: string, j: nat)
    requires '"' !in name && !Occurs(pre + "\"", Quoted(name)) && j < |pre|
    ensures !OccursAt(pre + "\"" + name + "\"" + rest, j, Quoted(name))
  {
    var m, t, u := Quoted(name), pre + "\"" + name + "\"" + rest, pre + "\"";
    if j + |m| <= |u| {
      assert t == u + (name + "\"" + rest);
      OccursInPrefix(u, name + "\"" + rest, j, m);
      assert !OccursAt(u, j, m);
    } else if OccursAt(t, j, m) {
      StraddlingQuote(t, |pre|, j, m);
    }
  }

  lemma {:induction false} NoEarlierPrefix(name: string, sep: string, pre: string, rest: string, j: nat)
    requires '"' !in name && '"' !in sep && j < |pre|
    requires !Occurs(pre + "\"", Quoted(name) + sep + "\"") && !HasSuffix(pre, "\"" + name)
    ensures !OccursAt(pre + "\"" + rest, j, Quoted(name) + sep + "\"")
  {
    var m, t, u := Quoted(name) + sep + "\"", pre + "\"" + rest, pre + "\"";
    if j + |m| <= |u| {
      OccursInPrefix(u, rest, j, m);
      assert !OccursAt(u, j, m);
    } else if OccursAt(t, j, m) {
      StraddlingPrefix(name, sep, pre, rest, j);
    }
  }

  lemma {:induction false} StraddlingPrefix(name: string, sep: string, pre: string, rest: string, j: nat)
    requires '"' !in name && '"' !in sep && j < |pre|
    requires var m := Quoted(name) + sep + "\""; OccursAt(pre + "\"" + rest, j, m) && j + |m| > |pre| + 1
    ensures HasSuffix(pre, "\"" + name)
  {
    var m, t := Quoted(name) + sep + "\"", pre + "\"" + rest;
    StraddlingQuote(t, |pre|, j, m);
    assert m == "\"" + name + "\"" + sep + "\"";
    assert |pre| - j == |name| + 1;
    SliceOfSlice(t, j, |m|, |name| + 1);
    assert m[..|name| + 1] == "\"" + name;
    assert pre[j..] == t[j..j + (|name| + 1)];
  }

  lemma {:induction false} FirstPrefix(name: string, sep: string, pre: string, rest: string)
    requires '"' !in name && '"' !in sep
    requires !Occurs(pre + "\"", Quoted(name) + sep + "\"") && !HasSuffix(pre, "\"" + name)
    ensures Index(pre + Quoted(name) + sep + "\"" + rest, Quoted(name) + sep + "\"") == Some(|pre|)
  {
    var m := Quoted(name) + sep + "\"";
    var t := pre + Quoted(name) + sep + "\"" + rest;
    assert OccursAt(t, |pre|, m) by { assert t[|pre|..|pre| + |m|] == m; }
    var tail := name + "\"" + sep + "\"" + rest;
    assert t == pre + "\"" + tail;
    forall j | 0 <= j < |pre|
      ensures !OccursAt(t, j, m)
    {
      NoEarlierPrefix(name, sep, pre, tail, j);
    }
    IndexIs(t, m, |pre|);
  }

  lemma {:induction false} TrailerShape(name: string, sep: string, pre: string, rec: string)
    ensures var end := rec + "\"}\n";
            && pre + Recorded(name, sep, rec) == pre + "\"" + name + "\"" + (sep + "\"" + end)
            && pre + Recorded(name, sep, rec) == pre + Quoted(name) + sep + "\"" + end
  {
  }

  lemma {:induction false} SliceOfSlice(u: string, j: nat, n: nat, k: nat)
    requires k <= n && j + n <= |u|
    ensures u[j..j + n][..k] == u[j..j + k]
  {
    var a, b := u[j..j + n][..k], u[j..j + k];
    assert |a| == |b| && forall i :: 0 <= i < k ==> a[i] == b[i];
  }

  lemma {:induction false} LongerOccurs(u: string, m: string, more: string)
    ensures Occurs(u, m + more) ==> Occurs(u, m)
  {
    if j :| 0 <= j <= |u| && OccursAt(u, j, m + more) {
      SliceOfSlice(u, j, |m + more|, |m|);
      assert (m + more)[..|m|] == m;
      assert OccursAt(u, j, m);
    }
  }

  lemma {:induction false} SuffixOccurs(pre: string, name: string)
    ensures HasSuffix(pre, "\"" + name) ==> Occurs(pre + "\"", Quoted(name))
  {
    var u, m := pre + "\"", Quoted(name);
    if HasSuffix(pre, "\"" + name) {
      assert u[|u| - |m|..|u|] == m;
      assert OccursAt(u, |u| - |m|, m);
    }
  }

  /** Text without the marker has neither the longer prefix nor half a marker at its end. */
  lemma {:induction false} MarkerFree(name: string, sep: string, pre: string)
    requires !Occurs(pre + "\"", Quoted(name))
    ensures !Occurs(pre + "\"", Quoted(name) + sep + "\"") && !HasSuffix(pre, "\"" + name)
  {
    LongerOccurs(pre + "\"", Quoted(name), sep + "\"");
    assert Quoted(name) + (sep + "\"") == Quoted(name) + sep + "\"";
    SuffixOccurs(pre, name);
  }

  /** Whatever the closing field records, the checker compares it with the digest of the text, ignoring case. */
  lemma {:induction false} CheckerCompares(name: string, sep: string, hash: TextHash, pre: string, rec: string)
    requires '"' !in name && '"' !in sep && '"' !in rec && !Occurs(pre + "\"", Quoted(name))
    ensures Checked(name, sep, hash, pre + Recorded(name, sep, rec)) <==> EqualFold(rec, HexEncode(hash(pre)))
  {
    var end := rec + "\"}\n";
    TrailerShape(name, sep, pre, rec);
    MarkerFree(name, sep, pre);
    FirstMark(name, pre, sep + "\"" + end);
    FirstPrefix(name, sep, pre, end);
    CheckedMeans(name, sep, hash, pre, rec, |pre|);
    assert pre[..|pre|] == pre;
  }

  /**
   The checker on any text that is free of the marker up to the closing field: it accepts exactly
   when the recorded digest is the text's own. Replacing the text by another marker-free one is
   therefore accepted only on a hash collision.
   */
  lemma {:induction false} CheckerIsExact(name: string, sep: string, hash: TextHash, pre: string, d: Digest)
    requires '"' !in name && '"' !in sep && !Occurs(pre + "\"", Quoted(name))
    ensures Checked(name, sep, hash, pre + Trailer(name, sep, d)) <==> hash(pre) == d
  {
    HexIsLower(d);
    CheckerCompares(name, sep, hash, pre, HexEncode(d));
    FoldedHexEqual(d, hash(pre));
  }

  /** With the marker already in the text, the checker hashes only what comes before it. */
  lemma {:induction false} CheckerStopsEarly(name: string, sep: string, hash: TextHash, pre: string, d: Digest)
    requires '"' !in name && '"' !in sep && Occurs(pre, Quoted(name))
    requires !Occurs(pre + "\"", Quoted(name) + sep + "\"") && !HasSuffix(pre, "\"" + name)
    ensures Index(pre, Quoted(name)).Some? && Index(pre, Quoted(name)).value < |pre|
    ensures Checked(name, sep, hash, pre + Trailer(name, sep, d)) <==> hash(pre[..Index(pre, Quoted(name)).value]) == d
  {
    var m, end := Quoted(name), HexEncode(d) + "\"}\n";
    var i := Index(pre, m).value;
    var rest := Trailer(name, sep, d);
    OccursInPrefix(pre, rest, i, m);
    forall j | 0 <= j < i
      ensures !OccursAt(pre + rest, j, m)
    {
      OccursInPrefix(pre, rest, j, m);
    }
    IndexIs(pre + rest, m, i);
    TrailerShape(name, sep, pre, HexEncode(d));
    FirstPrefix(name, sep, pre, end);
    HexIsLower(d);
    CheckedMeans(name, sep, hash, pre, HexEncode(d), i);
    FoldedHexEqual(d, hash(pre[..i]));
  }

  /** The scanner's view of rendered fields and a closing pad. */
  lemma {:induction false} FieldsAndPad(name: string, sep: string, fields: seq<Field>, pad: string)
    requires FieldsOk(name, sep, fields) && AllSafe(name) && AllSafe(sep) && fields != []
    requires '"' !in pad && pad != name && pad != sep
    ensures var pre := Render(EscapeChar, fields) + pad;
            && (Occurs(pre, Quoted(name)) <==> HasBad(name, fields))
            && (Occurs(pre + "\"", Quoted(name)) <==> HasBad(name, fields))
            && !Occurs(pre + "\"", Quoted(name) + sep + "\"") && !HasSuffix(pre, "\"" + name)
  {
    var t := Render(EscapeChar, fields);
    var pre := t + pad;
    EscapeCharIsEscaping();
    ScannedIsLawful(name, sep);
    RenderScan(EscapeChar, name, sep, u => Scanned(name, sep, u), fields);
    AppendPlain(name, sep, t, pad);
    assert "" + pad == pad;
    AppendQuote(name, sep, pre);
    MarkedMeans(name, sep, pre);
    MarkedMeans(name, sep, pre + "\"");
    PrefixedMeans(name, sep, pre + "\"");
    GapMeans(name, sep, pre, name);
  }

  /** Printer against checker, for any fields: what the closing digest is worth. */
  lemma {:induction false} PrintedChecks(name: string, sep: string, hash: TextHash, fields: seq<Field>, pad: string)
    requires FieldsOk(name, sep, fields) && AllSafe(name) && AllSafe(sep) && fields != []
    requires '"' !in pad && pad != name && pad != sep
    ensures var pre := Render(EscapeChar, fields) + pad;
            var ok := Checked(name, sep, hash, pre + Trailer(name, sep, hash(pre)));
            if HasBad(name, fields)
            then Index(pre, Quoted(name)).Some? && (ok <==> hash(pre[..Index(pre, Quoted(name)).value]) == hash(pre))
            else ok
  {
    var pre := Render(EscapeChar, fields) + pad;
    FieldsAndPad(name, sep, fields, pad);
    if HasBad(name, fields) {
      CheckerStopsEarly(name, sep, hash, pre, hash(pre));
    } else {
      CheckerIsExact(name, sep, hash, pre, hash(pre));
    }
  }
}
