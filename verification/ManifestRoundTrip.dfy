/** What the manifest printer writes is JSON, and reads back as the builder's own fields. */
module ManifestRoundTrip {
  import opened Common
  import opened Text
  import opened Wal
  import opened Scan
  import opened Json
  import opened Manifest
  import opened ManifestText
  import opened ManifestReader

  // ---------------------------------------------------------- the value it stands for

  function FileMembers(f: ManifestFile): Members {
    Member("Path", Str(f.path), Member("Size", Num(f.size), Member("Last-Modified", Str(f.stamp),
      Member("Checksum-Algorithm", Str("SHA256"), Member("Checksum", Str(HexEncode(f.digest)),
        if f.incremental then Member("Incremental", True, NoMember) else NoMember)))))
  }

  function FileItems(files: seq<ManifestFile>): Items {
    if files == [] then NoItem else Item(Obj(FileMembers(files[0])), FileItems(files[1..]))
  }

  function RangeMembers(tli: Timeline, start: LSN, stop: LSN): Members {
    Member("Timeline", Num(tli), Member("Start-LSN", Str(LsnString(start)), Member("End-LSN", Str(LsnString(stop)), NoMember)))
  }

  function Document(system: nat, files: seq<ManifestFile>, tli: Timeline, start: LSN, stop: LSN, d: Digest): Members {
    Member("PostgreSQL-Backup-Manifest-Version", Num(2), Member("System-Identifier", Num(system),
      Member("Files", Arr(FileItems(files)),
        Member("WAL-Ranges", Arr(Item(Obj(RangeMembers(tli, start, stop)), NoItem)),
          Member(NAME, Str(HexEncode(d)), NoMember)))))
  }

  // ---------------------------------------------------------------- punctuation

  /** A mark or a blank in front of text that is read as t. */
  lemma {:induction false} PadCons(c: char, s: string, t: seq<Token>)
    requires PadReads(s, t) && (IsMark(c) || IsBlank(c))
    ensures PadReads([c] + s, if IsMark(c) then [Mark(c)] + t else t)
  {
    LexMark(c, s);
  }

  lemma {:induction false} PadEmpty()
    ensures PadReads("", [])
  {
  }

  lemma {:induction false} ColonReads()
    ensures PadReads(": ", [Mark(':')])
  {
    PadEmpty();
    PadCons(' ', "", []);
    PadCons(':', " ", []);
    assert [' '] + "" == " " && [':'] + " " == ": ";
  }

  lemma {:induction false} CommaReads()
    ensures PadReads(", ", [Mark(',')]) && PadReads(",\n", [Mark(',')]) && PadReads(",", [Mark(',')])
  {
    PadEmpty();
    PadCons(' ', "", []);
    PadCons('\n', "", []);
    PadCons(',', "", []);
    assert [' '] + "" == " " && ['\n'] + "" == "\n" && [','] + "" == ",";
    PadCons(',', " ", []);
    PadCons(',', "\n", []);
    assert [','] + " " == ", " && [','] + "\n" == ",\n";
  }

  lemma {:induction false} BraceReads()
    ensures PadReads("{ ", [Mark('{')]) && PadReads("\n{ ", [Mark('{')])
    ensures PadReads(" }", [Mark('}')]) && PadReads("}\n", [Mark('}')]) && PadReads("\n", [])
  {
    PadEmpty();
    PadCons(' ', "", []);
    PadCons('\n', "", []);
    PadCons('}', "", []);
    assert [' '] + "" == " " && ['\n'] + "" == "\n" && ['}'] + "" == "}";
    PadCons('{', " ", []);
    PadCons(' ', "}", [Mark('}')]);
    PadCons('}', "\n", []);
    assert ['{'] + " " == "{ " && [' '] + "}" == " }" && ['}'] + "\n" == "}\n";
    PadCons('\n', "{ ", [Mark('{')]);
    assert ['\n'] + "{ " == "\n{ ";
  }

  lemma {:induction false} BracketReads()
    ensures PadReads("],\n", [Mark(']'), Mark(',')]) && PadReads(": [", [Mark(':'), Mark('[')])
  {
    CommaReads();
    PadCons(']', ",\n", [Mark(',')]);
    assert [']'] + ",\n" == "],\n";
    PadEmpty();
    PadCons('[', "", []);
    assert ['['] + "" == "[";
    PadCons(' ', "[", [Mark('[')]);
    assert [' '] + "[" == " [";
    PadCons(':', " [", [Mark('[')]);
    assert [':'] + " [" == ": [";
  }

  lemma {:induction false} ListOpeningReads()
    ensures PadReads("[\n{ ", [Mark('['), Mark('{')])
  {
    BraceReads();
    PadCons('[', "\n{ ", [Mark('{')]);
    assert ['['] + "\n{ " == "[\n{ ";
  }

  lemma {:induction false} OpeningReads()
    ensures PadReads(": [\n{ ", [Mark(':'), Mark('['), Mark('{')])
  {
    ListOpeningReads();
    PadCons(' ', "[\n{ ", [Mark('['), Mark('{')]);
    assert [' '] + "[\n{ " == " [\n{ ";
    PadCons(':', " [\n{ ", [Mark('['), Mark('{')]);
    assert [':'] + " [\n{ " == ": [\n{ ";
  }

  lemma {:induction false} ClosingReads()
    ensures PadReads(CLOSING, [Mark('}'), Mark(']'), Mark(',')])
  {
    BracketReads();
    PadCons('\n', "],\n", [Mark(']'), Mark(',')]);
    assert ['\n'] + "],\n" == "\n],\n";
    PadCons('}', "\n],\n", [Mark(']'), Mark(',')]);
    assert ['}'] + "\n],\n" == "}\n],\n";
    PadCons(' ', "}\n],\n", [Mark('}'), Mark(']'), Mark(',')]);
    assert [' '] + "}\n],\n" == " }\n],\n";
  }

  lemma {:induction false} TrueReads()
    ensures PadReads(": true }", [Mark(':'), Yes, Mark('}')])
  {
    BraceReads();
    var s := "true }";
    assert "true" <= s && s[4..] == " }";
    assert [Yes] + [Mark('}')] == [Yes, Mark('}')];
    assert PadReads(s, [Yes, Mark('}')]);
    PadCons(' ', s, [Yes, Mark('}')]);
    assert [' '] + s == " true }";
    PadCons(':', " true }", [Yes, Mark('}')]);
    assert [':'] + " true }" == ": true }";
  }

  /** Pads that do not run into each other. */
  lemma {:induction false} PadConcat(a: string, s: seq<Token>, b: string, t: seq<Token>)
    requires PadReads(a, s) && PadReads(b, t) && Apart(a, b)
    ensures PadReads(a + b, s + t)
  {
    LexConcat(a, b);
  }

  /** A numeric value between two member names. */
  lemma {:induction false} NumberReads(n: nat, sep: string, t: seq<Token>)
    requires PadReads(sep, t) && sep != "" && !IsDecimal(sep[0])
    ensures PadReads(": " + Dec(n) + sep, [Mark(':'), Number(n)] + t)
  {
    ColonReads();
    LexDec(n);
    PadConcat(": ", [Mark(':')], Dec(n), [Number(n)]);
    assert [Mark(':')] + [Number(n)] == [Mark(':'), Number(n)];
    PadConcat(": " + Dec(n), [Mark(':'), Number(n)], sep, t);
  }

  // ------------------------------------------------------------------- one file

  /** The tokens of "name": value, for a one-token value. */
  function Pair(name: string, t: Token): seq<Token> { [Quote(name), Mark(':'), t] }

  /** What follows a member. */
  function Rest(rest: Members): seq<Token> {
    if rest.NoMember? then [Mark('}')] else [Mark(',')] + MemberTokens(rest)
  }

  predicate OneToken(v: Value, t: Token) { Tokens(v) == [t] }

  lemma {:induction false} PairTokens(name: string, v: Value, t: Token, rest: Members)
    requires OneToken(v, t)
    ensures MemberTokens(Member(name, v, rest)) ==
            Pair(name, t) + Rest(rest)
  {
  }

  lemma {:induction false} NamesAreSafe()
    ensures AllSafe("Path") && AllSafe("Size") && AllSafe("Last-Modified")
    ensures AllSafe("Checksum-Algorithm") && AllSafe("SHA256") && AllSafe("Checksum") && AllSafe("Incremental")
  {
  }

  lemma {:induction false} HexIsSafe(b: Bytes)
    ensures AllSafe(HexEncode(b))
  {
    var s := HexEncode(b);
    assert forall c :: IsHexDigit(c) ==> Safe(c);
    assert forall i :: 0 <= i < |s| ==> IsHexDigit(s[i]);
  }

  /** The field is read as t and its string. */
  predicate Reads(f: Field, t: seq<Token>) { FieldReads(f) && FieldTokens(f) == t + [Quote(TextOf(f))] }

  lemma {:induction false} RenderFour<T>(text: Field -> seq<T>, a: Field, b: Field, c: Field, d: Field)
    ensures RenderBy(text, [a, b, c, d]) == text(a) + text(b) + text(c) + text(d)
  {
    RenderConcat(text, [a, b], [c, d]);
    RenderTwo(text, a, b);
    RenderTwo(text, c, d);
    assert [a, b] + [c, d] == [a, b, c, d];
  }

  lemma {:induction false} OneMoreReads(fields: seq<Field>, e: Field, t: seq<Token>)
    requires FieldsRead(fields) && Reads(e, t)
    ensures FieldsRead(fields + [e]) && TokensOf(fields + [e]) == TokensOf(fields) + t + [Quote(TextOf(e))]
  {
    RenderConcat(FieldTokens, fields, [e]);
    RenderOne(FieldTokens, e);
  }

  lemma {:induction false} EntryPads(before: string, t: seq<Token>, f: ManifestFile)
    requires PadReads(before, t)
    ensures var fs := EntryFields(before, f);
            && Reads(fs[0], t + [Mark('{')]) && Reads(fs[1], [Mark(':')]) && Reads(fs[2], [Mark(',')])
            && Reads(fs[3], [Mark(':'), Number(f.size), Mark(',')]) && Reads(fs[4], [Mark(':')])
  {
    BraceReads();
    ColonReads();
    CommaReads();
    NamesAreSafe();
    PadConcat(before, t, "\n{ ", [Mark('{')]);
    NumberReads(f.size, ", ", [Mark(',')]);
    assert [Mark(':'), Number(f.size)] + [Mark(',')] == [Mark(':'), Number(f.size), Mark(',')];
  }

  function NameTokens(f: ManifestFile): seq<Token> {
    Pair("Path", Quote(f.path)) + [Mark(',')] + Pair("Size", Number(f.size)) + [Mark(',')] + Pair("Last-Modified", Quote(f.stamp))
  }

  function SumTokens(f: ManifestFile): seq<Token> {
    [Mark(',')] + Pair("Checksum-Algorithm", Quote("SHA256")) + [Mark(',')] + Pair("Checksum", Quote(HexEncode(f.digest)))
  }

  /** What an incremental file's entry says besides. */
  function IncrementalTokens(f: ManifestFile): seq<Token> {
    if f.incremental then [Mark(','), Quote("Incremental")] else []
  }

  /** The end of an entry. */
  function EndTokens(f: ManifestFile): seq<Token> { if f.incremental then [Mark(':'), Yes, Mark('}')] else [Mark('}')] }

  lemma {:induction false} EntryReads(before: string, t: seq<Token>, f: ManifestFile)
    requires PadReads(before, t)
    ensures FieldsRead(EntryFields(before, f))
    ensures TokensOf(EntryFields(before, f)) == t + [Mark('{')] + NameTokens(f)
  {
    var fs := EntryFields(before, f);
    EntryPads(before, t, f);
    RenderFour(FieldTokens, fs[0], fs[1], fs[2], fs[3]);
    OneMoreReads([fs[0], fs[1], fs[2], fs[3]], fs[4], [Mark(':')]);
    assert [fs[0], fs[1], fs[2], fs[3]] + [fs[4]] == fs;
    Regroup5(t + [Mark('{')], "Path", Quote(f.path), "Size", Number(f.size), "Last-Modified", Quote(f.stamp));
  }

  lemma {:induction false} Regroup5(t: seq<Token>, a: string, x: Token, b: string, y: Token, c: string, z: Token)
    ensures (t + [Quote(a)]) + ([Mark(':')] + [x]) + ([Mark(',')] + [Quote(b)]) + ([Mark(':'), y, Mark(',')] + [Quote(c)])
            + [Mark(':')] + [z]
            == t + (Pair(a, x) + [Mark(',')] + Pair(b, y) + [Mark(',')] + Pair(c, z))
  {
  }

  lemma {:induction false} ChecksumPads(f: ManifestFile)
    ensures var fs := ChecksumFields(f);
            && Reads(fs[0], [Mark(',')]) && Reads(fs[1], [Mark(':')]) && Reads(fs[2], [Mark(',')]) && Reads(fs[3], [Mark(':')])
            && (f.incremental ==> Reads(fs[4], [Mark(',')]))
  {
    ColonReads();
    CommaReads();
    NamesAreSafe();
    HexIsSafe(f.digest);
  }

  lemma {:induction false} ChecksumsRead(f: ManifestFile)
    ensures FieldsRead(ChecksumFields(f))
    ensures TokensOf(ChecksumFields(f)) == SumTokens(f) + IncrementalTokens(f)
  {
    var fs := ChecksumFields(f);
    ChecksumPads(f);
    RenderFour(FieldTokens, fs[0], fs[1], fs[2], fs[3]);
    Regroup4("Checksum-Algorithm", Quote("SHA256"), "Checksum", Quote(HexEncode(f.digest)));
    if f.incremental {
      OneMoreReads([fs[0], fs[1], fs[2], fs[3]], fs[4], [Mark(',')]);
      assert fs == [fs[0], fs[1], fs[2], fs[3]] + [fs[4]];
    } else {
      assert fs == [fs[0], fs[1], fs[2], fs[3]];
    }
  }

  lemma {:induction false} Regroup4(a: string, x: Token, b: string, y: Token)
    ensures ([Mark(',')] + [Quote(a)]) + ([Mark(':')] + [x]) + ([Mark(',')] + [Quote(b)]) + ([Mark(':')] + [y])
            == [Mark(',')] + Pair(a, x) + [Mark(',')] + Pair(b, y)
  {
  }

  lemma {:induction false} EndReads(f: ManifestFile)
    ensures PadReads(FileEnd(f), EndTokens(f))
  {
    TrueReads();
    BraceReads();
  }

  /** Three members of one token each, and more. */
  lemma {:induction false} ThreeMembers(a: string, p: Value, u: Token, b: string, q: Value, v: Token, c: string, r: Value, w: Token,
                                        rest: Members)
    requires OneToken(p, u) && OneToken(q, v) && OneToken(r, w)
    ensures MemberTokens(Member(a, p, Member(b, q, Member(c, r, rest)))) ==
            (Pair(a, u) + [Mark(',')] + Pair(b, v) + [Mark(',')] + Pair(c, w)) + Rest(rest)
  {
    PairTokens(c, r, w, rest);
    PairTokens(b, q, v, Member(c, r, rest));
    PairTokens(a, p, u, Member(b, q, Member(c, r, rest)));
  }

  lemma {:induction false} TwoMembers(a: string, p: Value, u: Token, b: string, q: Value, v: Token, rest: Members)
    requires OneToken(p, u) && OneToken(q, v)
    ensures Rest(Member(a, p, Member(b, q, rest))) == ([Mark(',')] + Pair(a, u) + [Mark(',')] + Pair(b, v)) + Rest(rest)
  {
    PairTokens(b, q, v, rest);
    PairTokens(a, p, u, Member(b, q, rest));
  }

  lemma {:induction false} FileTokens(f: ManifestFile)
    ensures Tokens(Obj(FileMembers(f))) == [Mark('{')] + (NameTokens(f) + (SumTokens(f) + (IncrementalTokens(f) + EndTokens(f))))
  {
    var rest := if f.incremental then Member("Incremental", True, NoMember) else NoMember;
    var hex := HexEncode(f.digest);
    var sums := Member("Checksum-Algorithm", Str("SHA256"), Member("Checksum", Str(hex), rest));
    IncrementalRest(f.incremental, rest);
    TwoMembers("Checksum-Algorithm", Str("SHA256"), Quote("SHA256"), "Checksum", Str(hex), Quote(hex), rest);
    ThreeMembers("Path", Str(f.path), Quote(f.path), "Size", Num(f.size), Number(f.size),
                 "Last-Modified", Str(f.stamp), Quote(f.stamp), sums);
  }

  lemma {:induction false} IncrementalRest(incremental: bool, rest: Members)
    requires rest == if incremental then Member("Incremental", True, NoMember) else NoMember
    ensures Rest(rest) == (if incremental then [Mark(','), Quote("Incremental")] else []) +
                          (if incremental then [Mark(':'), Yes, Mark('}')] else [Mark('}')])
  {
    PairTokens("Incremental", True, Yes, NoMember);
  }

  lemma {:induction false} Assoc<T>(t: seq<T>, a: seq<T>, b: seq<T>, c: seq<T>, d: seq<T>, e: seq<T>)
    ensures ((t + a + b) + (c + d)) + e == t + (a + (b + (c + (d + e))))
  {
  }

  /** One file's fields are read as what comes before it and the object of its entry. */
  lemma {:induction false} FileReads(before: string, t: seq<Token>, f: ManifestFile)
    requires PadReads(before, t)
    ensures FieldsRead(FileFields(before, f)) && PadReads(FileEnd(f), EndTokens(f))
    ensures TokensOf(FileFields(before, f)) + EndTokens(f) == t + EntryTokens(f)
  {
    EntryReads(before, t, f);
    ChecksumsRead(f);
    EndReads(f);
    RenderConcat(FieldTokens, EntryFields(before, f), ChecksumFields(f));
    FieldsReadConcat(EntryFields(before, f), ChecksumFields(f));
    FileTokens(f);
    Assoc(t, [Mark('{')], NameTokens(f), SumTokens(f), IncrementalTokens(f), EndTokens(f));
  }

  // -------------------------------------------------------------- the list of files

  function EntryTokens(f: ManifestFile): seq<Token> { Tokens(Obj(FileMembers(f))) }

  /** The entries of a list with a separator between them. */
  function Separated<T>(entry: ManifestFile -> seq<T>, sep: seq<T>, files: seq<ManifestFile>): seq<T> {
    if files == [] then []
    else
      var n := |files| - 1;
      Separated(entry, sep, files[..n]) + (if n == 0 then [] else sep) + entry(files[n])
  }

  function ListTokens(files: seq<ManifestFile>): seq<Token> { Separated(EntryTokens, [Mark(',')], files) }

  lemma {:induction false} SeparatedCons<T>(entry: ManifestFile -> seq<T>, sep: seq<T>, f: ManifestFile, files: seq<ManifestFile>)
    ensures Separated(entry, sep, [f] + files) == entry(f) + (if files == [] then [] else sep + Separated(entry, sep, files))
    decreases |files|
  {
    var all, n := [f] + files, |files|;
    if n == 0 {
      assert all[..0] == [] && all[0] == f;
      assert Separated(entry, sep, []) == [];
    } else {
      assert all[..n] == [f] + files[..n - 1] && all[n] == files[n - 1];
      SeparatedCons(entry, sep, f, files[..n - 1]);
      var e, list := entry(files[n - 1]), Separated(entry, sep, files[..n - 1]);
      if n == 1 {
        assert Separated(entry, sep, files[..0]) == [];
        assert Separated(entry, sep, files) == e;
      } else {
        AssocMore(entry(f), sep, list, sep, e);
      }
    }
  }

  /** They are the tokens of the array's items. */
  lemma {:induction false} ListIsItems(files: seq<ManifestFile>)
    requires files != []
    ensures ItemTokens(FileItems(files)) == ListTokens(files) + [Mark(']')]
    decreases |files|
  {
    var rest := files[1..];
    assert files == [files[0]] + rest;
    SeparatedCons(EntryTokens, [Mark(',')], files[0], rest);
    ItemsUnfold(files);
    if rest != [] {
      ListIsItems(rest);
      AssocEnd(EntryTokens(files[0]), [Mark(',')], ListTokens(rest), [Mark(']')]);
    }
  }

  lemma {:induction false} AssocMore<T>(a: seq<T>, b: seq<T>, c: seq<T>, d: seq<T>, e: seq<T>)
    ensures (a + (b + c)) + d + e == a + (b + (c + d + e))
  {
  }

  lemma {:induction false} AssocEnd<T>(a: seq<T>, b: seq<T>, c: seq<T>, d: seq<T>)
    ensures a + (b + (c + d)) == (a + (b + c)) + d
  {
  }

  lemma {:induction false} ItemsUnfold(files: seq<ManifestFile>)
    requires files != []
    ensures ItemTokens(FileItems(files)) ==
            EntryTokens(files[0]) + if files[1..] == [] then [Mark(']')] else [Mark(',')] + ItemTokens(FileItems(files[1..]))
  {
  }

  lemma {:induction false} ListTokensOf(files: seq<ManifestFile>)
    ensures Tokens(Arr(FileItems(files))) == [Mark('[')] + ListTokens(files) + [Mark(']')]
  {
    if files != [] {
      ListIsItems(files);
    }
  }

  /** A form whose fields, with the text after them, are read as what comes before and the file's object. */
  ghost predicate ReadableForm(form: Form) {
    forall before, t, f :: PadReads(before, t) ==>
      && FieldsRead(form(before, f)) && PadReads(FileEnd(f), EndTokens(f))
      && TokensOf(form(before, f)) + EndTokens(f) == t + EntryTokens(f)
  }

  lemma {:induction false} FileFormReads()
    ensures ReadableForm(FileFields)
  {
    forall before, t, f | PadReads(before, t)
      ensures FieldsRead(FileFields(before, f)) && PadReads(FileEnd(f), EndTokens(f))
      ensures TokensOf(FileFields(before, f)) + EndTokens(f) == t + EntryTokens(f)
    {
      FileReads(before, t, f);
    }
  }

  function TrailTokens(head: seq<Token>, files: seq<ManifestFile>): seq<Token> {
    if files == [] then head else EndTokens(files[|files| - 1])
  }

  /** The list of files is read entry by entry. */
  lemma {:induction false} FilesRead(form: Form, head: Doc, h: seq<Token>, files: seq<ManifestFile>)
    requires ReadableForm(form) && FieldsRead(head.fields) && PadReads(head.trail, h)
    ensures var doc := FilesDoc(form, head, files);
            && FieldsRead(doc.fields) && PadReads(doc.trail, TrailTokens(h, files))
            && TokensOf(doc.fields) + TrailTokens(h, files) == TokensOf(head.fields) + h + ListTokens(files)
  {
    if files != [] {
      var n := |files| - 1;
      var doc, f := FilesDoc(form, head, files[..n]), files[n];
      FilesRead(form, head, h, files[..n]);
      var t := TrailTokens(h, files[..n]);
      var comma := if n == 0 then [] else [Mark(',')];
      var before := if n == 0 then doc.trail else doc.trail + ",";
      CommaReads();
      if n > 0 {
        PadConcat(doc.trail, t, ",", [Mark(',')]);
      }
      assert PadReads(before, t + comma);
      NextFile(form, doc.fields, before, t, comma, f, TokensOf(head.fields) + h, ListTokens(files[..n]));
    }
  }

  /** The fields of one more file. */
  lemma {:induction false} NextFile(form: Form, fields: seq<Field>, before: string, t: seq<Token>, comma: seq<Token>, f: ManifestFile,
                                    head: seq<Token>, list: seq<Token>)
    requires ReadableForm(form) && FieldsRead(fields) && PadReads(before, t + comma)
    requires TokensOf(fields) + t == head + list
    ensures FieldsRead(fields + form(before, f)) && PadReads(FileEnd(f), EndTokens(f))
    ensures TokensOf(fields + form(before, f)) + EndTokens(f) == head + (list + comma + EntryTokens(f))
  {
    RenderConcat(FieldTokens, fields, form(before, f));
    FieldsReadConcat(fields, form(before, f));
    OneMoreFile(TokensOf(fields), t, comma, TokensOf(form(before, f)), EndTokens(f), EntryTokens(f), head, list);
  }

  lemma {:induction false} OneMoreFile<T>(fields: seq<T>, t: seq<T>, comma: seq<T>, file: seq<T>, end: seq<T>, entry: seq<T>,
                                          head: seq<T>, list: seq<T>)
    requires fields + t == head + list && file + end == (t + comma) + entry
    ensures (fields + file) + end == head + (list + comma + entry)
  {
    calc {
      (fields + file) + end;
      fields + (file + end);
      fields + ((t + comma) + entry);
      (fields + t) + (comma + entry);
      (head + list) + (comma + entry);
      head + (list + comma + entry);
    }
  }

  // ----------------------------------------------------------------- head and ranges

  function HeadTokens(system: nat): seq<Token> {
    [Mark('{')] + Pair("PostgreSQL-Backup-Manifest-Version", Number(2)) + [Mark(',')] + Pair("System-Identifier", Number(system))
    + [Mark(',')] + [Quote("Files"), Mark(':')]
  }

  lemma {:induction false} HeadNamesAreSafe()
    ensures AllSafe("PostgreSQL-Backup-Manifest-Version") && AllSafe("System-Identifier") && AllSafe("Files")
  {
  }

  lemma {:induction false} HeadPads(system: nat)
    ensures var fs := HeadFields(system);
            && Reads(fs[0], [Mark('{')]) && Reads(fs[1], [Mark(':'), Number(2), Mark(',')])
            && Reads(fs[2], [Mark(':'), Number(system), Mark(',')])
  {
    BraceReads();
    CommaReads();
    HeadNamesAreSafe();
    NumberReads(2, ",\n", [Mark(',')]);
    assert Dec(2) == "2" && ": " + "2" + ",\n" == ": 2,\n";
    NumberReads(system, ",\n", [Mark(',')]);
    assert [Mark(':'), Number(2)] + [Mark(',')] == [Mark(':'), Number(2), Mark(',')];
    assert [Mark(':'), Number(system)] + [Mark(',')] == [Mark(':'), Number(system), Mark(',')];
  }

  lemma {:induction false} HeadReads(system: nat)
    ensures FieldsRead(HeadFields(system)) && PadReads(": [", [Mark(':'), Mark('[')])
    ensures TokensOf(HeadFields(system)) + [Mark(':'), Mark('[')] == HeadTokens(system) + [Mark('[')]
  {
    var fs := HeadFields(system);
    HeadPads(system);
    BracketReads();
    RenderThree(FieldTokens, fs[0], fs[1], fs[2]);
    assert fs == [fs[0], fs[1], fs[2]];
    RegroupHead("PostgreSQL-Backup-Manifest-Version", Number(2), "System-Identifier", Number(system), "Files");
  }

  lemma {:induction false} RegroupHead(a: string, x: Token, b: string, y: Token, c: string)
    ensures ([Mark('{')] + [Quote(a)]) + ([Mark(':'), x, Mark(',')] + [Quote(b)]) + ([Mark(':'), y, Mark(',')] + [Quote(c)])
            + [Mark(':'), Mark('[')]
            == ([Mark('{')] + Pair(a, x) + [Mark(',')] + Pair(b, y) + [Mark(',')] + [Quote(c), Mark(':')]) + [Mark('[')]
  {
  }

  /** From the end of the list of files to the start of the closing checksum. */
  function RangeTokens(tli: Timeline, start: LSN, stop: LSN): seq<Token> {
    [Mark(']'), Mark(',')] + [Quote("WAL-Ranges"), Mark(':')] + Tokens(Arr(Item(Obj(RangeMembers(tli, start, stop)), NoItem)))
    + [Mark(',')]
  }

  lemma {:induction false} LsnIsSafe(l: LSN)
    ensures AllSafe(LsnString(l))
  {
    var a, b := VarHex(U32(l / 0x1_0000_0000)), VarHex(U32(l % 0x1_0000_0000));
    assert forall c :: IsHexDigit(c) ==> Safe(c);
    assert forall i :: 0 <= i < |a| ==> IsHexDigit(a[i]);
    assert forall i :: 0 <= i < |b| ==> IsHexDigit(b[i]);
    assert LsnString(l) == a + "/" + b;
  }

  lemma {:induction false} RangeNamesAreSafe()
    ensures AllSafe("WAL-Ranges") && AllSafe("Timeline") && AllSafe("Start-LSN") && AllSafe("End-LSN")
  {
  }

  lemma {:induction false} RangePads(before: string, t: seq<Token>, tli: Timeline, start: LSN, stop: LSN)
    requires PadReads(before, t)
    ensures var fs := RangeFields(before, tli, start, stop);
            && Reads(fs[0], t + [Mark(']'), Mark(',')]) && Reads(fs[1], [Mark(':'), Mark('['), Mark('{')])
            && Reads(fs[2], [Mark(':'), Number(tli), Mark(',')]) && Reads(fs[3], [Mark(':')])
            && Reads(fs[4], [Mark(',')]) && Reads(fs[5], [Mark(':')])
  {
    BracketReads();
    OpeningReads();
    ColonReads();
    CommaReads();
    RangeNamesAreSafe();
    PadConcat(before, t, "],\n", [Mark(']'), Mark(',')]);
    NumberReads(tli, ", ", [Mark(',')]);
    assert [Mark(':'), Number(tli)] + [Mark(',')] == [Mark(':'), Number(tli), Mark(',')];
    LsnIsSafe(start);
    LsnIsSafe(stop);
  }

  lemma {:induction false} ArrayOfOne(m: Members)
    requires m.Member?
    ensures Tokens(Arr(Item(Obj(m), NoItem))) == [Mark('['), Mark('{')] + MemberTokens(m) + [Mark(']')]
  {
    assert Tokens(Obj(m)) == [Mark('{')] + MemberTokens(m);
    assert ItemTokens(Item(Obj(m), NoItem)) == Tokens(Obj(m)) + [Mark(']')];
  }

  lemma {:induction false} RangeValueTokens(tli: Timeline, start: LSN, stop: LSN)
    ensures Tokens(Arr(Item(Obj(RangeMembers(tli, start, stop)), NoItem))) ==
            [Mark('['), Mark('{')] + (Pair("Timeline", Number(tli)) + [Mark(',')] + Pair("Start-LSN", Quote(LsnString(start)))
            + [Mark(',')] + Pair("End-LSN", Quote(LsnString(stop)))) + [Mark('}'), Mark(']')]
  {
    ThreeMembers("Timeline", Num(tli), Number(tli), "Start-LSN", Str(LsnString(start)), Quote(LsnString(start)),
                 "End-LSN", Str(LsnString(stop)), Quote(LsnString(stop)), NoMember);
    ArrayOfOne(RangeMembers(tli, start, stop));
  }

  lemma {:induction false} RangesRead(before: string, t: seq<Token>, tli: Timeline, start: LSN, stop: LSN)
    requires PadReads(before, t)
    ensures FieldsRead(RangeFields(before, tli, start, stop))
    ensures TokensOf(RangeFields(before, tli, start, stop)) + [Mark('}'), Mark(']'), Mark(',')] == t + RangeTokens(tli, start, stop)
  {
    var fs := RangeFields(before, tli, start, stop);
    RangePads(before, t, tli, start, stop);
    RenderFour(FieldTokens, fs[0], fs[1], fs[2], fs[3]);
    OneMoreReads([fs[0], fs[1], fs[2], fs[3]], fs[4], [Mark(',')]);
    OneMoreReads([fs[0], fs[1], fs[2], fs[3]] + [fs[4]], fs[5], [Mark(':')]);
    assert fs == [fs[0], fs[1], fs[2], fs[3]] + [fs[4]] + [fs[5]];
    RangeValueTokens(tli, start, stop);
    RegroupRange(t, "WAL-Ranges", "Timeline", Number(tli), "Start-LSN", Quote(LsnString(start)), "End-LSN", Quote(LsnString(stop)));
  }

  lemma {:induction false} RegroupRange(t: seq<Token>, r: string, a: string, x: Token, b: string, y: Token, c: string, z: Token)
    ensures ((t + [Mark(']'), Mark(',')]) + [Quote(r)]) + ([Mark(':'), Mark('['), Mark('{')] + [Quote(a)])
            + ([Mark(':'), x, Mark(',')] + [Quote(b)]) + ([Mark(':')] + [y]) + [Mark(',')] + [Quote(c)] + [Mark(':')] + [z]
            + [Mark('}'), Mark(']'), Mark(',')]
            == t + ([Mark(']'), Mark(',')] + [Quote(r), Mark(':')]
                    + ([Mark('['), Mark('{')] + (Pair(a, x) + [Mark(',')] + Pair(b, y) + [Mark(',')] + Pair(c, z)) + [Mark('}'), Mark(']')])
                    + [Mark(',')])
  {
  }

  // ------------------------------------------------------------------- the document

  /** From the closing checksum to the end. */
  function TrailerTokens(d: Digest): seq<Token> { Pair(NAME, Quote(HexEncode(d))) + [Mark('}')] }

  /** The printed text, as one run of fields. */
  lemma {:induction false} TextIsFields(system: nat, files: seq<ManifestFile>, tli: Timeline, start: LSN, stop: LSN, d: Digest)
    ensures Covered(system, files, tli, start, stop) + Trailer(NAME, COLON, d) ==
            Render(EscapeChar, AllFields(system, files, tli, start, stop)) + (CLOSING + (Quoted(NAME) + (COLON + (Quoted(HexEncode(d)) + "}\n"))))
  {
    var text, hex := Render(EscapeChar, AllFields(system, files, tli, start, stop)), HexEncode(d);
    TrailerText(text, CLOSING, NAME, COLON, hex);
  }

  lemma {:induction false} TrailerText(text: string, closing: string, name: string, sep: string, hex: string)
    ensures (text + closing) + (Quoted(name) + sep + "\"" + hex + "\"}\n") ==
            text + (closing + (Quoted(name) + (sep + (Quoted(hex) + "}\n"))))
  {
    assert "\"}\n" == "\"" + "}\n";
  }

  /** A quoted safe text is read as itself. */
  lemma {:induction false} LexQuoted(s: string, rest: string)
    requires AllSafe(s)
    ensures Lex(Quoted(s) + rest) == Prepend(Quote(s), Lex(rest))
  {
    EscapeCharIsEscaping();
    EscapeOfSafe(EscapeChar, s);
    StringReads(s, rest);
    LexQuote(s, s, rest);
    assert Quoted(s) + rest == "\"" + s + "\"" + rest;
  }

  lemma {:induction false} TrailerReads(d: Digest)
    ensures var tail := CLOSING + (Quoted(NAME) + (COLON + (Quoted(HexEncode(d)) + "}\n")));
            Lex(tail) == Some([Mark('}'), Mark(']'), Mark(',')] + TrailerTokens(d))
  {
    var hex := HexEncode(d);
    var value := Quoted(hex) + "}\n";
    ClosingReads();
    ColonReads();
    BraceReads();
    NameIsSafe();
    HexIsSafe(d);
    LexQuoted(hex, "}\n");
    LexConcat(": ", value);
    LexQuoted(NAME, COLON + value);
    LexConcat(CLOSING, Quoted(NAME) + (COLON + value));
    assert Lex(value).value == [Quote(hex), Mark('}')];
    assert Lex(COLON + value).value == [Mark(':'), Quote(hex), Mark('}')];
    assert Lex(Quoted(NAME) + (COLON + value)).value == TrailerTokens(d);
  }

  lemma {:induction false} FieldsOfAll(system: nat, files: seq<ManifestFile>, tli: Timeline, start: LSN, stop: LSN)
    ensures var fields := AllFields(system, files, tli, start, stop);
            && FieldsRead(fields)
            && TokensOf(fields) + [Mark('}'), Mark(']'), Mark(',')] ==
               HeadTokens(system) + ([Mark('[')] + ListTokens(files)) + RangeTokens(tli, start, stop)
  {
    var h := [Mark(':'), Mark('[')];
    var doc := FilesDoc(FileFields, Head(system), files);
    var t := TrailTokens(h, files);
    HeadReads(system);
    FileFormReads();
    FilesRead(FileFields, Head(system), h, files);
    BraceReads();
    var before := if files == [] then doc.trail else doc.trail + "\n";
    PadConcat(doc.trail, t, "\n", []);
    assert t + [] == t;
    RangesRead(before, t, tli, start, stop);
    var ranges := RangeFields(before, tli, start, stop);
    RenderConcat(FieldTokens, doc.fields, ranges);
    FieldsReadConcat(doc.fields, ranges);
    JoinSections(TokensOf(doc.fields), t, TokensOf(HeadFields(system)), h, HeadTokens(system), [Mark('[')], ListTokens(files),
                 TokensOf(ranges), [Mark('}'), Mark(']'), Mark(',')], RangeTokens(tli, start, stop));
  }

  lemma {:induction false} JoinSections<T>(fields: seq<T>, t: seq<T>, head: seq<T>, h: seq<T>, headTokens: seq<T>, open': seq<T>,
                                           list: seq<T>, ranges: seq<T>, closing: seq<T>, rangeTokens: seq<T>)
    requires fields + t == head + h + list && head + h == headTokens + open'
    requires ranges + closing == t + rangeTokens
    ensures (fields + ranges) + closing == headTokens + (open' + list) + rangeTokens
  {
    calc {
      (fields + ranges) + closing;
      fields + (ranges + closing);
      fields + (t + rangeTokens);
      (fields + t) + rangeTokens;
      (headTokens + open' + list) + rangeTokens;
      headTokens + (open' + list) + rangeTokens;
    }
  }

  /** The tokens of the whole value. */
  lemma {:induction false} DocumentTokens(system: nat, files: seq<ManifestFile>, tli: Timeline, start: LSN, stop: LSN, d: Digest)
    ensures Tokens(Obj(Document(system, files, tli, start, stop, d))) ==
            (HeadTokens(system) + ([Mark('[')] + ListTokens(files)) + RangeTokens(tli, start, stop)) + TrailerTokens(d)
  {
    var hex := HexEncode(d);
    var ranges := Arr(Item(Obj(RangeMembers(tli, start, stop)), NoItem));
    ListTokensOf(files);
    DocumentShape("PostgreSQL-Backup-Manifest-Version", 2, "System-Identifier", system, "Files", Arr(FileItems(files)),
                  "WAL-Ranges", ranges, NAME, hex, ListTokens(files));
  }

  lemma {:induction false} DocumentShape(a: string, m: nat, b: string, n: nat, c: string, files: Value, r: string, ranges: Value,
                                         name: string, hex: string, list: seq<Token>)
    requires Tokens(files) == [Mark('[')] + list + [Mark(']')]
    ensures Tokens(Obj(Member(a, Num(m), Member(b, Num(n), Member(c, files, Member(r, ranges, Member(name, Str(hex), NoMember))))))) ==
            (([Mark('{')] + Pair(a, Number(m)) + [Mark(',')] + Pair(b, Number(n)) + [Mark(',')] + [Quote(c), Mark(':')])
             + ([Mark('[')] + list)
             + ([Mark(']'), Mark(',')] + [Quote(r), Mark(':')] + Tokens(ranges) + [Mark(',')]))
            + (Pair(name, Quote(hex)) + [Mark('}')])
  {
    var last := Member(name, Str(hex), NoMember);
    var four := Member(r, ranges, last);
    var three := Member(c, files, four);
    PairTokens(name, Str(hex), Quote(hex), NoMember);
    assert MemberTokens(four) == [Quote(r), Mark(':')] + Tokens(ranges) + Rest(last);
    assert MemberTokens(three) == [Quote(c), Mark(':')] + Tokens(files) + Rest(four);
    PairTokens(b, Num(n), Number(n), three);
    PairTokens(a, Num(m), Number(m), Member(b, Num(n), three));
    AssocDocument([Mark('{')], Pair(a, Number(m)), [Mark(',')], Pair(b, Number(n)), [Quote(c), Mark(':')], [Mark('[')], list,
                  [Mark(']')], [Quote(r), Mark(':')], Tokens(ranges), Pair(name, Quote(hex)), [Mark('}')]);
    assert [Mark(']')] + [Mark(',')] == [Mark(']'), Mark(',')];
  }

  lemma {:induction false} AssocDocument<T>(brace: seq<T>, a: seq<T>, comma: seq<T>, b: seq<T>, c: seq<T>, open': seq<T>, list: seq<T>,
                                            close: seq<T>, r: seq<T>, ranges: seq<T>, name: seq<T>, end: seq<T>)
    ensures brace + (a + (comma + (b + (comma + (c + (open' + list + close) + (comma + (r + ranges + (comma + (name + end)))))))))
            == ((brace + a + comma + b + comma + c) + (open' + list) + ((close + comma) + r + ranges + comma)) + (name + end)
  {
  }

  lemma {:induction false} ManifestLexes(system: nat, files: seq<ManifestFile>, tli: Timeline, start: LSN, stop: LSN, d: Digest)
    ensures Lex(Covered(system, files, tli, start, stop) + Trailer(NAME, COLON, d)) ==
            Some((HeadTokens(system) + ([Mark('[')] + ListTokens(files)) + RangeTokens(tli, start, stop)) + TrailerTokens(d))
  {
    var fields, closing := AllFields(system, files, tli, start, stop), [Mark('}'), Mark(']'), Mark(',')];
    var tail := CLOSING + (Quoted(NAME) + (COLON + (Quoted(HexEncode(d)) + "}\n")));
    TextIsFields(system, files, tli, start, stop, d);
    FieldsOfAll(system, files, tli, start, stop);
    TrailerReads(d);
    FieldsAndTail(fields, tail, closing, TrailerTokens(d));
  }

  lemma {:induction false} FieldsAndTail(fields: seq<Field>, tail: string, closing: seq<Token>, end: seq<Token>)
    requires FieldsRead(fields) && Lex(tail) == Some(closing + end)
    ensures Lex(Render(EscapeChar, fields) + tail) == Some((TokensOf(fields) + closing) + end)
  {
    LexFields(fields, tail);
    assert TokensOf(fields) + (closing + end) == (TokensOf(fields) + closing) + end;
  }

  /** The printed manifest is the JSON text of its document. */
  lemma {:induction false} ManifestIsJson(system: nat, files: seq<ManifestFile>, tli: Timeline, start: LSN, stop: LSN, d: Digest)
    ensures Read(Covered(system, files, tli, start, stop) + Trailer(NAME, COLON, d)) ==
            Some(Obj(Document(system, files, tli, start, stop, d)))
  {
    ManifestLexes(system, files, tli, start, stop, d);
    DocumentTokens(system, files, tli, start, stop, d);
    ReadTokens(Covered(system, files, tli, start, stop) + Trailer(NAME, COLON, d), Obj(Document(system, files, tli, start, stop, d)));
  }

  // ------------------------------------------------------------------- looking it up

  function EntryOf(f: ManifestFile): Entry {
    Entry(f.path, f.size, f.stamp, "SHA256", f.digest, f.incremental)
  }

  function EntriesOf(files: seq<ManifestFile>): seq<Entry> { seq(|files|, i requires 0 <= i < |files| => EntryOf(files[i])) }

  /** What a lookup finds among five members and more. */
  lemma {:induction false} FiveGets(a: string, p: Value, b: string, q: Value, c: string, r: Value, d: string, s: Value,
                                    e: string, t: Value, rest: Members, name: string)
    ensures Get(Member(a, p, Member(b, q, Member(c, r, Member(d, s, Member(e, t, rest))))), name) ==
            if name == a then Some(p) else if name == b then Some(q) else if name == c then Some(r)
            else if name == d then Some(s) else if name == e then Some(t) else Get(rest, name)
  {
    var two := Member(d, s, Member(e, t, rest));
    assert Get(two, name) == if name == d then Some(s) else if name == e then Some(t) else Get(rest, name);
    ThreeGets(a, p, b, q, c, r, two, name);
  }

  lemma {:induction false} ThreeGets(a: string, p: Value, b: string, q: Value, c: string, r: Value, rest: Members, name: string)
    ensures Get(Member(a, p, Member(b, q, Member(c, r, rest))), name) ==
            if name == a then Some(p) else if name == b then Some(q) else if name == c then Some(r) else Get(rest, name)
  {
    assert Get(Member(b, q, Member(c, r, rest)), name) ==
           if name == b then Some(q) else if name == c then Some(r) else Get(rest, name);
  }

  /** A lookup in a file's entry. */
  lemma {:induction false} FileGet(f: ManifestFile, name: string)
    ensures Get(FileMembers(f), name) ==
            if name == "Path" then Some(Str(f.path)) else if name == "Size" then Some(Num(f.size))
            else if name == "Last-Modified" then Some(Str(f.stamp)) else if name == "Checksum-Algorithm" then Some(Str("SHA256"))
            else if name == "Checksum" then Some(Str(HexEncode(f.digest)))
            else if name == "Incremental" && f.incremental then Some(True) else None
  {
    var rest := if f.incremental then Member("Incremental", True, NoMember) else NoMember;
    FiveGets("Path", Str(f.path), "Size", Num(f.size), "Last-Modified", Str(f.stamp), "Checksum-Algorithm", Str("SHA256"),
             "Checksum", Str(HexEncode(f.digest)), rest, name);
    assert Get(rest, name) == if name == "Incremental" && f.incremental then Some(True) else None;
  }

  lemma {:induction false} FileNamesDiffer()
    ensures Distinct(["Path", "Size", "Last-Modified", "Checksum-Algorithm", "Checksum", "Incremental"])
  {
    assert "Path"[0] != "Size"[0];
  }

  lemma {:induction false} EntryReadsBack(f: ManifestFile)
    ensures ReadEntry(Obj(FileMembers(f))) == Some(EntryOf(f))
  {
    FileGet(f, "Path");
    FileGet(f, "Size");
    FileGet(f, "Last-Modified");
    FileGet(f, "Checksum-Algorithm");
    FileGet(f, "Checksum");
    FileGet(f, "Incremental");
    FileNamesDiffer();
    HexDecodes(f.digest);
  }

  lemma {:induction false} EntriesReadBack(files: seq<ManifestFile>)
    ensures ReadEntries(FileItems(files)) == Some(EntriesOf(files))
    decreases |files|
  {
    if files == [] {
      assert EntriesOf(files) == [];
    } else {
      EntryReadsBack(files[0]);
      EntriesReadBack(files[1..]);
      assert EntriesOf(files) == [EntryOf(files[0])] + EntriesOf(files[1..]);
    }
  }

  lemma {:induction false} RangeReadsBack(tli: Timeline, start: LSN, stop: LSN)
    ensures ReadRange(Arr(Item(Obj(RangeMembers(tli, start, stop)), NoItem))) == Some(Range(tli, start, stop))
  {
    var a, b, c := Num(tli), Str(LsnString(start)), Str(LsnString(stop));
    ThreeGets("Timeline", a, "Start-LSN", b, "End-LSN", c, NoMember, "Timeline");
    ThreeGets("Timeline", a, "Start-LSN", b, "End-LSN", c, NoMember, "Start-LSN");
    ThreeGets("Timeline", a, "Start-LSN", b, "End-LSN", c, NoMember, "End-LSN");
    LsnRoundTrip(start);
    LsnRoundTrip(stop);
  }

  /**
   What the builder knows is what a reader gets, for every builder: the system identifier, each file's
   path, size, stamp, digest and incremental flag in order, the WAL range, and the closing checksum.
   */
  lemma {:induction false} FinalizedManifestReadsBack(system: nat, files: seq<ManifestFile>, tli: Timeline, start: LSN, stop: LSN, d: Digest)
    ensures ReadManifest(Covered(system, files, tli, start, stop) + Trailer(NAME, COLON, d)) ==
            Some(Contents(system, EntriesOf(files), tli, start, stop, d))
  {
    ManifestIsJson(system, files, tli, start, stop, d);
    DocumentReadsBack(system, files, tli, start, stop, d);
  }

  lemma {:induction false} DocumentReadsBack(system: nat, files: seq<ManifestFile>, tli: Timeline, start: LSN, stop: LSN, d: Digest)
    ensures ReadMembers(Document(system, files, tli, start, stop, d)) == Some(Contents(system, EntriesOf(files), tli, start, stop, d))
  {
    var ranges := Arr(Item(Obj(RangeMembers(tli, start, stop)), NoItem));
    EntriesReadBack(files);
    RangeReadsBack(tli, start, stop);
    HexDecodes(d);
    TopNamesDiffer();
    DocumentGet(system, files, tli, start, stop, d, "PostgreSQL-Backup-Manifest-Version");
    DocumentGet(system, files, tli, start, stop, d, "System-Identifier");
    DocumentGet(system, files, tli, start, stop, d, "Files");
    DocumentGet(system, files, tli, start, stop, d, "WAL-Ranges");
    DocumentGet(system, files, tli, start, stop, d, NAME);
  }

  /** A lookup among the document's members. */
  lemma {:induction false} DocumentGet(system: nat, files: seq<ManifestFile>, tli: Timeline, start: LSN, stop: LSN, d: Digest, name: string)
    ensures Get(Document(system, files, tli, start, stop, d), name) ==
            if name == "PostgreSQL-Backup-Manifest-Version" then Some(Num(2))
            else if name == "System-Identifier" then Some(Num(system))
            else if name == "Files" then Some(Arr(FileItems(files)))
            else if name == "WAL-Ranges" then Some(Arr(Item(Obj(RangeMembers(tli, start, stop)), NoItem)))
            else if name == NAME then Some(Str(HexEncode(d))) else None
  {
    FiveGets("PostgreSQL-Backup-Manifest-Version", Num(2), "System-Identifier", Num(system), "Files", Arr(FileItems(files)),
             "WAL-Ranges", Arr(Item(Obj(RangeMembers(tli, start, stop)), NoItem)), NAME, Str(HexEncode(d)), NoMember, name);
  }

  lemma {:induction false} TopNamesDiffer()
    ensures Distinct(["PostgreSQL-Backup-Manifest-Version", "System-Identifier", "Files", "WAL-Ranges", NAME])
  {
    assert "System-Identifier"[0] != NAME[0];
    assert |"PostgreSQL-Backup-Manifest-Version"| == 34;
  }
}
