/** The text that Finalize of internal/manifest/manifest.go prints, and the loops that print it. */
module ManifestText {
  import opened Text
  import opened Wal
  import opened Scan
  import opened Manifest

  /** A rendered modification time. */
  type Stamp = s: string | AllSafe(s) && |s| != 17 witness ""

  datatype ManifestFile = ManifestFile(path: string, size: nat, digest: Digest, stamp: Stamp, incremental: bool,
                                       repoSize: nat, repoDigest: Digest)

  /** Decimal digits. */
  function Dec(n: nat): (s: string)
    ensures '"' !in s
  {
    if n < 10 then [(48 + n) as char] else Dec(n / 10) + [(48 + n % 10) as char]
  }

  // ---------------------------------------------------------------- the document

  /** Rendered fields so far and the unquoted text after them. */
  datatype Doc = Doc(fields: seq<Field>, trail: string)

  function HeadFields(system: nat): seq<Field> {
    [Plain("{ ", "PostgreSQL-Backup-Manifest-Version"),
     Plain(": 2,\n", "System-Identifier"),
     Plain(": " + Dec(system) + ",\n", "Files")]
  }

  function EntryFields(before: string, f: ManifestFile): seq<Field> {
    [Plain(before + "\n{ ", "Path"), Path(": ", f.path), Plain(", ", "Size"),
     Plain(": " + Dec(f.size) + ", ", "Last-Modified"), Plain(": ", f.stamp)]
  }

  function ChecksumFields(f: ManifestFile): seq<Field> {
    [Plain(", ", "Checksum-Algorithm"), Plain(": ", "SHA256"), Plain(", ", "Checksum"), Plain(": ", HexEncode(f.digest))]
    + if f.incremental then [Plain(", ", "Incremental")] else []
  }

  function FileFields(before: string, f: ManifestFile): seq<Field> { EntryFields(before, f) + ChecksumFields(f) }

  function FileEnd(f: ManifestFile): string { if f.incremental then ": true }" else " }" }

  /** How one file becomes fields, given the unquoted text before it. */
  type Form = (string, ManifestFile) -> seq<Field>

  function FilesDoc(form: Form, head: Doc, files: seq<ManifestFile>): Doc {
    if files == [] then head
    else
      var n := |files| - 1;
      var doc, f := FilesDoc(form, head, files[..n]), files[n];
      Doc(doc.fields + form(if n == 0 then doc.trail else doc.trail + ",", f), FileEnd(f))
  }

  function Head(system: nat): Doc { Doc(HeadFields(system), ": [") }

  function RangeFields(before: string, tli: Timeline, start: LSN, stop: LSN): seq<Field> {
    [Plain(before + "],\n", "WAL-Ranges"), Plain(": [\n{ ", "Timeline"), Plain(": " + Dec(tli) + ", ", "Start-LSN"),
     Plain(": ", LsnString(start)), Plain(", ", "End-LSN"), Plain(": ", LsnString(stop))]
  }

  const CLOSING := " }\n],\n"

  function AllFields(system: nat, files: seq<ManifestFile>, tli: Timeline, start: LSN, stop: LSN): seq<Field> {
    var doc := FilesDoc(FileFields, Head(system), files);
    doc.fields + RangeFields(if files == [] then doc.trail else doc.trail + "\n", tli, start, stop)
  }

  /** Everything the closing checksum covers. */
  function Covered(system: nat, files: seq<ManifestFile>, tli: Timeline, start: LSN, stop: LSN): string {
    Render(EscapeChar, AllFields(system, files, tli, start, stop)) + CLOSING
  }

  lemma {:induction false} RenderConcat<T>(text: Field -> seq<T>, a: seq<Field>, b: seq<Field>)
    ensures RenderBy(text, a + b) == RenderBy(text, a) + RenderBy(text, b)
  {
    if b == [] {
      assert a + b == a;
    } else {
      var n := |b| - 1;
      assert (a + b)[..|a + b| - 1] == a + b[..n];
      RenderConcat(text, a, b[..n]);
    }
  }

  method WriteField(f: Field) returns (s: string)
    ensures s == FieldText(EscapeChar, f)
  {
    match f
    case Plain(pad, body) => s := pad + Quoted(body);
    case Path(pad, path) =>
      var quoted := JsonString(path);
      s := pad + quoted;
  }

  /** Writing the fields one by one. */
  method WriteFields(fields: seq<Field>) returns (buf: string)
    ensures buf == Render(EscapeChar, fields)
  {
    buf := "";
    for i := 0 to |fields|
      invariant buf == Render(EscapeChar, fields[..i])
    {
      assert fields[..i + 1][..i] == fields[..i];
      var s := WriteField(fields[i]);
      buf := buf + s;
    }
    assert fields[..|fields|] == fields;
  }

  /** The loop over the files; head is what has been written before it. */
  method WriteFiles(form: Form, head: Doc, files: seq<ManifestFile>) returns (buf: string, trail: string)
    ensures buf == Render(EscapeChar, FilesDoc(form, head, files).fields) && trail == FilesDoc(form, head, files).trail
  {
    buf := WriteFields(head.fields);
    trail := head.trail;
    for i := 0 to |files|
      invariant buf == Render(EscapeChar, FilesDoc(form, head, files[..i]).fields)
      invariant trail == FilesDoc(form, head, files[..i]).trail
    {
      assert files[..i + 1][..i] == files[..i];
      if i > 0 {
        trail := trail + ",";
      }
      var item := WriteFields(form(trail, files[i]));
      ghost var doc := FilesDoc(form, head, files[..i]);
      assert FilesDoc(form, head, files[..i + 1]) == Doc(doc.fields + form(trail, files[i]), FileEnd(files[i]));
      RenderConcat(Renderer(EscapeChar), doc.fields, form(trail, files[i]));
      buf, trail := buf + item, FileEnd(files[i]);
    }
    assert files[..|files|] == files;
  }
}
