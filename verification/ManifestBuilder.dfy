/** Builder of internal/manifest/manifest.go: the accumulated files and the manifest they finalize to. */
module ManifestBuilder {
  import opened Common
  import opened Text
  import opened Wal
  import opened Scan
  import opened Manifest
  import opened ManifestText
  import opened ManifestReader
  import opened ManifestRoundTrip

  class Builder {
    const system: nat
    var tli: Timeline
    var start: LSN
    var files: seq<ManifestFile>

    constructor (system: nat, tli: Timeline, start: LSN)
      ensures this.system == system && this.tli == tli && this.start == start && files == []
    {
      this.system, this.tli, this.start, files := system, tli, start, [];
    }

    method UpdateStartLSN(lsn: LSN, timeline: Timeline)
      modifies this`start, this`tli
      ensures start == lsn && tli == timeline
    {
      start, tli := lsn, timeline;
    }

    /** AddFile and AddIncrementalFile: no repository digest yet. */
    method AddFile(path: string, size: nat, digest: Digest, stamp: Stamp, incremental: bool, zero: Digest)
      modifies this`files
      ensures files == old(files) + [ManifestFile(path, size, digest, stamp, incremental, 0, zero)]
    {
      files := files + [ManifestFile(path, size, digest, stamp, incremental, 0, zero)];
    }

    /** The repository digest goes to the file added last, and to no other. */
    method SetLatestRepoChecksum(repoSize: nat, repoDigest: Digest)
      modifies this`files
      ensures |files| == |old(files)|
      ensures forall i :: 0 <= i < |files| ==>
        files[i] == if i == |files| - 1 then old(files)[i].(repoSize := repoSize, repoDigest := repoDigest) else old(files)[i]
    {
      if files != [] {
        var n := |files| - 1;
        files := files[n := files[n].(repoSize := repoSize, repoDigest := repoDigest)];
      }
    }

    /** Finalize: the covered text, then the field that holds its digest; a reader gets the builder's fields back. */
    method Finalize(hash: TextHash, stop: LSN) returns (text: string)
      ensures text == Covered(system, files, tli, start, stop) +
                      Trailer(NAME, COLON, hash(Covered(system, files, tli, start, stop)))
      ensures ReadManifest(text) ==
        Some(Contents(system, EntriesOf(files), tli, start, stop, hash(Covered(system, files, tli, start, stop))))
    {
      var buf, trail := WriteFiles(FileFields, Head(system), files);
      if |files| > 0 {
        trail := trail + "\n";
      }
      var ranges := WriteFields(RangeFields(trail, tli, start, stop));
      RenderConcat(Renderer(EscapeChar), FilesDoc(FileFields, Head(system), files).fields, RangeFields(trail, tli, start, stop));
      buf := buf + ranges + CLOSING;
      text := buf + Trailer(NAME, COLON, hash(buf));
      FinalizedManifestReadsBack(system, files, tli, start, stop, hash(buf));
    }
  }

  // ------------------------------------------------------- what the fields contain

  /** All the proofs need of the marker's name. */
  predicate MarkerLike(name: string) { |name| == 17 && name[0] == 'M' }

  /** Unquoted text that cannot be taken for the marker's name. */
  predicate PadOk(s: string) { s != "" && '"' !in s && s[0] != 'M' }

  predicate BodyOk(s: string) { '"' !in s && (|s| == 17 ==> s[0] != 'M') }

  predicate PlainOk(f: Field) { f.Plain? && PadOk(f.pad) && BodyOk(f.body) }

  lemma {:induction false} PlainFieldsOk(name: string, sep: string, fields: seq<Field>)
    requires MarkerLike(name) && forall i :: 0 <= i < |fields| ==> PlainOk(fields[i])
    ensures FieldsOk(name, sep, fields)
  {
  }

  lemma {:induction false} FieldsOkConcat(name: string, sep: string, a: seq<Field>, b: seq<Field>)
    requires FieldsOk(name, sep, a) && FieldsOk(name, sep, b) && (b != [] ==> b[0].pad != sep)
    ensures FieldsOk(name, sep, a + b)
  {
    var c := a + b;
    forall i | 0 < i < |c| && c[i].pad == sep
      ensures c[i - 1].Plain?
    {
      if i > |a| {
        assert c[i] == b[i - |a|] && c[i - 1] == b[i - |a| - 1];
      }
    }
  }

  lemma {:induction false} HeadOk(system: nat)
    ensures forall i :: 0 <= i < |HeadFields(system)| ==> PlainOk(HeadFields(system)[i])
  {
    var f := HeadFields(system);
    assert PlainOk(f[0]) by { VersionIsPlain(); }
    assert PlainOk(f[1]);
    assert PlainOk(f[2]) by { assert PadOk(": " + Dec(system) + ",\n"); }
  }

  lemma {:induction false} VersionIsPlain()
    ensures BodyOk("PostgreSQL-Backup-Manifest-Version")
  {
    var s := "PostgreSQL-Backup-Manifest-Version";
    assert |s| == 34;
    forall i | 0 <= i < 34
      ensures s[i] != '"'
    {
    }
  }

  /** Five fields of which the second is the path. */
  lemma {:induction false} EntryFieldsOk(name: string, before: string, f: ManifestFile)
    requires MarkerLike(name) && PadOk(before)
    ensures FieldsOk(name, COLON, EntryFields(before, f))
  {
    assert PadOk(before + "\n{ ") && PadOk(": " + Dec(f.size) + ", ");
  }

  lemma {:induction false} ChecksumFieldsOk(f: ManifestFile)
    ensures forall i :: 0 <= i < |ChecksumFields(f)| ==> PlainOk(ChecksumFields(f)[i])
  {
    HexIsLower(f.digest);
    assert BodyOk(HexEncode(f.digest));
  }

  lemma {:induction false} FileFieldsOk(name: string, before: string, f: ManifestFile)
    requires MarkerLike(name) && PadOk(before)
    ensures FieldsOk(name, COLON, FileFields(before, f))
  {
    EntryFieldsOk(name, before, f);
    ChecksumFieldsOk(f);
    PlainFieldsOk(name, COLON, ChecksumFields(f));
    FieldsOkConcat(name, COLON, EntryFields(before, f), ChecksumFields(f));
  }

  lemma {:induction false} LsnIsPlain(l: LSN)
    ensures BodyOk(LsnString(l))
  {
    assert !IsHexDigit('"') && !IsHexDigit('M');
    var s := LsnString(l);
    assert IsHexDigit(s[0]);
  }

  lemma {:induction false} RangeFieldsOk(before: string, tli: Timeline, start: LSN, stop: LSN)
    requires PadOk(before)
    ensures forall i :: 0 <= i < |RangeFields(before, tli, start, stop)| ==> PlainOk(RangeFields(before, tli, start, stop)[i])
    ensures |RangeFields(before, tli, start, stop)[0].pad| > 2
  {
    assert PadOk(before + "],\n") && PadOk(": " + Dec(tli) + ", ");
    LsnIsPlain(start);
    LsnIsPlain(stop);
  }

  /** A form whose fields are sound and hold exactly the file's path. */
  ghost predicate SoundForm(name: string, sep: string, form: Form) {
    forall before, f :: PadOk(before) ==>
      && FieldsOk(name, sep, form(before, f)) && form(before, f) != [] && form(before, f)[0].pad != sep
      && (HasBad(name, form(before, f)) <==> BadPath(name, f.path))
  }

  lemma {:induction false} FileFieldsSound(name: string)
    requires MarkerLike(name)
    ensures SoundForm(name, COLON, FileFields)
  {
    forall before, f | PadOk(before)
      ensures FieldsOk(name, COLON, FileFields(before, f)) && FileFields(before, f)[0].pad != COLON
      ensures HasBad(name, FileFields(before, f)) <==> BadPath(name, f.path)
    {
      FileFieldsOk(name, before, f);
      OnlyPath(name, before, f);
    }
  }

  lemma {:induction false} OnlyPath(name: string, before: string, f: ManifestFile)
    ensures |FileFields(before, f)[0].pad| > 2
    ensures HasBad(name, FileFields(before, f)) <==> BadPath(name, f.path)
  {
    var fields := FileFields(before, f);
    assert fields[1] == Path(": ", f.path);
    assert forall i :: 0 <= i < |fields| && fields[i].Path? ==> i == 1;
  }

  lemma {:induction false} HasBadConcat(name: string, a: seq<Field>, b: seq<Field>)
    ensures HasBad(name, a + b) <==> HasBad(name, a) || HasBad(name, b)
  {
    var c := a + b;
    if i :| 0 <= i < |a| && a[i].Path? && BadPath(name, a[i].path) {
      assert c[i] == a[i];
    }
    if i :| 0 <= i < |b| && b[i].Path? && BadPath(name, b[i].path) {
      assert c[|a| + i] == b[i];
    }
    if i :| 0 <= i < |c| && c[i].Path? && BadPath(name, c[i].path) {
      assert c[i] == if i < |a| then a[i] else b[i - |a|];
    }
  }

  predicate BadFile(name: string, files: seq<ManifestFile>) {
    exists i :: 0 <= i < |files| && BadPath(name, files[i].path)
  }

  lemma {:induction false} BadFilePush(name: string, files: seq<ManifestFile>)
    requires files != []
    ensures BadFile(name, files) <==> BadFile(name, files[..|files| - 1]) || BadPath(name, files[|files| - 1].path)
  {
    var n := |files| - 1;
    if i :| 0 <= i < n && BadPath(name, files[..n][i].path) {
      assert BadPath(name, files[i].path);
    }
    if i :| 0 <= i < |files| && BadPath(name, files[i].path) {
      assert i < n ==> files[..n][i] == files[i];
    }
  }

  lemma {:induction false} FilesDocOk(name: string, sep: string, form: Form, head: Doc, files: seq<ManifestFile>)
    requires SoundForm(name, sep, form)
    requires FieldsOk(name, sep, head.fields) && !HasBad(name, head.fields) && PadOk(head.trail) && head.fields != []
    ensures var doc := FilesDoc(form, head, files);
            && FieldsOk(name, sep, doc.fields) && PadOk(doc.trail) && doc.fields != []
            && (HasBad(name, doc.fields) <==> BadFile(name, files))
  {
    if files != [] {
      var n := |files| - 1;
      FilesDocOk(name, sep, form, head, files[..n]);
      var doc, f := FilesDoc(form, head, files[..n]), files[n];
      var before := if n == 0 then doc.trail else doc.trail + ",";
      assert PadOk(before);
      FieldsOkConcat(name, sep, doc.fields, form(before, f));
      HasBadConcat(name, doc.fields, form(before, f));
      BadFilePush(name, files);
    }
  }

  lemma {:induction false} NoPathNoBad(name: string, fields: seq<Field>)
    requires forall i :: 0 <= i < |fields| ==> PlainOk(fields[i])
    ensures !HasBad(name, fields)
  {
  }

  lemma {:induction false} AllFieldsOk(name: string, system: nat, files: seq<ManifestFile>, tli: Timeline, start: LSN, stop: LSN)
    requires MarkerLike(name)
    ensures var fields := AllFields(system, files, tli, start, stop);
            FieldsOk(name, COLON, fields) && fields != [] && (HasBad(name, fields) <==> BadFile(name, files))
  {
    var head, doc := Head(system), FilesDoc(FileFields, Head(system), files);
    var before := if files == [] then doc.trail else doc.trail + "\n";
    HeadOk(system);
    PlainFieldsOk(name, COLON, head.fields);
    NoPathNoBad(name, head.fields);
    FileFieldsSound(name);
    FilesDocOk(name, COLON, FileFields, head, files);
    WithRanges(name, doc.fields, before, tli, start, stop);
  }

  lemma {:induction false} WithRanges(name: string, fields: seq<Field>, before: string, tli: Timeline, start: LSN, stop: LSN)
    requires MarkerLike(name) && PadOk(before) && FieldsOk(name, COLON, fields)
    ensures var all := fields + RangeFields(before, tli, start, stop);
            FieldsOk(name, COLON, all) && (HasBad(name, all) <==> HasBad(name, fields))
  {
    var ranges := RangeFields(before, tli, start, stop);
    RangeFieldsOk(before, tli, start, stop);
    PlainFieldsOk(name, COLON, ranges);
    FieldsOkConcat(name, COLON, fields, ranges);
    HasBadConcat(name, fields, ranges);
    NoPathNoBad(name, ranges);
  }

  /**
   Printer and checker agree on every builder without a path that spells the marker; with one, the
   checker hashes only the text before that path and accepts only on a collision.
   */
  lemma {:induction false} FinalizedManifestChecks(hash: TextHash, system: nat, files: seq<ManifestFile>, tli: Timeline, start: LSN, stop: LSN)
    ensures var pre := Covered(system, files, tli, start, stop);
            var ok := ChecksumOK(hash, pre + Trailer(NAME, COLON, hash(pre)));
            if BadFile(NAME, files)
            then Index(pre, Quoted(NAME)).Some? && (ok <==> hash(pre[..Index(pre, Quoted(NAME)).value]) == hash(pre))
            else ok
  {
    AllFieldsOk(NAME, system, files, tli, start, stop);
    NameIsSafe();
    PrintedChecks(NAME, COLON, hash, AllFields(system, files, tli, start, stop), CLOSING);
  }

  /** Text put in place of a manifest's own, free of the marker, is accepted only if it hashes the same. */
  lemma {:induction false} TamperingIsRejected(hash: TextHash, system: nat, files: seq<ManifestFile>, tli: Timeline, start: LSN, stop: LSN, text: string)
    requires !Occurs(text + "\"", Quoted(NAME))
    ensures var pre := Covered(system, files, tli, start, stop);
            ChecksumOK(hash, text + Trailer(NAME, COLON, hash(pre))) <==> hash(text) == hash(pre)
  {
    NameIsSafe();
    CheckerIsExact(NAME, COLON, hash, text, hash(Covered(system, files, tli, start, stop)));
  }
}
