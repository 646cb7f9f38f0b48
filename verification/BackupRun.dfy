/**
 A fresh full backup in archive mode onto one POSIX backend: runSimple of
 internal/backup/backup.go with its resume checkpointer. Every storage call may fail or be the
 last thing the machine does.
 */
module BackupRun {
  import opened Common
  import opened Text
  import opened Paths
  import opened Wal
  import opened Crash
  import opened Posix
  import opened WalWait
  import Scan

  /** A tar entry; wire is what the filter chain writes for plain, chunk by chunk. */
  datatype Entry =
    | Directory(name: string)
    | Special(name: string)
    | Regular(name: string, plain: Bytes, wire: seq<Bytes>)

  /** One manifest entry: the path as recorded, the cleaned name it is stored under, and both contents. */
  datatype Listed = Listed(path: string, name: string, plain: Bytes, wire: Bytes)

  /** What the bracket of the backup is. */
  datatype Bracket = Bracket(tli: Timeline, start: LSN, stop: LSN)

  /** Everything the run takes from outside. */
  datatype Env = Env(
    manifest: (seq<Listed>, Bracket) -> Bytes,
    sidecar: (seq<string>, seq<string>) -> Bytes,
    checkpoint: seq<Listed> -> Bytes,
    parseLabel: Bytes -> Option<(LSN, Timeline)>,
    archive: History,
    cancelled: nat -> bool,
    walTimeout: nat,
    segSize: int)

  // ------------------------------------------------------------------ names

  const MANIFEST := "backup_manifest"
  const MANIFEST_TMP := "backup_manifest.tmp"
  const SIDECAR := "Storage-Metadata.json"
  const CHECKPOINT := "backup_manifest.copy"
  const CHECKPOINT_TMP := "backup_manifest.copy.staging"

  function Reserved(): set<string> { {MANIFEST, MANIFEST_TMP, SIDECAR, CHECKPOINT, CHECKPOINT_TMP} }

  /** The storage names a write of this file can change. */
  ghost function Names(id: string, name: string): iset<string> { Touched(Place(id, name)) }

  lemma {:induction false} EndsIn(id: string, s: string, k: nat)
    requires k < |s| && k < |STAGING| && s[|s| - 1 - k] != STAGING[|STAGING| - 1 - k]
    ensures !Staging(Place(id, s))
  {
    var q := id + "/" + s;
    assert Place(id, s) == q;
    if |q| >= 11 {
      assert q[|q| - 11..][10 - k] == s[|s| - 1 - k];
    }
  }

  lemma {:induction false} OwnNamesAreNotStaging(id: string)
    ensures forall n :: n in Reserved() ==> !Staging(Place(id, n))
  {
    assert !Staging(Place(id, MANIFEST)) by { EndsIn(id, MANIFEST, 0); }
    assert !Staging(Place(id, MANIFEST_TMP)) by { EndsIn(id, MANIFEST_TMP, 3); }
    assert !Staging(Place(id, SIDECAR)) by { EndsIn(id, SIDECAR, 0); }
    assert !Staging(Place(id, CHECKPOINT)) by { EndsIn(id, CHECKPOINT, 0); }
    assert !Staging(Place(id, CHECKPOINT_TMP)) by { EndsIn(id, CHECKPOINT_TMP, 0); }
  }

  /** Writing one file concerns no other proper name of the directory. */
  lemma {:induction false} NamesApart(id: string, x: string, y: string)
    requires x != y && !Staging(Place(id, y))
    ensures Place(id, y) !in Names(id, x)
  {
    PlaceInjective(id, x, y);
    FamilyIsLonger(Place(id, x), Place(id, y));
  }

  // ---------------------------------------------------------- what is stored

  /** No later entry has the same path. */
  predicate LastOf(files: seq<Listed>, k: nat)
    requires k < |files|
  {
    forall j :: k < j < |files| ==> files[j].name != files[k].name
  }

  ghost predicate FileDurable(fs: Fs, id: string, f: Listed) { Durable(fs, Place(id, f.name), f.wire) }

  /** The entry decides what its path holds: no later one has that path, and pgSafe does not write it itself. */
  predicate Lasting(files: seq<Listed>, k: nat)
    requires k < |files|
  {
    LastOf(files, k) && files[k].name !in Reserved() - {MANIFEST}
  }

  /** A listed file took the manifest's name. */
  predicate Foreign(files: seq<Listed>) { Named(files, MANIFEST) }

  lemma {:induction false} ForeignPush(files: seq<Listed>, e: Listed)
    ensures Foreign(files + [e]) <==> Foreign(files) || e.name == MANIFEST
  {
    NamedPush(files, e, MANIFEST);
  }

  predicate CleansTo(e: Entry, name: string) { e.Regular? && Clean(e.name) == name }

  predicate SomeCleansTo(entries: seq<Entry>, name: string) {
    exists i :: 0 <= i < |entries| && CleansTo(entries[i], name)
  }

  predicate Named(files: seq<Listed>, name: string) {
    exists k :: 0 <= k < |files| && files[k].name == name
  }

  /** A name is stored exactly when some regular entry's name cleans to it. */
  lemma {:induction false} NamedIff(entries: seq<Entry>, name: string)
    ensures Named(ListedOf(entries), name) <==> SomeCleansTo(entries, name)
  {
    if entries != [] {
      var n := |entries| - 1;
      NamedIff(entries[..n], name);
      assert entries == entries[..n] + [entries[n]];
      ListsPush(entries[..n], entries[n]);
      SomePush(entries[..n], entries[n], name);
      if entries[n].Regular? {
        NamedPush(ListedOf(entries[..n]), Listed(entries[n].name, Clean(entries[n].name), entries[n].plain, Flatten(entries[n].wire)), name);
      }
    }
  }

  lemma {:induction false} SomePush(entries: seq<Entry>, e: Entry, name: string)
    ensures SomeCleansTo(entries + [e], name) <==> SomeCleansTo(entries, name) || CleansTo(e, name)
  {
    var all := entries + [e];
    if i :| 0 <= i < |entries| && CleansTo(entries[i], name) {
      assert all[i] == entries[i];
    }
    assert all[|entries|] == e;
  }

  lemma {:induction false} NamedPush(files: seq<Listed>, e: Listed, name: string)
    ensures Named(files + [e], name) <==> Named(files, name) || e.name == name
  {
    var all := files + [e];
    if k :| 0 <= k < |files| && files[k].name == name {
      assert all[k] == files[k];
    }
    assert all[|files|] == e;
  }

  /** The run's condition in terms of the tar stream: some regular entry's name cleans to the manifest's. */
  lemma {:induction false} ForeignIff(entries: seq<Entry>)
    ensures Foreign(ListedOf(entries)) <==> SomeCleansTo(entries, MANIFEST)
  {
    NamedIff(entries, MANIFEST);
  }

  /** Another spelling of a plain name: it passes the traversal test and is stored under that name. */
  lemma {:induction false} Dotted(id: string, name: string)
    requires '/' !in id && id != "" && id != "." && '/' !in name && '.' !in name && name != ""
    ensures !Traversal("./" + name) && Clean(id + "/" + ("./" + name)) == Place(id, name)
  {
    CleanPlain(name);
    JoinIsPlace(id, "./" + name);
    assert forall i :: 1 <= i < |"./" + name| ==> ("./" + name)[i] != '.';
  }

  lemma {:induction false} DottedManifest(id: string)
    requires '/' !in id && id != "" && id != "."
    ensures !Traversal("./" + MANIFEST) && Clean(id + "/" + ("./" + MANIFEST)) == Place(id, MANIFEST)
  {
    Dotted(id, MANIFEST);
  }

  /** The last of those files. */
  lemma {:induction false} LastForeign(files: seq<Listed>) returns (k: nat)
    requires Foreign(files)
    ensures k < |files| && files[k].name == MANIFEST && LastOf(files, k)
  {
    var n := |files| - 1;
    if files[n].name == MANIFEST {
      k := n;
    } else {
      ForeignPush(files[..n], files[n]);
      assert files[..n] + [files[n]] == files;
      k := LastForeign(files[..n]);
      assert forall j :: k < j < n ==> files[..n][j] == files[j];
    }
  }

  /** Nor does the backend stage another file under it. */
  predicate Owning(id: string, files: seq<Listed>, k: nat)
    requires k < |files|
  {
    Lasting(files, k) && !Staging(Place(id, files[k].name))
  }

  /** Every listed file is complete on disk, whatever crash follows. */
  ghost predicate Stored(fs: Fs, id: string, files: seq<Listed>) {
    forall k :: 0 <= k < |files| && Owning(id, files, k) ==> FileDurable(fs, id, files[k])
  }

  function ListedOf(entries: seq<Entry>): seq<Listed> {
    if entries == [] then []
    else
      var rest, e := ListedOf(entries[..|entries| - 1]), entries[|entries| - 1];
      if e.Regular? then rest + [Listed(e.name, Clean(e.name), e.plain, Flatten(e.wire))] else rest
  }

  /** strings.TrimRight(s, "/"). */
  function TrimSlashes(s: string): (r: string)
    ensures OnlySlashesAfter(s, r) && !EndsInSlash(r)
  {
    if s != "" && s[|s| - 1] == '/' then TrimSlashes(s[..|s| - 1]) else s
  }

  /** s is d and nothing but slashes after it. */
  predicate OnlySlashesAfter(s: string, d: string) { d <= s && forall i :: |d| <= i < |s| ==> s[i] == '/' }

  predicate EndsInSlash(d: string) { d != "" && d[|d| - 1] == '/' }

  lemma {:induction false} TrimIsUnique(s: string, d: string)
    requires OnlySlashesAfter(s, d) && !EndsInSlash(d)
    ensures d == TrimSlashes(s)
  {
    var r := TrimSlashes(s);
    assert d == s[..|d|] && r == s[..|r|];
  }

  /** The directories listed are those of the directory entries, without their trailing slashes. */
  lemma {:induction false} DirsAre(entries: seq<Entry>, d: string)
    ensures d in DirsOf(entries) <==> d != "" && d != "." && !EndsInSlash(d) && SomeDirectory(entries, d)
  {
    if entries != [] {
      var n := |entries| - 1;
      var e := entries[n];
      DirsAre(entries[..n], d);
      assert entries == entries[..n] + [e];
      ListsPush(entries[..n], e);
      SomeDirectoryPush(entries[..n], e, d);
      if !EndsInSlash(d) && OnlySlashesAfter(e.name, d) {
        TrimIsUnique(e.name, d);
      }
    }
  }

  predicate DirectoryAt(e: Entry, d: string) { e.Directory? && OnlySlashesAfter(e.name, d) }

  predicate SomeDirectory(entries: seq<Entry>, d: string) {
    exists i :: 0 <= i < |entries| && DirectoryAt(entries[i], d)
  }

  lemma {:induction false} SomeDirectoryPush(entries: seq<Entry>, e: Entry, d: string)
    ensures SomeDirectory(entries + [e], d) <==> SomeDirectory(entries, d) || DirectoryAt(e, d)
  {
    var all := entries + [e];
    if i :| 0 <= i < |entries| && DirectoryAt(entries[i], d) {
      assert all[i] == entries[i];
    }
    assert all[|entries|] == e;
  }

  function DirsOf(entries: seq<Entry>): seq<string> {
    if entries == [] then []
    else
      var rest, e := DirsOf(entries[..|entries| - 1]), entries[|entries| - 1];
      var d := TrimSlashes(e.name);
      if e.Directory? && d != "" && d != "." then rest + [d] else rest
  }

  lemma {:induction false} DurableKept(f: Fs, g: Fs, n: string, b: Bytes)
    requires Known(f) && Steady(f, g, n) && Durable(f, n, b)
    ensures Durable(g, n, b)
  {
    SteadyShows(f, g, n);
  }

  lemma {:induction false} AbsentKept(f: Fs, g: Fs, n: string)
    requires Known(f) && Steady(f, g, n) && Absent(f, n)
    ensures Absent(g, n)
  {
    SteadyShows(f, g, n);
  }

  /** One more file: it is last of its path, the others keep or lose that role. */
  lemma {:induction false} StoredPush(f: Fs, g: Fs, id: string, files: seq<Listed>, e: Listed)
    requires Known(f) && Framed(f, g, Names(id, e.name)) && Stored(f, id, files)
    requires FileDurable(g, id, e)
    ensures Stored(g, id, files + [e])
  {
    var all := files + [e];
    forall k | 0 <= k < |all| && Owning(id, all, k)
      ensures FileDurable(g, id, all[k])
    {
      if k < |files| {
        assert all[|files|] == e;
        assert forall j :: k < j < |files| ==> all[j] == files[j];
        assert Owning(id, files, k);
        NamesApart(id, e.name, files[k].name);
        DurableKept(f, g, Place(id, files[k].name), files[k].wire);
      }
    }
  }

  /** Whatever entries share a name, it holds the last one's content. */
  lemma {:induction false} LastWins(fs: Fs, id: string, files: seq<Listed>, k: nat) returns (last: nat)
    requires Stored(fs, id, files) && k < |files|
    requires files[k].name !in Reserved() - {MANIFEST} && !Staging(Place(id, files[k].name))
    ensures k <= last < |files| && files[last].name == files[k].name && LastOf(files, last)
    ensures Durable(fs, Place(id, files[k].name), files[last].wire)
  {
    last := LastNamed(files, k);
    assert Owning(id, files, last) && FileDurable(fs, id, files[last]);
  }

  lemma {:induction false} LastNamed(files: seq<Listed>, k: nat) returns (last: nat)
    requires k < |files|
    ensures k <= last < |files| && files[last].name == files[k].name && LastOf(files, last)
    decreases |files| - k
  {
    if LastOf(files, k) {
      last := k;
    } else {
      var j :| k < j < |files| && files[j].name == files[k].name;
      last := LastNamed(files, j);
    }
  }

  // ------------------------------------------------------------- storing files

  /** One file of the tar stream: Put, copy through the filter chain, Close. */
  method StoreFile(b: Backend, id: string, name: string, wire: seq<Bytes>) returns (o: Outcome)
    requires Wf(b.fs)
    modifies b
    ensures Wf(b.fs) && Framed(old(b.fs), b.fs, Names(id, name))
    ensures o == Done ==> Durable(b.fs, Place(id, name), Flatten(wire))
  {
    ghost var f := b.fs;
    StagedInTouched(Place(id, name));
    var w: Writer?;
    o, w := b.Put(Place(id, name));
    if o != Done { return; }
    var i := 0;
    while i < |wire|
      invariant 0 <= i <= |wire| && w.storage == b && w.final == Place(id, name) && !w.closed && w.Open() && fresh(w)
      invariant Framed(f, b.fs, Names(id, name))
      invariant w.Content() == Flatten(wire[..i])
    {
      ghost var g := b.fs;
      o := Luck();  // reading the tar stream
      if o == Done {
        o := w.Write(wire[i]);
        FramedChain(f, g, b.fs, Names(id, name));
      }
      if o == Failed {
        // The chain is closed all the same: whatever it still emits, then the file itself.
        var trailer: Bytes := *;
        FinishBroken(f, id, name, w, trailer);
      }
      if o != Done { return; }
      assert wire[..i + 1] == wire[..i] + [wire[i]];
      FlattenPush(wire[..i], wire[i]);
      i := i + 1;
    }
    assert wire[..i] == wire;
    ghost var g := b.fs;
    o := w.Close();
    FramedChain(f, g, b.fs, Names(id, name));
  }

  method FinishBroken(ghost f: Fs, id: string, name: string, w: Writer, trailer: Bytes)
    requires w.Open() && !w.closed && w.final == Place(id, name) && Framed(f, w.storage.fs, Names(id, name))
    modifies w, w.storage
    ensures Wf(w.storage.fs) && Framed(f, w.storage.fs, Names(id, name))
  {
    ghost var g := w.storage.fs;
    StagedInTouched(Place(id, name));
    var o := w.Write(trailer);
    FramedChain(f, g, w.storage.fs, Names(id, name));
    if o == Crashed { return; }
    g := w.storage.fs;
    o := w.Close();
    FramedChain(f, g, w.storage.fs, Names(id, name));
  }

  // ------------------------------------------------------------ checkpointer

  ghost function CheckpointNames(id: string): iset<string> {
    iset{Place(id, CHECKPOINT)} + Names(id, CHECKPOINT_TMP)
  }

  /** resumeCheckpointer: a checkpoint after every so many files, given up after one failure. */
  class Checkpointer {
    const every: nat
    var counter: nat
    var disabled: bool

    /** A negative cadence or --no-resume is a checkpointer that is off; zero is the default cadence. */
    constructor (every: int, off: bool)
      ensures this.every > 0 && counter == 0 && (disabled <==> off || every < 0)
      ensures every > 0 ==> this.every == every
      ensures every == 0 ==> this.every == 10
    {
      this.every := if every > 0 then every else 10;
      counter := 0;
      disabled := off || every < 0;
    }

    method OnAddFile(b: Backend, id: string, body: Bytes) returns (o: Outcome)
      requires Wf(b.fs) && every > 0
      modifies this, b
      ensures Wf(b.fs) && Framed(old(b.fs), b.fs, CheckpointNames(id)) && o != Failed
      ensures old(disabled) ==> disabled && counter == old(counter) && b.fs == old(b.fs)
      ensures !old(disabled) ==> counter == old(counter) + 1
      ensures counter % every != 0 ==> b.fs == old(b.fs) && disabled == old(disabled)
      ensures o == Done && !disabled && counter % every == 0 ==> Durable(b.fs, Place(id, CHECKPOINT), body)
      ensures OnlyMoreShown(old(b.fs), b.fs, Place(id, CHECKPOINT), body)
    {
      if disabled { return Done; }
      counter := counter + 1;
      if counter % every != 0 { return Done; }
      o := Flush(b, id, body);
      if o == Failed {
        disabled := true;
        o := Done;
      }
    }
  }

  /** flush: drop the prior checkpoint, write the new one aside, commit it. */
  method Flush(b: Backend, id: string, body: Bytes) returns (o: Outcome)
    requires Wf(b.fs)
    modifies b
    ensures Wf(b.fs) && Framed(old(b.fs), b.fs, CheckpointNames(id))
    ensures o == Done ==> Durable(b.fs, Place(id, CHECKPOINT), body)
    ensures OnlyMoreShown(old(b.fs), b.fs, Place(id, CHECKPOINT), body)
  {
    var final, tmp := Place(id, CHECKPOINT), Place(id, CHECKPOINT_TMP);
    ghost var f := b.fs;
    CheckpointPlaces(id);
    FlattenOne(body);
    var missing: bool;
    o, missing := b.Delete(final);
    if o == Crashed || (o == Failed && !missing) { return; }
    ghost var g := b.fs;
    o := StoreFile(b, id, CHECKPOINT_TMP, [body]);
    FramedChain(f, g, b.fs, CheckpointNames(id));
    NamesApart(id, CHECKPOINT_TMP, CHECKPOINT);
    SteadyShows(g, b.fs, final);
    if o != Done { return; }
    g := b.fs;
    o := b.Commit(tmp, final);
    FramedChain(f, g, b.fs, CheckpointNames(id));
  }

  /** A crash can show nothing new under the name but this content. */
  ghost predicate OnlyMoreShown(f: Fs, g: Fs, n: string, b: Bytes) {
    forall v :: MayShow(g, n, Some(v)) ==> v == b || MayShow(f, n, Some(v))
  }

  lemma {:induction false} CheckpointPlaces(id: string)
    ensures var final, tmp := Place(id, CHECKPOINT), Place(id, CHECKPOINT_TMP);
            final != tmp && !Staging(final) && !Staging(tmp)
  {
    OwnNamesAreNotStaging(id);
    PlaceInjective(id, CHECKPOINT_TMP, CHECKPOINT);
  }

  // ---------------------------------------------------- what a checkpoint lists

  /** No other entry has the file's name, and pgSafe and the backend do not use it either. */
  predicate Alone(id: string, all: seq<Listed>, j: nat)
    requires j < |all|
  {
    && all[j].name !in Reserved() && !Staging(Place(id, all[j].name))
    && forall i :: 0 <= i < |all| && i != j ==> all[i].name != all[j].name
  }

  /** The first n files are complete on disk, whatever crash follows. */
  ghost predicate FirstDurable(fs: Fs, id: string, all: seq<Listed>, n: nat)
    requires n <= |all|
  {
    forall j :: 0 <= j < n && Alone(id, all, j) ==> FileDurable(fs, id, all[j])
  }

  /** A checkpoint of at most the first n files. */
  predicate CheckpointOf(env: Env, all: seq<Listed>, n: nat, v: Bytes)
    requires n <= |all|
  {
    exists k :: 0 <= k <= n && v == env.checkpoint(all[..k])
  }

  /** The first n files are durable, and a crash shows a checkpoint of no others. */
  ghost predicate Checkpointed(fs: Fs, id: string, env: Env, all: seq<Listed>, n: nat) {
    && n <= |all| && FirstDurable(fs, id, all, n)
    && forall v :: MayShow(fs, Place(id, CHECKPOINT), Some(v)) ==> CheckpointOf(env, all, n, v)
  }

  /** Any checkpoint that a crash shows lists only files that every crash shows in full. */
  ghost predicate CheckpointSafe(fs: Fs, id: string, env: Env, all: seq<Listed>) {
    forall v :: MayShow(fs, Place(id, CHECKPOINT), Some(v)) ==>
      exists k :: 0 <= k <= |all| && v == env.checkpoint(all[..k]) && FirstDurable(fs, id, all, k)
  }

  lemma {:induction false} CheckpointedIsSafe(fs: Fs, id: string, env: Env, all: seq<Listed>, n: nat)
    requires Checkpointed(fs, id, env, all, n)
    ensures CheckpointSafe(fs, id, env, all)
  {
    forall v | MayShow(fs, Place(id, CHECKPOINT), Some(v))
      ensures exists k :: 0 <= k <= |all| && v == env.checkpoint(all[..k]) && FirstDurable(fs, id, all, k)
    {
      var k :| 0 <= k <= n && v == env.checkpoint(all[..k]);
      assert FirstDurable(fs, id, all, k);
    }
  }

  /** Nothing that concerns the checkpoint or those files. */
  lemma {:induction false} CheckpointedKept(f: Fs, g: Fs, id: string, env: Env, all: seq<Listed>, n: nat, but: iset<string>)
    requires Checkpointed(f, id, env, all, n) && Known(f) && Framed(f, g, but) && Place(id, CHECKPOINT) !in but
    requires forall j :: 0 <= j < n && Alone(id, all, j) ==> Place(id, all[j].name) !in but
    ensures Checkpointed(g, id, env, all, n)
  {
    SteadyShows(f, g, Place(id, CHECKPOINT));
    forall j | 0 <= j < n && Alone(id, all, j)
      ensures FileDurable(g, id, all[j])
    {
      DurableKept(f, g, Place(id, all[j].name), all[j].wire);
    }
  }

  /** The next file, stored as far as it may be. */
  lemma {:induction false} NextCheckpointed(f: Fs, g: Fs, id: string, env: Env, all: seq<Listed>, n: nat)
    requires Checkpointed(f, id, env, all, n) && n < |all| && Known(f) && Framed(f, g, Names(id, all[n].name))
    requires all[n].name != CHECKPOINT
    ensures Checkpointed(g, id, env, all, n)
    ensures FileDurable(g, id, all[n]) ==> Checkpointed(g, id, env, all, n + 1)
  {
    OwnNamesAreNotStaging(id);
    NamesApart(id, all[n].name, CHECKPOINT);
    forall j | 0 <= j < n && Alone(id, all, j)
      ensures Place(id, all[j].name) !in Names(id, all[n].name)
    {
      NamesApart(id, all[n].name, all[j].name);
    }
    CheckpointedKept(f, g, id, env, all, n, Names(id, all[n].name));
    if FileDurable(g, id, all[n]) {
      assert FirstDurable(g, id, all, n + 1);
      forall v | MayShow(g, Place(id, CHECKPOINT), Some(v))
        ensures CheckpointOf(env, all, n + 1, v)
      {
        var k :| 0 <= k <= n && v == env.checkpoint(all[..k]);
      }
    }
  }

  /** The checkpointer ran after the n-th file, with any result. */
  lemma {:induction false} FlushedCheckpointed(f: Fs, g: Fs, id: string, env: Env, all: seq<Listed>, n: nat)
    requires Checkpointed(f, id, env, all, n) && Known(f) && Framed(f, g, CheckpointNames(id))
    requires OnlyMoreShown(f, g, Place(id, CHECKPOINT), env.checkpoint(all[..n]))
    ensures Checkpointed(g, id, env, all, n)
  {
    forall j | 0 <= j < n && Alone(id, all, j)
      ensures FileDurable(g, id, all[j])
    {
      PlaceInjective(id, all[j].name, CHECKPOINT);
      NamesApart(id, CHECKPOINT_TMP, all[j].name);
      DurableKept(f, g, Place(id, all[j].name), all[j].wire);
    }
    assert CheckpointOf(env, all, n, env.checkpoint(all[..n]));
  }

  /** The files listed so far are the first of those listed in the end. */
  lemma {:induction false} ListedPrefix(entries: seq<Entry>, i: nat)
    requires i <= |entries|
    ensures ListedOf(entries[..i]) <= ListedOf(entries)
    decreases |entries| - i
  {
    if i == |entries| {
      assert entries[..i] == entries;
    } else {
      assert entries[..i + 1] == entries[..i] + [entries[i]];
      ListsPush(entries[..i], entries[i]);
      ListedPrefix(entries, i + 1);
    }
  }

  // ----------------------------------------------------------------- the run

  /** The run up to some point: what it has taken from the tar stream. */
  datatype Progress = Progress(files: seq<Listed>, dirs: seq<string>, labelSeen: bool, start: LSN, tli: Timeline)

  /** Start position and timeline after the entries: the last readable backup_label wins. */
  function LabelOf(env: Env, entries: seq<Entry>, start: LSN, tli: Timeline): (LSN, Timeline) {
    if entries == [] then (start, tli)
    else
      var e := entries[|entries| - 1];
      if e.Regular? && e.name == "backup_label" && env.parseLabel(e.plain).Some? then env.parseLabel(e.plain).value
      else LabelOf(env, entries[..|entries| - 1], start, tli)
  }

  predicate HasLabel(entries: seq<Entry>) {
    exists i :: 0 <= i < |entries| && entries[i].Regular? && entries[i].name == "backup_label"
  }

  /** Storage and progress agree after the given entries, and no manifest can be seen unless an entry took its name. */
  ghost predicate Midway(fs: Fs, id: string, files: seq<Listed>) {
    && Wf(fs) && (!Foreign(files) ==> Absent(fs, Place(id, MANIFEST)))
    && Stored(fs, id, files)
  }

  lemma {:induction false} MidwayKept(f: Fs, g: Fs, id: string, files: seq<Listed>, but: iset<string>)
    requires Midway(f, id, files) && Wf(g) && Framed(f, g, but)
    requires forall n :: n !in Reserved() - {MANIFEST} && !Staging(Place(id, n)) ==> Place(id, n) !in but
    ensures Midway(g, id, files)
  {
    OwnNamesAreNotStaging(id);
    if !Foreign(files) {
      AbsentKept(f, g, Place(id, MANIFEST));
    }
    forall k | 0 <= k < |files| && Owning(id, files, k)
      ensures FileDurable(g, id, files[k])
    {
      DurableKept(f, g, Place(id, files[k].name), files[k].wire);
    }
  }

  lemma {:induction false} CheckpointMidway(f: Fs, g: Fs, id: string, files: seq<Listed>)
    requires Midway(f, id, files) && Wf(g) && Framed(f, g, CheckpointNames(id))
    ensures Midway(g, id, files)
  {
    forall n | n !in Reserved() - {MANIFEST} && !Staging(Place(id, n))
      ensures Place(id, n) !in CheckpointNames(id)
    {
      PlaceInjective(id, n, CHECKPOINT);
      NamesApart(id, CHECKPOINT_TMP, n);
    }
    MidwayKept(f, g, id, files, CheckpointNames(id));
  }

  lemma {:induction false} OwnFileMidway(f: Fs, g: Fs, id: string, files: seq<Listed>, name: string)
    requires Midway(f, id, files) && Wf(g) && Framed(f, g, Names(id, name)) && name in Reserved() - {MANIFEST}
    ensures Midway(g, id, files)
  {
    forall n | n !in Reserved() - {MANIFEST} && !Staging(Place(id, n))
      ensures Place(id, n) !in Names(id, name)
    {
      NamesApart(id, name, n);
    }
    MidwayKept(f, g, id, files, Names(id, name));
  }

  lemma {:induction false} EntryMidway(f: Fs, g: Fs, id: string, files: seq<Listed>, e: Listed)
    requires Midway(f, id, files) && Wf(g) && Framed(f, g, Names(id, e.name))
    ensures !Foreign(files + [e]) ==> Absent(g, Place(id, MANIFEST))
    ensures FileDurable(g, id, e) ==> Midway(g, id, files + [e])
  {
    OwnNamesAreNotStaging(id);
    ForeignPush(files, e);
    if !Foreign(files + [e]) {
      NamesApart(id, e.name, MANIFEST);
      AbsentKept(f, g, Place(id, MANIFEST));
    }
    if FileDurable(g, id, e) {
      StoredPush(f, g, id, files, e);
    }
  }

  predicate Traversal(name: string) {
    HasPrefix(name, "/") || exists i :: 0 <= i < |name| - 1 && name[i] == '.' && name[i + 1] == '.'
  }

  /** A regular entry's name is relative and has no two dots in a row. */
  predicate Contained(e: Entry) { e.Regular? ==> !HasPrefix(e.name, "/") && !Scan.Occurs(e.name, "..") }

  predicate AllContained(entries: seq<Entry>) { forall k :: 0 <= k < |entries| ==> Contained(entries[k]) }

  lemma {:induction false} TraversalIs(name: string)
    ensures Traversal(name) <==> HasPrefix(name, "/") || Scan.Occurs(name, "..")
  {
    if i :| 0 <= i < |name| - 1 && name[i] == '.' && name[i + 1] == '.' {
      assert Scan.OccursAt(name, i, "..");
    }
    if i :| 0 <= i <= |name| && Scan.OccursAt(name, i, "..") {
      assert name[i..i + 2][0] == '.' && name[i..i + 2][1] == '.';
    }
  }

  /** What the loop notes about one entry once it is dealt with. */
  function Noted(env: Env, p: Progress, e: Entry): Progress {
    match e
    case Directory(name) =>
      var d := TrimSlashes(name);
      if d != "" && d != "." then p.(dirs := p.dirs + [d]) else p
    case Special(_) => p
    case Regular(name, plain, wire) =>
      var q := p.(files := p.files + [Listed(name, Clean(name), plain, Flatten(wire))]);
      if name != "backup_label" then q
      else
        match env.parseLabel(plain)
        case None => q.(labelSeen := true)
        case Some(l) => q.(labelSeen := true, start := l.0, tli := l.1)
  }

  /** The progress is that of these entries. */
  ghost predicate Reached(env: Env, p: Progress, entries: seq<Entry>, start: LSN, tli: Timeline) {
    && p.files == ListedOf(entries) && p.dirs == DirsOf(entries) && (p.labelSeen <==> HasLabel(entries))
    && (p.start, p.tli) == LabelOf(env, entries, start, tli)
  }

  lemma {:induction false} HasLabelPush(entries: seq<Entry>, e: Entry)
    ensures HasLabel(entries + [e]) <==> HasLabel(entries) || (e.Regular? && e.name == "backup_label")
  {
    var all := entries + [e];
    if i :| 0 <= i < |entries| && entries[i].Regular? && entries[i].name == "backup_label" {
      assert all[i] == entries[i];
    }
    assert all[|entries|] == e;
  }

  lemma {:induction false} ListsPush(entries: seq<Entry>, e: Entry)
    ensures ListedOf(entries + [e]) ==
            ListedOf(entries) + if e.Regular? then [Listed(e.name, Clean(e.name), e.plain, Flatten(e.wire))] else []
    ensures DirsOf(entries + [e]) ==
            DirsOf(entries) + if e.Directory? && TrimSlashes(e.name) !in {"", "."} then [TrimSlashes(e.name)] else []
  {
    assert (entries + [e])[..|entries|] == entries;
  }

  lemma {:induction false} NotedDirs(env: Env, p: Progress, e: Entry)
    ensures Noted(env, p, e).dirs ==
            p.dirs + if e.Directory? && TrimSlashes(e.name) !in {"", "."} then [TrimSlashes(e.name)] else []
  {
  }

  lemma {:induction false} NotedLabel(env: Env, p: Progress, e: Entry)
    ensures Noted(env, p, e).labelSeen <==> p.labelSeen || (e.Regular? && e.name == "backup_label")
    ensures (Noted(env, p, e).start, Noted(env, p, e).tli) ==
            if e.Regular? && e.name == "backup_label" && env.parseLabel(e.plain).Some? then env.parseLabel(e.plain).value
            else (p.start, p.tli)
  {
  }

  lemma {:induction false} LabelPush(env: Env, entries: seq<Entry>, e: Entry, start: LSN, tli: Timeline)
    ensures LabelOf(env, entries + [e], start, tli) ==
            if e.Regular? && e.name == "backup_label" && env.parseLabel(e.plain).Some? then env.parseLabel(e.plain).value
            else LabelOf(env, entries, start, tli)
  {
    assert (entries + [e])[..|entries|] == entries;
  }

  lemma {:induction false} NotedReaches(env: Env, p: Progress, entries: seq<Entry>, e: Entry, start: LSN, tli: Timeline)
    requires Reached(env, p, entries, start, tli)
    ensures Reached(env, Noted(env, p, e), entries + [e], start, tli)
  {
    ListsPush(entries, e);
    HasLabelPush(entries, e);
    LabelPush(env, entries, e, start, tli);
    NotedFiles(env, p, e);
    NotedDirs(env, p, e);
    NotedLabel(env, p, e);
  }

  /** The per-file loop. */
  method CopyEntries(b: Backend, id: string, env: Env, rc: Checkpointer, entries: seq<Entry>, start: LSN, tli: Timeline)
    returns (o: Outcome, p: Progress)
    requires Midway(b.fs, id, []) && rc.every > 0
    modifies b, rc
    ensures Wf(b.fs) && (!Foreign(ListedOf(entries)) ==> Absent(b.fs, Place(id, MANIFEST)))
    ensures o == Done ==> Reached(env, p, entries, start, tli) && Midway(b.fs, id, p.files)
    ensures o == Done ==> AllContained(entries)
    ensures Absent(old(b.fs), Place(id, CHECKPOINT)) && !Named(ListedOf(entries), CHECKPOINT) ==>
      && CheckpointSafe(b.fs, id, env, ListedOf(entries))
      && (o == Done ==> Checkpointed(b.fs, id, env, ListedOf(entries), |p.files|))
  {
    ghost var all, unshown := ListedOf(entries), Absent(b.fs, Place(id, CHECKPOINT)) && !Named(ListedOf(entries), CHECKPOINT);
    p := Progress([], [], false, start, tli);
    var i := 0;
    while i < |entries|
      invariant 0 <= i <= |entries| && Turned(b.fs, id, env, p, entries, i, start, tli, unshown)
    {
      NextTurn(env, p, entries, i, start, tli);
      ghost var before := p;
      o, p := CopyOne(b, id, env, rc, p, entries[i], all);
      if o != Done { return; }
      TurnDone(b.fs, id, env, before, p, entries, i, start, tli, unshown);
      i := i + 1;
    }
    assert entries[..i] == entries;
    SafeIfCheckpointed(b.fs, id, env, all, |p.files|);
    o := Luck();  // closing pg_basebackup
  }

  /** The first i entries are dealt with. */
  ghost predicate Turned(fs: Fs, id: string, env: Env, p: Progress, entries: seq<Entry>, i: nat, start: LSN, tli: Timeline, unshown: bool)
    requires i <= |entries|
  {
    && Reached(env, p, entries[..i], start, tli) && Midway(fs, id, p.files) && AllContained(entries[..i])
    && (unshown ==> Checkpointed(fs, id, env, ListedOf(entries), |p.files|) && !Named(ListedOf(entries), CHECKPOINT))
  }

  lemma {:induction false} TurnDone(fs: Fs, id: string, env: Env, p: Progress, q: Progress, entries: seq<Entry>, i: nat,
                                    start: LSN, tli: Timeline, unshown: bool)
    requires i < |entries| && Reached(env, p, entries[..i], start, tli) && AllContained(entries[..i])
    requires q == Noted(env, p, entries[i]) && Midway(fs, id, q.files) && Contained(entries[i])
    requires unshown ==> Checkpointed(fs, id, env, ListedOf(entries), |q.files|) && !Named(ListedOf(entries), CHECKPOINT)
    ensures Turned(fs, id, env, q, entries, i + 1, start, tli, unshown)
  {
    NextTurn(env, p, entries, i, start, tli);
    assert entries[..i + 1] == entries[..i] + [entries[i]];
  }

  lemma {:induction false} NotedFiles(env: Env, p: Progress, e: Entry)
    ensures Noted(env, p, e).files == if e.Regular? then p.files + [Listed(e.name, Clean(e.name), e.plain, Flatten(e.wire))] else p.files
  {
  }

  /** Files listed before and after entry i are listed in the end. */
  lemma {:induction false} NextEntry(files: seq<Listed>, more: seq<Listed>, entries: seq<Entry>, i: nat)
    requires i < |entries| && files == ListedOf(entries[..i]) && more == ListedOf(entries[..i + 1])
    ensures Foreign(files) || Foreign(more) ==> Foreign(ListedOf(entries))
  {
    ForeignPrefix(entries, i);
    ForeignPrefix(entries, i + 1);
  }

  /** A file listed early is listed in the end. */
  lemma {:induction false} ForeignPrefix(entries: seq<Entry>, i: nat)
    requires i <= |entries|
    ensures Foreign(ListedOf(entries[..i])) ==> Foreign(ListedOf(entries))
    decreases |entries| - i
  {
    if i == |entries| {
      assert entries[..i] == entries;
    } else {
      var e := entries[i];
      assert entries[..i + 1] == entries[..i] + [e];
      ListsPush(entries[..i], e);
      if e.Regular? {
        ForeignPush(ListedOf(entries[..i]), Listed(e.name, Clean(e.name), e.plain, Flatten(e.wire)));
      }
      ForeignPrefix(entries, i + 1);
    }
  }

  /** What one turn does to the progress. */
  lemma {:induction false} NextTurn(env: Env, p: Progress, entries: seq<Entry>, i: nat, start: LSN, tli: Timeline)
    requires i < |entries| && Reached(env, p, entries[..i], start, tli)
    ensures var q := Noted(env, p, entries[i]);
            && Reached(env, q, entries[..i + 1], start, tli) && q.files <= ListedOf(entries)
            && (Foreign(p.files) || Foreign(q.files) ==> Foreign(ListedOf(entries)))
  {
    assert entries[..i] + [entries[i]] == entries[..i + 1];
    NotedReaches(env, p, entries[..i], entries[i], start, tli);
    NextEntry(p.files, Noted(env, p, entries[i]).files, entries, i);
    ListedPrefix(entries, i + 1);
  }

  /** One turn of the loop. */
  method CopyOne(b: Backend, id: string, env: Env, rc: Checkpointer, p: Progress, e: Entry, ghost all: seq<Listed>)
    returns (o: Outcome, q: Progress)
    requires Midway(b.fs, id, p.files) && rc.every > 0 && Noted(env, p, e).files <= all
    modifies b, rc
    ensures Checkpointed(old(b.fs), id, env, all, |p.files|) && !Named(all, CHECKPOINT) ==>
      CheckpointSafe(b.fs, id, env, all) && (o == Done ==> Checkpointed(b.fs, id, env, all, |q.files|))
    ensures q == Noted(env, p, e) && Wf(b.fs)
    ensures !Foreign(p.files) && !Foreign(q.files) ==> Absent(b.fs, Place(id, MANIFEST))
    ensures o == Done ==> Midway(b.fs, id, q.files) && Contained(e)
  {
    q := Noted(env, p, e);
    NotedFiles(env, p, e);
    SafeIfCheckpointed(b.fs, id, env, all, |p.files|);
    o := Luck();  // reading the next header
    if o != Done { return; }
    if e.Regular? {
      TraversalIs(e.name);
      o := CopyRegular(b, id, env, rc, p.files, e.name, e.plain, e.wire, all);
    }
  }

  method CopyRegular(b: Backend, id: string, env: Env, rc: Checkpointer, files: seq<Listed>,
                     name: string, plain: Bytes, wire: seq<Bytes>, ghost all: seq<Listed>) returns (o: Outcome)
    requires Midway(b.fs, id, files) && rc.every > 0
    requires files + [Listed(name, Clean(name), plain, Flatten(wire))] <= all
    modifies b, rc
    ensures Wf(b.fs)
    ensures Checkpointed(old(b.fs), id, env, all, |files|) && !Named(all, CHECKPOINT) ==>
      CheckpointSafe(b.fs, id, env, all) && (o == Done ==> Checkpointed(b.fs, id, env, all, |files| + 1))
    ensures o == Done && !rc.disabled && rc.counter % rc.every == 0 ==>
      Durable(b.fs, Place(id, CHECKPOINT), env.checkpoint(files + [Listed(name, Clean(name), plain, Flatten(wire))]))
    ensures !Foreign(files + [Listed(name, Clean(name), plain, Flatten(wire))]) ==> Absent(b.fs, Place(id, MANIFEST))
    ensures o == Done ==> !Traversal(name) && Midway(b.fs, id, files + [Listed(name, Clean(name), plain, Flatten(wire))])
  {
    var e := Listed(name, Clean(name), plain, Flatten(wire));
    ForeignPush(files, e);
    ghost var f := b.fs;
    SafeIfCheckpointed(f, id, env, all, |files|);
    if Traversal(name) { return Failed; }
    o := StoreFile(b, id, e.name, wire);
    EntryMidway(f, b.fs, id, files, e);
    EntryCheckpointed(f, b.fs, id, env, all, files, e);
    if o != Done { return; }
    ghost var g := b.fs;
    o := rc.OnAddFile(b, id, env.checkpoint(files + [e]));
    CheckpointMidway(g, b.fs, id, files + [e]);
    MoreCheckpointed(g, b.fs, id, env, all, files + [e]);
  }

  lemma {:induction false} SafeIfCheckpointed(fs: Fs, id: string, env: Env, all: seq<Listed>, n: nat)
    ensures Checkpointed(fs, id, env, all, n) ==> CheckpointSafe(fs, id, env, all)
  {
    if Checkpointed(fs, id, env, all, n) {
      CheckpointedIsSafe(fs, id, env, all, n);
    }
  }

  lemma {:induction false} EntryCheckpointed(f: Fs, g: Fs, id: string, env: Env, all: seq<Listed>, files: seq<Listed>, e: Listed)
    requires Known(f) && Framed(f, g, Names(id, e.name)) && files + [e] <= all
    ensures Checkpointed(f, id, env, all, |files|) && !Named(all, CHECKPOINT) ==>
              && CheckpointSafe(g, id, env, all)
              && (FileDurable(g, id, e) ==> Checkpointed(g, id, env, all, |files| + 1))
  {
    assert all[|files|] == (files + [e])[|files|] == e;
    if Checkpointed(f, id, env, all, |files|) && !Named(all, CHECKPOINT) {
      NextCheckpointed(f, g, id, env, all, |files|);
      CheckpointedIsSafe(g, id, env, all, |files|);
    }
  }

  lemma {:induction false} MoreCheckpointed(f: Fs, g: Fs, id: string, env: Env, all: seq<Listed>, files: seq<Listed>)
    requires Known(f) && Framed(f, g, CheckpointNames(id)) && files <= all
    requires OnlyMoreShown(f, g, Place(id, CHECKPOINT), env.checkpoint(files))
    ensures Checkpointed(f, id, env, all, |files|) ==>
              Checkpointed(g, id, env, all, |files|) && CheckpointSafe(g, id, env, all)
  {
    assert all[..|files|] == files;
    if Checkpointed(f, id, env, all, |files|) {
      FlushedCheckpointed(f, g, id, env, all, |files|);
      CheckpointedIsSafe(g, id, env, all, |files|);
    }
  }

  /** What a visible manifest promises. */
  ghost predicate Promised(fs: Fs, id: string, env: Env, entries: seq<Entry>, br: Bracket,
                           segments: seq<string>, clock: nat, end: nat)
    requires SegmentSize(env.segSize)
  {
    && Stored(fs, id, ListedOf(entries))
    && Durable(fs, Place(id, SIDECAR), env.sidecar(DirsOf(entries), segments))
    && HasLabel(entries)
    && (br.start < br.stop ==> ExactCover(segments, br.tli, br.start, br.stop, env.segSize))
    && forall s :: s in segments ==> Seen(env.archive, br.tli, s, clock, end)
  }

  /**
   runSimple. Wherever it stops, a manifest that can be seen is complete and so is all it lists,
   provided no tar entry took its name; with such an entry the run never succeeds, and once the
   copying is over every crash shows that entry's bytes as the manifest. A checkpoint that can be
   seen lists only files that every crash shows in full.
   */
  method RunSimple(b: Backend, id: string, env: Env, rc: Checkpointer, entries: seq<Entry>,
                   checkpoint: LSN, timeline: Timeline, stop: LSN, clock: nat)
    returns (o: Outcome, br: Bracket, segments: seq<string>, end: nat, copied: bool)
    requires Wf(b.fs) && Absent(b.fs, Place(id, MANIFEST)) && rc.every > 0 && SegmentSize(env.segSize)
    modifies b, rc
    ensures !Foreign(ListedOf(entries)) ==> forall v :: MayShow(b.fs, Place(id, MANIFEST), Some(v)) ==>
      && (br.start, br.tli) == LabelOf(env, entries, checkpoint, timeline) && br.stop == stop
      && v == env.manifest(ListedOf(entries), br)
      && Promised(b.fs, id, env, entries, br, segments, clock, end)
    ensures o == Done ==> copied && Durable(b.fs, Place(id, MANIFEST), env.manifest(ListedOf(entries), br))
    ensures copied ==> Stored(b.fs, id, ListedOf(entries)) && AllContained(entries)
    ensures Foreign(ListedOf(entries)) ==> o != Done && (copied ==> Impostor(b.fs, id, ListedOf(entries)))
    ensures Absent(old(b.fs), Place(id, CHECKPOINT)) && !Named(ListedOf(entries), CHECKPOINT) ==>
      CheckpointSafe(b.fs, id, env, ListedOf(entries))
  {
    br, segments, end, copied := Bracket(timeline, checkpoint, stop), [], clock, false;
    var p: Progress;
    o, p := CopyEntries(b, id, env, rc, entries, checkpoint, timeline);
    if o != Done { return; }
    SafeIfCheckpointed(b.fs, id, env, p.files, |p.files|);
    copied := true;
    if Foreign(p.files) {
      ForeignIsShown(b.fs, id, p.files);
    }
    if !p.labelSeen { return Failed, br, segments, end, copied; }
    o := Luck();  // the stop LSN query
    if o != Done { return; }
    br := Bracket(p.tli, p.start, stop);
    segments := WALSegmentsBetween(br.tli, br.start, stop, env.segSize);
    var w: Wait;
    w, end := WaitForWAL(env.archive, env.cancelled, clock, env.walTimeout, br.tli, segments);
    if !w.Arrived? { return Failed, br, segments, end, copied; }
    o := Luck();  // hashing the WAL segments
    if o != Done { return; }
    ghost var f := b.fs;
    o := Publish(b, id, p.files, env.manifest(p.files, br), env.sidecar(p.dirs, segments));
    PublishedCheckpoint(f, b.fs, id, env, p.files);
    if Foreign(p.files) {
      ForeignIsShown(b.fs, id, p.files);
    }
  }

  /** Every crash shows the bytes of a tar entry under the manifest's name. */
  ghost predicate Impostor(fs: Fs, id: string, files: seq<Listed>) {
    exists k :: 0 <= k < |files| && files[k].name == MANIFEST && Durable(fs, Place(id, MANIFEST), files[k].wire)
  }

  lemma {:induction false} ForeignIsShown(fs: Fs, id: string, files: seq<Listed>)
    requires Stored(fs, id, files) && Foreign(files)
    ensures Impostor(fs, id, files) && At(fs, Place(id, MANIFEST)).Some?
  {
    var k := LastForeign(files);
    OwnNamesAreNotStaging(id);
    assert Owning(id, files, k) && FileDurable(fs, id, files[k]);
    DurableIff(fs, Place(id, MANIFEST), files[k].wire);
    AtInTg(fs, Place(id, MANIFEST));
  }

  /** The last three writes: manifest aside, sidecar, commit. */
  method Publish(b: Backend, id: string, files: seq<Listed>, body: Bytes, sidecar: Bytes) returns (o: Outcome)
    requires Midway(b.fs, id, files)
    modifies b
    ensures Stored(b.fs, id, files)
    ensures !Foreign(files) ==> forall v :: MayShow(b.fs, Place(id, MANIFEST), Some(v)) ==>
      v == body && Durable(b.fs, Place(id, SIDECAR), sidecar)
    ensures o == Done ==> !Foreign(files) && Durable(b.fs, Place(id, MANIFEST), body)
    ensures Framed(old(b.fs), b.fs, PublishNames(id))
  {
    ghost var f := b.fs;
    PublishPlaces(id);
    FlattenOne(body);
    FlattenOne(sidecar);
    o := StoreFile(b, id, MANIFEST_TMP, [body]);
    OwnFileMidway(f, b.fs, id, files, MANIFEST_TMP);
    if o != Done { return; }
    ghost var g := b.fs;
    o := StoreFile(b, id, SIDECAR, [sidecar]);
    OwnFileMidway(g, b.fs, id, files, SIDECAR);
    if o != Done { return; }
    DurableKept(g, b.fs, Place(id, MANIFEST_TMP), body);
    ghost var h := b.fs;
    FramedChain(f, g, h, PublishNames(id));
    if Foreign(files) {
      ForeignIsShown(h, id, files);
    }
    o := b.Commit(Place(id, MANIFEST_TMP), Place(id, MANIFEST));
    FramedChain(f, h, b.fs, PublishNames(id));
    if !Foreign(files) {
      CommitKeepsStored(h, b.fs, id, files, sidecar);
    }
  }

  ghost function PublishNames(id: string): iset<string> {
    Names(id, MANIFEST_TMP) + Names(id, SIDECAR) + iset{Place(id, MANIFEST_TMP), Place(id, MANIFEST)}
  }

  /** Publishing concerns neither the checkpoint nor the files it lists. */
  lemma {:induction false} PublishedCheckpoint(f: Fs, g: Fs, id: string, env: Env, all: seq<Listed>)
    requires Known(f) && Framed(f, g, PublishNames(id))
    ensures Checkpointed(f, id, env, all, |all|) ==> CheckpointSafe(g, id, env, all)
  {
    CheckpointIsOther(id);
    NotPublished(id, CHECKPOINT);
    forall j | 0 <= j < |all| && Alone(id, all, j)
      ensures Place(id, all[j].name) !in PublishNames(id)
    {
      NotPublished(id, all[j].name);
    }
    if Checkpointed(f, id, env, all, |all|) {
      CheckpointedKept(f, g, id, env, all, |all|, PublishNames(id));
      CheckpointedIsSafe(g, id, env, all, |all|);
    }
  }

  lemma {:induction false} CheckpointIsOther(id: string)
    ensures CHECKPOINT != MANIFEST && CHECKPOINT != MANIFEST_TMP && CHECKPOINT != SIDECAR && !Staging(Place(id, CHECKPOINT))
  {
    CheckpointPlaces(id);
  }

  lemma {:induction false} NotPublished(id: string, name: string)
    requires name != MANIFEST && name != MANIFEST_TMP && name != SIDECAR && !Staging(Place(id, name))
    ensures Place(id, name) !in PublishNames(id)
  {
    NamesApart(id, MANIFEST_TMP, name);
    NamesApart(id, SIDECAR, name);
    PlaceInjective(id, name, MANIFEST_TMP);
    PlaceInjective(id, name, MANIFEST);
  }

  lemma {:induction false} PublishPlaces(id: string)
    ensures var final, tmp, side := Place(id, MANIFEST), Place(id, MANIFEST_TMP), Place(id, SIDECAR);
            && final != tmp && !Staging(final) && !Staging(tmp) && !Staging(side)
            && tmp !in Names(id, SIDECAR)
  {
    OwnNamesAreNotStaging(id);
    PlaceInjective(id, MANIFEST_TMP, MANIFEST);
    NamesApart(id, SIDECAR, MANIFEST_TMP);
  }

  lemma {:induction false} CommitKeepsStored(f: Fs, g: Fs, id: string, files: seq<Listed>, sidecar: Bytes)
    requires Midway(f, id, files) && !Foreign(files) && Framed(f, g, iset{Place(id, MANIFEST_TMP), Place(id, MANIFEST)})
    requires Durable(f, Place(id, SIDECAR), sidecar)
    ensures Stored(g, id, files) && Durable(g, Place(id, SIDECAR), sidecar)
  {
    PlaceInjective(id, SIDECAR, MANIFEST);
    PlaceInjective(id, SIDECAR, MANIFEST_TMP);
    DurableKept(f, g, Place(id, SIDECAR), sidecar);
    forall k | 0 <= k < |files| && Owning(id, files, k)
      ensures FileDurable(g, id, files[k])
    {
      PlaceInjective(id, files[k].name, MANIFEST);
      PlaceInjective(id, files[k].name, MANIFEST_TMP);
      DurableKept(f, g, Place(id, files[k].name), files[k].wire);
    }
  }
}
