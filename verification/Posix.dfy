/**
 The POSIX backend as a sequence of system calls. Every call may go through, fail, or be the
 point where the machine stops, so what a method promises whatever it returns holds at every
 crash point of that method.
 */
module Posix {
  import opened Common
  import opened Text
  import opened Crash

  /** How a call ended: nil error, an error, or power loss. */
  datatype Outcome = Done | Failed | Crashed

  method Luck() returns (o: Outcome) { o := *; }

  /** Other names show nothing new. */
  ghost predicate Framed(f: Fs, g: Fs, but: iset<string>) {
    forall n :: n !in but ==> Steady(f, g, n)
  }

  /** The names writing a file can change: its own, and those of files staged for it. */
  ghost function Touched(path: string): iset<string> { iset n | Family(path, n) }

  ghost function Staged(path: string): iset<string> { iset n | Family(path + STAGING, n) }

  lemma {:induction false} StagedInTouched(path: string)
    ensures Staged(path) <= Touched(path) && path !in Staged(path)
  {
    forall n | n in Staged(path)
      ensures n in Touched(path)
    {
      FamilyGrows(path, n);
    }
    FamilyIsLonger(path + STAGING, path);
  }

  /** A crash leaves what a crash in f could leave at this name, or the complete content b. */
  ghost predicate OldOr(f: Fs, g: Fs, n: string, b: Bytes) {
    forall v :: MayShow(g, n, v) ==> MayShow(f, n, v) || v == Some(b)
  }

  /** Every single crash image has the complete content under one of the two names. */
  ghost predicate ReachableAt(fs: Fs, p: string, q: string, b: Bytes) {
    forall mask, torn :: |mask| == |fs.pending| ==>
      Shown(fs, mask, torn, p) == Some(b) || Shown(fs, mask, torn, q) == Some(b)
  }

  lemma {:induction false} FramedChain(f: Fs, g: Fs, h: Fs, but: iset<string>)
    requires Framed(f, g, but) && Framed(g, h, but)
    ensures Framed(f, h, but)
  {
    forall n | n !in but
      ensures Steady(f, h, n)
    {
      assert Steady(f, g, n) && Steady(g, h, n);
    }
  }

  // ---------------------------------------------------------------- closing a writer

  /** What holds at every point of Close, begun in f on file i with content b. */
  ghost predicate Closing(f: Fs, g: Fs, i: Inode, b: Bytes, final: string) {
    && Wf(g) && Framed(f, g, Touched(final))
    && Tg(g, final) <= Tg(f, final) + {Some(i)}
    && (Some(i) in Tg(g, final) ==> Complete(g, i, b))
    && forall j :: j in f.files && j != i ==> SameFile(f, g, j)
  }

  predicate Complete(fs: Fs, i: Inode, b: Bytes) { i in fs.files && fs.files[i] == File(b, true) }

  lemma {:induction false} StagingDiffers(final: string)
    ensures final + STAGING != final && Staging(final + STAGING)
  {
    assert |final + STAGING| == |final| + 11;
    assert (final + STAGING)[|final|..] == STAGING;
  }

  lemma {:induction false} CloseBegins(f: Fs, i: Inode, b: Bytes, final: string)
    requires Wf(f) && At(f, final + STAGING) == Some(i)
    ensures Closing(f, f, i, b, final)
  {
    StagingDiffers(final);
    FamilyIsLonger(final + STAGING, final);
  }

  lemma {:induction false} CloseSyncsFile(f: Fs, i: Inode, b: Bytes, final: string)
    requires Wf(f) && At(f, final + STAGING) == Some(i) && i in f.files && f.files[i].data == b
    ensures var g := SyncFile(f, i); Closing(f, g, i, b, final) && At(g, final + STAGING) == Some(i) && Complete(g, i, b)
  {
    StagingDiffers(final);
    StagedInTouched(final);
    WriteKeeps(f, final + STAGING, i, File(b, true));
    assert Tg(SyncFile(f, i), final) == Tg(f, final);
  }

  lemma {:induction false} CloseSyncsDir(f: Fs, g: Fs, i: Inode, b: Bytes, final: string)
    requires Closing(f, g, i, b, final)
    ensures var h := SyncDir(g, DirOf(final)); Closing(f, h, i, b, final) && Tg(h, final) == {At(g, final)}
    ensures At(SyncDir(g, DirOf(final)), final + STAGING) == At(g, final + STAGING)
  {
    SyncDirKeeps(g, DirOf(final));
    SyncDirAt(g, DirOf(final), final);
    FramedChain(f, g, SyncDir(g, DirOf(final)), Touched(final));
    assert Steady(g, SyncDir(g, DirOf(final)), final + STAGING);
  }

  lemma {:induction false} CloseRenames(f: Fs, g: Fs, i: Inode, b: Bytes, final: string)
    requires Closing(f, g, i, b, final) && At(g, final + STAGING) == Some(i) && Complete(g, i, b)
    ensures var h := Rename(g, final + STAGING, final); Closing(f, h, i, b, final) && At(h, final) == Some(i)
  {
    var tmp := final + STAGING;
    StagingDiffers(final);
    RenameKeeps(g, tmp, final);
    RenameAt(g, tmp, final, final);
    StagedInTouched(final);
    FramedChain(f, g, Rename(g, tmp, final), Touched(final));
  }

  lemma {:induction false} ClosingIsAtomic(f: Fs, g: Fs, i: Inode, b: Bytes, final: string)
    requires Known(f) && Closing(f, g, i, b, final)
    ensures OldOr(f, g, final, b)
    ensures Tg(g, final) == {Some(i)} ==> Durable(g, final, b)
  {
    OldOrNew(f, g, final, i, b);
    DurableIff(g, final, b);
  }

  // ---------------------------------------------------------------- committing

  lemma {:induction false} DurableReachable(fs: Fs, tmp: string, final: string, b: Bytes)
    requires Durable(fs, tmp, b)
    ensures ReachableAt(fs, tmp, final, b)
  {
    forall mask, torn | |mask| == |fs.pending|
      ensures Shown(fs, mask, torn, tmp) == Some(b) || Shown(fs, mask, torn, final) == Some(b)
    {
      assert MayShow(fs, tmp, Shown(fs, mask, torn, tmp));
    }
  }

  /** The renaming is kept by the crash, or the crash is one of the state before. */
  lemma {:induction false} RenameReachable(f: Fs, tmp: string, final: string, b: Bytes)
    requires At(f, tmp).Some? && Durable(f, tmp, b) && tmp != final
    ensures ReachableAt(Rename(f, tmp, final), tmp, final, b)
  {
    var g, k := Rename(f, tmp, final), |f.pending|;
    DurableIff(f, tmp, b);
    AtInTg(f, tmp);
    DurableReachable(f, tmp, final, b);
    forall mask, torn | |mask| == |g.pending|
      ensures Shown(g, mask, torn, tmp) == Some(b) || Shown(g, mask, torn, final) == Some(b)
    {
      assert g.pending[..k] == f.pending;
      if !mask[k] {
        assert Shown(g, mask, torn, tmp) == Shown(f, mask[..k], torn, tmp);
        assert Shown(g, mask, torn, final) == Shown(f, mask[..k], torn, final);
      }
    }
  }

  lemma {:induction false} CommitRenames(f: Fs, tmp: string, final: string, b: Bytes)
    requires Known(f) && At(f, tmp).Some? && tmp != final && Durable(f, tmp, b)
    ensures var g := Rename(f, tmp, final); ReachableAt(g, tmp, final, b) && OldOr(f, g, final, b)
  {
    var g := Rename(f, tmp, final);
    RenameReachable(f, tmp, final, b);
    DurableIff(f, tmp, b);
    AtInTg(f, tmp);
    RenameAt(f, tmp, final, final);
    OldOrNew(f, g, final, At(f, tmp).value, b);
  }

  lemma {:induction false} CommitSyncs(f: Fs, tmp: string, final: string, b: Bytes)
    requires Known(f) && At(f, tmp).Some? && Durable(f, tmp, b) && tmp != final
    ensures var h := SyncDir(Rename(f, tmp, final), DirOf(final));
            Durable(h, final, b) && ReachableAt(h, tmp, final, b) && OldOr(f, h, final, b)
  {
    var g := Rename(f, tmp, final);
    var h := SyncDir(g, DirOf(final));
    RenameAt(f, tmp, final, final);
    DurableIff(f, tmp, b);
    AtInTg(f, tmp);
    SyncDirAt(g, DirOf(final), final);
    DurableIff(h, final, b);
    DurableReachable(h, final, tmp, b);
    assert ReachableAt(h, tmp, final, b);
  }

  /** Until its directory is synced a rename to a new name can vanish, and afterwards it cannot. */
  lemma {:induction false} UnsyncedRenameCanVanish(f: Fs, tmp: string, final: string, b: Bytes)
    requires Known(f) && Durable(f, tmp, b) && At(f, tmp).Some? && tmp != final && None in Tg(f, final)
    ensures MayShow(Rename(f, tmp, final), final, None)
    ensures Durable(SyncDir(Rename(f, tmp, final), DirOf(final)), final, b)
  {
    var g := Rename(f, tmp, final);
    RenameAt(f, tmp, final, final);
    assert None in Tg(g, final) && ContentOf(g, None, None);
    MayShowIff(g, final, None);
    CommitSyncs(f, tmp, final, b);
  }

  lemma {:induction false} RemovedShows(f: Fs, n: string)
    requires Wf(f)
    ensures forall v :: MayShow(Remove(f, n), n, v) ==> MayShow(f, n, v) || v == None
  {
    var g := Remove(f, n);
    RemoveAt(f, n, n);
    forall v | MayShow(g, n, v)
      ensures MayShow(f, n, v) || v == None
    {
      MayShowIff(g, n, v);
      var t :| t in Tg(g, n) && ContentOf(g, t, v);
      if t != None {
        assert t in Tg(f, n) && ContentOf(f, t, v);
        MayShowIff(f, n, v);
      }
    }
  }

  // ---------------------------------------------------------------- the backend

  class Backend {
    var fs: Fs

    constructor (fs: Fs)
      ensures this.fs == fs
    {
      this.fs := fs;
    }

    method Put(path: string) returns (o: Outcome, w: Writer?)
      requires Wf(fs)
      modifies this
      ensures Wf(fs) && Framed(old(fs), fs, Staged(path))
      ensures o == Done <==> w != null
      ensures o == Done ==> fresh(w) && w.storage == this && w.final == path && !w.closed && w.Open() && w.Content() == []
    {
      w := null;
      var tmp := path + STAGING;
      o := Luck();  // mkdir, open
      if o != Done { return; }
      CreateKeeps(fs, tmp);
      fs := Create(fs, tmp);
      o := Luck();  // write_temp hook
      if o != Done { return; }
      w := new Writer(this, At(fs, tmp).value, path);
    }

    /** Refuses an existing final; otherwise renames and syncs the directory. */
    method Commit(tmp: string, final: string) returns (o: Outcome)
      requires Wf(fs)
      modifies this
      ensures Known(fs) && (!Staging(final) ==> Wf(fs)) && Framed(old(fs), fs, iset{tmp, final})
      ensures At(old(fs), final).Some? ==> fs == old(fs) && o != Done
      ensures forall b :: Durable(old(fs), tmp, b) ==>
        && ReachableAt(fs, tmp, final, b) && OldOr(old(fs), fs, final, b)
        && (o == Done ==> Durable(fs, final, b))
    {
      ghost var f := fs;
      forall b | Durable(f, tmp, b)
        ensures ReachableAt(f, tmp, final, b)
      {
        DurableReachable(f, tmp, final, b);
      }
      o := Luck();  // stat
      if o != Done { return; }
      if At(fs, final).Some? { return Failed; }
      o := Luck();  // rename, which fails when tmp is missing
      if o != Done { return; }
      if At(fs, tmp).None? { return Failed; }
      RenameKnown(fs, tmp, final);
      if !Staging(final) {
        RenameKeeps(fs, tmp, final);
      }
      fs := Rename(fs, tmp, final);
      ghost var g := fs;
      forall b | Durable(f, tmp, b)
        ensures ReachableAt(g, tmp, final, b) && OldOr(f, g, final, b)
      {
        CommitRenames(f, tmp, final, b);
      }
      o := Luck();  // open(dir), fsync(dir)
      if o != Done { return; }
      SyncDirKeeps(g, DirOf(final));
      fs := SyncDir(fs, DirOf(final));
      FramedChain(f, g, fs, iset{tmp, final});
      forall b | Durable(f, tmp, b)
        ensures ReachableAt(fs, tmp, final, b) && OldOr(f, fs, final, b) && Durable(fs, final, b)
      {
        CommitSyncs(f, tmp, final, b);
      }
      o := Luck();  // commit_fsync hook
    }

    /** Removes a file, telling a missing one apart; a failure to sync the directory is swallowed. */
    method Delete(path: string) returns (o: Outcome, missing: bool)
      requires Wf(fs)
      modifies this
      ensures Wf(fs) && Framed(old(fs), fs, iset{path})
      ensures missing ==> o == Failed && At(fs, path) == None && fs == old(fs)
      ensures o == Done ==> At(fs, path) == None
      ensures forall v :: MayShow(fs, path, v) ==> MayShow(old(fs), path, v) || v == None
    {
      missing := false;
      o := Luck();  // unlink
      if o != Done { return; }
      if At(fs, path) == None { return Failed, true; }
      ghost var f := fs;
      RemoveKeeps(fs, path);
      RemoveAt(fs, path, path);
      RemovedShows(f, path);
      fs := Remove(fs, path);
      ghost var g := fs;
      o := Luck();  // open(dir), fsync(dir)
      if o == Done {
        SyncDirKeeps(fs, DirOf(path));
        fs := SyncDir(fs, DirOf(path));
        SteadyShows(g, fs, path);
        FramedChain(f, g, fs, iset{path});
      } else if o == Failed {
        o := Done;
      }
    }
  }

  class Writer {
    const storage: Backend
    const ino: Inode
    const final: string
    var closed: bool

    constructor (storage: Backend, ino: Inode, final: string)
      ensures this.storage == storage && this.ino == ino && this.final == final && !closed
    {
      this.storage, this.ino, this.final := storage, ino, final;
      closed := false;
    }

    /** The staging file is still the one this writer opened. */
    ghost predicate Open()
      reads storage
    {
      && Wf(storage.fs)
      && At(storage.fs, final + STAGING) == Some(ino) && ino in storage.fs.files
    }

    ghost function Content(): Bytes
      reads storage
      requires Open()
    {
      storage.fs.files[ino].data
    }

    /** A failed write may have stored any part of the bytes. */
    method Write(b: Bytes) returns (o: Outcome)
      requires Open() && !closed
      modifies storage
      ensures Open() && Framed(old(storage.fs), storage.fs, Staged(final))
      ensures old(Content()) <= Content() <= old(Content()) + b
      ensures o == Done ==> Content() == old(Content()) + b
    {
      o := Luck();
      var k: int := *;
      var n := if o != Done && 0 <= k <= |b| then k else |b|;
      var old_ := storage.fs.files[ino];
      WriteKeeps(storage.fs, final + STAGING, ino, File(old_.data + b[..n], false));
      storage.fs := Append(storage.fs, ino, b[..n]);
    }

    /** fsync file, close, open and fsync directory, rename, fsync directory. */
    method Close() returns (o: Outcome)
      requires !closed ==> Open()
      modifies this`closed, storage
      ensures closed
      ensures old(closed) ==> o == Done && storage.fs == old(storage.fs)
      ensures !old(closed) ==>
        && Wf(storage.fs) && Framed(old(storage.fs), storage.fs, Touched(final))
        && OldOr(old(storage.fs), storage.fs, final, old(Content()))
        && (o == Done ==> Durable(storage.fs, final, old(Content())))
    {
      if closed { return Done; }
      var tmp, dir := final + STAGING, DirOf(final);
      ghost var f, b := storage.fs, Content();
      closed := true;
      CloseBegins(f, ino, b, final);
      ClosingIsAtomic(f, f, ino, b, final);
      o := Luck();  // fsync(file)
      if o != Done { return; }
      storage.fs := SyncFile(storage.fs, ino);
      CloseSyncsFile(f, ino, b, final);
      ClosingIsAtomic(f, storage.fs, ino, b, final);
      o := Luck();  // close(file), open(dir), fsync(dir)
      if o != Done { return; }
      CloseSyncsDir(f, storage.fs, ino, b, final);
      storage.fs := SyncDir(storage.fs, dir);
      ClosingIsAtomic(f, storage.fs, ino, b, final);
      o := Luck();  // rename
      if o != Done { return; }
      CloseRenames(f, storage.fs, ino, b, final);
      storage.fs := Rename(storage.fs, tmp, final);
      ClosingIsAtomic(f, storage.fs, ino, b, final);
      o := Luck();  // fsync(dir)
      if o != Done { return; }
      CloseSyncsDir(f, storage.fs, ino, b, final);
      storage.fs := SyncDir(storage.fs, dir);
      ClosingIsAtomic(f, storage.fs, ino, b, final);
      o := Luck();  // fsync_dir_post hook
    }
  }
}
