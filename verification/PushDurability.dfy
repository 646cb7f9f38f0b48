/**
 Concurrent pushers over a file system that can lose power: the steps of ArchivePush carried out by
 the system calls the POSIX backend makes for them. Survival of a segment is what the file system
 can show after a crash.
 */
module PushDurability {
  import opened Common
  import opened Text
  import opened Wal
  import opened Crash
  import Posix
  import A = Archive
  import P = ArchivePush

  // ------------------------------------------------------------- the system calls

  /** A writer created, written, synced, closed and renamed, with both directory syncs. */
  function PutFile(fs: Fs, name: string, b: Bytes): Fs {
    var staging, dir := name + STAGING, DirOf(name);
    var created := Create(fs, staging);
    if At(created, staging).Some? && At(created, staging).value in created.files then
      var i := At(created, staging).value;
      var synced := SyncDir(SyncFile(Append(created, i, b), i), dir);
      if At(synced, staging).Some? then SyncDir(Rename(synced, staging, name), dir) else synced
    else fs
  }

  /** What a step asks of the backend. */
  datatype Effect = Nothing | Putting(name: string, body: Bytes) | Syncing(dir: string) | Dropping(name: string)
                  | Moving(source: string, target: string)

  function EffectOf(hash: Hash, jobs: seq<P.Job>, a: P.Step): Effect
    requires a.p < |jobs|
  {
    var j := jobs[a.p];
    var key, tmp, dir := P.Key(hash, j), P.Tmp(hash, j), A.SegmentDir(j.tli);
    match a
    case PutOk(_) => Putting(tmp, j.src)
    case PutFail(_, Some(left)) => Putting(tmp, left)
    case Rename(_) => Moving(tmp, key)
    case Sync(_) => Syncing(dir)
    case Flush(_) => Syncing(dir)
    case Delete(_, false) => Dropping(tmp)
    case _ => Nothing
  }

  /** The system calls it becomes. */
  function Performed(fs: Fs, e: Effect): Fs {
    match e
    case Nothing => fs
    case Putting(name, body) => PutFile(fs, name, body)
    case Syncing(dir) => SyncDir(fs, dir)
    case Dropping(name) => if At(fs, name).Some? then Remove(fs, name) else fs
    case Moving(source, target) => if At(fs, source).Some? then Rename(fs, source, target) else fs
  }

  /** What a step does to the disk. */
  function Disk(hash: Hash, jobs: seq<P.Job>, fs: Fs, a: P.Step): Fs
    requires a.p < |jobs|
  {
    Performed(fs, EffectOf(hash, jobs, a))
  }

  /** The disk after a run. */
  function DiskAfter(hash: Hash, jobs: seq<P.Job>, s: P.State, fs: Fs, steps: seq<P.Step>): Fs
    requires P.Runs(hash, jobs, s, steps)
    decreases |steps|
  {
    if steps == [] then fs
    else DiskAfter(hash, jobs, P.Apply(hash, jobs, s, steps[0]), Disk(hash, jobs, fs, steps[0]), steps[1..])
  }

  // ------------------------------------------------------------ what a Put leaves

  /** The name leads to a synced file of this content. */
  predicate Holds(fs: Fs, t: Option<Inode>, b: Bytes) {
    t.Some? && t.value in fs.files && fs.files[t.value] == File(b, true)
  }

  /** The writer is open on a file that holds b. */
  lemma {:induction false} PutOpens(fs: Fs, name: string, b: Bytes)
    requires Wf(fs)
    ensures var created := Create(fs, name + STAGING);
            && At(created, name + STAGING).Some? && At(created, name + STAGING).value in created.files
            && var g := Append(created, At(created, name + STAGING).value, b);
               && Wf(g) && At(g, name + STAGING) == At(created, name + STAGING)
               && g.files[At(g, name + STAGING).value].data == b
               && (forall n :: !Family(name + STAGING, n) ==> Steady(fs, g, n) && Tg(g, n) == Tg(fs, n))
  {
    var staging := name + STAGING;
    var created := Create(fs, staging);
    Posix.StagingDiffers(name);
    CreateKeeps(fs, staging);
    var i := At(created, staging).value;
    var g := Append(created, i, b);
    WriteKeeps(created, staging, i, File([] + b, false));
    assert [] + b == b;
    forall n | !Family(staging, n)
      ensures Steady(fs, g, n) && Tg(g, n) == Tg(fs, n)
    {
      CreateElsewhere(fs, staging, n);
      assert Steady(fs, created, n) && Steady(created, g, n);
      assert Tg(g, n) == Tg(created, n);
    }
  }

  lemma {:induction false} CreateElsewhere(fs: Fs, n: string, m: string)
    requires Wf(fs) && m != n
    ensures Tg(Create(fs, n), m) == Tg(fs, m)
  {
    if At(fs, n) == None {
      CreateFresh(fs, n, m);
    }
  }

  /** After a Put: the file is durable, its directory is settled, other directories are as before. */
  lemma {:induction false} PutFileMeans(fs: Fs, name: string, b: Bytes)
    requires Wf(fs)
    ensures var g := PutFile(fs, name, b);
            && Wf(g) && At(g, name).Some? && Holds(g, At(g, name), b)
            && forall n :: !Family(name, n) ==>
                 && Steady(fs, g, n)
                 && Tg(g, n) == if DirOf(n) == DirOf(name) then {At(fs, n)} else Tg(fs, n)
  {
    PutOpens(fs, name, b);
    var created := Create(fs, name + STAGING);
    var i := At(created, name + STAGING).value;
    var f := Append(created, i, b);
    PutCloses(f, i, b, name);
    var g := Closed(f, i, name);
    assert g == PutFile(fs, name, b);
    forall n | !Family(name, n)
      ensures Steady(fs, g, n) && Tg(g, n) == if DirOf(n) == DirOf(name) then {At(fs, n)} else Tg(fs, n)
    {
      NotStagedFor(name, n);
      ClosedElsewhere(fs, f, i, name, n);
    }
  }

  lemma {:induction false} NotStagedFor(name: string, n: string)
    requires !Family(name, n)
    ensures !Family(name + STAGING, n)
  {
    if Family(name + STAGING, n) {
      FamilyGrows(name, n);
    }
  }

  /** Both directory syncs around the rename, after the file itself was synced. */
  function Closed(f: Fs, i: Inode, name: string): Fs
    requires i in f.files
  {
    var f2 := SyncDir(SyncFile(f, i), DirOf(name));
    if At(f2, name + STAGING).Some? then SyncDir(Rename(f2, name + STAGING, name), DirOf(name)) else f2
  }

  lemma {:induction false} PutCloses(f: Fs, i: Inode, b: Bytes, name: string)
    requires Wf(f) && At(f, name + STAGING) == Some(i) && i in f.files && f.files[i].data == b
    ensures At(SyncDir(SyncFile(f, i), DirOf(name)), name + STAGING).Some?
    ensures var g := Closed(f, i, name);
            Wf(g) && At(g, name).Some? && Holds(g, At(g, name), b) && forall n :: !Family(name, n) ==> Steady(f, g, n)
  {
    Posix.CloseSyncsFile(f, i, b, name);
    var f1 := SyncFile(f, i);
    Posix.CloseSyncsDir(f, f1, i, b, name);
    var f2 := SyncDir(f1, DirOf(name));
    Posix.CloseRenames(f, f2, i, b, name);
    var f3 := Rename(f2, name + STAGING, name);
    Posix.CloseSyncsDir(f, f3, i, b, name);
    SyncDirAt(f3, DirOf(name), name);
    AtInTg(Closed(f, i, name), name);
  }

  lemma {:induction false} ClosedElsewhere(fs: Fs, f: Fs, i: Inode, name: string, n: string)
    requires !Family(name, n) && i in f.files && Steady(fs, f, n) && Tg(f, n) == Tg(fs, n)
    requires At(SyncDir(SyncFile(f, i), DirOf(name)), name + STAGING).Some? && Steady(f, Closed(f, i, name), n)
    ensures var g := Closed(f, i, name);
            Steady(fs, g, n) && Tg(g, n) == if DirOf(n) == DirOf(name) then {At(fs, n)} else Tg(fs, n)
  {
    var staging, dir := name + STAGING, DirOf(name);
    var f1 := SyncFile(f, i);
    var f2 := SyncDir(f1, dir);
    var f3 := Rename(f2, staging, name);
    var g := SyncDir(f3, dir);
    assert n != staging by { assert staging[..|staging| - |STAGING|] == name; Posix.StagingDiffers(name); }
    assert Tg(f1, n) == Tg(f, n) && At(f1, n) == At(f, n);
    SyncDirAt(f1, dir, n);
    RenameAt(f2, staging, name, n);
    RenameElsewhere(f2, staging, name, n);
    SyncDirAt(f3, dir, n);
    if DirOf(n) != dir {
      FlushTargets(f1.dir, f1.pending, dir, n);
      FlushTargets(f3.dir, f3.pending, dir, n);
    }
  }

  // ---------------------------------------------------------------- the invariant

  /** A key some push of an archivable file can have. */
  ghost predicate IsKey(k: string) {
    exists tli: Timeline, seg: string, d: Digest :: A.IsArchivable(seg) && k == A.SegmentKey(tli, seg, d)
  }

  /** What the disk has under an archive key. */
  ghost predicate KeyLinked(s: P.State, fs: Fs, k: string) {
    if k in s.store then
      && Holds(fs, At(fs, k), s.store[k])
      && (forall t :: t in Tg(fs, k) ==> t == None || Holds(fs, t, s.store[k]))
      && (None in Tg(fs, k) <==> k !in s.settled)
    else Tg(fs, k) == {None} && At(fs, k) == None
  }

  /** A staged file that is about to be committed. */
  ghost predicate StagedLinked(hash: Hash, jobs: seq<P.Job>, s: P.State, fs: Fs, p: nat)
    requires p < |jobs| == |s.pcs|
  {
    s.pcs[p].AtCommitStat? || s.pcs[p].AtRename? ==> Holds(fs, At(fs, P.Tmp(hash, jobs[p])), jobs[p].src)
  }

  ghost predicate Linked(hash: Hash, jobs: seq<P.Job>, s: P.State, fs: Fs) {
    && |s.pcs| == |jobs| && Wf(fs)
    && (forall k :: IsKey(k) ==> KeyLinked(s, fs, k))
    && (forall p :: 0 <= p < |jobs| ==> StagedLinked(hash, jobs, s, fs, p))
  }

  lemma {:induction false} KeyShape(k: string)
    requires IsKey(k)
    ensures P.Final(k) && !Staging(k)
  {
    var tli: Timeline, seg: string, d: Digest :| A.IsArchivable(seg) && k == A.SegmentKey(tli, seg, d);
    A.CommittedIsNotTmp(tli, seg, d);
    P.PrefixInWal(tli, seg, k);
    var hex := HexEncode(d);
    assert k[|k| - 1] == hex[63] && IsHexDigit(hex[63]) && !IsHexDigit('p');
    if |k| >= 11 {
      assert k[|k| - 11..][10] == k[|k| - 1];
    }
  }

  lemma {:induction false} JobKeys(hash: Hash, jobs: seq<P.Job>, p: nat)
    requires P.JobsOk(jobs) && p < |jobs|
    ensures IsKey(P.Key(hash, jobs[p])) && !Staging(P.Tmp(hash, jobs[p])) && !P.Final(P.Tmp(hash, jobs[p]))
    ensures DirOf(P.Tmp(hash, jobs[p])) == A.SegmentDir(jobs[p].tli) == DirOf(P.Key(hash, jobs[p]))
    ensures forall q :: 0 <= q < |jobs| && q != p ==> P.Tmp(hash, jobs[q]) != P.Tmp(hash, jobs[p])
  {
    var tmp := P.Tmp(hash, jobs[p]);
    P.KeyFacts(hash, jobs, p);
    HexHasNoSlash(jobs[p].rnd);
    P.KeyInItsDir(hash, jobs[p]);
    if |tmp| >= 11 {
      assert tmp[|tmp| - 11..][7] == tmp[|tmp| - 4..][0] == '.';
    }
  }

  /** A proper name is in nobody's staging family but its own. */
  lemma {:induction false} ProperNames(n: string, m: string)
    requires !Staging(m) && m != n
    ensures !Family(n, m)
  {
  }

  // ------------------------------------------------------------- each kind of step

  /** Nothing about the key changed, on disk or in the archive. */
  lemma {:induction false} KeyUnmoved(s: P.State, fs: Fs, t: P.State, g: Fs, k: string)
    requires KeyLinked(s, fs, k) && Steady(fs, g, k) && Tg(g, k) == Tg(fs, k)
    requires (k in s.store <==> k in t.store) && (k in s.store ==> t.store[k] == s.store[k])
    requires k in s.settled <==> k in t.settled
    ensures KeyLinked(t, g, k)
  {
    AtInTg(g, k);
  }

  /** The directory of the key was synced. */
  lemma {:induction false} KeySettles(s: P.State, fs: Fs, t: P.State, g: Fs, k: string)
    requires KeyLinked(s, fs, k) && Steady(fs, g, k) && Tg(g, k) == {At(fs, k)}
    requires (k in s.store <==> k in t.store) && (k in s.store ==> t.store[k] == s.store[k])
    requires k in t.settled <==> k in t.store
    ensures KeyLinked(t, g, k)
  {
    AtInTg(g, k);
  }

  /** A staged file whose name the disk did not touch. */
  lemma {:induction false} StagedUnmoved(hash: Hash, jobs: seq<P.Job>, s: P.State, fs: Fs, t: P.State, g: Fs, q: nat)
    requires q < |jobs| == |s.pcs| == |t.pcs| && StagedLinked(hash, jobs, s, fs, q) && Steady(fs, g, P.Tmp(hash, jobs[q]))
    requires t.pcs[q].AtCommitStat? || t.pcs[q].AtRename? ==> s.pcs[q].AtCommitStat? || s.pcs[q].AtRename?
    ensures StagedLinked(hash, jobs, t, g, q)
  {
    AtInTg(g, P.Tmp(hash, jobs[q]));
  }

  /** The archive's bookkeeping of a step that does not rename, seen from one archive key. */
  lemma {:induction false} KeyBookkeeping(hash: Hash, jobs: seq<P.Job>, s: P.State, a: P.Step, k: string)
    requires P.JobsOk(jobs) && P.Enabled(hash, jobs, s, a) && !a.Rename? && IsKey(k) && P.SettledOk(hash, jobs, s)
    ensures var t := P.Apply(hash, jobs, s, a);
            && (k in s.store <==> k in t.store) && (k in s.store ==> t.store[k] == s.store[k])
            && (k in t.settled <==> k in s.settled || (Syncs(jobs, a, DirOf(k)) && k in s.store))
  {
    KeyShape(k);
    P.KeyFacts(hash, jobs, a.p);
  }

  /** The step syncs this directory. */
  predicate Syncs(jobs: seq<P.Job>, a: P.Step, dir: string)
    requires a.p < |jobs|
  {
    (a.PutOk? || (a.PutFail? && a.left.Some?) || a.Sync? || a.Flush?) && A.SegmentDir(jobs[a.p].tli) == dir
  }

  predicate SyncsDir(e: Effect, dir: string) {
    match e
    case Putting(name, _) => DirOf(name) == dir
    case Syncing(d) => d == dir
    case _ => false
  }

  /** The effect is on other names; at most the directory of this one is synced. */
  lemma {:induction false} EffectElsewhere(fs: Fs, e: Effect, n: string)
    requires Wf(fs) && !e.Moving? && (e.Putting? || e.Dropping? ==> !Family(e.name, n))
    ensures var g := Performed(fs, e);
            Steady(fs, g, n) && Tg(g, n) == if SyncsDir(e, DirOf(n)) then {At(fs, n)} else Tg(fs, n)
  {
    match e
    case Nothing =>
    case Moving(_, _) =>
    case Putting(name, body) => PutFileMeans(fs, name, body);
    case Syncing(dir) =>
      SyncDirAt(fs, dir, n);
      FlushTargets(fs.dir, fs.pending, dir, n);
    case Dropping(name) =>
      RemoveAt(fs, name, n);
      RemoveElsewhere(fs, name, n);
  }

  lemma {:induction false} EffectStaysWf(fs: Fs, e: Effect)
    requires Wf(fs) && (e.Moving? ==> e.source != e.target && !Staging(e.target))
    ensures Wf(Performed(fs, e))
  {
    match e
    case Nothing =>
    case Putting(name, body) => PutFileMeans(fs, name, body);
    case Syncing(dir) => SyncDirKeeps(fs, dir);
    case Dropping(name) => RemoveKeeps(fs, name);
    case Moving(source, target) =>
      if At(fs, source).Some? {
        RenameKeeps(fs, source, target);
      }
  }

  /** What the effect of a step can be. */
  lemma {:induction false} EffectShape(hash: Hash, jobs: seq<P.Job>, a: P.Step, dir: string)
    requires P.JobsOk(jobs) && a.p < |jobs|
    ensures var e, key, tmp := EffectOf(hash, jobs, a), P.Key(hash, jobs[a.p]), P.Tmp(hash, jobs[a.p]);
            && (SyncsDir(e, dir) <==> Syncs(jobs, a, dir))
            && (e.Moving? <==> a.Rename?) && (e.Moving? ==> e == Moving(tmp, key) && tmp != key && !Staging(key))
            && (e.Putting? || e.Dropping? ==> e.name == tmp)
  {
    JobKeys(hash, jobs, a.p);
    KeyShape(P.Key(hash, jobs[a.p]));
  }

  /** The own staged file of the pusher that moved. */
  lemma {:induction false} OwnStaged(hash: Hash, jobs: seq<P.Job>, s: P.State, fs: Fs, a: P.Step)
    requires P.JobsOk(jobs) && P.Enabled(hash, jobs, s, a) && Wf(fs) && StagedLinked(hash, jobs, s, fs, a.p)
    ensures StagedLinked(hash, jobs, P.Apply(hash, jobs, s, a), Disk(hash, jobs, fs, a), a.p)
  {
    var tmp := P.Tmp(hash, jobs[a.p]);
    if a.PutOk? {
      PutFileMeans(fs, tmp, jobs[a.p].src);
    } else if a.Flush? {
      SyncDirAt(fs, A.SegmentDir(jobs[a.p].tli), tmp);
      AtInTg(Disk(hash, jobs, fs, a), tmp);
    }
  }

  lemma {:induction false} QuietKey(hash: Hash, jobs: seq<P.Job>, s: P.State, fs: Fs, a: P.Step, k: string)
    requires P.JobsOk(jobs) && P.Enabled(hash, jobs, s, a) && !a.Rename? && P.SettledOk(hash, jobs, s)
    requires Wf(fs) && IsKey(k) && KeyLinked(s, fs, k)
    ensures KeyLinked(P.Apply(hash, jobs, s, a), Disk(hash, jobs, fs, a), k)
  {
    var t, g := P.Apply(hash, jobs, s, a), Disk(hash, jobs, fs, a);
    KeyShape(k);
    JobKeys(hash, jobs, a.p);
    ProperNames(P.Tmp(hash, jobs[a.p]), k);
    EffectShape(hash, jobs, a, DirOf(k));
    EffectElsewhere(fs, EffectOf(hash, jobs, a), k);
    KeyBookkeeping(hash, jobs, s, a, k);
    if Syncs(jobs, a, DirOf(k)) {
      KeySettles(s, fs, t, g, k);
    } else {
      KeyUnmoved(s, fs, t, g, k);
    }
  }

  lemma {:induction false} OthersStand(hash: Hash, jobs: seq<P.Job>, s: P.State, a: P.Step, q: nat)
    requires P.Enabled(hash, jobs, s, a) && q < |jobs| && q != a.p
    ensures var t := P.Apply(hash, jobs, s, a); |t.pcs| == |jobs| && t.pcs[q] == s.pcs[q]
  {
  }

  /** Nobody else's staged file is touched. */
  lemma {:induction false} StagedElsewhere(hash: Hash, jobs: seq<P.Job>, fs: Fs, a: P.Step, q: nat)
    requires P.JobsOk(jobs) && a.p < |jobs| && !a.Rename? && Wf(fs) && q < |jobs| && q != a.p
    ensures Steady(fs, Disk(hash, jobs, fs, a), P.Tmp(hash, jobs[q]))
  {
    var other := P.Tmp(hash, jobs[q]);
    JobKeys(hash, jobs, q);
    ProperNames(P.Tmp(hash, jobs[a.p]), other);
    EffectShape(hash, jobs, a, DirOf(other));
    EffectElsewhere(fs, EffectOf(hash, jobs, a), other);
  }

  lemma {:induction false} QuietLinked(hash: Hash, jobs: seq<P.Job>, s: P.State, fs: Fs, a: P.Step)
    requires P.JobsOk(jobs) && P.Enabled(hash, jobs, s, a) && !a.Rename? && P.SettledOk(hash, jobs, s)
    requires Linked(hash, jobs, s, fs)
    ensures Linked(hash, jobs, P.Apply(hash, jobs, s, a), Disk(hash, jobs, fs, a))
  {
    EffectShape(hash, jobs, a, "");
    EffectStaysWf(fs, EffectOf(hash, jobs, a));
    forall k | IsKey(k)
      ensures KeyLinked(P.Apply(hash, jobs, s, a), Disk(hash, jobs, fs, a), k)
    {
      QuietKey(hash, jobs, s, fs, a, k);
    }
    forall q | 0 <= q < |jobs|
      ensures StagedLinked(hash, jobs, P.Apply(hash, jobs, s, a), Disk(hash, jobs, fs, a), q)
    {
      if q == a.p {
        OwnStaged(hash, jobs, s, fs, a);
      } else {
        OthersStand(hash, jobs, s, a, q);
        StagedElsewhere(hash, jobs, fs, a, q);
        StagedUnmoved(hash, jobs, s, fs, P.Apply(hash, jobs, s, a), Disk(hash, jobs, fs, a), q);
      }
    }
  }

  /** The renamed key: the old outcomes, and the staged file, which has the same content if there was one. */
  lemma {:induction false} RenamedKey(s: P.State, t: P.State, fs: Fs, tmp: string, key: string, src: Bytes)
    requires tmp != key && KeyLinked(s, fs, key) && Holds(fs, At(fs, tmp), src)
    requires key in s.store ==> s.store[key] == src
    requires key in t.store && t.store[key] == src && (key in t.settled <==> key in s.settled) && (key in s.settled ==> key in s.store)
    ensures KeyLinked(t, Rename(fs, tmp, key), key)
  {
    RenameAt(fs, tmp, key, key);
  }

  /** The archive's bookkeeping of a rename. */
  lemma {:induction false} RenameBookkeeping(hash: Hash, jobs: seq<P.Job>, s: P.State, p: nat, k: string)
    requires P.JobsOk(jobs) && P.Enabled(hash, jobs, s, P.Rename(p)) && s.store[P.Tmp(hash, jobs[p])] == jobs[p].src && IsKey(k)
    ensures var t := P.Apply(hash, jobs, s, P.Rename(p));
            && t.settled == s.settled
            && if k == P.Key(hash, jobs[p]) then k in t.store && t.store[k] == jobs[p].src
               else (k in s.store <==> k in t.store) && (k in s.store ==> t.store[k] == s.store[k])
  {
    KeyShape(k);
    P.KeyFacts(hash, jobs, p);
  }

  lemma {:induction false} RenameLinked(hash: Hash, jobs: seq<P.Job>, s: P.State, fs: Fs, p: nat)
    requires P.JobsOk(jobs) && P.Enabled(hash, jobs, s, P.Rename(p)) && P.SettledOk(hash, jobs, s)
    requires Linked(hash, jobs, s, fs) && s.store[P.Tmp(hash, jobs[p])] == jobs[p].src
    requires P.Key(hash, jobs[p]) in s.store ==> s.store[P.Key(hash, jobs[p])] == jobs[p].src
    ensures Linked(hash, jobs, P.Apply(hash, jobs, s, P.Rename(p)), Disk(hash, jobs, fs, P.Rename(p)))
  {
    var a, key, tmp := P.Rename(p), P.Key(hash, jobs[p]), P.Tmp(hash, jobs[p]);
    assert StagedLinked(hash, jobs, s, fs, p);
    EffectShape(hash, jobs, a, "");
    EffectStaysWf(fs, Moving(tmp, key));
    assert Disk(hash, jobs, fs, a) == Rename(fs, tmp, key);
    forall k | IsKey(k)
      ensures KeyLinked(P.Apply(hash, jobs, s, a), Rename(fs, tmp, key), k)
    {
      RenameKey(hash, jobs, s, fs, p, k);
    }
    forall q | 0 <= q < |jobs|
      ensures StagedLinked(hash, jobs, P.Apply(hash, jobs, s, a), Rename(fs, tmp, key), q)
    {
      if q != p {
        RenameStaged(hash, jobs, s, fs, p, q);
      }
    }
  }

  lemma {:induction false} RenameKey(hash: Hash, jobs: seq<P.Job>, s: P.State, fs: Fs, p: nat, k: string)
    requires P.JobsOk(jobs) && P.Enabled(hash, jobs, s, P.Rename(p)) && P.SettledOk(hash, jobs, s)
    requires s.store[P.Tmp(hash, jobs[p])] == jobs[p].src && Holds(fs, At(fs, P.Tmp(hash, jobs[p])), jobs[p].src)
    requires P.Key(hash, jobs[p]) in s.store ==> s.store[P.Key(hash, jobs[p])] == jobs[p].src
    requires IsKey(k) && KeyLinked(s, fs, k)
    ensures KeyLinked(P.Apply(hash, jobs, s, P.Rename(p)), Rename(fs, P.Tmp(hash, jobs[p]), P.Key(hash, jobs[p])), k)
  {
    var key, tmp, t := P.Key(hash, jobs[p]), P.Tmp(hash, jobs[p]), P.Apply(hash, jobs, s, P.Rename(p));
    JobKeys(hash, jobs, p);
    KeyShape(k);
    KeyShape(key);
    RenameBookkeeping(hash, jobs, s, p, k);
    if k == key {
      RenamedKey(s, t, fs, tmp, key, jobs[p].src);
    } else {
      RenameAt(fs, tmp, key, k);
      RenameElsewhere(fs, tmp, key, k);
      KeyUnmoved(s, fs, t, Rename(fs, tmp, key), k);
    }
  }

  lemma {:induction false} RenameStaged(hash: Hash, jobs: seq<P.Job>, s: P.State, fs: Fs, p: nat, q: nat)
    requires P.JobsOk(jobs) && P.Enabled(hash, jobs, s, P.Rename(p)) && q < |jobs| && q != p
    requires At(fs, P.Tmp(hash, jobs[p])).Some? && StagedLinked(hash, jobs, s, fs, q)
    ensures StagedLinked(hash, jobs, P.Apply(hash, jobs, s, P.Rename(p)), Rename(fs, P.Tmp(hash, jobs[p]), P.Key(hash, jobs[p])), q)
  {
    var key, tmp := P.Key(hash, jobs[p]), P.Tmp(hash, jobs[p]);
    JobKeys(hash, jobs, p);
    JobKeys(hash, jobs, q);
    KeyShape(key);
    RenameAt(fs, tmp, key, P.Tmp(hash, jobs[q]));
    StagedUnmoved(hash, jobs, s, fs, P.Apply(hash, jobs, s, P.Rename(p)), Rename(fs, tmp, key), q);
  }

  lemma {:induction false} StepKeepsLinked(hash: Hash, jobs: seq<P.Job>, s0: A.Store, s: P.State, fs: Fs, a: P.Step)
    requires P.JobsOk(jobs) && P.CollisionFree(hash, jobs, s0) && P.Inv(hash, jobs, s0, s) && P.Enabled(hash, jobs, s, a)
    requires Linked(hash, jobs, s, fs)
    ensures Linked(hash, jobs, P.Apply(hash, jobs, s, a), Disk(hash, jobs, fs, a))
  {
    if a.Rename? {
      assert P.PusherOk(hash, jobs, s, a.p);
      if P.Key(hash, jobs[a.p]) in s.store {
        P.SuccessHolds(hash, jobs, s0, s, a.p);
      }
      RenameLinked(hash, jobs, s, fs, a.p);
    } else {
      QuietLinked(hash, jobs, s, fs, a);
    }
  }

  lemma {:induction false} RunKeepsLinked(hash: Hash, jobs: seq<P.Job>, s0: A.Store, s: P.State, fs: Fs, steps: seq<P.Step>)
    requires P.JobsOk(jobs) && P.CollisionFree(hash, jobs, s0) && P.Inv(hash, jobs, s0, s) && P.Runs(hash, jobs, s, steps)
    requires Linked(hash, jobs, s, fs)
    ensures P.Inv(hash, jobs, s0, P.Exec(hash, jobs, s, steps))
    ensures Linked(hash, jobs, P.Exec(hash, jobs, s, steps), DiskAfter(hash, jobs, s, fs, steps))
    decreases |steps|
  {
    if steps != [] {
      P.StepKeepsInv(hash, jobs, s0, s, steps[0]);
      StepKeepsLinked(hash, jobs, s0, s, fs, steps[0]);
      RunKeepsLinked(hash, jobs, s0, P.Apply(hash, jobs, s, steps[0]), Disk(hash, jobs, fs, steps[0]), steps[1..]);
    }
  }

  // -------------------------------------------------------------------- theorems

  /** The archive as it is found: its segments are durable, other keys are not there. */
  ghost predicate DiskOk(s0: A.Store, fs: Fs) {
    Wf(fs) && forall k :: IsKey(k) ==> if k in s0 then Durable(fs, k, s0[k]) else Absent(fs, k)
  }

  lemma {:induction false} InitLinked(hash: Hash, jobs: seq<P.Job>, s0: A.Store, fs: Fs)
    requires DiskOk(s0, fs)
    ensures Linked(hash, jobs, P.Init(s0, jobs), fs)
  {
    forall k | IsKey(k)
      ensures KeyLinked(P.Init(s0, jobs), fs, k)
    {
      KeyShape(k);
      AtInTg(fs, k);
      if k in s0 {
        DurableIff(fs, k, s0[k]);
      } else {
        AbsentIff(fs, k);
      }
    }
  }

  /** While the key was there, some step of the run synced its directory. */
  ghost predicate SyncedIn(hash: Hash, jobs: seq<P.Job>, s: P.State, steps: seq<P.Step>, k: string)
    requires P.Runs(hash, jobs, s, steps)
    decreases |steps|
  {
    steps != [] &&
    ((k in s.store && Syncs(jobs, steps[0], DirOf(k))) ||
     SyncedIn(hash, jobs, P.Apply(hash, jobs, s, steps[0]), steps[1..], k))
  }

  lemma {:induction false} SettledMeans(hash: Hash, jobs: seq<P.Job>, s0: A.Store, s: P.State, steps: seq<P.Step>, k: string)
    requires P.JobsOk(jobs) && P.Inv(hash, jobs, s0, s) && P.Runs(hash, jobs, s, steps) && IsKey(k)
    ensures k in P.Exec(hash, jobs, s, steps).settled <==> k in s.settled || SyncedIn(hash, jobs, s, steps, k)
    decreases |steps|
  {
    if steps != [] {
      var a := steps[0];
      P.StepKeepsInv(hash, jobs, s0, s, a);
      if !a.Rename? {
        KeyBookkeeping(hash, jobs, s, a, k);
      }
      SettledMeans(hash, jobs, s0, P.Apply(hash, jobs, s, a), steps[1..], k);
    }
  }

  /**
   A committed segment survives every crash exactly when it was there from the start or its directory
   was synced after it appeared; otherwise a crash can leave nothing under its key.
   */
  lemma {:induction false} DurableIffSynced(hash: Hash, jobs: seq<P.Job>, s0: A.Store, fs: Fs, steps: seq<P.Step>, k: string)
    requires P.JobsOk(jobs) && P.ArchiveOk(hash, s0) && P.CollisionFree(hash, jobs, s0) && DiskOk(s0, fs)
    requires P.Runs(hash, jobs, P.Init(s0, jobs), steps) && IsKey(k)
    requires k in P.Exec(hash, jobs, P.Init(s0, jobs), steps).store
    ensures var s, t := P.Init(s0, jobs), P.Exec(hash, jobs, P.Init(s0, jobs), steps);
            var disk := DiskAfter(hash, jobs, s, fs, steps);
            var synced := k in s0 || SyncedIn(hash, jobs, s, steps, k);
            && (Durable(disk, k, t.store[k]) <==> synced)
            && (MayShow(disk, k, None) <==> !synced)
            && forall v :: MayShow(disk, k, v) ==> v == None || v == Some(t.store[k])
  {
    var s := P.Init(s0, jobs);
    var t, disk := P.Exec(hash, jobs, s, steps), DiskAfter(hash, jobs, s, fs, steps);
    P.InitOk(hash, jobs, s0);
    InitLinked(hash, jobs, s0, fs);
    RunKeepsLinked(hash, jobs, s0, s, fs, steps);
    SettledMeans(hash, jobs, s0, s, steps, k);
    KeyShape(k);
    LinkedShows(t, disk, k);
  }

  lemma {:induction false} LinkedShows(t: P.State, disk: Fs, k: string)
    requires k in t.store && KeyLinked(t, disk, k)
    ensures Durable(disk, k, t.store[k]) <==> k in t.settled
    ensures MayShow(disk, k, None) <==> k !in t.settled
    ensures forall v :: MayShow(disk, k, v) ==> v == None || v == Some(t.store[k])
  {
    DurableIff(disk, k, t.store[k]);
    MayShowIff(disk, k, None);
    assert None in Tg(disk, k) ==> ContentOf(disk, None, None);
    forall v | MayShow(disk, k, v)
      ensures v == None || v == Some(t.store[k])
    {
      MayShowIff(disk, k, v);
    }
  }

  lemma {:induction false} OwnSyncSettles(hash: Hash, jobs: seq<P.Job>, s0: A.Store, s: P.State, steps: seq<P.Step>, p: nat)
    requires P.JobsOk(jobs) && P.Inv(hash, jobs, s0, s) && P.Runs(hash, jobs, s, steps)
    requires p in s.owned || P.Sync(p) in steps
    ensures p in P.Exec(hash, jobs, s, steps).owned
    decreases |steps|
  {
    if steps != [] {
      P.StepKeepsInv(hash, jobs, s0, s, steps[0]);
      assert P.Sync(p) in steps ==> steps[0] == P.Sync(p) || P.Sync(p) in steps[1..];
      OwnSyncSettles(hash, jobs, s0, P.Apply(hash, jobs, s, steps[0]), steps[1..], p);
    }
  }

  /** The segment of a push whose own Commit returned nil survives every crash from then on, with its bytes. */
  lemma {:induction false} OwnSuccessSurvives(hash: Hash, jobs: seq<P.Job>, s0: A.Store, fs: Fs, steps: seq<P.Step>, p: nat)
    requires P.JobsOk(jobs) && P.ArchiveOk(hash, s0) && P.CollisionFree(hash, jobs, s0) && DiskOk(s0, fs)
    requires P.Runs(hash, jobs, P.Init(s0, jobs), steps) && P.Sync(p) in steps && p < |jobs|
    ensures Durable(DiskAfter(hash, jobs, P.Init(s0, jobs), fs, steps), P.Key(hash, jobs[p]), jobs[p].src)
  {
    var s, key := P.Init(s0, jobs), P.Key(hash, jobs[p]);
    P.InitOk(hash, jobs, s0);
    InitLinked(hash, jobs, s0, fs);
    RunKeepsLinked(hash, jobs, s0, s, fs, steps);
    OwnSyncSettles(hash, jobs, s0, s, steps, p);
    var t := P.Exec(hash, jobs, s, steps);
    P.SuccessHolds(hash, jobs, s0, t, p);
    JobKeys(hash, jobs, p);
    LinkedShows(t, DiskAfter(hash, jobs, s, fs, steps), key);
  }

  const EMPTY := Fs(map[], [], map[], 0)

  lemma {:induction false} EmptyIsOk()
    ensures DiskOk(map[], EMPTY)
  {
    forall n
      ensures Tg(EMPTY, n) == {None} && At(EMPTY, n) == None && Absent(EMPTY, n)
    {
      AbsentIff(EMPTY, n);
    }
  }

  /**
   Two pushes of the same bytes into an empty archive: the second one succeeds because it sees the
   first one's key, and a crash at that moment can leave the archive without the segment.
   */
  lemma {:induction false} SeenSuccessCanBeLost(hash: Hash, j: P.Job, rnd: string) returns (steps: seq<P.Step>)
    requires P.JobsOk([j, j.(rnd := rnd)])
    ensures var jobs := [j, j.(rnd := rnd)];
            && P.Runs(hash, jobs, P.Init(map[], jobs), steps)
            && var t := P.Exec(hash, jobs, P.Init(map[], jobs), steps);
               && |t.pcs| == 2 && t.pcs[1] == P.Finished(P.Success)
               && MayShow(DiskAfter(hash, jobs, P.Init(map[], jobs), EMPTY, steps), P.Key(hash, j), None)
  {
    var jobs := [j, j.(rnd := rnd)];
    assert jobs[0] == j && jobs[1] == j.(rnd := rnd);
    steps := P.SuccessOnUnsynced(hash, j, rnd);
    var s := P.Init(map[], jobs);
    P.InitOk(hash, jobs, map[]);
    EmptyIsOk();
    InitLinked(hash, jobs, map[], EMPTY);
    SameBytes(hash, j, rnd);
    RunKeepsLinked(hash, jobs, map[], s, EMPTY, steps);
    JobKeys(hash, jobs, 0);
    LinkedShows(P.Exec(hash, jobs, s, steps), DiskAfter(hash, jobs, s, EMPTY, steps), P.Key(hash, j));
  }

  lemma {:induction false} SameBytes(hash: Hash, j: P.Job, rnd: string)
    ensures P.CollisionFree(hash, [j, j.(rnd := rnd)], map[])
  {
    var jobs := [j, j.(rnd := rnd)];
    forall b | P.InPlay(jobs, map[], b)
      ensures b == j.src
    {
      var q :| 0 <= q < |jobs| && jobs[q].src == b;
    }
  }
}
