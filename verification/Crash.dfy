/**
 A file system that can lose power. A directory change is only durable once its
 directory is fsynced: after a crash any subset of the changes still pending may have
 reached the disk, and a file whose data was not fsynced may hold anything.
 */
module Crash {
  import opened Common
  import opened Text

  type Inode = nat

  datatype File = File(data: Bytes, synced: bool)

  datatype DirOp =
    | Link(name: string, ino: Inode)
    | Move(source: string, target: string, ino: Inode)
    | Unlink(name: string)

  type Dir = map<string, Inode>

  /** dir is on disk; pending holds the changes made since, oldest first. */
  datatype Fs = Fs(dir: Dir, pending: seq<DirOp>, files: map<Inode, File>, next: Inode)

  // -------------------------------------------------------------- directories

  function Lookup(d: Dir, n: string): Option<Inode> { if n in d then Some(d[n]) else None }

  function ApplyOp(d: Dir, op: DirOp): Dir {
    match op
    case Link(n, i) => d[n := i]
    case Move(s, t, i) => (d - {s})[t := i]
    case Unlink(n) => d - {n}
  }

  /** The directory when exactly the masked changes reached it. */
  function Replay(d: Dir, ops: seq<DirOp>, mask: seq<bool>): Dir
    requires |mask| == |ops|
  {
    if ops == [] then d
    else
      var n := |ops| - 1;
      var before := Replay(d, ops[..n], mask[..n]);
      if mask[n] then ApplyOp(before, ops[n]) else before
  }

  // ------------------------------------------------------------- after a crash

  predicate Touches(op: DirOp, n: string) {
    match op
    case Link(m, _) => m == n
    case Move(s, t, _) => s == n || t == n
    case Unlink(m) => m == n
  }

  /** What the change makes of a name it touches. */
  function EffectOn(op: DirOp, n: string): Option<Inode> {
    match op
    case Link(_, i) => Some(i)
    case Move(_, t, i) => if t == n then Some(i) else None
    case Unlink(_) => None
  }

  /** What the name points to for the running system. */
  function Now(d: Dir, ops: seq<DirOp>, n: string): Option<Inode> {
    if ops == [] then Lookup(d, n)
    else
      var k := |ops| - 1;
      if Touches(ops[k], n) then EffectOn(ops[k], n) else Now(d, ops[..k], n)
  }

  /** Everything the name may point to after a crash. */
  function Targets(d: Dir, ops: seq<DirOp>, n: string): set<Option<Inode>> {
    if ops == [] then {Lookup(d, n)}
    else
      var k := |ops| - 1;
      Targets(d, ops[..k], n) + (if Touches(ops[k], n) then {EffectOn(ops[k], n)} else {})
  }

  function Tg(fs: Fs, n: string): set<Option<Inode>> { Targets(fs.dir, fs.pending, n) }

  function At(fs: Fs, n: string): Option<Inode> { Now(fs.dir, fs.pending, n) }

  /** The content of a name after the crash that kept the masked changes and tore unsynced files. */
  function Shown(fs: Fs, mask: seq<bool>, torn: Inode -> Bytes, n: string): Option<Bytes>
    requires |mask| == |fs.pending|
  {
    match Lookup(Replay(fs.dir, fs.pending, mask), n)
    case None => None
    case Some(i) => Some(if i in fs.files && fs.files[i].synced then fs.files[i].data else torn(i))
  }

  /** A crash now may leave the name with this content (None: absent). */
  ghost predicate MayShow(fs: Fs, n: string, v: Option<Bytes>) {
    exists mask, torn :: |mask| == |fs.pending| && Shown(fs, mask, torn, n) == v
  }

  /** v is a content target t may have after a crash. */
  predicate ContentOf(fs: Fs, t: Option<Inode>, v: Option<Bytes>) {
    match t
    case None => v.None?
    case Some(i) => v.Some? && (i in fs.files && fs.files[i].synced ==> v.value == fs.files[i].data)
  }

  lemma {:induction false} ReplayInTargets(d: Dir, ops: seq<DirOp>, mask: seq<bool>, n: string)
    requires |mask| == |ops|
    ensures Lookup(Replay(d, ops, mask), n) in Targets(d, ops, n)
  {
    if ops != [] {
      ReplayInTargets(d, ops[..|ops| - 1], mask[..|ops| - 1], n);
    }
  }

  lemma {:induction false} TargetAttained(d: Dir, ops: seq<DirOp>, n: string, t: Option<Inode>) returns (mask: seq<bool>)
    requires t in Targets(d, ops, n)
    ensures |mask| == |ops| && Lookup(Replay(d, ops, mask), n) == t
  {
    if ops == [] {
      mask := [];
    } else {
      var k := |ops| - 1;
      if t in Targets(d, ops[..k], n) {
        var m := TargetAttained(d, ops[..k], n, t);
        mask := m + [false];
        assert mask[..k] == m;
      } else {
        mask := seq(k, i => false) + [true];
      }
    }
  }

  /** What a crash may show is exactly what some target may hold. */
  lemma {:induction false} MayShowIff(fs: Fs, n: string, v: Option<Bytes>)
    ensures MayShow(fs, n, v) <==> exists t :: t in Tg(fs, n) && ContentOf(fs, t, v)
  {
    if MayShow(fs, n, v) {
      var mask, torn :| |mask| == |fs.pending| && Shown(fs, mask, torn, n) == v;
      ReplayInTargets(fs.dir, fs.pending, mask, n);
      var t := Lookup(Replay(fs.dir, fs.pending, mask), n);
      assert ContentOf(fs, t, v);
    }
    if t :| t in Tg(fs, n) && ContentOf(fs, t, v) {
      var mask := TargetAttained(fs.dir, fs.pending, n, t);
      var torn: Inode -> Bytes := i => if v.Some? then v.value else [];
      assert Shown(fs, mask, torn, n) == v;
    }
  }

  /** The name shows this content after every crash. */
  ghost predicate Durable(fs: Fs, n: string, b: Bytes) {
    forall v :: MayShow(fs, n, v) ==> v == Some(b)
  }

  /** The name is absent after every crash. */
  ghost predicate Absent(fs: Fs, n: string) {
    forall v :: MayShow(fs, n, v) ==> v == None
  }

  // ------------------------------------------------------------- directory sync

  /**
   The part of a change that concerns the names inside a directory, or the others. A rename
   between directories can be on disk for one of them and still pending for the other.
   */
  function Part(op: DirOp, dir: string, inside: bool): Option<DirOp> {
    match op
    case Link(n, _) => if (DirOf(n) == dir) == inside then Some(op) else None
    case Unlink(n) => if (DirOf(n) == dir) == inside then Some(op) else None
    case Move(s, t, i) =>
      match ((DirOf(s) == dir) == inside, (DirOf(t) == dir) == inside)
      case (true, true) => Some(op)
      case (false, true) => Some(Link(t, i))
      case (true, false) => Some(Unlink(s))
      case (false, false) => None
  }

  lemma {:induction false} PartMeans(op: DirOp, dir: string, inside: bool, n: string)
    ensures var p := Part(op, dir, inside);
            if Touches(op, n) && (DirOf(n) == dir) == inside
            then p.Some? && Touches(p.value, n) && EffectOn(p.value, n) == EffectOn(op, n)
            else p.Some? ==> !Touches(p.value, n)
  {
  }

  /** The directory on disk once the changes inside dir are. */
  function Flushed(d: Dir, ops: seq<DirOp>, dir: string): Dir {
    if ops == [] then d
    else
      var k := |ops| - 1;
      match Part(ops[k], dir, true)
      case None => Flushed(d, ops[..k], dir)
      case Some(op) => ApplyOp(Flushed(d, ops[..k], dir), op)
  }

  function Remaining(ops: seq<DirOp>, dir: string): seq<DirOp> {
    if ops == [] then []
    else
      var k := |ops| - 1;
      match Part(ops[k], dir, false)
      case None => Remaining(ops[..k], dir)
      case Some(op) => Remaining(ops[..k], dir) + [op]
  }

  lemma {:induction false} ApplyAt(d: Dir, op: DirOp, n: string)
    ensures Lookup(ApplyOp(d, op), n) == if Touches(op, n) then EffectOn(op, n) else Lookup(d, n)
  {
  }

  lemma {:induction false} FlushedAt(d: Dir, ops: seq<DirOp>, dir: string, n: string)
    ensures Lookup(Flushed(d, ops, dir), n) == if DirOf(n) == dir then Now(d, ops, n) else Lookup(d, n)
  {
    if ops != [] {
      var k := |ops| - 1;
      FlushedAt(d, ops[..k], dir, n);
      PartMeans(ops[k], dir, true, n);
      var p := Part(ops[k], dir, true);
      if p.Some? {
        ApplyAt(Flushed(d, ops[..k], dir), p.value, n);
      }
    }
  }

  lemma {:induction false} PushOp(d: Dir, ops: seq<DirOp>, op: DirOp, n: string)
    ensures Targets(d, ops + [op], n) == Targets(d, ops, n) + if Touches(op, n) then {EffectOn(op, n)} else {}
    ensures Now(d, ops + [op], n) == if Touches(op, n) then EffectOn(op, n) else Now(d, ops, n)
  {
    assert (ops + [op])[..|ops|] == ops;
  }

  /** The remaining changes leave the names inside alone and treat the others as before. */
  lemma {:induction false} RemainingTargets(d: Dir, ops: seq<DirOp>, dir: string, n: string)
    ensures Targets(d, Remaining(ops, dir), n) == if DirOf(n) == dir then {Lookup(d, n)} else Targets(d, ops, n)
    ensures Now(d, Remaining(ops, dir), n) == if DirOf(n) == dir then Lookup(d, n) else Now(d, ops, n)
  {
    if ops != [] {
      var k := |ops| - 1;
      RemainingTargets(d, ops[..k], dir, n);
      PartMeans(ops[k], dir, false, n);
      var p := Part(ops[k], dir, false);
      if p.Some? {
        PushOp(d, Remaining(ops[..k], dir), p.value, n);
      }
    }
  }

  /** Outcomes of a name depend on the base directory only at that name. */
  lemma {:induction false} RebaseTargets(d: Dir, e: Dir, ops: seq<DirOp>, n: string)
    requires Lookup(d, n) == Lookup(e, n)
    ensures Targets(e, ops, n) == Targets(d, ops, n)
    ensures Now(e, ops, n) == Now(d, ops, n)
  {
    if ops != [] {
      RebaseTargets(d, e, ops[..|ops| - 1], n);
    }
  }

  /** After fsync(dir) its names are settled as the running system sees them; other names are unaffected. */
  lemma {:induction false} FlushTargets(d: Dir, ops: seq<DirOp>, dir: string, n: string)
    ensures Targets(Flushed(d, ops, dir), Remaining(ops, dir), n) ==
            if DirOf(n) == dir then {Now(d, ops, n)} else Targets(d, ops, n)
    ensures Now(Flushed(d, ops, dir), Remaining(ops, dir), n) == Now(d, ops, n)
  {
    FlushedAt(d, ops, dir, n);
    RemainingTargets(Flushed(d, ops, dir), ops, dir, n);
    if DirOf(n) != dir {
      RebaseTargets(d, Flushed(d, ops, dir), ops, n);
    }
  }

  lemma {:induction false} NowIsTarget(d: Dir, ops: seq<DirOp>, n: string)
    ensures Now(d, ops, n) in Targets(d, ops, n)
  {
    if ops != [] {
      NowIsTarget(d, ops[..|ops| - 1], n);
    }
  }

  /** The running system sees the directory in which every change has been made. */
  lemma {:induction false} NowIsReplay(d: Dir, ops: seq<DirOp>, mask: seq<bool>, n: string)
    requires |mask| == |ops| && forall i :: 0 <= i < |mask| ==> mask[i]
    ensures Lookup(Replay(d, ops, mask), n) == Now(d, ops, n)
  {
    if ops != [] {
      NowIsReplay(d, ops[..|ops| - 1], mask[..|ops| - 1], n);
    }
  }

  // --------------------------------------------------------------- system calls

  /** open(O_CREAT|O_TRUNC) */
  function Create(fs: Fs, n: string): Fs {
    match At(fs, n)
    case Some(i) => fs.(files := fs.files[i := File([], false)])
    case None => Fs(fs.dir, fs.pending + [Link(n, fs.next)], fs.files[fs.next := File([], false)], fs.next + 1)
  }

  function Append(fs: Fs, i: Inode, b: Bytes): Fs
    requires i in fs.files
  {
    fs.(files := fs.files[i := File(fs.files[i].data + b, false)])
  }

  function SyncFile(fs: Fs, i: Inode): Fs
    requires i in fs.files
  {
    fs.(files := fs.files[i := fs.files[i].(synced := true)])
  }

  function SyncDir(fs: Fs, dir: string): Fs {
    fs.(dir := Flushed(fs.dir, fs.pending, dir), pending := Remaining(fs.pending, dir))
  }

  function Rename(fs: Fs, s: string, t: string): Fs
    requires At(fs, s).Some?
  {
    fs.(pending := fs.pending + [Move(s, t, At(fs, s).value)])
  }

  function Remove(fs: Fs, n: string): Fs { fs.(pending := fs.pending + [Unlink(n)]) }

  const STAGING := ".pgsafe-tmp"

  predicate Staging(n: string) { HasSuffix(n, STAGING) }

  ghost predicate Known(fs: Fs) {
    && (forall n, t :: t in Tg(fs, n) && t.Some? ==> t.value in fs.files)
    && (forall i :: i in fs.files ==> i < fs.next)
  }

  /** m is n, or the staging name of such a name. */
  predicate Family(n: string, m: string) {
    m == n || (Staging(m) && Family(n, m[..|m| - |STAGING|]))
  }

  lemma {:induction false} FamilyIsLonger(n: string, m: string)
    ensures Family(n, m) && m != n ==> |n| < |m| && Staging(m)
    decreases |m|
  {
    if Family(n, m) && m != n {
      FamilyIsLonger(n, m[..|m| - |STAGING|]);
    }
  }

  /** The family of a staging name lies in that of the name it stages. */
  lemma {:induction false} FamilyGrows(n: string, m: string)
    requires Family(n + STAGING, m)
    ensures Family(n, m)
    decreases |m|
  {
    if m == n + STAGING {
      assert m[|m| - |STAGING|..] == STAGING && m[..|m| - |STAGING|] == n;
    } else {
      FamilyGrows(n, m[..|m| - |STAGING|]);
    }
  }

  /** Only its own family can lead to the file behind a staging name. */
  ghost predicate Private(fs: Fs) {
    forall n, m :: Staging(n) && At(fs, n).Some? && At(fs, n) in Tg(fs, m) ==> Family(n, m)
  }

  ghost predicate Wf(fs: Fs) { Known(fs) && Private(fs) }

  predicate SameFile(f: Fs, g: Fs, i: Inode)
    requires i in f.files
  {
    i in g.files && g.files[i] == f.files[i]
  }

  /** A crash in g shows nothing at n that a crash in f could not, and n is the same file. */
  ghost predicate Steady(f: Fs, g: Fs, n: string) {
    && Tg(g, n) <= Tg(f, n) && At(g, n) == At(f, n)
    && forall t :: t in Tg(g, n) && t.Some? && t.value in f.files ==> SameFile(f, g, t.value)
  }

  lemma {:induction false} AtInTg(fs: Fs, n: string)
    ensures At(fs, n) in Tg(fs, n)
  {
    NowIsTarget(fs.dir, fs.pending, n);
  }

  /** Linking a new inode to a staging name. */
  lemma {:induction false} CreateFresh(fs: Fs, n: string, m: string)
    requires Wf(fs) && At(fs, n) == None
    ensures var g := Create(fs, n);
            && Tg(g, n) == Tg(fs, n) + {Some(fs.next)} && At(g, n) == Some(fs.next)
            && (m != n ==> Tg(g, m) == Tg(fs, m) && At(g, m) == At(fs, m) && Steady(fs, g, m))
  {
    PushOp(fs.dir, fs.pending, Link(n, fs.next), m);
    PushOp(fs.dir, fs.pending, Link(n, fs.next), n);
  }

  lemma {:induction false} CreateKeeps(fs: Fs, n: string)
    requires Wf(fs) && Staging(n)
    ensures var g := Create(fs, n);
            && Wf(g) && At(g, n).Some? && At(g, n).value in g.files && g.files[At(g, n).value].data == []
            && forall m :: !Family(n, m) ==> Steady(fs, g, m)
  {
    var g := Create(fs, n);
    if At(fs, n).Some? {
      WriteKeeps(fs, n, At(fs, n).value, File([], false));
    } else {
      forall m
        ensures At(fs, m) in Tg(fs, m)
        ensures m != n ==> Tg(g, m) == Tg(fs, m) && At(g, m) == At(fs, m) && Steady(fs, g, m)
      {
        AtInTg(fs, m);
        CreateFresh(fs, n, m);
      }
      CreateFresh(fs, n, n);
    }
  }

  lemma {:induction false} WriteKeeps(fs: Fs, n: string, i: Inode, f: File)
    requires Wf(fs) && Staging(n) && At(fs, n) == Some(i)
    ensures var g := fs.(files := fs.files[i := f]);
            Wf(g) && At(g, n) == Some(i) && Tg(g, n) == Tg(fs, n) && forall m :: !Family(n, m) ==> Steady(fs, g, m)
  {
    AtInTg(fs, n);
    var g := fs.(files := fs.files[i := f]);
    assert forall m :: Tg(g, m) == Tg(fs, m) && At(g, m) == At(fs, m);
  }

  lemma {:induction false} SyncDirAt(fs: Fs, dir: string, n: string)
    ensures var g := SyncDir(fs, dir);
            Steady(fs, g, n) && (DirOf(n) == dir ==> Tg(g, n) == {At(fs, n)})
  {
    FlushTargets(fs.dir, fs.pending, dir, n);
    AtInTg(fs, n);
  }

  lemma {:induction false} SyncDirKeeps(fs: Fs, dir: string)
    requires Known(fs)
    ensures Known(SyncDir(fs, dir)) && (Private(fs) ==> Private(SyncDir(fs, dir)))
    ensures forall n :: Steady(fs, SyncDir(fs, dir), n)
  {
    var g := SyncDir(fs, dir);
    forall n
      ensures Tg(g, n) <= Tg(fs, n) && At(g, n) == At(fs, n)
      ensures Steady(fs, g, n)
    {
      SyncDirAt(fs, dir, n);
    }
  }

  lemma {:induction false} RenameAt(fs: Fs, s: string, t: string, n: string)
    requires At(fs, s).Some? && s != t
    ensures var g := Rename(fs, s, t);
            && (n != s && n != t ==> Steady(fs, g, n))
            && Tg(g, t) == Tg(fs, t) + {At(fs, s)} && At(g, t) == At(fs, s)
            && Tg(g, s) == Tg(fs, s) + {None} && At(g, s) == None
  {
    var op := Move(s, t, At(fs, s).value);
    PushOp(fs.dir, fs.pending, op, n);
    PushOp(fs.dir, fs.pending, op, s);
    PushOp(fs.dir, fs.pending, op, t);
  }

  /** Names a rename does not mention keep exactly their outcomes. */
  lemma {:induction false} RenameElsewhere(fs: Fs, s: string, t: string, n: string)
    requires At(fs, s).Some? && n != s && n != t
    ensures Tg(Rename(fs, s, t), n) == Tg(fs, n)
  {
    PushOp(fs.dir, fs.pending, Move(s, t, At(fs, s).value), n);
  }

  lemma {:induction false} RemoveElsewhere(fs: Fs, n: string, m: string)
    requires m != n
    ensures Tg(Remove(fs, n), m) == Tg(fs, m)
  {
    PushOp(fs.dir, fs.pending, Unlink(n), m);
  }

  lemma {:induction false} RenameKnown(fs: Fs, s: string, t: string)
    requires Known(fs) && At(fs, s).Some? && s != t
    ensures Known(Rename(fs, s, t))
    ensures forall n :: n != s && n != t ==> Steady(fs, Rename(fs, s, t), n)
  {
    AtInTg(fs, s);
    var g := Rename(fs, s, t);
    forall n
      ensures Tg(g, n) <= Tg(fs, n) + {None} + if n == t then {At(fs, s)} else {}
      ensures n != s && n != t ==> Steady(fs, g, n)
    {
      RenameAt(fs, s, t, n);
    }
  }

  /** A rename to a proper name, or from a staging name to the name it stages, keeps staging files private. */
  lemma {:induction false} RenameKeeps(fs: Fs, s: string, t: string)
    requires Wf(fs) && At(fs, s).Some? && s != t && (Staging(t) ==> s == t + STAGING)
    ensures Wf(Rename(fs, s, t))
    ensures forall n :: n != s && n != t ==> Steady(fs, Rename(fs, s, t), n)
  {
    RenameKnown(fs, s, t);
    var g := Rename(fs, s, t);
    forall n, m | Staging(n) && At(g, n).Some? && At(g, n) in Tg(g, m)
      ensures Family(n, m)
    {
      RenamePrivate(fs, s, t, n, m);
    }
  }

  lemma {:induction false} RenamePrivate(fs: Fs, s: string, t: string, n: string, m: string)
    requires Private(fs) && At(fs, s).Some? && s != t && (Staging(t) ==> s == t + STAGING)
    requires var g := Rename(fs, s, t); Staging(n) && At(g, n).Some? && At(g, n) in Tg(g, m)
    ensures Family(n, m)
  {
    AtInTg(fs, s);
    AtInTg(fs, n);
    RenameAt(fs, s, t, n);
    RenameAt(fs, s, t, m);
    if n == t {
      assert Staging(s) by { assert s[|s| - |STAGING|..] == STAGING; }
      if m != t {
        assert Family(s, m);
        FamilyGrows(t, m);
      }
    } else {
      SameLive(fs, n, s);
    }
  }

  /** Two names the running system sees as one file are one name, if either is a staging name. */
  lemma {:induction false} SameLive(fs: Fs, n: string, s: string)
    requires Private(fs) && Staging(n) && At(fs, n).Some?
    ensures At(fs, n) == At(fs, s) ==> n == s
  {
    AtInTg(fs, n);
    AtInTg(fs, s);
    FamilyIsLonger(n, s);
    FamilyIsLonger(s, n);
  }

  lemma {:induction false} RemoveAt(fs: Fs, n: string, m: string)
    ensures var g := Remove(fs, n);
            && (m != n ==> Steady(fs, g, m))
            && Tg(g, n) == Tg(fs, n) + {None} && At(g, n) == None
  {
    PushOp(fs.dir, fs.pending, Unlink(n), m);
    PushOp(fs.dir, fs.pending, Unlink(n), n);
  }

  lemma {:induction false} RemoveKeeps(fs: Fs, n: string)
    requires Wf(fs)
    ensures Wf(Remove(fs, n))
    ensures forall m :: m != n ==> Steady(fs, Remove(fs, n), m)
  {
    var g := Remove(fs, n);
    forall m
      ensures Tg(g, m) <= Tg(fs, m) + {None}
      ensures if m == n then At(g, m) == None else Steady(fs, g, m)
    {
      RemoveAt(fs, n, m);
    }
  }

  // ------------------------------------------------------- what callers conclude

  lemma {:induction false} SteadyShows(f: Fs, g: Fs, n: string)
    requires Known(f) && Steady(f, g, n)
    ensures forall v :: MayShow(g, n, v) ==> MayShow(f, n, v)
  {
    forall v | MayShow(g, n, v)
      ensures MayShow(f, n, v)
    {
      MayShowIff(g, n, v);
      var t :| t in Tg(g, n) && ContentOf(g, t, v);
      assert t in Tg(f, n) && ContentOf(f, t, v);
      MayShowIff(f, n, v);
    }
  }

  /** Durability is having only targets that are synced files of that content. */
  lemma {:induction false} DurableIff(fs: Fs, n: string, b: Bytes)
    ensures Durable(fs, n, b) <==>
            forall t :: t in Tg(fs, n) ==> t.Some? && t.value in fs.files && fs.files[t.value] == File(b, true)
  {
    forall v
      ensures MayShow(fs, n, v) <==> exists t :: t in Tg(fs, n) && ContentOf(fs, t, v)
    {
      MayShowIff(fs, n, v);
    }
    if Durable(fs, n, b) {
      forall t | t in Tg(fs, n)
        ensures t.Some? && t.value in fs.files && fs.files[t.value] == File(b, true)
      {
        var v := if t.None? then None
                 else if t.value in fs.files && fs.files[t.value].synced then Some(fs.files[t.value].data)
                 else Some(b + [0]);
        assert ContentOf(fs, t, v);
        assert MayShow(fs, n, v);
      }
    }
  }

  /** A name is absent after every crash when nothing can be reached by it. */
  lemma {:induction false} AbsentIff(fs: Fs, n: string)
    ensures Absent(fs, n) <==> Tg(fs, n) == {None}
  {
    AtInTg(fs, n);
    if Absent(fs, n) {
      forall t | t in Tg(fs, n)
        ensures t == None
      {
        var v := if t.None? then None
                 else if t.value in fs.files && fs.files[t.value].synced then Some(fs.files[t.value].data)
                 else Some([]);
        assert ContentOf(fs, t, v);
        MayShowIff(fs, n, v);
      }
    }
    if Tg(fs, n) == {None} {
      forall v | MayShow(fs, n, v)
        ensures v == None
      {
        MayShowIff(fs, n, v);
      }
    }
  }

  /** When only the complete file can be newly reached, a crash shows the old state or that file. */
  lemma {:induction false} OldOrNew(f: Fs, g: Fs, n: string, i: Inode, b: Bytes)
    requires Known(f)
    requires Tg(g, n) <= Tg(f, n) + {Some(i)}
    requires Some(i) in Tg(g, n) ==> i in g.files && g.files[i] == File(b, true)
    requires forall j :: j in f.files && j != i ==> SameFile(f, g, j)
    ensures forall v :: MayShow(g, n, v) ==> MayShow(f, n, v) || v == Some(b)
  {
    forall v | MayShow(g, n, v)
      ensures MayShow(f, n, v) || v == Some(b)
    {
      MayShowIff(g, n, v);
      var t :| t in Tg(g, n) && ContentOf(g, t, v);
      if t != Some(i) {
        assert t in Tg(f, n) && ContentOf(f, t, v);
        MayShowIff(f, n, v);
      }
    }
  }
}
