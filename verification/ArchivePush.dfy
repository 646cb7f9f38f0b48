/**
 Any number of concurrent Push calls on one store, step by step: Stat, a directory
 listing that is not atomic, Put of a private staging key, the stat of Commit, the
 overwriting rename of Commit, its directory fsync and the clean-up delete. Every call to
 the backend may fail; a run is the list of steps some scheduler chose.
 */
module ArchivePush {
  import opened Common
  import opened Text
  import opened Wal
  import opened Archive

  /** One Push call: the source file does not change while it runs. */
  datatype Job = Job(tli: Timeline, seg: string, src: Bytes, rnd: string)

  datatype Outcome = Success | SegmentMismatch | Failed

  /** Where a Push call stands. */
  datatype Pc =
    | AtStat
    | AtList
    | Looking(floor: set<string>, since: set<string>)   // keys present, and ever present, when the listing began
    | AtPut
    | AtCommitStat
    | AtRename
    | AtSync                          // renamed, the directory not synced yet
    | AtDelete(result: Outcome)       // removing the staging key, then returning
    | Finished(outcome: Outcome)

  /** settled: committed keys whose directory was synced since they appeared; owned: calls whose own Commit returned nil. */
  datatype State = State(store: Store, ever: set<string>, pcs: seq<Pc>, settled: set<string>, owned: set<nat>)

  datatype Step =
    | Stat(p: nat) | ListBegin(p: nat) | ListEnd(p: nat, paths: seq<string>) | ListVanished(p: nat)
    | PutOk(p: nat) | PutFail(p: nat, left: Option<Bytes>)
    | CommitStat(p: nat) | Rename(p: nat) | RenameFail(p: nat) | Sync(p: nat) | SyncFail(p: nat)
    | Delete(p: nat, deleteFails: bool)
    | Abort(p: nat)                 // hashing, Stat or List reported an error
    | Flush(p: nat)                 // the directory reaches the disk for any other reason

  function Key(hash: Hash, j: Job): string { SegmentKey(j.tli, j.seg, hash(j.src)) }

  function Tmp(hash: Hash, j: Job): string { TmpKey(Key(hash, j), j.rnd) }

  /** A key of the archive that is not being staged. The rest of the store belongs to the backups. */
  predicate Final(k: string) { HasPrefix(k, "wal/") && !HasSuffix(k, ".tmp") }

  /** Jobs push archivable files and drew different random suffixes of one length. */
  predicate JobsOk(jobs: seq<Job>) {
    && (forall i :: 0 <= i < |jobs| ==> IsArchivable(jobs[i].seg) && |jobs[i].rnd| == 16 && IsHex(jobs[i].rnd))
    && (forall i, j :: 0 <= i < j < |jobs| ==> jobs[i].rnd != jobs[j].rnd)
  }

  /** Staged or committed by a pusher: what an archive holds. */
  ghost predicate CommittedKey(hash: Hash, store: Store, k: string)
    requires k in store
  {
    exists t, seg :: IsArchivable(seg) && k == SegmentKey(t, seg, hash(store[k]))
  }

  /** Every committed key of the store carries the digest of its content. */
  ghost predicate ArchiveOk(hash: Hash, store: Store) {
    forall k :: k in store && Final(k) ==> CommittedKey(hash, store, k)
  }

  function Init(store: Store, jobs: seq<Job>): State {
    State(store, store.Keys, seq(|jobs|, i => AtStat), set k | k in store && Final(k), {})
  }

  /**
   What List may return while other pushers run: each path at most once, everything that
   was there throughout, and nothing that was never there.
   */
  predicate ListingOf(s: State, floor: set<string>, paths: seq<string>) {
    && Distinct(paths)
    && (forall k :: k in floor && k in s.store ==> k in paths)
    && (forall k :: k in paths ==> k in s.ever)
  }

  predicate StagingIn(k: string, tli: Timeline) { HasSuffix(k, ".tmp") && DirOf(k) == SegmentDir(tli) }

  /**
   A staging key of the directory was there at some moment since the listing began and is gone now,
   so that looking it up after the readdir reports "not found" for the whole listing.
   */
  predicate VanishedSince(s: State, floor: set<string>, since: set<string>, tli: Timeline) {
    exists k :: k in s.ever && (k in floor || k !in since) && k !in s.store && StagingIn(k, tli)
  }

  predicate Enabled(hash: Hash, jobs: seq<Job>, s: State, a: Step) {
    && |s.pcs| == |jobs| && a.p < |jobs|
    && match a
       case Stat(p) => s.pcs[p].AtStat?
       case ListBegin(p) => s.pcs[p].AtList?
       case ListEnd(p, paths) => s.pcs[p].Looking? && ListingOf(s, s.pcs[p].floor, paths)
       case ListVanished(p) =>
         s.pcs[p].Looking? && VanishedSince(s, s.pcs[p].floor, s.pcs[p].since, jobs[p].tli)
       case PutOk(p) => s.pcs[p].AtPut?
       case PutFail(p, _) => s.pcs[p].AtPut?
       case CommitStat(p) => s.pcs[p].AtCommitStat?
       case Rename(p) => s.pcs[p].AtRename? && Tmp(hash, jobs[p]) in s.store
       case RenameFail(p) => s.pcs[p].AtRename? || s.pcs[p].AtCommitStat?
       case Sync(p) => s.pcs[p].AtSync?
       case SyncFail(p) => s.pcs[p].AtSync?
       case Flush(_) => true
       case Delete(p, _) => s.pcs[p].AtDelete?
       case Abort(p) => s.pcs[p].AtStat? || s.pcs[p].AtList? || s.pcs[p].Looking?
  }

  /** What Push does with the answer of FindSegment. */
  function AfterLookup(r: Lookup, key: string): Pc {
    match r
    case Missing => AtPut
    case Found(other) => Finished(if other == key then Success else SegmentMismatch)
    case Mismatch => Finished(SegmentMismatch)
    case ListFailed => Finished(Failed)
  }

  function Goto(s: State, p: nat, pc: Pc): State
    requires p < |s.pcs|
  {
    s.(pcs := s.pcs[p := pc])
  }

  function Write(s: State, k: string, b: Bytes): State {
    s.(store := s.store[k := b], ever := s.ever + {k})
  }

  /** Committed keys of one timeline's directory. */
  function CommittedIn(store: Store, tli: Timeline): set<string> {
    set k | k in store && Final(k) && DirOf(k) == SegmentDir(tli)
  }

  /** fsync of the timeline's directory. */
  function Synced(s: State, tli: Timeline): State { s.(settled := s.settled + CommittedIn(s.store, tli)) }

  function Apply(hash: Hash, jobs: seq<Job>, s: State, a: Step): State
    requires Enabled(hash, jobs, s, a)
  {
    var key, tmp := Key(hash, jobs[a.p]), Tmp(hash, jobs[a.p]);
    match a
    case Stat(p) => Goto(s, p, if key in s.store then Finished(Success) else AtList)
    case ListBegin(p) => Goto(s, p, Looking(s.store.Keys, s.ever))
    case ListEnd(p, paths) => Goto(s, p, AfterLookup(LookupIn(paths, jobs[p].tli, jobs[p].seg), key))
    case ListVanished(p) => Goto(s, p, AtPut)
    case PutOk(p) => Goto(Synced(Write(s, tmp, jobs[p].src), jobs[p].tli), p, AtCommitStat)
    case PutFail(p, left) =>
      Goto(if left.Some? then Synced(Write(s, tmp, left.value), jobs[p].tli) else s, p, AtDelete(Failed))
    case CommitStat(p) => Goto(s, p, if key in s.store then AtDelete(Success) else AtRename)
    case Rename(p) => Goto(Write(s.(store := s.store - {tmp}), key, s.store[tmp]), p, AtSync)
    case Sync(p) => Goto(Synced(s, jobs[p].tli), p, Finished(Success)).(owned := s.owned + {p})
    case SyncFail(p) => Goto(s, p, AtDelete(Failed))
    case Flush(p) => Synced(s, jobs[p].tli)
    case RenameFail(p) => Goto(s, p, AtDelete(Failed))
    case Delete(p, deleteFails) =>
      Goto(if deleteFails then s else s.(store := s.store - {tmp}), p, Finished(s.pcs[p].result))
    case Abort(p) => Goto(s, p, Finished(Failed))
  }

  predicate Runs(hash: Hash, jobs: seq<Job>, s: State, steps: seq<Step>)
    decreases |steps|
  {
    steps == [] ||
    (Enabled(hash, jobs, s, steps[0]) && Runs(hash, jobs, Apply(hash, jobs, s, steps[0]), steps[1..]))
  }

  function Exec(hash: Hash, jobs: seq<Job>, s: State, steps: seq<Step>): State
    requires Runs(hash, jobs, s, steps)
    decreases |steps|
  {
    if steps == [] then s else Exec(hash, jobs, Apply(hash, jobs, s, steps[0]), steps[1..])
  }

  // ---------------------------------------------------------------- invariant

  /** A committed key for p's segment name with other content than p's. */
  ghost predicate Conflict(hash: Hash, jobs: seq<Job>, s: State, p: nat)
    requires p < |jobs|
  {
    exists k :: k in s.store && k != Key(hash, jobs[p]) && IsMatch(k, jobs[p].tli, jobs[p].seg)
  }

  ghost predicate PusherOk(hash: Hash, jobs: seq<Job>, s: State, p: nat)
    requires p < |jobs| == |s.pcs|
  {
    var key, tmp := Key(hash, jobs[p]), Tmp(hash, jobs[p]);
    match s.pcs[p]
    case AtCommitStat => tmp in s.store && s.store[tmp] == jobs[p].src
    case AtRename => tmp in s.store && s.store[tmp] == jobs[p].src
    case AtSync => key in s.store
    case AtDelete(o) => o != SegmentMismatch && (o == Success ==> key in s.store)
    case Finished(o) =>
      (o == Success ==> key in s.store) && (o == SegmentMismatch ==> Conflict(hash, jobs, s, p))
    case _ => true
  }

  /** Committed keys are never removed, so anything committed ever seen is still there. */
  ghost predicate EverOk(s: State) {
    && s.store.Keys <= s.ever
    && forall k :: k in s.ever && Final(k) ==> k in s.store
  }

  /** The committed content comes from the initial archive or from a job. */
  ghost predicate OriginsOk(hash: Hash, jobs: seq<Job>, s0: Store, s: State) {
    forall k :: k in s.store && Final(k) ==>
      || (k in s0 && s.store[k] == s0[k])
      || exists q :: 0 <= q < |jobs| && k == Key(hash, jobs[q]) && s.store[k] == jobs[q].src
  }

  /** Settled keys are committed keys of the store, and so are those of the calls whose own Commit returned nil. */
  ghost predicate SettledOk(hash: Hash, jobs: seq<Job>, s: State)
    requires |s.pcs| == |jobs|
  {
    && (forall k :: k in s.settled ==> k in s.store && Final(k))
    && (forall p :: p in s.owned ==> p < |jobs| && Key(hash, jobs[p]) in s.settled)
  }

  ghost predicate Inv(hash: Hash, jobs: seq<Job>, s0: Store, s: State) {
    && |s.pcs| == |jobs|
    && SettledOk(hash, jobs, s)
    && ArchiveOk(hash, s.store)
    && EverOk(s)
    && OriginsOk(hash, jobs, s0, s)
    && forall p :: 0 <= p < |jobs| ==> PusherOk(hash, jobs, s, p)
  }

  lemma {:induction false} InitOk(hash: Hash, jobs: seq<Job>, store: Store)
    requires ArchiveOk(hash, store)
    ensures Inv(hash, jobs, store, Init(store, jobs))
  {
  }

  /** The committed part of the store only grows; content may change only for an equal digest. */
  ghost predicate Grows(s: State, t: State) {
    forall k :: k in s.store && Final(k) ==> k in t.store
  }

  lemma {:induction false} KeyFacts(hash: Hash, jobs: seq<Job>, p: nat)
    requires JobsOk(jobs) && p < |jobs|
    ensures HasSuffix(Tmp(hash, jobs[p]), ".tmp") && Final(Key(hash, jobs[p]))
    ensures forall q :: 0 <= q < |jobs| && q != p ==> Tmp(hash, jobs[q]) != Tmp(hash, jobs[p])
  {
    var key := Key(hash, jobs[p]);
    TmpKeyIsTmp(key, jobs[p].rnd);
    CommittedIsNotTmp(jobs[p].tli, jobs[p].seg, hash(jobs[p].src));
    assert HasPrefix(key, "wal/") by { PrefixInWal(jobs[p].tli, jobs[p].seg, key); }
    forall q | 0 <= q < |jobs| && q != p
      ensures Tmp(hash, jobs[q]) != Tmp(hash, jobs[p])
    {
      if Tmp(hash, jobs[q]) == Tmp(hash, jobs[p]) {
        TmpKeysDiffer(Key(hash, jobs[q]), jobs[q].rnd, Key(hash, jobs[p]), jobs[p].rnd);
      }
    }
  }

  lemma {:induction false} PrefixInWal(tli: Timeline, seg: string, k: string)
    ensures HasPrefix(k, SegmentKeyPrefix(tli, seg)) ==> HasPrefix(k, "wal/")
  {
    var p := SegmentKeyPrefix(tli, seg);
    assert p[..4] == "wal/";
    if HasPrefix(k, p) {
      assert k[..4] == p[..4];
    }
  }

  /** A key and its staging keys lie in the directory of the timeline. */
  lemma {:induction false} KeyInItsDir(hash: Hash, j: Job)
    requires IsArchivable(j.seg) && '/' !in j.rnd
    ensures DirOf(Key(hash, j)) == SegmentDir(j.tli) == DirOf(Tmp(hash, j))
  {
    var hex := HexEncode(hash(j.src));
    ArchivableHasNo(j.seg, '/');
    HexHasNoSlash(hex);
    var base := j.seg + "-" + hex;
    assert Key(hash, j) == SegmentDir(j.tli) + "/" + base;
    DirOfName(SegmentDir(j.tli), base);
    assert Tmp(hash, j) == SegmentDir(j.tli) + "/" + (base + "." + j.rnd + ".tmp");
    DirOfName(SegmentDir(j.tli), base + "." + j.rnd + ".tmp");
  }

  /** A step that leaves the committed keys alone and touches at most p's staging key. */
  ghost predicate PrivateStep(hash: Hash, jobs: seq<Job>, s: State, t: State, p: nat)
    requires p < |jobs| == |s.pcs| == |t.pcs|
  {
    && t.pcs == s.pcs[p := t.pcs[p]]
    && s.ever <= t.ever <= s.ever + {Tmp(hash, jobs[p])}
    && (forall k :: k != Tmp(hash, jobs[p]) ==>
          (k in s.store <==> k in t.store) && (k in s.store ==> t.store[k] == s.store[k]))
    && t.store.Keys <= t.ever
    && s.settled <= t.settled && (forall k :: k in t.settled ==> k in t.store && Final(k))
    && (forall q :: q in t.owned ==> q in s.owned || (q == p && Key(hash, jobs[p]) in t.settled))
  }

  lemma {:induction false} PrivateStepOk(hash: Hash, jobs: seq<Job>, s0: Store, s: State, t: State, p: nat)
    requires JobsOk(jobs) && Inv(hash, jobs, s0, s) && p < |jobs| == |t.pcs|
    requires PrivateStep(hash, jobs, s, t, p) && PusherOk(hash, jobs, t, p)
    ensures Inv(hash, jobs, s0, t) && Grows(s, t)
  {
    KeyFacts(hash, jobs, p);
    assert ArchiveOk(hash, t.store) by {
      forall k | k in t.store && Final(k)
        ensures CommittedKey(hash, t.store, k)
      {
        assert CommittedKey(hash, s.store, k);
      }
    }
    forall q | 0 <= q < |jobs|
      ensures PusherOk(hash, jobs, t, q)
    {
      if q != p {
        KeyFacts(hash, jobs, q);
        OtherPusherOk(hash, jobs, s, t, q);
      }
    }
  }

  /** A pusher that did not move keeps its facts while its staging key and committed keys stay. */
  lemma {:induction false} OtherPusherOk(hash: Hash, jobs: seq<Job>, s: State, t: State, q: nat)
    requires q < |jobs| == |s.pcs| == |t.pcs| && t.pcs[q] == s.pcs[q] && PusherOk(hash, jobs, s, q)
    requires Final(Key(hash, jobs[q])) && Grows(s, t)
    requires Tmp(hash, jobs[q]) in s.store ==>
               Tmp(hash, jobs[q]) in t.store && t.store[Tmp(hash, jobs[q])] == s.store[Tmp(hash, jobs[q])]
    ensures PusherOk(hash, jobs, t, q)
  {
    if s.pcs[q] == Finished(SegmentMismatch) {
      var k :| k in s.store && k != Key(hash, jobs[q]) && IsMatch(k, jobs[q].tli, jobs[q].seg);
      assert k in t.store;
    }
  }

  /** The listing's answer: a mismatch is only reported when a conflicting key is committed. */
  lemma {:induction false} ListEndOk(hash: Hash, jobs: seq<Job>, s0: Store, s: State, p: nat, paths: seq<string>)
    requires JobsOk(jobs) && Inv(hash, jobs, s0, s) && Enabled(hash, jobs, s, ListEnd(p, paths))
    ensures PusherOk(hash, jobs, Apply(hash, jobs, s, ListEnd(p, paths)), p)
  {
    var j, key := jobs[p], Key(hash, jobs[p]);
    LookupMeans(paths, j.tli, j.seg);
    var r := LookupIn(paths, j.tli, j.seg);
    forall k | k in paths && IsMatch(k, j.tli, j.seg)
      ensures k in s.store
    {
      PrefixInWal(j.tli, j.seg, k);
    }
    if r.Mismatch? {
      var x, y :| x != y && x in paths && y in paths && IsMatch(x, j.tli, j.seg) && IsMatch(y, j.tli, j.seg);
      var k := if x == key then y else x;
      assert k in s.store && k != key;
    } else if r.Found? {
      assert r.key in s.store;
    }
  }

  /** The store after the rename of a job's staged bytes. */
  predicate Renamed(hash: Hash, j: Job, s: State, t: State) {
    && t.store == (s.store - {Tmp(hash, j)})[Key(hash, j) := j.src]
    && t.ever == s.ever + {Key(hash, j)} && t.settled == s.settled && t.owned == s.owned
  }

  /** The staged bytes are the job's, so the new content has the key's digest. */
  lemma {:induction false} RenameKeepsArchive(hash: Hash, j: Job, s: State, t: State)
    requires IsArchivable(j.seg) && ArchiveOk(hash, s.store) && Renamed(hash, j, s, t)
    ensures ArchiveOk(hash, t.store)
  {
    forall k | k in t.store && Final(k)
      ensures CommittedKey(hash, t.store, k)
    {
      if k == Key(hash, j) {
        assert k == SegmentKey(j.tli, j.seg, hash(t.store[k]));
      } else {
        assert CommittedKey(hash, s.store, k);
      }
    }
  }

  lemma {:induction false} RenameKeepsOrigins(hash: Hash, jobs: seq<Job>, s0: Store, s: State, t: State, p: nat)
    requires p < |jobs| && HasSuffix(Tmp(hash, jobs[p]), ".tmp") && Final(Key(hash, jobs[p]))
    requires EverOk(s) && OriginsOk(hash, jobs, s0, s) && Renamed(hash, jobs[p], s, t)
    ensures EverOk(t) && OriginsOk(hash, jobs, s0, t) && Grows(s, t)
  {
  }

  lemma {:induction false} RenameKeepsOthers(hash: Hash, jobs: seq<Job>, s: State, t: State, p: nat, q: nat)
    requires JobsOk(jobs) && p < |jobs| && q < |jobs| && p != q && |s.pcs| == |jobs| == |t.pcs| && Grows(s, t)
    requires Renamed(hash, jobs[p], s, t) && t.pcs[q] == s.pcs[q] && PusherOk(hash, jobs, s, q)
    ensures PusherOk(hash, jobs, t, q)
  {
    KeyFacts(hash, jobs, q);
    KeyFacts(hash, jobs, p);
    OtherPusherOk(hash, jobs, s, t, q);
  }

  lemma {:induction false} RenameKeepsSettled(hash: Hash, jobs: seq<Job>, s: State, t: State, p: nat)
    requires p < |jobs| && HasSuffix(Tmp(hash, jobs[p]), ".tmp") && |s.pcs| == |jobs| == |t.pcs|
    requires SettledOk(hash, jobs, s) && Renamed(hash, jobs[p], s, t)
    ensures SettledOk(hash, jobs, t)
  {
  }

  /** The overwriting rename. */
  lemma {:induction false} RenameOk(hash: Hash, jobs: seq<Job>, s0: Store, s: State, p: nat)
    requires JobsOk(jobs) && Inv(hash, jobs, s0, s) && Enabled(hash, jobs, s, Rename(p))
    ensures Inv(hash, jobs, s0, Apply(hash, jobs, s, Rename(p))) && Grows(s, Apply(hash, jobs, s, Rename(p)))
  {
    var t := Apply(hash, jobs, s, Rename(p));
    KeyFacts(hash, jobs, p);
    assert PusherOk(hash, jobs, s, p);
    assert Renamed(hash, jobs[p], s, t);
    RenameKeepsArchive(hash, jobs[p], s, t);
    RenameKeepsOrigins(hash, jobs, s0, s, t, p);
    RenameKeepsSettled(hash, jobs, s, t, p);
    forall q | 0 <= q < |jobs|
      ensures PusherOk(hash, jobs, t, q)
    {
      if q != p {
        RenameKeepsOthers(hash, jobs, s, t, p, q);
      }
    }
  }

  /** Every step but the rename touches at most the pusher's own staging key. */
  lemma {:induction false} OtherStepIsPrivate(hash: Hash, jobs: seq<Job>, s0: Store, s: State, a: Step)
    requires JobsOk(jobs) && Inv(hash, jobs, s0, s) && Enabled(hash, jobs, s, a) && !a.Rename?
    ensures PrivateStep(hash, jobs, s, Apply(hash, jobs, s, a), a.p)
  {
    KeyFacts(hash, jobs, a.p);
    if a.PutOk? || a.PutFail? || a.Delete? {
      StagingIsPrivate(hash, jobs, s, a);
    } else if a.Sync? || a.Flush? {
      SyncIsPrivate(hash, jobs, s, a);
    } else {
      MoveIsPrivate(hash, jobs, s, Apply(hash, jobs, s, a), a.p);
    }
  }

  lemma {:induction false} MoveIsPrivate(hash: Hash, jobs: seq<Job>, s: State, t: State, p: nat)
    requires p < |jobs| == |s.pcs| == |t.pcs| && t == s.(pcs := s.pcs[p := t.pcs[p]])
    requires EverOk(s) && SettledOk(hash, jobs, s)
    ensures PrivateStep(hash, jobs, s, t, p)
  {
  }

  lemma {:induction false} StagingIsPrivate(hash: Hash, jobs: seq<Job>, s: State, a: Step)
    requires Enabled(hash, jobs, s, a) && (a.PutOk? || a.PutFail? || a.Delete?)
    requires HasSuffix(Tmp(hash, jobs[a.p]), ".tmp") && EverOk(s) && SettledOk(hash, jobs, s)
    ensures PrivateStep(hash, jobs, s, Apply(hash, jobs, s, a), a.p)
  {
  }

  lemma {:induction false} SyncIsPrivate(hash: Hash, jobs: seq<Job>, s: State, a: Step)
    requires JobsOk(jobs) && Enabled(hash, jobs, s, a) && (a.Sync? || a.Flush?) && EverOk(s) && SettledOk(hash, jobs, s)
    requires PusherOk(hash, jobs, s, a.p) && Final(Key(hash, jobs[a.p]))
    ensures PrivateStep(hash, jobs, s, Apply(hash, jobs, s, a), a.p)
  {
    HexHasNoSlash(jobs[a.p].rnd);
    KeyInItsDir(hash, jobs[a.p]);
  }

  lemma {:induction false} OtherStepOk(hash: Hash, jobs: seq<Job>, s0: Store, s: State, a: Step)
    requires JobsOk(jobs) && Inv(hash, jobs, s0, s) && Enabled(hash, jobs, s, a) && !a.Rename?
    ensures PusherOk(hash, jobs, Apply(hash, jobs, s, a), a.p)
  {
    KeyFacts(hash, jobs, a.p);
    if a.ListEnd? {
      ListEndOk(hash, jobs, s0, s, a.p, a.paths);
    } else {
      OwnStepOk(hash, jobs, s, a);
    }
  }

  lemma {:induction false} OwnStepOk(hash: Hash, jobs: seq<Job>, s: State, a: Step)
    requires Enabled(hash, jobs, s, a) && !a.Rename? && !a.ListEnd? && PusherOk(hash, jobs, s, a.p)
    requires HasSuffix(Tmp(hash, jobs[a.p]), ".tmp") && Final(Key(hash, jobs[a.p]))
    ensures PusherOk(hash, jobs, Apply(hash, jobs, s, a), a.p)
  {
    var t := Apply(hash, jobs, s, a);
    assert Key(hash, jobs[a.p]) in s.store ==> Key(hash, jobs[a.p]) in t.store;
    if a.Flush? && s.pcs[a.p] == Finished(SegmentMismatch) {
      assert Conflict(hash, jobs, s, a.p);
    }
  }

  lemma {:induction false} StepKeepsInv(hash: Hash, jobs: seq<Job>, s0: Store, s: State, a: Step)
    requires JobsOk(jobs) && Inv(hash, jobs, s0, s) && Enabled(hash, jobs, s, a)
    ensures Inv(hash, jobs, s0, Apply(hash, jobs, s, a)) && Grows(s, Apply(hash, jobs, s, a))
  {
    if a.Rename? {
      RenameOk(hash, jobs, s0, s, a.p);
    } else {
      OtherStepIsPrivate(hash, jobs, s0, s, a);
      OtherStepOk(hash, jobs, s0, s, a);
      PrivateStepOk(hash, jobs, s0, s, Apply(hash, jobs, s, a), a.p);
    }
  }

  lemma {:induction false} RunKeepsInv(hash: Hash, jobs: seq<Job>, s0: Store, s: State, steps: seq<Step>)
    requires JobsOk(jobs) && Inv(hash, jobs, s0, s) && Runs(hash, jobs, s, steps)
    ensures Inv(hash, jobs, s0, Exec(hash, jobs, s, steps)) && Grows(s, Exec(hash, jobs, s, steps))
    decreases |steps|
  {
    if steps != [] {
      StepKeepsInv(hash, jobs, s0, s, steps[0]);
      RunKeepsInv(hash, jobs, s0, Apply(hash, jobs, s, steps[0]), steps[1..]);
    }
  }

  // ----------------------------------------------------------------- theorems

  /** A content that was in the archive at the start or is some job's source. */
  ghost predicate InPlay(jobs: seq<Job>, s0: Store, b: Bytes) {
    || (exists k :: k in s0 && s0[k] == b)
    || (exists q :: 0 <= q < |jobs| && jobs[q].src == b)
  }

  /** No two different contents in play have the same digest. */
  ghost predicate CollisionFree(hash: Hash, jobs: seq<Job>, s0: Store) {
    forall x, y :: InPlay(jobs, s0, x) && InPlay(jobs, s0, y) && hash(x) == hash(y) ==> x == y
  }

  lemma {:induction false} CommittedInPlay(hash: Hash, jobs: seq<Job>, s0: Store, s: State, k: string)
    requires Inv(hash, jobs, s0, s) && k in s.store && Final(k)
    ensures InPlay(jobs, s0, s.store[k])
  {
    if !(k in s0 && s.store[k] == s0[k]) {
      var q :| 0 <= q < |jobs| && k == Key(hash, jobs[q]) && s.store[k] == jobs[q].src;
    }
  }

  /** One committed key has one digest, whatever states it is looked at in. */
  lemma {:induction false} SameKeySameDigest(hash: Hash, s: Store, t: Store, k: string)
    requires k in s && k in t && CommittedKey(hash, s, k) && CommittedKey(hash, t, k)
    ensures hash(s[k]) == hash(t[k])
  {
    var t1, seg1 :| IsArchivable(seg1) && k == SegmentKey(t1, seg1, hash(s[k]));
    var t2, seg2 :| IsArchivable(seg2) && k == SegmentKey(t2, seg2, hash(t[k]));
    SegmentKeyInjective(t1, seg1, hash(s[k]), t2, seg2, hash(t[k]));
  }

  /**
   Committed segments never change: whatever any number of pushers do afterwards, with
   any failures, every committed key keeps exactly its content.
   */
  lemma {:induction false} CommittedNeverChanges(hash: Hash, jobs: seq<Job>, s0: Store, s: State, steps: seq<Step>, k: string)
    requires JobsOk(jobs) && CollisionFree(hash, jobs, s0)
    requires Inv(hash, jobs, s0, s) && Runs(hash, jobs, s, steps)
    requires k in s.store && Final(k)
    ensures var t := Exec(hash, jobs, s, steps);
            k in t.store && t.store[k] == s.store[k]
  {
    RunKeepsInv(hash, jobs, s0, s, steps);
    var t := Exec(hash, jobs, s, steps);
    assert CommittedKey(hash, s.store, k) && CommittedKey(hash, t.store, k);
    SameKeySameDigest(hash, s.store, t.store, k);
    CommittedInPlay(hash, jobs, s0, s, k);
    CommittedInPlay(hash, jobs, s0, t, k);
  }

  /**
   Push's promise, over every run from a sound archive: the archive stays sound, and a
   pusher that reported success finds exactly its source bytes under its key.
   */
  lemma {:induction false} PushIsSafe(hash: Hash, jobs: seq<Job>, s0: Store, steps: seq<Step>)
    requires JobsOk(jobs) && ArchiveOk(hash, s0) && CollisionFree(hash, jobs, s0)
    requires Runs(hash, jobs, Init(s0, jobs), steps)
    ensures var t := Exec(hash, jobs, Init(s0, jobs), steps);
            && |t.pcs| == |jobs|
            && ArchiveOk(hash, t.store)
            && forall p :: 0 <= p < |jobs| && t.pcs[p] == Finished(Success) ==>
                 Key(hash, jobs[p]) in t.store && t.store[Key(hash, jobs[p])] == jobs[p].src
  {
    InitOk(hash, jobs, s0);
    RunKeepsInv(hash, jobs, s0, Init(s0, jobs), steps);
    var t := Exec(hash, jobs, Init(s0, jobs), steps);
    forall p | 0 <= p < |jobs| && t.pcs[p] == Finished(Success)
      ensures Key(hash, jobs[p]) in t.store && t.store[Key(hash, jobs[p])] == jobs[p].src
    {
      assert PusherOk(hash, jobs, t, p);
      SuccessHolds(hash, jobs, s0, t, p);
    }
  }

  lemma {:induction false} SuccessHolds(hash: Hash, jobs: seq<Job>, s0: Store, t: State, p: nat)
    requires JobsOk(jobs) && CollisionFree(hash, jobs, s0) && Inv(hash, jobs, s0, t)
    requires p < |jobs| && Key(hash, jobs[p]) in t.store
    ensures t.store[Key(hash, jobs[p])] == jobs[p].src
  {
    var j, key := jobs[p], Key(hash, jobs[p]);
    KeyFacts(hash, jobs, p);
    var mine: Store := map[key := j.src];
    assert CommittedKey(hash, mine, key) by {
      assert IsArchivable(j.seg) && key == SegmentKey(j.tli, j.seg, hash(mine[key]));
    }
    SameKeySameDigest(hash, t.store, mine, key);
    CommittedInPlay(hash, jobs, s0, t, key);
    assert InPlay(jobs, s0, j.src);
  }

  /** Two calls with the same bytes: the second succeeds on the first one's rename before anything is synced. */
  lemma {:induction false} SuccessOnUnsynced(hash: Hash, j: Job, rnd: string) returns (steps: seq<Step>)
    requires JobsOk([j, j.(rnd := rnd)])
    ensures var jobs := [j, j.(rnd := rnd)];
            && Runs(hash, jobs, Init(map[], jobs), steps)
            && var t := Exec(hash, jobs, Init(map[], jobs), steps);
               |t.pcs| == 2 && t.pcs[1] == Finished(Success) && Key(hash, j) in t.store && t.settled == {}
  {
    var jobs := [j, j.(rnd := rnd)];
    assert jobs[0] == j && jobs[1] == j.(rnd := rnd);
    KeyFacts(hash, jobs, 0);
    var s0 := Init(map[], jobs);
    StageFirst(hash, jobs, s0);
    var before, after := [Stat(0)] + [ListBegin(0), ListEnd(0, []), PutOk(0)], [CommitStat(0)] + [Rename(0), Stat(1)];
    SeeUnsynced(hash, jobs, Exec(hash, jobs, s0, before));
    RunConcat(hash, jobs, s0, before, after);
    steps := before + after;
  }

  /** The first call finds nothing and stages its bytes. */
  lemma {:induction false} StageFirst(hash: Hash, jobs: seq<Job>, s0: State)
    requires |jobs| == 2 && s0 == Init(map[], jobs) && HasSuffix(Tmp(hash, jobs[0]), ".tmp")
    ensures var steps := [Stat(0)] + [ListBegin(0), ListEnd(0, []), PutOk(0)];
            && Runs(hash, jobs, s0, steps)
            && var t := Exec(hash, jobs, s0, steps);
               t.pcs == [AtCommitStat, AtStat] && t.store == map[Tmp(hash, jobs[0]) := jobs[0].src] && t.settled == {}
  {
    var s1 := Apply(hash, jobs, s0, Stat(0));
    var s2 := Apply(hash, jobs, s1, ListBegin(0));
    assert s1.store == map[] && s1.store.Keys == {} && s1.ever == {} && s1.settled == {};
    assert s2.pcs[0] == Looking({}, {}) && s2.pcs[1] == AtStat && |s2.pcs| == 2;
    assert s2.pcs == [Looking({}, {}), AtStat];
    StageListed(hash, jobs, s2);
    RunStep(hash, jobs, s1, ListBegin(0), [ListEnd(0, [])] + [PutOk(0)]);
    RunStep(hash, jobs, s0, Stat(0), [ListBegin(0), ListEnd(0, []), PutOk(0)]);
  }

  lemma {:induction false} StageListed(hash: Hash, jobs: seq<Job>, s: State)
    requires |jobs| == 2 && s.pcs == [Looking({}, {}), AtStat] && s.store == map[] && s.settled == {}
    requires HasSuffix(Tmp(hash, jobs[0]), ".tmp")
    ensures var steps := [ListEnd(0, [])] + [PutOk(0)];
            && Runs(hash, jobs, s, steps)
            && var t := Exec(hash, jobs, s, steps);
               t.pcs == [AtCommitStat, AtStat] && t.store == map[Tmp(hash, jobs[0]) := jobs[0].src] && t.settled == {}
  {
    var t := Apply(hash, jobs, s, ListEnd(0, []));
    assert t.pcs[0] == AtPut;
    RunStep(hash, jobs, t, PutOk(0), []);
    RunStep(hash, jobs, s, ListEnd(0, []), [PutOk(0)] + []);
  }

  /** It renames, and the second call sees the key before the directory is synced. */
  lemma {:induction false} SeeUnsynced(hash: Hash, jobs: seq<Job>, s: State)
    requires |jobs| == 2 && Key(hash, jobs[1]) == Key(hash, jobs[0]) && Final(Key(hash, jobs[0]))
    requires HasSuffix(Tmp(hash, jobs[0]), ".tmp") && s.pcs == [AtCommitStat, AtStat] && s.settled == {}
    requires s.store == map[Tmp(hash, jobs[0]) := jobs[0].src]
    ensures var steps := [CommitStat(0)] + [Rename(0), Stat(1)];
            && Runs(hash, jobs, s, steps)
            && var t := Exec(hash, jobs, s, steps);
               && |t.pcs| == 2 && t.pcs[1] == Finished(Success)
               && Key(hash, jobs[0]) in t.store && t.settled == {}
  {
    var s1 := Apply(hash, jobs, s, CommitStat(0));
    var s2 := Apply(hash, jobs, s1, Rename(0));
    var s3 := Apply(hash, jobs, s2, Stat(1));
    assert s3.settled == {};
    RunStep(hash, jobs, s2, Stat(1), []);
    RunStep(hash, jobs, s1, Rename(0), [Stat(1)] + []);
    RunStep(hash, jobs, s, CommitStat(0), [Rename(0), Stat(1)]);
  }

  lemma {:induction false} RunConcat(hash: Hash, jobs: seq<Job>, s: State, a: seq<Step>, b: seq<Step>)
    requires Runs(hash, jobs, s, a) && Runs(hash, jobs, Exec(hash, jobs, s, a), b)
    ensures Runs(hash, jobs, s, a + b) && Exec(hash, jobs, s, a + b) == Exec(hash, jobs, Exec(hash, jobs, s, a), b)
    decreases |a|
  {
    if a == [] {
      assert a + b == b;
    } else {
      assert (a + b)[1..] == a[1..] + b;
      RunConcat(hash, jobs, Apply(hash, jobs, s, a[0]), a[1..], b);
    }
  }

  lemma {:induction false} RunStep(hash: Hash, jobs: seq<Job>, s: State, a: Step, rest: seq<Step>)
    requires Enabled(hash, jobs, s, a) && Runs(hash, jobs, Apply(hash, jobs, s, a), rest)
    ensures Runs(hash, jobs, s, [a] + rest)
    ensures Exec(hash, jobs, s, [a] + rest) == Exec(hash, jobs, Apply(hash, jobs, s, a), rest)
  {
    assert ([a] + rest)[1..] == rest;
  }

  /**
   A mismatch report is never spurious: if every job for p's segment name pushes p's bytes
   and the archive started without another copy, p does not report a mismatch in any run.
   */
  lemma {:induction false} IdenticalPushersNeverMismatch(hash: Hash, jobs: seq<Job>, s0: Store, steps: seq<Step>, p: nat)
    requires JobsOk(jobs) && ArchiveOk(hash, s0) && Runs(hash, jobs, Init(s0, jobs), steps) && p < |jobs|
    requires forall q :: 0 <= q < |jobs| && jobs[q].tli == jobs[p].tli && jobs[q].seg == jobs[p].seg ==>
               jobs[q].src == jobs[p].src
    requires forall k :: k in s0 && IsMatch(k, jobs[p].tli, jobs[p].seg) ==> k == Key(hash, jobs[p])
    ensures var t := Exec(hash, jobs, Init(s0, jobs), steps);
            |t.pcs| == |jobs| && t.pcs[p] != Finished(SegmentMismatch)
  {
    InitOk(hash, jobs, s0);
    RunKeepsInv(hash, jobs, s0, Init(s0, jobs), steps);
    var t := Exec(hash, jobs, Init(s0, jobs), steps);
    assert PusherOk(hash, jobs, t, p);
    forall k | k in t.store && IsMatch(k, jobs[p].tli, jobs[p].seg)
      ensures k == Key(hash, jobs[p])
    {
      OnlyOwnMatch(hash, jobs, s0, t, p, k);
    }
  }

  lemma {:induction false} OnlyOwnMatch(hash: Hash, jobs: seq<Job>, s0: Store, t: State, p: nat, k: string)
    requires JobsOk(jobs) && p < |jobs| && OriginsOk(hash, jobs, s0, t) && k in t.store && IsMatch(k, jobs[p].tli, jobs[p].seg)
    requires forall q :: 0 <= q < |jobs| && jobs[q].tli == jobs[p].tli && jobs[q].seg == jobs[p].seg ==> jobs[q].src == jobs[p].src
    requires k in s0 ==> k == Key(hash, jobs[p])
    ensures k == Key(hash, jobs[p])
  {
    PrefixInWal(jobs[p].tli, jobs[p].seg, k);
    if k !in s0 {
      var q :| 0 <= q < |jobs| && k == Key(hash, jobs[q]) && t.store[k] == jobs[q].src;
      SegmentKeyInjective(jobs[p].tli, jobs[p].seg, hash(jobs[p].src), jobs[q].tli, jobs[q].seg, hash(jobs[q].src));
    }
  }

  /**
   What FindSegment may answer when its listing began in b and ended in e: what the paths it got
   say; "missing" when a staging key vanished under it; or an error.
   */
  ghost predicate MayAnswer(b: State, e: State, tli: Timeline, seg: string, r: Lookup) {
    || (exists paths :: ListingOf(e, b.store.Keys, paths) && LookupIn(paths, tli, seg) == r)
    || (r == Missing && VanishedSince(e, b.store.Keys, b.ever, tli))
    || r == ListFailed
  }

  /** A listing that completes after the divergence shows both copies, however long it takes. */
  lemma {:induction false} CompletedListingDiverges(hash: Hash, jobs: seq<Job>, s0: Store, b: State, during: seq<Step>,
                                 tli: Timeline, seg: string, k1: string, k2: string, paths: seq<string>)
    requires JobsOk(jobs) && Inv(hash, jobs, s0, b) && Runs(hash, jobs, b, during)
    requires k1 != k2 && k1 in b.store && k2 in b.store && IsMatch(k1, tli, seg) && IsMatch(k2, tli, seg)
    requires ListingOf(Exec(hash, jobs, b, during), b.store.Keys, paths)
    ensures LookupIn(paths, tli, seg) == Mismatch
  {
    RunKeepsInv(hash, jobs, s0, b, during);
    PrefixInWal(tli, seg, k1);
    PrefixInWal(tli, seg, k2);
    assert k1 in paths && k2 in paths;
    LookupMeans(paths, tli, seg);
  }

  lemma {:induction false} SomeListing(keys: set<string>) returns (paths: seq<string>)
    ensures Distinct(paths) && forall k :: k in paths <==> k in keys
    decreases |keys|
  {
    if keys == {} {
      paths := [];
    } else {
      var k :| k in keys;
      var rest := SomeListing(keys - {k});
      paths := rest + [k];
    }
  }

  /**
   Once two contents of a name are committed, a lookup begun then or later answers with a mismatch,
   or fails, or says "missing"; and it can say "missing" exactly when a staging key of the directory
   vanished while it was listing.
   */
  lemma {:induction false} DivergenceAnswers(hash: Hash, jobs: seq<Job>, s0: Store, s: State, before: seq<Step>, during: seq<Step>,
                          tli: Timeline, seg: string, k1: string, k2: string)
    requires JobsOk(jobs) && Inv(hash, jobs, s0, s) && Runs(hash, jobs, s, before)
    requires Runs(hash, jobs, Exec(hash, jobs, s, before), during)
    requires k1 != k2 && k1 in s.store && k2 in s.store && IsMatch(k1, tli, seg) && IsMatch(k2, tli, seg)
    ensures var b := Exec(hash, jobs, s, before);
            var e := Exec(hash, jobs, b, during);
            && MayAnswer(b, e, tli, seg, Mismatch)
            && (MayAnswer(b, e, tli, seg, Missing) <==> VanishedSince(e, b.store.Keys, b.ever, tli))
            && forall r :: MayAnswer(b, e, tli, seg, r) ==> r == Mismatch || r == Missing || r == ListFailed
  {
    var b := Exec(hash, jobs, s, before);
    RunKeepsInv(hash, jobs, s0, s, before);
    PrefixInWal(tli, seg, k1);
    PrefixInWal(tli, seg, k2);
    AnswersFrom(hash, jobs, s0, b, during, tli, seg, k1, k2);
  }

  /** The same from the moment the listing begins. */
  lemma {:induction false} AnswersFrom(hash: Hash, jobs: seq<Job>, s0: Store, b: State, during: seq<Step>,
                                       tli: Timeline, seg: string, k1: string, k2: string)
    requires JobsOk(jobs) && Inv(hash, jobs, s0, b) && Runs(hash, jobs, b, during)
    requires k1 != k2 && k1 in b.store && k2 in b.store && IsMatch(k1, tli, seg) && IsMatch(k2, tli, seg)
    ensures var e := Exec(hash, jobs, b, during);
            && MayAnswer(b, e, tli, seg, Mismatch)
            && (MayAnswer(b, e, tli, seg, Missing) <==> VanishedSince(e, b.store.Keys, b.ever, tli))
            && forall r :: MayAnswer(b, e, tli, seg, r) ==> r == Mismatch || r == Missing || r == ListFailed
  {
    var e := Exec(hash, jobs, b, during);
    RunKeepsInv(hash, jobs, s0, b, during);
    forall paths | ListingOf(e, b.store.Keys, paths)
      ensures LookupIn(paths, tli, seg) == Mismatch
    {
      CompletedListingDiverges(hash, jobs, s0, b, during, tli, seg, k1, k2, paths);
    }
    var all := SomeListing(e.store.Keys);
    assert ListingOf(e, b.store.Keys, all);
  }

  /**
   A run that hides a divergence: two copies of a segment are committed, a push of another segment is
   staged in the same directory, and its rename happens under the listing.
   */
  lemma {:induction false} DivergenceCanBeHidden(hash: Hash, j: Job, tli: Timeline, seg: string, x: Bytes, y: Bytes)
    returns (s0: Store, before: seq<Step>, during: seq<Step>)
    requires JobsOk([j]) && j.tli == tli && IsArchivable(seg) && seg != j.seg && hash(x) != hash(y)
    ensures ArchiveOk(hash, s0) && Runs(hash, [j], Init(s0, [j]), before)
    ensures var b := Exec(hash, [j], Init(s0, [j]), before);
            && Runs(hash, [j], b, during)
            && SegmentKey(tli, seg, hash(x)) in b.store && SegmentKey(tli, seg, hash(y)) in b.store
            && SegmentKey(tli, seg, hash(x)) != SegmentKey(tli, seg, hash(y))
            && MayAnswer(b, Exec(hash, [j], b, during), tli, seg, Missing)
  {
    var k1, k2 := SegmentKey(tli, seg, hash(x)), SegmentKey(tli, seg, hash(y));
    s0 := map[k1 := x, k2 := y];
    assert [j][0] == j;
    TwoCopies(hash, tli, seg, x, y, j);
    ReadyToHide(hash, j, s0, k1, k2);
    before, during := HideUnder(hash, [j], s0, [k1, k2]);
  }

  lemma {:induction false} ReadyToHide(hash: Hash, j: Job, s0: Store, k1: string, k2: string)
    requires JobsOk([j]) && s0.Keys == {k1, k2} && k1 != k2 && Final(k1) && Final(k2)
    requires !IsMatch(k1, j.tli, j.seg) && !IsMatch(k2, j.tli, j.seg)
    ensures Key(hash, j) !in s0 && Tmp(hash, j) !in s0
    ensures Distinct([k1, k2]) && forall k :: k in [k1, k2] <==> k in s0
    ensures StagingIn(Tmp(hash, j), j.tli) && Tmp(hash, j) != Key(hash, j)
  {
    assert [j][0] == j;
    KeyFacts(hash, [j], 0);
    HexHasNoSlash(j.rnd);
    KeyInItsDir(hash, j);
    OwnKeysAreNew(hash, j, s0);
  }

  /** The only pusher stages its bytes and renames them while somebody lists. */
  lemma {:induction false} HideUnder(hash: Hash, jobs: seq<Job>, s0: Store, paths: seq<string>)
    returns (before: seq<Step>, during: seq<Step>)
    requires |jobs| == 1 && Key(hash, jobs[0]) !in s0 && Tmp(hash, jobs[0]) !in s0
    requires Distinct(paths) && (forall k :: k in paths <==> k in s0)
    requires forall k :: k in paths ==> !IsMatch(k, jobs[0].tli, jobs[0].seg)
    requires StagingIn(Tmp(hash, jobs[0]), jobs[0].tli) && Tmp(hash, jobs[0]) != Key(hash, jobs[0])
    ensures Runs(hash, jobs, Init(s0, jobs), before)
    ensures var b := Exec(hash, jobs, Init(s0, jobs), before);
            && Runs(hash, jobs, b, during) && s0.Keys <= b.store.Keys
            && VanishedSince(Exec(hash, jobs, b, during), b.store.Keys, b.ever, jobs[0].tli)
  {
    before := [Stat(0)] + [ListBegin(0), ListEnd(0, paths), PutOk(0)];
    during := [CommitStat(0)] + [Rename(0)];
    StageOther(hash, jobs, s0, paths);
    RenameOther(hash, jobs, Exec(hash, jobs, Init(s0, jobs), before));
  }

  lemma {:induction false} OwnKeysAreNew(hash: Hash, j: Job, s: Store)
    requires Final(Key(hash, j)) && forall k :: k in s ==> !IsMatch(k, j.tli, j.seg) && Final(k)
    requires HasSuffix(Tmp(hash, j), ".tmp")
    ensures Key(hash, j) !in s && Tmp(hash, j) !in s
  {
    assert HasPrefix(Key(hash, j), SegmentKeyPrefix(j.tli, j.seg));
  }

  lemma {:induction false} TwoCopies(hash: Hash, tli: Timeline, seg: string, x: Bytes, y: Bytes, j: Job)
    requires IsArchivable(seg) && IsArchivable(j.seg) && seg != j.seg && hash(x) != hash(y)
    ensures var k1, k2 := SegmentKey(tli, seg, hash(x)), SegmentKey(tli, seg, hash(y));
            && k1 != k2 && ArchiveOk(hash, map[k1 := x, k2 := y]) && Final(k1) && Final(k2)
            && !IsMatch(k1, j.tli, j.seg) && !IsMatch(k2, j.tli, j.seg)
  {
    var k1, k2 := SegmentKey(tli, seg, hash(x)), SegmentKey(tli, seg, hash(y));
    var s: Store := map[k1 := x, k2 := y];
    assert HasPrefix(k1, SegmentKeyPrefix(tli, seg)) && HasPrefix(k2, SegmentKeyPrefix(tli, seg));
    SegmentKeyInjective(tli, seg, hash(x), tli, seg, hash(y));
    assert CommittedKey(hash, s, k1) && CommittedKey(hash, s, k2);
    CommittedIsNotTmp(tli, seg, hash(x));
    CommittedIsNotTmp(tli, seg, hash(y));
    PrefixInWal(tli, seg, k1);
    PrefixInWal(tli, seg, k2);
    OtherName(j, tli, seg, hash(x));
    OtherName(j, tli, seg, hash(y));
  }

  lemma {:induction false} OtherName(j: Job, tli: Timeline, seg: string, d: Digest)
    requires IsArchivable(seg) && IsArchivable(j.seg) && seg != j.seg
    ensures !IsMatch(SegmentKey(tli, seg, d), j.tli, j.seg)
  {
    if HasPrefix(SegmentKey(tli, seg, d), SegmentKeyPrefix(j.tli, j.seg)) {
      SegmentKeyInjective(j.tli, j.seg, d, tli, seg, d);
    }
  }

  /** The only pusher finds nothing of its name in the listing and stages its bytes. */
  lemma {:induction false} StageOther(hash: Hash, jobs: seq<Job>, s0: Store, paths: seq<string>)
    requires |jobs| == 1 && Key(hash, jobs[0]) !in s0 && Tmp(hash, jobs[0]) !in s0
    requires Distinct(paths) && (forall k :: k in paths <==> k in s0)
    requires forall k :: k in paths ==> !IsMatch(k, jobs[0].tli, jobs[0].seg)
    ensures var steps := [Stat(0)] + [ListBegin(0), ListEnd(0, paths), PutOk(0)];
            && Runs(hash, jobs, Init(s0, jobs), steps)
            && var t := Exec(hash, jobs, Init(s0, jobs), steps);
               t.pcs == [AtCommitStat] && t.store == s0[Tmp(hash, jobs[0]) := jobs[0].src] && t.store.Keys <= t.ever
  {
    var s := Init(s0, jobs);
    var s1 := Apply(hash, jobs, s, Stat(0));
    var s2 := Apply(hash, jobs, s1, ListBegin(0));
    LookupMeans(paths, jobs[0].tli, jobs[0].seg);
    var s3 := Apply(hash, jobs, s2, ListEnd(0, paths));
    RunStep(hash, jobs, s3, PutOk(0), []);
    RunStep(hash, jobs, s2, ListEnd(0, paths), [PutOk(0)] + []);
    RunStep(hash, jobs, s1, ListBegin(0), [ListEnd(0, paths), PutOk(0)]);
    RunStep(hash, jobs, s, Stat(0), [ListBegin(0), ListEnd(0, paths), PutOk(0)]);
  }

  /** Its rename makes the staging key vanish. */
  lemma {:induction false} RenameOther(hash: Hash, jobs: seq<Job>, b: State)
    requires |jobs| == 1 && b.pcs == [AtCommitStat] && Tmp(hash, jobs[0]) in b.store && Key(hash, jobs[0]) !in b.store
    requires b.store.Keys <= b.ever && StagingIn(Tmp(hash, jobs[0]), jobs[0].tli) && Tmp(hash, jobs[0]) != Key(hash, jobs[0])
    ensures var steps := [CommitStat(0)] + [Rename(0)];
            Runs(hash, jobs, b, steps) && VanishedSince(Exec(hash, jobs, b, steps), b.store.Keys, b.ever, jobs[0].tli)
  {
    var s1 := Apply(hash, jobs, b, CommitStat(0));
    var s2 := Apply(hash, jobs, s1, Rename(0));
    RunStep(hash, jobs, s1, Rename(0), []);
    RunStep(hash, jobs, b, CommitStat(0), [Rename(0)] + []);
    assert [Rename(0)] + [] == [Rename(0)];
    assert Tmp(hash, jobs[0]) in s2.ever && Tmp(hash, jobs[0]) !in s2.store;
  }

  /**
   What a lookup finds is genuine: the found key is committed, belongs to exactly the name
   asked for, holds bytes of its own digest, and is the only committed key of that name
   among those present when the listing began.
   */
  lemma {:induction false} FoundIsGenuine(hash: Hash, jobs: seq<Job>, s0: Store, s: State, floor: set<string>,
                       tli: Timeline, seg: string, paths: seq<string>, k: string)
    requires Inv(hash, jobs, s0, s) && IsArchivable(seg)
    requires ListingOf(s, floor, paths) && LookupIn(paths, tli, seg) == Found(k)
    ensures k in s.store && Final(k)
    ensures k == SegmentKey(tli, seg, hash(s.store[k]))
    ensures forall k' :: k' in floor && k' in s.store && IsMatch(k', tli, seg) ==> k' == k
  {
    LookupMeans(paths, tli, seg);
    assert CommittedKey(hash, s.store, k);
    var t', seg' :| IsArchivable(seg') && k == SegmentKey(t', seg', hash(s.store[k]));
    SegmentKeyInjective(tli, seg, hash(s.store[k]), t', seg', hash(s.store[k]));
  }
}
