/**
 Finding an attempt to resume: findResumable, reapAbandoned and candidateBackupIDs of
 internal/backup/resume.go. JSON decoding is a parameter.
 */
module Discovery {
  import opened Common
  import opened Text
  import opened Storage
  import opened Paths
  import opened Sorting
  import opened Retention

  /** One file of a checkpoint: plaintext side and storage side. */
  datatype FileRec = FileRec(path: string, size: nat, digest: Digest, repoSize: nat, repoDigest: Digest)

  /** The fields of a checkpoint that discovery compares; checkpointedAt is None for the zero time. */
  datatype Gate = Gate(version: string, backupType: string, parent: string, compression: string,
                       recipients: seq<string>, system: nat)

  datatype Checkpoint = Checkpoint(backupID: string, gate: Gate, checkpointedAt: Option<int>, files: seq<FileRec>)

  /** UnmarshalResumeCheckpoint: None when the body is corrupt or of another schema version. */
  type Decoder = Bytes -> Option<Checkpoint>

  const MANIFEST := "/backup_manifest"
  const COPY := "/backup_manifest.copy"

  predicate Digits(s: string) { forall i :: 0 <= i < |s| ==> '0' <= s[i] <= '9' }

  predicate LooksLikeBackupID(s: string) {
    && |s| >= 16 && s[8] == 'T' && Digits(s[..8]) && Digits(s[9..15]) && (s[15] == 'F' || s[15] == 'I')
  }

  /** The form in which backups are named: date, T, time, F or I, and what an incremental adds to its parent's name. */
  predicate IdParts(date: string, time: string, kind: char) {
    |date| == 8 && Digits(date) && |time| == 6 && Digits(time) && (kind == 'F' || kind == 'I')
  }

  /** The shape test accepts exactly the texts of that form. */
  lemma {:induction false} LooksLikeIff(s: string)
    ensures LooksLikeBackupID(s) <==>
            exists date, time, kind, suffix :: IdParts(date, time, kind) && s == date + "T" + time + [kind] + suffix
  {
    if LooksLikeBackupID(s) {
      assert IdParts(s[..8], s[9..15], s[15]);
      assert s == s[..8] + "T" + s[9..15] + [s[15]] + s[16..];
    }
    forall date, time, kind, suffix | IdParts(date, time, kind) && s == date + "T" + time + [kind] + suffix
      ensures LooksLikeBackupID(s)
    {
      assert s[..8] == date && s[9..15] == time && s[15] == kind;
    }
  }

  /** Among the fulls, and among the incrementals of one parent, a later time sorts higher. */
  lemma {:induction false} LaterSortsHigher(parent: string, stamp: string, stamp': string, kind: string)
    requires |stamp| == |stamp'|
    ensures Less(parent + (stamp + kind), parent + (stamp' + kind)) <==> Less(stamp, stamp')
  {
    Trichotomy(parent, parent);
    Trichotomy(kind, kind);
    LessConcat(parent, parent, stamp + kind, stamp' + kind);
    LessConcat(stamp, stamp', kind, kind);
  }

  /** id is the first component of a stored path and has the shape of a backup ID. */
  predicate Candidate(files: Files, id: string) {
    LooksLikeBackupID(id) && '/' !in id && exists p :: p in files && HasPrefix(p, id + "/")
  }

  predicate Expired(cp: Checkpoint, grace: int, now: int) {
    grace > 0 && cp.checkpointedAt.Some? && now - cp.checkpointedAt.value > grace
  }

  /** What the walk finds at one ID. */
  datatype Verdict = Skip | Reap | Resume(cp: Checkpoint)

  function VerdictOn(files: Files, decode: Decoder, gate: Gate, grace: int, now: int, id: string): Verdict {
    if id + MANIFEST in files || id + COPY !in files then Skip
    else
      match decode(files[id + COPY])
      case None => Reap
      case Some(cp) => if Expired(cp, grace, now) then Reap else if cp.gate == gate then Resume(cp) else Skip
  }

  datatype Discovered = Nothing | Resumable(id: string, cp: Checkpoint) | BackendError

  // -------------------------------------------------------------- candidates

  /** The first path component when it names a backup. */
  function IdOf(p: string): Option<string> {
    var i := Find(p, '/');
    if i == |p| || i == 0 || !LooksLikeBackupID(p[..i]) then None else Some(p[..i])
  }

  lemma {:induction false} IdOfIs(p: string, id: string)
    ensures IdOf(p) == Some(id) <==> LooksLikeBackupID(id) && '/' !in id && HasPrefix(p, id + "/")
  {
    var i := Find(p, '/');
    if IdOf(p) == Some(id) {
      assert p[..i + 1] == id + "/";
    }
    if LooksLikeBackupID(id) && '/' !in id && HasPrefix(p, id + "/") {
      FindAfter(id, '/', p[|id| + 1..]);
      assert p == id + ['/'] + p[|id| + 1..];
      assert p[..|id|] == id;
    }
  }

  /** Greatest first, each candidate once. */
  predicate Descending(ids: seq<string>) { forall i, j :: 0 <= i < j < |ids| ==> Less(ids[j], ids[i]) }

  method CandidateBackupIDs(infos: seq<string>) returns (ids: seq<string>)
    ensures Descending(ids)
    ensures forall id :: id in ids <==> exists p :: p in infos && IdOf(p) == Some(id)
  {
    var seen: set<string> := {};
    for k := 0 to |infos|
      invariant forall id :: id in seen ==> exists p :: p in infos && IdOf(p) == Some(id)
      invariant forall j :: 0 <= j < k && IdOf(infos[j]).Some? ==> IdOf(infos[j]).value in seen
    {
      var id := IdOf(infos[k]);
      if id.Some? {
        seen := seen + {id.value};
      }
    }
    var out := Elements(seen);
    GreaterIsStrictWeak();
    ids := Sort(out, (a, b) => Less(b, a));
    SortedDescending(out, ids);
    assert forall id :: id in ids <==> id in multiset(ids);
    assert forall id :: id in out <==> id in multiset(out);
  }

  lemma {:induction false} GreaterIsStrictWeak()
    ensures StrictWeak((a, b) => Less(b, a))
  {
    LessIsStrictWeak();
  }

  lemma {:induction false} SortedDescending(out: seq<string>, ids: seq<string>)
    requires multiset(ids) == multiset(out) && SortedBy(ids, (a, b) => Less(b, a))
    requires forall i, j :: 0 <= i < j < |out| ==> out[i] != out[j]
    ensures Descending(ids)
  {
    SortedKeysDistinct(out, ids);
    forall i, j | 0 <= i < j < |ids|
      ensures Less(ids[j], ids[i])
    {
      Trichotomy(ids[i], ids[j]);
    }
  }

  lemma {:induction false} BackupPathIsListed(p: string, id: string)
    requires IdOf(p) == Some(id)
    ensures Under(p, "")
  {
    IdOfIs(p, id);
    assert p[0] == id[..8][0] != 'w';
  }

  /** The listing of everything but wal/ yields exactly the candidates. */
  lemma {:induction false} ListedCandidates(files: Files, infos: seq<string>, id: string)
    requires forall p :: p in infos <==> p in files && Under(p, "")
    ensures (exists p :: p in infos && IdOf(p) == Some(id)) <==> Candidate(files, id)
  {
    if p :| p in infos && IdOf(p) == Some(id) {
      IdOfIs(p, id);
    }
    if Candidate(files, id) {
      var p :| p in files && HasPrefix(p, id + "/");
      IdOfIs(p, id);
      BackupPathIsListed(p, id);
    }
  }

  // ------------------------------------------------------------------- reaping

  /** Everything missing from `after` lay under the directory of an ID in `reaped`. */
  predicate RemovedUnder(before: Files, after: Files, reaped: seq<string>) {
    forall p :: p in before && p !in after ==> exists k :: 0 <= k < |reaped| && HasPrefix(p, reaped[k] + "/")
  }

  /** reapAbandoned: best effort over the listing made at the start; `errors` counts the failed deletions it logs. */
  method ReapAbandoned(b: Backend, id: string, infos: seq<string>) returns (deleted: nat, errors: nat)
    modifies b
    ensures OnlyRemoved(old(b.files), b.files)
    ensures forall p :: p in old(b.files) && p !in b.files ==> p in infos && HasPrefix(p, id + "/")
    ensures errors == 0 ==> forall p :: p in infos && HasPrefix(p, id + "/") ==> p !in b.files
    ensures deleted + errors == |Listed(infos, id)|
  {
    deleted, errors := 0, 0;
    for i := 0 to |infos|
      invariant OnlyRemoved(old(b.files), b.files)
      invariant forall p :: p in old(b.files) && p !in b.files ==> p in infos && HasPrefix(p, id + "/")
      invariant errors == 0 ==> forall j :: 0 <= j < i && HasPrefix(infos[j], id + "/") ==> infos[j] !in b.files
      invariant deleted + errors == |Listed(infos[..i], id)|
    {
      assert infos[..i + 1][..i] == infos[..i];
      if HasPrefix(infos[i], id + "/") {
        var r := b.Delete(infos[i]);
        if r.DeleteError? {
          errors := errors + 1;
        } else {
          deleted := deleted + 1;
        }
      }
    }
    assert infos[..|infos|] == infos;
  }

  /** The listed paths of one directory. */
  function Listed(infos: seq<string>, id: string): seq<string> {
    if infos == [] then []
    else
      var rest, p := Listed(infos[..|infos| - 1], id), infos[|infos| - 1];
      if HasPrefix(p, id + "/") then rest + [p] else rest
  }

  /** What was reaped elsewhere does not change the verdict on an ID. */
  lemma {:induction false} VerdictUnmoved(before: Files, after: Files, reaped: seq<string>, decode: Decoder, gate: Gate, grace: int, now: int, id: string)
    requires OnlyRemoved(before, after) && RemovedUnder(before, after, reaped)
    requires '/' !in id && forall k :: 0 <= k < |reaped| ==> '/' !in reaped[k] && reaped[k] != id
    ensures VerdictOn(after, decode, gate, grace, now, id) == VerdictOn(before, decode, gate, grace, now, id)
    ensures id + MANIFEST in after <==> id + MANIFEST in before
    ensures id + COPY in after <==> id + COPY in before
  {
    KeptElsewhere(before, after, reaped, id, id + MANIFEST);
    KeptElsewhere(before, after, reaped, id, id + COPY);
  }

  lemma {:induction false} KeptElsewhere(before: Files, after: Files, reaped: seq<string>, id: string, p: string)
    requires OnlyRemoved(before, after) && RemovedUnder(before, after, reaped)
    requires '/' !in id && forall k :: 0 <= k < |reaped| ==> '/' !in reaped[k] && reaped[k] != id
    requires |p| > |id| && p[..|id| + 1] == id + "/"
    ensures p in after <==> p in before
  {
    if p in before && p !in after {
      var k :| 0 <= k < |reaped| && HasPrefix(p, reaped[k] + "/");
      DirsDisjoint(p, id, reaped[k]);
    }
  }

  // ----------------------------------------------------------------- discovery

  /** An attempt that stopped: a candidate without a final manifest that left a checkpoint. */
  predicate Unfinished(files: Files, id: string) {
    Candidate(files, id) && id + MANIFEST !in files && id + COPY in files
  }

  /** Its checkpoint is corrupt, or was taken more than the grace period ago. */
  predicate Stale(files: Files, decode: Decoder, grace: int, now: int, id: string)
    requires id + COPY in files
  {
    match decode(files[id + COPY])
    case None => true
    case Some(cp) =>
      match cp.checkpointedAt
      case None => false
      case Some(t) => grace > 0 && t + grace < now
  }

  /** An attempt that can be carried on: its checkpoint is readable, not stale, and of this very configuration. */
  predicate Live(files: Files, decode: Decoder, gate: Gate, grace: int, now: int, id: string, cp: Checkpoint) {
    && Unfinished(files, id) && decode(files[id + COPY]) == Some(cp) && cp.gate == gate
    && (match cp.checkpointedAt
        case None => true
        case Some(t) => grace <= 0 || now <= t + grace)
  }

  /** The two verdicts in terms of the checkpoint's fields. */
  lemma {:induction false} VerdictMeans(files: Files, decode: Decoder, gate: Gate, grace: int, now: int, id: string)
    requires Candidate(files, id)
    ensures VerdictOn(files, decode, gate, grace, now, id).Reap? <==>
              Unfinished(files, id) && Stale(files, decode, grace, now, id)
    ensures forall cp :: VerdictOn(files, decode, gate, grace, now, id) == Resume(cp) <==>
              Live(files, decode, gate, grace, now, id, cp)
  {
  }

  /** Only directories that discovery must give up were touched, and nothing was added or altered. */
  ghost predicate ReapedOnly(before: Files, after: Files, decode: Decoder, grace: int, now: int) {
    && OnlyRemoved(before, after)
    && forall p :: p in before && p !in after ==> Doomed(before, decode, grace, now, p)
  }

  /** The path lies under some such attempt. */
  ghost predicate Doomed(files: Files, decode: Decoder, grace: int, now: int, p: string) {
    exists id :: StaleTree(files, decode, grace, now, id, p)
  }

  /** id is the greatest attempt that can be carried on. */
  ghost predicate Greatest(files: Files, decode: Decoder, gate: Gate, grace: int, now: int, id: string, cp: Checkpoint) {
    && Live(files, decode, gate, grace, now, id, cp)
    && forall other, cp' :: Live(files, decode, gate, grace, now, other, cp') ==> AtMost(other, id)
  }

  /** Nothing is left of the stale attempts above `bound`, or of any when there is no bound. */
  ghost predicate SweptAbove(before: Files, after: Files, decode: Decoder, grace: int, now: int, bound: Option<string>) {
    forall id, p :: (bound.None? || Less(bound.value, id)) && StaleTree(before, decode, grace, now, id, p) ==> p !in after
  }

  /** p lies under the unfinished attempt id, whose checkpoint is corrupt or past its grace period. */
  predicate StaleTree(files: Files, decode: Decoder, grace: int, now: int, id: string, p: string) {
    HasPrefix(p, id + "/") && Unfinished(files, id) && Stale(files, decode, grace, now, id)
  }

  /** findResumable; `errors` counts the deletions that failed and were only logged. */
  method FindResumable(b: Backend, decode: Decoder, gate: Gate, grace: int, now: int) returns (r: Discovered, errors: nat)
    modifies b
    ensures ReapedOnly(old(b.files), b.files, decode, grace, now)
    ensures r.Resumable? ==> Greatest(old(b.files), decode, gate, grace, now, r.id, r.cp)
    ensures r.Nothing? ==> forall id, cp :: !Live(old(b.files), decode, gate, grace, now, id, cp)
    ensures !r.BackendError? && errors == 0 ==>
              SweptAbove(old(b.files), b.files, decode, grace, now, if r.Resumable? then Some(r.id) else None)
  {
    ghost var start := b.files;
    var infos := b.List("");
    if infos.None? { return BackendError, 0; }
    var ids := CandidateBackupIDs(infos.value);
    AllListed(start, infos.value, ids);
    ghost var reaped: seq<string> := [];
    errors := 0;
    for i := 0 to |ids|
      invariant Walked(start, b.files, decode, gate, grace, now, ids, i, reaped, errors == 0)
    {
      var id := ids[i];
      VerdictStands(start, b.files, decode, gate, grace, now, ids, i, reaped, errors == 0);
      ghost var before, clean := b.files, errors == 0;
      var v, failed := Visit(b, infos.value, decode, gate, grace, now, id);
      errors := errors + failed;
      if v.None? { return BackendError, errors; }
      if v.value.Resume? {
        FoundOne(start, b.files, decode, gate, grace, now, ids, i, reaped, errors == 0, v.value.cp);
        return Resumable(id, v.value.cp), errors;
      }
      if v.value.Reap? {
        ReapedOne(start, before, b.files, decode, gate, grace, now, ids, i, reaped, clean, failed == 0);
        reaped := reaped + [id];
      } else {
        SkippedOne(start, b.files, decode, gate, grace, now, ids, i, reaped, errors == 0);
      }
    }
    NothingFound(start, b.files, decode, gate, grace, now, ids, reaped, errors == 0);
    r := Nothing;
  }

  /** One turn of the walk: the verdict on a candidate, which is reaped when it must be. */
  method Visit(b: Backend, infos: seq<string>, decode: Decoder, gate: Gate, grace: int, now: int, id: string)
    returns (v: Option<Verdict>, failed: nat)
    modifies b
    ensures OnlyRemoved(old(b.files), b.files)
    ensures v.Some? ==> v.value == VerdictOn(old(b.files), decode, gate, grace, now, id)
    ensures v.None? || !v.value.Reap? ==> b.files == old(b.files) && failed == 0
    ensures forall p :: p in old(b.files) && p !in b.files ==> HasPrefix(p, id + "/")
    ensures v.Some? && v.value.Reap? && failed == 0 ==> forall p :: p in infos && HasPrefix(p, id + "/") ==> p !in b.files
  {
    failed := 0;
    v := Inspect(b, decode, gate, grace, now, id);
    if v.Some? && v.value.Reap? {
      var _, errors := ReapAbandoned(b, id, infos);
      failed := errors;
    }
  }

  /** ids are the candidates, greatest first. */
  ghost predicate Candidates(start: Files, ids: seq<string>) {
    Descending(ids) && forall id :: id in ids <==> Candidate(start, id)
  }

  lemma {:induction false} AllListed(start: Files, infos: seq<string>, ids: seq<string>)
    requires forall p :: p in infos <==> p in start && Under(p, "")
    requires Descending(ids) && forall id :: id in ids <==> exists p :: p in infos && IdOf(p) == Some(id)
    ensures Candidates(start, ids)
    ensures forall id, p :: id in ids && p in start && HasPrefix(p, id + "/") ==> p in infos
  {
    forall id
      ensures id in ids <==> Candidate(start, id)
    {
      ListedCandidates(start, infos, id);
    }
    forall id | id in ids
      ensures forall p :: p in start && HasPrefix(p, id + "/") ==> p in infos
    {
      AllOfItListed(start, infos, id);
    }
  }

  /** The first i candidates were looked at: those in `reaped` were reaped, and none of them can be carried on. */
  ghost predicate Walked(start: Files, files: Files, decode: Decoder, gate: Gate, grace: int, now: int,
                         ids: seq<string>, i: nat, reaped: seq<string>, clean: bool)
  {
    && i <= |ids| && Candidates(start, ids)
    && OnlyRemoved(start, files) && RemovedUnder(start, files, reaped)
    && Settled(start, decode, gate, grace, now, ids, i, reaped)
    && (clean ==> SweptOf(start, files, decode, gate, grace, now, ids[..i]))
  }

  ghost predicate Settled(start: Files, decode: Decoder, gate: Gate, grace: int, now: int, ids: seq<string>, i: nat, reaped: seq<string>)
    requires i <= |ids|
  {
    && (forall k :: 0 <= k < |reaped| ==> reaped[k] in ids[..i] && VerdictOn(start, decode, gate, grace, now, reaped[k]).Reap?)
    && (forall k :: 0 <= k < i ==> !VerdictOn(start, decode, gate, grace, now, ids[k]).Resume?)
  }

  lemma {:induction false} SettledMore(start: Files, decode: Decoder, gate: Gate, grace: int, now: int,
                                       ids: seq<string>, i: nat, reaped: seq<string>)
    requires i < |ids| && Settled(start, decode, gate, grace, now, ids, i, reaped)
    ensures var v := VerdictOn(start, decode, gate, grace, now, ids[i]);
            && (!v.Resume? ==> Settled(start, decode, gate, grace, now, ids, i + 1, reaped))
            && (v.Reap? ==> Settled(start, decode, gate, grace, now, ids, i + 1, reaped + [ids[i]]))
  {
    assert ids[..i + 1] == ids[..i] + [ids[i]];
    assert forall x :: x in ids[..i] ==> x in ids[..i + 1];
  }

  lemma {:induction false} VerdictStands(start: Files, files: Files, decode: Decoder, gate: Gate, grace: int, now: int,
                                         ids: seq<string>, i: nat, reaped: seq<string>, clean: bool)
    requires Walked(start, files, decode, gate, grace, now, ids, i, reaped, clean) && i < |ids|
    ensures VerdictOn(files, decode, gate, grace, now, ids[i]) == VerdictOn(start, decode, gate, grace, now, ids[i])
    ensures ReapedOnly(start, files, decode, grace, now)
  {
    ReapedAreOthers(start, ids, i, reaped);
    VerdictUnmoved(start, files, reaped, decode, gate, grace, now, ids[i]);
    ReapedAreDoomed(start, files, ids, reaped, decode, gate, grace, now);
  }

  lemma {:induction false} FoundOne(start: Files, files: Files, decode: Decoder, gate: Gate, grace: int, now: int,
                                    ids: seq<string>, i: nat, reaped: seq<string>, clean: bool, cp: Checkpoint)
    requires Walked(start, files, decode, gate, grace, now, ids, i, reaped, clean) && i < |ids|
    requires VerdictOn(start, decode, gate, grace, now, ids[i]) == Resume(cp)
    ensures Greatest(start, decode, gate, grace, now, ids[i], cp)
    ensures clean ==> SweptAbove(start, files, decode, grace, now, Some(ids[i]))
  {
    FirstIsGreatest(start, ids, i, decode, gate, grace, now, cp);
    SweptToBound(start, files, decode, gate, grace, now, ids, i);
  }

  lemma {:induction false} SkippedOne(start: Files, files: Files, decode: Decoder, gate: Gate, grace: int, now: int,
                                      ids: seq<string>, i: nat, reaped: seq<string>, clean: bool)
    requires Walked(start, files, decode, gate, grace, now, ids, i, reaped, clean) && i < |ids|
    requires VerdictOn(start, decode, gate, grace, now, ids[i]).Skip?
    ensures Walked(start, files, decode, gate, grace, now, ids, i + 1, reaped, clean)
  {
    SweptMore(start, files, files, decode, gate, grace, now, ids, i);
    SettledMore(start, decode, gate, grace, now, ids, i, reaped);
  }

  lemma {:induction false} ReapedOne(start: Files, before: Files, after: Files, decode: Decoder, gate: Gate, grace: int, now: int,
                                     ids: seq<string>, i: nat, reaped: seq<string>, clean: bool, allGone: bool)
    requires Walked(start, before, decode, gate, grace, now, ids, i, reaped, clean) && i < |ids|
    requires VerdictOn(start, decode, gate, grace, now, ids[i]).Reap? && OnlyRemoved(before, after)
    requires forall p :: p in before && p !in after ==> HasPrefix(p, ids[i] + "/")
    requires allGone ==> forall p :: p in start && HasPrefix(p, ids[i] + "/") ==> p !in after
    ensures Walked(start, after, decode, gate, grace, now, ids, i + 1, reaped + [ids[i]], clean && allGone)
  {
    SettledMore(start, decode, gate, grace, now, ids, i, reaped);
    assert (reaped + [ids[i]])[..|reaped|] == reaped;
    ReapedMore(start, before, after, reaped + [ids[i]]);
    SweptMore(start, before, after, decode, gate, grace, now, ids, i);
  }

  /** Every listed stale attempt is gone. */
  ghost predicate SweptOf(before: Files, after: Files, decode: Decoder, gate: Gate, grace: int, now: int, ids: seq<string>) {
    forall id, p :: id in ids && VerdictOn(before, decode, gate, grace, now, id).Reap? && HasPrefix(p, id + "/") ==> p !in after
  }

  lemma {:induction false} SweptMore(start: Files, before: Files, after: Files, decode: Decoder, gate: Gate, grace: int, now: int,
                                     ids: seq<string>, i: nat)
    requires i < |ids| && OnlyRemoved(before, after)
    ensures SweptOf(start, before, decode, gate, grace, now, ids[..i]) &&
            (VerdictOn(start, decode, gate, grace, now, ids[i]).Reap? ==> forall p :: HasPrefix(p, ids[i] + "/") ==> p !in after)
            ==> SweptOf(start, after, decode, gate, grace, now, ids[..i + 1])
  {
    assert ids[..i + 1] == ids[..i] + [ids[i]];
  }

  /** Every key of a candidate is on the listing made at the start. */
  lemma {:induction false} AllOfItListed(files: Files, infos: seq<string>, id: string)
    requires Candidate(files, id) && forall p :: p in infos <==> p in files && Under(p, "")
    ensures forall p :: p in files && HasPrefix(p, id + "/") ==> p in infos
  {
    forall p | p in files && HasPrefix(p, id + "/")
      ensures p in infos
    {
      IdOfIs(p, id);
      BackupPathIsListed(p, id);
    }
  }

  lemma {:induction false} SweptToBound(start: Files, after: Files, decode: Decoder, gate: Gate, grace: int, now: int, ids: seq<string>, i: nat)
    requires i < |ids| && Descending(ids) && (forall id :: id in ids <==> Candidate(start, id))
    ensures SweptOf(start, after, decode, gate, grace, now, ids[..i]) ==>
              SweptAbove(start, after, decode, grace, now, Some(ids[i]))
  {
    forall id | Candidate(start, id) && Less(ids[i], id)
      ensures id in ids[..i]
    {
      var j :| 0 <= j < |ids| && ids[j] == id;
      Trichotomy(ids[i], id);
      assert j < i;
    }
    forall id | Candidate(start, id)
      ensures VerdictOn(start, decode, gate, grace, now, id).Reap? <==> Unfinished(start, id) && Stale(start, decode, grace, now, id)
    {
      VerdictMeans(start, decode, gate, grace, now, id);
    }
  }

  lemma {:induction false} NothingFound(start: Files, after: Files, decode: Decoder, gate: Gate, grace: int, now: int,
                                        ids: seq<string>, reaped: seq<string>, clean: bool)
    requires Walked(start, after, decode, gate, grace, now, ids, |ids|, reaped, clean)
    ensures ReapedOnly(start, after, decode, grace, now)
    ensures forall id, cp :: !Live(start, decode, gate, grace, now, id, cp)
    ensures clean ==> SweptAbove(start, after, decode, grace, now, None)
  {
    assert ids[..|ids|] == ids;
    ReapedAreDoomed(start, after, ids, reaped, decode, gate, grace, now);
    SweptAll(start, after, decode, gate, grace, now, ids);
    NoneLive(start, decode, gate, grace, now, ids);
  }

  lemma {:induction false} SweptAll(start: Files, after: Files, decode: Decoder, gate: Gate, grace: int, now: int, ids: seq<string>)
    requires forall id :: id in ids <==> Candidate(start, id)
    ensures SweptOf(start, after, decode, gate, grace, now, ids) ==> SweptAbove(start, after, decode, grace, now, None)
  {
    forall id | Candidate(start, id)
      ensures VerdictOn(start, decode, gate, grace, now, id).Reap? <==> Unfinished(start, id) && Stale(start, decode, grace, now, id)
    {
      VerdictMeans(start, decode, gate, grace, now, id);
    }
  }

  lemma {:induction false} NoneLive(start: Files, decode: Decoder, gate: Gate, grace: int, now: int, ids: seq<string>)
    requires forall id :: id in ids <==> Candidate(start, id)
    requires forall k :: 0 <= k < |ids| ==> !VerdictOn(start, decode, gate, grace, now, ids[k]).Resume?
    ensures forall id, cp :: !Live(start, decode, gate, grace, now, id, cp)
  {
    forall id | Candidate(start, id)
      ensures forall cp :: !Live(start, decode, gate, grace, now, id, cp)
    {
      VerdictMeans(start, decode, gate, grace, now, id);
      assert id in ids;
    }
  }

  lemma {:induction false} ReapedMore(start: Files, before: Files, after: Files, reaped: seq<string>)
    requires |reaped| > 0 && OnlyRemoved(start, before) && OnlyRemoved(before, after)
    requires RemovedUnder(start, before, reaped[..|reaped| - 1])
    requires forall p :: p in before && p !in after ==> HasPrefix(p, reaped[|reaped| - 1] + "/")
    ensures OnlyRemoved(start, after) && RemovedUnder(start, after, reaped)
  {
    forall p | p in start && p !in after
      ensures exists k :: 0 <= k < |reaped| && HasPrefix(p, reaped[k] + "/")
    {
      if p !in before {
        var k :| 0 <= k < |reaped| - 1 && HasPrefix(p, reaped[..|reaped| - 1][k] + "/");
        assert HasPrefix(p, reaped[k] + "/");
      }
    }
  }

  lemma {:induction false} ReapedAreOthers(start: Files, ids: seq<string>, i: nat, reaped: seq<string>)
    requires i < |ids| && Descending(ids) && (forall id :: id in ids ==> Candidate(start, id))
    requires forall k :: 0 <= k < |reaped| ==> reaped[k] in ids[..i]
    ensures '/' !in ids[i] && forall k :: 0 <= k < |reaped| ==> '/' !in reaped[k] && reaped[k] != ids[i]
  {
    assert ids[i] in ids;
    forall k | 0 <= k < |reaped|
      ensures '/' !in reaped[k] && reaped[k] != ids[i]
    {
      var j :| 0 <= j < i && ids[j] == reaped[k];
      assert ids[j] in ids;
      Trichotomy(ids[i], ids[j]);
    }
  }

  lemma {:induction false} ReapedAreDoomed(start: Files, after: Files, ids: seq<string>, reaped: seq<string>,
                        decode: Decoder, gate: Gate, grace: int, now: int)
    requires OnlyRemoved(start, after) && RemovedUnder(start, after, reaped)
    requires forall id :: id in ids ==> Candidate(start, id)
    requires forall k :: 0 <= k < |reaped| ==>
               reaped[k] in ids && VerdictOn(start, decode, gate, grace, now, reaped[k]).Reap?
    ensures ReapedOnly(start, after, decode, grace, now)
  {
    forall p | p in start && p !in after
      ensures Doomed(start, decode, grace, now, p)
    {
      var k :| 0 <= k < |reaped| && HasPrefix(p, reaped[k] + "/");
      VerdictMeans(start, decode, gate, grace, now, reaped[k]);
      assert StaleTree(start, decode, grace, now, reaped[k], p);
    }
  }

  lemma {:induction false} FirstIsGreatest(start: Files, ids: seq<string>, i: nat, decode: Decoder, gate: Gate, grace: int, now: int, cp: Checkpoint)
    requires i < |ids| && Descending(ids) && (forall id :: id in ids <==> Candidate(start, id))
    requires VerdictOn(start, decode, gate, grace, now, ids[i]) == Resume(cp)
    requires forall k :: 0 <= k < i ==> !VerdictOn(start, decode, gate, grace, now, ids[k]).Resume?
    ensures Greatest(start, decode, gate, grace, now, ids[i], cp)
  {
    assert ids[i] in ids;
    VerdictMeans(start, decode, gate, grace, now, ids[i]);
    forall other, cp' | Live(start, decode, gate, grace, now, other, cp')
      ensures AtMost(other, ids[i])
    {
      VerdictMeans(start, decode, gate, grace, now, other);
      var j :| 0 <= j < |ids| && ids[j] == other;
      assert j >= i;
    }
  }

  /** The questions asked about one candidate, in the order of the source; None is a backend error. */
  method Inspect(b: Backend, decode: Decoder, gate: Gate, grace: int, now: int, id: string) returns (v: Option<Verdict>)
    ensures v.Some? ==> v.value == VerdictOn(b.files, decode, gate, grace, now, id)
  {
    var final := b.Stat(id + MANIFEST);
    if final.Present? { return Some(Skip); }
    if final.StatError? { return None; }
    var copied := b.Stat(id + COPY);
    if copied.StatError? { return None; }
    if copied.Missing? { return Some(Skip); }
    var body := b.Get(id + COPY);
    if body.None? { return None; }
    match decode(body.value) {
    case None => v := Some(Reap);
    case Some(cp) =>
      if Expired(cp, grace, now) { return Some(Reap); }
      if cp.gate != gate { return Some(Skip); }
      v := Some(Resume(cp));
    }
  }

  /** No key of a completed backup is ever removed by discovery. */
  lemma {:induction false} CompletedBackupsUntouched(before: Files, after: Files, decode: Decoder, grace: int, now: int, id: string, p: string)
    requires ReapedOnly(before, after, decode, grace, now)
    requires '/' !in id && id + MANIFEST in before && HasPrefix(p, id + "/") && p in before
    ensures p in after && after[p] == before[p]
  {
    if p !in after {
      var other :| StaleTree(before, decode, grace, now, other, p);
      DirsDisjoint(p, other, id);
    }
  }

  /**
   An attempt whose checkpoint is readable and carries no time, or is within the grace period, or for
   which no grace period is set, keeps all its files, whatever its configuration: so does the one
   that will be resumed.
   */
  lemma {:induction false} FreshAttemptUntouched(before: Files, after: Files, decode: Decoder, grace: int, now: int,
                                id: string, cp: Checkpoint, p: string)
    requires ReapedOnly(before, after, decode, grace, now)
    requires Unfinished(before, id) && decode(before[id + COPY]) == Some(cp)
    requires cp.checkpointedAt.None? || grace <= 0 || now <= cp.checkpointedAt.value + grace
    requires HasPrefix(p, id + "/") && p in before
    ensures p in after && after[p] == before[p]
  {
    if p !in after {
      var other :| StaleTree(before, decode, grace, now, other, p);
      DirsDisjoint(p, other, id);
    }
  }
}
