/**
 Reusing an earlier attempt's files: cleanResumable of internal/backup/resume.go. SHA-256 is a
 parameter.
 */
module Resume {
  import opened Common
  import opened Text
  import opened Storage
  import opened Paths
  import opened Discovery

  type Plan = map<string, FileRec>

  /** reusableSkipPath */
  predicate NeverReused(p: string) { p == "backup_label" || p == "backup_manifest" || p == "tablespace_map" }

  predicate IsZero(d: Digest) { forall i :: 0 <= i < |d| ==> d[i] == 0 }

  /** The entry can be checked against storage at all. */
  predicate Checkable(e: FileRec) { !NeverReused(e.path) && e.repoSize != 0 && !IsZero(e.repoDigest) }

  /** What a new attempt may take over: no file that each attempt writes anew, and nothing without a storage digest. */
  predicate MayReuse(e: FileRec) {
    && e.path != "backup_label" && e.path != "backup_manifest" && e.path != "tablespace_map"
    && e.repoSize > 0 && exists i :: 0 <= i < |e.repoDigest| && e.repoDigest[i] != 0
  }

  /** An entry is planned exactly when it may be reused and storage matches it. */
  ghost predicate ExactPlan(files: Files, hash: Hash, id: string, entries: seq<FileRec>, plan: Plan) {
    forall i :: 0 <= i < |entries| ==> (entries[i].path in plan <==> MayReuse(entries[i]) && Matches(files, hash, id, entries[i]))
  }

  /** Where a path is stored: joining cleans it. */
  function KeyOf(id: string, path: string): string { Place(id, Clean(path)) }

  /** The stored object is the one the entry describes, by size and digest. */
  predicate Matches(files: Files, hash: Hash, id: string, e: FileRec) {
    KeyOf(id, e.path) in files && |files[KeyOf(id, e.path)]| == e.repoSize && hash(files[KeyOf(id, e.path)]) == e.repoDigest
  }

  /** Every planned reuse is backed by a matching object. */
  predicate PlanSound(files: Files, hash: Hash, id: string, plan: Plan) {
    forall p :: p in plan ==> plan[p].path == p && Checkable(plan[p]) && Matches(files, hash, id, plan[p])
  }

  /** A checkable entry for the object that storage does not match. */
  predicate Stale(files: Files, hash: Hash, id: string, e: FileRec, k: string) {
    KeyOf(id, e.path) == k && Checkable(e) && !Matches(files, hash, id, e)
  }

  predicate StaleWithin(files: Files, hash: Hash, id: string, entries: seq<FileRec>, k: string) {
    exists i :: 0 <= i < |entries| && Stale(files, hash, id, entries[i], k)
  }

  /** No entry that matches storage is followed by one for the same object that does not. */
  predicate Consistent(files: Files, hash: Hash, id: string, entries: seq<FileRec>) {
    forall i :: 0 <= i < |entries| && InPlan(files, hash, id, entries[i], entries[i].path) ==>
      !StaleWithin(files, hash, id, entries[i + 1..], KeyOf(id, entries[i].path))
  }

  /** The same, asked only where no entry before the matching one is stale. */
  predicate ConsistentFirst(files: Files, hash: Hash, id: string, entries: seq<FileRec>) {
    forall i :: 0 <= i < |entries| && FirstMatch(files, hash, id, entries, i) ==>
      !StaleWithin(files, hash, id, entries[i + 1..], KeyOf(id, entries[i].path))
  }

  /** Entry i matches storage and no earlier entry for its object is stale. */
  predicate FirstMatch(files: Files, hash: Hash, id: string, entries: seq<FileRec>, i: nat)
    requires i < |entries|
  {
    InPlan(files, hash, id, entries[i], entries[i].path) && !StaleWithin(files, hash, id, entries[..i], KeyOf(id, entries[i].path))
  }

  predicate InPlan(start: Files, hash: Hash, id: string, e: FileRec, p: string) {
    e.path == p && Checkable(e) && Matches(start, hash, id, e)
  }

  predicate UniqueKeys(id: string, entries: seq<FileRec>) {
    forall i, j :: 0 <= i < j < |entries| ==> KeyOf(id, entries[i].path) != KeyOf(id, entries[j].path)
  }

  lemma {:induction false} UniqueKeysAreConsistent(files: Files, hash: Hash, id: string, entries: seq<FileRec>)
    requires UniqueKeys(id, entries)
    ensures Consistent(files, hash, id, entries)
  {
    forall i | 0 <= i < |entries|
      ensures !StaleWithin(files, hash, id, entries[i + 1..], KeyOf(id, entries[i].path))
    {
      var rest := entries[i + 1..];
      assert forall j :: 0 <= j < |rest| ==> rest[j] == entries[i + 1 + j];
    }
  }

  /** storageRepoSHAMatches: None is an error. */
  method StorageMatches(b: Backend, hash: Hash, id: string, e: FileRec) returns (r: Option<bool>)
    ensures r.Some? ==> r.value == Matches(b.files, hash, id, e)
  {
    var st := b.Stat(KeyOf(id, e.path));
    if st.StatError? { return None; }
    if st.Missing? || st.size != e.repoSize { return Some(false); }
    var body := b.Get(KeyOf(id, e.path));
    if body.None? { return None; }
    r := Some(hash(body.value) == e.repoDigest);
  }

  /** Removed are only stale objects: those of an entry that storage did not match. */
  ghost predicate StaleRemoved(before: Files, after: Files, hash: Hash, id: string, entries: seq<FileRec>) {
    && OnlyRemoved(before, after)
    && forall k :: k in before && k !in after ==> StaleWithin(before, hash, id, entries, k)
  }

  /** Entry j put p into the plan; it is still stored unless a later entry was stale. */
  predicate PlannedBy(start: Files, cur: Files, hash: Hash, id: string, entries: seq<FileRec>, e: FileRec, p: string, errors: bool, j: nat) {
    && j < |entries| && entries[j] == e && InPlan(start, hash, id, e, p)
    && (KeyOf(id, p) in cur || StaleWithin(start, hash, id, entries[j + 1..], KeyOf(id, p)))
    && (errors || !StaleWithin(start, hash, id, entries[..j], KeyOf(id, p)))
  }

  ghost predicate Planned(start: Files, cur: Files, hash: Hash, id: string, entries: seq<FileRec>, plan: Plan, errors: bool) {
    forall p :: p in plan ==> exists j :: PlannedBy(start, cur, hash, id, entries, plan[p], p, errors, j)
  }

  /** Without errors: stale objects are gone, and what matched before any stale entry is planned. */
  ghost predicate Thorough(start: Files, cur: Files, hash: Hash, id: string, entries: seq<FileRec>, plan: Plan) {
    && (forall k :: StaleWithin(start, hash, id, entries, k) ==> k !in cur)
    && (forall j :: 0 <= j < |entries| && FirstMatch(start, hash, id, entries, j) ==> entries[j].path in plan)
  }

  lemma {:induction false} StaleWithinPush(files: Files, hash: Hash, id: string, entries: seq<FileRec>, e: FileRec, p: string)
    ensures StaleWithin(files, hash, id, entries + [e], p) <==>
            StaleWithin(files, hash, id, entries, p) || Stale(files, hash, id, e, p)
  {
    var all := entries + [e];
    assert forall i :: 0 <= i < |entries| ==> all[i] == entries[i];
    assert all[|entries|] == e;
  }

  /** One more entry, whatever it did to the plan: what was planned stays planned. */
  lemma {:induction false} PlannedPush(start: Files, cur: Files, after: Files, hash: Hash, id: string, entries: seq<FileRec>, e: FileRec,
                    old_: FileRec, p: string, errors: bool, j: nat)
    requires PlannedBy(start, cur, hash, id, entries, old_, p, errors, j)
    requires after == cur || (after == cur - {KeyOf(id, e.path)} && Stale(start, hash, id, e, KeyOf(id, e.path)))
    ensures PlannedBy(start, after, hash, id, entries + [e], old_, p, errors, j)
  {
    assert (entries + [e])[j + 1..] == entries[j + 1..] + [e] && (entries + [e])[..j] == entries[..j];
    StaleWithinPush(start, hash, id, entries[j + 1..], e, KeyOf(id, p));
  }

  lemma {:induction false} PlanStep(start: Files, cur: Files, after: Files, hash: Hash, id: string, entries: seq<FileRec>, e: FileRec,
                 plan: Plan, plan': Plan, errors: bool, errors': bool)
    requires Planned(start, cur, hash, id, entries, plan, errors) && (errors ==> errors')
    requires after == cur || (after == cur - {KeyOf(id, e.path)} && Stale(start, hash, id, e, KeyOf(id, e.path)))
    requires plan' == plan || (plan' == plan[e.path := e] && InPlan(start, hash, id, e, e.path) && KeyOf(id, e.path) in after)
    requires plan' == plan || errors || !StaleWithin(start, hash, id, entries, KeyOf(id, e.path))
    ensures Planned(start, after, hash, id, entries + [e], plan', errors')
  {
    forall p | p in plan'
      ensures exists j :: PlannedBy(start, after, hash, id, entries + [e], plan'[p], p, errors', j)
    {
      if p in plan && plan'[p] == plan[p] {
        var j :| PlannedBy(start, cur, hash, id, entries, plan[p], p, errors, j);
        PlannedPush(start, cur, after, hash, id, entries, e, plan[p], p, errors, j);
        assert PlannedBy(start, after, hash, id, entries + [e], plan'[p], p, errors', j);
      } else {
        assert (entries + [e])[..|entries|] == entries;
        assert PlannedBy(start, after, hash, id, entries + [e], e, p, errors', |entries|);
      }
    }
  }

  lemma {:induction false} ThoroughStep(start: Files, cur: Files, after: Files, hash: Hash, id: string, entries: seq<FileRec>, e: FileRec, plan: Plan, plan': Plan)
    requires Thorough(start, cur, hash, id, entries, plan) && OnlyRemoved(cur, after)
    requires Stale(start, hash, id, e, KeyOf(id, e.path)) ==> KeyOf(id, e.path) !in after
    requires plan' == plan || plan' == plan[e.path := e]
    requires InPlan(start, hash, id, e, e.path) && !StaleWithin(start, hash, id, entries, KeyOf(id, e.path)) ==> e.path in plan'
    ensures Thorough(start, after, hash, id, entries + [e], plan')
  {
    var all := entries + [e];
    forall k | StaleWithin(start, hash, id, all, k)
      ensures k !in after
    {
      StaleWithinPush(start, hash, id, entries, e, k);
    }
    forall j | 0 <= j < |all| && FirstMatch(start, hash, id, all, j)
      ensures all[j].path in plan'
    {
      assert all[..j] == entries[..j];
      assert j == |entries| ==> all[..j] == entries;
      assert j < |entries| ==> FirstMatch(start, hash, id, entries, j);
    }
  }

  lemma {:induction false} StaleKeyStep(start: Files, cur: Files, after: Files, hash: Hash, id: string, entries: seq<FileRec>, e: FileRec)
    requires StaleRemoved(start, cur, hash, id, entries)
    requires after == cur || (after == cur - {KeyOf(id, e.path)} && Stale(start, hash, id, e, KeyOf(id, e.path)))
    ensures StaleRemoved(start, after, hash, id, entries + [e])
  {
    forall k | k in start && k !in after
      ensures StaleWithin(start, hash, id, entries + [e], k)
    {
      StaleWithinPush(start, hash, id, entries, e, k);
    }
  }

  /** An object still stored is the one the walk started with; one that is gone was stale. */
  lemma {:induction false} MatchesNow(start: Files, cur: Files, hash: Hash, id: string, entries: seq<FileRec>, e: FileRec)
    requires StaleRemoved(start, cur, hash, id, entries)
    ensures KeyOf(id, e.path) in cur ==> (Matches(cur, hash, id, e) <==> Matches(start, hash, id, e))
    ensures KeyOf(id, e.path) !in cur && Matches(start, hash, id, e) ==> StaleWithin(start, hash, id, entries, KeyOf(id, e.path))
  {
  }

  /** The entries so far are dealt with. */
  ghost predicate Cleaned(start: Files, cur: Files, hash: Hash, id: string, entries: seq<FileRec>, plan: Plan, errors: bool) {
    && StaleRemoved(start, cur, hash, id, entries)
    && Planned(start, cur, hash, id, entries, plan, errors)
    && (!errors ==> Thorough(start, cur, hash, id, entries, plan))
  }

  /** What dealing with one entry does: nothing when it is not checkable; otherwise what storage says. */
  predicate OneCleaned(before: Files, after: Files, hash: Hash, id: string, e: FileRec, plan: Plan, plan': Plan, errors: bool, errors': bool) {
    && (errors ==> errors')
    && if !Checkable(e) then after == before && plan' == plan && errors' == errors
       else if Matches(before, hash, id, e) then
         after == before && (plan' == plan[e.path := e] || (plan' == plan && errors'))
       else
         && plan' == plan && (after == before || after == before - {KeyOf(id, e.path)})
         && (!errors' ==> KeyOf(id, e.path) !in after)
  }

  lemma {:induction false} CleanedMore(start: Files, cur: Files, after: Files, hash: Hash, id: string, entries: seq<FileRec>, e: FileRec,
                                       plan: Plan, plan': Plan, errors: bool, errors': bool)
    requires Cleaned(start, cur, hash, id, entries, plan, errors)
    requires OneCleaned(cur, after, hash, id, e, plan, plan', errors, errors')
    ensures Cleaned(start, after, hash, id, entries + [e], plan', errors')
  {
    MatchesNow(start, cur, hash, id, entries, e);
    StaleKeyStep(start, cur, after, hash, id, entries, e);
    PlanStep(start, cur, after, hash, id, entries, e, plan, plan', errors, errors');
    if !errors' {
      ThoroughStep(start, cur, after, hash, id, entries, e, plan, plan');
    }
  }

  /**
   cleanResumable. `errors` tells whether some backend call failed. Whatever fails, a consistent
   checkpoint gives a sound plan; when nothing fails, the plan is sound exactly when no object has an
   entry that matches it, none before that is stale, and a stale one after.
   */
  method CleanResumable(b: Backend, hash: Hash, cp: Checkpoint) returns (plan: Plan, errors: bool)
    modifies b
    ensures StaleRemoved(old(b.files), b.files, hash, cp.backupID, cp.files)
    ensures forall p :: p in plan ==> plan[p] in cp.files && InPlan(old(b.files), hash, cp.backupID, plan[p], p)
    ensures Consistent(old(b.files), hash, cp.backupID, cp.files) ==> PlanSound(b.files, hash, cp.backupID, plan)
    ensures !errors ==>
      (PlanSound(b.files, hash, cp.backupID, plan) <==> ConsistentFirst(old(b.files), hash, cp.backupID, cp.files))
    ensures !errors ==> Thorough(old(b.files), b.files, hash, cp.backupID, cp.files, plan)
    ensures forall p :: p in plan ==> MayReuse(plan[p])
    ensures !errors && UniqueKeys(cp.backupID, cp.files) ==> ExactPlan(old(b.files), hash, cp.backupID, cp.files, plan)
  {
    ghost var start, id := b.files, cp.backupID;
    plan, errors := map[], false;
    var entries := cp.files;
    for i := 0 to |entries|
      invariant Cleaned(start, b.files, hash, id, entries[..i], plan, errors)
    {
      ghost var cur, before, failed := b.files, plan, errors;
      var e := entries[i];
      assert entries[..i + 1] == entries[..i] + [e];
      if Checkable(e) {
        plan, errors := CleanOne(b, hash, cp.backupID, e, plan, errors);
      }
      CleanedMore(start, cur, b.files, hash, id, entries[..i], e, before, plan, failed, errors);
    }
    assert entries[..|entries|] == entries;
    PlanOutcome(start, b.files, hash, id, entries, plan, errors);
    PlanIsExact(start, b.files, hash, id, entries, plan);
  }

  /** With one entry for each object, an entry is planned exactly when it may be reused and storage matches it. */
  lemma {:induction false} PlanIsExact(start: Files, cur: Files, hash: Hash, id: string, entries: seq<FileRec>, plan: Plan)
    requires forall p :: p in plan ==> plan[p] in entries && InPlan(start, hash, id, plan[p], p)
    ensures forall p :: p in plan ==> MayReuse(plan[p])
    ensures UniqueKeys(id, entries) && Thorough(start, cur, hash, id, entries, plan) ==>
              ExactPlan(start, hash, id, entries, plan)
  {
    if !UniqueKeys(id, entries) || !Thorough(start, cur, hash, id, entries, plan) {
      return;
    }
    forall i | 0 <= i < |entries|
      ensures entries[i].path in plan <==> MayReuse(entries[i]) && Matches(start, hash, id, entries[i])
    {
      if entries[i].path in plan {
        var j :| 0 <= j < |entries| && entries[j] == plan[entries[i].path];
        assert i == j;
      }
      var before := entries[..i];
      assert forall j :: 0 <= j < i ==> before[j] == entries[j];
      assert InPlan(start, hash, id, entries[i], entries[i].path) ==> FirstMatch(start, hash, id, entries, i);
    }
  }

  /** One checkable entry: an error leaves it out, a stale object is deleted, a match is planned. */
  method CleanOne(b: Backend, hash: Hash, id: string, e: FileRec, plan: Plan, errors: bool) returns (plan': Plan, errors': bool)
    requires Checkable(e)
    modifies b
    ensures OneCleaned(old(b.files), b.files, hash, id, e, plan, plan', errors, errors')
  {
    plan', errors' := plan, errors;
    var ok := StorageMatches(b, hash, id, e);
    if ok.None? {
      errors' := true;
    } else if ok.value {
      plan' := plan[e.path := e];
    } else {
      var d := b.Delete(KeyOf(id, e.path));
      errors' := errors || d.DeleteError?;
    }
  }

  lemma {:induction false} PlanOutcome(start: Files, cur: Files, hash: Hash, id: string, entries: seq<FileRec>, plan: Plan, errors: bool)
    requires OnlyRemoved(start, cur) && Planned(start, cur, hash, id, entries, plan, errors)
    requires !errors ==> Thorough(start, cur, hash, id, entries, plan)
    ensures forall p :: p in plan ==> plan[p] in entries && InPlan(start, hash, id, plan[p], p)
    ensures Consistent(start, hash, id, entries) ==> PlanSound(cur, hash, id, plan)
    ensures !errors ==> (PlanSound(cur, hash, id, plan) <==> ConsistentFirst(start, hash, id, entries))
  {
    forall p | p in plan
      ensures plan[p] in entries && InPlan(start, hash, id, plan[p], p)
      ensures Consistent(start, hash, id, entries) ==> Matches(cur, hash, id, plan[p])
      ensures !errors && ConsistentFirst(start, hash, id, entries) ==> Matches(cur, hash, id, plan[p])
    {
      var j :| PlannedBy(start, cur, hash, id, entries, plan[p], p, errors, j);
    }
    if !errors && PlanSound(cur, hash, id, plan) {
      forall i | 0 <= i < |entries| && FirstMatch(start, hash, id, entries, i)
        ensures !StaleWithin(start, hash, id, entries[i + 1..], KeyOf(id, entries[i].path))
      {
        var p := entries[i].path;
        assert p in plan && KeyOf(id, p) in cur;
        StaleInTail(start, hash, id, entries, i + 1, KeyOf(id, p));
      }
    }
  }

  lemma {:induction false} StaleInTail(files: Files, hash: Hash, id: string, entries: seq<FileRec>, n: nat, p: string)
    requires n <= |entries|
    ensures StaleWithin(files, hash, id, entries[n..], p) ==> StaleWithin(files, hash, id, entries, p)
  {
    var rest := entries[n..];
    assert forall j :: 0 <= j < |rest| ==> rest[j] == entries[n + j];
  }

  /** Two spellings of one path, the second with another size: the clean plan names a deleted object. */
  lemma {:induction false} DuplicateBreaksPlan(hash: Hash, id: string, p: string, q: string, body: Bytes, digest: Digest)
    requires body != [] && !IsZero(hash(body)) && !NeverReused(p) && !NeverReused(q) && Clean(p) == Clean(q)
    ensures var good := FileRec(p, 0, digest, |body|, hash(body));
            var stale := FileRec(q, 0, digest, |body| + 1, hash(body));
            !ConsistentFirst(map[KeyOf(id, p) := body], hash, id, [good, stale])
  {
    var files := map[KeyOf(id, p) := body];
    var good := FileRec(p, 0, digest, |body|, hash(body));
    var entries := [good, FileRec(q, 0, digest, |body| + 1, hash(body))];
    assert FirstMatch(files, hash, id, entries, 0);
    assert Stale(files, hash, id, entries[1..][0], KeyOf(id, p));
  }
}
