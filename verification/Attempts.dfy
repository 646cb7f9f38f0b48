/**
 One backup directory across any number of attempts: full backup, one backend. An attempt may
 start fresh or from the checkpoint, stop anywhere, and leave partial files; between attempts
 stored objects may change. internal/backup/backup.go and internal/backup/resume.go.
 */
module Attempts {
  import opened Common
  import opened Text
  import opened Storage
  import opened Discovery
  import opened Resume
  import Filter

  /** Decrypt and decompress; None when the bytes are not a chain output. */
  type Decode = Bytes -> Option<Bytes>

  datatype Run = Run(plan: Plan, files: seq<FileRec>)

  /** ever is history: every content the directory has held. */
  datatype State = State(stored: Files, checkpoint: Option<seq<FileRec>>, run: Option<Run>, manifest: Option<seq<FileRec>>,
                         ever: set<Bytes>)

  datatype Step =
    | Corrupt(path: string, body: Bytes)                     // between attempts
    | Vanish(path: string)                                   // between attempts, as in a partial reaping
    | Fresh
    | Resumed(plan: Plan, after: Files)                      // cleanResumable's outcome
    | Upload(path: string, plain: Bytes, wire: Bytes)
    | Broken(path: string, body: Bytes)                      // a copy cut short, the attempt ends
    | Reuse(path: string)
    | SaveCheckpoint
    | DropCheckpoint                                         // deleted, the new one not yet in place
    | Stop                                                   // error or crash
    | Finish

  function Init(stored: Files): State { State(stored, None, None, None, stored.Values) }

  /** The attempt has already dealt with an entry that is stored where this path is. */
  predicate Listed(id: string, files: seq<FileRec>, path: string) {
    exists k :: 0 <= k < |files| && KeyOf(id, files[k].path) == KeyOf(id, path)
  }

  /** What cleanResumable may return. */
  ghost predicate CleanOutcome(hash: Hash, id: string, before: Files, after: Files, entries: seq<FileRec>, plan: Plan) {
    && OnlyRemoved(before, after)
    && (forall p :: p in plan ==> plan[p] in entries && InPlan(before, hash, id, plan[p], p))
    && (Consistent(before, hash, id, entries) ==> PlanSound(after, hash, id, plan))
  }

  ghost predicate Enabled(hash: Hash, decode: Decode, id: string, s: State, a: Step) {
    s.manifest.None? &&
    match a
    case Corrupt(_, _) => s.run.None?
    case Vanish(_) => s.run.None?
    case Fresh => s.run.None?
    case Resumed(plan, after) =>
      s.run.None? && s.checkpoint.Some? && CleanOutcome(hash, id, s.stored, after, s.checkpoint.value, plan)
    case Upload(path, plain, wire) =>
      s.run.Some? && path !in s.run.value.plan && !Listed(id, s.run.value.files, path) && decode(wire) == Some(plain)
    case Broken(path, _) => s.run.Some? && path !in s.run.value.plan
    case Reuse(path) => s.run.Some? && path in s.run.value.plan && !Listed(id, s.run.value.files, path)
    case SaveCheckpoint => s.run.Some?
    case DropCheckpoint => s.run.Some?
    case Stop => s.run.Some?
    case Finish => s.run.Some?
  }

  function Put(s: State, id: string, path: string, body: Bytes): State {
    s.(stored := s.stored[KeyOf(id, path) := body], ever := s.ever + {body})
  }

  function Add(s: State, e: FileRec): State
    requires s.run.Some?
  {
    s.(run := Some(s.run.value.(files := s.run.value.files + [e])))
  }

  /** The record AddFile and SetLatestRepoChecksum leave for an upload. */
  function Recorded(hash: Hash, path: string, plain: Bytes, wire: Bytes): FileRec {
    FileRec(path, |plain|, hash(plain), |wire|, hash(wire))
  }

  function Apply(hash: Hash, decode: Decode, id: string, s: State, a: Step): State
    requires Enabled(hash, decode, id, s, a)
  {
    match a
    case Corrupt(path, body) => Put(s, id, path, body)
    case Vanish(path) => s.(stored := s.stored - {KeyOf(id, path)})
    case Fresh => s.(run := Some(Run(map[], [])))
    case Resumed(plan, after) => s.(stored := after, run := Some(Run(plan, [])))
    case Upload(path, plain, wire) => Add(Put(s, id, path, wire), Recorded(hash, path, plain, wire))
    case Broken(path, body) => Put(s, id, path, body).(run := None)
    case Reuse(path) => Add(s, s.run.value.plan[path])
    case SaveCheckpoint => s.(checkpoint := Some(s.run.value.files))
    case DropCheckpoint => s.(checkpoint := None)
    case Stop => s.(run := None)
    case Finish => s.(manifest := Some(s.run.value.files), run := None)
  }

  ghost predicate Runs(hash: Hash, decode: Decode, id: string, s: State, steps: seq<Step>)
    decreases |steps|
  {
    steps == [] ||
    (Enabled(hash, decode, id, s, steps[0]) && Runs(hash, decode, id, Apply(hash, decode, id, s, steps[0]), steps[1..]))
  }

  function Exec(hash: Hash, decode: Decode, id: string, s: State, steps: seq<Step>): State
    requires Runs(hash, decode, id, s, steps)
    decreases |steps|
  {
    if steps == [] then s else Exec(hash, decode, id, Apply(hash, decode, id, s, steps[0]), steps[1..])
  }

  // ---------------------------------------------------------------- invariant

  /** The record describes some content the directory has held, on both sides. */
  predicate Describes(hash: Hash, decode: Decode, e: FileRec, w: Bytes) {
    && |w| == e.repoSize && hash(w) == e.repoDigest
    && decode(w).Some? && hash(decode(w).value) == e.digest && |decode(w).value| == e.size
  }

  predicate Genuine(hash: Hash, decode: Decode, ever: set<Bytes>, e: FileRec) {
    exists w :: w in ever && Describes(hash, decode, e, w)
  }

  predicate AllGenuine(hash: Hash, decode: Decode, ever: set<Bytes>, files: seq<FileRec>) {
    forall k :: 0 <= k < |files| ==> Genuine(hash, decode, ever, files[k])
  }

  predicate AllMatch(hash: Hash, id: string, stored: Files, files: seq<FileRec>) {
    forall k :: 0 <= k < |files| ==> Matches(stored, hash, id, files[k])
  }

  predicate RunOk(hash: Hash, decode: Decode, id: string, s: State, r: Run) {
    && UniqueKeys(id, r.files) && AllGenuine(hash, decode, s.ever, r.files) && AllMatch(hash, id, s.stored, r.files)
    && (forall p :: p in r.plan ==> r.plan[p].path == p && Genuine(hash, decode, s.ever, r.plan[p]))
    && (forall p :: p in r.plan && !Listed(id, r.files, p) ==> Matches(s.stored, hash, id, r.plan[p]))
  }

  predicate Inv(hash: Hash, decode: Decode, id: string, s: State) {
    && s.stored.Values <= s.ever
    && (s.checkpoint.Some? ==> UniqueKeys(id, s.checkpoint.value) && AllGenuine(hash, decode, s.ever, s.checkpoint.value))
    && (s.run.Some? ==> RunOk(hash, decode, id, s, s.run.value))
    && (s.manifest.Some? ==> AllGenuine(hash, decode, s.ever, s.manifest.value) && AllMatch(hash, id, s.stored, s.manifest.value))
  }

  lemma {:induction false} GenuineGrows(hash: Hash, decode: Decode, ever: set<Bytes>, more: set<Bytes>, e: FileRec)
    requires Genuine(hash, decode, ever, e) && ever <= more
    ensures Genuine(hash, decode, more, e)
  {
  }

  lemma {:induction false} PutOk(hash: Hash, decode: Decode, id: string, s: State, path: string, body: Bytes)
    requires Inv(hash, decode, id, s) && s.manifest.None?
    ensures Inv(hash, decode, id, Put(s, id, path, body).(run := None))
  {
    forall e | Genuine(hash, decode, s.ever, e)
      ensures Genuine(hash, decode, s.ever + {body}, e)
    {
      GenuineGrows(hash, decode, s.ever, s.ever + {body}, e);
    }
  }

  /** An upload to a key of its own: what is listed is untouched, and planned files of that key become listed. */
  lemma {:induction false} UploadOk(hash: Hash, decode: Decode, id: string, s: State, path: string, plain: Bytes, wire: Bytes)
    requires s.run.Some? && RunOk(hash, decode, id, s, s.run.value)
    requires path !in s.run.value.plan && !Listed(id, s.run.value.files, path) && decode(wire) == Some(plain)
    ensures var t := Put(s, id, path, wire);
            var r := s.run.value;
            RunOk(hash, decode, id, t, r.(files := r.files + [Recorded(hash, path, plain, wire)]))
  {
    var t, r, e := Put(s, id, path, wire), s.run.value, Recorded(hash, path, plain, wire);
    var files := r.files + [e];
    forall x | Genuine(hash, decode, s.ever, x)
      ensures Genuine(hash, decode, t.ever, x)
    {
      GenuineGrows(hash, decode, s.ever, t.ever, x);
    }
    assert Describes(hash, decode, e, wire);
    assert Genuine(hash, decode, t.ever, e);
    forall p | p in r.plan && !Listed(id, files, p)
      ensures Matches(t.stored, hash, id, r.plan[p])
    {
      ListedPush(id, r.files, e, p);
    }
  }

  lemma {:induction false} ListedPush(id: string, files: seq<FileRec>, e: FileRec, p: string)
    ensures Listed(id, files + [e], p) <==> Listed(id, files, p) || KeyOf(id, e.path) == KeyOf(id, p)
  {
    var all := files + [e];
    if k :| 0 <= k < |files| && KeyOf(id, files[k].path) == KeyOf(id, p) {
      assert all[k] == files[k];
    }
    assert all[|files|] == e;
  }

  lemma {:induction false} AddOk(hash: Hash, decode: Decode, id: string, s: State, r: Run, e: FileRec)
    requires RunOk(hash, decode, id, s, r) && !Listed(id, r.files, e.path)
    requires Genuine(hash, decode, s.ever, e) && Matches(s.stored, hash, id, e)
    ensures RunOk(hash, decode, id, s, r.(files := r.files + [e]))
  {
    forall p | p in r.plan && !Listed(id, r.files + [e], p)
      ensures Matches(s.stored, hash, id, r.plan[p])
    {
      ListedPush(id, r.files, e, p);
    }
  }

  lemma {:induction false} StepKeepsInv(hash: Hash, decode: Decode, id: string, s: State, a: Step)
    requires Inv(hash, decode, id, s) && Enabled(hash, decode, id, s, a)
    ensures Inv(hash, decode, id, Apply(hash, decode, id, s, a))
  {
    match a
    case Corrupt(path, body) => PutOk(hash, decode, id, s, path, body);
    case Broken(path, body) => PutOk(hash, decode, id, s, path, body);
    case Resumed(plan, after) => UniqueKeysAreConsistent(s.stored, hash, id, s.checkpoint.value);
    case Upload(path, plain, wire) =>
      PutOk(hash, decode, id, s, path, wire);
      UploadOk(hash, decode, id, s, path, plain, wire);
    case Reuse(path) => AddOk(hash, decode, id, s, s.run.value, s.run.value.plan[path]);
    case _ =>
  }

  lemma {:induction false} RunKeepsInv(hash: Hash, decode: Decode, id: string, s: State, steps: seq<Step>)
    requires Inv(hash, decode, id, s) && Runs(hash, decode, id, s, steps)
    ensures Inv(hash, decode, id, Exec(hash, decode, id, s, steps))
    decreases |steps|
  {
    if steps != [] {
      StepKeepsInv(hash, decode, id, s, steps[0]);
      RunKeepsInv(hash, decode, id, Apply(hash, decode, id, s, steps[0]), steps[1..]);
    }
  }

  /** The digests of everything the directory ever held tell those contents apart. */
  predicate NoCollision(hash: Hash, ever: set<Bytes>) {
    forall x, y :: x in ever && y in ever && hash(x) == hash(y) ==> x == y
  }

  /** The stored object decodes to a plaintext of the recorded size and digest. */
  predicate Agrees(hash: Hash, decode: Decode, id: string, stored: Files, e: FileRec) {
    && KeyOf(id, e.path) in stored && decode(stored[KeyOf(id, e.path)]).Some?
    && var plain := decode(stored[KeyOf(id, e.path)]).value; hash(plain) == e.digest && |plain| == e.size
  }

  /**
   However many attempts crashed, were resumed or left debris: each entry of the final manifest,
   uploaded or reused, agrees with what is stored under its path.
   */
  lemma {:induction false} ManifestAgrees(hash: Hash, decode: Decode, id: string, stored: Files, steps: seq<Step>)
    requires Runs(hash, decode, id, Init(stored), steps)
    requires NoCollision(hash, Exec(hash, decode, id, Init(stored), steps).ever)
    ensures var s := Exec(hash, decode, id, Init(stored), steps);
            s.manifest.Some? ==>
              forall k :: 0 <= k < |s.manifest.value| ==> Agrees(hash, decode, id, s.stored, s.manifest.value[k])
  {
    var s := Exec(hash, decode, id, Init(stored), steps);
    RunKeepsInv(hash, decode, id, Init(stored), steps);
    if s.manifest.Some? {
      forall k | 0 <= k < |s.manifest.value|
        ensures Agrees(hash, decode, id, s.stored, s.manifest.value[k])
      {
        var e := s.manifest.value[k];
        var w :| w in s.ever && Describes(hash, decode, e, w);
        assert s.stored[KeyOf(id, e.path)] in s.stored.Values;
        assert s.stored[KeyOf(id, e.path)] == w;
      }
    }
  }

  // ----------------------------------------------- the steps in terms of the components

  /** What cleanResumable does is a Resumed step. */
  method CleanForResume(b: Backend, hash: Hash, cp: Checkpoint) returns (plan: Plan)
    modifies b
    ensures CleanOutcome(hash, cp.backupID, old(b.files), b.files, cp.files, plan)
  {
    var errors: bool;
    plan, errors := CleanResumable(b, hash, cp);
  }

  /** What the filter chain reports for a file, put into the record, is an Upload step. */
  method RecordUpload(comp: Filter.Codec, enc: Filter.Codec, hash: Hash, decompress: Decode, decrypt: Decode, path: string,
                      chunks: seq<Bytes>) returns (r: Option<FileRec>, wire: Bytes)
    requires Filter.Streams(comp) && Filter.Streams(enc)
    requires Filter.Inverse(comp, decompress) && Filter.Inverse(enc, decrypt)
    ensures r.Some? ==>
      && Filter.Unwrap(decrypt, decompress, wire) == Some(Flatten(chunks))
      && r.value == Recorded(hash, path, Flatten(chunks), wire)
  {
    var d: Option<Filter.Digests>;
    d, wire := Filter.CopyThrough(comp, enc, hash, decompress, decrypt, chunks);
    r := if d.None? then None else Some(FileRec(path, d.value.size, d.value.digest, d.value.repoSize, d.value.repoDigest));
  }
}
