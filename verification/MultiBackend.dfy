/**
 A backup onto several backends: multiState of internal/backup/backup.go and the multi-storage
 path of runSimple. Any backend may fail at any call; the fan-out of each file is one run of the
 TeeWriter machine.
 */
module MultiBackend {
  import opened Common
  import opened Paths
  import opened BackupRun
  import Tee = TeeWriter

  type Store = map<string, Bytes>

  // ---------------------------------------------------------- one fan-out write

  /** What a finished TeeWriter may report: a sink without error took every byte. */
  predicate TeeAllows(n: nat, chunks: seq<Bytes>, errs: seq<bool>, got: seq<Bytes>) {
    && |errs| == n && |got| == n
    && forall j :: 0 <= j < n && !errs[j] ==> got[j] == Flatten(chunks)
  }

  function Errors(s: Tee.State): seq<bool> { seq(|s.workers|, j requires 0 <= j < |s.workers| => s.workers[j].err) }

  function Received(s: Tee.State): seq<Bytes> { seq(|s.workers|, j requires 0 <= j < |s.workers| => s.workers[j].got) }

  /** Every finished run of the machine, under any schedule, reports something allowed. */
  lemma {:induction false} TeeRunAllowed(depth: nat, n: nat, steps: seq<Tee.Step>)
    requires Tee.Runs(depth, Tee.Init(seq(n, j => true)), steps)
    requires Tee.Exec(depth, Tee.Init(seq(n, j => true)), steps).caller.Done?
    ensures var s := Tee.Exec(depth, Tee.Init(seq(n, j => true)), steps);
            && TeeAllows(n, s.issued, Errors(s), Received(s))
            && (s.caller.ok <==> false in Errors(s))
            && (s.accepted != s.issued ==> !s.caller.ok)
  {
    var s := Tee.Exec(depth, Tee.Init(seq(n, j => true)), steps);
    Tee.CleanSinkHoldsEverything(depth, seq(n, j => true), steps);
    assert forall j :: 0 <= j < n ==> Errors(s)[j] == !Tee.Clean(s, j);
    assert false in Errors(s) ==> exists j :: 0 <= j < n && Tee.Clean(s, j);
  }

  /** The fan-out of one stream, as the caller sees it: any allowed report. */
  method FanOut(n: nat, chunks: seq<Bytes>) returns (errs: seq<bool>, got: seq<Bytes>)
    ensures TeeAllows(n, chunks, errs, got)
  {
    errs, got := *, *;
    if !TeeAllows(n, chunks, errs, got) {
      errs, got := seq(n, j => true), seq(n, j => []);
    }
  }

  // ---------------------------------------------------------------- the backends

  function AliveCount(dead: seq<bool>): nat {
    if dead == [] then 0 else AliveCount(dead[..|dead| - 1]) + if dead[|dead| - 1] then 0 else 1
  }

  function DeadCount(dead: seq<bool>): nat {
    if dead == [] then 0 else DeadCount(dead[..|dead| - 1]) + if dead[|dead| - 1] then 1 else 0
  }

  lemma {:induction false} CountsAddUp(dead: seq<bool>)
    ensures AliveCount(dead) + DeadCount(dead) == |dead|
  {
    if dead != [] {
      CountsAddUp(dead[..|dead| - 1]);
    }
  }

  /** Once dead, always dead. */
  predicate Monotone(before: seq<bool>, after: seq<bool>) {
    |before| == |after| && forall i :: 0 <= i < |before| && before[i] ==> after[i]
  }

  /** Only these keys may differ. */
  ghost predicate SameBut(s: Store, t: Store, keys: set<string>) {
    forall k :: k !in keys ==> (k in s <==> k in t) && (k in s ==> s[k] == t[k])
  }

  predicate InRange(idx: seq<nat>, n: nat) { forall j :: 0 <= j < |idx| ==> idx[j] < n }

  class MultiState {
    var stores: seq<Store>
    var dead: seq<bool>

    ghost predicate Valid()
      reads this
    {
      |stores| == |dead|
    }

    constructor (stores: seq<Store>)
      ensures Valid() && this.stores == stores && forall i :: 0 <= i < |dead| ==> !dead[i]
    {
      this.stores := stores;
      dead := seq(|stores|, i => false);
    }

    /** putMulti: open every living backend; one that refuses is dead. */
    method PutMulti() returns (sinkIdx: seq<nat>)
      requires Valid()
      modifies this`dead
      ensures Valid() && Monotone(old(dead), dead)
      ensures Distinct(sinkIdx) && InRange(sinkIdx, |dead|)
      ensures forall i :: 0 <= i < |dead| ==> (i in sinkIdx <==> !dead[i])
    {
      sinkIdx := [];
      for i := 0 to |dead|
        invariant Valid() && Monotone(old(dead), dead)
        invariant Distinct(sinkIdx) && InRange(sinkIdx, i)
        invariant forall k :: 0 <= k < i ==> (k in sinkIdx <==> !dead[k])
        invariant forall k :: i <= k < |dead| ==> dead[k] == old(dead)[k]
      {
        if !dead[i] {
          var ok: bool := *;
          if ok {
            sinkIdx := sinkIdx + [i];
          } else {
            dead := dead[i := true];
          }
        }
      }
    }

    /** merge: a sink that reported an error makes its backend dead, and nothing else does. */
    method Merge(results: seq<bool>, sinkIdx: seq<nat>)
      requires Valid() && |results| == |sinkIdx| && InRange(sinkIdx, |dead|)
      modifies this`dead
      ensures Valid() && Monotone(old(dead), dead)
      ensures forall i :: 0 <= i < |dead| ==>
        (dead[i] <==> old(dead)[i] || exists j :: 0 <= j < |results| && results[j] && sinkIdx[j] == i)
    {
      for j := 0 to |results|
        invariant Valid() && |dead| == |old(dead)|
        invariant forall i :: 0 <= i < |dead| ==>
          (dead[i] <==> old(dead)[i] || exists k :: 0 <= k < j && results[k] && sinkIdx[k] == i)
      {
        if results[j] {
          dead := dead[sinkIdx[j] := true];
        }
      }
    }

    /** The backends' side of a fan-out: a clean sink stores what it got, a failed one anything. */
    method Deliver(path: string, sinkIdx: seq<nat>, errs: seq<bool>, got: seq<Bytes>)
      requires Valid() && |errs| == |sinkIdx| == |got| && InRange(sinkIdx, |stores|) && Distinct(sinkIdx)
      modifies this`stores
      ensures Valid()
      ensures forall i :: 0 <= i < |stores| ==> SameBut(old(stores)[i], stores[i], {path})
      ensures forall i :: 0 <= i < |stores| && i !in sinkIdx ==> stores[i] == old(stores)[i]
      ensures forall j :: 0 <= j < |errs| && !errs[j] ==> path in stores[sinkIdx[j]] && stores[sinkIdx[j]][path] == got[j]
    {
      for j := 0 to |sinkIdx|
        invariant Valid() && |stores| == |old(stores)|
        invariant forall i :: 0 <= i < |stores| ==> SameBut(old(stores)[i], stores[i], {path})
        invariant forall i :: 0 <= i < |stores| && i !in sinkIdx ==> stores[i] == old(stores)[i]
        invariant forall k :: 0 <= k < j && !errs[k] ==> path in stores[sinkIdx[k]] && stores[sinkIdx[k]][path] == got[k]
      {
        var i := sinkIdx[j];
        var debris: Option<Bytes> := *;
        if !errs[j] {
          stores := stores[i := stores[i][path := got[j]]];
        } else if debris.Some? {
          stores := stores[i := stores[i][path := debris.value]];
        }
      }
    }

    /** One file to every living backend: putMulti, fan-out, merge. */
    method WriteFile(path: string, chunks: seq<Bytes>) returns (ok: bool)
      requires Valid()
      modifies this
      ensures Valid() && Monotone(old(dead), dead) && |dead| == |old(dead)|
      ensures forall i :: 0 <= i < |stores| ==> SameBut(old(stores)[i], stores[i], {path})
      ensures forall i :: 0 <= i < |stores| && old(dead)[i] ==> stores[i] == old(stores)[i]
      ensures ok ==> forall i :: 0 <= i < |stores| && !dead[i] ==> path in stores[i] && stores[i][path] == Flatten(chunks)
      ensures ok ==> exists i :: 0 <= i < |dead| && !dead[i]
    {
      var sinkIdx := PutMulti();
      if sinkIdx == [] { return false; }
      var cut: nat, broken: bool := *, *;  // reading the source may fail after some chunks
      var sent := if broken && cut <= |chunks| then chunks[..cut] else chunks;
      var errs, got := FanOut(|sinkIdx|, sent);
      Deliver(path, sinkIdx, errs, got);
      if broken || false !in errs { return false; }
      ghost var alive := dead;
      Merge(errs, sinkIdx);
      var j :| 0 <= j < |errs| && !errs[j];
      assert !dead[sinkIdx[j]];
      ok := true;
    }

    /** commitMulti: commit every living backend on its own; one that fails is dead. */
    method CommitMulti(tmp: string, final: string) returns (succeeded: nat)
      requires Valid() && tmp != final
      requires forall i :: 0 <= i < |dead| && !dead[i] ==> tmp in stores[i]
      modifies this
      ensures Valid() && Monotone(old(dead), dead) && succeeded == AliveCount(dead)
      ensures forall i :: 0 <= i < |stores| ==> SameBut(old(stores)[i], stores[i], {tmp, final})
      ensures forall i :: 0 <= i < |stores| && old(dead)[i] ==> stores[i] == old(stores)[i]
      ensures forall i :: 0 <= i < |stores| && !old(dead)[i] ==> CommitStep(old(stores)[i], stores[i], tmp, final, !dead[i])
    {
      succeeded := 0;
      for i := 0 to |dead|
        invariant Valid() && Monotone(old(dead), dead) && succeeded == AliveCount(dead[..i])
        invariant forall k :: 0 <= k < i && old(dead)[k] ==> stores[k] == old(stores)[k]
        invariant forall k :: 0 <= k < i && !old(dead)[k] ==> CommitStep(old(stores)[k], stores[k], tmp, final, !dead[k])
        invariant forall k :: i <= k < |dead| ==> dead[k] == old(dead)[k] && stores[k] == old(stores)[k]
      {
        ghost var before := dead;
        if !dead[i] {
          var t, ok := CommitOne(stores[i], tmp, final);
          stores := stores[i := t];
          if ok {
            succeeded := succeeded + 1;
          } else {
            dead := dead[i := true];
          }
        }
        assert dead[..i + 1][..i] == before[..i];
      }
      assert dead[..|dead|] == dead;
    }

    /** failedCount */
    method FailedCount() returns (n: nat)
      ensures n == DeadCount(dead)
    {
      n := 0;
      for i := 0 to |dead|
        invariant n == DeadCount(dead[..i])
      {
        assert dead[..i + 1][..i] == dead[..i];
        if dead[i] {
          n := n + 1;
        }
      }
      assert dead[..|dead|] == dead;
    }
  }

  /** Backend.Commit on one backend. */
  method CommitOne(s: Store, tmp: string, final: string) returns (t: Store, ok: bool)
    requires tmp in s && tmp != final
    ensures CommitStep(s, t, tmp, final, ok)
  {
    var renamed: bool, reported: bool := *, *;
    t, ok := s, false;
    if final !in s && renamed {
      t, ok := (s - {tmp})[final := s[tmp]], reported;
    }
  }

  /** A commit refuses an existing final; it may also rename and still report failure. */
  predicate CommitStep(s: Store, t: Store, tmp: string, final: string, ok: bool) {
    if tmp in s && final !in s && final in t then t == (s - {tmp})[final := s[tmp]]
    else t == s && !ok
  }

  // --------------------------------------------------------------------- the run

  ghost predicate HoldsFile(s: Store, id: string, f: Listed) {
    Place(id, f.name) in s && s[Place(id, f.name)] == f.wire
  }

  /** The backend has every listed file in full. */
  ghost predicate Holds(s: Store, id: string, files: seq<Listed>) {
    forall k :: 0 <= k < |files| && Lasting(files, k) ==> HoldsFile(s, id, files[k])
  }

  predicate NoManifest(stores: seq<Store>, id: string) {
    forall i :: 0 <= i < |stores| ==> Place(id, MANIFEST) !in stores[i]
  }

  ghost predicate LivingHold(stores: seq<Store>, dead: seq<bool>, id: string, files: seq<Listed>)
    requires |stores| == |dead|
  {
    forall i :: 0 <= i < |stores| && !dead[i] ==> Holds(stores[i], id, files)
  }

  /** The backend has the manifest, the sidecar and every listed file in full. */
  ghost predicate Complete(s: Store, id: string, files: seq<Listed>, body: Bytes, sidecar: Bytes) {
    && Holds(s, id, files)
    && Place(id, MANIFEST) in s && s[Place(id, MANIFEST)] == body
    && Place(id, SIDECAR) in s && s[Place(id, SIDECAR)] == sidecar
  }

  lemma {:induction false} HoldsKept(s: Store, t: Store, id: string, files: seq<Listed>, names: set<string>, keys: set<string>)
    requires Holds(s, id, files) && SameBut(s, t, keys)
    requires names <= Reserved() - {MANIFEST} && forall k :: k in keys ==> exists n :: n in names && k == Place(id, n)
    ensures Holds(t, id, files)
  {
    forall k | 0 <= k < |files| && Lasting(files, k)
      ensures HoldsFile(t, id, files[k])
    {
      assert HoldsFile(s, id, files[k]);
      if Place(id, files[k].name) in keys {
        var n :| n in names && Place(id, files[k].name) == Place(id, n);
        PlaceInjective(id, n, files[k].name);
        assert false;
      }
    }
  }

  lemma {:induction false} HoldsPush(s: Store, t: Store, id: string, files: seq<Listed>, e: Listed)
    requires Holds(s, id, files) && SameBut(s, t, {Place(id, e.name)}) && HoldsFile(t, id, e)
    ensures Holds(t, id, files + [e])
  {
    var all := files + [e];
    forall k | 0 <= k < |all| && Lasting(all, k)
      ensures HoldsFile(t, id, all[k])
    {
      if k < |files| {
        assert all[|files|] == e;
        assert forall j :: k < j < |files| ==> all[j] == files[j];
        assert Lasting(files, k);
        PlaceInjective(id, e.name, files[k].name);
        assert HoldsFile(s, id, files[k]);
      }
    }
  }

  /** The state between files: living backends have all files so far, nobody shows a manifest unless an entry took its name. */
  ghost predicate Midrun(stores: seq<Store>, dead: seq<bool>, id: string, files: seq<Listed>) {
    |stores| == |dead| && (!Foreign(files) ==> NoManifest(stores, id)) && LivingHold(stores, dead, id, files)
  }

  /** Writing one of pgSafe's own files keeps the state between files. */
  lemma {:induction false} OwnFileMidrun(s: seq<Store>, d: seq<bool>, t: seq<Store>, e: seq<bool>, id: string, files: seq<Listed>, name: string)
    requires Midrun(s, d, id, files) && Monotone(d, e) && |t| == |s| && name in Reserved() - {MANIFEST}
    requires forall i :: 0 <= i < |s| ==> SameBut(s[i], t[i], {Place(id, name)})
    ensures Midrun(t, e, id, files)
  {
    PlaceInjective(id, name, MANIFEST);
    forall i | 0 <= i < |t|
      ensures !Foreign(files) ==> Place(id, MANIFEST) !in t[i]
      ensures !e[i] ==> Holds(t[i], id, files)
    {
      assert SameBut(s[i], t[i], {Place(id, name)});
      if !e[i] {
        assert Holds(s[i], id, files);
        HoldsKept(s[i], t[i], id, files, {name}, {Place(id, name)});
      }
    }
  }

  lemma {:induction false} EntryMidrun(s: seq<Store>, d: seq<bool>, t: seq<Store>, e: seq<bool>, id: string, files: seq<Listed>, f: Listed)
    requires Midrun(s, d, id, files) && Monotone(d, e) && |t| == |s|
    requires forall i :: 0 <= i < |s| ==> SameBut(s[i], t[i], {Place(id, f.name)})
    ensures !Foreign(files + [f]) ==> NoManifest(t, id)
    ensures (forall i :: 0 <= i < |t| && !e[i] ==> HoldsFile(t[i], id, f)) ==> Midrun(t, e, id, files + [f])
  {
    PlaceInjective(id, f.name, MANIFEST);
    ForeignPush(files, f);
    forall i | 0 <= i < |t|
      ensures !Foreign(files + [f]) ==> Place(id, MANIFEST) !in t[i]
      ensures !e[i] && HoldsFile(t[i], id, f) ==> Holds(t[i], id, files + [f])
    {
      assert SameBut(s[i], t[i], {Place(id, f.name)});
      if !e[i] && HoldsFile(t[i], id, f) {
        assert Holds(s[i], id, files);
        HoldsPush(s[i], t[i], id, files, f);
      }
    }
  }

  /** A checkpoint on the first backend, with any result. */
  method Checkpoint(ms: MultiState, id: string, ghost files: seq<Listed>)
    requires Midrun(ms.stores, ms.dead, id, files)
    modifies ms`stores
    ensures Midrun(ms.stores, ms.dead, id, files)
  {
    if |ms.stores| == 0 { return; }
    var names := [CHECKPOINT, CHECKPOINT_TMP];
    for k := 0 to 2
      invariant Midrun(ms.stores, ms.dead, id, files)
    {
      ghost var s := ms.stores;
      var left: Option<Bytes> := *;
      var key := Place(id, names[k]);
      ms.stores := ms.stores[0 := if left.Some? then ms.stores[0][key := left.value] else ms.stores[0] - {key}];
      OwnFileMidrun(s, ms.dead, ms.stores, ms.dead, id, files, names[k]);
    }
  }

  /** The per-file loop of a multi-storage run. */
  method CopyToAll(ms: MultiState, id: string, entries: seq<Entry>) returns (ok: bool, files: seq<Listed>, dirs: seq<string>)
    requires Midrun(ms.stores, ms.dead, id, [])
    modifies ms
    ensures ms.Valid() && Monotone(old(ms.dead), ms.dead)
    ensures !Foreign(ListedOf(entries)) ==> NoManifest(ms.stores, id)
    ensures ok ==> files == ListedOf(entries) && dirs == DirsOf(entries) && Midrun(ms.stores, ms.dead, id, files)
    ensures ok ==> AllContained(entries)
  {
    files, dirs, ok := [], [], false;
    for i := 0 to |entries|
      invariant files == ListedOf(entries[..i]) && dirs == DirsOf(entries[..i])
      invariant Midrun(ms.stores, ms.dead, id, files) && Monotone(old(ms.dead), ms.dead)
      invariant forall k :: 0 <= k < i ==> Contained(entries[k])
    {
      var e := entries[i];
      assert entries[..i + 1][..i] == entries[..i];
      NextEntry(files, ListedOf(entries[..i + 1]), entries, i);
      match e {
      case Special(_) =>
      case Directory(name) =>
        var d := TrimSlashes(name);
        if d != "" && d != "." {
          dirs := dirs + [d];
        }
      case Regular(name, plain, wire) =>
        TraversalIs(name);
        if Traversal(name) { return; }
        var f := Listed(name, Clean(name), plain, Flatten(wire));
        ghost var s, d := ms.stores, ms.dead;
        var stored := ms.WriteFile(Place(id, f.name), wire);
        EntryMidrun(s, d, ms.stores, ms.dead, id, files, f);
        if !stored { return; }
        files := files + [f];
        Checkpoint(ms, id, files);
      }
    }
    assert entries[..|entries|] == entries;
    ok := true;
  }

  /**
   The run. Whenever and wherever it stops, a backend that shows the manifest is complete, provided
   no tar entry took the manifest's name; with such an entry every commit is refused. The backends
   counted as succeeded are exactly those still alive, and all of them show the manifest.
   */
  method RunMulti(ms: MultiState, id: string, entries: seq<Entry>,
                  manifest: seq<Listed> -> Bytes, sidecar: seq<string> -> Bytes)
    returns (ok: bool, succeeded: nat, partial: nat)
    requires ms.Valid() && NoManifest(ms.stores, id)
    modifies ms
    ensures ms.Valid() && Monotone(old(ms.dead), ms.dead)
    ensures !Foreign(ListedOf(entries)) ==> forall i :: 0 <= i < |ms.stores| && Place(id, MANIFEST) in ms.stores[i] ==>
      Complete(ms.stores[i], id, ListedOf(entries), manifest(ListedOf(entries)), sidecar(DirsOf(entries)))
    ensures Foreign(ListedOf(entries)) ==> !ok
    ensures ok ==> AllContained(entries)
    ensures ok ==>
      && succeeded > 0 && succeeded + partial == |ms.dead| && partial == DeadCount(ms.dead)
      && forall i :: 0 <= i < |ms.dead| && !ms.dead[i] ==> Place(id, MANIFEST) in ms.stores[i]
  {
    ok, succeeded, partial := false, 0, 0;
    var copied, files, dirs := CopyToAll(ms, id, entries);
    if !copied { return; }
    var bracketed: bool := *;  // closing pg_basebackup, label, stop LSN, WAL wait, hashing
    if !bracketed { return; }
    succeeded := PublishToAll(ms, id, files, manifest(files), sidecar(dirs));
    if succeeded == 0 { return; }
    partial := ms.FailedCount();
    CountsAddUp(ms.dead);
    ok := true;
  }

  /** The manifest aside, the sidecar, and the commit on every living backend. */
  method PublishToAll(ms: MultiState, id: string, files: seq<Listed>, body: Bytes, side: Bytes) returns (succeeded: nat)
    requires Midrun(ms.stores, ms.dead, id, files)
    modifies ms
    ensures ms.Valid() && Monotone(old(ms.dead), ms.dead)
    ensures !Foreign(files) ==> forall i :: 0 <= i < |ms.stores| && Place(id, MANIFEST) in ms.stores[i] ==>
      Complete(ms.stores[i], id, files, body, side)
    ensures Foreign(files) ==> succeeded == 0
    ensures succeeded > 0 ==> succeeded == AliveCount(ms.dead)
    ensures succeeded > 0 ==> forall i :: 0 <= i < |ms.dead| && !ms.dead[i] ==> Place(id, MANIFEST) in ms.stores[i]
  {
    succeeded := 0;
    FlattenOne(body);
    FlattenOne(side);
    ghost var s, d := ms.stores, ms.dead;
    var stored := ms.WriteFile(Place(id, MANIFEST_TMP), [body]);
    OwnFileMidrun(s, d, ms.stores, ms.dead, id, files, MANIFEST_TMP);
    if !stored { return; }
    s, d := ms.stores, ms.dead;
    stored := ms.WriteFile(Place(id, SIDECAR), [side]);
    OwnFileMidrun(s, d, ms.stores, ms.dead, id, files, SIDECAR);
    if !stored { return; }
    PlaceInjective(id, SIDECAR, MANIFEST_TMP);
    PlaceInjective(id, MANIFEST, MANIFEST_TMP);
    assert Staged(ms.stores, ms.dead, id, body, side);
    s, d := ms.stores, ms.dead;
    succeeded := ms.CommitMulti(Place(id, MANIFEST_TMP), Place(id, MANIFEST));
    if Foreign(files) {
      AllRefused(s, d, ms.stores, ms.dead, id, files);
    } else {
      Committed(s, d, ms.stores, ms.dead, id, files, body, side);
    }
  }

  /** Living backends have the manifest aside and the sidecar. */
  ghost predicate Staged(stores: seq<Store>, dead: seq<bool>, id: string, body: Bytes, side: Bytes)
    requires |stores| == |dead|
  {
    forall i :: 0 <= i < |stores| && !dead[i] ==>
      && Place(id, MANIFEST_TMP) in stores[i] && stores[i][Place(id, MANIFEST_TMP)] == body
      && Place(id, SIDECAR) in stores[i] && stores[i][Place(id, SIDECAR)] == side
  }

  lemma {:induction false} Committed(s: seq<Store>, d: seq<bool>, t: seq<Store>, e: seq<bool>, id: string, files: seq<Listed>, body: Bytes, side: Bytes)
    requires Midrun(s, d, id, files) && !Foreign(files) && Staged(s, d, id, body, side) && Monotone(d, e) && |t| == |s|
    requires forall i :: 0 <= i < |s| && d[i] ==> t[i] == s[i]
    requires forall i :: 0 <= i < |s| && !d[i] ==> CommitStep(s[i], t[i], Place(id, MANIFEST_TMP), Place(id, MANIFEST), !e[i])
    ensures forall i :: 0 <= i < |t| && Place(id, MANIFEST) in t[i] ==> Complete(t[i], id, files, body, side)
    ensures forall i :: 0 <= i < |t| && !e[i] ==> Place(id, MANIFEST) in t[i]
  {
    var tmp, final := Place(id, MANIFEST_TMP), Place(id, MANIFEST);
    PlaceInjective(id, SIDECAR, MANIFEST_TMP);
    PlaceInjective(id, SIDECAR, MANIFEST);
    forall i | 0 <= i < |t| && final in t[i]
      ensures Complete(t[i], id, files, body, side)
    {
      assert Holds(s[i], id, files);
      CommittedHolds(s[i], t[i], id, files);
    }
  }

  lemma {:induction false} CommittedHolds(s: Store, t: Store, id: string, files: seq<Listed>)
    requires Holds(s, id, files) && !Foreign(files) && SameBut(s, t, {Place(id, MANIFEST_TMP), Place(id, MANIFEST)})
    ensures Holds(t, id, files)
  {
    forall k | 0 <= k < |files| && Lasting(files, k)
      ensures HoldsFile(t, id, files[k])
    {
      assert HoldsFile(s, id, files[k]) && files[k].name != MANIFEST;
      PlaceInjective(id, files[k].name, MANIFEST);
      PlaceInjective(id, files[k].name, MANIFEST_TMP);
    }
  }

  /** A living backend already has an object of the manifest's name, so its commit is refused. */
  lemma {:induction false} AllRefused(s: seq<Store>, d: seq<bool>, t: seq<Store>, e: seq<bool>, id: string, files: seq<Listed>)
    requires Midrun(s, d, id, files) && Foreign(files) && Monotone(d, e) && |t| == |s|
    requires forall i :: 0 <= i < |s| && !d[i] ==> CommitStep(s[i], t[i], Place(id, MANIFEST_TMP), Place(id, MANIFEST), !e[i])
    ensures AliveCount(e) == 0
  {
    var k := LastForeign(files);
    assert Lasting(files, k);
    forall i | 0 <= i < |e|
      ensures e[i]
    {
      if !d[i] {
        assert Holds(s[i], id, files) && HoldsFile(s[i], id, files[k]);
      }
    }
    NoneAlive(e);
  }

  lemma {:induction false} NoneAlive(dead: seq<bool>)
    requires forall i :: 0 <= i < |dead| ==> dead[i]
    ensures AliveCount(dead) == 0
  {
    if dead != [] {
      NoneAlive(dead[..|dead| - 1]);
    }
  }
}
