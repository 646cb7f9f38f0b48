/**
 Executing a retention plan: internal/retention/prune.go, and what that leaves for
 restore (internal/restore/chain.go) to read.
 */
module Prune {
  import opened Common
  import opened Text
  import Arith
  import opened Wal
  import opened Storage
  import opened Paths
  import opened Retention
  import opened Planning
  import Archive

  // ------------------------------------------------------------------ criteria

  /** parseTimelineFromPath. */
  function TimelineFromPath(p: string): Option<nat> {
    var parts := Split(p);
    if |parts| >= 3 && parts[0] == "wal" && ScanHex(parts[|parts| - 2], 0x1_0000_0000).Some? then
      ScanHex(parts[|parts| - 2], 0x1_0000_0000)
    else
      var base := parts[|parts| - 1];
      if |base| != 24 then None else ScanHex(base[..8], 0x1_0000_0000)
  }

  /** pruneWAL deletes this object for a plan whose oldest needed LSN is `oldest`. */
  predicate WalDoomed(oldest: LSN, p: string) {
    oldest != 0 && Under(p, "wal") && BelowCutoff(p, oldest)
  }

  /** The plan removes this object. */
  predicate Doomed(plan: Plan, p: string) {
    (exists id :: id in plan.expirable && Under(p, id)) || WalDoomed(plan.oldest, p)
  }

  /** A deletion pass: nothing but doomed objects is gone, and nothing changed. */
  predicate OnlyDoomedRemoved(plan: Plan, before: Files, after: Files) {
    OnlyRemoved(before, after) && forall p :: p in before && p !in after ==> Doomed(plan, p)
  }

  // ---------------------------------------------------------------- execution

  datatype PruneResult = PruneResult(backups: seq<string>, filesDeleted: nat, wal: seq<string>)

  /** The objects of one backup. */
  function Tree(files: Files, id: string): set<string> { set p | p in files && Under(p, id) }

  /** The objects of any of these backups. */
  function Trees(files: Files, ids: seq<string>): set<string> {
    if ids == [] then {} else Trees(files, ids[..|ids| - 1]) + Tree(files, ids[|ids| - 1])
  }

  /** How many objects the backups have, each counted under every backup it lies in. */
  function TreeSizes(files: Files, ids: seq<string>): nat {
    if ids == [] then 0 else TreeSizes(files, ids[..|ids| - 1]) + |Tree(files, ids[|ids| - 1])|
  }

  lemma {:induction false} InTrees(files: Files, ids: seq<string>, p: string)
    ensures p in Trees(files, ids) <==> p in files && exists id :: id in ids && Under(p, id)
  {
    if ids != [] {
      InTrees(files, ids[..|ids| - 1], p);
      assert ids == ids[..|ids| - 1] + [ids[|ids| - 1]];
    }
  }

  lemma {:induction false} DistinctCount(s: seq<string>, t: set<string>)
    requires (forall p :: p in s <==> p in t) && forall i, j :: 0 <= i < j < |s| ==> s[i] != s[j]
    ensures |s| == |t|
    decreases |s|
  {
    if s == [] {
      assert t == {};
    } else {
      var n := |s| - 1;
      assert s == s[..n] + [s[n]];
      DistinctCount(s[..n], t - {s[n]});
    }
  }

  /** With one directory per backup, what a dry run announces is what the real one deletes. */
  lemma {:induction false} DryRunForetells(files: Files, ids: seq<string>)
    requires forall i, j, p :: 0 <= i < j < |ids| && Under(p, ids[i]) ==> !Under(p, ids[j])
    ensures TreeSizes(files, ids) == |Trees(files, ids)|
  {
    if ids != [] {
      var n := |ids| - 1;
      DryRunForetells(files, ids[..n]);
      forall p | p in Trees(files, ids[..n])
        ensures p !in Tree(files, ids[n])
      {
        InTrees(files, ids[..n], p);
        var id :| id in ids[..n] && Under(p, id);
      }
      assert Trees(files, ids[..n]) !! Tree(files, ids[n]);
    }
  }

  /** Prune, dryRun included. An error return may leave part of the plan undone, never more than the plan done. */
  method Prune(b: Backend, plan: Plan, dryRun: bool) returns (res: PruneResult, ok: bool)
    modifies b
    ensures OnlyDoomedRemoved(plan, old(b.files), b.files)
    ensures dryRun ==> b.files == old(b.files)
    ensures ok ==> res.backups == plan.expirable
    ensures ok ==> res.filesDeleted == if dryRun then TreeSizes(old(b.files), plan.expirable) else |Trees(old(b.files), plan.expirable)|
    ensures ok ==> WalReport(plan, old(b.files), dryRun, res.wal)
    ensures ok && !dryRun ==> forall p :: p in b.files ==> !Doomed(plan, p)
  {
    ghost var start := b.files;
    res, ok := PruneResult([], 0, []), false;
    var count, backups, done := DeleteBackups(b, plan.expirable, dryRun);
    res := PruneResult(backups, count, []);
    ghost var middle := b.files;
    if !done {
      BothPasses(plan, start, middle, middle);
      return;
    }
    var wal;
    wal, done := PruneWal(b, plan, dryRun);
    BothPasses(plan, start, middle, b.files);
    if !done {
      return;
    }
    WalReported(plan, start, middle, dryRun, wal);
    if !dryRun {
      NothingDoomed(plan, start, middle, b.files);
    }
    res, ok := res.(wal := wal), true;
  }

  ghost predicate RemovedFrom(before: Files, after: Files, ids: seq<string>) {
    OnlyRemoved(before, after) && forall p :: p in before && p !in after ==> exists id :: id in ids && Under(p, id)
  }

  /** Both passes together take nothing but doomed objects. */
  lemma {:induction false} BothPasses(plan: Plan, start: Files, middle: Files, after: Files)
    requires RemovedFrom(start, middle, plan.expirable) && OnlyRemoved(middle, after)
    requires forall p :: p in middle && p !in after ==> WalDoomed(plan.oldest, p)
    ensures OnlyDoomedRemoved(plan, start, after)
  {
    forall p | p in start && p !in after
      ensures Doomed(plan, p)
    {
    }
  }

  lemma {:induction false} WalReported(plan: Plan, start: Files, middle: Files, dryRun: bool, wal: seq<string>)
    requires middle == if dryRun then start else start - Trees(start, plan.expirable)
    requires forall p :: p in wal <==> p in middle && WalDoomed(plan.oldest, p)
    requires forall i, j :: 0 <= i < j < |wal| ==> wal[i] != wal[j]
    ensures WalReport(plan, start, dryRun, wal)
  {
  }

  lemma {:induction false} NothingDoomed(plan: Plan, start: Files, middle: Files, after: Files)
    requires middle == start - Trees(start, plan.expirable) && OnlyRemoved(middle, after)
    requires forall p :: p in after ==> !WalDoomed(plan.oldest, p)
    ensures forall p :: p in after ==> !Doomed(plan, p)
  {
    forall p | p in after
      ensures !Doomed(plan, p)
    {
      InTrees(start, plan.expirable, p);
    }
  }

  /** Prune's loop over the expirable backups. */
  method DeleteBackups(b: Backend, ids: seq<string>, dryRun: bool) returns (count: nat, backups: seq<string>, done: bool)
    modifies b
    ensures RemovedFrom(old(b.files), b.files, ids)
    ensures dryRun ==> b.files == old(b.files)
    ensures done && !dryRun ==> b.files == old(b.files) - Trees(old(b.files), ids)
    ensures done ==> backups == ids
    ensures done ==> count == if dryRun then TreeSizes(old(b.files), ids) else |Trees(old(b.files), ids)|
  {
    ghost var start := b.files;
    count, backups, done := 0, [], false;
    StepLeft(start, ids, 0, dryRun);
    for i := 0 to |ids|
      invariant b.files == Left(start, ids[..i], dryRun)
      invariant count == Counted(start, ids[..i], dryRun)
      invariant backups == ids[..i]
    {
      StepLeft(start, ids, i, dryRun);
      ghost var before := b.files;
      var n;
      n, done := DeleteTree(b, ids[i], dryRun);
      count := count + n;
      if !done {
        PartlyPruned(ids, start, before, b.files, i, dryRun);
        return;
      }
      assert backups + [ids[i]] == ids[..i + 1];
      backups := backups + [ids[i]];
    }
    assert ids[..|ids|] == ids;
    TreesRemoved(start, ids);
    done := true;
  }

  /** What is left after these backups, and how many objects have been counted. */
  function Left(start: Files, ids: seq<string>, dryRun: bool): Files { if dryRun then start else start - Trees(start, ids) }

  function Counted(start: Files, ids: seq<string>, dryRun: bool): nat {
    if dryRun then TreeSizes(start, ids) else |Trees(start, ids)|
  }

  lemma {:induction false} StepLeft(start: Files, ids: seq<string>, i: nat, dryRun: bool)
    requires i <= |ids|
    ensures i == 0 ==> Left(start, ids[..i], dryRun) == start && Counted(start, ids[..i], dryRun) == 0
    ensures i < |ids| ==>
              var now := Left(start, ids[..i], dryRun);
              && Left(start, ids[..i + 1], dryRun) == (if dryRun then now else now - Tree(now, ids[i]))
              && Counted(start, ids[..i + 1], dryRun) == Counted(start, ids[..i], dryRun) + |Tree(now, ids[i])|
  {
    if i == 0 {
      assert start - {} == start;
    }
    if i < |ids| {
      TreesStep(ids, start, i);
    }
  }

  lemma {:induction false} TreesRemoved(start: Files, ids: seq<string>)
    ensures RemovedFrom(start, start - Trees(start, ids), ids) && RemovedFrom(start, start, ids)
  {
    forall p | p in start && p in Trees(start, ids)
      ensures exists id :: id in ids && Under(p, id)
    {
      InTrees(start, ids, p);
    }
  }

  /** Exactly the doomed WAL objects, each once; the real run leaves out those that went with a backup. */
  ghost predicate WalReport(plan: Plan, files: Files, dryRun: bool, wal: seq<string>) {
    && (forall i, j :: 0 <= i < j < |wal| ==> wal[i] != wal[j])
    && forall p :: p in wal <==> p in files && WalDoomed(plan.oldest, p) && (dryRun || p !in Trees(files, plan.expirable))
  }

  lemma {:induction false} TreesStep(ids: seq<string>, start: Files, i: nat)
    requires i < |ids|
    ensures var gone := Trees(start, ids[..i]);
            && Trees(start, ids[..i + 1]) == gone + Tree(start, ids[i])
            && start - Trees(start, ids[..i + 1]) == start - gone - Tree(start - gone, ids[i])
            && TreeSizes(start, ids[..i + 1]) == TreeSizes(start, ids[..i]) + |Tree(start, ids[i])|
            && |Trees(start, ids[..i + 1])| == |gone| + |Tree(start - gone, ids[i])|
  {
    assert ids[..i + 1][..i] == ids[..i];
    var gone := Trees(start, ids[..i]);
    var rest := Tree(start - gone, ids[i]);
    assert gone + Tree(start, ids[i]) == gone + rest && gone !! rest;
  }

  /** Stopped inside the directory of backup i. */
  lemma {:induction false} PartlyPruned(ids: seq<string>, start: Files, before: Files, after: Files, i: nat, dryRun: bool)
    requires i < |ids| && before == Left(start, ids[..i], dryRun)
    requires OnlyRemoved(before, after) && forall p :: p in before && p !in after ==> Under(p, ids[i])
    ensures RemovedFrom(start, after, ids)
  {
    forall p | p in start && p !in after
      ensures exists id :: id in ids && Under(p, id)
    {
      if p !in before {
        InTrees(start, ids[..i], p);
        var id :| id in ids[..i] && Under(p, id);
        assert id in ids;
      } else {
        assert ids[i] in ids;
      }
    }
  }

  /** Prune's inner loop: every object under one expirable backup. */
  method DeleteTree(b: Backend, id: string, dryRun: bool) returns (count: nat, done: bool)
    modifies b
    ensures OnlyRemoved(old(b.files), b.files)
    ensures forall p :: p in old(b.files) && p !in b.files ==> Under(p, id)
    ensures dryRun ==> b.files == old(b.files)
    ensures done ==> count == |Tree(old(b.files), id)|
    ensures done && !dryRun ==> b.files == old(b.files) - Tree(old(b.files), id)
  {
    count, done := 0, false;
    var listing := b.List(id);
    if listing.None? {
      return;
    }
    var files := listing.value;
    for i := 0 to |files|
      invariant OnlyRemoved(old(b.files), b.files) && count == i
      invariant forall p :: p in old(b.files) && p !in b.files ==> Under(p, id)
      invariant dryRun ==> b.files == old(b.files)
      invariant !dryRun ==> forall j :: 0 <= j < i ==> files[j] !in b.files
    {
      if !dryRun {
        var r := b.Delete(files[i]);
        if !r.Deleted? {
          return;
        }
      }
      count := count + 1;
    }
    DistinctCount(files, Tree(old(b.files), id));
    done := true;
  }

  /** pruneWAL; the cutoff of a timeline is recomputed instead of cached. */
  method PruneWal(b: Backend, plan: Plan, dryRun: bool) returns (deleted: seq<string>, done: bool)
    modifies b
    ensures OnlyRemoved(old(b.files), b.files)
    ensures forall p :: p in old(b.files) && p !in b.files ==> WalDoomed(plan.oldest, p)
    ensures dryRun ==> b.files == old(b.files)
    ensures done ==> (forall p :: p in deleted <==> p in old(b.files) && WalDoomed(plan.oldest, p))
    ensures forall i, j :: 0 <= i < j < |deleted| ==> deleted[i] != deleted[j]
    ensures done && !dryRun ==> forall p :: p in b.files ==> !WalDoomed(plan.oldest, p)
  {
    deleted, done := [], false;
    if plan.oldest == 0 {
      return [], true;
    }
    var listing := b.List("wal");
    if listing.None? {
      return;
    }
    deleted, done := DeleteWhere(b, listing.value, p => BelowCutoff(p, plan.oldest), dryRun);
  }

  /** The tests pruneWAL makes on one listed entry. */
  predicate BelowCutoff(p: string, oldest: LSN) {
    var base, tli := Base(p), TimelineFromPath(p);
    |base| == 24 && tli.Some? && tli.value < 0x1_0000_0000 && Less(base, CutoffName(tli.value, oldest))
  }

  /** pruneWAL's loop, for the test its body makes: deletes the listed entries that meet it, and stops at an error. */
  method DeleteWhere(b: Backend, entries: seq<string>, doomed: string -> bool, dryRun: bool)
    returns (deleted: seq<string>, done: bool)
    requires forall i, j :: 0 <= i < j < |entries| ==> entries[i] != entries[j]
    modifies b
    ensures OnlyRemoved(old(b.files), b.files)
    ensures forall p :: p in old(b.files) && p !in b.files ==> p in entries && doomed(p)
    ensures dryRun ==> b.files == old(b.files)
    ensures forall p :: p in deleted ==> p in entries && doomed(p)
    ensures forall i, j :: 0 <= i < j < |deleted| ==> deleted[i] != deleted[j]
    ensures done ==> forall p :: p in entries && doomed(p) ==> p in deleted && (!dryRun ==> p !in b.files)
  {
    deleted, done := [], false;
    for i := 0 to |entries|
      invariant OnlyRemoved(old(b.files), b.files)
      invariant forall p :: p in old(b.files) && p !in b.files ==> p in entries && doomed(p)
      invariant dryRun ==> b.files == old(b.files)
      invariant forall p :: p in deleted ==> p in entries[..i] && doomed(p)
      invariant forall x, y :: 0 <= x < y < |deleted| ==> deleted[x] != deleted[y]
      invariant forall j :: 0 <= j < i && doomed(entries[j]) ==> entries[j] in deleted && (!dryRun ==> entries[j] !in b.files)
    {
      assert entries[..i + 1] == entries[..i] + [entries[i]] && entries[i] !in entries[..i];
      if doomed(entries[i]) {
        if !dryRun {
          var r := b.Delete(entries[i]);
          if !r.Deleted? {
            return;
          }
        }
        deleted := deleted + [entries[i]];
      }
    }
    done := true;
  }

  // ------------------------------------------------------- WAL that must survive

  /** Where PostgreSQL's segment holding x would be stored by name. */
  function SegmentPath(t: Timeline, x: LSN, size: int): string
    requires SegmentSize(size)
  {
    "wal/" + (FixedHex(t, 8) + "/" + WALSegmentName(t, x, size))
  }

  lemma {:induction false} SegmentNameShape(t: Timeline, x: LSN, size: int)
    requires SegmentSize(size)
    ensures |WALSegmentName(t, x, size)| == 24 && IsHex(WALSegmentName(t, x, size))
  {
    NameFields(t, x, size);
  }

  lemma {:induction false} FixedHexValue(n: nat, w: nat)
    requires n < Pow16(w)
    ensures HexValue(FixedHex(n, w)) == n
  {
    if w > 0 {
      FixedHexValue(n / 16, w - 1);
      assert FixedHex(n, w)[..w - 1] == FixedHex(n / 16, w - 1);
    }
  }

  lemma {:induction false} PathParts(dir: string, name: string)
    requires '/' !in dir && '/' !in name
    ensures Split("wal/" + (dir + "/" + name)) == ["wal", dir, name]
    ensures Under("wal/" + (dir + "/" + name), "wal")
  {
    SplitPlain(name);
    SplitHead(dir, name);
    SplitHead("wal", dir + "/" + name);
    assert "wal/" + (dir + "/" + name) == "wal" + "/" + (dir + "/" + name);
  }

  lemma {:induction false} ScanFixed(t: Timeline)
    ensures ScanHex(FixedHex(t, 8), 0x1_0000_0000) == Some(t)
  {
    Pow16Eight();
    FixedHexValue(t, 8);
    HexRunAll(FixedHex(t, 8));
  }

  lemma {:induction false} SegmentPathParts(t: Timeline, x: LSN, size: int)
    requires SegmentSize(size)
    ensures Under(SegmentPath(t, x, size), "wal")
    ensures Base(SegmentPath(t, x, size)) == WALSegmentName(t, x, size)
    ensures TimelineFromPath(SegmentPath(t, x, size)) == Some(t)
  {
    var name, dir := WALSegmentName(t, x, size), FixedHex(t, 8);
    SegmentNameShape(t, x, size);
    HexHasNoSlash(name);
    HexHasNoSlash(dir);
    PathParts(dir, name);
    ScanFixed(t);
  }

  /**
   WAL that a restore may need is never pruned: for the clusters and positions where the
   cutoff name is safe, no segment at or after the oldest needed LSN is deleted, on any
   timeline; for the others the very segment that holds that LSN is doomed.
   */
  lemma {:induction false} NeededWalSurvives(oldest: LSN, t: Timeline, x: LSN, size: int)
    requires SegmentSize(size) && oldest <= x
    ensures size <= 0x100_0000 || oldest >= 0x1_0000_0000 || oldest < 0x100_0000 ==>
              !WalDoomed(oldest, SegmentPath(t, x, size))
    ensures !(size <= 0x100_0000 || oldest >= 0x1_0000_0000 || oldest < 0x100_0000) ==>
              WalDoomed(oldest, SegmentPath(t, oldest, size))
  {
    SegmentPathParts(t, x, size);
    SegmentPathParts(t, oldest, size);
    CutoffSafeIff(t, oldest, size);
    NotBelow(t, oldest, x, size);
    SegmentNameShape(t, oldest, size);
    Trichotomy(CutoffName(t, oldest), WALSegmentName(t, oldest, size));
  }

  /**
   Exactly which segments go, from the two positions alone: those whose high half and index inside it
   come before the cutoff's, which counts 16 MiB units in groups of 2^32.
   */
  lemma {:induction false} DoomedIff(oldest: LSN, t: Timeline, x: LSN, size: int)
    requires SegmentSize(size)
    ensures WalDoomed(oldest, SegmentPath(t, x, size)) <==>
            oldest != 0 &&
            (|| x / 0x1_0000_0000 < oldest / 0x100_0000_0000_0000
             || (x / 0x1_0000_0000 == oldest / 0x100_0000_0000_0000 &&
                 x % 0x1_0000_0000 / size < oldest / 0x100_0000 % 0x1_0000_0000))
  {
    SegmentPathParts(t, x, size);
    SegmentNameShape(t, x, size);
    NameFields(t, x, size);
    CutoffIs(t, oldest);
    HighUnits(oldest);
    FormatNameOrder(t, x / 0x1_0000_0000, x % 0x1_0000_0000 / size,
                    t, oldest / 0x1_0000_0000 / 0x100_0000, oldest / 0x100_0000 % 0x1_0000_0000);
  }

  /** The same for a segment stored without its timeline's directory: the name tells the timeline. */
  lemma {:induction false} FlatDoomedIff(oldest: LSN, t: Timeline, x: LSN, size: int)
    requires SegmentSize(size)
    ensures WalDoomed(oldest, "wal/" + WALSegmentName(t, x, size)) <==> WalDoomed(oldest, SegmentPath(t, x, size))
  {
    var name := WALSegmentName(t, x, size);
    SegmentPathParts(t, x, size);
    SegmentNameShape(t, x, size);
    HexHasNoSlash(name);
    SplitPlain(name);
    SplitHead("wal", name);
    assert "wal/" + name == "wal" + "/" + name;
    NameFields(t, x, size);
    assert name[..8] == FixedHex(t, 8);
    ScanFixed(t);
  }

  /** A kept full whose start cannot be read keeps all WAL. */
  lemma {:induction false} UnreadableStartPrunesNothing(chains: Groups, keep: set<string>, plan: Plan, k: string, p: string)
    requires PlanFor(chains, keep, plan) && k in keep && k in chains && ParseLSN(chains[k].full.startLSN).None?
    ensures !WalDoomed(plan.oldest, p)
  {
    OldestMeans(chains, keep, plan);
  }

  lemma {:induction false} HighUnits(lsn: LSN)
    ensures lsn / 0x1_0000_0000 / 0x100_0000 == lsn / 0x100_0000_0000_0000
  {
  }

  /**
   Once the oldest needed position is past 4 GiB, and up to 64 PiB, only WAL of the first 4 GiB of the log
   is ever pruned: a segment from there up stays however old it is.
   */
  lemma {:induction false} HighSegmentsAreNeverPruned(oldest: LSN, t: Timeline, x: LSN, size: int)
    requires SegmentSize(size) && 0x1_0000_0000 <= oldest < 0x100_0000_0000_0000
    ensures WalDoomed(oldest, SegmentPath(t, x, size)) <==> x < 0x1_0000_0000 && x / size < oldest / 0x100_0000 % 0x1_0000_0000
  {
    DoomedIff(oldest, t, x, size);
    FirstLog(x, oldest);
  }

  lemma {:induction false} FirstLog(x: LSN, oldest: LSN)
    ensures x < 0x1_0000_0000 <==> x / 0x1_0000_0000 == 0
    ensures x < 0x1_0000_0000 ==> x % 0x1_0000_0000 == x
    ensures oldest < 0x100_0000_0000_0000 ==> oldest / 0x100_0000_0000_0000 == 0
  {
  }

  lemma {:induction false} NotBelow(t: Timeline, oldest: LSN, x: LSN, size: int)
    requires SegmentSize(size) && oldest <= x
    ensures AtMost(CutoffName(t, oldest), WALSegmentName(t, oldest, size)) ==>
              !Less(WALSegmentName(t, x, size), CutoffName(t, oldest))
  {
    var cut, old', name := CutoffName(t, oldest), WALSegmentName(t, oldest, size), WALSegmentName(t, x, size);
    Arith.DivMonotone(oldest, x, size);
    NameOrder(t, oldest, t, x, size);
    Trichotomy(cut, name);
    if Less(cut, old') && Less(old', name) {
      LessTransitive(cut, old', name);
    }
  }

  /** An archive key ends in a 64-digit hash, so pruneWAL never touches what Push wrote. */
  lemma {:induction false} PushedKeysAreNeverPruned(oldest: LSN, t: Timeline, seg: string, digest: Digest)
    requires '/' !in seg
    ensures !WalDoomed(oldest, Archive.SegmentKey(t, seg, digest))
  {
    var dir, hex := FixedHex(t, 8), HexEncode(digest);
    HexHasNoSlash(dir);
    HexHasNoSlash(hex);
    KeyShape(dir, seg, hex);
    PathParts(dir, seg + "-" + hex);
  }

  lemma {:induction false} KeyShape(dir: string, seg: string, hex: string)
    ensures "wal/" + dir + ("/" + seg + "-") + hex == "wal/" + (dir + "/" + (seg + "-" + hex))
  {
  }
}
