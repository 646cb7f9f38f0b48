/**
 What pruning leaves for restore: the records come from the sidecars in the storage
 (loadOne of internal/info/info.go), the plan from the records, and restore walks the
 sidecars again. Decoding a sidecar's JSON is a parameter.
 */
module Restore {
  import opened Common
  import opened Text
  import opened Wal
  import opened Storage
  import opened Paths
  import opened Chains
  import opened Retention
  import opened Planning
  import opened Prune

  const SIDECAR := "/Storage-Metadata.json"

  type Decoder = Bytes -> Option<Sidecar>

  // ----------------------------------------------------- sidecars and records

  /** readSidecar, for every backup directory that has a decodable one. */
  function SidecarsOf(decode: Decoder, files: Files): Sidecars {
    map id | id in SidecarIds(files) && decode(files[id + SIDECAR]).Some? :: decode(files[id + SIDECAR]).value
  }

  function SidecarIds(files: Files): (ids: set<string>)
    ensures forall id :: id in ids <==> id + SIDECAR in files
  {
    var ids := set p | p in files && HasSuffix(p, SIDECAR) :: p[..|p| - |SIDECAR|];
    assert forall id :: id + SIDECAR in files ==> id in ids by {
      forall id | id + SIDECAR in files
        ensures id in ids
      {
        var p := id + SIDECAR;
        assert HasSuffix(p, SIDECAR) && p[..|p| - |SIDECAR|] == id;
      }
    }
    assert forall id :: id in ids ==> id + SIDECAR in files by {
      forall id | id in ids
        ensures id + SIDECAR in files
      {
        var p :| p in files && HasSuffix(p, SIDECAR) && p[..|p| - |SIDECAR|] == id;
        assert p == id + SIDECAR;
      }
    }
    ids
  }

  /** A backup directory as info.List selects it: one path component ending in F or I. */
  predicate IdShape(id: string) {
    id != "" && '/' !in id && (id[|id| - 1] == 'F' || id[|id| - 1] == 'I')
  }

  /** Index of the last underscore, or 0. */
  function LastUnderscore(s: string): nat
    ensures LastUnderscore(s) <= |s|
  {
    if s == "" then 0 else if s[|s| - 1] == '_' then |s| - 1 else LastUnderscore(s[..|s| - 1])
  }

  /** loadOne's guesses from the directory name. */
  function KindFromId(id: string): string
    requires id != ""
  {
    if id[|id| - 1] == 'I' then INCREMENTAL else if id[|id| - 1] == 'F' then FULL else ""
  }

  function ParentFromId(id: string): string
    requires id != ""
  {
    if id[|id| - 1] == 'I' then id[..LastUnderscore(id[..|id| - 1])] else ""
  }

  /** loadOne: what the sidecar states wins over the guesses. */
  predicate RecordOf(r: Record, sc: Sidecar) {
    && IdShape(r.id)
    && r.kind == (if sc.kind != "" then sc.kind else KindFromId(r.id))
    && r.parent == (if sc.parent != "" then sc.parent else ParentFromId(r.id))
  }

  /** The records are the loaded directories, one per directory. */
  predicate Loaded(read: Sidecars, records: seq<Record>) {
    UniqueIds(records) && forall r :: r in records ==> r.id in read && RecordOf(r, read[r.id])
  }

  // ---------------------------------------------------------------- same walk

  /** A set of backups closed under the walk of buildChain. */
  ghost predicate Closed(read: Sidecars, s: iset<string>) {
    forall id :: id in s && id in read && read[id].kind == INCREMENTAL && read[id].parent != "" ==> read[id].parent in s
  }

  /** On a closed set where the sidecars did not change, restore's walk does not change. */
  lemma {:induction false} SameWalk(read: Sidecars, read': Sidecars, s: iset<string>, id: string, n: nat)
    requires Closed(read, s) && id in s
    requires forall i :: i in s ==> (i in read <==> i in read') && (i in read ==> read'[i] == read[i])
    ensures ChainFrom(read', id, n) == ChainFrom(read, id, n)
    decreases n
  {
    if n > 0 && id in read && read[id].kind == INCREMENTAL && read[id].parent != "" {
      SameWalk(read, read', s, read[id].parent, n - 1);
    }
  }

  /** The backups whose records lead to a kept full. */
  ghost function Rooted(records: seq<Record>, keep: set<string>): iset<string> {
    iset r, root | r in records && root in keep && root != "" && HasRoot(ById(records), r, root) :: r.id
  }

  lemma {:induction false} ByIdMember(all: seq<Record>, r: Record)
    requires UniqueIds(all) && r in all
    ensures r.id in ById(all) && ById(all)[r.id] == r
  {
    var n := |all| - 1;
    assert all == all[..n] + [all[n]];
    if r != all[n] {
      ByIdMember(all[..n], r);
      var i :| 0 <= i < n && all[i] == r;
    }
  }

  /** The walk never leaves the backups that lead to a kept full. */
  lemma {:induction false} RootedIsClosed(read: Sidecars, records: seq<Record>, keep: set<string>)
    requires Loaded(read, records)
    ensures Closed(read, Rooted(records, keep))
  {
    var byID := ById(records);
    forall id | id in Rooted(records, keep) && id in read && read[id].kind == INCREMENTAL && read[id].parent != ""
      ensures read[id].parent in Rooted(records, keep)
    {
      var r, root :| r in records && root in keep && root != "" && HasRoot(byID, r, root) && r.id == id;
      assert r.kind == INCREMENTAL && r.parent == read[id].parent;
      var k: nat :| RootAt(byID, r, k, root);
      assert Ancestor(byID, r, 0) == Some(r);
      assert k > 0;
      LinkBeforeRoot(byID, r, k, root, 0);
      RootOfParent(byID, r, k - 1, root);
      ByIdValues(records);
      var p := byID[r.parent];
      assert p in records && HasRoot(byID, p, root) && p.id == r.parent;
    }
  }

  /** A backup that leads to a kept full is in no expired chain. */
  lemma {:induction false} RootedNotExpired(records: seq<Record>, keep: set<string>, id: string)
    requires UniqueIds(records) && id in Rooted(records, keep)
    ensures !InChains(GroupsOf(records), GroupsOf(records).Keys - keep, id)
  {
    var r, root :| r in records && root in keep && root != "" && HasRoot(ById(records), r, root) && r.id == id;
    RootIdIsRoot(records, r, root);
    FullIsItsRoot(records, r, root);
    forall k | k in GroupsOf(records) && id in ChainIds(GroupsOf(records)[k])
      ensures k == root
    {
      var q := MemberIsPlaceable(records, k, id);
      SameIdSameRecord(records, r, q);
    }
  }

  lemma {:induction false} FullIsItsRoot(records: seq<Record>, r: Record, root: string)
    requires HasRoot(ById(records), r, root)
    ensures r.kind == FULL ==> root == r.id
  {
    var k: nat :| RootAt(ById(records), r, k, root);
    assert Ancestor(ById(records), r, 0) == Some(r);
    assert r.kind == FULL ==> k == 0;
  }

  /** A member of a kept chain leads to a kept full. */
  lemma {:induction false} MemberIsRooted(records: seq<Record>, keep: set<string>, k: string, id: string)
    requires k in keep && k in GroupsOf(records) && id in ChainIds(GroupsOf(records)[k])
    requires forall r :: r in records ==> r.id != ""
    ensures id in Rooted(records, keep)
  {
    var r := MemberRecord(records, k, id);
    if r.kind == FULL {
      assert RootAt(ById(records), r, 0, r.id);
    } else {
      RootIdIsRoot(records, r, k);
    }
    assert HasRoot(ById(records), r, k);
  }

  /** None of these backups is expirable, and each is one directory. */
  ghost predicate Safe(plan: Plan, s: iset<string>) {
    && (forall i :: i in s ==> IdShape(i) && i !in plan.expirable)
    && (forall e :: e in plan.expirable ==> IdShape(e))
  }

  lemma {:induction false} RootedAreSafe(records: seq<Record>, keep: set<string>, plan: Plan)
    requires UniqueIds(records) && (forall r :: r in records ==> IdShape(r.id))
    requires forall e :: e in plan.expirable ==> InChains(GroupsOf(records), GroupsOf(records).Keys - keep, e)
    ensures Safe(plan, Rooted(records, keep))
  {
    forall i | i in Rooted(records, keep)
      ensures IdShape(i) && i !in plan.expirable
    {
      RootedNotExpired(records, keep, i);
    }
    ExpirableShape(records, keep, plan);
  }

  lemma {:induction false} ExpirableShape(records: seq<Record>, keep: set<string>, plan: Plan)
    requires forall r :: r in records ==> IdShape(r.id)
    requires forall e :: e in plan.expirable ==> InChains(GroupsOf(records), GroupsOf(records).Keys - keep, e)
    ensures forall e :: e in plan.expirable ==> IdShape(e)
  {
    forall e | e in plan.expirable
      ensures IdShape(e)
    {
      var k :| k in GroupsOf(records) && e in ChainIds(GroupsOf(records)[k]);
      var r := MemberRecord(records, k, e);
    }
  }

  /** Objects of a backup that is not expirable survive. */
  lemma {:induction false} SurvivesPrune(plan: Plan, before: Files, after: Files, s: iset<string>, id: string, path: string)
    requires OnlyDoomedRemoved(plan, before, after) && Safe(plan, s) && id in s
    requires path in before && HasPrefix(path, id + "/")
    ensures path in after && after[path] == before[path]
  {
    forall e | e in plan.expirable
      ensures !Under(path, e)
    {
      if Under(path, e) {
        DirsDisjoint(path, id, e);
      }
    }
    assert !Under(path, "wal") by {
      if Under(path, "wal") {
        DirsDisjoint(path, id, "wal");
      }
    }
  }

  /** Every object of every backup in s is still there, unchanged. */
  ghost predicate Intact(before: Files, after: Files, s: iset<string>) {
    forall id, path :: id in s && path in before && HasPrefix(path, id + "/") ==> path in after && after[path] == before[path]
  }

  lemma {:induction false} IntactSidecars(decode: Decoder, before: Files, after: Files, s: iset<string>)
    requires OnlyRemoved(before, after) && Intact(before, after, s)
    ensures var read, read' := SidecarsOf(decode, before), SidecarsOf(decode, after);
            forall i :: i in s ==> (i in read <==> i in read') && (i in read ==> read'[i] == read[i])
  {
    forall i | i in s
      ensures i + SIDECAR in before ==> i + SIDECAR in after && after[i + SIDECAR] == before[i + SIDECAR]
      ensures i + SIDECAR in after ==> i + SIDECAR in before
    {
      assert HasPrefix(i + SIDECAR, i + "/");
    }
  }

  /**
   Pruning never takes anything a kept backup needs. After any prune of the plan, complete
   or cut short by errors, restore's walk from every kept backup gives the same answer as
   before, and every object of every backup that walk can visit is still there unchanged.
   */
  lemma {:induction false} KeptBackupsStayRestorable(decode: Decoder, before: Files, after: Files, records: seq<Record>,
                                  keep: set<string>, plan: Plan, leaf: string)
    requires Loaded(SidecarsOf(decode, before), records)
    requires PlanFor(GroupsOf(records), keep, plan) && OnlyDoomedRemoved(plan, before, after)
    requires leaf in plan.kept
    ensures ChainFrom(SidecarsOf(decode, after), leaf, 64) == ChainFrom(SidecarsOf(decode, before), leaf, 64)
    ensures leaf in Rooted(records, keep) && Closed(SidecarsOf(decode, before), Rooted(records, keep))
    ensures Intact(before, after, Rooted(records, keep))
  {
    var s := Rooted(records, keep);
    RootedAreSafe(records, keep, plan);
    assert InChains(GroupsOf(records), keep, leaf);
    var k :| k in keep && k in GroupsOf(records) && leaf in ChainIds(GroupsOf(records)[k]);
    MemberIsRooted(records, keep, k, leaf);
    RootedIsClosed(SidecarsOf(decode, before), records, keep);
    SafeIsIntact(plan, before, after, s);
    IntactSidecars(decode, before, after, s);
    SameWalk(SidecarsOf(decode, before), SidecarsOf(decode, after), s, leaf, 64);
  }

  lemma {:induction false} SafeIsIntact(plan: Plan, before: Files, after: Files, s: iset<string>)
    requires OnlyDoomedRemoved(plan, before, after) && Safe(plan, s)
    ensures Intact(before, after, s)
  {
    forall id, path | id in s && path in before && HasPrefix(path, id + "/")
      ensures path in after && after[path] == before[path]
    {
      SurvivesPrune(plan, before, after, s, id, path);
    }
  }

  /**
   The WAL a kept backup needs survives the same prune: for segments of at most 16 MiB, no
   segment at or after a kept chain's start LSN is removed, on any timeline; an unreadable
   start LSN of a kept chain stops WAL pruning altogether.
   */
  lemma {:induction false} KeptWalSurvives(before: Files, after: Files, chains: Groups, keep: set<string>, plan: Plan,
                        k: string, t: Timeline, x: LSN, size: int)
    requires (forall e :: e in plan.expirable ==> IdShape(e)) && IsOldest(chains, keep, plan.oldest)
    requires OnlyDoomedRemoved(plan, before, after)
    requires k in keep && k in chains && StartOf(chains[k]) <= x
    requires SegmentSize(size) && (size <= 0x100_0000 || plan.oldest >= 0x1_0000_0000 || plan.oldest < 0x100_0000)
    requires SegmentPath(t, x, size) in before
    ensures SegmentPath(t, x, size) in after && after[SegmentPath(t, x, size)] == before[SegmentPath(t, x, size)]
    ensures ParseLSN(chains[k].full.startLSN).None? ==> plan.oldest == 0
  {
    NeededWalSurvives(plan.oldest, t, x, size);
    WalNotUnderBackup(t, x, size, plan.expirable);
  }

  lemma {:induction false} WalNotUnderBackup(t: Timeline, x: LSN, size: int, ids: seq<string>)
    requires SegmentSize(size) && forall e :: e in ids ==> IdShape(e)
    ensures forall e :: e in ids ==> !Under(SegmentPath(t, x, size), e)
  {
    var p := SegmentPath(t, x, size);
    forall e | e in ids
      ensures !Under(p, e)
    {
      if Under(p, e) {
        assert HasPrefix(p, "wal" + "/");
        DirsDisjoint(p, "wal", e);
      }
    }
  }
}
