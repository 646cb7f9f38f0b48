/**
 Backup chains: the parent walk of the retention planner (rootOf, groupChains in
 internal/retention/retention.go) and the one of restore (buildChain in
 internal/restore/chain.go).
 */
module Chains {
  import opened Common

  const FULL := "full"
  const INCREMENTAL := "incremental"

  /** The part of info.BackupRecord the planner reads; stopTime 0 is Go's zero time. */
  datatype Record = Record(id: string, kind: string, parent: string, startLSN: string, stopTime: int)

  // ---------------------------------------------------------- following parents

  /** rootOf's byID index: a later record replaces an earlier one of the same ID. */
  function ById(all: seq<Record>): map<string, Record> {
    if all == [] then map[] else ById(all[..|all| - 1])[all[|all| - 1].id := all[|all| - 1]]
  }

  /** The record reached after k parent links, if the links exist. */
  function Ancestor(byID: map<string, Record>, r: Record, k: nat): Option<Record> {
    if k == 0 then Some(r)
    else
      match Ancestor(byID, r, k - 1)
      case None => None
      case Some(a) => if a.parent in byID then Some(byID[a.parent]) else None
  }

  /** A full is reached after exactly k links, and none before. */
  predicate RootAt(byID: map<string, Record>, r: Record, k: nat, id: string) {
    && Ancestor(byID, r, k).Some?
    && Ancestor(byID, r, k).value.kind == FULL && Ancestor(byID, r, k).value.id == id
    && forall j :: 0 <= j < k ==> Ancestor(byID, r, j).Some? && Ancestor(byID, r, j).value.kind != FULL
  }

  /** id is the full at the end of r's chain of parents, however long that chain is. */
  ghost predicate HasRoot(byID: map<string, Record>, r: Record, id: string) {
    exists k: nat :: RootAt(byID, r, k, id)
  }

  lemma {:induction false} AncestorAdd(byID: map<string, Record>, r: Record, i: nat, d: nat)
    requires Ancestor(byID, r, i).Some?
    ensures Ancestor(byID, r, i + d) == Ancestor(byID, Ancestor(byID, r, i).value, d)
  {
    if d > 0 {
      AncestorAdd(byID, r, i, d - 1);
    }
  }

  lemma {:induction false} DistinctBound(keys: seq<string>, s: set<string>)
    requires forall i, j :: 0 <= i < j < |keys| ==> keys[i] != keys[j]
    requires forall i :: 0 <= i < |keys| ==> keys[i] in s
    ensures |keys| <= |s|
    decreases |keys|
  {
    if keys != [] {
      var n := |keys| - 1;
      DistinctBound(keys[..n], s - {keys[n]});
    }
  }

  /** On the way to the first full no record is met twice. */
  lemma {:induction false} NoRepeatBeforeRoot(byID: map<string, Record>, r: Record, k: nat, id: string, i: nat, j: nat)
    requires RootAt(byID, r, k, id) && i < j <= k
    ensures Ancestor(byID, r, i) != Ancestor(byID, r, j)
  {
    if Ancestor(byID, r, i) == Ancestor(byID, r, j) {
      AncestorAdd(byID, r, i, k - j);
      AncestorAdd(byID, r, j, k - j);
    }
  }

  lemma {:induction false} LinkBeforeRoot(byID: map<string, Record>, r: Record, k: nat, id: string, i: nat)
    requires RootAt(byID, r, k, id) && i < k
    ensures Ancestor(byID, r, i).Some? && Ancestor(byID, r, i).value.parent in byID
    ensures Ancestor(byID, r, i + 1) == Some(byID[Ancestor(byID, r, i).value.parent])
  {
    assert Ancestor(byID, r, i).Some?;
    assert i + 1 == k || Ancestor(byID, r, i + 1).Some?;
  }

  /** Pigeonhole: a reachable full is never further away than there are indexed records. */
  lemma {:induction false} RootWithinBound(byID: map<string, Record>, r: Record, k: nat, id: string)
    requires RootAt(byID, r, k, id)
    ensures k <= |byID|
  {
    forall i | 0 <= i < k
      ensures Ancestor(byID, r, i).Some? && Ancestor(byID, r, i).value.parent in byID
      ensures Ancestor(byID, r, i + 1) == Some(byID[Ancestor(byID, r, i).value.parent])
    {
      LinkBeforeRoot(byID, r, k, id, i);
    }
    var keys := seq(k, i requires 0 <= i < k => Ancestor(byID, r, i).value.parent);
    forall i, j | 0 <= i < j < k
      ensures keys[i] != keys[j]
    {
      NoRepeatBeforeRoot(byID, r, k, id, i + 1, j + 1);
    }
    DistinctBound(keys, byID.Keys);
  }

  lemma {:induction false} ByIdSize(all: seq<Record>)
    ensures |ById(all)| <= |all|
  {
    if all != [] {
      var prev := ById(all[..|all| - 1]);
      ByIdSize(all[..|all| - 1]);
      assert ById(all).Keys == prev.Keys + {all[|all| - 1].id};
    }
  }

  /** The walk with a budget of n further links. */
  function Walk(byID: map<string, Record>, cur: Record, n: nat): string
    decreases n
  {
    if cur.kind == FULL then cur.id
    else if cur.parent !in byID || n == 0 then ""
    else Walk(byID, byID[cur.parent], n - 1)
  }

  /** The budgeted walk finds the root when it is near enough. */
  lemma {:induction false} WalkFinds(byID: map<string, Record>, r: Record, n: nat, k: nat, id: string)
    requires RootAt(byID, r, k, id) && k <= n
    ensures Walk(byID, r, n) == id
    decreases n
  {
    if k > 0 {
      assert Ancestor(byID, r, 0) == Some(r);
      assert Ancestor(byID, r, 1).Some?;
      var p := byID[r.parent];
      forall j | 0 <= j < k
        ensures Ancestor(byID, p, j) == Ancestor(byID, r, j + 1)
      {
        AncestorAdd(byID, r, 1, j);
      }
      WalkFinds(byID, p, n - 1, k - 1, id);
    }
  }

  /** Whatever the budgeted walk answers is the root, or nothing was found. */
  lemma {:induction false} WalkSound(byID: map<string, Record>, r: Record, n: nat)
    ensures Walk(byID, r, n) == "" || HasRoot(byID, r, Walk(byID, r, n))
    decreases n
  {
    if r.kind == FULL {
      assert RootAt(byID, r, 0, r.id);
    } else if r.parent in byID && n > 0 {
      var p := byID[r.parent];
      WalkSound(byID, p, n - 1);
      if Walk(byID, p, n - 1) != "" {
        var k: nat :| RootAt(byID, p, k, Walk(byID, p, n - 1));
        RootOfParent(byID, r, k, Walk(byID, p, n - 1));
      }
    }
  }

  /** A non-full record has its parent's root. */
  lemma {:induction false} RootOfParent(byID: map<string, Record>, r: Record, k: nat, id: string)
    requires r.kind != FULL && r.parent in byID
    ensures RootAt(byID, byID[r.parent], k, id) <==> RootAt(byID, r, k + 1, id)
  {
    assert Ancestor(byID, r, 0) == Some(r);
    assert Ancestor(byID, r, 1) == Some(byID[r.parent]);
    forall j | 0 <= j <= k
      ensures Ancestor(byID, r, j + 1) == Ancestor(byID, byID[r.parent], j)
    {
      AncestorAdd(byID, r, 1, j);
    }
    if RootAt(byID, byID[r.parent], k, id) {
      forall j | 0 <= j < k + 1
        ensures Ancestor(byID, r, j).Some? && Ancestor(byID, r, j).value.kind != FULL
      {
        if j > 0 {
          assert Ancestor(byID, r, j) == Ancestor(byID, byID[r.parent], j - 1);
        }
      }
    }
    if RootAt(byID, r, k + 1, id) {
      forall j | 0 <= j < k
        ensures Ancestor(byID, byID[r.parent], j).Some? && Ancestor(byID, byID[r.parent], j).value.kind != FULL
      {
        assert Ancestor(byID, r, j + 1) == Ancestor(byID, byID[r.parent], j);
      }
    }
  }

  /**
   rootOf. Its bound of len(all)+1 iterations misses nothing: it answers with the full at
   the end of r's chain whenever there is one, through cycles elsewhere, orphans and
   duplicate IDs, and with "" exactly when there is none (or that full's ID is empty).
   */
  method RootOf(r: Record, all: seq<Record>) returns (root: string)
    ensures forall id :: HasRoot(ById(all), r, id) ==> root == id
    ensures root != "" ==> HasRoot(ById(all), r, root)
    ensures root == Walk(ById(all), r, |all|)
  {
    var byID: map<string, Record> := map[];
    for i := 0 to |all|
      invariant byID == ById(all[..i])
    {
      assert all[..i + 1][..i] == all[..i];
      byID := byID[all[i].id := all[i]];
    }
    assert all[..|all|] == all;
    WalkSound(byID, r, |all|);
    forall id | HasRoot(byID, r, id)
      ensures Walk(byID, r, |all|) == id
    {
      var k: nat :| RootAt(byID, r, k, id);
      RootWithinBound(byID, r, k, id);
      ByIdSize(all);
      WalkFinds(byID, r, |all|, k, id);
    }
    var cur := r;
    for i := 0 to |all| + 1
      invariant i <= |all| ==> Walk(byID, cur, |all| - i) == Walk(byID, r, |all|)
      invariant i == |all| + 1 ==> Walk(byID, r, |all|) == ""
    {
      if cur.kind == FULL {
        return cur.id;
      }
      if cur.parent !in byID {
        return "";
      }
      cur := byID[cur.parent];
    }
    return "";
  }

  // ------------------------------------------------------------- restore's walk

  /** The part of a sidecar buildChain reads. */
  datatype Sidecar = Sidecar(kind: string, parent: string)

  /** The sidecars restore can read; an absent or undecodable one is missing. */
  type Sidecars = map<string, Sidecar>

  datatype ChainResult = Chain(ids: seq<string>) | ChainError

  /** The i-th backup of the list is an incremental on top of the one before it. */
  predicate LinkAt(read: Sidecars, ids: seq<string>, i: nat)
    requires 0 < i < |ids| && ids[i] in read
  {
    read[ids[i]].kind == INCREMENTAL && read[ids[i]].parent == ids[i - 1] && ids[i - 1] != ""
  }

  /** A restorable chain: root to leaf, a full first, every next one the child of the one before. */
  predicate IsChain(read: Sidecars, ids: seq<string>) {
    && ids != []
    && (forall i :: 0 <= i < |ids| ==> ids[i] in read)
    && (read[ids[0]].kind == FULL || read[ids[0]].kind == "")
    && (forall i :: 0 < i < |ids| ==> LinkAt(read, ids, i))
  }

  function Last(ids: seq<string>): string
    requires ids != []
  {
    ids[|ids| - 1]
  }

  /** buildChain's answer with a remaining depth of n. */
  function ChainFrom(read: Sidecars, id: string, n: nat): ChainResult
    decreases n
  {
    if n == 0 || id !in read then ChainError
    else if read[id].kind == FULL || read[id].kind == "" then Chain([id])
    else if read[id].kind != INCREMENTAL || read[id].parent == "" then ChainError
    else
      match ChainFrom(read, read[id].parent, n - 1)
      case ChainError => ChainError
      case Chain(ids) => Chain(ids + [id])
  }

  /** Soundness and completeness of the walk against the definition of a chain. */
  lemma {:induction false} ChainFromIff(read: Sidecars, id: string, n: nat, ids: seq<string>)
    ensures ChainFrom(read, id, n) == Chain(ids) <==> IsChain(read, ids) && Last(ids) == id && |ids| <= n
    decreases n
  {
    if n > 0 && id in read {
      if |ids| >= 1 {
        var head := ids[..|ids| - 1];
        assert ids == head + [Last(ids)];
        ChainFromIff(read, read[id].parent, n - 1, head);
        if ChainFrom(read, id, n) == Chain(ids) && |ids| > 1 {
          ChainExtends(read, head, id);
        }
        if IsChain(read, ids) && Last(ids) == id && |ids| > 1 {
          ChainShrinks(read, ids);
        }
      }
    }
  }

  lemma {:induction false} ChainExtends(read: Sidecars, head: seq<string>, id: string)
    requires IsChain(read, head) && id in read
    requires read[id].kind == INCREMENTAL && read[id].parent == Last(head) && Last(head) != ""
    ensures IsChain(read, head + [id])
  {
    var ids := head + [id];
    forall i | 0 < i < |ids|
      ensures LinkAt(read, ids, i)
    {
      if i < |head| {
        assert LinkAt(read, head, i);
      }
    }
  }

  lemma {:induction false} ChainShrinks(read: Sidecars, ids: seq<string>)
    requires IsChain(read, ids) && |ids| > 1
    ensures var head := ids[..|ids| - 1];
            IsChain(read, head) && read[Last(ids)].parent == Last(head) != "" && read[Last(ids)].kind == INCREMENTAL
  {
    var head := ids[..|ids| - 1];
    assert LinkAt(read, ids, |ids| - 1);
    forall i | 0 < i < |head|
      ensures LinkAt(read, head, i)
    {
      assert LinkAt(read, ids, i);
    }
  }

  /** A chain never repeats a backup. */
  lemma {:induction false} ChainHasNoRepeats(read: Sidecars, ids: seq<string>, i: nat, j: nat)
    requires IsChain(read, ids) && i < j < |ids|
    ensures ids[i] != ids[j]
    decreases i
  {
    assert LinkAt(read, ids, j);
    if i > 0 {
      assert LinkAt(read, ids, i);
      ChainHasNoRepeats(read, ids, i - 1, j - 1);
    }
  }

  /**
   buildChain, depth limit 64: it succeeds exactly when a restorable chain of at most 64
   backups ends at the leaf, and then returns that chain, which has no repeats.
   */
  method BuildChain(read: Sidecars, leaf: string) returns (r: ChainResult)
    ensures forall ids :: r == Chain(ids) <==> IsChain(read, ids) && Last(ids) == leaf && |ids| <= 64
    ensures r.Chain? ==> forall i, j :: 0 <= i < j < |r.ids| ==> r.ids[i] != r.ids[j]
    ensures r == ChainFrom(read, leaf, 64)
  {
    r := WalkToRoot(read, leaf);
    ChainMeaning(read, leaf);
  }

  lemma {:induction false} ChainMeaning(read: Sidecars, leaf: string)
    ensures forall ids :: ChainFrom(read, leaf, 64) == Chain(ids) <==>
              IsChain(read, ids) && Last(ids) == leaf && |ids| <= 64
    ensures var r := ChainFrom(read, leaf, 64);
            r.Chain? ==> forall i, j :: 0 <= i < j < |r.ids| ==> r.ids[i] != r.ids[j]
  {
    forall ids
      ensures ChainFrom(read, leaf, 64) == Chain(ids) <==> IsChain(read, ids) && Last(ids) == leaf && |ids| <= 64
    {
      ChainFromIff(read, leaf, 64, ids);
    }
    var r := ChainFrom(read, leaf, 64);
    if r.Chain? {
      forall i, j | 0 <= i < j < |r.ids|
        ensures r.ids[i] != r.ids[j]
      {
        ChainHasNoRepeats(read, r.ids, i, j);
      }
    }
  }

  /** The loop of buildChain. */
  method WalkToRoot(read: Sidecars, leaf: string) returns (r: ChainResult)
    ensures r == ChainFrom(read, leaf, 64)
  {
    var chain, id := [], leaf;
    for i := 0 to 64
      invariant ChainFrom(read, leaf, 64) == Prepend(ChainFrom(read, id, 64 - i), chain)
    {
      if id !in read {
        return ChainError;
      }
      chain := [id] + chain;
      if read[id].kind == FULL || read[id].kind == "" {
        return Chain(chain);
      }
      if read[id].kind != INCREMENTAL {
        return ChainError;
      }
      if read[id].parent == "" {
        return ChainError;
      }
      assert ChainFrom(read, id, 64 - i) == Prepend(ChainFrom(read, read[id].parent, 63 - i), [id]);
      PrependTwice(ChainFrom(read, read[id].parent, 63 - i), id, chain[1..]);
      id := read[id].parent;
    }
    r := ChainError;
  }

  /** The ancestors found later come before the part already collected. */
  function Prepend(r: ChainResult, tail: seq<string>): ChainResult {
    match r
    case ChainError => ChainError
    case Chain(ids) => Chain(ids + tail)
  }

  lemma {:induction false} PrependTwice(r: ChainResult, id: string, tail: seq<string>)
    ensures Prepend(Prepend(r, [id]), tail) == Prepend(r, [id] + tail)
  {
    match r
    case ChainError =>
    case Chain(ids) => assert ids + [id] + tail == ids + ([id] + tail);
  }
}
