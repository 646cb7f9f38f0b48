/**
 The retention planner of internal/retention/retention.go. Go's map iteration order is
 arbitrary, so the loops below pick the next key nondeterministically: what is proved
 holds for every order. Times are integers on one timeline; 0 is Go's zero time.
 */
module Retention {
  import opened Text
  import opened Chains
  import opened Sorting

  /** One chain: a full and the incrementals that descend from it. */
  datatype Group = Group(full: Record, incs: seq<Record>)

  type Groups = map<string, Group>

  // -------------------------------------------------------------- groupChains

  /** What rootOf answers for r among all records. */
  function RootId(all: seq<Record>, r: Record): string { Walk(ById(all), r, |all|) }

  /** The fulls, a later record replacing an earlier one of the same ID. */
  function FullsOf(all: seq<Record>, n: nat): map<string, Record>
    requires n <= |all|
  {
    if n == 0 then map[]
    else if all[n - 1].kind == FULL then FullsOf(all, n - 1)[all[n - 1].id := all[n - 1]]
    else FullsOf(all, n - 1)
  }

  /** The incrementals among the first n records whose root is id. */
  function IncsOf(all: seq<Record>, n: nat, id: string): seq<Record>
    requires n <= |all|
  {
    if n == 0 then []
    else if all[n - 1].kind == INCREMENTAL && RootId(all, all[n - 1]) == id && id != "" then
      IncsOf(all, n - 1, id) + [all[n - 1]]
    else IncsOf(all, n - 1, id)
  }

  function GroupsOf(all: seq<Record>): Groups {
    var fulls := FullsOf(all, |all|);
    map id | id in fulls :: Group(fulls[id], IncsOf(all, |all|, id))
  }

  lemma {:induction false} ByIdValues(all: seq<Record>)
    ensures forall k :: k in ById(all) ==> ById(all)[k] in all && ById(all)[k].id == k
  {
    if all != [] {
      ByIdValues(all[..|all| - 1]);
    }
  }

  lemma {:induction false} FullsValues(all: seq<Record>, n: nat)
    requires n <= |all|
    ensures forall k :: k in FullsOf(all, n) ==>
              FullsOf(all, n)[k] in all && FullsOf(all, n)[k].id == k && FullsOf(all, n)[k].kind == FULL
    ensures forall i :: 0 <= i < n && all[i].kind == FULL ==> all[i].id in FullsOf(all, n)
  {
    if n > 0 {
      FullsValues(all, n - 1);
    }
  }

  /** A root found for an incremental is the ID of a full in the records. */
  lemma {:induction false} RootIsAFull(all: seq<Record>, r: Record)
    requires r.kind != FULL && RootId(all, r) != ""
    ensures RootId(all, r) in FullsOf(all, |all|)
  {
    var byID, id := ById(all), RootId(all, r);
    WalkSound(byID, r, |all|);
    var k: nat :| RootAt(byID, r, k, id);
    assert k > 0;
    LinkBeforeRoot(byID, r, k, id, k - 1);
    ByIdValues(all);
    FullsValues(all, |all|);
    var f := Ancestor(byID, r, k).value;
    assert f in all;
    var i :| 0 <= i < |all| && all[i] == f;
  }

  /** groupChains. */
  method GroupChains(records: seq<Record>) returns (chains: Groups)
    ensures chains == GroupsOf(records)
  {
    var fulls: map<string, Record> := map[];
    for i := 0 to |records|
      invariant fulls == FullsOf(records, i)
    {
      if records[i].kind == FULL {
        fulls := fulls[records[i].id := records[i]];
      }
    }
    chains := map id | id in fulls :: Group(fulls[id], []);
    for i := 0 to |records|
      invariant chains.Keys == fulls.Keys
      invariant forall id :: id in chains ==> chains[id] == Group(fulls[id], IncsOf(records, i, id))
    {
      var r := records[i];
      if r.kind == INCREMENTAL {
        var root := RootOf(r, records);
        if root != "" {
          RootIsAFull(records, r);
          chains := chains[root := chains[root].(incs := chains[root].incs + [r])];
        }
      }
    }
    assert chains == GroupsOf(records);
  }

  // ---------------------------------------------------------------- keep rules

  const ZERO_FULL := Record("", "", "", "", 0)

  /** chains[k].full, the zero record for an unknown key. */
  function FullAt(chains: Groups, k: string): Record {
    if k in chains then chains[k].full else ZERO_FULL
  }

  /** byNewestFullStopTime. */
  predicate Newer(chains: Groups, a: string, b: string) {
    var ta, tb := FullAt(chains, a).stopTime, FullAt(chains, b).stopTime;
    if ta != tb then ta > tb else Less(FullAt(chains, a).id, FullAt(chains, b).id)
  }

  lemma {:induction false} NewerIsStrictWeak(chains: Groups)
    ensures StrictWeak((a, b) => Newer(chains, a, b))
  {
    LessIsStrictWeak();
  }

  /** Chain a's full stopped later than chain b's, or at the same time with the lesser ID. */
  predicate StoppedLater(chains: Groups, a: string, b: string)
    requires a in chains && b in chains
  {
    chains[a].full.stopTime > chains[b].full.stopTime || (chains[a].full.stopTime == chains[b].full.stopTime && Less(a, b))
  }

  /** The n newest chains, and no others. */
  predicate NewestChains(chains: Groups, n: nat, picks: set<string>) {
    && picks <= chains.Keys
    && |picks| == (if n < |chains| then n else |chains|)
    && forall a, b :: a in picks && a in chains && b in chains && b !in picks ==> StoppedLater(chains, a, b)
  }

  /** The chains that stopped later than k. */
  function LaterThan(chains: Groups, k: string): set<string>
    requires k in chains
  {
    set a | a in chains && StoppedLater(chains, a, k)
  }

  /** A chain is among the n newest exactly when fewer than n chains stopped later. */
  lemma {:induction false} NewestIff(chains: Groups, n: nat, picks: set<string>, k: string)
    requires NewestChains(chains, n, picks) && k in chains
    ensures k in picks <==> |LaterThan(chains, k)| < n
  {
    var later := LaterThan(chains, k);
    if k in picks {
      forall a | a in later
        ensures a in picks - {k}
      {
        Trichotomy(a, k);
      }
      SubsetSize(later, picks - {k});
    } else {
      SubsetSize(picks, later);
      SubsetSize(picks + {k}, chains.Keys);
    }
  }

  lemma {:induction false} SubsetSize<T>(a: set<T>, b: set<T>)
    requires a <= b
    ensures |a| <= |b|
  {
    assert b == a + (b - a);
  }

  /** Every chain is filed under its full's ID. */
  predicate Keyed(chains: Groups) {
    forall k :: k in chains ==> chains[k].full.id == k
  }

  /** A set's elements as a list, in an arbitrary order. */
  method Elements<T(==)>(s: set<T>) returns (out: seq<T>)
    ensures |out| == |s| && (forall x :: x in out <==> x in s)
    ensures forall i, j :: 0 <= i < j < |out| ==> out[i] != out[j]
  {
    out := [];
    var rest := s;
    while rest != {}
      invariant rest <= s && |out| + |rest| == |s|
      invariant forall x :: x in out <==> x in s - rest
      invariant forall i, j :: 0 <= i < j < |out| ==> out[i] != out[j]
      decreases |rest|
    {
      var x :| x in rest;
      assert x !in out;
      rest := rest - {x};
      out := out + [x];
    }
  }

  /** The keep_fulls rule: orderedChainKeys, then the first n. */
  method KeepFulls(chains: Groups, n: nat) returns (picks: set<string>)
    requires Keyed(chains)
    ensures NewestChains(chains, n, picks)
    ensures forall k :: k in chains ==> (k in picks <==> |LaterThan(chains, k)| < n)
  {
    NewerIsStrictWeak(chains);
    var keys := Elements(chains.Keys);
    var ordered := Sort(keys, (a, b) => Newer(chains, a, b));
    SortedKeysDistinct(keys, ordered);
    var m := if n < |ordered| then n else |ordered|;
    picks := {};
    for i := 0 to m
      invariant picks == PrefixSet(ordered, i)
    {
      picks := picks + {ordered[i]};
    }
    PrefixIsNewest(chains, ordered, m);
    SameSize(chains, ordered);
    forall k | k in chains
      ensures k in picks <==> |LaterThan(chains, k)| < n
    {
      NewestIff(chains, n, picks, k);
    }
  }

  function PrefixSet<T>(s: seq<T>, m: nat): set<T>
    requires m <= |s|
  {
    if m == 0 then {} else PrefixSet(s, m - 1) + {s[m - 1]}
  }

  lemma {:induction false} PrefixSetIs<T>(s: seq<T>, m: nat)
    requires m <= |s|
    requires forall i, j :: 0 <= i < j < |s| ==> s[i] != s[j]
    ensures forall x :: x in PrefixSet(s, m) <==> x in s[..m]
    ensures |PrefixSet(s, m)| == m
  {
    if m > 0 {
      PrefixSetIs(s, m - 1);
      assert s[..m] == s[..m - 1] + [s[m - 1]];
      assert s[m - 1] !in s[..m - 1];
    }
  }

  lemma {:induction false} SameSize(chains: Groups, ordered: seq<string>)
    requires forall x :: x in ordered <==> x in chains
    requires forall i, j :: 0 <= i < j < |ordered| ==> ordered[i] != ordered[j]
    ensures |ordered| == |chains|
  {
    PrefixSetIs(ordered, |ordered|);
    assert ordered[..|ordered|] == ordered;
    assert PrefixSet(ordered, |ordered|) == chains.Keys;
  }

  lemma {:induction false} PrefixIsNewest(chains: Groups, ordered: seq<string>, m: nat)
    requires Keyed(chains) && m <= |ordered|
    requires forall x :: x in ordered <==> x in chains
    requires forall i, j :: 0 <= i < j < |ordered| ==> ordered[i] != ordered[j]
    requires SortedBy(ordered, (a, b) => Newer(chains, a, b))
    ensures PrefixSet(ordered, m) <= chains.Keys && |PrefixSet(ordered, m)| == m
    ensures forall a, b :: a in PrefixSet(ordered, m) && b in chains && b !in PrefixSet(ordered, m) ==>
              a in chains && StoppedLater(chains, a, b)
  {
    var picks := PrefixSet(ordered, m);
    PrefixSetIs(ordered, m);
    forall a, b | a in picks && b in chains && b !in picks
      ensures a in chains && StoppedLater(chains, a, b)
    {
      assert a in ordered[..m] && b !in ordered[..m] && b in ordered;
      var i :| 0 <= i < m && ordered[i] == a;
      var j :| 0 <= j < |ordered| && ordered[j] == b;
      assert i < j;
      assert !((a, b) => Newer(chains, a, b))(ordered[j], ordered[i]);
      assert !Newer(chains, b, a);
      Trichotomy(a, b);
    }
  }

  lemma {:induction false} SortedKeysDistinct(keys: seq<string>, ordered: seq<string>)
    requires multiset(ordered) == multiset(keys)
    requires forall i, j :: 0 <= i < j < |keys| ==> keys[i] != keys[j]
    ensures |ordered| == |keys| && (forall x :: x in ordered <==> x in keys)
    ensures forall i, j :: 0 <= i < j < |ordered| ==> ordered[i] != ordered[j]
  {
    assert |multiset(ordered)| == |ordered| && |multiset(keys)| == |keys|;
    forall x
      ensures x in ordered <==> x in keys
    {
      assert x in ordered <==> x in multiset(ordered);
      assert x in keys <==> x in multiset(keys);
    }
    DistinctCount(keys);
    forall i, j | 0 <= i < j < |ordered|
      ensures ordered[i] != ordered[j]
    {
      if ordered[i] == ordered[j] {
        TwiceCounted(ordered, i, j);
      }
    }
  }

  lemma {:induction false} DistinctCount(keys: seq<string>)
    requires forall i, j :: 0 <= i < j < |keys| ==> keys[i] != keys[j]
    ensures forall x :: multiset(keys)[x] <= 1
  {
    if keys != [] {
      var n := |keys| - 1;
      DistinctCount(keys[..n]);
      assert keys == keys[..n] + [keys[n]];
      assert keys[n] !in keys[..n];
      assert keys[n] !in multiset(keys[..n]);
    }
  }

  lemma {:induction false} TwiceCounted(s: seq<string>, i: nat, j: nat)
    requires i < j < |s| && s[i] == s[j]
    ensures multiset(s)[s[i]] >= 2
  {
    assert s == s[..j] + ([s[j]] + s[j + 1..]);
    assert s[i] in s[..j];
    assert multiset(s) == multiset(s[..j]) + multiset([s[j]] + s[j + 1..]);
  }

  // ---------------------------------------------------------------- bucket rules

  /** Chain k stopped at a known time and falls in one of the last n buckets. */
  predicate InWindow(chains: Groups, n: int, bucket: int -> int, k: string) {
    k in chains && chains[k].full.stopTime != 0 && 0 <= bucket(chains[k].full.stopTime) < n
  }

  function BucketOf(chains: Groups, bucket: int -> int, k: string): int {
    bucket(FullAt(chains, k).stopTime)
  }

  /** p is the chain kept for k's bucket: same bucket, and not older than k. */
  predicate Covers(chains: Groups, bucket: int -> int, p: string, k: string) {
    BucketOf(chains, bucket, p) == BucketOf(chains, bucket, k) && FullAt(chains, k).stopTime <= FullAt(chains, p).stopTime
  }

  predicate Covered(chains: Groups, bucket: int -> int, picks: set<string>, k: string) {
    exists p :: p in picks && Covers(chains, bucket, p, k)
  }

  /** One newest chain of every non-empty bucket in the window, and nothing else. */
  predicate OnePerBucket(chains: Groups, n: int, bucket: int -> int, picks: set<string>) {
    && (forall p :: p in picks ==> InWindow(chains, n, bucket, p))
    && (forall k :: k in chains && InWindow(chains, n, bucket, k) ==> Covered(chains, bucket, picks, k))
    && (forall p, q :: p in picks && q in picks && BucketOf(chains, bucket, p) == BucketOf(chains, bucket, q) ==> p == q)
  }

  datatype Entry = Entry(key: string, t: int)

  /** The entries collected so far are exactly the in-window chains of `done`, filed by bucket. */
  predicate Filed(chains: Groups, n: int, bucket: int -> int, done: set<string>, byBucket: map<int, seq<Entry>>) {
    && (forall b, e :: b in byBucket && e in byBucket[b] ==>
          && e.key in done && InWindow(chains, n, bucket, e.key)
          && e.t == FullAt(chains, e.key).stopTime && BucketOf(chains, bucket, e.key) == b)
    && (forall b :: b in byBucket ==> byBucket[b] != [])
    && (forall k :: k in done && InWindow(chains, n, bucket, k) ==>
          BucketOf(chains, bucket, k) in byBucket &&
          Entry(k, FullAt(chains, k).stopTime) in byBucket[BucketOf(chains, bucket, k)])
  }

  /** The newest entry of a non-empty list. */
  method Newest(entries: seq<Entry>) returns (best: Entry)
    requires entries != []
    ensures best in entries && forall e :: e in entries ==> e.t <= best.t
  {
    best := entries[0];
    for i := 1 to |entries|
      invariant best in entries && forall j :: 0 <= j < i ==> entries[j].t <= best.t
    {
      if entries[i].t > best.t {
        best := entries[i];
      }
    }
  }

  /** byBucket[idx] = append(byBucket[idx], e). */
  function Append(byBucket: map<int, seq<Entry>>, idx: int, e: Entry): map<int, seq<Entry>> {
    byBucket[idx := (if idx in byBucket then byBucket[idx] else []) + [e]]
  }

  lemma {:induction false} FiledAppend(chains: Groups, n: int, bucket: int -> int, done: set<string>, byBucket: map<int, seq<Entry>>, k: string)
    requires Filed(chains, n, bucket, done, byBucket) && InWindow(chains, n, bucket, k)
    ensures var t := FullAt(chains, k).stopTime;
            Filed(chains, n, bucket, done + {k}, Append(byBucket, bucket(t), Entry(k, t)))
  {
    var e, idx := Entry(k, FullAt(chains, k).stopTime), BucketOf(chains, bucket, k);
    var before := if idx in byBucket then byBucket[idx] else [];
    var after := Append(byBucket, idx, e);
    assert after[idx] == before + [e];
    forall b: int, x: Entry | b in after && x in after[b]
      ensures x.key in done + {k} && InWindow(chains, n, bucket, x.key)
      ensures x.t == FullAt(chains, x.key).stopTime && BucketOf(chains, bucket, x.key) == b
    {
      assert x == e || (b in byBucket && x in byBucket[b]);
    }
  }

  /** applyBucketRule, first loop. */
  method FileByBucket(chains: Groups, n: int, bucket: int -> int) returns (byBucket: map<int, seq<Entry>>)
    ensures Filed(chains, n, bucket, chains.Keys, byBucket)
  {
    byBucket := map[];
    var rest := chains.Keys;
    ghost var done: set<string> := {};
    while rest != {}
      invariant rest <= chains.Keys && done == chains.Keys - rest
      invariant Filed(chains, n, bucket, done, byBucket)
      decreases |rest|
    {
      var k :| k in rest;
      var t := chains[k].full.stopTime;
      if t != 0 && 0 <= bucket(t) < n {
        FiledAppend(chains, n, bucket, done, byBucket, k);
        byBucket := Append(byBucket, bucket(t), Entry(k, t));
      }
      rest, done := rest - {k}, done + {k};
    }
    assert done == chains.Keys;
  }

  /** The newest entry of a bucket covers every chain of that bucket. */
  lemma {:induction false} NewestCovers(chains: Groups, n: int, bucket: int -> int, byBucket: map<int, seq<Entry>>, b: int, best: Entry)
    requires Filed(chains, n, bucket, chains.Keys, byBucket) && b in byBucket
    requires best in byBucket[b] && forall e :: e in byBucket[b] ==> e.t <= best.t
    ensures InWindow(chains, n, bucket, best.key) && BucketOf(chains, bucket, best.key) == b
    ensures forall k :: InWindow(chains, n, bucket, k) && BucketOf(chains, bucket, k) == b ==> Covers(chains, bucket, best.key, k)
  {
    forall k | InWindow(chains, n, bucket, k) && BucketOf(chains, bucket, k) == b
      ensures Covers(chains, bucket, best.key, k)
    {
      assert Entry(k, FullAt(chains, k).stopTime) in byBucket[b];
    }
  }

  /** applyBucketRule, second loop: every pick lies in the window and in a bucket already done. */
  predicate PicksIn(chains: Groups, n: int, bucket: int -> int, done: seq<int>, picks: set<string>) {
    forall p :: p in picks ==> InWindow(chains, n, bucket, p) && BucketOf(chains, bucket, p) in done
  }

  /** Every chain in a bucket already done is covered. */
  predicate PicksCover(chains: Groups, n: int, bucket: int -> int, done: seq<int>, picks: set<string>) {
    forall k :: k in chains && InWindow(chains, n, bucket, k) && BucketOf(chains, bucket, k) in done ==>
      Covered(chains, bucket, picks, k)
  }

  /** No bucket has two picks. */
  predicate PicksApart(chains: Groups, bucket: int -> int, picks: set<string>) {
    forall p, q :: p in picks && q in picks && BucketOf(chains, bucket, p) == BucketOf(chains, bucket, q) ==> p == q
  }

  lemma {:induction false} CoverAdd(chains: Groups, n: int, bucket: int -> int, done: seq<int>, picks: set<string>, b: int, best: string)
    requires PicksCover(chains, n, bucket, done, picks)
    requires forall k :: InWindow(chains, n, bucket, k) && BucketOf(chains, bucket, k) == b ==> Covers(chains, bucket, best, k)
    ensures PicksCover(chains, n, bucket, done + [b], picks + {best})
  {
    forall k | k in chains && InWindow(chains, n, bucket, k) && BucketOf(chains, bucket, k) in done + [b]
      ensures Covered(chains, bucket, picks + {best}, k)
    {
      if BucketOf(chains, bucket, k) in done {
        assert Covered(chains, bucket, picks, k);
        var p :| p in picks && Covers(chains, bucket, p, k);
        assert p in picks + {best};
      } else {
        assert best in picks + {best} && Covers(chains, bucket, best, k);
      }
    }
  }

  lemma {:induction false} ApartAdd(chains: Groups, n: int, bucket: int -> int, done: seq<int>, picks: set<string>, b: int, best: string)
    requires PicksIn(chains, n, bucket, done, picks) && PicksApart(chains, bucket, picks) && b !in done
    requires InWindow(chains, n, bucket, best) && BucketOf(chains, bucket, best) == b
    ensures PicksIn(chains, n, bucket, done + [b], picks + {best}) && PicksApart(chains, bucket, picks + {best})
  {
    forall p, q | p in picks + {best} && q in picks + {best} && BucketOf(chains, bucket, p) == BucketOf(chains, bucket, q)
      ensures p == q
    {
      assert p in picks ==> BucketOf(chains, bucket, p) in done;
      assert q in picks ==> BucketOf(chains, bucket, q) in done;
    }
  }

  /** applyBucketRule: adds to the kept set one newest chain of each non-empty bucket. */
  method ApplyBucketRule(chains: Groups, keep: set<string>, n: int, bucket: int -> int)
    returns (keep': set<string>, picks: set<string>)
    ensures keep' == keep + picks
    ensures OnePerBucket(chains, n, bucket, picks)
  {
    var byBucket := FileByBucket(chains, n, bucket);
    keep', picks := PickNewest(chains, keep, n, bucket, byBucket);
  }

  /** applyBucketRule, second loop. */
  method PickNewest(chains: Groups, keep: set<string>, n: int, bucket: int -> int, byBucket: map<int, seq<Entry>>)
    returns (keep': set<string>, picks: set<string>)
    requires Filed(chains, n, bucket, chains.Keys, byBucket)
    ensures keep' == keep + picks
    ensures PicksApart(chains, bucket, picks) && forall p :: p in picks ==> InWindow(chains, n, bucket, p)
    ensures forall k :: k in chains && InWindow(chains, n, bucket, k) ==> Covered(chains, bucket, picks, k)
  {
    keep', picks := keep, {};
    var order := Elements(byBucket.Keys);
    for i := 0 to |order|
      invariant keep' == keep + picks
      invariant PicksIn(chains, n, bucket, order[..i], picks) && PicksApart(chains, bucket, picks)
      invariant PicksCover(chains, n, bucket, order[..i], picks)
    {
      var b := order[i];
      assert b in byBucket && b !in order[..i] && order[..i + 1] == order[..i] + [b];
      var best := Newest(byBucket[b]);
      NewestCovers(chains, n, bucket, byBucket, b, best);
      CoverAdd(chains, n, bucket, order[..i], picks, b, best.key);
      ApartAdd(chains, n, bucket, order[..i], picks, b, best.key);
      keep', picks := keep' + {best.key}, picks + {best.key};
    }
    assert order[..|order|] == order;
    forall k | k in chains && InWindow(chains, n, bucket, k)
      ensures Covered(chains, bucket, picks, k)
    {
      assert BucketOf(chains, bucket, k) in byBucket;
    }
  }
}
