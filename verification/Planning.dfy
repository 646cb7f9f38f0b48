/** Evaluate of internal/retention/retention.go: which chains a policy keeps, and the plan made of them. */
module Planning {
  import opened Common
  import opened Text
  import opened Wal
  import opened Chains
  import opened Sorting
  import opened Retention

  datatype Policy = Policy(keepFulls: int, keepFullAge: int, keepDaily: int, keepWeekly: int, keepMonthly: int)

  /** Running day, week and month numbers of a time. */
  datatype Calendar = Calendar(day: int -> int, week: int -> int, month: int -> int)

  datatype Plan = Plan(expirable: seq<string>, kept: seq<string>, oldest: LSN)

  datatype Evaluated = Planned(plan: Plan) | ErrEmptyPolicy

  // ------------------------------------------------------------- what is kept

  predicate FullsRule(chains: Groups, n: int, picks: set<string>) {
    if n > 0 then NewestChains(chains, n, picks) else picks == {}
  }

  predicate AgeRule(chains: Groups, age: int, now: int, picks: set<string>) {
    picks == set k | k in chains && age > 0 && chains[k].full.stopTime != 0 && chains[k].full.stopTime > now - age
  }

  predicate BucketRule(chains: Groups, n: int, bucket: int -> int, picks: set<string>) {
    if n > 0 then OnePerBucket(chains, n, bucket, picks) else picks == {}
  }

  /** How many units ago a time is. */
  function UnitsAgo(unit: int -> int, now: int): int -> int { t => unit(now) - unit(t) }

  /** What each rule picked. */
  datatype Picks = Picks(fulls: set<string>, young: set<string>, daily: set<string>, weekly: set<string>, monthly: set<string>)

  /** The kept set is the union of what the engaged rules pick. */
  ghost predicate KeepSet(policy: Policy, cal: Calendar, now: int, chains: Groups, picks: Picks, keep: set<string>) {
    && FullsRule(chains, policy.keepFulls, picks.fulls)
    && AgeRule(chains, policy.keepFullAge, now, picks.young)
    && BucketRule(chains, policy.keepDaily, UnitsAgo(cal.day, now), picks.daily)
    && BucketRule(chains, policy.keepWeekly, UnitsAgo(cal.week, now), picks.weekly)
    && BucketRule(chains, policy.keepMonthly, UnitsAgo(cal.month, now), picks.monthly)
    && keep == picks.fulls + picks.young + picks.daily + picks.weekly + picks.monthly
  }

  method FullPicks(chains: Groups, n: int) returns (picks: set<string>)
    requires Keyed(chains)
    ensures FullsRule(chains, n, picks)
  {
    if n > 0 {
      picks := KeepFulls(chains, n);
    } else {
      picks := {};
    }
  }

  method AgePicks(chains: Groups, age: int, now: int) returns (picks: set<string>)
    ensures AgeRule(chains, age, now, picks)
  {
    picks := {};
    if age > 0 {
      var cutoff := now - age;
      var order := Elements(chains.Keys);
      for i := 0 to |order|
        invariant forall k :: k in picks <==>
                    k in order[..i] && chains[k].full.stopTime != 0 && chains[k].full.stopTime > cutoff
      {
        var k := order[i];
        assert order[..i + 1] == order[..i] + [k];
        if chains[k].full.stopTime != 0 && chains[k].full.stopTime > cutoff {
          picks := picks + {k};
        }
      }
      assert order[..|order|] == order;
    }
  }

  method BucketPicks(chains: Groups, keep: set<string>, n: int, bucket: int -> int)
    returns (keep': set<string>, picks: set<string>)
    ensures keep' == keep + picks && BucketRule(chains, n, bucket, picks)
  {
    if n > 0 {
      keep', picks := ApplyBucketRule(chains, keep, n, bucket);
    } else {
      keep', picks := keep, {};
    }
  }

  /** The rules of Evaluate, in order, each adding to the kept set. */
  method Choose(policy: Policy, cal: Calendar, now: int, chains: Groups) returns (keep: set<string>, picks: Picks)
    requires Keyed(chains)
    ensures KeepSet(policy, cal, now, chains, picks, keep)
  {
    var fulls := FullPicks(chains, policy.keepFulls);
    var young := AgePicks(chains, policy.keepFullAge, now);
    var d, w, m;
    keep, d := BucketPicks(chains, fulls + young, policy.keepDaily, UnitsAgo(cal.day, now));
    keep, w := BucketPicks(chains, keep, policy.keepWeekly, UnitsAgo(cal.week, now));
    keep, m := BucketPicks(chains, keep, policy.keepMonthly, UnitsAgo(cal.month, now));
    picks := Picks(fulls, young, d, w, m);
  }

  // ------------------------------------------------------------- what it means

  /** chain.all(), as IDs. */
  function ChainIds(g: Group): seq<string> {
    [g.full.id] + IdsOf(g.incs)
  }

  function IdsOf(rs: seq<Record>): seq<string> {
    seq(|rs|, i requires 0 <= i < |rs| => rs[i].id)
  }

  /** id belongs to one of the chains ks. */
  predicate InChains(chains: Groups, ks: set<string>, id: string) {
    exists k :: k in ks && k in chains && id in ChainIds(chains[k])
  }

  /** `lsn, _ := ParseLSN(...)`: an unreadable LSN counts as zero. */
  function StartOf(g: Group): LSN {
    match ParseLSN(g.full.startLSN)
    case Some(l) => l
    case None => 0
  }

  /** The least start LSN of the kept chains; zero when none is kept. */
  predicate IsOldest(chains: Groups, keep: set<string>, oldest: LSN) {
    && (forall k :: k in keep && k in chains ==> oldest <= StartOf(chains[k]))
    && ((exists k :: k in keep && k in chains && oldest == StartOf(chains[k])) ||
        (oldest == 0 && forall k :: k in keep ==> k !in chains))
  }

  /** Every backup of the chain is on the list. */
  predicate AllListed(g: Group, ids: seq<string>) { forall id :: id in ChainIds(g) ==> id in ids }

  /** No backup is listed in two chains, or twice in one. */
  predicate Apart(chains: Groups) {
    && (forall k :: k in chains ==> Distinct(ChainIds(chains[k])))
    && (forall k, k', id :: k in chains && k' in chains && id in ChainIds(chains[k]) && id in ChainIds(chains[k']) ==> k == k')
  }

  /** The lists are those of the kept and of the other chains. */
  predicate Lists(chains: Groups, keep: set<string>, kept: seq<string>, expirable: seq<string>) {
    && (forall id :: id in kept ==> InChains(chains, keep, id))
    && (forall id :: id in expirable ==> InChains(chains, chains.Keys - keep, id))
    && (forall k, id :: k in chains && id in ChainIds(chains[k]) ==> if k in keep then id in kept else id in expirable)
  }

  /** What the lists and the LSN of a plan mean for a kept set. */
  predicate PlanFor(chains: Groups, keep: set<string>, plan: Plan) {
    && Lists(chains, keep, plan.kept, plan.expirable)
    && IsOldest(chains, keep, plan.oldest)
    && SortedBy(plan.kept, Less) && SortedBy(plan.expirable, Less)
    && (Apart(chains) ==> Distinct(plan.kept) && Distinct(plan.expirable))
  }

  // ------------------------------------------------------------------ the plan

  /** Appending the IDs of one chain to the list of chains collected so far. */
  predicate Collected(chains: Groups, done: seq<string>, keep: set<string>, kept: seq<string>, expirable: seq<string>) {
    && (forall id :: id in kept ==> exists k :: k in done && k in chains && k in keep && id in ChainIds(chains[k]))
    && (forall id :: id in expirable ==> exists k :: k in done && k in chains && k !in keep && id in ChainIds(chains[k]))
    && (forall k, id :: k in done && k in chains && id in ChainIds(chains[k]) ==>
          if k in keep then id in kept else id in expirable)
    && (Apart(chains) ==> Distinct(kept) && Distinct(expirable))
  }

  lemma {:induction false} CollectOne(chains: Groups, done: seq<string>, keep: set<string>, kept: seq<string>, expirable: seq<string>, k: string)
    requires Collected(chains, done, keep, kept, expirable) && k in chains && k !in done
    ensures k in keep ==> Collected(chains, done + [k], keep, kept + ChainIds(chains[k]), expirable)
    ensures k !in keep ==> Collected(chains, done + [k], keep, kept, expirable + ChainIds(chains[k]))
  {
    var ids := ChainIds(chains[k]);
    if Apart(chains) {
      forall id | id in ids
        ensures id !in kept && id !in expirable
      {
      }
      DistinctConcat(kept, ids);
      DistinctConcat(expirable, ids);
    }
  }

  lemma {:induction false} DistinctConcat(a: seq<string>, b: seq<string>)
    requires Distinct(a) && Distinct(b) && forall x :: x in b ==> x !in a
    ensures Distinct(a + b)
  {
    var s := a + b;
    forall i, j | 0 <= i < j < |s|
      ensures s[i] != s[j]
    {
      if i < |a| <= j {
        assert s[i] in a && s[j] in b;
      }
    }
  }

  /** The least start LSN among the kept chains seen so far. */
  predicate OldestSoFar(chains: Groups, done: seq<string>, keep: set<string>, oldest: LSN, anyKept: bool) {
    && (forall k :: k in done && k in keep && k in chains ==> anyKept && oldest <= StartOf(chains[k]))
    && (if anyKept then exists k :: k in done && k in keep && k in chains && oldest == StartOf(chains[k]) else oldest == 0)
  }

  lemma {:induction false} OldestOne(chains: Groups, done: seq<string>, keep: set<string>, oldest: LSN, anyKept: bool, k: string)
    requires OldestSoFar(chains, done, keep, oldest, anyKept) && k in chains
    ensures k !in keep ==> OldestSoFar(chains, done + [k], keep, oldest, anyKept)
    ensures k in keep && (!anyKept || StartOf(chains[k]) < oldest) ==>
              OldestSoFar(chains, done + [k], keep, StartOf(chains[k]), true)
    ensures k in keep && anyKept && oldest <= StartOf(chains[k]) ==> OldestSoFar(chains, done + [k], keep, oldest, true)
  {
    assert k in done + [k];
    if anyKept {
      var k' :| k' in done && k' in keep && k' in chains && oldest == StartOf(chains[k']);
      assert k' in done + [k];
    }
  }

  /** Evaluate's last loop: split the chains and find the least start LSN of the kept ones. */
  method Collect(chains: Groups, keep: set<string>)
    returns (kept: seq<string>, expirable: seq<string>, oldest: LSN, ghost order: seq<string>)
    ensures forall k :: k in order <==> k in chains
    ensures Collected(chains, order, keep, kept, expirable)
    ensures IsOldest(chains, keep, oldest)
  {
    kept, expirable, oldest := [], [], 0;
    var anyKept := false;
    var keys := Elements(chains.Keys);
    for i := 0 to |keys|
      invariant Collected(chains, keys[..i], keep, kept, expirable)
      invariant OldestSoFar(chains, keys[..i], keep, oldest, anyKept)
    {
      var k := keys[i];
      assert k in chains && k !in keys[..i] && keys[..i + 1] == keys[..i] + [k];
      kept, expirable, oldest, anyKept := TakeChain(chains, keep, keys[..i], k, kept, expirable, oldest, anyKept);
    }
    assert keys[..|keys|] == keys;
    order := keys;
    OldestIsOldest(chains, keys, keep, oldest, anyKept);
  }

  /** One turn of that loop. */
  method TakeChain(chains: Groups, keep: set<string>, ghost done: seq<string>, k: string,
                   kept: seq<string>, expirable: seq<string>, oldest: LSN, anyKept: bool)
    returns (kept': seq<string>, expirable': seq<string>, oldest': LSN, anyKept': bool)
    requires k in chains && k !in done && Collected(chains, done, keep, kept, expirable)
    requires OldestSoFar(chains, done, keep, oldest, anyKept)
    ensures Collected(chains, done + [k], keep, kept', expirable')
    ensures OldestSoFar(chains, done + [k], keep, oldest', anyKept')
  {
    kept', expirable', oldest', anyKept' := kept, expirable, oldest, anyKept;
    CollectOne(chains, done, keep, kept, expirable, k);
    OldestOne(chains, done, keep, oldest, anyKept, k);
    if k in keep {
      kept' := kept + ChainIds(chains[k]);
      var lsn := StartOf(chains[k]);
      if !anyKept || lsn < oldest {
        oldest', anyKept' := lsn, true;
      }
    } else {
      expirable' := expirable + ChainIds(chains[k]);
    }
  }

  lemma {:induction false} OldestIsOldest(chains: Groups, keys: seq<string>, keep: set<string>, oldest: LSN, anyKept: bool)
    requires OldestSoFar(chains, keys, keep, oldest, anyKept) && forall k :: k in keys <==> k in chains
    ensures IsOldest(chains, keep, oldest)
  {
    if anyKept {
      var k :| k in keys && k in keep && k in chains && oldest == StartOf(chains[k]);
    }
  }

  method Partition(chains: Groups, keep: set<string>) returns (plan: Plan)
    ensures PlanFor(chains, keep, plan)
  {
    var kept, expirable, oldest, order := Collect(chains, keep);
    LessIsStrictWeak();
    var e := Sort(expirable, Less);
    var s := Sort(kept, Less);
    SortKeepsElements(expirable, e);
    SortKeepsElements(kept, s);
    plan := Plan(e, s, oldest);
    PartitionIsPlan(chains, order, keep, kept, expirable, plan);
  }

  lemma {:induction false} SortKeepsElements(s: seq<string>, t: seq<string>)
    requires multiset(t) == multiset(s)
    ensures forall x :: x in t <==> x in s
    ensures Distinct(s) ==> Distinct(t)
  {
    forall x
      ensures x in t <==> x in s
    {
      assert x in t <==> x in multiset(t);
      assert x in s <==> x in multiset(s);
    }
    if Distinct(s) {
      SortedKeysDistinct(s, t);
    }
  }

  lemma {:induction false} PartitionIsPlan(chains: Groups, order: seq<string>, keep: set<string>, kept: seq<string>, expirable: seq<string>, plan: Plan)
    requires Collected(chains, order, keep, kept, expirable) && forall k :: k in order <==> k in chains
    requires forall x :: x in plan.kept <==> x in kept
    requires forall x :: x in plan.expirable <==> x in expirable
    ensures forall id :: id in plan.kept ==> InChains(chains, keep, id)
    ensures forall id :: id in plan.expirable ==> InChains(chains, chains.Keys - keep, id)
    ensures forall k, id :: k in chains && id in ChainIds(chains[k]) ==>
              if k in keep then id in plan.kept else id in plan.expirable
  {
  }

  lemma {:induction false} GroupsAreKeyed(records: seq<Record>)
    ensures Keyed(GroupsOf(records))
    ensures forall k :: k in GroupsOf(records) ==>
              GroupsOf(records)[k].full in records && GroupsOf(records)[k].full.kind == FULL
    ensures forall i :: 0 <= i < |records| && records[i].kind == FULL ==> records[i].id in GroupsOf(records)
  {
    FullsValues(records, |records|);
  }

  /**
   Evaluate. Refuses the all-zero policy; otherwise the kept set is exactly what the
   engaged rules pick, and the plan is exactly that set's.
   */
  method Evaluate(records: seq<Record>, policy: Policy, cal: Calendar, now: int)
    returns (r: Evaluated, keep: set<string>, picks: Picks)
    ensures r.ErrEmptyPolicy? <==> policy == Policy(0, 0, 0, 0, 0)
    ensures r.Planned? ==>
              && KeepSet(policy, cal, now, GroupsOf(records), picks, keep)
              && PlanFor(GroupsOf(records), keep, r.plan)
              && (r.plan.kept != [] <==> SomeRuleKeeps(policy, cal, now, GroupsOf(records)))
              && (forall k :: k in GroupsOf(records) && MustKeep(policy, cal, now, GroupsOf(records), k) ==>
                    AllListed(GroupsOf(records)[k], r.plan.kept))
  {
    keep, picks := {}, Picks({}, {}, {}, {}, {});
    if policy.keepFulls == 0 && policy.keepFullAge == 0 && policy.keepDaily == 0 && policy.keepWeekly == 0 &&
       policy.keepMonthly == 0 {
      return ErrEmptyPolicy, keep, picks;
    }
    var chains := GroupChains(records);
    GroupsAreKeyed(records);
    var chosen;
    chosen, picks := Choose(policy, cal, now, chains);
    keep := chosen;
    var plan := Partition(chains, chosen);
    KeepsSomethingIff(policy, cal, now, chains, picks, keep);
    PlanKeepsIff(chains, keep, plan);
    MustKeepIsKept(policy, cal, now, chains, picks, keep, plan);
    r := Planned(plan);
  }

  // ------------------------------------------------------------------ theorems

  predicate UniqueIds(records: seq<Record>) {
    forall i, j :: 0 <= i < j < |records| ==> records[i].id != records[j].id
  }

  /** A backup the planner can place: a full, or an incremental whose parents lead to a full. */
  ghost predicate Placeable(records: seq<Record>, r: Record) {
    r in records && (r.kind == FULL || (r.kind == INCREMENTAL && exists id :: id != "" && HasRoot(ById(records), r, id)))
  }

  /** RootId is the root whenever there is one. */
  lemma {:induction false} RootIdIsRoot(records: seq<Record>, r: Record, id: string)
    requires id != ""
    ensures RootId(records, r) == id <==> HasRoot(ById(records), r, id)
  {
    var byID := ById(records);
    if HasRoot(byID, r, id) {
      var k: nat :| RootAt(byID, r, k, id);
      RootWithinBound(byID, r, k, id);
      ByIdSize(records);
      WalkFinds(byID, r, |records|, k, id);
    }
    WalkSound(byID, r, |records|);
  }

  lemma {:induction false} IncsAre(all: seq<Record>, n: nat, id: string)
    requires n <= |all|
    ensures forall r :: r in IncsOf(all, n, id) <==>
              id != "" && r in all[..n] && r.kind == INCREMENTAL && RootId(all, r) == id
  {
    if n > 0 {
      IncsAre(all, n - 1, id);
      assert all[..n] == all[..n - 1] + [all[n - 1]];
    }
  }

  lemma {:induction false} IncsAreDistinct(all: seq<Record>, n: nat, id: string)
    requires n <= |all| && UniqueIds(all)
    ensures Distinct(IdsOf(IncsOf(all, n, id)))
  {
    if n > 0 {
      IncsAreDistinct(all, n - 1, id);
      IncsAre(all, n - 1, id);
      var prev, r := IncsOf(all, n - 1, id), all[n - 1];
      forall x | x in [r.id]
        ensures x !in IdsOf(prev)
      {
        NotAmongEarlier(all, n - 1, prev);
      }
      DistinctConcat(IdsOf(prev), [r.id]);
      assert IdsOf(prev + [r]) == IdsOf(prev) + [r.id];
    }
  }

  lemma {:induction false} NotAmongEarlier(all: seq<Record>, n: nat, prev: seq<Record>)
    requires n < |all| && UniqueIds(all) && forall r :: r in prev ==> r in all[..n]
    ensures all[n].id !in IdsOf(prev)
  {
    forall i | 0 <= i < |prev|
      ensures IdsOf(prev)[i] != all[n].id
    {
      assert prev[i] in all[..n];
    }
  }

  /** A member of a chain is its full or one of its incrementals, and the record says which. */
  lemma {:induction false} MemberRecord(records: seq<Record>, k: string, id: string) returns (r: Record)
    requires k in GroupsOf(records) && id in ChainIds(GroupsOf(records)[k])
    ensures r in records && r.id == id
    ensures (r.kind == FULL && k == id) || (r.kind == INCREMENTAL && RootId(records, r) == k != "")
  {
    var g := GroupsOf(records)[k];
    GroupsAreKeyed(records);
    IncsAre(records, |records|, k);
    assert records[..|records|] == records;
    var i :| 0 <= i < |ChainIds(g)| && ChainIds(g)[i] == id;
    if i == 0 {
      r := g.full;
    } else {
      r := g.incs[i - 1];
      assert r in g.incs;
    }
  }

  lemma {:induction false} SameIdSameRecord(records: seq<Record>, r: Record, q: Record)
    requires UniqueIds(records) && r in records && q in records
    ensures r.id == q.id ==> r == q
  {
  }

  /** With one record per ID the chains are apart: no backup is in two of them. */
  lemma {:induction false} ChainsAreApart(records: seq<Record>)
    requires UniqueIds(records)
    ensures Apart(GroupsOf(records))
  {
    var chains := GroupsOf(records);
    forall k, k', id | k in chains && k' in chains && id in ChainIds(chains[k]) && id in ChainIds(chains[k'])
      ensures k == k'
    {
      var r := MemberRecord(records, k, id);
      var q := MemberRecord(records, k', id);
      SameIdSameRecord(records, r, q);
    }
    forall k | k in chains
      ensures Distinct(ChainIds(chains[k]))
    {
      FullNotAmongIncs(records, k);
    }
  }

  lemma {:induction false} FullNotAmongIncs(records: seq<Record>, k: string)
    requires UniqueIds(records) && k in GroupsOf(records)
    ensures Distinct(ChainIds(GroupsOf(records)[k]))
  {
    var g := GroupsOf(records)[k];
    GroupsAreKeyed(records);
    IncsAreDistinct(records, |records|, k);
    IncsAre(records, |records|, k);
    assert records[..|records|] == records;
    forall x | x in IdsOf(g.incs)
      ensures x !in [g.full.id]
    {
      var i :| 0 <= i < |g.incs| && g.incs[i].id == x;
      assert g.incs[i] in g.incs;
      SameIdSameRecord(records, g.full, g.incs[i]);
    }
    DistinctConcat([g.full.id], IdsOf(g.incs));
  }

  /** The chain a placeable backup belongs to. */
  function ChainOf(records: seq<Record>, r: Record): string {
    if r.kind == FULL then r.id else RootId(records, r)
  }

  lemma {:induction false} PlaceableInChain(records: seq<Record>, r: Record)
    requires UniqueIds(records) && Placeable(records, r)
    ensures ChainOf(records, r) in GroupsOf(records)
    ensures r.id in ChainIds(GroupsOf(records)[ChainOf(records, r)])
  {
    if r.kind == FULL {
      GroupsAreKeyed(records);
      var i :| 0 <= i < |records| && records[i] == r;
      SameIdSameRecord(records, GroupsOf(records)[r.id].full, r);
    } else {
      var id :| id != "" && HasRoot(ById(records), r, id);
      RootIdIsRoot(records, r, id);
      RootIsAFull(records, r);
      IncrementalInChain(records, r);
    }
  }

  lemma {:induction false} IncrementalInChain(records: seq<Record>, r: Record)
    requires r in records && r.kind == INCREMENTAL && RootId(records, r) != "" && RootId(records, r) in GroupsOf(records)
    ensures r.id in ChainIds(GroupsOf(records)[RootId(records, r)])
  {
    var k := RootId(records, r);
    IncsAre(records, |records|, k);
    assert records[..|records|] == records;
    MemberId(GroupsOf(records)[k], r);
  }

  lemma {:induction false} MemberId(g: Group, r: Record)
    requires r in g.incs
    ensures r.id in ChainIds(g)
  {
    var i :| 0 <= i < |g.incs| && g.incs[i] == r;
    assert IdsOf(g.incs)[i] == r.id;
    assert ChainIds(g)[i + 1] == r.id;
  }

  lemma {:induction false} MemberIsPlaceable(records: seq<Record>, k: string, id: string) returns (r: Record)
    requires k in GroupsOf(records) && id in ChainIds(GroupsOf(records)[k])
    ensures Placeable(records, r) && r.id == id && ChainOf(records, r) == k
  {
    r := MemberRecord(records, k, id);
    if r.kind == INCREMENTAL {
      RootIdIsRoot(records, r, k);
    }
  }

  /**
   A plan partitions the placeable backups, chain by chain: no backup is both kept and
   expirable; the two lists hold exactly the fulls and the incrementals that reach one;
   and a backup is kept exactly when its chain is.
   */
  lemma {:induction false} PlanPartitions(records: seq<Record>, keep: set<string>, plan: Plan)
    requires UniqueIds(records) && PlanFor(GroupsOf(records), keep, plan)
    ensures forall id :: !(id in plan.kept && id in plan.expirable)
    ensures forall id :: id in plan.kept || id in plan.expirable <==> exists r :: Placeable(records, r) && r.id == id
    ensures forall r :: Placeable(records, r) ==> (r.id in plan.kept <==> ChainOf(records, r) in keep)
    ensures Distinct(plan.kept) && Distinct(plan.expirable)
  {
    var chains := GroupsOf(records);
    ChainsAreApart(records);
    forall id | id in plan.kept || id in plan.expirable
      ensures exists r :: Placeable(records, r) && r.id == id
    {
      var k :| k in chains && id in ChainIds(chains[k]);
      var r := MemberIsPlaceable(records, k, id);
    }
    forall r | Placeable(records, r)
      ensures r.id in plan.kept <==> ChainOf(records, r) in keep
      ensures r.id in plan.kept || r.id in plan.expirable
    {
      PlaceableInChain(records, r);
    }
  }

  /** Some chain stopped at a known time after now - age. */
  predicate SomeYoung(chains: Groups, age: int, now: int) {
    exists k :: k in chains && chains[k].full.stopTime != 0 && chains[k].full.stopTime > now - age
  }

  predicate SomeInWindow(chains: Groups, n: int, bucket: int -> int) {
    exists k :: k in chains && InWindow(chains, n, bucket, k)
  }

  /** What an operator can check before the call: an engaged rule has a chain to keep. */
  predicate SomeRuleKeeps(policy: Policy, cal: Calendar, now: int, chains: Groups) {
    || (policy.keepFulls > 0 && chains != map[])
    || (policy.keepFullAge > 0 && SomeYoung(chains, policy.keepFullAge, now))
    || (policy.keepDaily > 0 && SomeInWindow(chains, policy.keepDaily, UnitsAgo(cal.day, now)))
    || (policy.keepWeekly > 0 && SomeInWindow(chains, policy.keepWeekly, UnitsAgo(cal.week, now)))
    || (policy.keepMonthly > 0 && SomeInWindow(chains, policy.keepMonthly, UnitsAgo(cal.month, now)))
  }

  lemma {:induction false} FullsRuleKeepsIff(chains: Groups, n: int, picks: set<string>)
    requires FullsRule(chains, n, picks)
    ensures picks <= chains.Keys && (picks != {} <==> n > 0 && chains != map[])
  {
    if n > 0 {
      assert chains != map[] ==> |chains| > 0 && |picks| > 0;
    }
  }

  lemma {:induction false} AgeRuleKeepsIff(chains: Groups, age: int, now: int, picks: set<string>)
    requires AgeRule(chains, age, now, picks)
    ensures picks <= chains.Keys && (picks != {} <==> age > 0 && SomeYoung(chains, age, now))
  {
    if k :| k in chains && chains[k].full.stopTime != 0 && chains[k].full.stopTime > now - age {
      assert age > 0 ==> k in picks;
    }
    if k :| k in picks {
      assert SomeYoung(chains, age, now);
    }
  }

  lemma {:induction false} BucketRuleKeepsIff(chains: Groups, n: int, bucket: int -> int, picks: set<string>)
    requires BucketRule(chains, n, bucket, picks)
    ensures picks <= chains.Keys && (picks != {} <==> n > 0 && SomeInWindow(chains, n, bucket))
  {
    if n > 0 {
      if k :| InWindow(chains, n, bucket, k) {
        assert Covered(chains, bucket, picks, k);
      }
      if p :| p in picks {
        assert InWindow(chains, n, bucket, p);
      }
    }
  }

  /**
   A policy keeps something exactly when one of its engaged rules has a chain to keep. Only
   the all-zero policy is refused, so any other policy for which this fails, such as one of
   negative numbers or a daily rule over an archive older than its window, expires every chain.
   */
  lemma {:induction false} KeepsSomethingIff(policy: Policy, cal: Calendar, now: int, chains: Groups, picks: Picks, keep: set<string>)
    requires KeepSet(policy, cal, now, chains, picks, keep)
    ensures keep <= chains.Keys
    ensures keep != {} <==> SomeRuleKeeps(policy, cal, now, chains)
  {
    FullsRuleKeepsIff(chains, policy.keepFulls, picks.fulls);
    AgeRuleKeepsIff(chains, policy.keepFullAge, now, picks.young);
    BucketRuleKeepsIff(chains, policy.keepDaily, UnitsAgo(cal.day, now), picks.daily);
    BucketRuleKeepsIff(chains, policy.keepWeekly, UnitsAgo(cal.week, now), picks.weekly);
    BucketRuleKeepsIff(chains, policy.keepMonthly, UnitsAgo(cal.month, now), picks.monthly);
    UnionEmpty(picks.fulls, picks.young, picks.daily, picks.weekly, picks.monthly);
  }

  lemma {:induction false} UnionEmpty<T>(a: set<T>, b: set<T>, c: set<T>, d: set<T>, e: set<T>)
    ensures a + b + c + d + e == {} <==> a == {} && b == {} && c == {} && d == {} && e == {}
  {
    assert a <= a + b + c + d + e && b <= a + b + c + d + e && c <= a + b + c + d + e;
    assert d <= a + b + c + d + e && e <= a + b + c + d + e;
  }

  /** A plan lists no kept backup exactly when no chain is kept; it then needs no WAL at all. */
  lemma {:induction false} PlanKeepsIff(chains: Groups, keep: set<string>, plan: Plan)
    requires PlanFor(chains, keep, plan) && keep <= chains.Keys
    ensures plan.kept != [] <==> keep != {}
    ensures keep == {} ==> plan.oldest == 0
  {
    KeptListIff(chains, keep, plan.kept, plan.expirable);
  }

  lemma {:induction false} KeptListIff(chains: Groups, keep: set<string>, kept: seq<string>, expirable: seq<string>)
    requires keep <= chains.Keys && Lists(chains, keep, kept, expirable)
    ensures kept != [] <==> keep != {}
  {
    if k :| k in keep {
      var id := ChainIds(chains[k])[0];
      assert id in ChainIds(chains[k]) && id in kept;
    }
    if kept != [] {
      assert InChains(chains, keep, kept[0]);
    }
  }

  /** The full-count and the age rule name chain k: what an operator can compute from the fulls' stop times. */
  predicate MustKeep(policy: Policy, cal: Calendar, now: int, chains: Groups, k: string)
    requires k in chains
  {
    || |LaterThan(chains, k)| < policy.keepFulls
    || (policy.keepFullAge > 0 && chains[k].full.stopTime != 0 && now < chains[k].full.stopTime + policy.keepFullAge)
  }

  /** A bucket rule picked k: nothing else does. */
  predicate BucketPick(picks: Picks, k: string) { k in picks.daily || k in picks.weekly || k in picks.monthly }

  /** A chain is kept exactly when it is one of the newest keepFulls, or young enough, or the pick of a bucket. */
  lemma {:induction false} KeptIff(policy: Policy, cal: Calendar, now: int, chains: Groups, picks: Picks, keep: set<string>, k: string)
    requires KeepSet(policy, cal, now, chains, picks, keep) && k in chains
    ensures k in keep <==> MustKeep(policy, cal, now, chains, k) || BucketPick(picks, k)
  {
    if policy.keepFulls > 0 {
      NewestIff(chains, policy.keepFulls, picks.fulls, k);
    }
  }

  /** Every backup of such a chain is on the kept list. */
  lemma {:induction false} MustKeepIsKept(policy: Policy, cal: Calendar, now: int, chains: Groups, picks: Picks, keep: set<string>, plan: Plan)
    requires KeepSet(policy, cal, now, chains, picks, keep) && PlanFor(chains, keep, plan)
    ensures forall k :: k in chains && MustKeep(policy, cal, now, chains, k) ==> AllListed(chains[k], plan.kept)
  {
    forall k | k in chains && MustKeep(policy, cal, now, chains, k)
      ensures AllListed(chains[k], plan.kept)
    {
      KeptIff(policy, cal, now, chains, picks, keep, k);
      KeptIsListed(chains, keep, plan, k);
    }
  }

  lemma {:induction false} KeptIsListed(chains: Groups, keep: set<string>, plan: Plan, k: string)
    requires Lists(chains, keep, plan.kept, plan.expirable) && k in keep && k in chains
    ensures AllListed(chains[k], plan.kept)
  {
  }

  /** A kept chain of the same day, week or month as k that stopped no earlier. */
  predicate KeptBeside(unit: int -> int, chains: Groups, keep: set<string>, k: string)
    requires k in chains
  {
    exists p :: p in keep && p in chains && unit(chains[p].full.stopTime) == unit(chains[k].full.stopTime)
                && chains[p].full.stopTime >= chains[k].full.stopTime
  }

  /** k's full stopped at a known time, in one of the last n units up to now. */
  predicate Recent(unit: int -> int, now: int, n: int, chains: Groups, k: string)
    requires k in chains
  {
    chains[k].full.stopTime != 0 && unit(chains[k].full.stopTime) <= unit(now) < unit(chains[k].full.stopTime) + n
  }

  predicate RecentForSome(policy: Policy, cal: Calendar, now: int, chains: Groups, k: string)
    requires k in chains
  {
    || Recent(cal.day, now, policy.keepDaily, chains, k)
    || Recent(cal.week, now, policy.keepWeekly, chains, k)
    || Recent(cal.month, now, policy.keepMonthly, chains, k)
  }

  predicate SameUnit(unit: int -> int, chains: Groups, p: string, q: string) {
    p in chains && q in chains && unit(chains[p].full.stopTime) == unit(chains[q].full.stopTime)
  }

  lemma {:induction false} UnitIsKept(unit: int -> int, now: int, n: int, chains: Groups, picks: set<string>, keep: set<string>)
    requires BucketRule(chains, n, UnitsAgo(unit, now), picks) && picks <= keep
    ensures forall k :: k in chains && Recent(unit, now, n, chains, k) ==> KeptBeside(unit, chains, keep, k)
    ensures forall p :: p in picks ==> p in chains && Recent(unit, now, n, chains, p)
    ensures forall p, q :: p in picks && q in picks && SameUnit(unit, chains, p, q) ==> p == q
  {
    var bucket := UnitsAgo(unit, now);
    forall k | k in chains && Recent(unit, now, n, chains, k)
      ensures KeptBeside(unit, chains, keep, k)
    {
      assert InWindow(chains, n, bucket, k);
      assert Covered(chains, bucket, picks, k);
      var p :| p in picks && Covers(chains, bucket, p, k);
      assert InWindow(chains, n, bucket, p);
    }
    if n > 0 {
      forall p | p in picks
        ensures p in chains && Recent(unit, now, n, chains, p)
      {
        assert InWindow(chains, n, bucket, p);
      }
      forall p, q | p in picks && q in picks && SameUnit(unit, chains, p, q)
        ensures p == q
      {
        assert BucketOf(chains, bucket, p) == BucketOf(chains, bucket, q);
      }
    }
  }

  /**
   What the calendar rules keep: for every chain that stopped in one of the last keepDaily days a
   chain of that day that stopped no earlier, and so for weeks and months; and they pick one chain of a
   unit, never one outside the window.
   */
  lemma {:induction false} CalendarIsKept(policy: Policy, cal: Calendar, now: int, chains: Groups, picks: Picks, keep: set<string>)
    requires KeepSet(policy, cal, now, chains, picks, keep)
    ensures forall k :: k in chains && Recent(cal.day, now, policy.keepDaily, chains, k) ==> KeptBeside(cal.day, chains, keep, k)
    ensures forall k :: k in chains && Recent(cal.week, now, policy.keepWeekly, chains, k) ==> KeptBeside(cal.week, chains, keep, k)
    ensures forall k :: k in chains && Recent(cal.month, now, policy.keepMonthly, chains, k) ==>
              KeptBeside(cal.month, chains, keep, k)
    ensures forall k :: BucketPick(picks, k) ==> k in chains && RecentForSome(policy, cal, now, chains, k)
    ensures forall p, q :: p in picks.daily && q in picks.daily && SameUnit(cal.day, chains, p, q) ==> p == q
    ensures forall p, q :: p in picks.weekly && q in picks.weekly && SameUnit(cal.week, chains, p, q) ==> p == q
    ensures forall p, q :: p in picks.monthly && q in picks.monthly && SameUnit(cal.month, chains, p, q) ==> p == q
  {
    UnitIsKept(cal.day, now, policy.keepDaily, chains, picks.daily, keep);
    UnitIsKept(cal.week, now, policy.keepWeekly, chains, picks.weekly, keep);
    UnitIsKept(cal.month, now, policy.keepMonthly, chains, picks.monthly, keep);
  }

  /**
   The plan's LSN in terms of the recorded texts: no kept full starts before it, it is the start of one of
   them when all can be read, and one that cannot be read makes it zero.
   */
  lemma {:induction false} OldestMeans(chains: Groups, keep: set<string>, plan: Plan)
    requires PlanFor(chains, keep, plan)
    ensures forall k :: k in keep && k in chains ==>
              match ParseLSN(chains[k].full.startLSN)
              case Some(l) => plan.oldest <= l
              case None => plan.oldest == 0
    ensures (exists k :: k in keep && k in chains) ==>
              exists k :: k in keep && k in chains && ParseLSN(chains[k].full.startLSN) in {Some(plan.oldest), None}
  {
    if k :| k in keep && k in chains {
      var o :| o in keep && o in chains && plan.oldest == StartOf(chains[o]);
    }
  }

  /** The daily rule alone, over an archive older than its window: valid, and nothing is kept. */
  lemma {:induction false} OldArchiveExpires(cal: Calendar, now: int, chains: Groups, n: int)
    requires n > 0 && forall k :: k in chains ==> cal.day(now) - cal.day(chains[k].full.stopTime) >= n
    ensures var policy := Policy(0, 0, n, 0, 0); policy != Policy(0, 0, 0, 0, 0) && !SomeRuleKeeps(policy, cal, now, chains)
  {
    assert forall k :: !InWindow(chains, n, UnitsAgo(cal.day, now), k);
  }
}
