/**
 How one Push call ends, whatever the other calls do meanwhile: a copy that differs from an archived
 one is refused, an archived one is a success at once, only an error of a backend call is reported as a
 failure, every call ends, and no staging key is left behind by a call whose clean-up worked.
 */
module PushOutcome {
  import opened Common
  import opened Text
  import opened Archive
  import opened ArchivePush

  /** Holds of every step of a run. */
  predicate AllSteps(steps: seq<Step>, good: Step -> bool) {
    forall i :: 0 <= i < |steps| ==> good(steps[i])
  }

  // --------------------------------------------------------- divergent copies

  /** The call is still looking, or was refused, or its lookup failed. */
  predicate Refusing(pc: Pc, k: string) {
    || pc.AtList?
    || (pc.Looking? && k in pc.floor)
    || pc == Finished(SegmentMismatch)
    || pc == Finished(Failed)
  }

  /** A committed copy of p's segment other than p's own. */
  predicate Rival(hash: Hash, jobs: seq<Job>, s: State, p: nat, k: string)
    requires p < |jobs|
  {
    k in s.store && IsMatch(k, jobs[p].tli, jobs[p].seg) && k != Key(hash, jobs[p])
  }

  lemma {:induction false} RivalStays(hash: Hash, jobs: seq<Job>, s: State, t: State, p: nat, k: string)
    requires p < |jobs| && Rival(hash, jobs, s, p, k) && Grows(s, t)
    ensures Rival(hash, jobs, t, p, k)
  {
    PrefixInWal(jobs[p].tli, jobs[p].seg, k);
  }

  /** The listing completes: the rival is among its paths, so the push is refused. */
  lemma {:induction false} ListingRefuses(hash: Hash, jobs: seq<Job>, s: State, p: nat, k: string, paths: seq<string>)
    requires Enabled(hash, jobs, s, ListEnd(p, paths)) && Refusing(s.pcs[p], k) && Rival(hash, jobs, s, p, k)
    ensures Apply(hash, jobs, s, ListEnd(p, paths)).pcs[p] == Finished(SegmentMismatch)
  {
    LookupMeans(paths, jobs[p].tli, jobs[p].seg);
    assert k in paths;
  }

  /** Every other step of p keeps it looking or ends it with an error; the others' steps leave it where it is. */
  lemma {:induction false} StepRefuses(hash: Hash, jobs: seq<Job>, s: State, a: Step, p: nat, k: string)
    requires Enabled(hash, jobs, s, a) && p < |jobs| && Refusing(s.pcs[p], k) && k in s.store
    requires a.p == p ==> !a.ListEnd? && !a.ListVanished?
    ensures Refusing(Apply(hash, jobs, s, a).pcs[p], k)
  {
  }

  lemma {:induction false} StepKeepsRefusing(hash: Hash, jobs: seq<Job>, s0: Store, s: State, a: Step, p: nat, k: string)
    requires JobsOk(jobs) && Inv(hash, jobs, s0, s) && Enabled(hash, jobs, s, a) && p < |jobs|
    requires Refusing(s.pcs[p], k) && Rival(hash, jobs, s, p, k) && a != ListVanished(p)
    ensures var t := Apply(hash, jobs, s, a);
            Inv(hash, jobs, s0, t) && Refusing(t.pcs[p], k) && Rival(hash, jobs, t, p, k)
  {
    var t := Apply(hash, jobs, s, a);
    StepKeepsInv(hash, jobs, s0, s, a);
    RivalStays(hash, jobs, s, t, p, k);
    if a.p == p && a.ListEnd? {
      ListingRefuses(hash, jobs, s, p, k, a.paths);
    } else {
      StepRefuses(hash, jobs, s, a, p, k);
    }
  }

  lemma {:induction false} RunKeepsRefusing(hash: Hash, jobs: seq<Job>, s0: Store, s: State, steps: seq<Step>, p: nat, k: string)
    requires JobsOk(jobs) && Inv(hash, jobs, s0, s) && Runs(hash, jobs, s, steps) && p < |jobs|
    requires Refusing(s.pcs[p], k) && Rival(hash, jobs, s, p, k) && AllSteps(steps, a => a != ListVanished(p))
    ensures var t := Exec(hash, jobs, s, steps);
            Inv(hash, jobs, s0, t) && Refusing(t.pcs[p], k) && Rival(hash, jobs, t, p, k)
    decreases |steps|
  {
    if steps != [] {
      var rest := steps[1..];
      assert AllSteps(rest, a => a != ListVanished(p)) by {
        forall i | 0 <= i < |rest| ensures rest[i] != ListVanished(p) { assert rest[i] == steps[i + 1]; }
      }
      StepKeepsRefusing(hash, jobs, s0, s, steps[0], p, k);
      RunKeepsRefusing(hash, jobs, s0, Apply(hash, jobs, s, steps[0]), rest, p, k);
    }
  }

  /**
   A push of other content than an archived copy is refused. From the moment it looks for copies, in
   every continuation in which its listing does not end in "not found", the call is looking, or has
   reported a mismatch, or has reported an error; it never uploads, and whatever paths its listing
   completes with, the report is the mismatch.
   */
  lemma {:induction false} DivergentPushRefused(hash: Hash, jobs: seq<Job>, s0: Store, s: State, steps: seq<Step>, p: nat, k: string)
    requires JobsOk(jobs) && Inv(hash, jobs, s0, s) && Runs(hash, jobs, s, steps) && p < |jobs| && s.pcs[p].AtList?
    requires k in s.store && IsMatch(k, jobs[p].tli, jobs[p].seg) && k != Key(hash, jobs[p])
    requires AllSteps(steps, a => a != ListVanished(p))
    ensures var t := Exec(hash, jobs, s, steps);
            && |t.pcs| == |jobs|
            && (|| t.pcs[p].AtList? || t.pcs[p].Looking?
                || t.pcs[p] == Finished(SegmentMismatch) || t.pcs[p] == Finished(Failed))
            && forall paths :: Enabled(hash, jobs, t, ListEnd(p, paths)) ==>
                 Apply(hash, jobs, t, ListEnd(p, paths)).pcs[p] == Finished(SegmentMismatch)
  {
    RunKeepsRefusing(hash, jobs, s0, s, steps, p, k);
    var t := Exec(hash, jobs, s, steps);
    forall paths | Enabled(hash, jobs, t, ListEnd(p, paths))
      ensures Apply(hash, jobs, t, ListEnd(p, paths)).pcs[p] == Finished(SegmentMismatch)
    {
      ListingRefuses(hash, jobs, t, p, k, paths);
    }
  }

  // ------------------------------------------------------------------ repeats

  /** Not begun, or returned with success or with an error of its own. */
  predicate Repeating(pc: Pc) { pc.AtStat? || pc == Finished(Success) || pc == Finished(Failed) }

  /** A step that is another call's, or at most looks at the store. */
  predicate OnlyLooks(a: Step, p: nat) { a.p == p ==> a.Stat? || a.Abort? || a.Flush? }

  lemma {:induction false} StepRepeats(hash: Hash, jobs: seq<Job>, s: State, a: Step, p: nat)
    requires Enabled(hash, jobs, s, a) && p < |jobs| && Repeating(s.pcs[p]) && Key(hash, jobs[p]) in s.store
    ensures |Apply(hash, jobs, s, a).pcs| == |jobs| && Repeating(Apply(hash, jobs, s, a).pcs[p]) && OnlyLooks(a, p)
    ensures a == Stat(p) ==> Apply(hash, jobs, s, a) == s.(pcs := s.pcs[p := Finished(Success)])
  {
  }

  lemma {:induction false} KeyStays(hash: Hash, jobs: seq<Job>, s0: Store, s: State, a: Step, p: nat)
    requires JobsOk(jobs) && Inv(hash, jobs, s0, s) && Enabled(hash, jobs, s, a) && p < |jobs|
    requires Key(hash, jobs[p]) in s.store
    ensures Inv(hash, jobs, s0, Apply(hash, jobs, s, a)) && Key(hash, jobs[p]) in Apply(hash, jobs, s, a).store
  {
    StepKeepsInv(hash, jobs, s0, s, a);
    KeyFacts(hash, jobs, p);
  }

  lemma {:induction false} RunRepeats(hash: Hash, jobs: seq<Job>, s0: Store, s: State, steps: seq<Step>, p: nat)
    requires JobsOk(jobs) && Inv(hash, jobs, s0, s) && Runs(hash, jobs, s, steps) && p < |jobs|
    requires Repeating(s.pcs[p]) && Key(hash, jobs[p]) in s.store
    ensures var t := Exec(hash, jobs, s, steps);
            |t.pcs| == |jobs| && Repeating(t.pcs[p]) && Key(hash, jobs[p]) in t.store
    decreases |steps|
  {
    if steps != [] {
      KeyStays(hash, jobs, s0, s, steps[0], p);
      StepRepeats(hash, jobs, s, steps[0], p);
      RunRepeats(hash, jobs, s0, Apply(hash, jobs, s, steps[0]), steps[1..], p);
    }
  }

  lemma {:induction false} RunOnlyLooks(hash: Hash, jobs: seq<Job>, s0: Store, s: State, steps: seq<Step>, p: nat, i: nat)
    requires JobsOk(jobs) && Inv(hash, jobs, s0, s) && Runs(hash, jobs, s, steps) && p < |jobs| && i < |steps|
    requires Repeating(s.pcs[p]) && Key(hash, jobs[p]) in s.store
    ensures OnlyLooks(steps[i], p)
    decreases |steps|
  {
    StepRepeats(hash, jobs, s, steps[0], p);
    if i > 0 {
      KeyStays(hash, jobs, s0, s, steps[0], p);
      RunOnlyLooks(hash, jobs, s0, Apply(hash, jobs, s, steps[0]), steps[1..], p, i - 1);
    }
  }

  /**
   Pushing an archived segment again does nothing but look: the call stays where it is until it
   returns, its Stat step returns success, and it never stages, renames or deletes anything.
   */
  lemma {:induction false} RepushIsIdempotent(hash: Hash, jobs: seq<Job>, s0: Store, s: State, steps: seq<Step>, p: nat)
    requires JobsOk(jobs) && Inv(hash, jobs, s0, s) && Runs(hash, jobs, s, steps) && p < |jobs|
    requires s.pcs[p].AtStat? && Key(hash, jobs[p]) in s.store
    ensures var t := Exec(hash, jobs, s, steps);
            && |t.pcs| == |jobs| && Repeating(t.pcs[p])
            && (t.pcs[p].AtStat? ==> Apply(hash, jobs, t, Stat(p)) == t.(pcs := t.pcs[p := Finished(Success)]))
    ensures forall i :: 0 <= i < |steps| ==> OnlyLooks(steps[i], p)
  {
    RunRepeats(hash, jobs, s0, s, steps, p);
    forall i | 0 <= i < |steps|
      ensures OnlyLooks(steps[i], p)
    {
      RunOnlyLooks(hash, jobs, s0, s, steps, p, i);
    }
    var t := Exec(hash, jobs, s, steps);
    if t.pcs[p].AtStat? {
      StepRepeats(hash, jobs, t, Stat(p), p);
    }
  }

  // ----------------------------------------------------------------- failures

  /** Some backend call of p reported an error; a name that is taken or gone is not one. */
  predicate OwnError(a: Step, p: nat) {
    a.p == p && (a.Abort? || a.PutFail? || a.RenameFail? || a.SyncFail?)
  }

  predicate Failing(pc: Pc) { pc == Finished(Failed) || pc == AtDelete(Failed) }

  /** A completed listing never fails, and what p does after a good call is not to fail. */
  lemma {:induction false} StepFailsIff(hash: Hash, jobs: seq<Job>, s: State, a: Step, p: nat)
    requires Enabled(hash, jobs, s, a) && p < |jobs|
    ensures Failing(Apply(hash, jobs, s, a).pcs[p]) <==> Failing(s.pcs[p]) || OwnError(a, p)
  {
  }

  /** Over every run: the call has failed, or is cleaning up to fail, exactly when one of its own calls reported an error. */
  lemma {:induction false} FailsIffOwnError(hash: Hash, jobs: seq<Job>, s: State, steps: seq<Step>, p: nat)
    requires Runs(hash, jobs, s, steps) && p < |jobs| == |s.pcs| && !Failing(s.pcs[p])
    ensures |Exec(hash, jobs, s, steps).pcs| == |jobs|
    ensures Failing(Exec(hash, jobs, s, steps).pcs[p]) <==> exists i :: 0 <= i < |steps| && OwnError(steps[i], p)
    decreases |steps|
  {
    RunFailsIff(hash, jobs, s, steps, p);
  }

  lemma {:induction false} RunFailsIff(hash: Hash, jobs: seq<Job>, s: State, steps: seq<Step>, p: nat)
    requires Runs(hash, jobs, s, steps) && p < |jobs| == |s.pcs|
    ensures |Exec(hash, jobs, s, steps).pcs| == |jobs|
    ensures Failing(Exec(hash, jobs, s, steps).pcs[p]) <==>
              Failing(s.pcs[p]) || exists i :: 0 <= i < |steps| && OwnError(steps[i], p)
    decreases |steps|
  {
    if steps != [] {
      var t, rest := Apply(hash, jobs, s, steps[0]), steps[1..];
      StepFailsIff(hash, jobs, s, steps[0], p);
      RunFailsIff(hash, jobs, t, rest, p);
      forall i | 0 <= i < |rest|
        ensures rest[i] == steps[i + 1]
      {
      }
      assert (exists i :: 0 <= i < |steps| && OwnError(steps[i], p)) <==>
             OwnError(steps[0], p) || (exists i :: 0 <= i < |rest| && OwnError(rest[i], p)) by {
        if i :| 0 <= i < |steps| && OwnError(steps[i], p) {
          assert i > 0 ==> OwnError(rest[i - 1], p);
        }
      }
    }
  }

  // ----------------------------------------------------------------- progress

  function PcRank(pc: Pc): nat {
    match pc
    case AtStat => 8
    case AtList => 7
    case Looking(_, _) => 6
    case AtPut => 5
    case AtCommitStat => 4
    case AtRename => 3
    case AtSync => 2
    case AtDelete(_) => 1
    case Finished(_) => 0
  }

  /** Steps p itself takes. */
  function OwnSteps(steps: seq<Step>, p: nat): nat {
    if steps == [] then 0
    else OwnSteps(steps[..|steps| - 1], p) + (if steps[|steps| - 1].p == p && !steps[|steps| - 1].Flush? then 1 else 0)
  }

  lemma {:induction false} OwnStepsFirst(steps: seq<Step>, p: nat)
    requires steps != []
    ensures OwnSteps(steps, p) == (if steps[0].p == p && !steps[0].Flush? then 1 else 0) + OwnSteps(steps[1..], p)
    decreases |steps|
  {
    var n := |steps| - 1;
    if n > 0 {
      OwnStepsFirst(steps[..n], p);
      assert steps[..n][1..] == steps[1..][..n - 1];
    }
  }

  /** A step of p brings it nearer to its return; a step of another call leaves it where it is. */
  lemma {:induction false} StepLowersRank(hash: Hash, jobs: seq<Job>, s: State, a: Step, p: nat)
    requires Enabled(hash, jobs, s, a) && p < |jobs|
    ensures var t := Apply(hash, jobs, s, a);
            |t.pcs| == |jobs| &&
            if a.p == p && !a.Flush? then PcRank(t.pcs[p]) < PcRank(s.pcs[p]) else t.pcs[p] == s.pcs[p]
  {
  }

  /** Whatever the others do, a call takes at most eight steps. */
  lemma {:induction false} PushIsBounded(hash: Hash, jobs: seq<Job>, s: State, steps: seq<Step>, p: nat)
    requires Runs(hash, jobs, s, steps) && p < |jobs| == |s.pcs|
    ensures |Exec(hash, jobs, s, steps).pcs| == |jobs|
    ensures OwnSteps(steps, p) + PcRank(Exec(hash, jobs, s, steps).pcs[p]) <= PcRank(s.pcs[p])
    decreases |steps|
  {
    if steps != [] {
      OwnStepsFirst(steps, p);
      StepLowersRank(hash, jobs, s, steps[0], p);
      PushIsBounded(hash, jobs, Apply(hash, jobs, s, steps[0]), steps[1..], p);
    }
  }

  /** A call that has not returned can take a step of its own in which no backend call fails. */
  lemma {:induction false} PushCanMove(hash: Hash, jobs: seq<Job>, s0: Store, s: State, p: nat) returns (a: Step)
    requires JobsOk(jobs) && Inv(hash, jobs, s0, s) && p < |jobs| && !s.pcs[p].Finished?
    ensures a.p == p && !a.Flush? && !OwnError(a, p) && Enabled(hash, jobs, s, a)
  {
    assert PusherOk(hash, jobs, s, p);
    if s.pcs[p].Looking? {
      var all := SomeListing(s.store.Keys);
      assert ListingOf(s, s.pcs[p].floor, all);
      a := ListEnd(p, all);
    } else {
      a := NextStep(s.pcs[p], p);
    }
  }

  /** The step that follows when the call before it worked. */
  function NextStep(pc: Pc, p: nat): Step {
    match pc
    case AtStat => Stat(p)
    case AtList => ListBegin(p)
    case Looking(_, _) => ListVanished(p)
    case AtPut => PutOk(p)
    case AtCommitStat => CommitStat(p)
    case AtRename => Rename(p)
    case AtSync => Sync(p)
    case AtDelete(_) => Delete(p, false)
    case Finished(_) => Flush(p)
  }

  // ------------------------------------------------------------------ orphans

  /** Only between its Put and its return does a call have a staging key. */
  predicate StagedInTime(hash: Hash, jobs: seq<Job>, s: State, p: nat)
    requires p < |jobs| == |s.pcs|
  {
    Tmp(hash, jobs[p]) in s.store ==> s.pcs[p].AtCommitStat? || s.pcs[p].AtRename? || s.pcs[p].AtDelete?
  }

  lemma {:induction false} StepKeepsStaged(hash: Hash, jobs: seq<Job>, s: State, a: Step, p: nat)
    requires JobsOk(jobs) && Enabled(hash, jobs, s, a) && p < |jobs| && StagedInTime(hash, jobs, s, p)
    requires a != Delete(p, true)
    ensures StagedInTime(hash, jobs, Apply(hash, jobs, s, a), p)
  {
    KeyFacts(hash, jobs, p);
    KeyFacts(hash, jobs, a.p);
    if a.p != p {
      OthersKeepStaged(hash, jobs, s, a, p);
    }
  }

  lemma {:induction false} OthersKeepStaged(hash: Hash, jobs: seq<Job>, s: State, a: Step, p: nat)
    requires Enabled(hash, jobs, s, a) && p < |jobs| && a.p != p && StagedInTime(hash, jobs, s, p)
    requires Tmp(hash, jobs[p]) != Tmp(hash, jobs[a.p]) && Tmp(hash, jobs[p]) != Key(hash, jobs[a.p])
    ensures StagedInTime(hash, jobs, Apply(hash, jobs, s, a), p)
  {
  }

  /** No orphans: unless its own clean-up delete failed, a call that has returned has left no staging key. */
  lemma {:induction false} NoStagingLeft(hash: Hash, jobs: seq<Job>, s: State, steps: seq<Step>, p: nat)
    requires JobsOk(jobs) && Runs(hash, jobs, s, steps) && p < |jobs| == |s.pcs| && StagedInTime(hash, jobs, s, p)
    requires AllSteps(steps, a => a != Delete(p, true))
    ensures var t := Exec(hash, jobs, s, steps);
            && |t.pcs| == |jobs| && StagedInTime(hash, jobs, t, p)
            && (t.pcs[p].Finished? ==> Tmp(hash, jobs[p]) !in t.store)
    decreases |steps|
  {
    if steps != [] {
      var rest := steps[1..];
      assert AllSteps(rest, a => a != Delete(p, true)) by {
        forall i | 0 <= i < |rest| ensures rest[i] != Delete(p, true) { assert rest[i] == steps[i + 1]; }
      }
      StepKeepsStaged(hash, jobs, s, steps[0], p);
      NoStagingLeft(hash, jobs, Apply(hash, jobs, s, steps[0]), rest, p);
    }
  }
}
