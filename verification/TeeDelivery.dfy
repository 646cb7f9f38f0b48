/** One Write of the fan-out writer under every schedule: it is accepted exactly when some sink was given the chunk. */
module TeeDelivery {
  import opened Common
  import opened TeeWriter

  /** Sink j was given chunk c between s0 and s. */
  predicate Grew(s0: State, s: State, c: Bytes, j: nat)
    requires j < |s0.workers| == |s.workers|
  {
    Stream(s.workers[j]) == Stream(s0.workers[j]) + [c]
  }

  predicate Kept(s0: State, s: State, j: nat)
    requires j < |s0.workers| == |s.workers|
  {
    Stream(s.workers[j]) == Stream(s0.workers[j])
  }

  ghost predicate SomeoneGrew(s0: State, s: State, c: Bytes)
    requires |s0.workers| == |s.workers|
  {
    exists j :: 0 <= j < |s.workers| && Grew(s0, s, c, j)
  }

  /** The Write of c that began in s0 is in progress in s. */
  ghost predicate Midway(s0: State, c: Bytes, s: State) {
    && |s.workers| == |s0.workers| && InWrite(s)
    && s.caller.chunk == c && s.accepted == s0.accepted && s.issued == s0.issued
    && (forall j :: 0 <= j < |s.workers| ==> Kept(s0, s, j) || (j < s.caller.i && Grew(s0, s, c, j)))
    && (s.caller.live > 0 <==> SomeoneGrew(s0, s, c))
  }

  /** The Write of c that began in s0 has returned in s: with nil exactly when a sink was given the chunk. */
  ghost predicate Returned(s0: State, c: Bytes, s: State) {
    && |s.workers| == |s0.workers| && s.caller.Ready?
    && s.issued == s0.issued + [c]
    && (forall j :: 0 <= j < |s.workers| ==> Kept(s0, s, j) || Grew(s0, s, c, j))
    && s.accepted == (if SomeoneGrew(s0, s, c) then s0.accepted + [c] else s0.accepted)
  }

  lemma {:induction false} SameGrowth(s0: State, c: Bytes, s: State, t: State)
    requires |t.workers| == |s.workers| == |s0.workers|
    requires forall j :: 0 <= j < |s.workers| ==> Stream(t.workers[j]) == Stream(s.workers[j])
    ensures SomeoneGrew(s0, s, c) <==> SomeoneGrew(s0, t, c)
    ensures forall j :: 0 <= j < |s.workers| ==>
              (Grew(s0, t, c, j) <==> Grew(s0, s, c, j)) && (Kept(s0, t, j) <==> Kept(s0, s, j))
  {
    if j :| 0 <= j < |s.workers| && Grew(s0, s, c, j) {
      assert Grew(s0, t, c, j);
    }
    if j :| 0 <= j < |t.workers| && Grew(s0, t, c, j) {
      assert Grew(s0, s, c, j);
    }
  }

  lemma {:induction false} SendKeepsCall(depth: nat, s0: State, c: Bytes, s: State, a: Step)
    requires Inv(s) && Enabled(depth, s, a) && (a.Send? || a.Handoff?) && Midway(s0, c, s)
    ensures Midway(s0, c, Apply(depth, s, a))
  {
    var t, i := Apply(depth, s, a), s.caller.i;
    CallerStreams(depth, s, a);
    assert Kept(s0, s, i);
    assert Grew(s0, t, c, i);
    forall j | 0 <= j < |t.workers|
      ensures Kept(s0, t, j) || (j < t.caller.i && Grew(s0, t, c, j))
    {
      assert Kept(s0, s, j) || (j < s.caller.i && Grew(s0, s, c, j));
    }
  }

  lemma {:induction false} StepKeepsCall(depth: nat, s0: State, c: Bytes, s: State, a: Step)
    requires Inv(s) && Enabled(depth, s, a) && Internal(a) && (Midway(s0, c, s) || Returned(s0, c, s))
    ensures Midway(s0, c, Apply(depth, s, a)) || Returned(s0, c, Apply(depth, s, a))
  {
    if a.Send? || a.Handoff? {
      SendKeepsCall(depth, s0, c, s, a);
    } else if a.Work? {
      WorkKeepsCall(depth, s0, c, s, a);
    } else {
      CallerStreams(depth, s, a);
      SameGrowth(s0, c, s, Apply(depth, s, a));
    }
  }

  lemma {:induction false} WorkKeepsCall(depth: nat, s0: State, c: Bytes, s: State, a: Step)
    requires Inv(s) && Enabled(depth, s, a) && a.Work? && (Midway(s0, c, s) || Returned(s0, c, s))
    ensures Midway(s0, c, Apply(depth, s, a)) || Returned(s0, c, Apply(depth, s, a))
  {
    WorkKeepsStreams(depth, s, a.i, a.move);
    SameCall(s0, c, s, Apply(depth, s, a));
  }

  /** Nothing the caller does or was given has changed. */
  lemma {:induction false} SameCall(s0: State, c: Bytes, s: State, t: State)
    requires |t.workers| == |s.workers| && t.caller == s.caller && t.accepted == s.accepted && t.issued == s.issued
    requires forall j :: 0 <= j < |s.workers| ==> Stream(t.workers[j]) == Stream(s.workers[j])
    ensures Midway(s0, c, s) ==> Midway(s0, c, t)
    ensures Returned(s0, c, s) ==> Returned(s0, c, t)
  {
    if |s.workers| == |s0.workers| {
      SameGrowth(s0, c, s, t);
    }
  }

  lemma {:induction false} RunKeepsCall(depth: nat, s0: State, c: Bytes, s: State, steps: seq<Step>)
    requires Inv(s) && Runs(depth, s, steps) && (Midway(s0, c, s) || Returned(s0, c, s))
    requires forall k :: 0 <= k < |steps| ==> Internal(steps[k])
    ensures Midway(s0, c, Exec(depth, s, steps)) || Returned(s0, c, Exec(depth, s, steps))
    decreases |steps|
  {
    if steps != [] {
      StepKeepsInv(depth, s, steps[0]);
      StepKeepsCall(depth, s0, c, s, steps[0]);
      RunKeepsCall(depth, s0, c, Apply(depth, s, steps[0]), steps[1..]);
    }
  }

  /**
   One Write call under every schedule: until it returns nothing is reported; when it has returned,
   each sink was given the chunk once or not at all, and the call was accepted exactly when some sink
   was given it.
   */
  lemma {:induction false} WriteAcceptedIffGiven(depth: nat, s: State, c: Bytes, steps: seq<Step>)
    requires Inv(s) && s.caller.Ready? && Runs(depth, Apply(depth, s, BeginWrite(c)), steps)
    requires forall k :: 0 <= k < |steps| ==> Internal(steps[k])
    ensures var t := Exec(depth, Apply(depth, s, BeginWrite(c)), steps);
            && |t.workers| == |s.workers|
            && (!t.caller.Ready? ==> InWrite(t) && t.accepted == s.accepted && t.issued == s.issued)
            && (t.caller.Ready? ==>
                  && t.issued == s.issued + [c]
                  && (forall j :: 0 <= j < |s.workers| ==>
                        Stream(t.workers[j]) == Stream(s.workers[j]) || Stream(t.workers[j]) == Stream(s.workers[j]) + [c])
                  && (t.accepted == s.accepted + [c] <==>
                        exists j :: 0 <= j < |s.workers| && Stream(t.workers[j]) == Stream(s.workers[j]) + [c])
                  && (t.accepted == s.accepted || t.accepted == s.accepted + [c]))
  {
    var b := Apply(depth, s, BeginWrite(c));
    StepKeepsInv(depth, s, BeginWrite(c));
    forall j | 0 <= j < |s.workers|
      ensures Kept(s, b, j) && !Grew(s, b, c, j)
    {
      assert |Stream(s.workers[j]) + [c]| > |Stream(s.workers[j])|;
    }
    assert Midway(s, c, b);
    RunKeepsCall(depth, s, c, b, steps);
    var t := Exec(depth, b, steps);
    assert |s.accepted + [c]| > |s.accepted|;
    if t.caller.Ready? {
      assert forall j :: 0 <= j < |s.workers| ==> Kept(s, t, j) || Grew(s, t, c, j);
      assert forall j :: 0 <= j < |s.workers| ==> (Grew(s, t, c, j) <==> Stream(t.workers[j]) == Stream(s.workers[j]) + [c]);
    }
  }
}
