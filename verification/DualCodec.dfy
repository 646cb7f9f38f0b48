/**
 Two encodings on one RPC connection: serverCodec and clientCodec of
 internal/transport/rpc/dual_codec.go. Calls run concurrently; the server codec remembers the
 encoding of the request it read last, the client codec that of every call in flight. Writing a
 response looks at the server's memory twice, and the reading loop may change it in between.
 */
module DualCodec {
  import opened Common

  datatype Disc = Json | Gob

  /** A frame on the wire: its discriminator and the encoding of its body. */
  datatype Message = Message(number: nat, disc: Disc, body: Disc)

  /** A response as the client took it: the encodings it was tagged with, written in and read with. */
  datatype Decoded = Decoded(number: nat, tagged: Disc, written: Disc, used: Disc)

  /** The response being written, with the discriminator it was given; writeMu admits one at a time. */
  datatype Writing = Writing(number: nat, disc: Disc)

  datatype State = State(
    asked: seq<Disc>,              // history: the encoding of call i's request
    pendingDisc: map<nat, Disc>,   // client: calls in flight
    toServer: seq<Message>,
    pending: Option<Disc>,         // server: the request read last
    serving: set<nat>,             // read by the server, not answered
    writing: Option<Writing>,
    toClient: seq<Message>,
    decoded: seq<Decoded>)         // history

  const Idle := State([], map[], [], None, {}, None, [], [])

  datatype Step = Call(disc: Disc) | ReadRequest | BeginResponse(number: nat) | EndResponse | ReadResponse

  predicate Enabled(s: State, a: Step) {
    match a
    case Call(_) => true
    case ReadRequest => s.toServer != []
    case BeginResponse(n) => n in s.serving && s.pending.Some? && s.writing.None?
    case EndResponse => s.writing.Some? && s.pending.Some?
    case ReadResponse => s.toClient != []
  }

  function Apply(s: State, a: Step): State
    requires Enabled(s, a)
  {
    match a
    case Call(d) =>
      s.(asked := s.asked + [d], pendingDisc := s.pendingDisc[|s.asked| := d], toServer := s.toServer + [Message(|s.asked|, d, d)])
    case ReadRequest =>
      var m := s.toServer[0];
      s.(toServer := s.toServer[1..], pending := Some(m.disc), serving := s.serving + {m.number})
    case BeginResponse(n) => s.(writing := Some(Writing(n, s.pending.value)))
    case EndResponse =>
      var w := s.writing.value;
      s.(serving := s.serving - {w.number}, writing := None, toClient := s.toClient + [Message(w.number, w.disc, s.pending.value)])
    case ReadResponse =>
      var m := s.toClient[0];
      var used := if m.number in s.pendingDisc then s.pendingDisc[m.number] else m.disc;
      s.(toClient := s.toClient[1..], pendingDisc := s.pendingDisc - {m.number},
         decoded := s.decoded + [Decoded(m.number, m.disc, m.body, used)])
  }

  predicate Runs(s: State, steps: seq<Step>)
    decreases |steps|
  {
    steps == [] || (Enabled(s, steps[0]) && Runs(Apply(s, steps[0]), steps[1..]))
  }

  function Exec(s: State, steps: seq<Step>): State
    requires Runs(s, steps)
    decreases |steps|
  {
    if steps == [] then s else Exec(Apply(s, steps[0]), steps[1..])
  }

  lemma {:induction false} RunStep(s: State, a: Step, rest: seq<Step>)
    requires Enabled(s, a) && Runs(Apply(s, a), rest)
    ensures Runs(s, [a] + rest) && Exec(s, [a] + rest) == Exec(Apply(s, a), rest)
  {
    assert ([a] + rest)[1..] == rest;
  }

  lemma {:induction false} RunConcat(s: State, a: seq<Step>, b: seq<Step>)
    requires Runs(s, a) && Runs(Exec(s, a), b)
    ensures Runs(s, a + b) && Exec(s, a + b) == Exec(Exec(s, a), b)
    decreases |a|
  {
    if a == [] {
      assert a + b == b;
    } else {
      assert (a + b)[1..] == a[1..] + b;
      RunConcat(Apply(s, a[0]), a[1..], b);
    }
  }

  // ---------------------------------------------------------------- bookkeeping

  predicate DistinctNumbers(ms: seq<Message>) {
    forall i, j :: 0 <= i < j < |ms| ==> ms[i].number != ms[j].number
  }

  predicate Known(s: State, n: nat) { n in s.pendingDisc && n < |s.asked| && s.pendingDisc[n] == s.asked[n] }

  /** The client knows the encoding of every call in flight, wherever that call is. */
  predicate AllKnown(s: State) {
    && (forall n :: n in s.pendingDisc ==> Known(s, n))
    && (forall i :: 0 <= i < |s.toServer| ==> Known(s, s.toServer[i].number) && s.toServer[i].disc == s.asked[s.toServer[i].number])
    && (forall n :: n in s.serving ==> Known(s, n))
    && (forall i :: 0 <= i < |s.toClient| ==> Known(s, s.toClient[i].number))
    && (s.serving != {} ==> s.pending.Some?)
    && (s.writing.Some? ==> s.writing.value.number in s.serving)
  }

  /** Each call in flight is in one place. */
  predicate OnePlace(s: State) {
    && DistinctNumbers(s.toServer) && DistinctNumbers(s.toClient)
    && (forall i :: 0 <= i < |s.toServer| ==> s.toServer[i].number !in s.serving)
    && (forall i :: 0 <= i < |s.toClient| ==> s.toClient[i].number !in s.serving)
    && (forall i, j :: 0 <= i < |s.toServer| && 0 <= j < |s.toClient| ==> s.toServer[i].number != s.toClient[j].number)
  }

  predicate Tracked(s: State) { AllKnown(s) && OnePlace(s) }

  /** The client always reads a response with the encoding of its own request. */
  predicate ReadAsAsked(s: State) {
    forall i :: 0 <= i < |s.decoded| ==> s.decoded[i].number < |s.asked| && s.decoded[i].used == s.asked[s.decoded[i].number]
  }

  lemma {:induction false} StepKeepsKnown(s: State, a: Step)
    requires Tracked(s) && Enabled(s, a)
    ensures AllKnown(Apply(s, a))
  {
    var t := Apply(s, a);
    match a
    case Call(d) => assert forall n :: Known(s, n) ==> Known(t, n);
    case ReadRequest =>
      assert forall i :: 0 <= i < |t.toServer| ==> t.toServer[i] == s.toServer[i + 1];
      assert forall n :: Known(s, n) ==> Known(t, n);
    case ReadResponse =>
      assert forall i :: 0 <= i < |t.toClient| ==> t.toClient[i] == s.toClient[i + 1];
      assert forall n :: Known(s, n) && n != s.toClient[0].number ==> Known(t, n);
    case _ => assert forall k :: Known(s, k) ==> Known(t, k);
  }

  lemma {:induction false} StepKeepsOnePlace(s: State, a: Step)
    requires Tracked(s) && Enabled(s, a)
    ensures OnePlace(Apply(s, a))
  {
    var t := Apply(s, a);
    match a
    case Call(d) => assert !Known(s, |s.asked|);
    case ReadRequest => assert forall i :: 0 <= i < |t.toServer| ==> t.toServer[i] == s.toServer[i + 1];
    case ReadResponse => assert forall i :: 0 <= i < |t.toClient| ==> t.toClient[i] == s.toClient[i + 1];
    case _ =>
  }

  lemma {:induction false} StepReadsAsAsked(s: State, a: Step)
    requires Tracked(s) && Enabled(s, a) && ReadAsAsked(s)
    ensures ReadAsAsked(Apply(s, a))
  {
  }

  // ----------------------------------------------------- when encodings agree

  /** The server has not written a response to the call yet. */
  predicate Unanswered(s: State, n: nat) {
    n in s.serving || exists i :: 0 <= i < |s.toServer| && s.toServer[i].number == n
  }

  /** A call does not start while one of the other encoding is unanswered. */
  predicate NoOverlap(s: State, a: Step) {
    a.Call? ==> forall n :: 0 <= n < |s.asked| && Unanswered(s, n) ==> s.asked[n] == a.disc
  }

  predicate NeverOverlaps(s: State, steps: seq<Step>)
    requires Runs(s, steps)
    decreases |steps|
  {
    steps == [] || (NoOverlap(s, steps[0]) && NeverOverlaps(Apply(s, steps[0]), steps[1..]))
  }

  /** One encoding at a time among the unanswered calls, and the server's memory is of that encoding. */
  predicate Uniform(s: State) {
    && (forall m, n :: 0 <= m < |s.asked| && 0 <= n < |s.asked| && Unanswered(s, m) && Unanswered(s, n) ==> s.asked[m] == s.asked[n])
    && (forall n :: n in s.serving && n < |s.asked| ==> s.pending == Some(s.asked[n]))
    && (s.writing.Some? && s.writing.value.number < |s.asked| ==> s.writing.value.disc == s.asked[s.writing.value.number])
    && (forall i :: 0 <= i < |s.toClient| && s.toClient[i].number < |s.asked| ==>
          s.toClient[i].disc == s.asked[s.toClient[i].number] == s.toClient[i].body)
  }

  predicate AllAgree(s: State) {
    forall i :: 0 <= i < |s.decoded| ==> s.decoded[i].tagged == s.decoded[i].written == s.decoded[i].used
  }

  lemma {:induction false} CallKeepsUniform(s: State, d: Disc)
    requires Tracked(s) && Uniform(s) && NoOverlap(s, Call(d))
    ensures Uniform(Apply(s, Call(d)))
  {
    var t := Apply(s, Call(d));
    forall n | 0 <= n < |t.asked| && Unanswered(t, n)
      ensures t.asked[n] == d
    {
      assert n < |s.asked| ==> Unanswered(s, n);
    }
  }

  lemma {:induction false} ReadRequestKeepsUniform(s: State)
    requires Tracked(s) && Uniform(s) && s.toServer != []
    ensures Uniform(Apply(s, ReadRequest))
  {
    var t, m := Apply(s, ReadRequest), s.toServer[0];
    assert Known(s, m.number) && Unanswered(s, m.number);
    forall n | 0 <= n < |t.asked| && Unanswered(t, n)
      ensures Unanswered(s, n)
    {
      if i :| 0 <= i < |t.toServer| && t.toServer[i].number == n {
        assert s.toServer[i + 1].number == n;
      }
    }
    assert forall n :: n in t.serving ==> Unanswered(t, n) && Known(s, n);
  }

  lemma {:induction false} StepKeepsUniform(s: State, a: Step)
    requires Tracked(s) && Uniform(s) && Enabled(s, a) && NoOverlap(s, a)
    ensures Uniform(Apply(s, a))
  {
    var t := Apply(s, a);
    match a
    case Call(d) => CallKeepsUniform(s, d);
    case ReadRequest => ReadRequestKeepsUniform(s);
    case BeginResponse(n) => assert forall k :: Unanswered(t, k) ==> Unanswered(s, k);
    case EndResponse => assert forall k :: Unanswered(t, k) ==> Unanswered(s, k);
    case ReadResponse =>
      assert forall i :: 0 <= i < |t.toClient| ==> t.toClient[i] == s.toClient[i + 1];
      assert forall k :: Unanswered(t, k) ==> Unanswered(s, k);
  }

  lemma {:induction false} StepKeepsAgreement(s: State, a: Step)
    requires Tracked(s) && Uniform(s) && AllAgree(s) && Enabled(s, a)
    ensures AllAgree(Apply(s, a))
  {
    if a.ReadResponse? {
      assert Known(s, s.toClient[0].number);
    }
  }

  lemma {:induction false} RunKeepsInvariants(s: State, steps: seq<Step>)
    requires Runs(s, steps) && Tracked(s) && ReadAsAsked(s)
    ensures Tracked(Exec(s, steps)) && ReadAsAsked(Exec(s, steps))
    ensures Uniform(s) && AllAgree(s) && NeverOverlaps(s, steps) ==> AllAgree(Exec(s, steps))
    decreases |steps|
  {
    if steps != [] {
      StepKeepsKnown(s, steps[0]);
      StepKeepsOnePlace(s, steps[0]);
      StepReadsAsAsked(s, steps[0]);
      if Uniform(s) && AllAgree(s) && NeverOverlaps(s, steps) {
        StepKeepsUniform(s, steps[0]);
        StepKeepsAgreement(s, steps[0]);
      }
      RunKeepsInvariants(Apply(s, steps[0]), steps[1..]);
    }
  }

  /**
   In every run the client reads each response as the request was encoded; in every run where no
   call starts while one of the other encoding is unanswered, that is also how the response was
   tagged and written.
   */
  lemma {:induction false} ResponsesReadAsWritten(steps: seq<Step>)
    requires Runs(Idle, steps)
    ensures Tracked(Exec(Idle, steps)) && ReadAsAsked(Exec(Idle, steps))
    ensures NeverOverlaps(Idle, steps) ==> AllAgree(Exec(Idle, steps))
  {
    RunKeepsInvariants(Idle, steps);
  }

  // ------------------------------------------------------------ the condition is exact

  /** The server reads every request on the wire; its memory is then of the last one. */
  lemma {:induction false} ReadAll(s: State) returns (steps: seq<Step>)
    requires Tracked(s)
    ensures Runs(s, steps)
    ensures var t := Exec(s, steps);
            && t.asked == s.asked && t.toServer == [] && t.writing == s.writing && Tracked(t)
            && (forall n :: n in t.serving <==> Unanswered(s, n))
            && (s.toServer != [] ==> t.pending == Some(s.toServer[|s.toServer| - 1].disc))
            && (s.toServer == [] ==> t.pending == s.pending)
    decreases |s.toServer|
  {
    if s.toServer == [] {
      steps := [];
    } else {
      var u := Apply(s, ReadRequest);
      StepKeepsKnown(s, ReadRequest);
      StepKeepsOnePlace(s, ReadRequest);
      var rest := ReadAll(u);
      RunStep(s, ReadRequest, rest);
      steps := [ReadRequest] + rest;
      forall n
        ensures Unanswered(u, n) <==> Unanswered(s, n)
      {
        ReadingKeepsUnanswered(s, n);
      }
    }
  }

  lemma {:induction false} ReadingKeepsUnanswered(s: State, n: nat)
    requires s.toServer != []
    ensures Unanswered(Apply(s, ReadRequest), n) <==> Unanswered(s, n)
  {
    var u := Apply(s, ReadRequest);
    if i :| 0 <= i < |s.toServer| && s.toServer[i].number == n {
      assert i > 0 ==> u.toServer[i - 1].number == n;
    }
    if i :| 0 <= i < |u.toServer| && u.toServer[i].number == n {
      assert s.toServer[i + 1].number == n;
    }
  }

  /** A response was written in one encoding and read in another. */
  predicate Misread(s: State, n: nat, written: Disc, used: Disc) {
    exists i :: 0 <= i < |s.decoded| && s.decoded[i].number == n && s.decoded[i].written == written && s.decoded[i].used == used
  }

  predicate OnTheWay(s: State, n: nat, body: Disc) {
    exists i :: 0 <= i < |s.toClient| && s.toClient[i].number == n && s.toClient[i].body == body
  }

  /** The client reads until it has taken the response to call n. */
  lemma {:induction false} ReadUntil(s: State, n: nat, body: Disc) returns (steps: seq<Step>)
    requires Tracked(s) && OnTheWay(s, n, body)
    ensures Runs(s, steps) && Exec(s, steps).asked == s.asked
    ensures n < |s.asked| && Misread(Exec(s, steps), n, body, s.asked[n])
    decreases |s.toClient|
  {
    var u := Apply(s, ReadResponse);
    var i :| 0 <= i < |s.toClient| && s.toClient[i].number == n && s.toClient[i].body == body;
    assert Known(s, s.toClient[i].number);
    if i == 0 {
      RunStep(s, ReadResponse, []);
      steps := [ReadResponse] + [];
      assert u.decoded[|s.decoded|] == Decoded(n, s.toClient[0].disc, body, s.asked[n]);
    } else {
      StepKeepsKnown(s, ReadResponse);
      StepKeepsOnePlace(s, ReadResponse);
      assert u.toClient[i - 1] == s.toClient[i];
      var rest := ReadUntil(u, n, body);
      RunStep(s, ReadResponse, rest);
      steps := [ReadResponse] + rest;
    }
  }

  /** The server writes its response to call n now. */
  lemma {:induction false} Answer(s: State, n: nat) returns (steps: seq<Step>)
    requires Tracked(s) && n in s.serving
    ensures Runs(s, steps) && Exec(s, steps).asked == s.asked && Tracked(Exec(s, steps))
    ensures s.pending.Some? && OnTheWay(Exec(s, steps), n, s.pending.value)
  {
    var s1, before := s, [];
    if s.writing.Some? && s.writing.value.number != n {
      StepKeepsKnown(s, EndResponse);
      StepKeepsOnePlace(s, EndResponse);
      s1, before := Apply(s, EndResponse), [EndResponse] + [];
      RunStep(s, EndResponse, []);
    }
    var s2, middle := s1, [];
    if s1.writing.None? {
      StepKeepsKnown(s1, BeginResponse(n));
      StepKeepsOnePlace(s1, BeginResponse(n));
      s2, middle := Apply(s1, BeginResponse(n)), [BeginResponse(n)] + [];
      RunStep(s1, BeginResponse(n), []);
    }
    StepKeepsKnown(s2, EndResponse);
    StepKeepsOnePlace(s2, EndResponse);
    var s3 := Apply(s2, EndResponse);
    assert s3.toClient[|s2.toClient|] == Message(n, s2.writing.value.disc, s.pending.value);
    RunStep(s2, EndResponse, []);
    RunConcat(s1, middle, [EndResponse] + []);
    RunConcat(s, before, middle + ([EndResponse] + []));
    steps := before + (middle + ([EndResponse] + []));
  }

  /**
   From every reachable state, a call that starts while one of the other encoding is unanswered
   has a continuation in which that one's response is written in the new call's encoding and read in its own.
   */
  lemma {:induction false} OverlapMisreads(s: State, n: nat, e: Disc) returns (steps: seq<Step>)
    requires Tracked(s) && n < |s.asked| && Unanswered(s, n) && s.asked[n] != e
    ensures var start := Apply(s, Call(e)); Runs(start, steps) && Misread(Exec(start, steps), n, e, s.asked[n])
  {
    var s1 := Apply(s, Call(e));
    StepKeepsKnown(s, Call(e));
    StepKeepsOnePlace(s, Call(e));
    assert Unanswered(s1, n) by { CallKeepsUnanswered(s, e, n); }
    var a := ReadAll(s1);
    var s2 := Exec(s1, a);
    var b := Answer(s2, n);
    var s3 := Exec(s2, b);
    var c := ReadUntil(s3, n, e);
    RunConcat(s2, b, c);
    RunConcat(s1, a, b + c);
    steps := a + (b + c);
  }

  lemma {:induction false} CallKeepsUnanswered(s: State, e: Disc, n: nat)
    requires Unanswered(s, n)
    ensures Unanswered(Apply(s, Call(e)), n)
  {
    if i :| 0 <= i < |s.toServer| && s.toServer[i].number == n {
      assert Apply(s, Call(e)).toServer[i] == s.toServer[i];
    }
  }
}
