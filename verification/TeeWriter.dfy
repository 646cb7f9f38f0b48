/**
 The fan-out writer of internal/storage/multi: one caller, one goroutine per
 sink, a buffered channel and a fail signal between them. Goroutines are modelled
 as a state machine; a run is the list of steps some scheduler chose, and sinks
 may fail (after any short write) whenever they are called.
 */
module TeeWriter {
  import opened Common

  /** Where one sink's goroutine stands. */
  datatype Phase =
    | Receiving               // at the receive of the range loop
    | Writing(chunk: Bytes)   // inside sink.Write
    | Signalling              // errs[i] recorded, fail not closed yet
    | Closing                 // inside sink.Close
    | Exited

  datatype Worker = Worker(
    absent: bool,             // the sink was nil: no goroutine, no channel
    phase: Phase,
    queue: seq<Bytes>,        // buffered channel
    eof: bool,                // channel closed by Close
    open: bool,               // the writer still holds the send side
    signalled: bool,          // fail channel closed
    failed: bool,             // goroutine-local flag
    err: bool,                // errs[i] != nil
    taken: seq<Bytes>,        // history: chunks received from the channel
    got: Bytes,               // history: bytes the sink accepted
    closedClean: bool)        // history: sink.Close returned nil

  /** Where the caller's goroutine stands. */
  datatype Caller =
    | Ready
    | Probing(chunk: Bytes, i: nat, live: nat)   // Write, loop head for worker i
    | Sending(chunk: Bytes, i: nat, live: nat)   // Write, blocked in the second select
    | Shutting(i: nat)                           // Close, about to close channel i
    | Waiting                                    // Close, wg.Wait
    | Done(ok: bool)                             // Close returned nil iff ok

  datatype State = State(
    caller: Caller,
    workers: seq<Worker>,
    issued: seq<Bytes>,       // history: chunks of all finished Write calls
    accepted: seq<Bytes>)     // history: chunks of the Write calls that returned nil

  /** What a goroutine can do next. */
  datatype Move = Receive | WriteOk | WriteFail(n: nat) | Signal | LeaveLoop | CloseOk | CloseFail

  datatype Step =
    | BeginWrite(chunk: Bytes) | Probe | Send | Handoff | SeeFail
    | BeginClose | CloseChan | Join
    | Work(i: nat, move: Move)

  const NilWorker := Worker(true, Exited, [], false, false, false, false, true, [], [], false)
  const FreshWorker := Worker(false, Receiving, [], false, true, false, false, false, [], [], false)

  /** NewWithDepth: present[i] is false when sinks[i] is nil. */
  function Init(present: seq<bool>): State {
    State(Ready, seq(|present|, i requires 0 <= i < |present| => if present[i] then FreshWorker else NilWorker), [], [])
  }

  /** A step is enabled; depth is the channel capacity (0 is an unbuffered channel). */
  predicate Enabled(depth: nat, s: State, a: Step) {
    match a
    case BeginWrite(_) => s.caller.Ready?
    case Probe => s.caller.Probing? && s.caller.i <= |s.workers|
    case Send => s.caller.Sending? && s.caller.i < |s.workers| && |s.workers[s.caller.i].queue| < depth
    case Handoff =>
      && s.caller.Sending? && s.caller.i < |s.workers|
      && s.workers[s.caller.i].phase.Receiving? && s.workers[s.caller.i].queue == []
    case SeeFail => s.caller.Sending? && s.caller.i < |s.workers| && s.workers[s.caller.i].signalled
    case BeginClose => s.caller.Ready?
    case CloseChan => s.caller.Shutting? && s.caller.i <= |s.workers|
    case Join => s.caller.Waiting? && forall i :: 0 <= i < |s.workers| ==> s.workers[i].phase.Exited?
    case Work(i, m) => i < |s.workers| && CanMove(s.workers[i], m)
  }

  predicate CanMove(w: Worker, m: Move) {
    match m
    case Receive => w.phase.Receiving? && w.queue != []
    case WriteOk => w.phase.Writing?
    case WriteFail(n) => w.phase.Writing? && n <= |w.phase.chunk|
    case Signal => w.phase.Signalling?
    case LeaveLoop => w.phase.Receiving? && w.queue == [] && w.eof
    case CloseOk => w.phase.Closing?
    case CloseFail => w.phase.Closing?
  }

  /** The goroutine receives chunk c: written unless an earlier write failed. */
  function Take(w: Worker, c: Bytes): Worker {
    w.(taken := w.taken + [c], phase := if w.failed then Receiving else Writing(c))
  }

  function Moved(w: Worker, m: Move): Worker
    requires CanMove(w, m)
  {
    match m
    case Receive => Take(w, w.queue[0]).(queue := w.queue[1..])
    case WriteOk => w.(got := w.got + w.phase.chunk, phase := Receiving)
    case WriteFail(n) => w.(got := w.got + w.phase.chunk[..n], err := true, phase := Signalling)
    case Signal => w.(signalled := true, failed := true, phase := Receiving)
    case LeaveLoop => w.(phase := Closing)
    case CloseOk => w.(phase := Exited, closedClean := true)
    case CloseFail => w.(phase := Exited, err := true)
  }

  function SetWorker(s: State, i: nat, w: Worker): State
    requires i < |s.workers|
  {
    s.(workers := s.workers[i := w])
  }

  function Apply(depth: nat, s: State, a: Step): State
    requires Enabled(depth, s, a)
  {
    match a
    case BeginWrite(c) => s.(caller := Probing(c, 0, 0))
    case Probe =>
      var Probing(c, i, live) := s.caller;
      if i == |s.workers| then
        s.(caller := Ready, issued := s.issued + [c],
           accepted := if live == 0 then s.accepted else s.accepted + [c])
      else if !s.workers[i].open then s.(caller := Probing(c, i + 1, live))
      else if s.workers[i].signalled then
        SetWorker(s, i, s.workers[i].(open := false)).(caller := Probing(c, i + 1, live))
      else s.(caller := Sending(c, i, live))
    case Send =>
      var Sending(c, i, live) := s.caller;
      SetWorker(s, i, s.workers[i].(queue := s.workers[i].queue + [c])).(caller := Probing(c, i + 1, live + 1))
    case Handoff =>
      var Sending(c, i, live) := s.caller;
      SetWorker(s, i, Take(s.workers[i], c)).(caller := Probing(c, i + 1, live + 1))
    case SeeFail =>
      var Sending(c, i, live) := s.caller;
      SetWorker(s, i, s.workers[i].(open := false)).(caller := Probing(c, i + 1, live))
    case BeginClose => s.(caller := Shutting(0))
    case CloseChan =>
      var i := s.caller.i;
      if i == |s.workers| then s.(caller := Waiting)
      else if s.workers[i].absent then s.(caller := Shutting(i + 1))
      else SetWorker(s, i, s.workers[i].(eof := true)).(caller := Shutting(i + 1))
    case Join => s.(caller := Done(exists i :: 0 <= i < |s.workers| && !s.workers[i].err))
    case Work(i, m) => SetWorker(s, i, Moved(s.workers[i], m))
  }

  /** steps is a schedule the machine can follow from s. */
  predicate Runs(depth: nat, s: State, steps: seq<Step>)
    decreases |steps|
  {
    steps == [] || (Enabled(depth, s, steps[0]) && Runs(depth, Apply(depth, s, steps[0]), steps[1..]))
  }

  function Exec(depth: nat, s: State, steps: seq<Step>): State
    requires Runs(depth, s, steps)
    decreases |steps|
  {
    if steps == [] then s else Exec(depth, Apply(depth, s, steps[0]), steps[1..])
  }

  /** A sink whose recorded error is nil. */
  predicate Clean(s: State, i: nat)
    requires i < |s.workers|
  {
    !s.workers[i].err
  }

  // ---------------------------------------------------------------- invariant

  /** Chunks worker i has been offered so far: accepted ones, and the current one once the loop passed i. */
  function Offered(s: State, i: nat): seq<Bytes> {
    if (s.caller.Probing? || s.caller.Sending?) && i < s.caller.i then s.accepted + [s.caller.chunk]
    else s.accepted
  }

  predicate ChanClosed(s: State, i: nat) {
    (s.caller.Shutting? && i < s.caller.i) || s.caller.Waiting? || s.caller.Done?
  }

  /** Everything that entered worker w's channel, in order. */
  function Stream(w: Worker): seq<Bytes> { w.taken + w.queue }

  /** The sink's bytes against the chunks taken off the channel, by phase. */
  predicate SinkOk(w: Worker) {
    match w.phase
    case Receiving => (w.err ==> w.failed) && (!w.failed ==> w.got == Flatten(w.taken))
    case Writing(c) =>
      !w.err && w.taken != [] && w.taken[|w.taken| - 1] == c && w.got == Flatten(w.taken[..|w.taken| - 1])
    case Signalling => w.err && !w.failed
    case Closing => w.eof && w.queue == [] && (w.err ==> w.failed) && (!w.failed ==> w.got == Flatten(w.taken))
    case Exited =>
      w.eof && w.queue == [] && (w.err <==> w.failed || !w.closedClean) && (!w.failed ==> w.got == Flatten(w.taken))
  }

  /** What always holds of one goroutine, its channel and its sink. */
  predicate WorkerOk(w: Worker, offered: seq<Bytes>, closed: bool) {
    if w.absent then w == NilWorker
    else
      && w.eof == closed
      && Stream(w) <= offered
      && (w.open ==> Stream(w) == offered)
      && (!w.open ==> w.signalled)
      && w.signalled == w.failed
      && (w.failed ==> w.err)
      && (w.closedClean ==> w.phase.Exited?)
      && w.got <= Flatten(w.taken)
      && SinkOk(w)
  }

  predicate InWrite(s: State) { s.caller.Probing? || s.caller.Sending? }

  /** The caller's position is in range, and a blocked send is to a sink it still holds. */
  predicate PositionOk(s: State) {
    && (s.caller.Probing? ==> s.caller.i <= |s.workers|)
    && (s.caller.Sending? ==> s.caller.i < |s.workers| && s.workers[s.caller.i].open)
    && (s.caller.Shutting? ==> s.caller.i <= |s.workers|)
  }

  /** Writes are rejected only once no sink is held any more. */
  predicate LogOk(s: State) {
    && s.accepted <= s.issued
    && (s.accepted != s.issued ==> forall j :: 0 <= j < |s.workers| ==> !s.workers[j].open)
  }

  /** `live` is positive as soon as some sink got the current chunk, and zero means no sink got it. */
  predicate LiveOk(s: State) {
    InWrite(s) ==>
      && (forall j :: 0 <= j < s.caller.i && j < |s.workers| && s.workers[j].open ==> s.caller.live > 0)
      && (s.caller.live == 0 ==> forall j :: 0 <= j < |s.workers| ==> Stream(s.workers[j]) <= s.accepted)
      && (s.caller.live > 0 ==> s.accepted == s.issued)
  }

  predicate ResultOk(s: State) {
    s.caller.Done? ==>
      && (forall j :: 0 <= j < |s.workers| ==> s.workers[j].phase.Exited?)
      && (s.caller.ok <==> exists j :: 0 <= j < |s.workers| && !s.workers[j].err)
  }

  predicate WorkersOk(s: State) {
    forall i :: 0 <= i < |s.workers| ==> WorkerOk(s.workers[i], Offered(s, i), ChanClosed(s, i))
  }

  predicate Sound(s: State) {
    PositionOk(s) && LogOk(s) && LiveOk(s) && ResultOk(s) && WorkersOk(s)
  }

  /** Some sink was given exactly these chunks. */
  ghost predicate SomeoneWasGiven(s: State, chunks: seq<Bytes>) {
    exists j :: 0 <= j < |s.workers| && Stream(s.workers[j]) == chunks
  }

  /** The accepted chunks, with the one being written as soon as it is counted, went to some one sink. */
  ghost predicate Delivered(s: State) {
    if InWrite(s) && s.caller.live > 0 then SomeoneWasGiven(s, s.accepted + [s.caller.chunk])
    else s.accepted == [] || SomeoneWasGiven(s, s.accepted)
  }

  ghost predicate Inv(s: State) { Sound(s) && Delivered(s) }

  lemma {:induction false} InitOk(present: seq<bool>)
    ensures Inv(Init(present))
  {
  }

  /** The goroutine's own moves keep its local invariant and its stream. */
  lemma {:induction false} MoveOk(w: Worker, m: Move, offered: seq<Bytes>, closed: bool)
    requires CanMove(w, m) && WorkerOk(w, offered, closed)
    ensures WorkerOk(Moved(w, m), offered, closed)
    ensures Moved(w, m).open == w.open && Moved(w, m).absent == w.absent
    ensures Stream(Moved(w, m)) == Stream(w)
  {
    match m
    case Receive => ReceiveOk(w, offered, closed);
    case WriteOk => WriteMoveOk(w, m, offered, closed);
    case WriteFail(_) => WriteMoveOk(w, m, offered, closed);
    case _ =>
  }

  lemma {:induction false} WriteMoveOk(w: Worker, m: Move, offered: seq<Bytes>, closed: bool)
    requires CanMove(w, m) && WorkerOk(w, offered, closed) && (m.WriteOk? || m.WriteFail?)
    ensures WorkerOk(Moved(w, m), offered, closed)
  {
    var before := w.taken[..|w.taken| - 1];
    FlattenPush(before, w.phase.chunk);
    assert before + [w.phase.chunk] == w.taken;
  }

  lemma {:induction false} ReceiveOk(w: Worker, offered: seq<Bytes>, closed: bool)
    requires CanMove(w, Receive) && WorkerOk(w, offered, closed)
    ensures WorkerOk(Moved(w, Receive), offered, closed)
    ensures Stream(Moved(w, Receive)) == Stream(w)
  {
    var v := Moved(w, Receive);
    assert Stream(v) == Stream(w);
    FlattenPush(w.taken, w.queue[0]);
    assert v.taken[..|v.taken| - 1] == w.taken;
  }

  /** Handing chunk c to a worker the writer still holds: its stream grows by exactly c. */
  lemma {:induction false} DeliveryOk(w: Worker, v: Worker, c: Bytes, offered: seq<Bytes>)
    requires WorkerOk(w, offered, false) && w.open
    requires v == w.(queue := w.queue + [c]) || (v == Take(w, c) && w.phase.Receiving? && w.queue == [])
    ensures WorkerOk(v, offered + [c], false) && v.open
    ensures Stream(v) == offered + [c]
  {
    if v == w.(queue := w.queue + [c]) {
      assert Stream(v) == Stream(w) + [c];
    } else {
      TakeOk(w, c, offered);
    }
  }

  lemma {:induction false} TakeOk(w: Worker, c: Bytes, offered: seq<Bytes>)
    requires WorkerOk(w, offered, false) && w.open && w.phase.Receiving? && w.queue == []
    ensures WorkerOk(Take(w, c), offered + [c], false) && Stream(Take(w, c)) == offered + [c]
  {
    var v := Take(w, c);
    FlattenPush(w.taken, c);
    assert Stream(v) == Stream(w) + [c];
    assert v.taken[..|v.taken| - 1] == w.taken;
  }

  lemma {:induction false} StepKeepsSound(depth: nat, s: State, a: Step)
    requires Sound(s) && Enabled(depth, s, a)
    ensures Sound(Apply(depth, s, a))
  {
    match a
    case Probe => ProbeOk(depth, s);
    case Send => SendOk(depth, s, a);
    case Handoff => SendOk(depth, s, a);
    case SeeFail => SeeFailOk(depth, s);
    case Work(i, m) => WorkOk(depth, s, i, m);
    case CloseChan => CloseChanOk(depth, s);
    case _ => PlainStepOk(depth, s, a);
  }

  lemma {:induction false} SeeFailOk(depth: nat, s: State)
    requires Sound(s) && Enabled(depth, s, SeeFail)
    ensures Sound(Apply(depth, s, SeeFail))
  {
  }

  lemma {:induction false} CloseChanOk(depth: nat, s: State)
    requires Sound(s) && Enabled(depth, s, CloseChan)
    ensures Sound(Apply(depth, s, CloseChan))
  {
  }

  lemma {:induction false} PlainStepOk(depth: nat, s: State, a: Step)
    requires Sound(s) && Enabled(depth, s, a) && (a.BeginWrite? || a.BeginClose? || a.Join?)
    ensures Sound(Apply(depth, s, a))
  {
  }

  lemma {:induction false} WorkOk(depth: nat, s: State, i: nat, m: Move)
    requires Sound(s) && Enabled(depth, s, Work(i, m))
    ensures Sound(Apply(depth, s, Work(i, m)))
  {
    MoveOk(s.workers[i], m, Offered(s, i), ChanClosed(s, i));
  }

  lemma {:induction false} SendOk(depth: nat, s: State, a: Step)
    requires a.Send? || a.Handoff?
    requires Sound(s) && Enabled(depth, s, a)
    ensures Sound(Apply(depth, s, a))
  {
    var i, t := s.caller.i, Apply(depth, s, a);
    assert WorkerOk(s.workers[i], s.accepted, false);
    DeliveryOk(s.workers[i], t.workers[i], s.caller.chunk, s.accepted);
    assert forall j :: 0 <= j < |s.workers| && j != i ==> t.workers[j] == s.workers[j];
    SendKeepsWorkers(s, t);
  }

  /** After a delivery to worker i every worker has been offered what the loop position says. */
  lemma {:induction false} SendKeepsWorkers(s: State, t: State)
    requires s.caller.Sending? && s.caller.i < |s.workers| == |t.workers| && WorkersOk(s)
    requires t.caller == Probing(s.caller.chunk, s.caller.i + 1, s.caller.live + 1) && t.accepted == s.accepted
    requires forall j :: 0 <= j < |s.workers| && j != s.caller.i ==> t.workers[j] == s.workers[j]
    requires WorkerOk(t.workers[s.caller.i], s.accepted + [s.caller.chunk], false)
    ensures WorkersOk(t)
  {
    forall j | 0 <= j < |t.workers|
      ensures WorkerOk(t.workers[j], Offered(t, j), ChanClosed(t, j))
    {
      assert j != s.caller.i ==> Offered(t, j) == Offered(s, j) && ChanClosed(t, j) == ChanClosed(s, j);
    }
  }

  lemma {:induction false} ProbeOk(depth: nat, s: State)
    requires Sound(s) && Enabled(depth, s, Probe)
    ensures Sound(Apply(depth, s, Probe))
  {
    if s.caller.i == |s.workers| {
      ProbeDone(depth, s);
    } else {
      ProbeOne(depth, s);
    }
  }

  /** The loop is through: the chunk becomes part of the accepted stream unless nobody took it. */
  lemma {:induction false} ProbeDone(depth: nat, s: State)
    requires Sound(s) && Enabled(depth, s, Probe) && s.caller.i == |s.workers|
    ensures Sound(Apply(depth, s, Probe))
  {
    var t := Apply(depth, s, Probe);
    forall j | 0 <= j < |t.workers|
      ensures WorkerOk(t.workers[j], Offered(t, j), ChanClosed(t, j))
    {
      assert WorkerOk(s.workers[j], s.accepted + [s.caller.chunk], false);
    }
  }

  lemma {:induction false} ProbeOne(depth: nat, s: State)
    requires Sound(s) && Enabled(depth, s, Probe) && s.caller.i < |s.workers|
    ensures Sound(Apply(depth, s, Probe))
  {
    var t, i := Apply(depth, s, Probe), s.caller.i;
    assert forall j :: 0 <= j < |s.workers| && j != i ==> t.workers[j] == s.workers[j];
    ProbeKeepsWorkers(s, t);
    assert forall j :: 0 <= j < |s.workers| ==> Stream(t.workers[j]) == Stream(s.workers[j]);
  }

  /** Passing worker i without a delivery, because it is not held, or stopping at it to send. */
  lemma {:induction false} ProbeKeepsWorkers(s: State, t: State)
    requires s.caller.Probing? && s.caller.i < |s.workers| == |t.workers| && WorkersOk(s) && t.accepted == s.accepted
    requires forall j :: 0 <= j < |s.workers| && j != s.caller.i ==> t.workers[j] == s.workers[j]
    requires var i, w, v := s.caller.i, s.workers[s.caller.i], t.workers[s.caller.i];
             || (v == w && t.caller == Sending(s.caller.chunk, i, s.caller.live))
             || (v == w && !w.open && t.caller == Probing(s.caller.chunk, i + 1, s.caller.live))
             || (v == w.(open := false) && w.open && w.signalled && t.caller == Probing(s.caller.chunk, i + 1, s.caller.live))
    ensures WorkersOk(t)
  {
    forall j | 0 <= j < |t.workers|
      ensures WorkerOk(t.workers[j], Offered(t, j), ChanClosed(t, j))
    {
      assert WorkerOk(s.workers[j], Offered(s, j), false);
      assert j != s.caller.i ==> Offered(t, j) == Offered(s, j);
    }
  }

  /** A step of a goroutine moves chunks off its channel; what it was given stays. */
  lemma {:induction false} WorkKeepsStreams(depth: nat, s: State, i: nat, m: Move)
    requires Sound(s) && Enabled(depth, s, Work(i, m))
    ensures var t := Apply(depth, s, Work(i, m));
            |t.workers| == |s.workers| && forall j :: 0 <= j < |s.workers| ==> Stream(t.workers[j]) == Stream(s.workers[j])
  {
    MoveOk(s.workers[i], m, Offered(s, i), ChanClosed(s, i));
  }

  /** A step of the caller gives at most the chunk being written, to the sink the loop stands at. */
  lemma {:induction false} CallerStreams(depth: nat, s: State, a: Step)
    requires Sound(s) && Enabled(depth, s, a) && !a.Work?
    ensures var t := Apply(depth, s, a);
            && |t.workers| == |s.workers|
            && (forall j :: 0 <= j < |s.workers| && !((a.Send? || a.Handoff?) && j == s.caller.i) ==>
                  Stream(t.workers[j]) == Stream(s.workers[j]))
            && (a.Send? || a.Handoff? ==>
                  Stream(t.workers[s.caller.i]) == Stream(s.workers[s.caller.i]) + [s.caller.chunk])
  {
    if a.Send? || a.Handoff? {
      assert WorkerOk(s.workers[s.caller.i], s.accepted, false);
      DeliveryOk(s.workers[s.caller.i], Apply(depth, s, a).workers[s.caller.i], s.caller.chunk, s.accepted);
    }
  }

  lemma {:induction false} SameStreams(s: State, t: State, chunks: seq<Bytes>)
    requires |t.workers| == |s.workers|
    requires forall j :: 0 <= j < |s.workers| ==> Stream(t.workers[j]) == Stream(s.workers[j])
    ensures SomeoneWasGiven(s, chunks) <==> SomeoneWasGiven(t, chunks)
  {
    if j :| 0 <= j < |s.workers| && Stream(s.workers[j]) == chunks {
      assert Stream(t.workers[j]) == chunks;
    }
    if j :| 0 <= j < |t.workers| && Stream(t.workers[j]) == chunks {
      assert Stream(s.workers[j]) == chunks;
    }
  }

  lemma {:induction false} StepKeepsDelivered(depth: nat, s: State, a: Step)
    requires Inv(s) && Enabled(depth, s, a)
    ensures Delivered(Apply(depth, s, a))
  {
    var t := Apply(depth, s, a);
    if a.Work? {
      WorkKeepsStreams(depth, s, a.i, a.move);
      SameStreams(s, t, Current(s));
    } else {
      CallerStreams(depth, s, a);
      if a.Send? || a.Handoff? {
        assert WorkerOk(s.workers[s.caller.i], s.accepted, false);
        assert Stream(t.workers[s.caller.i]) == s.accepted + [s.caller.chunk];
      } else {
        SameStreams(s, t, Current(s));
      }
    }
  }

  /** The chunks that someone must have been given. */
  function Current(s: State): seq<Bytes> {
    if InWrite(s) && s.caller.live > 0 then s.accepted + [s.caller.chunk] else s.accepted
  }

  lemma {:induction false} StepKeepsInv(depth: nat, s: State, a: Step)
    requires Inv(s) && Enabled(depth, s, a)
    ensures Inv(Apply(depth, s, a))
  {
    StepKeepsSound(depth, s, a);
    StepKeepsDelivered(depth, s, a);
  }

  /** The invariant holds after every schedule and every pattern of sink failures. */
  lemma {:induction false} RunKeepsInv(depth: nat, s: State, steps: seq<Step>)
    requires Inv(s) && Runs(depth, s, steps)
    ensures Inv(Exec(depth, s, steps))
    decreases |steps|
  {
    if steps != [] {
      StepKeepsInv(depth, s, steps[0]);
      RunKeepsInv(depth, Apply(depth, s, steps[0]), steps[1..]);
    }
  }

  // ------------------------------------------------------------------- safety

  /**
   In every reachable state each sink holds a prefix of the accepted stream (plus the
   chunk being written), and channel plus goroutine never reorder, drop or duplicate
   a chunk for a sink the writer still holds.
   */
  lemma {:induction false} SinksHoldPrefixes(depth: nat, present: seq<bool>, steps: seq<Step>, i: nat)
    requires Runs(depth, Init(present), steps) && i < |present|
    ensures var s := Exec(depth, Init(present), steps);
            && |s.workers| == |present|
            && s.workers[i].got <= Flatten(Offered(s, i))
            && Stream(s.workers[i]) <= Offered(s, i)
            && (s.workers[i].open ==> Stream(s.workers[i]) == Offered(s, i))
  {
    InitOk(present);
    RunKeepsInv(depth, Init(present), steps);
    RunKeepsWidth(depth, Init(present), steps);
    var s := Exec(depth, Init(present), steps);
    FlattenPrefix(s.workers[i].taken, Stream(s.workers[i]));
    FlattenPrefix(Stream(s.workers[i]), Offered(s, i));
  }

  /**
   A Write that nobody took is not reported as accepted: after every schedule, with no call in
   progress, some one sink was given every accepted chunk, in order and nothing else.
   */
  lemma {:induction false} AcceptedWasGiven(depth: nat, present: seq<bool>, steps: seq<Step>)
    requires Runs(depth, Init(present), steps) && AtRest(Exec(depth, Init(present), steps))
    ensures var s := Exec(depth, Init(present), steps);
            s.accepted == [] || exists j :: 0 <= j < |s.workers| && Stream(s.workers[j]) == s.accepted
  {
    InitOk(present);
    RunKeepsInv(depth, Init(present), steps);
  }

  lemma {:induction false} RunKeepsWidth(depth: nat, s: State, steps: seq<Step>)
    requires Runs(depth, s, steps)
    ensures |Exec(depth, s, steps).workers| == |s.workers|
    decreases |steps|
  {
    if steps != [] {
      RunKeepsWidth(depth, Apply(depth, s, steps[0]), steps[1..]);
    }
  }

  /**
   After Close: Close reported success exactly when some sink is clean; a clean sink
   received exactly the concatenation of every chunk written, closed cleanly, and no
   Write call was refused; a sink is reported failed exactly when it was nil, one of its
   writes failed or its close failed.
   */
  lemma {:induction false} CleanSinkHoldsEverything(depth: nat, present: seq<bool>, steps: seq<Step>)
    requires Runs(depth, Init(present), steps)
    requires Exec(depth, Init(present), steps).caller.Done?
    ensures var s := Exec(depth, Init(present), steps);
            && |s.workers| == |present|
            && (s.caller.ok <==> exists i :: 0 <= i < |present| && Clean(s, i))
            && (s.accepted == [] || exists i :: 0 <= i < |present| && Stream(s.workers[i]) == s.accepted)
            && forall i :: 0 <= i < |present| ==>
                 && (Clean(s, i) ==>
                       && s.workers[i].got == Flatten(s.issued)
                       && s.accepted == s.issued
                       && s.workers[i].closedClean)
                 && (!Clean(s, i) <==> s.workers[i].absent || s.workers[i].failed || !s.workers[i].closedClean)
                 && s.workers[i].got <= Flatten(s.accepted)
  {
    var s := Exec(depth, Init(present), steps);
    InitOk(present);
    RunKeepsInv(depth, Init(present), steps);
    RunKeepsWidth(depth, Init(present), steps);
    forall i | 0 <= i < |present|
      ensures Clean(s, i) ==>
                s.workers[i].got == Flatten(s.issued) && s.accepted == s.issued && s.workers[i].closedClean
      ensures !Clean(s, i) <==> s.workers[i].absent || s.workers[i].failed || !s.workers[i].closedClean
      ensures s.workers[i].got <= Flatten(s.accepted)
    {
      var w := s.workers[i];
      assert WorkerOk(w, Offered(s, i), ChanClosed(s, i));
      FlattenPrefix(w.taken, Stream(w));
      FlattenPrefix(Stream(w), s.accepted);
      if Clean(s, i) {
        assert Stream(w) == w.taken;
      }
    }
    assert s.caller.ok ==> exists i :: 0 <= i < |present| && Clean(s, i) by {
      if s.caller.ok {
        var j :| 0 <= j < |s.workers| && !s.workers[j].err;
        assert Clean(s, j);
      }
    }
  }

  // ----------------------------------------------------------------- progress

  /** A step that is not the start of a new call. */
  predicate Internal(a: Step) { !a.BeginWrite? && !a.BeginClose? }

  /** No call is in progress. */
  predicate AtRest(s: State) { s.caller.Ready? || s.caller.Done? }

  /** A goroutine that has not exited and is not waiting for input can move. */
  lemma {:induction false} WorkerCanMove(w: Worker, offered: seq<Bytes>, closed: bool)
    requires WorkerOk(w, offered, closed) && !w.phase.Exited?
    requires w.phase.Receiving? ==> w.queue != [] || w.eof
    ensures exists m :: CanMove(w, m)
  {
    var m := match w.phase
             case Receiving => if w.queue != [] then Receive else LeaveLoop
             case Writing(_) => WriteOk
             case Signalling => Signal
             case _ => CloseOk;
    assert CanMove(w, m);
  }

  /** No deadlock: while a call is in progress some internal step is enabled. */
  lemma {:induction false} NeverStuck(depth: nat, s: State) returns (a: Step)
    requires Inv(s) && !AtRest(s)
    ensures Internal(a) && Enabled(depth, s, a)
  {
    match s.caller
    case Probing(_, _, _) => a := Probe;
    case Shutting(_) => a := CloseChan;
    case Sending(_, i, _) =>
      var w := s.workers[i];
      assert WorkerOk(w, Offered(s, i), ChanClosed(s, i));
      if w.signalled {
        a := SeeFail;
      } else if |w.queue| < depth {
        a := Send;
      } else if w.phase.Receiving? && w.queue == [] {
        a := Handoff;
      } else {
        WorkerCanMove(w, Offered(s, i), ChanClosed(s, i));
        var m :| CanMove(w, m);
        a := Work(i, m);
      }
    case Waiting =>
      if forall i :: 0 <= i < |s.workers| ==> s.workers[i].phase.Exited? {
        a := Join;
      } else {
        var i :| 0 <= i < |s.workers| && !s.workers[i].phase.Exited?;
        WorkerCanMove(s.workers[i], Offered(s, i), ChanClosed(s, i));
        var m :| CanMove(s.workers[i], m);
        a := Work(i, m);
      }
  }

  function PhaseRank(p: Phase): nat {
    match p
    case Writing(_) => 4
    case Signalling => 3
    case Receiving => 2
    case Closing => 1
    case Exited => 0
  }

  /** Work left for one goroutine: each queued chunk is worth more than taking and writing it. */
  function WorkerRank(w: Worker): nat { 3 * |w.queue| + PhaseRank(w.phase) }

  function WorkersRank(ws: seq<Worker>): nat {
    if ws == [] then 0 else WorkersRank(ws[..|ws| - 1]) + WorkerRank(ws[|ws| - 1])
  }

  function CallerRank(s: State): nat
    requires PositionOk(s)
  {
    match s.caller
    case Ready => 0
    case Probing(_, i, _) => 5 * (|s.workers| - i) + 1
    case Sending(_, i, _) => 5 * (|s.workers| - i)
    case Shutting(i) => |s.workers| - i + 2
    case Waiting => 1
    case Done(_) => 0
  }

  function Rank(s: State): nat
    requires PositionOk(s)
  {
    CallerRank(s) + WorkersRank(s.workers)
  }

  lemma {:induction false} RankUpdate(ws: seq<Worker>, i: nat, w: Worker)
    requires i < |ws|
    ensures WorkersRank(ws[i := w]) == WorkersRank(ws) - WorkerRank(ws[i]) + WorkerRank(w)
    decreases |ws|
  {
    var n := |ws| - 1;
    if i == n {
      assert ws[i := w][..n] == ws[..n];
    } else {
      assert ws[i := w][..n] == ws[..n][i := w];
      RankUpdate(ws[..n], i, w);
    }
  }

  lemma {:induction false} MoveLowersRank(w: Worker, m: Move)
    requires CanMove(w, m)
    ensures WorkerRank(Moved(w, m)) < WorkerRank(w)
  {
  }

  /** A caller step inside Write pays for the chunk it may enqueue. */
  lemma {:induction false} WriteStepLowersRank(depth: nat, s: State, a: Step)
    requires PositionOk(s) && Enabled(depth, s, a) && InWrite(s) && !a.Work?
    requires PositionOk(Apply(depth, s, a))
    ensures Rank(Apply(depth, s, a)) < Rank(s)
  {
    var t, i := Apply(depth, s, a), s.caller.i;
    if i < |s.workers| {
      RankUpdate(s.workers, i, t.workers[i]);
      assert t.workers == s.workers[i := t.workers[i]];
      assert WorkerRank(t.workers[i]) <= WorkerRank(s.workers[i]) + 3;
    }
  }

  /** Every internal step, whoever takes it, strictly lowers the rank. */
  lemma {:induction false} StepLowersRank(depth: nat, s: State, a: Step)
    requires Inv(s) && Enabled(depth, s, a) && Internal(a)
    ensures Inv(Apply(depth, s, a)) && Rank(Apply(depth, s, a)) < Rank(s)
  {
    StepKeepsInv(depth, s, a);
    match a
    case Work(i, m) =>
      MoveLowersRank(s.workers[i], m);
      RankUpdate(s.workers, i, Moved(s.workers[i], m));
    case CloseChan =>
      var i, t := s.caller.i, Apply(depth, s, a);
      if i < |s.workers| {
        RankUpdate(s.workers, i, t.workers[i]);
        assert t.workers == s.workers[i := t.workers[i]];
      }
    case Join =>
    case _ => WriteStepLowersRank(depth, s, a);
  }

  /**
   A call in progress finishes under every scheduler: a schedule without new calls is
   never longer than the rank of its first state, and one that cannot be extended ends
   with the call returned.
   */
  lemma {:induction false} CallsFinish(depth: nat, s: State, steps: seq<Step>)
    requires Inv(s) && Runs(depth, s, steps)
    requires forall k :: 0 <= k < |steps| ==> Internal(steps[k])
    ensures |steps| <= Rank(s)
    ensures (forall a :: Internal(a) ==> !Enabled(depth, Exec(depth, s, steps), a)) ==> AtRest(Exec(depth, s, steps))
    decreases |steps|
  {
    if steps == [] {
      if !AtRest(s) {
        var a := NeverStuck(depth, s);
      }
    } else {
      StepLowersRank(depth, s, steps[0]);
      CallsFinish(depth, Apply(depth, s, steps[0]), steps[1..]);
    }
  }
}
