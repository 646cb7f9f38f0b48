/**
 Waiting for the WAL of a backup: internal/backup/wallag.go. The archive changes while the loop
 polls it, so the listing of the timeline's directory is a function of the clock.
 */
module WalWait {
  import opened Common
  import opened Wal
  import opened Archive

  type History = nat -> Listing

  /** The segment was found by a lookup made between the two instants. */
  ghost predicate Seen(h: History, tli: Timeline, seg: string, from: nat, to: nat) {
    exists t: nat :: from <= t <= to && FoundAt(h, tli, seg, t)
  }

  predicate FoundAt(h: History, tli: Timeline, seg: string, t: nat) {
    h(t).Listed? && LookupIn(h(t).paths, tli, seg).Found?
  }

  /** The listing did not show the segment, or ended in "not found" because an entry vanished. */
  predicate MissingAt(h: History, tli: Timeline, seg: string, t: nat) {
    h(t).NotFound? || (h(t).Listed? && LookupIn(h(t).paths, tli, seg).Missing?)
  }

  ghost predicate Unseen(h: History, tli: Timeline, seg: string, from: nat, to: nat) {
    exists t: nat :: from <= t <= to && MissingAt(h, tli, seg, t)
  }

  /** missingSegments: one lookup per segment, the first error ends the round. */
  method MissingSegments(h: History, now: nat, tli: Timeline, segments: seq<string>)
    returns (missing: Option<seq<string>>, end: nat)
    ensures end == now + |segments|
    ensures missing.Some? ==>
      && (forall s :: s in segments ==> s in missing.value || Seen(h, tli, s, now, end))
      && (forall s :: s in missing.value ==> s in segments && Unseen(h, tli, s, now, end))
    ensures (forall t: nat, s :: now <= t <= end && s in segments ==> FoundAt(h, tli, s, t)) ==> missing == Some([])
  {
    var out := [];
    end := now;
    missing := None;
    for i := 0 to |segments|
      invariant end == now + i
      invariant forall k :: 0 <= k < i ==> segments[k] in out || Seen(h, tli, segments[k], now, end)
      invariant forall s :: s in out ==> s in segments && Unseen(h, tli, s, now, end)
      invariant out != [] ==> exists t: nat, s :: now <= t <= now + |segments| && s in segments && !FoundAt(h, tli, s, t)
    {
      var r := FindSegment(h(end), tli, segments[i]);
      if r.Mismatch? || r.ListFailed? {
        assert !FoundAt(h, tli, segments[i], end) && segments[i] in segments;
        end := now + |segments|;
        return;
      }
      if r.Missing? {
        assert MissingAt(h, tli, segments[i], end) && !FoundAt(h, tli, segments[i], end);
        out := out + [segments[i]];
      } else {
        assert FoundAt(h, tli, segments[i], end);
      }
      end := end + 1;
    }
    missing := Some(out);
  }

  datatype Wait = Arrived | TimedOut(missing: seq<string>) | LookupFailed | Cancelled

  /** WaitForWAL: poll with doubling pauses until nothing is missing or the deadline has passed. */
  method WaitForWAL(h: History, cancelled: nat -> bool, start: nat, timeout: nat, tli: Timeline, segments: seq<string>)
    returns (r: Wait, end: nat)
    ensures start <= end
    ensures r.Arrived? ==> forall s :: s in segments ==> Seen(h, tli, s, start, end)
    ensures r.TimedOut? ==>
      && r.missing != [] && end > start + timeout
      && forall s :: s in r.missing ==> s in segments && Unseen(h, tli, s, start, end)
    ensures (forall t: nat, s :: start <= t && s in segments ==> FoundAt(h, tli, s, t)) ==> r.Arrived?
  {
    end := start;
    if segments == [] {
      return Arrived, end;
    }
    var deadline, delay := start + timeout, 50;
    while true
      invariant start <= end && delay > 0
      invariant end > start ==> exists t: nat, s :: start <= t && s in segments && !FoundAt(h, tli, s, t)
      decreases deadline - end
    {
      var missing, now := MissingSegments(h, end, tli, segments);
      assert missing != Some([]) ==>
          exists t: nat, s :: start <= t && s in segments && !FoundAt(h, tli, s, t);
      end := now;
      if missing.None? {
        return LookupFailed, end;
      }
      if missing.value == [] {
        return Arrived, end;
      }
      if end > deadline {
        return TimedOut(missing.value), end;
      }
      if cancelled(end) {
        return Cancelled, end;
      }
      end := end + delay;
      if delay < 2000 {
        delay := delay * 2;
      }
    }
  }
}
