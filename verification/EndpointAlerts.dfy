/**
  Endpoint verification: tracking how long a peer's observed endpoint has differed
  from the registered one (internal/endpoint/checker.go).
 */
module EndpointAlerts {
  import opened Common

  type Time = int   // nanoseconds

  const MINUTE: Time := 60 * 1_000_000_000

  /** `endpoint_mismatch_since` and `bgp_suspended_by_endpoint`. */
  datatype Track = Track(since: Option<Time>, suspended: bool)

  /** What comparing the two endpoints gave; Skipped if one is empty or cannot be
      resolved. */
  datatype Finding = Skipped | Match | Mismatch

  datatype Notice = Silent | MismatchNotice | RecoveryNotice

  /** One check of a peer, and whether the resume command, and each of the row
      writes it may make, goes through. */
  datatype Check = Check(
    finding: Finding, at: Time, threshold: nat, resumed: bool,
    flagCleared: bool, sinceCleared: bool, sinceSet: bool)

  class EndpointTracker {
    var since: Option<Time>
    var suspended: bool

    constructor (since: Option<Time>, suspended: bool)
      ensures this.since == since && this.suspended == suspended
    {
      this.since, this.suspended := since, suspended;
    }

    method CheckPeer(c: Check) returns (notice: Notice)
      modifies this
      ensures (Track(since, suspended), notice) == Step(old(Track(since, suspended)), c)
    {
      notice := Silent;
      match c.finding
      case Skipped =>
      case Match => notice := HandleMatch(c);
      case Mismatch => notice := HandleMismatch(c);
    }

    method HandleMatch(c: Check) returns (notice: Notice)
      requires c.finding.Match?
      modifies this
      ensures (Track(since, suspended), notice) == Step(old(Track(since, suspended)), c)
    {
      if since.None? {
        return Silent;
      }
      if suspended {
        if !c.resumed {
          return Silent;
        }
        if c.flagCleared {
          suspended := false;
        }
      }
      if c.sinceCleared {
        since := None;
      }
      return RecoveryNotice;
    }

    method HandleMismatch(c: Check) returns (notice: Notice)
      requires c.finding.Mismatch?
      modifies this
      ensures (Track(since, suspended), notice) == Step(old(Track(since, suspended)), c)
    {
      if since.None? {
        if c.sinceSet {
          since := Some(c.at);
        }
        return Silent;
      }
      if c.at - since.value < c.threshold * MINUTE {
        return Silent;
      }
      if suspended {
        return Silent;
      }
      return MismatchNotice;
    }
  }

  function Step(t: Track, c: Check): (Track, Notice) {
    match c.finding
    case Skipped => (t, Silent)
    case Match =>
      if t.since.None? || (t.suspended && !c.resumed) then (t, Silent)
      else (Track(if c.sinceCleared then None else t.since,
                  if t.suspended && c.flagCleared then false else t.suspended), RecoveryNotice)
    case Mismatch =>
      if t.since.None? then (if c.sinceSet then t.(since := Some(c.at)) else t, Silent)
      else if c.at - t.since.value < c.threshold * MINUTE || t.suspended then (t, Silent)
      else (t, MismatchNotice)
  }

  // ----- Over every run of checks --------------------------------------------------------------

  predicate Orderly(cs: seq<Check>, now: Time) {
    cs == [] || (now <= cs[0].at && cs[0].flagCleared && cs[0].sinceCleared && cs[0].sinceSet
                 && Orderly(cs[1..], cs[0].at))
  }

  function Notices(t: Track, cs: seq<Check>): (ns: seq<Notice>)
    ensures |ns| == |cs|
    decreases |cs|
  {
    if cs == [] then []
    else var (z, n) := Step(t, cs[0]); [n] + Notices(z, cs[1..])
  }

  function Final(t: Track, cs: seq<Check>): Track
    decreases |cs|
  {
    if cs == [] then t else Final(Step(t, cs[0]).0, cs[1..])
  }

  /** `i` is a mismatch, and no completed comparison from there up to `j` matched. */
  predicate Standing(cs: seq<Check>, i: int, j: int)
    requires 0 <= j <= |cs|
  {
    0 <= i < j && cs[i].finding.Mismatch? && forall k :: i <= k < j ==> !cs[k].finding.Match?
  }

  /** What the row says after `j` checks: the time of the earliest standing
      mismatch, if there is one. */
  ghost predicate Tracks(cs: seq<Check>, j: int, t: Track)
    requires 0 <= j <= |cs|
  {
    && !t.suspended
    && (t.since.None? ==> forall i :: !Standing(cs, i, j))
    && (t.since.Some? ==>
          && (exists i :: Standing(cs, i, j) && cs[i].at == t.since.value)
          && (forall i :: Standing(cs, i, j) ==> t.since.value <= cs[i].at))
  }

  lemma {:induction false} OrderlyTimes(cs: seq<Check>, now: Time, i: nat, j: nat)
    requires Orderly(cs, now) && i <= j < |cs|
    ensures now <= cs[i].at <= cs[j].at && cs[i].sinceSet && cs[i].sinceCleared
    decreases |cs|
  {
    if i == 0 && j > 0 {
      OrderlyTimes(cs[1..], cs[0].at, 0, j - 1);
    } else if i > 0 {
      OrderlyTimes(cs[1..], cs[0].at, i - 1, j - 1);
    }
  }

  lemma {:induction false} StepTracks(cs: seq<Check>, now: Time, j: nat, t: Track)
    requires Orderly(cs, now) && j < |cs| && Tracks(cs, j, t)
    ensures Tracks(cs, j + 1, Step(t, cs[j]).0)
  {
    OrderlyTimes(cs, now, j, j);
    forall i | Standing(cs, i, j)
      ensures cs[i].at <= cs[j].at
    {
      OrderlyTimes(cs, now, i, j);
    }
    var next, z := j + 1, Step(t, cs[j]).0;
    assert forall i :: Standing(cs, i, next) ==> Standing(cs, i, j) || i == j;
    assert !cs[j].finding.Match? ==> forall i :: Standing(cs, i, j) ==> Standing(cs, i, next);
    assert cs[j].finding.Mismatch? ==> Standing(cs, j, next);
    assert cs[j].finding.Match? ==> forall i :: !Standing(cs, i, next);
    if !cs[j].finding.Match? && t.since.Some? {
      var i :| Standing(cs, i, j) && cs[i].at == t.since.value;
      assert Standing(cs, i, next);
    }
    assert Tracks(cs, next, z);
  }

  lemma {:induction false} FinalExtends(t: Track, cs: seq<Check>, j: nat)
    requires j < |cs|
    ensures Final(t, cs[..j + 1]) == Step(Final(t, cs[..j]), cs[j]).0
    ensures Notices(t, cs)[j] == Step(Final(t, cs[..j]), cs[j]).1
    decreases |cs|
  {
    if j == 0 {
      assert cs[..1][1..] == [];
    } else {
      FinalExtends(Step(t, cs[0]).0, cs[1..], j - 1);
      assert cs[..j + 1][1..] == cs[1..][..j] && cs[..j][1..] == cs[1..][..j - 1];
    }
  }

  lemma {:induction false} RunsTrack(cs: seq<Check>, now: Time, j: nat)
    requires Orderly(cs, now) && j <= |cs|
    ensures Tracks(cs, j, Final(Track(None, false), cs[..j]))
  {
    if j == 0 {
      assert cs[..0] == [];
    } else {
      RunsTrack(cs, now, j - 1);
      FinalExtends(Track(None, false), cs, j - 1);
      StepTracks(cs, now, j - 1, Final(Track(None, false), cs[..j - 1]));
    }
  }

  /** For a peer that starts without a recorded mismatch, if row writes succeed: a
      mismatch notice is sent exactly at a mismatch that has stood for at least the
      threshold with no matching comparison in between, and a recovery notice
      exactly at a match that ends a standing mismatch. */
  lemma NoticesAreExact(cs: seq<Check>, start: Time, j: nat)
    requires Orderly(cs, start) && j < |cs|
    ensures var n := Notices(Track(None, false), cs)[j];
      && (n.MismatchNotice? <==>
            && cs[j].finding.Mismatch?
            && exists i :: Standing(cs, i, j) && cs[j].at - cs[i].at >= cs[j].threshold * MINUTE)
      && (n.RecoveryNotice? <==> cs[j].finding.Match? && exists i :: Standing(cs, i, j))
  {
    RunsTrack(cs, start, j);
    FinalExtends(Track(None, false), cs, j);
  }

  /** While a suspended peer cannot be resumed, nothing is announced and the
      mismatch stays open, however many checks pass. */
  lemma {:induction false} FailedResumeStaysOpen(t: Track, cs: seq<Check>)
    requires t.since.Some? && t.suspended && forall k :: 0 <= k < |cs| ==> !cs[k].resumed
    ensures forall k :: 0 <= k < |cs| ==> Notices(t, cs)[k].Silent?
    ensures Final(t, cs) == t
    decreases |cs|
  {
    if cs != [] {
      FailedResumeStaysOpen(t, cs[1..]);
    }
  }

  /** A peer left suspended by earlier releases stays silent and suspended until a
      match at which an open mismatch is resumed.  That match is announced and
      leaves the state from which `NoticesAreExact` describes the rest. */
  lemma {:induction false} SuspendedUntilResumed(t: Track, cs: seq<Check>, now: Time) returns (k: nat)
    requires Orderly(cs, now) && t.suspended
    ensures k <= |cs| && Final(t, cs[..k]).suspended
    ensures forall i :: 0 <= i < k ==> Notices(t, cs)[i].Silent?
    ensures k < |cs| ==>
      && cs[k].finding.Match? && cs[k].resumed && Final(t, cs[..k]).since.Some?
      && Notices(t, cs)[k].RecoveryNotice?
      && Notices(t, cs)[k + 1..] == Notices(Track(None, false), cs[k + 1..])
    decreases |cs|
  {
    if cs == [] || Step(t, cs[0]).1.RecoveryNotice? {
      k := 0;
      assert cs[..0] == [];
    } else {
      var z := Step(t, cs[0]).0;
      var rest := SuspendedUntilResumed(z, cs[1..], cs[0].at);
      k := rest + 1;
      assert cs[..k][1..] == cs[1..][..rest];
      assert cs[k..] == cs[1..][rest..];
      assert k < |cs| ==> cs[k + 1..] == cs[1..][rest + 1..];
      assert Notices(t, cs)[1..] == Notices(z, cs[1..]);
      assert k < |cs| ==> Notices(t, cs)[k + 1..] == Notices(z, cs[1..])[rest + 1..];
    }
  }
}
