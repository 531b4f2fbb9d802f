/**
 * The automatic phase sweep run by the auto-transition endpoint: every
 * chapter whose running phase has reached its end moves on by exactly one
 * phase, and the document is written back only when something moved.
 */
module AutoTransition {
  import opened Model
  import opened ChapterStore
  import opened TimerUtils

  /** The end of the running phase the sweep compares against: deadline first, else the stamped end time. */
  function EffectiveEnd(c: Chapter): (r: Option<Millis>)
    ensures c.status == ContributionPhase ==> r == PreferDeadline(c.contributionDeadline, c.contributionEndTime)
    ensures c.status == DistributionPhase ==> r == PreferDeadline(c.distributionDeadline, c.distributionEndTime)
    ensures c.status in {Setup, Finished} ==> r.None?
  {
    match c.status
    case ContributionPhase => PreferDeadline(c.contributionDeadline, c.contributionEndTime)
    case DistributionPhase => PreferDeadline(c.distributionDeadline, c.distributionEndTime)
    case _ => None
  }

  /** A chapter is due when it is in a timed phase whose effective end is known and reached. */
  predicate Due(c: Chapter, now: Millis)
  {
    EffectiveEnd(c).Some? && now >= EffectiveEnd(c).value
  }

  /** The phase a due chapter moves on to. */
  function NextPhase(s: Status): Status
  {
    match s
    case Setup => Setup
    case ContributionPhase => DistributionPhase
    case DistributionPhase => Finished
    case Finished => Finished
  }

  /** The position of a phase in the lifecycle. */
  function Rank(s: Status): (n: nat)
    ensures n <= 3
  {
    match s
    case Setup => 0
    case ContributionPhase => 1
    case DistributionPhase => 2
    case Finished => 3
  }

  /**
   * One chapter's turn of the sweep. A chapter that is not due is left
   * alone. A due contribution chapter becomes a distribution chapter with
   * its distribution end stamped exactly as a manual move would, except
   * that the start time is never filled in; a due distribution chapter is
   * finished exactly as a manual move would.
   */
  function SweepOne(c: Chapter, now: Millis): (r: Chapter)
    ensures !Due(c, now) ==> r == c
    ensures Due(c, now) ==> r.status == NextPhase(c.status) && r.status != c.status
    ensures Due(c, now) && c.status == ContributionPhase ==>
      r == ApplyStatus(c, DistributionPhase, now).(startTime := c.startTime)
    ensures Due(c, now) && c.status == DistributionPhase ==> r == ApplyStatus(c, Finished, now)
  {
    if c.status == ContributionPhase then
      var end := if c.contributionDeadline.Some? then c.contributionDeadline else c.contributionEndTime;
      if end.Some? && now >= end.value then
        c.(status := DistributionPhase,
           distributionEndTime :=
             if c.distributionDeadline.Some? then c.distributionDeadline
             else Some(now + DurationOr(c.distributionDuration, DefaultDistributionDuration)))
      else c
    else if c.status == DistributionPhase then
      var end := if c.distributionDeadline.Some? then c.distributionDeadline else c.distributionEndTime;
      if end.Some? && now >= end.value then c.(status := Finished, endTime := Some(now))
      else c
    else c
  }

  /** The whole document after a sweep, chapter by chapter. */
  function SweepAll(cs: seq<Chapter>, now: Millis): seq<Chapter>
  {
    seq(|cs|, i requires 0 <= i < |cs| => SweepOne(cs[i], now))
  }

  /** Some chapter of the document is due. */
  predicate AnyDue(cs: seq<Chapter>, now: Millis)
  {
    exists i :: 0 <= i < |cs| && Due(cs[i], now)
  }

  /**
   * The loop of the endpoint: visits the chapters in order, moves each due
   * one on, and reports whether anything moved.
   */
  method Sweep(epochs: seq<Chapter>, now: Millis) returns (swept: seq<Chapter>, updated: bool)
    ensures |swept| == |epochs|
    ensures forall i :: 0 <= i < |epochs| ==> swept[i] == SweepOne(epochs[i], now)
    ensures updated <==> AnyDue(epochs, now)
    ensures updated <==> swept != epochs
  {
    swept := epochs;
    updated := false;
    for i := 0 to |epochs|
      invariant |swept| == |epochs|
      invariant forall j :: 0 <= j < i ==> swept[j] == SweepOne(epochs[j], now)
      invariant forall j :: i <= j < |epochs| ==> swept[j] == epochs[j]
      invariant updated <==> exists j :: 0 <= j < i && Due(epochs[j], now)
    {
      var epoch := swept[i];
      if epoch.status == ContributionPhase {
        var end := if epoch.contributionDeadline.Some? then epoch.contributionDeadline else epoch.contributionEndTime;
        if end.Some? && now >= end.value {
          epoch := epoch.(status := DistributionPhase);
          if epoch.distributionDeadline.Some? {
            epoch := epoch.(distributionEndTime := epoch.distributionDeadline);
          } else {
            epoch := epoch.(distributionEndTime :=
              Some(now + DurationOr(epoch.distributionDuration, DefaultDistributionDuration)));
          }
          updated := true;
        }
      } else if epoch.status == DistributionPhase {
        var end := if epoch.distributionDeadline.Some? then epoch.distributionDeadline else epoch.distributionEndTime;
        if end.Some? && now >= end.value {
          epoch := epoch.(status := Finished, endTime := Some(now));
          updated := true;
        }
      }
      swept := swept[i := epoch];
    }
    if updated {
      var k :| 0 <= k < |epochs| && Due(epochs[k], now);
      assert swept[k] != epochs[k];
    } else {
      assert swept == epochs;
    }
  }

  datatype Response = Response(status: int, updated: bool)

  /**
   * The endpoint: 405 for anything but POST; otherwise one sweep, the
   * chapters written back only when some chapter moved, and 200 with the
   * `updated` flag.
   */
  method HandleAutoTransition(db: Database, httpMethod: string, now: Millis) returns (resp: Response)
    modifies db
    ensures httpMethod != "POST" ==> resp.status == 405 && db.epochs == old(db.epochs)
    ensures httpMethod == "POST" ==>
      && resp.status == 200
      && (resp.updated <==> AnyDue(old(db.epochs), now))
      && db.epochs == SweepAll(old(db.epochs), now)
    ensures db.participants == old(db.participants) && db.contributions == old(db.contributions)
    ensures db.comments == old(db.comments) && db.distributions == old(db.distributions)
  {
    if httpMethod != "POST" {
      return Response(405, false);
    }
    var swept, updated := Sweep(db.epochs, now);
    if updated {
      db.epochs := swept;
    }
    return Response(200, updated);
  }

  /** Only chapters in a timed phase are ever touched, and a touched chapter moves forward by exactly one phase. */
  lemma SweepOneMovesForwardOnce(c: Chapter, now: Millis)
    ensures c.status in {Setup, Finished} ==> SweepOne(c, now) == c
    ensures SweepOne(c, now) != c ==> Rank(SweepOne(c, now).status) == Rank(c.status) + 1
    ensures Rank(c.status) <= Rank(SweepOne(c, now).status)
  {
  }

  /** A sweep agrees with the countdown: a chapter is due exactly when its timer shows expired. */
  lemma DueIffCountdownExpired(c: Chapter, now: Millis)
    ensures Due(c, now) <==>
      GetPhaseEndTime(Some(c)).Some? && GetRemainingTime(GetPhaseEndTime(Some(c)).value, now).isExpired
  {
  }

  /**
   * Sweeping is not idempotent: one chapter whose two deadlines have both
   * passed needs two sweeps to finish.
   */
  lemma SweepNotIdempotent()
    ensures var c := Chapter("c", "t", None, None, Some(0), Some(0), [], ContributionPhase,
                             Some(0), None, Some(0), None, 0);
      && SweepOne(c, 10).status == DistributionPhase
      && SweepOne(SweepOne(c, 10), 10).status == Finished
  {
  }

  /**
   * Repeated sweeps at one instant settle after two: the second sweep can
   * only finish a chapter, and a third changes nothing.
   */
  lemma {:induction false} SweepSettlesAfterTwo(c: Chapter, now: Millis)
    ensures SweepOne(SweepOne(c, now), now) != SweepOne(c, now) ==>
      SweepOne(SweepOne(c, now), now).status == Finished
    ensures SweepOne(SweepOne(SweepOne(c, now), now), now) == SweepOne(SweepOne(c, now), now)
  {
    var once := SweepOne(c, now);
    SweepOneMovesForwardOnce(c, now);
    SweepOneMovesForwardOnce(once, now);
    SweepOneMovesForwardOnce(SweepOne(once, now), now);
  }
}
