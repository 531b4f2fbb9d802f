/**
 * The countdown helpers behind every phase timer: the remaining time split
 * into hours, minutes and seconds, its display string, and the end of the
 * running phase. The current time is a parameter.
 */
module TimerUtils {
  import opened Model
  import opened Text
  import opened ChapterStore

  datatype Remaining = Remaining(total: int, hours: nat, minutes: nat, seconds: nat, isExpired: bool)

  /** Division by one minute pins the quotient and the remainder. */
  lemma DivModMinute(t: int, q: int, r: int)
    requires 0 <= r < 60000 && t == q * 60000 + r
    ensures t % 60000 == r
  {
  }

  /**
   * `getRemainingTime`: expired (and all zero) once the end is reached;
   * otherwise the positive remainder split into whole hours, minutes below
   * 60 and seconds below 60, which add up to the remainder to within one
   * second.
   */
  function GetRemainingTime(end: Millis, now: Millis): (r: Remaining)
    ensures r.isExpired <==> end <= now
    ensures r.isExpired ==> r == Remaining(0, 0, 0, 0, true)
    ensures !r.isExpired ==>
      && r.total == end - now
      && r.minutes < 60 && r.seconds < 60
      && r.hours * MsPerHour + r.minutes * MsPerMinute + r.seconds * MsPerSecond <= r.total
      && r.total < r.hours * MsPerHour + r.minutes * MsPerMinute + (r.seconds + 1) * MsPerSecond
  {
    var total := end - now;
    if total <= 0 then Remaining(0, 0, 0, 0, true)
    else
      var hours := total / (1000 * 60 * 60);
      var minutes := (total % (1000 * 60 * 60)) / (1000 * 60);
      var seconds := (total % (1000 * 60)) / 1000;
      var rh := total % (1000 * 60 * 60);
      var rm := rh % (1000 * 60);
      assert rh == minutes * 60000 + rm;
      assert total == (hours * 60 + minutes) * 60000 + rm;
      DivModMinute(total, hours * 60 + minutes, rm);
      assert 0 <= rh < 3600000;
      assert minutes < 60;
      Remaining(total, hours, minutes, seconds, false)
  }

  const Expired := "Time expired"

  /** `formatTimeRemaining`: "Time expired", or `<h>h <m>m <s>s` with the leading zero units dropped. */
  function FormatTimeRemaining(end: Millis, now: Millis): string
  {
    Countdown(GetRemainingTime(end, now))
  }

  /** The display of one split of the remaining time. */
  function Countdown(r: Remaining): string
  {
    if r.isExpired then Expired
    else CountdownUnits(r) + "s"
  }

  /** The units ahead of the trailing `s`: zero hours, then zero minutes, are dropped. */
  function CountdownUnits(r: Remaining): string
  {
    if r.hours > 0 then NatToString(r.hours) + "h " + NatToString(r.minutes) + "m " + NatToString(r.seconds)
    else if r.minutes > 0 then NatToString(r.minutes) + "m " + NatToString(r.seconds)
    else NatToString(r.seconds)
  }

  /**
   * The display says "Time expired" exactly when the end is reached; any
   * other display is a countdown ending in the seconds unit, and under a
   * minute it is the seconds alone.
   */
  lemma FormatTimeRemainingShape(end: Millis, now: Millis)
    ensures FormatTimeRemaining(end, now) == Expired <==> end <= now
    ensures end > now ==> FormatTimeRemaining(end, now)[|FormatTimeRemaining(end, now)| - 1] == 's'
    ensures end > now && end - now < MsPerMinute ==>
      FormatTimeRemaining(end, now) == NatToString((end - now) / MsPerSecond) + "s"
  {
    var r := GetRemainingTime(end, now);
    if !r.isExpired {
      var u := CountdownUnits(r);
      var s := u + "s";
      assert Countdown(r) == s;
      assert s[|s| - 1] == 's';
      assert Expired[11] == 'd';
      if end - now < MsPerMinute {
        assert r.hours == 0 && r.minutes == 0;
        assert r.seconds == (end - now) / MsPerSecond;
      }
    }
  }

  /**
   * From one hour on, the display shows hours, minutes and seconds; from one
   * minute up to an hour, minutes and seconds. The units are those of
   * `GetRemainingTime`.
   */
  lemma FormatTimeRemainingUnits(end: Millis, now: Millis)
    ensures var r := GetRemainingTime(end, now);
      MsPerHour <= end - now ==>
        FormatTimeRemaining(end, now)
        == NatToString(r.hours) + "h " + NatToString(r.minutes) + "m " + NatToString(r.seconds) + "s"
    ensures var r := GetRemainingTime(end, now);
      MsPerMinute <= end - now < MsPerHour ==>
        FormatTimeRemaining(end, now) == NatToString(r.minutes) + "m " + NatToString(r.seconds) + "s"
  {
    var r := GetRemainingTime(end, now);
    if MsPerMinute <= end - now {
      assert r.minutes * MsPerMinute + (r.seconds + 1) * MsPerSecond <= MsPerHour;
      if MsPerHour <= end - now {
        assert r.hours > 0;
      } else {
        assert r.hours == 0;
        assert (r.seconds + 1) * MsPerSecond <= MsPerMinute;
        assert r.minutes > 0;
      }
    }
  }

  /**
   * `getPhaseEndTime`: nothing for a missing chapter or a chapter outside
   * the two timed phases; otherwise the running phase's deadline when set,
   * else its stamped end time.
   */
  function GetPhaseEndTime(chapter: Option<Chapter>): (r: Option<Millis>)
    ensures chapter.None? ==> r.None?
    ensures chapter.Some? && chapter.value.status == ContributionPhase ==>
      r == PreferDeadline(chapter.value.contributionDeadline, chapter.value.contributionEndTime)
    ensures chapter.Some? && chapter.value.status == DistributionPhase ==>
      r == PreferDeadline(chapter.value.distributionDeadline, chapter.value.distributionEndTime)
    ensures chapter.Some? && chapter.value.status in {Setup, Finished} ==> r.None?
  {
    if chapter.None? then None
    else
      var c := chapter.value;
      if c.status == ContributionPhase then
        if c.contributionDeadline.Some? then c.contributionDeadline
        else if c.contributionEndTime.Some? then c.contributionEndTime
        else None
      else if c.status == DistributionPhase then
        if c.distributionDeadline.Some? then c.distributionDeadline
        else if c.distributionEndTime.Some? then c.distributionEndTime
        else None
      else None
  }

  /**
   * After a manual move into a timed phase the countdown always has an end,
   * and it is the one the move stamped: the deadline when set, else the
   * move's instant plus the legacy duration. Setup and finished chapters
   * show no countdown.
   */
  lemma PhaseEndAfterManualMove(c: Chapter, status: Status, now: Millis)
    ensures status == ContributionPhase ==>
      GetPhaseEndTime(Some(ApplyStatus(c, status, now))) == Some(ContributionEndFor(c, now))
    ensures status == DistributionPhase ==>
      GetPhaseEndTime(Some(ApplyStatus(c, status, now))) == Some(DistributionEndFor(c, now))
    ensures status in {Setup, Finished} ==> GetPhaseEndTime(Some(ApplyStatus(c, status, now))).None?
  {
  }
}
