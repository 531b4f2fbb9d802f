/**
 * The entities of the peer-recognition document store: chapters (called
 * "epochs" in the stored document), participants, contributions, comments
 * and point distributions. Timestamps are integer milliseconds since the
 * Unix epoch; identifiers are strings.
 */
module Model {
  import opened Seqs

  type Id = string
  type Millis = int

  datatype Option<T> = None | Some(value: T)

  /** The four phases of a chapter. */
  datatype Status = Setup | ContributionPhase | DistributionPhase | Finished

  const MsPerSecond: int := 1000
  const MsPerMinute: int := 60 * 1000
  const MsPerHour: int := 60 * 60 * 1000
  /** Legacy fallback length of the contribution phase: one hour. */
  const DefaultContributionDuration: int := MsPerHour
  /** Legacy fallback length of the distribution phase: half an hour. */
  const DefaultDistributionDuration: int := MsPerHour / 2
  /** Points each participant may hand out in one chapter. */
  const PointBudget: int := 100

  /**
   * A chapter. The legacy durations are kept in milliseconds (the source
   * keeps fractional hours); the display string `duration` is not modelled.
   */
  datatype Chapter = Chapter(
    id: Id,
    title: string,
    contributionDuration: Option<int>,
    distributionDuration: Option<int>,
    contributionDeadline: Option<Millis>,
    distributionDeadline: Option<Millis>,
    participants: seq<string>,
    status: Status,
    startTime: Option<Millis>,
    endTime: Option<Millis>,
    contributionEndTime: Option<Millis>,
    distributionEndTime: Option<Millis>,
    createdAt: Millis)

  datatype Participant = Participant(id: Id, name: string, chapterId: Id)

  /** A note written by `authorId` about `participantId` (its subject). */
  datatype Contribution = Contribution(
    id: Id, participantId: Id, authorId: Id, chapterId: Id,
    description: string, createdAt: Millis)

  datatype Comment = Comment(
    id: Id, contributionId: Id, participantId: Id, chapterId: Id,
    text: string, createdAt: Millis)

  datatype Distribution = Distribution(
    id: Id, fromParticipantId: Id, toContributionId: Id, points: int,
    chapterId: Id, createdAt: Millis)

  /** One submitted allocation entry `{contributionId, points}`. */
  datatype Entry = Entry(contributionId: Id, points: int)

  /** JavaScript's `d || fallback` on an optional number: absent or zero falls back. */
  function DurationOr(d: Option<int>, fallback: int): (r: int)
    ensures d.Some? && d.value != 0 ==> r == d.value
    ensures d.None? || d.value == 0 ==> r == fallback
  {
    if d.Some? && d.value != 0 then d.value else fallback
  }

  /** The effective end of a phase: the absolute deadline when set, else the stamped end time. */
  function PreferDeadline(deadline: Option<Millis>, endTime: Option<Millis>): (r: Option<Millis>)
    ensures deadline.Some? ==> r == deadline
    ensures deadline.None? ==> r == endTime
  {
    if deadline.Some? then deadline else endTime
  }

  /** `reduce((sum, d) => sum + d.points, 0)` over distributions. */
  function SumPoints(ds: seq<Distribution>): int
    decreases |ds|
  {
    if ds == [] then 0 else SumPoints(ds[..|ds| - 1]) + ds[|ds| - 1].points
  }

  /** `reduce((sum, e) => sum + e.points, 0)` over submitted entries. */
  function SumEntries(es: seq<Entry>): int
    decreases |es|
  {
    if es == [] then 0 else SumEntries(es[..|es| - 1]) + es[|es| - 1].points
  }

  lemma SumPointsSnoc(ds: seq<Distribution>, d: Distribution)
    ensures SumPoints(ds + [d]) == SumPoints(ds) + d.points
  {
    assert (ds + [d])[..|ds + [d]| - 1] == ds;
  }

  /** The total of a concatenation is the sum of the totals. */
  lemma {:induction false} SumPointsAppend(a: seq<Distribution>, b: seq<Distribution>)
    ensures SumPoints(a + b) == SumPoints(a) + SumPoints(b)
    decreases |b|
  {
    if b == [] {
      assert a + b == a;
    } else {
      var b' := b[..|b| - 1];
      assert b == b' + [b[|b| - 1]];
      assert a + b == (a + b') + [b[|b| - 1]];
      SumPointsAppend(a, b');
      SumPointsSnoc(a + b', b[|b| - 1]);
    }
  }

  /**
   * Splitting a list of distributions by a predicate splits its total:
   * the rows kept plus the rows dropped add up to the whole.
   */
  lemma {:induction false} SumPointsPartition(ds: seq<Distribution>, p: Distribution -> bool)
    ensures SumPoints(Filter(ds, p)) + SumPoints(Filter(ds, d => !p(d))) == SumPoints(ds)
    decreases |ds|
  {
    if ds != [] {
      var ds' := ds[..|ds| - 1];
      var x := ds[|ds| - 1];
      assert ds == ds' + [x];
      SumPointsPartition(ds', p);
      FilterSnoc(ds', x, p);
      FilterSnoc(ds', x, d => !p(d));
      SumPointsSnoc(Filter(ds', p), x);
      SumPointsSnoc(Filter(ds', d => !p(d)), x);
    }
  }
}
