/**
 * The results projection: points per contribution, per participant, the
 * ranking by total and the summary statistics under it. The per-
 * contribution comment lists are fetched over the network and are not part
 * of this model.
 */
module ResultsDashboard {
  import opened Seqs
  import opened Model

  datatype ContributionResult = ContributionResult(contribution: Contribution, points: int)

  datatype ParticipantResult = ParticipantResult(
    participantId: Id, name: string, totalPoints: int, contributions: seq<ContributionResult>)

  // ---------------------------------------------------------------------------
  // Aggregation
  // ---------------------------------------------------------------------------

  /** The points one contribution received: every distribution row aimed at it. */
  function Received(ds: seq<Distribution>, contributionId: Id): int
  {
    SumPoints(Filter(ds, (d: Distribution) => d.toContributionId == contributionId))
  }

  /** `reduce((sum, cr) => sum + cr.points, 0)`. */
  function SumResults(crs: seq<ContributionResult>): int
    decreases |crs|
  {
    if crs == [] then 0 else SumResults(crs[..|crs| - 1]) + crs[|crs| - 1].points
  }

  /** The contributions about `pid`, in arrival order. */
  function About(cs: seq<Contribution>, pid: Id): seq<Contribution>
  {
    Filter(cs, (c: Contribution) => c.participantId == pid)
  }

  /** One result per listed contribution, with its received points. */
  function ContributionResults(cs: seq<Contribution>, ds: seq<Distribution>): (crs: seq<ContributionResult>)
    ensures |crs| == |cs|
    ensures forall j :: 0 <= j < |cs| ==> crs[j] == ContributionResult(cs[j], Received(ds, cs[j].id))
  {
    seq(|cs|, j requires 0 <= j < |cs| => ContributionResult(cs[j], Received(ds, cs[j].id)))
  }

  /** The result of one participant before ranking. */
  function ResultFor(p: Participant, cs: seq<Contribution>, ds: seq<Distribution>): ParticipantResult
  {
    var crs := ContributionResults(About(cs, p.id), ds);
    ParticipantResult(p.id, p.name, SumResults(crs), crs)
  }

  /** The results in participant order, before ranking. */
  function Unranked(ps: seq<Participant>, cs: seq<Contribution>, ds: seq<Distribution>): (rs: seq<ParticipantResult>)
    ensures |rs| == |ps|
    ensures forall i :: 0 <= i < |ps| ==> rs[i] == ResultFor(ps[i], cs, ds)
  {
    seq(|ps|, i requires 0 <= i < |ps| => ResultFor(ps[i], cs, ds))
  }

  /**
   * Each participant's result lists exactly the contributions about them,
   * in arrival order, each with the points aimed at it, and their total is
   * the sum of those points.
   */
  lemma ResultForContents(p: Participant, cs: seq<Contribution>, ds: seq<Distribution>)
    ensures var r := ResultFor(p, cs, ds);
      && r.participantId == p.id && r.name == p.name
      && |r.contributions| == |About(cs, p.id)|
      && (forall j :: 0 <= j < |r.contributions| ==>
            && r.contributions[j].contribution == About(cs, p.id)[j]
            && r.contributions[j].contribution.participantId == p.id
            && r.contributions[j].points == Received(ds, r.contributions[j].contribution.id))
      && (forall k :: 0 <= k < |cs| && cs[k].participantId == p.id ==>
            exists j :: 0 <= j < |r.contributions| && r.contributions[j].contribution == cs[k])
      && r.totalPoints == SumResults(r.contributions)
  {
    var about := About(cs, p.id);
    var r := ResultFor(p, cs, ds);
    forall k | 0 <= k < |cs| && cs[k].participantId == p.id
      ensures exists j :: 0 <= j < |r.contributions| && r.contributions[j].contribution == cs[k]
    {
      assert cs[k] in about;
      var j :| 0 <= j < |about| && about[j] == cs[k];
      assert r.contributions[j].contribution == cs[k];
    }
  }

  /** The ids of a list of contributions. */
  function IdsOf(cs: seq<Contribution>): (ids: seq<Id>)
    ensures |ids| == |cs|
    ensures forall j :: 0 <= j < |cs| ==> ids[j] == cs[j].id
  {
    seq(|cs|, j requires 0 <= j < |cs| => cs[j].id)
  }

  /** The distribution rows aimed at any of the listed contributions. */
  function AimedAt(ds: seq<Distribution>, ids: seq<Id>): seq<Distribution>
  {
    Filter(ds, (d: Distribution) => d.toContributionId in ids)
  }

  /** Adding one more (new) id to the target list adds that contribution's points. */
  lemma {:induction false} AimedAtSnoc(ds: seq<Distribution>, ids: seq<Id>, x: Id)
    requires x !in ids
    ensures SumPoints(AimedAt(ds, ids + [x])) == SumPoints(AimedAt(ds, ids)) + Received(ds, x)
  {
    var inAll := (d: Distribution) => d.toContributionId in ids + [x];
    var inIds := (d: Distribution) => d.toContributionId in ids;
    var atX := (d: Distribution) => d.toContributionId == x;
    var all := Filter(ds, inAll);
    SumPointsPartition(all, inIds);
    FilterCompose(ds, inAll, inIds, inIds);
    FilterCompose(ds, inAll, (d: Distribution) => !inIds(d), atX);
  }

  /**
   * With distinct contribution ids, the sum of per-contribution points is
   * the total of the rows aimed at any of them: no row is counted twice.
   */
  lemma {:induction false} SumResultsIsIncoming(cs: seq<Contribution>, ds: seq<Distribution>)
    requires NoDuplicates(IdsOf(cs))
    ensures SumResults(ContributionResults(cs, ds)) == SumPoints(AimedAt(ds, IdsOf(cs)))
    decreases |cs|
  {
    if cs == [] {
      FilterNone(ds, (d: Distribution) => d.toContributionId in IdsOf(cs));
    } else {
      var init := cs[..|cs| - 1];
      var c := cs[|cs| - 1];
      var initIds := IdsOf(init);
      assert IdsOf(cs) == initIds + [c.id];
      assert NoDuplicates(initIds);
      assert c.id !in initIds by {
        assert forall j :: 0 <= j < |init| ==> IdsOf(cs)[j] == initIds[j];
      }
      SumResultsIsIncoming(init, ds);
      assert ContributionResults(cs, ds)[..|cs| - 1] == ContributionResults(init, ds);
      AimedAtSnoc(ds, initIds, c.id);
    }
  }

  /**
   * A participant's total is the sum of all points aimed at contributions
   * about them, provided contribution ids are distinct.
   */
  lemma TotalIsIncoming(p: Participant, cs: seq<Contribution>, ds: seq<Distribution>)
    requires NoDuplicates(IdsOf(About(cs, p.id)))
    ensures ResultFor(p, cs, ds).totalPoints == SumPoints(AimedAt(ds, IdsOf(About(cs, p.id))))
  {
    SumResultsIsIncoming(About(cs, p.id), ds);
  }

  // ---------------------------------------------------------------------------
  // Ranking
  // ---------------------------------------------------------------------------

  /** Places `x` before the first result whose total does not exceed its own. */
  function Insert(x: ParticipantResult, s: seq<ParticipantResult>): (r: seq<ParticipantResult>)
    ensures |r| == |s| + 1
    ensures multiset(r) == multiset(s) + multiset{x}
    decreases |s|
  {
    if s == [] || s[0].totalPoints <= x.totalPoints then [x] + s
    else
      assert s == [s[0]] + s[1..];
      [s[0]] + Insert(x, s[1..])
  }

  /** `sort((a, b) => b.totalPoints - a.totalPoints)`: a stable sort, largest total first. */
  function Rank(s: seq<ParticipantResult>): seq<ParticipantResult>
    decreases |s|
  {
    if s == [] then [] else Insert(s[0], Rank(s[1..]))
  }

  predicate RankedByTotal(s: seq<ParticipantResult>)
  {
    forall i, j :: 0 <= i < j < |s| ==> s[i].totalPoints >= s[j].totalPoints
  }

  /** The results with total `v`, in their relative order. */
  function WithTotal(s: seq<ParticipantResult>, v: int): seq<ParticipantResult>
    decreases |s|
  {
    if s == [] then []
    else if s[0].totalPoints == v then [s[0]] + WithTotal(s[1..], v)
    else WithTotal(s[1..], v)
  }

  lemma {:induction false} InsertRanked(x: ParticipantResult, s: seq<ParticipantResult>)
    requires RankedByTotal(s)
    ensures RankedByTotal(Insert(x, s))
    decreases |s|
  {
    if s != [] && s[0].totalPoints > x.totalPoints {
      InsertRanked(x, s[1..]);
      var r := Insert(x, s[1..]);
      forall k | 0 <= k < |r|
        ensures s[0].totalPoints >= r[k].totalPoints
      {
        assert r[k] in multiset(s[1..]) + multiset{x};
      }
    }
  }

  lemma WithTotalCons(x: ParticipantResult, s: seq<ParticipantResult>, v: int)
    ensures WithTotal([x] + s, v) == if x.totalPoints == v then [x] + WithTotal(s, v) else WithTotal(s, v)
  {
    assert ([x] + s)[1..] == s;
  }

  /** Inserting `x` puts it ahead of every result it ties with. */
  lemma {:induction false} InsertStable(x: ParticipantResult, s: seq<ParticipantResult>, v: int)
    ensures WithTotal(Insert(x, s), v) == if x.totalPoints == v then [x] + WithTotal(s, v) else WithTotal(s, v)
    decreases |s|
  {
    if s == [] || s[0].totalPoints <= x.totalPoints {
      WithTotalCons(x, s, v);
    } else {
      InsertStable(x, s[1..], v);
      WithTotalCons(s[0], Insert(x, s[1..]), v);
      WithTotalCons(s[0], s[1..], v);
      assert s == [s[0]] + s[1..];
    }
  }

  lemma {:induction false} RankRanked(s: seq<ParticipantResult>)
    ensures RankedByTotal(Rank(s))
    decreases |s|
  {
    if s != [] {
      RankRanked(s[1..]);
      InsertRanked(s[0], Rank(s[1..]));
    }
  }

  lemma {:induction false} RankPermutes(s: seq<ParticipantResult>)
    ensures multiset(Rank(s)) == multiset(s)
    decreases |s|
  {
    if s != [] {
      RankPermutes(s[1..]);
      assert s == [s[0]] + s[1..];
    }
  }

  lemma {:induction false} RankStable(s: seq<ParticipantResult>, v: int)
    ensures WithTotal(Rank(s), v) == WithTotal(s, v)
    decreases |s|
  {
    if s != [] {
      var rest := Rank(s[1..]);
      assert Rank(s) == Insert(s[0], rest);
      RankStable(s[1..], v);
      assert WithTotal(rest, v) == WithTotal(s[1..], v);
      InsertStable(s[0], rest, v);
    }
  }

  /**
   * The ranking is ordered by total, largest first, is a permutation of its
   * input, and keeps input order among equal totals.
   */
  lemma RankCorrect(s: seq<ParticipantResult>)
    ensures RankedByTotal(Rank(s))
    ensures multiset(Rank(s)) == multiset(s)
    ensures forall v :: WithTotal(Rank(s), v) == WithTotal(s, v)
  {
    RankRanked(s);
    RankPermutes(s);
    forall v
      ensures WithTotal(Rank(s), v) == WithTotal(s, v)
    {
      RankStable(s, v);
    }
  }

  /** The inner loop of `fetchResults`: each contribution with the points aimed at it. */
  method ScoreContributions(contributions: seq<Contribution>, ds: seq<Distribution>)
    returns (contributionResults: seq<ContributionResult>)
    ensures contributionResults == ContributionResults(contributions, ds)
  {
    contributionResults := [];
    for j := 0 to |contributions|
      invariant |contributionResults| == j
      invariant forall k :: 0 <= k < j ==>
        contributionResults[k] == ContributionResult(contributions[k], Received(ds, contributions[k].id))
    {
      var contribution := contributions[j];
      var points := SumPoints(Filter(ds, (d: Distribution) => d.toContributionId == contribution.id));
      contributionResults := contributionResults + [ContributionResult(contribution, points)];
    }
  }

  /**
   * `fetchResults`: for every participant in order, the contributions about
   * them with the points aimed at each, and their total; then the list
   * ranked by total.
   */
  method FetchResults(ps: seq<Participant>, cs: seq<Contribution>, ds: seq<Distribution>)
    returns (results: seq<ParticipantResult>)
    ensures results == Rank(Unranked(ps, cs, ds))
    ensures RankedByTotal(results)
    ensures multiset(results) == multiset(Unranked(ps, cs, ds))
    ensures |results| == |ps|
  {
    var participantResults: seq<ParticipantResult> := [];
    for i := 0 to |ps|
      invariant |participantResults| == i
      invariant forall k :: 0 <= k < i ==> participantResults[k] == ResultFor(ps[k], cs, ds)
    {
      var participant := ps[i];
      var participantContributions := About(cs, participant.id);
      var contributionResults := ScoreContributions(participantContributions, ds);
      var totalPoints := SumResults(contributionResults);
      participantResults := participantResults + [ParticipantResult(participant.id, participant.name, totalPoints, contributionResults)];
    }
    assert participantResults == Unranked(ps, cs, ds);
    RankCorrect(participantResults);
    results := Rank(participantResults);
    RankLength(participantResults);
  }

  // ---------------------------------------------------------------------------
  // Summary statistics
  // ---------------------------------------------------------------------------

  /** "Total Points Distributed": the sum of the participants' totals. */
  function GrandTotal(rs: seq<ParticipantResult>): int
    decreases |rs|
  {
    if rs == [] then 0 else rs[0].totalPoints + GrandTotal(rs[1..])
  }

  /** "Total Contributions": the sum of the per-participant contribution counts. */
  function ContributionCount(rs: seq<ParticipantResult>): (n: nat)
    decreases |rs|
  {
    if rs == [] then 0 else |rs[0].contributions| + ContributionCount(rs[1..])
  }

  /**
   * "Average Points": `Math.round(total / count)`, rounding halves up;
   * nothing when there are no results (the division gives NaN there).
   */
  function AveragePoints(rs: seq<ParticipantResult>): (a: Option<int>)
    ensures a.None? <==> |rs| == 0
    ensures a.Some? ==>
      2 * |rs| * a.value - |rs| <= 2 * GrandTotal(rs) < 2 * |rs| * a.value + |rs|
  {
    if |rs| == 0 then None else Some(RoundedMean(GrandTotal(rs), |rs|))
  }

  /** `Math.round(t / n)` for a positive count: the nearest integer, halves rounded up. */
  function RoundedMean(t: int, n: int): (q: int)
    requires n > 0
    ensures 2 * n * q - n <= 2 * t < 2 * n * q + n
  {
    var q := (2 * t + n) / (2 * n);
    assert 2 * t + n == (2 * n) * q + (2 * t + n) % (2 * n);
    q
  }

  lemma {:induction false} GrandTotalInsert(x: ParticipantResult, s: seq<ParticipantResult>)
    ensures GrandTotal(Insert(x, s)) == x.totalPoints + GrandTotal(s)
    ensures ContributionCount(Insert(x, s)) == |x.contributions| + ContributionCount(s)
    decreases |s|
  {
    if s != [] && s[0].totalPoints > x.totalPoints {
      GrandTotalInsert(x, s[1..]);
    }
  }

  lemma {:induction false} RankLength(s: seq<ParticipantResult>)
    ensures |Rank(s)| == |s|
    decreases |s|
  {
    if s != [] {
      RankLength(s[1..]);
    }
  }

  /** Ranking changes none of the summary statistics. */
  lemma {:induction false} SummaryUnchangedByRank(s: seq<ParticipantResult>)
    ensures GrandTotal(Rank(s)) == GrandTotal(s)
    ensures ContributionCount(Rank(s)) == ContributionCount(s)
    ensures |Rank(s)| == |s|
    ensures AveragePoints(Rank(s)) == AveragePoints(s)
    decreases |s|
  {
    if s != [] {
      SummaryUnchangedByRank(s[1..]);
      GrandTotalInsert(s[0], Rank(s[1..]));
    }
  }
}
