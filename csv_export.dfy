/**
 * `generateChapterCSV`: the chapter export as lines of text joined by
 * newlines. How a timestamp is rendered (`toISOString` and the template
 * literal rendering of a date) is passed in, as is the export instant.
 */
module CsvExport {
  import opened Seqs
  import opened Model
  import opened Text

  datatype ExportData = ExportData(
    chapterTitle: string, status: string, createdAt: Millis,
    participants: seq<Participant>, contributions: seq<Contribution>,
    distributions: seq<Distribution>, comments: seq<Comment>)

  // ---------------------------------------------------------------------------
  // Fields
  // ---------------------------------------------------------------------------

  /** `"` + s + `"`. */
  function Quote(s: string): string
  {
    "\"" + s + "\""
  }

  /** `replace(/"/g, '""')`: every double quote doubled. */
  function EscapeQuotes(s: string): (r: string)
    ensures |r| >= |s|
    decreases |s|
  {
    if s == [] then []
    else (if s[0] == '"' then "\"\"" else [s[0]]) + EscapeQuotes(s[1..])
  }

  /** How a CSV reader reads an escaped field back: each doubled quote is one quote. */
  function UnescapeQuotes(s: string): string
    decreases |s|
  {
    if |s| >= 2 && s[0] == '"' && s[1] == '"' then "\"" + UnescapeQuotes(s[2..])
    else if s == [] then []
    else [s[0]] + UnescapeQuotes(s[1..])
  }

  /** Escaping loses nothing: reading the field back gives the original text. */
  lemma {:induction false} EscapeRoundTrip(s: string)
    ensures UnescapeQuotes(EscapeQuotes(s)) == s
    decreases |s|
  {
    if s != [] {
      EscapeRoundTrip(s[1..]);
      var e := EscapeQuotes(s);
      if s[0] == '"' {
        assert e == "\"\"" + EscapeQuotes(s[1..]);
        assert e[2..] == EscapeQuotes(s[1..]);
      } else {
        assert e == [s[0]] + EscapeQuotes(s[1..]);
        assert e[1..] == EscapeQuotes(s[1..]);
      }
    }
  }

  /** Every quote of `e` has a quote right beside it. */
  predicate QuotesPaired(e: string)
  {
    forall i {:trigger e[i]} :: 0 <= i < |e| && e[i] == '"' ==> (i + 1 < |e| && e[i + 1] == '"') || (i > 0 && e[i - 1] == '"')
  }

  /** In an escaped field, quotes only come in adjacent pairs: one can never close the field early. */
  lemma {:induction false} EscapedQuotesPaired(s: string)
    ensures QuotesPaired(EscapeQuotes(s))
    decreases |s|
  {
    if s != [] {
      EscapedQuotesPaired(s[1..]);
      var head := if s[0] == '"' then "\"\"" else [s[0]];
      assert QuotesPaired(head);
      PairedConcat(head, EscapeQuotes(s[1..]));
    }
  }

  /** Gluing two paired texts together leaves every quote paired. */
  lemma PairedConcat(a: string, b: string)
    requires QuotesPaired(a) && QuotesPaired(b)
    ensures QuotesPaired(a + b)
  {
    var e := a + b;
    forall i | 0 <= i < |e| && e[i] == '"'
      ensures (i + 1 < |e| && e[i + 1] == '"') || (i > 0 && e[i - 1] == '"')
    {
      if i < |a| {
        assert e[i] == a[i];
        assert (i + 1 < |a| && a[i + 1] == '"') || (i > 0 && a[i - 1] == '"');
        if i + 1 < |a| && a[i + 1] == '"' {
          assert e[i + 1] == a[i + 1];
        } else {
          assert e[i - 1] == a[i - 1];
        }
      } else {
        var j := i - |a|;
        assert e[i] == b[j];
        assert (j + 1 < |b| && b[j + 1] == '"') || (j > 0 && b[j - 1] == '"');
        if j + 1 < |b| && b[j + 1] == '"' {
          assert e[i + 1] == b[j + 1];
        } else {
          assert e[i - 1] == b[j - 1];
        }
      }
    }
  }

  /** `i` is the position of the first participant with the id, which is what `find` returns. */
  predicate FirstParticipant(ps: seq<Participant>, id: Id, i: int)
  {
    0 <= i < |ps| && ps[i].id == id && forall j :: 0 <= j < i ==> ps[j].id != id
  }

  /** `k` is the position of the first contribution with the id. */
  predicate FirstContribution(cs: seq<Contribution>, id: Id, k: int)
  {
    0 <= k < |cs| && cs[k].id == id && forall j :: 0 <= j < k ==> cs[j].id != id
  }

  /**
   * `participants.find(p => p.id === id)?.name || 'Unknown'`: the first
   * participant with the id is shown by name, and a missing participant or
   * an empty name gives Unknown.
   */
  function NameOrUnknown(ps: seq<Participant>, id: Id): (name: string)
    ensures (forall i :: 0 <= i < |ps| ==> ps[i].id != id) ==> name == "Unknown"
    ensures forall i :: FirstParticipant(ps, id, i) ==> name == if ps[i].name == "" then "Unknown" else ps[i].name
    ensures name != ""
  {
    var i := FirstIndex(ps, (p: Participant) => p.id == id);
    if i == -1 || ps[i].name == "" then "Unknown" else ps[i].name
  }

  /**
   * The receiving participant's label of a distribution row: Unknown when
   * the target contribution is missing, but the text "undefined" when the
   * contribution exists and its subject does not (no fallback on that path),
   * and the subject's name as is otherwise, even when empty.
   */
  function ToParticipantLabel(ps: seq<Participant>, cs: seq<Contribution>, contributionId: Id): (shown: string)
    ensures (forall j :: 0 <= j < |cs| ==> cs[j].id != contributionId) ==> shown == "Unknown"
    ensures forall k :: FirstContribution(cs, contributionId, k) ==>
      && ((forall i :: 0 <= i < |ps| ==> ps[i].id != cs[k].participantId) ==> shown == "undefined")
      && (forall i :: FirstParticipant(ps, cs[k].participantId, i) ==> shown == ps[i].name)
  {
    var ci := FirstIndex(cs, (c: Contribution) => c.id == contributionId);
    if ci == -1 then "Unknown"
    else
      var pi := FirstIndex(ps, (p: Participant) => p.id == cs[ci].participantId);
      if pi == -1 then "undefined" else ps[pi].name
  }

  /** A distribution row whose target contribution exists but whose subject is gone is labelled "undefined". */
  lemma DanglingSubjectLabelledUndefined()
    ensures ToParticipantLabel([], [Contribution("c1", "gone", "a", "ch", "d", 0)], "c1") == "undefined"
  {
  }

  // ---------------------------------------------------------------------------
  // Rows
  // ---------------------------------------------------------------------------

  function ParticipantRow(p: Participant): string
  {
    Quote(p.id) + "," + Quote(p.name)
  }

  function ContributionRow(ps: seq<Participant>, c: Contribution, showTime: Millis -> string): string
  {
    Quote(c.id) + "," + Quote(NameOrUnknown(ps, c.participantId)) + "," + Quote(NameOrUnknown(ps, c.authorId))
      + "," + Quote(EscapeQuotes(c.description)) + "," + Quote(showTime(c.createdAt))
  }

  function DistributionRow(ps: seq<Participant>, cs: seq<Contribution>, d: Distribution, showTime: Millis -> string): string
  {
    Quote(d.id) + "," + Quote(NameOrUnknown(ps, d.fromParticipantId)) + ","
      + Quote(ToParticipantLabel(ps, cs, d.toContributionId) + " (" + d.toContributionId + ")")
      + "," + Quote(IntToString(d.points)) + "," + Quote(showTime(d.createdAt))
  }

  function CommentRow(ps: seq<Participant>, c: Comment, showTime: Millis -> string): string
  {
    Quote(c.id) + "," + Quote(c.contributionId) + "," + Quote(NameOrUnknown(ps, c.participantId))
      + "," + Quote(EscapeQuotes(c.text)) + "," + Quote(showTime(c.createdAt))
  }

  function SummaryRow(name: string, received: int, given: int): string
  {
    Quote(name) + "," + Quote(IntToString(received)) + "," + Quote(IntToString(given))
  }

  // ---------------------------------------------------------------------------
  // Received and given tallies
  // ---------------------------------------------------------------------------

  /** The subject of the first contribution with the distribution's target id, if any. */
  function TargetSubject(cs: seq<Contribution>, d: Distribution): (r: Option<Id>)
    ensures r.None? <==> forall j :: 0 <= j < |cs| ==> cs[j].id != d.toContributionId
    ensures forall k :: FirstContribution(cs, d.toContributionId, k) ==> r == Some(cs[k].participantId)
  {
    var ci := FirstIndex(cs, (c: Contribution) => c.id == d.toContributionId);
    if ci == -1 then None else Some(cs[ci].participantId)
  }

  /** Points received by `pid`: every row whose target contribution exists and is about `pid`. */
  function ReceivedBy(cs: seq<Contribution>, ds: seq<Distribution>, pid: Id): int
    decreases |ds|
  {
    if ds == [] then 0
    else ReceivedBy(cs, ds[..|ds| - 1], pid)
         + (if TargetSubject(cs, ds[|ds| - 1]) == Some(pid) then ds[|ds| - 1].points else 0)
  }

  /** Points given by `pid`: every row sent by `pid`. */
  function GivenBy(ds: seq<Distribution>, pid: Id): int
    decreases |ds|
  {
    if ds == [] then 0
    else GivenBy(ds[..|ds| - 1], pid) + (if ds[|ds| - 1].fromParticipantId == pid then ds[|ds| - 1].points else 0)
  }

  datatype Tally = Tally(received: int, given: int)

  /** One more row extends the received tally of its target's subject only. */
  lemma ReceivedPrefix(cs: seq<Contribution>, ds: seq<Distribution>, i: nat, k: Id)
    requires i < |ds|
    ensures ReceivedBy(cs, ds[..i + 1], k)
      == ReceivedBy(cs, ds[..i], k) + (if TargetSubject(cs, ds[i]) == Some(k) then ds[i].points else 0)
  {
    assert ds[..i + 1][..i] == ds[..i];
  }

  /** One more row extends the given tally of its sender only. */
  lemma GivenPrefix(ds: seq<Distribution>, i: nat, k: Id)
    requires i < |ds|
    ensures GivenBy(ds[..i + 1], k) == GivenBy(ds[..i], k) + (if ds[i].fromParticipantId == k then ds[i].points else 0)
  {
    assert ds[..i + 1][..i] == ds[..i];
  }

  /**
   * The `pointsSummary` map: every participant starts at zero, then each
   * row adds its points to the received tally of its target's subject (rows
   * with a missing target count for nobody), then to the given tally of
   * its sender. Keys other than the participants' can appear; they are
   * never printed.
   */
  method PointsSummary(ps: seq<Participant>, cs: seq<Contribution>, ds: seq<Distribution>)
    returns (summary: map<Id, Tally>)
    ensures forall i :: 0 <= i < |ps| ==> ps[i].id in summary
    ensures forall k :: k in summary ==> summary[k] == Tally(ReceivedBy(cs, ds, k), GivenBy(ds, k))
    ensures forall k :: k !in summary ==> ReceivedBy(cs, ds, k) == 0 && GivenBy(ds, k) == 0
  {
    summary := map[];
    for i := 0 to |ps|
      invariant forall j :: 0 <= j < i ==> ps[j].id in summary
      invariant forall k :: k in summary ==> summary[k] == Tally(0, 0)
    {
      summary := summary[ps[i].id := Tally(0, 0)];
    }
    summary := AddReceived(summary, ps, cs, ds);
    summary := AddGiven(summary, ps, cs, ds);
  }

  /** The received loop of `PointsSummary`. */
  method AddReceived(start: map<Id, Tally>, ps: seq<Participant>, cs: seq<Contribution>, ds: seq<Distribution>)
    returns (summary: map<Id, Tally>)
    requires forall j :: 0 <= j < |ps| ==> ps[j].id in start
    requires forall k :: k in start ==> start[k] == Tally(0, 0)
    ensures forall j :: 0 <= j < |ps| ==> ps[j].id in summary
    ensures forall k :: k in summary ==> summary[k] == Tally(ReceivedBy(cs, ds, k), 0)
    ensures forall k :: k !in summary ==> ReceivedBy(cs, ds, k) == 0
  {
    summary := start;
    for i := 0 to |ds|
      invariant forall j :: 0 <= j < |ps| ==> ps[j].id in summary
      invariant forall k :: k in summary ==> summary[k] == Tally(ReceivedBy(cs, ds[..i], k), 0)
      invariant forall k :: k !in summary ==> ReceivedBy(cs, ds[..i], k) == 0
    {
      var d := ds[i];
      var target := TargetSubject(cs, d);
      ghost var prev := summary;
      if target.Some? {
        var subject := target.value;
        var current := if subject in summary then summary[subject] else Tally(0, 0);
        summary := summary[subject := current.(received := current.received + d.points)];
      }
      forall k
        ensures k in summary ==> summary[k] == Tally(ReceivedBy(cs, ds[..i + 1], k), 0)
        ensures k !in summary ==> ReceivedBy(cs, ds[..i + 1], k) == 0
      {
        ReceivedPrefix(cs, ds, i, k);
      }
    }
    assert ds[..|ds|] == ds;
  }

  /** The given loop of `PointsSummary`. */
  method AddGiven(start: map<Id, Tally>, ps: seq<Participant>, cs: seq<Contribution>, ds: seq<Distribution>)
    returns (summary: map<Id, Tally>)
    requires forall j :: 0 <= j < |ps| ==> ps[j].id in start
    requires forall k :: k in start ==> start[k] == Tally(ReceivedBy(cs, ds, k), 0)
    requires forall k :: k !in start ==> ReceivedBy(cs, ds, k) == 0
    ensures forall j :: 0 <= j < |ps| ==> ps[j].id in summary
    ensures forall k :: k in summary ==> summary[k] == Tally(ReceivedBy(cs, ds, k), GivenBy(ds, k))
    ensures forall k :: k !in summary ==> ReceivedBy(cs, ds, k) == 0 && GivenBy(ds, k) == 0
  {
    summary := start;
    for i := 0 to |ds|
      invariant forall j :: 0 <= j < |ps| ==> ps[j].id in summary
      invariant forall k :: k in summary ==> summary[k] == Tally(ReceivedBy(cs, ds, k), GivenBy(ds[..i], k))
      invariant forall k :: k !in summary ==> ReceivedBy(cs, ds, k) == 0 && GivenBy(ds[..i], k) == 0
    {
      var d := ds[i];
      var current := if d.fromParticipantId in summary then summary[d.fromParticipantId] else Tally(0, 0);
      summary := summary[d.fromParticipantId := current.(given := current.given + d.points)];
      forall k
        ensures k in summary ==> summary[k] == Tally(ReceivedBy(cs, ds, k), GivenBy(ds[..i + 1], k))
        ensures k !in summary ==> ReceivedBy(cs, ds, k) == 0 && GivenBy(ds[..i + 1], k) == 0
      {
        GivenPrefix(ds, i, k);
      }
    }
    assert ds[..|ds|] == ds;
  }

  /** A row whose target contribution is missing adds to nobody's received tally. */
  lemma MissingTargetCountsForNobody(cs: seq<Contribution>, ds: seq<Distribution>, d: Distribution, pid: Id)
    requires forall j :: 0 <= j < |cs| ==> cs[j].id != d.toContributionId
    ensures ReceivedBy(cs, ds + [d], pid) == ReceivedBy(cs, ds, pid)
    ensures GivenBy(ds + [d], d.fromParticipantId) == GivenBy(ds, d.fromParticipantId) + d.points
  {
    assert (ds + [d])[..|ds|] == ds;
  }

  /** The received tally of `pid` is the total of the rows whose target is about `pid`. */
  lemma {:induction false} ReceivedIsFilteredTotal(cs: seq<Contribution>, ds: seq<Distribution>, pid: Id)
    ensures ReceivedBy(cs, ds, pid) == SumPoints(Filter(ds, (d: Distribution) => TargetSubject(cs, d) == Some(pid)))
    decreases |ds|
  {
    if ds != [] {
      var init := ds[..|ds| - 1];
      var d := ds[|ds| - 1];
      ReceivedIsFilteredTotal(cs, init, pid);
      assert ds == init + [d];
      FilterSnoc(init, d, (d: Distribution) => TargetSubject(cs, d) == Some(pid));
      SumPointsSnoc(Filter(init, (d: Distribution) => TargetSubject(cs, d) == Some(pid)), d);
    }
  }

  /** The given tally of `pid` is the total of the rows `pid` sent. */
  lemma {:induction false} GivenIsFilteredTotal(ds: seq<Distribution>, pid: Id)
    ensures GivenBy(ds, pid) == SumPoints(Filter(ds, (d: Distribution) => d.fromParticipantId == pid))
    decreases |ds|
  {
    if ds != [] {
      var init := ds[..|ds| - 1];
      var d := ds[|ds| - 1];
      GivenIsFilteredTotal(init, pid);
      assert ds == init + [d];
      FilterSnoc(init, d, (d: Distribution) => d.fromParticipantId == pid);
      SumPointsSnoc(Filter(init, (d: Distribution) => d.fromParticipantId == pid), d);
    }
  }


  // ---------------------------------------------------------------------------
  // The document
  // ---------------------------------------------------------------------------

  // The fixed lines and labels of the export.
  const ExportTitle: string := "# Chapter Export Data"
  const ChapterLabel: string := "# Chapter: "
  const StatusLabel: string := "# Status: "
  const CreatedLabel: string := "# Created: "
  const ExportDateLabel: string := "# Export Date: "
  const ParticipantsHeading: string := "## PARTICIPANTS"
  const ParticipantColumns: string := "Participant ID,Name"
  const ContributionsHeading: string := "## CONTRIBUTIONS"
  const ContributionColumns: string := "Contribution ID,About Participant,Author Participant,Description,Created At"
  const DistributionsHeading: string := "## POINT DISTRIBUTIONS"
  const DistributionColumns: string := "Distribution ID,From Participant,To Contribution,Points,Created At"
  const CommentsHeading: string := "## COMMENTS"
  const CommentColumns: string := "Comment ID,Contribution ID,Participant,Text,Created At"
  const SummaryHeading: string := "## SUMMARY"
  const MetricColumns: string := "Metric,Value"
  const TotalParticipantsLabel: string := "Total Participants"
  const TotalContributionsLabel: string := "Total Contributions"
  const TotalPointsLabel: string := "Total Points Distributed"
  const TotalCommentsLabel: string := "Total Comments"
  const PointsSummaryHeading: string := "## POINTS SUMMARY"
  const PointsSummaryColumns: string := "Participant,Points Received,Points Given"

  /** Every row is a data row: it opens with a quote. */
  predicate QuotedRows(rows: seq<string>)
  {
    forall i :: 0 <= i < |rows| ==> |rows[i]| > 0 && rows[i][0] == '"'
  }

  /** Each item rendered as one row, in order. */
  function Rendered<T>(xs: seq<T>, render: T -> string): (rows: seq<string>)
    ensures |rows| == |xs|
    ensures forall i :: 0 <= i < |xs| ==> rows[i] == render(xs[i])
  {
    seq(|xs|, i requires 0 <= i < |xs| => render(xs[i]))
  }

  /** A `forEach` that pushes one rendered row per item. */
  method PushRendered<T>(rows: seq<string>, xs: seq<T>, render: T -> string) returns (out: seq<string>)
    ensures out == rows + Rendered(xs, render)
  {
    out := rows;
    for i := 0 to |xs|
      invariant out == rows + Rendered(xs[..i], render)
    {
      assert Rendered(xs[..i + 1], render) == Rendered(xs[..i], render) + [render(xs[i])];
      out := out + [render(xs[i])];
    }
    assert xs[..|xs|] == xs;
  }

  /** The row callbacks of the `forEach` loops, with the lookups they close over. */
  function ContributionRenderer(ps: seq<Participant>, showTime: Millis -> string): Contribution -> string
  {
    (c: Contribution) => ContributionRow(ps, c, showTime)
  }

  function DistributionRenderer(ps: seq<Participant>, cs: seq<Contribution>, showTime: Millis -> string): Distribution -> string
  {
    (d: Distribution) => DistributionRow(ps, cs, d, showTime)
  }

  function CommentRenderer(ps: seq<Participant>, showTime: Millis -> string): Comment -> string
  {
    (c: Comment) => CommentRow(ps, c, showTime)
  }

  function ParticipantRows(ps: seq<Participant>): (rows: seq<string>)
    ensures |rows| == |ps|
  {
    Rendered(ps, ParticipantRow)
  }

  function ContributionRows(ps: seq<Participant>, cs: seq<Contribution>, showTime: Millis -> string): (rows: seq<string>)
    ensures |rows| == |cs|
  {
    Rendered(cs, ContributionRenderer(ps, showTime))
  }

  function DistributionRows(ps: seq<Participant>, cs: seq<Contribution>, ds: seq<Distribution>,
                            showTime: Millis -> string): (rows: seq<string>)
    ensures |rows| == |ds|
  {
    Rendered(ds, DistributionRenderer(ps, cs, showTime))
  }

  function CommentRows(ps: seq<Participant>, cms: seq<Comment>, showTime: Millis -> string): (rows: seq<string>)
    ensures |rows| == |cms|
  {
    Rendered(cms, CommentRenderer(ps, showTime))
  }

  function SummaryRows(ps: seq<Participant>, cs: seq<Contribution>, ds: seq<Distribution>): (rows: seq<string>)
    ensures |rows| == |ps|
  {
    Rendered(ps, (p: Participant) => SummaryRow(p.name, ReceivedBy(cs, ds, p.id), GivenBy(ds, p.id)))
  }

  function HeaderSection(data: ExportData, iso: Millis -> string, exportedAt: Millis): seq<string>
  {
    [ExportTitle, ChapterLabel + data.chapterTitle, StatusLabel + data.status,
     CreatedLabel + iso(data.createdAt), ExportDateLabel + iso(exportedAt), ""]
  }

  function ParticipantsSection(ps: seq<Participant>): seq<string>
  {
    [ParticipantsHeading, ParticipantColumns] + ParticipantRows(ps) + [""]
  }

  function ContributionsSection(ps: seq<Participant>, cs: seq<Contribution>, showTime: Millis -> string): seq<string>
  {
    [ContributionsHeading, ContributionColumns]
    + ContributionRows(ps, cs, showTime) + [""]
  }

  function DistributionsSection(ps: seq<Participant>, cs: seq<Contribution>, ds: seq<Distribution>,
                                showTime: Millis -> string): seq<string>
  {
    [DistributionsHeading, DistributionColumns]
    + DistributionRows(ps, cs, ds, showTime) + [""]
  }

  /** The comments section, written only when there is a comment. */
  function CommentsSection(ps: seq<Participant>, cms: seq<Comment>, showTime: Millis -> string): seq<string>
  {
    if |cms| > 0 then
      [CommentsHeading, CommentColumns]
      + CommentRows(ps, cms, showTime) + [""]
    else []
  }

  function TotalPointsRow(ds: seq<Distribution>): string
  {
    Quote(TotalPointsLabel) + "," + Quote(IntToString(SumPoints(ds)))
  }

  /** The summary counts and the points-summary heading. */
  function SummarySection(data: ExportData): seq<string>
  {
    [SummaryHeading, MetricColumns,
     Quote(TotalParticipantsLabel) + "," + Quote(IntToString(|data.participants|)),
     Quote(TotalContributionsLabel) + "," + Quote(IntToString(|data.contributions|)),
     TotalPointsRow(data.distributions),
     Quote(TotalCommentsLabel) + "," + Quote(IntToString(|data.comments|)),
     "", PointsSummaryHeading, PointsSummaryColumns]
  }

  /** The sections before the summary. */
  function DataSections(data: ExportData, iso: Millis -> string, showTime: Millis -> string, exportedAt: Millis): seq<string>
  {
    var ps := data.participants;
    HeaderSection(data, iso, exportedAt)
    + ParticipantsSection(ps)
    + ContributionsSection(ps, data.contributions, showTime)
    + DistributionsSection(ps, data.contributions, data.distributions, showTime)
    + CommentsSection(ps, data.comments, showTime)
  }

  /** The rows of the export, section by section. */
  function CsvRows(data: ExportData, iso: Millis -> string, showTime: Millis -> string, exportedAt: Millis): seq<string>
  {
    DataSections(data, iso, showTime, exportedAt)
    + SummarySection(data)
    + SummaryRows(data.participants, data.contributions, data.distributions)
  }

  /** The participants section around its loop. */
  method PushParticipantsSection(rows: seq<string>, ps: seq<Participant>) returns (out: seq<string>)
    ensures out == rows + ParticipantsSection(ps)
  {
    out := rows + [ParticipantsHeading, ParticipantColumns];
    out := PushRendered(out, ps, ParticipantRow);
    out := out + [""];
  }

  /** The contributions section around its loop. */
  method PushContributionsSection(rows: seq<string>, ps: seq<Participant>, cs: seq<Contribution>, showTime: Millis -> string)
    returns (out: seq<string>)
    ensures out == rows + ContributionsSection(ps, cs, showTime)
  {
    out := rows + [ContributionsHeading, ContributionColumns];
    out := PushRendered(out, cs, ContributionRenderer(ps, showTime));
    out := out + [""];
  }

  /** The distributions section around its loop. */
  method PushDistributionsSection(rows: seq<string>, ps: seq<Participant>, cs: seq<Contribution>, ds: seq<Distribution>,
                                  showTime: Millis -> string)
    returns (out: seq<string>)
    ensures out == rows + DistributionsSection(ps, cs, ds, showTime)
  {
    out := rows + [DistributionsHeading, DistributionColumns];
    out := PushRendered(out, ds, DistributionRenderer(ps, cs, showTime));
    out := out + [""];
  }

  /** The comments section, pushed only when there is a comment, around its loop. */
  method PushCommentsSection(rows: seq<string>, ps: seq<Participant>, cms: seq<Comment>, showTime: Millis -> string)
    returns (out: seq<string>)
    ensures out == rows + CommentsSection(ps, cms, showTime)
  {
    if |cms| == 0 {
      return rows;
    }
    out := rows + [CommentsHeading, CommentColumns];
    out := PushRendered(out, cms, CommentRenderer(ps, showTime));
    out := out + [""];
  }

  /** Rendering one more item extends the rendered rows by its row. */
  lemma {:induction false} RenderedPrefix<T>(xs: seq<T>, i: nat, render: T -> string)
    requires i < |xs|
    ensures Rendered(xs[..i + 1], render) == Rendered(xs[..i], render) + [render(xs[i])]
  {
  }

  /** The points-summary output loop, reading each participant's tallies from the map. */
  method PushSummaryRows(rows: seq<string>, ps: seq<Participant>, cs: seq<Contribution>, ds: seq<Distribution>,
                         summary: map<Id, Tally>)
    returns (out: seq<string>)
    requires forall k :: k in summary ==> summary[k] == Tally(ReceivedBy(cs, ds, k), GivenBy(ds, k))
    requires forall k :: k !in summary ==> ReceivedBy(cs, ds, k) == 0 && GivenBy(ds, k) == 0
    ensures out == rows + SummaryRows(ps, cs, ds)
  {
    var render := (p: Participant) => SummaryRow(p.name, ReceivedBy(cs, ds, p.id), GivenBy(ds, p.id));
    out := rows;
    for i := 0 to |ps|
      invariant out == rows + Rendered(ps[..i], render)
    {
      var tally := if ps[i].id in summary then summary[ps[i].id] else Tally(0, 0);
      assert tally == Tally(ReceivedBy(cs, ds, ps[i].id), GivenBy(ds, ps[i].id));
      RenderedPrefix(ps, i, render);
      out := out + [SummaryRow(ps[i].name, tally.received, tally.given)];
    }
    assert ps[..|ps|] == ps;
  }

  /**
   * `generateChapterCSV`: pushes the sections row by row, fills the
   * received/given map, prints one summary row per participant and joins
   * the rows with newlines.
   */
  method GenerateChapterCsv(data: ExportData, iso: Millis -> string, showTime: Millis -> string, exportedAt: Millis)
    returns (csv: string)
    ensures csv == Join(CsvRows(data, iso, showTime, exportedAt), "\n")
  {
    var ps, cs, ds := data.participants, data.contributions, data.distributions;
    var csvRows := HeaderSection(data, iso, exportedAt);
    csvRows := PushParticipantsSection(csvRows, ps);
    csvRows := PushContributionsSection(csvRows, ps, cs, showTime);
    csvRows := PushDistributionsSection(csvRows, ps, cs, ds, showTime);
    csvRows := PushCommentsSection(csvRows, ps, data.comments, showTime);
    csvRows := csvRows + SummarySection(data);
    var summary := PointsSummary(ps, cs, ds);
    csvRows := PushSummaryRows(csvRows, ps, cs, ds, summary);
    csv := Join(csvRows, "\n");
  }

  /** Every data row of the export opens with a quote. */
  lemma DataRowsQuoted(data: ExportData, showTime: Millis -> string)
    ensures QuotedRows(ParticipantRows(data.participants))
    ensures QuotedRows(ContributionRows(data.participants, data.contributions, showTime))
    ensures QuotedRows(DistributionRows(data.participants, data.contributions, data.distributions, showTime))
  {
  }

  lemma SummaryRowsQuoted(ps: seq<Participant>, cs: seq<Contribution>, ds: seq<Distribution>)
    ensures QuotedRows(SummaryRows(ps, cs, ds))
  {
  }

  /** The COMMENTS heading appears exactly when there is a comment. */
  lemma CommentsSectionIffComments(data: ExportData, iso: Millis -> string, showTime: Millis -> string, exportedAt: Millis)
    ensures CommentsHeading in CsvRows(data, iso, showTime, exportedAt) <==> |data.comments| > 0
  {
    var ps, cs, ds := data.participants, data.contributions, data.distributions;
    DataRowsQuoted(data, showTime);
    HeaderLacksCommentsHeading(data, iso, exportedAt);
    SectionLacksCommentsHeading(ParticipantsHeading, ParticipantColumns, ParticipantRows(ps));
    SectionLacksCommentsHeading(ContributionsHeading, ContributionColumns, ContributionRows(ps, cs, showTime));
    SectionLacksCommentsHeading(DistributionsHeading, DistributionColumns, DistributionRows(ps, cs, ds, showTime));
    SummaryLacksCommentsHeading(data);
    if |data.comments| > 0 {
      assert CommentsSection(ps, data.comments, showTime)[0] == CommentsHeading;
    }
  }

  lemma HeaderLacksCommentsHeading(data: ExportData, iso: Millis -> string, exportedAt: Millis)
    ensures CommentsHeading !in HeaderSection(data, iso, exportedAt)
  {
    var h := HeaderSection(data, iso, exportedAt);
    forall i | 0 <= i < |h|
      ensures h[i] != CommentsHeading
    {
      if i < 5 {
        assert h[i][1] == ' ' != CommentsHeading[1];
      }
    }
  }

  /** A section of a heading, a column line, data rows and a blank line has no COMMENTS heading unless it opens with one. */
  lemma SectionLacksCommentsHeading(heading: string, columns: string, rows: seq<string>)
    requires heading != CommentsHeading && columns != CommentsHeading
    requires QuotedRows(rows)
    ensures CommentsHeading !in [heading, columns] + rows + [""]
  {
    NotInQuoted(CommentsHeading, rows);
  }

  lemma SummaryLacksCommentsHeading(data: ExportData)
    ensures CommentsHeading !in SummarySection(data) + SummaryRows(data.participants, data.contributions, data.distributions)
  {
    var s := SummarySection(data);
    forall i | 0 <= i < |s|
      ensures s[i] != CommentsHeading
    {
      if 2 <= i < 6 {
        assert s[i][0] == '"';
      }
    }
    SummaryRowsQuoted(data.participants, data.contributions, data.distributions);
    NotInQuoted(CommentsHeading, SummaryRows(data.participants, data.contributions, data.distributions));
  }

  /** A heading that does not open with a quote is not among data rows. */
  lemma NotInQuoted(heading: string, rows: seq<string>)
    requires QuotedRows(rows)
    requires |heading| > 0 && heading[0] != '"'
    ensures heading !in rows
  {
  }

  /**
   * The summary reports the sum of all distributed points, and the points
   * summary closes the export: its last rows are one row per participant,
   * in input order, carrying their received and given tallies.
   */
  lemma SummaryContents(data: ExportData, iso: Millis -> string, showTime: Millis -> string, exportedAt: Millis)
    ensures var rows := CsvRows(data, iso, showTime, exportedAt);
      && TotalPointsRow(data.distributions) in rows
      && |rows| >= |data.participants|
      && rows[|rows| - |data.participants|..] == SummaryRows(data.participants, data.contributions, data.distributions)
  {
    SummaryTail(DataSections(data, iso, showTime, exportedAt), data);
  }

  /** Whatever comes before it, the summary section and the per-participant rows close the export. */
  lemma SummaryTail(prefix: seq<string>, data: ExportData)
    ensures var rows := prefix + SummarySection(data) + SummaryRows(data.participants, data.contributions, data.distributions);
      && TotalPointsRow(data.distributions) in rows
      && |rows| >= |data.participants|
      && rows[|rows| - |data.participants|..] == SummaryRows(data.participants, data.contributions, data.distributions)
      && rows[|rows| - 1] != ""
      && rows[|rows| - 1][|rows[|rows| - 1]| - 1] != '\n'
  {
    var ps := data.participants;
    var tail := SummaryRows(ps, data.contributions, data.distributions);
    var rows := prefix + SummarySection(data) + tail;
    assert rows[|prefix| + 4] == TotalPointsRow(data.distributions);
    assert rows[|rows| - |ps|..] == tail;
    if |ps| > 0 {
      var last := tail[|ps| - 1];
      assert rows[|rows| - 1] == last;
      assert last[|last| - 1] == '"';
    }
  }

  /** The output never ends with a newline: the last row is never empty. */
  lemma NoTrailingNewline(data: ExportData, iso: Millis -> string, showTime: Millis -> string, exportedAt: Millis)
    ensures var csv := Join(CsvRows(data, iso, showTime, exportedAt), "\n");
      |csv| > 0 && csv[|csv| - 1] != '\n'
  {
    var rows := CsvRows(data, iso, showTime, exportedAt);
    SummaryTail(DataSections(data, iso, showTime, exportedAt), data);
    NoTrailingSeparator(rows);
  }

  /** Joining rows whose last one is non-empty and ends otherwise than in a newline leaves no trailing newline. */
  lemma NoTrailingSeparator(rows: seq<string>)
    requires rows != [] && rows[|rows| - 1] != ""
    requires rows[|rows| - 1][|rows[|rows| - 1]| - 1] != '\n'
    ensures var csv := Join(rows, "\n"); |csv| > 0 && csv[|csv| - 1] != '\n'
  {
    var last := rows[|rows| - 1];
    JoinEndsWithLast(rows, "\n");
    var csv := Join(rows, "\n");
    assert csv[|csv| - |last|..][|last| - 1] == last[|last| - 1];
  }
}
