/**
 * The document store shared by the file-backed and the hosted key-value
 * back ends: one `Database` object holding the five row lists, and the
 * operations that change them in place. Reading and writing the document
 * is not modelled; every method works on the in-memory document.
 */
module ChapterStore {
  import opened Seqs
  import opened Model
  import opened Text

  // ---------------------------------------------------------------------------
  // The phase table of `updateChapterStatus`
  // ---------------------------------------------------------------------------

  /** End of the contribution phase when it (re)starts at `now`: the deadline, else `now` plus the legacy duration. */
  function ContributionEndFor(c: Chapter, now: Millis): (e: Millis)
    ensures c.contributionDeadline.Some? ==> e == c.contributionDeadline.value
    ensures c.contributionDeadline.None? ==> e == now + DurationOr(c.contributionDuration, DefaultContributionDuration)
  {
    if c.contributionDeadline.Some? then c.contributionDeadline.value
    else now + DurationOr(c.contributionDuration, DefaultContributionDuration)
  }

  /** End of the distribution phase when it (re)starts at `now`: the deadline, else `now` plus the legacy duration. */
  function DistributionEndFor(c: Chapter, now: Millis): (e: Millis)
    ensures c.distributionDeadline.Some? ==> e == c.distributionDeadline.value
    ensures c.distributionDeadline.None? ==> e == now + DurationOr(c.distributionDuration, DefaultDistributionDuration)
  {
    if c.distributionDeadline.Some? then c.distributionDeadline.value
    else now + DurationOr(c.distributionDuration, DefaultDistributionDuration)
  }

  /** Everything except the status and the four stamped times. */
  predicate SameSettings(a: Chapter, b: Chapter)
  {
    && a.id == b.id && a.title == b.title
    && a.contributionDuration == b.contributionDuration
    && a.distributionDuration == b.distributionDuration
    && a.contributionDeadline == b.contributionDeadline
    && a.distributionDeadline == b.distributionDeadline
    && a.participants == b.participants && a.createdAt == b.createdAt
  }

  /**
   * The chapter after a manual move to `status` at `now`, as a table per
   * target phase. Which times are set, kept or cleared depends on the
   * previous status `c.status`.
   */
  function ApplyStatus(c: Chapter, status: Status, now: Millis): (r: Chapter)
    ensures r.status == status && SameSettings(r, c)
    ensures status == Setup ==>
      r.startTime.None? && r.endTime.None? && r.contributionEndTime.None? && r.distributionEndTime.None?
    ensures status == ContributionPhase ==>
      && (c.status == Setup || c.startTime.None? ==> r.startTime == Some(now))
      && (c.status != Setup && c.startTime.Some? ==> r.startTime == c.startTime)
      && (c.status in {DistributionPhase, Finished} ==> r.endTime.None? && r.distributionEndTime.None?)
      && (c.status in {Setup, ContributionPhase} ==> r.endTime == c.endTime && r.distributionEndTime == c.distributionEndTime)
      && r.contributionEndTime == Some(ContributionEndFor(c, now))
    ensures status == DistributionPhase ==>
      && r.startTime == (if c.startTime.None? then Some(now) else c.startTime)
      && r.endTime == (if c.status == Finished then None else c.endTime)
      && r.contributionEndTime == c.contributionEndTime
      && r.distributionEndTime == Some(DistributionEndFor(c, now))
    ensures status == Finished ==> r == c.(status := Finished, endTime := Some(now))
  {
    match status
    case Setup =>
      c.(status := Setup, startTime := None, endTime := None,
         contributionEndTime := None, distributionEndTime := None)
    case ContributionPhase =>
      var regress := c.status == DistributionPhase || c.status == Finished;
      c.(status := ContributionPhase,
         startTime := if c.status == Setup || c.startTime.None? then Some(now) else c.startTime,
         endTime := if regress then None else c.endTime,
         distributionEndTime := if regress then None else c.distributionEndTime,
         contributionEndTime := Some(ContributionEndFor(c, now)))
    case DistributionPhase =>
      c.(status := DistributionPhase,
         startTime := if c.startTime.None? then Some(now) else c.startTime,
         endTime := if c.status == Finished then None else c.endTime,
         distributionEndTime := Some(DistributionEndFor(c, now)))
    case Finished =>
      c.(status := Finished, endTime := Some(now))
  }

  /** Repeating a manual move at the same instant changes nothing further. */
  lemma ApplyStatusIdempotent(c: Chapter, status: Status, now: Millis)
    ensures ApplyStatus(ApplyStatus(c, status, now), status, now) == ApplyStatus(c, status, now)
  {
  }

  /** A move back to setup forgets the chapter's whole timing history. */
  lemma SetupForgetsHistory(a: Chapter, b: Chapter, n1: Millis, n2: Millis)
    requires SameSettings(a, b)
    ensures ApplyStatus(a, Setup, n1) == ApplyStatus(b, Setup, n2)
  {
  }

  // ---------------------------------------------------------------------------
  // Row constructors and filters
  // ---------------------------------------------------------------------------

  /** The Participant rows `createChapter` adds, one per name, in order. */
  function NewParticipants(names: seq<string>, ids: seq<Id>, chapterId: Id): (ps: seq<Participant>)
    requires |ids| == |names|
    ensures |ps| == |names|
    ensures forall i :: 0 <= i < |ps| ==>
      ps[i].id == ids[i] && ps[i].name == names[i] && ps[i].chapterId == chapterId
  {
    seq(|names|, i requires 0 <= i < |names| => Participant(ids[i], names[i], chapterId))
  }

  /** The Distribution rows `distributePoints` adds for the submitted entries, in order. */
  function NewRows(from: Id, entries: seq<Entry>, chapterId: Id, ids: seq<Id>, now: Millis): (rows: seq<Distribution>)
    requires |ids| == |entries|
    ensures |rows| == |entries|
    ensures forall i :: 0 <= i < |rows| ==>
      rows[i] == Distribution(ids[i], from, entries[i].contributionId, entries[i].points, chapterId, now)
  {
    seq(|entries|, i requires 0 <= i < |entries| =>
      Distribution(ids[i], from, entries[i].contributionId, entries[i].points, chapterId, now))
  }

  /** The rows of one (participant, chapter) allocation. */
  function AllocationOf(ds: seq<Distribution>, from: Id, chapterId: Id): seq<Distribution>
  {
    Filter(ds, (d: Distribution) => d.fromParticipantId == from && d.chapterId == chapterId)
  }

  /** The ledger after `distributePoints`: every row of the pair dropped, the new rows appended. */
  function ReplaceAllocation(ds: seq<Distribution>, from: Id, chapterId: Id, rows: seq<Distribution>): seq<Distribution>
  {
    Filter(ds, (d: Distribution) => d.fromParticipantId != from || d.chapterId != chapterId) + rows
  }

  /** After a replace, the pair's rows are exactly the new rows, in order. */
  lemma ReplaceAllocationOwnRows(ds: seq<Distribution>, from: Id, chapterId: Id, rows: seq<Distribution>)
    requires forall i :: 0 <= i < |rows| ==> rows[i].fromParticipantId == from && rows[i].chapterId == chapterId
    ensures AllocationOf(ReplaceAllocation(ds, from, chapterId, rows), from, chapterId) == rows
  {
    var kept := Filter(ds, (d: Distribution) => d.fromParticipantId != from || d.chapterId != chapterId);
    var mine := (d: Distribution) => d.fromParticipantId == from && d.chapterId == chapterId;
    FilterAppend(kept, rows, mine);
    FilterNone(kept, mine);
    FilterAll(rows, mine);
  }

  /** A replace never touches the allocation of any other (participant, chapter) pair. */
  lemma ReplaceAllocationOtherRows(ds: seq<Distribution>, from: Id, chapterId: Id, rows: seq<Distribution>, f: Id, c: Id)
    requires forall i :: 0 <= i < |rows| ==> rows[i].fromParticipantId == from && rows[i].chapterId == chapterId
    requires f != from || c != chapterId
    ensures AllocationOf(ReplaceAllocation(ds, from, chapterId, rows), f, c) == AllocationOf(ds, f, c)
  {
    var keep := (d: Distribution) => d.fromParticipantId != from || d.chapterId != chapterId;
    var theirs := (d: Distribution) => d.fromParticipantId == f && d.chapterId == c;
    FilterAppend(Filter(ds, keep), rows, theirs);
    FilterNone(rows, theirs);
    FilterNarrow(ds, keep, theirs);
  }

  lemma {:induction false} NewRowsSum(from: Id, entries: seq<Entry>, chapterId: Id, ids: seq<Id>, now: Millis)
    requires |ids| == |entries|
    ensures SumPoints(NewRows(from, entries, chapterId, ids, now)) == SumEntries(entries)
    decreases |entries|
  {
    if entries != [] {
      var n := |entries| - 1;
      NewRowsSum(from, entries[..n], chapterId, ids[..n], now);
      assert NewRows(from, entries, chapterId, ids, now)
          == NewRows(from, entries[..n], chapterId, ids[..n], now) + [NewRows(from, entries, chapterId, ids, now)[n]];
      SumPointsSnoc(NewRows(from, entries[..n], chapterId, ids[..n], now), NewRows(from, entries, chapterId, ids, now)[n]);
    }
  }

  /** After a replace, the pair's total is the total of the submitted entries: earlier rows never add up. */
  lemma ReplaceAllocationTotal(ds: seq<Distribution>, from: Id, entries: seq<Entry>, chapterId: Id, ids: seq<Id>, now: Millis)
    requires |ids| == |entries|
    ensures SumPoints(AllocationOf(ReplaceAllocation(ds, from, chapterId, NewRows(from, entries, chapterId, ids, now)), from, chapterId))
         == SumEntries(entries)
  {
    ReplaceAllocationOwnRows(ds, from, chapterId, NewRows(from, entries, chapterId, ids, now));
    NewRowsSum(from, entries, chapterId, ids, now);
  }

  /** `toLowerCase` comparison of the stored name against the submitted, untrimmed name. */
  predicate NameTaken(ps: seq<Participant>, chapterId: Id, name: string)
  {
    exists i :: 0 <= i < |ps| && ps[i].chapterId == chapterId && Lower(ps[i].name) == Lower(name)
  }

  /** Position of the first participant of the chapter with the name, ignoring case, or -1. */
  function NameIndex(ps: seq<Participant>, chapterId: Id, name: string): (i: int)
    ensures i == -1 <==> !NameTaken(ps, chapterId, name)
  {
    FirstIndex(ps, (p: Participant) => p.chapterId == chapterId && Lower(p.name) == Lower(name))
  }

  /**
   * The duplicate check looks at the untrimmed input, so a padded name that
   * differs from an existing one only by case and surrounding spaces gets in.
   */
  lemma PaddedDuplicateAdmitted()
    ensures var ps := [Participant("p1", "Bob", "c1")];
      !NameTaken(ps, "c1", " bob ") && Lower(Trim(" bob ")) == Lower(ps[0].name)
  {
    var ps := [Participant("p1", "Bob", "c1")];
    assert Lower(" bob ")[0] == ' ';
    assert Lower(ps[0].name)[0] == 'b';
    assert LeadingSpaces(" bob ") == 1;
    assert TrailingSpaces(" bob "[1..]) == 1;
    assert Trim(" bob ") == "bob";
  }

  // ---------------------------------------------------------------------------
  // Keyed filters used by the cascading deletes
  // ---------------------------------------------------------------------------

  function ParticipantChapter(p: Participant): Id { p.chapterId }
  function ContributionChapter(c: Contribution): Id { c.chapterId }
  function CommentChapter(c: Comment): Id { c.chapterId }
  function CommentAuthor(c: Comment): Id { c.participantId }
  function CommentTarget(c: Comment): Id { c.contributionId }
  function DistributionChapter(d: Distribution): Id { d.chapterId }
  function DistributionSender(d: Distribution): Id { d.fromParticipantId }
  function DistributionTarget(d: Distribution): Id { d.toContributionId }

  /** The rows whose key is `k`, in stored order. */
  function WithKey<T>(s: seq<T>, key: T -> Id, k: Id): (r: seq<T>)
    ensures forall i :: 0 <= i < |r| ==> r[i] in s && key(r[i]) == k
    ensures forall i :: 0 <= i < |s| && key(s[i]) == k ==> s[i] in r
  {
    Filter(s, x => key(x) == k)
  }

  /** The rows whose key is not `k`, in stored order: what a cascading delete of `k` leaves. */
  function WithoutKey<T>(s: seq<T>, key: T -> Id, k: Id): (r: seq<T>)
    ensures forall i :: 0 <= i < |r| ==> r[i] in s && key(r[i]) != k
    ensures forall i :: 0 <= i < |s| && key(s[i]) != k ==> s[i] in r
  {
    Filter(s, x => key(x) != k)
  }

  /** A cascading delete of `k` leaves no row keyed by `k`. */
  lemma WithoutKeyLeavesNone<T>(s: seq<T>, key: T -> Id, k: Id)
    ensures WithKey(WithoutKey(s, key, k), key, k) == []
  {
    FilterNone(WithoutKey(s, key, k), x => key(x) == k);
  }

  /** A cascading delete of `k` leaves the rows of every other key exactly as they were, in order. */
  lemma WithoutKeyKeepsOtherKeys<T>(s: seq<T>, key: T -> Id, k: Id, q: Id)
    requires q != k
    ensures WithKey(WithoutKey(s, key, k), key, q) == WithKey(s, key, q)
  {
    FilterNarrow(s, x => key(x) != k, x => key(x) == q);
  }

  /** The contributions neither about nor by `pid`. */
  function ContributionsWithout(cs: seq<Contribution>, pid: Id): (r: seq<Contribution>)
    ensures forall i :: 0 <= i < |r| ==> r[i] in cs && r[i].participantId != pid && r[i].authorId != pid
    ensures forall i :: 0 <= i < |cs| && cs[i].participantId != pid && cs[i].authorId != pid ==> cs[i] in r
  {
    Filter(cs, (c: Contribution) => c.participantId != pid && c.authorId != pid)
  }

  /** Position of the first chapter with this id, or -1. */
  function ChapterIndex(epochs: seq<Chapter>, id: Id): (i: int)
    ensures -1 <= i < |epochs|
    ensures i == -1 <==> forall j :: 0 <= j < |epochs| ==> epochs[j].id != id
    ensures 0 <= i ==> epochs[i].id == id && forall j :: 0 <= j < i ==> epochs[j].id != id
  {
    FirstIndex(epochs, (c: Chapter) => c.id == id)
  }

  /** Position of the first participant with this id, or -1. */
  function ParticipantIndex(ps: seq<Participant>, id: Id): (i: int)
    ensures -1 <= i < |ps|
    ensures i == -1 <==> forall j :: 0 <= j < |ps| ==> ps[j].id != id
    ensures 0 <= i ==> ps[i].id == id && forall j :: 0 <= j < i ==> ps[j].id != id
  {
    FirstIndex(ps, (p: Participant) => p.id == id)
  }

  /** Position of the first contribution with this id, or -1. */
  function ContributionIndex(cs: seq<Contribution>, id: Id): (i: int)
    ensures -1 <= i < |cs|
    ensures i == -1 <==> forall j :: 0 <= j < |cs| ==> cs[j].id != id
    ensures 0 <= i ==> cs[i].id == id && forall j :: 0 <= j < i ==> cs[j].id != id
  {
    FirstIndex(cs, (c: Contribution) => c.id == id)
  }

  /** `indexOf` then `splice(i, 1)`: the first occurrence of `name` leaves the list, if there is one. */
  function RemoveName(names: seq<string>, name: string): (r: seq<string>)
    ensures name in names ==> multiset(r) + multiset{name} == multiset(names)
    ensures name in names ==>
      exists i :: 0 <= i < |names| && names[i] == name && name !in names[..i] && r == names[..i] + names[i + 1..]
    ensures name !in names ==> r == names
  {
    var i := FirstOccurrence(names, name);
    if i == -1 then names
    else
      assert RemoveAt(names, i) == names[..i] + names[i + 1..];
      RemoveAt(names, i)
  }

  // ---------------------------------------------------------------------------
  // The document
  // ---------------------------------------------------------------------------

  class Database {
    var epochs: seq<Chapter>
    var participants: seq<Participant>
    var contributions: seq<Contribution>
    var comments: seq<Comment>
    var distributions: seq<Distribution>

    /** The empty document a fresh store starts from. */
    constructor ()
      ensures epochs == [] && participants == [] && contributions == []
      ensures comments == [] && distributions == []
    {
      epochs, participants, contributions, comments, distributions := [], [], [], [], [];
    }

    /**
     * `createChapter`: appends one chapter in setup with no stamped times
     * and one Participant per name. Unset or zero legacy durations default
     * to one hour and half an hour.
     */
    method CreateChapter(id: Id, title: string, participantNames: seq<string>, participantIds: seq<Id>,
                         contributionDeadline: Option<Millis>, distributionDeadline: Option<Millis>,
                         contributionDuration: Option<int>, distributionDuration: Option<int>, now: Millis)
      returns (chapter: Chapter)
      requires |participantIds| == |participantNames|
      modifies this
      ensures chapter.id == id && chapter.title == title && chapter.status == Setup
      ensures chapter.participants == participantNames && chapter.createdAt == now
      ensures chapter.startTime.None? && chapter.endTime.None?
      ensures chapter.contributionEndTime.None? && chapter.distributionEndTime.None?
      ensures chapter.contributionDeadline == contributionDeadline
      ensures chapter.distributionDeadline == distributionDeadline
      ensures chapter.contributionDuration == Some(DurationOr(contributionDuration, DefaultContributionDuration))
      ensures chapter.distributionDuration == Some(DurationOr(distributionDuration, DefaultDistributionDuration))
      ensures epochs == old(epochs) + [chapter]
      ensures participants == old(participants) + NewParticipants(participantNames, participantIds, id)
      ensures contributions == old(contributions) && comments == old(comments)
      ensures distributions == old(distributions)
    {
      chapter := Chapter(id, title,
        Some(DurationOr(contributionDuration, DefaultContributionDuration)),
        Some(DurationOr(distributionDuration, DefaultDistributionDuration)),
        contributionDeadline, distributionDeadline, participantNames, Setup,
        None, None, None, None, now);
      epochs := epochs + [chapter];
      participants := participants + NewParticipants(participantNames, participantIds, id);
    }

    /** `getChapter`: the first chapter with this id. */
    function GetChapter(id: Id): (r: Option<Chapter>)
      reads this
      ensures r.None? <==> forall i :: 0 <= i < |epochs| ==> epochs[i].id != id
      ensures r.Some? ==> r.value in epochs && r.value.id == id
      ensures forall i :: 0 <= i < |epochs| && epochs[i].id == id && (forall j :: 0 <= j < i ==> epochs[j].id != id) ==>
        r == Some(epochs[i])
    {
      var i := ChapterIndex(epochs, id);
      if i == -1 then None else Some(epochs[i])
    }

    /** `getActiveChapter`: the first chapter, in stored order, that is not finished. */
    function GetActiveChapter(): (r: Option<Chapter>)
      reads this
      ensures r.None? <==> forall i :: 0 <= i < |epochs| ==> epochs[i].status == Finished
      ensures r.Some? ==> r.value.status != Finished
      ensures r.Some? ==>
        exists i :: 0 <= i < |epochs| && epochs[i] == r.value && forall j :: 0 <= j < i ==> epochs[j].status == Finished
    {
      var i := FirstIndex(epochs, (c: Chapter) => c.status != Finished);
      if i == -1 then None else Some(epochs[i])
    }

    /**
     * `updateChapterStatus`: the first chapter with this id gets the new
     * status and its times are set, kept or cleared branch by branch;
     * an unknown id changes nothing.
     */
    method UpdateChapterStatus(id: Id, status: Status, now: Millis)
      modifies this
      ensures var i := ChapterIndex(old(epochs), id);
        epochs == if i == -1 then old(epochs) else old(epochs)[i := ApplyStatus(old(epochs)[i], status, now)]
      ensures participants == old(participants) && contributions == old(contributions)
      ensures comments == old(comments) && distributions == old(distributions)
    {
      var chapterIndex := ChapterIndex(epochs, id);
      if chapterIndex != -1 {
        var chapter := epochs[chapterIndex];
        var previousStatus := chapter.status;
        chapter := chapter.(status := status);
        if status == Setup {
          chapter := chapter.(startTime := None, endTime := None,
                              contributionEndTime := None, distributionEndTime := None);
        } else if status == ContributionPhase {
          if previousStatus == Setup || chapter.startTime.None? {
            chapter := chapter.(startTime := Some(now));
          }
          if previousStatus == DistributionPhase || previousStatus == Finished {
            chapter := chapter.(endTime := None, distributionEndTime := None);
          }
          if chapter.contributionDeadline.Some? {
            chapter := chapter.(contributionEndTime := chapter.contributionDeadline);
          } else {
            chapter := chapter.(contributionEndTime :=
              Some(now + DurationOr(chapter.contributionDuration, DefaultContributionDuration)));
          }
        } else if status == DistributionPhase {
          if chapter.startTime.None? {
            chapter := chapter.(startTime := Some(now));
          }
          if previousStatus == Finished {
            chapter := chapter.(endTime := None);
          }
          if chapter.distributionDeadline.Some? {
            chapter := chapter.(distributionEndTime := chapter.distributionDeadline);
          } else {
            chapter := chapter.(distributionEndTime :=
              Some(now + DurationOr(chapter.distributionDuration, DefaultDistributionDuration)));
          }
        } else {
          chapter := chapter.(endTime := Some(now));
        }
        epochs := epochs[chapterIndex := chapter];
      }
    }

    /** `getParticipants`: the chapter's participants, in stored order. */
    function GetParticipants(chapterId: Id): (r: seq<Participant>)
      reads this
      ensures forall i :: 0 <= i < |r| ==> r[i] in participants && r[i].chapterId == chapterId
      ensures forall i :: 0 <= i < |participants| && participants[i].chapterId == chapterId ==> participants[i] in r
    {
      Filter(participants, (p: Participant) => p.chapterId == chapterId)
    }

    /**
     * `deleteChapter`: false and no change for an unknown id; otherwise the
     * first chapter with the id is spliced out and every participant,
     * contribution, comment and distribution of that chapter is dropped
     * (`WithoutKeyLeavesNone`, `WithoutKeyKeepsOtherKeys` say what that
     * leaves of each chapter's rows).
     */
    method DeleteChapter(id: Id) returns (deleted: bool)
      modifies this
      ensures deleted <==> ChapterIndex(old(epochs), id) != -1
      ensures !deleted ==>
        && epochs == old(epochs) && participants == old(participants)
        && contributions == old(contributions) && comments == old(comments)
        && distributions == old(distributions)
      ensures deleted ==>
        && epochs == RemoveAt(old(epochs), ChapterIndex(old(epochs), id))
        && participants == WithoutKey(old(participants), ParticipantChapter, id)
        && contributions == WithoutKey(old(contributions), ContributionChapter, id)
        && comments == WithoutKey(old(comments), CommentChapter, id)
        && distributions == WithoutKey(old(distributions), DistributionChapter, id)
    {
      var chapterIndex := ChapterIndex(epochs, id);
      if chapterIndex == -1 {
        return false;
      }
      epochs := RemoveAt(epochs, chapterIndex);
      participants := WithoutKey(participants, ParticipantChapter, id);
      contributions := WithoutKey(contributions, ContributionChapter, id);
      comments := WithoutKey(comments, CommentChapter, id);
      distributions := WithoutKey(distributions, DistributionChapter, id);
      return true;
    }

    /** `getParticipant`: the first participant with this id. */
    function GetParticipant(id: Id): (r: Option<Participant>)
      reads this
      ensures r.None? <==> forall i :: 0 <= i < |participants| ==> participants[i].id != id
      ensures r.Some? ==> r.value in participants && r.value.id == id
      ensures forall i :: 0 <= i < |participants| && participants[i].id == id && (forall j :: 0 <= j < i ==> participants[j].id != id) ==>
        r == Some(participants[i])
    {
      var i := ParticipantIndex(participants, id);
      if i == -1 then None else Some(participants[i])
    }

    /**
     * `addParticipantToChapter`: no participant for an unknown chapter or a
     * name already used in the chapter (ignoring ASCII case, comparing the
     * untrimmed input). Otherwise one Participant with the trimmed name is
     * appended, and the trimmed name is added to the chapter's name list
     * unless already there.
     */
    method AddParticipantToChapter(chapterId: Id, participantName: string, newId: Id) returns (r: Option<Participant>)
      modifies this
      ensures var ci := ChapterIndex(old(epochs), chapterId);
        r.Some? <==> ci != -1 && !NameTaken(old(participants), chapterId, participantName)
      ensures r.None? ==> epochs == old(epochs) && participants == old(participants)
      ensures r.Some? ==>
        var ci := ChapterIndex(old(epochs), chapterId);
        var name := Trim(participantName);
        var names := old(epochs)[ci].participants;
        && r.value == Participant(newId, name, chapterId)
        && participants == old(participants) + [r.value]
        && epochs == old(epochs)[ci := old(epochs)[ci].(participants := if name in names then names else names + [name])]
      ensures contributions == old(contributions) && comments == old(comments)
      ensures distributions == old(distributions)
    {
      var ci := ChapterIndex(epochs, chapterId);
      if ci == -1 {
        return None;
      }
      var chapter := epochs[ci];
      if NameIndex(participants, chapterId, participantName) != -1 {
        return None;
      }
      var name := Trim(participantName);
      var newParticipant := Participant(newId, name, chapterId);
      participants := participants + [newParticipant];
      if name !in chapter.participants {
        chapter := chapter.(participants := chapter.participants + [name]);
      }
      epochs := epochs[ci := chapter];
      return Some(newParticipant);
    }

    /**
     * `removeParticipantFromChapter`: false and no change when the
     * participant or their chapter is missing. Otherwise the participant
     * row is spliced out, the first equal name leaves the chapter's name
     * list, and every contribution about or by them, every comment by them
     * and every distribution from them is dropped. Distributions from
     * others to the dropped contributions stay.
     */
    method RemoveParticipantFromChapter(participantId: Id) returns (removed: bool)
      modifies this
      ensures var pi := ParticipantIndex(old(participants), participantId);
        removed <==> (pi != -1 && ChapterIndex(old(epochs), old(participants)[pi].chapterId) != -1)
      ensures !removed ==>
        && epochs == old(epochs) && participants == old(participants)
        && contributions == old(contributions) && comments == old(comments)
        && distributions == old(distributions)
      ensures removed ==>
        var pi := ParticipantIndex(old(participants), participantId);
        var gone := old(participants)[pi];
        var ci := ChapterIndex(old(epochs), gone.chapterId);
        && participants == RemoveAt(old(participants), pi)
        && epochs == old(epochs)[ci := old(epochs)[ci].(participants := RemoveName(old(epochs)[ci].participants, gone.name))]
        && contributions == ContributionsWithout(old(contributions), participantId)
        && comments == WithoutKey(old(comments), CommentAuthor, participantId)
        && distributions == WithoutKey(old(distributions), DistributionSender, participantId)
    {
      var pi := ParticipantIndex(participants, participantId);
      if pi == -1 {
        return false;
      }
      var participant := participants[pi];
      var ci := ChapterIndex(epochs, participant.chapterId);
      if ci == -1 {
        return false;
      }
      var chapter := epochs[ci];
      participants := RemoveAt(participants, pi);
      chapter := chapter.(participants := RemoveName(chapter.participants, participant.name));
      epochs := epochs[ci := chapter];
      contributions := ContributionsWithout(contributions, participantId);
      comments := WithoutKey(comments, CommentAuthor, participantId);
      distributions := WithoutKey(distributions, DistributionSender, participantId);
      return true;
    }

    /** `createContribution`: always appends a new row, even for an (author, subject) pair that already has one. */
    method CreateContribution(id: Id, participantId: Id, authorId: Id, chapterId: Id, description: string, now: Millis)
      returns (c: Contribution)
      modifies this
      ensures c == Contribution(id, participantId, authorId, chapterId, description, now)
      ensures contributions == old(contributions) + [c]
      ensures epochs == old(epochs) && participants == old(participants)
      ensures comments == old(comments) && distributions == old(distributions)
    {
      c := Contribution(id, participantId, authorId, chapterId, description, now);
      contributions := contributions + [c];
    }

    /** `updateContribution`: false for an unknown id; otherwise only the first such row's description and timestamp change. */
    method UpdateContribution(contributionId: Id, description: string, now: Millis) returns (updated: bool)
      modifies this
      ensures var i := ContributionIndex(old(contributions), contributionId);
        && (updated <==> i != -1)
        && contributions == if i == -1 then old(contributions)
           else old(contributions)[i := old(contributions)[i].(description := description, createdAt := now)]
      ensures epochs == old(epochs) && participants == old(participants)
      ensures comments == old(comments) && distributions == old(distributions)
    {
      var i := ContributionIndex(contributions, contributionId);
      if i != -1 {
        contributions := contributions[i := contributions[i].(description := description, createdAt := now)];
        return true;
      }
      return false;
    }

    /**
     * `deleteContribution`: false for an unknown id; otherwise the first row
     * with the id is spliced out, with every comment on it and every
     * distribution to it.
     */
    method DeleteContribution(contributionId: Id) returns (deleted: bool)
      modifies this
      ensures var i := ContributionIndex(old(contributions), contributionId);
        && (deleted <==> i != -1)
        && (!deleted ==> contributions == old(contributions) && comments == old(comments)
                         && distributions == old(distributions))
        && (deleted ==>
             && contributions == RemoveAt(old(contributions), i)
             && comments == WithoutKey(old(comments), CommentTarget, contributionId)
             && distributions == WithoutKey(old(distributions), DistributionTarget, contributionId))
      ensures epochs == old(epochs) && participants == old(participants)
    {
      var i := ContributionIndex(contributions, contributionId);
      if i == -1 {
        return false;
      }
      contributions := RemoveAt(contributions, i);
      comments := WithoutKey(comments, CommentTarget, contributionId);
      distributions := WithoutKey(distributions, DistributionTarget, contributionId);
      return true;
    }

    /** `getContributions`: the chapter's contributions, in stored order. */
    function GetContributions(chapterId: Id): (r: seq<Contribution>)
      reads this
      ensures forall i :: 0 <= i < |r| ==> r[i] in contributions && r[i].chapterId == chapterId
      ensures forall i :: 0 <= i < |contributions| && contributions[i].chapterId == chapterId ==> contributions[i] in r
    {
      Filter(contributions, (c: Contribution) => c.chapterId == chapterId)
    }

    /** `createComment`: appends one comment. */
    method CreateComment(id: Id, contributionId: Id, participantId: Id, chapterId: Id, text: string, now: Millis)
      returns (c: Comment)
      modifies this
      ensures c == Comment(id, contributionId, participantId, chapterId, text, now)
      ensures comments == old(comments) + [c]
      ensures epochs == old(epochs) && participants == old(participants)
      ensures contributions == old(contributions) && distributions == old(distributions)
    {
      c := Comment(id, contributionId, participantId, chapterId, text, now);
      comments := comments + [c];
    }

    /** `getComments`: the comments on one contribution, in stored order. */
    function GetComments(contributionId: Id): (r: seq<Comment>)
      reads this
      ensures forall i :: 0 <= i < |r| ==> r[i] in comments && r[i].contributionId == contributionId
      ensures forall i :: 0 <= i < |comments| && comments[i].contributionId == contributionId ==> comments[i] in r
    {
      Filter(comments, (c: Comment) => c.contributionId == contributionId)
    }

    /**
     * `distributePoints`: replace-all. Every row of (`fromParticipantId`,
     * `chapterId`) is dropped and one row per submitted entry is appended,
     * so that pair's rows are exactly the submission, in order, and every
     * other pair's rows are untouched.
     */
    method DistributePoints(fromParticipantId: Id, entries: seq<Entry>, chapterId: Id, ids: seq<Id>, now: Millis)
      requires |ids| == |entries|
      modifies this
      ensures distributions == ReplaceAllocation(old(distributions), fromParticipantId, chapterId,
                                                 NewRows(fromParticipantId, entries, chapterId, ids, now))
      ensures AllocationOf(distributions, fromParticipantId, chapterId)
           == NewRows(fromParticipantId, entries, chapterId, ids, now)
      ensures SumPoints(AllocationOf(distributions, fromParticipantId, chapterId)) == SumEntries(entries)
      ensures forall f, c :: f != fromParticipantId || c != chapterId ==>
        AllocationOf(distributions, f, c) == AllocationOf(old(distributions), f, c)
      ensures epochs == old(epochs) && participants == old(participants)
      ensures contributions == old(contributions) && comments == old(comments)
    {
      var rows := NewRows(fromParticipantId, entries, chapterId, ids, now);
      ReplaceAllocationOwnRows(distributions, fromParticipantId, chapterId, rows);
      ReplaceAllocationTotal(distributions, fromParticipantId, entries, chapterId, ids, now);
      forall f, c | f != fromParticipantId || c != chapterId
        ensures AllocationOf(ReplaceAllocation(distributions, fromParticipantId, chapterId, rows), f, c)
             == AllocationOf(distributions, f, c)
      {
        ReplaceAllocationOtherRows(distributions, fromParticipantId, chapterId, rows, f, c);
      }
      distributions := Filter(distributions, (d: Distribution) =>
        d.fromParticipantId != fromParticipantId || d.chapterId != chapterId);
      distributions := distributions + rows;
    }

    /** `getDistributions`: the chapter's distribution rows, in stored order. */
    function GetDistributions(chapterId: Id): (r: seq<Distribution>)
      reads this
      ensures forall i :: 0 <= i < |r| ==> r[i] in distributions && r[i].chapterId == chapterId
      ensures forall i :: 0 <= i < |distributions| && distributions[i].chapterId == chapterId ==> distributions[i] in r
    {
      Filter(distributions, (d: Distribution) => d.chapterId == chapterId)
    }

    /** `getParticipantDistributions`: one participant's rows in one chapter, in stored order. */
    function GetParticipantDistributions(participantId: Id, chapterId: Id): (r: seq<Distribution>)
      reads this
      ensures r == AllocationOf(distributions, participantId, chapterId)
      ensures forall i :: 0 <= i < |r| ==>
        r[i] in distributions && r[i].fromParticipantId == participantId && r[i].chapterId == chapterId
    {
      Filter(distributions, (d: Distribution) => d.fromParticipantId == participantId && d.chapterId == chapterId)
    }
  }
}
