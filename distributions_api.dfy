/**
 * The `/api/distributions` endpoint: POST validates a submitted allocation
 * against the 100-point budget and hands it to the store's replace-all
 * ledger; GET lists a chapter's rows, or one participant's rows in it.
 */
module DistributionsApi {
  import opened Seqs
  import opened Model
  import opened ChapterStore

  /**
   * A query-string value: one value, or the array a repeated key yields.
   * An array is truthy and never equal to a stored id.
   */
  datatype QueryValue = One(s: string) | Many(values: seq<string>)

  /**
   * A request. A POST body id is `None` when absent or falsy (null, false,
   * 0, the empty string); a `distributions` field that is absent, falsy or
   * not an array is `None`. A query key is `None` when absent.
   */
  datatype Request =
    | Post(participantId: Option<string>, distributions: Option<seq<Entry>>, epochId: Option<string>)
    | Get(queryEpochId: Option<QueryValue>, queryParticipantId: Option<QueryValue>)
    | OtherMethod(name: string)

  datatype Response = Response(status: int, rows: seq<Distribution>)

  /** JavaScript truthiness of an optional string field: present and non-empty. */
  predicate Present(s: Option<string>)
  {
    s.Some? && s.value != ""
  }

  /** JavaScript truthiness of a query value: an array, or a non-empty string. */
  predicate QueryPresent(q: Option<QueryValue>)
  {
    q.Some? && (q.value.Many? || q.value.s != "")
  }

  datatype PostVerdict = MissingFields | OverBudget | Accepted

  /**
   * The POST checks, in order: every field present and the allocation an
   * array, then the entries' total at most 100. Nothing looks at a single
   * entry, so negative or oversized entries pass when the total fits.
   */
  function ValidatePost(participantId: Option<string>, distributions: Option<seq<Entry>>, epochId: Option<string>): (v: PostVerdict)
    ensures v == MissingFields <==> !Present(participantId) || distributions.None? || !Present(epochId)
    ensures v == OverBudget <==>
      Present(participantId) && distributions.Some? && Present(epochId) && SumEntries(distributions.value) > PointBudget
    ensures v == Accepted <==>
      Present(participantId) && distributions.Some? && Present(epochId) && SumEntries(distributions.value) <= PointBudget
  {
    if !Present(participantId) || distributions.None? || !Present(epochId) then MissingFields
    else if SumEntries(distributions.value) > 100 then OverBudget
    else Accepted
  }

  /**
   * The GET listing: one participant's rows in the chapter when a truthy
   * participant id is given, else all of the chapter's rows. The store
   * compares ids with `===`, so an array in either key matches no row.
   */
  function ListRows(ds: seq<Distribution>, epochId: QueryValue, participantId: Option<QueryValue>): (r: seq<Distribution>)
    ensures epochId.Many? ==> r == []
    ensures QueryPresent(participantId) && participantId.value.Many? ==> r == []
    ensures epochId.One? && QueryPresent(participantId) && participantId.value.One? ==>
      r == AllocationOf(ds, participantId.value.s, epochId.s)
    ensures epochId.One? && !QueryPresent(participantId) ==>
      && (forall i :: 0 <= i < |r| ==> r[i] in ds && r[i].chapterId == epochId.s)
      && (forall i :: 0 <= i < |ds| && ds[i].chapterId == epochId.s ==> ds[i] in r)
  {
    if QueryPresent(participantId) then
      if participantId.value.One? && epochId.One? then AllocationOf(ds, participantId.value.s, epochId.s) else []
    else if epochId.One? then Filter(ds, (d: Distribution) => d.chapterId == epochId.s)
    else []
  }

  /**
   * The handler. A POST that fails a check answers 400 and leaves the
   * ledger alone; an accepted POST replaces the sender's allocation in the
   * chapter once and answers 200. A GET without a chapter id answers 400.
   * Any other method answers 405. Only the ledger can change.
   */
  method Handle(db: Database, req: Request, ids: seq<Id>, now: Millis) returns (resp: Response)
    requires req.Post? && req.distributions.Some? ==> |ids| == |req.distributions.value|
    modifies db
    ensures req.Post? && ValidatePost(req.participantId, req.distributions, req.epochId) != Accepted ==>
      resp.status == 400 && db.distributions == old(db.distributions)
    ensures req.Post? && ValidatePost(req.participantId, req.distributions, req.epochId) == Accepted ==>
      && resp.status == 200
      && db.distributions == ReplaceAllocation(old(db.distributions), req.participantId.value, req.epochId.value,
           NewRows(req.participantId.value, req.distributions.value, req.epochId.value, ids, now))
    ensures req.Get? && !QueryPresent(req.queryEpochId) ==> resp.status == 400
    ensures req.Get? && QueryPresent(req.queryEpochId) ==>
      resp.status == 200 && resp.rows == ListRows(db.distributions, req.queryEpochId.value, req.queryParticipantId)
    ensures req.OtherMethod? ==> resp.status == 405
    ensures !req.Post? ==> db.distributions == old(db.distributions)
    ensures db.epochs == old(db.epochs) && db.participants == old(db.participants)
    ensures db.contributions == old(db.contributions) && db.comments == old(db.comments)
  {
    match req
    case Post(participantId, distributions, epochId) =>
      var verdict := ValidatePost(participantId, distributions, epochId);
      if verdict != Accepted {
        return Response(400, []);
      }
      db.DistributePoints(participantId.value, distributions.value, epochId.value, ids, now);
      return Response(200, []);
    case Get(epochId, participantId) =>
      if !QueryPresent(epochId) {
        return Response(400, []);
      }
      return Response(200, ListRows(db.distributions, epochId.value, participantId));
    case OtherMethod(_) =>
      return Response(405, []);
  }

  /**
   * After an accepted POST, the sender's rows in the chapter (what a GET
   * with their id returns) are the submission, and they total at most 100.
   */
  lemma AcceptedPostWithinBudget(ds: seq<Distribution>, from: string, entries: seq<Entry>, epochId: string,
                                 ids: seq<Id>, now: Millis)
    requires |ids| == |entries|
    requires ValidatePost(Some(from), Some(entries), Some(epochId)) == Accepted
    ensures var after := ReplaceAllocation(ds, from, epochId, NewRows(from, entries, epochId, ids, now));
      && ListRows(after, One(epochId), Some(One(from))) == NewRows(from, entries, epochId, ids, now)
      && SumPoints(ListRows(after, One(epochId), Some(One(from)))) <= PointBudget
  {
    ReplaceAllocationOwnRows(ds, from, epochId, NewRows(from, entries, epochId, ids, now));
    NewRowsSum(from, entries, epochId, ids, now);
  }

  /** The budget check is on the total only: a negative entry can make room for an entry above 100. */
  lemma NegativeEntriesAccepted()
    ensures ValidatePost(Some("p"), Some([Entry("a", -50), Entry("b", 120)]), Some("c")) == Accepted
  {
    assert SumEntries([Entry("a", -50), Entry("b", 120)]) == 70 by {
      assert [Entry("a", -50), Entry("b", 120)][..1] == [Entry("a", -50)];
    }
  }
}
