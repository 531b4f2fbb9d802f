/**
 * The point-allocation editor: which contributions a participant may give
 * points to, the allocation map it edits (contribution id to points, in
 * key insertion order like a JavaScript object), and the rule that refuses
 * any edit pushing the total over the budget.
 */
module DistributionView {
  import opened Seqs
  import opened Model

  /** `TOTAL_POINTS`. */
  const TotalPoints: int := 100

  // ---------------------------------------------------------------------------
  // The allocation map
  // ---------------------------------------------------------------------------

  /** A JavaScript object never holds a key twice. */
  predicate DistinctKeys(a: seq<Entry>)
  {
    forall i, j :: 0 <= i < j < |a| ==> a[i].contributionId != a[j].contributionId
  }

  predicate HasKey(a: seq<Entry>, k: Id)
  {
    exists i :: 0 <= i < |a| && a[i].contributionId == k
  }

  /** `a[k]`: the points stored under `k`, if any. */
  function Lookup(a: seq<Entry>, k: Id): (r: Option<int>)
    ensures r.None? <==> !HasKey(a, k)
    ensures r.Some? ==> Entry(k, r.value) in a
  {
    var i := FirstIndex(a, (e: Entry) => e.contributionId == k);
    if i == -1 then None else Some(a[i].points)
  }

  /** With distinct keys, the stored value is the value of the one entry carrying the key. */
  lemma LookupUnique(a: seq<Entry>, k: Id, v: int)
    requires DistinctKeys(a)
    ensures Lookup(a, k) == Some(v) <==> Entry(k, v) in a
  {
    if Entry(k, v) in a {
      var j :| 0 <= j < |a| && a[j] == Entry(k, v);
      var i := FirstIndex(a, (e: Entry) => e.contributionId == k);
      assert i == j;
    }
  }

  /** `a[k] = v`: an existing key keeps its position, a new key goes last. */
  function Put(a: seq<Entry>, k: Id, v: int): (r: seq<Entry>)
    ensures DistinctKeys(a) ==> DistinctKeys(r)
    ensures Entry(k, v) in r
    ensures DistinctKeys(a) ==> forall e :: e in r ==> e == Entry(k, v) || (e in a && e.contributionId != k)
    ensures forall e :: e in a && e.contributionId != k ==> e in r
  {
    var i := FirstIndex(a, (e: Entry) => e.contributionId == k);
    if i == -1 then a + [Entry(k, v)]
    else
      var r := a[i := Entry(k, v)];
      assert r[i] == Entry(k, v);
      assert forall j :: 0 <= j < |a| && j != i ==> r[j] == a[j];
      r
  }

  /** `delete a[k]`. */
  function Delete(a: seq<Entry>, k: Id): (r: seq<Entry>)
    ensures DistinctKeys(a) ==> DistinctKeys(r)
    ensures !HasKey(r, k)
    ensures forall e :: e in r <==> e in a && e.contributionId != k
  {
    var r := Filter(a, (e: Entry) => e.contributionId != k);
    assert DistinctKeys(a) ==> DistinctKeys(r) by {
      if DistinctKeys(a) {
        FilterKeepsOrder(a, (e: Entry) => e.contributionId != k);
      }
    }
    r
  }

  /** Filtering a map keeps its keys distinct. */
  lemma {:induction false} FilterKeepsOrder(a: seq<Entry>, p: Entry -> bool)
    requires DistinctKeys(a)
    ensures DistinctKeys(Filter(a, p))
    decreases |a|
  {
    if a != [] {
      var init := a[..|a| - 1];
      var x := a[|a| - 1];
      assert a == init + [x];
      assert DistinctKeys(init);
      FilterKeepsOrder(init, p);
      FilterSnoc(init, x, p);
      if p(x) {
        var f := Filter(init, p);
        forall i | 0 <= i < |f|
          ensures f[i].contributionId != x.contributionId
        {
          assert f[i] in init;
        }
      }
    }
  }

  /** `Object.values(a).reduce(+)`: the points allocated so far. */
  function Total(a: seq<Entry>): int
  {
    SumEntries(a)
  }

  /** `getRemainingPoints`: the budget left, negative when over-allocated. */
  function RemainingPoints(a: seq<Entry>): (r: int)
    ensures r + Total(a) == TotalPoints
    ensures r >= 0 <==> Total(a) <= TotalPoints
  {
    TotalPoints - Total(a)
  }

  /**
   * The copy `updateDistribution` builds before checking it: negative input
   * counts as 0, 0 removes the contribution's entry, a positive value sets it;
   * every other entry is kept.
   */
  function Edited(a: seq<Entry>, k: Id, points: int): (r: seq<Entry>)
    ensures DistinctKeys(a) ==> DistinctKeys(r)
    ensures points <= 0 ==> !HasKey(r, k)
    ensures points > 0 ==> Entry(k, points) in r
    ensures forall e :: e in a && e.contributionId != k ==> e in r
    ensures forall e :: e in r && e.contributionId != k ==> e in a
  {
    var p := if points < 0 then 0 else points;
    if p == 0 then Delete(a, k) else Put(a, k, p)
  }

  /**
   * `updateDistribution`: the edited copy is committed when its total is
   * within the budget; otherwise the allocation stays as it was.
   */
  function UpdateDistribution(a: seq<Entry>, k: Id, points: int): (r: seq<Entry>)
    ensures Total(Edited(a, k, points)) <= TotalPoints ==> r == Edited(a, k, points)
    ensures Total(Edited(a, k, points)) > TotalPoints ==> r == a
  {
    var next := Edited(a, k, points);
    if Total(next) <= TotalPoints then next else a
  }

  /**
   * Whatever the sequence of edits, an allocation within the budget stays
   * within it and keeps its keys distinct.
   */
  lemma UpdateKeepsBudget(a: seq<Entry>, k: Id, points: int)
    requires Total(a) <= TotalPoints && DistinctKeys(a)
    ensures Total(UpdateDistribution(a, k, points)) <= TotalPoints
    ensures RemainingPoints(UpdateDistribution(a, k, points)) >= 0
    ensures DistinctKeys(UpdateDistribution(a, k, points))
  {
  }

  /**
   * A committed edit leaves exactly the requested value under the edited
   * key (nothing for input at or below 0) and every other key's value as
   * it was.
   */
  lemma UpdateLookup(a: seq<Entry>, k: Id, points: int, other: Id)
    requires DistinctKeys(a) && other != k
    requires Total(Edited(a, k, points)) <= TotalPoints
    ensures Lookup(UpdateDistribution(a, k, points), k) == if points <= 0 then None else Some(points)
    ensures Lookup(UpdateDistribution(a, k, points), other) == Lookup(a, other)
  {
    var r := Edited(a, k, points);
    if points > 0 {
      LookupUnique(r, k, points);
    }
    var before := Lookup(a, other);
    var after := Lookup(r, other);
    if before.Some? {
      LookupUnique(r, other, before.value);
    }
    if after.Some? {
      LookupUnique(a, other, after.value);
    }
  }

  // ---------------------------------------------------------------------------
  // Loading the saved allocation
  // ---------------------------------------------------------------------------

  /** The points of the last row targeting `k`: later rows win. */
  function LastPoints(rows: seq<Distribution>, k: Id): Option<int>
    decreases |rows|
  {
    if rows == [] then None
    else if rows[|rows| - 1].toContributionId == k then Some(rows[|rows| - 1].points)
    else LastPoints(rows[..|rows| - 1], k)
  }

  /** `set` on the map: the key now holds the new value, every other key keeps its value. */
  lemma PutLookup(a: seq<Entry>, k: Id, v: int, other: Id)
    requires DistinctKeys(a)
    ensures Lookup(Put(a, k, v), other) == if other == k then Some(v) else Lookup(a, other)
  {
    var r := Put(a, k, v);
    if other == k {
      LookupUnique(r, k, v);
    } else {
      var was := Lookup(a, other);
      var now := Lookup(r, other);
      if was.Some? {
        LookupUnique(r, other, was.value);
      }
      if now.Some? {
        LookupUnique(a, other, now.value);
      }
    }
  }

  /** One turn of the `existingDist` loop keeps the map equal to the last points of the rows seen. */
  lemma LoadStep(m: seq<Entry>, rows: seq<Distribution>, i: nat)
    requires i < |rows| && DistinctKeys(m)
    requires forall k :: Lookup(m, k) == LastPoints(rows[..i], k)
    ensures forall k :: Lookup(Put(m, rows[i].toContributionId, rows[i].points), k) == LastPoints(rows[..i + 1], k)
  {
    assert rows[..i + 1][..i] == rows[..i];
    forall k
      ensures Lookup(Put(m, rows[i].toContributionId, rows[i].points), k) == LastPoints(rows[..i + 1], k)
    {
      PutLookup(m, rows[i].toContributionId, rows[i].points, k);
    }
  }

  /**
   * The `existingDist` loop: the saved rows copied into the map keyed by
   * target contribution, a later row overwriting an earlier one.
   */
  method LoadExisting(rows: seq<Distribution>) returns (m: seq<Entry>)
    ensures DistinctKeys(m)
    ensures forall k :: Lookup(m, k) == LastPoints(rows, k)
  {
    m := [];
    for i := 0 to |rows|
      invariant DistinctKeys(m)
      invariant forall k :: Lookup(m, k) == LastPoints(rows[..i], k)
    {
      LoadStep(m, rows, i);
      m := Put(m, rows[i].toContributionId, rows[i].points);
    }
    assert rows[..|rows|] == rows;
  }

  // ---------------------------------------------------------------------------
  // Which contributions may receive points
  // ---------------------------------------------------------------------------

  /** The contributions about one participant, in arrival order. */
  datatype Group = Group(subject: Id, items: seq<Contribution>)

  /** `get(subject).push(c)`, creating the group at the end on first sight. */
  function AddToGroup(gs: seq<Group>, c: Contribution): seq<Group>
  {
    var gi := FirstIndex(gs, (g: Group) => g.subject == c.participantId);
    if gi == -1 then gs + [Group(c.participantId, [c])]
    else gs[gi := gs[gi].(items := gs[gi].items + [c])]
  }

  /** The `contributionsByPerson` map after visiting `cs`, skipping contributions about `me`. */
  function GroupsOf(cs: seq<Contribution>, me: Id): seq<Group>
    decreases |cs|
  {
    if cs == [] then []
    else
      var c := cs[|cs| - 1];
      var gs := GroupsOf(cs[..|cs| - 1], me);
      if c.participantId == me then gs else AddToGroup(gs, c)
  }

  /** The groups' contributions one after another, in group order. */
  function Flatten(gs: seq<Group>): seq<Contribution>
    decreases |gs|
  {
    if gs == [] then [] else Flatten(gs[..|gs| - 1]) + gs[|gs| - 1].items
  }

  /** The contributions about `s`, in arrival order. */
  function About(cs: seq<Contribution>, s: Id): seq<Contribution>
  {
    Filter(cs, (c: Contribution) => c.participantId == s)
  }

  /** The contributions about anybody but `me`, in arrival order. */
  function NotAbout(cs: seq<Contribution>, me: Id): seq<Contribution>
  {
    Filter(cs, (c: Contribution) => c.participantId != me)
  }

  /**
   * The candidate list is the groups flattened; each group holds exactly the
   * contributions about its subject, in arrival order; subjects are
   * distinct, never the current participant, and every other subject has a
   * group. `GroupsOrdered` states the order of the groups.
   */
  predicate GroupsFaithful(gs: seq<Group>, cs: seq<Contribution>, me: Id)
  {
    DistinctSubjects(gs) && GroupsExact(gs, cs, me) && GroupsCover(gs, cs, me)
  }

  predicate DistinctSubjects(gs: seq<Group>)
  {
    forall i, j :: 0 <= i < j < |gs| ==> gs[i].subject != gs[j].subject
  }

  predicate GroupsExact(gs: seq<Group>, cs: seq<Contribution>, me: Id)
  {
    forall i :: 0 <= i < |gs| ==> gs[i].subject != me && gs[i].items == About(cs, gs[i].subject)
  }

  predicate GroupsCover(gs: seq<Group>, cs: seq<Contribution>, me: Id)
  {
    forall i :: 0 <= i < |cs| && cs[i].participantId != me ==>
      exists j :: 0 <= j < |gs| && gs[j].subject == cs[i].participantId
  }

  lemma {:induction false} FlattenSnoc(gs: seq<Group>, g: Group)
    ensures Flatten(gs + [g]) == Flatten(gs) + g.items
  {
    assert (gs + [g])[..|gs|] == gs;
  }

  lemma {:induction false} FlattenAppend(a: seq<Group>, b: seq<Group>)
    ensures Flatten(a + b) == Flatten(a) + Flatten(b)
    decreases |b|
  {
    if b == [] {
      assert a + b == a;
    } else {
      var b' := b[..|b| - 1];
      var g := b[|b| - 1];
      assert b == b' + [g];
      assert a + b == (a + b') + [g];
      FlattenAppend(a, b');
      FlattenSnoc(a + b', g);
      FlattenSnoc(b', g);
    }
  }

  lemma {:induction false} FlattenSplit(gs: seq<Group>, i: nat)
    requires i < |gs|
    ensures Flatten(gs) == Flatten(gs[..i]) + gs[i].items + Flatten(gs[i + 1..])
  {
    var left := gs[..i];
    var right := gs[i + 1..];
    var g := gs[i];
    calc {
      Flatten(gs);
      { assert gs == (left + [g]) + right; }
      Flatten((left + [g]) + right);
      { FlattenAppend(left + [g], right); }
      Flatten(left + [g]) + Flatten(right);
      { FlattenSnoc(left, g); }
      Flatten(left) + g.items + Flatten(right);
    }
  }

  /** Adding one contribution to the groups adds it once to the flattened list. */
  lemma {:induction false} AddToGroupCount(gs: seq<Group>, c: Contribution)
    ensures multiset(Flatten(AddToGroup(gs, c))) == multiset(Flatten(gs)) + multiset{c}
  {
    var gi := FirstIndex(gs, (g: Group) => g.subject == c.participantId);
    if gi == -1 {
      FlattenSnoc(gs, Group(c.participantId, [c]));
    } else {
      var gs' := AddToGroup(gs, c);
      FlattenSplit(gs, gi);
      FlattenSplit(gs', gi);
      assert gs'[..gi] == gs[..gi];
      assert gs'[gi + 1..] == gs[gi + 1..];
    }
  }

  /** Every contribution not about `me` is a candidate exactly once, and none about `me` is. */
  lemma {:induction false} GroupsCount(cs: seq<Contribution>, me: Id)
    ensures multiset(Flatten(GroupsOf(cs, me))) == multiset(NotAbout(cs, me))
    decreases |cs|
  {
    if cs != [] {
      var init := cs[..|cs| - 1];
      var c := cs[|cs| - 1];
      assert cs == init + [c];
      GroupsCount(init, me);
      FilterSnoc(init, c, (x: Contribution) => x.participantId != me);
      if c.participantId != me {
        AddToGroupCount(GroupsOf(init, me), c);
      }
    }
  }

  lemma {:induction false} AboutSnoc(init: seq<Contribution>, c: Contribution, s: Id)
    ensures About(init + [c], s) == if c.participantId == s then About(init, s) + [c] else About(init, s)
  {
    FilterSnoc(init, c, (x: Contribution) => x.participantId == s);
  }

  /** A contribution about `me` is skipped and leaves the groups faithful. */
  lemma {:induction false} SkipKeepsFaithful(gs: seq<Group>, init: seq<Contribution>, c: Contribution, me: Id)
    requires GroupsFaithful(gs, init, me) && c.participantId == me
    ensures GroupsFaithful(gs, init + [c], me)
  {
    var cs := init + [c];
    forall i | 0 <= i < |gs|
      ensures gs[i].subject != me && gs[i].items == About(cs, gs[i].subject)
    {
      AboutSnoc(init, c, gs[i].subject);
    }
    forall i | 0 <= i < |cs| && cs[i].participantId != me
      ensures exists j :: 0 <= j < |gs| && gs[j].subject == cs[i].participantId
    {
      assert cs[i] == init[i];
    }
  }

  /** Adding a contribution about a new subject opens a group at the end. */
  lemma {:induction false} NewGroupKeepsFaithful(gs: seq<Group>, init: seq<Contribution>, c: Contribution, me: Id)
    requires GroupsFaithful(gs, init, me) && c.participantId != me
    requires forall j :: 0 <= j < |gs| ==> gs[j].subject != c.participantId
    ensures GroupsFaithful(gs + [Group(c.participantId, [c])], init + [c], me)
  {
    NewGroupDistinct(gs, c.participantId, [c]);
    NewGroupExact(gs, init, c, me);
    NewGroupCover(gs, init, c, me);
  }

  lemma {:induction false} NewGroupDistinct(gs: seq<Group>, s: Id, items: seq<Contribution>)
    requires DistinctSubjects(gs)
    requires forall j :: 0 <= j < |gs| ==> gs[j].subject != s
    ensures DistinctSubjects(gs + [Group(s, items)])
  {
    var gs' := gs + [Group(s, items)];
    forall i, j | 0 <= i < j < |gs'|
      ensures gs'[i].subject != gs'[j].subject
    {
      assert gs'[i] == gs[i];
      if j < |gs| {
        assert gs'[j] == gs[j];
      }
    }
  }

  lemma {:induction false} NewGroupExact(gs: seq<Group>, init: seq<Contribution>, c: Contribution, me: Id)
    requires GroupsExact(gs, init, me) && GroupsCover(gs, init, me) && c.participantId != me
    requires forall j :: 0 <= j < |gs| ==> gs[j].subject != c.participantId
    ensures GroupsExact(gs + [Group(c.participantId, [c])], init + [c], me)
  {
    var cs := init + [c];
    var gs' := gs + [Group(c.participantId, [c])];
    forall i | 0 <= i < |init|
      ensures init[i].participantId != c.participantId
    {
      if init[i].participantId != me {
        var j :| 0 <= j < |gs| && gs[j].subject == init[i].participantId;
      }
    }
    FilterNone(init, (x: Contribution) => x.participantId == c.participantId);
    forall i | 0 <= i < |gs'|
      ensures gs'[i].subject != me && gs'[i].items == About(cs, gs'[i].subject)
    {
      AboutSnoc(init, c, gs'[i].subject);
      if i < |gs| {
        assert gs'[i] == gs[i];
      }
    }
  }

  lemma {:induction false} NewGroupCover(gs: seq<Group>, init: seq<Contribution>, c: Contribution, me: Id)
    requires GroupsCover(gs, init, me)
    ensures GroupsCover(gs + [Group(c.participantId, [c])], init + [c], me)
  {
    var cs := init + [c];
    var gs' := gs + [Group(c.participantId, [c])];
    forall i | 0 <= i < |cs| && cs[i].participantId != me
      ensures exists j :: 0 <= j < |gs'| && gs'[j].subject == cs[i].participantId
    {
      if i < |init| {
        assert cs[i] == init[i];
        var j :| 0 <= j < |gs| && gs[j].subject == init[i].participantId;
        assert gs'[j] == gs[j];
      } else {
        assert gs'[|gs|].subject == c.participantId;
      }
    }
  }

  /** Adding a contribution about a known subject appends it to that subject's group only. */
  lemma {:induction false} OldGroupKeepsFaithful(gs: seq<Group>, init: seq<Contribution>, c: Contribution, me: Id, gi: nat)
    requires GroupsFaithful(gs, init, me) && c.participantId != me
    requires gi < |gs| && gs[gi].subject == c.participantId
    ensures GroupsFaithful(gs[gi := gs[gi].(items := gs[gi].items + [c])], init + [c], me)
  {
    var cs := init + [c];
    var gs' := gs[gi := gs[gi].(items := gs[gi].items + [c])];
    assert forall i :: 0 <= i < |gs| ==> gs'[i].subject == gs[i].subject;
    assert DistinctSubjects(gs');
    assert GroupsExact(gs', cs, me) by {
      forall i | 0 <= i < |gs'|
        ensures gs'[i].subject != me && gs'[i].items == About(cs, gs'[i].subject)
      {
        AboutSnoc(init, c, gs'[i].subject);
        if i != gi {
          assert gs'[i] == gs[i];
        }
      }
    }
    assert GroupsCover(gs', cs, me) by {
      forall i | 0 <= i < |cs| && cs[i].participantId != me
        ensures exists j :: 0 <= j < |gs'| && gs'[j].subject == cs[i].participantId
      {
        if i < |init| {
          assert cs[i] == init[i];
          var j :| 0 <= j < |gs| && gs[j].subject == init[i].participantId;
          assert gs'[j].subject == gs[j].subject;
        } else {
          assert gs'[gi].subject == c.participantId;
        }
      }
    }
  }

  /** Each group is exactly its subject's contributions, subjects are distinct, and every other subject has a group. */
  lemma {:induction false} GroupsFaithfulOf(cs: seq<Contribution>, me: Id)
    ensures GroupsFaithful(GroupsOf(cs, me), cs, me)
    decreases |cs|
  {
    if cs != [] {
      var init := cs[..|cs| - 1];
      var c := cs[|cs| - 1];
      assert cs == init + [c];
      GroupsFaithfulOf(init, me);
      var gs := GroupsOf(init, me);
      if c.participantId == me {
        SkipKeepsFaithful(gs, init, c, me);
      } else {
        var gi := FirstIndex(gs, (g: Group) => g.subject == c.participantId);
        if gi == -1 {
          NewGroupKeepsFaithful(gs, init, c, me);
        } else {
          OldGroupKeepsFaithful(gs, init, c, me, gi);
        }
      }
    }
  }

  /** The subject of each contribution, in arrival order. */
  function Subjects(cs: seq<Contribution>): (r: seq<Id>)
    ensures |r| == |cs| && forall i :: 0 <= i < |cs| ==> r[i] == cs[i].participantId
  {
    seq(|cs|, i requires 0 <= i < |cs| => cs[i].participantId)
  }

  /**
   * The groups come in the order their subjects first appear among the
   * contributions: a `Map` iterates in insertion order, and a subject's
   * group is inserted at its first contribution.
   */
  predicate GroupsOrdered(gs: seq<Group>, cs: seq<Contribution>)
  {
    SubjectsOrdered(gs, Subjects(cs))
  }

  /** Every group's subject occurs in `ids`, and the groups follow the subjects' first occurrences there. */
  predicate SubjectsOrdered(gs: seq<Group>, ids: seq<Id>)
  {
    && (forall i :: 0 <= i < |gs| ==> gs[i].subject in ids)
    && forall i, j :: 0 <= i < j < |gs| ==> FirstOccurrence(ids, gs[i].subject) < FirstOccurrence(ids, gs[j].subject)
  }

  lemma SubjectsSnoc(init: seq<Contribution>, c: Contribution)
    ensures Subjects(init + [c]) == Subjects(init) + [c.participantId]
  {
  }

  /** A contribution that opens no group keeps the groups in order. */
  lemma {:induction false} SameSubjectsKeepOrdered(gs: seq<Group>, gs': seq<Group>, ids: seq<Id>, x: Id)
    requires SubjectsOrdered(gs, ids) && |gs'| == |gs|
    requires forall i :: 0 <= i < |gs| ==> gs'[i].subject == gs[i].subject
    ensures SubjectsOrdered(gs', ids + [x])
  {
    forall i | 0 <= i < |gs|
      ensures FirstOccurrence(ids + [x], gs[i].subject) == FirstOccurrence(ids, gs[i].subject)
    {
      FirstOccurrenceSnoc(ids, x, gs[i].subject);
    }
  }

  /** A subject without a group has not appeared among the contributions yet. */
  lemma UnseenSubject(gs: seq<Group>, init: seq<Contribution>, c: Contribution, me: Id)
    requires GroupsCover(gs, init, me) && c.participantId != me
    requires forall j :: 0 <= j < |gs| ==> gs[j].subject != c.participantId
    ensures c.participantId !in Subjects(init)
  {
    assert forall k :: 0 <= k < |init| ==> init[k].participantId != c.participantId;
  }

  /** A subject not seen before opens the last group, which keeps the groups in order. */
  lemma {:induction false} NewGroupKeepsOrdered(gs: seq<Group>, ids: seq<Id>, x: Id, items: seq<Contribution>)
    requires SubjectsOrdered(gs, ids) && x !in ids
    ensures SubjectsOrdered(gs + [Group(x, items)], ids + [x])
  {
    var ids' := ids + [x];
    assert FirstOccurrence(ids', x) == |ids|;
    var gs' := gs + [Group(x, items)];
    forall i | 0 <= i < |gs|
      ensures gs'[i] == gs[i] && gs[i].subject in ids'
      ensures FirstOccurrence(ids', gs[i].subject) == FirstOccurrence(ids, gs[i].subject) < |ids|
    {
      FirstOccurrenceSnoc(ids, x, gs[i].subject);
    }
  }

  /** The groups come in first-appearance order of their subjects. */
  lemma {:induction false} GroupsOrderedOf(cs: seq<Contribution>, me: Id)
    ensures GroupsOrdered(GroupsOf(cs, me), cs)
    decreases |cs|
  {
    if cs != [] {
      var init := cs[..|cs| - 1];
      var c := cs[|cs| - 1];
      assert cs == init + [c];
      GroupsOrderedOf(init, me);
      SubjectsSnoc(init, c);
      var gs := GroupsOf(init, me);
      if c.participantId == me {
        SameSubjectsKeepOrdered(gs, gs, Subjects(init), c.participantId);
      } else {
        var gi := FirstIndex(gs, (g: Group) => g.subject == c.participantId);
        if gi == -1 {
          GroupsFaithfulOf(init, me);
          UnseenSubject(gs, init, c, me);
          NewGroupKeepsOrdered(gs, Subjects(init), c.participantId, [c]);
        } else {
          SameSubjectsKeepOrdered(gs, gs[gi := gs[gi].(items := gs[gi].items + [c])], Subjects(init), c.participantId);
        }
      }
    }
  }

  /**
   * The `fetchData` grouping loop: contributions about the current
   * participant are skipped, the others are grouped by subject in
   * first-appearance order, and the groups are flattened into the
   * candidate list.
   */
  method EligibleContributions(cs: seq<Contribution>, me: Id) returns (eligible: seq<Contribution>)
    ensures eligible == Flatten(GroupsOf(cs, me))
    ensures multiset(eligible) == multiset(NotAbout(cs, me))
    ensures forall i :: 0 <= i < |eligible| ==> eligible[i].participantId != me
  {
    var groups: seq<Group> := [];
    for i := 0 to |cs|
      invariant groups == GroupsOf(cs[..i], me)
    {
      assert cs[..i + 1][..i] == cs[..i];
      var c := cs[i];
      if c.participantId != me {
        var gi := FirstIndex(groups, (g: Group) => g.subject == c.participantId);
        if gi == -1 {
          groups := groups + [Group(c.participantId, [c])];
        } else {
          groups := groups[gi := groups[gi].(items := groups[gi].items + [c])];
        }
      }
    }
    assert cs[..|cs|] == cs;
    eligible := [];
    for i := 0 to |groups|
      invariant eligible == Flatten(groups[..i])
    {
      assert groups[..i + 1][..i] == groups[..i];
      eligible := eligible + groups[i].items;
    }
    assert groups[..|groups|] == groups;
    GroupsCount(cs, me);
    forall i | 0 <= i < |eligible|
      ensures eligible[i].participantId != me
    {
      assert eligible[i] in multiset(NotAbout(cs, me));
    }
  }
}
