/**
 * The `/api/ai-summary` endpoint: a keyword table decides which skills a
 * person's contributions show. A keyword counts when it occurs in the
 * lower-cased descriptions at the start of a word (the `\b` before it);
 * the matched categories' skills are listed in table order, without
 * repeats, at most six, comma-separated.
 */
module AiSummary {
  import opened Seqs
  import opened Text

  datatype Category = Category(skills: seq<string>, keywords: seq<string>)

  /** The skill of each row of the detection table, in table order. */
  const SkillNames: seq<string> := [
    "leadership",
    "collaboration",
    "communication",
    "problem-solving",
    "research",
    "planning",
    "mentoring",
    "documentation",
    "testing",
    "design",
    "project management",
    "data analysis",
    "client relations",
    "code review",
    "space beautifying",
    "orderliness",
    "daily rituals",
    "trip guiding",
    "shamanic work",
    "moderating",
    "atmosphere creation",
    "wellness facilitation",
    "community building",
    "creative thinking",
    "intuitive guidance"
  ]

  /** The keywords of each row of the detection table, in the same order. */
  const SkillKeywords: seq<seq<string>> := [
    ["lead", "leading", "manage", "managing", "guide", "guiding", "direct", "organize"],
    ["collaborate", "team", "work with", "together", "coordinate", "help", "support"],
    ["communicate", "present", "explain", "discuss", "talk", "meeting", "speaking"],
    ["solve", "fix", "debug", "troubleshoot", "resolve", "issue", "problem"],
    ["research", "investigate", "analyze", "study", "explore", "user research"],
    ["plan", "schedule", "organize", "strategy", "roadmap", "timeline"],
    ["mentor", "teach", "guide", "help", "train", "coach", "support"],
    ["document", "write", "docs", "readme", "guide", "record"],
    ["test", "qa", "quality", "bug", "validate", "verify", "check"],
    ["design", "ui", "ux", "interface", "visual", "layout", "aesthetic"],
    ["project", "deadline", "deliver", "milestone", "scope", "timeline"],
    ["data", "metrics", "analytics", "insights", "report", "dashboard"],
    ["client", "customer", "stakeholder", "requirements", "business"],
    ["review", "code review", "feedback", "quality", "standards"],
    ["beauty", "beautiful", "aesthetic", "well-dressed", "appearance", "visual appeal"],
    ["clean", "organize", "tidy", "order", "orderly", "neat", "structure"],
    ["daily", "check-in", "routine", "ritual", "regular", "consistent"],
    ["trip", "guide", "journey", "experience", "lead through"],
    ["shaman", "shamanic", "psychedelic", "spiritual", "healing", "ceremony"],
    ["moderate", "facilitate", "host", "run meetings", "discussion"],
    ["atmosphere", "vibe", "energy", "mood", "environment", "space"],
    ["wellness", "wellbeing", "health", "care", "healing"],
    ["community", "bring together", "connect", "network", "social"],
    ["creative", "innovative", "original", "unique", "artistic"],
    ["intuitive", "instinct", "feeling", "sense", "guidance"]
  ]

  /** The detection table: row `i` lists the one skill `SkillNames[i]` and its keywords. */
  const SkillDetection: seq<Category> :=
    seq(|SkillNames|, i requires 0 <= i < |SkillNames| => Category([SkillNames[i]], SkillKeywords[i]))

  const NoSkillsMessage := "No specific skills clearly identified from the contributions."

  const MaxSkills := 6

  // ---------------------------------------------------------------------------
  // Keyword matching
  // ---------------------------------------------------------------------------

  /** A regular-expression word character: an ASCII letter, digit or underscore. */
  predicate IsWordChar(c: char)
  {
    'a' <= c <= 'z' || 'A' <= c <= 'Z' || '0' <= c <= '9' || c == '_'
  }

  /** Position `p` holds a word character (positions off either end do not). */
  predicate WordAt(text: string, p: int)
  {
    0 <= p < |text| && IsWordChar(text[p])
  }

  /** `\b` at `p`: a word character on exactly one side. */
  predicate BoundaryAt(text: string, p: int)
  {
    WordAt(text, p - 1) != WordAt(text, p)
  }

  /** `\bkeyword` matches at `p`. */
  predicate MatchesAt(text: string, keyword: string, p: int)
  {
    0 <= p && p + |keyword| <= |text| && text[p..p + |keyword|] == keyword && BoundaryAt(text, p)
  }

  /** `new RegExp('\\b' + keyword, 'i').test(text)` on lower-cased text and a lower-case keyword. */
  predicate KeywordFound(text: string, keyword: string)
  {
    exists p :: 0 <= p <= |text| && MatchesAt(text, keyword, p)
  }

  /** `keywords.some(...)`: some keyword of the category matches. */
  predicate HasSkill(text: string, c: Category)
  {
    exists k :: 0 <= k < |c.keywords| && KeywordFound(text, c.keywords[k])
  }

  /** A keyword matches only at the start of a word, but any word that starts with it counts. */
  lemma KeywordNeedsWordStart()
    ensures KeywordFound("leaders", "lead")
    ensures !KeywordFound("misleading", "lead")
  {
    assert MatchesAt("leaders", "lead", 0);
    forall p | 0 <= p <= 10
      ensures !MatchesAt("misleading", "lead", p)
    {
      if 0 < p && p + 4 <= 10 {
        assert WordAt("misleading", p - 1);
      }
    }
  }

  // ---------------------------------------------------------------------------
  // Detection
  // ---------------------------------------------------------------------------

  /** The skills pushed by the detection loop over `cats`, in order. */
  function DetectedSkills(text: string, cats: seq<Category>): seq<string>
    decreases |cats|
  {
    if cats == [] then []
    else DetectedSkills(text, cats[..|cats| - 1]) + (if HasSkill(text, cats[|cats| - 1]) then cats[|cats| - 1].skills else [])
  }

  /** A skill is detected exactly when a category listing it has a matching keyword. */
  lemma {:induction false} DetectedMembership(text: string, cats: seq<Category>, s: string)
    ensures s in DetectedSkills(text, cats) <==>
      exists i :: 0 <= i < |cats| && HasSkill(text, cats[i]) && s in cats[i].skills
    decreases |cats|
  {
    if cats != [] {
      var init := cats[..|cats| - 1];
      DetectedMembership(text, init, s);
      if s in DetectedSkills(text, cats) && s !in DetectedSkills(text, init) {
        assert HasSkill(text, cats[|cats| - 1]) && s in cats[|cats| - 1].skills;
      }
      if exists i :: 0 <= i < |cats| && HasSkill(text, cats[i]) && s in cats[i].skills {
        var i :| 0 <= i < |cats| && HasSkill(text, cats[i]) && s in cats[i].skills;
        if i < |cats| - 1 {
          assert init[i] == cats[i];
        }
      }
    }
  }

  /** `forEach` over the table, pushing the skills of each category with a matching keyword. */
  method DetectSkills(text: string, cats: seq<Category>) returns (detected: seq<string>)
    ensures detected == DetectedSkills(text, cats)
  {
    detected := [];
    for i := 0 to |cats|
      invariant detected == DetectedSkills(text, cats[..i])
    {
      assert cats[..i + 1][..i] == cats[..i];
      var c := cats[i];
      var hasSkill := exists k :: 0 <= k < |c.keywords| && KeywordFound(text, c.keywords[k]);
      if hasSkill {
        detected := detected + c.skills;
      }
    }
    assert cats[..|cats|] == cats;
  }

  // ---------------------------------------------------------------------------
  // Removing repeats
  // ---------------------------------------------------------------------------

  /** `[...new Set(s)]`: the first occurrence of each element, in order. */
  function Dedup(s: seq<string>): (r: seq<string>)
    ensures NoDuplicates(r)
    ensures forall x :: x in r <==> x in s
    ensures |r| <= |s|
    decreases |s|
  {
    if s == [] then []
    else
      var d := Dedup(s[..|s| - 1]);
      if s[|s| - 1] in d then d else d + [s[|s| - 1]]
  }

  /** `[...new Set(s)]` keeps the order of first occurrences. */
  lemma {:induction false} DedupFirstOccurrenceOrder(s: seq<string>)
    ensures forall i, j :: 0 <= i < j < |Dedup(s)| ==> FirstOccurrence(s, Dedup(s)[i]) < FirstOccurrence(s, Dedup(s)[j])
    decreases |s|
  {
    if s != [] {
      var init := s[..|s| - 1];
      var x := s[|s| - 1];
      assert s == init + [x];
      DedupFirstOccurrenceOrder(init);
      var d := Dedup(init);
      forall y | y in d
        ensures FirstOccurrence(s, y) == FirstOccurrence(init, y)
      {
        FirstOccurrenceSnoc(init, x, y);
      }
      if x !in d {
        assert FirstOccurrence(s, x) == |init|;
      }
    }
  }

  /** Removing repeats from a list without repeats changes nothing. */
  lemma {:induction false} DedupOfDistinct(s: seq<string>)
    requires NoDuplicates(s)
    ensures Dedup(s) == s
    decreases |s|
  {
    if s != [] {
      var init := s[..|s| - 1];
      DedupOfDistinct(init);
      assert s[|s| - 1] !in init;
      assert s == init + [s[|s| - 1]];
    }
  }

  /** No skill is listed twice in a category, nor in two categories. */
  predicate SkillsDisjoint(cats: seq<Category>)
  {
    && (forall i :: 0 <= i < |cats| ==> NoDuplicates(cats[i].skills))
    && (forall i, j, s :: 0 <= i < j < |cats| && s in cats[i].skills ==> s !in cats[j].skills)
  }

  /** When the categories' skills are disjoint, detection never repeats a skill. */
  lemma {:induction false} DetectedDistinct(text: string, cats: seq<Category>)
    requires SkillsDisjoint(cats)
    ensures NoDuplicates(DetectedSkills(text, cats))
    decreases |cats|
  {
    if cats != [] {
      var init := cats[..|cats| - 1];
      var last := cats[|cats| - 1];
      assert SkillsDisjoint(init);
      DetectedDistinct(text, init);
      if HasSkill(text, last) {
        var a := DetectedSkills(text, init);
        forall x | x in a
          ensures x !in last.skills
        {
          DetectedMembership(text, init, x);
          var i :| 0 <= i < |init| && HasSkill(text, init[i]) && x in init[i].skills;
          assert init[i] == cats[i];
        }
        DistinctConcat(a, last.skills);
      }
    }
  }

  lemma DistinctConcat(a: seq<string>, b: seq<string>)
    requires NoDuplicates(a) && NoDuplicates(b)
    requires forall x :: x in a ==> x !in b
    ensures NoDuplicates(a + b)
  {
    var ab := a + b;
    forall i, j | 0 <= i < j < |ab|
      ensures ab[i] != ab[j]
    {
      if i < |a| && j >= |a| {
        assert ab[i] in a && ab[j] == b[j - |a|];
      } else if i >= |a| {
        assert ab[i] == b[i - |a|] && ab[j] == b[j - |a|];
      }
    }
  }

  /** The detection table names each skill once. */
  lemma SkillDetectionDisjoint()
    ensures SkillsDisjoint(SkillDetection)
  {
    SkillDetectionNamed();
    NamedCategoriesDisjoint(SkillDetection, SkillNames);
  }

  /** Row `k` of the detection table lists the skill `SkillNames[k]` alone. */
  lemma SkillDetectionNamed()
    ensures NamedBy(SkillDetection, SkillNames)
  {
    SkillNamesDistinct();
  }

  /** The 25 skill names are distinct. */
  lemma SkillNamesDistinct()
    ensures NoDuplicates(SkillNames)
  {
    // Checked a few rows at a time: all 300 pairs at once are costly.
    SkillNamesDistinctRows0();
    SkillNamesDistinctRows3();
    SkillNamesDistinctRows6();
    SkillNamesDistinctRows10();
    SkillNamesDistinctRows15();
  }

  /** Rows 0 to 2 of the skill names differ from every later row. */
  lemma SkillNamesDistinctRows0()
    ensures forall i, j :: 0 <= i < 3 && i < j < |SkillNames| ==> SkillNames[i] != SkillNames[j]
  {
  }

  /** Rows 3 to 5 of the skill names differ from every later row. */
  lemma SkillNamesDistinctRows3()
    ensures forall i, j :: 3 <= i < 6 && i < j < |SkillNames| ==> SkillNames[i] != SkillNames[j]
  {
  }

  /** Rows 6 to 9 of the skill names differ from every later row. */
  lemma SkillNamesDistinctRows6()
    ensures forall i, j :: 6 <= i < 10 && i < j < |SkillNames| ==> SkillNames[i] != SkillNames[j]
  {
  }

  /** Rows 10 to 14 of the skill names differ from every later row. */
  lemma SkillNamesDistinctRows10()
    ensures forall i, j :: 10 <= i < 15 && i < j < |SkillNames| ==> SkillNames[i] != SkillNames[j]
  {
  }

  /** Rows 15 to 24 of the skill names differ from every later row. */
  lemma SkillNamesDistinctRows15()
    ensures forall i, j :: 15 <= i < 25 && i < j < |SkillNames| ==> SkillNames[i] != SkillNames[j]
  {
  }

  /**
   * With disjoint categories the repeat removal is a no-op on what
   * detection pushes; the table names each skill once.
   */
  lemma DedupNoOpForDisjointCategories(text: string, cats: seq<Category>)
    requires SkillsDisjoint(cats)
    ensures Dedup(DetectedSkills(text, cats)) == DetectedSkills(text, cats)
  {
    DetectedDistinct(text, cats);
    DedupOfDistinct(DetectedSkills(text, cats));
  }

  /** On the detection table the repeat removal changes nothing. */
  lemma DedupNoOpOnTable(text: string)
    ensures Dedup(DetectedSkills(text, SkillDetection)) == DetectedSkills(text, SkillDetection)
  {
    SkillDetectionDisjoint();
    DedupNoOpForDisjointCategories(text, SkillDetection);
  }

  // ---------------------------------------------------------------------------
  // The summary
  // ---------------------------------------------------------------------------

  /** The first `MaxSkills` unique skills detected with the categories `cats`. */
  function TopSkills(text: string, cats: seq<Category>): (r: seq<string>)
    ensures |r| <= MaxSkills
    ensures NoDuplicates(r)
  {
    var unique := Dedup(DetectedSkills(text, cats));
    if |unique| <= MaxSkills then unique else unique[..MaxSkills]
  }

  /**
   * `slice(0, 6)` of the unique skills: they are listed in the order they
   * were first detected, all of them when there are at most six, and a
   * detected skill is left out only when six skills detected before it are
   * listed.
   */
  lemma TopSkillsFirstSix(text: string, cats: seq<Category>)
    ensures var d := DetectedSkills(text, cats);
      |TopSkills(text, cats)| == if |Dedup(d)| <= MaxSkills then |Dedup(d)| else MaxSkills
    ensures var d := DetectedSkills(text, cats); var r := TopSkills(text, cats);
      forall i, j :: 0 <= i < j < |r| ==> FirstOccurrence(d, r[i]) < FirstOccurrence(d, r[j])
    ensures var d := DetectedSkills(text, cats); var r := TopSkills(text, cats);
      forall x :: x in d && x !in r ==>
        |r| == MaxSkills && forall y :: y in r ==> FirstOccurrence(d, y) < FirstOccurrence(d, x)
  {
    var d := DetectedSkills(text, cats);
    var u := Dedup(d);
    var r := TopSkills(text, cats);
    DedupFirstOccurrenceOrder(d);
    assert forall i :: 0 <= i < |r| ==> r[i] == u[i];
    forall x | x in d && x !in r
      ensures |r| == MaxSkills && forall y :: y in r ==> FirstOccurrence(d, y) < FirstOccurrence(d, x)
    {
      var k :| 0 <= k < |u| && u[k] == x;
      assert k >= MaxSkills;
      forall y | y in r
        ensures FirstOccurrence(d, y) < FirstOccurrence(d, x)
      {
        var i :| 0 <= i < |r| && r[i] == y;
        assert u[i] == y;
      }
    }
  }

  /** Category `k` of `cats` lists the single skill `names[k]`, and the names are distinct. */
  predicate NamedBy(cats: seq<Category>, names: seq<string>)
  {
    && NoDuplicates(names) && |cats| <= |names|
    && forall k :: 0 <= k < |cats| ==> cats[k].skills == [names[k]]
  }

  /** Categories with one distinct name each are disjoint. */
  lemma NamedCategoriesDisjoint(cats: seq<Category>, names: seq<string>)
    requires NamedBy(cats, names)
    ensures SkillsDisjoint(cats)
  {
    forall i, j, s | 0 <= i < j < |cats| && s in cats[i].skills
      ensures s !in cats[j].skills
    {
      assert s == names[i] && cats[j].skills == [names[j]];
    }
  }

  /** Every skill detected over the first `n` named categories comes before name `n`. */
  lemma DetectedBeforeName(text: string, cats: seq<Category>, names: seq<string>, n: nat)
    requires NamedBy(cats, names) && n < |names| && |cats| <= n
    ensures forall i :: 0 <= i < |DetectedSkills(text, cats)| ==> FirstOccurrence(names, DetectedSkills(text, cats)[i]) < n
  {
    var d := DetectedSkills(text, cats);
    forall i | 0 <= i < |d|
      ensures FirstOccurrence(names, d[i]) < n
    {
      DetectedMembership(text, cats, d[i]);
      var k :| 0 <= k < |cats| && HasSkill(text, cats[k]) && d[i] in cats[k].skills;
      assert d[i] == names[k];
      FirstOccurrenceOfDistinct(names, k);
    }
  }

  /** Detection over named categories lists skills in the order of the names. */
  lemma {:induction false} DetectedInNameOrder(text: string, cats: seq<Category>, names: seq<string>)
    requires NamedBy(cats, names)
    ensures forall i, j :: 0 <= i < j < |DetectedSkills(text, cats)| ==>
      FirstOccurrence(names, DetectedSkills(text, cats)[i]) < FirstOccurrence(names, DetectedSkills(text, cats)[j])
    decreases |cats|
  {
    if cats != [] {
      var n := |cats| - 1;
      var init := cats[..n];
      var d' := DetectedSkills(text, init);
      DetectedInNameOrder(text, init, names);
      var d := DetectedSkills(text, cats);
      if HasSkill(text, cats[n]) {
        assert cats[n].skills == [names[n]];
        assert d == d' + [names[n]];
        FirstOccurrenceOfDistinct(names, n);
        DetectedBeforeName(text, init, names, n);
        forall i, j | 0 <= i < j < |d|
          ensures FirstOccurrence(names, d[i]) < FirstOccurrence(names, d[j])
        {
          assert d[i] == d'[i];
          if j < |d'| {
            assert d[j] == d'[j];
          } else {
            assert d[j] == names[n];
          }
        }
      } else {
        assert d == d' + [];
        forall i, j | 0 <= i < j < |d|
          ensures FirstOccurrence(names, d[i]) < FirstOccurrence(names, d[j])
        {
          assert d[i] == d'[i] && d[j] == d'[j];
        }
      }
    }
  }

  /** Over named categories the summary lists skills in the order of the names. */
  lemma TopSkillsInNameOrder(text: string, cats: seq<Category>, names: seq<string>)
    requires NamedBy(cats, names)
    ensures var r := TopSkills(text, cats);
      forall i, j :: 0 <= i < j < |r| ==> FirstOccurrence(names, r[i]) < FirstOccurrence(names, r[j])
  {
    var d := DetectedSkills(text, cats);
    NamedCategoriesDisjoint(cats, names);
    DedupNoOpForDisjointCategories(text, cats);
    DetectedInNameOrder(text, cats, names);
    var r := TopSkills(text, cats);
    assert forall i :: 0 <= i < |r| ==> r[i] == d[i];
  }

  /** Over the detection table the summary lists skills in table order. */
  lemma TopSkillsInTableOrder(text: string)
    ensures var r := TopSkills(text, SkillDetection);
      forall i, j :: 0 <= i < j < |r| ==> FirstOccurrence(SkillNames, r[i]) < FirstOccurrence(SkillNames, r[j])
  {
    SkillDetectionNamed();
    TopSkillsInNameOrder(text, SkillDetection, SkillNames);
  }

  /**
   * `generateSkillsList` over the detection table: the person's name plays
   * no part. The fallback message when nothing matched, else the top
   * skills joined by ", ".
   */
  method GenerateSkillsList(name: JsonValue, contributions: string) returns (summary: string)
    ensures TopSkills(Lower(contributions), SkillDetection) == [] ==> summary == NoSkillsMessage
    ensures TopSkills(Lower(contributions), SkillDetection) != [] ==>
      summary == Join(TopSkills(Lower(contributions), SkillDetection), ", ")
  {
    var text := Lower(contributions);
    var detected := DetectSkills(text, SkillDetection);
    var uniqueSkills := Dedup(detected);
    if |uniqueSkills| == 0 {
      return NoSkillsMessage;
    }
    var topSkills := if |uniqueSkills| <= MaxSkills then uniqueSkills else uniqueSkills[..MaxSkills];
    summary := Join(topSkills, ", ");
  }

  /** Every listed skill belongs to a category with a matching keyword. */
  lemma TopSkillsAreDetected(text: string, cats: seq<Category>)
    ensures forall s :: s in TopSkills(text, cats) ==>
      exists i :: 0 <= i < |cats| && HasSkill(text, cats[i]) && s in cats[i].skills
  {
    forall s | s in TopSkills(text, cats)
      ensures exists i :: 0 <= i < |cats| && HasSkill(text, cats[i]) && s in cats[i].skills
    {
      DetectedMembership(text, cats, s);
    }
  }

  /** The fallback message is given exactly when no category with a skill has a matching keyword. */
  lemma FallbackIffNothingMatched(text: string, cats: seq<Category>)
    ensures TopSkills(text, cats) == [] <==>
      forall i :: 0 <= i < |cats| && HasSkill(text, cats[i]) ==> cats[i].skills == []
  {
    if TopSkills(text, cats) == [] {
      forall i | 0 <= i < |cats| && HasSkill(text, cats[i])
        ensures cats[i].skills == []
      {
        if cats[i].skills != [] {
          DetectedMembership(text, cats, cats[i].skills[0]);
        }
      }
    } else {
      var s := TopSkills(text, cats)[0];
      TopSkillsAreDetected(text, cats);
      assert s in TopSkills(text, cats);
    }
  }

  // ---------------------------------------------------------------------------
  // The endpoint
  // ---------------------------------------------------------------------------

  /** A JSON body value; arrays and objects only matter for being truthy. */
  datatype JsonValue = Null | Bool(b: bool) | Number(x: real) | Str(s: string) | Composite

  /**
   * A request. `personName` is `None` when absent, else the JSON value sent;
   * `descriptions` is `None` when `contributions` is absent or not an array,
   * else each element's description (a missing one joins as empty text).
   */
  datatype Request = Request(httpMethod: string, personName: Option<JsonValue>, descriptions: Option<seq<string>>)

  datatype Option<T> = None | Some(value: T)

  datatype Response = Response(status: int, summary: Option<string>)

  /** JavaScript truthiness of an optional body value. */
  predicate Truthy(v: Option<JsonValue>)
  {
    match v
    case None => false
    case Some(Null) => false
    case Some(Bool(b)) => b
    case Some(Number(x)) => x != 0.0
    case Some(Str(s)) => s != ""
    case Some(Composite) => true
  }

  /**
   * The handler: 405 for anything but POST, 400 when the name is missing
   * or falsy or the contributions are not an array, else 200 with the
   * summary of all descriptions joined by single spaces.
   */
  method HandleAiSummary(req: Request) returns (resp: Response)
    ensures req.httpMethod != "POST" ==> resp == Response(405, None)
    ensures req.httpMethod == "POST" && (!Truthy(req.personName) || req.descriptions.None?) ==> resp == Response(400, None)
    ensures req.httpMethod == "POST" && Truthy(req.personName) && req.descriptions.Some? ==>
      && resp.status == 200
      && var top := TopSkills(Lower(Join(req.descriptions.value, " ")), SkillDetection);
      && resp.summary == Some(if top == [] then NoSkillsMessage else Join(top, ", "))
  {
    if req.httpMethod != "POST" {
      return Response(405, None);
    }
    if !Truthy(req.personName) || req.descriptions.None? {
      return Response(400, None);
    }
    var allContributions := Join(req.descriptions.value, " ");
    var summary := GenerateSkillsList(req.personName.value, allContributions);
    return Response(200, Some(summary));
  }
}
