/** The case-study matcher: eight fields of a request compared with the same
    fields of every stored case study, each by its own comparator, combined
    with fixed weights, ranked by the total, and optionally exported as one
    row per case. */
module SimilarCaseStudies {
  import opened Wrappers
  import opened Text
  import opened Rounding
  import opened Sorting
  import opened ExactMatch
  import opened ArrayOverlap
  import opened NumericCloseness
  import opened TextSimilarity

  /** A JSON list of strings; an entry may be null. */
  type StringList = seq<Option<string>>

  /** A case study as fetched from the database: every key may be missing,
      null or set. */
  datatype CaseStudy = CaseStudy(
    id: Field<string>,
    state: Field<string>,
    currentChallenges: Field<StringList>,
    firstSessionNotes: Field<string>,
    additionalInfo: Field<string>,
    childAge: Field<int>,
    childDiagnoses: Field<StringList>,
    childStage: Field<string>,
    childNotes: Field<string>)

  /** The validated request body. `export_csv` defaults to true and may be
      null. */
  datatype CaseStudyRequest = CaseStudyRequest(
    state: string,
    currentChallenges: seq<string>,
    firstSessionNotes: string,
    additionalInfo: string,
    childAge: int,
    childDiagnoses: seq<string>,
    childStage: string,
    childNotes: string,
    exportCsv: Option<bool>)

  /** The keys of `WEIGHTS`, in their order there. */
  datatype FieldName =
    | State | CurrentChallenges | FirstSessionNotes | AdditionalInfo
    | ChildNotes | ChildAge | ChildDiagnoses | ChildStage

  const Fields: seq<FieldName> :=
    [State, CurrentChallenges, FirstSessionNotes, AdditionalInfo, ChildNotes, ChildAge, ChildDiagnoses, ChildStage]

  /** `WEIGHTS`. */
  function Weight(f: FieldName): (w: real)
    ensures 0.0 < w <= 0.25
  {
    match f
    case State => 0.25
    case CurrentChallenges => 0.20
    case FirstSessionNotes => 0.15
    case AdditionalInfo => 0.10
    case ChildNotes => 0.05
    case ChildAge => 0.10
    case ChildDiagnoses => 0.10
    case ChildStage => 0.05
  }

  function WeightTotal(fs: seq<FieldName>): real {
    if fs == [] then 0.0 else Weight(fs[0]) + WeightTotal(fs[1..])
  }

  /** There are eight weighted fields, each once, and the weights sum to 1. */
  lemma WeightsSumToOne()
    ensures |Fields| == 8
    ensures forall f: FieldName :: f in Fields
    ensures forall i, j :: 0 <= i < j < |Fields| ==> Fields[i] != Fields[j]
    ensures WeightTotal(Fields) == 1.0
  {
    var fs := Fields;
    forall f: FieldName ensures f in Fields {
      match f
      case State => assert fs[0] == f;
      case CurrentChallenges => assert fs[1] == f;
      case FirstSessionNotes => assert fs[2] == f;
      case AdditionalInfo => assert fs[3] == f;
      case ChildNotes => assert fs[4] == f;
      case ChildAge => assert fs[5] == f;
      case ChildDiagnoses => assert fs[6] == f;
      case ChildStage => assert fs[7] == f;
    }
    assert WeightTotal(fs[7..]) == 0.05;
    assert WeightTotal(fs[6..]) == 0.15;
    assert WeightTotal(fs[5..]) == 0.25;
    assert WeightTotal(fs[4..]) == 0.30;
    assert WeightTotal(fs[3..]) == 0.40;
    assert WeightTotal(fs[2..]) == 0.55;
    assert WeightTotal(fs[1..]) == 0.75;
  }

  /** A request list as the comparator sees it. */
  function Listed(xs: seq<string>): StringList {
    seq(|xs|, i requires 0 <= i < |xs| => Some(xs[i]))
  }

  /** The eight component scores of one case, one per weighted field. */
  datatype Components = Components(
    state: real,
    challenges: real,
    sessionNotes: real,
    additionalInfo: real,
    age: real,
    diagnoses: real,
    stage: real,
    childNotes: real)
  {
    /** The component of one field. */
    function Of(f: FieldName): real {
      match f
      case State => state
      case CurrentChallenges => challenges
      case FirstSessionNotes => sessionNotes
      case AdditionalInfo => additionalInfo
      case ChildNotes => childNotes
      case ChildAge => age
      case ChildDiagnoses => diagnoses
      case ChildStage => stage
    }

    /** Every component rounded to the given number of places. */
    function Rounded(places: nat): (k: Components)
      ensures forall f: FieldName :: k.Of(f) == Round(Of(f), places)
    {
      Components(
        Round(state, places), Round(challenges, places), Round(sessionNotes, places),
        Round(additionalInfo, places), Round(age, places), Round(diagnoses, places),
        Round(stage, places), Round(childNotes, places))
    }
  }

  /** The comparators applied to the request and the case. A missing key is
      read as "", [] or 0, a null one as None. Every comparator but text
      similarity stays in [0, 1]; exact match gives 0 or 1. */
  function ComponentScores(req: CaseStudyRequest, c: CaseStudy, o: Oracle): (k: Components)
    ensures ComparatorRanges(k)
  {
    Components(
      ExactMatchScore(Some(req.state), c.state.Get("")),
      ArrayOverlapScore(Some(Listed(req.currentChallenges)), c.currentChallenges.Get([])),
      TextSimilarityScore(Some(req.firstSessionNotes), c.firstSessionNotes.Get(""), o),
      TextSimilarityScore(Some(req.additionalInfo), c.additionalInfo.Get(""), o),
      AgeProximityScore(Some(req.childAge), c.childAge.Get(0)),
      ArrayOverlapScore(Some(Listed(req.childDiagnoses)), c.childDiagnoses.Get([])),
      ExactMatchScore(Some(req.childStage), c.childStage.Get("")),
      TextSimilarityScore(Some(req.childNotes), c.childNotes.Get(""), o))
  }

  /** Σ score × weight over fs: the reference definition of the total. */
  function WeightedSum(fs: seq<FieldName>, k: Components): real {
    if fs == [] then 0.0
    else k.Of(fs[0]) * Weight(fs[0]) + WeightedSum(fs[1..], k)
  }

  /** Every component score is in [0, 1]. Only the text scores can break
      this, since a cosine may be negative. */
  predicate UnitScores(k: Components) {
    forall f: FieldName :: 0.0 <= k.Of(f) <= 1.0
  }

  lemma {:induction false} WeightedSumBounds(fs: seq<FieldName>, k: Components)
    requires UnitScores(k)
    ensures 0.0 <= WeightedSum(fs, k) <= WeightTotal(fs)
  {
    if fs != [] {
      WeightedSumBounds(fs[1..], k);
      var s := k.Of(fs[0]);
      assert 0.0 <= s * Weight(fs[0]) <= Weight(fs[0]);
    }
  }

  /** The weighted total, summed in the source's order. */
  function WeightedTotal(k: Components): real {
    k.state * Weight(State)
    + k.challenges * Weight(CurrentChallenges)
    + k.sessionNotes * Weight(FirstSessionNotes)
    + k.additionalInfo * Weight(AdditionalInfo)
    + k.age * Weight(ChildAge)
    + k.diagnoses * Weight(ChildDiagnoses)
    + k.stage * Weight(ChildStage)
    + k.childNotes * Weight(ChildNotes)
  }

  /** The total is Σ score × weight over the eight weighted fields and, when
      every component is in [0, 1], it is in [0, 1] too. */
  lemma WeightedSumCons(f: FieldName, fs: seq<FieldName>, k: Components)
    ensures WeightedSum([f] + fs, k) == k.Of(f) * Weight(f) + WeightedSum(fs, k)
  {
    assert ([f] + fs)[1..] == fs;
  }

  lemma WeightedTotalIsWeightedSum(k: Components)
    ensures WeightedTotal(k) == WeightedSum(Fields, k)
    ensures UnitScores(k) ==> 0.0 <= WeightedTotal(k) <= 1.0
  {
    var t8 := [ChildStage];
    var t7 := [ChildDiagnoses] + t8;
    var t6 := [ChildAge] + t7;
    var t5 := [ChildNotes] + t6;
    var t4 := [AdditionalInfo] + t5;
    var t3 := [FirstSessionNotes] + t4;
    var t2 := [CurrentChallenges] + t3;
    var t1 := [State] + t2;
    assert t1 == Fields;
    assert WeightedSum(t8, k) == k.stage * 0.05;
    WeightedSumCons(ChildDiagnoses, t8, k);
    WeightedSumCons(ChildAge, t7, k);
    WeightedSumCons(ChildNotes, t6, k);
    WeightedSumCons(AdditionalInfo, t5, k);
    WeightedSumCons(FirstSessionNotes, t4, k);
    WeightedSumCons(CurrentChallenges, t3, k);
    WeightedSumCons(State, t2, k);
    if UnitScores(k) {
      WeightedSumBounds(Fields, k);
      WeightsSumToOne();
    }
  }

  /** The range every comparator but text similarity keeps: exact match
      gives 0 or 1, overlap and age proximity stay in [0, 1]. */
  predicate ComparatorRanges(k: Components) {
    (k.state == 0.0 || k.state == 1.0) && (k.stage == 0.0 || k.stage == 1.0)
    && 0.0 <= k.challenges <= 1.0 && 0.0 <= k.diagnoses <= 1.0 && 0.0 <= k.age <= 1.0
  }

  /** Rounding to 3 places keeps those ranges, leaving a 0 or a 1 as it is. */
  lemma RoundedRanges(k: Components)
    requires ComparatorRanges(k)
    ensures ComparatorRanges(k.Rounded(3))
    ensures k.Rounded(3).state == k.state && k.Rounded(3).stage == k.stage
  {
    RoundOfInt(0, 3);
    RoundOfInt(1, 3);
    RoundUnitRange(k.challenges, 3);
    RoundUnitRange(k.diagnoses, 3);
    RoundUnitRange(k.age, 3);
  }

  /** The rounded total stays in [0, 1] when every component is in [0, 1]. */
  lemma RoundedTotalRange(k: Components)
    ensures UnitScores(k) ==> 0.0 <= Round(WeightedTotal(k), 3) <= 1.0
  {
    WeightedTotalIsWeightedSum(k);
    if UnitScores(k) {
      RoundUnitRange(WeightedTotal(k), 3);
    }
  }

  /** The dictionary `calculate_case_similarity_detailed` returns. */
  datatype DetailedScores = DetailedScores(caseId: Option<string>, components: Components, weightedTotal: real)

  /** Each component and the total rounded to 3 places; the id defaults to
      "". Rounding keeps the non-text components in their ranges and the
      exact-match components as they were, and keeps the total in [0, 1]
      when every component is in [0, 1]. */
  function CalculateCaseSimilarityDetailed(req: CaseStudyRequest, c: CaseStudy, o: Oracle): (d: DetailedScores)
    ensures d.caseId == c.id.Get("")
    ensures d.components == ComponentScores(req, c, o).Rounded(3)
    ensures ComparatorRanges(d.components)
    ensures d.components.state == ComponentScores(req, c, o).state
    ensures d.components.stage == ComponentScores(req, c, o).stage
    ensures d.weightedTotal == Round(WeightedSum(Fields, ComponentScores(req, c, o)), 3)
    ensures UnitScores(ComponentScores(req, c, o)) ==> 0.0 <= d.weightedTotal <= 1.0
  {
    var k := ComponentScores(req, c, o);
    WeightedTotalIsWeightedSum(k);
    RoundedRanges(k);
    RoundedTotalRange(k);
    DetailedScores(c.id.Get(""), k.Rounded(3), Round(WeightedTotal(k), 3))
  }

  /** The rounded weighted total. */
  function CalculateCaseSimilarity(req: CaseStudyRequest, c: CaseStudy, o: Oracle): (r: real)
    ensures r == Round(WeightedSum(Fields, ComponentScores(req, c, o)), 3)
    ensures UnitScores(ComponentScores(req, c, o)) ==> 0.0 <= r <= 1.0
  {
    CalculateCaseSimilarityDetailed(req, c, o).weightedTotal
  }

  /** A missing state or stage scores 0, while a missing age is compared as
      age 0. */
  lemma MissingKeyDefaults(req: CaseStudyRequest, c: CaseStudy, o: Oracle)
    requires c.state == Absent && c.childStage == Absent && c.childAge == Absent
    ensures ComponentScores(req, c, o).state == 0.0 && ComponentScores(req, c, o).stage == 0.0
    ensures ComponentScores(req, c, o).age == AgeProximityScore(Some(req.childAge), Some(0))
    ensures req.childAge == 0 ==> ComponentScores(req, c, o).age == 1.0
  {
  }

  // Ranking.

  /** The score the ranking loop computes for each case. */
  function Similarity(req: CaseStudyRequest, o: Oracle): CaseStudy -> real {
    c => CalculateCaseSimilarity(req, c, o)
  }

  datatype ScoredCase = ScoredCase(caseStudy: CaseStudy, similarityScore: real)

  function ScoreOf(s: ScoredCase): real {
    s.similarityScore
  }

  /** Every case with its score, in fetch order. */
  function ScoreAll(cases: seq<CaseStudy>, score: CaseStudy -> real): seq<ScoredCase> {
    seq(|cases|, i requires 0 <= i < |cases| => ScoredCase(cases[i], score(cases[i])))
  }

  /** The scoring loop of the endpoint: one entry per case, in fetch order,
      each with the case's own score. */
  method ScoreCases(cases: seq<CaseStudy>, score: CaseStudy -> real) returns (scored: seq<ScoredCase>)
    ensures |scored| == |cases|
    ensures forall k :: 0 <= k < |cases| ==> scored[k] == ScoredCase(cases[k], score(cases[k]))
  {
    scored := [];
    var i := 0;
    while i < |cases|
      invariant 0 <= i <= |cases| && |scored| == i
      invariant forall k :: 0 <= k < i ==> scored[k] == ScoredCase(cases[k], score(cases[k]))
    {
      scored := scored + [ScoredCase(cases[i], score(cases[i]))];
      i := i + 1;
    }
  }

  /** The ranking: the scored cases in a stable sort by score, highest
      first. It holds every case once with its own score, and cases with
      equal scores stay in fetch order. */
  function RankCases(cases: seq<CaseStudy>, score: CaseStudy -> real): (r: seq<ScoredCase>)
    ensures |r| == |cases|
    ensures SortedBy(r, ScoreOf, Greater)
    ensures multiset(r) == multiset(ScoreAll(cases, score))
    ensures forall x :: KeyFilter(r, ScoreOf, x) == KeyFilter(ScoreAll(cases, score), ScoreOf, x)
  {
    GreaterStrict();
    SortCorrect(ScoreAll(cases, score), ScoreOf, Greater);
    Sort(ScoreAll(cases, score), ScoreOf, Greater)
  }

  /** Every ranked entry is a fetched case with its score. */
  lemma RankedFromCases(cases: seq<CaseStudy>, score: CaseStudy -> real)
    ensures forall k :: 0 <= k < |cases| ==>
      exists j :: 0 <= j < |cases| && RankCases(cases, score)[k] == ScoredCase(cases[j], score(cases[j]))
  {
    var ranked, all := RankCases(cases, score), ScoreAll(cases, score);
    forall k | 0 <= k < |cases|
      ensures exists j :: 0 <= j < |cases| && ranked[k] == ScoredCase(cases[j], score(cases[j]))
    {
      assert ranked[k] in multiset(ranked);
      assert ranked[k] in all;
      var j :| 0 <= j < |all| && all[j] == ranked[k];
    }
  }

  /** Every fetched case is ranked, with its score. */
  lemma CasesRanked(cases: seq<CaseStudy>, score: CaseStudy -> real)
    ensures forall j :: 0 <= j < |cases| ==>
      exists k :: 0 <= k < |cases| && RankCases(cases, score)[k] == ScoredCase(cases[j], score(cases[j]))
  {
    var ranked, all := RankCases(cases, score), ScoreAll(cases, score);
    forall j | 0 <= j < |cases|
      ensures exists k :: 0 <= k < |cases| && ranked[k] == ScoredCase(cases[j], score(cases[j]))
    {
      assert all[j] in multiset(all);
      assert all[j] in ranked;
      var k :| 0 <= k < |ranked| && ranked[k] == all[j];
    }
  }

  /** A case that scores strictly more than one of the first n ranked
      entries is itself among the first n. */
  lemma RankedTopComplete(cases: seq<CaseStudy>, score: CaseStudy -> real, n: nat, j: nat, k: nat)
    requires j < |cases| && k < |Take(RankCases(cases, score), n)|
    requires score(cases[j]) > RankCases(cases, score)[k].similarityScore
    ensures exists l :: (0 <= l < |Take(RankCases(cases, score), n)|
      && RankCases(cases, score)[l] == ScoredCase(cases[j], score(cases[j])))
  {
    var ranked := RankCases(cases, score);
    CasesRanked(cases, score);
    var l :| 0 <= l < |cases| && ranked[l] == ScoredCase(cases[j], score(cases[j]));
    TakeComplete(ranked, n, ScoreOf, Greater, l, k);
  }

  /** One entry of the response. */
  datatype SimilarCase = SimilarCase(id: Option<string>, similarityScore: real)

  /** `case["case_study"]["id"]` raises on a missing key; a null id is None. */
  function IdOf(f: Field<string>): Option<string>
    requires f != Absent
  {
    if f.Present? then Some(f.value) else None
  }

  datatype ExportError = JoinTypeError(caseIndex: nat)

  datatype CaseStudyError = ExportFailed(error: ExportError) | MissingId

  /** The response list for the top cases, each score rounded to 3 places; a
      case without an id key makes the whole request fail. */
  function Respond(top: seq<ScoredCase>): (r: Result<seq<SimilarCase>, CaseStudyError>)
    ensures r.Ok? <==> forall k :: 0 <= k < |top| ==> top[k].caseStudy.id != Absent
    ensures r.Ok? ==> |r.value| == |top| && forall k :: 0 <= k < |top| ==>
      r.value[k] == SimilarCase(IdOf(top[k].caseStudy.id), Round(top[k].similarityScore, 3))
  {
    if top == [] then Ok([])
    else if top[0].caseStudy.id == Absent then Err(MissingId)
    else
      var rest := Respond(top[1..]);
      if rest.Err? then rest
      else Ok([SimilarCase(IdOf(top[0].caseStudy.id), Round(top[0].similarityScore, 3))] + rest.value)
  }

  /** The response list of the endpoint: the first five ranked cases, each
      score rounded to 3 places. */
  function TopSimilar(cases: seq<CaseStudy>, score: CaseStudy -> real): Result<seq<SimilarCase>, CaseStudyError> {
    Respond(Take(RankCases(cases, score), 5))
  }

  /** The list has min(5, n) entries, and it can only fail on a case
      without an id key. */
  lemma TopSimilarLength(cases: seq<CaseStudy>, score: CaseStudy -> real)
    ensures (forall j :: 0 <= j < |cases| ==> cases[j].id != Absent) ==> TopSimilar(cases, score).Ok?
    ensures TopSimilar(cases, score).Ok? ==>
      |TopSimilar(cases, score).value| == if |cases| < 5 then |cases| else 5
  {
    var ranked := RankCases(cases, score);
    if forall j :: 0 <= j < |cases| ==> cases[j].id != Absent {
      RankedFromCases(cases, score);
      forall k | 0 <= k < |Take(ranked, 5)|
        ensures ranked[k].caseStudy.id != Absent
      {
        var j :| 0 <= j < |cases| && ranked[k] == ScoredCase(cases[j], score(cases[j]));
      }
    }
  }

  /** The scores in the list never increase from one entry to the next. */
  lemma TopSimilarOrdered(cases: seq<CaseStudy>, score: CaseStudy -> real)
    ensures TopSimilar(cases, score).Ok? ==> forall k, l :: 0 <= k < l < |TopSimilar(cases, score).value| ==>
      TopSimilar(cases, score).value[l].similarityScore <= TopSimilar(cases, score).value[k].similarityScore
  {
    var ranked, r := RankCases(cases, score), TopSimilar(cases, score);
    if r.Ok? {
      forall k, l | 0 <= k < l < |r.value|
        ensures r.value[l].similarityScore <= r.value[k].similarityScore
      {
        assert !Greater(ranked[l].similarityScore, ranked[k].similarityScore);
        RoundMonotone(ranked[l].similarityScore, ranked[k].similarityScore, 3);
      }
    }
  }

  /** Every entry is the id and the rounded score of a fetched case. */
  lemma TopSimilarFromCases(cases: seq<CaseStudy>, score: CaseStudy -> real)
    ensures TopSimilar(cases, score).Ok? ==> forall k :: 0 <= k < |TopSimilar(cases, score).value| ==>
      exists j :: (0 <= j < |cases| && cases[j].id != Absent
        && TopSimilar(cases, score).value[k] == SimilarCase(IdOf(cases[j].id), Round(score(cases[j]), 3)))
  {
    var ranked, r := RankCases(cases, score), TopSimilar(cases, score);
    if r.Ok? {
      RankedFromCases(cases, score);
      forall k | 0 <= k < |r.value|
        ensures exists j :: (0 <= j < |cases| && cases[j].id != Absent
          && r.value[k] == SimilarCase(IdOf(cases[j].id), Round(score(cases[j]), 3)))
      {
        var j :| 0 <= j < |cases| && ranked[k] == ScoredCase(cases[j], score(cases[j]));
      }
    }
  }

  /** No case left out of the list scores higher than one in it. */
  lemma TopSimilarComplete(cases: seq<CaseStudy>, score: CaseStudy -> real, j: nat, k: nat)
    requires TopSimilar(cases, score).Ok?
    requires j < |cases| && k < |TopSimilar(cases, score).value|
    requires Round(score(cases[j]), 3) > TopSimilar(cases, score).value[k].similarityScore
    ensures exists l :: (0 <= l < |TopSimilar(cases, score).value| && cases[j].id != Absent
      && TopSimilar(cases, score).value[l] == SimilarCase(IdOf(cases[j].id), Round(score(cases[j]), 3)))
  {
    var ranked, r := RankCases(cases, score), TopSimilar(cases, score);
    if score(cases[j]) <= ranked[k].similarityScore {
      RoundMonotone(score(cases[j]), ranked[k].similarityScore, 3);
    }
    RankedTopComplete(cases, score, 5, j, k);
    var l :| 0 <= l < |Take(ranked, 5)| && ranked[l] == ScoredCase(cases[j], score(cases[j]));
    assert r.value[l] == SimilarCase(IdOf(cases[j].id), Round(score(cases[j]), 3));
  }

  /** The endpoint's scores are already rounded, so the response shows them
      unchanged. */
  lemma SimilarityRounded(req: CaseStudyRequest, o: Oracle, c: CaseStudy)
    ensures Round(Similarity(req, o)(c), 3) == Similarity(req, o)(c)
  {
    RoundIdempotent(WeightedSum(Fields, ComponentScores(req, c, o)), 3);
  }

  // Export.

  /** One CSV row: the detailed scores and the case's own fields. A missing
      string key gives "", a null one None; a missing or null age is an empty
      cell, so the age is kept as it was read. */
  datatype CaseExportRow = CaseExportRow(
    scores: DetailedScores,
    caseState: Option<string>,
    caseCurrentChallenges: string,
    caseFirstSessionNotes: Option<string>,
    caseAdditionalInfo: Option<string>,
    caseAge: Field<int>,
    caseChildDiagnoses: string,
    caseStage: Option<string>,
    caseChildNotes: Option<string>)

  /** The 18 columns of the export, in order. */
  const ExportHeader: seq<string> := [
    "case_id", "case_state", "case_current_challenges", "case_first_session_notes",
    "case_additional_info", "case_age", "case_child_diagnoses", "case_stage", "case_child_notes",
    "state_score", "challenges_score", "session_notes_score",
    "additional_info_score", "age_score", "diagnoses_score",
    "stage_score", "child_notes_score", "weighted_total"]

  function Values(xs: StringList): seq<string>
    requires forall i :: 0 <= i < |xs| ==> xs[i].Some?
  {
    seq(|xs|, i requires 0 <= i < |xs| => xs[i].value)
  }

  /** `", ".join(case_study.get(key, []))`: a missing list joins to "", a
      null list or a null entry raises a TypeError (None). */
  function JoinList(f: Field<StringList>): (r: Option<string>)
    ensures r.None? <==> f.Null? || (f.Present? && exists i :: 0 <= i < |f.value| && f.value[i].None?)
    ensures f.Absent? ==> r == Some("")
  {
    match f
    case Absent => Some(Join([], ", "))
    case Null => None
    case Present(xs) =>
      if forall i :: 0 <= i < |xs| ==> xs[i].Some? then Some(Join(Values(xs), ", ")) else None
  }

  /** Both list fields of the case can be joined. */
  predicate Exportable(c: CaseStudy) {
    JoinList(c.currentChallenges).Some? && JoinList(c.childDiagnoses).Some?
  }

  /** The detailed scores the export computes for each case. */
  function Detail(req: CaseStudyRequest, o: Oracle): CaseStudy -> DetailedScores {
    c => CalculateCaseSimilarityDetailed(req, c, o)
  }

  /** The row of one case: its detailed scores updated with its own fields. */
  function ExportRow(c: CaseStudy, d: DetailedScores): CaseExportRow
    requires Exportable(c)
  {
    CaseExportRow(
      d,
      c.state.Get(""),
      JoinList(c.currentChallenges).value,
      c.firstSessionNotes.Get(""),
      c.additionalInfo.Get(""),
      c.childAge,
      JoinList(c.childDiagnoses).value,
      c.childStage.Get(""),
      c.childNotes.Get(""))
  }

  /** The rows the export loop builds, in fetch order. */
  function ExportRows(cases: seq<CaseStudy>, detail: CaseStudy -> DetailedScores): seq<CaseExportRow>
    requires forall i :: 0 <= i < |cases| ==> Exportable(cases[i])
  {
    seq(|cases|, i requires 0 <= i < |cases| && Exportable(cases[i]) => ExportRow(cases[i], detail(cases[i])))
  }

  function TotalOf(row: CaseExportRow): real {
    row.scores.weightedTotal
  }

  /** `export_scoring_to_csv` without the file: one row per case, sorted by
      weighted total, highest first, ties in fetch order. The first case
      whose lists cannot be joined aborts it. */
  method ExportScoringToCsv(cases: seq<CaseStudy>, detail: CaseStudy -> DetailedScores)
    returns (r: Result<seq<CaseExportRow>, ExportError>)
    ensures r.Err? <==> exists i :: 0 <= i < |cases| && !Exportable(cases[i])
    ensures r.Err? ==> r.error.caseIndex < |cases| && !Exportable(cases[r.error.caseIndex])
    ensures r.Err? ==> forall i :: 0 <= i < r.error.caseIndex ==> Exportable(cases[i])
    ensures r.Ok? ==> forall i :: 0 <= i < |cases| ==> Exportable(cases[i])
    ensures r.Ok? && (forall i :: 0 <= i < |cases| ==> Exportable(cases[i])) ==>
      r.value == Sort(ExportRows(cases, detail), TotalOf, Greater)
    ensures r.Ok? ==> |r.value| == |cases| && SortedBy(r.value, TotalOf, Greater)
  {
    var rows: seq<CaseExportRow> := [];
    var i := 0;
    while i < |cases|
      invariant 0 <= i <= |cases| && |rows| == i
      invariant forall k :: 0 <= k < i ==> Exportable(cases[k]) && rows[k] == ExportRow(cases[k], detail(cases[k]))
    {
      if !Exportable(cases[i]) {
        return Err(JoinTypeError(i));
      }
      rows := rows + [ExportRow(cases[i], detail(cases[i]))];
      i := i + 1;
    }
    assert rows == ExportRows(cases, detail);
    GreaterStrict();
    SortCorrect(rows, TotalOf, Greater);
    return Ok(Sort(rows, TotalOf, Greater));
  }

  // The endpoint.

  datatype Response = Response(similarCases: seq<SimilarCase>, exportRows: Option<seq<CaseExportRow>>)

  /** `get_similar_case_studies` without the framework: the optional export,
      then every case scored, a stable sort by score, highest first, and the
      first five. */
  method GetSimilarCaseStudies(req: CaseStudyRequest, cases: seq<CaseStudy>, o: Oracle)
    returns (r: Result<Response, CaseStudyError>)
    ensures req.exportCsv == Some(true) && (exists i :: 0 <= i < |cases| && !Exportable(cases[i])) ==>
      r.Err? && r.error.ExportFailed?
    ensures r.Ok? ==> (r.value.exportRows.Some? <==> req.exportCsv == Some(true))
    ensures r.Ok? && r.value.exportRows.Some? ==>
      (forall i :: 0 <= i < |cases| ==> Exportable(cases[i]))
      && r.value.exportRows.value == Sort(ExportRows(cases, Detail(req, o)), TotalOf, Greater)
    ensures (req.exportCsv != Some(true) || forall i :: 0 <= i < |cases| ==> Exportable(cases[i])) ==>
      (r.Ok? <==> TopSimilar(cases, Similarity(req, o)).Ok?)
    ensures r.Ok? ==> TopSimilar(cases, Similarity(req, o)) == Ok(r.value.similarCases)
  {
    var exported: Option<seq<CaseExportRow>> := None;
    if req.exportCsv == Some(true) {
      var e := ExportScoringToCsv(cases, Detail(req, o));
      if e.Err? {
        return Err(ExportFailed(e.error));
      }
      exported := Some(e.value);
    }

    var score := Similarity(req, o);
    var scored := ScoreCases(cases, score);
    assert scored == ScoreAll(cases, score);
    var ranked := Sort(scored, ScoreOf, Greater);
    var top := Take(ranked, 5);
    var response := Respond(top);
    if response.Err? {
      return Err(response.error);
    }
    return Ok(Response(response.value, exported));
  }
}
