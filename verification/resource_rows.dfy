/** The export rows both sandbox scripts write: one row per (query text,
    resource) with the resource's columns and its rounded similarity, and
    the order they are written in — query text ascending, then score
    descending (`sort(key=lambda x: (x["test_case"], -x["similarity_score"]))`). */
module ResourceRows {
  import opened Wrappers
  import opened Text
  import opened Rounding
  import opened Sorting
  import opened SupabaseClient

  /** One CSV row. A column read with `.get(key, "")` is None when the
      stored value is a JSON null. */
  datatype SimilarityRow = SimilarityRow(
    testCase: string,
    resourceId: Option<string>,
    title: Option<string>,
    description: Option<string>,
    kind: Option<string>,
    source: Option<string>,
    category: Option<string>,
    topics: string,
    recommendIf: Option<string>,
    state: Option<string>,
    organization: Option<string>,
    defaultNavigatorNote: Option<string>,
    similarityScore: real)

  /** The CSV columns, in order. */
  const RowHeader: seq<string> := [
    "test_case", "resource_id", "resource_title", "resource_description", "resource_type",
    "resource_source", "resource_category", "resource_topics", "resource_recommend_if",
    "resource_state", "resource_organization", "resource_default_navigator_note", "similarity_score"]

  /** `", ".join(...)` gives "" only for no items or a single empty item. */
  lemma {:induction false} JoinEmpty(items: seq<string>, sep: string)
    requires sep != ""
    ensures Join(items, sep) == "" <==> items == [] || items == [""]
  {
    if |items| > 1 {
      assert |Join(items, sep)| >= |sep|;
    }
  }

  /** `", ".join(resource.get("topics", [])) if resource.get("topics") else ""`:
      the topics joined by ", " when there is a non-empty list, "" for a
      missing, null or empty list. The cell is empty exactly in those cases
      and for the single topic "". */
  function TopicsCell(f: Field<seq<string>>): (c: string)
    ensures c == "" <==> !(f.Present? && f.value != []) || f.value == [""]
    ensures f.Present? && |f.value| == 1 ==> c == f.value[0]
  {
    if f.Present? && f.value != [] then
      JoinEmpty(f.value, ", ");
      Join(f.value, ", ")
    else ""
  }

  /** The row for a resource found for a query text, its score rounded to 4
      places. Every other cell is the column read with `.get(key, "")`: a
      missing key gives "", a null stays empty, a value is copied. */
  function ResourceRow(testCase: string, resourceId: Option<string>, info: ResourceInfo, score: real): (row: SimilarityRow)
    ensures row.testCase == testCase && row.resourceId == resourceId
    ensures row.similarityScore == Round(score, 4)
    ensures row.topics == TopicsCell(info.topics)
    ensures row.title == info.title.Get("") && row.description == info.description.Get("")
    ensures row.kind == info.kind.Get("") && row.source == info.source.Get("")
    ensures row.category == info.category.Get("") && row.recommendIf == info.recommendIf.Get("")
    ensures row.state == info.state.Get("") && row.organization == info.organization.Get("")
    ensures row.defaultNavigatorNote == info.defaultNavigatorNote.Get("")
  {
    SimilarityRow(
      testCase, resourceId, info.title.Get(""), info.description.Get(""), info.kind.Get(""),
      info.source.Get(""), info.category.Get(""), TopicsCell(info.topics), info.recommendIf.Get(""),
      info.state.Get(""), info.organization.Get(""), info.defaultNavigatorNote.Get(""),
      Round(score, 4))
  }

  /** The sort key `(test_case, -similarity_score)`. */
  datatype RowKey = RowKey(testCase: string, score: real)

  function KeyOf(row: SimilarityRow): RowKey {
    RowKey(row.testCase, row.similarityScore)
  }

  /** Python's `<` on the key tuples: the query text decides, and for the
      same text the higher score goes first. */
  function RowKeyLess(a: RowKey, b: RowKey): bool {
    StringLess(a.testCase, b.testCase) || (a.testCase == b.testCase && -a.score < -b.score)
  }

  lemma RowKeyStrict()
    ensures StrictOrder(RowKeyLess)
  {
    forall a: RowKey ensures !RowKeyLess(a, a) {
      StringLessIrreflexive(a.testCase);
    }
    forall a: RowKey, b: RowKey, c: RowKey | RowKeyLess(a, b) && RowKeyLess(b, c)
      ensures RowKeyLess(a, c)
    {
      if StringLess(a.testCase, b.testCase) && StringLess(b.testCase, c.testCase) {
        StringLessTransitive(a.testCase, b.testCase, c.testCase);
      }
    }
  }

  /** The rows in the written order: sorted by the key, the same rows, and
      rows with equal keys in the order they were produced. */
  function SortRows(rows: seq<SimilarityRow>): (r: seq<SimilarityRow>)
    ensures |r| == |rows|
    ensures SortedBy(r, KeyOf, RowKeyLess)
    ensures multiset(r) == multiset(rows)
    ensures forall k :: KeyFilter(r, KeyOf, k) == KeyFilter(rows, KeyOf, k)
  {
    RowKeyStrict();
    SortCorrect(rows, KeyOf, RowKeyLess);
    Sort(rows, KeyOf, RowKeyLess)
  }

  /** In the written order a row with a smaller query text comes first, and
      of two rows with the same query text the higher score comes first. */
  lemma SortedRowsOrder(rows: seq<SimilarityRow>, i: nat, j: nat)
    requires i < j < |SortRows(rows)|
    ensures !StringLess(SortRows(rows)[j].testCase, SortRows(rows)[i].testCase)
    ensures SortRows(rows)[i].testCase == SortRows(rows)[j].testCase ==>
      SortRows(rows)[j].similarityScore <= SortRows(rows)[i].similarityScore
  {
    var r := SortRows(rows);
    assert !RowKeyLess(KeyOf(r[j]), KeyOf(r[i]));
  }
}
