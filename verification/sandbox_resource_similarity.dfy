/** The sandbox `calculate_resource_similarity_to_csv`: every query text is
    sent to the database vector search (100 results, threshold 0.0), each
    returned resource becomes one row tagged with the query text, and the
    rows are sorted by query text, then score, highest first. Writing the
    CSV file is not modelled; the rows are the result. */
module SandboxResourceSimilarity {
  import opened Wrappers
  import opened Rounding
  import opened Sorting
  import opened TextSimilarity
  import opened SupabaseClient
  import opened ResourceRows

  const MatchCount: int := 100
  const MatchThreshold: real := 0.0

  /** The vector search each query text goes through. */
  function Search(o: Oracle, rpc: MatchRpc): string -> seq<MatchedResource> {
    text => MatchSimilarResources(text, MatchCount, MatchThreshold, o, rpc)
  }

  /** `round(resource.get("similarity", 0), 4)` raises a TypeError on a null
      similarity; the run stops at the first such result. */
  datatype SandboxError = NullSimilarity(testIndex: nat, matchIndex: nat)

  /** The row for one search result; None when its similarity is null. A
      missing similarity counts as 0. */
  function MatchRow(text: string, m: MatchedResource): (row: Option<SimilarityRow>)
    ensures row.None? <==> m.similarity == Null
    ensures m.similarity == Absent ==> row == Some(ResourceRow(text, m.resourceId.Get(""), m.info, 0.0))
    ensures m.similarity.Present? ==> row == Some(ResourceRow(text, m.resourceId.Get(""), m.info, m.similarity.value))
  {
    var s := m.similarity.Get(0.0);
    if s.None? then None else Some(ResourceRow(text, m.resourceId.Get(""), m.info, s.value))
  }

  /** How a search result becomes a row: `MatchRow` in the script. */
  type RowBuilder = (string, MatchedResource) -> Option<SimilarityRow>

  /** The rows of one query text, in result order, or the index of the first
      result with a null similarity. */
  function TestRows(text: string, ms: seq<MatchedResource>, row: RowBuilder): Result<seq<SimilarityRow>, nat> {
    if ms == [] then Ok([])
    else
      match TestRows(text, ms[..|ms| - 1], row)
      case Err(j) => Err(j)
      case Ok(rows) =>
        var r := row(text, ms[|ms| - 1]);
        if r.None? then Err(|ms| - 1) else Ok(rows + [r.value])
  }

  /** A query text gets exactly one row per returned resource, tagged with
      the text, unless a result has a null similarity. */
  lemma {:induction false} TestRowsExactly(text: string, ms: seq<MatchedResource>, row: RowBuilder)
    requires forall t, m :: row(t, m).Some? ==> row(t, m).value.testCase == t
    ensures TestRows(text, ms, row).Ok? <==> forall j :: 0 <= j < |ms| ==> row(text, ms[j]).Some?
    ensures TestRows(text, ms, row).Ok? ==> |TestRows(text, ms, row).value| == |ms|
    ensures TestRows(text, ms, row).Ok? ==> forall j :: 0 <= j < |ms| ==>
      Some(TestRows(text, ms, row).value[j]) == row(text, ms[j]) && TestRows(text, ms, row).value[j].testCase == text
  {
    if ms != [] {
      var init := ms[..|ms| - 1];
      TestRowsExactly(text, init, row);
      assert forall j :: 0 <= j < |init| ==> init[j] == ms[j];
    }
  }

  /** A failed prefix fails the whole list the same way. */
  lemma {:induction false} TestRowsFailureSticks(text: string, ms: seq<MatchedResource>, row: RowBuilder, n: nat)
    requires n <= |ms| && TestRows(text, ms[..n], row).Err?
    ensures TestRows(text, ms, row) == TestRows(text, ms[..n], row)
  {
    if n < |ms| {
      var init := ms[..|ms| - 1];
      assert init[..n] == ms[..n];
      TestRowsFailureSticks(text, init, row, n);
    } else {
      assert ms[..n] == ms;
    }
  }

  /** The rows of all query texts, in query order, before the sort. */
  function AllRows(tests: seq<string>, search: string -> seq<MatchedResource>, row: RowBuilder)
    : Result<seq<SimilarityRow>, SandboxError>
  {
    if tests == [] then Ok([])
    else
      var last := tests[|tests| - 1];
      match AllRows(tests[..|tests| - 1], search, row)
      case Err(e) => Err(e)
      case Ok(rows) =>
        match TestRows(last, search(last), row)
        case Err(j) => Err(NullSimilarity(|tests| - 1, j))
        case Ok(more) => Ok(rows + more)
  }

  lemma {:induction false} AllRowsFailureSticks(tests: seq<string>, search: string -> seq<MatchedResource>, row: RowBuilder, n: nat)
    requires n <= |tests| && AllRows(tests[..n], search, row).Err?
    ensures AllRows(tests, search, row) == AllRows(tests[..n], search, row)
  {
    if n < |tests| {
      var init := tests[..|tests| - 1];
      assert init[..n] == tests[..n];
      AllRowsFailureSticks(init, search, row, n);
    } else {
      assert tests[..n] == tests;
    }
  }

  /** The number of results over all query texts. */
  function TotalResults(tests: seq<string>, search: string -> seq<MatchedResource>): nat {
    if tests == [] then 0
    else TotalResults(tests[..|tests| - 1], search) + |search(tests[|tests| - 1])|
  }

  /** The script's row builder tags every row with its query text. */
  lemma MatchRowTagged()
    ensures forall t, m :: MatchRow(t, m).Some? ==> MatchRow(t, m).value.testCase == t
  {
  }

  /** There are as many rows as results, every row is tagged with one of the
      query texts, and a query text without results has no rows. */
  lemma {:induction false} AllRowsPerTest(tests: seq<string>, search: string -> seq<MatchedResource>, row: RowBuilder)
    requires forall t, m :: row(t, m).Some? ==> row(t, m).value.testCase == t
    requires AllRows(tests, search, row).Ok?
    ensures |AllRows(tests, search, row).value| == TotalResults(tests, search)
    ensures forall k :: 0 <= k < |AllRows(tests, search, row).value| ==> AllRows(tests, search, row).value[k].testCase in tests
    ensures forall k :: 0 <= k < |AllRows(tests, search, row).value| ==>
      search(AllRows(tests, search, row).value[k].testCase) != []
  {
    if tests != [] {
      var init, last := tests[..|tests| - 1], tests[|tests| - 1];
      AllRowsPerTest(init, search, row);
      TestRowsExactly(last, search(last), row);
      var rows, more := AllRows(init, search, row).value, TestRows(last, search(last), row).value;
      var all: seq<SimilarityRow> := rows + more;
      assert AllRows(tests, search, row).value == all;
      forall k | 0 <= k < |all|
        ensures all[k].testCase in tests && search(all[k].testCase) != []
      {
        if k < |rows| {
          assert all[k] == rows[k];
          var p :| 0 <= p < |init| && init[p] == rows[k].testCase;
          assert tests[p] == init[p];
        } else {
          assert all[k] == more[k - |rows|];
        }
      }
    }
  }

  /** Every result of every query text has its row. */
  lemma {:induction false} AllRowsComplete(tests: seq<string>, search: string -> seq<MatchedResource>, row: RowBuilder, i: nat, j: nat)
    requires forall t, m :: row(t, m).Some? ==> row(t, m).value.testCase == t
    requires AllRows(tests, search, row).Ok? && i < |tests| && j < |search(tests[i])|
    ensures row(tests[i], search(tests[i])[j]).Some?
    ensures row(tests[i], search(tests[i])[j]).value in AllRows(tests, search, row).value
  {
    var init, last := tests[..|tests| - 1], tests[|tests| - 1];
    TestRowsExactly(last, search(last), row);
    if i < |init| {
      assert init[i] == tests[i];
      AllRowsComplete(init, search, row, i, j);
    }
  }

  /** A query text the embedding service fails on gets no rows: the
      search returns nothing for it. */
  lemma NoEmbeddingNoRows(tests: seq<string>, o: Oracle, rpc: MatchRpc, t: string)
    requires o.embed(t).None? && AllRows(tests, Search(o, rpc), MatchRow).Ok?
    ensures forall k :: 0 <= k < |AllRows(tests, Search(o, rpc), MatchRow).value| ==>
      AllRows(tests, Search(o, rpc), MatchRow).value[k].testCase != t
  {
    MatchRowTagged();
    AllRowsPerTest(tests, Search(o, rpc), MatchRow);
  }

  /** What the script writes: the sorted rows, or the failure. */
  function SortedExport(rows: Result<seq<SimilarityRow>, SandboxError>): Result<seq<SimilarityRow>, SandboxError> {
    match rows
    case Err(e) => Err(e)
    case Ok(rs) => Ok(SortRows(rs))
  }

  /** The loop over one query text's results: one row per result, or the
      index of the first result with a null similarity. */
  method QueryRows(text: string, matches: seq<MatchedResource>) returns (r: Result<seq<SimilarityRow>, nat>)
    ensures r == TestRows(text, matches, MatchRow)
  {
    var rows: seq<SimilarityRow> := [];
    for j := 0 to |matches|
      invariant TestRows(text, matches[..j], MatchRow) == Ok(rows)
    {
      assert matches[..j + 1][..j] == matches[..j];
      var row := MatchRow(text, matches[j]);
      if row.None? {
        TestRowsFailureSticks(text, matches, MatchRow, j + 1);
        return Err(j);
      }
      rows := rows + [row.value];
    }
    assert matches[..|matches|] == matches;
    r := Ok(rows);
  }

  /** The script's loops: for each query text the search, a skip when it
      returns nothing, one row per result, and the final sort. */
  method CalculateResourceSimilarityToCsv(tests: seq<string>, o: Oracle, rpc: MatchRpc)
    returns (r: Result<seq<SimilarityRow>, SandboxError>)
    ensures r == SortedExport(AllRows(tests, Search(o, rpc), MatchRow))
  {
    var search := Search(o, rpc);
    var allRows: seq<SimilarityRow> := [];
    for i := 0 to |tests|
      invariant AllRows(tests[..i], search, MatchRow) == Ok(allRows)
    {
      assert tests[..i + 1][..i] == tests[..i];
      var text := tests[i];
      var matches := search(text);
      if matches == [] {
        assert allRows + [] == allRows;
        continue;
      }
      var rows := QueryRows(text, matches);
      if rows.Err? {
        AllRowsFailureSticks(tests, search, MatchRow, i + 1);
        return Err(NullSimilarity(i, rows.error));
      }
      allRows := allRows + rows.value;
    }
    assert tests[..|tests|] == tests;
    r := Ok(SortRows(allRows));
  }
}
