/** The data access layer: the two joins done in Python after fetching
    (embeddings attached to resources, children's diagnoses flattened), the
    vector-search call and the embedding backfill. The database reads, the
    RPC and the embedding service are parameters of the model. */
module SupabaseClient {
  import opened Wrappers
  import opened Text
  import opened TextSimilarity

  /** The `embedding` column of `resource_embeddings`: a vector, or the text
      form the vector column may come back in. */
  datatype StoredEmbedding = Vector(values: seq<real>) | VectorText(text: string)

  /** A row of `resource_embeddings`; the embedding may be null. */
  datatype EmbeddingRow = EmbeddingRow(resourceId: string, embedding: Option<StoredEmbedding>)

  /** The descriptive columns of a resource, each missing, null or set. */
  datatype ResourceInfo = ResourceInfo(
    title: Field<string>,
    description: Field<string>,
    kind: Field<string>,
    source: Field<string>,
    category: Field<string>,
    topics: Field<seq<string>>,
    recommendIf: Field<string>,
    state: Field<string>,
    organization: Field<string>,
    defaultNavigatorNote: Field<string>)

  /** A row of `resources`, with the `embedding` key the join adds. */
  datatype Resource = Resource(id: string, info: ResourceInfo, embedding: Field<StoredEmbedding>)

  // get_all_resources_with_embeddings

  /** `{e["resource_id"]: e["embedding"] for e in rows}`: its keys are the
      resource ids of the rows. */
  function EmbeddingMap(rows: seq<EmbeddingRow>): (m: map<string, Option<StoredEmbedding>>)
    ensures forall id :: id in m <==> exists i :: 0 <= i < |rows| && rows[i].resourceId == id
  {
    if rows == [] then map[]
    else
      var last := rows[|rows| - 1];
      var m := EmbeddingMap(rows[..|rows| - 1]);
      assert forall id :: id in m ==> exists i :: 0 <= i < |rows| && rows[i].resourceId == id by {
        forall id | id in m
          ensures exists i :: 0 <= i < |rows| && rows[i].resourceId == id
        {
          var i :| 0 <= i < |rows| - 1 && rows[..|rows| - 1][i].resourceId == id;
          assert rows[i].resourceId == id;
        }
      }
      m[last.resourceId := last.embedding]
  }

  /** No row after row i has its resource id. */
  predicate LastOfId(rows: seq<EmbeddingRow>, i: nat)
    requires i < |rows|
  {
    forall j :: i < j < |rows| ==> rows[j].resourceId != rows[i].resourceId
  }

  /** When two rows share a resource id, the later one wins: the map holds
      the embedding of the last row with that id. */
  lemma {:induction false} EmbeddingMapLastWins(rows: seq<EmbeddingRow>, i: nat)
    requires i < |rows| && LastOfId(rows, i)
    ensures rows[i].resourceId in EmbeddingMap(rows)
    ensures EmbeddingMap(rows)[rows[i].resourceId] == rows[i].embedding
  {
    if i < |rows| - 1 {
      var init := rows[..|rows| - 1];
      assert init[i] == rows[i];
      EmbeddingMapLastWins(init, i);
    }
  }

  /** `embedding_map.get(resource["id"])`, stored under the `embedding` key:
      a null when no row has the id or the row's embedding is null. */
  function Attached(m: map<string, Option<StoredEmbedding>>, id: string): (e: Field<StoredEmbedding>)
    ensures e != Absent
    ensures e.Present? <==> id in m && m[id].Some?
  {
    if id in m && m[id].Some? then Present(m[id].value) else Null
  }

  /** After the join a resource's embedding is that of the last row with its
      id, and null when there is no such row. */
  lemma AttachedEmbedding(rows: seq<EmbeddingRow>, id: string)
    ensures (forall i :: 0 <= i < |rows| ==> rows[i].resourceId != id) ==> Attached(EmbeddingMap(rows), id) == Null
    ensures forall i :: 0 <= i < |rows| && rows[i].resourceId == id && LastOfId(rows, i) ==>
      Attached(EmbeddingMap(rows), id) == (if rows[i].embedding.Some? then Present(rows[i].embedding.value) else Null)
  {
    forall i | 0 <= i < |rows| && rows[i].resourceId == id && LastOfId(rows, i)
      ensures Attached(EmbeddingMap(rows), id) == (if rows[i].embedding.Some? then Present(rows[i].embedding.value) else Null)
    {
      EmbeddingMapLastWins(rows, i);
    }
  }

  /** The join loop: every resource, in place, gets the `embedding` key and
      keeps its id, its other columns and its position. */
  method AttachEmbeddings(resources: array<Resource>, rows: seq<EmbeddingRow>)
    modifies resources
    ensures forall i :: 0 <= i < resources.Length ==>
      resources[i] == old(resources[i]).(embedding := Attached(EmbeddingMap(rows), old(resources[i]).id))
  {
    var m := EmbeddingMap(rows);
    for i := 0 to resources.Length
      invariant forall k :: 0 <= k < i ==> resources[k] == old(resources[k]).(embedding := Attached(m, old(resources[k]).id))
      invariant forall k :: i <= k < resources.Length ==> resources[k] == old(resources[k])
    {
      resources[i] := resources[i].(embedding := Attached(m, resources[i].id));
    }
  }

  // get_child_diagnoses_by_user_id

  /** An entry of a `diagnoses` list: a string, or None for a null or any
      other value that is not a string. `extend` copies it as it is. */
  type Diagnosis = Option<string>

  /** A child's `diagnoses` value: a list, or anything else. */
  datatype DiagnosesValue = DiagnosisList(items: seq<Diagnosis>) | NotAList

  datatype ChildRow = ChildRow(diagnoses: Field<DiagnosesValue>)

  /** What one child contributes: its list, [] for a missing key, nothing
      for a null or a value that is not a list. */
  function ChildDiagnoses(c: ChildRow): seq<Diagnosis> {
    match c.diagnoses
    case Present(DiagnosisList(xs)) => xs
    case _ => []
  }

  /** The children's lists concatenated in order. */
  function AllDiagnoses(children: seq<ChildRow>): seq<Diagnosis> {
    if children == [] then []
    else AllDiagnoses(children[..|children| - 1]) + ChildDiagnoses(children[|children| - 1])
  }

  lemma {:induction false} AllDiagnosesAppend(a: seq<ChildRow>, b: seq<ChildRow>)
    ensures AllDiagnoses(a + b) == AllDiagnoses(a) + AllDiagnoses(b)
  {
    if b != [] {
      assert (a + b)[..|a + b| - 1] == a + b[..|b| - 1];
      AllDiagnosesAppend(a, b[..|b| - 1]);
    } else {
      assert a + b == a;
    }
  }

  /** A diagnosis is in the result exactly when one of the children lists it. */
  lemma {:induction false} AllDiagnosesMembers(children: seq<ChildRow>, d: Diagnosis)
    ensures d in AllDiagnoses(children) <==> exists i :: 0 <= i < |children| && d in ChildDiagnoses(children[i])
  {
    if children != [] {
      var init, last := children[..|children| - 1], children[|children| - 1];
      AllDiagnosesMembers(init, d);
      assert AllDiagnoses(children) == AllDiagnoses(init) + ChildDiagnoses(last);
      if d in AllDiagnoses(init) {
        var i :| 0 <= i < |init| && d in ChildDiagnoses(init[i]);
        assert children[i] == init[i];
      }
      if exists i :: 0 <= i < |children| && d in ChildDiagnoses(children[i]) {
        var i :| 0 <= i < |children| && d in ChildDiagnoses(children[i]);
        if i < |init| {
          assert init[i] == children[i];
          assert d in AllDiagnoses(init);
        } else {
          assert d in ChildDiagnoses(last);
        }
      }
    }
  }

  /** The flattening loop. */
  method GetChildDiagnoses(children: seq<ChildRow>) returns (all: seq<Diagnosis>)
    ensures all == AllDiagnoses(children)
  {
    all := [];
    for i := 0 to |children|
      invariant all == AllDiagnoses(children[..i])
    {
      assert children[..i + 1][..i] == children[..i];
      all := all + ChildDiagnoses(children[i]);
    }
    assert children[..|children|] == children;
  }

  // match_similar_resources

  /** A row the `match_resources` function returns. */
  datatype MatchedResource = MatchedResource(resourceId: Field<string>, info: ResourceInfo, similarity: Field<real>)

  /** The `match_resources` RPC: query embedding, threshold, count. */
  type MatchRpc = (Embedding, real, int) -> seq<MatchedResource>

  /** `match_similar_resources`: [] without consulting the database when the
      query cannot be embedded, otherwise what the vector search returns. */
  function MatchSimilarResources(query: string, count: int, threshold: real, o: Oracle, rpc: MatchRpc)
    : (r: seq<MatchedResource>)
    ensures o.embed(query).None? ==> r == []
    ensures o.embed(query).Some? ==> r == rpc(o.embed(query).value, threshold, count)
  {
    var e := o.embed(query);
    if e.None? then [] else rpc(e.value, threshold, count)
  }

  // add_embeddings_to_resources

  /** `str(value)` of a column: None prints as "None". */
  function Show(v: Option<string>): string {
    if v.Some? then v.value else "None"
  }

  /** `str(list)` of a list of strings. */
  function ShowList(xs: seq<string>): string {
    "[" + Join(seq(|xs|, i requires 0 <= i < |xs| => "'" + xs[i] + "'"), ", ") + "]"
  }

  /** `resource[key]`: None for a missing key (a KeyError), Some(None) for a
      null. */
  function Column(f: Field<string>): Option<Option<string>> {
    match f
    case Absent => None
    case Null => Some(None)
    case Present(s) => Some(Some(s))
  }

  /** Every column the text uses is present (it may be null). */
  predicate HasTextColumns(info: ResourceInfo) {
    && info.topics != Absent && info.title != Absent && info.description != Absent && info.category != Absent
    && info.recommendIf != Absent && info.organization != Absent && info.defaultNavigatorNote != Absent
  }

  /** The seven columns in the order the f-string writes them. */
  function TextParts(info: ResourceInfo): (parts: seq<string>)
    requires HasTextColumns(info)
    ensures |parts| == 7
  {
    var topics := if info.topics.Present? then ShowList(info.topics.value) else "None";
    [Show(Column(info.title).value), Show(Column(info.description).value), Show(Column(info.category).value),
     topics, Show(Column(info.recommendIf).value), Show(Column(info.organization).value),
     Show(Column(info.defaultNavigatorNote).value)]
  }

  /** The f-string of the seven columns, space-separated. */
  function ColumnsText(info: ResourceInfo): string
    requires HasTextColumns(info)
  {
    Join(TextParts(info), " ")
  }

  /** The text is the f-string written out: title, description, category,
      topics, recommend-if, organization and the default navigator note,
      each rendered by `str`, separated by single spaces. */
  lemma ColumnsTextOrder(info: ResourceInfo)
    requires HasTextColumns(info)
    ensures ColumnsText(info) ==
      Show(Column(info.title).value) + " " + Show(Column(info.description).value) + " "
      + Show(Column(info.category).value) + " "
      + (if info.topics.Present? then ShowList(info.topics.value) else "None") + " "
      + Show(Column(info.recommendIf).value) + " " + Show(Column(info.organization).value) + " "
      + Show(Column(info.defaultNavigatorNote).value)
  {
    JoinSeven(TextParts(info));
  }

  lemma JoinSeven(p: seq<string>)
    requires |p| == 7
    ensures Join(p, " ") == p[0] + " " + p[1] + " " + p[2] + " " + p[3] + " " + p[4] + " " + p[5] + " " + p[6]
  {
    var j5 := Join(p[5..], " ");
    assert j5 == p[5] + " " + p[6] by {
      assert p[5..][1..] == p[6..];
      assert Join(p[6..], " ") == p[6];
    }
    var j4 := Join(p[4..], " ");
    assert j4 == p[4] + " " + j5 by { assert p[4..][1..] == p[5..]; }
    var j3 := Join(p[3..], " ");
    assert j3 == p[3] + " " + j4 by { assert p[3..][1..] == p[4..]; }
    var j2 := Join(p[2..], " ");
    assert j2 == p[2] + " " + j3 by { assert p[2..][1..] == p[3..]; }
    var j1 := Join(p[1..], " ");
    assert j1 == p[1] + " " + j2 by { assert p[1..][1..] == p[2..]; }
    assert Join(p, " ") == p[0] + " " + j1;
    SpaceSplice(p[0], p[1], j2);
    SpaceSplice(p[0] + " " + p[1], p[2], j3);
    SpaceSplice(p[0] + " " + p[1] + " " + p[2], p[3], j4);
    SpaceSplice(p[0] + " " + p[1] + " " + p[2] + " " + p[3], p[4], j5);
    SpaceSplice(p[0] + " " + p[1] + " " + p[2] + " " + p[3] + " " + p[4], p[5], p[6]);
  }

  lemma SpaceSplice(a: string, b: string, rest: string)
    ensures a + " " + (b + " " + rest) == a + " " + b + " " + rest
  {
  }

  /** The text embedded for a resource; None when a column is missing (a
      KeyError). */
  function EmbeddingText(r: Resource): (t: Option<string>)
    ensures t.None? <==> !HasTextColumns(r.info)
  {
    if HasTextColumns(r.info) then Some(ColumnsText(r.info)) else None
  }

  /** How the backfill gets a resource's text; None stands for the KeyError
      that ends the loop. */
  type TextBuilder = Resource -> Option<string>

  /** One upserted row of `resource_embeddings`. */
  datatype Upsert = Upsert(resourceId: string, embedding: Embedding)

  /** The upsert one resource causes: one exactly when its text embeds
      (`if embedding:`; an embedding is never an empty list). */
  function UpsertFor(r: Resource, text: string, o: Oracle): (u: Option<Upsert>)
    ensures u.Some? <==> o.embed(text).Some?
    ensures u.Some? ==> u.value == Upsert(r.id, o.embed(text).value)
  {
    var e := o.embed(text);
    if e.Some? then Some(Upsert(r.id, e.value)) else None
  }

  /** The upserts for a run of resources, in order, each made from the text
      `text` gives it. */
  function Upserts(rs: seq<Resource>, text: TextBuilder, o: Oracle): seq<Upsert> {
    if rs == [] then []
    else
      var last := rs[|rs| - 1];
      var u := if text(last).Some? then UpsertFor(last, text(last).value, o) else None;
      Upserts(rs[..|rs| - 1], text, o) + (if u.Some? then [u.value] else [])
  }

  /** Only a resource whose text was embedded is upserted, with that
      embedding, and every such resource is. */
  lemma {:induction false} UpsertsExactly(rs: seq<Resource>, text: TextBuilder, o: Oracle, u: Upsert)
    ensures u in Upserts(rs, text, o) <==>
      exists i :: 0 <= i < |rs| && text(rs[i]).Some? && UpsertFor(rs[i], text(rs[i]).value, o) == Some(u)
  {
    if rs != [] {
      var init := rs[..|rs| - 1];
      UpsertsExactly(init, text, o, u);
      if exists i :: 0 <= i < |rs| && text(rs[i]).Some? && UpsertFor(rs[i], text(rs[i]).value, o) == Some(u) {
        var i :| 0 <= i < |rs| && text(rs[i]).Some? && UpsertFor(rs[i], text(rs[i]).value, o) == Some(u);
        if i < |init| {
          assert init[i] == rs[i];
        }
      }
      if u in Upserts(init, text, o) {
        var i :| 0 <= i < |init| && text(init[i]).Some? && UpsertFor(init[i], text(init[i]).value, o) == Some(u);
        assert rs[i] == init[i];
      }
    }
  }

  /** The backfill loop for a given text builder: the upserts it makes, and
      the index of the resource whose text could not be built, which ends
      the loop. */
  method Backfill(resources: seq<Resource>, text: TextBuilder, o: Oracle)
    returns (upserts: seq<Upsert>, stopped: Option<nat>)
    ensures stopped.None? ==> forall i :: 0 <= i < |resources| ==> text(resources[i]).Some?
    ensures stopped.None? ==> upserts == Upserts(resources, text, o)
    ensures stopped.Some? ==> stopped.value < |resources| && text(resources[stopped.value]).None?
    ensures stopped.Some? ==> forall i :: 0 <= i < stopped.value ==> text(resources[i]).Some?
    ensures stopped.Some? ==> stopped.value <= |resources| && upserts == Upserts(resources[..stopped.value], text, o)
  {
    upserts := [];
    for i := 0 to |resources|
      invariant forall k :: 0 <= k < i ==> text(resources[k]).Some?
      invariant upserts == Upserts(resources[..i], text, o)
    {
      var t := text(resources[i]);
      if t.None? {
        return upserts, Some(i);
      }
      assert resources[..i + 1][..i] == resources[..i];
      var u := UpsertFor(resources[i], t.value, o);
      if u.Some? {
        upserts := upserts + [u.value];
      }
    }
    assert resources[..|resources|] == resources;
    stopped := None;
  }

  /** `add_embeddings_to_resources`: the backfill with the f-string text; a
      resource missing one of the seven columns stops it. */
  method AddEmbeddingsToResources(resources: seq<Resource>, o: Oracle)
    returns (upserts: seq<Upsert>, stopped: Option<nat>)
    ensures stopped.None? ==> forall i :: 0 <= i < |resources| ==> HasTextColumns(resources[i].info)
    ensures stopped.None? ==> upserts == Upserts(resources, EmbeddingText, o)
    ensures stopped.Some? ==> stopped.value < |resources| && !HasTextColumns(resources[stopped.value].info)
    ensures stopped.Some? ==> forall i :: 0 <= i < stopped.value ==> HasTextColumns(resources[i].info)
    ensures stopped.Some? ==> stopped.value <= |resources| && upserts == Upserts(resources[..stopped.value], EmbeddingText, o)
  {
    upserts, stopped := Backfill(resources, EmbeddingText, o);
  }
}
