/** The sandbox `calculate_resource_similarity_to_csv` of the per-user
    script: each user's profile texts and children's diagnoses are combined
    into one text, the text is embedded, every resource with a usable stored
    embedding is scored against it by cosine similarity, and the rows are
    sorted by text, then score, highest first. Resources and users whose
    embedding cannot be had are skipped, as are resources whose similarity
    raises. Writing the CSV file is not modelled; the rows are the result. */
module SandboxResourceSimilarityByUser {
  import opened Wrappers
  import opened Text
  import opened Rounding
  import opened TextSimilarity
  import opened SupabaseClient
  import opened ResourceRows

  /** The columns of a user profile the text is built from. */
  datatype UserProfile = UserProfile(
    currentChallenges: Field<string>,
    firstSessionNotes: Field<string>,
    additionalInfo: Field<string>)

  /** `f"{profile.get(key, '')}"`: "" for a missing key, "None" for a null. */
  function ProfileText(f: Field<string>): (t: string)
    ensures f == Absent ==> t == ""
    ensures f == Null ==> t == "None"
  {
    Show(f.Get(""))
  }

  /** The combined text of a user: the three profile texts and the
      space-joined diagnoses, separated by single spaces. */
  function CombinedText(p: UserProfile, diagnoses: seq<string>): string {
    ProfileText(p.currentChallenges) + " " + ProfileText(p.firstSessionNotes) + " "
    + ProfileText(p.additionalInfo) + " " + Join(diagnoses, " ")
  }

  lemma JoinCons(x: string, rest: seq<string>, sep: string)
    requires rest != []
    ensures Join([x] + rest, sep) == x + sep + Join(rest, sep)
  {
    assert ([x] + rest)[1..] == rest;
  }

  /** The diagnoses are separated like the profile texts: with diagnoses,
      the combined text is the space-join of the three texts followed by the
      diagnoses. */
  lemma CombinedTextIsJoin(p: UserProfile, diagnoses: seq<string>)
    requires diagnoses != []
    ensures CombinedText(p, diagnoses) ==
      Join([ProfileText(p.currentChallenges), ProfileText(p.firstSessionNotes), ProfileText(p.additionalInfo)] + diagnoses, " ")
  {
    var a, b, c := ProfileText(p.currentChallenges), ProfileText(p.firstSessionNotes), ProfileText(p.additionalInfo);
    JoinCons(c, diagnoses, " ");
    assert [b] + ([c] + diagnoses) == [b, c] + diagnoses;
    JoinCons(b, [c] + diagnoses, " ");
    assert [a] + ([b, c] + diagnoses) == [a, b, c] + diagnoses;
    JoinCons(a, [b, c] + diagnoses, " ");
  }

  /** A user with an empty profile and no diagnoses still gets a text, three
      spaces, and it is embedded like any other. */
  lemma EmptyProfileText()
    ensures CombinedText(UserProfile(Absent, Absent, Absent), []) == "   "
  {
  }

  /** One entry of `users_data`. */
  datatype UserText = UserText(userId: string, text: string)

  /** The diagnoses `' '.join` accepts: all of them when every entry is a
      string, None (a TypeError) when one is not. */
  function DiagnosisStrings(ds: seq<Diagnosis>): (r: Option<seq<string>>)
    ensures r.None? <==> exists i :: 0 <= i < |ds| && ds[i].None?
    ensures r.Some? ==> |r.value| == |ds| && forall i :: 0 <= i < |ds| ==> ds[i] == Some(r.value[i])
  {
    if forall i :: 0 <= i < |ds| ==> ds[i].Some? then
      Some(seq(|ds|, i requires 0 <= i < |ds| => ds[i].value))
    else None
  }

  /** The text of a user, or None when `' '.join` raises on a diagnosis. */
  function UserTextOf(profiles: string -> UserProfile, children: string -> seq<ChildRow>): string -> Option<string> {
    id => var ds := DiagnosisStrings(AllDiagnoses(children(id)));
          if ds.None? then None else Some(CombinedText(profiles(id), ds.value))
  }

  /** The script's text fails exactly on a user with a diagnosis that is not
      a string, and otherwise combines the profile and all the diagnoses. */
  lemma UserTextOfJoinable(profiles: string -> UserProfile, children: string -> seq<ChildRow>, id: string)
    ensures UserTextOf(profiles, children)(id).None? <==>
      exists i :: 0 <= i < |AllDiagnoses(children(id))| && AllDiagnoses(children(id))[i].None?
    ensures UserTextOf(profiles, children)(id).Some? ==>
      UserTextOf(profiles, children)(id).value == CombinedText(profiles(id), DiagnosisStrings(AllDiagnoses(children(id))).value)
  {
    var ds := DiagnosisStrings(AllDiagnoses(children(id)));
    assert UserTextOf(profiles, children)(id).None? <==> ds.None?;
  }

  /** `users_data`: one entry per user id, in order, with the user's text.
      The loop stops, with the index of the user, at the first user whose
      text raises. */
  function UsersData(userIds: seq<string>, textOf: string -> Option<string>): (r: Result<seq<UserText>, nat>)
    ensures r.Ok? <==> forall i :: 0 <= i < |userIds| ==> textOf(userIds[i]).Some?
    ensures r.Ok? ==> |r.value| == |userIds| && forall i :: 0 <= i < |userIds| ==>
      textOf(userIds[i]).Some? && r.value[i] == UserText(userIds[i], textOf(userIds[i]).value)
    ensures r.Err? ==> r.error < |userIds| && textOf(userIds[r.error]).None?
    ensures r.Err? ==> forall i :: 0 <= i < r.error ==> textOf(userIds[i]).Some?
  {
    if userIds == [] then Ok([])
    else
      var id := userIds[|userIds| - 1];
      match UsersData(userIds[..|userIds| - 1], textOf)
      case Err(e) => Err(e)
      case Ok(users) =>
        var t := textOf(id);
        if t.None? then Err(|userIds| - 1) else Ok(users + [UserText(id, t.value)])
  }

  /** A failure on a prefix of the users is the failure of the whole loop. */
  lemma {:induction false} UsersDataFailureSticks(userIds: seq<string>, textOf: string -> Option<string>, n: nat)
    requires n <= |userIds| && UsersData(userIds[..n], textOf).Err?
    ensures UsersData(userIds, textOf) == UsersData(userIds[..n], textOf)
  {
    if n < |userIds| {
      var init := userIds[..|userIds| - 1];
      assert init[..n] == userIds[..n];
      UsersDataFailureSticks(init, textOf, n);
    } else {
      assert userIds[..n] == userIds;
    }
  }

  /** The first loop of the script. */
  method BuildUsersData(userIds: seq<string>, profiles: string -> UserProfile, children: string -> seq<ChildRow>)
    returns (r: Result<seq<UserText>, nat>)
    ensures r == UsersData(userIds, UserTextOf(profiles, children))
  {
    var textOf := UserTextOf(profiles, children);
    var users: seq<UserText> := [];
    for i := 0 to |userIds|
      invariant UsersData(userIds[..i], textOf) == Ok(users)
    {
      assert userIds[..i + 1][..i] == userIds[..i];
      var profile := profiles(userIds[i]);
      var diagnoses := GetChildDiagnoses(children(userIds[i]));
      var strings := DiagnosisStrings(diagnoses);
      if strings.None? {
        assert textOf(userIds[i]).None?;
        UsersDataFailureSticks(userIds, textOf, i + 1);
        return Err(i);
      }
      var text := CombinedText(profile, strings.value);
      assert textOf(userIds[i]) == Some(text);
      users := users + [UserText(userIds[i], text)];
    }
    assert userIds[..|userIds|] == userIds;
    r := Ok(users);
  }

  /** The two parsers tried on an embedding stored as text, `json.loads`
      then `eval`; None when the parser raises. */
  datatype Parsers = Parsers(json: string -> Option<seq<real>>, eval: string -> Option<seq<real>>)

  /** The embedding the script reads for a resource: none when nothing is
      stored, a stored vector as it is, a stored text parsed as JSON or,
      failing that, evaluated; None also when both parses fail. */
  function ResourceEmbedding(r: Resource, parsers: Parsers): (e: Option<seq<real>>)
    ensures !r.embedding.Present? ==> e.None?
    ensures r.embedding.Present? && r.embedding.value.Vector? ==> e == Some(r.embedding.value.values)
    ensures r.embedding.Present? && r.embedding.value.VectorText? ==>
      var t := r.embedding.value.text;
      (t == [] ==> e.None?) && (t != [] ==> e == (if parsers.json(t).Some? then parsers.json(t) else parsers.eval(t)))
  {
    match r.embedding
    case Present(Vector(v)) => Some(v)
    case Present(VectorText(t)) =>
      if t == [] then None
      else if parsers.json(t).Some? then parsers.json(t)
      else parsers.eval(t)
    case _ => None
  }

  /** `embedding_data[0].get("embedding")` as the script writes it, on the
      value the join stores under "embedding": a missing, null or empty
      value skips the branch (Some(None)); a non-empty one, a list of
      floats or a string, holds a float or a one-character string at index
      0, and neither has a `.get`. None stands for the AttributeError,
      which is raised outside the `try` and stops the script. */
  function FirstElementLookup(r: Resource): (e: Option<Option<seq<real>>>)
    ensures e.Some? ==> e.value.None?
  {
    match r.embedding
    case Present(Vector(v)) => if v == [] then Some(None) else None
    case Present(VectorText(t)) => if t == [] then Some(None) else None
    case _ => Some(None)
  }

  /** The score of a resource against a user's embedding; None when the
      resource is skipped: no usable or an empty embedding, or a cosine that
      raises. */
  function UserScore(input: Embedding, parsers: Parsers, norm: seq<real> -> real): Resource -> Option<real> {
    r => var e := ResourceEmbedding(r, parsers);
         if e.None? || e.value == [] then None else CosineSimilarity(input, e.value, norm)
  }

  /** A skipped resource: no stored embedding, an empty one, a text both
      parsers reject, or a cosine that raises. Every other resource gets a
      score; in particular a stored vector, or a stored text that parses to
      a vector, of the embedding's dimension always does. */
  lemma UserScoreSkips(input: Embedding, parsers: Parsers, norm: seq<real> -> real, r: Resource)
    ensures UserScore(input, parsers, norm)(r).None? <==>
      || ResourceEmbedding(r, parsers).None?
      || ResourceEmbedding(r, parsers).value == []
      || CosineSimilarity(input, ResourceEmbedding(r, parsers).value, norm).None?
    ensures UserScore(input, parsers, norm)(r).Some? ==>
      UserScore(input, parsers, norm)(r) == CosineSimilarity(input, ResourceEmbedding(r, parsers).value, norm)
    ensures r.embedding.Present? && r.embedding.value.Vector? && |r.embedding.value.values| == Dim ==>
      UserScore(input, parsers, norm)(r).Some?
    ensures r.embedding.Present? && r.embedding.value.VectorText? ==>
      var t := r.embedding.value.text;
      var parsed := if parsers.json(t).Some? then parsers.json(t) else parsers.eval(t);
      t != [] && parsed.Some? && |parsed.value| == Dim ==> UserScore(input, parsers, norm)(r).Some?
  {
  }

  /** As written, no resource gets a row: every resource the model scores
      makes the lookup raise, and every other one is skipped. */
  lemma FirstElementLookupRaises(input: Embedding, parsers: Parsers, norm: seq<real> -> real, r: Resource)
    ensures UserScore(input, parsers, norm)(r).Some? ==> FirstElementLookup(r).None?
  {
  }

  /** How a scored resource becomes a row of a user's text. */
  type RowOf = (string, Resource, real) -> SimilarityRow

  /** The script's row: the resource's id and columns, the score rounded to
      4 places. */
  const UserRow: RowOf := (text, r: Resource, score) => ResourceRow(text, Some(r.id), r.info, score)

  /** The rows of one user's text, in resource order. */
  function UserRows(text: string, rs: seq<Resource>, score: Resource -> Option<real>, row: RowOf): (rows: seq<SimilarityRow>)
    ensures |rows| <= |rs|
  {
    if rs == [] then []
    else
      var last := rs[|rs| - 1];
      UserRows(text, rs[..|rs| - 1], score, row) + (if score(last).Some? then [row(text, last, score(last).value)] else [])
  }

  /** The positions of the resources that get a score, in increasing order. */
  function Kept(rs: seq<Resource>, score: Resource -> Option<real>): (ks: seq<nat>)
    ensures forall k :: 0 <= k < |ks| ==> ks[k] < |rs|
    ensures forall k, l :: 0 <= k < l < |ks| ==> ks[k] < ks[l]
    ensures forall i :: 0 <= i < |rs| ==> (i in ks <==> score(rs[i]).Some?)
  {
    if rs == [] then []
    else
      var init := rs[..|rs| - 1];
      var ks := Kept(init, score);
      assert forall i :: 0 <= i < |init| ==> init[i] == rs[i];
      ks + (if score(rs[|rs| - 1]).Some? then [|rs| - 1] else [])
  }

  /** A user's rows are one per kept resource, in resource order, each built
      from the resource and its score: at most one row per (user, resource)
      pair. */
  lemma {:induction false} UserRowsKept(text: string, rs: seq<Resource>, score: Resource -> Option<real>, row: RowOf)
    ensures |UserRows(text, rs, score, row)| == |Kept(rs, score)|
    ensures forall k :: 0 <= k < |Kept(rs, score)| ==> (
      score(rs[Kept(rs, score)[k]]).Some?
      && UserRows(text, rs, score, row)[k] == row(text, rs[Kept(rs, score)[k]], score(rs[Kept(rs, score)[k]]).value))
  {
    if rs != [] {
      var init, last := rs[..|rs| - 1], rs[|rs| - 1];
      UserRowsKept(text, init, score, row);
      var ks0, rows0 := Kept(init, score), UserRows(text, init, score, row);
      var ks, rows := Kept(rs, score), UserRows(text, rs, score, row);
      forall k | 0 <= k < |ks|
        ensures score(rs[ks[k]]).Some? && rows[k] == row(text, rs[ks[k]], score(rs[ks[k]]).value)
      {
        if k < |ks0| {
          assert ks[k] == ks0[k] && rows[k] == rows0[k];
          assert rs[ks0[k]] == init[ks0[k]];
        } else {
          assert ks[k] == |rs| - 1 && rs[ks[k]] == last;
        }
      }
    }
  }

  /** The script's rows carry the user's text, the resource's id and the
      score rounded to 4 places. */
  lemma UserRowCells(text: string, r: Resource, score: real)
    ensures UserRow(text, r, score).testCase == text
    ensures UserRow(text, r, score).resourceId == Some(r.id)
    ensures UserRow(text, r, score).similarityScore == Round(score, 4)
  {
  }

  /** The rows of one user: none when the text cannot be embedded. */
  function RowsOf(resources: seq<Resource>, o: Oracle, parsers: Parsers): string -> seq<SimilarityRow> {
    text => var e := o.embed(text);
            if e.None? then [] else UserRows(text, resources, UserScore(e.value, parsers, o.norm), UserRow)
  }

  lemma NoEmbeddingNoRows(resources: seq<Resource>, o: Oracle, parsers: Parsers, text: string)
    requires o.embed(text).None?
    ensures RowsOf(resources, o, parsers)(text) == []
  {
  }

  /** The rows of all users, in user order, before the sort. */
  function AllUserRows(users: seq<UserText>, rowsOf: string -> seq<SimilarityRow>): seq<SimilarityRow> {
    if users == [] then []
    else AllUserRows(users[..|users| - 1], rowsOf) + rowsOf(users[|users| - 1].text)
  }

  /** Every row comes from one of the users' rows. */
  lemma {:induction false} AllUserRowsFrom(users: seq<UserText>, rowsOf: string -> seq<SimilarityRow>, row: SimilarityRow)
    requires row in AllUserRows(users, rowsOf)
    ensures exists u :: 0 <= u < |users| && row in rowsOf(users[u].text)
  {
    var init, last := users[..|users| - 1], users[|users| - 1];
    if row in AllUserRows(init, rowsOf) {
      AllUserRowsFrom(init, rowsOf, row);
      var u :| 0 <= u < |init| && row in rowsOf(init[u].text);
      assert users[u] == init[u];
    } else {
      assert row in rowsOf(last.text);
    }
  }

  /** Every row of every user is written. */
  lemma {:induction false} AllUserRowsComplete(users: seq<UserText>, rowsOf: string -> seq<SimilarityRow>, u: nat)
    requires u < |users|
    ensures forall row :: row in rowsOf(users[u].text) ==> row in AllUserRows(users, rowsOf)
  {
    var init := users[..|users| - 1];
    if u < |init| {
      assert init[u] == users[u];
      AllUserRowsComplete(init, rowsOf, u);
    }
  }

  /** The loop over the resources for one user with an embedding: a
      resource without a usable embedding, or whose cosine raises, is
      skipped; every other one gets its row. */
  method UserResourceRows(text: string, input: Embedding, resources: seq<Resource>, parsers: Parsers, norm: seq<real> -> real)
    returns (rows: seq<SimilarityRow>)
    ensures rows == UserRows(text, resources, UserScore(input, parsers, norm), UserRow)
  {
    rows := [];
    for j := 0 to |resources|
      invariant rows == UserRows(text, resources[..j], UserScore(input, parsers, norm), UserRow)
    {
      assert resources[..j + 1][..j] == resources[..j];
      var resource := resources[j];
      var embedding := ResourceEmbedding(resource, parsers);
      if embedding.Some? && embedding.value != [] {
        var s := CosineSimilarity(input, embedding.value, norm);
        if s.Some? {
          rows := rows + [ResourceRow(text, Some(resource.id), resource.info, s.value)];
        }
      }
    }
    assert resources[..|resources|] == resources;
  }

  /** The loop over the users: for each user the embedding, a skip when it
      fails, and the loop over the resources. */
  method UsersRows(users: seq<UserText>, resources: seq<Resource>, o: Oracle, parsers: Parsers)
    returns (allRows: seq<SimilarityRow>)
    ensures allRows == AllUserRows(users, RowsOf(resources, o, parsers))
  {
    allRows := [];
    for i := 0 to |users|
      invariant allRows == AllUserRows(users[..i], RowsOf(resources, o, parsers))
    {
      assert users[..i + 1][..i] == users[..i];
      var text := users[i].text;
      var input := o.embed(text);
      if input.None? {
        continue;
      }
      var userRows := UserResourceRows(text, input.value, resources, parsers, o.norm);
      allRows := allRows + userRows;
    }
    assert users[..|users|] == users;
  }

  /** The script: the users' texts, the rows of every user, and the final
      sort; or the index of the first user whose diagnoses cannot be
      joined. */
  method CalculateResourceSimilarityToCsv(
    userIds: seq<string>, profiles: string -> UserProfile, children: string -> seq<ChildRow>,
    resources: seq<Resource>, o: Oracle, parsers: Parsers)
    returns (r: Result<seq<SimilarityRow>, nat>)
    ensures UsersData(userIds, UserTextOf(profiles, children)).Err? ==> r == Err(UsersData(userIds, UserTextOf(profiles, children)).error)
    ensures UsersData(userIds, UserTextOf(profiles, children)).Ok? ==>
      r == Ok(SortRows(AllUserRows(UsersData(userIds, UserTextOf(profiles, children)).value, RowsOf(resources, o, parsers))))
  {
    var data := BuildUsersData(userIds, profiles, children);
    if data.Err? {
      return Err(data.error);
    }
    var allRows := UsersRows(data.value, resources, o, parsers);
    r := Ok(SortRows(allRows));
  }
}
