/** `search_songs` of `backend/search_engine.py`: pick the field boosts,
    match rule and score cutoff for a query, build the search request body
    from them, and turn the backend's hits into result records, falling
    back to no result on any failure. */
module SearchEngine {
  import opened Wrappers
  import opened JsonValue
  import opened Text
  import Classifier

  /** The size cap of every request. */
  const MaxResults: nat := 20

  /** A float of the source with one decimal place, as a count of tenths:
      `1.5` is 15, `0.5` is 5. */
  type Tenths = nat

  datatype Boosts = Boosts(title: Tenths, artist: Tenths, lyrics: Tenths)

  /** The three settings the query type decides. */
  datatype Settings = Settings(boosts: Boosts, minMatch: string, scoreCutoff: Tenths)

  /** A lyric query in the classifier's own characterisation. */
  predicate LyricTokens(query: string) {
    var tokens := Classifier.Tokens(query);
    |tokens| >= Classifier.MinLyricTokens || Classifier.HasStopword(tokens)
  }

  /** Step 1 of `search_songs`: artist search first, then lyric queries,
      then title/artist queries. */
  function SelectSettings(query: string, isArtistSearch: bool): (s: Settings)
    ensures isArtistSearch ==> s == Settings(Boosts(15, 30, 15), "2<-1", 10)
    ensures !isArtistSearch && LyricTokens(query) ==> s == Settings(Boosts(15, 15, 30), "65%", 5)
    ensures !isArtistSearch && !LyricTokens(query) ==> s == Settings(Boosts(30, 20, 10), "2<-1", 10)
  {
    if isArtistSearch then
      Settings(Boosts(15, 30, 15), "2<-1", 10)
    else if Classifier.IsLyricQuery(query) then
      Settings(Boosts(15, 15, 30), "65%", 5)
    else
      Settings(Boosts(30, 20, 10), "2<-1", 10)
  }

  /** Each mode weighs highest the field it is about, and only lyric mode
      lowers the cutoff below 1.0 and asks for a share of the terms. */
  lemma ModeWeighting(query: string, isArtistSearch: bool)
    ensures var b := SelectSettings(query, isArtistSearch).boosts;
      isArtistSearch ==> b.artist > b.title && b.artist > b.lyrics
    ensures var b := SelectSettings(query, isArtistSearch).boosts;
      !isArtistSearch && LyricTokens(query) ==> b.lyrics > b.title && b.lyrics > b.artist
    ensures var b := SelectSettings(query, isArtistSearch).boosts;
      !isArtistSearch && !LyricTokens(query) ==> b.title > b.artist && b.title > b.lyrics
    ensures var s := SelectSettings(query, isArtistSearch);
      s.scoreCutoff < 10 <==> s.minMatch == "65%"
    ensures var s := SelectSettings(query, isArtistSearch);
      s.scoreCutoff < 10 <==> !isArtistSearch && Classifier.IsLyricQuery(query)
  {
  }

  /** The artist override does not look at the query at all. */
  lemma ArtistOverrideIgnoresQuery(q1: string, q2: string)
    ensures SelectSettings(q1, true) == SelectSettings(q2, true)
  {
  }

  // ----- the request body -----

  datatype MultiMatch = MultiMatch(
    query: string,
    fields: seq<string>,
    matchType: string,
    fuzziness: string,
    minimumShouldMatch: string)

  datatype FunctionScore = FunctionScore(
    query: MultiMatch,
    script: string,
    boostMode: string,
    scoreMode: string)

  /** The dict sent as the search body. */
  datatype SearchBody = SearchBody(size: nat, minScore: Tenths, query: FunctionScore)

  /** The popularity multiplier, as the script text the backend evaluates. */
  const PopularityScript := "Math.log10(doc['views'].value + 1) + 1"

  /** `f"{name}^{boost}"`. */
  function FieldSpec(name: string, boost: Tenths): string {
    name + "^" + TenthsToString(boost)
  }

  /** The last position of `c` in `s`, if any. */
  function LastIndexOf(s: string, c: char): (r: Option<nat>)
    ensures r.Some? ==> r.value < |s| && s[r.value] == c && c !in s[r.value + 1..]
    ensures r.None? ==> c !in s
  {
    if s == [] then None
    else if s[|s| - 1] == c then Some(|s| - 1)
    else
      var r := LastIndexOf(s[..|s| - 1], c);
      assert s == s[..|s| - 1] + [s[|s| - 1]];
      if r.Some? then
        assert s[r.value + 1..] == s[..|s| - 1][r.value + 1..] + [s[|s| - 1]];
        r
      else r
  }

  /** The model's own reader of a field entry: the text before the last
      `^` is the field name, the text after it the boost. None of the six
      field names holds a `^`, so the last `^` is also the first. */
  function ParseFieldSpec(spec: string): Option<(string, Tenths)> {
    match LastIndexOf(spec, '^')
    case None => None
    case Some(i) =>
      match ParseTenths(spec[i + 1..])
      case None => None
      case Some(b) => Some((spec[..i], b))
  }

  /** Every field entry reads back as the field and boost it was written
      from. */
  lemma FieldSpecRoundTrip(name: string, boost: Tenths)
    ensures ParseFieldSpec(FieldSpec(name, boost)) == Some((name, boost))
  {
    var spec := FieldSpec(name, boost);
    var t := TenthsToString(boost);
    assert spec[|name|] == '^';
    assert spec[|name| + 1..] == t;
    forall j | |name| < j < |spec| ensures spec[j] != '^' {
      assert spec[j] == t[j - |name| - 1];
    }
    var i := LastIndexOf(spec, '^');
    assert i.Some? && i.value >= |name| by {
      assert '^' in spec[i.value + 1..] || i.value >= |name|;
    }
    assert i == Some(|name|);
    assert spec[..|name|] == name;
    TenthsRoundTrip(boost);
  }

  /** The three text fields, in the order the field list names them. */
  const BaseFields: seq<string> := ["title", "artist", "lyrics"]

  function BoostOf(b: Boosts, k: nat): Tenths
    requires k < 3
  {
    if k == 0 then b.title else if k == 1 then b.artist else b.lyrics
  }

  /** The six boosted fields: the base fields, then their `.th` sub-fields. */
  function BoostedFields(b: Boosts): (fields: seq<string>)
    ensures |fields| == 6
    ensures forall k :: 0 <= k < 3 ==> fields[k] == FieldSpec(BaseFields[k], BoostOf(b, k))
    ensures forall k :: 0 <= k < 3 ==> fields[k + 3] == FieldSpec(BaseFields[k] + ".th", BoostOf(b, k))
  {
    [ FieldSpec("title", b.title),
      FieldSpec("artist", b.artist),
      FieldSpec("lyrics", b.lyrics),
      FieldSpec("title.th", b.title),
      FieldSpec("artist.th", b.artist),
      FieldSpec("lyrics.th", b.lyrics) ]
  }

  /** Read back by the model's reader, the field list gives each base field
      its mode's boost, and each `.th` sub-field the same boost as its base
      field. */
  lemma BoostedFieldsReadBack(b: Boosts, k: nat)
    requires k < 3
    ensures ParseFieldSpec(BoostedFields(b)[k]) == Some((BaseFields[k], BoostOf(b, k)))
    ensures ParseFieldSpec(BoostedFields(b)[k + 3]) == Some((BaseFields[k] + ".th", BoostOf(b, k)))
  {
    FieldSpecRoundTrip(BaseFields[k], BoostOf(b, k));
    FieldSpecRoundTrip(BaseFields[k] + ".th", BoostOf(b, k));
  }

  /** Step 2 of `search_songs`: the request body. */
  function BuildBody(query: string, s: Settings): (body: SearchBody)
    ensures body.size == MaxResults && body.minScore == s.scoreCutoff
    ensures body.query.query.query == query
    ensures body.query.query.minimumShouldMatch == s.minMatch
    ensures body.query.query.fields == BoostedFields(s.boosts)
    ensures body.query.boostMode == "multiply"
  {
    SearchBody(
      MaxResults,
      s.scoreCutoff,
      FunctionScore(
        MultiMatch(query, BoostedFields(s.boosts), "most_fields", "AUTO", s.minMatch),
        PopularityScript,
        "multiply",
        "max"))
  }

  // ----- the backend's answer -----

  /** What the backend call does: raise, or return a decoded response. */
  datatype Reply = Raised | Replied(response: Value)

  /** `result["hits"]["hits"]`, when that is a list. Any other shape makes
      the loop raise (a missing key, indexing a non-dict) or yields no hit
      (an empty string or dict), so it ends in no result either way. */
  function HitList(response: Value): Option<seq<Value>> {
    if response.Object? && "hits" in response.fields then
      var outer := response.fields["hits"];
      if outer.Object? && "hits" in outer.fields && outer.fields["hits"].List? then
        Some(outer.fields["hits"].items)
      else None
    else None
  }

  /** A hit the loop body goes through without raising: a dict with a
      dict `_source`, an `_id` and a `_score`. */
  predicate WellFormedHit(hit: Value) {
    && hit.Object?
    && "_source" in hit.fields && hit.fields["_source"].Object?
    && "_id" in hit.fields
    && "_score" in hit.fields
  }

  /** The record a hit becomes: its source with `id` and `score` set. */
  function HitResult(hit: Value): (r: Doc)
    requires WellFormedHit(hit)
    ensures var source := hit.fields["_source"].fields;
      r.Keys == source.Keys + {"id", "score"}
    ensures r["id"] == hit.fields["_id"] && r["score"] == hit.fields["_score"]
    ensures var source := hit.fields["_source"].fields;
      forall k :: k in source && k != "id" && k != "score" ==> r[k] == source[k]
  {
    hit.fields["_source"].fields["id" := hit.fields["_id"]]["score" := hit.fields["_score"]]
  }

  /** The backend answered, with a hit list whose every hit is well formed. */
  predicate Assemblable(reply: Reply) {
    && reply.Replied?
    && HitList(reply.response).Some?
    && forall j :: 0 <= j < |HitList(reply.response).value| ==> WellFormedHit(HitList(reply.response).value[j])
  }

  /** Step 3 of `search_songs`: one record per hit, in the backend's order;
      any failure gives no result. */
  method AssembleResults(reply: Reply) returns (results: seq<Doc>)
    ensures !Assemblable(reply) ==> results == []
    ensures Assemblable(reply) ==>
      var hits := HitList(reply.response).value;
      |results| == |hits| && forall j :: 0 <= j < |hits| ==> results[j] == HitResult(hits[j])
  {
    results := [];
    if reply.Raised? {
      return;
    }
    var hitList := HitList(reply.response);
    if hitList.None? {
      return;
    }
    var hits := hitList.value;
    var assembled: seq<Doc> := [];
    var i := 0;
    while i < |hits|
      invariant 0 <= i <= |hits|
      invariant forall j :: 0 <= j < i ==> WellFormedHit(hits[j])
      invariant |assembled| == i
      invariant forall j :: 0 <= j < i ==> assembled[j] == HitResult(hits[j])
    {
      var hit := hits[i];
      if !WellFormedHit(hit) {
        // the KeyError or TypeError is caught and `[]` returned
        return;
      }
      var source := hit.fields["_source"].fields;
      source := source["id" := hit.fields["_id"]];
      source := source["score" := hit.fields["_score"]];
      assembled := assembled + [source];
      i := i + 1;
    }
    results := assembled;
  }

  /** `search_songs(query, is_artist_search)` against a backend that maps a
      request body to its reply. */
  method SearchSongs(query: string, isArtistSearch: bool, backend: SearchBody -> Reply)
    returns (results: seq<Doc>)
    ensures var reply := backend(BuildBody(query, SelectSettings(query, isArtistSearch)));
      !Assemblable(reply) ==> results == []
    ensures var reply := backend(BuildBody(query, SelectSettings(query, isArtistSearch)));
      Assemblable(reply) ==>
        var hits := HitList(reply.response).value;
        |results| == |hits| && forall j :: 0 <= j < |hits| ==> results[j] == HitResult(hits[j])
  {
    var settings := SelectSettings(query, isArtistSearch);
    var body := BuildBody(query, settings);
    var reply := backend(body);
    results := AssembleResults(reply);
  }
}
