/** The result contract of product and supplier matching, the untrusted JSON it is
    read from, and the backend's check of it. */
module MatchResults {
  import opened Wrappers
  import opened Text

  datatype Status = Resolved | Unresolved | NoMatch

  datatype Match = Match(id: int, name: string, confidence: real, reason: string)

  /** Nobody checks the description. */
  datatype Recommendation = Recommendation(normalizedName: string, category: Option<string>, description: Json)

  datatype MatchResult = MatchResult(
    status: Status, candidates: seq<Match>, recommendation: Option<Recommendation>)

  /** A product or supplier row; a supplier has no category. */
  datatype Candidate = Candidate(id: int, name: string, category: Option<string>)

  // ---- the contract -------------------------------------------------------

  predicate DistinctIds(candidates: seq<Candidate>) {
    forall i, j :: 0 <= i < j < |candidates| ==> candidates[i].id != candidates[j].id
  }

  function RealCategories(candidates: seq<Candidate>): set<string> {
    set c | c in candidates && c.category.Some? && c.category.value != "" :: c.category.value
  }

  /** A suggestion names a real row by its own id and name, with a confidence and a reason. */
  predicate MatchOk(m: Match, candidates: seq<Candidate>) {
    && (exists c <- candidates :: c.id == m.id && c.name == m.name)
    && 0.0 <= m.confidence <= 1.0
    && !Blank(m.reason)
  }

  predicate DistinctMatches(ms: seq<Match>) {
    forall i, j :: 0 <= i < j < |ms| ==> ms[i].id != ms[j].id
  }

  predicate StatusFits(status: Status, n: nat) {
    match status
    case Resolved => n == 1
    case Unresolved => n > 0
    case NoMatch => n == 0
  }

  predicate RecommendationOk(r: MatchResult, candidates: seq<Candidate>, isProduct: bool) {
    && (isProduct && r.status == NoMatch ==> r.recommendation.Some?)
    && (r.recommendation.Some? ==>
          && isProduct && r.status == NoMatch
          && !Blank(r.recommendation.value.normalizedName)
          && (r.recommendation.value.category.Some? ==>
                r.recommendation.value.category.value in RealCategories(candidates)))
  }

  predicate Contract(r: MatchResult, candidates: seq<Candidate>, isProduct: bool) {
    && |r.candidates| <= 3
    && (forall m <- r.candidates :: MatchOk(m, candidates))
    && DistinctMatches(r.candidates)
    && StatusFits(r.status, |r.candidates|)
    && RecommendationOk(r, candidates, isProduct)
  }

  // ---- JavaScript values --------------------------------------------------

  datatype Json =
    | Undefined | Null | Bool(b: bool) | NotANumber | Num(n: real) | Str(s: string)
    | Arr(items: seq<Json>) | Obj(fields: map<string, Json>)

  predicate Truthy(j: Json) {
    match j
    case Undefined => false
    case Null => false
    case Bool(b) => b
    case NotANumber => false
    case Num(n) => n != 0.0
    case Str(s) => s != ""
    case Arr(_) => true
    case Obj(_) => true
  }

  /** Reading a property of these throws. */
  predicate Nullish(j: Json) {
    j.Undefined? || j.Null?
  }

  function Field(j: Json, name: string): Json
    requires !Nullish(j)
  {
    if j.Obj? && name in j.fields then j.fields[name] else Undefined
  }

  // ---- what a JSON value means --------------------------------------------

  function StatusText(status: Status): string {
    match status
    case Resolved => "RESOLVED"
    case Unresolved => "UNRESOLVED"
    case NoMatch => "NO_MATCH"
  }

  function TypedStatus(j: Json): Option<Status> {
    if j == Str("RESOLVED") then Some(Resolved)
    else if j == Str("UNRESOLVED") then Some(Unresolved)
    else if j == Str("NO_MATCH") then Some(NoMatch)
    else None
  }

  function TypedMatch(j: Json): Option<Match> {
    if Nullish(j) then None
    else
      var id, name := Field(j, "id"), Field(j, "name");
      var confidence, reason := Field(j, "confidence"), Field(j, "reason");
      if id.Num? && id.n == id.n.Floor as real && name.Str? && confidence.Num? && reason.Str?
      then Some(Match(id.n.Floor, name.s, confidence.n, reason.s)) else None
  }

  function TypedMatches(js: seq<Json>): (r: Option<seq<Match>>)
    ensures r.Some? <==> forall i :: 0 <= i < |js| ==> TypedMatch(js[i]).Some?
    ensures r.Some? ==> |r.value| == |js| && forall i :: 0 <= i < |js| ==> TypedMatch(js[i]) == Some(r.value[i])
  {
    if forall j <- js :: TypedMatch(j).Some?
    then Some(seq(|js|, i requires 0 <= i < |js| => TypedMatch(js[i]).value)) else None
  }

  /** Anything falsy is no recommendation at all. */
  function TypedRecommendation(j: Json): Option<Option<Recommendation>> {
    if !Truthy(j) then Some(None)
    else
      var name, category, description := Field(j, "normalizedName"), Field(j, "category"), Field(j, "description");
      if !name.Str? then None
      else match category
           case Null => Some(Some(Recommendation(name.s, None, description)))
           case Str(s) => Some(Some(Recommendation(name.s, Some(s), description)))
           case _ => None
  }

  /** The result a JSON value stands for, if it has the documented shape. */
  function Typed(j: Json): Option<MatchResult> {
    if !Truthy(j) || !Field(j, "candidates").Arr? then None
    else
      var status := TypedStatus(Field(j, "status"));
      var matches := TypedMatches(Field(j, "candidates").items);
      var recommendation := TypedRecommendation(Field(j, "recommendation"));
      if status.Some? && matches.Some? && recommendation.Some?
      then Some(MatchResult(status.value, matches.value, recommendation.value)) else None
  }

  // ---- validateDocumentMatchResult() --------------------------------------

  /** Throwing is `false`: the backend accepts a JSON value exactly when it has the
      documented shape and meets the contract. */
  method Validate(result: Json, candidates: seq<Candidate>, isProduct: bool) returns (ok: bool)
    requires DistinctIds(candidates)
    ensures ok <==> Typed(result).Some? && Contract(Typed(result).value, candidates, isProduct)
  {
    if !Truthy(result) { return false; }
    var list, status := Field(result, "candidates"), Field(result, "status");
    if !list.Arr? || !Truthy(status) { return false; }
    if status !in {Str("RESOLVED"), Str("UNRESOLVED"), Str("NO_MATCH")} { return false; }
    if |list.items| > 3 { return false; }
    ok := ValidateMatches(list.items, candidates);
    if !ok { return; }
    if status == Str("RESOLVED") && |list.items| != 1 { return false; }
    if status == Str("UNRESOLVED") && |list.items| == 0 { return false; }
    if status == Str("NO_MATCH") && |list.items| > 0 { return false; }
    ok := ValidateRecommendation(Field(result, "recommendation"), status, candidates, isProduct);
  }

  /** The loop over the suggestions. */
  method ValidateMatches(items: seq<Json>, candidates: seq<Candidate>) returns (ok: bool)
    requires DistinctIds(candidates)
    ensures ok <==>
      var ms := TypedMatches(items);
      ms.Some? && DistinctMatches(ms.value) && forall m <- ms.value :: MatchOk(m, candidates)
  {
    var seenIds: set<int> := {};
    for n := 0 to |items|
      invariant forall i :: 0 <= i < n ==> TypedMatch(items[i]).Some? && MatchOk(TypedMatch(items[i]).value, candidates)
      invariant seenIds == set i | 0 <= i < n :: TypedMatch(items[i]).value.id
      invariant forall i, j :: 0 <= i < j < n ==> TypedMatch(items[i]).value.id != TypedMatch(items[j]).value.id
    {
      var id := ValidateMatch(items[n], candidates);
      if id.None? {
        assert TypedMatches(items).Some? ==> TypedMatches(items).value[n] in TypedMatches(items).value;
        return false;
      }
      if id.value in seenIds { return false; }
      seenIds := seenIds + {id.value};
    }
    return true;
  }

  /** The checks on one suggestion: its id when they pass. */
  method ValidateMatch(candidate: Json, candidates: seq<Candidate>) returns (id: Option<int>)
    requires DistinctIds(candidates)
    ensures id.Some? <==> TypedMatch(candidate).Some? && MatchOk(TypedMatch(candidate).value, candidates)
    ensures id.Some? ==> id.value == TypedMatch(candidate).value.id
  {
    if Nullish(candidate) { return None; }
    var row := Lookup(candidates, Field(candidate, "id"));
    if row.None? { return None; }
    if Str(row.value.name) != Field(candidate, "name") { return None; }
    var confidence, reason := Field(candidate, "confidence"), Field(candidate, "reason");
    if !confidence.Num? || confidence.n < 0.0 || confidence.n > 1.0 { return None; }
    if !reason.Str? || Blank(reason.s) { return None; }
    return Some(row.value.id);
  }

  /** `candidatesById.get(id)` */
  method Lookup(candidates: seq<Candidate>, id: Json) returns (r: Option<Candidate>)
    requires DistinctIds(candidates)
    ensures r.Some? ==> r.value in candidates && id == Num(r.value.id as real)
    ensures forall c <- candidates :: id == Num(c.id as real) ==> r == Some(c)
  {
    for i := 0 to |candidates|
      invariant forall j :: 0 <= j < i ==> id != Num(candidates[j].id as real)
    {
      if id == Num(candidates[i].id as real) {
        return Some(candidates[i]);
      }
    }
    return None;
  }

  /** The checks on the recommendation. */
  method ValidateRecommendation(recommendation: Json, status: Json, candidates: seq<Candidate>, isProduct: bool)
    returns (ok: bool)
    requires TypedStatus(status).Some?
    ensures ok <==>
      && TypedRecommendation(recommendation).Some?
      && RecommendationOk(MatchResult(TypedStatus(status).value, [], TypedRecommendation(recommendation).value),
                          candidates, isProduct)
  {
    if isProduct && status == Str("NO_MATCH") && !Truthy(recommendation) { return false; }
    if !isProduct && Truthy(recommendation) { return false; }
    if status != Str("NO_MATCH") && Truthy(recommendation) { return false; }
    if Truthy(recommendation) {
      var name, category := Field(recommendation, "normalizedName"), Field(recommendation, "category");
      if !name.Str? || Blank(name.s) { return false; }
      if category != Null && !(category.Str? && category.s in RealCategories(candidates)) { return false; }
    }
    return true;
  }
}
