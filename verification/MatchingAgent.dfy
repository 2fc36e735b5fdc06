/** The AI side's own check of the model's verdict, its way to the backend as JSON,
    and what the backend makes of it. */
module MatchingAgent {
  import opened Wrappers
  import opened Text
  import opened MatchResults
  import opened FuzzyMatching

  // ---- _validate_verdict() ------------------------------------------------

  predicate Misplaced(v: MatchResult, isProduct: bool) {
    v.recommendation.Some? && (!isProduct || v.status != NoMatch)
  }

  /** A recommendation where none may be is dropped, nothing else changes. */
  function Stripped(v: MatchResult, isProduct: bool): MatchResult {
    if Misplaced(v, isProduct) then v.(recommendation := None) else v
  }

  /** What a verdict must satisfy to survive; confidences are bounded by its type. */
  predicate Survives(v: MatchResult, isProduct: bool, realIds: set<int>, realCategories: set<string>) {
    && |v.candidates| <= 3
    && (forall m <- v.candidates :: m.id in realIds && !PyBlank(m.reason))
    && DistinctMatches(v.candidates)
    && StatusFits(v.status, |v.candidates|)
    && (isProduct && v.status == NoMatch ==>
          && v.recommendation.Some?
          && !PyBlank(v.recommendation.value.normalizedName)
          && (v.recommendation.value.category.Some? ==> v.recommendation.value.category.value in realCategories))
  }

  /** The model's structured output. */
  class Verdict {
    var status: Status
    var candidates: seq<Match>
    var recommendation: Option<Recommendation>

    constructor (v: MatchResult)
      ensures Value() == v
    {
      status, candidates, recommendation := v.status, v.candidates, v.recommendation;
    }

    function Value(): MatchResult
      reads this
    {
      MatchResult(status, candidates, recommendation)
    }

    /** _validate_verdict(); false is the InvalidDocumentAgentMatchOutput exception. */
    method Check(isProduct: bool, realIds: set<int>, realCategories: set<string>) returns (ok: bool)
      modifies this`recommendation
      ensures ok <==> Survives(old(Value()), isProduct, realIds, realCategories)
      ensures Value() == if ok then Stripped(old(Value()), isProduct) else old(Value())
    {
      if |candidates| > 3 { return false; }
      ok := CheckCandidates(realIds);
      if !ok { return; }
      if status == Resolved && |candidates| != 1 { return false; }
      if status == Unresolved && candidates == [] { return false; }
      if status == NoMatch && candidates != [] { return false; }
      if isProduct && status == NoMatch && recommendation.None? { return false; }
      if recommendation.Some? && (!isProduct || status != NoMatch) {
        recommendation := None;
      }
      if recommendation.Some? {
        if PyBlank(recommendation.value.normalizedName) { return false; }
        if recommendation.value.category.Some? && recommendation.value.category.value !in realCategories { return false; }
      }
      return true;
    }

    method CheckCandidates(realIds: set<int>) returns (ok: bool)
      ensures ok <==>
        (forall m <- candidates :: m.id in realIds && !PyBlank(m.reason)) && DistinctMatches(candidates)
    {
      var seenIds: set<int> := {};
      for n := 0 to |candidates|
        invariant seenIds == set i | 0 <= i < n :: candidates[i].id
        invariant forall i :: 0 <= i < n ==> candidates[i].id in realIds && !PyBlank(candidates[i].reason)
        invariant forall i, j :: 0 <= i < j < n ==> candidates[i].id != candidates[j].id
      {
        var candidate := candidates[n];
        assert candidate in candidates;
        if candidate.id !in realIds { return false; }
        if candidate.id in seenIds { return false; }
        seenIds := seenIds + {candidate.id};
        if PyBlank(candidate.reason) { return false; }
      }
      return true;
    }
  }

  // ---- the verdict's way to the backend -----------------------------------

  function MatchJson(m: Match): Json {
    Obj(map["id" := Num(m.id as real), "name" := Str(m.name),
            "confidence" := Num(m.confidence), "reason" := Str(m.reason)])
  }

  function RecommendationJson(r: Option<Recommendation>): Json {
    if r.None? then Null
    else Obj(map["normalizedName" := Str(r.value.normalizedName),
                 "category" := if r.value.category.Some? then Str(r.value.category.value) else Null,
                 "description" := r.value.description])
  }

  /** `json.dumps` of the verdict, as the backend reads it back. */
  function ToJson(v: MatchResult): Json {
    Obj(map["status" := Str(StatusText(v.status)),
            "candidates" := Arr(seq(|v.candidates|, i requires 0 <= i < |v.candidates| => MatchJson(v.candidates[i]))),
            "recommendation" := RecommendationJson(v.recommendation)])
  }

  lemma MatchReadBack(m: Match)
    ensures TypedMatch(MatchJson(m)) == Some(m)
  {
    var j := MatchJson(m);
    assert Field(j, "id") == Num(m.id as real) && Field(j, "name") == Str(m.name);
    assert Field(j, "confidence") == Num(m.confidence) && Field(j, "reason") == Str(m.reason);
    assert (m.id as real).Floor == m.id;
  }

  lemma RecommendationReadBack(r: Option<Recommendation>)
    ensures TypedRecommendation(RecommendationJson(r)) == Some(r)
  {
    if r.Some? {
      var j := RecommendationJson(r);
      assert Field(j, "normalizedName") == Str(r.value.normalizedName) && Field(j, "description") == r.value.description;
    }
  }

  lemma StatusReadBack(s: Status)
    ensures TypedStatus(Str(StatusText(s))) == Some(s)
  {
  }

  /** The backend reads back exactly the verdict that was sent. */
  lemma VerdictReadBack(v: MatchResult)
    ensures Typed(ToJson(v)) == Some(v)
  {
    var j := ToJson(v);
    forall m ensures TypedMatch(MatchJson(m)) == Some(m) { MatchReadBack(m); }
    RecommendationReadBack(v.recommendation);
    StatusReadBack(v.status);
    assert Field(j, "candidates").items == seq(|v.candidates|, i requires 0 <= i < |v.candidates| => MatchJson(v.candidates[i]));
    assert TypedMatches(Field(j, "candidates").items).value == v.candidates;
  }

  // ---- survivors are accepted ---------------------------------------------

  /** Names and confidences as the prompt and the type demand: each name copied from
      the row with that id, each confidence within 0 to 1. */
  predicate Copied(v: MatchResult, candidates: seq<Candidate>) {
    forall m <- v.candidates ::
      && 0.0 <= m.confidence <= 1.0
      && forall c <- candidates :: c.id == m.id ==> c.name == m.name
  }

  function Ids(candidates: seq<Candidate>): set<int> {
    set c | c in candidates :: c.id
  }

  /** The texts a verdict carries are more than white space for the backend too. */
  predicate Legible(v: MatchResult) {
    && (forall m <- v.candidates :: !Blank(m.reason))
    && (v.recommendation.Some? ==> !Blank(v.recommendation.value.normalizedName))
  }

  /** A verdict that survives the AI side's check, with names copied from the
      candidates, meets the backend's contract exactly when its texts are not blank
      for the backend: the two sides differ in nothing but what they call white space. */
  lemma SurvivorsAccepted(v: MatchResult, candidates: seq<Candidate>, isProduct: bool)
    requires Survives(v, isProduct, Ids(candidates), RealCategories(candidates))
    requires Copied(v, candidates)
    ensures Typed(ToJson(Stripped(v, isProduct))) == Some(Stripped(v, isProduct))
    ensures Contract(Stripped(v, isProduct), candidates, isProduct) <==> Legible(Stripped(v, isProduct))
  {
    VerdictReadBack(Stripped(v, isProduct));
    var s := Stripped(v, isProduct);
    forall m <- s.candidates ensures MatchOk(m, candidates) <==> !Blank(m.reason) {
      assert m.id in Ids(candidates);
      var c :| c in candidates && c.id == m.id;
    }
  }

  /** And the other way round: a verdict that meets the backend's contract, with texts that
      are not blank for the AI side, survives its check as it stands. */
  lemma AcceptedSurvive(v: MatchResult, candidates: seq<Candidate>, isProduct: bool)
    requires Contract(v, candidates, isProduct)
    requires forall m <- v.candidates :: exists c :: c in m.reason && !PyWhite(c)
    requires v.recommendation.Some? ==> exists c :: c in v.recommendation.value.normalizedName && !PyWhite(c)
    ensures Survives(v, isProduct, Ids(candidates), RealCategories(candidates)) && Stripped(v, isProduct) == v
  {
    forall m <- v.candidates ensures m.id in Ids(candidates) {
      assert MatchOk(m, candidates);
    }
  }

  /** The two sides can only part over a text that holds a byte order mark. */
  lemma PlainTextsAccepted(v: MatchResult, candidates: seq<Candidate>, isProduct: bool)
    requires Survives(v, isProduct, Ids(candidates), RealCategories(candidates)) && Copied(v, candidates)
    requires forall m <- v.candidates, c <- m.reason :: c as int != 0xFEFF
    requires v.recommendation.Some? ==> forall c <- v.recommendation.value.normalizedName :: c as int != 0xFEFF
    ensures Contract(Stripped(v, isProduct), candidates, isProduct)
  {
    SurvivorsAccepted(v, candidates, isProduct);
    var s := Stripped(v, isProduct);
    forall m <- s.candidates ensures !Blank(m.reason) {
      PlainNotBlank(m.reason);
    }
    if s.recommendation.Some? {
      PlainNotBlank(s.recommendation.value.normalizedName);
    }
  }

  lemma PlainNotBlank(s: string)
    requires !PyBlank(s) && forall c <- s :: c as int != 0xFEFF
    ensures !Blank(s)
  {
    if Blank(s) {
      BlankForOneOnly(s);
    }
  }

  /** And they do part: a reason of one byte order mark survives and is rejected. */
  lemma ByteOrderMarkParts(c: Candidate) returns (v: MatchResult)
    ensures Survives(v, true, Ids([c]), RealCategories([c])) && Copied(v, [c])
    ensures Typed(ToJson(v)) == Some(v) && !Contract(v, [c], true)
  {
    var mark := 0xFEFF as char;
    v := MatchResult(Unresolved, [Match(c.id, c.name, 0.5, [mark])], None);
    var m := v.candidates[0];
    assert m in v.candidates && !PyWhite(mark) && mark in m.reason;
    assert c in [c];
    SurvivorsAccepted(v, [c], true);
    assert White(mark) && Blank(m.reason);
    assert !Legible(v);
  }

  // ---- resolveProduct() and resolveSupplier() -----------------------------

  /** What the matching service did: answered with some JSON value, or failed. */
  datatype Answer = Answered(body: Json) | Threw

  predicate Usable(answer: Answer, candidates: seq<Candidate>, isProduct: bool) {
    answer.Answered? && Typed(answer.body).Some? && Contract(Typed(answer.body).value, candidates, isProduct)
  }

  /** Every non-blank query gets an answer that meets the contract, whatever the
      matching service does; its own answer is used when it meets the contract. */
  method Resolve(query: string, candidates: seq<Candidate>, isProduct: bool, answer: Answer, lower: string -> string)
    returns (r: Result<MatchResult, Error>)
    requires DistinctIds(candidates)
    ensures r.Ok? <==> !Blank(query)
    ensures r.Err? ==> r.error == BadRequest
    ensures r.Ok? ==> Contract(r.value, candidates, isProduct)
    ensures r.Ok? ==>
      r.value == if Usable(answer, candidates, isProduct) then Typed(answer.body).value
                 else BuildFuzzy(query, candidates, isProduct, lower)
  {
    if Blank(query) { return Err(BadRequest); }
    if answer.Answered? {
      var valid := Validate(answer.body, candidates, isProduct);
      if valid { return Ok(Typed(answer.body).value); }
    }
    FuzzyMeetsContract(query, candidates, isProduct, lower);
    return Ok(BuildFuzzy(query, candidates, isProduct, lower));
  }
}
