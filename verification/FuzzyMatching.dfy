/** The wording-similarity matcher that answers when the AI one does not. */
module FuzzyMatching {
  import opened Wrappers
  import opened Text
  import opened MatchResults
  import opened RankOrder

  const MinSuggestionScore: real := 0.2
  const MaxScoreWithConflictingNumbers: real := 0.4
  const SubstringBonus: real := 0.25
  const FuzzySubject: string := "Wording-similarity match"
  const FuzzyReason: string := FuzzySubject + " \U{2014} AI-based matching was unavailable for this request."

  // ---- scoring ------------------------------------------------------------

  predicate TokenChar(c: char) {
    'a' <= c <= 'z' || '0' <= c <= '9'
  }

  predicate DigitChar(c: char) {
    '0' <= c <= '9'
  }

  /** `text.split(/[^a-z0-9]+/)`, with the empty pieces in between. */
  function Pieces(text: string): (r: seq<string>)
    ensures |r| >= 1
  {
    if text == "" then [""]
    else
      var front := Pieces(text[..|text| - 1]);
      var c, last := text[|text| - 1], |front| - 1;
      if TokenChar(c) then front[..last] + [front[last] + [c]] else front + [""]
  }

  function Tokenize(text: string): set<string> {
    set piece | piece in Pieces(text) && piece != ""
  }

  function DigitRun(s: string): (n: nat)
    ensures n <= |s|
    ensures s != "" && DigitChar(s[0]) ==> n > 0
  {
    if s != "" && DigitChar(s[0]) then 1 + DigitRun(s[1..]) else 0
  }

  /** `text.match(/\d+(\.\d+)?/g) ?? []` */
  function ExtractNumbers(text: string): seq<string>
    decreases |text|
  {
    if text == "" then []
    else if !DigitChar(text[0]) then ExtractNumbers(text[1..])
    else
      var n := DigitRun(text);
      var end := if n + 1 < |text| && text[n] == '.' && DigitChar(text[n + 1])
                 then n + 1 + DigitRun(text[n + 1..]) else n;
      [text[..end]] + ExtractNumbers(text[end..])
  }

  function TokenChars(text: string): string {
    if text == "" then ""
    else TokenChars(text[..|text| - 1]) + (if TokenChar(text[|text| - 1]) then [text[|text| - 1]] else "")
  }

  function Separators(text: string): nat {
    if text == "" then 0 else Separators(text[..|text| - 1]) + (if TokenChar(text[|text| - 1]) then 0 else 1)
  }

  /** A character added to the last piece is added to the text. */
  lemma JoinedLonger(front: seq<string>, c: char)
    requires front != []
    ensures
      var last := |front| - 1;
      Joined(front[..last] + [front[last] + [c]]) == Joined(front) + [c]
  {
    var last := |front| - 1;
    var longer := front[..last] + [front[last] + [c]];
    assert longer[..last] == front[..last];
    assert Joined(longer) == Joined(front[..last]) + (front[last] + [c]);
  }

  /** The pieces hold the text's letters and digits, all of them, in order and
      nothing else, and are cut at every other character and nowhere else. */
  lemma {:induction false} PiecesFacts(text: string)
    ensures forall piece <- Pieces(text), c <- piece :: TokenChar(c)
    ensures Joined(Pieces(text)) == TokenChars(text)
    ensures |Pieces(text)| == 1 + Separators(text)
  {
    if text != "" {
      var front := Pieces(text[..|text| - 1]);
      PiecesFacts(text[..|text| - 1]);
      var c, last := text[|text| - 1], |front| - 1;
      assert front == front[..last] + [front[last]];
      if TokenChar(c) {
        JoinedLonger(front, c);
      } else {
        assert Pieces(text)[..|front|] == front;
      }
    } else {
      assert Joined([""]) == Joined([""][..0]) + "";
    }
  }

  predicate AllDigits(s: string) {
    forall c <- s :: DigitChar(c)
  }

  /** `\d+(\.\d+)?` */
  predicate NumberText(s: string) {
    || (s != "" && AllDigits(s))
    || (exists i :: 0 < i < |s| - 1 && s[i] == '.' && AllDigits(s[..i]) && AllDigits(s[i + 1..]))
  }

  function Digits(s: string): string {
    if s == "" then "" else (if DigitChar(s[0]) then [s[0]] else "") + Digits(s[1..])
  }

  lemma {:induction false} DigitRunFacts(s: string)
    ensures AllDigits(s[..DigitRun(s)])
  {
    if s != "" && DigitChar(s[0]) {
      DigitRunFacts(s[1..]);
      assert s[..DigitRun(s)] == [s[0]] + s[1..][..DigitRun(s[1..])];
    }
  }

  lemma DigitsCons(s: string)
    requires s != ""
    ensures Digits(s) == (if DigitChar(s[0]) then [s[0]] else "") + Digits(s[1..])
  {
  }

  lemma {:induction false} DigitsConcat(a: string, b: string)
    ensures Digits(a + b) == Digits(a) + Digits(b)
  {
    if a == "" {
      assert a + b == b;
    } else {
      assert (a + b)[0] == a[0] && (a + b)[1..] == a[1..] + b;
      DigitsConcat(a[1..], b);
      DigitsCons(a + b);
      DigitsCons(a);
    }
  }

  lemma {:induction false} JoinedCons(part: string, parts: seq<string>)
    ensures Joined([part] + parts) == part + Joined(parts)
  {
    if parts == [] {
      assert [part] + parts == [part] && [part][..0] == [];
    } else {
      assert ([part] + parts)[..|parts|] == [part] + parts[..|parts| - 1];
      JoinedCons(part, parts[..|parts| - 1]);
    }
  }

  /** Where the first number of a text that starts with a digit ends. */
  lemma FirstNumber(text: string) returns (end: nat)
    requires text != "" && DigitChar(text[0])
    ensures 0 < end <= |text| && NumberText(text[..end])
    ensures ExtractNumbers(text) == [text[..end]] + ExtractNumbers(text[end..])
  {
    var n := DigitRun(text);
    DigitRunFacts(text);
    if n + 1 < |text| && text[n] == '.' && DigitChar(text[n + 1]) {
      end := n + 1 + DigitRun(text[n + 1..]);
      DigitRunFacts(text[n + 1..]);
      assert text[..end][..n] == text[..n];
      assert text[..end][n + 1..] == text[n + 1..][..DigitRun(text[n + 1..])];
    } else {
      end := n;
    }
  }

  /** Each extracted text is a number, and together they hold every digit there is, in order. */
  lemma {:induction false} NumbersFacts(text: string)
    ensures forall n <- ExtractNumbers(text) :: NumberText(n)
    ensures Digits(Joined(ExtractNumbers(text))) == Digits(text)
    decreases |text|
  {
    if text != "" {
      if DigitChar(text[0]) {
        var end := FirstNumber(text);
        NumbersFacts(text[end..]);
        JoinedCons(text[..end], ExtractNumbers(text[end..]));
        DigitsConcat(text[..end], Joined(ExtractNumbers(text[end..])));
        DigitsConcat(text[..end], text[end..]);
        assert text == text[..end] + text[end..];
      } else {
        NumbersFacts(text[1..]);
      }
    }
  }

  predicate PartAt(s: string, part: string, i: int) {
    0 <= i <= |s| - |part| && s[i..i + |part|] == part
  }

  predicate Contains(s: string, part: string) {
    exists i :: 0 <= i <= |s| && PartAt(s, part, i)
  }

  /** Shared tokens over all tokens. */
  function Jaccard(a: set<string>, b: set<string>): (r: real)
    ensures 0.0 <= r <= 1.0
  {
    if a == {} || b == {} then 0.0
    else
      SharedAtMostAll(a, b);
      |a * b| as real / |a + b| as real
  }

  lemma SharedAtMostAll(a: set<string>, b: set<string>)
    requires a != {}
    ensures |a * b| <= |a + b| && |a + b| > 0
  {
    assert a + b == (a * b) + ((a + b) - (a * b));
    assert (a * b) !! ((a + b) - (a * b));
    var x :| x in a;
    assert x in a + b;
  }

  /** jaccardScore()'s counting loop. */
  method JaccardScore(a: set<string>, b: set<string>) returns (r: real)
    ensures r == Jaccard(a, b)
  {
    if |a| == 0 || |b| == 0 { return 0.0; }
    var shared := 0;
    var left := a;
    while left != {}
      invariant left <= a
      invariant shared == |(a - left) * b|
      decreases |left|
    {
      var token :| token in left;
      CountToken(a, b, left, token);
      if token in b { shared := shared + 1; }
      left := left - {token};
    }
    assert (a - {}) * b == a * b;
    SharedAtMostAll(a, b);
    return shared as real / |a + b| as real;
  }

  lemma CountToken(a: set<string>, b: set<string>, left: set<string>, token: string)
    requires token in left && left <= a
    ensures |(a - (left - {token})) * b| == |(a - left) * b| + (if token in b then 1 else 0)
  {
    var seen := (a - left) * b;
    assert (a - (left - {token})) * b == if token in b then seen + {token} else seen;
  }

  function Normal(s: string, lower: string -> string): string {
    lower(Trim(s))
  }

  function Least(a: real, b: real): real {
    if a < b then a else b
  }

  predicate NumbersConflict(a: string, b: string) {
    && ExtractNumbers(a) != [] && ExtractNumbers(b) != []
    && forall n <- ExtractNumbers(a) :: n !in ExtractNumbers(b)
  }

  /** matchScore() */
  function MatchScore(query: string, name: string, lower: string -> string): (r: real)
    ensures 0.0 <= r <= 1.0
  {
    var q, c := Normal(query, lower), Normal(name, lower);
    if q == c then 1.0
    else
      var bonus := if Contains(c, q) || Contains(q, c) then SubstringBonus else 0.0;
      var score := Least(1.0, Jaccard(Tokenize(q), Tokenize(c)) + bonus);
      if NumbersConflict(q, c) then Least(score, MaxScoreWithConflictingNumbers) else score
  }

  /** It does not matter which of the two names was scanned. */
  lemma ScoreIsSymmetric(a: string, b: string, lower: string -> string)
    ensures MatchScore(a, b, lower) == MatchScore(b, a, lower)
  {
    var x, y := Normal(a, lower), Normal(b, lower);
    assert Tokenize(x) * Tokenize(y) == Tokenize(y) * Tokenize(x);
    assert Tokenize(x) + Tokenize(y) == Tokenize(y) + Tokenize(x);
    assert NumbersConflict(x, y) <==> NumbersConflict(y, x);
  }

  /** Names whose numbers disagree are never more than a weak suggestion. */
  lemma ConflictIsNoMatch(query: string, name: string, lower: string -> string)
    requires NumbersConflict(Normal(query, lower), Normal(name, lower))
    ensures MatchScore(query, name, lower) <= MaxScoreWithConflictingNumbers
  {
    NoConflictWithItself(Normal(query, lower));
  }

  lemma NoConflictWithItself(s: string)
    ensures !NumbersConflict(s, s)
  {
    if ExtractNumbers(s) != [] {
      assert ExtractNumbers(s)[0] in ExtractNumbers(s);
    }
  }

  // ---- ranking ------------------------------------------------------------

  function Confidence(m: Match): real {
    m.confidence
  }

  function MatchId(m: Match): int {
    m.id
  }

  /** Best first. */
  function RankedMatches(ms: seq<Match>): seq<Match> {
    Ranked(Confidence, ms)
  }

  lemma RankedFacts(ms: seq<Match>)
    ensures forall x :: x in RankedMatches(ms) <==> x in ms
    ensures Descending(Confidence, RankedMatches(ms))
    ensures DistinctMatches(ms) ==> DistinctMatches(RankedMatches(ms))
  {
    RankedMembers(Confidence, ms);
    RankedDescends(Confidence, ms);
    if DistinctMatches(ms) {
      RankedDistinct(Confidence, MatchId, ms);
      DistinctById(RankedMatches(ms));
    }
  }

  lemma DistinctById(ms: seq<Match>)
    requires Distinct(MatchId, ms)
    ensures DistinctMatches(ms)
  {
    forall i, j | 0 <= i < j < |ms| ensures ms[i].id != ms[j].id {
      assert MatchId(ms[i]) != MatchId(ms[j]);
    }
  }

  function ScoredMatch(query: string, c: Candidate, lower: string -> string): Match {
    Match(c.id, c.name, MatchScore(query, c.name, lower), FuzzyReason)
  }

  /** The candidates above the noise floor. */
  function Plausible(query: string, candidates: seq<Candidate>, lower: string -> string): seq<Match> {
    if candidates == [] then []
    else
      var m := ScoredMatch(query, candidates[|candidates| - 1], lower);
      Plausible(query, candidates[..|candidates| - 1], lower) +
      (if m.confidence >= MinSuggestionScore then [m] else [])
  }

  lemma {:induction false} PlausibleDistinct(query: string, candidates: seq<Candidate>, lower: string -> string)
    requires DistinctIds(candidates)
    ensures DistinctMatches(Plausible(query, candidates, lower))
  {
    if candidates != [] {
      var front, last := candidates[..|candidates| - 1], candidates[|candidates| - 1];
      PlausibleDistinct(query, front, lower);
      PlausibleFacts(query, front, lower);
      forall m <- Plausible(query, front, lower) ensures m.id != last.id {
        var c :| c in front && m == ScoredMatch(query, c, lower);
        var i :| 0 <= i < |front| && front[i] == c;
        assert candidates[i] == c;
      }
    }
  }

  lemma {:induction false} PlausibleFacts(query: string, candidates: seq<Candidate>, lower: string -> string)
    ensures forall m :: m in Plausible(query, candidates, lower) <==>
      exists c <- candidates :: m == ScoredMatch(query, c, lower) && m.confidence >= MinSuggestionScore
  {
    if candidates != [] {
      var front, last := candidates[..|candidates| - 1], candidates[|candidates| - 1];
      PlausibleFacts(query, front, lower);
      assert candidates == front + [last];
      forall m ensures m in Plausible(query, candidates, lower) <==>
        exists c <- candidates :: m == ScoredMatch(query, c, lower) && m.confidence >= MinSuggestionScore
      {
        if m in Plausible(query, front, lower) {
          var c :| c in front && m == ScoredMatch(query, c, lower);
          assert c in candidates;
        }
      }
    }
  }

  // ---- buildFuzzyMatchResult() --------------------------------------------

  predicate Exact(query: string, name: string, lower: string -> string) {
    Normal(name, lower) == Normal(query, lower)
  }

  function ExactOnes(query: string, ms: seq<Match>, lower: string -> string): seq<Match> {
    if ms == [] then []
    else
      ExactOnes(query, ms[..|ms| - 1], lower) +
      (if Exact(query, ms[|ms| - 1].name, lower) then [ms[|ms| - 1]] else [])
  }

  function BuildFuzzy(query: string, candidates: seq<Candidate>, isProduct: bool, lower: string -> string): MatchResult {
    var scored := RankedMatches(Plausible(query, candidates, lower));
    FuzzyFrom(query, scored, ExactOnes(query, scored, lower), isProduct)
  }

  function FuzzyFrom(query: string, scored: seq<Match>, exact: seq<Match>, isProduct: bool): MatchResult {
    if |exact| == 1 then MatchResult(Resolved, [exact[0].(confidence := 1.0)], None)
    else if scored == [] then
      MatchResult(NoMatch, [], if isProduct then Some(Recommendation(Trim(query), None, Null)) else None)
    else MatchResult(Unresolved, if |scored| > 3 then scored[..3] else scored, None)
  }

  lemma {:induction false} ExactOnesFacts(query: string, ms: seq<Match>, lower: string -> string)
    ensures forall m :: m in ExactOnes(query, ms, lower) <==> m in ms && Exact(query, m.name, lower)
    ensures DistinctMatches(ms) ==> DistinctMatches(ExactOnes(query, ms, lower))
  {
    if ms != [] {
      var front, last := ms[..|ms| - 1], ms[|ms| - 1];
      ExactOnesFacts(query, front, lower);
      assert ms == front + [last];
      assert DistinctMatches(ms) ==> forall m <- front :: m.id != last.id;
    }
  }

  lemma RankedPlausible(query: string, candidates: seq<Candidate>, lower: string -> string)
    ensures
      var scored := RankedMatches(Plausible(query, candidates, lower));
      && Descending(Confidence, scored)
      && (DistinctIds(candidates) ==> DistinctMatches(scored))
      && forall m :: m in scored <==>
           exists c <- candidates :: m == ScoredMatch(query, c, lower) && m.confidence >= MinSuggestionScore
  {
    PlausibleFacts(query, candidates, lower);
    if DistinctIds(candidates) { PlausibleDistinct(query, candidates, lower); }
    RankedFacts(Plausible(query, candidates, lower));
  }

  lemma ReasonGiven()
    ensures !Blank(FuzzyReason)
  {
    assert FuzzySubject[0] == 'W' && !White('W');
    assert FuzzyReason[0] == FuzzySubject[0] && FuzzyReason[0] in FuzzyReason;
  }

  lemma ScoredIsOk(query: string, candidates: seq<Candidate>, c: Candidate, lower: string -> string)
    requires c in candidates
    ensures MatchOk(ScoredMatch(query, c, lower), candidates)
    ensures MatchOk(ScoredMatch(query, c, lower).(confidence := 1.0), candidates)
  {
    ReasonGiven();
  }

  lemma CleanedUpName(query: string)
    requires !Blank(query)
    ensures !Blank(Trim(query))
  {
    TrimFacts(query);
    assert Trim(query)[0] in Trim(query);
  }

  /** Whatever the query and the catalogue, the fallback's answer meets the contract
      the AI answer is held to. */
  lemma FuzzyMeetsContract(query: string, candidates: seq<Candidate>, isProduct: bool, lower: string -> string)
    requires !Blank(query) && DistinctIds(candidates)
    ensures Contract(BuildFuzzy(query, candidates, isProduct, lower), candidates, isProduct)
  {
    var scored := RankedMatches(Plausible(query, candidates, lower));
    var exact := ExactOnes(query, scored, lower);
    RankedPlausible(query, candidates, lower);
    ExactOnesFacts(query, scored, lower);
    CleanedUpName(query);
    forall m <- scored ensures MatchOk(m, candidates) && MatchOk(m.(confidence := 1.0), candidates) {
      var c :| c in candidates && m == ScoredMatch(query, c, lower);
      ScoredIsOk(query, candidates, c, lower);
    }
    FuzzyFromOk(query, candidates, scored, exact, isProduct);
  }

  lemma FuzzyFromOk(query: string, candidates: seq<Candidate>, scored: seq<Match>, exact: seq<Match>, isProduct: bool)
    requires !Blank(Trim(query)) && DistinctMatches(scored)
    requires forall m <- scored :: MatchOk(m, candidates) && MatchOk(m.(confidence := 1.0), candidates)
    requires forall m <- exact :: m in scored
    ensures Contract(FuzzyFrom(query, scored, exact, isProduct), candidates, isProduct)
  {
    assert |exact| == 1 ==> exact[0] in exact;
  }

  /** It reports no match exactly when no candidate reaches the floor. */
  lemma FuzzyNoMatch(query: string, candidates: seq<Candidate>, isProduct: bool, lower: string -> string)
    ensures BuildFuzzy(query, candidates, isProduct, lower).status == NoMatch
       <==> forall c <- candidates :: MatchScore(query, c.name, lower) < MinSuggestionScore
  {
    NoMatchMeansEmpty(query, candidates, isProduct, lower);
    EmptyMeansAllBelow(query, candidates, lower);
  }

  lemma NoMatchMeansEmpty(query: string, candidates: seq<Candidate>, isProduct: bool, lower: string -> string)
    ensures BuildFuzzy(query, candidates, isProduct, lower).status == NoMatch
       <==> RankedMatches(Plausible(query, candidates, lower)) == []
  {
    var scored := RankedMatches(Plausible(query, candidates, lower));
    if scored == [] {
      assert ExactOnes(query, scored, lower) == [];
    }
  }

  lemma EmptyMeansAllBelow(query: string, candidates: seq<Candidate>, lower: string -> string)
    ensures RankedMatches(Plausible(query, candidates, lower)) == []
       <==> forall c <- candidates :: MatchScore(query, c.name, lower) < MinSuggestionScore
  {
    RankedPlausible(query, candidates, lower);
    var scored := RankedMatches(Plausible(query, candidates, lower));
    if scored == [] {
      forall c <- candidates ensures MatchScore(query, c.name, lower) < MinSuggestionScore {
        assert ScoredMatch(query, c, lower) !in scored;
      }
    } else {
      assert scored[0] in scored;
    }
  }

  /** It resolves exactly when one candidate alone has the query's name, ignoring
      case and surrounding space. */
  lemma FuzzyResolves(query: string, candidates: seq<Candidate>, isProduct: bool, lower: string -> string)
    requires DistinctIds(candidates)
    ensures BuildFuzzy(query, candidates, isProduct, lower).status == Resolved
       <==> exists c <- candidates :: OnlyExact(query, candidates, c, lower)
  {
    var exact := ExactOnes(query, RankedMatches(Plausible(query, candidates, lower)), lower);
    ExactAreExact(query, candidates, lower);
    OneIffOnly(query, candidates, exact, lower);
  }

  lemma OneIffOnly(query: string, candidates: seq<Candidate>, exact: seq<Match>, lower: string -> string)
    requires DistinctIds(candidates) && DistinctMatches(exact)
    requires forall m <- exact :: exists c <- candidates :: m == ScoredMatch(query, c, lower) && Exact(query, c.name, lower)
    requires forall c <- candidates :: Exact(query, c.name, lower) ==> ScoredMatch(query, c, lower) in exact
    ensures |exact| == 1 <==> exists c <- candidates :: OnlyExact(query, candidates, c, lower)
  {
    if |exact| == 1 {
      assert exact[0] in exact;
      OneExact(query, candidates, exact, lower);
    }
    if c :| c in candidates && OnlyExact(query, candidates, c, lower) {
      OnlyOne(query, candidates, exact, c, lower);
    }
  }

  lemma OnlyOne(query: string, candidates: seq<Candidate>, exact: seq<Match>, c: Candidate, lower: string -> string)
    requires DistinctMatches(exact) && c in candidates && OnlyExact(query, candidates, c, lower)
    requires forall m <- exact :: exists d <- candidates :: m == ScoredMatch(query, d, lower) && Exact(query, d.name, lower)
    requires ScoredMatch(query, c, lower) in exact
    ensures |exact| == 1
  {
    AllTheSame(exact, ScoredMatch(query, c, lower));
  }

  predicate OnlyExact(query: string, candidates: seq<Candidate>, c: Candidate, lower: string -> string) {
    Exact(query, c.name, lower) && forall d <- candidates :: Exact(query, d.name, lower) ==> d == c
  }

  lemma ExactAreExact(query: string, candidates: seq<Candidate>, lower: string -> string)
    requires DistinctIds(candidates)
    ensures
      var exact := ExactOnes(query, RankedMatches(Plausible(query, candidates, lower)), lower);
      && DistinctMatches(exact)
      && (forall m <- exact :: exists c <- candidates :: m == ScoredMatch(query, c, lower) && Exact(query, c.name, lower))
      && (forall c <- candidates :: Exact(query, c.name, lower) ==> ScoredMatch(query, c, lower) in exact)
  {
    var scored := RankedMatches(Plausible(query, candidates, lower));
    RankedPlausible(query, candidates, lower);
    ExactOnesFacts(query, scored, lower);
    forall c <- candidates | Exact(query, c.name, lower) ensures ScoredMatch(query, c, lower) in scored {
      assert ScoredMatch(query, c, lower).confidence == 1.0;
    }
  }

  lemma AllTheSame(ms: seq<Match>, m: Match)
    requires DistinctMatches(ms) && m in ms && forall x <- ms :: x == m
    ensures |ms| == 1
  {
    if |ms| >= 2 {
      TwoDiffer(ms);
    }
  }

  lemma TwoDiffer(ms: seq<Match>)
    requires DistinctMatches(ms) && |ms| >= 2
    ensures exists x, y :: x in ms && y in ms && x != y
  {
    assert ms[0] in ms && ms[1] in ms && ms[0].id != ms[1].id;
  }

  lemma OneExact(query: string, candidates: seq<Candidate>, exact: seq<Match>, lower: string -> string)
    requires DistinctIds(candidates) && |exact| == 1
    requires exists c <- candidates :: exact[0] == ScoredMatch(query, c, lower) && Exact(query, c.name, lower)
    requires forall c <- candidates :: Exact(query, c.name, lower) ==> ScoredMatch(query, c, lower) in exact
    ensures exists c <- candidates :: OnlyExact(query, candidates, c, lower)
  {
    var c :| c in candidates && exact[0] == ScoredMatch(query, c, lower) && Exact(query, c.name, lower);
    forall d <- candidates | Exact(query, d.name, lower) ensures d == c {
      assert ScoredMatch(query, d, lower) == exact[0];
      var i :| 0 <= i < |candidates| && candidates[i] == c;
      var j :| 0 <= j < |candidates| && candidates[j] == d;
    }
    assert OnlyExact(query, candidates, c, lower);
  }

  /** The suggestions of an unresolved answer are the best there are: a candidate
      that is not shown scores no higher than any that is, and with fewer than
      three shown it scored below the floor. */
  lemma FuzzyShowsBest(query: string, candidates: seq<Candidate>, isProduct: bool, lower: string -> string, c: Candidate)
    requires c in candidates && BuildFuzzy(query, candidates, isProduct, lower).status == Unresolved
    requires ScoredMatch(query, c, lower) !in BuildFuzzy(query, candidates, isProduct, lower).candidates
    ensures
      var r := BuildFuzzy(query, candidates, isProduct, lower);
      && (forall m <- r.candidates :: MatchScore(query, c.name, lower) <= m.confidence)
      && (|r.candidates| < 3 ==> MatchScore(query, c.name, lower) < MinSuggestionScore)
  {
    RankedPlausible(query, candidates, lower);
    var m := ScoredMatch(query, c, lower);
    if m.confidence >= MinSuggestionScore {
      BestShown(RankedMatches(Plausible(query, candidates, lower)), m);
    }
    AllShownPlausible(query, candidates, isProduct, lower);
  }

  lemma AllShownPlausible(query: string, candidates: seq<Candidate>, isProduct: bool, lower: string -> string)
    requires BuildFuzzy(query, candidates, isProduct, lower).status == Unresolved
    ensures forall m <- BuildFuzzy(query, candidates, isProduct, lower).candidates :: m.confidence >= MinSuggestionScore
  {
    RankedPlausible(query, candidates, lower);
  }

  /** A ranked match past the third is no better than the first three. */
  lemma BestShown(scored: seq<Match>, m: Match)
    requires Descending(Confidence, scored) && m in scored
    requires m !in if |scored| > 3 then scored[..3] else scored
    ensures |scored| > 3 && forall x <- scored[..3] :: m.confidence <= x.confidence
  {
    var i :| 0 <= i < |scored| && scored[i] == m;
    forall j | 0 <= j < 3 ensures m.confidence <= scored[j].confidence {
      assert Confidence(scored[j]) >= Confidence(scored[i]);
    }
  }
}
