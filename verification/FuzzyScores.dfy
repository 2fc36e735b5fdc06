/** What a similarity score is worth, counted on the two names' tokens, and what
    the fallback answers in those terms. */
module FuzzyScores {
  import opened Wrappers
  import opened Text
  import opened MatchResults
  import opened RankOrder
  import opened FuzzyMatching

  // ---- tokens, parts and numbers of a text -------------------------------

  /** A text cut at a character that is neither a lower-case letter nor a digit has
      the tokens of both sides. */
  lemma TokensOfBoth(a: string, c: char, b: string)
    requires !('a' <= c <= 'z' || '0' <= c <= '9')
    ensures Tokenize(a + [c] + b) == Tokenize(a) + Tokenize(b)
  {
    PiecesOfBoth(a, c, b);
  }

  lemma PiecesSnoc(s: string, d: char)
    ensures Pieces(s + [d]) == Longer(Pieces(s), d)
  {
    assert (s + [d])[..|s|] == s;
  }

  /** One more character: added to the last piece, or the start of a new one. */
  function Longer(pieces: seq<string>, d: char): seq<string>
    requires pieces != []
  {
    var last := |pieces| - 1;
    if TokenChar(d) then pieces[..last] + [pieces[last] + [d]] else pieces + [""]
  }

  lemma LongerAtTheEnd(left: seq<string>, right: seq<string>, d: char)
    requires right != []
    ensures Longer(left + right, d) == left + Longer(right, d)
  {
    assert (left + right)[..|left + right| - 1] == left + right[..|right| - 1];
  }

  lemma {:induction false} PiecesOfBoth(a: string, c: char, b: string)
    requires !TokenChar(c)
    ensures Pieces(a + [c] + b) == Pieces(a) + Pieces(b)
  {
    if b == "" {
      assert a + [c] + b == a + [c];
      PiecesSnoc(a, c);
    } else {
      var front, d := b[..|b| - 1], b[|b| - 1];
      PiecesOfBoth(a, c, front);
      assert a + [c] + b == (a + [c] + front) + [d] && b == front + [d];
      PiecesSnoc(a + [c] + front, d);
      PiecesSnoc(front, d);
      LongerAtTheEnd(Pieces(a), Pieces(front), d);
    }
  }

  /** A text of letters and digits alone is one token. */
  lemma OneToken(a: string)
    requires a != "" && forall c <- a :: 'a' <= c <= 'z' || '0' <= c <= '9'
    ensures Tokenize(a) == {a}
  {
    OnePiece(a);
  }

  lemma {:induction false} OnePiece(a: string)
    requires forall c <- a :: TokenChar(c)
    ensures Pieces(a) == [a]
  {
    if a != "" {
      OnePiece(a[..|a| - 1]);
      assert a == a[..|a| - 1] + [a[|a| - 1]];
    }
  }

  lemma ContainsMeans(s: string, part: string)
    ensures Contains(s, part) <==> exists i :: 0 <= i <= |s| - |part| && s[i..][..|part|] == part
  {
    if i :| 0 <= i <= |s| && PartAt(s, part, i) {
      assert s[i..][..|part|] == s[i..i + |part|];
    }
    if i :| 0 <= i <= |s| - |part| && s[i..][..|part|] == part {
      assert s[i..][..|part|] == s[i..i + |part|];
      assert PartAt(s, part, i);
    }
  }

  /** `b` carries the number `n` on: another digit, or a fraction if `n` has none yet. */
  predicate CarriesOn(n: string, b: string) {
    || (b != "" && DigitChar(b[0]))
    || (AllDigits(n) && |b| >= 2 && b[0] == '.' && DigitChar(b[1]))
  }

  /** The numbers of a text are found from the left, each as long as it can be. */
  lemma NumbersFromLeft(a: string, n: string, b: string)
    requires NumberText(n) && !CarriesOn(n, b) && forall c <- a :: !DigitChar(c)
    ensures ExtractNumbers(a + n + b) == [n] + ExtractNumbers(b)
  {
    SkipsTo(a, n + b);
    assert a + n + b == a + (n + b);
    NumberFirst(n, b);
  }

  /** And there are none without digits. */
  lemma NoNumbers(a: string)
    requires forall c <- a :: !DigitChar(c)
    ensures ExtractNumbers(a) == []
  {
    SkipsTo(a, "");
    assert a + "" == a;
  }

  lemma {:induction false} SkipsTo(a: string, b: string)
    requires forall c <- a :: !DigitChar(c)
    ensures ExtractNumbers(a + b) == ExtractNumbers(b)
  {
    if a == "" {
      assert a + b == b;
    } else {
      assert (a + b)[0] == a[0] && (a + b)[1..] == a[1..] + b;
      SkipsTo(a[1..], b);
    }
  }

  lemma {:induction false} RunOf(n: string, b: string)
    requires AllDigits(n) && (b != "" ==> !DigitChar(b[0]))
    ensures DigitRun(n + b) == |n|
  {
    if n == "" {
      assert n + b == b;
    } else {
      assert (n + b)[0] == n[0] && (n + b)[1..] == n[1..] + b;
      RunOf(n[1..], b);
    }
  }

  lemma NumberFirst(n: string, b: string)
    requires NumberText(n) && !CarriesOn(n, b)
    ensures ExtractNumbers(n + b) == [n] + ExtractNumbers(b)
  {
    if AllDigits(n) {
      RunOf(n, b);
      NumberEnds(n, b);
    } else {
      var i :| 0 < i < |n| - 1 && n[i] == '.' && AllDigits(n[..i]) && AllDigits(n[i + 1..]);
      DotNumberFirst(n, i, b);
    }
  }

  lemma DotNumberFirst(n: string, i: nat, b: string)
    requires 0 < i < |n| - 1 && n[i] == '.' && AllDigits(n[..i]) && AllDigits(n[i + 1..]) && (b != "" ==> !DigitChar(b[0]))
    ensures ExtractNumbers(n + b) == [n] + ExtractNumbers(b)
  {
    var text := n + b;
    DotNumberRuns(n, i, b);
    Leads(text, n, b);
  }

  /** The digits before the dot, and those behind it. */
  lemma DotNumberRuns(n: string, i: nat, b: string)
    requires 0 < i < |n| - 1 && n[i] == '.' && AllDigits(n[..i]) && AllDigits(n[i + 1..]) && (b != "" ==> !DigitChar(b[0]))
    ensures
      var text := n + b;
      && DigitRun(text) == i && DigitChar(text[0]) && text[i] == '.'
      && DigitChar(text[i + 1]) && DigitRun(text[i + 1..]) == |n| - i - 1
  {
    var text := n + b;
    var rest := text[i..];
    assert text == n[..i] + rest && rest[0] == '.';
    RunOf(n[..i], rest);
    assert text[i + 1..] == n[i + 1..] + b;
    RunOf(n[i + 1..], b);
    assert n[0] in n[..i] && n[i + 1] in n[i + 1..];
  }

  /** The first number of a text that starts with one. */
  lemma Leads(text: string, n: string, b: string)
    requires text == n + b && n != "" && DigitChar(text[0])
    requires
      var run := DigitRun(text);
      |n| == if run + 1 < |text| && text[run] == '.' && DigitChar(text[run + 1]) then run + 1 + DigitRun(text[run + 1..]) else run
    ensures ExtractNumbers(text) == [n] + ExtractNumbers(b)
  {
    assert text[..|n|] == n && text[|n|..] == b;
  }

  lemma NumberEnds(n: string, b: string)
    requires n != "" && AllDigits(n) && !CarriesOn(n, b) && DigitRun(n + b) == |n|
    ensures ExtractNumbers(n + b) == [n] + ExtractNumbers(b)
  {
    var text := n + b;
    assert text[0] == n[0] && n[0] in n;
    assert |b| >= 1 ==> text[|n|] == b[0];
    assert |b| >= 2 ==> text[|n| + 1] == b[1];
    Leads(text, n, b);
  }

  // ---- the score ----------------------------------------------------------

  /** The two names hold numbers, and none of them in common. */
  predicate DifferentNumbers(a: string, b: string) {
    && |ExtractNumbers(a)| > 0 && |ExtractNumbers(b)| > 0
    && forall n :: n in ExtractNumbers(a) ==> n !in ExtractNumbers(b)
  }

  /** Names that read alike but for case and space score 1. */
  lemma AlikeScoresOne(query: string, name: string, lower: string -> string)
    requires lower(Trim(query)) == lower(Trim(name))
    ensures MatchScore(query, name, lower) == 1.0
  {
  }

  /** Shared tokens over all tokens; 0 when there are none. */
  function Overlap(q: string, c: string): real {
    var shared, all := Tokenize(q) * Tokenize(c), Tokenize(q) + Tokenize(c);
    if |all| == 0 then 0.0 else |shared| as real / |all| as real
  }

  lemma OverlapIsJaccard(q: string, c: string)
    ensures Jaccard(Tokenize(q), Tokenize(c)) == Overlap(q, c)
  {
    var a, b := Tokenize(q), Tokenize(c);
    if a == {} || b == {} {
      assert a * b == {};
    } else {
      SharedAtMostAll(a, b);
    }
  }

  /** Between any other two names the score is the overlap; a quarter more, up to 1,
      when one name is part of the other; and at most 0.4 when their numbers differ. */
  lemma ScoreCounts(query: string, name: string, lower: string -> string)
    requires lower(Trim(query)) != lower(Trim(name))
    ensures
      var q, c := lower(Trim(query)), lower(Trim(name));
      var score := MatchScore(query, name, lower);
      if DifferentNumbers(q, c) then
        if Contains(q, c) || Contains(c, q) then score == (if Overlap(q, c) >= 0.15 then 0.4 else Overlap(q, c) + 0.25)
        else score == (if Overlap(q, c) >= 0.4 then 0.4 else Overlap(q, c))
      else
        if Contains(q, c) || Contains(c, q) then score == (if Overlap(q, c) >= 0.75 then 1.0 else Overlap(q, c) + 0.25)
        else score == Overlap(q, c)
  {
    var q, c := lower(Trim(query)), lower(Trim(name));
    OverlapIsJaccard(q, c);
    assert NumbersConflict(q, c) <==> DifferentNumbers(q, c);
  }

  /** The same words in another order score 1, unless their numbers differ. */
  lemma SameTokensScoreOne(query: string, name: string, lower: string -> string)
    requires Tokenize(lower(Trim(query))) == Tokenize(lower(Trim(name))) != {}
    requires !DifferentNumbers(lower(Trim(query)), lower(Trim(name)))
    ensures MatchScore(query, name, lower) == 1.0
  {
    var q, c := lower(Trim(query)), lower(Trim(name));
    if q == c {
      AlikeScoresOne(query, name, lower);
    } else {
      assert Tokenize(q) * Tokenize(c) == Tokenize(q) && Tokenize(q) + Tokenize(c) == Tokenize(q);
      ScoreCounts(query, name, lower);
    }
  }

  /** Names without a common word, neither part of the other, score 0. */
  lemma NothingSharedScoresZero(query: string, name: string, lower: string -> string)
    requires Tokenize(lower(Trim(query))) !! Tokenize(lower(Trim(name)))
    requires !Contains(lower(Trim(query)), lower(Trim(name))) && !Contains(lower(Trim(name)), lower(Trim(query)))
    ensures MatchScore(query, name, lower) == 0.0
  {
    var q, c := lower(Trim(query)), lower(Trim(name));
    PartOfItself(q);
    NoOverlap(q, c);
    ScoreCounts(query, name, lower);
  }

  lemma NoOverlap(q: string, c: string)
    requires Tokenize(q) !! Tokenize(c)
    ensures Overlap(q, c) == 0.0
  {
    assert Tokenize(q) * Tokenize(c) == {};
  }

  lemma PartOfItself(s: string)
    ensures Contains(s, s)
  {
    assert PartAt(s, s, 0);
  }

  // ---- the fallback's answer ----------------------------------------------

  /** The names have nothing to do with each other: neither is part of the other, and
      fewer than a fifth of their tokens are shared. */
  predicate Unrelated(query: string, name: string, lower: string -> string) {
    var q, c := lower(Trim(query)), lower(Trim(name));
    var shared, all := |Tokenize(q) * Tokenize(c)|, |Tokenize(q) + Tokenize(c)|;
    !Contains(q, c) && !Contains(c, q) && (all > 0 ==> 5 * shared < all)
  }

  lemma Fraction(n: real, d: real)
    requires d > 0.0
    ensures (n / d) * d == n
  {
  }

  lemma ScaledLess(x: real, y: real, d: real)
    requires d > 0.0
    ensures x < y <==> x * d < y * d
  {
    if x < y {
      assert (y - x) * d > 0.0;
    } else {
      assert (x - y) * d >= 0.0;
    }
  }

  lemma FifthShared(shared: nat, all: nat)
    requires all > 0
    ensures shared as real / all as real < 0.2 <==> 5 * shared < all
  {
    Fraction(shared as real, all as real);
    ScaledLess(shared as real / all as real, 0.2, all as real);
  }

  lemma UnrelatedIsBelow(query: string, name: string, lower: string -> string)
    ensures Unrelated(query, name, lower) <==> MatchScore(query, name, lower) < MinSuggestionScore
  {
    var q, c := lower(Trim(query)), lower(Trim(name));
    var shared, all := |Tokenize(q) * Tokenize(c)|, |Tokenize(q) + Tokenize(c)|;
    if all > 0 {
      FifthShared(shared, all);
    }
    if q == c {
      PartOfItself(q);
      AlikeScoresOne(query, name, lower);
    } else {
      OverlapNonNegative(q, c);
      ScoreCounts(query, name, lower);
    }
  }

  lemma OverlapNonNegative(q: string, c: string)
    ensures Overlap(q, c) >= 0.0
  {
    OverlapIsJaccard(q, c);
  }

  /** The fallback reports no match exactly when every name in the catalogue is unrelated
      to the query; for a product it then recommends the query, trimmed, as a new name. */
  lemma FallbackFindsNothing(query: string, candidates: seq<Candidate>, isProduct: bool, lower: string -> string)
    ensures
      var r := BuildFuzzy(query, candidates, isProduct, lower);
      && (r.status == NoMatch <==> forall c <- candidates :: Unrelated(query, c.name, lower))
      && (r.status == NoMatch ==>
            && r.candidates == []
            && r.recommendation == if isProduct then Some(Recommendation(Trim(query), None, Null)) else None)
  {
    FuzzyNoMatch(query, candidates, isProduct, lower);
    forall c <- candidates ensures Unrelated(query, c.name, lower) <==> MatchScore(query, c.name, lower) < MinSuggestionScore {
      UnrelatedIsBelow(query, c.name, lower);
    }
  }

  /** When it resolves, it names the one candidate that reads as the query, with confidence 1. */
  lemma FallbackResolves(query: string, candidates: seq<Candidate>, isProduct: bool, lower: string -> string)
    requires DistinctIds(candidates) && BuildFuzzy(query, candidates, isProduct, lower).status == Resolved
    ensures
      var r := BuildFuzzy(query, candidates, isProduct, lower);
      && r.recommendation.None? && |r.candidates| == 1 && r.candidates[0].confidence == 1.0
      && exists c <- candidates ::
           && c.id == r.candidates[0].id && c.name == r.candidates[0].name
           && lower(Trim(c.name)) == lower(Trim(query))
  {
    ExactAreExact(query, candidates, lower);
    var exact := ExactOnes(query, RankedMatches(Plausible(query, candidates, lower)), lower);
    assert exact[0] in exact;
  }

  /** A catalogue row with its own score, at or above the floor. */
  predicate Suggestion(m: Match, query: string, candidates: seq<Candidate>, lower: string -> string) {
    && m.confidence >= 0.2
    && exists c <- candidates :: c.id == m.id && c.name == m.name && m.confidence == MatchScore(query, c.name, lower)
  }

  lemma PrefixShown(query: string, candidates: seq<Candidate>, scored: seq<Match>, lower: string -> string)
    requires Descending(Confidence, scored)
    requires forall m <- scored :: exists c <- candidates :: m == ScoredMatch(query, c, lower) && m.confidence >= MinSuggestionScore
    ensures
      var shown := if |scored| > 3 then scored[..3] else scored;
      && (forall m <- shown :: Suggestion(m, query, candidates, lower))
      && (forall i, j :: 0 <= i < j < |shown| ==> shown[i].confidence >= shown[j].confidence)
  {
    forall i, j | 0 <= i < j < |scored| ensures scored[i].confidence >= scored[j].confidence {
      assert Confidence(scored[i]) >= Confidence(scored[j]);
    }
    forall m <- scored ensures Suggestion(m, query, candidates, lower) {
      var c :| c in candidates && m == ScoredMatch(query, c, lower);
    }
  }

  lemma UnresolvedShows(query: string, candidates: seq<Candidate>, isProduct: bool, lower: string -> string)
    requires BuildFuzzy(query, candidates, isProduct, lower).status == Unresolved
    ensures
      var scored := RankedMatches(Plausible(query, candidates, lower));
      && scored != []
      && BuildFuzzy(query, candidates, isProduct, lower) ==
           MatchResult(Unresolved, if |scored| > 3 then scored[..3] else scored, None)
  {
  }

  /** When it does not, it shows catalogue rows with their own scores, best first. */
  lemma FallbackSuggests(query: string, candidates: seq<Candidate>, isProduct: bool, lower: string -> string)
    requires BuildFuzzy(query, candidates, isProduct, lower).status == Unresolved
    ensures
      var r := BuildFuzzy(query, candidates, isProduct, lower);
      && r.recommendation.None? && 1 <= |r.candidates| <= 3
      && (forall m <- r.candidates :: Suggestion(m, query, candidates, lower))
      && (forall i, j :: 0 <= i < j < |r.candidates| ==> r.candidates[i].confidence >= r.candidates[j].confidence)
  {
    var scored := RankedMatches(Plausible(query, candidates, lower));
    UnresolvedShows(query, candidates, isProduct, lower);
    RankedPlausible(query, candidates, lower);
    PrefixShown(query, candidates, scored, lower);
  }
}
