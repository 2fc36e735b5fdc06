/** Classifying a raw product name against the catalogue. The text score is an
    arbitrary number per candidate; the decision taken on it is what is modelled. */
module NameClassifier {
  import opened RankOrder

  datatype Thresholds = Thresholds(matchThreshold: real, ambiguousFloor: real, ambiguousGap: real)

  type Rules = t: Thresholds | t.ambiguousFloor <= t.matchThreshold && 0.0 < t.ambiguousGap
    witness Thresholds(80.0, 60.0, 8.0)

  /** The two modules keep their own copies of the constants. */
  const DocumentRules: Rules := Thresholds(80.0, 60.0, 8.0)
  const InsightsRules: Rules := Thresholds(80.0, 60.0, 8.0)

  datatype Scored = Scored(id: int, name: string, score: real)

  datatype Verdict =
    | NotFound
    | Ambiguous(confidence: real, candidates: seq<Scored>)
    | Matched(id: int, name: string, confidence: real)

  // ---- the ranking --------------------------------------------------------

  function ScoreOf(c: Scored): real {
    c.score
  }

  /** Best first; equal scores keep the catalogue's order. */
  function RankedNames(cs: seq<Scored>): seq<Scored> {
    Ranked(ScoreOf, cs)
  }

  predicate BestFirst(cs: seq<Scored>) {
    forall i, j :: 0 <= i < j < |cs| ==> cs[i].score >= cs[j].score
  }

  lemma RankedIsBestFirst(cs: seq<Scored>)
    ensures BestFirst(RankedNames(cs))
  {
    RankedDescends(ScoreOf, cs);
    var ranked := RankedNames(cs);
    forall i, j | 0 <= i < j < |ranked| ensures ranked[i].score >= ranked[j].score {
      assert ScoreOf(ranked[i]) >= ScoreOf(ranked[j]);
    }
  }

  // ---- _classify_fuzzy_match() and _classify_product_name_match() ---------

  predicate CloseRunnerUp(ranked: seq<Scored>, rules: Rules) {
    && |ranked| > 1
    && ranked[1].score >= rules.matchThreshold
    && ranked[0].score - ranked[1].score < rules.ambiguousGap
  }

  /** The decision on a ranked list. */
  function Decide(ranked: seq<Scored>, rules: Rules): Verdict
    requires ranked != []
  {
    var top := ranked[0];
    if top.score < rules.ambiguousFloor then NotFound
    else if top.score >= rules.matchThreshold && !CloseRunnerUp(ranked, rules) then Matched(top.id, top.name, top.score)
    else Ambiguous(top.score, if |ranked| > 3 then ranked[..3] else ranked)
  }

  function Classify(cs: seq<Scored>, rules: Rules): Verdict {
    if cs == [] then NotFound else Decide(RankedNames(cs), rules)
  }

  /** `c` is good enough, and every other candidate is either no match by itself or
      trails it by the full gap. Stated on the catalogue as a bag: order plays no part. */
  predicate StandsOut(c: Scored, cs: multiset<Scored>, rules: Rules) {
    && c in cs && c.score >= rules.matchThreshold
    && forall d <- cs - multiset{c} :: d.score < rules.matchThreshold || d.score + rules.ambiguousGap <= c.score
  }

  predicate TopScore(score: real, cs: multiset<Scored>) {
    (exists c <- cs :: c.score == score) && forall c <- cs :: c.score <= score
  }

  lemma RankedTop(cs: seq<Scored>)
    requires cs != []
    ensures TopScore(RankedNames(cs)[0].score, multiset(cs))
  {
    RankedIsBestFirst(cs);
    var ranked := RankedNames(cs);
    assert ranked[0] in multiset(ranked);
    forall c <- multiset(cs) ensures c.score <= ranked[0].score {
      assert c in multiset(ranked);
      var i :| 0 <= i < |ranked| && ranked[i] == c;
    }
  }

  lemma OthersThanTop(cs: seq<Scored>)
    requires cs != []
    ensures multiset(cs) - multiset{RankedNames(cs)[0]} == multiset(RankedNames(cs)[1..])
    ensures RankedNames(cs)[0] in multiset(cs)
  {
    var ranked := RankedNames(cs);
    assert ranked == [ranked[0]] + ranked[1..];
    assert ranked[0] in multiset(ranked);
  }

  lemma RestTrails(ranked: seq<Scored>, rules: Rules)
    requires BestFirst(ranked) && ranked != []
    ensures !CloseRunnerUp(ranked, rules) <==>
      forall d <- multiset(ranked[1..]) :: d.score < rules.matchThreshold || d.score + rules.ambiguousGap <= ranked[0].score
  {
    if CloseRunnerUp(ranked, rules) {
      assert ranked[1..][0] == ranked[1];
      assert ranked[1] in multiset(ranked[1..]);
    } else {
      forall d <- multiset(ranked[1..])
        ensures d.score < rules.matchThreshold || d.score + rules.ambiguousGap <= ranked[0].score
      {
        var i :| 0 <= i < |ranked[1..]| && ranked[1..][i] == d;
        assert d == ranked[i + 1];
      }
    }
  }

  lemma TopStandsOut(cs: seq<Scored>, rules: Rules)
    requires cs != [] && RankedNames(cs)[0].score >= rules.matchThreshold
    ensures StandsOut(RankedNames(cs)[0], multiset(cs), rules) <==> !CloseRunnerUp(RankedNames(cs), rules)
  {
    RankedIsBestFirst(cs);
    OthersThanTop(cs);
    RestTrails(RankedNames(cs), rules);
  }

  lemma OthersTrail(c: Scored, d: Scored, cs: multiset<Scored>, rules: Rules)
    requires StandsOut(c, cs, rules) && d in cs && d != c
    ensures d.score < rules.matchThreshold || d.score + rules.ambiguousGap <= c.score
  {
    assert d in cs - multiset{c};
  }

  /** Only one candidate can stand out, and only once. */
  lemma StandsOutAlone(a: Scored, b: Scored, cs: multiset<Scored>, rules: Rules)
    requires StandsOut(a, cs, rules) && StandsOut(b, cs, rules)
    ensures a == b && cs[a] == 1
  {
    if a != b {
      OthersTrail(a, b, cs, rules);
      OthersTrail(b, a, cs, rules);
    }
    assert a !in cs - multiset{a};
  }

  /** MATCHED means exactly that one candidate stands out, and names it. */
  lemma MatchedMeans(cs: seq<Scored>, c: Scored, rules: Rules)
    requires StandsOut(c, multiset(cs), rules)
    ensures Classify(cs, rules) == Matched(c.id, c.name, c.score)
  {
    var top := RankedNames(cs)[0];
    RankedTop(cs);
    TopStandsOut(cs, rules);
    OthersThanTop(cs);
    assert c.score <= top.score;
    if top != c {
      OthersTrail(c, top, multiset(cs), rules);
    }
  }

  lemma MatchedOnlyIf(cs: seq<Scored>, rules: Rules)
    ensures Classify(cs, rules).Matched? ==>
      exists c <- multiset(cs) :: StandsOut(c, multiset(cs), rules) && Classify(cs, rules) == Matched(c.id, c.name, c.score)
    ensures Classify(cs, rules).NotFound? <==> forall c <- multiset(cs) :: c.score < rules.ambiguousFloor
    ensures Classify(cs, rules).Ambiguous? ==> TopScore(Classify(cs, rules).confidence, multiset(cs))
  {
    if cs != [] {
      RankedTop(cs);
      var top := RankedNames(cs)[0];
      assert top in multiset(RankedNames(cs));
      if top.score >= rules.matchThreshold {
        TopStandsOut(cs, rules);
      }
    } else {
      assert forall c :: c !in multiset(cs);
    }
  }

  /** A matched score beats every other candidate's strictly. */
  lemma MatchIsStrictBest(cs: seq<Scored>, i: nat, rules: Rules)
    requires Classify(cs, rules).Matched? && i < |cs|
    ensures cs[i].score <= Classify(cs, rules).confidence
    ensures cs[i].score == Classify(cs, rules).confidence ==>
      cs[i].id == Classify(cs, rules).id && forall j :: 0 <= j < |cs| && j != i ==> cs[j].score < cs[i].score
  {
    MatchedOnlyIf(cs, rules);
    var c :| c in multiset(cs) && StandsOut(c, multiset(cs), rules) && Classify(cs, rules) == Matched(c.id, c.name, c.score);
    assert cs[i] in multiset(cs);
    forall j | 0 <= j < |cs| ensures cs[j] == c || cs[j].score < c.score {
      assert cs[j] in multiset(cs);
      if cs[j] != c {
        OthersTrail(c, cs[j], multiset(cs), rules);
      }
    }
    if cs[i].score == c.score {
      StandsOutAlone(c, c, multiset(cs), rules);
      forall j | 0 <= j < |cs| && j != i ensures cs[j] != c {
        TwiceInBag(cs, i, j);
      }
    }
  }

  lemma TwiceInBag(cs: seq<Scored>, i: nat, j: nat)
    requires i < |cs| && j < |cs| && i != j
    ensures cs[i] == cs[j] ==> multiset(cs)[cs[i]] >= 2
  {
    var a, b := if i < j then i else j, if i < j then j else i;
    assert cs == cs[..b] + [cs[b]] + cs[b + 1..];
    assert cs[..b][a] in multiset(cs[..b]);
  }

  /** An ambiguous answer shows three candidates, or all if there are fewer, best first,
      and none that is not shown scores higher. */
  lemma AmbiguousShows(cs: seq<Scored>, rules: Rules)
    requires Classify(cs, rules).Ambiguous?
    ensures
      var shown := Classify(cs, rules).candidates;
      && |shown| == (if |cs| > 3 then 3 else |cs|) && multiset(shown) <= multiset(cs)
      && (forall i, j :: 0 <= i < j < |shown| ==> shown[i].score >= shown[j].score)
      && (forall d <- multiset(cs) - multiset(shown), c <- shown :: d.score <= c.score)
  {
    var ranked := RankedNames(cs);
    RankedIsBestFirst(cs);
    if |ranked| > 3 {
      assert ranked == ranked[..3] + ranked[3..];
      forall d <- multiset(ranked[3..]), c <- ranked[..3] ensures d.score <= c.score {
        var j :| 0 <= j < |ranked[3..]| && ranked[3..][j] == d;
        var i :| 0 <= i < 3 && ranked[i] == c;
        assert ranked[j + 3] == d;
      }
    }
  }

  predicate SameAnswer(a: Verdict, b: Verdict) {
    match (a, b)
    case (NotFound, NotFound) => true
    case (Ambiguous(x, _), Ambiguous(y, _)) => x == y
    case (Matched(i, n, x), Matched(j, m, y)) => i == j && n == m && x == y
    case _ => false
  }

  lemma MatchCarriesOver(cs: seq<Scored>, ds: seq<Scored>, rules: Rules)
    requires multiset(cs) == multiset(ds) && Classify(cs, rules).Matched?
    ensures Classify(ds, rules) == Classify(cs, rules)
  {
    MatchedOnlyIf(cs, rules);
    var c :| c in multiset(cs) && StandsOut(c, multiset(cs), rules) && Classify(cs, rules) == Matched(c.id, c.name, c.score);
    MatchedMeans(ds, c, rules);
  }

  /** Every ordering of the catalogue gives the same status, id, name and confidence. */
  lemma OrderDoesNotMatter(cs: seq<Scored>, ds: seq<Scored>, rules: Rules)
    requires multiset(cs) == multiset(ds)
    ensures SameAnswer(Classify(cs, rules), Classify(ds, rules))
  {
    if Classify(cs, rules).Matched? {
      MatchCarriesOver(cs, ds, rules);
    } else if Classify(ds, rules).Matched? {
      MatchCarriesOver(ds, cs, rules);
    } else {
      MatchedOnlyIf(cs, rules);
      MatchedOnlyIf(ds, rules);
    }
  }

  /** In the document and insights tools that is: a match scores at least 80 and at least 8 more
      than any other candidate of 80 or more, and below 60 nothing is found. */
  lemma ThresholdsAre(cs: seq<Scored>, c: Scored)
    requires c in multiset(cs)
    ensures c.score >= 80.0 && (forall d <- multiset(cs) - multiset{c} :: d.score < 80.0 || c.score - d.score >= 8.0) ==>
      Classify(cs, DocumentRules) == Matched(c.id, c.name, c.score)
    ensures Classify(cs, DocumentRules).Matched? ==>
      exists m <- multiset(cs) ::
        && Classify(cs, DocumentRules) == Matched(m.id, m.name, m.score) && m.score >= 80.0
        && forall d <- multiset(cs) - multiset{m} :: d.score < 80.0 || m.score - d.score >= 8.0
    ensures Classify(cs, DocumentRules).NotFound? <==> forall d <- multiset(cs) :: d.score < 60.0
  {
    MatchedOnlyIf(cs, DocumentRules);
    if StandsOut(c, multiset(cs), DocumentRules) {
      MatchedMeans(cs, c, DocumentRules);
    }
  }

  // ---- two copies of one rule --------------------------------------------

  function Named(score: real): Scored {
    Scored(0, "", score)
  }

  function Pair(high: real, low: real): seq<Scored> {
    [Named(high), Named(low)]
  }

  function Lesser(a: real, b: real): real {
    if a < b then a else b
  }

  /** A name alone with the lesser of two floors, or of two thresholds, is decided differently. */
  lemma OneNameTells(a: Rules, b: Rules, score: real)
    requires
      || (a.ambiguousFloor != b.ambiguousFloor && score == Lesser(a.ambiguousFloor, b.ambiguousFloor))
      || (a.matchThreshold != b.matchThreshold && score == Lesser(a.matchThreshold, b.matchThreshold))
    ensures Decide([Named(score)], a) != Decide([Named(score)], b)
  {
  }

  /** So are two names the lesser of two gaps apart. */
  lemma TwoNamesTell(a: Rules, b: Rules, gap: real)
    requires a.matchThreshold == b.matchThreshold && a.ambiguousGap != b.ambiguousGap
    requires gap == Lesser(a.ambiguousGap, b.ambiguousGap)
    ensures Decide(Pair(a.matchThreshold + gap, a.matchThreshold), a) != Decide(Pair(a.matchThreshold + gap, a.matchThreshold), b)
  {
  }

  lemma RankedDecides(cs: seq<Scored>, a: Rules, b: Rules)
    requires cs != [] && BestFirst(cs) && Decide(cs, a) != Decide(cs, b)
    ensures Classify(cs, a) != Classify(cs, b)
  {
    RankedStays(ScoreOf, cs);
  }

  /** Whenever any of the constants differ, some catalogue of one or two names tells the rules apart. */
  lemma DifferentRulesDiffer(a: Rules, b: Rules) returns (cs: seq<Scored>)
    requires a != b
    ensures Classify(cs, a) != Classify(cs, b)
  {
    if a.ambiguousFloor != b.ambiguousFloor || a.matchThreshold != b.matchThreshold {
      var score := if a.ambiguousFloor != b.ambiguousFloor then Lesser(a.ambiguousFloor, b.ambiguousFloor)
                   else Lesser(a.matchThreshold, b.matchThreshold);
      OneNameTells(a, b, score);
      cs := [Named(score)];
    } else {
      var gap := Lesser(a.ambiguousGap, b.ambiguousGap);
      TwoNamesTell(a, b, gap);
      cs := Pair(a.matchThreshold + gap, a.matchThreshold);
    }
    RankedDecides(cs, a, b);
  }

  /** The document tools and the insights tools classify every name alike. Two copies
      do so exactly as long as all three constants agree. */
  lemma CopiesAgree(a: Rules, b: Rules)
    ensures (forall cs :: Classify(cs, a) == Classify(cs, b)) <==> a == b
    ensures forall cs :: Classify(cs, DocumentRules) == Classify(cs, InsightsRules)
  {
    if a != b {
      var cs := DifferentRulesDiffer(a, b);
    }
  }
}
