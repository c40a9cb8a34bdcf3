/**
 * The `/search` route of backend/server.py: language fallback, per-language
 * weights, the en → es → hi accumulation of hits, the stable descending sort
 * by score and the cut to the first twelve.
 *
 * `list.sort(key=..., reverse=True)` is Python's library sort; it is stable
 * (equal keys keep their order even with `reverse=True`), and it is modelled
 * here by the value function `SortByScoreDesc`, an insertion sort with that
 * guarantee proved.
 */
module Search {
  import opened Wrappers
  import opened Languages
  import opened Ranking

  /** The JSON body of a successful `/search` response. */
  datatype SearchResponse = SearchResponse(queryDetectedLang: Lang, results: seq<Hit>)

  /** An HTTP error reply. */
  datatype HttpError = HttpError(status: nat, message: string)

  /** Semantic weight for the query's own language (backend/server.py:152). */
  const PrimaryAlpha: real := 0.6
  /** Semantic weight for the other languages: keyword scores are ignored there (backend/server.py:152). */
  const OtherAlpha: real := 1.0
  /** At most this many results are returned (backend/server.py:160). */
  const MaxResults: nat := 12

  // ---------------------------------------------------------------------------
  // Stable descending sort by score
  // ---------------------------------------------------------------------------

  /** Scores never increase along the sequence. */
  predicate SortedDesc(s: seq<Hit>)
  {
    forall i, j :: 0 <= i < j < |s| ==> s[i].score >= s[j].score
  }

  /** The hits whose score is exactly `v`, in their order in `s`. */
  function WithScore(s: seq<Hit>, v: real): seq<Hit>
  {
    if s == [] then [] else (if s[0].score == v then [s[0]] else []) + WithScore(s[1..], v)
  }

  /**
   * Inserts `h` into `s` just before the first element whose score is not
   * above `h`'s, so that `h` precedes the hits of equal score already in `s`.
   */
  function Insert(h: Hit, s: seq<Hit>): (r: seq<Hit>)
    ensures |r| == |s| + 1
    ensures multiset(r) == multiset(s) + multiset{h}
  {
    if s == [] || s[0].score <= h.score then [h] + s
    else
      assert s == [s[0]] + s[1..];
      [s[0]] + Insert(h, s[1..])
  }

  /** Inserting into a descending sequence keeps it descending. */
  lemma {:induction false} InsertSorted(h: Hit, s: seq<Hit>)
    requires SortedDesc(s)
    ensures SortedDesc(Insert(h, s))
    decreases |s|
  {
    if s == [] || s[0].score <= h.score {
      var r := [h] + s;
      forall i, j | 0 <= i < j < |r| ensures r[i].score >= r[j].score {
        if i == 0 && j > 1 { assert s[0].score >= s[j - 1].score; }
      }
    } else {
      var rest := Insert(h, s[1..]);
      InsertSorted(h, s[1..]);
      var r := [s[0]] + rest;
      assert Insert(h, s) == r;
      forall x | x in rest ensures s[0].score >= x.score {
        assert x in multiset(rest);
        if x != h {
          assert x in multiset(s[1..]);
          var j :| 0 <= j < |s[1..]| && s[1..][j] == x;
          assert s[j + 1] == x;
        }
      }
      forall i, j | 0 <= i < j < |r| ensures r[i].score >= r[j].score {
        if i == 0 { assert rest[j - 1] in rest; }
      }
    }
  }

  /** Sorts hits by score, highest first, keeping hits of equal score in their original order. */
  function SortByScoreDesc(s: seq<Hit>): (r: seq<Hit>)
    ensures |r| == |s|
    ensures multiset(r) == multiset(s)
    ensures SortedDesc(r)
  {
    if s == [] then []
    else
      var rest := SortByScoreDesc(s[1..]);
      assert s == [s[0]] + s[1..];
      InsertSorted(s[0], rest);
      Insert(s[0], rest)
  }

  lemma WithScoreCons(h: Hit, s: seq<Hit>, v: real)
    ensures WithScore([h] + s, v) == (if h.score == v then [h] else []) + WithScore(s, v)
  {
    assert ([h] + s)[1..] == s;
  }

  lemma {:induction false} InsertWithScore(h: Hit, s: seq<Hit>, v: real)
    ensures WithScore(Insert(h, s), v) == (if h.score == v then [h] else []) + WithScore(s, v)
    decreases |s|
  {
    if s == [] || s[0].score <= h.score {
      WithScoreCons(h, s, v);
    } else {
      var rest := Insert(h, s[1..]);
      var first := if s[0].score == v then [s[0]] else [];
      var mine := if h.score == v then [h] else [];
      assert first == [] || mine == [];
      calc {
        WithScore(Insert(h, s), v);
        { assert Insert(h, s) == [s[0]] + rest; }
        WithScore([s[0]] + rest, v);
        { WithScoreCons(s[0], rest, v); }
        first + WithScore(rest, v);
        { InsertWithScore(h, s[1..], v); }
        first + (mine + WithScore(s[1..], v));
        mine + (first + WithScore(s[1..], v));
        mine + WithScore(s, v);
      }
    }
  }

  /**
   * The sort is stable: for every score value, the hits with that score come
   * out in the order they went in.
   */
  lemma {:induction false} SortStable(s: seq<Hit>, v: real)
    ensures WithScore(SortByScoreDesc(s), v) == WithScore(s, v)
  {
    if s != [] {
      SortStable(s[1..], v);
      InsertWithScore(s[0], SortByScoreDesc(s[1..]), v);
    }
  }

  /** Filtering by score commutes with taking a prefix: the prefix's hits of score `v` lead those of `s`. */
  lemma {:induction false} WithScorePrefix(s: seq<Hit>, n: nat, v: real)
    requires n <= |s|
    ensures WithScore(s[..n], v) <= WithScore(s, v)
  {
    if n > 0 {
      WithScorePrefix(s[1..], n - 1, v);
      assert s[..n][1..] == s[1..][..n - 1];
    }
  }

  // ---------------------------------------------------------------------------
  // The search route
  // ---------------------------------------------------------------------------

  /** Python's `s[:n]`: the first `n` hits, or all of them when there are fewer. */
  function Take(s: seq<Hit>, n: nat): (r: seq<Hit>)
    ensures |r| == if |s| <= n then |s| else n
    ensures r <= s
  {
    if |s| <= n then s else s[..n]
  }

  /**
   * The language whose corpus is searched with the hybrid weight: the
   * detector's answer when it is one of the three corpora, English when it
   * names another language or detection raised (`None`).
   */
  function PrimaryLang(detected: Option<string>): (p: Lang)
    ensures p == Es <==> detected == Some("es")
    ensures p == Hi <==> detected == Some("hi")
    ensures p == En <==> detected != Some("es") && detected != Some("hi")
  {
    match detected
    case Some(code) =>
      if code == "en" then En else if code == "es" then Es else if code == "hi" then Hi else En
    case None => En
  }

  /** `current_alpha`: 0.6 for the primary language, 1.0 for the others. */
  function AlphaFor(target: Lang, primary: Lang): (a: real)
    ensures 0.0 < a <= 1.0
    ensures a == OtherAlpha <==> target != primary
  {
    if target == primary then PrimaryAlpha else OtherAlpha
  }

  /** The primary language is searched with weight 0.6, the others with 1.0. */
  lemma AlphaForValue(target: Lang, primary: Lang)
    ensures target == primary ==> AlphaFor(target, primary) == PrimaryAlpha
    ensures target != primary ==> AlphaFor(target, primary) == OtherAlpha
  {
  }

  /** The result list `hybrid_search` gives for each of the three languages. */
  datatype LangHits = LangHits(en: seq<Hit>, es: seq<Hit>, hi: seq<Hit>)
  {
    function Of(lang: Lang): seq<Hit>
    {
      match lang
      case En => en
      case Es => es
      case Hi => hi
    }
  }

  /** Each language's hits for a query whose language is `primary`. */
  function HitsPerLang(primary: Lang, corpora: Corpora): (per: LangHits)
    requires corpora.Valid()
  {
    LangHits(HybridHits(En, corpora.en, AlphaFor(En, primary)),
             HybridHits(Es, corpora.es, AlphaFor(Es, primary)),
             HybridHits(Hi, corpora.hi, AlphaFor(Hi, primary)))
  }

  /** The hits of language `t` are what `hybrid_search(query, t, current_alpha)` returns. */
  lemma HitsPerLangOf(primary: Lang, corpora: Corpora, t: Lang)
    requires corpora.Valid()
    ensures HitsPerLang(primary, corpora).Of(t) == HybridHits(t, corpora.Of(t), AlphaFor(t, primary))
  {
  }

  /** Each language's list holds only hits of that language. */
  lemma HitsPerLangLang(primary: Lang, corpora: Corpora)
    requires corpora.Valid()
    ensures forall t, h :: h in HitsPerLang(primary, corpora).Of(t) ==> h.lang == t
  {
    forall t, h | h in HitsPerLang(primary, corpora).Of(t)
      ensures h.lang == t
    {
      HitScoredIn(primary, corpora, t, h);
    }
  }

  /** A hit in language t's list carries t, passed the threshold and was scored with t's weight. */
  lemma HitScoredIn(primary: Lang, corpora: Corpora, t: Lang, h: Hit)
    requires corpora.Valid() && h in HitsPerLang(primary, corpora).Of(t)
    ensures h.lang == t && h.score >= Threshold && WeightedBy(h, AlphaFor(t, primary))
  {
    HitsPerLangOf(primary, corpora, t);
    HitScored(t, corpora.Of(t), AlphaFor(t, primary), h);
  }

  lemma HitScored(lang: Lang, c: Scored, alpha: real, h: Hit)
    requires c.Valid() && h in HybridHits(lang, c, alpha)
    ensures h.lang == lang && h.score >= Threshold && WeightedBy(h, alpha)
  {
    var hits := HybridHits(lang, c, alpha);
    var k :| 0 <= k < |hits| && hits[k] == h;
  }

  /** `all_results` after the loop has visited `targets`, in that order. */
  function Accumulated(targets: seq<Lang>, per: LangHits): seq<Hit>
  {
    if targets == [] then []
    else
      var last := targets[|targets| - 1];
      Accumulated(targets[..|targets| - 1], per) + per.Of(last)
  }

  /**
   * Nothing else is accumulated: when each language's list holds only hits
   * of that language, every accumulated hit belongs to a visited language
   * and comes from that language's list.
   */
  lemma {:induction false} AccumulatedSound(targets: seq<Lang>, per: LangHits)
    requires forall t, h :: h in per.Of(t) ==> h.lang == t
    ensures forall h :: h in Accumulated(targets, per) ==> h.lang in targets && h in per.Of(h.lang)
  {
    if targets != [] {
      var last, init := targets[|targets| - 1], targets[..|targets| - 1];
      AccumulatedSound(init, per);
      assert Accumulated(targets, per) == Accumulated(init, per) + per.Of(last);
      forall h | h in Accumulated(targets, per)
        ensures h.lang in targets && h in per.Of(h.lang)
      {
        if h !in per.Of(last) {
          var k :| 0 <= k < |init| && init[k] == h.lang;
          assert targets[k] == h.lang;
        }
      }
    }
  }

  /** Every hit of every visited language is kept. */
  lemma {:induction false} AccumulatedComplete(targets: seq<Lang>, per: LangHits, t: Lang, h: Hit)
    requires t in targets && h in per.Of(t)
    ensures h in Accumulated(targets, per)
  {
    var last, init := targets[|targets| - 1], targets[..|targets| - 1];
    assert Accumulated(targets, per) == Accumulated(init, per) + per.Of(last);
    if t != last {
      var k :| 0 <= k < |targets| && targets[k] == t;
      assert init[k] == t;
      AccumulatedComplete(init, per, t, h);
    }
  }

  /** One more iteration of the loop appends the next language's hits. */
  lemma AccumulatedStep(targets: seq<Lang>, per: LangHits, i: nat)
    requires i < |targets|
    ensures Accumulated(targets[..i + 1], per) == Accumulated(targets[..i], per) + per.Of(targets[i])
  {
    assert targets[..i + 1][..i] == targets[..i];
  }

  /** Three languages visited in turn: the accumulated hits are their three lists in that order. */
  lemma AccumulatedThree(targets: seq<Lang>, per: LangHits)
    requires |targets| == 3
    ensures Accumulated(targets, per) == per.Of(targets[0]) + per.Of(targets[1]) + per.Of(targets[2])
  {
    var two, one := targets[..2], targets[..1];
    assert two[..1] == one && one[..0] == [];
    assert Accumulated(one, per) == [] + per.Of(targets[0]);
    assert Accumulated(two, per) == Accumulated(one, per) + per.Of(targets[1]);
  }

  /** The languages are visited en, es, hi: the accumulated hits are the English, Spanish and Hindi lists in that order. */
  lemma AccumulatedInOrder(per: LangHits)
    ensures Accumulated(TargetLangs, per) == per.en + per.es + per.hi
  {
    AccumulatedThree(TargetLangs, per);
  }

  /** What the route answers for the query parameter `q` (absent is the same as empty). */
  function SearchResult(q: Option<string>, detected: Option<string>, corpora: Corpora)
    : (r: Result<SearchResponse, HttpError>)
    requires corpora.Valid()
    ensures r.Failure? <==> q == None || q == Some("")
    ensures r.Failure? ==> r.error == HttpError(400, "Empty query")
    ensures r.Success? ==> r.value.queryDetectedLang == PrimaryLang(detected)
  {
    if q == None || q == Some("") then Failure(HttpError(400, "Empty query"))
    else
      var primary := PrimaryLang(detected);
      var all := Accumulated(TargetLangs, HitsPerLang(primary, corpora));
      Success(SearchResponse(primary, Take(SortByScoreDesc(all), MaxResults)))
  }

  /** `search()` (backend/server.py:135-165), with the detector's answer and the scorers' outputs as inputs. */
  method SearchRoute(q: Option<string>, detected: Option<string>, corpora: Corpora)
    returns (r: Result<SearchResponse, HttpError>)
    requires corpora.Valid()
    ensures r == SearchResult(q, detected, corpora)
  {
    var query := match q case Some(s) => s case None => "";
    if query == "" {
      return Failure(HttpError(400, "Empty query"));
    }
    var primary := PrimaryLang(detected);
    ghost var per := HitsPerLang(primary, corpora);
    var allResults: seq<Hit> := [];
    for i := 0 to |TargetLangs|
      invariant allResults == Accumulated(TargetLangs[..i], per)
    {
      var target := TargetLangs[i];
      var alpha := AlphaFor(target, primary);
      var hits := HybridSearch(target, corpora.Of(target), alpha);
      HitsPerLangOf(primary, corpora, target);
      AccumulatedStep(TargetLangs, per, i);
      allResults := allResults + hits;
    }
    assert TargetLangs[..|TargetLangs|] == TargetLangs;
    allResults := SortByScoreDesc(allResults);
    var limited := Take(allResults, MaxResults);
    return Success(SearchResponse(primary, limited));
  }

  // ---------------------------------------------------------------------------
  // What the route guarantees
  // ---------------------------------------------------------------------------

  /** The body of a successful answer: the first twelve of the stable descending sort. */
  function TopResults(all: seq<Hit>): seq<Hit>
  {
    Take(SortByScoreDesc(all), MaxResults)
  }

  /** A non-empty query is answered with the primary language and the top results of the accumulated hits. */
  lemma SearchAnswer(q: Option<string>, detected: Option<string>, corpora: Corpora)
    requires corpora.Valid()
    requires q != None && q != Some("")
    ensures SearchResult(q, detected, corpora) ==
      Success(SearchResponse(PrimaryLang(detected),
                             TopResults(Accumulated(TargetLangs, HitsPerLang(PrimaryLang(detected), corpora)))))
  {
  }

  /**
   * The answer holds at most twelve hits, highest score first; it is the
   * first twelve of the stable sort of the accumulated hits, and all of them
   * when there are no more than twelve.
   */
  lemma TopRanked(all: seq<Hit>)
    ensures var res := TopResults(all);
      && |res| <= MaxResults
      && SortedDesc(res)
      && res <= SortByScoreDesc(all)
      && |res| == (if |all| <= MaxResults then |all| else MaxResults)
      && multiset(res) <= multiset(all)
      && (|all| <= MaxResults ==> multiset(res) == multiset(all))
  {
    var sorted := SortByScoreDesc(all);
    var res := TopResults(all);
    assert sorted == res + sorted[|res|..];
    assert multiset(sorted) == multiset(res) + multiset(sorted[|res|..]);
  }

  /** The cut keeps the best: every accumulated hit left out scores no higher than any hit returned. */
  lemma TopKeepsBest(all: seq<Hit>)
    ensures var res := TopResults(all);
      forall x: Hit, y: Hit :: x in multiset(all) - multiset(res) && y in res ==> x.score <= y.score
  {
    var sorted := SortByScoreDesc(all);
    var res := TopResults(all);
    var dropped := sorted[|res|..];
    assert sorted == res + dropped;
    assert multiset(all) - multiset(res) == multiset(dropped);
    forall x: Hit, y: Hit | x in multiset(all) - multiset(res) && y in res
      ensures x.score <= y.score
    {
      var i :| 0 <= i < |dropped| && dropped[i] == x;
      var j :| 0 <= j < |res| && res[j] == y;
      assert sorted[j] == y && sorted[|res| + i] == x;
    }
  }

  /**
   * Ties keep accumulation order: for every score value, the returned hits
   * with that score are the first accumulated hits with that score, in the
   * same order.
   */
  lemma TopTiesInOrder(all: seq<Hit>, v: real)
    ensures WithScore(TopResults(all), v) <= WithScore(all, v)
  {
    var sorted := SortByScoreDesc(all);
    var res := TopResults(all);
    SortStable(all, v);
    WithScorePrefix(sorted, |res|, v);
    assert res == sorted[..|res|];
  }

  /** A hit that passed the threshold and was scored with the weight of its language. */
  predicate ScoredFor(h: Hit, primary: Lang)
  {
    && h.score >= Threshold
    && 0.0 <= h.semanticScore <= 1.0 && 0.0 <= h.bm25Score <= 1.0
    && (h.lang == primary ==>
          h.score == PrimaryAlpha * h.semanticScore + (1.0 - PrimaryAlpha) * h.bm25Score)
    && (h.lang != primary ==> h.score == h.semanticScore)
  }

  /**
   * Every accumulated hit belongs to a visited language, passed the threshold
   * and was scored with 0.6/0.4 weighting in the primary language and by its
   * semantic score alone in the others.
   */
  lemma AccumulatedScoredFor(targets: seq<Lang>, primary: Lang, corpora: Corpora)
    requires corpora.Valid()
    ensures forall h :: h in Accumulated(targets, HitsPerLang(primary, corpora)) ==>
      h.lang in targets && ScoredFor(h, primary)
  {
    var per := HitsPerLang(primary, corpora);
    HitsPerLangLang(primary, corpora);
    AccumulatedSound(targets, per);
    forall h | h in Accumulated(targets, per)
      ensures h.lang in targets && ScoredFor(h, primary)
    {
      HitScoredIn(primary, corpora, h.lang, h);
      WeightedByConstant(h, AlphaFor(h.lang, primary));
    }
  }

  lemma WeightedByConstant(h: Hit, alpha: real)
    requires WeightedBy(h, alpha)
    ensures alpha == PrimaryAlpha ==>
      h.score == PrimaryAlpha * h.semanticScore + (1.0 - PrimaryAlpha) * h.bm25Score
    ensures alpha == OtherAlpha ==> h.score == h.semanticScore
  {
  }

  /**
   * Every returned hit passed the threshold; hits of the primary language
   * mix both scores with weight 0.6, and hits of the other languages score
   * exactly their normalised semantic score.
   */
  lemma SearchHitScores(q: Option<string>, detected: Option<string>, corpora: Corpora)
    requires corpora.Valid()
    ensures var r := SearchResult(q, detected, corpora);
      r.Success? ==> forall h :: h in r.value.results ==> ScoredFor(h, r.value.queryDetectedLang)
  {
    if q != None && q != Some("") {
      var primary := PrimaryLang(detected);
      var all := Accumulated(TargetLangs, HitsPerLang(primary, corpora));
      var res := TopResults(all);
      SearchAnswer(q, detected, corpora);
      TopRanked(all);
      AccumulatedScoredFor(TargetLangs, primary, corpora);
      forall h | h in res
        ensures ScoredFor(h, primary)
      {
        assert h in multiset(res);
      }
    }
  }

  /**
   * End to end: a successful answer ranks the en, es and hi hits together.
   * It holds at most twelve of them, highest score first and all of them when
   * there are no more than twelve; no hit left out scores above a returned
   * one; and hits of equal score come out in en, es, hi and document order.
   */
  lemma SearchRanking(q: Option<string>, detected: Option<string>, corpora: Corpora)
    requires corpora.Valid()
    ensures var r := SearchResult(q, detected, corpora);
      r.Success? ==>
        var p := r.value.queryDetectedLang;
        var per := HitsPerLang(p, corpora);
        var all := per.en + per.es + per.hi;
        var res := r.value.results;
        && |res| == (if |all| <= MaxResults then |all| else MaxResults)
        && SortedDesc(res)
        && multiset(res) <= multiset(all)
        && (|all| <= MaxResults ==> multiset(res) == multiset(all))
        && (forall x: Hit, y: Hit :: x in multiset(all) - multiset(res) && y in res ==> x.score <= y.score)
        && (forall v :: WithScore(res, v) <= WithScore(all, v))
  {
    if q != None && q != Some("") {
      var p := PrimaryLang(detected);
      var per := HitsPerLang(p, corpora);
      var all := Accumulated(TargetLangs, per);
      SearchAnswer(q, detected, corpora);
      AccumulatedInOrder(per);
      TopRanked(all);
      TopKeepsBest(all);
      forall v { TopTiesInOrder(all, v); }
    }
  }
}
