/**
 * Per-language hybrid scoring of the search service (`hybrid_search` in
 * backend/server.py): min–max normalised semantic and keyword scores fused
 * with weight alpha, a relevance threshold, and the result objects built for
 * the documents that pass it.
 *
 * The sentence-embedding cosine scores and the BM25 scores are produced by
 * foreign libraries; here they are inputs, one raw score per document.
 */
module Ranking {
  import opened Wrappers
  import opened Languages
  import opened Normalize

  /** Fused scores below this value are dropped (backend/server.py:114). */
  const Threshold: real := 0.2
  /** The title of a result whose document has none. */
  const NoTitle: string := "No Title"
  /** The url of a result whose document has none. */
  const NoUrl: string := "#"

  /** A stored document; `title` and `url` may be missing from the MongoDB record. */
  datatype Doc = Doc(title: Option<string>, text: string, url: Option<string>)

  /** One language's documents with the raw scores the two scorers gave each of them for the query. */
  datatype Scored = Scored(docs: seq<Doc>, semantic: seq<real>, bm25: seq<real>)
  {
    predicate Valid()
    {
      |semantic| == |docs| && |bm25| == |docs|
    }
  }

  /** The three scored corpora of one query. */
  datatype Corpora = Corpora(en: Scored, es: Scored, hi: Scored)
  {
    function Of(lang: Lang): Scored
    {
      match lang
      case En => en
      case Es => es
      case Hi => hi
    }

    predicate Valid()
    {
      en.Valid() && es.Valid() && hi.Valid()
    }
  }

  /** One result object as built by `hybrid_search`. */
  datatype Hit = Hit(lang: Lang, title: string, summary: string, url: string,
                     score: real, semanticScore: real, bm25Score: real)

  // ---------------------------------------------------------------------------
  // hybrid_search
  // ---------------------------------------------------------------------------

  /** `(alpha * norm_semantic) + ((1 - alpha) * norm_bm25)`, element by element. */
  function Fuse(alpha: real, sem: seq<real>, bm: seq<real>): (r: seq<real>)
    requires |sem| == |bm|
    ensures |r| == |sem|
  {
    seq(|sem|, i requires 0 <= i < |sem| => alpha * sem[i] + (1.0 - alpha) * bm[i])
  }

  /** A convex combination of scores in [0, 1] stays in [0, 1]. */
  lemma FuseInUnit(alpha: real, sem: seq<real>, bm: seq<real>)
    requires 0.0 <= alpha <= 1.0 && |sem| == |bm|
    requires forall i :: 0 <= i < |sem| ==> 0.0 <= sem[i] <= 1.0 && 0.0 <= bm[i] <= 1.0
    ensures forall i :: 0 <= i < |sem| ==> 0.0 <= Fuse(alpha, sem, bm)[i] <= 1.0
  {
    forall i | 0 <= i < |sem|
      ensures 0.0 <= Fuse(alpha, sem, bm)[i] <= 1.0
    {
      ConvexInUnit(alpha, sem[i], bm[i]);
    }
  }

  lemma ConvexInUnit(alpha: real, a: real, b: real)
    requires 0.0 <= alpha <= 1.0 && 0.0 <= a <= 1.0 && 0.0 <= b <= 1.0
    ensures 0.0 <= alpha * a + (1.0 - alpha) * b <= 1.0
  {
    assert 0.0 <= alpha * a <= alpha * 1.0;
    assert 0.0 <= (1.0 - alpha) * b <= (1.0 - alpha) * 1.0;
  }

  /**
   * The indices, in increasing order, of the scores that pass the threshold:
   * the documents the loop of `hybrid_search` does not skip.
   */
  function Kept(scores: seq<real>): (r: seq<nat>)
    ensures |r| <= |scores|
    ensures forall k :: 0 <= k < |r| ==> r[k] < |scores| && scores[r[k]] >= Threshold
    ensures forall k, l :: 0 <= k < l < |r| ==> r[k] < r[l]
    ensures forall i :: 0 <= i < |scores| && scores[i] >= Threshold ==> i in r
  {
    if scores == [] then []
    else
      var last := |scores| - 1;
      var before := Kept(scores[..last]);
      if scores[last] < Threshold then before else before + [last]
  }

  /**
   * The hit's score is the alpha-weighted sum of its two normalised scores,
   * each of which lies in [0, 1].
   */
  predicate WeightedBy(h: Hit, alpha: real)
  {
    && h.score == alpha * h.semanticScore + (1.0 - alpha) * h.bm25Score
    && 0.0 <= h.semanticScore <= 1.0 && 0.0 <= h.bm25Score <= 1.0
  }

  /** The result object for document `doc` with the given scores. */
  function MakeHit(lang: Lang, doc: Doc, score: real, semantic: real, bm25: real): (h: Hit)
    ensures h.lang == lang && h.summary == doc.text
    ensures h.title == (if doc.title.Some? then doc.title.value else NoTitle)
    ensures h.url == (if doc.url.Some? then doc.url.value else NoUrl)
    ensures h.score == score && h.semanticScore == semantic && h.bm25Score == bm25
  {
    Hit(lang,
        match doc.title case Some(t) => t case None => NoTitle,
        doc.text,
        match doc.url case Some(u) => u case None => NoUrl,
        score, semantic, bm25)
  }

  /** The result objects for the documents at `indices`, in that order. */
  function HitsAt(lang: Lang, docs: seq<Doc>, sem: seq<real>, bm: seq<real>, fused: seq<real>,
                  indices: seq<nat>): (r: seq<Hit>)
    requires |sem| == |docs| && |bm| == |docs| && |fused| == |docs|
    requires forall k :: 0 <= k < |indices| ==> indices[k] < |docs|
    ensures |r| == |indices|
  {
    seq(|indices|, k requires 0 <= k < |indices| =>
      MakeHit(lang, docs[indices[k]], fused[indices[k]], sem[indices[k]], bm[indices[k]]))
  }

  /**
   * What `hybrid_search(query, lang, alpha)` returns: nothing for an empty
   * corpus; otherwise one result per document whose fused score passes the
   * threshold, in document order.
   */
  function HybridHits(lang: Lang, c: Scored, alpha: real): (r: seq<Hit>)
    requires c.Valid()
    ensures c.docs == [] ==> r == []
    ensures |r| <= |c.docs|
    ensures forall k :: 0 <= k < |r| ==>
      && r[k].lang == lang
      && r[k].score >= Threshold
      && WeightedBy(r[k], alpha)
  {
    if c.docs == [] then []
    else
      var sem := NormalizeScores(c.semantic);
      var bm := NormalizeScores(c.bm25);
      var fused := Fuse(alpha, sem, bm);
      HitsAtScores(lang, c.docs, sem, bm, alpha, Kept(fused));
      HitsAt(lang, c.docs, sem, bm, fused, Kept(fused))
  }

  lemma HitsAtScores(lang: Lang, docs: seq<Doc>, sem: seq<real>, bm: seq<real>, alpha: real,
                     indices: seq<nat>)
    requires |sem| == |docs| && |bm| == |docs|
    requires forall i :: 0 <= i < |docs| ==> 0.0 <= sem[i] <= 1.0 && 0.0 <= bm[i] <= 1.0
    requires forall k :: 0 <= k < |indices| ==>
      indices[k] < |docs| && Fuse(alpha, sem, bm)[indices[k]] >= Threshold
    ensures var r := HitsAt(lang, docs, sem, bm, Fuse(alpha, sem, bm), indices);
      forall k :: 0 <= k < |r| ==>
        && r[k].lang == lang
        && r[k].score >= Threshold
        && WeightedBy(r[k], alpha)
  {
    var fused := Fuse(alpha, sem, bm);
    var r := HitsAt(lang, docs, sem, bm, fused, indices);
    forall k | 0 <= k < |r|
      ensures r[k].lang == lang && r[k].score >= Threshold
      ensures WeightedBy(r[k], alpha)
    {
      var i := indices[k];
      assert r[k] == MakeHit(lang, docs[i], fused[i], sem[i], bm[i]);
      assert fused[i] == alpha * sem[i] + (1.0 - alpha) * bm[i];
    }
  }

  /**
   * Results of a non-empty corpus correspond one to one, in order, to the
   * documents whose fused score is at least the threshold: the k-th result
   * is built from document `Kept(fused)[k]` with its normalised scores.
   */
  lemma HybridHitsExact(lang: Lang, c: Scored, alpha: real)
    requires c.Valid() && c.docs != []
    ensures var sem := NormalizeScores(c.semantic);
      var bm := NormalizeScores(c.bm25);
      var fused := Fuse(alpha, sem, bm);
      var idx := Kept(fused);
      var r := HybridHits(lang, c, alpha);
      && |r| == |idx|
      && (forall k :: 0 <= k < |r| ==>
            r[k].lang == lang
            && r[k].title == (if c.docs[idx[k]].title.Some? then c.docs[idx[k]].title.value else NoTitle)
            && r[k].url == (if c.docs[idx[k]].url.Some? then c.docs[idx[k]].url.value else NoUrl)
            && r[k].summary == c.docs[idx[k]].text
            && r[k].semanticScore == sem[idx[k]] && r[k].bm25Score == bm[idx[k]]
            && r[k].score == fused[idx[k]])
      && (forall i :: 0 <= i < |c.docs| ==> (fused[i] >= Threshold <==> i in idx))
  {
  }

  /** With alpha 1 (a non-primary language) the keyword score plays no part. */
  lemma HybridHitsSemanticOnly(lang: Lang, c: Scored)
    requires c.Valid()
    ensures forall k :: 0 <= k < |HybridHits(lang, c, 1.0)| ==>
      HybridHits(lang, c, 1.0)[k].score == HybridHits(lang, c, 1.0)[k].semanticScore
  {
  }

  /** The loop of `hybrid_search` (backend/server.py:92-132). */
  method HybridSearch(lang: Lang, c: Scored, alpha: real) returns (results: seq<Hit>)
    requires c.Valid()
    ensures results == HybridHits(lang, c, alpha)
  {
    if |c.docs| == 0 {
      return [];
    }
    var normSemantic := NormalizeScores(c.semantic);
    var normBm25 := NormalizeScores(c.bm25);
    var finalScores := Fuse(alpha, normSemantic, normBm25);
    results := [];
    var idx := 0;
    while idx < |finalScores|
      invariant 0 <= idx <= |finalScores|
      invariant results == HitsAt(lang, c.docs, normSemantic, normBm25, finalScores, Kept(finalScores[..idx]))
    {
      var score := finalScores[idx];
      HitsStep(lang, c.docs, normSemantic, normBm25, finalScores, idx);
      if score < Threshold {
        idx := idx + 1;
        continue;
      }
      var doc := c.docs[idx];
      results := results + [MakeHit(lang, doc, score, normSemantic[idx], normBm25[idx])];
      idx := idx + 1;
    }
    assert finalScores[..idx] == finalScores;
    HybridHitsUnfold(lang, c, alpha);
  }

  lemma HybridHitsUnfold(lang: Lang, c: Scored, alpha: real)
    requires c.Valid() && c.docs != []
    ensures var sem := NormalizeScores(c.semantic);
      var bm := NormalizeScores(c.bm25);
      var fused := Fuse(alpha, sem, bm);
      HybridHits(lang, c, alpha) == HitsAt(lang, c.docs, sem, bm, fused, Kept(fused))
  {
  }

  lemma KeptStep(scores: seq<real>, i: nat)
    requires i < |scores|
    ensures Kept(scores[..i + 1]) ==
      Kept(scores[..i]) + (if scores[i] < Threshold then [] else [i])
  {
    assert scores[..i + 1][..i] == scores[..i];
  }

  lemma HitsAtAppend(lang: Lang, docs: seq<Doc>, sem: seq<real>, bm: seq<real>, fused: seq<real>,
                     indices: seq<nat>, i: nat)
    requires |sem| == |docs| && |bm| == |docs| && |fused| == |docs|
    requires forall k :: 0 <= k < |indices| ==> indices[k] < |docs|
    requires i < |docs|
    ensures HitsAt(lang, docs, sem, bm, fused, indices + [i]) ==
      HitsAt(lang, docs, sem, bm, fused, indices) + [MakeHit(lang, docs[i], fused[i], sem[i], bm[i])]
  {
  }

  /** One iteration of the loop of `hybrid_search`: document `i` is appended iff it passes the threshold. */
  lemma HitsStep(lang: Lang, docs: seq<Doc>, sem: seq<real>, bm: seq<real>, fused: seq<real>, i: nat)
    requires |sem| == |docs| && |bm| == |docs| && |fused| == |docs|
    requires i < |docs|
    ensures HitsAt(lang, docs, sem, bm, fused, Kept(fused[..i + 1])) ==
      HitsAt(lang, docs, sem, bm, fused, Kept(fused[..i])) +
      (if fused[i] < Threshold then [] else [MakeHit(lang, docs[i], fused[i], sem[i], bm[i])])
  {
    KeptStep(fused, i);
    if fused[i] >= Threshold {
      HitsAtAppend(lang, docs, sem, bm, fused, Kept(fused[..i]), i);
    }
  }
}
