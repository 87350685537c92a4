/** Term weighting and similarity of the recommendation engine
    (utils/recommendations.js, `computeTF`, `computeIDF`, `computeTFIDF` and
    `cosineSimilarity`).

    A term vector is a map from term to weight; JavaScript numbers are exact
    reals here. `Math.log` and `Math.sqrt` are not modelled: they are passed in
    as the parameters `ln` and `sqrt`, so every statement below holds whatever
    the logarithm and the square root compute, except where a lemma names the
    property of `sqrt` it needs. Each JavaScript function that fills a
    dictionary in a loop is a method proved equal to a specification function. */
module Vectors {
  import opened Sums

  type Term = string
  type Vector = map<Term, real>

  /** The weight of a term in a vector, 0 for an absent term. */
  function Get(v: Vector, t: Term): real {
    if t in v then v[t] else 0.0
  }

  /** The weights of a vector as a total function, for summing over its keys. */
  ghost function Weights(v: Vector): Term -> real {
    t => Get(v, t)
  }

  // ===================================================================
  // Term frequency

  /** The length, or 1 for an empty sequence, so that it can divide (the
      `|| 1` fallback). */
  function LengthOrOne<T>(s: seq<T>): (n: nat)
    ensures n >= 1 && (s != [] ==> n == |s|)
  {
    if |s| == 0 then 1 else |s|
  }

  /** Each distinct token, weighted by its number of occurrences divided by the
      token count. */
  function TermFrequency(tokens: seq<Term>): (tf: Vector)
    ensures forall t :: t in tf <==> t in tokens
  {
    map t | t in tokens :: multiset(tokens)[t] as real / LengthOrOne(tokens) as real
  }

  /** `computeTF`: count every token, then divide every count by the token count. */
  method ComputeTF(tokens: seq<Term>) returns (tf: Vector)
    ensures tf == TermFrequency(tokens)
  {
    tf := map[];
    for i := 0 to |tokens|
      invariant forall t :: t in tf <==> t in tokens[..i]
      invariant forall t :: t in tf ==> tf[t] == multiset(tokens[..i])[t] as real
    {
      var t := tokens[i];
      tf := tf[t := Get(tf, t) + 1.0];
      assert tokens[..i + 1] == tokens[..i] + [t];
    }
    assert tokens[..|tokens|] == tokens;
    var len := if |tokens| == 0 then 1 else |tokens|;
    ghost var counts := tf;
    var rest := tf.Keys;
    while rest != {}
      invariant rest <= counts.Keys && tf.Keys == counts.Keys
      invariant forall t :: t in rest ==> tf[t] == counts[t]
      invariant forall t :: t in counts && t !in rest ==> tf[t] == counts[t] / len as real
      decreases rest
    {
      var t :| t in rest;
      tf := tf[t := tf[t] / len as real];
      rest := rest - {t};
    }
  }

  /** Arithmetic of a share `c / n` of a positive whole `n`. */
  lemma ShareBounds(c: real, n: real)
    requires 0.0 < c <= n
    ensures 0.0 < c / n <= 1.0
    ensures c / n * n == c
  {
  }

  /** Every term frequency lies in (0, 1], and times the token count it gives
      back the number of occurrences. */
  lemma TermFrequencyValues(tokens: seq<Term>, t: Term)
    requires t in tokens
    ensures 0.0 < TermFrequency(tokens)[t] <= 1.0
    ensures TermFrequency(tokens)[t] * |tokens| as real == multiset(tokens)[t] as real
  {
    var m := multiset(tokens);
    assert 1 <= m[t] <= |m|;
    ShareBounds(m[t] as real, |tokens| as real);
  }

  /** The number of occurrences of each term. */
  ghost function Counts(s: seq<Term>): Term -> real {
    t => multiset(s)[t] as real
  }

  /** The occurrence counts of the distinct terms add up to the length. */
  lemma {:induction false} CountsSum(s: seq<Term>)
    ensures Sum(Terms(s), Counts(s)) == |s| as real
    decreases |s|
  {
    if s == [] {
      assert Terms(s) == {};
    } else {
      var p, x := s[..|s| - 1], s[|s| - 1];
      assert s == p + [x];
      assert multiset(s) == multiset(p) + multiset{x};
      var keys := Terms(p);
      var fs, fp := Counts(s), Counts(p);
      CountsSum(p);
      if x in keys {
        assert Terms(s) == keys;
        calc {
          Sum(keys, fs);
          { SumPick(keys, fs, x); }
          fs(x) + Sum(keys - {x}, fs);
          { SumCongruent(keys - {x}, fs, fp); }
          fp(x) + 1.0 + Sum(keys - {x}, fp);
          { SumPick(keys, fp, x); }
          Sum(keys, fp) + 1.0;
        }
      } else {
        assert Terms(s) == keys + {x};
        calc {
          Sum(keys + {x}, fs);
          { SumAddOne(keys, fs, x); }
          Sum(keys, fs) + fs(x);
          { SumCongruent(keys, fs, fp); }
          Sum(keys, fp) + 1.0;
        }
      }
    }
  }

  /** The term frequencies of a non-empty document add up to 1. */
  lemma TermFrequencySum(tokens: seq<Term>)
    requires tokens != []
    ensures Sum(TermFrequency(tokens).Keys, Weights(TermFrequency(tokens))) == 1.0
  {
    var tf := TermFrequency(tokens);
    var n := |tokens| as real;
    var keys := Terms(tokens);
    assert tf.Keys == keys;
    forall t | t in keys
      ensures Weights(tf)(t) == Counts(tokens)(t) / n
    {
    }
    calc {
      Sum(keys, Weights(tf));
      { SumScale(keys, Counts(tokens), Weights(tf), n); }
      Sum(keys, Counts(tokens)) / n;
      { CountsSum(tokens); }
      n / n;
      { ShareBounds(n, n); }
      1.0;
    }
  }

  // ===================================================================
  // Inverse document frequency

  /** `new Set(doc)`: the distinct terms of a document. */
  function Terms(doc: seq<Term>): set<Term> {
    set t | t in doc
  }

  /** The terms that occur in some document. */
  function Vocabulary(docs: seq<seq<Term>>): set<Term>
    decreases |docs|
  {
    if docs == [] then {} else Vocabulary(docs[..|docs| - 1]) + Terms(docs[|docs| - 1])
  }

  /** The number of documents that contain the term, each document counted once. */
  function DocFreq(docs: seq<seq<Term>>, t: Term): nat
    decreases |docs|
  {
    if docs == [] then 0
    else DocFreq(docs[..|docs| - 1], t) + (if t in docs[|docs| - 1] then 1 else 0)
  }

  /** The vocabulary is the union of the documents' terms. */
  lemma {:induction false} VocabularyMembers(docs: seq<seq<Term>>, t: Term)
    ensures t in Vocabulary(docs) <==> exists i :: 0 <= i < |docs| && t in docs[i]
    decreases |docs|
  {
    if docs != [] {
      var n := |docs| - 1;
      VocabularyMembers(docs[..n], t);
      if i :| 0 <= i < n && t in docs[..n][i] {
        assert t in docs[i];
      }
      if i :| 0 <= i < |docs| && t in docs[i] {
        if i < n {
          assert t in docs[..n][i];
        }
      }
    }
  }

  /** A document's terms belong to the vocabulary. */
  lemma DocumentInVocabulary(docs: seq<seq<Term>>, i: int, t: Term)
    requires 0 <= i < |docs| && t in docs[i]
    ensures t in Vocabulary(docs)
  {
    VocabularyMembers(docs, t);
  }

  /** The indices of the documents that contain the term. */
  function DocsContaining(docs: seq<seq<Term>>, t: Term): set<int> {
    set i | 0 <= i < |docs| && t in docs[i]
  }

  /** Document frequency lies between 1 and the number of documents for a term
      of the vocabulary, and is 0 for any other term. */
  lemma {:induction false} DocFreqBounds(docs: seq<seq<Term>>, t: Term)
    ensures DocFreq(docs, t) <= |docs|
    ensures t in Vocabulary(docs) <==> DocFreq(docs, t) >= 1
    decreases |docs|
  {
    if docs != [] {
      DocFreqBounds(docs[..|docs| - 1], t);
    }
  }

  /** Document frequency is the number of documents containing the term,
      whatever the term's multiplicity inside each of them. */
  lemma {:induction false} DocFreqCounts(docs: seq<seq<Term>>, t: Term)
    ensures DocFreq(docs, t) == |DocsContaining(docs, t)|
    decreases |docs|
  {
    if docs != [] {
      var n := |docs| - 1;
      var prefix := docs[..n];
      DocFreqCounts(prefix, t);
      var before := DocsContaining(prefix, t);
      assert forall i :: 0 <= i < n ==> prefix[i] == docs[i];
      if t in docs[n] {
        assert DocsContaining(docs, t) == before + {n};
      } else {
        assert DocsContaining(docs, t) == before;
      }
    }
  }

  /** The weight of every term of the corpus: `log(totalDocs / (1 + df))`. */
  function Idf(docs: seq<seq<Term>>, ln: real -> real): (idf: Vector)
    ensures idf.Keys == Vocabulary(docs)
  {
    map t | t in Vocabulary(docs) :: ln(LengthOrOne(docs) as real / (1.0 + DocFreq(docs, t) as real))
  }

  /** Comparing a quotient with a bound is comparing the dividend with the
      bound times the divisor. */
  lemma QuotientCompare(a: real, c: real, b: real)
    requires c > 0.0
    ensures a / c < b <==> a < b * c
    ensures a / c == b <==> a == b * c
    ensures a / c <= b <==> a <= b * c
  {
    var q := a / c;
    assert q * c == a;
    if q < b {
      assert q * c < b * c;
    } else if q > b {
      assert q * c > b * c;
    }
  }

  /** Arithmetic of `n / (1 + df)` for a document frequency between 1 and n. */
  lemma RatioFacts(n: int, df: int)
    requires 1 <= df <= n
    ensures var r := n as real / (1.0 + df as real);
      && 0.0 < r <= n as real / 2.0
      && (r < 1.0 <==> df == n)
      && (r == 1.0 <==> df == n - 1)
  {
    var d := 1.0 + df as real;
    var nr := n as real;
    QuotientCompare(nr, d, 1.0);
    QuotientCompare(nr, d, nr / 2.0);
  }

  /** The argument of the logarithm for a term of the corpus is positive and at
      most half the number of documents; it is below 1 exactly for a term in
      every document and equal to 1 exactly for a term missing from one
      document. */
  lemma IdfRatio(docs: seq<seq<Term>>, t: Term)
    requires t in Vocabulary(docs)
    ensures var r := LengthOrOne(docs) as real / (1.0 + DocFreq(docs, t) as real);
      && 0.0 < r <= |docs| as real / 2.0
      && (r < 1.0 <==> DocFreq(docs, t) == |docs|)
      && (r == 1.0 <==> DocFreq(docs, t) == |docs| - 1)
  {
    DocFreqBounds(docs, t);
    RatioFacts(|docs|, DocFreq(docs, t));
  }

  /** Taking one more document of the corpus adds its terms to the vocabulary
      and one to the document frequency of each of them. */
  lemma PrefixStep(docs: seq<seq<Term>>, i: int)
    requires 0 <= i < |docs|
    ensures Vocabulary(docs[..i + 1]) == Vocabulary(docs[..i]) + Terms(docs[i])
    ensures forall t :: DocFreq(docs[..i + 1], t) == DocFreq(docs[..i], t) + (if t in Terms(docs[i]) then 1 else 0)
  {
    assert docs[..i + 1][..i] == docs[..i];
  }

  /** The document frequency of every term of the corpus. */
  function DocFreqs(docs: seq<seq<Term>>): (counts: Vector)
    ensures counts.Keys == Vocabulary(docs)
  {
    map t | t in Vocabulary(docs) :: DocFreq(docs, t) as real
  }

  /** The `forEach` over one document's distinct terms: each count goes up by
      one, a missing count starting from 0. */
  method CountOnce(counts: Vector, seen: set<Term>) returns (r: Vector)
    ensures r.Keys == counts.Keys + seen
    ensures forall t :: t in r ==> r[t] == Get(counts, t) + (if t in seen then 1.0 else 0.0)
  {
    r := counts;
    var rest := seen;
    ghost var done: set<Term> := {};
    while rest != {}
      invariant rest + done == seen && rest !! done
      invariant r.Keys == counts.Keys + done
      invariant forall t :: t in r ==> r[t] == Get(counts, t) + (if t in done then 1.0 else 0.0)
      decreases rest
    {
      var t :| t in rest;
      r := r[t := Get(r, t) + 1.0];
      rest, done := rest - {t}, done + {t};
    }
  }

  /** The counting loop of `computeIDF`: each document adds one to the count of
      each of its distinct terms. */
  method CountDocuments(documents: seq<seq<Term>>) returns (counts: Vector)
    ensures counts == DocFreqs(documents)
  {
    counts := map[];
    for i := 0 to |documents|
      invariant counts == DocFreqs(documents[..i])
    {
      var next := CountOnce(counts, Terms(documents[i]));
      PrefixStep(documents, i);
      forall t | t in next
        ensures next[t] == DocFreq(documents[..i + 1], t) as real
      {
        DocFreqBounds(documents[..i], t);
      }
      counts := next;
    }
    assert documents[..|documents|] == documents;
  }

  /** Every count turned into `log(totalDocs / (1 + count))`. */
  function Weigh(counts: Vector, totalDocs: nat, ln: real -> real): Vector
    requires forall t :: t in counts ==> counts[t] >= 0.0
  {
    map t | t in counts :: ln(totalDocs as real / (1.0 + counts[t]))
  }

  /** The inverse document frequencies are the weighed document frequencies. */
  lemma IdfWeighsDocFreqs(docs: seq<seq<Term>>, ln: real -> real)
    ensures forall t :: t in DocFreqs(docs) ==> DocFreqs(docs)[t] >= 0.0
    ensures Idf(docs, ln) == Weigh(DocFreqs(docs), LengthOrOne(docs), ln)
  {
    var counts := DocFreqs(docs);
    var w := Weigh(counts, LengthOrOne(docs), ln);
    assert Idf(docs, ln).Keys == w.Keys;
    forall t | t in w
      ensures w[t] == Idf(docs, ln)[t]
    {
      assert counts[t] == DocFreq(docs, t) as real;
    }
  }

  /** The weighting loop of `computeIDF`: every count becomes
      `log(totalDocs / (1 + count))`. */
  method WeighCounts(counts: Vector, totalDocs: nat, ln: real -> real) returns (idf: Vector)
    requires forall t :: t in counts ==> counts[t] >= 0.0
    ensures idf.Keys == counts.Keys
    ensures idf == Weigh(counts, totalDocs, ln)
  {
    idf := counts;
    var rest := counts.Keys;
    while rest != {}
      invariant rest <= counts.Keys && idf.Keys == counts.Keys
      invariant forall t :: t in rest ==> idf[t] == counts[t]
      invariant forall t :: t in counts && t !in rest ==> idf[t] == ln(totalDocs as real / (1.0 + counts[t]))
      decreases rest
    {
      var t :| t in rest;
      idf := idf[t := ln(totalDocs as real / (1.0 + idf[t]))];
      rest := rest - {t};
    }
  }

  /** `computeIDF`: count, for every term, the documents whose set of terms
      contains it; then turn every count into its weight. */
  method ComputeIDF(documents: seq<seq<Term>>, ln: real -> real) returns (idf: Vector)
    ensures idf == Idf(documents, ln)
  {
    var totalDocs := if |documents| == 0 then 1 else |documents|;
    var counts := CountDocuments(documents);
    IdfWeighsDocFreqs(documents, ln);
    idf := WeighCounts(counts, totalDocs, ln);
  }

  // ===================================================================
  // TF-IDF

  /** The product of term frequency and weight, for the terms whose weight is
      present and not zero (the test `if (idf[term])`). */
  function TfIdf(tf: Vector, idf: Vector): (r: Vector)
    ensures r.Keys <= tf.Keys * idf.Keys
    ensures forall t :: t in tf && t !in r ==> t !in idf || idf[t] == 0.0
    ensures forall t :: t in r ==> idf[t] != 0.0
  {
    map t | t in tf && t in idf && idf[t] != 0.0 :: tf[t] * idf[t]
  }

  /** `computeTFIDF` */
  method ComputeTFIDF(tf: Vector, idf: Vector) returns (tfidf: Vector)
    ensures tfidf == TfIdf(tf, idf)
  {
    tfidf := map[];
    var rest := tf.Keys;
    while rest != {}
      invariant rest <= tf.Keys
      invariant forall t :: t in tfidf <==> t in tf && t !in rest && t in idf && idf[t] != 0.0
      invariant forall t :: t in tfidf ==> tfidf[t] == tf[t] * idf[t]
      decreases rest
    {
      var t :| t in rest;
      if t in idf && idf[t] != 0.0 {
        tfidf := tfidf[t := tf[t] * idf[t]];
      }
      rest := rest - {t};
    }
    assert tfidf.Keys == TfIdf(tf, idf).Keys;
    assert forall t :: t in tfidf ==> tfidf[t] == TfIdf(tf, idf)[t];
  }

  /** The TF-IDF vector of a document of the corpus holds exactly the document's
      terms whose weight is not zero. */
  lemma DocumentVector(docs: seq<seq<Term>>, i: int, ln: real -> real, t: Term)
    requires 0 <= i < |docs|
    ensures var v := TfIdf(TermFrequency(docs[i]), Idf(docs, ln));
      t in v <==> t in docs[i] && ln(LengthOrOne(docs) as real / (1.0 + DocFreq(docs, t) as real)) != 0.0
  {
    var tf, idf := TermFrequency(docs[i]), Idf(docs, ln);
    TfIdfKeys(tf, idf, t);
    if t in docs[i] {
      DocumentInVocabulary(docs, i, t);
      IdfAt(docs, ln, t);
    }
  }

  lemma TfIdfKeys(tf: Vector, idf: Vector, t: Term)
    ensures t in TfIdf(tf, idf) <==> t in tf && t in idf && idf[t] != 0.0
  {
  }

  lemma IdfAt(docs: seq<seq<Term>>, ln: real -> real, t: Term)
    requires t in Vocabulary(docs)
    ensures t in Idf(docs, ln)
    ensures Idf(docs, ln)[t] == ln(LengthOrOne(docs) as real / (1.0 + DocFreq(docs, t) as real))
  {
  }

  /** A term missing from exactly one document has weight `log(1)`; as that is
      0, the term is left out of every TF-IDF vector, although it occurs in the
      document. */
  lemma ZeroWeightDropped(docs: seq<seq<Term>>, i: int, ln: real -> real, t: Term)
    requires ln(1.0) == 0.0
    requires 0 <= i < |docs| && t in docs[i]
    requires DocFreq(docs, t) == |docs| - 1
    ensures t in TermFrequency(docs[i])
    ensures t !in TfIdf(TermFrequency(docs[i]), Idf(docs, ln))
  {
    DocumentInVocabulary(docs, i, t);
    IdfRatio(docs, t);
  }

  // ===================================================================
  // Cosine similarity

  /** The summand of `dot` for a term of the first vector: counted only when the
      second vector holds the term with a non-zero weight (`if (vecB[term])`). */
  ghost function Products(a: Vector, b: Vector): Term -> real {
    t => if t in a && t in b && b[t] != 0.0 then a[t] * b[t] else 0.0
  }

  /** The identity. A square is written `x * Id(x)` so that the solver keeps
      its two factors apart, which lets it use the sign of each. */
  function Id(x: real): real {
    x
  }

  /** `x * x` */
  function Sq(x: real): real {
    x * Id(x)
  }

  ghost function Squares(v: Vector): Term -> real {
    t => Sq(Get(v, t))
  }

  ghost function Dot(a: Vector, b: Vector): real {
    Sum(a.Keys, Products(a, b))
  }

  lemma SameSignProduct(a: real, b: real)
    requires a == b
    ensures a * b >= 0.0 && (a * b > 0.0 <==> a != 0.0)
  {
    if a < 0.0 {
      assert a * b == (-a) * (-b);
    }
  }

  /** A square is never negative, and positive exactly for a non-zero number. */
  lemma SquareSign(x: real)
    ensures Sq(x) >= 0.0 && (Sq(x) > 0.0 <==> x != 0.0)
  {
    SameSignProduct(x, Id(x));
  }

  lemma SquareOfKey(v: Vector, t: Term)
    requires t in v
    ensures Squares(v)(t) == v[t] * v[t]
  {
  }

  lemma ProductOfKey(a: Vector, b: Vector, t: Term)
    requires t in a
    ensures Products(a, b)(t) == if t in b && b[t] != 0.0 then a[t] * b[t] else 0.0
  {
  }

  /** The squared magnitude of a vector. */
  ghost function SquaredNorm(v: Vector): real {
    Sum(v.Keys, Squares(v))
  }

  /** The squared magnitude is never negative, and it is zero exactly when
      every weight is zero. */
  lemma SquaredNormSign(v: Vector)
    ensures SquaredNorm(v) >= 0.0
    ensures SquaredNorm(v) == 0.0 <==> forall t :: t in v ==> v[t] == 0.0
  {
    forall t | t in v.Keys
      ensures Squares(v)(t) >= 0.0 && (Squares(v)(t) > 0.0 <==> v[t] != 0.0)
    {
      SquareSign(v[t]);
    }
    SumNonNegative(v.Keys, Squares(v));
  }

  lemma SquaredNormNonNegative(v: Vector)
    ensures SquaredNorm(v) >= 0.0
  {
    SquaredNormSign(v);
  }

  lemma PositiveProduct(a: real, b: real)
    requires 0.0 < a && 0.0 < b
    ensures 0.0 < a * b
  {
  }

  /** What a square root must satisfy for the division to be defined. */
  ghost predicate PositiveRoot(sqrt: real -> real) {
    forall x :: 0.0 < x ==> 0.0 < sqrt(x)
  }

  /** The last step of `cosineSimilarity`: 0 when either magnitude is 0,
      otherwise the dot product over the product of the magnitudes. */
  function CosineOf(dot: real, magA: real, magB: real, sqrt: real -> real): (r: real)
    requires PositiveRoot(sqrt)
    requires magA >= 0.0 && magB >= 0.0
    ensures r == 0.0 <==> dot == 0.0 || magA == 0.0 || magB == 0.0
    ensures r > 0.0 <==> dot > 0.0 && magA > 0.0 && magB > 0.0
  {
    if magA == 0.0 || magB == 0.0 then 0.0
    else
      PositiveProduct(sqrt(magA), sqrt(magB));
      dot / (sqrt(magA) * sqrt(magB))
  }

  /** The cosine of the angle between two vectors, 0 when either has no
      magnitude. */
  ghost function Cosine(a: Vector, b: Vector, sqrt: real -> real): (r: real)
    requires PositiveRoot(sqrt)
    ensures r == 0.0 <==> Dot(a, b) == 0.0 || SquaredNorm(a) == 0.0 || SquaredNorm(b) == 0.0
    ensures r > 0.0 <==> Dot(a, b) > 0.0 && SquaredNorm(a) > 0.0 && SquaredNorm(b) > 0.0
  {
    SquaredNormNonNegative(a);
    SquaredNormNonNegative(b);
    CosineOf(Dot(a, b), SquaredNorm(a), SquaredNorm(b), sqrt)
  }

  /** The first loop of `cosineSimilarity`: over the terms of `vecA`, the dot
      product and the squared magnitude of `vecA`. */
  method DotAndMagnitude(vecA: Vector, vecB: Vector) returns (dot: real, magA: real)
    ensures dot == Dot(vecA, vecB) && magA == SquaredNorm(vecA)
  {
    dot, magA := 0.0, 0.0;
    var rest := vecA.Keys;
    ghost var done: set<Term> := {};
    while rest != {}
      invariant rest + done == vecA.Keys && rest !! done
      invariant dot == Sum(done, Products(vecA, vecB))
      invariant magA == Sum(done, Squares(vecA))
      decreases rest
    {
      var t :| t in rest;
      if t in vecB && vecB[t] != 0.0 {
        dot := dot + vecA[t] * vecB[t];
      }
      magA := magA + vecA[t] * vecA[t];
      SquareOfKey(vecA, t);
      ProductOfKey(vecA, vecB, t);
      SumAddOne(done, Products(vecA, vecB), t);
      SumAddOne(done, Squares(vecA), t);
      rest, done := rest - {t}, done + {t};
    }
  }

  /** The second loop of `cosineSimilarity`: the squared magnitude of `vecB`. */
  method Magnitude(vecB: Vector) returns (magB: real)
    ensures magB == SquaredNorm(vecB)
  {
    magB := 0.0;
    var rest := vecB.Keys;
    ghost var done: set<Term> := {};
    while rest != {}
      invariant rest + done == vecB.Keys && rest !! done
      invariant magB == Sum(done, Squares(vecB))
      decreases rest
    {
      var t :| t in rest;
      magB := magB + vecB[t] * vecB[t];
      SquareOfKey(vecB, t);
      SumAddOne(done, Squares(vecB), t);
      rest, done := rest - {t}, done + {t};
    }
  }

  /** `cosineSimilarity`: the dot product over the product of the magnitudes,
      or 0 when either magnitude is 0. */
  method CosineSimilarity(vecA: Vector, vecB: Vector, sqrt: real -> real) returns (score: real)
    requires PositiveRoot(sqrt)
    ensures score == Cosine(vecA, vecB, sqrt)
  {
    var dot, magA := DotAndMagnitude(vecA, vecB);
    var magB := Magnitude(vecB);
    SquaredNormNonNegative(vecA);
    SquaredNormNonNegative(vecB);
    if magA == 0.0 || magB == 0.0 {
      score := 0.0;
    } else {
      PositiveProduct(sqrt(magA), sqrt(magB));
      score := dot / (sqrt(magA) * sqrt(magB));
    }
  }

  /** The similarity is 0 when either vector is empty or has only zero weights,
      and when no term has a non-zero weight in both vectors. */
  lemma CosineZero(a: Vector, b: Vector, sqrt: real -> real)
    requires PositiveRoot(sqrt)
    requires || (forall t :: t in a ==> a[t] == 0.0)
             || (forall t :: t in b ==> b[t] == 0.0)
             || (forall t :: t in a && t in b ==> a[t] == 0.0 || b[t] == 0.0)
    ensures Cosine(a, b, sqrt) == 0.0
  {
    SquaredNormSign(a);
    SquaredNormSign(b);
    if forall t :: t in a && t in b ==> a[t] == 0.0 || b[t] == 0.0 {
      forall t | t in a.Keys
        ensures Products(a, b)(t) == 0.0
      {
        ProductOfKey(a, b, t);
      }
      SumZero(a.Keys, Products(a, b));
    }
  }

  lemma DivSelf(m: real)
    requires 0.0 < m
    ensures m / m == 1.0
  {
  }

  /** With an exact root, a positive squared magnitude against itself gives 1. */
  lemma CosineOfSelf(m: real, sqrt: real -> real)
    requires PositiveRoot(sqrt) && 0.0 < m && sqrt(m) * sqrt(m) == m
    ensures CosineOf(m, m, m, sqrt) == 1.0
  {
    DivSelf(m);
  }

  /** The dot product of a vector with itself is its squared magnitude. */
  lemma DotSelf(v: Vector)
    ensures Dot(v, v) == SquaredNorm(v)
  {
    forall t | t in v.Keys
      ensures Products(v, v)(t) == Squares(v)(t)
    {
      ProductOfKey(v, v, t);
      SquareOfKey(v, t);
    }
    SumCongruent(v.Keys, Products(v, v), Squares(v));
  }

  /** With an exact square root, a vector with a non-zero weight is perfectly
      similar to itself. */
  lemma SelfSimilarity(v: Vector, sqrt: real -> real)
    requires PositiveRoot(sqrt)
    requires forall x :: 0.0 < x ==> sqrt(x) * sqrt(x) == x
    requires exists t :: t in v && v[t] != 0.0
    ensures Cosine(v, v, sqrt) == 1.0
  {
    var m := SquaredNorm(v);
    SquaredNormSign(v);
    assert 0.0 < m && sqrt(m) * sqrt(m) == m;
    DotSelf(v);
    CosineOfSelf(m, sqrt);
  }
}
