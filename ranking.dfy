/** The ranking step of the recommendation engine (utils/recommendations.js,
    `buildFeatureText` and `recommendMovies`).

    The liked movies that occur in the corpus are averaged into a profile
    vector; every movie that is not liked is scored by its cosine similarity to
    the profile; the scored movies are sorted by descending score and the first
    `topK` are returned. Movies are compared by id only. */
module Ranking {
  import opened Text
  import opened Vectors
  import opened Basics

  /** A movie of the corpus; a text field may be absent. */
  datatype Movie = Movie(id: int, title: Option<string>, genre: Option<string>, overview: Option<string>)

  /** An absent field reads as the empty text. */
  function OrEmpty(f: Option<string>): string {
    match f
    case None => ""
    case Some(s) => s
  }

  /** `buildFeatureText`: title, genre and overview joined by single spaces. */
  function FeatureText(m: Movie): (r: string)
    ensures |r| == |OrEmpty(m.title)| + |OrEmpty(m.genre)| + |OrEmpty(m.overview)| + 2
    ensures r[..|OrEmpty(m.title)|] == OrEmpty(m.title)
    ensures r[|r| - |OrEmpty(m.overview)|..] == OrEmpty(m.overview)
  {
    OrEmpty(m.title) + " " + OrEmpty(m.genre) + " " + OrEmpty(m.overview)
  }

  /** The tokens of a movie are those of its title, then those of its genre,
      then those of its overview: the joining spaces never glue two words. */
  lemma FeatureTextTokens(m: Movie)
    ensures Tokenize(FeatureText(m))
         == Tokenize(OrEmpty(m.title)) + Tokenize(OrEmpty(m.genre)) + Tokenize(OrEmpty(m.overview))
  {
    var a, b, c := OrEmpty(m.title), OrEmpty(m.genre), OrEmpty(m.overview);
    assert FeatureText(m) == (a + " " + b) + " " + c;
    TokenizeAroundSpace(a + " " + b, c);
    TokenizeAroundSpace(a, b);
  }

  /** The tokens of every movie's feature text, one document per movie. */
  function Documents(movies: seq<Movie>): (docs: seq<seq<Term>>)
    ensures |docs| == |movies|
  {
    seq(|movies|, i requires 0 <= i < |movies| => Tokenize(FeatureText(movies[i])))
  }

  /** The TF-IDF vector of every document. */
  function DocumentVectors(docs: seq<seq<Term>>, idf: Vector): (vectors: seq<Vector>)
    ensures |vectors| == |docs|
  {
    seq(|docs|, i requires 0 <= i < |docs| => TfIdf(TermFrequency(docs[i]), idf))
  }

  /** The TF-IDF vector of every document (`map` over the documents). */
  method BuildVectors(docs: seq<seq<Term>>, idf: Vector) returns (vectors: seq<Vector>)
    ensures vectors == DocumentVectors(docs, idf)
  {
    vectors := [];
    for i := 0 to |docs|
      invariant |vectors| == i
      invariant forall j :: 0 <= j < i ==> vectors[j] == TfIdf(TermFrequency(docs[j]), idf)
    {
      var tf := ComputeTF(docs[i]);
      var v := ComputeTFIDF(tf, idf);
      vectors := vectors + [v];
    }
  }

  // ===================================================================
  // The profile of the liked movies

  /** `findIndex` on the corpus: the first position of the id, or -1 when no
      movie has it. `Server.FirstWithId` is the same search over search
      results, which are a different record type. */
  function FirstIndex(movies: seq<Movie>, id: int): (i: int)
    ensures -1 <= i < |movies|
    ensures i == -1 <==> forall k :: 0 <= k < |movies| ==> movies[k].id != id
    ensures i >= 0 ==> movies[i].id == id && forall k :: 0 <= k < i ==> movies[k].id != id
  {
    if movies == [] then -1
    else if movies[0].id == id then 0
    else
      var j := FirstIndex(movies[1..], id);
      if j == -1 then -1 else j + 1
  }

  /** The corpus positions of the liked movies that occur in the corpus, in
      the order of the likes; a like whose id is missing is skipped. */
  function Matches(likes: seq<Movie>, movies: seq<Movie>): (idx: seq<int>)
    ensures |idx| <= |likes|
    ensures forall k :: 0 <= k < |idx| ==> 0 <= idx[k] < |movies|
    decreases |likes|
  {
    if likes == [] then []
    else
      var i := FirstIndex(movies, likes[|likes| - 1].id);
      Matches(likes[..|likes| - 1], movies) + (if i == -1 then [] else [i])
  }

  /** One more like adds its corpus position, when it has one. */
  lemma MatchesStep(likes: seq<Movie>, movies: seq<Movie>, k: int)
    requires 0 <= k < |likes|
    ensures var i := FirstIndex(movies, likes[k].id);
      Matches(likes[..k + 1], movies) == Matches(likes[..k], movies) + (if i == -1 then [] else [i])
  {
    assert likes[..k + 1][..k] == likes[..k];
  }

  /** Adds every weight of `v` to the accumulated vector, a missing term
      starting from 0. */
  function AddVector(acc: Vector, v: Vector): Vector {
    map t | t in acc.Keys + v.Keys :: Get(acc, t) + Get(v, t)
  }

  /** The sum of the vectors at the given positions. */
  function SumVectors(vectors: seq<Vector>, idx: seq<int>): Vector
    requires forall k :: 0 <= k < |idx| ==> 0 <= idx[k] < |vectors|
    decreases |idx|
  {
    if idx == [] then map[]
    else AddVector(SumVectors(vectors, idx[..|idx| - 1]), vectors[idx[|idx| - 1]])
  }

  /** Divides every weight by the count; with no liked movie found the sum is
      empty and stays so. */
  function Average(sum: Vector, count: nat): Vector {
    if count == 0 then sum else map t | t in sum :: sum[t] / count as real
  }

  /** The profile vector: the average of the vectors of the liked movies found. */
  function Profile(likes: seq<Movie>, movies: seq<Movie>, vectors: seq<Vector>): (r: Vector)
    requires |vectors| == |movies|
    ensures Matches(likes, movies) == [] ==> r == map[]
  {
    var idx := Matches(likes, movies);
    Average(SumVectors(vectors, idx), |idx|)
  }

  /** The weight of one term, summed over the vectors at the given positions. */
  function WeightSum(vectors: seq<Vector>, idx: seq<int>, t: Term): real
    requires forall k :: 0 <= k < |idx| ==> 0 <= idx[k] < |vectors|
    decreases |idx|
  {
    if idx == [] then 0.0
    else WeightSum(vectors, idx[..|idx| - 1], t) + Get(vectors[idx[|idx| - 1]], t)
  }

  lemma SumVectorsStep(vectors: seq<Vector>, idx: seq<int>, i: int)
    requires forall k :: 0 <= k < |idx| ==> 0 <= idx[k] < |vectors|
    requires 0 <= i < |vectors|
    ensures SumVectors(vectors, idx + [i]) == AddVector(SumVectors(vectors, idx), vectors[i])
  {
    assert (idx + [i])[..|idx|] == idx;
  }

  /** A term of the summed vector comes from one of the vectors, and its weight
      is the sum of its weights in all of them. */
  lemma {:induction false} SumVectorsWeight(vectors: seq<Vector>, idx: seq<int>, t: Term)
    requires forall k :: 0 <= k < |idx| ==> 0 <= idx[k] < |vectors|
    ensures t in SumVectors(vectors, idx) <==> exists k :: 0 <= k < |idx| && t in vectors[idx[k]]
    ensures Get(SumVectors(vectors, idx), t) == WeightSum(vectors, idx, t)
    decreases |idx|
  {
    if idx != [] {
      var p := idx[..|idx| - 1];
      SumVectorsWeight(vectors, p, t);
      if k :| 0 <= k < |p| && t in vectors[p[k]] {
        assert t in vectors[idx[k]];
      }
      if k :| 0 <= k < |idx| && t in vectors[idx[k]] {
        if k < |p| {
          assert t in vectors[p[k]];
        }
      }
    }
  }

  /** The profile holds exactly the terms of the liked movies found, each
      weighted by its mean weight over them. */
  lemma ProfileWeight(likes: seq<Movie>, movies: seq<Movie>, vectors: seq<Vector>, t: Term)
    requires |vectors| == |movies|
    ensures var idx := Matches(likes, movies);
      && (t in Profile(likes, movies, vectors) <==> exists k :: 0 <= k < |idx| && t in vectors[idx[k]])
      && (idx != [] ==> Get(Profile(likes, movies, vectors), t) == WeightSum(vectors, idx, t) / |idx| as real)
  {
    var idx := Matches(likes, movies);
    var sum := SumVectors(vectors, idx);
    SumVectorsWeight(vectors, idx, t);
    AverageWeight(sum, |idx|, t);
  }

  /** Averaging keeps the terms and divides each weight by the count. */
  lemma AverageWeight(sum: Vector, count: nat, t: Term)
    ensures t in Average(sum, count) <==> t in sum
    ensures count > 0 ==> Get(Average(sum, count), t) == Get(sum, t) / count as real
  {
  }

  /** A like whose id does not occur in the corpus neither contributes to the
      profile nor counts toward the average. */
  lemma {:induction false} MatchesSkipMissing(a: seq<Movie>, x: Movie, b: seq<Movie>, movies: seq<Movie>)
    requires FirstIndex(movies, x.id) == -1
    ensures Matches(a + [x] + b, movies) == Matches(a + b, movies)
    decreases |b|
  {
    if b == [] {
      assert a + [x] + b == a + [x];
      assert (a + [x])[..|a|] == a;
      assert a + b == a;
    } else {
      var p, y := b[..|b| - 1], b[|b| - 1];
      MatchesSkipMissing(a, x, p, movies);
      assert (a + [x] + b)[..|a + [x] + b| - 1] == a + [x] + p;
      assert (a + b)[..|a + b| - 1] == a + p;
    }
  }

  lemma ProfileSkipsMissing(a: seq<Movie>, x: Movie, b: seq<Movie>, movies: seq<Movie>, vectors: seq<Vector>)
    requires |vectors| == |movies|
    requires FirstIndex(movies, x.id) == -1
    ensures Profile(a + [x] + b, movies, vectors) == Profile(a + b, movies, vectors)
  {
    MatchesSkipMissing(a, x, b, movies);
  }

  /** The loop over the keys of one liked movie's vector, adding each weight
      into the profile. */
  method AddInto(userVec: Vector, vec: Vector) returns (r: Vector)
    ensures r == AddVector(userVec, vec)
  {
    r := userVec;
    var rest := vec.Keys;
    while rest != {}
      invariant rest <= vec.Keys
      invariant r.Keys == userVec.Keys + (vec.Keys - rest)
      invariant forall t :: t in r ==> r[t] == Get(userVec, t) + (if t in vec && t !in rest then vec[t] else 0.0)
      decreases rest
    {
      var t :| t in rest;
      r := r[t := Get(r, t) + vec[t]];
      rest := rest - {t};
    }
  }

  /** The loop over the keys of the profile, dividing each weight by the
      count; the vector is empty when the count is 0. */
  method DivideBy(userVec: Vector, count: nat) returns (r: Vector)
    requires count == 0 ==> userVec == map[]
    ensures r == Average(userVec, count)
  {
    r := userVec;
    var rest := userVec.Keys;
    while rest != {}
      invariant rest <= userVec.Keys && r.Keys == userVec.Keys
      invariant forall t :: t in rest ==> r[t] == userVec[t]
      invariant forall t :: t in userVec && t !in rest ==> count != 0 && r[t] == userVec[t] / count as real
      decreases rest
    {
      var t :| t in rest;
      r := r[t := r[t] / count as real];
      rest := rest - {t};
    }
  }

  /** The `forEach` over the likes, then the division of every weight by the
      number of liked movies found. */
  method BuildProfile(likes: seq<Movie>, movies: seq<Movie>, vectors: seq<Vector>) returns (userVec: Vector)
    requires |vectors| == |movies|
    ensures userVec == Profile(likes, movies, vectors)
  {
    userVec := map[];
    var count := 0;
    for k := 0 to |likes|
      invariant userVec == SumVectors(vectors, Matches(likes[..k], movies))
      invariant count == |Matches(likes[..k], movies)|
    {
      var idx := FirstIndex(movies, likes[k].id);
      MatchesStep(likes, movies, k);
      if idx != -1 {
        SumVectorsStep(vectors, Matches(likes[..k], movies), idx);
        userVec := AddInto(userVec, vectors[idx]);
        count := count + 1;
      } else {
        assert Matches(likes[..k + 1], movies) == Matches(likes[..k], movies);
      }
    }
    assert likes[..|likes|] == likes;
    userVec := DivideBy(userVec, count);
  }

  // ===================================================================
  // Scoring and ordering

  /** Some like has the movie's id (`some`). */
  predicate IsLiked(likes: seq<Movie>, m: Movie) {
    exists k :: 0 <= k < |likes| && likes[k].id == m.id
  }

  /** The `filter` over the corpus: the movies that are not liked, in corpus
      order. */
  function Candidates(likes: seq<Movie>, movies: seq<Movie>): (c: seq<Movie>)
    ensures |c| <= |movies|
    ensures forall m :: m in c <==> m in movies && !IsLiked(likes, m)
    decreases |movies|
  {
    if movies == [] then []
    else
      var m := movies[|movies| - 1];
      Candidates(likes, movies[..|movies| - 1]) + (if IsLiked(likes, m) then [] else [m])
  }

  /** The candidates are taken from the corpus, each no more often than it
      occurs there. */
  lemma {:induction false} CandidatesMultiset(likes: seq<Movie>, movies: seq<Movie>)
    ensures multiset(Candidates(likes, movies)) <= multiset(movies)
    decreases |movies|
  {
    if movies != [] {
      var m := movies[|movies| - 1];
      CandidatesMultiset(likes, movies[..|movies| - 1]);
      assert movies == movies[..|movies| - 1] + [m];
    }
  }

  /** A corpus movie's id is always found. */
  lemma LastIndexOfMember(movies: seq<Movie>, m: Movie)
    requires m in movies
    ensures LastIndex(movies, m.id) >= 0
  {
    var k :| 0 <= k < |movies| && movies[k] == m;
    assert movies[k].id == m.id;
  }

  /** `indexById.get(id)`: the map is filled in corpus order, so a later
      movie with the same id overwrites an earlier one. */
  function LastIndex(movies: seq<Movie>, id: int): (i: int)
    ensures -1 <= i < |movies|
    ensures i == -1 <==> forall k :: 0 <= k < |movies| ==> movies[k].id != id
    ensures i >= 0 ==> movies[i].id == id && forall k :: i < k < |movies| ==> movies[k].id != id
    decreases |movies|
  {
    if movies == [] then -1
    else if movies[|movies| - 1].id == id then |movies| - 1
    else LastIndex(movies[..|movies| - 1], id)
  }

  /** A movie with its score. */
  datatype Scored = Scored(movie: Movie, score: real)

  /** The score of a candidate: the similarity of the profile to the vector
      that `indexById` gives for the candidate's id. */
  ghost function Score(profile: Vector, m: Movie, movies: seq<Movie>, vectors: seq<Vector>, sqrt: real -> real): real
    requires PositiveRoot(sqrt) && |vectors| == |movies| && m in movies
  {
    Cosine(profile, vectors[LastIndex(movies, m.id)], sqrt)
  }

  ghost function Scores(profile: Vector, cands: seq<Movie>, movies: seq<Movie>, vectors: seq<Vector>, sqrt: real -> real): (s: seq<Scored>)
    requires PositiveRoot(sqrt) && |vectors| == |movies|
    requires forall m :: m in cands ==> m in movies
    ensures |s| == |cands|
  {
    seq(|cands|, j requires 0 <= j < |cands| => Scored(cands[j], Score(profile, cands[j], movies, vectors, sqrt)))
  }

  /** The `map` that pairs every candidate with its score. */
  method ScoreCandidates(profile: Vector, cands: seq<Movie>, movies: seq<Movie>, vectors: seq<Vector>, sqrt: real -> real)
    returns (scored: seq<Scored>)
    requires PositiveRoot(sqrt) && |vectors| == |movies|
    requires forall m :: m in cands ==> m in movies
    ensures scored == Scores(profile, cands, movies, vectors, sqrt)
  {
    scored := [];
    for j := 0 to |cands|
      invariant |scored| == j
      invariant forall k :: 0 <= k < j ==> scored[k] == Scored(cands[k], Score(profile, cands[k], movies, vectors, sqrt))
    {
      var i := LastIndex(movies, cands[j].id);
      LastIndexOfMember(movies, cands[j]);
      var score := CosineSimilarity(profile, vectors[i], sqrt);
      scored := scored + [Scored(cands[j], score)];
    }
  }

  /** Scores never increase along the sequence. */
  predicate Descending(s: seq<Scored>) {
    forall i, j :: 0 <= i < j < |s| ==> s[i].score >= s[j].score
  }

  /** Puts `x` after every element whose score is at least its own. */
  function Insert(x: Scored, r: seq<Scored>): seq<Scored>
    decreases |r|
  {
    if r == [] then [x]
    else if r[0].score >= x.score then [r[0]] + Insert(x, r[1..])
    else [x] + r
  }

  /** `sort` with the score comparator: a stable sort by descending score. */
  function SortByScore(s: seq<Scored>): (r: seq<Scored>)
    ensures |r| == |s| && multiset(r) == multiset(s)
    decreases |s|
  {
    if s == [] then []
    else
      var p := s[..|s| - 1];
      InsertPermutes(s[|s| - 1], SortByScore(p));
      InsertLength(s[|s| - 1], SortByScore(p));
      assert s == p + [s[|s| - 1]];
      Insert(s[|s| - 1], SortByScore(p))
  }

  lemma {:induction false} InsertLength(x: Scored, r: seq<Scored>)
    ensures |Insert(x, r)| == |r| + 1
    decreases |r|
  {
    if r != [] && r[0].score >= x.score {
      InsertLength(x, r[1..]);
    }
  }

  lemma {:induction false} InsertPermutes(x: Scored, r: seq<Scored>)
    ensures multiset(Insert(x, r)) == multiset(r) + multiset{x}
    decreases |r|
  {
    if r != [] && r[0].score >= x.score {
      InsertPermutes(x, r[1..]);
      assert r == [r[0]] + r[1..];
    }
  }

  lemma {:induction false} InsertDescending(x: Scored, r: seq<Scored>)
    requires Descending(r)
    ensures Descending(Insert(x, r))
    decreases |r|
  {
    if r != [] && r[0].score >= x.score {
      InsertDescending(x, r[1..]);
      InsertPermutes(x, r[1..]);
      var tail := Insert(x, r[1..]);
      forall y | y in tail
        ensures r[0].score >= y.score
      {
        assert y in multiset(tail);
        if y != x {
          assert y in multiset(r[1..]);
        }
      }
    }
  }

  /** The sorted sequence is in descending order of score and holds the same
      scored movies, each as often. */
  lemma {:induction false} SortByScoreSpec(s: seq<Scored>)
    ensures Descending(SortByScore(s))
    ensures multiset(SortByScore(s)) == multiset(s)
    decreases |s|
  {
    if s != [] {
      var p := s[..|s| - 1];
      SortByScoreSpec(p);
      InsertDescending(s[|s| - 1], SortByScore(p));
      InsertPermutes(s[|s| - 1], SortByScore(p));
      assert s == p + [s[|s| - 1]];
    }
  }

  /** The elements with score `c`, in order. */
  function WithScore(s: seq<Scored>, c: real): seq<Scored>
    decreases |s|
  {
    if s == [] then []
    else WithScore(s[..|s| - 1], c) + (if s[|s| - 1].score == c then [s[|s| - 1]] else [])
  }

  lemma {:induction false} WithScoreAppend(a: seq<Scored>, b: seq<Scored>, c: real)
    ensures WithScore(a + b, c) == WithScore(a, c) + WithScore(b, c)
    decreases |b|
  {
    if b == [] {
      assert a + b == a;
    } else {
      WithScoreAppend(a, b[..|b| - 1], c);
      assert (a + b)[..|a + b| - 1] == a + b[..|b| - 1];
    }
  }

  lemma {:induction false} InsertStable(x: Scored, r: seq<Scored>, c: real)
    requires Descending(r)
    ensures WithScore(Insert(x, r), c) == WithScore(r, c) + (if x.score == c then [x] else [])
    decreases |r|
  {
    if r == [] {
      assert WithScore([x], c) == WithScore([], c) + (if x.score == c then [x] else []);
    } else if r[0].score >= x.score {
      InsertStable(x, r[1..], c);
      WithScoreAppend([r[0]], Insert(x, r[1..]), c);
      WithScoreAppend([r[0]], r[1..], c);
      assert [r[0]] + r[1..] == r;
    } else {
      WithScoreAppend([x], r, c);
      if x.score == c {
        assert WithScore(r, c) == [] by {
          NoneWithScore(r, c);
        }
      }
      assert WithScore([x], c) == WithScore([], c) + (if x.score == c then [x] else []);
    }
  }

  /** No element of a descending sequence below `c` at its head has score `c`. */
  lemma {:induction false} NoneWithScore(r: seq<Scored>, c: real)
    requires Descending(r) && r != [] && r[0].score < c
    ensures WithScore(r, c) == []
    decreases |r|
  {
    var p := r[..|r| - 1];
    if p != [] {
      NoneWithScore(p, c);
    }
  }

  /** The sort is stable: the elements of any one score keep their order. */
  lemma {:induction false} SortByScoreStable(s: seq<Scored>, c: real)
    ensures WithScore(SortByScore(s), c) == WithScore(s, c)
    decreases |s|
  {
    if s != [] {
      var p := s[..|s| - 1];
      SortByScoreStable(p, c);
      SortByScoreSpec(p);
      InsertStable(s[|s| - 1], SortByScore(p), c);
    }
  }

  /** When every score is the same the sort leaves the sequence alone. */
  lemma {:induction false} SortEqualScores(s: seq<Scored>, c: real)
    requires forall i :: 0 <= i < |s| ==> s[i].score == c
    ensures SortByScore(s) == s
    decreases |s|
  {
    if s != [] {
      var p := s[..|s| - 1];
      SortEqualScores(p, c);
      InsertAfterEqual(s[|s| - 1], p, c);
    }
  }

  lemma {:induction false} InsertAfterEqual(x: Scored, r: seq<Scored>, c: real)
    requires x.score == c && forall i :: 0 <= i < |r| ==> r[i].score == c
    ensures Insert(x, r) == r + [x]
    decreases |r|
  {
    if r != [] {
      InsertAfterEqual(x, r[1..], c);
      assert r == [r[0]] + r[1..];
    }
  }

  // ===================================================================
  // recommendMovies

  /** The movie of every scored entry (`map`). */
  function MoviesOf(s: seq<Scored>): (r: seq<Movie>)
    ensures |r| == |s|
  {
    seq(|s|, i requires 0 <= i < |s| => s[i].movie)
  }

  /** Every movie that is not liked, with its score, best first. */
  ghost function Ranking(likes: seq<Movie>, movies: seq<Movie>, ln: real -> real, sqrt: real -> real): (r: seq<Scored>)
    requires PositiveRoot(sqrt)
    ensures |r| == |Candidates(likes, movies)|
  {
    var docs := Documents(movies);
    var vectors := DocumentVectors(docs, Idf(docs, ln));
    SortByScore(Scores(Profile(likes, movies, vectors), Candidates(likes, movies), movies, vectors, sqrt))
  }

  ghost function Recommend(likes: seq<Movie>, movies: seq<Movie>, topK: nat, ln: real -> real, sqrt: real -> real): (r: seq<Movie>)
    requires PositiveRoot(sqrt)
    ensures |r| <= topK && |r| <= |movies|
  {
    if likes == [] then [] else MoviesOf(Take(Ranking(likes, movies, ln, sqrt), topK))
  }

  /** `recommendMovies`: `Math.log` and `Math.sqrt` are the parameters `ln`
      and `sqrt`. */
  method RecommendMovies(userLikes: seq<Movie>, allMovies: seq<Movie>, topK: nat, ln: real -> real, sqrt: real -> real)
    returns (result: seq<Movie>)
    requires PositiveRoot(sqrt)
    ensures result == Recommend(userLikes, allMovies, topK, ln, sqrt)
  {
    if |userLikes| == 0 {
      return [];
    }
    var movieDocs := Documents(allMovies);
    var idf := ComputeIDF(movieDocs, ln);
    var tfidfVectors := BuildVectors(movieDocs, idf);
    var userVec := BuildProfile(userLikes, allMovies, tfidfVectors);
    var candidates := Candidates(userLikes, allMovies);
    var scored := ScoreCandidates(userVec, candidates, allMovies, tfidfVectors, sqrt);
    result := MoviesOf(Take(SortByScore(scored), topK));
  }

  /** The ranking holds every candidate once, each with its similarity to the
      profile, in descending order of score. */
  lemma RankingSpec(likes: seq<Movie>, movies: seq<Movie>, ln: real -> real, sqrt: real -> real)
    requires PositiveRoot(sqrt)
    ensures var docs := Documents(movies);
      var vectors := DocumentVectors(docs, Idf(docs, ln));
      var r := Ranking(likes, movies, ln, sqrt);
      && Descending(r)
      && multiset(r) == multiset(Scores(Profile(likes, movies, vectors), Candidates(likes, movies), movies, vectors, sqrt))
  {
    var docs := Documents(movies);
    var vectors := DocumentVectors(docs, Idf(docs, ln));
    SortByScoreSpec(Scores(Profile(likes, movies, vectors), Candidates(likes, movies), movies, vectors, sqrt));
  }

  /** A movie among the first `k` entries of a permutation of `scores` is the
      movie of one of the scores. */
  lemma TakenFromScores(scores: seq<Scored>, sorted: seq<Scored>, k: nat, m: Movie)
    requires multiset(sorted) == multiset(scores)
    requires m in MoviesOf(Take(sorted, k))
    ensures m in MoviesOf(scores)
  {
    var taken := Take(sorted, k);
    var i :| 0 <= i < |taken| && MoviesOf(taken)[i] == m;
    assert taken[i] == sorted[i];
    assert sorted[i] in multiset(scores);
    var j :| 0 <= j < |scores| && scores[j] == sorted[i];
    assert MoviesOf(scores)[j] == m;
  }

  /** Scoring keeps the candidates, in their order. */
  lemma ScoredMovies(profile: Vector, cands: seq<Movie>, movies: seq<Movie>, vectors: seq<Vector>, sqrt: real -> real)
    requires PositiveRoot(sqrt) && |vectors| == |movies|
    requires forall m :: m in cands ==> m in movies
    ensures MoviesOf(Scores(profile, cands, movies, vectors, sqrt)) == cands
  {
  }

  lemma MoviesOfAppend(a: seq<Scored>, b: seq<Scored>)
    ensures MoviesOf(a + b) == MoviesOf(a) + MoviesOf(b)
  {
  }

  lemma MoviesOfSnoc(s: seq<Scored>, x: Scored)
    ensures multiset(MoviesOf(s + [x])) == multiset(MoviesOf(s)) + multiset{x.movie}
  {
    MoviesOfAppend(s, [x]);
    assert MoviesOf([x]) == [x.movie];
  }

  /** Taking out one element `x` of `b`, at index `j`, leaves a sequence
      whose movies are those of `b` but one `x.movie`. */
  lemma RemoveAt(b: seq<Scored>, j: int)
    requires 0 <= j < |b|
    ensures var rest := b[..j] + b[j + 1..];
      && multiset(b) == multiset(rest) + multiset{b[j]}
      && multiset(MoviesOf(b)) == multiset(MoviesOf(rest)) + multiset{b[j].movie}
  {
    var rest := b[..j] + b[j + 1..];
    assert b == b[..j] + [b[j]] + b[j + 1..];
    MoviesOfAppend(b[..j] + [b[j]], b[j + 1..]);
    MoviesOfAppend(b[..j], [b[j]]);
    MoviesOfAppend(b[..j], b[j + 1..]);
  }

  lemma SubMultisetCancel<T>(p: multiset<T>, q: multiset<T>, x: T)
    requires p + multiset{x} <= q + multiset{x}
    ensures p <= q
  {
    forall y
      ensures p[y] <= q[y]
    {
      assert (p + multiset{x})[y] == p[y] + multiset{x}[y];
    }
  }

  lemma SubMultisetAdd<T>(p: multiset<T>, q: multiset<T>, x: T)
    requires p <= q
    ensures p + multiset{x} <= q + multiset{x}
  {
    forall y
      ensures (p + multiset{x})[y] <= (q + multiset{x})[y]
    {
    }
  }

  /** Pairing with scores keeps the movies: a sub-multiset of pairs carries a
      sub-multiset of movies. */
  lemma {:induction false} MoviesOfMultiset(a: seq<Scored>, b: seq<Scored>)
    requires multiset(a) <= multiset(b)
    ensures multiset(MoviesOf(a)) <= multiset(MoviesOf(b))
    decreases |a|
  {
    if a != [] {
      var init, x := a[..|a| - 1], a[|a| - 1];
      assert a == init + [x];
      assert x in multiset(b);
      var j :| 0 <= j < |b| && b[j] == x;
      var rest := b[..j] + b[j + 1..];
      RemoveAt(b, j);
      SubMultisetCancel(multiset(init), multiset(rest), x);
      MoviesOfMultiset(init, rest);
      MoviesOfSnoc(init, x);
      SubMultisetAdd(multiset(MoviesOf(init)), multiset(MoviesOf(rest)), x.movie);
      calc {
        multiset(MoviesOf(a));
        multiset(MoviesOf(init)) + multiset{x.movie};
      <=
        multiset(MoviesOf(rest)) + multiset{x.movie};
        multiset(MoviesOf(b));
      }
    }
  }

  /** No movie is recommended more often than it occurs in the corpus. */
  lemma RecommendMultiset(likes: seq<Movie>, movies: seq<Movie>, topK: nat, ln: real -> real, sqrt: real -> real)
    requires PositiveRoot(sqrt)
    ensures multiset(Recommend(likes, movies, topK, ln, sqrt)) <= multiset(movies)
  {
    if likes != [] {
      var docs := Documents(movies);
      var vectors := DocumentVectors(docs, Idf(docs, ln));
      var cands := Candidates(likes, movies);
      var profile := Profile(likes, movies, vectors);
      var scores := Scores(profile, cands, movies, vectors, sqrt);
      var sorted := SortByScore(scores);
      SortByScoreSpec(scores);
      TakeMultiset(sorted, topK);
      MoviesOfMultiset(Take(sorted, topK), scores);
      ScoredMovies(profile, cands, movies, vectors, sqrt);
      CandidatesMultiset(likes, movies);
    }
  }

  /** Every recommended movie is a corpus movie that is not liked. */
  lemma RecommendExcludesLiked(likes: seq<Movie>, movies: seq<Movie>, topK: nat, ln: real -> real, sqrt: real -> real, m: Movie)
    requires PositiveRoot(sqrt)
    ensures m in Recommend(likes, movies, topK, ln, sqrt) ==> m in movies && !IsLiked(likes, m)
  {
    if m !in Recommend(likes, movies, topK, ln, sqrt) {
      return;
    }
    var docs := Documents(movies);
    var vectors := DocumentVectors(docs, Idf(docs, ln));
    var cands := Candidates(likes, movies);
    var profile := Profile(likes, movies, vectors);
    var scores := Scores(profile, cands, movies, vectors, sqrt);
    var sorted := SortByScore(scores);
    assert m in MoviesOf(Take(sorted, topK));
    SortByScoreSpec(scores);
    TakenFromScores(scores, sorted, topK, m);
    ScoredMovies(profile, cands, movies, vectors, sqrt);
  }

  /** With at least one like, `min(topK, number of candidates)` movies come
      back; with none, nothing does. */
  lemma RecommendLength(likes: seq<Movie>, movies: seq<Movie>, topK: nat, ln: real -> real, sqrt: real -> real)
    requires PositiveRoot(sqrt)
    ensures var n := |Candidates(likes, movies)|;
      |Recommend(likes, movies, topK, ln, sqrt)| == if likes == [] then 0 else if topK < n then topK else n
  {
    var docs := Documents(movies);
    var vectors := DocumentVectors(docs, Idf(docs, ln));
    var scores := Scores(Profile(likes, movies, vectors), Candidates(likes, movies), movies, vectors, sqrt);
    RankingSpec(likes, movies, ln, sqrt);
    assert |multiset(Ranking(likes, movies, ln, sqrt))| == |multiset(scores)|;
  }

  /** The recommendations are the best `topK` of the ranking: no movie left
      out scores above a movie returned, and scores do not increase along the
      result. */
  lemma RecommendTopK(likes: seq<Movie>, movies: seq<Movie>, topK: nat, ln: real -> real, sqrt: real -> real)
    requires PositiveRoot(sqrt) && likes != []
    ensures var r := Ranking(likes, movies, ln, sqrt);
      var result := Recommend(likes, movies, topK, ln, sqrt);
      && |result| <= |r|
      && (forall i :: 0 <= i < |result| ==> result[i] == r[i].movie)
      && (forall i, j :: 0 <= i < j < |r| ==> r[i].score >= r[j].score)
  {
    RankingSpec(likes, movies, ln, sqrt);
  }

  /** Against an empty profile every candidate scores 0. */
  lemma EmptyProfileScores(cands: seq<Movie>, movies: seq<Movie>, vectors: seq<Vector>, sqrt: real -> real)
    requires PositiveRoot(sqrt) && |vectors| == |movies|
    requires forall m :: m in cands ==> m in movies
    ensures var scores := Scores(map[], cands, movies, vectors, sqrt);
      && (forall i :: 0 <= i < |scores| ==> scores[i].score == 0.0)
      && MoviesOf(scores) == cands
  {
    var scores := Scores(map[], cands, movies, vectors, sqrt);
    forall i | 0 <= i < |scores|
      ensures scores[i].score == 0.0
    {
      LastIndexOfMember(movies, cands[i]);
      CosineZero(map[], vectors[LastIndex(movies, cands[i].id)], sqrt);
    }
  }

  /** With no liked movie in the corpus the profile is empty, every candidate
      scores 0, and the stable sort leaves the candidates in corpus order: the
      first `topK` movies that are not liked come back. */
  lemma NoLikeInCorpus(likes: seq<Movie>, movies: seq<Movie>, topK: nat, ln: real -> real, sqrt: real -> real)
    requires PositiveRoot(sqrt) && likes != []
    requires forall k :: 0 <= k < |likes| ==> FirstIndex(movies, likes[k].id) == -1
    ensures Recommend(likes, movies, topK, ln, sqrt) == Take(Candidates(likes, movies), topK)
  {
    var docs := Documents(movies);
    var vectors := DocumentVectors(docs, Idf(docs, ln));
    var cands := Candidates(likes, movies);
    NoMatches(likes, movies);
    assert Profile(likes, movies, vectors) == map[];
    var scores := Scores(map[], cands, movies, vectors, sqrt);
    EmptyProfileScores(cands, movies, vectors, sqrt);
    SortEqualScores(scores, 0.0);
    assert Recommend(likes, movies, topK, ln, sqrt) == MoviesOf(Take(scores, topK));
    TakeMovies(scores, topK);
  }

  /** No term carries a non-zero weight in both vectors. */
  predicate Orthogonal(a: Vector, b: Vector) {
    forall t :: t in a && t in b ==> a[t] == 0.0 || b[t] == 0.0
  }

  /** When the profile shares no weighted term with the vector of any
      candidate, every candidate scores 0 and the stable sort leaves the
      candidates in corpus order. */
  lemma OrthogonalScores(profile: Vector, cands: seq<Movie>, movies: seq<Movie>, vectors: seq<Vector>, sqrt: real -> real)
    requires PositiveRoot(sqrt) && |vectors| == |movies|
    requires forall m :: m in cands ==> m in movies
    requires forall j :: 0 <= j < |cands| ==>
      var i := LastIndex(movies, cands[j].id); 0 <= i && Orthogonal(profile, vectors[i])
    ensures var scores := Scores(profile, cands, movies, vectors, sqrt);
      && (forall j :: 0 <= j < |scores| ==> scores[j].score == 0.0)
      && MoviesOf(SortByScore(scores)) == cands
  {
    var scores := Scores(profile, cands, movies, vectors, sqrt);
    forall j | 0 <= j < |scores|
      ensures scores[j].score == 0.0
    {
      var i := LastIndex(movies, cands[j].id);
      CosineZero(profile, vectors[i], sqrt);
    }
    SortEqualScores(scores, 0.0);
    ScoredMovies(profile, cands, movies, vectors, sqrt);
  }

  /** Taking a prefix commutes with taking the movies. */
  lemma TakeMovies(s: seq<Scored>, k: nat)
    ensures MoviesOf(Take(s, k)) == Take(MoviesOf(s), k)
  {
  }

  lemma {:induction false} NoMatches(likes: seq<Movie>, movies: seq<Movie>)
    requires forall k :: 0 <= k < |likes| ==> FirstIndex(movies, likes[k].id) == -1
    ensures Matches(likes, movies) == []
    decreases |likes|
  {
    if likes != [] {
      NoMatches(likes[..|likes| - 1], movies);
    }
  }
}
