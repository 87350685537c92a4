/** The three-movie ranking scenario of the engine's design, run through the
    model of the code.

    The corpus is "Space Odyssey" (astronaut space mission), "Romance in Paris"
    (love story paris) and "Space Wars" (astronaut space battle); the user
    likes movie 1 and asks for two recommendations. The design expects movie 3
    to rank above movie 2 because of the shared words "space" and "astronaut".
    The code does not: both words occur in two of the three documents, so
    their weight is `log(3 / (1 + 2)) = log(1) = 0` and the test
    `if (idf[term])` drops them from every vector. The profile then shares no
    term with either candidate, both score 0, and the stable sort keeps corpus
    order: movie 2 comes first. */
module Scenario {
  import opened Basics
  import opened Text
  import opened Vectors
  import opened Ranking

  const SpaceOdyssey := Movie(1, Some("Space Odyssey"), None, Some("astronaut space mission"))
  const RomanceInParis := Movie(2, Some("Romance in Paris"), None, Some("love story paris"))
  const SpaceWars := Movie(3, Some("Space Wars"), None, Some("astronaut space battle"))

  const Corpus := [SpaceOdyssey, RomanceInParis, SpaceWars]

  /** The like `{ id: 1 }`: only the id is looked at. */
  const Likes := [Movie(1, None, None, None)]

  const OdysseyTerms := ["space", "odyssey", "astronaut", "space", "mission"]
  const RomanceTerms := ["romance", "paris", "love", "story", "paris"]
  const WarsTerms := ["space", "wars", "astronaut", "space", "battle"]

  const Docs := [OdysseyTerms, RomanceTerms, WarsTerms]

  // ---------------------------------------------------------------------
  // The documents

  lemma EmptyTokens()
    ensures Tokenize("") == []
  {
    assert Normalize("") == "";
  }

  lemma OdysseyTitleLower()
    ensures Normalize("Space Odyssey") == "space odyssey"
  {
  }

  lemma OdysseyTitleWords()
    ensures JoinWithSpace(["space", "odyssey"]) == "space odyssey"
  {
  }

  lemma OdysseyTitle(text: string)
    requires text == "Space Odyssey"
    ensures Tokenize(text) == ["space", "odyssey"]
  {
    OdysseyTitleLower();
    OdysseyTitleWords();
    TokenizeText(text, "space odyssey", ["space", "odyssey"], ["space", "odyssey"]);
  }

  lemma OdysseyOverviewLower()
    ensures Normalize("astronaut space mission") == "astronaut space mission"
  {
  }

  lemma OdysseyOverviewWords()
    ensures JoinWithSpace(["astronaut", "space", "mission"]) == "astronaut space mission"
  {
  }

  lemma OdysseyOverview(text: string)
    requires text == "astronaut space mission"
    ensures Tokenize(text) == ["astronaut", "space", "mission"]
  {
    OdysseyOverviewLower();
    OdysseyOverviewWords();
    TokenizeText(text, "astronaut space mission", ["astronaut", "space", "mission"], ["astronaut", "space", "mission"]);
  }

  lemma RomanceTitleLower()
    ensures Normalize("Romance in Paris") == "romance in paris"
  {
  }

  lemma RomanceTitleWords()
    ensures JoinWithSpace(["romance", "in", "paris"]) == "romance in paris"
  {
  }

  lemma RomanceTitle(text: string)
    requires text == "Romance in Paris"
    ensures Tokenize(text) == ["romance", "paris"]
  {
    RomanceTitleLower();
    RomanceTitleWords();
    TokenizeText(text, "romance in paris", ["romance", "in", "paris"], ["romance", "paris"]);
  }

  lemma RomanceOverviewLower()
    ensures Normalize("love story paris") == "love story paris"
  {
  }

  lemma RomanceOverviewWords()
    ensures JoinWithSpace(["love", "story", "paris"]) == "love story paris"
  {
  }

  lemma RomanceOverview(text: string)
    requires text == "love story paris"
    ensures Tokenize(text) == ["love", "story", "paris"]
  {
    RomanceOverviewLower();
    RomanceOverviewWords();
    TokenizeText(text, "love story paris", ["love", "story", "paris"], ["love", "story", "paris"]);
  }

  lemma WarsTitleLower()
    ensures Normalize("Space Wars") == "space wars"
  {
  }

  lemma WarsTitleWords()
    ensures JoinWithSpace(["space", "wars"]) == "space wars"
  {
  }

  lemma WarsTitle(text: string)
    requires text == "Space Wars"
    ensures Tokenize(text) == ["space", "wars"]
  {
    WarsTitleLower();
    WarsTitleWords();
    TokenizeText(text, "space wars", ["space", "wars"], ["space", "wars"]);
  }

  lemma WarsOverviewLower()
    ensures Normalize("astronaut space battle") == "astronaut space battle"
  {
  }

  lemma WarsOverviewWords()
    ensures JoinWithSpace(["astronaut", "space", "battle"]) == "astronaut space battle"
  {
  }

  lemma WarsOverview(text: string)
    requires text == "astronaut space battle"
    ensures Tokenize(text) == ["astronaut", "space", "battle"]
  {
    WarsOverviewLower();
    WarsOverviewWords();
    TokenizeText(text, "astronaut space battle", ["astronaut", "space", "battle"], ["astronaut", "space", "battle"]);
  }

  /** A movie with a title, no genre and an overview: its document is the
      title's tokens followed by the overview's. */
  lemma TitleAndOverview(m: Movie, title: string, overview: string, titleTerms: seq<Term>, overviewTerms: seq<Term>)
    requires m.title == Some(title) && m.genre.None? && m.overview == Some(overview)
    requires Tokenize(title) == titleTerms && Tokenize(overview) == overviewTerms
    ensures Tokenize(FeatureText(m)) == titleTerms + overviewTerms
  {
    EmptyTokens();
    FeatureTextTokens(m);
  }

  lemma OdysseyDocument(m: Movie, title: string, overview: string)
    requires m.title == Some(title) && m.genre.None? && m.overview == Some(overview)
    requires title == "Space Odyssey" && overview == "astronaut space mission"
    ensures Tokenize(FeatureText(m)) == OdysseyTerms
  {
    OdysseyTitle(title);
    OdysseyOverview(overview);
    TitleAndOverview(m, title, overview, ["space", "odyssey"], ["astronaut", "space", "mission"]);
  }

  lemma RomanceDocument(m: Movie, title: string, overview: string)
    requires m.title == Some(title) && m.genre.None? && m.overview == Some(overview)
    requires title == "Romance in Paris" && overview == "love story paris"
    ensures Tokenize(FeatureText(m)) == RomanceTerms
  {
    RomanceTitle(title);
    RomanceOverview(overview);
    TitleAndOverview(m, title, overview, ["romance", "paris"], ["love", "story", "paris"]);
  }

  lemma WarsDocument(m: Movie, title: string, overview: string)
    requires m.title == Some(title) && m.genre.None? && m.overview == Some(overview)
    requires title == "Space Wars" && overview == "astronaut space battle"
    ensures Tokenize(FeatureText(m)) == WarsTerms
  {
    WarsTitle(title);
    WarsOverview(overview);
    TitleAndOverview(m, title, overview, ["space", "wars"], ["astronaut", "space", "battle"]);
  }

  /** The documents are the title words followed by the overview words, "in"
      being too short to count. */
  lemma ScenarioDocuments()
    ensures Documents(Corpus) == Docs
  {
    OdysseyDocument(Corpus[0], "Space Odyssey", "astronaut space mission");
    RomanceDocument(Corpus[1], "Romance in Paris", "love story paris");
    WarsDocument(Corpus[2], "Space Wars", "astronaut space battle");
  }

  // ---------------------------------------------------------------------
  // The vectors

  /** "space" and "astronaut" occur in all documents but one. */
  lemma SharedWordsFrequency()
    ensures DocFreq(Docs, "space") == |Docs| - 1
    ensures DocFreq(Docs, "astronaut") == |Docs| - 1
  {
    var d1, d2 := Docs[..1], Docs[..2];
    assert d1[..0] == [] && d2[..1] == d1 && Docs[..2] == d2;
    assert "space" !in RomanceTerms && "astronaut" !in RomanceTerms;
    assert DocFreq(d1, "space") == 1 && DocFreq(d1, "astronaut") == 1;
    assert DocFreq(d2, "space") == 1 && DocFreq(d2, "astronaut") == 1;
  }

  /** With `log(1) = 0`, a term of a document's vector is a term of the
      document other than "space" and "astronaut", when each of those two is
      missing from exactly one document. */
  lemma SharedWordsDropped(docs: seq<seq<Term>>, i: int, ln: real -> real, t: Term)
    requires ln(1.0) == 0.0 && 0 <= i < |docs|
    requires DocFreq(docs, "space") == |docs| - 1 && DocFreq(docs, "astronaut") == |docs| - 1
    requires t in DocumentVectors(docs, Idf(docs, ln))[i]
    ensures t in docs[i] && t != "space" && t != "astronaut"
  {
    DocumentVector(docs, i, ln, t);
    if "space" in docs[i] {
      ZeroWeightDropped(docs, i, ln, "space");
    }
    if "astronaut" in docs[i] {
      ZeroWeightDropped(docs, i, ln, "astronaut");
    }
  }

  lemma OdysseyWords(t: Term)
    requires t in OdysseyTerms && t != "space" && t != "astronaut"
    ensures t == "odyssey" || t == "mission"
  {
  }

  lemma WarsWords(t: Term)
    requires t in WarsTerms && t != "space" && t != "astronaut"
    ensures t == "wars" || t == "battle"
  {
  }

  /** With `log(1) = 0` the vector of movie 1 keeps at most "odyssey" and
      "mission". */
  lemma OdysseyVector(ln: real -> real, t: Term)
    requires ln(1.0) == 0.0
    requires t in DocumentVectors(Docs, Idf(Docs, ln))[0]
    ensures t == "odyssey" || t == "mission"
  {
    SharedWordsFrequency();
    SharedWordsDropped(Docs, 0, ln, t);
    OdysseyWords(t);
  }

  /** The vector of movie 2 keeps at most its own words. */
  lemma RomanceVector(ln: real -> real, t: Term)
    requires t in DocumentVectors(Docs, Idf(Docs, ln))[1]
    ensures t in RomanceTerms
  {
    DocumentVector(Docs, 1, ln, t);
  }

  /** With `log(1) = 0` the vector of movie 3 keeps at most "wars" and
      "battle". */
  lemma WarsVector(ln: real -> real, t: Term)
    requires ln(1.0) == 0.0
    requires t in DocumentVectors(Docs, Idf(Docs, ln))[2]
    ensures t == "wars" || t == "battle"
  {
    SharedWordsFrequency();
    SharedWordsDropped(Docs, 2, ln, t);
    WarsWords(t);
  }

  // ---------------------------------------------------------------------
  // The ranking

  /** A single like whose id heads the corpus matches position 0 alone. */
  lemma SingleMatch(likes: seq<Movie>, movies: seq<Movie>)
    requires |likes| == 1 && |movies| >= 1 && movies[0].id == likes[0].id
    ensures Matches(likes, movies) == [0]
  {
    assert FirstIndex(movies, likes[0].id) == 0;
    assert likes[..0] == [];
  }

  /** With that single match the profile has the terms of the first vector. */
  lemma ProfileOfFirst(likes: seq<Movie>, movies: seq<Movie>, vectors: seq<Vector>, t: Term)
    requires |likes| == 1 && |movies| >= 1 && movies[0].id == likes[0].id
    requires |vectors| == |movies|
    ensures t in Profile(likes, movies, vectors) <==> t in vectors[0]
  {
    SingleMatch(likes, movies);
    ProfileWeight(likes, movies, vectors, t);
    var idx := Matches(likes, movies);
    if t in vectors[0] {
      assert 0 <= 0 < |idx| && t in vectors[idx[0]];
    }
    assert (exists k :: 0 <= k < |idx| && t in vectors[idx[k]]) ==> t in vectors[0];
  }

  /** Movie 1 is the only match, so the profile has the terms of its vector. */
  lemma ScenarioProfile(vectors: seq<Vector>, t: Term)
    requires |vectors| == |Corpus|
    ensures t in Profile(Likes, Corpus, vectors) <==> t in vectors[0]
  {
    ProfileOfFirst(Likes, Corpus, vectors, t);
  }

  /** The candidates are movies 2 and 3, found at positions 1 and 2. */
  lemma ScenarioCandidates()
    ensures Candidates(Likes, Corpus) == [RomanceInParis, SpaceWars]
    ensures LastIndex(Corpus, 2) == 1 && LastIndex(Corpus, 3) == 2
  {
    assert IsLiked(Likes, SpaceOdyssey) by {
      assert Likes[0].id == SpaceOdyssey.id;
    }
    var c1, c2 := Corpus[..1], Corpus[..2];
    assert c1[..0] == [] && c2[..1] == c1 && Corpus[..2] == c2;
    assert Candidates(Likes, c1) == [];
    assert Candidates(Likes, c2) == [RomanceInParis];
  }

  /** Whatever the vectors' weights, when movie 1 keeps only "odyssey" and
      "mission", movie 2 only its own words and movie 3 only "wars" and
      "battle", both candidates score 0 and keep their corpus order. */
  lemma ScenarioRanking(vectors: seq<Vector>, sqrt: real -> real)
    requires PositiveRoot(sqrt) && |vectors| == |Corpus|
    requires forall t :: t in vectors[0] ==> t == "odyssey" || t == "mission"
    requires forall t :: t in vectors[1] ==> t in RomanceTerms
    requires forall t :: t in vectors[2] ==> t == "wars" || t == "battle"
    ensures var scores := Scores(Profile(Likes, Corpus, vectors), Candidates(Likes, Corpus), Corpus, vectors, sqrt);
      MoviesOf(SortByScore(scores)) == [RomanceInParis, SpaceWars]
  {
    var profile := Profile(Likes, Corpus, vectors);
    var cands := Candidates(Likes, Corpus);
    ScenarioCandidates();
    forall t | t in profile
      ensures t == "odyssey" || t == "mission"
    {
      ScenarioProfile(vectors, t);
    }
    assert Orthogonal(profile, vectors[1]);
    assert Orthogonal(profile, vectors[2]);
    forall j | 0 <= j < |cands|
      ensures var i := LastIndex(Corpus, cands[j].id); 0 <= i && Orthogonal(profile, vectors[i])
    {
    }
    OrthogonalScores(profile, cands, Corpus, vectors, sqrt);
  }

  /** The design expects movie 3 before movie 2; the code returns movie 2
      first, since both score 0 and the sort is stable. */
  lemma DesignScenario(ln: real -> real, sqrt: real -> real)
    requires PositiveRoot(sqrt) && ln(1.0) == 0.0
    ensures Recommend(Likes, Corpus, 2, ln, sqrt) == [RomanceInParis, SpaceWars]
  {
    ScenarioDocuments();
    var vectors := DocumentVectors(Docs, Idf(Docs, ln));
    forall t | t in vectors[0]
      ensures t == "odyssey" || t == "mission"
    {
      OdysseyVector(ln, t);
    }
    forall t | t in vectors[1]
      ensures t in RomanceTerms
    {
      RomanceVector(ln, t);
    }
    forall t | t in vectors[2]
      ensures t == "wars" || t == "battle"
    {
      WarsVector(ln, t);
    }
    ScenarioRanking(vectors, sqrt);
    var scores := Scores(Profile(Likes, Corpus, vectors), Candidates(Likes, Corpus), Corpus, vectors, sqrt);
    TakeMovies(SortByScore(scores), 2);
  }
}
