# Movie recommendation engine and preference server — a Dafny model

This project models two independent parts of a small movie recommendation
web application.

The first part is the content-based engine in `utils/recommendations.js`.
- A movie's title, genre and overview are joined into one text.
- The text is tokenized: lower-cased, punctuation blanked, split on
  whitespace, and words of two characters or fewer dropped.
- Every movie of the corpus becomes a TF-IDF vector.
- The vectors of the liked movies that occur in the corpus are averaged into
  a user profile.
- Every movie that is not liked is scored by its cosine similarity to the
  profile.
- The first `topK` movies by descending score are returned.

The second part is the state kept by the web server in `server.js`.
- An in-memory table maps each user id to the titles that user liked.
- POST appends a title to the user's list; GET returns a copy of the list.
- The recommendations route refuses a user with no likes.
- Otherwise it takes the first search result's id for every liked title and
  gathers the movie database's suggestions for those ids. It then drops
  repeated ids, keeping the first occurrence, and returns the first ten.

Modules:
- `Basics` (`basics.dfy`): `Option` and `slice(0, k)`.
- `Sums` (`sums.dfy`): order-independent sums of real weights over a set of
  keys. The engine adds up weights while iterating over object keys, and
  these sums stand for that.
- `Text` (`text.dfy`): `tokenize`.
- `Vectors` (`vectors.dfy`): `computeTF`, `computeIDF`, `computeTFIDF` and
  `cosineSimilarity`.
- `Ranking` (`ranking.dfy`): `buildFeatureText` and `recommendMovies`.
- `Server` (`server.dfy`): the preference table as a class, and the
  recommendations route.
- `Scenario` (`scenario.dfy`): the three-movie example of the engine's
  design, run through the model.

How the model is built:
- Functions that build a dictionary or accumulate sums in a loop are Dafny
  methods with loops, each proved equal to a specification function.
  Examples are `ComputeTF`, `ComputeIDF`, `ComputeTFIDF`,
  `CosineSimilarity`, `BuildProfile` and `CollectIds`. The properties are
  then proved about the specification functions.
- A loop over the keys of an object picks its next key from the keys not yet
  visited. The model therefore holds for every visiting order.
- JavaScript numbers are exact `real`s.
- `Math.log` and `Math.sqrt` are parameters, `ln` and `sqrt`. The only thing
  assumed of `sqrt` is that it is positive on positive numbers (and, for
  `SelfSimilarity`, that it is exact). Without that, the division in
  `cosineSimilarity` would not be defined.
- The two calls into the movie database are parameters of the route: `search`
  and `related`.

Where the documentation and the code disagree, the model follows the code:
- The intended design states that when none of the liked movies is in the
  corpus (an empty profile), the engine returns an empty list.
- The code does not: every candidate then scores 0, and the stable sort keeps
  corpus order. The result is therefore the first `topK` movies that are not
  liked. `Ranking.NoLikeInCorpus` proves this.
- The intended design gives an example corpus: "Space Odyssey" (astronaut
  space mission), "Romance in Paris" (love story paris) and "Space Wars"
  (astronaut space battle). A user who likes movie 1 and asks for two
  movies is expected to get movie 3 first, for its shared words.
- The code does not rank them that way when `ln(1) = 0`. "space" and
  "astronaut" occur in two of the three documents, so their IDF is
  `log(3 / (1 + 2)) = 0`, and the test `if (idf[term])` drops them from
  every vector. Both candidates then score 0 and keep corpus order: the
  result is movie 2, then movie 3. `Scenario.DesignScenario` proves this.

Duplicate movie ids in the corpus are modelled as the code treats them:
- the profile uses the first movie with a liked id (`findIndex`,
  `Ranking.FirstIndex`);
- scoring uses the last movie with the candidate's id (the `Map` built from
  the corpus, `Ranking.LastIndex`).

## Model

| member | source | states |
|---|---|---|
| Text.Lower | utils/recommendations.js:10 | ASCII capitals become the matching lower-case letter; every other character is unchanged |
| Text.Normalize | utils/recommendations.js:10-11 | lower-casing and blanking keep the length, and leave only `a`–`z`, `0`–`9` and whitespace |
| Text.FieldPosition | utils/recommendations.js:12 | every piece of the whitespace split contains no whitespace and occurs in the text |
| Text.FieldsJoin | utils/recommendations.js:12 | joining the pieces with single spaces gives back the text with each whitespace character turned into a space: the split drops nothing but whitespace |
| Text.FieldsAroundSpace | utils/recommendations.js:12 | splitting `a + " " + b` gives the pieces of `a` followed by the pieces of `b` |
| Text.FieldsOfJoin | utils/recommendations.js:12 | the split undoes a join: words without whitespace, joined by single spaces, split back into exactly those words |
| Text.Fields | utils/recommendations.js:12 | the whitespace split always gives at least one piece, the empty text giving one empty piece |
| Text.LongWordsMembers | utils/recommendations.js:13 | every word the length filter keeps is one of its input words and is longer than 2 |
| Text.LongWordsKeeps | utils/recommendations.js:13 | every input word longer than 2 is kept |
| Text.LongWordsAppend | utils/recommendations.js:13 | the filter works word by word: filtering a concatenation concatenates the filtered parts |
| Text.LongWords | utils/recommendations.js:13 | the length filter never lengthens the list, and every word it returns is longer than 2 characters |
| Text.Tokenize | utils/recommendations.js:8-14 | every token is longer than 2 characters |
| Text.TokenShape | utils/recommendations.js:8-14 | every token is longer than 2, holds only `a`–`z` and `0`–`9`, and occurs in the lower-cased, blanked text |
| Text.TokenizeEmpty | utils/recommendations.js:8-14 | there are no tokens exactly when the blanked text has no run of three non-whitespace characters (so the empty text has none) |
| Text.TokenizeAroundSpace | utils/recommendations.js:8-14 | the tokens of `a + " " + b` are the tokens of `a` then those of `b`: order and repeats are kept |
| Text.NormalizeExample | utils/recommendations.js:10-11 | `"Sci-Fi 2049!!"` lower-cases and blanks to `"sci fi 2049  "` |
| Text.TokenizeExample | utils/recommendations.js:8-14 | `"Sci-Fi 2049!!"` tokenizes to `["sci", "2049"]` |
| Text.TokenizeText | utils/recommendations.js:8-14 | a text that normalizes to lower-case words joined by single spaces tokenizes to those of its words longer than 2 |
| Vectors.LengthOrOne | utils/recommendations.js:21-28 | the divisor of the term frequencies and the document count of the IDF are at least 1, and equal the number of tokens or documents when there are any |
| Vectors.TermFrequency | utils/recommendations.js:17-23 | the keys of the term frequencies are exactly the tokens |
| Vectors.ComputeTF | utils/recommendations.js:17-24 | the counting loop and the division loop produce `TermFrequency(tokens)` |
| Vectors.TermFrequencyValues | utils/recommendations.js:19-22 | each weight lies in (0, 1], and the weight times the token count is the term's number of occurrences |
| Vectors.CountsSum | utils/recommendations.js:19 | the occurrence counts of the distinct tokens add up to the number of tokens |
| Vectors.TermFrequencySum | utils/recommendations.js:17-23 | for non-empty input the weights sum to 1 |
| Vectors.VocabularyMembers | utils/recommendations.js:30-33 | a term gets a document frequency exactly when some document contains it |
| Vectors.DocFreqCounts | utils/recommendations.js:30-33 | the document frequency is the number of documents containing the term: each document counts once, however often the term occurs in it |
| Vectors.DocFreqBounds | utils/recommendations.js:30-33 | the document frequency is at most the number of documents, and it is at least 1 exactly for the terms of the vocabulary |
| Vectors.Idf | utils/recommendations.js:26-38 | the keys of the IDF table are exactly the terms of all documents |
| Vectors.RatioFacts | utils/recommendations.js:28-36 | the ratio `totalDocs / (1 + df)` is positive (no division by zero); it is below 1 exactly when the term is in every document, and equals 1 exactly when it is in all but one |
| Vectors.IdfRatio | utils/recommendations.js:28-36 | for a term of the corpus the logarithm's argument is positive and at most half the number of documents; it is below 1 exactly when every document has the term, and 1 exactly when one document lacks it |
| Vectors.DocFreqs | utils/recommendations.js:30-33 | a count exists exactly for the terms that occur in some document |
| Vectors.CountOnce | utils/recommendations.js:31-32 | each distinct term of the document gets one more count, an absent term starting from 0; the other counts are unchanged |
| Vectors.CountDocuments | utils/recommendations.js:30-33 | the counting loop produces `DocFreqs(documents)`: every term of the corpus with the number of documents containing it |
| Vectors.IdfWeighsDocFreqs | utils/recommendations.js:26-38 | the IDF table is the table of document frequencies, which are non-negative, with each one turned into `ln(totalDocs / (1 + df))` |
| Vectors.WeighCounts | utils/recommendations.js:35-37 | the logarithm loop keeps the terms and turns each count into `ln(totalDocs / (1 + count))` |
| Vectors.ComputeIDF | utils/recommendations.js:26-39 | the counting loop and the logarithm loop produce `Idf(documents, ln)`: each vocabulary term weighs `ln(totalDocs / (1 + df))` |
| Vectors.ComputeTFIDF | utils/recommendations.js:41-49 | the loop keeps exactly the terms of `tf` whose IDF is present and non-zero, each weighted `tf[t] * idf[t]` |
| Vectors.TfIdf | utils/recommendations.js:41-48 | the vector's terms are terms of both tables with a non-zero IDF weight, and a term of `tf` is left out exactly when its IDF weight is missing or zero |
| Vectors.DocumentVector | utils/recommendations.js:41-48 | a term is in a document's TF-IDF vector exactly when the document contains it and its IDF weight is non-zero |
| Vectors.ZeroWeightDropped | utils/recommendations.js:36-45 | with `ln(1) = 0`, a term found in all documents but one gets IDF 0 and is dropped from the vector, though its term frequency is present |
| Vectors.SquaredNormSign | utils/recommendations.js:61-66 | a squared magnitude is non-negative, and zero exactly when every weight is zero |
| Vectors.DotAndMagnitude | utils/recommendations.js:57-62 | the first loop, in any key order, computes the dot product and the squared magnitude of `vecA` |
| Vectors.Magnitude | utils/recommendations.js:64-66 | the second loop, in any key order, computes the squared magnitude of `vecB` |
| Vectors.CosineOf | utils/recommendations.js:67 | the quotient is 0 exactly when the dot product or either squared magnitude is 0, and positive exactly when all three are positive |
| Vectors.Cosine | utils/recommendations.js:52-68 | the similarity is 0 exactly when the dot product or either squared magnitude is 0, and positive exactly when the dot product is positive and both vectors have magnitude |
| Vectors.CosineSimilarity | utils/recommendations.js:52-68 | the two loops compute `Cosine(vecA, vecB, sqrt)`: the dot product divided by the product of the roots of the squared magnitudes, or 0 when either magnitude is 0 |
| Vectors.CosineZero | utils/recommendations.js:58-67 | the similarity is 0 when either vector has only zero weights (in particular when it is empty), or when no term is non-zero in both |
| Vectors.CosineOfSelf | utils/recommendations.js:67 | when the root of a positive squared magnitude squares back to it, that magnitude against itself gives the quotient 1 |
| Vectors.DotSelf | utils/recommendations.js:56-61 | the dot product a vector accumulates with itself equals its own squared magnitude |
| Vectors.SelfSimilarity | utils/recommendations.js:52-68 | when `sqrt` is an exact square root, a vector with a non-zero weight has similarity 1 with itself |
| Ranking.FeatureTextTokens | utils/recommendations.js:71-73 | the joining spaces never glue words: the feature text's tokens are the title's, then the genre's, then the overview's |
| Ranking.FeatureText | utils/recommendations.js:71-73 | the text is two characters longer than the three fields together, starts with the title and ends with the overview, an absent field counting as empty |
| Ranking.Documents | utils/recommendations.js:79 | there is one document per movie |
| Ranking.BuildVectors | utils/recommendations.js:83-85 | the vectors are the TF-IDF vectors of the documents, one per movie |
| Ranking.FirstIndex | utils/recommendations.js:92 | the result is -1 exactly when no movie has the id, and otherwise the first position holding it |
| Ranking.Matches | utils/recommendations.js:91-93 | at most one corpus position per like, every one a valid position |
| Ranking.ProfileSkipsMissing | utils/recommendations.js:91-93 | a like whose id is not in the corpus changes nothing in the profile, not even the count it is averaged over |
| Ranking.SumVectorsWeight | utils/recommendations.js:96-98 | the summed vector has a term exactly when one of the matched vectors has it, with the sum of their weights |
| Ranking.ProfileWeight | utils/recommendations.js:88-105 | the profile has a term exactly when a matched vector has it; with at least one match, its weight is the sum of the matched weights divided by the number of matches |
| Ranking.Profile | utils/recommendations.js:87-105 | with no like found in the corpus the profile is empty |
| Ranking.AddInto | utils/recommendations.js:96-98 | adding a vector into the profile adds weights term by term, a missing term counting as 0 |
| Ranking.DivideBy | utils/recommendations.js:103-105 | dividing the summed profile by the match count; with no match the profile is empty and stays so |
| Ranking.BuildProfile | utils/recommendations.js:87-105 | the `forEach` and the division loop compute `Profile(likes, movies, vectors)` |
| Ranking.Candidates | utils/recommendations.js:110-111 | a movie is a candidate exactly when it is in the corpus and no like has its id |
| Ranking.CandidatesMultiset | utils/recommendations.js:110-111 | the filter returns no movie more often than the corpus holds it |
| Ranking.LastIndex | utils/recommendations.js:108-113 | the id lookup used for scoring finds the last corpus position holding the id, or -1 |
| Ranking.ScoreCandidates | utils/recommendations.js:112-118 | each candidate is paired with the cosine similarity of the profile and its own vector |
| Ranking.SortByScoreSpec | utils/recommendations.js:119 | the sort returns a permutation of its input in descending order of score |
| Ranking.SortByScoreStable | utils/recommendations.js:119 | the sort is stable: the entries of any one score keep their input order |
| Ranking.SortEqualScores | utils/recommendations.js:119 | when every score is the same, the sort changes nothing |
| Ranking.SortByScore | utils/recommendations.js:119 | the sort keeps the length and the multiset of its entries |
| Ranking.MoviesOfMultiset | utils/recommendations.js:120 | `map(s => s.movie)` of a sub-multiset of scored entries is a sub-multiset of the movies of those entries |
| Ranking.OrthogonalScores | utils/recommendations.js:112-119 | when the profile shares no term non-zero in both with any candidate's vector, every candidate scores 0 and the sorted candidates keep their order |
| Ranking.EmptyProfileScores | utils/recommendations.js:112-118 | with an empty profile every candidate scores 0, and the scores list the candidates in their order |
| Basics.Take | utils/recommendations.js:120 | `slice(0, k)` returns a prefix of length `min(k, length)` |
| Basics.TakeMultiset | utils/recommendations.js:120 | `slice(0, k)` returns no element more often than the input holds it |
| Ranking.MoviesOf | utils/recommendations.js:120 | the movie of each scored entry, one per entry |
| Ranking.RecommendMovies | utils/recommendations.js:75-121 | the whole pipeline computes `Recommend(userLikes, allMovies, topK, ln, sqrt)`: no likes give `[]`, otherwise the first `topK` of the ranking |
| Ranking.Recommend | utils/recommendations.js:75-121 | at most `topK` movies are returned, and no more than the corpus holds |
| Ranking.Ranking | utils/recommendations.js:110-119 | the ranking holds one entry per candidate |
| Ranking.RankingSpec | utils/recommendations.js:110-119 | the ranking holds every candidate with its score exactly once, in descending order of score |
| Ranking.TakenFromScores | utils/recommendations.js:119-120 | a movie among the first `k` entries of any reordering of the scores is one of the scored movies |
| Ranking.RecommendMultiset | utils/recommendations.js:110-120 | no movie is recommended more often than it occurs in the corpus |
| Ranking.RecommendExcludesLiked | utils/recommendations.js:110-120 | every recommended movie is a corpus movie that no like shares an id with |
| Ranking.RecommendLength | utils/recommendations.js:76-120 | no likes give an empty result; otherwise the result holds `min(topK, number of candidates)` movies |
| Ranking.RecommendTopK | utils/recommendations.js:119-120 | the result is the first entries of the ranking, whose scores never increase |
| Ranking.NoMatches | utils/recommendations.js:91-93 | when no like is in the corpus, no vector is matched |
| Ranking.NoLikeInCorpus | utils/recommendations.js:88-120 | when no like is in the corpus, the result is the first `topK` candidates in corpus order, not an empty list |
| Scenario.SharedWordsDropped | utils/recommendations.js:35-45 | with `ln(1) = 0`, when "space" and "astronaut" each miss exactly one document, neither is in any document's vector, and every term of a vector is a term of its document |
| Scenario.ScenarioDocuments | utils/recommendations.js:71-79 | the example corpus tokenizes to the title words followed by the overview words, "in" being dropped |
| Scenario.SingleMatch | utils/recommendations.js:91-93 | a single like whose id is that of the corpus's first movie matches position 0 and nothing else |
| Scenario.ProfileOfFirst | utils/recommendations.js:88-105 | with that single match, the profile has a term exactly when the first movie's vector has it |
| Scenario.DesignScenario | utils/recommendations.js:75-121 | with `ln(1) = 0`, the example corpus with movie 1 liked and `topK` 2 recommends movie 2, then movie 3 |
| Server.FirstResultId | server.js:86-88 | a title contributes one id exactly when its search results exist and are non-empty, and that id is the first result's |
| Server.FirstResultIds | server.js:82-89 | at most one id per liked title |
| Server.FirstResultIdsAppend | server.js:82-89 | the ids of two runs of titles concatenate, so ids follow title order |
| Server.FirstResultIdsSkip | server.js:86-88 | a title without results contributes nothing |
| Server.FirstResultIdsAllFound | server.js:82-89 | when every title has results, there is exactly one id per title: its first result's id |
| Server.CollectIds | server.js:79-89 | the search loop produces `FirstResultIds(likedMovies, search)` |
| Server.GatherMembers | server.js:92-97 | a movie is gathered exactly when it is among the suggestions for one of the ids |
| Server.GatherResults | server.js:78-97 | the suggestion loop produces `Gather(movieIds, related)` |
| Server.FirstWithId | server.js:101 | `findIndex` gives -1 exactly when no element has the id, and otherwise the first position holding it |
| Server.KeptAreFirst | server.js:100-102 | every element the filter keeps is the first occurrence of its id |
| Server.KeptComplete | server.js:100-102 | the filter keeps every first occurrence |
| Server.KeptPositions | server.js:100-102 | the kept positions are first occurrences |
| Server.KeptInOrder | server.js:100-102 | the kept elements are the elements at increasing positions of the input: the relative order is preserved |
| Server.DedupSpec | server.js:100-102 | the deduplicated list holds exactly the first occurrence of every id, in input order, and no id twice |
| Server.Dedup | server.js:100-102 | the filter never lengthens the list and returns only elements of its input |
| Server.KeptAll | server.js:100-102 | a list without repeated ids passes the filter unchanged |
| Server.DedupIdempotent | server.js:100-102 | deduplicating a second time changes nothing |
| Server.HandleRefusesEmpty | server.js:73-76 | the route answers 400 exactly when the liked list is empty |
| Server.Handle | server.js:73-103 | the route answers with movies exactly when the liked list is non-empty, and then with at most ten |
| Server.HandleOk | server.js:77-103 | a successful reply is a prefix of the deduplicated suggestions, with at most ten movies and no id twice, each suggested for the first search result of some liked title |
| Server.PreferenceStore.constructor | server.js:15 | the table starts empty |
| Server.PreferenceStore.AddPreference | server.js:51-62 | a missing user first gets an empty list; the title goes at the end of that user's list; every other user's list is unchanged; the reply is the user's new list |
| Server.PreferenceStore.GetPreferences | server.js:65-68 | the reply is the user's list, or the empty list for an unknown user |
| Server.PreferenceStore.Recommendations | server.js:71-103 | the route computes `Handle` on the user's liked list, as read by the GET route |

## Left out

- Text.Lower: `toLowerCase` is modelled for ASCII only. Case mapping beyond
  ASCII is not modelled: such letters are blanked either way, except where
  the full mapping would produce an ASCII letter.
- Text.Fields: `split(/\s+/)` is modelled as a split at every single
  whitespace character. This differs from the source only by empty pieces,
  which the length filter removes.
- Floating point: all arithmetic is exact. Rounding in `/`, `Math.log` and
  `Math.sqrt` is not modelled, and neither are exact score values or a [-1, 1]
  bound on the similarity.
- Ranking.RecommendMovies: `Math.log` and `Math.sqrt` are parameters, and
  `sqrt` is required to be positive on positive numbers. That is a property
  of `Math.sqrt`, not a demand on callers.
- Ranking.RecommendMovies: `topK` is a natural number. The default of 5 and
  the `slice(0, -n)` behaviour of a negative `topK` are not modelled.
- Plain-object prototype quirks are not modelled: dictionaries are Dafny maps.
  Examples are a token named `constructor` in `computeTF`, or a user id
  `__proto__` in the preference table.
- Server.PreferenceStore.AddPreference: the reply's fixed message text is not
  modelled, only the returned list.
- Server.TmdbMovie: only the `id` of a movie database record is inspected;
  the other fields are represented by one `title` field that is passed
  through.
- Server.FirstResultIds: `search` is a function, so a title liked twice gets
  the same search reply both times. The route sends a separate request for
  each occurrence, and those replies may differ.
- The HTTP layer is not modelled: Express routing, request parsing, CORS, the
  environment configuration and `app.listen`.
- The network is not modelled: every call into the movie database becomes a
  parameter. Failures of those calls are left out, including the reply-500
  path and a suggestions reply without `results`, which makes the spread
  throw.
- The `/movies` and `/search` routes and the health-check route are plain
  forwarding of network replies.
- `script.js` (browser page logic) and `models/` (database schema
  declarations) are not part of this model.
