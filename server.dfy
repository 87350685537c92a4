/** The stateful part of the web server (server.js): the in-memory table of
    liked titles per user, and the recommendations route, which turns a user's
    liked titles into at most ten distinct movies suggested by the movie
    database.

    The two calls into the movie database become parameters: `search` maps a
    title to the `results` field of the search reply (absent or a list), and
    `related` maps a movie id to the `results` of the recommendations reply. */
module Server {
  import opened Basics

  /** A movie as the movie database returns it; only the id is inspected,
      `title` stands for the rest of the record, which is passed through. */
  datatype TmdbMovie = TmdbMovie(id: int, title: string)

  /** The reply of the recommendations route. */
  datatype Response = BadRequest(error: string) | Ok(movies: seq<TmdbMovie>)

  const NoLikesError := "No liked movies found for recommendations"

  /** The user's liked titles, or the empty list for an unknown user. */
  function Lookup(preferences: map<string, seq<string>>, userId: string): seq<string> {
    if userId in preferences then preferences[userId] else []
  }

  // ===================================================================
  // First search result per liked title

  /** The id of the first search result, if there is one. */
  function FirstResultId(results: Option<seq<TmdbMovie>>): (ids: seq<int>)
    ensures |ids| <= 1
    ensures ids != [] <==> results.Some? && results.value != []
    ensures ids != [] ==> ids[0] == results.value[0].id
  {
    match results
    case None => []
    case Some(r) => if |r| > 0 then [r[0].id] else []
  }

  /** The ids collected by the first loop of the route, in title order. */
  function FirstResultIds(titles: seq<string>, search: string -> Option<seq<TmdbMovie>>): (ids: seq<int>)
    ensures |ids| <= |titles|
    decreases |titles|
  {
    if titles == [] then []
    else FirstResultIds(titles[..|titles| - 1], search) + FirstResultId(search(titles[|titles| - 1]))
  }

  /** One more title adds the id of its first result, if any. */
  lemma FirstResultIdsSnoc(p: seq<string>, x: string, search: string -> Option<seq<TmdbMovie>>)
    ensures FirstResultIds(p + [x], search) == FirstResultIds(p, search) + FirstResultId(search(x))
  {
    assert (p + [x])[..|p|] == p;
  }

  /** The ids of two runs of titles are the ids of the first run followed by
      those of the second. */
  lemma {:induction false} FirstResultIdsAppend(a: seq<string>, b: seq<string>, search: string -> Option<seq<TmdbMovie>>)
    ensures FirstResultIds(a + b, search) == FirstResultIds(a, search) + FirstResultIds(b, search)
    decreases |b|
  {
    if b == [] {
      assert a + b == a;
    } else {
      var p, x := b[..|b| - 1], b[|b| - 1];
      var last := FirstResultId(search(x));
      assert b == p + [x];
      assert a + b == (a + p) + [x];
      calc {
        FirstResultIds(a + b, search);
        { FirstResultIdsSnoc(a + p, x, search); }
        FirstResultIds(a + p, search) + last;
        { FirstResultIdsAppend(a, p, search); }
        (FirstResultIds(a, search) + FirstResultIds(p, search)) + last;
        FirstResultIds(a, search) + (FirstResultIds(p, search) + last);
        { FirstResultIdsSnoc(p, x, search); }
        FirstResultIds(a, search) + FirstResultIds(b, search);
      }
    }
  }

  /** A title without search results adds no id. */
  lemma FirstResultIdsSkip(a: seq<string>, title: string, b: seq<string>, search: string -> Option<seq<TmdbMovie>>)
    requires search(title).None? || search(title).value == []
    ensures FirstResultIds(a + [title] + b, search) == FirstResultIds(a + b, search)
  {
    var one := FirstResultIds([title], search);
    assert [title][..0] == [];
    assert one == [];
    FirstResultIdsAppend(a + [title], b, search);
    FirstResultIdsAppend(a, [title], search);
    FirstResultIdsAppend(a, b, search);
    calc {
      FirstResultIds(a + [title] + b, search);
      FirstResultIds(a + [title], search) + FirstResultIds(b, search);
      FirstResultIds(a, search) + one + FirstResultIds(b, search);
      { assert FirstResultIds(a, search) + one == FirstResultIds(a, search); }
      FirstResultIds(a, search) + FirstResultIds(b, search);
    }
  }

  /** When every title has results, the ids are the first results' ids, one
      per title, in title order. */
  lemma {:induction false} FirstResultIdsAllFound(titles: seq<string>, search: string -> Option<seq<TmdbMovie>>)
    requires forall i :: 0 <= i < |titles| ==> search(titles[i]).Some? && search(titles[i]).value != []
    ensures var ids := FirstResultIds(titles, search);
      |ids| == |titles| && forall i :: 0 <= i < |titles| ==> ids[i] == search(titles[i]).value[0].id
    decreases |titles|
  {
    if titles != [] {
      FirstResultIdsAllFound(titles[..|titles| - 1], search);
    }
  }

  /** The first loop of the route: one search per liked title. */
  method CollectIds(likedMovies: seq<string>, search: string -> Option<seq<TmdbMovie>>) returns (movieIds: seq<int>)
    ensures movieIds == FirstResultIds(likedMovies, search)
  {
    movieIds := [];
    for k := 0 to |likedMovies|
      invariant movieIds == FirstResultIds(likedMovies[..k], search)
    {
      var results := search(likedMovies[k]);
      if results.Some? && |results.value| > 0 {
        movieIds := movieIds + [results.value[0].id];
      }
      assert likedMovies[..k + 1][..k] == likedMovies[..k];
    }
    assert likedMovies[..|likedMovies|] == likedMovies;
  }

  // ===================================================================
  // Gathering the suggestions of every id

  /** The suggestions of every id, concatenated in id order. */
  function Gather(ids: seq<int>, related: int -> seq<TmdbMovie>): seq<TmdbMovie>
    decreases |ids|
  {
    if ids == [] then [] else Gather(ids[..|ids| - 1], related) + related(ids[|ids| - 1])
  }

  /** A movie is gathered exactly when it is suggested for one of the ids. */
  lemma {:induction false} GatherMembers(ids: seq<int>, related: int -> seq<TmdbMovie>, x: TmdbMovie)
    ensures x in Gather(ids, related) <==> exists i :: 0 <= i < |ids| && x in related(ids[i])
    decreases |ids|
  {
    if ids != [] {
      var p := ids[..|ids| - 1];
      GatherMembers(p, related, x);
      if x in Gather(p, related) {
        var i :| 0 <= i < |p| && x in related(p[i]);
        assert ids[i] == p[i];
      }
      if exists i :: 0 <= i < |ids| && x in related(ids[i]) {
        var i :| 0 <= i < |ids| && x in related(ids[i]);
        if i < |p| {
          assert p[i] == ids[i];
        }
      }
    }
  }

  /** The second loop of the route: the suggestions are pushed in order. */
  method GatherResults(movieIds: seq<int>, related: int -> seq<TmdbMovie>) returns (recommendations: seq<TmdbMovie>)
    ensures recommendations == Gather(movieIds, related)
  {
    recommendations := [];
    for k := 0 to |movieIds|
      invariant recommendations == Gather(movieIds[..k], related)
    {
      recommendations := recommendations + related(movieIds[k]);
      assert movieIds[..k + 1][..k] == movieIds[..k];
    }
    assert movieIds[..|movieIds|] == movieIds;
  }

  // ===================================================================
  // Deduplication by id

  /** `findIndex` by id: the first position holding `id`, or -1; the same
      search as `Ranking.FirstIndex`, over search results instead of movies. */
  function FirstWithId(s: seq<TmdbMovie>, id: int): (i: int)
    ensures -1 <= i < |s|
    ensures i == -1 <==> forall k :: 0 <= k < |s| ==> s[k].id != id
    ensures 0 <= i ==> s[i].id == id && forall k :: 0 <= k < i ==> s[k].id != id
  {
    if s == [] then -1
    else if s[0].id == id then 0
    else var i := FirstWithId(s[1..], id); if i == -1 then -1 else i + 1
  }

  /** The first `k` elements of `s` put through the filter: an element stays
      when its position is the first position of its id in the whole of `s`. */
  function KeptUpTo(s: seq<TmdbMovie>, k: nat): seq<TmdbMovie>
    requires k <= |s|
  {
    if k == 0 then []
    else KeptUpTo(s, k - 1) + (if FirstWithId(s, s[k - 1].id) == k - 1 then [s[k - 1]] else [])
  }

  /** The `filter` that keeps an element only at the first position of its
      id. */
  function Dedup(s: seq<TmdbMovie>): (r: seq<TmdbMovie>)
    ensures |r| <= |s|
    ensures forall y :: y in r ==> y in s
  {
    KeptLength(s, |s|);
    KeptAreFirst(s, |s|);
    KeptUpTo(s, |s|)
  }

  lemma {:induction false} KeptLength(s: seq<TmdbMovie>, k: nat)
    requires k <= |s|
    ensures |KeptUpTo(s, k)| <= k
    decreases k
  {
    if k > 0 {
      KeptLength(s, k - 1);
    }
  }

  /** Position `i` is the first position of the id it holds. */
  predicate FirstOccurrence(s: seq<TmdbMovie>, i: int) {
    0 <= i < |s| && FirstWithId(s, s[i].id) == i
  }

  /** Each element the filter keeps among the first `k` is the first
      occurrence of its id. */
  lemma {:induction false} KeptAreFirst(s: seq<TmdbMovie>, k: nat)
    requires k <= |s|
    ensures forall y :: y in KeptUpTo(s, k) ==> exists i :: 0 <= i < k && FirstOccurrence(s, i) && s[i] == y
    decreases k
  {
    if k > 0 {
      KeptAreFirst(s, k - 1);
      var prev := KeptUpTo(s, k - 1);
      forall y | y in KeptUpTo(s, k)
        ensures exists i :: 0 <= i < k && FirstOccurrence(s, i) && s[i] == y
      {
        if y in prev {
          var i :| 0 <= i < k - 1 && FirstOccurrence(s, i) && s[i] == y;
        } else {
          assert FirstOccurrence(s, k - 1) && s[k - 1] == y;
        }
      }
    }
  }

  /** The filter keeps every first occurrence among the first `k` elements. */
  lemma {:induction false} KeptComplete(s: seq<TmdbMovie>, k: nat)
    requires k <= |s|
    ensures forall i :: FirstOccurrence(s, i) && i < k ==> s[i] in KeptUpTo(s, k)
    decreases k
  {
    if k > 0 {
      KeptComplete(s, k - 1);
    }
  }

  /** The positions the filter keeps among the first `k`, in increasing
      order. */
  function KeptPositions(s: seq<TmdbMovie>, k: nat): (ps: seq<int>)
    requires k <= |s|
    ensures forall j :: 0 <= j < |ps| ==> FirstOccurrence(s, ps[j]) && ps[j] < k
  {
    if k == 0 then []
    else KeptPositions(s, k - 1) + (if FirstOccurrence(s, k - 1) then [k - 1] else [])
  }

  /** The kept elements are the elements at the kept positions, and those
      positions increase: the filter preserves the relative order. */
  lemma {:induction false} KeptInOrder(s: seq<TmdbMovie>, k: nat)
    requires k <= |s|
    ensures var r := KeptUpTo(s, k);
      var ps := KeptPositions(s, k);
      && |ps| == |r|
      && (forall j :: 0 <= j < |r| ==> r[j] == s[ps[j]])
      && (forall i, j :: 0 <= i < j < |ps| ==> ps[i] < ps[j])
    decreases k
  {
    if k > 0 {
      KeptInOrder(s, k - 1);
    }
  }

  /** The deduplicated list keeps exactly the first occurrence of every id,
      at increasing positions of the input, and holds no id twice. */
  lemma DedupSpec(s: seq<TmdbMovie>)
    ensures var r := Dedup(s);
      var ps := KeptPositions(s, |s|);
      && (forall y :: y in r ==> 0 <= FirstWithId(s, y.id) && s[FirstWithId(s, y.id)] == y)
      && (forall x :: x in s ==> s[FirstWithId(s, x.id)] in r)
      && |ps| == |r|
      && (forall j :: 0 <= j < |r| ==> r[j] == s[ps[j]])
      && (forall i, j :: 0 <= i < j < |ps| ==> ps[i] < ps[j])
      && (forall i, j :: 0 <= i < j < |r| ==> r[i].id != r[j].id)
  {
    KeptAreFirst(s, |s|);
    KeptComplete(s, |s|);
    KeptInOrder(s, |s|);
    var r := Dedup(s);
    var ps := KeptPositions(s, |s|);
    forall y | y in r
      ensures 0 <= FirstWithId(s, y.id) && s[FirstWithId(s, y.id)] == y
    {
      var i :| 0 <= i < |s| && FirstOccurrence(s, i) && s[i] == y;
    }
    forall x | x in s
      ensures s[FirstWithId(s, x.id)] in r
    {
      var i := FirstWithId(s, x.id);
      assert FirstOccurrence(s, i);
    }
    forall i, j | 0 <= i < j < |r|
      ensures r[i].id != r[j].id
    {
      assert FirstOccurrence(s, ps[i]) && FirstOccurrence(s, ps[j]);
      assert ps[i] < ps[j];
    }
  }

  /** Deduplicating twice changes nothing more. */
  lemma DedupIdempotent(s: seq<TmdbMovie>)
    ensures Dedup(Dedup(s)) == Dedup(s)
  {
    var r := Dedup(s);
    DedupSpec(s);
    KeptAll(r, |r|);
  }

  /** A list without repeated ids passes the filter whole. */
  lemma {:induction false} KeptAll(r: seq<TmdbMovie>, k: nat)
    requires k <= |r|
    requires forall i, j :: 0 <= i < j < |r| ==> r[i].id != r[j].id
    ensures KeptUpTo(r, k) == r[..k]
    decreases k
  {
    if k > 0 {
      KeptAll(r, k - 1);
      var i := FirstWithId(r, r[k - 1].id);
      assert i == k - 1;
      assert r[..k] == r[..k - 1] + [r[k - 1]];
    }
  }

  // ===================================================================
  // The route

  /** The recommendations route on a liked list: 400 when the list is empty,
      otherwise the first ten distinct suggestions. */
  function Handle(likedMovies: seq<string>, search: string -> Option<seq<TmdbMovie>>, related: int -> seq<TmdbMovie>): (r: Response)
    ensures r.Ok? <==> likedMovies != []
    ensures r.Ok? ==> |r.movies| <= 10
  {
    if |likedMovies| == 0 then BadRequest(NoLikesError)
    else Ok(Take(Dedup(Gather(FirstResultIds(likedMovies, search), related)), 10))
  }

  /** The route refuses exactly the empty liked list. */
  lemma HandleRefusesEmpty(likedMovies: seq<string>, search: string -> Option<seq<TmdbMovie>>, related: int -> seq<TmdbMovie>)
    ensures Handle(likedMovies, search, related).BadRequest? <==> likedMovies == []
  {
  }

  /** A successful reply holds at most ten movies, with no id twice, each
      suggested for the first search result of some liked title, and it is the
      beginning of the deduplicated suggestions. */
  lemma HandleOk(likedMovies: seq<string>, search: string -> Option<seq<TmdbMovie>>, related: int -> seq<TmdbMovie>)
    requires likedMovies != []
    ensures var ids := FirstResultIds(likedMovies, search);
      var resp := Handle(likedMovies, search, related);
      && resp.Ok?
      && |resp.movies| <= 10
      && resp.movies <= Dedup(Gather(ids, related))
      && (forall i, j :: 0 <= i < j < |resp.movies| ==> resp.movies[i].id != resp.movies[j].id)
      && (forall x :: x in resp.movies ==> exists i :: 0 <= i < |ids| && x in related(ids[i]))
  {
    var ids := FirstResultIds(likedMovies, search);
    var all := Gather(ids, related);
    var r := Dedup(all);
    var movies := Take(r, 10);
    DedupSpec(all);
    forall x | x in movies
      ensures exists i :: 0 <= i < |ids| && x in related(ids[i])
    {
      assert x in r;
      assert x in all;
      GatherMembers(ids, related, x);
    }
  }

  // ===================================================================
  // The preference table

  class PreferenceStore {
    /** `userPreferences`: liked titles per user id, in the order added. */
    var preferences: map<string, seq<string>>

    constructor()
      ensures preferences == map[]
    {
      preferences := map[];
    }

    /** POST /preferences/:userId: create the user's list if it is missing,
        append the title, and reply with the user's list. */
    method AddPreference(userId: string, movieTitle: string) returns (likedMovies: seq<string>)
      modifies this
      ensures userId in preferences
      ensures preferences[userId] == Lookup(old(preferences), userId) + [movieTitle]
      ensures forall u :: u != userId ==> Lookup(preferences, u) == Lookup(old(preferences), u)
      ensures preferences.Keys == old(preferences).Keys + {userId}
      ensures likedMovies == preferences[userId]
    {
      if userId !in preferences {
        preferences := preferences[userId := []];
      }
      preferences := preferences[userId := preferences[userId] + [movieTitle]];
      likedMovies := preferences[userId];
    }

    /** GET /preferences/:userId: a copy of the user's list, or the empty list
        for a user who never added a title. */
    method GetPreferences(userId: string) returns (likedMovies: seq<string>)
      ensures userId in preferences ==> likedMovies == preferences[userId]
      ensures userId !in preferences ==> likedMovies == []
    {
      likedMovies := Lookup(preferences, userId);
    }

    /** GET /recommendations/:userId, with the movie database given by
        `search` and `related`. */
    method Recommendations(userId: string, search: string -> Option<seq<TmdbMovie>>, related: int -> seq<TmdbMovie>)
      returns (resp: Response)
      ensures resp == Handle(Lookup(preferences, userId), search, related)
    {
      var likedMovies := GetPreferences(userId);
      if |likedMovies| == 0 {
        return BadRequest(NoLikesError);
      }
      var movieIds := CollectIds(likedMovies, search);
      var recommendations := GatherResults(movieIds, related);
      var uniqueRecommendations := Dedup(recommendations);
      resp := Ok(Take(uniqueRecommendations, 10));
    }
  }
}
