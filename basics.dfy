/** Small building blocks shared by the engine and the server: a value that
    may be absent, and JavaScript's `slice(0, k)` for a non-negative `k`. */
module Basics {

  datatype Option<T> = None | Some(value: T)

  /** `slice(0, k)`: the first `k` elements, or all of them when there are
      fewer. */
  function Take<T>(s: seq<T>, k: nat): (r: seq<T>)
    ensures |r| == if k < |s| then k else |s|
    ensures r <= s
  {
    if k < |s| then s[..k] else s
  }

  /** The slice takes no element more often than the sequence has it. */
  lemma TakeMultiset<T>(s: seq<T>, k: nat)
    ensures multiset(Take(s, k)) <= multiset(s)
  {
    if k < |s| {
      assert s == s[..k] + s[k..];
    }
  }
}
