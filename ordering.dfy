/** Orderings of integer keys: distinctness, ascending order and sorting. */
module Ordering {

  predicate Distinct(ds: seq<int>)
  {
    forall i, j | 0 <= i < j < |ds| :: ds[i] != ds[j]
  }

  predicate Increasing(ds: seq<int>)
  {
    forall i, j | 0 <= i < j < |ds| :: ds[i] < ds[j]
  }

  /** Inserts `x` into an ascending sequence, keeping it ascending and without repeats. */
  function Insert(x: int, s: seq<int>): (r: seq<int>)
    requires Increasing(s)
    ensures Increasing(r)
    ensures forall k :: k in r <==> k == x || k in s
    ensures |r| == if x in s then |s| else |s| + 1
  {
    if s == [] then [x]
    else if x < s[0] then [x] + s
    else if x == s[0] then s
    else
      assert forall k | k in s[1..] :: s[0] < k;
      var tail := Insert(x, s[1..]);
      assert forall i | 0 <= i < |tail| :: s[0] < tail[i] by {
        forall i | 0 <= i < |tail| ensures s[0] < tail[i] { assert tail[i] in tail; }
      }
      [s[0]] + tail
  }

  /** The values of `ds` in ascending order, as `sorted(...)` lists distinct keys. */
  function Sort(ds: seq<int>): (r: seq<int>)
    ensures Increasing(r)
    ensures forall k :: k in r <==> k in ds
    ensures |r| <= |ds|
    ensures Distinct(ds) ==> |r| == |ds|
  {
    if ds == [] then []
    else
      var init := ds[..|ds| - 1];
      assert forall k | k in init :: k in ds;
      assert Distinct(ds) ==> ds[|ds| - 1] !in init;
      Insert(ds[|ds| - 1], Sort(init))
  }

  lemma IncreasingPrefix(ds: seq<int>, n: int)
    requires Increasing(ds) && 0 <= n <= |ds|
    ensures Increasing(ds[..n])
  {
  }

  lemma IncreasingAppend(ds: seq<int>, d: int)
    requires Increasing(ds) && forall k | k in ds :: k < d
    ensures Increasing(ds + [d])
  {
    var r := ds + [d];
    forall i, j | 0 <= i < j < |r| ensures r[i] < r[j] {
      assert r[i] == ds[i];
      if j < |ds| { assert r[j] == ds[j]; } else { assert ds[i] in ds; }
    }
  }
}
