/** `Array.prototype.findIndex` by a string key, the lookup every table in the
    source performs (`x => x.id === id`, `x => x.productId === pid`). */
module Seqs {

  import opened Js

  /** The first index whose key is `k`, or -1 when there is none. */
  function IndexOf<T>(s: seq<T>, key: T -> string, k: string): (r: int)
    ensures -1 <= r < |s|
    ensures r >= 0 ==> key(s[r]) == k && forall j :: 0 <= j < r ==> key(s[j]) != k
    ensures r < 0 ==> forall j :: 0 <= j < |s| ==> key(s[j]) != k
  {
    if s == [] then -1
    else if key(s[0]) == k then 0
    else
      var t := IndexOf(s[1..], key, k);
      if t < 0 then -1 else t + 1
  }

  /** `s.find(x => key(x) === k)`: the first element with key `k`. */
  function Find<T>(s: seq<T>, key: T -> string, k: string): (r: Option<T>)
    ensures r.None? <==> forall j :: 0 <= j < |s| ==> key(s[j]) != k
    ensures r.Some? ==> r.value in s && key(r.value) == k
    ensures r.Some? ==> exists i :: 0 <= i < |s| && r.value == s[i] && key(s[i]) == k
                                    && forall j :: 0 <= j < i ==> key(s[j]) != k
  {
    var i := IndexOf(s, key, k);
    if i < 0 then None else Some(s[i])
  }

  /** Keys are pairwise distinct. */
  predicate UniqueKeys<T>(s: seq<T>, key: T -> string) {
    forall i, j :: 0 <= i < j < |s| ==> key(s[i]) != key(s[j])
  }

  /** The loop behind `findIndex`. */
  method FindIndex<T>(s: seq<T>, key: T -> string, k: string) returns (idx: int)
    ensures idx == IndexOf(s, key, k)
  {
    idx := 0;
    while idx < |s| && key(s[idx]) != k
      invariant 0 <= idx <= |s|
      invariant forall j :: 0 <= j < idx ==> key(s[j]) != k
    {
      idx := idx + 1;
    }
    if idx == |s| {
      idx := -1;
    }
  }

  /** With distinct keys, the element found under a key is the only one with
      that key. */
  lemma FindUnique<T>(s: seq<T>, key: T -> string, i: int)
    requires UniqueKeys(s, key) && 0 <= i < |s|
    ensures IndexOf(s, key, key(s[i])) == i
  {
  }
}
