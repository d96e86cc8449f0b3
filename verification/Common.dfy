/** Optional values, results, and sequences read as sets. */
module Common {

  datatype Option<+T> = None | Some(value: T)

  // The source's `error` values carry only a message; the model keeps that one occurred.
  datatype Result<+T> = Ok(value: T) | Err

  function GetOr<T>(o: Option<T>, default: T): T {
    match o
    case Some(v) => v
    case None => default
  }

  // A Go map lookup: the zero value (nil) when the key is missing.
  function Lookup<K, V>(m: map<K, V>, k: K): Option<V> {
    if k in m then Some(m[k]) else None
  }

  predicate NoDup<T(==)>(xs: seq<T>) {
    forall i, j :: 0 <= i < j < |xs| ==> xs[i] != xs[j]
  }

  function Elems<T>(xs: seq<T>): set<T> {
    set x | x in xs
  }

  // xs lists the members of s, each once, in some order: what ranging over a Go map gives.
  predicate Enumerates<T(==)>(xs: seq<T>, s: set<T>) {
    NoDup(xs) && Elems(xs) == s
  }

  // Deduplication (utils.Unified of the f5-bigip-rest-go library).
  function Unified<T(==)>(xs: seq<T>): (r: seq<T>)
    ensures NoDup(r) && Elems(r) == Elems(xs)
  {
    if xs == [] then []
    else
      var init, last := xs[..|xs| - 1], xs[|xs| - 1];
      var r := Unified(init);
      assert xs == init + [last];
      assert Elems(xs) == Elems(init) + {last};
      if last in init then
        assert last in Elems(init);
        r
      else
        assert last !in Elems(init);
        r + [last]
  }

  // Ranging over a map visits each of its keys once.
  lemma EnumerationStep<T>(xs: seq<T>, done: set<T>, x: T)
    requires Enumerates(xs, done) && x !in done
    ensures Enumerates(xs + [x], done + {x})
  {
    assert forall y :: y in xs ==> y in Elems(xs);
  }

  lemma EnumerationLeft<T>(xs: seq<T>, all: set<T>, left: set<T>, x: T)
    requires left <= all && Enumerates(xs, all - left) && x in left
    ensures Enumerates(xs + [x], all - (left - {x}))
  {
    EnumerationStep(xs, all - left, x);
    assert all - left + {x} == all - (left - {x});
  }
}
