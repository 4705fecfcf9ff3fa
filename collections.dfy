/** LINQ `Distinct()` over sequences. */
module Collections {

  predicate NoDuplicates<T(==)>(s: seq<T>)
  {
    forall i, j :: 0 <= i < j < |s| ==> s[i] != s[j]
  }

  /** `Distinct()`: the first occurrence of every element, in order of first
      appearance. */
  function Distinct<T(==)>(s: seq<T>): (r: seq<T>)
    ensures NoDuplicates(r)
    ensures forall i :: 0 <= i < |r| ==> r[i] in s
    ensures forall i :: 0 <= i < |s| ==> s[i] in r
    ensures |r| <= |s|
    decreases |s|
  {
    if s == [] then []
    else
      var front := s[..|s| - 1];
      var d := Distinct(front);
      assert s == front + [s[|s| - 1]];
      if s[|s| - 1] in d then d else d + [s[|s| - 1]]
  }
}
