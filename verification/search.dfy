/** The one lookup the game repeats everywhere: the lowest index whose
    element satisfies a test (free connection slot, inactive pooled object,
    `List.IndexOf`, `List.Contains`). */
module Search {
  import opened Wrappers

  /** Lowest index at or after `from` whose element satisfies `p`. */
  function FirstFrom<T>(s: seq<T>, p: T -> bool, from: nat): (r: Option<nat>)
    requires from <= |s|
    ensures r.Some? ==> from <= r.value < |s| && p(s[r.value])
    ensures r.Some? ==> forall j | from <= j < r.value :: !p(s[j])
    ensures r.None? ==> forall j | from <= j < |s| :: !p(s[j])
    decreases |s| - from
  {
    if from == |s| then None
    else if p(s[from]) then Some(from)
    else FirstFrom(s, p, from + 1)
  }

  /** Lowest index whose element satisfies `p`, if any. */
  function First<T>(s: seq<T>, p: T -> bool): (r: Option<nat>)
    ensures r.Some? ==> r.value < |s| && p(s[r.value])
    ensures r.Some? ==> forall j | 0 <= j < r.value :: !p(s[j])
    ensures r.None? <==> forall j | 0 <= j < |s| :: !p(s[j])
  {
    FirstFrom(s, p, 0)
  }

  /** `List.IndexOf(x)`, with `None` for the source's -1. */
  function IndexOf<T(==)>(s: seq<T>, x: T): (r: Option<nat>)
    ensures r.Some? ==> r.value < |s| && s[r.value] == x && x !in s[..r.value]
    ensures r.None? <==> x !in s
  {
    var r := First(s, y => y == x);
    assert r.Some? ==> forall j | 0 <= j < r.value :: s[..r.value][j] != x;
    r
  }
}
