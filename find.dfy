/** `Array.prototype.find` and the "try one predicate, then the next" pattern
    built from it, stated for any element type and any predicates. */
module ArrayFind {
  import opened Wrappers

  /** Some element satisfies `p`. */
  ghost predicate AnyWith<T>(xs: seq<T>, p: T -> bool) {
    exists i :: 0 <= i < |xs| && p(xs[i])
  }

  /** `i` is the lowest index whose element satisfies `p`. */
  ghost predicate FirstWith<T>(xs: seq<T>, p: T -> bool, i: int) {
    && 0 <= i < |xs|
    && p(xs[i])
    && forall j :: 0 <= j < i ==> !p(xs[j])
  }

  /** The position `find` stops at: the first element that satisfies `p`,
      or none when no element does. */
  function FindIndex<T>(xs: seq<T>, p: T -> bool): (r: Option<nat>)
    ensures r.Some? ==> FirstWith(xs, p, r.value)
    ensures r.None? <==> !AnyWith(xs, p)
  {
    if xs == [] then None
    else if p(xs[0]) then Some(0)
    else match FindIndex(xs[1..], p)
      case None =>
        assert forall j :: 1 <= j < |xs| ==> xs[j] == xs[1..][j - 1];
        None
      case Some(i) =>
        assert forall j :: 1 <= j <= i ==> xs[j] == xs[1..][j - 1];
        Some(i + 1)
  }

  /** `xs.find(p)`: the first element that satisfies `p`, or `undefined`. */
  function Find<T>(xs: seq<T>, p: T -> bool): (r: Option<T>)
    ensures r.Some? ==> exists i :: FirstWith(xs, p, i) && r.value == xs[i]
    ensures r.None? <==> !AnyWith(xs, p)
  {
    match FindIndex(xs, p)
    case None => None
    case Some(i) => Some(xs[i])
  }

  /** The first match of `p1`; failing that, of `p2`; failing that, of `p3`. */
  function FindFirstOf<T>(xs: seq<T>, p1: T -> bool, p2: T -> bool, p3: T -> bool): (r: Option<T>)
    ensures r.Some? ==> r.value in xs
    ensures r.Some? ==> p1(r.value) || p2(r.value) || p3(r.value)
  {
    var found := Find(xs, p1);
    if found.Some? then found
    else
      var found' := Find(xs, p2);
      if found'.Some? then found' else Find(xs, p3)
  }

  /** The reference definition of `FindFirstOf`, without any scan: `i` is
      the first index of the first predicate that any element meets. */
  ghost predicate Preferred<T>(xs: seq<T>, p1: T -> bool, p2: T -> bool, p3: T -> bool, i: int) {
    if AnyWith(xs, p1) then FirstWith(xs, p1, i)
    else if AnyWith(xs, p2) then FirstWith(xs, p2, i)
    else FirstWith(xs, p3, i)
  }

  lemma FirstWithUnique<T>(xs: seq<T>, p: T -> bool, i: int, j: int)
    requires FirstWith(xs, p, i) && FirstWith(xs, p, j)
    ensures i == j
  {
    assert p(xs[i]) && p(xs[j]);
  }

  lemma PreferredUnique<T>(xs: seq<T>, p1: T -> bool, p2: T -> bool, p3: T -> bool, i: int, j: int)
    requires Preferred(xs, p1, p2, p3, i) && Preferred(xs, p1, p2, p3, j)
    ensures i == j
  {
    if AnyWith(xs, p1) {
      FirstWithUnique(xs, p1, i, j);
    } else if AnyWith(xs, p2) {
      FirstWithUnique(xs, p2, i, j);
    } else {
      FirstWithUnique(xs, p3, i, j);
    }
  }

  /** `FindFirstOf` agrees with `Preferred`: it returns the preferred element
      when some predicate is met, and none exactly when none is. */
  lemma FindFirstOfPreferred<T>(xs: seq<T>, p1: T -> bool, p2: T -> bool, p3: T -> bool)
    ensures FindFirstOf(xs, p1, p2, p3).Some? ==>
      exists i :: Preferred(xs, p1, p2, p3, i) && FindFirstOf(xs, p1, p2, p3).value == xs[i]
    ensures FindFirstOf(xs, p1, p2, p3).None? <==>
      !AnyWith(xs, p1) && !AnyWith(xs, p2) && !AnyWith(xs, p3)
  {
    var r := FindFirstOf(xs, p1, p2, p3);
    if Find(xs, p1).Some? {
      var i :| FirstWith(xs, p1, i) && r.value == xs[i];
      assert Preferred(xs, p1, p2, p3, i);
    } else if Find(xs, p2).Some? {
      var i :| FirstWith(xs, p2, i) && r.value == xs[i];
      assert Preferred(xs, p1, p2, p3, i);
    } else if Find(xs, p3).Some? {
      var i :| FirstWith(xs, p3, i) && r.value == xs[i];
      assert Preferred(xs, p1, p2, p3, i);
    }
  }

  lemma FindFirstOfIsPreferred<T>(xs: seq<T>, p1: T -> bool, p2: T -> bool, p3: T -> bool, i: int)
    requires Preferred(xs, p1, p2, p3, i)
    ensures FindFirstOf(xs, p1, p2, p3) == Some(xs[i])
  {
    FindFirstOfPreferred(xs, p1, p2, p3);
    assert AnyWith(xs, p1) || AnyWith(xs, p2) || AnyWith(xs, p3) by {
      if !AnyWith(xs, p1) && !AnyWith(xs, p2) {
        assert p3(xs[i]);
      }
    }
    var j :| Preferred(xs, p1, p2, p3, j) && FindFirstOf(xs, p1, p2, p3).value == xs[j];
    PreferredUnique(xs, p1, p2, p3, i, j);
  }
}
