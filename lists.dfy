/** The list operations the games apply to their entity arrays: the
    `map(step).filter(alive)` pipeline every per-frame update uses, and
    `splice(i, 1)`. */
module Lists {

  /** `s.map(f).filter(keep)`: each element stepped, the stepped elements that
      keep holds for retained in their original order. */
  function MapFilter<T>(s: seq<T>, f: T -> T, keep: T -> bool): (r: seq<T>)
    ensures |r| <= |s|
    ensures forall k :: 0 <= k < |r| ==> keep(r[k])
  {
    if |s| == 0 then []
    else (if keep(f(s[0])) then [f(s[0])] else []) + MapFilter(s[1..], f, keep)
  }

  /** The pipeline distributes over concatenation, so it works element by
      element and never reorders. */
  lemma {:induction false} MapFilterAppend<T>(a: seq<T>, b: seq<T>, f: T -> T, keep: T -> bool)
    ensures MapFilter(a + b, f, keep) == MapFilter(a, f, keep) + MapFilter(b, f, keep)
  {
    if |a| == 0 {
      assert a + b == b;
    } else {
      assert (a + b)[1..] == a[1..] + b;
      MapFilterAppend(a[1..], b, f, keep);
    }
  }

  /** An element is in the result exactly when it is the step of an input
      element and passes the filter. */
  lemma {:induction false} MapFilterMember<T>(s: seq<T>, f: T -> T, keep: T -> bool, y: T)
    ensures y in MapFilter(s, f, keep) <==> exists k :: 0 <= k < |s| && y == f(s[k]) && keep(y)
  {
    if |s| == 0 {
    } else {
      MapFilterMember(s[1..], f, keep, y);
      if exists k :: 0 <= k < |s| && y == f(s[k]) && keep(y) {
        var k :| 0 <= k < |s| && y == f(s[k]) && keep(y);
        if k > 0 {
          assert s[1..][k - 1] == s[k];
        }
      }
      if y in MapFilter(s[1..], f, keep) {
        var k :| 0 <= k < |s[1..]| && y == f(s[1..][k]) && keep(y);
        assert s[k + 1] == s[1..][k];
      }
    }
  }

  /** Keys strictly increase along s. */
  predicate Increasing<T>(s: seq<T>, key: T -> int)
  {
    forall i, j :: 0 <= i < j < |s| ==> key(s[i]) < key(s[j])
  }

  /** An element below every key of an increasing list can go in front. */
  lemma IncreasingCons<T>(x: T, r: seq<T>, key: T -> int)
    requires Increasing(r, key)
    requires forall y :: y in r ==> key(x) < key(y)
    ensures Increasing([x] + r, key)
  {
    var c := [x] + r;
    forall i, j | 0 <= i < j < |c|
      ensures key(c[i]) < key(c[j])
    {
      assert c[j] == r[j - 1];
      if i > 0 {
        assert c[i] == r[i - 1];
      }
    }
  }

  /** A step that keeps an element's key keeps increasing keys increasing,
      and introduces no key that was not there before. */
  lemma {:induction false} MapFilterIncreasing<T>(s: seq<T>, f: T -> T, keep: T -> bool, key: T -> int)
    requires forall x :: key(f(x)) == key(x)
    requires Increasing(s, key)
    ensures Increasing(MapFilter(s, f, keep), key)
    ensures forall y :: y in MapFilter(s, f, keep) ==> exists k :: 0 <= k < |s| && key(y) == key(s[k])
  {
    if |s| > 0 {
      assert Increasing(s[1..], key) by {
        forall i, j | 0 <= i < j < |s[1..]|
          ensures key(s[1..][i]) < key(s[1..][j])
        {
          assert s[1..][i] == s[i + 1] && s[1..][j] == s[j + 1];
        }
      }
      MapFilterIncreasing(s[1..], f, keep, key);
      var rest := MapFilter(s[1..], f, keep);
      forall y | y in rest
        ensures key(s[0]) < key(y) && exists k :: 0 <= k < |s| && key(y) == key(s[k])
      {
        var k :| 0 <= k < |s[1..]| && key(y) == key(s[1..][k]);
        assert s[1..][k] == s[k + 1];
      }
      if keep(f(s[0])) {
        assert MapFilter(s, f, keep) == [f(s[0])] + rest;
        IncreasingCons(f(s[0]), rest, key);
      } else {
        assert MapFilter(s, f, keep) == rest;
      }
    }
  }

  /** `s.splice(i, 1)`: the list without its element at index i, the others
      kept in order. */
  function RemoveAt<T>(s: seq<T>, i: nat): (r: seq<T>)
    requires i < |s|
    ensures |r| == |s| - 1
    ensures forall k :: 0 <= k < i ==> r[k] == s[k]
    ensures forall k :: i <= k < |r| ==> r[k] == s[k + 1]
  {
    s[..i] + s[i + 1..]
  }

  /** Removing one element keeps increasing keys increasing. */
  lemma RemoveAtIncreasing<T>(s: seq<T>, i: nat, key: T -> int)
    requires i < |s| && Increasing(s, key)
    ensures Increasing(RemoveAt(s, i), key)
  {
    var r := RemoveAt(s, i);
    forall a, b | 0 <= a < b < |r|
      ensures key(r[a]) < key(r[b])
    {
      var a' := if a < i then a else a + 1;
      var b' := if b < i then b else b + 1;
      assert r[a] == s[a'] && r[b] == s[b'];
    }
  }

  /** Appending an element whose key exceeds every key keeps keys increasing. */
  lemma AppendIncreasing<T>(s: seq<T>, x: T, key: T -> int)
    requires Increasing(s, key)
    requires forall k :: 0 <= k < |s| ==> key(s[k]) < key(x)
    ensures Increasing(s + [x], key)
  {
    var r := s + [x];
    forall a, b | 0 <= a < b < |r|
      ensures key(r[a]) < key(r[b])
    {
      assert r[a] == s[a];
    }
  }
}
