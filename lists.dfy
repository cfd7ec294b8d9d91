/**
 * The item list as a value: no object occurs twice in it, and deleting an item
 * is a filter on object identity.
 */
module Lists {

  /** No element occurs twice: the first element is not repeated in the rest, and
      the rest has no repetition either. */
  ghost predicate Distinct<T>(s: seq<T>)
    decreases |s|
  {
    s == [] || (s[0] !in s[1..] && Distinct(s[1..]))
  }

  /** In a list without repetitions, different positions hold different elements. */
  lemma {:induction false} DistinctAt<T>(s: seq<T>, i: nat, j: nat)
    requires Distinct(s) && i < |s| && j < |s| && i != j
    ensures s[i] != s[j]
    decreases |s|
  {
    if i == 0 {
      assert s[j] == s[1..][j - 1];
    } else if j == 0 {
      assert s[i] == s[1..][i - 1];
    } else {
      DistinctAt(s[1..], i - 1, j - 1);
    }
  }

  /** Appending an element that is not yet in the list keeps it free of repetitions. */
  lemma {:induction false} DistinctAppend<T>(s: seq<T>, x: T)
    requires Distinct(s) && x !in s
    ensures Distinct(s + [x])
    decreases |s|
  {
    if s != [] {
      assert (s + [x])[1..] == s[1..] + [x];
      DistinctAppend(s[1..], x);
    }
  }

  /** The elements of `s` other than `t`, in their original order (a filter keeping
      every element not identical to `t`). */
  function Without<T(==)>(s: seq<T>, t: T): (r: seq<T>)
    ensures |r| <= |s|
    decreases |s|
  {
    if s == [] then []
    else if s[0] == t then Without(s[1..], t)
    else [s[0]] + Without(s[1..], t)
  }

  /** Exactly the elements of `s` other than `t` remain after filtering out `t`. */
  lemma {:induction false} WithoutMembers<T>(s: seq<T>, t: T, x: T)
    ensures x in Without(s, t) <==> x in s && x != t
    decreases |s|
  {
    if s != [] {
      WithoutMembers(s[1..], t, x);
      assert s == [s[0]] + s[1..];
    }
  }

  /** Filtering keeps a list free of repetitions. */
  lemma {:induction false} WithoutDistinct<T>(s: seq<T>, t: T)
    requires Distinct(s)
    ensures Distinct(Without(s, t))
    decreases |s|
  {
    if s != [] {
      WithoutDistinct(s[1..], t);
      if s[0] != t {
        var r := Without(s[1..], t);
        WithoutMembers(s[1..], t, s[0]);
        assert ([s[0]] + r)[1..] == r;
      }
    }
  }

  /** Filtering out an element that is not there changes nothing. */
  lemma {:induction false} WithoutAbsent<T>(s: seq<T>, t: T)
    requires t !in s
    ensures Without(s, t) == s
    decreases |s|
  {
    if s != [] {
      WithoutAbsent(s[1..], t);
      assert s == [s[0]] + s[1..];
    }
  }

  /** In a list without repetitions, filtering out the element at position k removes
      exactly that position: the list is one shorter and the others keep their order. */
  lemma {:induction false} WithoutAt<T>(s: seq<T>, k: nat)
    requires Distinct(s) && k < |s|
    ensures Without(s, s[k]) == s[..k] + s[k + 1..]
    ensures |Without(s, s[k])| == |s| - 1
    decreases |s|
  {
    if k == 0 {
      WithoutAbsent(s[1..], s[0]);
    } else {
      assert s[1..][k - 1] == s[k];
      WithoutAt(s[1..], k - 1);
      assert s[..k] == [s[0]] + s[1..][..k - 1];
      assert s[k + 1..] == s[1..][k..];
    }
  }
}
