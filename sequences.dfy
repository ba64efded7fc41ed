/** The LINQ and List operations the report relies on, over sequences:
    `Where` (keeping order), `First`/`FirstOrDefault` (as the index of the
    first match) and `List.IndexOf`. */
module Sequences {
  import opened Results

  /** `s.Where(p)`: the elements satisfying `p`, in their original order. */
  function Where<T(!new)>(s: seq<T>, p: T -> bool): (r: seq<T>)
    ensures |r| <= |s|
    ensures forall x :: x in r <==> x in s && p(x)
    decreases |s|
  {
    if |s| == 0 then []
    else (if p(s[0]) then [s[0]] else []) + Where(s[1..], p)
  }

  /** Filtering keeps the enumeration order: filtering a concatenation is
      concatenating the filtered halves. */
  lemma {:induction false} WhereAppend<T(!new)>(a: seq<T>, b: seq<T>, p: T -> bool)
    ensures Where(a + b, p) == Where(a, p) + Where(b, p)
    decreases |a|
  {
    if |a| > 0 {
      assert (a + b)[1..] == a[1..] + b;
      WhereAppend(a[1..], b, p);
    } else {
      assert a + b == b;
    }
  }

  /** `FirstOrDefault(p)` as an index: the least index whose element
      satisfies `p`, or None when no element does. */
  function FirstWhere<T>(s: seq<T>, p: T -> bool): (r: Option<nat>)
    ensures r.Some? ==> r.value < |s| && p(s[r.value])
    ensures r.Some? ==> forall j :: 0 <= j < r.value ==> !p(s[j])
    ensures r.None? <==> forall j :: 0 <= j < |s| ==> !p(s[j])
    decreases |s|
  {
    if |s| == 0 then None
    else if p(s[0]) then Some(0)
    else match FirstWhere(s[1..], p)
      case None => None
      case Some(k) => Some(k + 1)
  }

  /** The first match is the head of the filtered sequence. */
  lemma {:induction false} FirstWhereIsHeadOfWhere<T(!new)>(s: seq<T>, p: T -> bool)
    ensures FirstWhere(s, p).None? <==> Where(s, p) == []
    ensures FirstWhere(s, p).Some? ==> Where(s, p)[0] == s[FirstWhere(s, p).value]
    decreases |s|
  {
    if |s| > 0 {
      FirstWhereIsHeadOfWhere(s[1..], p);
      if !p(s[0]) {
        assert Where(s, p) == Where(s[1..], p);
      }
    }
  }

  /** `List.IndexOf(x)`: the index of the first occurrence of `x`, or -1. */
  function IndexOf<T(==)>(s: seq<T>, x: T): (r: int)
    ensures -1 <= r < |s|
    ensures r >= 0 ==> s[r] == x && forall j :: 0 <= j < r ==> s[j] != x
    ensures r == -1 <==> x !in s
    decreases |s|
  {
    if |s| == 0 then -1
    else if s[0] == x then 0
    else var k := IndexOf(s[1..], x); if k < 0 then -1 else k + 1
  }
}
