/** The array operations the registry uses on its list of live
    registrations: `indexOf`, `splice`, and removing a work list. */
module Bookkeeping {

  /** No element occurs twice. */
  predicate Distinct<T(==)>(s: seq<T>) {
    forall i, j :: 0 <= i < j < |s| ==> s[i] != s[j]
  }

  /** `s.indexOf(x)`: the first position of `x`, or -1 when absent. */
  function IndexOf<T(==)>(s: seq<T>, x: T): (r: int)
    ensures -1 <= r < |s|
    ensures r == -1 <==> x !in s
    ensures 0 <= r ==> s[r] == x && x !in s[..r]
    decreases |s|
  {
    if s == [] then -1
    else if s[0] == x then 0
    else
      var k := IndexOf(s[1..], x);
      assert k >= 0 ==> s[..k + 1] == [s[0]] + s[1..][..k];
      if k == -1 then -1 else k + 1
  }

  /** `s.splice(i, 1)` for an index `i` of `s`: the element at `i` is gone. */
  function RemoveAt<T>(s: seq<T>, i: nat): (r: seq<T>)
    requires i < |s|
    ensures |r| == |s| - 1
    ensures forall j :: 0 <= j < i ==> r[j] == s[j]
    ensures forall j :: i <= j < |r| ==> r[j] == s[j + 1]
  {
    s[..i] + s[i + 1..]
  }

  /** `if (i > -1) s.splice(x, 1)` as written: `splice` converts the object
      `x` to a number, which is NaN and counts as start index 0, so it is
      the FIRST element that is removed, whatever `x` is. */
  function SpliceAsWritten<T(==)>(s: seq<T>, x: T): (r: seq<T>)
    ensures x in s ==> r == s[1..]
    ensures x !in s ==> r == s
  {
    if IndexOf(s, x) > -1 then s[1..] else s
  }

  /** The as-written removal is right only when `x` happens to be first;
      otherwise `x` stays and the first element is lost instead. */
  lemma SpliceAsWrittenRemovesHead<T>(s: seq<T>, x: T)
    requires x in s && s[0] != x
    ensures SpliceAsWritten(s, x) == s[1..]
    ensures x in SpliceAsWritten(s, x)
    ensures Distinct(s) ==> s[0] !in SpliceAsWritten(s, x)
  {
    var i := IndexOf(s, x);
    assert s[i] == x && i > 0;
    assert s[1..][i - 1] == x;
  }

  /** A concrete case: removing 2 from [1, 2] as written leaves [2]; the
      intended removal leaves [1]. */
  lemma SpliceAsWrittenExample()
    ensures SpliceAsWritten([1, 2], 2) == [2]
    ensures RemoveAt([1, 2], IndexOf([1, 2], 2)) == [1]
  {
    assert IndexOf([1, 2], 2) == 1;
  }

  /** The elements of `s` that are not in `drop`, in their order. */
  function Without<T(==)>(s: seq<T>, drop: seq<T>): seq<T>
    decreases |s|
  {
    if s == [] then []
    else (if s[0] in drop then [] else [s[0]]) + Without(s[1..], drop)
  }

  /** What survives the filter: no more than was there, only elements of
      `s` that are not dropped, and every element of `s` that is not. */
  lemma {:induction false} WithoutMembers<T>(s: seq<T>, drop: seq<T>)
    ensures |Without(s, drop)| <= |s|
    ensures forall i :: 0 <= i < |Without(s, drop)| ==> Without(s, drop)[i] in s && Without(s, drop)[i] !in drop
    ensures forall i :: 0 <= i < |s| ==> (s[i] in Without(s, drop) <==> s[i] !in drop)
    decreases |s|
  {
    if s != [] {
      WithoutMembers(s[1..], drop);
      var rest := Without(s[1..], drop);
      assert Without(s, drop) == (if s[0] in drop then [] else [s[0]]) + rest;
      forall i | 0 < i < |s| ensures s[i] == s[1..][i - 1] { }
    }
  }

  /** Removing the element at its (only) position is filtering it out. */
  lemma {:induction false} RemoveAtIsWithout<T>(s: seq<T>, i: nat)
    requires i < |s| && Distinct(s)
    ensures RemoveAt(s, i) == Without(s, [s[i]])
    decreases |s|
  {
    var t := s[1..];
    if i == 0 {
      assert s[0] !in t;
      WithoutAbsent(t, s[0]);
      assert Without(s, [s[0]]) == Without(t, [s[0]]);
    } else {
      assert t[i - 1] == s[i] && s[0] != s[i];
      assert Distinct(t);
      RemoveAtIsWithout(t, i - 1);
      assert Without(s, [s[i]]) == [s[0]] + Without(t, [s[i]]);
      assert RemoveAt(s, i) == [s[0]] + RemoveAt(t, i - 1);
    }
  }

  /** Removing a found element from a list without duplicates: the result
      is the list filtered for that element, still without duplicates. */
  lemma RemoveFound<T>(s: seq<T>, i: nat)
    requires i < |s| && Distinct(s)
    ensures RemoveAt(s, i) == Without(s, [s[i]])
    ensures Distinct(RemoveAt(s, i))
    ensures forall x :: x in RemoveAt(s, i) ==> x in s && x != s[i]
  {
    RemoveAtIsWithout(s, i);
    WithoutDistinct(s, [s[i]]);
  }

  /** `var i = s.indexOf(x); if (i > -1) s.splice(i, 1)`, the intended
      removal: the list filtered for `x`, still without duplicates. */
  function Drop<T(==)>(s: seq<T>, x: T): (r: seq<T>)
    requires Distinct(s)
    ensures r == Without(s, [x])
    ensures Distinct(r)
    ensures forall y :: y in r ==> y in s && y != x
  {
    var i := IndexOf(s, x);
    if i > -1 then RemoveFound(s, i); RemoveAt(s, i)
    else WithoutAbsent(s, x); s
  }

  /** Filtering out nothing changes nothing. */
  lemma {:induction false} WithoutNothing<T>(s: seq<T>)
    ensures Without(s, []) == s
    decreases |s|
  {
    if s != [] {
      WithoutNothing(s[1..]);
    }
  }

  /** Filtering out something absent changes nothing. */
  lemma {:induction false} WithoutAbsent<T>(s: seq<T>, x: T)
    requires x !in s
    ensures Without(s, [x]) == s
    decreases |s|
  {
    if s != [] {
      WithoutAbsent(s[1..], x);
    }
  }

  /** Filtering out an element just appended, and absent before, undoes
      the append. */
  lemma {:induction false} WithoutAppended<T>(s: seq<T>, x: T)
    requires x !in s
    ensures Without(s + [x], [x]) == s
    decreases |s|
  {
    if s == [] {
      assert Without([x], [x]) == [] + Without([], [x]);
    } else {
      assert (s + [x])[1..] == s[1..] + [x];
      WithoutAppended(s[1..], x);
    }
  }

  /** Filtering out a work list one element at a time. */
  lemma {:induction false} WithoutSnoc<T>(s: seq<T>, w: seq<T>, x: T)
    ensures Without(s, w + [x]) == Without(Without(s, w), [x])
    decreases |s|
  {
    if s != [] {
      WithoutSnoc(s[1..], w, x);
      var rest := Without(s[1..], w);
      if s[0] in w {
        assert Without(s, w) == rest;
      } else {
        var kept := [s[0]] + rest;
        assert Without(s, w) == kept;
        assert kept[0] == s[0] && kept[1..] == rest;
      }
    }
  }

  /** Filtering keeps elements distinct. */
  lemma {:induction false} WithoutDistinct<T>(s: seq<T>, drop: seq<T>)
    requires Distinct(s)
    ensures Distinct(Without(s, drop))
    decreases |s|
  {
    if s != [] {
      WithoutDistinct(s[1..], drop);
      WithoutMembers(s[1..], drop);
      assert s[0] !in s[1..];
    }
  }
}
