/** `Array.prototype.filter`, defined once and reused by every module that filters a list. */
module Seqs {

  /** The elements of `s` that satisfy `keep`, in their original order. */
  function Filter<T>(s: seq<T>, keep: T -> bool): (r: seq<T>)
    ensures |r| <= |s|
    ensures forall i :: 0 <= i < |r| ==> keep(r[i]) && r[i] in s
    ensures forall i :: 0 <= i < |s| && keep(s[i]) ==> s[i] in r
  {
    if s == [] then [] else (if keep(s[0]) then [s[0]] else []) + Filter(s[1..], keep)
  }

  /** Filtering distributes over concatenation: the kept elements keep their relative order. */
  lemma {:induction false} FilterConcat<T>(a: seq<T>, b: seq<T>, keep: T -> bool)
    ensures Filter(a + b, keep) == Filter(a, keep) + Filter(b, keep)
  {
    if a == [] {
      assert a + b == b;
    } else {
      assert (a + b)[0] == a[0];
      assert (a + b)[1..] == a[1..] + b;
      FilterConcat(a[1..], b, keep);
    }
  }

  /** Filtering around one element: the parts before and after are filtered, and the element kept exactly when it passes. */
  lemma FilterAround<T>(a: seq<T>, x: T, b: seq<T>, keep: T -> bool)
    ensures Filter(a + [x] + b, keep) == Filter(a, keep) + (if keep(x) then [x] else []) + Filter(b, keep)
  {
    var one: seq<T> := [x];
    assert one[0] == x && one[1..] == [];
    var none: seq<T> := [];
    assert Filter(none, keep) == [];
    assert Filter(one, keep) == (if keep(x) then [x] else []) + Filter(none, keep);
    FilterConcat(a, one, keep);
    FilterConcat(a + one, b, keep);
  }

  /** Filtering a list with one more element in front keeps that element exactly when it passes. */
  lemma FilterCons<T>(x: T, s: seq<T>, keep: T -> bool)
    ensures multiset(Filter([x] + s, keep)) == (if keep(x) then multiset{x} else multiset{}) + multiset(Filter(s, keep))
  {
    assert ([x] + s)[0] == x && ([x] + s)[1..] == s;
  }

  /** A filter whose test every element passes keeps the whole list. */
  lemma {:induction false} FilterKeepsAll<T>(s: seq<T>, keep: T -> bool)
    requires forall i :: 0 <= i < |s| ==> keep(s[i])
    ensures Filter(s, keep) == s
  {
    if s != [] {
      FilterKeepsAll(s[1..], keep);
    }
  }

  /** The elements kept and the elements dropped together make up the whole list. */
  lemma {:induction false} FilterSplit<T>(s: seq<T>, keep: T -> bool)
    ensures multiset(Filter(s, keep)) + multiset(Filter(s, x => !keep(x))) == multiset(s)
  {
    if s != [] {
      FilterSplit(s[1..], keep);
      assert s == [s[0]] + s[1..];
    }
  }

  /** A filter that rejects exactly the element at `i` removes that element and nothing else. */
  lemma {:induction false} FilterDropsOne<T>(s: seq<T>, i: nat, keep: T -> bool)
    requires i < |s| && !keep(s[i])
    requires forall j :: 0 <= j < |s| && j != i ==> keep(s[j])
    ensures Filter(s, keep) == s[..i] + s[i + 1..]
  {
    var pre, post := s[..i], s[i + 1..];
    assert s == (pre + [s[i]]) + post;
    FilterConcat(pre + [s[i]], post, keep);
    FilterConcat(pre, [s[i]], keep);
    assert Filter([s[i]], keep) == [] by {
      assert [s[i]][1..] == [];
    }
    forall j | 0 <= j < |pre|
      ensures keep(pre[j])
    {
      assert pre[j] == s[j];
    }
    FilterKeepsAll(pre, keep);
    forall j | 0 <= j < |post|
      ensures keep(post[j])
    {
      assert post[j] == s[i + 1 + j];
    }
    FilterKeepsAll(post, keep);
  }
}
