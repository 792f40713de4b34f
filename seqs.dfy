/**
 * Sequence operations that the front end builds from JavaScript's
 * Array.prototype.filter, Array.prototype.find and `[...new Set(xs)]`.
 */
module Seqs {

  datatype Option<+T> = None | Some(value: T)

  /** Array.prototype.filter: the elements of `s` that satisfy `p`, in order. */
  function Filter<T(!new)>(s: seq<T>, p: T -> bool): (r: seq<T>)
    ensures |r| <= |s|
    ensures forall x :: x in r <==> x in s && p(x)
  {
    if s == [] then []
    else if p(s[0]) then [s[0]] + Filter(s[1..], p)
    else Filter(s[1..], p)
  }

  /** Filtering distributes over concatenation, so the kept elements keep their order. */
  lemma {:induction false} FilterConcat<T(!new)>(a: seq<T>, b: seq<T>, p: T -> bool)
    ensures Filter(a + b, p) == Filter(a, p) + Filter(b, p)
  {
    if a == [] {
      assert a + b == b;
    } else {
      assert (a + b)[0] == a[0];
      assert (a + b)[1..] == a[1..] + b;
      FilterConcat(a[1..], b, p);
    }
  }

  /** Filters that agree on every element give the same result. */
  lemma {:induction false} FilterAgree<T(!new)>(s: seq<T>, p: T -> bool, q: T -> bool)
    requires forall x :: x in s ==> p(x) == q(x)
    ensures Filter(s, p) == Filter(s, q)
  {
    if s != [] {
      assert forall x :: x in s[1..] ==> x in s;
      FilterAgree(s[1..], p, q);
    }
  }

  /** A filter that every element passes keeps the whole sequence. */
  lemma {:induction false} FilterAll<T(!new)>(s: seq<T>, p: T -> bool)
    requires forall x :: x in s ==> p(x)
    ensures Filter(s, p) == s
  {
    if s != [] {
      assert forall x :: x in s[1..] ==> x in s;
      FilterAll(s[1..], p);
    }
  }

  /** Filtering an element that satisfies `p` onto the end appends it. */
  lemma FilterSnoc<T(!new)>(s: seq<T>, x: T, p: T -> bool)
    ensures Filter(s + [x], p) == Filter(s, p) + (if p(x) then [x] else [])
  {
    FilterConcat(s, [x], p);
  }

  lemma PrefixStep<T>(s: seq<T>, i: nat)
    requires i < |s|
    ensures s[..i + 1] == s[..i] + [s[i]]
  {
  }

  /** Array.prototype.find: the first element satisfying `p`, if any. */
  function Find<T>(s: seq<T>, p: T -> bool): (r: Option<T>)
    ensures r.Some? <==> exists i :: 0 <= i < |s| && p(s[i])
    ensures r.Some? ==> exists i :: 0 <= i < |s| && s[i] == r.value && p(s[i]) &&
                          forall j :: 0 <= j < i ==> !p(s[j])
  {
    if s == [] then None
    else if p(s[0]) then Some(s[0])
    else
      var r := Find(s[1..], p);
      assert forall i :: 0 < i < |s| ==> s[i] == s[1..][i - 1];
      r
  }

  /** `find` returns the element at the first index that satisfies `p`. */
  lemma FindAt<T>(s: seq<T>, p: T -> bool, i: nat)
    requires i < |s| && p(s[i])
    requires forall j :: 0 <= j < i ==> !p(s[j])
    ensures Find(s, p) == Some(s[i])
  {
    var r := Find(s, p);
    var k :| 0 <= k < |s| && s[k] == r.value && p(s[k]) && forall j :: 0 <= j < k ==> !p(s[j]);
    assert k == i;
  }

  /** The index of the first occurrence of `x` in `s`. */
  function FirstIndex<T(==)>(s: seq<T>, x: T): (i: nat)
    requires x in s
    ensures i < |s| && s[i] == x
    ensures forall j :: 0 <= j < i ==> s[j] != x
  {
    if s[0] == x then 0 else 1 + FirstIndex(s[1..], x)
  }

  lemma {:induction false} FirstIndexPrefix<T>(s: seq<T>, t: seq<T>, x: T)
    requires x in s
    ensures FirstIndex(s + t, x) == FirstIndex(s, x)
  {
    if s[0] != x {
      assert (s + t)[1..] == s[1..] + t;
      FirstIndexPrefix(s[1..], t, x);
    }
  }

  ghost predicate NoDuplicates<T>(s: seq<T>) {
    forall i, j :: 0 <= i < j < |s| ==> s[i] != s[j]
  }

  /**
   * `[...new Set(s)]`: a Set keeps the first insertion of each value and
   * iterates in insertion order. Each element is offered in turn, last one last.
   */
  function Distinct<T(==,!new)>(s: seq<T>): (r: seq<T>)
    ensures NoDuplicates(r)
    ensures forall x :: x in r <==> x in s
  {
    if s == [] then []
    else
      var init, last := s[..|s| - 1], s[|s| - 1];
      assert s == init + [last];
      var d := Distinct(init);
      if last in d then d else d + [last]
  }

  /** `[...new Set(s)]` lists the values in the order of their first occurrence in `s`. */
  lemma {:induction false} DistinctOrder<T(!new)>(s: seq<T>)
    ensures forall i, j :: 0 <= i < j < |Distinct(s)| ==>
      FirstIndex(s, Distinct(s)[i]) < FirstIndex(s, Distinct(s)[j])
  {
    if s != [] {
      var init, last := s[..|s| - 1], s[|s| - 1];
      var d := Distinct(init);
      assert s == init + [last];
      DistinctOrder(init);
      forall x | x in init ensures FirstIndex(s, x) == FirstIndex(init, x) {
        FirstIndexPrefix(init, [last], x);
      }
      if last !in d {
        assert last !in init;
        assert FirstIndex(s, last) == |s| - 1;
      }
    }
  }

  /** The first element of a non-empty sequence survives deduplication in front. */
  lemma {:induction false} DistinctHead<T(!new)>(s: seq<T>)
    requires s != []
    ensures Distinct(s) != [] && Distinct(s)[0] == s[0]
  {
    var r := Distinct(s);
    DistinctOrder(s);
    assert s[0] in r;
    var k := FirstIndex(r, s[0]);
    assert FirstIndex(s, r[k]) == 0;
    assert forall j :: 0 < j < |r| ==> FirstIndex(s, r[0]) < FirstIndex(s, r[j]);
  }

  /** Offering one more element appends it exactly when it was not seen before. */
  lemma DistinctSnoc<T(!new)>(s: seq<T>, x: T)
    ensures Distinct(s + [x]) == if x in s then Distinct(s) else Distinct(s) + [x]
  {
    var t := s + [x];
    assert t[..|t| - 1] == s;
  }
}
