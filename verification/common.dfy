/** Small building blocks shared by the posture, catalogue and monitor models:
    an optional value, counting and filtering over sequences, and the
    order-preserving subsequence relation the list queries promise. */
module Common {

  /** Python's `None` or a present value. */
  datatype Option<+T> = None | Some(value: T)

  /** The number of elements of `s` that satisfy `p` (Python's `sum(1 for x in s if p(x))`). */
  function Count<T>(s: seq<T>, p: T -> bool): (n: nat)
    ensures n <= |s|
    ensures n == 0 <==> forall i :: 0 <= i < |s| ==> !p(s[i])
    ensures n == |s| <==> forall i :: 0 <= i < |s| ==> p(s[i])
  {
    if s == [] then 0
    else
      var rest := Count(s[1..], p);
      assert forall i :: 1 <= i < |s| ==> s[i] == s[1..][i - 1];
      (if p(s[0]) then 1 else 0) + rest
  }

  /** Two cuts split a sequence into three consecutive pieces. */
  lemma ThreePieces<T>(s: seq<T>, a: nat, b: nat)
    requires a <= b <= |s|
    ensures s[..a] + s[a..b] == s[..b]
    ensures s[..b] + s[b..] == s
  {
  }

  /** A weaker predicate never counts fewer elements. */
  lemma {:induction false} CountMonotone<T>(s: seq<T>, p: T -> bool, q: T -> bool)
    requires forall i :: 0 <= i < |s| ==> p(s[i]) ==> q(s[i])
    ensures Count(s, p) <= Count(s, q)
  {
    if s != [] {
      assert forall i :: 0 <= i < |s| - 1 ==> s[1..][i] == s[i + 1];
      CountMonotone(s[1..], p, q);
    }
  }

  /** `r` can be obtained from `s` by deleting elements, keeping the order of the rest. */
  predicate SubsequenceOf<T(==)>(r: seq<T>, s: seq<T>)
    decreases |s|
  {
    r == [] ||
    (s != [] &&
     ((r[0] == s[0] && SubsequenceOf(r[1..], s[1..])) || SubsequenceOf(r, s[1..])))
  }

  /** Python's list comprehension `[x for x in s if p(x)]`. */
  function Filter<T(==,!new)>(s: seq<T>, p: T -> bool): (r: seq<T>)
    ensures |r| == Count(s, p)
    ensures forall x :: x in r <==> x in s && p(x)
  {
    if s == [] then []
    else
      var rest := Filter(s[1..], p);
      assert s == [s[0]] + s[1..];
      if p(s[0]) then [s[0]] + rest else rest
  }

  /** The filtered sequence keeps the order of `s`. */
  lemma {:induction false} FilterSubsequence<T(!new)>(s: seq<T>, p: T -> bool)
    ensures SubsequenceOf(Filter(s, p), s)
  {
    if s != [] {
      var rest := Filter(s[1..], p);
      FilterSubsequence(s[1..], p);
      if p(s[0]) {
        assert ([s[0]] + rest)[1..] == rest;
      } else if rest != [] {
        assert rest[0] in rest;
      }
    }
  }

  /** Each kept element is kept as often as it occurs in `s`; the others not at all. */
  lemma {:induction false} FilterMultiset<T(!new)>(s: seq<T>, p: T -> bool)
    ensures forall x :: multiset(Filter(s, p))[x] == if p(x) then multiset(s)[x] else 0
  {
    if s != [] {
      FilterMultiset(s[1..], p);
      assert s == [s[0]] + s[1..];
      assert multiset(s) == multiset{s[0]} + multiset(s[1..]);
    }
  }

  /** Filtering with a predicate implied by another keeps everything the first one kept, in order. */
  lemma {:induction false} FilterMonotone<T(!new)>(s: seq<T>, p: T -> bool, q: T -> bool)
    requires forall i :: 0 <= i < |s| ==> p(s[i]) ==> q(s[i])
    ensures SubsequenceOf(Filter(s, p), Filter(s, q))
  {
    if s != [] {
      assert forall i :: 0 <= i < |s| - 1 ==> s[1..][i] == s[i + 1];
      FilterMonotone(s[1..], p, q);
      var fp, fq := Filter(s[1..], p), Filter(s[1..], q);
      if p(s[0]) {
        assert Filter(s, p) == [s[0]] + fp;
        assert Filter(s, q) == [s[0]] + fq;
        assert ([s[0]] + fp)[1..] == fp;
        assert ([s[0]] + fq)[1..] == fq;
      } else if q(s[0]) {
        assert Filter(s, p) == fp;
        assert Filter(s, q) == [s[0]] + fq;
        assert ([s[0]] + fq)[1..] == fq;
      }
    }
  }

  /** A head that satisfies the predicate is kept in front of the filtered tail. */
  lemma FilterKeepsHead<T(!new)>(s: seq<T>, p: T -> bool)
    requires s != [] && p(s[0])
    ensures Filter(s, p) == [s[0]] + Filter(s[1..], p)
  {
  }

  /** A predicate that holds everywhere keeps the whole sequence. */
  lemma {:induction false} FilterAll<T(!new)>(s: seq<T>, p: T -> bool)
    requires forall i :: 0 <= i < |s| ==> p(s[i])
    ensures Filter(s, p) == s
  {
    if s != [] {
      var t := s[1..];
      forall i | 0 <= i < |t|
        ensures p(t[i])
      {
        assert t[i] == s[i + 1];
      }
      FilterAll(t, p);
      FilterKeepsHead(s, p);
      assert s == [s[0]] + t;
    }
  }
}
