/** Sequence helpers for the query shapes the controllers use: `where`
    filters, `count`, `orderBy createdAt desc` (the reverse of insertion
    order), and `skip`/`take` pagination. */
module Seqs {

  /** The elements of `s` that satisfy `p`, in their original order. */
  function Filter<T>(s: seq<T>, p: T -> bool): (r: seq<T>)
    ensures |r| <= |s|
    ensures forall x :: x in r ==> x in s && p(x)
    ensures forall x :: x in s && p(x) ==> x in r
  {
    if s == [] then []
    else if p(s[0]) then [s[0]] + Filter(s[1..], p)
    else Filter(s[1..], p)
  }

  /** Filtering distributes over appending one element at the end. */
  lemma {:induction false} FilterSnoc<T>(s: seq<T>, x: T, p: T -> bool)
    ensures Filter(s + [x], p) == Filter(s, p) + (if p(x) then [x] else [])
  {
    if s != [] {
      assert (s + [x])[1..] == s[1..] + [x];
      FilterSnoc(s[1..], x, p);
    }
  }

  /** Filtering distributes over concatenation. */
  lemma {:induction false} FilterConcat<T>(a: seq<T>, b: seq<T>, p: T -> bool)
    ensures Filter(a + b, p) == Filter(a, p) + Filter(b, p)
  {
    if a == [] {
      assert a + b == b;
    } else {
      assert (a + b)[1..] == a[1..] + b;
      FilterConcat(a[1..], b, p);
    }
  }

  /** Filtering by either of two predicates that never hold together keeps
      as many elements as the two filters together. */
  lemma {:induction false} FilterEitherCount<T>(s: seq<T>, p: T -> bool, q: T -> bool, pq: T -> bool)
    requires forall x :: x in s ==> !(p(x) && q(x)) && (pq(x) <==> p(x) || q(x))
    ensures |Filter(s, pq)| == |Filter(s, p)| + |Filter(s, q)|
  {
    if s != [] {
      FilterEitherCount(s[1..], p, q, pq);
    }
  }

  /** Filtering with a predicate that no element satisfies gives the empty sequence. */
  lemma {:induction false} FilterNone<T>(s: seq<T>, p: T -> bool)
    requires forall x :: x in s ==> !p(x)
    ensures Filter(s, p) == []
  {
    if s != [] {
      FilterNone(s[1..], p);
    }
  }

  /** Filtering with a predicate that every element satisfies changes nothing. */
  lemma {:induction false} FilterAll<T>(s: seq<T>, p: T -> bool)
    requires forall x :: x in s ==> p(x)
    ensures Filter(s, p) == s
  {
    if s != [] {
      FilterAll(s[1..], p);
    }
  }

  /** Filters with predicates that agree on the elements of `s` give the same result. */
  lemma {:induction false} FilterEquiv<T>(s: seq<T>, p: T -> bool, q: T -> bool)
    requires forall x :: x in s ==> p(x) == q(x)
    ensures Filter(s, p) == Filter(s, q)
  {
    if s != [] {
      FilterEquiv(s[1..], p, q);
    }
  }

  /** `P` holds of every pair of elements in order of position. */
  predicate Pairwise<T>(s: seq<T>, P: (T, T) -> bool) {
    forall i, j :: 0 <= i < j < |s| ==> P(s[i], s[j])
  }

  /** Filtering keeps the relative order, so it keeps a pairwise property. */
  lemma {:induction false} FilterPairwise<T>(s: seq<T>, p: T -> bool, P: (T, T) -> bool)
    requires Pairwise(s, P)
    ensures Pairwise(Filter(s, p), P)
  {
    if s != [] {
      assert Pairwise(s[1..], P);
      FilterPairwise(s[1..], p, P);
      if p(s[0]) {
        var rest := Filter(s[1..], p);
        forall j | 0 <= j < |rest|
          ensures P(s[0], rest[j])
        {
          assert rest[j] in rest;
          var k :| 0 <= k < |s[1..]| && s[1..][k] == rest[j];
          assert s[k + 1] == rest[j];
        }
        var r := Filter(s, p);
        assert r == [s[0]] + rest;
        forall i, j | 0 <= i < j < |r|
          ensures P(r[i], r[j])
        {
          if i == 0 {
            assert r[j] == rest[j - 1];
          } else {
            assert r[i] == rest[i - 1] && r[j] == rest[j - 1];
          }
        }
      }
    }
  }

  /** Number of elements of `s` that satisfy `p` (Prisma's `count`). */
  function Count<T>(s: seq<T>, p: T -> bool): (n: nat)
    ensures n == |Filter(s, p)|
  {
    |Filter(s, p)|
  }

  /** `s` newest first, when `s` is oldest first. */
  function Reverse<T>(s: seq<T>): (r: seq<T>)
    ensures |r| == |s|
    ensures forall i :: 0 <= i < |s| ==> r[i] == s[|s| - 1 - i]
  {
    seq(|s|, i requires 0 <= i < |s| => s[|s| - 1 - i])
  }

  /** Reversal moves the first element to the end. */
  lemma ReverseCons<T>(s: seq<T>)
    requires s != []
    ensures Reverse(s) == Reverse(s[1..]) + [s[0]]
  {
    var r := Reverse(s);
    var t := Reverse(s[1..]) + [s[0]];
    assert |r| == |t|;
    forall i | 0 <= i < |r|
      ensures r[i] == t[i]
    {
      if i < |s| - 1 {
        assert t[i] == s[1..][|s| - 2 - i];
      }
    }
  }

  /** Reversal of a concatenation. */
  lemma ReverseConcat<T>(a: seq<T>, b: seq<T>)
    ensures Reverse(a + b) == Reverse(b) + Reverse(a)
  {
    var r := Reverse(a + b);
    var t := Reverse(b) + Reverse(a);
    assert |r| == |t|;
    forall i | 0 <= i < |r|
      ensures r[i] == t[i]
    {
      if i < |b| {
        assert r[i] == (a + b)[|a| + |b| - 1 - i] == b[|b| - 1 - i];
      } else {
        assert r[i] == (a + b)[|a| + |b| - 1 - i] == a[|a| - 1 - (i - |b|)];
      }
    }
  }

  /** Filtering commutes with reversal. */
  lemma {:induction false} ReverseFilter<T>(s: seq<T>, p: T -> bool)
    ensures Reverse(Filter(s, p)) == Filter(Reverse(s), p)
  {
    if s != [] {
      var x := if p(s[0]) then [s[0]] else [];
      assert s == [s[0]] + s[1..];
      FilterConcat([s[0]], s[1..], p);
      assert Filter([s[0]], p) == x by {
        assert [s[0]][1..] == [];
      }
      ReverseConcat(x, Filter(s[1..], p));
      assert Reverse(x) == x;
      ReverseFilter(s[1..], p);
      ReverseCons(s);
      FilterSnoc(Reverse(s[1..]), s[0], p);
    }
  }

  /** Two filters commute. */
  lemma {:induction false} FilterCommute<T>(s: seq<T>, p: T -> bool, q: T -> bool)
    ensures Filter(Filter(s, p), q) == Filter(Filter(s, q), p)
  {
    if s != [] {
      var x := s[0];
      assert s == [x] + s[1..];
      FilterConcat([x], s[1..], p);
      FilterConcat([x], s[1..], q);
      assert [x][1..] == [];
      FilterConcat(Filter([x], p), Filter(s[1..], p), q);
      FilterConcat(Filter([x], q), Filter(s[1..], q), p);
      FilterCommute(s[1..], p, q);
      if p(x) && q(x) {
        assert Filter([x], p) == [x] && Filter([x], q) == [x];
      } else if p(x) {
        assert Filter([x], p) == [x] && Filter([x], q) == [];
        assert Filter([x], p)[1..] == [];
      } else if q(x) {
        assert Filter([x], q) == [x] && Filter([x], p) == [];
        assert Filter([x], q)[1..] == [];
      } else {
        assert Filter([x], p) == [] && Filter([x], q) == [];
      }
    }
  }

  /** How many rows a `skip`/`take` page over `n` rows holds: all the rows
      after the first `skip`, but no more than `take`. */
  function PageLength(n: nat, skip: nat, take: nat): nat {
    if skip >= n then 0 else if take <= n - skip then take else n - skip
  }

  /** Prisma's `skip`/`take`: drop the first `skip` elements, keep at most `take`. */
  function Window<T>(s: seq<T>, skip: nat, take: nat): (r: seq<T>)
    ensures |r| <= take
    ensures |r| == PageLength(|s|, skip, take)
    ensures skip <= |s| ==> |r| == if take <= |s| - skip then take else |s| - skip
    ensures skip >= |s| ==> r == []
    ensures forall i :: 0 <= i < |r| ==> r[i] == s[skip + i]
  {
    var rest := if skip < |s| then s[skip..] else [];
    if take < |rest| then rest[..take] else rest
  }

  /** `orderBy: { createdAt: 'desc' }` with `skip`/`take` over a table kept
      oldest first: the page of `s` read from its newest end. */
  function NewestPage<T>(s: seq<T>, skip: nat, take: nat): (r: seq<T>)
    ensures |r| <= take
    ensures |r| == PageLength(|s|, skip, take)
    ensures skip <= |s| ==> |r| == if take <= |s| - skip then take else |s| - skip
    ensures forall i :: 0 <= i < |r| ==> skip + i < |s| && r[i] == s[|s| - 1 - (skip + i)]
  {
    Window(Reverse(s), skip, take)
  }

  /** Sum of a sequence of integers. */
  function Sum(s: seq<int>): int {
    if s == [] then 0 else s[0] + Sum(s[1..])
  }

  /** A sum of values that are all at least one is positive exactly when
      there is at least one value. */
  lemma {:induction false} SumPositive(s: seq<int>)
    requires forall i :: 0 <= i < |s| ==> s[i] >= 1
    ensures Sum(s) >= |s|
    ensures Sum(s) > 0 <==> |s| > 0
  {
    if s != [] {
      SumPositive(s[1..]);
    }
  }
}
