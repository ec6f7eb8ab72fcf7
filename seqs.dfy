/** The list operations the JavaScript code uses (`filter`, `findIndex`,
    `map`, `reverse`) as functions on sequences, with the facts about them
    that the rest of the model relies on. */
module Seqs {
  import opened Common

  /** `a` is an order-preserving sub-list of `b`. */
  predicate IsSubseq<T(==,!new)>(a: seq<T>, b: seq<T>)
    decreases |b|
  {
    if |a| == 0 then true
    else if |b| == 0 then false
    else (a[0] == b[0] && IsSubseq(a[1..], b[1..])) || IsSubseq(a, b[1..])
  }

  /** `Array.prototype.filter`: the elements satisfying `p`, in order. */
  function Filter<T(==,!new)>(s: seq<T>, p: T -> bool): (r: seq<T>)
    ensures |r| <= |s|
    ensures forall i :: 0 <= i < |r| ==> p(r[i])
    ensures forall x :: x in r <==> x in s && p(x)
  {
    if |s| == 0 then []
    else if p(s[0]) then [s[0]] + Filter(s[1..], p)
    else Filter(s[1..], p)
  }

  lemma {:induction false} FilterIsSubseq<T(!new)>(s: seq<T>, p: T -> bool)
    ensures IsSubseq(Filter(s, p), s)
  {
    if |s| > 0 {
      FilterIsSubseq(s[1..], p);
      if p(s[0]) {
        assert ([s[0]] + Filter(s[1..], p))[1..] == Filter(s[1..], p);
      }
    }
  }

  /** Filtering keeps every copy of an element that satisfies `p` and no
      copy of one that does not. */
  lemma {:induction false} FilterMultiset<T(!new)>(s: seq<T>, p: T -> bool)
    ensures forall x :: multiset(Filter(s, p))[x] == if p(x) then multiset(s)[x] else 0
  {
    if |s| > 0 {
      FilterMultiset(s[1..], p);
      assert s == [s[0]] + s[1..];
    }
  }

  /** An order-preserving sub-list holds no more copies of anything than
      the list it comes from. */
  lemma {:induction false} SubseqMultiset<T(!new)>(a: seq<T>, b: seq<T>)
    ensures IsSubseq(a, b) ==> multiset(a) <= multiset(b)
    decreases |b|
  {
    if |a| > 0 && |b| > 0 {
      assert b == [b[0]] + b[1..];
      SubseqMultiset(a, b[1..]);
      SubseqMultiset(a[1..], b[1..]);
      assert a == [a[0]] + a[1..];
    }
  }

  /** The sub-list and counting facts determine the filter: the only
      order-preserving sub-list of `s` holding every copy of each element
      that satisfies `p`, and nothing else, is `Filter(s, p)`. */
  lemma {:induction false} FilterUnique<T(!new)>(s: seq<T>, p: T -> bool, r: seq<T>)
    requires IsSubseq(r, s)
    requires forall x :: multiset(r)[x] == if p(x) then multiset(s)[x] else 0
    ensures r == Filter(s, p)
    decreases |s|
  {
    if |s| > 0 {
      assert s == [s[0]] + s[1..];
      if !p(s[0]) {
        assert s[0] !in multiset(r);
        assert IsSubseq(r, s[1..]);
        FilterUnique(s[1..], p, r);
      } else {
        SubseqMultiset(r, s[1..]);
        assert multiset(r)[s[0]] == multiset(s[1..])[s[0]] + 1;
        assert !IsSubseq(r, s[1..]);
        assert r == [r[0]] + r[1..];
        FilterUnique(s[1..], p, r[1..]);
      }
    }
  }

  lemma {:induction false} FilterAppend<T(!new)>(a: seq<T>, b: seq<T>, p: T -> bool)
    ensures Filter(a + b, p) == Filter(a, p) + Filter(b, p)
  {
    if |a| > 0 {
      assert (a + b)[1..] == a[1..] + b;
      FilterAppend(a[1..], b, p);
    } else {
      assert a + b == b;
    }
  }

  /** Filtering a list by a predicate and by its negation splits it in two. */
  lemma {:induction false} FilterComplement<T(!new)>(s: seq<T>, p: T -> bool, q: T -> bool)
    requires forall x :: q(x) == !p(x)
    ensures |Filter(s, p)| + |Filter(s, q)| == |s|
  {
    if |s| > 0 {
      FilterComplement(s[1..], p, q);
    }
  }

  /** A filter whose predicate holds everywhere keeps the whole list. */
  lemma {:induction false} FilterKeepsAll<T(!new)>(s: seq<T>, p: T -> bool)
    requires forall i :: 0 <= i < |s| ==> p(s[i])
    ensures Filter(s, p) == s
  {
    if |s| > 0 {
      FilterKeepsAll(s[1..], p);
    }
  }

  /** A filter whose predicate fails everywhere keeps nothing. */
  lemma {:induction false} FilterDropsAll<T(!new)>(s: seq<T>, p: T -> bool)
    requires forall i :: 0 <= i < |s| ==> !p(s[i])
    ensures Filter(s, p) == []
  {
    if |s| > 0 {
      FilterDropsAll(s[1..], p);
    }
  }

  /** Filtering a one-element list. */
  lemma FilterSingleton<T(!new)>(x: T, p: T -> bool)
    ensures Filter([x], p) == if p(x) then [x] else []
  {
    assert [x][1..] == [];
  }

  /** Filters by predicates that agree on every element are equal. */
  lemma {:induction false} FilterSame<T(!new)>(s: seq<T>, p: T -> bool, q: T -> bool)
    requires forall i :: 0 <= i < |s| ==> p(s[i]) == q(s[i])
    ensures Filter(s, p) == Filter(s, q)
  {
    if |s| > 0 {
      FilterSame(s[1..], p, q);
    }
  }

  /** Filtering out every element a `MapIf` may touch undoes the map. */
  lemma {:induction false} FilterDropsMapped<T(!new)>(s: seq<T>, p: T -> bool, f: T -> T, q: T -> bool)
    requires forall x :: p(x) ==> !q(x) && !q(f(x))
    ensures Filter(MapIf(s, p, f), q) == Filter(s, q)
  {
    if |s| > 0 {
      assert MapIf(s, p, f)[1..] == MapIf(s[1..], p, f);
      FilterDropsMapped(s[1..], p, f, q);
    }
  }

  /** `findIndex`: the first position whose element satisfies `p`. */
  function IndexWhere<T>(s: seq<T>, p: T -> bool): (r: Option<nat>)
    ensures r.Some? ==> r.value < |s| && p(s[r.value])
    ensures r.Some? ==> forall j :: 0 <= j < r.value ==> !p(s[j])
    ensures r.None? <==> forall j :: 0 <= j < |s| ==> !p(s[j])
  {
    if |s| == 0 then None
    else if p(s[0]) then Some(0)
    else match IndexWhere(s[1..], p)
      case None => None
      case Some(k) => Some(k + 1)
  }

  /** The list read back to front. */
  function Reverse<T>(s: seq<T>): (r: seq<T>)
    ensures |r| == |s|
    ensures forall i :: 0 <= i < |s| ==> r[i] == s[|s| - 1 - i]
  {
    if |s| == 0 then [] else Reverse(s[1..]) + [s[0]]
  }

  /** `s.map(x => p(x) ? f(x) : x)`. */
  function MapIf<T>(s: seq<T>, p: T -> bool, f: T -> T): (r: seq<T>)
    ensures |r| == |s|
    ensures forall i :: 0 <= i < |s| ==> r[i] == if p(s[i]) then f(s[i]) else s[i]
  {
    seq(|s|, i requires 0 <= i < |s| => if p(s[i]) then f(s[i]) else s[i])
  }

  /** `s.filter((_, j) => j !== i)`: drops position `i`, if there is one. */
  function RemoveIndex<T>(s: seq<T>, i: nat): (r: seq<T>)
    ensures i < |s| ==> |r| == |s| - 1
    ensures i < |s| ==> forall j :: 0 <= j < i ==> r[j] == s[j]
    ensures i < |s| ==> forall j :: i <= j < |r| ==> r[j] == s[j + 1]
    ensures i >= |s| ==> r == s
  {
    if i < |s| then s[..i] + s[i + 1..] else s
  }

  function KeyIs<T>(key: T -> Id, id: Id): T -> bool {
    (x: T) => key(x) == id
  }

  function KeyIsNot<T>(key: T -> Id, id: Id): T -> bool {
    (x: T) => key(x) != id
  }

  /** `s.filter(x => x._id !== id)`: the records without that id, in
      order. */
  function WithoutId<T(==,!new)>(s: seq<T>, key: T -> Id, id: Id): (r: seq<T>)
    ensures IsSubseq(r, s)
    ensures forall x :: x in r <==> x in s && key(x) != id
    ensures forall x :: multiset(r)[x] == if key(x) != id then multiset(s)[x] else 0
  {
    FilterIsSubseq(s, KeyIsNot(key, id));
    FilterMultiset(s, KeyIsNot(key, id));
    Filter(s, KeyIsNot(key, id))
  }

  /** `s.map(x => x._id === id ? updated : x)`. */
  function ReplaceId<T>(s: seq<T>, key: T -> Id, id: Id, updated: T): (r: seq<T>)
    ensures |r| == |s|
    ensures forall i :: 0 <= i < |s| ==> r[i] == (if key(s[i]) == id then updated else s[i])
  {
    MapIf(s, KeyIs(key, id), _ => updated)
  }

  /** A replacement under the same id touches no other record: with
      that id taken out, the list is what it was. */
  lemma ReplaceIdTouchesOnlyThatId<T(!new)>(s: seq<T>, key: T -> Id, id: Id, updated: T)
    requires key(updated) == id
    ensures WithoutId(ReplaceId(s, key, id, updated), key, id) == WithoutId(s, key, id)
  {
    FilterDropsMapped(s, KeyIs(key, id), _ => updated, KeyIsNot(key, id));
  }
}
