/** What the SQL statements of both persistence adapters do to a table,
    stated on the sequence of its rows: WHERE filters, ORDER BY created_at
    DESC, LIMIT / OFFSET, the projection of rows into entities, the primary
    key, and the wrapping of driver failures. */
module Tables {
  import opened Prelude
  import opened Errors

  /** Every driver failure leaves the adapter as an `Internal` error with
      code "DB_ERROR" carrying the driver's text. */
  function DbError(detail: string): (e: DomainError)
    ensures e.code == "DB_ERROR" && e.category == Internal && e.message == detail
  {
    NewInternal("DB_ERROR", detail)
  }

  /** Primary key: no two rows share a key. */
  ghost predicate DistinctKeys<T, K>(s: seq<T>, key: T -> K) {
    forall i, j :: 0 <= i < j < |s| ==> key(s[i]) != key(s[j])
  }

  /** WHERE: the rows satisfying `p`, in table order, each as often as the
      table holds it. */
  function Filter<T(==)>(s: seq<T>, p: T -> bool): (r: seq<T>)
    ensures forall x | x in r :: x in s && p(x)
    ensures forall x | x in s && p(x) :: x in r
    ensures forall x | x in s :: multiset(r)[x] == if p(x) then multiset(s)[x] else 0
    ensures |r| <= |s|
    ensures (forall x | x in s :: p(x)) ==> r == s
  {
    if s == [] then []
    else
      assert s == [s[0]] + s[1..];
      if p(s[0]) then [s[0]] + Filter(s[1..], p)
      else Filter(s[1..], p)
  }

  /** Removing rows never breaks the primary key. */
  lemma {:induction false} FilterKeepsDistinct<T, K>(s: seq<T>, p: T -> bool, key: T -> K)
    requires DistinctKeys(s, key)
    ensures DistinctKeys(Filter(s, p), key)
  {
    if s != [] {
      FilterKeepsDistinct(s[1..], p, key);
      if p(s[0]) {
        var rest := Filter(s[1..], p);
        var r := [s[0]] + rest;
        forall i, j | 0 <= i < j < |r| ensures key(r[i]) != key(r[j]) {
          if i == 0 {
            assert r[j] in s[1..];
            var k :| 0 <= k < |s[1..]| && s[1..][k] == r[j];
            assert s[k + 1] == r[j];
          } else {
            assert r[i] == rest[i - 1] && r[j] == rest[j - 1];
          }
        }
      }
    }
  }

  /** Projection of every row: `rows.into_iter().map(f).collect()`. */
  function MapSeq<T, U>(s: seq<T>, f: T -> U): (r: seq<U>)
    ensures |r| == |s|
    ensures forall i :: 0 <= i < |s| ==> r[i] == f(s[i])
  {
    if s == [] then [] else [f(s[0])] + MapSeq(s[1..], f)
  }

  lemma {:induction false} MapConcat<T, U>(a: seq<T>, b: seq<T>, f: T -> U)
    ensures MapSeq(a + b, f) == MapSeq(a, f) + MapSeq(b, f)
  {
    assert forall i :: 0 <= i < |a + b| ==> MapSeq(a + b, f)[i] == (MapSeq(a, f) + MapSeq(b, f))[i];
  }

  lemma {:induction false} MultisetCancel<T>(m1: multiset<T>, m2: multiset<T>, x: T)
    requires m1 + multiset{x} == m2 + multiset{x}
    ensures m1 == m2
  {
    assert forall y :: m1[y] == (m1 + multiset{x})[y] - multiset{x}[y];
    assert forall y :: m2[y] == (m2 + multiset{x})[y] - multiset{x}[y];
  }

  /** Removing the same element from two orderings of one multiset leaves
      two orderings of one multiset. */
  lemma {:induction false} RemoveMatching<T>(a: seq<T>, b: seq<T>, k: nat)
    requires multiset(a) == multiset(b) && a != [] && k < |b| && b[k] == a[0]
    ensures multiset(a[1..]) == multiset(b[..k] + b[k + 1..])
  {
    var x := a[0];
    assert a == [x] + a[1..];
    assert b == b[..k] + [x] + b[k + 1..];
    calc {
      multiset(a[1..]) + multiset{x};
      multiset(a);
      multiset(b);
      multiset(b[..k]) + multiset{x} + multiset(b[k + 1..]);
      multiset(b[..k] + b[k + 1..]) + multiset{x};
    }
    MultisetCancel(multiset(a[1..]), multiset(b[..k] + b[k + 1..]), x);
  }

  /** Projecting a sequence projects its element at `k` and the rest. */
  lemma {:induction false} MapRemoved<T, U>(b: seq<T>, k: nat, f: T -> U)
    requires k < |b|
    ensures multiset(MapSeq(b, f)) == multiset(MapSeq(b[..k] + b[k + 1..], f)) + multiset{f(b[k])}
  {
    var left, right := b[..k], b[k + 1..];
    assert b == left + [b[k]] + right;
    MapConcat(left + [b[k]], right, f);
    MapConcat(left, [b[k]], f);
    MapConcat(left, right, f);
    var ml, mr := MapSeq(left, f), MapSeq(right, f);
    assert MapSeq([b[k]], f) == [f(b[k])];
    assert MapSeq(b, f) == ml + [f(b[k])] + mr;
    assert MapSeq(b[..k] + b[k + 1..], f) == ml + mr;
    calc {
      multiset(MapSeq(b, f));
      multiset(ml + [f(b[k])] + mr);
      multiset(ml) + multiset{f(b[k])} + multiset(mr);
      multiset(ml + mr) + multiset{f(b[k])};
    }
  }

  /** Projecting two orderings of the same rows gives two orderings of the
      same entities. */
  lemma {:induction false} MapPreservesPermutation<T, U>(a: seq<T>, b: seq<T>, f: T -> U)
    requires multiset(a) == multiset(b)
    ensures multiset(MapSeq(a, f)) == multiset(MapSeq(b, f))
    decreases |a|
  {
    if a == [] {
      assert |b| == |multiset(b)| == 0;
    } else {
      assert a[0] in multiset(b);
      var k :| 0 <= k < |b| && b[k] == a[0];
      RemoveMatching(a, b, k);
      MapPreservesPermutation(a[1..], b[..k] + b[k + 1..], f);
      MapRemoved(b, k, f);
      MapRemoved(a, 0, f);
      assert a[..0] + a[1..] == a[1..];
    }
  }

  /** ORDER BY key DESC, as a property of a sequence. */
  ghost predicate NonIncreasing<T>(s: seq<T>, key: T -> int) {
    forall i, j :: 0 <= i < j < |s| ==> key(s[i]) >= key(s[j])
  }

  /** Putting an element in front of a descending sequence keeps it
      descending when the element's key is at least the head's. */
  lemma {:induction false} ConsNonIncreasing<T>(h: T, t: seq<T>, key: T -> int)
    requires NonIncreasing(t, key)
    requires t != [] ==> key(h) >= key(t[0])
    ensures NonIncreasing([h] + t, key)
  {
    var r := [h] + t;
    forall i, j | 0 <= i < j < |r| ensures key(r[i]) >= key(r[j]) {
      if i == 0 {
        assert r[j] == t[j - 1];
        if j > 1 {
          assert key(t[0]) >= key(t[j - 1]);
        }
      } else {
        assert r[i] == t[i - 1] && r[j] == t[j - 1];
      }
    }
  }

  /** Insertion into a sequence already ordered by descending key; `x` goes
      before the elements whose key is not greater than its own. */
  function InsertDesc<T(==)>(x: T, s: seq<T>, key: T -> int): (r: seq<T>)
    requires NonIncreasing(s, key)
    ensures multiset(r) == multiset(s) + multiset{x}
    ensures |r| == |s| + 1 && (r[0] == x || (s != [] && r[0] == s[0]))
    ensures NonIncreasing(r, key)
  {
    if s == [] || key(s[0]) <= key(x) then
      ConsNonIncreasing(x, s, key);
      [x] + s
    else
      var tail := s[1..];
      assert NonIncreasing(tail, key) by {
        forall i, j | 0 <= i < j < |tail| ensures key(tail[i]) >= key(tail[j]) {
          assert tail[i] == s[i + 1] && tail[j] == s[j + 1];
        }
      }
      var rest := InsertDesc(x, tail, key);
      assert tail != [] ==> key(s[0]) >= key(tail[0]) by {
        if tail != [] {
          assert tail[0] == s[1];
        }
      }
      ConsNonIncreasing(s[0], rest, key);
      assert s == [s[0]] + tail;
      [s[0]] + rest
  }

  /** ORDER BY key DESC: a permutation of the rows in descending key order.
      The database leaves the order among equal keys open; this definition
      settles it as table order, and its contract claims no more than the
      database does. */
  function SortDesc<T(==)>(s: seq<T>, key: T -> int): (r: seq<T>)
    ensures multiset(r) == multiset(s)
    ensures NonIncreasing(r, key)
  {
    if s == [] then []
    else
      assert s == [s[0]] + s[1..];
      InsertDesc(s[0], SortDesc(s[1..], key), key)
  }

  /** `sorted` is one of the orders ORDER BY key DESC may return for `s`. */
  ghost predicate SortedDescOf<T>(sorted: seq<T>, s: seq<T>, key: T -> int) {
    multiset(sorted) == multiset(s) && NonIncreasing(sorted, key)
  }

  /** The number of rows skipped by OFFSET (none when absent). */
  function Skipped(offset: Option<nat>): nat {
    offset.GetOr(0)
  }

  /** Where the page starts in a sequence of `n` rows. */
  function Start(n: nat, offset: Option<nat>): nat {
    if Skipped(offset) <= n then Skipped(offset) else n
  }

  /** How many of `n` rows LIMIT / OFFSET let through. */
  function PageSize(n: nat, limit: Option<nat>, offset: Option<nat>): nat {
    var rest := if Skipped(offset) <= n then n - Skipped(offset) else 0;
    if limit.Some? && limit.value < rest then limit.value else rest
  }

  /** LIMIT / OFFSET: skip `offset` rows, then keep at most `limit`; the
      rows kept are consecutive rows of the input, in order. */
  function Page<T>(s: seq<T>, limit: Option<nat>, offset: Option<nat>): (r: seq<T>)
    ensures |r| == PageSize(|s|, limit, offset)
    ensures limit.Some? ==> |r| <= limit.value
    ensures Start(|s|, offset) + |r| <= |s|
    ensures forall i :: 0 <= i < |r| ==> r[i] == s[Skipped(offset) + i]
    ensures r == s[Start(|s|, offset)..Start(|s|, offset) + |r|]
  {
    var rest := s[Start(|s|, offset)..];
    if limit.Some? && limit.value < |rest| then rest[..limit.value] else rest
  }

  /** Neither LIMIT nor OFFSET: the page is the whole input. */
  lemma PageUnbounded<T>(s: seq<T>, offset: Option<nat>)
    requires Skipped(offset) == 0
    ensures Page(s, None, offset) == s
  {
  }

  /** A page never holds more rows than its input. */
  lemma PageSizeBound(n: nat, limit: Option<nat>, offset: Option<nat>)
    ensures PageSize(n, limit, offset) <= n
    ensures limit.None? && Skipped(offset) == 0 ==> PageSize(n, limit, offset) == n
  {
  }

  /** A page holds no element its input does not. */
  lemma {:induction false} PageWithin<T>(s: seq<T>, limit: Option<nat>, offset: Option<nat>)
    ensures multiset(Page(s, limit, offset)) <= multiset(s)
  {
    var r := Page(s, limit, offset);
    var lo := Start(|s|, offset);
    assert s == s[..lo] + r + s[lo + |r|..];
  }

  /** A consecutive run of a descending sequence is descending. */
  lemma {:induction false} SliceNonIncreasing<T>(s: seq<T>, lo: nat, hi: nat, key: T -> int)
    requires lo <= hi <= |s| && NonIncreasing(s, key)
    ensures NonIncreasing(s[lo..hi], key)
  {
    var r := s[lo..hi];
    forall i, j | 0 <= i < j < |r| ensures key(r[i]) >= key(r[j]) {
      assert r[i] == s[lo + i] && r[j] == s[lo + j];
    }
  }

  /** A page of an ordered sequence is ordered, and holds no element the
      sequence does not. */
  lemma {:induction false} PageOfSorted<T>(s: seq<T>, limit: Option<nat>, offset: Option<nat>, key: T -> int)
    requires NonIncreasing(s, key)
    ensures NonIncreasing(Page(s, limit, offset), key)
    ensures multiset(Page(s, limit, offset)) <= multiset(s)
  {
    var r := Page(s, limit, offset);
    var lo := Start(|s|, offset);
    SliceNonIncreasing(s, lo, lo + |r|, key);
    PageWithin(s, limit, offset);
  }

  /** Projecting a page: the projected page is the page of the projection,
      and holds only projections of the whole input. */
  lemma {:induction false} MapPage<T, U>(s: seq<T>, limit: Option<nat>, offset: Option<nat>, f: T -> U)
    ensures MapSeq(Page(s, limit, offset), f) == Page(MapSeq(s, f), limit, offset)
    ensures multiset(MapSeq(Page(s, limit, offset), f)) <= multiset(MapSeq(s, f))
  {
    var r := Page(s, limit, offset);
    var lo := Start(|s|, offset);
    assert s == s[..lo] + r + s[lo + |r|..];
    MapConcat(s[..lo] + r, s[lo + |r|..], f);
    MapConcat(s[..lo], r, f);
  }
}
