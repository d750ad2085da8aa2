/** `Array.prototype.sort` with a comparator, as the client uses it to order matches and team
    statistics. The language requires this sort to be stable; it is modelled as an insertion
    sort that places each element after every earlier element that does not compare above it. */
module Sorting {

  /** The comparator orders all values consistently: any two are comparable and `<= 0` chains. */
  ghost predicate TotalPreorder<T(!new)>(cmp: (T, T) -> int) {
    && (forall a, b :: cmp(a, b) <= 0 || cmp(b, a) <= 0)
    && (forall a, b, c :: cmp(a, b) <= 0 && cmp(b, c) <= 0 ==> cmp(a, c) <= 0)
  }

  /** No element compares above an element placed after it. */
  ghost predicate SortedBy<T>(s: seq<T>, cmp: (T, T) -> int) {
    forall i, j :: 0 <= i < j < |s| ==> cmp(s[i], s[j]) <= 0
  }

  /** Inserts `x` into `s` after the last element that does not compare above `x`. */
  function Insert<T>(s: seq<T>, x: T, cmp: (T, T) -> int): (r: seq<T>)
    ensures multiset(r) == multiset(s) + multiset{x}
  {
    if s == [] then [x]
    else if cmp(s[|s| - 1], x) <= 0 then s + [x]
    else
      assert s == s[..|s| - 1] + [s[|s| - 1]];
      Insert(s[..|s| - 1], x, cmp) + [s[|s| - 1]]
  }

  /** `s.sort(cmp)`: a stable sort of `s`. */
  function SortBy<T>(s: seq<T>, cmp: (T, T) -> int): (r: seq<T>)
    ensures multiset(r) == multiset(s)
  {
    if s == [] then []
    else
      assert s == s[..|s| - 1] + [s[|s| - 1]];
      Insert(SortBy(s[..|s| - 1], cmp), s[|s| - 1], cmp)
  }

  lemma {:induction false} InsertSorted<T(!new)>(s: seq<T>, x: T, cmp: (T, T) -> int)
    requires TotalPreorder(cmp)
    requires SortedBy(s, cmp)
    ensures SortedBy(Insert(s, x, cmp), cmp)
  {
    if s != [] {
      var last := s[|s| - 1];
      if cmp(last, x) <= 0 {
        var r := s + [x];
        forall i, j | 0 <= i < j < |r| ensures cmp(r[i], r[j]) <= 0 {
          if j == |s| && i < |s| - 1 {
            assert cmp(s[i], last) <= 0;
          }
        }
      } else {
        var init := s[..|s| - 1];
        assert SortedBy(init, cmp);
        InsertSorted(init, x, cmp);
        assert cmp(x, last) <= 0;
        assert forall k :: 0 <= k < |init| ==> cmp(init[k], last) <= 0 by {
          forall k | 0 <= k < |init| ensures cmp(init[k], last) <= 0 {
            assert init[k] == s[k];
          }
        }
        InsertBelow(init, x, last, cmp);
        var ins := Insert(init, x, cmp);
        var r := ins + [last];
        forall i, j | 0 <= i < j < |r| ensures cmp(r[i], r[j]) <= 0 {
          if j < |ins| {
            assert r[i] == ins[i] && r[j] == ins[j];
          } else {
            assert r[i] == ins[i] && r[j] == last;
          }
        }
      }
    }
  }

  /** When `x` and every element of `s` compare at most `bound`, so does every element of the
      insertion. */
  lemma InsertBelow<T>(s: seq<T>, x: T, bound: T, cmp: (T, T) -> int)
    requires forall k :: 0 <= k < |s| ==> cmp(s[k], bound) <= 0
    requires cmp(x, bound) <= 0
    ensures forall k :: 0 <= k < |Insert(s, x, cmp)| ==> cmp(Insert(s, x, cmp)[k], bound) <= 0
  {
    var ins := Insert(s, x, cmp);
    forall k | 0 <= k < |ins| ensures cmp(ins[k], bound) <= 0 {
      assert ins[k] in multiset(ins);
      if ins[k] != x {
        assert ins[k] in multiset(s);
        var m :| 0 <= m < |s| && s[m] == ins[k];
      }
    }
  }

  lemma {:induction false} SortBySorted<T(!new)>(s: seq<T>, cmp: (T, T) -> int)
    requires TotalPreorder(cmp)
    ensures SortedBy(SortBy(s, cmp), cmp)
  {
    if s != [] {
      SortBySorted(s[..|s| - 1], cmp);
      InsertSorted(SortBy(s[..|s| - 1], cmp), s[|s| - 1], cmp);
    }
  }

  /** The length is kept: sorting neither drops nor duplicates elements. */
  lemma SortByLength<T>(s: seq<T>, cmp: (T, T) -> int)
    ensures |SortBy(s, cmp)| == |s|
  {
    var r := SortBy(s, cmp);
    assert |multiset(r)| == |multiset(s)|;
  }
}
