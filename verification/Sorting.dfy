/** `Array.prototype.sort` as a stable sort by a total preorder. */
module Sorting {

  ghost predicate TotalPreorder<T(!new)>(leq: (T, T) -> bool) {
    && (forall x, y :: leq(x, y) || leq(y, x))
    && (forall x, y, z :: leq(x, y) && leq(y, z) ==> leq(x, z))
  }

  ghost predicate SortedBy<T>(s: seq<T>, leq: (T, T) -> bool) {
    forall i, j :: 0 <= i < j < |s| ==> leq(s[i], s[j])
  }

  function Insert<T>(x: T, s: seq<T>, leq: (T, T) -> bool): seq<T> {
    if s == [] || leq(x, s[0]) then [x] + s else [s[0]] + Insert(x, s[1..], leq)
  }

  function Sort<T>(s: seq<T>, leq: (T, T) -> bool): seq<T> {
    if s == [] then [] else Insert(s[0], Sort(s[1..], leq), leq)
  }

  lemma {:induction false} InsertSorts<T(!new)>(x: T, s: seq<T>, leq: (T, T) -> bool)
    requires TotalPreorder(leq) && SortedBy(s, leq)
    ensures SortedBy(Insert(x, s, leq), leq)
    ensures multiset(Insert(x, s, leq)) == multiset{x} + multiset(s)
  {
    if s == [] {
    } else if leq(x, s[0]) {
      assert s == [s[0]] + s[1..];
    } else {
      InsertSorts(x, s[1..], leq);
      var t := Insert(x, s[1..], leq);
      assert s == [s[0]] + s[1..];
      forall y | y in t ensures leq(s[0], y) {
        assert y in multiset(t);
        if y != x {
          assert y in s[1..];
        }
      }
    }
  }

  /** The result is sorted and a permutation of the input. */
  lemma {:induction false} SortSorts<T(!new)>(s: seq<T>, leq: (T, T) -> bool)
    requires TotalPreorder(leq)
    ensures SortedBy(Sort(s, leq), leq)
    ensures multiset(Sort(s, leq)) == multiset(s)
    ensures |Sort(s, leq)| == |s|
  {
    if s != [] {
      SortSorts(s[1..], leq);
      InsertSorts(s[0], Sort(s[1..], leq), leq);
      assert s == [s[0]] + s[1..];
    }
    assert |multiset(Sort(s, leq))| == |multiset(s)|;
  }

  // ----- counting -----

  function CountIf<T>(s: seq<T>, p: T -> bool): nat {
    if s == [] then 0 else (if p(s[0]) then 1 else 0) + CountIf(s[1..], p)
  }

  lemma {:induction false} CountAppend<T>(a: seq<T>, b: seq<T>, p: T -> bool)
    ensures CountIf(a + b, p) == CountIf(a, p) + CountIf(b, p)
  {
    if a == [] {
      assert a + b == b;
    } else {
      assert (a + b)[1..] == a[1..] + b;
      CountAppend(a[1..], b, p);
    }
  }

  lemma CountLast<T>(s: seq<T>, p: T -> bool)
    requires s != []
    ensures CountIf(s, p) == CountIf(s[..|s| - 1], p) + if p(s[|s| - 1]) then 1 else 0
  {
    var before, last := s[..|s| - 1], [s[|s| - 1]];
    assert s == before + last;
    CountAppend(before, last, p);
  }

  lemma {:induction false} InsertCounts<T>(x: T, s: seq<T>, leq: (T, T) -> bool, p: T -> bool)
    ensures CountIf(Insert(x, s, leq), p) == CountIf(s, p) + if p(x) then 1 else 0
  {
    if s != [] && !leq(x, s[0]) {
      InsertCounts(x, s[1..], leq, p);
      assert Insert(x, s, leq)[1..] == Insert(x, s[1..], leq);
    } else {
      assert ([x] + s)[1..] == s;
    }
  }

  /** Sorting moves elements and neither adds nor loses any. */
  lemma {:induction false} SortCounts<T>(s: seq<T>, leq: (T, T) -> bool, p: T -> bool)
    ensures CountIf(Sort(s, leq), p) == CountIf(s, p)
  {
    if s != [] {
      SortCounts(s[1..], leq, p);
      InsertCounts(s[0], Sort(s[1..], leq), leq, p);
    }
  }

  lemma {:induction false} CountAt<T>(s: seq<T>, p: T -> bool, i: nat)
    requires i < |s| && p(s[i])
    ensures CountIf(s, p) >= 1
  {
    if i > 0 { CountAt(s[1..], p, i - 1); }
  }

  lemma {:induction false} CountTwo<T>(s: seq<T>, p: T -> bool, i: nat, j: nat)
    requires i < j < |s| && p(s[i]) && p(s[j])
    ensures CountIf(s, p) >= 2
  {
    if i > 0 { CountTwo(s[1..], p, i - 1, j - 1); } else { CountAt(s[1..], p, j - 1); }
  }

  lemma {:induction false} FindCounted<T>(s: seq<T>, p: T -> bool) returns (i: nat)
    requires CountIf(s, p) >= 1
    ensures i < |s| && p(s[i])
  {
    if p(s[0]) {
      i := 0;
    } else {
      i := FindCounted(s[1..], p);
      i := i + 1;
    }
  }

  lemma {:induction false} FindTwo<T>(s: seq<T>, p: T -> bool) returns (i: nat, j: nat)
    requires CountIf(s, p) >= 2
    ensures i < j < |s| && p(s[i]) && p(s[j])
  {
    if p(s[0]) {
      j := FindCounted(s[1..], p);
      i, j := 0, j + 1;
    } else {
      i, j := FindTwo(s[1..], p);
      i, j := i + 1, j + 1;
    }
  }
}
