/** `Array.prototype.sort` with a comparator, which ECMAScript requires to be
    stable, modelled as a stable insertion sort by a "may come first"
    relation `le`. */
module Sorting {
  import opened Lists

  /** `le` orders any two values one way or the other. */
  ghost predicate Total<T(!new)>(le: (T, T) -> bool) {
    forall a, b :: le(a, b) || le(b, a)
  }

  ghost predicate Transitive<T(!new)>(le: (T, T) -> bool) {
    forall a, b, c :: le(a, b) && le(b, c) ==> le(a, c)
  }

  /** Every value may come before every later one. */
  ghost predicate SortedBy<T>(s: seq<T>, le: (T, T) -> bool) {
    forall i, j :: 0 <= i < j < |s| ==> le(s[i], s[j])
  }

  /** Inserts `x` before the first element it may precede, so `x` lands after
      every element it ties with only if it may not come first. */
  function Insert<T>(x: T, s: seq<T>, le: (T, T) -> bool): (r: seq<T>)
    ensures multiset(r) == multiset(s) + multiset{x}
    ensures |r| == |s| + 1
  {
    if s == [] then [x]
    else if le(x, s[0]) then [x] + s
    else
      assert s == [s[0]] + s[1..];
      [s[0]] + Insert(x, s[1..], le)
  }

  function SortBy<T>(s: seq<T>, le: (T, T) -> bool): (r: seq<T>)
    ensures multiset(r) == multiset(s)
    ensures |r| == |s|
  {
    if s == [] then []
    else
      assert s == [s[0]] + s[1..];
      Insert(s[0], SortBy(s[1..], le), le)
  }

  lemma {:induction false} InsertSorted<T(!new)>(x: T, s: seq<T>, le: (T, T) -> bool)
    requires Total(le) && Transitive(le)
    requires SortedBy(s, le)
    ensures SortedBy(Insert(x, s, le), le)
  {
    if s != [] && !le(x, s[0]) {
      InsertSorted(x, s[1..], le);
      var t := Insert(x, s[1..], le);
      var r := [s[0]] + t;
      forall j | 0 < j < |r| ensures le(s[0], r[j]) {
        assert r[j] in multiset(t);
        assert r[j] in multiset(s[1..]) + multiset{x};
        if r[j] in multiset(s[1..]) {
          var k :| 0 <= k < |s[1..]| && s[1..][k] == r[j];
          assert s[k + 1] == r[j];
        }
      }
    }
  }

  /** The result is sorted and (by the contract of `SortBy`) a permutation. */
  lemma {:induction false} SortBySorted<T(!new)>(s: seq<T>, le: (T, T) -> bool)
    requires Total(le) && Transitive(le)
    ensures SortedBy(SortBy(s, le), le)
  {
    if s != [] {
      SortBySorted(s[1..], le);
      InsertSorted(s[0], SortBy(s[1..], le), le);
    }
  }

  lemma SortByMembers<T>(s: seq<T>, le: (T, T) -> bool, x: T)
    ensures x in SortBy(s, le) <==> x in s
  {
    assert x in SortBy(s, le) <==> x in multiset(SortBy(s, le));
    assert x in s <==> x in multiset(s);
  }

  /** `a` and `b` tie: each may come before the other, the comparator's 0. */
  predicate Tied<T>(le: (T, T) -> bool, a: T, b: T) {
    le(a, b) && le(b, a)
  }

  function TiedWith<T>(le: (T, T) -> bool, x: T): T -> bool {
    (y: T) => Tied(le, x, y)
  }

  /** Filtering after an insertion: when `a` may come before every value
      that passes the filter along with it, it lands in front of all of
      them, and the other survivors keep their order. */
  lemma {:induction false} InsertFilter<T>(a: T, t: seq<T>, le: (T, T) -> bool, p: T -> bool)
    requires forall i :: 0 <= i < |t| && p(a) && p(t[i]) ==> le(a, t[i])
    ensures Filter(Insert(a, t, le), p) == (if p(a) then [a] else []) + Filter(t, p)
  {
    if t == [] || le(a, t[0]) {
      InsertFront(a, t, le);
      FilterCons(a, t, p);
    } else {
      assert forall i :: 0 <= i < |t[1..]| ==> t[1..][i] == t[i + 1];
      InsertFilter(a, t[1..], le, p);
      InsertFilterPast(a, t, le, p);
    }
  }

  /** The step of `InsertFilter` past a first value `a` may not precede. */
  lemma InsertFilterPast<T>(a: T, t: seq<T>, le: (T, T) -> bool, p: T -> bool)
    requires t != [] && !le(a, t[0]) && !(p(a) && p(t[0]))
    requires Filter(Insert(a, t[1..], le), p) == (if p(a) then [a] else []) + Filter(t[1..], p)
    ensures Filter(Insert(a, t, le), p) == (if p(a) then [a] else []) + Filter(t, p)
  {
    var b, rest := t[0], t[1..];
    var ins := Insert(a, rest, le);
    var ha: seq<T> := if p(a) then [a] else [];
    var hb: seq<T> := if p(b) then [b] else [];
    calc {
      Filter(Insert(a, t, le), p);
    == { InsertPast(a, t, le); FilterCons(b, ins, p); }
      hb + Filter(ins, p);
    ==
      hb + (ha + Filter(rest, p));
    == { SwapHeads(ha, hb, Filter(rest, p)); }
      ha + (hb + Filter(rest, p));
    == { assert t == [b] + rest; FilterCons(b, rest, p); }
      ha + Filter(t, p);
    }
  }

  /** Two heads of which one is empty can be put in either order. */
  lemma SwapHeads<T>(ha: seq<T>, hb: seq<T>, f: seq<T>)
    requires ha == [] || hb == []
    ensures hb + (ha + f) == ha + (hb + f)
  {
    if ha == [] {
      assert ha + f == f;
      assert ha + (hb + f) == hb + f;
    } else {
      assert hb + (ha + f) == ha + f;
      assert hb + f == f;
    }
  }

  lemma InsertFront<T>(a: T, t: seq<T>, le: (T, T) -> bool)
    requires t == [] || le(a, t[0])
    ensures Insert(a, t, le) == [a] + t
  {
  }

  lemma InsertPast<T>(a: T, t: seq<T>, le: (T, T) -> bool)
    requires t != [] && !le(a, t[0])
    ensures Insert(a, t, le) == [t[0]] + Insert(a, t[1..], le)
  {
  }

  /** Two values that tie with a third may come before one another. */
  lemma TiesCompare<T(!new)>(le: (T, T) -> bool, x: T, a: T, b: T)
    requires Transitive(le) && Tied(le, x, a) && Tied(le, x, b)
    ensures le(a, b)
  {
    assert le(a, x) && le(x, b);
  }

  /** The sort is stable: the values that tie with any given value appear
      in the result in the order they had in the input. */
  lemma {:induction false} SortByStable<T(!new)>(s: seq<T>, le: (T, T) -> bool, x: T)
    requires Transitive(le)
    ensures Filter(SortBy(s, le), TiedWith(le, x)) == Filter(s, TiedWith(le, x))
  {
    if s != [] {
      SortByStable(s[1..], le, x);
      var t := SortBy(s[1..], le);
      forall i | 0 <= i < |t| && Tied(le, x, s[0]) && Tied(le, x, t[i]) ensures le(s[0], t[i]) {
        TiesCompare(le, x, s[0], t[i]);
      }
      InsertFilter(s[0], t, le, TiedWith(le, x));
    }
  }

  /** Inserting a value whose key is new keeps the keys distinct. */
  lemma {:induction false} InsertDistinct<T, K>(x: T, s: seq<T>, le: (T, T) -> bool, key: T -> K)
    requires DistinctBy(s, key)
    requires forall i :: 0 <= i < |s| ==> key(s[i]) != key(x)
    ensures DistinctBy(Insert(x, s, le), key)
  {
    if s != [] && !le(x, s[0]) {
      var t := Insert(x, s[1..], le);
      InsertDistinct(x, s[1..], le, key);
      var r := [s[0]] + t;
      forall j | 0 < j < |r| ensures key(r[j]) != key(s[0]) {
        assert r[j] in multiset(s[1..]) + multiset{x};
        if r[j] in multiset(s[1..]) {
          var k :| 0 <= k < |s[1..]| && s[1..][k] == r[j];
          assert s[k + 1] == r[j];
        }
      }
    }
  }

  /** Sorting keeps distinct keys distinct. */
  lemma {:induction false} SortByDistinct<T, K>(s: seq<T>, le: (T, T) -> bool, key: T -> K)
    requires DistinctBy(s, key)
    ensures DistinctBy(SortBy(s, le), key)
  {
    if s != [] {
      var t := SortBy(s[1..], le);
      SortByDistinct(s[1..], le, key);
      forall i | 0 <= i < |t| ensures key(t[i]) != key(s[0]) {
        assert t[i] in multiset(s[1..]);
        var k :| 0 <= k < |s[1..]| && s[1..][k] == t[i];
        assert s[k + 1] == t[i];
      }
      InsertDistinct(s[0], t, le, key);
    }
  }
}
