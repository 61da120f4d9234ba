/**
 * Stable sorting as Python's `sorted`/`list.sort` and JavaScript's
 * `Array.prototype.sort` do it. `le(a, b)` says that `a` may come before
 * `b`; for a descending sort (`reverse=True`) it compares keys with `>=`,
 * and ties keep their input order in both directions.
 */
module Sorting {

  ghost predicate TotalPreorder<T(!new)>(le: (T, T) -> bool)
  {
    && (forall a, b :: le(a, b) || le(b, a))
    && (forall a, b, c :: le(a, b) && le(b, c) ==> le(a, c))
  }

  predicate SortedBy<T>(s: seq<T>, le: (T, T) -> bool)
  {
    forall i, j :: 0 <= i < j < |s| ==> le(s[i], s[j])
  }

  /** Places `x` after every element that may come before it. */
  function Insert<T>(ys: seq<T>, x: T, le: (T, T) -> bool): (r: seq<T>)
    ensures |r| == |ys| + 1
    ensures multiset(r) == multiset(ys) + multiset{x}
  {
    if ys == [] then [x]
    else
      assert ys == [ys[0]] + ys[1..];
      if le(ys[0], x) then [ys[0]] + Insert(ys[1..], x, le) else [x] + ys
  }

  /** Insertion sort in input order: each later element lands after the equal ones already placed. */
  function Sort<T>(xs: seq<T>, le: (T, T) -> bool): (r: seq<T>)
    ensures |r| == |xs|
  {
    if xs == [] then [] else Insert(Sort(xs[..|xs| - 1], le), xs[|xs| - 1], le)
  }

  /** The output is a permutation of the input. */
  lemma {:induction false} SortPermutation<T>(xs: seq<T>, le: (T, T) -> bool)
    ensures multiset(Sort(xs, le)) == multiset(xs)
  {
    if xs != [] {
      SortPermutation(xs[..|xs| - 1], le);
      assert xs == xs[..|xs| - 1] + [xs[|xs| - 1]];
    }
  }

  lemma {:induction false} InsertSorted<T(!new)>(ys: seq<T>, x: T, le: (T, T) -> bool)
    requires TotalPreorder(le)
    requires SortedBy(ys, le)
    ensures SortedBy(Insert(ys, x, le), le)
  {
    if ys == [] {
    } else if le(ys[0], x) {
      InsertSorted(ys[1..], x, le);
      var r := Insert(ys, x, le);
      var t := Insert(ys[1..], x, le);
      assert r == [ys[0]] + t;
      forall k | 0 <= k < |ys[1..]| ensures le(ys[0], ys[1..][k]) {
        assert ys[1..][k] == ys[k + 1];
      }
      InsertBound(ys[1..], x, le, ys[0]);
      forall i, j | 0 <= i < j < |r| ensures le(r[i], r[j]) {
        if i == 0 {
          assert le(ys[0], t[j - 1]);
        } else {
          assert le(t[i - 1], t[j - 1]);
        }
      }
    } else {
      var r := [x] + ys;
      forall i, j | 0 <= i < j < |r| ensures le(r[i], r[j]) {
        if i == 0 {
          assert le(x, ys[0]);
          if j > 1 { assert le(ys[0], ys[j - 1]); }
        } else {
          assert le(ys[i - 1], ys[j - 1]);
        }
      }
    }
  }

  /** What every element of `ys` and `x` may follow, every element of the insertion may follow. */
  lemma {:induction false} InsertBound<T>(ys: seq<T>, x: T, le: (T, T) -> bool, b: T)
    requires forall k :: 0 <= k < |ys| ==> le(b, ys[k])
    requires le(b, x)
    ensures forall j :: 0 <= j < |Insert(ys, x, le)| ==> le(b, Insert(ys, x, le)[j])
  {
    if ys != [] && le(ys[0], x) {
      forall k | 0 <= k < |ys[1..]| ensures le(b, ys[1..][k]) {
        assert ys[1..][k] == ys[k + 1];
      }
      InsertBound(ys[1..], x, le, b);
    }
  }

  /** The output is ordered by `le`. */
  lemma {:induction false} SortSorted<T(!new)>(xs: seq<T>, le: (T, T) -> bool)
    requires TotalPreorder(le)
    ensures SortedBy(Sort(xs, le), le)
  {
    if xs != [] {
      SortSorted(xs[..|xs| - 1], le);
      InsertSorted(Sort(xs[..|xs| - 1], le), xs[|xs| - 1], le);
    }
  }

  /** The elements equivalent to `e`, in order. */
  function Ties<T>(s: seq<T>, e: T, le: (T, T) -> bool): (r: seq<T>)
    ensures |r| <= |s|
  {
    if s == [] then []
    else (if le(s[0], e) && le(e, s[0]) then [s[0]] else []) + Ties(s[1..], e, le)
  }

  lemma {:induction false} TiesAppend<T>(s: seq<T>, t: seq<T>, e: T, le: (T, T) -> bool)
    ensures Ties(s + t, e, le) == Ties(s, e, le) + Ties(t, e, le)
  {
    if s == [] {
      assert s + t == t;
    } else {
      assert (s + t)[1..] == s[1..] + t;
      TiesAppend(s[1..], t, e, le);
    }
  }

  lemma {:induction false} InsertTies<T(!new)>(ys: seq<T>, x: T, e: T, le: (T, T) -> bool)
    requires TotalPreorder(le)
    requires SortedBy(ys, le)
    ensures Ties(Insert(ys, x, le), e, le) == Ties(ys, e, le) + Ties([x], e, le)
  {
    if ys == [] {
    } else if le(ys[0], x) {
      var t := ys[1..];
      SortedRest(ys, le);
      InsertTies(t, x, e, le);
      assert Insert(ys, x, le) == [ys[0]] + Insert(t, x, le);
      ConsTies(ys[0], t, Insert(t, x, le), Ties([x], e, le), e, le);
      assert [ys[0]] + t == ys;
    } else {
      InsertTiesFront(ys, x, e, le);
    }
  }

  lemma ConsTies<T>(y: T, t: seq<T>, r: seq<T>, tail: seq<T>, e: T, le: (T, T) -> bool)
    requires Ties(r, e, le) == Ties(t, e, le) + tail
    ensures Ties([y] + r, e, le) == Ties([y] + t, e, le) + tail
  {
    TiesAppend([y], r, e, le);
    TiesAppend([y], t, e, le);
    AppendAssoc(Ties([y], e, le), Ties(r, e, le), Ties(t, e, le), tail);
  }

  lemma AppendAssoc<T>(h: seq<T>, a: seq<T>, b: seq<T>, tail: seq<T>)
    requires a == b + tail
    ensures h + a == (h + b) + tail
  {
  }

  /** `x` goes in front: everything in `ys` ranks strictly after it, so none of it ties with `e` when `x` does. */
  lemma InsertTiesFront<T(!new)>(ys: seq<T>, x: T, e: T, le: (T, T) -> bool)
    requires TotalPreorder(le)
    requires SortedBy(ys, le)
    requires ys != [] && !le(ys[0], x)
    ensures Ties(Insert(ys, x, le), e, le) == Ties(ys, e, le) + Ties([x], e, le)
  {
    assert Insert(ys, x, le) == [x] + ys;
    assert [x][1..] == [];
    if le(x, e) && le(e, x) {
      NoTiesAfter(ys, x, e, le);
    }
    TiesAppend([x], ys, e, le);
  }

  lemma SortedRest<T>(s: seq<T>, le: (T, T) -> bool)
    requires s != [] && SortedBy(s, le)
    ensures SortedBy(s[1..], le)
  {
    forall i, j | 0 <= i < j < |s| - 1 ensures le(s[1..][i], s[1..][j]) {
      assert le(s[i + 1], s[j + 1]);
    }
  }

  lemma {:induction false} NoTiesAfter<T(!new)>(ys: seq<T>, x: T, e: T, le: (T, T) -> bool)
    requires TotalPreorder(le)
    requires SortedBy(ys, le)
    requires ys != [] && !le(ys[0], x)
    requires le(x, e) && le(e, x)
    ensures Ties(ys, e, le) == []
  {
    if |ys| > 1 {
      assert le(ys[0], ys[1]);
      assert !le(ys[1], x);
      assert SortedBy(ys[1..], le) by {
        forall i, j | 0 <= i < j < |ys[1..]| ensures le(ys[1..][i], ys[1..][j]) {
          assert le(ys[i + 1], ys[j + 1]);
        }
      }
      NoTiesAfter(ys[1..], x, e, le);
    }
  }

  /**
   * Stability: the elements equivalent to any `e` come out in the order
   * they went in.
   */
  lemma {:induction false} SortStable<T(!new)>(xs: seq<T>, e: T, le: (T, T) -> bool)
    requires TotalPreorder(le)
    ensures Ties(Sort(xs, le), e, le) == Ties(xs, e, le)
  {
    if xs != [] {
      var init := xs[..|xs| - 1];
      SortStable(init, e, le);
      SortSorted(init, le);
      InsertTies(Sort(init, le), xs[|xs| - 1], e, le);
      assert xs == init + [xs[|xs| - 1]];
      TiesAppend(init, [xs[|xs| - 1]], e, le);
    }
  }

  /** `x` occurs somewhere before `y` in `s`. */
  ghost predicate Before<T>(s: seq<T>, x: T, y: T)
  {
    exists a, b :: 0 <= a < b < |s| && s[a] == x && s[b] == y
  }

  lemma BeforeShift<T>(pre: seq<T>, s: seq<T>, x: T, y: T)
    requires Before(s, x, y)
    ensures Before(pre + s, x, y)
  {
    var a, b :| 0 <= a < b < |s| && s[a] == x && s[b] == y;
    assert (pre + s)[|pre| + a] == x && (pre + s)[|pre| + b] == y;
  }

  lemma BeforeTail<T>(s: seq<T>, x: T, y: T)
    requires s != [] && Before(s[1..], x, y)
    ensures Before(s, x, y)
  {
    BeforeShift([s[0]], s[1..], x, y);
    assert [s[0]] + s[1..] == s;
  }

  lemma BeforeHead<T>(s: seq<T>, y: T)
    requires s != [] && y in s[1..]
    ensures Before(s, s[0], y)
  {
    var m :| 0 <= m < |s[1..]| && s[1..][m] == y;
    assert s[m + 1] == y;
  }

  lemma {:induction false} TiesHas<T>(s: seq<T>, e: T, le: (T, T) -> bool, k: int)
    requires 0 <= k < |s| && le(s[k], e) && le(e, s[k])
    ensures s[k] in Ties(s, e, le)
  {
    if k > 0 {
      TiesHas(s[1..], e, le, k - 1);
      assert s[1..][k - 1] == s[k];
    }
  }

  lemma {:induction false} TiesIn<T>(s: seq<T>, e: T, le: (T, T) -> bool, z: T)
    requires z in Ties(s, e, le)
    ensures z in s
  {
    if s[0] != z {
      TiesIn(s[1..], e, le, z);
    }
  }

  /** Two ties of `e` in order stay in that order among the ties. */
  lemma {:induction false} TiesBefore<T>(s: seq<T>, e: T, le: (T, T) -> bool, x: T, y: T)
    requires Before(s, x, y)
    requires le(x, e) && le(e, x) && le(y, e) && le(e, y)
    ensures Before(Ties(s, e, le), x, y)
  {
    var a, b :| 0 <= a < b < |s| && s[a] == x && s[b] == y;
    var pre := if le(s[0], e) && le(e, s[0]) then [s[0]] else [];
    assert Ties(s, e, le) == pre + Ties(s[1..], e, le);
    assert s[1..][b - 1] == y;
    if a == 0 {
      TiesHas(s[1..], e, le, b - 1);
      BeforeHead(Ties(s, e, le), y);
    } else {
      assert s[1..][a - 1] == x;
      TiesBefore(s[1..], e, le, x, y);
      BeforeShift(pre, Ties(s[1..], e, le), x, y);
    }
  }

  /** An order among the ties is an order in the whole sequence. */
  lemma {:induction false} BeforeFromTies<T>(s: seq<T>, e: T, le: (T, T) -> bool, x: T, y: T)
    requires Before(Ties(s, e, le), x, y)
    ensures Before(s, x, y)
  {
    var t := Ties(s, e, le);
    var rest := Ties(s[1..], e, le);
    var a, b :| 0 <= a < b < |t| && t[a] == x && t[b] == y;
    if le(s[0], e) && le(e, s[0]) {
      assert t == [s[0]] + rest;
      assert rest[b - 1] == y;
      if a == 0 {
        TiesIn(s[1..], e, le, y);
        BeforeHead(s, y);
      } else {
        assert rest[a - 1] == x;
        BeforeFromTies(s[1..], e, le, x, y);
        BeforeTail(s, x, y);
      }
    } else {
      assert t == rest;
      BeforeFromTies(s[1..], e, le, x, y);
      BeforeTail(s, x, y);
    }
  }

  /** Stability, pairwise: of two equivalent elements, the one sorted first came first. */
  lemma SortKeepsTieOrder<T(!new)>(xs: seq<T>, le: (T, T) -> bool, x: T, y: T)
    requires TotalPreorder(le) && le(x, y) && le(y, x)
    requires Before(Sort(xs, le), x, y)
    ensures Before(xs, x, y)
  {
    assert le(x, x);
    TiesBefore(Sort(xs, le), x, le, x, y);
    SortStable(xs, x, le);
    BeforeFromTies(xs, x, le, x, y);
  }

  /** Cutting a sorted list keeps the best: an element of the input that was cut off may follow every kept one. */
  lemma SortedCut<T(!new)>(xs: seq<T>, le: (T, T) -> bool, k: int, x: T, y: T)
    requires TotalPreorder(le)
    requires x in PyPrefix(Sort(xs, le), k) && y in xs && y !in PyPrefix(Sort(xs, le), k)
    ensures le(x, y)
  {
    var s := Sort(xs, le);
    var p := PyPrefix(s, k);
    SortPermutation(xs, le);
    SortSorted(xs, le);
    assert y in multiset(s);
    var j :| 0 <= j < |s| && s[j] == y;
    var i :| 0 <= i < |p| && p[i] == x;
    assert s[i] == x;
  }

  /** Python slicing `s[:k]` with a possibly negative bound. */
  function PyPrefix<T>(s: seq<T>, k: int): (r: seq<T>)
    ensures 0 <= k ==> |r| == if k < |s| then k else |s|
    ensures k < 0 ==> |r| == if -k < |s| then |s| + k else 0
    ensures r == s[..|r|]
  {
    if k >= 0 then (if k < |s| then s[..k] else s)
    else if -k < |s| then s[..|s| + k] else []
  }
}
