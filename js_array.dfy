/**
 * The JavaScript array operations the editors and field arrays are built
 * on: `splice` insertion and removal (with its clamping of the start
 * index), `indexOf`, and dnd-kit's `arrayMove`. Lists that are changed in
 * lockstep (an item list and its list of drag ids) stay paired.
 */
module JsArray {

  /** Where `splice(i, ...)` starts on an array of length `len`: negative indices count from the end; both ends clamp. */
  function SpliceStart(len: nat, i: int): (r: nat)
    ensures r <= len
    ensures 0 <= i <= len ==> r == i
    ensures 0 <= len as int + i && i < 0 ==> r == len + i
  {
    if i < 0 then (if len + i < 0 then 0 else len + i)
    else if i > len then len
    else i
  }

  /** `xs.splice(i, 0, x)` on a copy. */
  function Insert<T>(xs: seq<T>, i: int, x: T): (r: seq<T>)
    ensures |r| == |xs| + 1
    ensures r[SpliceStart(|xs|, i)] == x
    ensures r[..SpliceStart(|xs|, i)] == xs[..SpliceStart(|xs|, i)]
    ensures r[SpliceStart(|xs|, i) + 1..] == xs[SpliceStart(|xs|, i)..]
    ensures multiset(r) == multiset(xs) + multiset{x}
  {
    var s := SpliceStart(|xs|, i);
    assert xs == xs[..s] + xs[s..];
    xs[..s] + [x] + xs[s..]
  }

  /** `xs.splice(i, 1)` on a copy: nothing is removed when the start falls at the end. */
  function RemoveAt<T>(xs: seq<T>, i: int): (r: seq<T>)
    ensures SpliceStart(|xs|, i) == |xs| ==> r == xs
    ensures SpliceStart(|xs|, i) < |xs| ==> |r| == |xs| - 1
    ensures SpliceStart(|xs|, i) < |xs| ==> r == xs[..SpliceStart(|xs|, i)] + xs[SpliceStart(|xs|, i) + 1..]
    ensures SpliceStart(|xs|, i) < |xs| ==> multiset(r) + multiset{xs[SpliceStart(|xs|, i)]} == multiset(xs)
  {
    var s := SpliceStart(|xs|, i);
    if s < |xs| then
      assert xs == xs[..s] + [xs[s]] + xs[s + 1..];
      xs[..s] + xs[s + 1..]
    else xs
  }

  /** `xs[i] = x` on a copy, for an index inside the array. */
  function Replace<T>(xs: seq<T>, i: nat, x: T): (r: seq<T>)
    requires i < |xs|
    ensures |r| == |xs| && r[i] == x
    ensures forall k :: 0 <= k < |xs| && k != i ==> r[k] == xs[k]
  {
    xs[i := x]
  }

  /** `xs.indexOf(x)`: the first position of `x`, or -1. */
  function IndexOf<T(==)>(xs: seq<T>, x: T): (r: int)
    ensures -1 <= r < |xs|
    ensures r == -1 <==> x !in xs
    ensures r >= 0 ==> xs[r] == x && x !in xs[..r]
  {
    if xs == [] then -1
    else if xs[0] == x then 0
    else
      var k := IndexOf(xs[1..], x);
      assert xs[1..] == xs[1..][..|xs| - 1];
      if k < 0 then -1
      else
        assert xs[..k + 1] == [xs[0]] + xs[1..][..k];
        k + 1
  }

  /** Distinct elements. */
  predicate Distinct<T(==)>(xs: seq<T>)
  {
    forall i, j :: 0 <= i < j < |xs| ==> xs[i] != xs[j]
  }

  /** In a list of distinct elements, `indexOf` finds the one position holding `x`. */
  lemma IndexOfDistinct<T>(xs: seq<T>, k: nat)
    requires Distinct(xs) && k < |xs|
    ensures IndexOf(xs, xs[k]) == k
  {
    assert xs[k] in xs;
  }

  /**
   * dnd-kit's `arrayMove(xs, from, to)`: take the element out at `from`
   * and put it back so that it ends at `to`. Both indices come from
   * `indexOf` of ids the drag-and-drop context holds, so they are inside
   * the array.
   */
  function ArrayMove<T>(xs: seq<T>, from: nat, to: nat): (r: seq<T>)
    requires from < |xs| && to < |xs|
    ensures |r| == |xs|
    ensures r[to] == xs[from]
    ensures multiset(r) == multiset(xs)
  {
    Insert(RemoveAt(xs, from), to, xs[from])
  }

  /** Where the element at `k` ends up after moving `from` to `to`. */
  function MovedIndex(k: nat, from: nat, to: nat): (r: nat)
  {
    if k == from then to
    else if from < k <= to then k - 1
    else if to <= k < from then k + 1
    else k
  }

  /** `arrayMove` shifts the elements between the two positions by one and leaves the rest in place. */
  lemma ArrayMoveAt<T>(xs: seq<T>, from: nat, to: nat, k: nat)
    requires from < |xs| && to < |xs| && k < |xs|
    ensures MovedIndex(k, from, to) < |xs|
    ensures ArrayMove(xs, from, to)[MovedIndex(k, from, to)] == xs[k]
  {
    var ys := RemoveAt(xs, from);
    assert ys == xs[..from] + xs[from + 1..];
    var r := ArrayMove(xs, from, to);
    assert r == ys[..to] + [xs[from]] + ys[to..];
    if k < from {
      assert ys[k] == xs[k];
    } else if k > from {
      assert ys[k - 1] == xs[k];
    }
  }

  lemma MovedIndexBack(k: nat, from: nat, to: nat)
    ensures MovedIndex(MovedIndex(k, from, to), to, from) == k
  {
  }

  lemma ArrayMoveBackAt<T>(xs: seq<T>, from: nat, to: nat, k: nat)
    requires from < |xs| && to < |xs| && k < |xs|
    ensures ArrayMove(ArrayMove(xs, from, to), to, from)[k] == xs[k]
  {
    var ys := ArrayMove(xs, from, to);
    var m := MovedIndex(k, from, to);
    ArrayMoveAt(xs, from, to, k);
    ArrayMoveAt(ys, to, from, m);
    MovedIndexBack(k, from, to);
  }

  /** Moving back undoes a move. */
  lemma ArrayMoveInverse<T>(xs: seq<T>, from: nat, to: nat)
    requires from < |xs| && to < |xs|
    ensures ArrayMove(ArrayMove(xs, from, to), to, from) == xs
  {
    var zs := ArrayMove(ArrayMove(xs, from, to), to, from);
    forall k | 0 <= k < |xs| ensures zs[k] == xs[k] {
      ArrayMoveBackAt(xs, from, to, k);
    }
  }

  /** Two lists side by side. */
  function Zip<A, B>(a: seq<A>, b: seq<B>): (r: seq<(A, B)>)
    requires |a| == |b|
    ensures |r| == |a|
    ensures forall k :: 0 <= k < |a| ==> r[k] == (a[k], b[k])
  {
    seq(|a|, k requires 0 <= k < |a| => (a[k], b[k]))
  }

  /** Inserting into both lists at one index inserts the pair there. */
  lemma ZipInsert<A, B>(a: seq<A>, b: seq<B>, i: int, x: A, y: B)
    requires |a| == |b|
    ensures Zip(Insert(a, i, x), Insert(b, i, y)) == Insert(Zip(a, b), i, (x, y))
  {
    var s := SpliceStart(|a|, i);
    var l := Zip(Insert(a, i, x), Insert(b, i, y));
    var r := Insert(Zip(a, b), i, (x, y));
    forall k | 0 <= k < |l| ensures l[k] == r[k] {
      if k < s {
        assert Insert(a, i, x)[k] == a[k] && Insert(b, i, y)[k] == b[k];
        assert r[k] == Zip(a, b)[k];
      } else if k > s {
        assert Insert(a, i, x)[k] == a[k - 1] && Insert(b, i, y)[k] == b[k - 1];
        assert r[k] == Zip(a, b)[k - 1];
      }
    }
  }

  /** Removing from both lists at one index removes the pair there. */
  lemma ZipRemove<A, B>(a: seq<A>, b: seq<B>, i: int)
    requires |a| == |b|
    ensures |RemoveAt(a, i)| == |RemoveAt(b, i)|
    ensures Zip(RemoveAt(a, i), RemoveAt(b, i)) == RemoveAt(Zip(a, b), i)
  {
    var s := SpliceStart(|a|, i);
    if s < |a| {
      var l := Zip(RemoveAt(a, i), RemoveAt(b, i));
      var r := RemoveAt(Zip(a, b), i);
      forall k | 0 <= k < |l| ensures l[k] == r[k] {
        if k < s {
          assert r[k] == Zip(a, b)[k];
        } else {
          assert r[k] == Zip(a, b)[k + 1];
        }
      }
    }
  }

  /** Moving both lists the same way moves the pairs. */
  lemma ZipMove<A, B>(a: seq<A>, b: seq<B>, from: nat, to: nat)
    requires |a| == |b| && from < |a| && to < |a|
    ensures Zip(ArrayMove(a, from, to), ArrayMove(b, from, to)) == ArrayMove(Zip(a, b), from, to)
  {
    ZipRemove(a, b, from);
    ZipInsert(RemoveAt(a, from), RemoveAt(b, from), to, a[from], b[from]);
  }
}
