/** Sequence operations the pages build their derived lists with:
    `Array.prototype.filter`, de-duplication through a `Set` (which keeps
    insertion order), and the position of the first occurrence of a value. */
module Lists {

  /** A value that may be absent (`null` / `undefined`). */
  datatype Option<T> = None | Some(value: T)

  /** No value occurs twice. */
  ghost predicate Distinct<T>(xs: seq<T>) {
    forall i, j :: 0 <= i < j < |xs| ==> xs[i] != xs[j]
  }

  /** `xs.filter(p)`: the elements satisfying `p`, in their original order,
      each kept as often as it occurs. */
  function Select<T(!new)>(xs: seq<T>, p: T -> bool): (r: seq<T>)
    ensures |r| <= |xs|
    ensures forall x :: x in r <==> x in xs && p(x)
  {
    if xs == [] then []
    else
      assert xs == [xs[0]] + xs[1..];
      (if p(xs[0]) then [xs[0]] else []) + Select(xs[1..], p)
  }

  /** `filter` keeps each passing element as often as it occurs and drops
      every other one. */
  lemma {:induction false} SelectCount<T(!new)>(xs: seq<T>, p: T -> bool)
    ensures forall x :: multiset(Select(xs, p))[x] == if p(x) then multiset(xs)[x] else 0
  {
    if xs != [] {
      SelectCount(xs[1..], p);
      assert xs == [xs[0]] + xs[1..];
    }
  }

  /** Filtering distributes over concatenation, so the relative order of the
      kept elements is the order they had in the input. */
  lemma {:induction false} SelectAppend<T(!new)>(xs: seq<T>, ys: seq<T>, p: T -> bool)
    ensures Select(xs + ys, p) == Select(xs, p) + Select(ys, p)
  {
    if xs == [] {
      assert xs + ys == ys;
    } else {
      assert (xs + ys)[0] == xs[0] && (xs + ys)[1..] == xs[1..] + ys;
      SelectAppend(xs[1..], ys, p);
    }
  }

  /** A filter that every element passes keeps the whole sequence. */
  lemma {:induction false} SelectKeepsAll<T(!new)>(xs: seq<T>, p: T -> bool)
    requires forall x :: x in xs ==> p(x)
    ensures Select(xs, p) == xs
  {
    if xs != [] {
      SelectKeepsAll(xs[1..], p);
    }
  }

  /** Filtering twice with the same predicate equals filtering once. */
  lemma SelectIdempotent<T(!new)>(xs: seq<T>, p: T -> bool)
    ensures Select(Select(xs, p), p) == Select(xs, p)
  {
    SelectKeepsAll(Select(xs, p), p);
  }

  /** `[...new Set(xs)]`: every value once, at the place it was first seen.
      Built like the Set: each element is appended unless already present. */
  function Dedup<T(==,!new)>(xs: seq<T>): (r: seq<T>)
    ensures forall x :: x in r <==> x in xs
    ensures Distinct(r)
    ensures |r| <= |xs|
  {
    if xs == [] then []
    else
      var r := Dedup(xs[..|xs| - 1]);
      var x := xs[|xs| - 1];
      assert xs == xs[..|xs| - 1] + [x];
      if x in r then r else r + [x]
  }

  /** The position of the first occurrence of `x` (`xs.indexOf(x)`). */
  function FirstIndex<T(==)>(xs: seq<T>, x: T): (k: nat)
    requires x in xs
    ensures k < |xs| && xs[k] == x
    ensures forall j :: 0 <= j < k ==> xs[j] != x
  {
    if xs[0] == x then 0 else 1 + FirstIndex(xs[1..], x)
  }

  lemma {:induction false} FirstIndexAppend<T>(xs: seq<T>, y: T, x: T)
    requires x in xs
    ensures FirstIndex(xs + [y], x) == FirstIndex(xs, x)
  {
    var k := FirstIndex(xs, x);
    var k' := FirstIndex(xs + [y], x);
    assert (xs + [y])[k] == x;
    assert k' <= k;
    assert xs[k'] == x;
  }

  /** The de-duplicated list is in first-seen order: a value listed earlier
      was first met earlier in the input. */
  lemma {:induction false} DedupFirstSeenOrder<T(!new)>(xs: seq<T>)
    ensures forall i, j :: 0 <= i < j < |Dedup(xs)| ==>
      FirstIndex(xs, Dedup(xs)[i]) < FirstIndex(xs, Dedup(xs)[j])
  {
    if xs != [] {
      var init := xs[..|xs| - 1];
      var x := xs[|xs| - 1];
      assert xs == init + [x];
      DedupFirstSeenOrder(init);
      var r, d := Dedup(init), Dedup(xs);
      assert d == if x in r then r else r + [x];
      forall i, j | 0 <= i < j < |d|
        ensures FirstIndex(xs, d[i]) < FirstIndex(xs, d[j])
      {
        assert d[i] == r[i] && r[i] in init;
        FirstIndexAppend(init, x, d[i]);
        if j < |r| {
          assert d[j] == r[j] && r[j] in init;
          FirstIndexAppend(init, x, d[j]);
        } else {
          assert d[j] == x && x !in init;
          assert xs[|init|] == x;
        }
      }
    }
  }
}
