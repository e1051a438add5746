/**
 * Sequence operations that the modelled Ruby code relies on:
 * `Array#compact`, `Array#flatten` over groups and nils, and a
 * description of "r keeps some elements of xs, in their order".
 */
module Seqs {
  import opened Wrappers

  /** Each element wrapped as present. */
  function Somes<T>(s: seq<T>): (r: seq<Option<T>>)
    ensures |r| == |s|
    ensures forall i :: 0 <= i < |s| ==> r[i] == Some(s[i])
  {
    seq(|s|, i requires 0 <= i < |s| => Some(s[i]))
  }

  /** Ruby's `compact`: the present values, in order, nils dropped. */
  function Compact<T(==)>(xs: seq<Option<T>>): (r: seq<T>)
    ensures |r| <= |xs|
  {
    if xs == [] then []
    else if xs[0].Some? then [xs[0].value] + Compact(xs[1..])
    else Compact(xs[1..])
  }

  /** `compact` keeps exactly the present values. */
  lemma {:induction false} CompactMembers<T>(xs: seq<Option<T>>)
    ensures forall i :: 0 <= i < |Compact(xs)| ==> Some(Compact(xs)[i]) in xs
    ensures forall k :: 0 <= k < |xs| && xs[k].Some? ==> xs[k].value in Compact(xs)
  {
    if xs != [] {
      CompactMembers(xs[1..]);
      assert forall k :: 0 < k < |xs| ==> xs[k] == xs[1..][k - 1];
    }
  }

  /**
   * Ruby's `flatten` on an array whose elements are groups or nils:
   * each group is spliced in place, each nil is kept as a nil.
   */
  function Flatten<T(==)>(xs: seq<Option<seq<T>>>): (r: seq<Option<T>>)
    ensures forall i :: 0 <= i < |r| && r[i].Some? ==>
      exists k :: 0 <= k < |xs| && xs[k].Some? && r[i].value in xs[k].value
  {
    if xs == [] then []
    else
      var head := if xs[0].Some? then Somes(xs[0].value) else [None];
      var tail := Flatten(xs[1..]);
      var r := head + tail;
      assert forall i :: |head| <= i < |r| ==> r[i] == tail[i - |head|];
      assert forall k :: 0 <= k < |xs[1..]| ==> xs[1..][k] == xs[k + 1];
      r
  }

  lemma {:induction false} CompactAppend<T>(a: seq<Option<T>>, b: seq<Option<T>>)
    ensures Compact(a + b) == Compact(a) + Compact(b)
  {
    if a == [] {
      assert a + b == b;
    } else {
      assert (a + b)[1..] == a[1..] + b;
      CompactAppend(a[1..], b);
    }
  }

  lemma CompactSnoc<T>(xs: seq<Option<T>>, x: Option<T>)
    ensures Compact(xs + [x]) == Compact(xs) + (if x.Some? then [x.value] else [])
  {
    CompactAppend(xs, [x]);
    assert [x][1..] == [];
  }

  lemma {:induction false} CompactSomes<T>(s: seq<T>)
    ensures Compact(Somes(s)) == s
  {
    if s != [] {
      assert Somes(s)[1..] == Somes(s[1..]);
      CompactSomes(s[1..]);
    }
  }

  lemma {:induction false} FlattenAppend<T>(a: seq<Option<seq<T>>>, b: seq<Option<seq<T>>>)
    ensures Flatten(a + b) == Flatten(a) + Flatten(b)
  {
    if a == [] {
      assert a + b == b;
    } else {
      assert (a + b)[1..] == a[1..] + b;
      FlattenAppend(a[1..], b);
    }
  }

  /** Strictly increasing positions. */
  ghost predicate Increasing(idx: seq<nat>) {
    forall i, j :: 0 <= i < j < |idx| ==> idx[i] < idx[j]
  }

  /**
   * `r` consists of the present values of `xs` at the positions `idx`,
   * in increasing order, and `idx` misses no present position.
   */
  ghost predicate Picks<T>(idx: seq<nat>, r: seq<T>, xs: seq<Option<T>>) {
    && |idx| == |r|
    && Increasing(idx)
    && (forall j :: 0 <= j < |idx| ==> idx[j] < |xs| && xs[idx[j]] == Some(r[j]))
    && (forall k :: 0 <= k < |xs| && xs[k].Some? ==> k in idx)
  }

  /** `a` is `b` with some elements left out, the others in their order. */
  ghost predicate Embeds<T>(idx: seq<nat>, a: seq<T>, b: seq<T>) {
    && |idx| == |a|
    && Increasing(idx)
    && (forall j :: 0 <= j < |idx| ==> idx[j] < |b| && a[j] == b[idx[j]])
  }

  ghost predicate IsSubsequence<T>(a: seq<T>, b: seq<T>) {
    exists idx :: Embeds(idx, a, b)
  }

  /** Positions shifted one to the right. */
  ghost function Shift(idx: seq<nat>): (r: seq<nat>)
    ensures |r| == |idx|
    ensures forall j :: 0 <= j < |idx| ==> r[j] == idx[j] + 1
  {
    seq(|idx|, j requires 0 <= j < |idx| => idx[j] + 1)
  }

  /** An element in front of `b` that `a` leaves out. */
  lemma EmbedsSkip<T>(x: T, a: seq<T>, b: seq<T>, idx: seq<nat>)
    requires Embeds(idx, a, b)
    ensures Embeds(Shift(idx), a, [x] + b)
  {
    ShiftIncreasing(idx, false);
  }

  /** An element in front of both `a` and `b`. */
  lemma EmbedsKeep<T>(x: T, a: seq<T>, b: seq<T>, idx: seq<nat>)
    requires Embeds(idx, a, b)
    ensures Embeds([0] + Shift(idx), [x] + a, [x] + b)
  {
    ShiftIncreasing(idx, true);
    var idx' := [0] + Shift(idx);
    forall j | 0 <= j < |idx'|
      ensures idx'[j] < |[x] + b| && ([x] + a)[j] == ([x] + b)[idx'[j]]
    {
      if j > 0 {
        assert idx'[j] == idx[j - 1] + 1;
      }
    }
  }

  /** `compact` keeps exactly the present values, in their order. */
  lemma {:induction false} CompactPicks<T>(xs: seq<Option<T>>)
    ensures exists idx :: Picks(idx, Compact(xs), xs)
  {
    if xs == [] {
      assert Picks([], Compact(xs), xs);
    } else {
      var tail := xs[1..];
      assert xs == [xs[0]] + tail;
      CompactPicks(tail);
      var rest :| Picks(rest, Compact(tail), tail);
      if xs[0].Some? {
        assert Compact(xs) == [xs[0].value] + Compact(tail);
        var idx := PicksKeep(xs[0].value, tail, Compact(tail), rest);
        assert Picks(idx, Compact(xs), xs);
      } else {
        assert Compact(xs) == Compact(tail);
        var idx := PicksSkip(tail, Compact(tail), rest);
        assert Picks(idx, Compact(xs), xs);
      }
    }
  }

  /** Extends a picking of `xs` to one of `[None] + xs`. */
  lemma PicksSkip<T>(xs: seq<Option<T>>, r: seq<T>, rest: seq<nat>) returns (idx: seq<nat>)
    requires Picks(rest, r, xs)
    ensures Picks(idx, r, [None] + xs)
  {
    var ys := [None] + xs;
    idx := Shift(rest);
    ShiftIncreasing(rest, false);
    assert forall j :: 0 <= j < |idx| ==> idx[j] < |ys| && ys[idx[j]] == Some(r[j]) by {
      forall j | 0 <= j < |idx|
        ensures idx[j] < |ys| && ys[idx[j]] == Some(r[j])
      {
        assert ys[rest[j] + 1] == xs[rest[j]];
      }
    }
    assert forall k :: 0 <= k < |ys| && ys[k].Some? ==> k in idx by {
      forall k | 0 <= k < |ys| && ys[k].Some?
        ensures k in idx
      {
        assert ys[k] == xs[k - 1];
        var j :| 0 <= j < |rest| && rest[j] == k - 1;
        assert idx[j] == k;
      }
    }
  }

  /** Extends a picking of `xs` to one of `[Some(v)] + xs`. */
  lemma PicksKeep<T>(v: T, xs: seq<Option<T>>, r: seq<T>, rest: seq<nat>) returns (idx: seq<nat>)
    requires Picks(rest, r, xs)
    ensures Picks(idx, [v] + r, [Some(v)] + xs)
  {
    idx := [0] + Shift(rest);
    ShiftIncreasing(rest, true);
    KeepPositions(v, xs, r, rest);
    KeepCovers(v, xs, r, rest);
  }

  lemma KeepPositions<T>(v: T, xs: seq<Option<T>>, r: seq<T>, rest: seq<nat>)
    requires |rest| == |r|
    requires forall j :: 0 <= j < |rest| ==> rest[j] < |xs| && xs[rest[j]] == Some(r[j])
    ensures var idx, ys, r' := [0] + Shift(rest), [Some(v)] + xs, [v] + r;
      forall j :: 0 <= j < |idx| ==> idx[j] < |ys| && ys[idx[j]] == Some(r'[j])
  {
    var idx, ys, r' := [0] + Shift(rest), [Some(v)] + xs, [v] + r;
    forall j | 0 <= j < |idx|
      ensures idx[j] < |ys| && ys[idx[j]] == Some(r'[j])
    {
      if j > 0 {
        assert idx[j] == rest[j - 1] + 1;
        assert ys[rest[j - 1] + 1] == xs[rest[j - 1]];
      }
    }
  }

  lemma KeepCovers<T>(v: T, xs: seq<Option<T>>, r: seq<T>, rest: seq<nat>)
    requires forall k :: 0 <= k < |xs| && xs[k].Some? ==> k in rest
    ensures var idx, ys := [0] + Shift(rest), [Some(v)] + xs;
      forall k :: 0 <= k < |ys| && ys[k].Some? ==> k in idx
  {
    var idx, ys := [0] + Shift(rest), [Some(v)] + xs;
    forall k | 0 <= k < |ys| && ys[k].Some?
      ensures k in idx
    {
      if k == 0 {
        assert idx[0] == 0;
      } else {
        assert ys[k] == xs[k - 1];
        var j :| 0 <= j < |rest| && rest[j] == k - 1;
        assert idx[j + 1] == k;
      }
    }
  }

  lemma ShiftIncreasing(idx: seq<nat>, withZero: bool)
    requires Increasing(idx)
    ensures Increasing(Shift(idx))
    ensures withZero ==> Increasing([0] + Shift(idx))
  {
    var s := Shift(idx);
    if withZero {
      var z := [0] + s;
      forall i, j | 0 <= i < j < |z|
        ensures z[i] < z[j]
      {
        if i > 0 {
          assert z[i] == idx[i - 1] + 1 && z[j] == idx[j - 1] + 1;
        }
      }
    }
  }
}
