/** Order-preserving filter-and-map over a list, the shape of a Python loop that
    appends `f(x)` for every `x` passing a test, and what it means for the result
    to be exactly the images of the passing elements, in order. */
module Filtering {

  /** The images under `f` of the elements of `xs` that pass `keep`, in order. */
  function FilterMap(xs: seq<string>, keep: string -> bool, f: string -> string): (r: seq<string>)
    ensures |r| <= |xs|
  {
    if |xs| == 0 then []
    else (if keep(xs[0]) then [f(xs[0])] else []) + FilterMap(xs[1..], keep, f)
  }

  /** Nothing passes, nothing is kept. */
  lemma {:induction false} NoneKept(xs: seq<string>, keep: string -> bool, f: string -> string)
    requires forall k :: 0 <= k < |xs| ==> !keep(xs[k])
    ensures FilterMap(xs, keep, f) == []
  {
    if |xs| > 0 {
      assert !keep(xs[0]);
      NoneKept(xs[1..], keep, f);
    }
  }

  /** `out` is the image under `f` of the passing elements at positions `idx`, all
      at or after `from`. */
  predicate Pairs(keep: string -> bool, f: string -> string, xs: seq<string>, idx: seq<nat>, out: seq<string>, from: nat) {
    && |idx| == |out|
    && (forall k :: 0 <= k < |idx| ==> from <= idx[k] < |xs| && keep(xs[idx[k]]) && out[k] == f(xs[idx[k]]))
  }

  predicate Increasing(idx: seq<nat>) {
    forall k, m :: 0 <= k < m < |idx| ==> idx[k] < idx[m]
  }

  /** `idx` lists every passing position from `from` on. */
  predicate Covers(keep: string -> bool, xs: seq<string>, idx: seq<nat>, from: nat) {
    forall i :: from <= i < |xs| && keep(xs[i]) ==> i in idx
  }

  /** `out` is the image under `f` of the passing elements at the strictly increasing
      positions `idx`, all at or after `from`, and `idx` lists every passing
      position from `from` on. */
  predicate Selects(keep: string -> bool, f: string -> string, xs: seq<string>, idx: seq<nat>, out: seq<string>, from: nat) {
    Pairs(keep, f, xs, idx, out, from) && Increasing(idx) && Covers(keep, xs, idx, from)
  }

  /** Every position moved one place on. */
  function Shift(idx: seq<nat>): seq<nat> {
    seq(|idx|, k requires 0 <= k < |idx| => idx[k] + 1)
  }

  /** Shifted positions of pairs from the tail point at the same elements of `xs`. */
  lemma ShiftPairs(keep: string -> bool, f: string -> string, xs: seq<string>, rest: seq<nat>, out: seq<string>)
    requires |xs| > 0
    requires Pairs(keep, f, xs[1..], rest, out, 0)
    ensures Pairs(keep, f, xs, Shift(rest), out, 1)
  {
    var tail := xs[1..];
    var sh := Shift(rest);
    forall k | 0 <= k < |rest|
      ensures 1 <= sh[k] < |xs| && keep(xs[sh[k]]) && out[k] == f(xs[sh[k]])
    {
      var j := rest[k];
      assert j < |tail| && keep(tail[j]) && out[k] == f(tail[j]);
      assert sh[k] == j + 1;
      assert tail[j] == xs[j + 1];
    }
  }

  /** Shifting keeps the positions strictly increasing. */
  lemma ShiftOrdered(rest: seq<nat>)
    requires Increasing(rest)
    ensures Increasing(Shift(rest))
  {
  }

  /** Every passing position from 1 on is a shifted position of the tail's. */
  lemma ShiftCovers(keep: string -> bool, xs: seq<string>, rest: seq<nat>)
    requires |xs| > 0
    requires Covers(keep, xs[1..], rest, 0)
    ensures Covers(keep, xs, Shift(rest), 1)
  {
    var shifted := Shift(rest);
    forall i | 1 <= i < |xs| && keep(xs[i])
      ensures i in shifted
    {
      assert xs[1..][i - 1] == xs[i];
      var k :| 0 <= k < |rest| && rest[k] == i - 1;
      assert shifted[k] == i;
    }
  }

  /** A selection from the tail of `xs`, shifted by one, selects from `xs` at
      positions 1 onward. */
  lemma ShiftSelects(keep: string -> bool, f: string -> string, xs: seq<string>, rest: seq<nat>, out: seq<string>)
    requires |xs| > 0
    requires Selects(keep, f, xs[1..], rest, out, 0)
    ensures Selects(keep, f, xs, Shift(rest), out, 1)
  {
    ShiftPairs(keep, f, xs, rest, out);
    ShiftOrdered(rest);
    ShiftCovers(keep, xs, rest);
  }

  /** Position 0 in front of positions from 1 on keeps them strictly increasing. */
  lemma ConsOrdered(shifted: seq<nat>)
    requires forall k :: 0 <= k < |shifted| ==> 1 <= shifted[k]
    requires Increasing(shifted)
    ensures Increasing([0] + shifted)
  {
    var idx := [0] + shifted;
    forall k, m | 0 <= k < m < |idx|
      ensures idx[k] < idx[m]
    {
      assert idx[m] == shifted[m - 1];
      if k > 0 {
        assert idx[k] == shifted[k - 1];
      }
    }
  }

  /** The first element and its image in front of pairs from position 1 are
      paired like the rest. */
  lemma ConsPairs(keep: string -> bool, f: string -> string, xs: seq<string>, shifted: seq<nat>, restOut: seq<string>)
    requires |xs| > 0 && keep(xs[0])
    requires Pairs(keep, f, xs, shifted, restOut, 1)
    ensures Pairs(keep, f, xs, [0] + shifted, [f(xs[0])] + restOut, 0)
  {
    var idx, out := [0] + shifted, [f(xs[0])] + restOut;
    forall k | 1 <= k < |idx|
      ensures idx[k] < |xs| && keep(xs[idx[k]]) && out[k] == f(xs[idx[k]])
    {
      assert idx[k] == shifted[k - 1];
      assert out[k] == restOut[k - 1];
    }
  }

  /** Every passing position is covered once position 0 is put in front. */
  lemma ConsCovers(keep: string -> bool, xs: seq<string>, shifted: seq<nat>)
    requires |xs| > 0 && keep(xs[0])
    requires Covers(keep, xs, shifted, 1)
    ensures Covers(keep, xs, [0] + shifted, 0)
  {
    var idx := [0] + shifted;
    forall i | 0 <= i < |xs| && keep(xs[i])
      ensures i in idx
    {
      if i > 0 {
        var k :| 0 <= k < |shifted| && shifted[k] == i;
        assert idx[k + 1] == i;
      }
    }
  }

  /** A passing first element in front of a selection from position 1 gives a
      selection from position 0. */
  lemma ConsSelects(keep: string -> bool, f: string -> string, xs: seq<string>, shifted: seq<nat>, restOut: seq<string>)
    requires |xs| > 0 && keep(xs[0])
    requires Selects(keep, f, xs, shifted, restOut, 1)
    ensures Selects(keep, f, xs, [0] + shifted, [f(xs[0])] + restOut, 0)
  {
    ConsPairs(keep, f, xs, shifted, restOut);
    ConsOrdered(shifted);
    ConsCovers(keep, xs, shifted);
  }

  /** `FilterMap` keeps exactly the passing elements, mapped, in their original
      order; the returned positions witness it. */
  lemma {:induction false} FilterMapSelects(keep: string -> bool, f: string -> string, xs: seq<string>) returns (idx: seq<nat>)
    ensures Selects(keep, f, xs, idx, FilterMap(xs, keep, f), 0)
  {
    if |xs| == 0 {
      idx := [];
    } else {
      var rest := FilterMapSelects(keep, f, xs[1..]);
      ShiftSelects(keep, f, xs, rest, FilterMap(xs[1..], keep, f));
      if keep(xs[0]) {
        assert FilterMap(xs, keep, f) == [f(xs[0])] + FilterMap(xs[1..], keep, f);
        ConsSelects(keep, f, xs, Shift(rest), FilterMap(xs[1..], keep, f));
        idx := [0] + Shift(rest);
      } else {
        assert FilterMap(xs, keep, f) == FilterMap(xs[1..], keep, f);
        idx := Shift(rest);
      }
    }
  }

  /** The first `cap` results of a filter-map: the images of the first passing
      elements, in order, with every passing element after the last one taken
      dropped only because the cap was reached. */
  lemma CappedSelects(keep: string -> bool, f: string -> string, xs: seq<string>, cap: nat) returns (idx: seq<nat>)
    requires cap > 0
    ensures var all := FilterMap(xs, keep, f);
            var out := if |all| <= cap then all else all[..cap];
            && |idx| == |out| <= cap
            && (forall k :: 0 <= k < |idx| ==> idx[k] < |xs| && keep(xs[idx[k]]) && out[k] == f(xs[idx[k]]))
            && (forall k, m :: 0 <= k < m < |idx| ==> idx[k] < idx[m])
            && (forall i :: 0 <= i < |xs| && keep(xs[i]) ==> i in idx || (0 < |idx| == cap && idx[cap - 1] < i))
  {
    var all := FilterMapSelects(keep, f, xs);
    if |all| <= cap {
      idx := all;
    } else {
      idx := all[..cap];
      forall i | 0 <= i < |xs| && keep(xs[i]) && i !in idx
        ensures 0 < |idx| == cap && idx[cap - 1] < i
      {
        var k :| 0 <= k < |all| && all[k] == i;
        assert k >= cap;
        assert idx[cap - 1] == all[cap - 1] < all[k];
      }
    }
  }
}
