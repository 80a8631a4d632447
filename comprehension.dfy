/**
 * What a filtering list comprehension `[f(x) for x in items if keep(f(x))]`
 * returns, stated without recursion: the transformed items that pass the
 * filter, in their order, at increasing positions, none of them missed.
 */
module Comprehension {

  /** `idx` lists, in increasing order, exactly the positions of the items
      whose transform passes `keep`, and `r` holds those transforms. */
  ghost predicate Selects<T, U>(items: seq<T>, f: T -> U, keep: U -> bool, idx: seq<nat>, r: seq<U>) {
    && |idx| == |r|
    && (forall k :: 0 <= k < |idx| ==> idx[k] < |items| && keep(f(items[idx[k]])) && r[k] == f(items[idx[k]]))
    && (forall k, l :: 0 <= k < l < |idx| ==> idx[k] < idx[l])
    && (forall j :: 0 <= j < |items| && keep(f(items[j])) ==> j in idx)
  }

  /** Every position one further on. */
  function Shift(idx: seq<nat>): (r: seq<nat>)
    ensures |r| == |idx| && forall k :: 0 <= k < |r| ==> r[k] == idx[k] + 1
  {
    seq(|idx|, k requires 0 <= k < |idx| => idx[k] + 1)
  }

  /** Positions after the head, with the head in front or not, stay
      increasing. */
  lemma ShiftIncreasing(tail: seq<nat>)
    requires forall k, l :: 0 <= k < l < |tail| ==> tail[k] < tail[l]
    ensures forall k, l :: 0 <= k < l < |Shift(tail)| ==> Shift(tail)[k] < Shift(tail)[l]
    ensures forall k, l :: 0 <= k < l < |[0] + Shift(tail)| ==> ([0] + Shift(tail))[k] < ([0] + Shift(tail))[l]
  {
  }

  /** The comprehension's first step: the head's transform, when it passes. */
  function HeadKept<T, U>(items: seq<T>, f: T -> U, keep: U -> bool): seq<U>
    requires items != []
  {
    if keep(f(items[0])) then [f(items[0])] else []
  }

  /** The positions of the whole result, given those of the tail's. */
  function IndexAfterHead<T, U>(items: seq<T>, f: T -> U, keep: U -> bool, tail: seq<nat>): seq<nat>
    requires items != []
  {
    if keep(f(items[0])) then [0] + Shift(tail) else Shift(tail)
  }

  lemma SelectsValues<T, U>(items: seq<T>, f: T -> U, keep: U -> bool, tail: seq<nat>, rest: seq<U>)
    requires items != [] && Selects(items[1..], f, keep, tail, rest)
    ensures var idx := IndexAfterHead(items, f, keep, tail);
      var r := HeadKept(items, f, keep) + rest;
      && |idx| == |r|
      && forall k :: 0 <= k < |idx| ==> idx[k] < |items| && keep(f(items[idx[k]])) && r[k] == f(items[idx[k]])
  {
    var idx := IndexAfterHead(items, f, keep, tail);
    var r := HeadKept(items, f, keep) + rest;
    var offset := if keep(f(items[0])) then 1 else 0;
    forall k | offset <= k < |idx|
      ensures idx[k] < |items| && keep(f(items[idx[k]])) && r[k] == f(items[idx[k]])
    {
      assert idx[k] == tail[k - offset] + 1;
      assert r[k] == rest[k - offset];
      assert items[idx[k]] == items[1..][tail[k - offset]];
    }
  }

  lemma SelectsComplete<T, U>(items: seq<T>, f: T -> U, keep: U -> bool, tail: seq<nat>, rest: seq<U>)
    requires items != [] && Selects(items[1..], f, keep, tail, rest)
    ensures forall j :: 0 <= j < |items| && keep(f(items[j])) ==> j in IndexAfterHead(items, f, keep, tail)
  {
    var idx := IndexAfterHead(items, f, keep, tail);
    var offset := if keep(f(items[0])) then 1 else 0;
    forall j | 0 <= j < |items| && keep(f(items[j])) ensures j in idx {
      if j > 0 {
        assert items[1..][j - 1] == items[j];
        var k :| 0 <= k < |tail| && tail[k] == j - 1;
        assert idx[k + offset] == j;
      } else {
        assert idx[0] == 0;
      }
    }
  }

  /** One step of the comprehension keeps the characterisation. */
  lemma SelectsStep<T, U>(items: seq<T>, f: T -> U, keep: U -> bool, tail: seq<nat>, rest: seq<U>)
    requires items != [] && Selects(items[1..], f, keep, tail, rest)
    ensures Selects(items, f, keep, IndexAfterHead(items, f, keep, tail), HeadKept(items, f, keep) + rest)
  {
    SelectsValues(items, f, keep, tail, rest);
    SelectsComplete(items, f, keep, tail, rest);
    ShiftIncreasing(tail);
  }
}
