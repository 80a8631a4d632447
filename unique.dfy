/**
 * The deduplication loop of `extract_tech_stack` (src/conversation.py),
 * stated for any key and any clean-up function: a candidate is kept, in its
 * cleaned form, when its key is longer than one character and has not been
 * seen, neither before the loop nor from an earlier kept candidate.
 */
module Unique {
  import opened Comprehension

  /** The loop's result, from the set `seen` of keys already met. */
  function DedupBy(items: seq<string>, seen: set<string>, key: string -> string, clean: string -> string): seq<string>
    decreases |items|
  {
    if items == [] then []
    else
      var k := key(items[0]);
      if k !in seen && |k| > 1 then [clean(items[0])] + DedupBy(items[1..], seen + {k}, key, clean)
      else DedupBy(items[1..], seen, key, clean)
  }

  /** One step of the loop at position `i`. */
  lemma DedupByAt(items: seq<string>, i: nat, seen: set<string>, key: string -> string, clean: string -> string)
    requires i < |items|
    ensures DedupBy(items[i..], seen, key, clean) ==
      if key(items[i]) !in seen && |key(items[i])| > 1
      then [clean(items[i])] + DedupBy(items[i + 1..], seen + {key(items[i])}, key, clean)
      else DedupBy(items[i + 1..], seen, key, clean)
  {
    assert items[i..][1..] == items[i + 1..];
  }

  /** Item `j` has an eligible key, not in `seen`, that no earlier item
      has. */
  predicate FirstEligible(items: seq<string>, seen: set<string>, key: string -> string, j: nat)
    requires j < |items|
  {
    && |key(items[j])| > 1
    && key(items[j]) !in seen
    && forall i :: 0 <= i < j ==> key(items[i]) != key(items[j])
  }

  /** Whether the head is kept decides which keys the rest is judged
      against. */
  function SeenAfterHead(items: seq<string>, seen: set<string>, key: string -> string): set<string>
    requires items != []
  {
    var k := key(items[0]);
    if k !in seen && |k| > 1 then seen + {k} else seen
  }

  /** Being first-eligible after the head, relative to the keys the head
      leaves seen. */
  lemma FirstEligibleShift(items: seq<string>, seen: set<string>, key: string -> string, j: nat)
    requires 0 < |items| && j < |items| - 1
    ensures FirstEligible(items, seen, key, j + 1) == FirstEligible(items[1..], SeenAfterHead(items, seen, key), key, j)
  {
    var rest := items[1..];
    var seen' := SeenAfterHead(items, seen, key);
    assert rest[j] == items[j + 1];
    assert forall i :: 0 <= i < j ==> rest[i] == items[i + 1];
    if FirstEligible(items, seen, key, j + 1) {
      forall i | 0 <= i < j ensures key(rest[i]) != key(rest[j]) {
        assert key(items[i + 1]) != key(items[j + 1]);
      }
    }
    if FirstEligible(rest, seen', key, j) {
      forall i | 0 <= i < j + 1 ensures key(items[i]) != key(items[j + 1]) {
        if i > 0 {
          assert key(rest[i - 1]) != key(rest[j]);
        }
      }
    }
  }

  /** `picked` lists, in increasing order, the positions of exactly the
      first-eligible items, and `out` holds those items cleaned. */
  predicate Picks(items: seq<string>, seen: set<string>, key: string -> string, clean: string -> string,
                  picked: seq<nat>, out: seq<string>)
  {
    && |picked| == |out|
    && (forall k :: 0 <= k < |picked| ==>
          picked[k] < |items| && FirstEligible(items, seen, key, picked[k]) && out[k] == clean(items[picked[k]]))
    && (forall k, l :: 0 <= k < l < |picked| ==> picked[k] < picked[l])
    && (forall j :: 0 <= j < |items| && FirstEligible(items, seen, key, j) ==> j in picked)
  }

  /** The positions of the result, given those of the rest's result. */
  function PickedAfterHead(items: seq<string>, seen: set<string>, key: string -> string, tail: seq<nat>): seq<nat>
    requires items != []
  {
    var k := key(items[0]);
    if k !in seen && |k| > 1 then [0] + Shift(tail) else Shift(tail)
  }

  lemma PicksKeepValues(items: seq<string>, seen: set<string>, key: string -> string, clean: string -> string, tail: seq<nat>)
    requires items != [] && key(items[0]) !in seen && |key(items[0])| > 1
    requires Picks(items[1..], seen + {key(items[0])}, key, clean, tail,
                   DedupBy(items[1..], seen + {key(items[0])}, key, clean))
    ensures var picked := [0] + Shift(tail);
      var out := DedupBy(items, seen, key, clean);
      && |picked| == |out|
      && forall k :: 0 <= k < |picked| ==>
           picked[k] < |items| && FirstEligible(items, seen, key, picked[k]) && out[k] == clean(items[picked[k]])
  {
    var seen' := seen + {key(items[0])};
    var rest := items[1..];
    var picked := [0] + Shift(tail);
    var out := DedupBy(items, seen, key, clean);
    var outRest := DedupBy(rest, seen', key, clean);
    assert out == [clean(items[0])] + outRest;
    forall k | 0 < k < |picked|
      ensures picked[k] < |items| && FirstEligible(items, seen, key, picked[k]) && out[k] == clean(items[picked[k]])
    {
      var t := tail[k - 1];
      assert picked[k] == t + 1;
      assert FirstEligible(rest, seen', key, t);
      FirstEligibleShift(items, seen, key, t);
      assert items[t + 1] == rest[t];
      assert out[k] == outRest[k - 1];
    }
    assert FirstEligible(items, seen, key, 0);
  }

  lemma PicksSkipValues(items: seq<string>, seen: set<string>, key: string -> string, clean: string -> string, tail: seq<nat>)
    requires items != [] && !(key(items[0]) !in seen && |key(items[0])| > 1)
    requires Picks(items[1..], seen, key, clean, tail, DedupBy(items[1..], seen, key, clean))
    ensures var picked := Shift(tail);
      var out := DedupBy(items, seen, key, clean);
      && |picked| == |out|
      && forall k :: 0 <= k < |picked| ==>
           picked[k] < |items| && FirstEligible(items, seen, key, picked[k]) && out[k] == clean(items[picked[k]])
  {
    var rest := items[1..];
    var picked := Shift(tail);
    var out := DedupBy(items, seen, key, clean);
    assert out == DedupBy(rest, seen, key, clean);
    forall k | 0 <= k < |picked|
      ensures picked[k] < |items| && FirstEligible(items, seen, key, picked[k]) && out[k] == clean(items[picked[k]])
    {
      var t := tail[k];
      assert FirstEligible(rest, seen, key, t);
      FirstEligibleShift(items, seen, key, t);
      assert items[t + 1] == rest[t];
    }
  }

  lemma PicksStepComplete(items: seq<string>, seen: set<string>, key: string -> string, clean: string -> string, tail: seq<nat>)
    requires items != []
    requires Picks(items[1..], SeenAfterHead(items, seen, key), key, clean, tail,
                   DedupBy(items[1..], SeenAfterHead(items, seen, key), key, clean))
    ensures forall j :: 0 <= j < |items| && FirstEligible(items, seen, key, j) ==> j in PickedAfterHead(items, seen, key, tail)
  {
    var seen' := SeenAfterHead(items, seen, key);
    forall j | 0 <= j < |items| && FirstEligible(items, seen, key, j) ensures j in PickedAfterHead(items, seen, key, tail) {
      if j > 0 {
        FirstEligibleShift(items, seen, key, j - 1);
        assert FirstEligible(items[1..], seen', key, j - 1);
        PickedLater(items, seen, key, tail, j);
      } else {
        assert PickedAfterHead(items, seen, key, tail)[0] == 0;
      }
    }
  }

  /** A later item picked in the rest is picked, one place further on. */
  lemma PickedLater(items: seq<string>, seen: set<string>, key: string -> string, tail: seq<nat>, j: nat)
    requires items != [] && 0 < j && j - 1 in tail
    ensures j in PickedAfterHead(items, seen, key, tail)
  {
    var k :| 0 <= k < |tail| && tail[k] == j - 1;
    var offset := if key(items[0]) !in seen && |key(items[0])| > 1 then 1 else 0;
    assert PickedAfterHead(items, seen, key, tail)[k + offset] == j;
  }

  lemma PicksStep(items: seq<string>, seen: set<string>, key: string -> string, clean: string -> string, tail: seq<nat>)
    requires items != []
    requires Picks(items[1..], SeenAfterHead(items, seen, key), key, clean, tail,
                   DedupBy(items[1..], SeenAfterHead(items, seen, key), key, clean))
    ensures Picks(items, seen, key, clean, PickedAfterHead(items, seen, key, tail), DedupBy(items, seen, key, clean))
  {
    if key(items[0]) !in seen && |key(items[0])| > 1 {
      PicksKeepValues(items, seen, key, clean, tail);
    } else {
      PicksSkipValues(items, seen, key, clean, tail);
    }
    PicksStepComplete(items, seen, key, clean, tail);
    ShiftIncreasing(tail);
  }

  /** What the loop keeps, exactly: the cleaned first-eligible items, in
      their order, found at the positions `picked`. */
  lemma {:induction false} DedupKeeps(items: seq<string>, seen: set<string>, key: string -> string, clean: string -> string)
    returns (picked: seq<nat>)
    ensures Picks(items, seen, key, clean, picked, DedupBy(items, seen, key, clean))
    decreases |items|
  {
    if items == [] {
      picked := [];
    } else {
      var tail := DedupKeeps(items[1..], SeenAfterHead(items, seen, key), key, clean);
      PicksStep(items, seen, key, clean, tail);
      picked := PickedAfterHead(items, seen, key, tail);
    }
  }

  /** No key of `out` is in `seen` or shorter than two characters, and no
      two entries share a key. */
  predicate KeysNewAndDistinct(out: seq<string>, seen: set<string>, key: string -> string) {
    && (forall k :: 0 <= k < |out| ==> key(out[k]) !in seen && |key(out[k])| > 1)
    && (forall k, l :: 0 <= k < l < |out| ==> key(out[k]) != key(out[l]))
  }

  /** When cleaning keeps the key, the kept items have distinct keys, none
      of them seen before and each longer than one character. */
  lemma {:induction false} DedupByDistinct(items: seq<string>, seen: set<string>, key: string -> string, clean: string -> string)
    requires forall x :: key(clean(x)) == key(x)
    ensures KeysNewAndDistinct(DedupBy(items, seen, key, clean), seen, key)
    decreases |items|
  {
    if items != [] {
      var h := key(items[0]);
      var out := DedupBy(items, seen, key, clean);
      if h !in seen && |h| > 1 {
        DedupByDistinct(items[1..], seen + {h}, key, clean);
        var rest := DedupBy(items[1..], seen + {h}, key, clean);
        assert out == [clean(items[0])] + rest;
        assert key(out[0]) == h;
        forall k | 0 < k < |out| ensures out[k] == rest[k - 1] && key(out[k]) !in seen + {h} {
          assert key(rest[k - 1]) !in seen + {h};
        }
      } else {
        DedupByDistinct(items[1..], seen, key, clean);
        assert out == DedupBy(items[1..], seen, key, clean);
      }
    }
  }
}
