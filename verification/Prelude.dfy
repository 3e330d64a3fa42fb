/**
 Types and sequence facts shared by the models: keys, 64-bit numbers, optional values, duplicate-free
 enumerations of finite sets, and flattening of batched sequences.
 */
module Prelude {

  /** Keys are their text. */
  type PublicKey = string

  const U64_RANGE: nat := 0x1_0000_0000_0000_0000

  type U64 = n: nat | n < U64_RANGE

  datatype Option<+T> = None | Some(value: T)

  ghost predicate Distinct<T>(s: seq<T>) {
    forall i, j :: 0 <= i < j < |s| ==> s[i] != s[j]
  }

  /** `s` lists every element of `keys` exactly once. */
  ghost predicate Enumerates<T>(s: seq<T>, keys: set<T>) {
    Distinct(s) && (forall x :: x in s ==> x in keys) && (forall x :: x in keys ==> x in s)
  }

  lemma {:induction false} EnumerationExists<T>(keys: set<T>) returns (s: seq<T>)
    ensures Enumerates(s, keys)
    decreases |keys|
  {
    if keys == {} {
      s := [];
    } else {
      var x :| x in keys;
      var rest := EnumerationExists(keys - {x});
      s := [x] + rest;
    }
  }

  /** The elements to keep, in order. */
  function Filter<T>(keep: T -> bool, s: seq<T>): seq<T> {
    if s == [] then []
    else Filter(keep, s[..|s| - 1]) + (if keep(s[|s| - 1]) then [s[|s| - 1]] else [])
  }

  /** `positions` are increasing positions in a list of `n`. */
  ghost predicate Increasing(positions: seq<nat>, n: nat) {
    && (forall i :: 0 <= i < |positions| ==> positions[i] < n)
    && (forall i, j :: 0 <= i < j < |positions| ==> positions[i] < positions[j])
  }

  /** `after` is what `before` has at `positions`, in the same order. */
  ghost predicate Selects<T>(before: seq<T>, after: seq<T>, positions: seq<nat>) {
    && |positions| == |after| && Increasing(positions, |before|)
    && forall i :: 0 <= i < |after| ==> after[i] == before[positions[i]]
  }

  lemma IncreasingSnoc(positions: seq<nat>, n: nat)
    requires Increasing(positions, n)
    ensures Increasing(positions, n + 1) && Increasing(positions + [n], n + 1)
    ensures n !in positions && forall j :: j in positions + [n] <==> j in positions || j == n
  {
  }

  /** One more element, selected or not. */
  lemma SelectsSnoc<T>(before: seq<T>, after: seq<T>, positions: seq<nat>, x: T)
    requires Selects(before, after, positions)
    ensures Selects(before + [x], after, positions)
    ensures Selects(before + [x], after + [x], positions + [|before|])
    ensures |before| !in positions
    ensures forall j :: j in positions + [|before|] <==> j in positions || j == |before|
  {
  }

  /** Filtering selects exactly the positions whose element is kept. */
  lemma {:induction false} FilterSelects<T>(keep: T -> bool, s: seq<T>) returns (positions: seq<nat>)
    ensures Selects(s, Filter(keep, s), positions)
    ensures forall j :: 0 <= j < |s| ==> (j in positions <==> keep(s[j]))
  {
    positions := [];
    if s != [] {
      var n := |s| - 1;
      positions := FilterSelects(keep, s[..n]);
      SelectsSnoc(s[..n], Filter(keep, s[..n]), positions, s[n]);
      assert s[..n] + [s[n]] == s;
      assert forall j :: 0 <= j < n ==> s[..n][j] == s[j];
      hide Selects;
      if keep(s[n]) {
        positions := positions + [n];
      }
    }
  }

  function Flatten<T>(batches: seq<seq<T>>): seq<T> {
    if batches == [] then [] else Flatten(batches[..|batches| - 1]) + batches[|batches| - 1]
  }

  lemma FlattenSnoc<T>(batches: seq<seq<T>>, b: seq<T>)
    ensures Flatten(batches + [b]) == Flatten(batches) + b
  {
    assert (batches + [b])[..|batches|] == batches;
  }
}
