/** `Enumerable.MaxBy` and `Enumerable.MinBy` with an `int?` key, over a
    sequence of a value type: null keys are skipped, a later key replaces the
    current one only when strictly better, every-key-null gives the first
    element, and an empty sequence throws. */
module Extremum {
  import opened Wrappers
  import opened Exceptions

  datatype Direction = Max | Min

  /** `a` is strictly better than `b`: the comparer's `> 0` for MaxBy, `< 0` for MinBy. */
  predicate Beats(dir: Direction, a: int, b: int) {
    match dir
    case Max => a > b
    case Min => a < b
  }

  /** A candidate key replaces the current one when it is present and the
      current one is absent or strictly worse. */
  predicate Replaces(dir: Direction, candidate: Option<int>, current: Option<int>) {
    candidate.Some? && (current.None? || Beats(dir, candidate.value, current.value))
  }

  function KeysOf<T>(items: seq<T>, key: T -> Option<int>): (keys: seq<Option<int>>)
    ensures |keys| == |items|
    ensures forall i :: 0 <= i < |items| ==> keys[i] == key(items[i])
  {
    seq(|items|, i requires 0 <= i < |items| => key(items[i]))
  }

  predicate AllAbsent(keys: seq<Option<int>>) {
    forall j :: 0 <= j < |keys| ==> keys[j].None?
  }

  /** The declarative meaning of the selected index: with at least one
      present key, a present key that nothing beats and that beats every
      earlier present key (so the earliest among equals); with none, the
      first index. */
  predicate IsExtremum(dir: Direction, keys: seq<Option<int>>, k: int) {
    && 0 <= k < |keys|
    && if AllAbsent(keys) then k == 0
       else
         && keys[k].Some?
         && (forall j :: 0 <= j < |keys| && keys[j].Some? ==> !Beats(dir, keys[j].value, keys[k].value))
         && (forall j :: 0 <= j < k && keys[j].Some? ==> Beats(dir, keys[k].value, keys[j].value))
  }

  /** The index the scan settles on, defined over ever longer prefixes. */
  function ExtremumIndex(dir: Direction, keys: seq<Option<int>>): (k: nat)
    requires |keys| > 0
    ensures k < |keys|
  {
    if |keys| == 1 then 0
    else
      var k := ExtremumIndex(dir, keys[..|keys| - 1]);
      if Replaces(dir, keys[|keys| - 1], keys[k]) then |keys| - 1 else k
  }

  /** One more element of the scan: the next key replaces the selection or not. */
  lemma ExtremumIndexStep(dir: Direction, keys: seq<Option<int>>, i: nat)
    requires 0 < i < |keys|
    ensures var k := ExtremumIndex(dir, keys[..i]);
      ExtremumIndex(dir, keys[..i + 1]) == if Replaces(dir, keys[i], keys[k]) then i else k
  {
    assert keys[..i + 1][..i] == keys[..i];
  }

  /** The scan selects an index meeting the declarative description. */
  lemma {:induction false} ExtremumIndexIsExtremum(dir: Direction, keys: seq<Option<int>>)
    requires |keys| > 0
    ensures IsExtremum(dir, keys, ExtremumIndex(dir, keys))
  {
    if |keys| > 1 {
      var prefix := keys[..|keys| - 1];
      ExtremumIndexIsExtremum(dir, prefix);
      assert forall j :: 0 <= j < |prefix| ==> prefix[j] == keys[j];
      if !AllAbsent(keys) && AllAbsent(prefix) {
        assert keys[|keys| - 1].Some?;
      }
    }
  }

  /** At most one index meets the description, so it fixes the selection. */
  lemma IsExtremumUnique(dir: Direction, keys: seq<Option<int>>, k1: int, k2: int)
    requires IsExtremum(dir, keys, k1) && IsExtremum(dir, keys, k2)
    ensures k1 == k2
  {
  }

  /** MaxBy picks the greatest present key, the earliest among equals; it
      picks an absent key exactly when every key is absent, and then the
      first element. */
  lemma {:induction false} MaxByIsGreatestPresent(keys: seq<Option<int>>)
    requires |keys| > 0
    ensures var k := ExtremumIndex(Max, keys);
      && (AllAbsent(keys) <==> keys[k].None?)
      && (AllAbsent(keys) ==> k == 0)
      && (keys[k].Some? ==> forall j :: 0 <= j < |keys| && keys[j].Some? ==> keys[j].value <= keys[k].value)
      && (forall j :: 0 <= j < k ==> keys[j] != keys[k])
  {
    ExtremumIndexIsExtremum(Max, keys);
  }

  /** MinBy picks the least present key, the earliest among equals; it
      picks an absent key exactly when every key is absent, and then the
      first element: absent keys are skipped, not ranked below present ones. */
  lemma {:induction false} MinByIsLeastPresent(keys: seq<Option<int>>)
    requires |keys| > 0
    ensures var k := ExtremumIndex(Min, keys);
      && (AllAbsent(keys) <==> keys[k].None?)
      && (AllAbsent(keys) ==> k == 0)
      && (keys[k].Some? ==> forall j :: 0 <= j < |keys| && keys[j].Some? ==> keys[k].value <= keys[j].value)
      && (forall j :: 0 <= j < k ==> keys[j] != keys[k])
  {
    ExtremumIndexIsExtremum(Min, keys);
  }

  /** The library loop: skip leading null keys (returning the first element
      if all are null), then keep the current element unless a later
      non-null key is strictly better. */
  method ExtremumBy<T>(dir: Direction, items: seq<T>, key: T -> Option<int>) returns (r: Result<T, Exception>)
    ensures items == [] <==> r.Failure?
    ensures r.Failure? ==> r.error == InvalidOperation
    ensures r.Success? ==> r.value == items[ExtremumIndex(dir, KeysOf(items, key))]
  {
    if |items| == 0 {
      return Failure(InvalidOperation);
    }
    ghost var keys := KeysOf(items, key);
    var k, best, i := SkipAbsent(dir, items, key);
    if best.None? {
      assert keys[..i] == keys;
      return Success(items[0]);
    }
    k := ScanPresent(dir, items, key, k, best, i);
    r := Success(items[k]);
  }

  /** The first phase: keeps the first element while its key is null and
      moves to the first element with a key; stops there or at the end. */
  method SkipAbsent<T>(dir: Direction, items: seq<T>, key: T -> Option<int>)
    returns (k: nat, best: Option<int>, i: nat)
    requires |items| > 0
    ensures k < i <= |items|
    ensures best == KeysOf(items, key)[k]
    ensures k == ExtremumIndex(dir, KeysOf(items, key)[..i])
    ensures best.None? ==> k == 0 && i == |items|
  {
    ghost var keys := KeysOf(items, key);
    k, best, i := 0, key(items[0]), 1;
    while i < |items| && best.None?
      invariant 1 <= i <= |items|
      invariant best.None? ==> k == 0
      invariant k < i && best == keys[k] && k == ExtremumIndex(dir, keys[..i])
    {
      ExtremumIndexStep(dir, keys, i);
      var candidate := key(items[i]);
      if candidate.Some? {
        k, best := i, candidate;
      }
      i := i + 1;
    }
  }

  /** The second phase: from a present key on, a later key replaces the
      current one only when it is present and strictly better. */
  method ScanPresent<T>(dir: Direction, items: seq<T>, key: T -> Option<int>, k0: nat, best0: Option<int>, i0: nat)
    returns (k: nat)
    requires k0 < i0 <= |items|
    requires best0.Some? && best0 == KeysOf(items, key)[k0]
    requires k0 == ExtremumIndex(dir, KeysOf(items, key)[..i0])
    ensures k == ExtremumIndex(dir, KeysOf(items, key))
  {
    ghost var keys := KeysOf(items, key);
    var best := best0;
    var i := i0;
    k := k0;
    while i < |items|
      invariant i0 <= i <= |items|
      invariant k < i && best == keys[k] && best.Some?
      invariant k == ExtremumIndex(dir, keys[..i])
    {
      ExtremumIndexStep(dir, keys, i);
      var candidate := key(items[i]);
      if candidate.Some? && Beats(dir, candidate.value, best.value) {
        k, best := i, candidate;
      }
      i := i + 1;
    }
    assert keys[..i] == keys;
  }
}
