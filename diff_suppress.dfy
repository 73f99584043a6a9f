/**
 * Order-insensitive comparison of an old and a new rrdatas list, used by the
 * provider to hide diffs that only reorder or re-spell records
 * (`rrdatasListDiffSuppress` and `rrdatasDnsDiffSuppress`).
 */
module DiffSuppress {
  import opened Wrappers
  import opened RecordKeys

  /** The keys of a list, in list order. */
  function Keys(xs: seq<string>, key: string -> string): (ks: seq<string>)
    ensures |ks| == |xs|
  {
    seq(|xs|, i requires 0 <= i < |xs| => key(xs[i]))
  }

  /** The set of keys of a list. */
  function KeySet(xs: seq<string>, key: string -> string): set<string> {
    set x | x in xs :: key(x)
  }

  /** No two elements of `xs` share a key. */
  predicate KeysDistinct(xs: seq<string>, key: string -> string) {
    forall a, b | 0 <= a < b < |xs| :: key(xs[a]) != key(xs[b])
  }

  /**
   * When the suppressor reports "no change": the new keys are pairwise
   * distinct and the new list has the same set of keys as the old one.
   * Duplicates in the old list collapse, duplicates in the new one do not.
   */
  predicate Suppressed(oldList: seq<string>, newList: seq<string>, key: string -> string) {
    KeysDistinct(newList, key) && KeySet(newList, key) == KeySet(oldList, key)
  }

  /**
   * `rrdatasListDiffSuppress`: a presence map from the old keys to `true`,
   * flipped to `false` by each new key; fails on a new key that is absent or
   * already flipped, and on any old key left `true`.
   */
  method ListDiffSuppress(oldList: seq<string>, newList: seq<string>, key: string -> string)
    returns (suppress: bool)
    ensures suppress <==> Suppressed(oldList, newList, key)
  {
    var diff: map<string, bool> := map[];
    var i := 0;
    while i < |oldList|
      invariant 0 <= i <= |oldList|
      invariant diff.Keys == KeySet(oldList[..i], key)
      invariant forall k | k in diff :: diff[k]
    {
      assert oldList[..i + 1] == oldList[..i] + [oldList[i]];
      diff := diff[key(oldList[i]) := true];
      i := i + 1;
    }
    assert oldList[..i] == oldList;
    ghost var oldKeys := KeySet(oldList, key);

    var j := 0;
    while j < |newList|
      invariant 0 <= j <= |newList|
      invariant diff.Keys == oldKeys
      invariant KeysDistinct(newList[..j], key)
      invariant KeySet(newList[..j], key) <= oldKeys
      invariant forall k | k in diff :: diff[k] <==> k !in KeySet(newList[..j], key)
    {
      var k := key(newList[j]);
      assert newList[..j + 1] == newList[..j] + [newList[j]];
      if k in diff && diff[k] {
        diff := diff[k := false];
      } else {
        if k !in oldKeys {
          assert k in KeySet(newList, key);
        } else {
          var x :| x in newList[..j] && key(x) == k;
          var m :| 0 <= m < j && newList[m] == x;
          assert key(newList[m]) == key(newList[j]);
        }
        return false;
      }
      j := j + 1;
    }
    assert newList[..j] == newList;

    var unvisited := diff.Keys;
    while unvisited != {}
      invariant unvisited <= diff.Keys
      invariant forall k | k in diff && k !in unvisited :: !diff[k]
      decreases unvisited
    {
      var k :| k in unvisited;
      if diff[k] {
        return false;
      }
      unvisited := unvisited - {k};
    }
    return true;
  }

  /** The key function `rrdatasDnsDiffSuppress` builds for a record type. */
  function KeyFor(rtype: string, ipKey: string -> string): string -> string {
    record => Normalize(rtype, record, ipKey)
  }

  /** An explicit change of the list length to zero (or to unset). */
  predicate ShrinksToZero(k: string, oldValue: string, newValue: string) {
    k == "rrdatas.#" && (newValue == "0" || newValue == "") && oldValue != newValue
  }

  /**
   * `rrdatasDnsDiffSuppress`: called for the attribute `k` with its old and new
   * string values; `oldRrdatas`/`newRrdatas` are the whole lists the framework
   * reports for the change (`None` for nil), `rtype` the configured type.
   */
  method DnsDiffSuppress(k: string, oldValue: string, newValue: string,
                         oldRrdatas: Option<seq<string>>, newRrdatas: Option<seq<string>>,
                         rtype: string, ipKey: string -> string)
    returns (suppress: bool)
    ensures ShrinksToZero(k, oldValue, newValue) ==> !suppress
    ensures oldRrdatas.None? || newRrdatas.None? ==> !suppress
    ensures suppress <==> && !ShrinksToZero(k, oldValue, newValue)
                          && oldRrdatas.Some? && newRrdatas.Some?
                          && Suppressed(oldRrdatas.value, newRrdatas.value, KeyFor(rtype, ipKey))
  {
    if ShrinksToZero(k, oldValue, newValue) {
      return false;
    }
    if oldRrdatas.None? || newRrdatas.None? {
      return false;
    }
    suppress := ListDiffSuppress(oldRrdatas.value, newRrdatas.value, KeyFor(rtype, ipKey));
  }

  // ---------------------------------------------------------------------------
  // Suppression against multisets of keys

  lemma KeySetIsElems(xs: seq<string>, key: string -> string)
    ensures forall k :: k in KeySet(xs, key) <==> k in multiset(Keys(xs, key))
  {
    forall k ensures k in KeySet(xs, key) <==> k in Keys(xs, key) {
      if k in Keys(xs, key) {
        var i :| 0 <= i < |xs| && Keys(xs, key)[i] == k;
        assert key(xs[i]) == k;
      }
      if k in KeySet(xs, key) {
        var x :| x in xs && key(x) == k;
        var i :| 0 <= i < |xs| && xs[i] == x;
        assert Keys(xs, key)[i] == k;
      }
    }
  }

  lemma {:induction false} DistinctKeysCountOnce(xs: seq<string>, key: string -> string)
    requires KeysDistinct(xs, key)
    ensures forall k :: multiset(Keys(xs, key))[k] == if k in KeySet(xs, key) then 1 else 0
  {
    if xs != [] {
      var rest := xs[1..];
      assert KeysDistinct(rest, key) by {
        forall a, b | 0 <= a < b < |rest| ensures key(rest[a]) != key(rest[b]) {
          assert rest[a] == xs[a + 1] && rest[b] == xs[b + 1];
        }
      }
      DistinctKeysCountOnce(rest, key);
      assert Keys(xs, key) == [key(xs[0])] + Keys(rest, key);
      assert xs == [xs[0]] + rest;
    }
  }

  lemma RepeatedKeyCountsTwice(xs: seq<string>, key: string -> string, a: nat, b: nat)
    requires a < b < |xs| && key(xs[a]) == key(xs[b])
    ensures multiset(Keys(xs, key))[key(xs[a])] >= 2
  {
    var ks := Keys(xs, key);
    assert ks == ks[..b] + ks[b..];
    assert ks[..b][a] == key(xs[a]);
    assert ks[b..][0] == key(xs[b]);
  }

  /**
   * When the old keys are already distinct, suppression is exactly equality
   * of the two multisets of keys: the comparison ignores order only.
   */
  lemma SuppressedIffSameKeyMultiset(oldList: seq<string>, newList: seq<string>, key: string -> string)
    requires KeysDistinct(oldList, key)
    ensures Suppressed(oldList, newList, key) <==> multiset(Keys(oldList, key)) == multiset(Keys(newList, key))
  {
    DistinctKeysCountOnce(oldList, key);
    KeySetIsElems(oldList, key);
    KeySetIsElems(newList, key);
    if Suppressed(oldList, newList, key) {
      DistinctKeysCountOnce(newList, key);
      assert multiset(Keys(oldList, key)) == multiset(Keys(newList, key));
    }
    if multiset(Keys(oldList, key)) == multiset(Keys(newList, key)) {
      assert KeySet(newList, key) == KeySet(oldList, key);
      forall a, b | 0 <= a < b < |newList| ensures key(newList[a]) != key(newList[b]) {
        if key(newList[a]) == key(newList[b]) {
          RepeatedKeyCountsTwice(newList, key, a, b);
        }
      }
    }
  }

  /** Duplicates in the old list collapse: `["a", "a"]` to `["a"]` is suppressed. */
  lemma OldDuplicatesCollapse(key: string -> string)
    ensures Suppressed(["a", "a"], ["a"], key)
  {
  }

  /** Duplicates in the new list do not: `["a"]` to `["a", "a"]` is a change. */
  lemma NewDuplicatesShow(key: string -> string)
    ensures !Suppressed(["a"], ["a", "a"], key)
  {
    var n := ["a", "a"];
    assert key(n[0]) == key(n[1]);
  }

  /** A list compared with itself is suppressed exactly when its keys are distinct. */
  lemma SelfSuppressedIffDistinct(xs: seq<string>, key: string -> string)
    ensures Suppressed(xs, xs, key) <==> KeysDistinct(xs, key)
  {
  }

  /** Two empty lists are the same. */
  lemma EmptyListsSuppressed(key: string -> string)
    ensures Suppressed([], [], key)
  {
    assert KeySet([], key) == {};
  }

  /** Two one-record lists are the same exactly when their records share a key. */
  lemma SingletonsSuppressed(a: string, b: string, key: string -> string)
    ensures Suppressed([a], [b], key) <==> key(a) == key(b)
  {
    assert KeySet([a], key) == {key(a)};
    assert KeySet([b], key) == {key(b)};
  }

  /** A quoted, capitalised TXT record and its plain lower-case text are the same record. */
  lemma TxtQuotingSuppressed(ipKey: string -> string)
    ensures Suppressed(["\"Foo\""], ["foo"], KeyFor("TXT", ipKey))
  {
    var key := KeyFor("TXT", ipKey);
    TxtExample(ipKey);
    assert key("\"Foo\"") == key("foo");
    SingletonsSuppressed("\"Foo\"", "foo", key);
  }
}
