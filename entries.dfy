/**
 The key/value table of the server as a value: one `map<string, string>` and
 the three operations the store performs on it. The class in module Server
 holds such a map in a field and is specified by these functions.
 */
module Entries {

  /** Inserts or overwrites `key`; the flag says whether the key was new. */
  function SetEntry(m: map<string, string>, key: string, value: string): (res: (map<string, string>, bool))
    ensures res.1 <==> key !in m
    ensures res.0.Keys == m.Keys + {key}
    ensures res.0[key] == value
    ensures forall k :: k in m && k != key ==> res.0[k] == m[k]
  {
    (m[key := value], key !in m)
  }

  /** Looks `key` up; an absent key gives the empty string, Go's zero value. */
  function GetEntry(m: map<string, string>, key: string): (res: (string, bool))
    ensures res.1 <==> key in m
    ensures res.1 ==> res.0 == m[key]
    ensures !res.1 ==> res.0 == ""
  {
    if key in m then (m[key], true) else ("", false)
  }

  /** Removes `key` if present; the flag says whether it was present. */
  function DeleteEntry(m: map<string, string>, key: string): (res: (map<string, string>, bool))
    ensures res.1 <==> key in m
    ensures res.0.Keys == m.Keys - {key}
    ensures forall k :: k in res.0 ==> res.0[k] == m[k]
    ensures key !in m ==> res.0 == m
  {
    if key in m then (m - {key}, true) else (m, false)
  }

  /** Set followed by Get on the same key yields the value just written. */
  lemma SetThenGet(m: map<string, string>, key: string, value: string)
    ensures GetEntry(SetEntry(m, key, value).0, key) == (value, true)
  {
  }

  /** A second Set on the same key reports an update, and Get sees the second value. */
  lemma SetTwiceThenGet(m: map<string, string>, key: string, v1: string, v2: string)
    ensures var m1 := SetEntry(m, key, v1).0;
            !SetEntry(m1, key, v2).1 && GetEntry(SetEntry(m1, key, v2).0, key) == (v2, true)
  {
  }

  /** Set on a fresh table creates; repeating the same Set updates. */
  lemma SetIsCreateThenUpdate(key: string, value: string)
    ensures SetEntry(map[], key, value).1
    ensures !SetEntry(SetEntry(map[], key, value).0, key, value).1
  {
  }

  /** Deleting an absent key reports false and leaves the table as it was. */
  lemma DeleteAbsent(m: map<string, string>, key: string)
    requires key !in m
    ensures DeleteEntry(m, key) == (m, false)
    ensures GetEntry(DeleteEntry(m, key).0, key) == ("", false)
  {
  }

  /** Deleting a present key reports true, and Get then finds nothing. */
  lemma DeletePresentThenGet(m: map<string, string>, key: string)
    requires key in m
    ensures DeleteEntry(m, key).1
    ensures GetEntry(DeleteEntry(m, key).0, key) == ("", false)
  {
  }

  /**
   The table after the Sets of `values` on one key, applied one after the other
   in the order the lock admitted them, with the flag each Set reported.
   */
  function SetAll(m: map<string, string>, key: string, values: seq<string>): (res: (map<string, string>, seq<bool>))
    ensures |res.1| == |values|
    decreases |values|
  {
    if values == [] then (m, [])
    else
      var (m1, created) := SetEntry(m, key, values[0]);
      var (m2, rest) := SetAll(m1, key, values[1..]);
      (m2, [created] + rest)
  }

  /**
   Concurrent Sets on one key, in whatever order they were serialised: the key
   ends up holding the last value written, which is one of the attempted
   values; every other key is untouched; and only the first Set can report a
   creation, exactly when the key was absent beforehand.
   */
  lemma {:induction false} SerializedSetsKeepOneValue(m: map<string, string>, key: string, values: seq<string>)
    requires |values| > 0
    ensures SetAll(m, key, values).0 == m[key := values[|values| - 1]]
    ensures SetAll(m, key, values).0[key] in values
    ensures forall i :: 0 <= i < |values| ==> SetAll(m, key, values).1[i] == (i == 0 && key !in m)
    decreases |values|
  {
    var m1 := SetEntry(m, key, values[0]).0;
    if |values| > 1 {
      SerializedSetsKeepOneValue(m1, key, values[1..]);
      assert m1[key := values[|values| - 1]] == m[key := values[|values| - 1]];
    }
  }
}
