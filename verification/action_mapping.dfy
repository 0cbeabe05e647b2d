/**
  The scan-code to action-id table of the gesture dispatcher and the broadcast
  that replaces it. The table is a sparse int-to-int array whose lookups
  answer -1 for a missing scan code.
 */
module ActionMapping {
  import opened Options

  type Mapping = map<int, int>

  /** The value a lookup answers for a scan code that is not in the table. */
  const Missing: int := -1

  /** Sparse-array lookup with -1 as the default. */
  function Lookup(m: Mapping, code: int): (a: int)
    ensures code !in m ==> a == Missing
    ensures code in m ==> a == m[code]
  {
    if code in m then m[code] else Missing
  }

  /** Index of the last occurrence of `k` in `keys`, or -1 when `k` does not occur. */
  function LastIndexOf(keys: seq<int>, k: int): (j: int)
    ensures -1 <= j < |keys|
    ensures j == -1 <==> k !in keys
    ensures 0 <= j ==> keys[j] == k && forall i :: j < i < |keys| ==> keys[i] != k
  {
    if |keys| == 0 then -1
    else if keys[|keys| - 1] == k then |keys| - 1
    else LastIndexOf(keys[..|keys| - 1], k)
  }

  /** Puts `keys[i] := vals[i]` into `m` for i = 0, 1, ... in order, so that a
      later put of the same key overwrites an earlier one. */
  function PutAll(m: Mapping, keys: seq<int>, vals: seq<int>): (r: Mapping)
    requires |keys| == |vals|
    ensures r.Keys == m.Keys + set i | 0 <= i < |keys| :: keys[i]
    ensures forall k :: k in keys ==> r[k] == vals[LastIndexOf(keys, k)]
    ensures forall k :: k in m && k !in keys ==> r[k] == m[k]
    decreases |keys|
  {
    if |keys| == 0 then m
    else
      var n := |keys| - 1;
      PutAll(m, keys[..n], vals[..n])[keys[n] := vals[n]]
  }

  /** The update broadcast: the table is cleared, then refilled only when both
      arrays are present and have the same length. */
  function Replace(keycodes: Option<seq<int>>, actions: Option<seq<int>>): (m: Mapping)
    ensures !Applicable(keycodes, actions) ==> m == map[]
    ensures Applicable(keycodes, actions) ==>
      m.Keys == set i | 0 <= i < |keycodes.value| :: keycodes.value[i]
  {
    if Applicable(keycodes, actions) then PutAll(map[], keycodes.value, actions.value)
    else map[]
  }

  /** Whether an update carries a usable pair of arrays. */
  predicate Applicable(keycodes: Option<seq<int>>, actions: Option<seq<int>>) {
    keycodes.Some? && actions.Some? && |keycodes.value| == |actions.value|
  }

  /** After a usable update, looking up any code of the update gives the action
      paired with that code's last occurrence; every other code looks up as -1.
      The previous table plays no part. */
  lemma ReplaceLastWriteWins(keycodes: seq<int>, actions: seq<int>, code: int)
    requires |keycodes| == |actions|
    ensures code in keycodes ==>
      Lookup(Replace(Some(keycodes), Some(actions)), code) == actions[LastIndexOf(keycodes, code)]
    ensures code !in keycodes ==>
      Lookup(Replace(Some(keycodes), Some(actions)), code) == Missing
  {
  }

  /** A missing array or a length mismatch leaves every code unmapped: neither
      the old table nor a part of the new one survives. */
  lemma MalformedUpdateEmptiesTable(keycodes: Option<seq<int>>, actions: Option<seq<int>>, code: int)
    requires keycodes.None? || actions.None? || |keycodes.value| != |actions.value|
    ensures Lookup(Replace(keycodes, actions), code) == Missing
  {
  }
}
