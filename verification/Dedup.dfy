/** What both index-map loops compute (internal/game/flights/mapper.go, internal/jobs/sessions/job.go):
    identities in the order of their first occurrence, each with the value of its last occurrence. */
module Dedup {
  import opened Sequences

  /** The identities of `keys`, each once, in the order in which they first occur. */
  function FirstKeys(keys: seq<string>): (r: seq<string>)
    ensures |r| <= |keys|
    ensures forall k :: k in r <==> k in keys
    ensures Distinct(r)
  {
    if keys == [] then []
    else
      var rest := FirstKeys(keys[..|keys| - 1]);
      var last := keys[|keys| - 1];
      assert keys == keys[..|keys| - 1] + [last];
      if last in rest then rest else rest + [last]
  }

  /** Where `key` occurs last. */
  function LastIndex(keys: seq<string>, key: string): (i: nat)
    requires key in keys
    ensures i < |keys| && keys[i] == key
    ensures forall j :: i < j < |keys| ==> keys[j] != key
  {
    if keys[|keys| - 1] == key then |keys| - 1
    else
      assert keys == keys[..|keys| - 1] + [keys[|keys| - 1]];
      LastIndex(keys[..|keys| - 1], key)
  }

  /** Order of first occurrence, value of last occurrence. */
  function LastByFirst<T>(keys: seq<string>, items: seq<T>): (r: seq<T>)
    requires |keys| == |items|
    ensures |r| == |FirstKeys(keys)|
    ensures forall i :: 0 <= i < |r| ==> r[i] == items[LastIndex(keys, FirstKeys(keys)[i])]
  {
    var first := FirstKeys(keys);
    seq(|first|, i requires 0 <= i < |first| => items[LastIndex(keys, first[i])])
  }

  /** Where each identity's entry stands in the deduplicated list. */
  ghost predicate PointsAtOwnEntry(index: map<string, nat>, keys: seq<string>) {
    (forall k :: k in index <==> k in keys) && PointsInto(index, FirstKeys(keys))
  }

  ghost predicate PointsInto(index: map<string, nat>, entries: seq<string>) {
    forall k :: k in index ==> index[k] < |entries| && entries[index[k]] == k
  }

  /** Identities stand in the order in which they first occur. */
  lemma {:induction false} FirstKeysInOrder(keys: seq<string>, i: nat, j: nat) returns (a: nat, b: nat)
    requires i < j < |FirstKeys(keys)|
    ensures a < b < |keys| && keys[a] == FirstKeys(keys)[i] && keys[b] == FirstKeys(keys)[j]
    ensures forall k :: 0 <= k < a ==> keys[k] != keys[a]
    ensures forall k :: 0 <= k < b ==> keys[k] != keys[b]
  {
    var n := |keys| - 1;
    var init, rest := keys[..n], FirstKeys(keys[..n]);
    assert keys == init + [keys[n]];
    if j < |rest| {
      a, b := FirstKeysInOrder(init, i, j);
    } else {
      b := n;
      a := FirstOccurrence(init, rest[i]);
    }
  }

  lemma FirstOccurrence(keys: seq<string>, key: string) returns (a: nat)
    requires key in keys
    ensures a < |keys| && keys[a] == key && key !in keys[..a]
  {
    a := 0;
    while keys[a] != key
      invariant a < |keys| && key !in keys[..a]
      decreases |keys| - a
    {
      assert keys[..a + 1] == keys[..a] + [keys[a]];
      assert keys == keys[..a + 1] + keys[a + 1..];
      a := a + 1;
    }
  }

  lemma FirstKeysSnoc(keys: seq<string>, key: string)
    ensures FirstKeys(keys + [key]) == if key in keys then FirstKeys(keys) else FirstKeys(keys) + [key]
  {
    assert (keys + [key])[..|keys|] == keys;
  }

  lemma LastIndexSnoc(keys: seq<string>, key: string, k: string)
    requires k in keys + [key]
    ensures k == key ==> LastIndex(keys + [key], k) == |keys|
    ensures k != key ==> k in keys && LastIndex(keys + [key], k) == LastIndex(keys, k)
  {
    assert (keys + [key])[..|keys|] == keys;
  }

  /** Registering a new identity at the end of the list keeps every index on its own entry. */
  lemma IndexSnoc(index: map<string, nat>, keys: seq<string>, key: string)
    requires PointsAtOwnEntry(index, keys)
    ensures PointsAtOwnEntry(if key in index then index else index[key := |FirstKeys(keys)|], keys + [key])
  {
    FirstKeysSnoc(keys, key);
    if key !in index {
      PointsIntoMore(index, FirstKeys(keys), key);
    }
  }

  lemma PointsIntoMore(index: map<string, nat>, entries: seq<string>, key: string)
    requires PointsInto(index, entries)
    ensures PointsInto(index[key := |entries|], entries + [key])
  {
  }

  /** One more item either overwrites its identity's entry or is appended. */
  lemma LastByFirstSnoc<T>(keys: seq<string>, items: seq<T>, key: string, item: T, at: nat)
    requires |keys| == |items|
    requires key in keys ==> at < |FirstKeys(keys)| && FirstKeys(keys)[at] == key
    ensures LastByFirst(keys + [key], items + [item]) ==
            if key in keys then LastByFirst(keys, items)[at := item] else LastByFirst(keys, items) + [item]
  {
    FirstKeysSnoc(keys, key);
    assert key in keys ==> forall i :: 0 <= i < |FirstKeys(keys)| && FirstKeys(keys)[i] == key ==> i == at;
    var before, after := LastByFirst(keys, items), LastByFirst(keys + [key], items + [item]);
    var first := FirstKeys(keys + [key]);
    forall i | 0 <= i < |after|
      ensures after[i] == if first[i] == key then item else before[i]
    {
      LastIndexSnoc(keys, key, first[i]);
    }
    assert key !in keys ==> first[|before|] == key;
  }
}
