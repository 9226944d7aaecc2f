/**
 * Grouping items by a key into a JavaScript `Map`, as the bracket views do with
 * `forEach`: a key is inserted the first time it is seen, and each item is pushed
 * onto the list of its key. `Array.from(map.entries())` then lists the keys in
 * insertion order. The map is modelled by its key order and a `map` of lists.
 */
module Grouping {
  import opened Wrappers

  /** Keys in order of first appearance, each once: the insertion order of the `Map`. */
  function FirstAppearances<K(==)>(keys: seq<K>): (order: seq<K>)
    ensures forall i :: 0 <= i < |keys| ==> keys[i] in order
    ensures forall i :: 0 <= i < |order| ==> order[i] in keys
    ensures forall i, j :: 0 <= i < j < |order| ==> order[i] != order[j]
  {
    if keys == [] then []
    else
      var seen := FirstAppearances(keys[..|keys| - 1]);
      var k := keys[|keys| - 1];
      if k in seen then seen else seen + [k]
  }

  /** The items whose key is `k`, in their original order: the list the `Map` holds for `k`. */
  function Select<K(==), T>(keys: seq<K>, items: seq<T>, k: K): seq<T>
    requires |keys| == |items|
  {
    if keys == [] then []
    else
      var n := |keys| - 1;
      Select(keys[..n], items[..n], k) + (if keys[n] == k then [items[n]] else [])
  }

  /** The entries of the `Map` after every item has been pushed under its key. */
  function Grouped<K(==), T>(keys: seq<K>, items: seq<T>): seq<(K, seq<T>)>
    requires |keys| == |items|
  {
    var order := FirstAppearances(keys);
    seq(|order|, j requires 0 <= j < |order| => (order[j], Select(keys, items, order[j])))
  }

  /**
   * The `forEach` that fills the `Map`: `if (!map.has(key)) map.set(key, [])`,
   * then `map.get(key)!.push(item)`; the result is `Array.from(map.entries())`.
   */
  method GroupBy<K(==), T>(keys: seq<K>, items: seq<T>) returns (entries: seq<(K, seq<T>)>)
    requires |keys| == |items|
    ensures entries == Grouped(keys, items)
  {
    var order: seq<K> := [];
    var groups: map<K, seq<T>> := map[];
    for i := 0 to |items|
      invariant order == FirstAppearances(keys[..i])
      invariant forall k :: k in groups <==> k in order
      invariant forall k :: k in groups ==> groups[k] == Select(keys[..i], items[..i], k)
    {
      assert keys[..i + 1][..i] == keys[..i] && items[..i + 1][..i] == items[..i];
      var k := keys[i];
      if k !in groups {
        SelectAbsentKey(keys[..i], items[..i], k);
        groups := groups[k := []];
        order := order + [k];
      }
      groups := groups[k := groups[k] + [items[i]]];
    }
    assert keys[..|items|] == keys && items[..|items|] == items;
    entries := seq(|order|, j requires 0 <= j < |order| => (order[j], groups[order[j]]));
  }

  /** An item is in the list of its own key. */
  lemma {:induction false} SelectHasItem<K, T>(keys: seq<K>, items: seq<T>, i: nat)
    requires |keys| == |items| && i < |keys|
    ensures items[i] in Select(keys, items, keys[i])
    decreases |keys|
  {
    var n := |keys| - 1;
    if i < n {
      SelectHasItem(keys[..n], items[..n], i);
    }
  }

  /** Only items whose key is `k` are in the list of `k`. */
  lemma {:induction false} SelectOnlyKey<K, T>(keys: seq<K>, items: seq<T>, k: K, x: T)
    requires |keys| == |items|
    requires x in Select(keys, items, k)
    ensures exists i :: 0 <= i < |keys| && keys[i] == k && items[i] == x
    decreases |keys|
  {
    var n := |keys| - 1;
    if x in Select(keys[..n], items[..n], k) {
      SelectOnlyKey(keys[..n], items[..n], k, x);
      var i :| 0 <= i < n && keys[..n][i] == k && items[..n][i] == x;
      assert keys[i] == k && items[i] == x;
    } else {
      assert keys[n] == k && items[n] == x;
    }
  }

  /**
   * Every item is placed in the entry of its own key, and every entry lists only
   * items of its key; keys occur once each.
   */
  lemma GroupedPlacesEveryItem<K, T>(keys: seq<K>, items: seq<T>, i: nat)
    requires |keys| == |items| && i < |keys|
    ensures exists j :: 0 <= j < |Grouped(keys, items)| && Grouped(keys, items)[j].0 == keys[i]
                                                         && items[i] in Grouped(keys, items)[j].1
  {
    var order := FirstAppearances(keys);
    assert keys[i] in keys;
    var j :| 0 <= j < |order| && order[j] == keys[i];
    SelectHasItem(keys, items, i);
    assert Grouped(keys, items)[j] == (keys[i], Select(keys, items, keys[i]));
  }

  lemma GroupedEntriesHoldTheirKey<K, T>(keys: seq<K>, items: seq<T>, j: nat, x: T)
    requires |keys| == |items| && j < |Grouped(keys, items)|
    requires x in Grouped(keys, items)[j].1
    ensures exists i :: 0 <= i < |keys| && keys[i] == Grouped(keys, items)[j].0 && items[i] == x
  {
    SelectOnlyKey(keys, items, Grouped(keys, items)[j].0, x);
  }

  /** No entry of the grouping is empty: a key is only inserted together with an item. */
  lemma GroupedEntriesNonEmpty<K, T>(keys: seq<K>, items: seq<T>, j: nat)
    requires |keys| == |items| && j < |Grouped(keys, items)|
    ensures Grouped(keys, items)[j].1 != []
  {
    var k := FirstAppearances(keys)[j];
    assert k in keys;
    var i :| 0 <= i < |keys| && keys[i] == k;
    SelectHasItem(keys, items, i);
  }

  /** A run of `n` copies of `x`. */
  function Run<K>(x: K, n: nat): (r: seq<K>)
    ensures |r| == n && forall i :: 0 <= i < n ==> r[i] == x
  {
    seq(n, _ => x)
  }

  lemma {:induction false} FirstAppearancesAppendRun<K>(keys: seq<K>, x: K, n: nat)
    requires x !in keys && n >= 1
    ensures FirstAppearances(keys + Run(x, n)) == FirstAppearances(keys) + [x]
    decreases n
  {
    var all := keys + Run(x, n);
    if n == 1 {
      assert all[..|all| - 1] == keys;
    } else {
      assert all[..|all| - 1] == keys + Run(x, n - 1);
      FirstAppearancesAppendRun(keys, x, n - 1);
    }
  }

  lemma {:induction false} SelectAppendRun<K, T>(keys: seq<K>, items: seq<T>, x: K, more: seq<T>, k: K)
    requires |keys| == |items|
    ensures Select(keys + Run(x, |more|), items + more, k)
         == Select(keys, items, k) + (if k == x then more else [])
    decreases |more|
  {
    var ks, its := keys + Run(x, |more|), items + more;
    if more != [] {
      var n := |ks| - 1;
      assert ks[..n] == keys + Run(x, |more| - 1);
      assert its[..n] == items + more[..|more| - 1];
      SelectAppendRun(keys, items, x, more[..|more| - 1], k);
      assert more[..|more| - 1] + [more[|more| - 1]] == more;
    } else {
      assert ks == keys && its == items;
    }
  }

  lemma {:induction false} SelectAbsentKey<K, T>(keys: seq<K>, items: seq<T>, k: K)
    requires |keys| == |items| && k !in keys
    ensures Select(keys, items, k) == []
    decreases |keys|
  {
    if keys != [] {
      var n := |keys| - 1;
      assert k !in keys[..n];
      SelectAbsentKey(keys[..n], items[..n], k);
    }
  }

  lemma GroupedAt<K, T>(keys: seq<K>, items: seq<T>, j: nat)
    requires |keys| == |items| && j < |FirstAppearances(keys)|
    ensures |Grouped(keys, items)| == |FirstAppearances(keys)|
    ensures Grouped(keys, items)[j]
         == (FirstAppearances(keys)[j], Select(keys, items, FirstAppearances(keys)[j]))
  {
  }

  lemma GroupedAppendRunLast<K, T>(keys: seq<K>, items: seq<T>, x: K, more: seq<T>)
    requires |keys| == |items| && x !in keys && more != []
    ensures FirstAppearances(keys + Run(x, |more|)) == FirstAppearances(keys) + [x]
    ensures Grouped(keys + Run(x, |more|), items + more)[|FirstAppearances(keys)|] == (x, more)
  {
    var ks, its := keys + Run(x, |more|), items + more;
    FirstAppearancesAppendRun(keys, x, |more|);
    GroupedAt(ks, its, |FirstAppearances(keys)|);
    SelectAppendRun(keys, items, x, more, x);
    SelectAbsentKey(keys, items, x);
    assert Select(ks, its, x) == more;
  }

  lemma GroupedAppendRunEarlier<K, T>(keys: seq<K>, items: seq<T>, x: K, more: seq<T>, j: nat)
    requires |keys| == |items| && x !in keys && more != []
    requires j < |FirstAppearances(keys)|
    ensures FirstAppearances(keys + Run(x, |more|)) == FirstAppearances(keys) + [x]
    ensures Grouped(keys + Run(x, |more|), items + more)[j] == Grouped(keys, items)[j]
  {
    var ks, its := keys + Run(x, |more|), items + more;
    FirstAppearancesAppendRun(keys, x, |more|);
    var k := FirstAppearances(keys)[j];
    assert k != x by {
      assert k in keys;
    }
    assert Select(ks, its, k) == Select(keys, items, k) by {
      SelectAppendRun(keys, items, x, more, k);
    }
    assert Grouped(ks, its)[j] == (k, Select(ks, its, k)) by {
      GroupedAt(ks, its, j);
    }
    assert Grouped(keys, items)[j] == (k, Select(keys, items, k)) by {
      GroupedAt(keys, items, j);
    }
  }

  /**
   * Appending a run of a new key adds one entry at the end holding exactly the
   * appended items, and leaves the earlier entries as they were.
   */
  lemma GroupedAppendRun<K, T>(keys: seq<K>, items: seq<T>, x: K, more: seq<T>)
    requires |keys| == |items| && x !in keys && more != []
    ensures Grouped(keys + Run(x, |more|), items + more) == Grouped(keys, items) + [(x, more)]
  {
    var before := Grouped(keys, items);
    var after := Grouped(keys + Run(x, |more|), items + more);
    FirstAppearancesAppendRun(keys, x, |more|);
    forall j | 0 <= j < |after|
      ensures after[j] == (before + [(x, more)])[j]
    {
      if j < |before| {
        GroupedAppendRunEarlier(keys, items, x, more, j);
      } else {
        GroupedAppendRunLast(keys, items, x, more);
      }
    }
  }

  /** `map.get(k)` on the entries of a `Map`: the list of the first entry with key `k`, if any. */
  function Get<K(==), V>(entries: seq<(K, V)>, k: K): (r: Option<V>)
    ensures r.None? <==> forall j :: 0 <= j < |entries| ==> entries[j].0 != k
    ensures r.Some? ==> exists j :: 0 <= j < |entries| && entries[j] == (k, r.value)
  {
    if entries == [] then None
    else if entries[0].0 == k then Some(entries[0].1)
    else
      var rest := Get(entries[1..], k);
      assert forall j :: 1 <= j < |entries| ==> entries[j] == entries[1..][j - 1];
      rest
  }
}
