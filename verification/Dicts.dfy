// Python dictionaries where the order of the entries matters: an assignment to
// a present key keeps its place, and a new key goes to the end.
module Dicts {
  import opened Wrappers

  datatype Entry<+V> = Entry(key: string, value: V)

  type Dict<+V> = seq<Entry<V>>

  function Get<V>(d: Dict<V>, key: string): Option<V> {
    if d == [] then None else if d[0].key == key then Some(d[0].value) else Get(d[1..], key)
  }

  function Put<V>(d: Dict<V>, key: string, value: V): Dict<V> {
    if d == [] then [Entry(key, value)]
    else if d[0].key == key then [Entry(key, value)] + d[1..]
    else [d[0]] + Put(d[1..], key, value)
  }

  lemma {:induction false} GetPut<V>(d: Dict<V>, key: string, value: V, k: string)
    ensures Get(Put(d, key, value), k) == if k == key then Some(value) else Get(d, k)
  {
    if d != [] && d[0].key != key { GetPut(d[1..], key, value, k); }
  }

  lemma {:induction false} PutNew<V>(d: Dict<V>, key: string, value: V)
    requires Get(d, key) == None
    ensures Put(d, key, value) == d + [Entry(key, value)]
  {
    if d != [] { PutNew(d[1..], key, value); }
  }

  // The dictionary that a loop over a list of named values builds.
  function Index<V>(list: seq<Entry<V>>): Dict<V> {
    if list == [] then []
    else var last := list[|list| - 1]; Put(Index(list[..|list| - 1]), last.key, last.value)
  }

  // The last value of that name in the list.
  function LastNamed<V>(list: seq<Entry<V>>, key: string): Option<V> {
    if list == [] then None
    else if list[|list| - 1].key == key then Some(list[|list| - 1].value)
    else LastNamed(list[..|list| - 1], key)
  }

  lemma {:induction false} LastNamedIs<V>(list: seq<Entry<V>>, key: string)
    ensures LastNamed(list, key).None? <==> forall i :: 0 <= i < |list| ==> list[i].key != key
    ensures LastNamed(list, key).Some? ==> exists i ::
      0 <= i < |list| && LastAt(list, key, i) && LastNamed(list, key).value == list[i].value
  {
    if list != [] {
      var n := |list| - 1;
      LastNamedIs(list[..n], key);
      if list[n].key == key {
        assert LastAt(list, key, n);
      } else if LastNamed(list, key).Some? {
        var i :| 0 <= i < n && LastAt(list[..n], key, i) && LastNamed(list[..n], key).value == list[..n][i].value;
        assert LastAt(list, key, i);
      }
    }
  }

  predicate LastAt<V>(list: seq<Entry<V>>, key: string, i: nat)
    requires i < |list|
  {
    list[i].key == key && forall j :: i < j < |list| ==> list[j].key != key
  }

  predicate DistinctKeys<V>(list: seq<Entry<V>>) {
    forall i, j :: 0 <= i < j < |list| ==> list[i].key != list[j].key
  }

  // A lookup in the index finds the last list entry of the name.
  lemma {:induction false} GetIndex<V>(list: seq<Entry<V>>, key: string)
    ensures Get(Index(list), key) == LastNamed(list, key)
  {
    if list != [] {
      var last := list[|list| - 1];
      GetIndex(list[..|list| - 1], key);
      GetPut(Index(list[..|list| - 1]), last.key, last.value, key);
    }
  }

  lemma {:induction false} LastNamedAbsent<V>(list: seq<Entry<V>>, key: string)
    ensures LastNamed(list, key) == None <==> forall i :: 0 <= i < |list| ==> list[i].key != key
  {
    if list != [] { LastNamedAbsent(list[..|list| - 1], key); }
  }

  // Without repeated names the index is the list, in the list's order.
  lemma {:induction false} IndexDistinct<V>(list: seq<Entry<V>>)
    requires DistinctKeys(list)
    ensures Index(list) == list
  {
    if list != [] {
      var init, last := list[..|list| - 1], list[|list| - 1];
      IndexDistinct(init);
      LastNamedAbsent(init, last.key);
      GetIndex(init, last.key);
      PutNew(init, last.key, last.value);
      assert list == init + [last];
    }
  }
}
