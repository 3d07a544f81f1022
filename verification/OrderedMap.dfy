/** JavaScript's `Map` with string keys: entries are kept in the order their keys were first set. */
module OrderedMap {
  import opened Wrappers

  datatype Pair<V> = Pair(key: string, value: V)

  function Find<V>(m: seq<Pair<V>>, key: string): (r: Option<nat>)
    ensures r.Some? ==> r.value < |m| && m[r.value].key == key
    ensures r.None? <==> forall i | 0 <= i < |m| :: m[i].key != key
  {
    if m == [] then None
    else if m[|m| - 1].key == key then Some(|m| - 1)
    else Find(m[..|m| - 1], key)
  }

  predicate Has<V>(m: seq<Pair<V>>, key: string) { Find(m, key).Some? }

  function Get<V>(m: seq<Pair<V>>, key: string): Option<V> {
    var i := Find(m, key);
    if i.None? then None else Some(m[i.value].value)
  }

  /** Deleting a key keeps the others in their order. */
  function Delete<V>(m: seq<Pair<V>>, key: string): seq<Pair<V>> {
    var i := Find(m, key);
    if i.None? then m else m[..i.value] + m[i.value + 1..]
  }

  /** Setting a key already present keeps its place; a new key goes last. */
  function Put<V>(m: seq<Pair<V>>, e: Pair<V>): seq<Pair<V>> {
    var i := Find(m, e.key);
    if i.None? then m + [e] else m[i.value := e]
  }

  ghost predicate DistinctKeys<V>(m: seq<Pair<V>>) {
    forall i, j | 0 <= i < j < |m| :: m[i].key != m[j].key
  }

  lemma {:induction false} DeleteKeeps<V>(m: seq<Pair<V>>, key: string)
    requires DistinctKeys(m)
    ensures DistinctKeys(Delete(m, key)) && |Delete(m, key)| <= |m|
    ensures forall i | 0 <= i < |Delete(m, key)| :: Delete(m, key)[i] in m && Delete(m, key)[i].key != key
    ensures forall e | e in m && e.key != key :: e in Delete(m, key)
    ensures Has(m, key) ==> |Delete(m, key)| == |m| - 1
  {
    var d := Delete(m, key);
    var f := Find(m, key);
    if f.Some? {
      var n := f.value;
      assert forall i | 0 <= i < |d| :: d[i] == if i < n then m[i] else m[i + 1];
      forall e | e in m && e.key != key ensures e in d {
        var j :| 0 <= j < |m| && m[j] == e;
        assert if j < n then d[j] == e else d[j - 1] == e;
      }
    }
  }

  lemma {:induction false} PutKeeps<V>(m: seq<Pair<V>>, e: Pair<V>)
    requires DistinctKeys(m)
    ensures DistinctKeys(Put(m, e))
    ensures forall i | 0 <= i < |Put(m, e)| :: Put(m, e)[i] == e || Put(m, e)[i] in m
  {}

  lemma {:induction false} FindAt<V>(m: seq<Pair<V>>, i: nat)
    requires DistinctKeys(m) && i < |m|
    ensures Find(m, m[i].key) == Some(i)
  {
    assert Find(m, m[i].key).Some?;
  }

  /** After setting a key, it has its new value and every other key what it had. */
  lemma {:induction false} GetPut<V>(m: seq<Pair<V>>, e: Pair<V>, key: string)
    requires DistinctKeys(m)
    ensures Get(Put(m, e), key) == if key == e.key then Some(e.value) else Get(m, key)
  {
    PutKeeps(m, e);
    var p := Put(m, e);
    var at, i := Find(m, e.key), Find(m, key);
    if key == e.key {
      FindAt(p, if at.None? then |m| else at.value);
    } else if i.Some? {
      assert p[i.value] == m[i.value];
      FindAt(p, i.value);
    } else {
      assert forall k | 0 <= k < |p| :: p[k].key != key;
    }
  }
}
