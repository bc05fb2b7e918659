/**
 * An insertion-ordered dictionary: what a JavaScript `Map`, or a plain object used
 * as a record of string keys, provides. `set` on a present key keeps its position
 * and replaces its value; `set` on a new key appends it; iteration follows the order.
 */
module OrderedMap {
  import opened Wrappers

  datatype Entry<V> = Entry(key: string, value: V)

  predicate UniqueKeys<V>(t: seq<Entry<V>>) {
    forall i, j :: 0 <= i < j < |t| ==> t[i].key != t[j].key
  }

  predicate HasKey<V>(t: seq<Entry<V>>, k: string) {
    exists i :: 0 <= i < |t| && t[i].key == k
  }

  /** The position of the first entry for `k`, or -1. */
  function Find<V>(t: seq<Entry<V>>, k: string): (i: int)
    ensures -1 <= i < |t|
    ensures 0 <= i ==> t[i].key == k && forall j :: 0 <= j < i ==> t[j].key != k
    ensures i == -1 <==> !HasKey(t, k)
  {
    if t == [] then -1
    else if t[0].key == k then 0
    else
      var j := Find(t[1..], k);
      if j == -1 then
        assert forall i :: 1 <= i < |t| ==> t[i] == t[1..][i - 1];
        -1
      else j + 1
  }

  /** `m.get(k)` */
  function Get<V>(t: seq<Entry<V>>, k: string): (r: Option<V>)
    ensures r.Some? <==> HasKey(t, k)
  {
    var i := Find(t, k);
    if i < 0 then None else Some(t[i].value)
  }

  /** Two tables with the same keys in the same order find every key at the same place. */
  lemma FindSameKeys<V>(a: seq<Entry<V>>, b: seq<Entry<V>>, k: string)
    requires |a| == |b| && forall i :: 0 <= i < |a| ==> a[i].key == b[i].key
    ensures Find(a, k) == Find(b, k)
  {
  }

  /** Appending an entry leaves every key already present where it was. */
  lemma FindAppend<V>(t: seq<Entry<V>>, e: Entry<V>, k: string)
    ensures Find(t + [e], k) == if HasKey(t, k) then Find(t, k) else if e.key == k then |t| else -1
  {
    var r := t + [e];
    assert forall j :: 0 <= j < |t| ==> r[j] == t[j];
    if !HasKey(t, k) && e.key == k {
      assert r[|t|].key == k;
    }
  }

  /** `m.set(k, v)` (or `obj[k] = v`): a present key keeps its place, a new one is appended. */
  function Put<V>(t: seq<Entry<V>>, k: string, v: V): (r: seq<Entry<V>>)
    ensures HasKey(t, k) ==> |r| == |t| && forall i :: 0 <= i < |t| ==> r[i].key == t[i].key
    ensures !HasKey(t, k) ==> r == t + [Entry(k, v)]
  {
    var i := Find(t, k);
    if i < 0 then t + [Entry(k, v)] else t[i := Entry(k, v)]
  }

  /** After `set` the key maps to the new value, no other key changes, and keys stay unique. */
  lemma PutLaws<V>(t: seq<Entry<V>>, k: string, v: V)
    ensures Get(Put(t, k, v), k) == Some(v)
    ensures forall k' :: k' != k ==> Get(Put(t, k, v), k') == Get(t, k')
    ensures UniqueKeys(t) ==> UniqueKeys(Put(t, k, v))
  {
    var i := Find(t, k);
    var r := Put(t, k, v);
    if i < 0 {
      forall k' ensures Find(r, k') == if HasKey(t, k') then Find(t, k') else if k' == k then |t| else -1 {
        FindAppend(t, Entry(k, v), k');
      }
    } else {
      forall k' ensures Find(r, k') == Find(t, k') {
        FindSameKeys(r, t, k');
      }
    }
  }

  /** `m.delete(k)`: the first entry for `k`, if any, disappears. */
  function Delete<V>(t: seq<Entry<V>>, k: string): (r: seq<Entry<V>>)
    ensures |r| == if HasKey(t, k) then |t| - 1 else |t|
  {
    var i := Find(t, k);
    if i < 0 then t else t[..i] + t[i + 1..]
  }

  /** On a table whose keys are unique, `delete` removes the key and no other. */
  lemma DeleteLaws<V>(t: seq<Entry<V>>, k: string)
    requires UniqueKeys(t)
    ensures UniqueKeys(Delete(t, k))
    ensures Get(Delete(t, k), k) == None
    ensures forall k' :: k' != k ==> Get(Delete(t, k), k') == Get(t, k')
  {
    var i := Find(t, k);
    if i >= 0 {
      var r := t[..i] + t[i + 1..];
      DeleteShifts(t, i);
      DeleteDropsKey(t, i);
      forall k' | k' != k ensures Get(r, k') == Get(t, k') {
        DeleteKeepsKey(t, i, k');
      }
    }
  }

  lemma DeleteShifts<V>(t: seq<Entry<V>>, i: nat)
    requires i < |t|
    ensures var r := t[..i] + t[i + 1..];
      |r| == |t| - 1 && forall j :: 0 <= j < |r| ==> r[j] == (if j < i then t[j] else t[j + 1])
  {
  }

  lemma DeleteDropsKey<V>(t: seq<Entry<V>>, i: nat)
    requires UniqueKeys(t) && i < |t|
    ensures var r := t[..i] + t[i + 1..];
      UniqueKeys(r) && !HasKey(r, t[i].key)
  {
    var r := t[..i] + t[i + 1..];
    DeleteShifts(t, i);
    forall u, v | 0 <= u < v < |r| ensures r[u].key != r[v].key {
      var u', v' := if u < i then u else u + 1, if v < i then v else v + 1;
      assert r[u] == t[u'] && r[v] == t[v'];
    }
    forall j | 0 <= j < |r| ensures r[j].key != t[i].key {
      var j' := if j < i then j else j + 1;
      assert r[j] == t[j'];
    }
  }

  lemma DeleteKeepsKey<V>(t: seq<Entry<V>>, i: nat, k': string)
    requires UniqueKeys(t) && i < |t| && k' != t[i].key
    ensures Get(t[..i] + t[i + 1..], k') == Get(t, k')
  {
    var r := t[..i] + t[i + 1..];
    DeleteShifts(t, i);
    var p := Find(t, k');
    if p >= 0 {
      var q := if p < i then p else p - 1;
      assert r[q] == t[p];
      assert Find(r, k') == q;
    } else {
      forall j | 0 <= j < |r| ensures r[j].key != k' {
        var j' := if j < i then j else j + 1;
        assert r[j] == t[j'];
      }
    }
  }

  /** In a table with unique keys, an entry is present exactly when looking its key up yields its value. */
  lemma InIffGet<V>(t: seq<Entry<V>>, e: Entry<V>)
    requires UniqueKeys(t)
    ensures e in t <==> Get(t, e.key) == Some(e.value)
  {
    if e in t {
      var i :| 0 <= i < |t| && t[i] == e;
      assert Find(t, e.key) == i;
    }
  }

  /** A table with unique keys holds each entry at most once. */
  lemma {:induction false} UniqueKeysCount<V>(t: seq<Entry<V>>, e: Entry<V>)
    requires UniqueKeys(t)
    ensures multiset(t)[e] <= 1
  {
    if t != [] {
      var init := t[..|t| - 1];
      assert t == init + [t[|t| - 1]];
      UniqueKeysCount(init, e);
      if e == t[|t| - 1] {
        assert e !in init;
      }
    }
  }

  /** Reordering a table keeps its keys unique. */
  lemma UniqueKeysPermutation<V>(a: seq<Entry<V>>, b: seq<Entry<V>>)
    requires UniqueKeys(a) && multiset(a) == multiset(b)
    ensures UniqueKeys(b)
  {
    forall i, j | 0 <= i < j < |b| ensures b[i].key != b[j].key {
      if b[i].key == b[j].key {
        assert b[i] in multiset(a) && b[j] in multiset(a);
        if b[i] == b[j] {
          assert b == b[..j] + [b[j]] + b[j + 1..];
          assert b[i] in b[..j];
          assert multiset(b)[b[i]] >= 2;
          UniqueKeysCount(a, b[i]);
        } else {
          var p :| 0 <= p < |a| && a[p] == b[i];
          var q :| 0 <= q < |a| && a[q] == b[j];
        }
      }
    }
  }

  /** In a table with unique keys, two entries with the same key are the same entry. */
  lemma SameKeySameEntry<V>(t: seq<Entry<V>>, a: Entry<V>, b: Entry<V>)
    requires UniqueKeys(t) && a in t && b in t && a.key == b.key
    ensures a == b
  {
    var p :| 0 <= p < |t| && t[p] == a;
    var q :| 0 <= q < |t| && t[q] == b;
  }
}
