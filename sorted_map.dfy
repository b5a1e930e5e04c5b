/** The name-keyed java.util.TreeMap that holds a composite object's fields,
    modelled as an association list kept in ascending key order. */
module SortedMap {
  import opened Wrappers
  import opened Strings

  type Entries<V> = seq<(string, V)>

  /** Keys strictly ascend in String.compareTo order (so they are distinct). */
  predicate Sorted<V>(m: Entries<V>)
  {
    forall i, j :: 0 <= i < j < |m| ==> Less(m[i].0, m[j].0)
  }

  function Keys<V>(m: Entries<V>): set<string>
  {
    set i | 0 <= i < |m| :: m[i].0
  }

  function Get<V>(m: Entries<V>, k: string): (r: Option<V>)
    ensures r.Some? <==> k in Keys(m)
  {
    if m == [] then None
    else if m[0].0 == k then Some(m[0].1)
    else
      assert Keys(m) == {m[0].0} + Keys(m[1..]);
      Get(m[1..], k)
  }

  /** TreeMap.put: a new key is inserted at its place in the order, an existing
      key has its value replaced. */
  function Put<V>(m: Entries<V>, k: string, v: V): (r: Entries<V>)
    requires Sorted(m)
    ensures Sorted(r)
    ensures Keys(r) == Keys(m) + {k}
    ensures Get(r, k) == Some(v)
    ensures forall k' :: k' != k ==> Get(r, k') == Get(m, k')
  {
    if m == [] then
      assert [(k, v)][0].0 == k;
      [(k, v)]
    else if m[0].0 == k then
      assert Keys(m) == {k} + Keys(m[1..]);
      NotInTail(m);
      KeysCons((k, v), m[1..]);
      [(k, v)] + m[1..]
    else if Less(k, m[0].0) then
      PrependKeepsSorted(m, k, v);
      KeyBelowHead(m, k);
      KeysCons((k, v), m);
      [(k, v)] + m
    else
      LessTotal(k, m[0].0);
      var rest := Put(m[1..], k, v);
      ConsAboveHead(m, k, rest);
      [m[0]] + rest
  }

  /** The recursive case of Put: the head stays in front of the updated tail. */
  lemma ConsAboveHead<V>(m: Entries<V>, k: string, rest: Entries<V>)
    requires Sorted(m) && m != [] && Less(m[0].0, k)
    requires Sorted(rest) && Keys(rest) == Keys(m[1..]) + {k}
    ensures Sorted([m[0]] + rest)
    ensures Keys([m[0]] + rest) == Keys(m) + {k}
    ensures ([m[0]] + rest)[0] == m[0] && ([m[0]] + rest)[1..] == rest
  {
    var r := [m[0]] + rest;
    assert Keys(m) == {m[0].0} + Keys(m[1..]);
    KeysCons(m[0], rest);
    forall j | 0 < j < |r| ensures Less(m[0].0, r[j].0) {
      assert r[j] == rest[j - 1];
      assert rest[j - 1].0 in Keys(rest);
      if rest[j - 1].0 != k {
        var x :| 0 <= x < |m[1..]| && m[1..][x].0 == rest[j - 1].0;
        assert m[x + 1].0 == rest[j - 1].0;
      }
    }
    forall i, j | 0 <= i < j < |r| ensures Less(r[i].0, r[j].0) {
      if i > 0 {
        assert r[i] == rest[i - 1] && r[j] == rest[j - 1];
      }
    }
    assert r[1..] == rest;
  }

  /** Looking up any key after a Put. */
  lemma PutGet<V>(m: Entries<V>, key: string, v: V, k: string)
    requires Sorted(m)
    ensures Get(Put(m, key, v), k) == if k == key then Some(v) else Get(m, k)
  {
  }

  /** Put adds no entry other than the new one. */
  lemma {:induction false} PutEntries<V>(m: Entries<V>, k: string, v: V)
    requires Sorted(m)
    ensures forall i | 0 <= i < |Put(m, k, v)| :: Put(m, k, v)[i] == (k, v) || Put(m, k, v)[i] in m
  {
    if m != [] && m[0].0 != k && !Less(k, m[0].0) {
      var rest := Put(m[1..], k, v);
      PutEntries(m[1..], k, v);
      var r := Put(m, k, v);
      assert r == [m[0]] + rest;
      forall i | 0 < i < |r| ensures r[i] == (k, v) || r[i] in m {
        assert r[i] == rest[i - 1];
        if rest[i - 1] in m[1..] {
          var j :| 0 <= j < |m[1..]| && m[1..][j] == rest[i - 1];
          assert m[j + 1] == r[i];
        }
      }
    }
  }

  /** Put grows the map by one entry exactly when the key is new. */
  lemma PutSize<V>(m: Entries<V>, k: string, v: V)
    requires Sorted(m)
    ensures |Put(m, k, v)| == if k in Keys(m) then |m| else |m| + 1
  {
    SortedSize(m);
    SortedSize(Put(m, k, v));
  }

  lemma KeysCons<V>(e: (string, V), m: Entries<V>)
    ensures Keys([e] + m) == {e.0} + Keys(m)
  {
    var r := [e] + m;
    assert forall i :: 0 < i < |r| ==> r[i] == m[i - 1];
    forall x | x in Keys(m) ensures x in Keys(r) {
      var j :| 0 <= j < |m| && m[j].0 == x;
      assert r[j + 1].0 == x;
    }
    forall x | x in Keys(r) ensures x == e.0 || x in Keys(m) {
      var j :| 0 <= j < |r| && r[j].0 == x;
      if j > 0 {
        assert m[j - 1].0 == x;
      }
    }
    assert r[0].0 == e.0;
  }

  lemma PrependKeepsSorted<V>(m: Entries<V>, k: string, v: V)
    requires Sorted(m) && m != [] && Less(k, m[0].0)
    ensures Sorted([(k, v)] + m)
  {
    forall j | 0 < j < |m| ensures Less(k, m[j].0) {
      LessTransitive(k, m[0].0, m[j].0);
    }
  }

  /** A key below the head of a sorted list is not one of its keys. */
  lemma KeyBelowHead<V>(m: Entries<V>, k: string)
    requires Sorted(m) && m != [] && Less(k, m[0].0)
    ensures k !in Keys(m)
  {
    if k in Keys(m) {
      var j :| 0 <= j < |m| && m[j].0 == k;
      if j == 0 {
        LessIrreflexive(k);
      } else {
        LessAsymmetric(m[0].0, k);
      }
    }
  }

  /** In a sorted list the head key does not occur again in the tail. */
  lemma NotInTail<V>(m: Entries<V>)
    requires Sorted(m) && m != []
    ensures m[0].0 !in Keys(m[1..])
  {
    if m[0].0 in Keys(m[1..]) {
      var j :| 0 <= j < |m[1..]| && m[1..][j].0 == m[0].0;
      assert Less(m[0].0, m[j + 1].0);
      LessIrreflexive(m[0].0);
    }
  }

  /** A sorted list has one entry per key. */
  lemma {:induction false} SortedSize<V>(m: Entries<V>)
    requires Sorted(m)
    ensures |Keys(m)| == |m|
  {
    if m != [] {
      assert Keys(m) == {m[0].0} + Keys(m[1..]);
      NotInTail(m);
      SortedSize(m[1..]);
    }
  }

  /** Looking up the key of an entry of a sorted list finds that entry's value. */
  lemma {:induction false} GetAt<V>(m: Entries<V>, i: nat)
    requires Sorted(m) && i < |m|
    ensures Get(m, m[i].0) == Some(m[i].1)
  {
    if i > 0 {
      if m[0].0 == m[i].0 {
        LessIrreflexive(m[0].0);
      }
      GetAt(m[1..], i - 1);
    }
  }
}
