/**
 * Plain JavaScript objects with string values, as ordered sequences of
 * key/value entries: `Object.keys` and `Object.values` list them in insertion order.
 */
module Records {
  import opened Wrappers
  import opened Sequences

  datatype Entry = Entry(key: string, value: string)

  type Record = seq<Entry>

  /** Property names are unique within an object. */
  ghost predicate DistinctKeys(o: Record)
  {
    forall i, j :: 0 <= i < |o| && 0 <= j < |o| && o[i].key == o[j].key ==> i == j
  }

  /** `Object.keys(o)`: the property names in insertion order, each listed once. */
  function Keys(o: Record): (r: seq<string>)
    ensures |r| == |o| && forall i :: 0 <= i < |o| ==> r[i] == o[i].key
    ensures DistinctKeys(o) ==> forall i, j :: 0 <= i < |r| && 0 <= j < |r| && r[i] == r[j] ==> i == j
  {
    seq(|o|, i requires 0 <= i < |o| => o[i].key)
  }

  /** `Object.values(o)`: value i is the one stored under key i. */
  function Values(o: Record): (r: seq<string>)
    ensures |r| == |o| && forall i :: 0 <= i < |o| ==> r[i] == o[i].value
    ensures DistinctKeys(o) ==> forall i :: 0 <= i < |o| ==> Lookup(o, Keys(o)[i]) == Some(r[i])
  {
    seq(|o|, i requires 0 <= i < |o| => o[i].value)
  }

  /** The set of property names of `o`. */
  ghost function KeySet(o: Record): set<string>
  {
    set i | 0 <= i < |o| :: o[i].key
  }

  /** `o[key]`: the value stored under `key`, or `undefined`. */
  function Lookup(o: Record, key: string): (r: Option<string>)
    ensures r.None? <==> forall i :: 0 <= i < |o| ==> o[i].key != key
    ensures DistinctKeys(o) ==> forall i :: 0 <= i < |o| && o[i].key == key ==> r == Some(o[i].value)
  {
    if o == [] then None
    else if o[0].key == key then Some(o[0].value)
    else
      assert forall i :: 0 < i < |o| ==> o[i] == o[1..][i - 1];
      Lookup(o[1..], key)
  }

  /** `const { [key]: _, ...rest } = o`: the object without property `key`, others in order. */
  function WithoutKey(o: Record, key: string): (r: Record)
    ensures forall i :: 0 <= i < |r| ==> r[i] in o && r[i].key != key
    ensures forall i :: 0 <= i < |o| && o[i].key != key ==> o[i] in r
    ensures IsSubseq(r, o)
  {
    if o == [] then []
    else
      var rest := WithoutKey(o[1..], key);
      assert o == [o[0]] + o[1..];
      assert ([o[0]] + rest)[1..] == rest;
      if o[0].key == key then rest else [o[0]] + rest
  }

  /** `countObjectProperties`: `Object.keys(object).length`, the number of property names. */
  function CountProperties(o: Record): (n: nat)
    ensures n == |o|
    ensures DistinctKeys(o) ==> n == |KeySet(o)|
  {
    KeySetSize(o);
    |Keys(o)|
  }

  /** An object with distinct names has as many names as entries. */
  lemma {:induction false} KeySetSize(o: Record)
    ensures DistinctKeys(o) ==> |KeySet(o)| == |o|
  {
    if o != [] && DistinctKeys(o) {
      var tail := o[1..];
      assert DistinctKeys(tail) by {
        forall i, j | 0 <= i < |tail| && 0 <= j < |tail| && tail[i].key == tail[j].key ensures i == j {
          assert o[i + 1].key == o[j + 1].key;
        }
      }
      KeySetSize(tail);
      assert KeySet(o) == {o[0].key} + KeySet(tail) by {
        forall k | k in KeySet(o) ensures k in {o[0].key} + KeySet(tail) {
          var i :| 0 <= i < |o| && o[i].key == k;
          if i > 0 { assert tail[i - 1].key == k; }
        }
        forall k | k in KeySet(tail) ensures k in KeySet(o) {
          var i :| 0 <= i < |tail| && tail[i].key == k;
          assert o[i + 1].key == k;
        }
      }
      forall i | 0 <= i < |tail| ensures tail[i].key != o[0].key {
        assert o[i + 1].key == tail[i].key;
      }
    }
  }

  /** Removing a property shortens the object by one exactly when the property is present. */
  lemma {:induction false} WithoutKeyCount(o: Record, key: string)
    requires DistinctKeys(o)
    ensures |WithoutKey(o, key)| == if Lookup(o, key).Some? then |o| - 1 else |o|
  {
    if o != [] {
      var tail := o[1..];
      assert DistinctKeys(tail) by {
        forall i, j | 0 <= i < |tail| && 0 <= j < |tail| && tail[i].key == tail[j].key ensures i == j {
          assert o[i + 1].key == o[j + 1].key;
        }
      }
      WithoutKeyCount(tail, key);
      if o[0].key == key {
        forall i | 0 <= i < |tail| ensures tail[i].key != key {
          assert o[i + 1].key == tail[i].key;
        }
      }
    }
  }

  lemma KeysCons(e: Entry, o: Record)
    ensures Keys([e] + o) == [e.key] + Keys(o)
  {
  }

  lemma KeysTail(o: Record)
    requires o != []
    ensures Keys(o) == [o[0].key] + Keys(o[1..])
  {
  }

  /** Two objects with the same key order still have the same key order without `key`. */
  lemma {:induction false} WithoutKeySameKeys(a: Record, b: Record, key: string)
    requires Keys(a) == Keys(b)
    ensures Keys(WithoutKey(a, key)) == Keys(WithoutKey(b, key))
  {
    assert |a| == |Keys(a)| == |Keys(b)| == |b|;
    if a != [] {
      KeysTail(a);
      KeysTail(b);
      assert Keys(a)[0] == a[0].key && Keys(b)[0] == b[0].key;
      assert Keys(a)[1..] == Keys(a[1..]) && Keys(b)[1..] == Keys(b[1..]);
      WithoutKeySameKeys(a[1..], b[1..], key);
      if a[0].key != key {
        KeysCons(a[0], WithoutKey(a[1..], key));
        KeysCons(b[0], WithoutKey(b[1..], key));
      }
    }
  }

  /** The values of a sub-sequence of entries are a sub-sequence of the values. */
  lemma {:induction false} ValuesSubseq(a: Record, b: Record)
    requires IsSubseq(a, b)
    ensures IsSubseq(Values(a), Values(b))
    decreases |b|
  {
    if a == [] {
    } else if a[0] == b[0] && IsSubseq(a[1..], b[1..]) {
      ValuesSubseq(a[1..], b[1..]);
      assert Values(a)[1..] == Values(a[1..]) && Values(b)[1..] == Values(b[1..]);
    } else {
      ValuesSubseq(a, b[1..]);
      assert Values(b)[1..] == Values(b[1..]);
    }
  }
}
