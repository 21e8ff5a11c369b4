/**
  Python's insertion-ordered dict, as the exporter uses it for channel data,
  metadata and the NeurOne event fields: a list of (key, value) pairs.
*/
module Dicts {
  import opened Base

  /** A dict never holds the same key twice. */
  predicate WellFormed<V>(d: Dict<V>) {
    Distinct(Keys(d))
  }

  lemma KeysCons<V>(d: Dict<V>)
    requires d != []
    ensures Keys(d) == [d[0].0] + Keys(d[1..])
  {
  }

  /** The first key of a dict does not occur again in the rest of it. */
  lemma WellFormedTail<V>(d: Dict<V>)
    requires WellFormed(d) && d != []
    ensures WellFormed(d[1..]) && d[0].0 !in Keys(d[1..])
  {
    var ks, rs := Keys(d), Keys(d[1..]);
    assert rs == ks[1..];
    forall j | 0 <= j < |rs| ensures rs[j] != d[0].0 {
      assert rs[j] == ks[j + 1] && ks[0] == d[0].0;
    }
  }

  lemma KeysAppend<V>(d: Dict<V>, e: Dict<V>)
    ensures Keys(d + e) == Keys(d) + Keys(e)
  {
  }

  /** d[k]: the value stored under k, or None where Python raises KeyError. */
  function Get<V>(d: Dict<V>, k: string): (r: Option<V>)
    ensures r.None? <==> k !in Keys(d)
    ensures r.Some? ==> (k, r.value) in d
  {
    if d == [] then None
    else
      KeysCons(d);
      if d[0].0 == k then Some(d[0].1) else Get(d[1..], k)
  }

  /** d[k] = v: overwrites the value in place when k is present, appends (k, v) otherwise. */
  function Set<V>(d: Dict<V>, k: string, v: V): (r: Dict<V>)
    ensures k in Keys(d) ==> Keys(r) == Keys(d)
    ensures k !in Keys(d) ==> Keys(r) == Keys(d) + [k]
    ensures Get(r, k) == Some(v)
    ensures forall k' :: k' != k ==> Get(r, k') == Get(d, k')
    ensures WellFormed(d) ==> WellFormed(r)
  {
    if d == [] then [(k, v)]
    else
      KeysCons(d);
      if d[0].0 == k then
        KeysCons([(k, v)] + d[1..]);
        [(k, v)] + d[1..]
      else
        var r := [d[0]] + Set(d[1..], k, v);
        KeysCons(r);
        r
  }

  /** del d[k]: removes the entry for k; KeyError when k is absent. */
  function Del<V>(d: Dict<V>, k: string): (r: Result<Dict<V>>)
    ensures r.Err? <==> k !in Keys(d)
    ensures r.Ok? ==> |r.value| == |d| - 1
  {
    if d == [] then Err(KeyError(k))
    else
      KeysCons(d);
      if d[0].0 == k then
        assert Keys(d[1..]) == Keys(d)[1..];
        Ok(d[1..])
      else
        var rest := Del(d[1..], k);
        if rest.Err? then rest
        else
          var r := [d[0]] + rest.value;
          KeysCons(r);
          assert Keys(d[1..]) == Keys(d)[1..];
          Ok(r)
  }

  /** In a dict, the entry at position i is the one a lookup of its key finds. */
  lemma GetAt<V>(d: Dict<V>, i: nat)
    requires WellFormed(d) && i < |d|
    ensures Get(d, d[i].0) == Some(d[i].1)
  {
    assert Keys(d)[i] == d[i].0;
    var v := Get(d, d[i].0).value;
    var j :| 0 <= j < |d| && d[j] == (d[i].0, v);
    assert Keys(d)[j] == Keys(d)[i];
  }

  /** Setting a key the dict does not hold appends the pair at the end. */
  lemma {:induction false} SetAbsent<V>(d: Dict<V>, k: string, v: V)
    requires k !in Keys(d)
    ensures Set(d, k, v) == d + [(k, v)]
  {
    if d != [] {
      KeysCons(d);
      SetAbsent(d[1..], k, v);
      assert [d[0]] + (d[1..] + [(k, v)]) == d + [(k, v)];
    }
  }

  /** d without the entries whose key is one of ns, the rest in order. */
  function Drop<V>(d: Dict<V>, ns: seq<string>): (r: Dict<V>)
    ensures |r| <= |d|
  {
    if d == [] then []
    else if d[0].0 in ns then Drop(d[1..], ns)
    else [d[0]] + Drop(d[1..], ns)
  }

  lemma {:induction false} KeysDrop<V>(d: Dict<V>, ns: seq<string>)
    ensures forall k :: k in Keys(Drop(d, ns)) <==> k in Keys(d) && k !in ns
  {
    if d != [] {
      KeysCons(d);
      KeysDrop(d[1..], ns);
      if d[0].0 !in ns {
        KeysCons([d[0]] + Drop(d[1..], ns));
      }
    }
  }

  lemma {:induction false} DropWellFormed<V>(d: Dict<V>, ns: seq<string>)
    requires WellFormed(d)
    ensures WellFormed(Drop(d, ns))
  {
    if d != [] {
      WellFormedTail(d);
      DropWellFormed(d[1..], ns);
      if d[0].0 !in ns {
        var r := [d[0]] + Drop(d[1..], ns);
        KeysDrop(d[1..], ns);
        KeysCons(r);
        forall i, j | 0 <= i < j < |r| ensures Keys(r)[i] != Keys(r)[j] {
          if i == 0 {
            assert Keys(r)[j] in Keys(Drop(d[1..], ns));
          } else {
            assert Keys(r)[i] == Keys(Drop(d[1..], ns))[i - 1];
          }
        }
      }
    }
  }

  /** Lookups of the keys that stay find what they found before. */
  lemma {:induction false} DropGet<V>(d: Dict<V>, ns: seq<string>, k: string)
    requires k !in ns
    ensures Get(Drop(d, ns), k) == Get(d, k)
  {
    if d != [] {
      DropGet(d[1..], ns, k);
    }
  }

  /** Dropping one list of keys and then another drops both. */
  lemma {:induction false} DropDrop<V>(d: Dict<V>, ns: seq<string>, ms: seq<string>)
    ensures Drop(Drop(d, ns), ms) == Drop(d, ns + ms)
  {
    if d != [] {
      DropDrop(d[1..], ns, ms);
      if d[0].0 !in ns {
        assert ([d[0]] + Drop(d[1..], ns))[1..] == Drop(d[1..], ns);
      }
    }
  }

  /** In a dict, del d[k] removes exactly the entry for k. */
  lemma {:induction false} DelDrop<V>(d: Dict<V>, k: string)
    requires WellFormed(d) && k in Keys(d)
    ensures Del(d, k) == Ok(Drop(d, [k]))
  {
    KeysCons(d);
    WellFormedTail(d);
    if d[0].0 == k {
      DropNone(d[1..], [k]);
    } else {
      DelDrop(d[1..], k);
    }
  }

  lemma {:induction false} DropAppend<V>(d: Dict<V>, e: Dict<V>, ns: seq<string>)
    ensures Drop(d + e, ns) == Drop(d, ns) + Drop(e, ns)
  {
    if d == [] {
      assert d + e == e;
    } else {
      assert (d + e)[0] == d[0] && (d + e)[1..] == d[1..] + e;
      DropAppend(d[1..], e, ns);
      if d[0].0 !in ns {
        assert [d[0]] + (Drop(d[1..], ns) + Drop(e, ns)) == ([d[0]] + Drop(d[1..], ns)) + Drop(e, ns);
      }
    }
  }

  /** Dropping every key a dict holds leaves nothing. */
  lemma {:induction false} DropAll<V>(d: Dict<V>, ns: seq<string>)
    requires forall k :: k in Keys(d) ==> k in ns
    ensures Drop(d, ns) == []
  {
    if d != [] {
      KeysCons(d);
      DropAll(d[1..], ns);
    }
  }

  lemma KeysSlice<V>(d: Dict<V>, i: nat, j: nat)
    requires i <= j <= |d|
    ensures Keys(d[i..j]) == Keys(d)[i..j]
  {
  }

  /** Dropping keys a dict does not hold changes nothing. */
  lemma {:induction false} DropNone<V>(d: Dict<V>, ns: seq<string>)
    requires forall k :: k in ns ==> k !in Keys(d)
    ensures Drop(d, ns) == d
  {
    if d != [] {
      KeysCons(d);
      DropNone(d[1..], ns);
    }
  }

  /** Two dicts with no key in common join into a dict. */
  lemma WellFormedAppend<V>(d: Dict<V>, e: Dict<V>)
    requires WellFormed(d) && WellFormed(e)
    requires forall k :: k in Keys(e) ==> k !in Keys(d)
    ensures WellFormed(d + e)
  {
    KeysAppend(d, e);
    var ks := Keys(d + e);
    forall i, j | 0 <= i < j < |ks| ensures ks[i] != ks[j] {
      if j < |d| {
        assert ks[i] == Keys(d)[i] && ks[j] == Keys(d)[j];
      } else if i < |d| {
        assert ks[i] == Keys(d)[i] && ks[j] == Keys(e)[j - |d|];
        assert Keys(e)[j - |d|] in Keys(e);
      } else {
        assert ks[i] == Keys(e)[i - |d|] && ks[j] == Keys(e)[j - |d|];
      }
    }
  }

  /** A lookup in d + e finds d's entry when d has the key, and e's otherwise. */
  lemma {:induction false} GetAppend<V>(d: Dict<V>, e: Dict<V>, k: string)
    ensures Get(d + e, k) == if k in Keys(d) then Get(d, k) else Get(e, k)
  {
    if d == [] {
      assert d + e == e;
    } else {
      KeysCons(d);
      assert (d + e)[1..] == d[1..] + e;
      GetAppend(d[1..], e, k);
    }
  }

  /** The values of a dict, in insertion order. */
  function Values<V>(d: Dict<V>): (vs: seq<V>)
    ensures |vs| == |d|
  {
    seq(|d|, i requires 0 <= i < |d| => d[i].1)
  }
}
