/**
  Channel-set resolution (utilities_general.get_channels_in_set): every data
  key of a dataset, in first-seen order and without repeats, minus the time axis.
*/
module Channels {
  import opened Base

  /** The argument may be a list of records or a lone record. */
  datatype DatasetArg = One(rec: Record) | Many(records: Dataset)

  /** A lone record is treated as a one-record dataset. */
  function AsList(arg: DatasetArg): (ds: Dataset)
    ensures arg.One? ==> ds == [arg.rec]
    ensures arg.Many? ==> ds == arg.records
  {
    match arg
    case One(r) => [r]
    case Many(rs) => rs
  }

  /** The data keys of every record, record after record. */
  function AllKeys(ds: Dataset): seq<string> {
    if ds == [] then [] else AllKeys(ds[..|ds| - 1]) + Keys(ds[|ds| - 1].data)
  }

  /** The first-seen de-duplication of s: an element is kept where it first occurs. */
  function Dedup<T(==)>(s: seq<T>): seq<T> {
    if s == [] then []
    else
      var d := Dedup(s[..|s| - 1]);
      if s[|s| - 1] in d then d else d + [s[|s| - 1]]
  }

  /** list.index: the position of the first occurrence of x. */
  function IndexOf<T(==)>(s: seq<T>, x: T): (i: nat)
    requires x in s
    ensures i < |s| && s[i] == x && x !in s[..i]
  {
    if s[0] == x then 0
    else
      assert s == [s[0]] + s[1..];
      1 + IndexOf(s[1..], x)
  }

  /** del s[i] */
  function RemoveAt<T>(s: seq<T>, i: nat): (r: seq<T>)
    requires i < |s|
    ensures |r| == |s| - 1
    ensures forall k :: 0 <= k < |r| ==> r[k] == (if k < i then s[k] else s[k + 1])
  {
    s[..i] + s[i + 1..]
  }

  /** What get_channels_in_set returns for a dataset; ValueError when no key is "time". */
  function ChannelsInSet(ds: Dataset): Result<seq<string>> {
    var d := Dedup(AllKeys(ds));
    if "time" in d then Ok(RemoveAt(d, IndexOf(d, "time"))) else Err(ValueError)
  }

  /** The inner loop of get_channels_in_set: append the names of one record not yet seen. */
  method AppendUnseen(channels: seq<string>, ghost seen: seq<string>, names: seq<string>) returns (c: seq<string>)
    requires channels == Dedup(seen)
    ensures c == Dedup(seen + names)
  {
    c := channels;
    var j := 0;
    assert seen + names[..0] == seen;
    while j < |names|
      invariant 0 <= j <= |names|
      invariant c == Dedup(seen + names[..j])
    {
      assert seen + names[..j + 1] == (seen + names[..j]) + [names[j]];
      if names[j] !in c {
        c := c + [names[j]];
      }
      j := j + 1;
    }
    assert names[..j] == names;
  }

  method GetChannelsInSet(arg: DatasetArg) returns (r: Result<seq<string>>)
    ensures r == ChannelsInSet(AsList(arg))
  {
    var dataset := AsList(arg);
    var channels: seq<string> := [];
    var i := 0;
    while i < |dataset|
      invariant 0 <= i <= |dataset|
      invariant channels == Dedup(AllKeys(dataset[..i]))
    {
      channels := AppendUnseen(channels, AllKeys(dataset[..i]), Keys(dataset[i].data));
      assert dataset[..i + 1][..i] == dataset[..i];
      assert AllKeys(dataset[..i + 1]) == AllKeys(dataset[..i]) + Keys(dataset[i].data);
      i := i + 1;
    }
    assert dataset[..i] == dataset;
    if "time" !in channels {
      return Err(ValueError);
    }
    var ind := IndexOf(channels, "time");
    channels := channels[..ind] + channels[ind + 1..];
    r := Ok(channels);
  }

  // ---- properties of the first-seen de-duplication ----

  lemma {:induction false} DedupMembers<T>(s: seq<T>)
    ensures forall x :: x in Dedup(s) <==> x in s
  {
    if s != [] {
      DedupMembers(s[..|s| - 1]);
      assert s == s[..|s| - 1] + [s[|s| - 1]];
    }
  }

  lemma {:induction false} DedupDistinct<T>(s: seq<T>)
    ensures Distinct(Dedup(s))
  {
    if s != [] {
      DedupDistinct(s[..|s| - 1]);
    }
  }

  lemma IndexOfPrefix<T>(s: seq<T>, t: seq<T>, x: T)
    requires x in s
    ensures x in s + t && IndexOf(s + t, x) == IndexOf(s, x)
  {
    var i := IndexOf(s, x);
    assert (s + t)[i] == x;
  }

  /** The elements of d occur in s, and in the order of their first occurrences there. */
  predicate InFirstSeenOrder<T(==)>(s: seq<T>, d: seq<T>) {
    forall i, j :: 0 <= i < j < |d| ==> d[i] in s && d[j] in s && IndexOf(s, d[i]) < IndexOf(s, d[j])
  }

  lemma DedupOrderStep<T>(p: seq<T>, x: T)
    requires InFirstSeenOrder(p, Dedup(p))
    ensures InFirstSeenOrder(p + [x], Dedup(p + [x]))
  {
    var s := p + [x];
    assert s[..|s| - 1] == p;
    DedupMembers(p);
    var d := Dedup(p);
    var e := Dedup(s);
    forall i | 0 <= i < |d| ensures d[i] in s && IndexOf(s, d[i]) == IndexOf(p, d[i]) < |p| {
      assert d[i] in d;
      IndexOfPrefix(p, [x], d[i]);
    }
    if x !in d {
      assert e == d + [x];
      assert IndexOf(s, x) == |p|;
    }
  }

  /** Dedup lists its elements in the order of their first occurrences in s. */
  lemma {:induction false} DedupOrder<T>(s: seq<T>)
    ensures InFirstSeenOrder(s, Dedup(s))
  {
    if s != [] {
      var p := s[..|s| - 1];
      assert s == p + [s[|s| - 1]];
      DedupOrder(p);
      DedupOrderStep(p, s[|s| - 1]);
    }
  }

  lemma {:induction false} DistinctCard<T>(s: seq<T>)
    requires Distinct(s)
    ensures |set x | x in s| == |s|
  {
    if s != [] {
      var p := s[..|s| - 1];
      DistinctCard(p);
      assert (set x | x in s) == (set x | x in p) + {s[|s| - 1]};
      assert s[|s| - 1] !in p;
    }
  }

  lemma {:induction false} DedupOfDistinct<T>(s: seq<T>)
    requires Distinct(s)
    ensures Dedup(s) == s
  {
    if s != [] {
      DedupOfDistinct(s[..|s| - 1]);
    }
  }

  // ---- properties of get_channels_in_set ----

  /** The call succeeds exactly when some record has a "time" key. */
  lemma ChannelsDefinedIffTime(ds: Dataset)
    ensures ChannelsInSet(ds).Ok? <==> "time" in AllKeys(ds)
  {
    DedupMembers(AllKeys(ds));
  }

  lemma RemoveAtMembers<T>(d: seq<T>, k: nat)
    requires k < |d| && Distinct(d)
    ensures Distinct(RemoveAt(d, k))
    ensures forall x :: x in RemoveAt(d, k) <==> x in d && x != d[k]
  {
    var r := RemoveAt(d, k);
    forall x ensures x in r <==> x in d && x != d[k] {
      if x in r {
        var i :| 0 <= i < |r| && r[i] == x;
        if i < k { assert d[i] == x; } else { assert d[i + 1] == x; }
      }
      if x in d && x != d[k] {
        var i :| 0 <= i < |d| && d[i] == x;
        if i < k { assert r[i] == x; } else { assert r[i - 1] == x; }
      }
    }
  }

  /** The result holds every data key other than "time", each exactly once. */
  lemma ChannelsInSetMembers(ds: Dataset)
    requires ChannelsInSet(ds).Ok?
    ensures var r := ChannelsInSet(ds).value;
      && Distinct(r)
      && "time" !in r
      && (forall x :: x in r <==> x in AllKeys(ds) && x != "time")
  {
    var s := AllKeys(ds);
    var d := Dedup(s);
    DedupMembers(s);
    DedupDistinct(s);
    RemoveAtMembers(d, IndexOf(d, "time"));
  }

  /** The result lists the channels in the order in which their keys are first seen. */
  lemma ChannelsInSetOrder(ds: Dataset)
    requires ChannelsInSet(ds).Ok?
    ensures var r, s := ChannelsInSet(ds).value, AllKeys(ds);
      forall i, j :: 0 <= i < j < |r| ==> r[i] in s && r[j] in s && IndexOf(s, r[i]) < IndexOf(s, r[j])
  {
    var s := AllKeys(ds);
    var d := Dedup(s);
    DedupOrder(s);
    RemoveAtOrder(s, d, IndexOf(d, "time"));
  }

  /** Deleting one element keeps the others in their order. */
  lemma RemoveAtOrder<T>(s: seq<T>, d: seq<T>, k: nat)
    requires k < |d| && InFirstSeenOrder(s, d)
    ensures var r := RemoveAt(d, k);
      && (forall i :: 0 <= i < |r| ==> r[i] in s)
      && (forall i, j :: 0 <= i < j < |r| ==> IndexOf(s, r[i]) < IndexOf(s, r[j]))
  {
    var r := RemoveAt(d, k);
    forall i | 0 <= i < |r| ensures r[i] in s {
      var i' := if i < k then i else i + 1;
      assert r[i] == d[i'] && |d| >= 2;
      if i' == 0 {
        assert d[0] in s && d[1] in s;
      } else {
        assert d[0] in s && d[i'] in s;
      }
    }
    forall i, j | 0 <= i < j < |r| ensures IndexOf(s, r[i]) < IndexOf(s, r[j]) {
      var i', j' := if i < k then i else i + 1, if j < k then j else j + 1;
      assert r[i] == d[i'] && r[j] == d[j'] && 0 <= i' < j' < |d|;
    }
  }

  /** Its length is the number of distinct data keys minus one (the dropped "time"). */
  lemma ChannelsInSetLength(ds: Dataset)
    requires ChannelsInSet(ds).Ok?
    ensures |ChannelsInSet(ds).value| + 1 == |set x | x in AllKeys(ds)|
  {
    var s := AllKeys(ds);
    var d := Dedup(s);
    DedupMembers(s);
    DedupDistinct(s);
    DistinctCard(d);
    assert (set x | x in d) == (set x | x in s);
  }

  /** A lone record with distinct keys yields its own keys, minus "time", in order. */
  lemma ChannelsOfRecord(rec: Record)
    requires Distinct(Keys(rec.data)) && "time" in Keys(rec.data)
    ensures var ks := Keys(rec.data);
      ChannelsInSet([rec]) == Ok(RemoveAt(ks, IndexOf(ks, "time")))
  {
    assert [rec][..0] == [];
    assert AllKeys([rec]) == Keys(rec.data);
    DedupOfDistinct(Keys(rec.data));
  }

  /** Dedup of s + [x] adds x unless it was already seen. */
  lemma DedupSnoc(s: seq<string>, x: string)
    ensures Dedup(s + [x]) == if x in Dedup(s) then Dedup(s) else Dedup(s) + [x]
  {
    assert (s + [x])[..|s|] == s;
  }

  /** One more record keyed [x, "time"] adds just x, once "time" has been seen. */
  lemma DedupLabelStep(s: seq<string>, x: string)
    requires "time" in Dedup(s) && x !in Dedup(s) && x != "time"
    ensures Dedup(s + [x, "time"]) == Dedup(s) + [x]
  {
    assert s + [x, "time"] == (s + [x]) + ["time"];
    DedupSnoc(s, x);
    DedupSnoc(s + [x], "time");
  }

  /** The keys of records keyed [label, "time"], record after record. */
  function Paired(labels: seq<string>): seq<string> {
    if labels == [] then [] else Paired(labels[..|labels| - 1]) + [labels[|labels| - 1], "time"]
  }

  /** Such keys are seen as: the first label, "time", then the other labels. */
  lemma {:induction false} DedupPaired(labels: seq<string>)
    requires |labels| > 0 && Distinct(labels) && "time" !in labels
    ensures Dedup(Paired(labels)) == [labels[0], "time"] + labels[1..]
    decreases |labels|
  {
    var n := |labels|;
    var p, x := labels[..n - 1], labels[n - 1];
    assert Paired(labels) == Paired(p) + [x, "time"];
    if n == 1 {
      assert Paired(labels) == ([] + [x]) + ["time"];
      DedupSnoc([], x);
      DedupSnoc([x], "time");
    } else {
      DedupPaired(p);
      assert x !in p;
      var prev := [p[0], "time"] + p[1..];
      assert prev[1] == "time";
      DedupLabelStep(Paired(p), x);
      assert labels[1..] == p[1..] + [x];
    }
  }

  lemma {:induction false} AllKeysPaired(ds: Dataset, labels: seq<string>)
    requires |ds| == |labels|
    requires forall j :: 0 <= j < |ds| ==> Keys(ds[j].data) == [labels[j], "time"]
    ensures AllKeys(ds) == Paired(labels)
    decreases |ds|
  {
    if ds != [] {
      var n := |ds|;
      AllKeysPaired(ds[..n - 1], labels[..n - 1]);
    }
  }

  /**
    Records whose data keys are [label, "time"], with distinct labels other than
    "time", have exactly those labels as channels, in record order.
  */
  lemma ChannelsOfKeyedRecords(ds: Dataset, labels: seq<string>)
    requires |ds| == |labels| > 0 && Distinct(labels) && "time" !in labels
    requires forall j :: 0 <= j < |ds| ==> Keys(ds[j].data) == [labels[j], "time"]
    ensures ChannelsInSet(ds) == Ok(labels)
  {
    AllKeysPaired(ds, labels);
    DedupPaired(labels);
    var d := [labels[0], "time"] + labels[1..];
    assert d == [labels[0]] + (["time"] + labels[1..]);
    assert IndexOf(d, "time") == 1;
    assert RemoveAt(d, 1) == [labels[0]] + labels[1..] == labels;
  }
}
