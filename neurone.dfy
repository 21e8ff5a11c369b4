/**
  The Bittium NeurOne reader and writer (utilities_neurone): the 88-byte event
  record layout, reading an events file into the event table and writing events.
  Files are byte strings. The signal file, the protocol and the channel records
  are in NeurOneSignal.
*/
module NeurOne {
  import opened Base
  import Dicts
  import Channels
  import opened LittleEndian

  // ---- the event record layout (get_n1_event_format) ----

  /** The two field kinds of the layout: Int32sl and Int64ul. */
  datatype Width = I32 | U64

  function Size(w: Width): nat {
    if w == I32 then 4 else 8
  }

  /** Whether construct can build v into a field of this kind. */
  predicate Fits(w: Width, v: int) {
    if w == I32 then -0x8000_0000 <= v < 0x8000_0000 else 0 <= v < 0x1_0000_0000_0000_0000
  }

  function DecodeField(w: Width, bs: seq<Byte>): (v: int)
    requires |bs| == Size(w)
    ensures Fits(w, v)
  {
    if w == I32 then Int32(bs) else UInt64(bs)
  }

  function EncodeField(w: Width, v: int): (bs: seq<Byte>)
    requires Fits(w, v)
    ensures |bs| == Size(w)
  {
    if w == I32 then Int32Bytes(v) else UInt64Bytes(v)
  }

  lemma FieldRoundTrip(w: Width, v: int)
    requires Fits(w, v)
    ensures DecodeField(w, EncodeField(w, v)) == v
  {
    if w == I32 { Int32RoundTrip(v); } else { UInt64RoundTrip(v); }
  }

  lemma FieldBytesRoundTrip(w: Width, bs: seq<Byte>)
    requires |bs| == Size(w)
    ensures EncodeField(w, DecodeField(w, bs)) == bs
  {
    if w == I32 { Int32BytesRoundTrip(bs); } else { UInt64BytesRoundTrip(bs); }
  }

  /** A construct Struct of named integer fields, in order. */
  type Layout = seq<(string, Width)>

  function Names(layout: Layout): seq<string> {
    seq(|layout|, i requires 0 <= i < |layout| => layout[i].0)
  }

  lemma NamesCons(layout: Layout)
    requires layout != []
    ensures Names(layout) == [layout[0].0] + Names(layout[1..])
  {
  }

  function LayoutSize(layout: Layout): nat {
    if layout == [] then 0 else Size(layout[0].1) + LayoutSize(layout[1..])
  }

  /** get_n1_event_format: six int32, six uint64, then four reserved int32 fields. */
  const EventLayout: Layout := [
    ("Revision", I32), ("RFU1", I32), ("Type", I32), ("SourcePort", I32),
    ("ChannelNumber", I32), ("Code", I32),
    ("StartSampleIndex", U64), ("StopSampleIndex", U64), ("DescriptionLength", U64),
    ("DescriptionOffset", U64), ("DataLength", U64), ("DataOffset", U64),
    ("RFU2", I32), ("RFU3", I32), ("RFU4", I32), ("RFU5", I32)]

  /** The reserved field RFU<j>, as the code spells it: 'RFU' + str(j). */
  function RfuName(j: nat): string
    requires 1 <= j <= 5
  {
    "RFU" + [('0' as int + j) as char]
  }

  /** The eleven fields an event carries besides the reserved ones, in layout order. */
  const EventFields: seq<string> := [
    "Revision", "Type", "SourcePort", "ChannelNumber", "Code",
    "StartSampleIndex", "StopSampleIndex", "DescriptionLength", "DescriptionOffset",
    "DataLength", "DataOffset"]

  lemma EventLayoutNames()
    ensures Distinct(Names(EventLayout))
  {
  }

  lemma EventLayoutIndices()
    ensures Names(EventLayout)[6] == "StartSampleIndex" && Names(EventLayout)[7] == "StopSampleIndex"
  {
  }

  lemma EventLayoutSizeFrom8()
    ensures LayoutSize(EventLayout[8..]) == 48
  {
    var l := EventLayout;
    assert LayoutSize(l[15..]) == 4;
    assert l[14..][1..] == l[15..];
    assert LayoutSize(l[14..]) == 8;
    assert l[13..][1..] == l[14..];
    assert LayoutSize(l[13..]) == 12;
    assert l[12..][1..] == l[13..];
    assert LayoutSize(l[12..]) == 16;
    assert l[11..][1..] == l[12..];
    assert LayoutSize(l[11..]) == 24;
    assert l[10..][1..] == l[11..];
    assert LayoutSize(l[10..]) == 32;
    assert l[9..][1..] == l[10..];
    assert LayoutSize(l[9..]) == 40;
    assert l[8..][1..] == l[9..];
    assert LayoutSize(l[8..]) == 48;
  }

  lemma EventLayoutSizeFrom4()
    ensures LayoutSize(EventLayout[4..]) == 72
  {
    var l := EventLayout;
    EventLayoutSizeFrom8();
    assert l[7..][1..] == l[8..];
    assert LayoutSize(l[7..]) == 56;
    assert l[6..][1..] == l[7..];
    assert LayoutSize(l[6..]) == 64;
    assert l[5..][1..] == l[6..];
    assert LayoutSize(l[5..]) == 68;
    assert l[4..][1..] == l[5..];
    assert LayoutSize(l[4..]) == 72;
  }

  lemma EventLayoutSize()
    ensures LayoutSize(EventLayout) == 88
  {
    var l := EventLayout;
    EventLayoutSizeFrom4();
    assert l[3..][1..] == l[4..];
    assert LayoutSize(l[3..]) == 76;
    assert l[2..][1..] == l[3..];
    assert LayoutSize(l[2..]) == 80;
    assert l[1..][1..] == l[2..];
    assert LayoutSize(l[1..]) == 84;
    assert l[0..][1..] == l[1..];
    assert LayoutSize(l[0..]) == 88;
    assert l[0..] == l;
  }

  // ---- parse and build over a layout ----

  /** format.parse: the fields of the layout, in order, each decoded from its bytes. */
  function Parse(layout: Layout, bs: seq<Byte>): (d: Dict<int>)
    requires |bs| == LayoutSize(layout)
    ensures Keys(d) == Names(layout)
    ensures forall i :: 0 <= i < |d| ==> Fits(layout[i].1, d[i].1)
  {
    if layout == [] then []
    else
      var w := layout[0].1;
      var d := [(layout[0].0, DecodeField(w, bs[..Size(w)]))] + Parse(layout[1..], bs[Size(w)..]);
      NamesCons(layout);
      Dicts.KeysCons(d);
      d
  }

  /**
    format.build: every field of the layout looked up by name in d and encoded;
    KeyError for a missing field, OverflowError for a value the field cannot hold.
  */
  function Build(layout: Layout, d: Dict<int>): (r: Result<seq<Byte>>)
    ensures r.Ok? ==> |r.value| == LayoutSize(layout)
  {
    if layout == [] then Ok([])
    else
      var name, w := layout[0].0, layout[0].1;
      match Dicts.Get(d, name)
      case None => Err(KeyError(name))
      case Some(v) =>
        if !Fits(w, v) then Err(OverflowError)
        else
          var rest :- Build(layout[1..], d);
          Ok(EncodeField(w, v) + rest)
  }

  /** Build succeeds exactly when every field is present and in range. */
  lemma {:induction false} BuildOk(layout: Layout, d: Dict<int>)
    ensures Build(layout, d).Ok? <==>
      forall i :: 0 <= i < |layout| ==>
        layout[i].0 in Keys(d) && Fits(layout[i].1, Dicts.Get(d, layout[i].0).value)
  {
    if layout != [] {
      BuildOk(layout[1..], d);
      forall i | 1 <= i < |layout| ensures layout[i] == layout[1..][i - 1] {
      }
    }
  }

  /** Build reads d only through the names of the layout. */
  lemma {:induction false} BuildAgrees(layout: Layout, d: Dict<int>, e: Dict<int>)
    requires forall n :: n in Names(layout) ==> Dicts.Get(d, n) == Dicts.Get(e, n)
    ensures Build(layout, d) == Build(layout, e)
  {
    if layout != [] {
      assert layout[0].0 == Names(layout)[0];
      assert forall n :: n in Names(layout[1..]) ==> n in Names(layout) by {
        forall n | n in Names(layout[1..]) ensures n in Names(layout) {
          var k :| 0 <= k < |layout[1..]| && Names(layout[1..])[k] == n;
          assert Names(layout)[k + 1] == n;
        }
      }
      BuildAgrees(layout[1..], d, e);
    }
  }

  /** Building what was parsed gives back the same bytes. */
  lemma {:induction false} BuildParse(layout: Layout, bs: seq<Byte>)
    requires |bs| == LayoutSize(layout) && Distinct(Names(layout))
    ensures Build(layout, Parse(layout, bs)) == Ok(bs)
  {
    if layout != [] {
      var w := layout[0].1;
      var d := Parse(layout, bs);
      var rest := Parse(layout[1..], bs[Size(w)..]);
      ParseTail(layout, bs);
      BuildAgrees(layout[1..], d, rest);
      Distinct1(layout);
      BuildParse(layout[1..], bs[Size(w)..]);
      FieldBytesRoundTrip(w, bs[..Size(w)]);
      assert Dicts.Get(d, layout[0].0) == Some(d[0].1);
      BuildHead(layout, d, d[0].1);
      assert bs == bs[..Size(w)] + bs[Size(w)..];
    }
  }

  /** Build of a layout whose first field is present and in range: that field's bytes, then the rest. */
  lemma BuildHead(layout: Layout, d: Dict<int>, v: int)
    requires layout != [] && Dicts.Get(d, layout[0].0) == Some(v) && Fits(layout[0].1, v)
    requires Build(layout[1..], d).Ok?
    ensures Build(layout, d) == Ok(EncodeField(layout[0].1, v) + Build(layout[1..], d).value)
  {
  }

  /** Past its first field, a parsed dict answers lookups of the other names as the tail does. */
  lemma ParseTail(layout: Layout, bs: seq<Byte>)
    requires |bs| == LayoutSize(layout) && Distinct(Names(layout)) && layout != []
    ensures var w := layout[0].1;
      var d, rest := Parse(layout, bs), Parse(layout[1..], bs[Size(w)..]);
      forall n :: n in Names(layout[1..]) ==> Dicts.Get(d, n) == Dicts.Get(rest, n)
  {
    var w := layout[0].1;
    var d, rest := Parse(layout, bs), Parse(layout[1..], bs[Size(w)..]);
    assert d[1..] == rest;
    forall n | n in Names(layout[1..]) ensures Dicts.Get(d, n) == Dicts.Get(rest, n) {
      var k :| 0 <= k < |layout[1..]| && Names(layout[1..])[k] == n;
      assert Names(layout)[k + 1] == n && Names(layout)[0] == d[0].0;
    }
  }

  lemma Distinct1(layout: Layout)
    requires layout != [] && Distinct(Names(layout))
    ensures Distinct(Names(layout[1..]))
  {
    forall i, j | 0 <= i < j < |layout| - 1 ensures Names(layout[1..])[i] != Names(layout[1..])[j] {
      assert Names(layout)[i + 1] != Names(layout)[j + 1];
    }
  }

  /** Parsing what was built gives back, field by field, the values looked up in d. */
  lemma {:induction false} ParseBuild(layout: Layout, d: Dict<int>)
    requires Build(layout, d).Ok?
    ensures var p := Parse(layout, Build(layout, d).value);
      forall i :: 0 <= i < |layout| ==> p[i].0 == layout[i].0 && Dicts.Get(d, layout[i].0) == Some(p[i].1)
  {
    if layout != [] {
      var w := layout[0].1;
      var v := Dicts.Get(d, layout[0].0).value;
      var bs := Build(layout, d).value;
      var rest := Build(layout[1..], d).value;
      assert bs == EncodeField(w, v) + rest;
      assert bs[..Size(w)] == EncodeField(w, v) && bs[Size(w)..] == rest;
      FieldRoundTrip(w, v);
      ParseBuild(layout[1..], d);
    }
  }

  // ---- reading the events file (read_neurone_events) ----

  /** int(a / b) for a true division: the quotient truncated toward zero. */
  function TruncDiv(a: int, b: int): (q: int)
    requires b != 0
    ensures a >= 0 && b > 0 ==> q == a / b
    ensures (if q < 0 then -q else q) <= (if a < 0 then -a else a)
  {
    var n: nat := if a < 0 then -a else a;
    var d: nat := if b < 0 then -b else b;
    var m := n / d;
    DivNotLarger(n, d);
    assert 0 <= m <= n;
    if (a < 0) != (b < 0) then -m else m
  }

  lemma DivNotLarger(n: nat, d: nat)
    requires d >= 1
    ensures 0 <= n / d <= n
  {
    var q := n / d;
    assert n == d * q + n % d;
    MulNotSmaller(d, q);
  }

  lemma {:induction false} MulNotSmaller(d: nat, q: nat)
    requires d >= 1
    ensures d * q >= q
  {
    if d > 1 {
      MulNotSmaller(d - 1, q);
      assert d * q == (d - 1) * q + q;
    }
  }

  /** The i-th 88-byte record of an events file. */
  function Chunk(file: seq<Byte>, i: nat): (c: seq<Byte>)
    requires i < |file| / 88
    ensures |c| == 88
  {
    file[88 * i .. 88 * i + 88]
  }

  /** del d['RFU' + str(j)] for j from `from` to 5. */
  function DelRfus(d: Dict<int>, from: nat): Result<Dict<int>>
    requires 1 <= from
    decreases 6 - from
  {
    if from > 5 then Ok(d)
    else
      var d1 :- Dicts.Del(d, RfuName(from));
      DelRfus(d1, from + 1)
  }

  /** One pass of the read loop: parse the record, add StartTime and StopTime, drop RFU1..RFU5. */
  function EventDict(chunk: seq<Byte>, rate: int): Result<Dict<int>>
    requires |chunk| == 88 && rate != 0
  {
    EventLayoutSize();
    var e := Parse(EventLayout, chunk);
    EventLayoutIndices();
    var e1 := Dicts.Set(e, "StartTime", TruncDiv(Dicts.Get(e, "StartSampleIndex").value, rate));
    var e2 := Dicts.Set(e1, "StopTime", TruncDiv(Dicts.Get(e, "StopSampleIndex").value, rate));
    DelRfus(e2, 1)
  }

  /**
    What one record reads into: its eleven event fields in layout order, then
    StartTime and StopTime, the sample indices divided by the rate.
  */
  function EventRecord(chunk: seq<Byte>, rate: int): Dict<int>
    requires |chunk| == 88 && rate != 0
  {
    EventLayoutSize();
    var p := Parse(EventLayout, chunk);
    Dicts.Drop(p + EventTimes(p, rate), RfuNames(1))
  }

  /** StartTime and StopTime of a parsed record: its sample indices divided by the rate. */
  function EventTimes(p: Dict<int>, rate: int): (t: Dict<int>)
    requires |p| == 16 && rate != 0
    ensures Keys(t) == ["StartTime", "StopTime"]
  {
    [("StartTime", TruncDiv(p[6].1, rate)), ("StopTime", TruncDiv(p[7].1, rate))]
  }

  lemma EventLayoutNamesLit()
    ensures Names(EventLayout) == [
      "Revision", "RFU1", "Type", "SourcePort", "ChannelNumber", "Code",
      "StartSampleIndex", "StopSampleIndex", "DescriptionLength", "DescriptionOffset",
      "DataLength", "DataOffset", "RFU2", "RFU3", "RFU4", "RFU5"]
  {
  }

  function RfuNames(from: nat): (ns: seq<string>)
    requires 1 <= from
    ensures |ns| == if from > 5 then 0 else 6 - from
    decreases 6 - from
  {
    if from > 5 then [] else [RfuName(from)] + RfuNames(from + 1)
  }

  lemma RfuNameInjective(i: nat, j: nat)
    requires 1 <= i <= 5 && 1 <= j <= 5 && i != j
    ensures RfuName(i) != RfuName(j)
  {
    assert RfuName(i)[3] != RfuName(j)[3];
  }

  /** Deleting RFU<from>..RFU5 from a dict that holds them drops exactly those entries. */
  lemma {:induction false} DelRfusDrop(d: Dict<int>, from: nat)
    requires 1 <= from <= 6 && Dicts.WellFormed(d)
    requires forall j :: from <= j <= 5 ==> RfuName(j) in Keys(d)
    ensures DelRfus(d, from) == Ok(Dicts.Drop(d, RfuNames(from)))
    decreases 6 - from
  {
    if from <= 5 {
      var r := RfuName(from);
      Dicts.DelDrop(d, r);
      var d1 := Dicts.Drop(d, [r]);
      Dicts.DropWellFormed(d, [r]);
      Dicts.KeysDrop(d, [r]);
      forall j | from + 1 <= j <= 5 ensures RfuName(j) in Keys(d1) {
        RfuNameInjective(j, from);
      }
      DelRfusDrop(d1, from + 1);
      Dicts.DropDrop(d, [r], RfuNames(from + 1));
    } else {
      Dicts.DropNone(d, []);
    }
  }

  /** The reserved fields are in the layout, and the two times are new names. */
  lemma EventLayoutRfus()
    ensures forall j :: 1 <= j <= 5 ==> RfuName(j) in Names(EventLayout)
    ensures "StartTime" !in Names(EventLayout) && "StopTime" !in Names(EventLayout)
  {
    var ns := Names(EventLayout);
    EventLayoutNamesLit();
    forall j | 1 <= j <= 5 ensures RfuName(j) in ns {
      var k := if j == 1 then 1 else j + 10;
      assert ns[k] == RfuName(j);
    }
  }

  lemma RfuNamesLit()
    ensures RfuNames(1) == ["RFU1", "RFU2", "RFU3", "RFU4", "RFU5"]
  {
    assert RfuName(1) == "RFU1" && RfuName(2) == "RFU2" && RfuName(3) == "RFU3";
    assert RfuName(4) == "RFU4" && RfuName(5) == "RFU5";
    assert RfuNames(5) == ["RFU5"] && RfuNames(4) == ["RFU4", "RFU5"];
    assert RfuNames(2) == ["RFU2", "RFU3", "RFU4", "RFU5"];
  }

  /** The parsed record with StartTime and StopTime set, before the reserved fields go. */
  lemma EventDictSets(chunk: seq<Byte>, rate: int)
    requires |chunk| == 88 && rate != 0
    ensures LayoutSize(EventLayout) == 88
    ensures var p := Parse(EventLayout, chunk);
      EventDict(chunk, rate) == DelRfus(p + EventTimes(p, rate), 1)
  {
    EventLayoutSize();
    EventLayoutRfus();
    EventLayoutIndices();
    EventLayoutNames();
    var p := Parse(EventLayout, chunk);
    assert p[6].0 == Keys(p)[6] == "StartSampleIndex" && p[7].0 == Keys(p)[7] == "StopSampleIndex";
    Dicts.GetAt(p, 6);
    Dicts.GetAt(p, 7);
    SetTimes(p, TruncDiv(p[6].1, rate), TruncDiv(p[7].1, rate));
  }

  /** Setting two keys a dict lacks appends them, in order. */
  lemma SetTimes(p: Dict<int>, start: int, stop: int)
    requires "StartTime" !in Keys(p) && "StopTime" !in Keys(p)
    ensures Dicts.Set(Dicts.Set(p, "StartTime", start), "StopTime", stop) == p + [("StartTime", start), ("StopTime", stop)]
  {
    var st, sp := ("StartTime", start), ("StopTime", stop);
    Dicts.SetAbsent(p, st.0, st.1);
    Dicts.KeysAppend(p, [st]);
    Dicts.SetAbsent(p + [st], sp.0, sp.1);
    assert p + [st] + [sp] == p + [st, sp];
  }

  /** The read loop's dict operations never fail and leave exactly the record's fields. */
  lemma EventDictValue(chunk: seq<Byte>, rate: int)
    requires |chunk| == 88 && rate != 0
    ensures EventDict(chunk, rate) == Ok(EventRecord(chunk, rate))
  {
    EventDictSets(chunk, rate);
    EventLayoutRfus();
    EventLayoutNames();
    var p := Parse(EventLayout, chunk);
    RecordDrop(p, EventTimes(p, rate));
  }

  /** Deleting the reserved fields from a record that holds them, with the two times appended. */
  lemma RecordDrop(p: Dict<int>, times: Dict<int>)
    requires Dicts.WellFormed(p) && "StartTime" !in Keys(p) && "StopTime" !in Keys(p)
    requires forall j :: 1 <= j <= 5 ==> RfuName(j) in Keys(p)
    requires Keys(times) == ["StartTime", "StopTime"]
    ensures DelRfus(p + times, 1) == Ok(Dicts.Drop(p + times, RfuNames(1)))
  {
    Dicts.WellFormedAppend(p, times);
    Dicts.KeysAppend(p, times);
    DelRfusDrop(p + times, 1);
  }

  /** The layout's names: Revision, RFU1, the other event fields, then RFU2..RFU5. */
  lemma EventLayoutSplit()
    ensures Names(EventLayout) == ["Revision"] + [RfuName(1)] + EventFields[1..] + RfuNames(1)[1..]
  {
    EventLayoutNamesLit();
    RfuNamesLit();
  }

  /** A record's dict: its first field, the ten fields after RFU1, then the two times. */
  lemma EventRecordShape(chunk: seq<Byte>, rate: int)
    requires |chunk| == 88 && rate != 0
    ensures LayoutSize(EventLayout) == 88
    ensures var p := Parse(EventLayout, chunk);
      EventRecord(chunk, rate) == [p[0]] + p[2..12] + EventTimes(p, rate)
  {
    EventLayoutSize();
    EventLayoutReserved();
    var p := Parse(EventLayout, chunk);
    RecordShape(p, EventTimes(p, rate));
  }

  lemma RecordShape(p: Dict<int>, times: Dict<int>)
    requires |p| == 16 && Keys(times) == ["StartTime", "StopTime"]
    requires Keys(p)[0] !in RfuNames(1) && Keys(p)[1] in RfuNames(1)
    requires forall i :: 2 <= i < 12 ==> Keys(p)[i] !in RfuNames(1)
    requires forall i :: 12 <= i < 16 ==> Keys(p)[i] in RfuNames(1)
    ensures Dicts.Drop(p + times, RfuNames(1)) == [p[0]] + p[2..12] + times
  {
    var ns := RfuNames(1);
    RfuNamesLit();
    var a, b, c, d := p[..1], p[1..2], p[2..12], p[12..];
    assert p == a + b + c + d;
    Dicts.KeysSlice(p, 0, 1);
    Dicts.KeysSlice(p, 1, 2);
    Dicts.KeysSlice(p, 2, 12);
    Dicts.KeysSlice(p, 12, 16);
    assert d == p[12..16];
    Dicts.DropNone(a, ns);
    Dicts.DropAll(b, ns);
    Dicts.DropNone(c, ns);
    Dicts.DropAll(d, ns);
    Dicts.DropNone(times, ns);
    DropFour(a, b, c, d, times, ns);
    assert a == [p[0]];
  }

  /** Dropping from five concatenated parts, of which the second and fourth vanish. */
  lemma DropFour(a: Dict<int>, b: Dict<int>, c: Dict<int>, d: Dict<int>, t: Dict<int>, ns: seq<string>)
    requires Dicts.Drop(a, ns) == a && Dicts.Drop(b, ns) == [] && Dicts.Drop(c, ns) == c
    requires Dicts.Drop(d, ns) == [] && Dicts.Drop(t, ns) == t
    ensures Dicts.Drop(a + b + c + d + t, ns) == a + c + t
  {
    var x := a + b;
    var y := x + c;
    var z := y + d;
    Dicts.DropAppend(a, b, ns);
    assert Dicts.Drop(x, ns) == a;
    Dicts.DropAppend(x, c, ns);
    assert Dicts.Drop(y, ns) == a + c;
    Dicts.DropAppend(y, d, ns);
    assert Dicts.Drop(z, ns) == a + c;
    Dicts.DropAppend(z, t, ns);
    assert a + b + c + d + t == z + t;
  }

  /** Which layout positions hold reserved fields. */
  lemma EventLayoutReserved()
    ensures var ns, names := RfuNames(1), Names(EventLayout);
      && names[0] !in ns && names[1] in ns
      && (forall i :: 2 <= i < 12 ==> names[i] !in ns)
      && (forall i :: 12 <= i < 16 ==> names[i] in ns)
  {
    EventLayoutNamesLit();
    RfuNamesLit();
  }

  /** The record's keys are the table's column names, each once. */
  lemma EventRecordKeys(chunk: seq<Byte>, rate: int)
    requires |chunk| == 88 && rate != 0
    ensures Keys(EventRecord(chunk, rate)) == TableNames
    ensures Dicts.WellFormed(EventRecord(chunk, rate))
  {
    EventRecordShape(chunk, rate);
    EventLayoutFields();
    TableNamesDistinct();
    var p := Parse(EventLayout, chunk);
    ShapeKeys(p, EventTimes(p, rate));
  }

  lemma ShapeKeys(p: Dict<int>, times: Dict<int>)
    requires |p| == 16 && Keys(times) == ["StartTime", "StopTime"]
    requires Keys(p)[0] == EventFields[0] && Keys(p)[2..12] == EventFields[1..]
    ensures Keys([p[0]] + p[2..12] + times) == TableNames
  {
    Dicts.KeysAppend([p[0]] + p[2..12], times);
    Dicts.KeysAppend([p[0]], p[2..12]);
    Dicts.KeysSlice(p, 2, 12);
    assert EventFields == [EventFields[0]] + EventFields[1..];
  }

  lemma EventLayoutFields()
    ensures Names(EventLayout)[0] == EventFields[0] && Names(EventLayout)[2..12] == EventFields[1..]
  {
    EventLayoutNamesLit();
    var names := Names(EventLayout);
    forall i | 0 <= i < 10 ensures names[2..12][i] == EventFields[1..][i] {
      assert names[2..12][i] == names[i + 2] && EventFields[1..][i] == EventFields[i + 1];
    }
  }

  lemma TableNamesDistinct()
    ensures Distinct(TableNames)
  {
  }

  /** The events list of a whole file, one record per 88 bytes; trailing bytes are ignored. */
  function Events(file: seq<Byte>, rate: int): (es: seq<Dict<int>>)
    requires |file| / 88 > 0 ==> rate != 0
    ensures |es| == |file| / 88
  {
    seq(|file| / 88, i requires 0 <= i < |file| / 88 => EventRecord(Chunk(file, i), rate))
  }

  /** The two integer column types of the event table. */
  datatype Column = Int32Col | Int64Col

  predicate ColumnFits(c: Column, v: int) {
    if c == Int32Col then -0x8000_0000 <= v < 0x8000_0000
    else -0x8000_0000_0000_0000 <= v < 0x8000_0000_0000_0000
  }

  /** events_dtype: the eleven event fields, then StartTime and StopTime. */
  const EventDtype: seq<(string, Column)> := [
    ("Revision", Int32Col), ("Type", Int32Col), ("SourcePort", Int32Col),
    ("ChannelNumber", Int32Col), ("Code", Int32Col),
    ("StartSampleIndex", Int64Col), ("StopSampleIndex", Int64Col),
    ("DescriptionLength", Int64Col), ("DescriptionOffset", Int64Col),
    ("DataLength", Int64Col), ("DataOffset", Int64Col),
    ("StartTime", Int64Col), ("StopTime", Int64Col)]

  const TableNames: seq<string> := EventFields + ["StartTime", "StopTime"]

  /** tuple([e[k] for k in keylist]) */
  function RowOf(e: Dict<int>, keylist: seq<string>): (r: Result<seq<int>>)
    ensures r.Ok? ==> |r.value| == |keylist|
    ensures r.Ok? ==> forall k :: 0 <= k < |keylist| ==> Dicts.Get(e, keylist[k]) == Some(r.value[k])
  {
    if keylist == [] then Ok([])
    else
      match Dicts.Get(e, keylist[0])
      case None => Err(KeyError(keylist[0]))
      case Some(v) =>
        var rest :- RowOf(e, keylist[1..]);
        Ok([v] + rest)
  }

  function Rows(events: seq<Dict<int>>, keylist: seq<string>): (r: Result<seq<seq<int>>>)
    ensures r.Ok? ==> |r.value| == |events|
    ensures r.Ok? ==> forall i :: 0 <= i < |events| ==> RowOf(events[i], keylist) == Ok(r.value[i])
  {
    if events == [] then Ok([])
    else
      var row :- RowOf(events[0], keylist);
      var rest :- Rows(events[1..], keylist);
      Ok([row] + rest)
  }

  /** Whether every value of a row fits its column of the dtype. */
  predicate RowFits(row: seq<int>) {
    forall c :: 0 <= c < |EventDtype| && c < |row| ==> ColumnFits(EventDtype[c].1, row[c])
  }

  predicate AllFit(rows: seq<seq<int>>) {
    forall i :: 0 <= i < |rows| ==> RowFits(rows[i])
  }

  /**
    The table built from the event dicts: the keys of the first event give the
    column order (IndexError when there is none), and np.array stores each row
    into the dtype, failing on a value its column cannot hold.
  */
  function ToTable(events: seq<Dict<int>>): Result<seq<seq<int>>> {
    if events == [] then Err(IndexError)
    else
      var keylist := Keys(events[0]);
      var rows :- Rows(events, keylist);
      if |keylist| != |EventDtype| then Err(ValueError)
      else if !AllFit(rows) then Err(OverflowError)
      else Ok(rows)
  }

  /** In a dict, looking up every key in order gives back its values. */
  lemma {:induction false} RowOfKeys(e: Dict<int>, m: nat)
    requires Dicts.WellFormed(e) && m <= |e|
    ensures RowOf(e, Keys(e)[m..]) == Ok(Dicts.Values(e)[m..])
    decreases |e| - m
  {
    if m < |e| {
      RowOfKeys(e, m + 1);
      assert Keys(e)[m..][0] == e[m].0 && Keys(e)[m..][1..] == Keys(e)[m + 1..];
      Dicts.GetAt(e, m);
      assert Dicts.Values(e)[m..] == [e[m].1] + Dicts.Values(e)[m + 1..];
    } else {
      assert Keys(e)[m..] == [] && Dicts.Values(e)[m..] == [];
    }
  }

  /** When every event holds exactly the given keys, the rows are the events' values. */
  lemma {:induction false} RowsOfValues(events: seq<Dict<int>>, keylist: seq<string>)
    requires forall i :: 0 <= i < |events| ==> Dicts.WellFormed(events[i]) && Keys(events[i]) == keylist
    ensures Rows(events, keylist).Ok?
    ensures forall i :: 0 <= i < |events| ==> Rows(events, keylist).value[i] == Dicts.Values(events[i])
  {
    if events != [] {
      RowOfKeys(events[0], 0);
      assert Keys(events[0])[0..] == keylist && Dicts.Values(events[0])[0..] == Dicts.Values(events[0]);
      RowsOfValues(events[1..], keylist);
    }
    forall i | 0 <= i < |events| ensures Rows(events, keylist).value[i] == Dicts.Values(events[i]) {
      RowOfKeys(events[i], 0);
      assert Keys(events[i])[0..] == keylist && Dicts.Values(events[i])[0..] == Dicts.Values(events[i]);
    }
  }

  /** read_neurone_events on the bytes of events.bin and a sampling rate. */
  function DecodeEventsF(file: seq<Byte>, rate: int): Result<seq<seq<int>>> {
    if |file| / 88 > 0 && rate == 0 then Err(ZeroDivisionError)
    else ToTable(Events(file, rate))
  }
  /** The rows the table holds: one per record, its values in column order. */
  function EventRows(file: seq<Byte>, rate: int): (rows: seq<seq<int>>)
    requires |file| / 88 > 0 ==> rate != 0
    ensures |rows| == |file| / 88
  {
    seq(|file| / 88, i requires 0 <= i < |file| / 88 => Dicts.Values(EventRecord(Chunk(file, i), rate)))
  }

  /** Whether the six unsigned fields of every row are below 2^63, the int64 limit. */
  predicate UnsignedInRange(rows: seq<seq<int>>) {
    forall i, c :: 0 <= i < |rows| && 5 <= c < 11 && c < |rows[i]| ==> rows[i][c] < 0x8000_0000_0000_0000
  }

  /**
    What read_neurone_events returns: IndexError for a file shorter than one record,
    ZeroDivisionError for a zero rate, and otherwise one row per record, or OverflowError
    when an unsigned field does not fit the table's signed 64-bit column.
  */
  lemma DecodeEvents(file: seq<Byte>, rate: int)
    ensures |file| < 88 ==> DecodeEventsF(file, rate) == Err(IndexError)
    ensures |file| >= 88 && rate == 0 ==> DecodeEventsF(file, rate) == Err(ZeroDivisionError)
    ensures |file| >= 88 && rate != 0 ==>
      var rows := EventRows(file, rate);
      DecodeEventsF(file, rate) ==
        if UnsignedInRange(rows) then Ok(rows) else Err(OverflowError)
  {
    if |file| >= 88 && rate != 0 {
      EventsTable(file, rate);
      EventRowsFit(file, rate);
    }
  }

  /** Every record holds the table's columns, so the rows are the records' values. */
  lemma EventsTable(file: seq<Byte>, rate: int)
    requires |file| >= 88 && rate != 0
    ensures Keys(Events(file, rate)[0]) == TableNames
    ensures Rows(Events(file, rate), TableNames) == Ok(EventRows(file, rate))
  {
    var events := Events(file, rate);
    var rows := EventRows(file, rate);
    forall i | 0 <= i < |events| ensures Dicts.WellFormed(events[i]) && Keys(events[i]) == TableNames {
      EventRecordKeys(Chunk(file, i), rate);
    }
    RowsOfValues(events, TableNames);
    assert Rows(events, TableNames).value == rows;
  }

  lemma EventRowsFit(file: seq<Byte>, rate: int)
    requires |file| >= 88 && rate != 0
    ensures var rows := EventRows(file, rate);
      AllFit(rows) <==> UnsignedInRange(rows)
  {
    var rows := EventRows(file, rate);
    forall i | 0 <= i < |rows|
      ensures |rows[i]| == 13 && (RowFits(rows[i]) <==> forall c :: 5 <= c < 11 ==> rows[i][c] < 0x8000_0000_0000_0000)
    {
      EventRowFits(Chunk(file, i), rate);
    }
  }

  /** A row fits the dtype exactly when its six unsigned fields are below 2^63. */
  lemma EventRowFits(chunk: seq<Byte>, rate: int)
    requires |chunk| == 88 && rate != 0
    ensures var row := Dicts.Values(EventRecord(chunk, rate));
      |row| == 13 && (RowFits(row) <==> forall c :: 5 <= c < 11 ==> row[c] < 0x8000_0000_0000_0000)
  {
    EventRecordShape(chunk, rate);
    var p := Parse(EventLayout, chunk);
    RowFitsOf(p, rate);
  }

  lemma RowFitsOf(p: Dict<int>, rate: int)
    requires |p| == 16 && rate != 0
    requires forall i :: 0 <= i < 16 ==> Fits(EventLayout[i].1, p[i].1)
    ensures var row := Dicts.Values([p[0]] + p[2..12] + EventTimes(p, rate));
      |row| == 13 && (RowFits(row) <==> forall c :: 5 <= c < 11 ==> row[c] < 0x8000_0000_0000_0000)
  {
    var row := Dicts.Values([p[0]] + p[2..12] + EventTimes(p, rate));
    EventWidths();
    forall c | 0 <= c < 11 ensures row[c] == p[if c == 0 then 0 else c + 1].1 {
    }
    assert row[11] == TruncDiv(p[6].1, rate) && row[12] == TruncDiv(p[7].1, rate);
    RowFitsValues(row);
  }

  lemma EventWidths()
    ensures forall i :: 0 <= i < 6 ==> EventLayout[i].1 == I32
    ensures forall i :: 6 <= i < 12 ==> EventLayout[i].1 == U64
  {
  }

  /** Which rows fit, in terms of the values the fields can hold. */
  lemma RowFitsValues(row: seq<int>)
    requires |row| == 13
    requires forall c :: 0 <= c < 5 ==> -0x8000_0000 <= row[c] < 0x8000_0000
    requires forall c :: 5 <= c < 11 ==> 0 <= row[c]
    requires (if row[11] < 0 then -row[11] else row[11]) <= row[5]
    requires (if row[12] < 0 then -row[12] else row[12]) <= row[6]
    ensures RowFits(row) <==> forall c :: 5 <= c < 11 ==> row[c] < 0x8000_0000_0000_0000
  {
    assert forall c :: 0 <= c < 5 ==> EventDtype[c].1 == Int32Col;
    assert forall c :: 5 <= c < 13 ==> EventDtype[c].1 == Int64Col;
  }

  /** One pass of the read loop of read_neurone_events, on the record's 88 bytes. */
  method ReadEvent(chunk: seq<Byte>, rate: int) returns (e: Dict<int>)
    requires |chunk| == 88 && rate != 0
    ensures e == EventRecord(chunk, rate)
  {
    EventDictValue(chunk, rate);
    EventLayoutSize();
    var parsed := Parse(EventLayout, chunk);
    EventLayoutIndices();
    e := Dicts.Set(parsed, "StartTime", TruncDiv(Dicts.Get(parsed, "StartSampleIndex").value, rate));
    e := Dicts.Set(e, "StopTime", TruncDiv(Dicts.Get(parsed, "StopSampleIndex").value, rate));
    ghost var full := e;
    var j := 0;
    while j < 5
      invariant 0 <= j <= 5
      invariant DelRfus(full, 1) == DelRfus(e, j + 1)
    {
      var res := Dicts.Del(e, RfuName(j + 1));
      e := res.value;
      j := j + 1;
    }
  }

  method ReadNeuroneEvents(file: seq<Byte>, rate: int) returns (r: Result<seq<seq<int>>>)
    ensures r == DecodeEventsF(file, rate)
  {
    var n := |file| / 88;
    var events: seq<Dict<int>> := seq(n, _ => []);
    var i := 0;
    while i < n
      invariant 0 <= i <= n && |events| == n
      invariant i > 0 ==> rate != 0
      invariant forall k :: 0 <= k < i ==> events[k] == EventRecord(Chunk(file, k), rate)
    {
      if rate == 0 {
        return Err(ZeroDivisionError);
      }
      var e := ReadEvent(Chunk(file, i), rate);
      events := events[i := e];
      i := i + 1;
    }
    assert n > 0 ==> events == Events(file, rate);
    r := ToTable(events);
  }

  // ---- writing events (write_neurone_events) ----

  /** What a writer leaves behind: the bytes in the file, and whether it stopped on an error. */
  datatype Written = Written(bytes: seq<Byte>, outcome: Outcome)

  /** The event after e['RFU' + str(k)] = 0 for k = 1..j. */
  function ZeroRfus(e: Dict<int>, j: nat): Dict<int>
    requires j <= 5
  {
    if j == 0 then e else Dicts.Set(ZeroRfus(e, j - 1), RfuName(j), 0)
  }

  /** Zeroing the reserved fields leaves every other field as it was. */
  lemma {:induction false} ZeroRfusOther(e: Dict<int>, j: nat, n: string)
    requires j <= 5
    requires forall k :: 1 <= k <= j ==> n != RfuName(k)
    ensures Dicts.Get(ZeroRfus(e, j), n) == Dicts.Get(e, n)
  {
    if j > 0 {
      ZeroRfusOther(e, j - 1, n);
    }
  }

  /** A zeroed reserved field stays 0 through the later passes. */
  lemma {:induction false} ZeroRfusZero(e: Dict<int>, j: nat, k: nat)
    requires 1 <= k <= j <= 5
    ensures Dicts.Get(ZeroRfus(e, j), RfuName(k)) == Some(0)
  {
    if k < j {
      RfuNameInjective(k, j);
      ZeroRfusZero(e, j - 1, k);
    }
  }

  /** None of the eleven event fields is a reserved one. */
  lemma EventFieldsNotRfu()
    ensures forall m, k :: 0 <= m < 11 && 1 <= k <= 5 ==> EventFields[m] != RfuName(k)
  {
    forall m, k | 0 <= m < 11 && 1 <= k <= 5 ensures EventFields[m] != RfuName(k) {
      var r := RfuName(k);
      assert |r| == 4 && r[0] == 'R' && r[1] == 'F';
    }
  }

  /** The layout kind of the m-th event field: the first five are int32, the rest uint64. */
  function FieldWidth(m: nat): Width {
    if m < 5 then I32 else U64
  }

  /** The layout position of the m-th event field: RFU1 sits at position 1. */
  function FieldPos(m: nat): nat {
    if m == 0 then 0 else m + 1
  }

  lemma EventFieldPositions()
    ensures forall m :: 0 <= m < 11 ==>
      EventLayout[FieldPos(m)].0 == EventFields[m] && EventLayout[FieldPos(m)].1 == FieldWidth(m)
  {
    EventLayoutFields();
    EventWidths();
    forall m | 0 <= m < 11 ensures EventLayout[FieldPos(m)].0 == EventFields[m] {
      assert EventLayout[FieldPos(m)].0 == Names(EventLayout)[FieldPos(m)];
      if m > 0 {
        assert Names(EventLayout)[2..12][m - 1] == EventFields[1..][m - 1];
      }
    }
  }

  /** Whether construct can build the event: its eleven fields are present and in range. */
  predicate EventFits(e: Dict<int>) {
    forall m :: 0 <= m < 11 ==>
      Dicts.Get(e, EventFields[m]).Some? && Fits(FieldWidth(m), Dicts.Get(e, EventFields[m]).value)
  }

  /** format.build of the event once RFU1..RFU5 have all been set to 0. */
  function EncodeEvent(e: Dict<int>): (r: Result<seq<Byte>>)
    ensures r.Ok? ==> |r.value| == 88
  {
    EventLayoutSize();
    Build(EventLayout, ZeroRfus(e, 5))
  }

  /** Every reserved name reads 0 once all five passes are done. */
  lemma ZeroRfusReserved(e: Dict<int>, n: string)
    requires n in RfuNames(1)
    ensures Dicts.Get(ZeroRfus(e, 5), n) == Some(0)
  {
    RfuNamesLit();
    var k := if n == "RFU1" then 1 else if n == "RFU2" then 2 else if n == "RFU3" then 3
      else if n == "RFU4" then 4 else 5;
    assert n == RfuName(k);
    ZeroRfusZero(e, 5, k);
  }

  /** After the five passes the event fields are unchanged and every reserved field reads 0. */
  lemma ZeroRfusFacts(e: Dict<int>)
    ensures var z := ZeroRfus(e, 5);
      && (forall m :: 0 <= m < 11 ==> Dicts.Get(z, EventFields[m]) == Dicts.Get(e, EventFields[m]))
      && (forall n :: n in RfuNames(1) ==> Dicts.Get(z, n) == Some(0))
  {
    EventFieldsNotRfu();
    forall m | 0 <= m < 11 ensures Dicts.Get(ZeroRfus(e, 5), EventFields[m]) == Dicts.Get(e, EventFields[m]) {
      ZeroRfusOther(e, 5, EventFields[m]);
    }
    forall n | n in RfuNames(1) ensures Dicts.Get(ZeroRfus(e, 5), n) == Some(0) {
      ZeroRfusReserved(e, n);
    }
  }

  /** Where the event layout keeps the eleven event fields and the reserved ones. */
  predicate EventShaped(l: Layout) {
    && |l| == 16
    && (forall m :: 0 <= m < 11 ==> l[FieldPos(m)] == (EventFields[m], FieldWidth(m)))
    && (forall i :: 0 <= i < 16 && (i == 1 || 12 <= i) ==> l[i].0 in RfuNames(1) && l[i].1 == I32)
  }

  lemma EventLayoutShaped()
    ensures EventShaped(EventLayout)
  {
    EventFieldPositions();
    EventLayoutReserved();
    EventWidths();
    forall i | 0 <= i < 16 && (i == 1 || 12 <= i) ensures EventLayout[i].0 in RfuNames(1) {
      assert EventLayout[i].0 == Names(EventLayout)[i];
    }
  }

  /** A dict whose event fields are e's and whose reserved fields are 0 builds exactly when e fits. */
  lemma BuildZeroed(l: Layout, z: Dict<int>, e: Dict<int>)
    requires EventShaped(l)
    requires forall m :: 0 <= m < 11 ==> Dicts.Get(z, EventFields[m]) == Dicts.Get(e, EventFields[m])
    requires forall n :: n in RfuNames(1) ==> Dicts.Get(z, n) == Some(0)
    ensures Build(l, z).Ok? <==> EventFits(e)
  {
    BuildOk(l, z);
    if EventFits(e) {
      forall i | 0 <= i < |l| ensures l[i].0 in Keys(z) && Fits(l[i].1, Dicts.Get(z, l[i].0).value) {
        if i != 1 && i < 12 {
          var m := if i == 0 then 0 else i - 1;
          assert FieldPos(m) == i;
        }
      }
    } else {
      var m :| 0 <= m < 11 && !(Dicts.Get(e, EventFields[m]).Some? && Fits(FieldWidth(m), Dicts.Get(e, EventFields[m]).value));
      assert l[FieldPos(m)].0 == EventFields[m];
    }
  }

  /** An event encodes exactly when its eleven fields are present and in range. */
  lemma EncodeEventOk(e: Dict<int>)
    ensures EncodeEvent(e).Ok? <==> EventFits(e)
  {
    ZeroRfusFacts(e);
    EventLayoutShaped();
    BuildZeroed(EventLayout, ZeroRfus(e, 5), e);
  }

  /**
    What a writer leaves in the file after building each of the encodings in turn and
    writing the ones that succeed: it stops at the first failure, which propagates.
  */
  function WriteAll(encodings: seq<Result<seq<Byte>>>): Written {
    if encodings == [] then Written([], Pass)
    else
      var prev := WriteAll(encodings[..|encodings| - 1]);
      if prev.outcome.Fail? then prev
      else
        match encodings[|encodings| - 1]
        case Err(x) => Written(prev.bytes, Fail(x))
        case Ok(b) => Written(prev.bytes + b, Pass)
  }

  /** The writer finishes exactly when every encoding succeeds. */
  lemma {:induction false} WriteAllOk(encodings: seq<Result<seq<Byte>>>)
    ensures WriteAll(encodings).outcome.Pass? <==> forall i :: 0 <= i < |encodings| ==> encodings[i].Ok?
  {
    if encodings != [] {
      var short := encodings[..|encodings| - 1];
      WriteAllOk(short);
      assert forall i :: 0 <= i < |short| ==> short[i] == encodings[i];
    }
  }

  /** The first failing encoding ends the file: what came before it, and its error. */
  lemma {:induction false} WriteAllStops(encodings: seq<Result<seq<Byte>>>, k: nat)
    requires k < |encodings| && encodings[k].Err?
    requires forall i :: 0 <= i < k ==> encodings[i].Ok?
    ensures WriteAll(encodings) == Written(WriteAll(encodings[..k]).bytes, Fail(encodings[k].error))
  {
    var n := |encodings|;
    var short := encodings[..n - 1];
    if k < n - 1 {
      assert short[..k] == encodings[..k];
      WriteAllStops(short, k);
    } else {
      assert short == encodings[..k];
      WriteAllOk(short);
    }
  }

  /** Writing one more encoding after a prefix that succeeded. */
  lemma WriteAllStep(encodings: seq<Result<seq<Byte>>>, k: nat)
    requires k < |encodings| && WriteAll(encodings[..k]).outcome.Pass?
    ensures WriteAll(encodings[..k + 1]) == match encodings[k]
      case Err(x) => Written(WriteAll(encodings[..k]).bytes, Fail(x))
      case Ok(b) => Written(WriteAll(encodings[..k]).bytes + b, Pass)
  {
    assert encodings[..k + 1][..k] == encodings[..k];
  }

  /** A successful build at position k appends its bytes to the file written so far. */
  lemma WriteAllExtends(encodings: seq<Result<seq<Byte>>>, k: nat, bytes: seq<Byte>)
    requires k < |encodings| && WriteAll(encodings[..k]) == Written(bytes, Pass) && encodings[k].Ok?
    ensures WriteAll(encodings[..k + 1]) == Written(bytes + encodings[k].value, Pass)
  {
    WriteAllStep(encodings, k);
  }

  /** A failing build at position k is where the whole run stops. */
  lemma WriteAllStopsAt(encodings: seq<Result<seq<Byte>>>, k: nat, bytes: seq<Byte>)
    requires k < |encodings| && WriteAll(encodings[..k]) == Written(bytes, Pass) && encodings[k].Err?
    ensures WriteAll(encodings) == Written(bytes, Fail(encodings[k].error))
  {
    WriteAllStep(encodings, k);
    WriteAllStaysFailed(encodings, k + 1);
  }

  /** Once a prefix of the encodings fails, the rest are never written. */
  lemma {:induction false} WriteAllStaysFailed(encodings: seq<Result<seq<Byte>>>, i: nat)
    requires i <= |encodings| && WriteAll(encodings[..i]).outcome.Fail?
    ensures WriteAll(encodings) == WriteAll(encodings[..i])
  {
    if i < |encodings| {
      var short := encodings[..|encodings| - 1];
      assert short[..i] == encodings[..i];
      WriteAllStaysFailed(short, i);
    } else {
      assert encodings[..i] == encodings;
    }
  }

  /** How many builds a writer makes: every one, or those up to and including the first that fails. */
  function Attempted(encodings: seq<Result<seq<Byte>>>): (n: nat)
    ensures n <= |encodings|
  {
    if encodings == [] then 0 else if encodings[0].Err? then 1 else 1 + Attempted(encodings[1..])
  }

  /** A first failure at position k means k + 1 builds. */
  lemma {:induction false} AttemptedAt(encodings: seq<Result<seq<Byte>>>, k: nat)
    requires k < |encodings| && encodings[k].Err?
    requires forall i :: 0 <= i < k ==> encodings[i].Ok?
    ensures Attempted(encodings) == k + 1
  {
    if k > 0 {
      assert encodings[0].Ok?;
      forall i | 0 <= i < k - 1 ensures encodings[1..][i].Ok? {
        assert encodings[1..][i] == encodings[i + 1];
      }
      AttemptedAt(encodings[1..], k - 1);
    }
  }

  /** With no failure every build is made. */
  lemma {:induction false} AttemptedAll(encodings: seq<Result<seq<Byte>>>)
    requires forall i :: 0 <= i < |encodings| ==> encodings[i].Ok?
    ensures Attempted(encodings) == |encodings|
  {
    if encodings != [] {
      assert encodings[0].Ok?;
      forall i | 0 <= i < |encodings| - 1 ensures encodings[1..][i].Ok? {
        assert encodings[1..][i] == encodings[i + 1];
      }
      AttemptedAll(encodings[1..]);
    }
  }

  /** A failing build after a prefix that was written is the last one made. */
  lemma AttemptedStopsAt(encodings: seq<Result<seq<Byte>>>, k: nat, bytes: seq<Byte>)
    requires k < |encodings| && WriteAll(encodings[..k]) == Written(bytes, Pass) && encodings[k].Err?
    ensures WriteAll(encodings) == Written(bytes, Fail(encodings[k].error))
    ensures Attempted(encodings) == k + 1
  {
    WriteAllStopsAt(encodings, k, bytes);
    WriteAllOk(encodings[..k]);
    assert forall i :: 0 <= i < k ==> encodings[..k][i] == encodings[i];
    AttemptedAt(encodings, k);
  }

  /**
    The builds a writer makes: all of them when it finishes; when it stops, those up to
    the failing one, every earlier one having succeeded.
  */
  lemma AttemptedSpec(encodings: seq<Result<seq<Byte>>>)
    ensures WriteAll(encodings).outcome.Pass? ==> Attempted(encodings) == |encodings|
    ensures WriteAll(encodings).outcome.Fail? ==>
      && 0 < Attempted(encodings)
      && encodings[Attempted(encodings) - 1].Err?
      && forall i :: 0 <= i < Attempted(encodings) - 1 ==> encodings[i].Ok?
  {
    WriteAllOk(encodings);
    if WriteAll(encodings).outcome.Pass? {
      AttemptedAll(encodings);
    } else {
      AttemptedFirst(encodings);
    }
  }

  lemma {:induction false} AttemptedFirst(encodings: seq<Result<seq<Byte>>>)
    requires exists i :: 0 <= i < |encodings| && encodings[i].Err?
    ensures 0 < Attempted(encodings) && encodings[Attempted(encodings) - 1].Err?
    ensures forall i :: 0 <= i < Attempted(encodings) - 1 ==> encodings[i].Ok?
  {
    if encodings[0].Ok? {
      var i :| 0 <= i < |encodings| && encodings[i].Err?;
      assert encodings[1..][i - 1] == encodings[i];
      AttemptedFirst(encodings[1..]);
      forall j | 0 <= j < Attempted(encodings) - 1 ensures encodings[j].Ok? {
        if j > 0 {
          assert encodings[1..][j - 1] == encodings[j];
        }
      }
    }
  }

  /** When every encoding is one 88-byte record, the file is those records back to back. */
  lemma {:induction false} WriteAllChunks(encodings: seq<Result<seq<Byte>>>)
    requires forall i :: 0 <= i < |encodings| ==> encodings[i].Ok? && |encodings[i].value| == 88
    ensures WriteAll(encodings).outcome.Pass?
    ensures |WriteAll(encodings).bytes| == 88 * |encodings|
    ensures forall i :: 0 <= i < |encodings| ==> Chunk(WriteAll(encodings).bytes, i) == encodings[i].value
  {
    if encodings != [] {
      var n := |encodings|;
      var short := encodings[..n - 1];
      WriteAllChunks(short);
      var prev := WriteAll(short).bytes;
      var bs := WriteAll(encodings).bytes;
      assert bs == prev + encodings[n - 1].value;
      forall i | 0 <= i < n ensures Chunk(bs, i) == encodings[i].value {
        if i < n - 1 {
          assert short[i] == encodings[i];
          assert Chunk(bs, i) == Chunk(prev, i);
        } else {
          assert Chunk(bs, i) == bs[|prev|..];
        }
      }
    }
  }

  /** A writer whose every successful build is one record writes 88 bytes per build when it finishes. */
  lemma WriteAllRecords(encodings: seq<Result<seq<Byte>>>)
    requires forall i :: 0 <= i < |encodings| && encodings[i].Ok? ==> |encodings[i].value| == 88
    ensures WriteAll(encodings).outcome.Pass? ==> |WriteAll(encodings).bytes| == 88 * |encodings|
  {
    WriteAllOk(encodings);
    if WriteAll(encodings).outcome.Pass? {
      WriteAllChunks(encodings);
    }
  }

  /** The builds the intended writer makes over a layout: each event once, reserved fields zeroed. */
  function EncodingsWith(format: Layout, events: seq<Dict<int>>): (r: seq<Result<seq<Byte>>>)
    ensures |r| == |events|
  {
    seq(|events|, i requires 0 <= i < |events| => Build(format, ZeroRfus(events[i], 5)))
  }

  /** The encodings the intended writer tries, with the event format. */
  function Encodings(events: seq<Dict<int>>): (r: seq<Result<seq<Byte>>>)
    ensures |r| == |events|
    ensures forall i :: 0 <= i < |events| ==> r[i] == EncodeEvent(events[i])
  {
    EncodingsWith(EventLayout, events)
  }

  /** The file the intended writer produces. */
  function EncodedEvents(events: seq<Dict<int>>): Written {
    WriteAll(Encodings(events))
  }

  /** The writer finishes exactly when every event can be built, and then writes 88 bytes per event. */
  lemma WriteEventsOk(events: seq<Dict<int>>)
    ensures EncodedEvents(events).outcome.Pass? <==> forall i :: 0 <= i < |events| ==> EventFits(events[i])
    ensures EncodedEvents(events).outcome.Pass? ==> |EncodedEvents(events).bytes| == 88 * |events|
  {
    var encs := Encodings(events);
    forall i | 0 <= i < |events|
      ensures (encs[i].Ok? <==> EventFits(events[i])) && (encs[i].Ok? ==> |encs[i].value| == 88)
    {
      EncodingOk(events, i);
    }
    WriteAllOk(encs);
    WriteAllRecords(encs);
  }

  /** The i-th encoding succeeds exactly when the i-th event fits, and is then one record. */
  lemma EncodingOk(events: seq<Dict<int>>, i: nat)
    requires i < |events|
    ensures Encodings(events)[i].Ok? <==> EventFits(events[i])
    ensures Encodings(events)[i].Ok? ==> |Encodings(events)[i].value| == 88
  {
    EncodeEventOk(events[i]);
  }

  /** The row the event table holds for an event: its eleven fields, then the two times. */
  function FieldRow(e: Dict<int>, rate: int): (row: seq<int>)
    requires EventFits(e) && rate != 0
    ensures |row| == 13
  {
    var vs := seq(11, m requires 0 <= m < 11 => Dicts.Get(e, EventFields[m]).value);
    vs + [TruncDiv(vs[5], rate), TruncDiv(vs[6], rate)]
  }

  /** Decoding an encoded event gives back its fields and the times of its sample indices. */
  lemma EncodeDecodeEvent(e: Dict<int>, rate: int)
    requires EventFits(e) && rate != 0
    ensures EncodeEvent(e).Ok? && |EncodeEvent(e).value| == 88
    ensures Dicts.Values(EventRecord(EncodeEvent(e).value, rate)) == FieldRow(e, rate)
  {
    ZeroRfusFacts(e);
    EventLayoutShaped();
    BuildZeroed(EventLayout, ZeroRfus(e, 5), e);
    DecodeZeroed(EventLayout, ZeroRfus(e, 5), e, rate);
  }

  lemma DecodeZeroed(l: Layout, z: Dict<int>, e: Dict<int>, rate: int)
    requires l == EventLayout && EventFits(e) && rate != 0
    requires forall m :: 0 <= m < 11 ==> Dicts.Get(z, EventFields[m]) == Dicts.Get(e, EventFields[m])
    requires Build(l, z).Ok?
    ensures LayoutSize(l) == 88
    ensures Dicts.Values(EventRecord(Build(l, z).value, rate)) == FieldRow(e, rate)
  {
    var bs := Build(l, z).value;
    EventLayoutSize();
    var p := Parse(l, bs);
    ParseBuild(l, z);
    EventRecordShape(bs, rate);
    EventLayoutShaped();
    forall m | 0 <= m < 11 ensures Dicts.Get(e, EventFields[m]) == Some(p[FieldPos(m)].1) {
      assert l[FieldPos(m)].0 == EventFields[m];
    }
    ParsedRow(p, e, rate);
  }

  /** The values of a record built from parsed fields are the event's fields and the two times. */
  lemma ParsedRow(p: Dict<int>, e: Dict<int>, rate: int)
    requires |p| == 16 && rate != 0 && EventFits(e)
    requires forall m :: 0 <= m < 11 ==> Dicts.Get(e, EventFields[m]) == Some(p[FieldPos(m)].1)
    ensures Dicts.Values([p[0]] + p[2..12] + EventTimes(p, rate)) == FieldRow(e, rate)
  {
    var row := Dicts.Values([p[0]] + p[2..12] + EventTimes(p, rate));
    var want := FieldRow(e, rate);
    forall m | 0 <= m < 11 ensures row[m] == want[m] {
      assert row[m] == p[FieldPos(m)].1;
    }
    assert row[11] == TruncDiv(p[6].1, rate) && row[12] == TruncDiv(p[7].1, rate);
  }

  /** The intended writer's file holds each event's encoding in turn. */
  lemma EncodedChunks(events: seq<Dict<int>>)
    requires forall i :: 0 <= i < |events| ==> EventFits(events[i])
    ensures EncodedEvents(events).outcome.Pass?
    ensures |EncodedEvents(events).bytes| == 88 * |events|
    ensures forall i :: 0 <= i < |events| ==>
      Encodings(events)[i].Ok? && Chunk(EncodedEvents(events).bytes, i) == Encodings(events)[i].value
  {
    var encs := Encodings(events);
    forall i | 0 <= i < |events| ensures encs[i].Ok? && |encs[i].value| == 88 {
      EncodeEventOk(events[i]);
    }
    WriteAllChunks(encs);
  }

  /** Decoding the i-th encoding gives back the i-th event's row. */
  lemma DecodeEncodingAt(events: seq<Dict<int>>, i: nat, rate: int)
    requires i < |events| && EventFits(events[i]) && rate != 0
    ensures Encodings(events)[i].Ok? && |Encodings(events)[i].value| == 88
    ensures Dicts.Values(EventRecord(Encodings(events)[i].value, rate)) == FieldRow(events[i], rate)
  {
    EncodeDecodeEvent(events[i], rate);
  }

  /** The rows read back from the intended writer's file are the events' own rows. */
  lemma EncodedRows(events: seq<Dict<int>>, rate: int)
    requires rate != 0
    requires forall i :: 0 <= i < |events| ==> EventFits(events[i])
    ensures EncodedEvents(events).outcome.Pass? && |EncodedEvents(events).bytes| / 88 == |events|
    ensures EventRows(EncodedEvents(events).bytes, rate) == FieldRows(events, rate)
  {
    EncodedChunks(events);
    var file := EncodedEvents(events).bytes;
    var rows := EventRows(file, rate);
    forall i | 0 <= i < |events| ensures rows[i] == FieldRow(events[i], rate) {
      DecodeEncodingAt(events, i, rate);
    }
  }

  /** The table rows of the events, as FieldRow gives them. */
  function FieldRows(events: seq<Dict<int>>, rate: int): (rows: seq<seq<int>>)
    requires rate != 0 && forall i :: 0 <= i < |events| ==> EventFits(events[i])
    ensures |rows| == |events|
  {
    seq(|events|, i requires 0 <= i < |events| => FieldRow(events[i], rate))
  }

  /**
    Reading back what the writer wrote gives one row per event holding the event's
    own fields, unless an unsigned field is too large for the table's int64 columns.
  */
  lemma WriteReadRoundTrip(events: seq<Dict<int>>, rate: int)
    requires events != [] && rate != 0
    requires forall i :: 0 <= i < |events| ==> EventFits(events[i])
    ensures EncodedEvents(events).outcome.Pass?
    ensures var rows := FieldRows(events, rate);
      DecodeEventsF(EncodedEvents(events).bytes, rate) ==
        if UnsignedInRange(rows) then Ok(rows) else Err(OverflowError)
  {
    EncodedRows(events, rate);
    DecodeEvents(EncodedEvents(events).bytes, rate);
  }

  /** One event of the intended writer: e['RFU' + str(j+1)] = 0 for j in range(5), then format.build(e). */
  method EncodeOne(format: Layout, event: Dict<int>) returns (e: Dict<int>, b: Result<seq<Byte>>)
    ensures e == ZeroRfus(event, 5) && b == Build(format, e)
  {
    e := event;
    var j := 0;
    while j < 5
      invariant 0 <= j <= 5 && e == ZeroRfus(event, j)
    {
      e := Dicts.Set(e, RfuName(j + 1), 0);
      j := j + 1;
    }
    b := Build(format, e);
  }

  /**
    The caller's event dicts after the intended writer has made n builds: the dicts it
    reached have RFU1..RFU5 set to 0, the others are as they were.
  */
  function Zeroed(events: seq<Dict<int>>, n: nat): (r: seq<Dict<int>>)
    ensures |r| == |events|
  {
    seq(|events|, i requires 0 <= i < |events| => if i < n then ZeroRfus(events[i], 5) else events[i])
  }

  lemma ZeroedStep(events: seq<Dict<int>>, i: nat)
    requires i < |events|
    ensures Zeroed(events, i)[i := ZeroRfus(events[i], 5)] == Zeroed(events, i + 1)
  {
  }

  /**
    write_neurone_events with the build taken out of the loop over the reserved fields.
    The writer changes the caller's dicts in place, so their new state is returned as events'.
  */
  method WriteNeuroneEvents(events: seq<Dict<int>>) returns (w: Written, events': seq<Dict<int>>)
    ensures w == EncodedEvents(events)
    ensures events' == Zeroed(events, Attempted(Encodings(events)))
  {
    w, events' := WriteEventsWith(EventLayout, events);
  }

  /** The loop over the events of the intended writer, for a given construct format. */
  method WriteEventsWith(format: Layout, events: seq<Dict<int>>) returns (w: Written, events': seq<Dict<int>>)
    ensures w == WriteAll(EncodingsWith(format, events))
    ensures events' == Zeroed(events, Attempted(EncodingsWith(format, events)))
  {
    ghost var encs := EncodingsWith(format, events);
    var bytes: seq<Byte> := [];
    events' := events;
    assert events' == Zeroed(events, 0);
    var i := 0;
    while i < |events|
      invariant 0 <= i <= |events| && |events'| == |events|
      invariant WriteAll(encs[..i]) == Written(bytes, Pass)
      invariant events' == Zeroed(events, i)
    {
      var e, b := EncodeOne(format, events[i]);
      ZeroedStep(events, i);
      events' := events'[i := e];
      WriteAllStep(encs, i);
      if b.Err? {
        AttemptedStopsAt(encs, i, bytes);
        return Written(bytes, Fail(b.error)), events';
      }
      bytes := bytes + b.value;
      i := i + 1;
    }
    assert encs[..i] == encs;
    AttemptedSpec(encs);
    w := Written(bytes, Pass);
  }

  /** After a write that finishes, every dict the caller passed has RFU1..RFU5 set to 0 and its other fields as they were. */
  lemma CallerEventsZeroed(events: seq<Dict<int>>, i: nat, n: string)
    requires EncodedEvents(events).outcome.Pass? && i < |events|
    ensures var after := Zeroed(events, Attempted(Encodings(events)));
      && (forall k :: 1 <= k <= 5 ==> Dicts.Get(after[i], RfuName(k)) == Some(0))
      && ((forall k :: 1 <= k <= 5 ==> n != RfuName(k)) ==> Dicts.Get(after[i], n) == Dicts.Get(events[i], n))
  {
    AttemptedSpec(Encodings(events));
    forall k | 1 <= k <= 5 ensures Dicts.Get(ZeroRfus(events[i], 5), RfuName(k)) == Some(0) {
      ZeroRfusZero(events[i], 5, k);
    }
    if forall k :: 1 <= k <= 5 ==> n != RfuName(k) {
      ZeroRfusOther(events[i], 5, n);
    }
  }

  // ---- the writer as written ----

  /** The j-th build of the writer as written, over a layout: after RFU1..RFU<j> of the event are set to 0. */
  function PassEncoding(format: Layout, e: Dict<int>, j: nat): Result<seq<Byte>>
    requires 1 <= j <= 5
  {
    Build(format, ZeroRfus(e, j))
  }

  /** Five results per event, in loop order: f(event, 1) to f(event, 5) for each event in turn. */
  function Blocks(events: seq<Dict<int>>, f: (Dict<int>, nat) --> Result<seq<Byte>>): (r: seq<Result<seq<Byte>>>)
    requires forall e, m :: 1 <= m <= 5 ==> f.requires(e, m)
    ensures |r| == 5 * |events|
  {
    seq(5 * |events|, k requires 0 <= k < 5 * |events| => f(events[k / 5], k % 5 + 1))
  }

  /** The result at 5i + j comes from event i, pass j + 1. */
  lemma BlocksAt(events: seq<Dict<int>>, f: (Dict<int>, nat) --> Result<seq<Byte>>, i: nat, j: nat)
    requires forall e, m :: 1 <= m <= 5 ==> f.requires(e, m)
    requires i < |events| && j < 5
    ensures Blocks(events, f)[5 * i + j] == f(events[i], j + 1)
  {
    DivFive(i, j);
  }

  /** The builds the writer as written tries: five per event, in loop order. */
  function PassEncodings(format: Layout, events: seq<Dict<int>>): (r: seq<Result<seq<Byte>>>)
    ensures |r| == 5 * |events|
  {
    Blocks(events, (e, m) requires 1 <= m <= 5 => PassEncoding(format, e, m))
  }

  /** The file write_neurone_events produces as written, with the write inside the j loop. */
  function EncodedEventsAsWritten(events: seq<Dict<int>>): Written {
    WriteAll(PassEncodings(EventLayout, events))
  }

  /** Where the k-th build of the writer as written comes from: event k / 5, pass k % 5 + 1. */
  lemma PassEncodingAt(format: Layout, events: seq<Dict<int>>, i: nat, j: nat)
    requires i < |events| && j < 5
    ensures PassEncodings(format, events)[5 * i + j] == PassEncoding(format, events[i], j + 1)
  {
    BlocksAt(events, (e, m) requires 1 <= m <= 5 => PassEncoding(format, e, m), i, j);
  }

  lemma DivFive(i: nat, j: nat)
    requires j < 5
    ensures (5 * i + j) / 5 == i && (5 * i + j) % 5 == j
  {
  }

  /** Every build of the writer as written that succeeds is one record of the layout's size. */
  lemma PassEncodingsSize(format: Layout, events: seq<Dict<int>>)
    ensures forall k :: 0 <= k < 5 * |events| && PassEncodings(format, events)[k].Ok? ==>
      |PassEncodings(format, events)[k].value| == LayoutSize(format)
  {
    forall k | 0 <= k < 5 * |events| && PassEncodings(format, events)[k].Ok?
      ensures |PassEncodings(format, events)[k].value| == LayoutSize(format)
    {
      var i, j := k / 5, k % 5;
      assert k == 5 * i + j;
      PassEncodingAt(format, events, i, j);
    }
  }

  /** The fifth build of each event is the intended writer's build of it. */
  lemma LastPassEncodes(events: seq<Dict<int>>, i: nat)
    requires i < |events|
    ensures PassEncodings(EventLayout, events)[5 * i + 4] == Encodings(events)[i]
  {
    PassEncodingAt(EventLayout, events, i, 4);
  }

  /**
    When the writer as written finishes, each event has been written five times, 5 * 88 bytes
    per event, and only the fifth copy has all its reserved fields zeroed.
  */
  lemma AsWrittenRepeats(events: seq<Dict<int>>)
    requires EncodedEventsAsWritten(events).outcome.Pass?
    ensures |EncodedEventsAsWritten(events).bytes| == 440 * |events|
    ensures forall i :: 0 <= i < |events| ==>
      Encodings(events)[i].Ok? && EncodedEventsAsWritten(events).bytes[440 * i + 352 .. 440 * i + 440] == Encodings(events)[i].value
  {
    var encs := PassEncodings(EventLayout, events);
    PassEncodingsSize(EventLayout, events);
    EventLayoutSize();
    EveryFifthWritten(encs, |events|);
    forall i | 0 <= i < |events| ensures Encodings(events)[i] == encs[5 * i + 4] {
      LastPassEncodes(events, i);
    }
  }

  /** A writer that wrote 5 * n records of 88 bytes holds the (5i+4)-th at bytes 440i+352 to 440i+440. */
  lemma EveryFifthWritten(encodings: seq<Result<seq<Byte>>>, n: nat)
    requires |encodings| == 5 * n && WriteAll(encodings).outcome.Pass?
    requires forall k :: 0 <= k < |encodings| && encodings[k].Ok? ==> |encodings[k].value| == 88
    ensures |WriteAll(encodings).bytes| == 440 * n
    ensures forall i :: 0 <= i < n ==>
      encodings[5 * i + 4].Ok? && WriteAll(encodings).bytes[440 * i + 352 .. 440 * i + 440] == encodings[5 * i + 4].value
  {
    var bytes := WriteAll(encodings).bytes;
    WriteAllOk(encodings);
    WriteAllChunks(encodings);
    forall i | 0 <= i < n
      ensures encodings[5 * i + 4].Ok? && bytes[440 * i + 352 .. 440 * i + 440] == encodings[5 * i + 4].value
    {
      ChunkAt(bytes, 5 * i + 4);
    }
  }

  /** The k-th record of a file holding whole records spans bytes 88 * k to 88 * k + 88. */
  lemma ChunkAt(file: seq<Byte>, k: nat)
    requires k < |file| / 88
    ensures 88 * k + 88 <= |file| && Chunk(file, k) == file[88 * k .. 88 * k + 88]
  {
  }

  /** construct's build stops at the first field the dict lacks, with a KeyError naming it. */
  lemma {:induction false} BuildMissing(layout: Layout, d: Dict<int>, k: nat)
    requires k < |layout| && layout[k].0 !in Keys(d)
    requires forall i :: 0 <= i < k ==> layout[i].0 in Keys(d) && Fits(layout[i].1, Dicts.Get(d, layout[i].0).value)
    ensures Build(layout, d) == Err(KeyError(layout[k].0))
  {
    if k > 0 {
      assert layout[1..][k - 1] == layout[k];
      BuildMissing(layout[1..], d, k - 1);
    }
  }

  /** A dict with an event's fields and RFU1 but no RFU2 stops the build at RFU2. */
  lemma FirstPassFails(l: Layout, d: Dict<int>, e: Dict<int>)
    requires EventShaped(l) && l[1].0 == RfuName(1) && l[12].0 == RfuName(2)
    requires EventFits(e)
    requires forall m :: 0 <= m < 11 ==> Dicts.Get(d, EventFields[m]) == Dicts.Get(e, EventFields[m])
    requires Dicts.Get(d, RfuName(1)) == Some(0) && RfuName(2) !in Keys(d)
    ensures Build(l, d) == Err(KeyError(RfuName(2)))
  {
    forall i | 0 <= i < 12 ensures l[i].0 in Keys(d) && Fits(l[i].1, Dicts.Get(d, l[i].0).value) {
      if i != 1 {
        var m := if i == 0 then 0 else i - 1;
        assert FieldPos(m) == i;
      }
    }
    BuildMissing(l, d, 12);
  }

  /**
    An event that fits but has no RFU2 field, such as the one the writer's documentation
    gives, makes the writer as written fail at its very first build with KeyError('RFU2'),
    before anything is written: only RFU1 has been set at that point.
  */
  lemma AsWrittenFailsWithoutReserved(events: seq<Dict<int>>)
    requires events != [] && EventFits(events[0]) && RfuName(2) !in Keys(events[0])
    ensures EncodedEventsAsWritten(events) == Written([], Fail(KeyError(RfuName(2))))
  {
    FirstEventPassFails(events[0]);
    PassEncodingAt(EventLayout, events, 0, 0);
    FirstFailure(PassEncodings(EventLayout, events));
  }

  /**
    After that failure the caller's first dict has gained RFU1 = 0 and nothing else, and
    the later dicts are untouched.
  */
  lemma AsWrittenLeavesPartialReserved(events: seq<Dict<int>>)
    requires events != [] && EventFits(events[0]) && RfuName(2) !in Keys(events[0])
    ensures ZeroedAsWritten(events, Attempted(PassEncodings(EventLayout, events))) == [ZeroRfus(events[0], 1)] + events[1..]
  {
    AsWrittenStopsFirst(events);
    ZeroedAsWrittenFirst(events);
  }

  /** Without RFU2 in the first event, the writer as written makes one build only. */
  lemma AsWrittenStopsFirst(events: seq<Dict<int>>)
    requires events != [] && EventFits(events[0]) && RfuName(2) !in Keys(events[0])
    ensures Attempted(PassEncodings(EventLayout, events)) == 1
  {
    FirstEventPassFails(events[0]);
    PassEncodingAt(EventLayout, events, 0, 0);
    AttemptedAt(PassEncodings(EventLayout, events), 0);
  }

  /** One build in, only the first event has had a pass. */
  lemma ZeroedAsWrittenFirst(events: seq<Dict<int>>)
    requires events != []
    ensures ZeroedAsWritten(events, 1) == [ZeroRfus(events[0], 1)] + events[1..]
  {
    var after := ZeroedAsWritten(events, 1);
    forall i | 0 <= i < |events| ensures after[i] == ([ZeroRfus(events[0], 1)] + events[1..])[i] {
      if i > 0 {
        assert Passes(1 - 5 * i) == 0;
      }
    }
  }

  /** After a run of the writer as written that finishes, every dict the caller passed has RFU1..RFU5 set to 0. */
  lemma AsWrittenZeroesAll(events: seq<Dict<int>>)
    requires EncodedEventsAsWritten(events).outcome.Pass?
    ensures ZeroedAsWritten(events, Attempted(PassEncodings(EventLayout, events)))
         == seq(|events|, i requires 0 <= i < |events| => ZeroRfus(events[i], 5))
  {
    AttemptedSpec(PassEncodings(EventLayout, events));
    ZeroedAsWrittenAll(events);
  }

  /** Five builds per event in, every event has had all five passes. */
  lemma ZeroedAsWrittenAll(events: seq<Dict<int>>)
    ensures ZeroedAsWritten(events, 5 * |events|) == seq(|events|, i requires 0 <= i < |events| => ZeroRfus(events[i], 5))
  {
    var after := ZeroedAsWritten(events, 5 * |events|);
    forall i | 0 <= i < |events| ensures after[i] == ZeroRfus(events[i], 5) {
      assert Passes(5 * |events| - 5 * i) == 5;
    }
  }

  /** The writer's first build of an event that fits but lacks RFU2 fails on RFU2. */
  lemma FirstEventPassFails(e: Dict<int>)
    requires EventFits(e) && RfuName(2) !in Keys(e)
    ensures PassEncoding(EventLayout, e, 1) == Err(KeyError(RfuName(2)))
  {
    EventLayoutShaped();
    EventLayoutReservedAt();
    FirstPassFailsOn(EventLayout, e);
  }

  /** In the event layout RFU1 sits at position 1 and RFU2 at position 12. */
  lemma EventLayoutReservedAt()
    ensures EventLayout[1].0 == RfuName(1) && EventLayout[12].0 == RfuName(2)
  {
    EventLayoutNamesLit();
    assert EventLayout[1].0 == Names(EventLayout)[1];
    assert EventLayout[12].0 == Names(EventLayout)[12];
  }

  /** The first pass over an event that fits but lacks RFU2 fails on RFU2, over any event-shaped layout. */
  lemma FirstPassFailsOn(l: Layout, e: Dict<int>)
    requires EventShaped(l) && l[1].0 == RfuName(1) && l[12].0 == RfuName(2)
    requires EventFits(e) && RfuName(2) !in Keys(e)
    ensures PassEncoding(l, e, 1) == Err(KeyError(RfuName(2)))
  {
    var d := ZeroRfus(e, 1);
    EventFieldsNotRfu();
    forall m | 0 <= m < 11 ensures Dicts.Get(d, EventFields[m]) == Dicts.Get(e, EventFields[m]) {
      ZeroRfusOther(e, 1, EventFields[m]);
    }
    ZeroRfusZero(e, 1, 1);
    RfuNameInjective(1, 2);
    ZeroRfusOther(e, 1, RfuName(2));
    FirstPassFails(l, d, e);
  }

  /** A writer whose first build fails writes nothing and raises that build's error. */
  lemma FirstFailure(encodings: seq<Result<seq<Byte>>>)
    requires encodings != [] && encodings[0].Err?
    ensures WriteAll(encodings) == Written([], Fail(encodings[0].error))
  {
    WriteAllStops(encodings, 0);
    assert encodings[..0] == [];
  }

  /** The example event of write_neurone_events' documentation: the eleven fields, no reserved ones. */
  const DocumentedEvent: Dict<int> := [
    ("Revision", 5), ("Type", 4), ("SourcePort", 3), ("ChannelNumber", 0), ("Code", 2),
    ("StartSampleIndex", 224042), ("StopSampleIndex", 224042), ("DescriptionLength", 0),
    ("DescriptionOffset", 0), ("DataLength", 0), ("DataOffset", 0)]

  /** On the documented example the writer as written raises KeyError; the intended writer writes one record. */
  lemma DocumentedEventWrites()
    ensures EncodedEventsAsWritten([DocumentedEvent]) == Written([], Fail(KeyError("RFU2")))
    ensures EncodedEvents([DocumentedEvent]).outcome.Pass?
    ensures |EncodedEvents([DocumentedEvent]).bytes| == 88
  {
    DocumentedEventFits();
    SingleEventWrites(DocumentedEvent);
  }

  /** A lone event that fits but has no RFU2: KeyError as written, one record as intended. */
  lemma SingleEventWrites(e: Dict<int>)
    requires EventFits(e) && RfuName(2) !in Keys(e)
    ensures EncodedEventsAsWritten([e]) == Written([], Fail(KeyError(RfuName(2))))
    ensures EncodedEvents([e]).outcome.Pass? && |EncodedEvents([e]).bytes| == 88
  {
    AsWrittenFailsWithoutReserved([e]);
    WriteEventsOk([e]);
  }

  /** The documented example carries all eleven fields in range, and no RFU2. */
  lemma DocumentedEventFits()
    ensures EventFits(DocumentedEvent) && RfuName(2) !in Keys(DocumentedEvent) && RfuName(2) == "RFU2"
  {
    var e := DocumentedEvent;
    forall m | 0 <= m < 11
      ensures Dicts.Get(e, EventFields[m]).Some? && Fits(FieldWidth(m), Dicts.Get(e, EventFields[m]).value)
    {
      assert e[m].0 == EventFields[m];
      assert Keys(e)[m] == e[m].0;
      assert Dicts.WellFormed(e);
      Dicts.GetAt(e, m);
    }
    assert RfuName(2) == "RFU2";
  }

  /** The event after each number of passes of the writer as written: zs[m] has RFU1..RFU<m> set to 0. */
  function Zeroings(event: Dict<int>): (zs: seq<Dict<int>>)
    ensures |zs| == 6 && zs[0] == event
  {
    seq(6, m requires 0 <= m <= 5 => ZeroRfus(event, m))
  }

  /**
    Pass j of the writer as written, seen from the loop: it turns the dict zs[j] into zs[j + 1]
    by setting RFU<j+1> to 0, and builds what is the k + j-th build of the whole run.
  */
  predicate PassBuilds(format: Layout, zs: seq<Dict<int>>, encs: seq<Result<seq<Byte>>>, k: nat, j: nat) {
    && j < 5 && |zs| == 6 && k + 5 <= |encs|
    && zs[j + 1] == Dicts.Set(zs[j], RfuName(j + 1), 0)
    && encs[k + j] == Build(format, zs[j + 1])
  }

  /** The five passes over event i are the builds 5i to 5i + 4 of the writer as written. */
  lemma EventPassBuilds(format: Layout, events: seq<Dict<int>>, i: nat, j: nat)
    requires i < |events| && j < 5
    ensures PassBuilds(format, Zeroings(events[i]), PassEncodings(format, events), 5 * i, j)
  {
    var zs, encs := Zeroings(events[i]), PassEncodings(format, events);
    PassEncodingAt(format, events, i, j);
    assert zs[j] == ZeroRfus(events[i], j) && zs[j + 1] == ZeroRfus(events[i], j + 1);
    assert encs[5 * i + j] == Build(format, zs[j + 1]);
  }

  /** Pass j of the event whose builds start at k fails: the run stops there, after k + j + 1 builds. */
  lemma PassStops(encs: seq<Result<seq<Byte>>>, k: nat, j: nat, bytes: seq<Byte>)
    requires j < 5 && k + 5 <= |encs| && WriteAll(encs[..k + j]) == Written(bytes, Pass) && encs[k + j].Err?
    ensures WriteAll(encs) == Written(bytes, Fail(encs[k + j].error))
    ensures k < Attempted(encs) <= k + 5 && Attempted(encs) - k == j + 1
  {
    AttemptedStopsAt(encs, k + j, bytes);
  }

  /** The body of the inner loop of the writer as written: e['RFU' + str(j+1)] = 0, then format.build(e). */
  method ZeroAndBuild(format: Layout, e: Dict<int>, j: nat, ghost zs: seq<Dict<int>>,
                      ghost encs: seq<Result<seq<Byte>>>, ghost k: nat)
    returns (e': Dict<int>, b: Result<seq<Byte>>)
    requires PassBuilds(format, zs, encs, k, j) && e == zs[j]
    ensures e' == zs[j + 1] && b == encs[k + j]
  {
    e' := Dicts.Set(e, RfuName(j + 1), 0);
    b := Build(format, e');
  }

  /** 0, x or 5, whichever is nearest x: how many of an event's five passes have run. */
  function Passes(x: int): (r: nat)
    ensures r <= 5
  {
    if x < 0 then 0 else if x > 5 then 5 else x
  }

  /**
    The caller's event dicts after the writer as written has made n builds: event i has
    had Passes(n - 5i) of its reserved fields set to 0.
  */
  function ZeroedAsWritten(events: seq<Dict<int>>, n: nat): (r: seq<Dict<int>>)
    ensures |r| == |events|
  {
    seq(|events|, i requires 0 <= i < |events| => ZeroRfus(events[i], Passes(n - 5 * i)))
  }

  /** Bringing event i from no pass to n - 5i passes is reaching n builds. */
  lemma ZeroedAsWrittenStep(events: seq<Dict<int>>, i: nat, n: nat)
    requires i < |events| && 5 * i < n <= 5 * i + 5
    ensures ZeroedAsWritten(events, 5 * i)[i := ZeroRfus(events[i], n - 5 * i)] == ZeroedAsWritten(events, n)
  {
    var before, after := ZeroedAsWritten(events, 5 * i), ZeroedAsWritten(events, n);
    forall j | 0 <= j < |events| ensures before[i := ZeroRfus(events[i], n - 5 * i)][j] == after[j] {
      ZeroedAsWrittenAt(events, n, j);
      if j != i {
        ZeroedAsWrittenAt(events, 5 * i, j);
        PassesOther(i, j, n);
      }
    }
  }

  lemma ZeroedAsWrittenAt(events: seq<Dict<int>>, n: nat, j: nat)
    requires j < |events|
    ensures ZeroedAsWritten(events, n)[j] == ZeroRfus(events[j], Passes(n - 5 * j))
  {
    var p := Passes(n - 5 * j);
    assert ZeroedAsWritten(events, n)[j] == ZeroRfus(events[j], p);
  }

  /** Reaching build n, between event i's first and last pass, leaves every other event's passes as they were. */
  lemma PassesOther(i: int, j: int, n: int)
    requires j != i && 5 * i < n <= 5 * i + 5
    ensures Passes(5 * i - 5 * j) == Passes(n - 5 * j)
  {
    if j < i {
      assert 5 * i - 5 * j >= 5;
    } else {
      assert 5 * i - 5 * j <= -5;
    }
  }

  /**
    write_neurone_events as written, building with the module's event format. The
    writer changes the caller's dicts in place, so their new state is returned as events'.
  */
  method WriteNeuroneEventsAsWritten(events: seq<Dict<int>>) returns (w: Written, events': seq<Dict<int>>)
    ensures w == EncodedEventsAsWritten(events)
    ensures events' == ZeroedAsWritten(events, Attempted(PassEncodings(EventLayout, events)))
  {
    w, events' := WritePassesWith(EventLayout, events);
  }

  /** The loop over the events of write_neurone_events as written, for a given construct format. */
  method WritePassesWith(format: Layout, events: seq<Dict<int>>) returns (w: Written, events': seq<Dict<int>>)
    ensures w == WriteAll(PassEncodings(format, events))
    ensures events' == ZeroedAsWritten(events, Attempted(PassEncodings(format, events)))
  {
    ghost var encs := PassEncodings(format, events);
    var bytes: seq<Byte> := [];
    events' := events;
    assert events' == ZeroedAsWritten(events, 0);
    var i := 0;
    while i < |events|
      invariant 0 <= i <= |events| && |events'| == |events|
      invariant WriteAll(encs[..5 * i]) == Written(bytes, Pass)
      invariant events' == ZeroedAsWritten(events, 5 * i)
    {
      forall j | 0 <= j < 5 ensures PassBuilds(format, Zeroings(events[i]), encs, 5 * i, j) {
        EventPassBuilds(format, events, i, j);
      }
      var e;
      w, e := WriteEventPasses(format, events[i], bytes, Zeroings(events[i]), encs, 5 * i);
      if w.outcome.Fail? {
        ZeroedAsWrittenStep(events, i, Attempted(encs));
        return w, events'[i := e];
      }
      ZeroedAsWrittenStep(events, i, 5 * i + 5);
      events' := events'[i := e];
      bytes := w.bytes;
      i := i + 1;
    }
    assert encs[..5 * i] == encs;
    AttemptedSpec(encs);
    w := Written(bytes, Pass);
  }

  /**
    One turn of the outer loop of write_neurone_events as written: five passes over the event,
    each setting one more reserved field to 0 and writing the event's build. With the builds
    at positions k to k + 4 of the whole run, the file so far is extended by those five
    builds, or the writer stops at the first one that fails.
  */
  method WriteEventPasses(format: Layout, event: Dict<int>, bytes0: seq<Byte>, ghost zs: seq<Dict<int>>,
                          ghost encs: seq<Result<seq<Byte>>>, ghost k: nat) returns (w: Written, e: Dict<int>)
    requires k + 5 <= |encs| && |zs| == 6 && zs[0] == event
    requires forall j :: 0 <= j < 5 ==> PassBuilds(format, zs, encs, k, j)
    requires WriteAll(encs[..k]) == Written(bytes0, Pass)
    ensures w.outcome.Pass? ==> WriteAll(encs[..k + 5]) == w && e == zs[5]
    ensures w.outcome.Fail? ==> WriteAll(encs) == w && k < Attempted(encs) <= k + 5 && e == zs[Attempted(encs) - k]
  {
    var bytes := bytes0;
    e := event;
    var j := 0;
    while j < 5
      invariant 0 <= j <= 5 && e == zs[j]
      invariant WriteAll(encs[..k + j]) == Written(bytes, Pass)
    {
      var b;
      e, b := ZeroAndBuild(format, e, j, zs, encs, k);
      if b.Err? {
        PassStops(encs, k, j, bytes);
        return Written(bytes, Fail(b.error)), e;
      }
      WriteAllExtends(encs, k + j, bytes);
      bytes := bytes + b.value;
      j := j + 1;
    }
    w := Written(bytes, Pass);
  }
}
