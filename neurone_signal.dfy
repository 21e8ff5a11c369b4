/**
  The signal side of utilities_neurone: the channel order read_neurone_protocol
  takes from Protocol.xml, the int32 signal file read_neurone_data unpacks into
  rows of samples, and the per-channel records read_neurone_data_hdf5 builds.
  The XML is taken as already parsed: each TableInput arrives as its
  (PhysicalInputNumber, Name) pair.
*/
module NeurOneSignal {
  import opened Base
  import Dicts
  import Channels
  import opened LittleEndian

  // ---- channel order (read_neurone_protocol) ----

  /** Python's str <=: code point by code point, a proper prefix first. */
  predicate StrLeq(a: string, b: string)
    decreases |a|
  {
    a == [] || (b != [] && (a[0] < b[0] || (a[0] == b[0] && StrLeq(a[1..], b[1..]))))
  }

  lemma {:induction false} StrLeqTotal(a: string, b: string)
    ensures StrLeq(a, b) || StrLeq(b, a)
    decreases |a|
  {
    if a != [] && b != [] && a[0] == b[0] {
      StrLeqTotal(a[1..], b[1..]);
    }
  }

  lemma {:induction false} StrLeqTrans(a: string, b: string, c: string)
    requires StrLeq(a, b) && StrLeq(b, c)
    ensures StrLeq(a, c)
    decreases |a|
  {
    if a != [] && a[0] == b[0] && b[0] == c[0] {
      StrLeqTrans(a[1..], b[1..], c[1..]);
    }
  }

  lemma {:induction false} StrLeqAntisym(a: string, b: string)
    requires StrLeq(a, b) && StrLeq(b, a)
    ensures a == b
    decreases |a|
  {
    if a != [] {
      StrLeqAntisym(a[1..], b[1..]);
      assert a == [a[0]] + a[1..] && b == [b[0]] + b[1..];
    }
  }

  /** One TableInput of Protocol.xml: (PhysicalInputNumber, Name). */
  type Input = (int, string)

  /** Python's tuple order on inputs: by input number, then by name. */
  predicate InputLeq(p: Input, q: Input) {
    p.0 < q.0 || (p.0 == q.0 && StrLeq(p.1, q.1))
  }

  lemma InputLeqTotal(p: Input, q: Input)
    ensures InputLeq(p, q) || InputLeq(q, p)
  {
    StrLeqTotal(p.1, q.1);
  }

  lemma InputLeqTrans(p: Input, q: Input, r: Input)
    requires InputLeq(p, q) && InputLeq(q, r)
    ensures InputLeq(p, r)
  {
    if p.0 == q.0 == r.0 {
      StrLeqTrans(p.1, q.1, r.1);
    }
  }

  lemma InputLeqAntisym(p: Input, q: Input)
    requires InputLeq(p, q) && InputLeq(q, p)
    ensures p == q
  {
    StrLeqAntisym(p.1, q.1);
  }

  predicate SortedInputs(s: seq<Input>) {
    forall i, j :: 0 <= i < j < |s| ==> InputLeq(s[i], s[j])
  }

  /** Inserting x in front of the first element it does not exceed. */
  function Insert(x: Input, s: seq<Input>): (r: seq<Input>)
    ensures multiset(r) == multiset(s) + multiset{x}
  {
    if s == [] || InputLeq(x, s[0]) then [x] + s
    else
      assert s == [s[0]] + s[1..];
      [s[0]] + Insert(x, s[1..])
  }

  /** sorted(channel_names), as an insertion sort. */
  function SortInputs(s: seq<Input>): (r: seq<Input>)
    ensures multiset(r) == multiset(s)
  {
    if s == [] then []
    else
      assert s == [s[0]] + s[1..];
      Insert(s[0], SortInputs(s[1..]))
  }

  lemma {:induction false} InsertSorted(x: Input, s: seq<Input>)
    requires SortedInputs(s)
    ensures SortedInputs(Insert(x, s))
    decreases |s|
  {
    var r := Insert(x, s);
    if s == [] || InputLeq(x, s[0]) {
      forall j | 1 <= j < |r| ensures InputLeq(x, r[j]) {
        if j > 1 { InputLeqTrans(x, s[0], s[j - 1]); }
      }
    } else {
      var t := Insert(x, s[1..]);
      InsertSorted(x, s[1..]);
      InputLeqTotal(x, s[0]);
      forall j | 0 <= j < |t| ensures InputLeq(s[0], t[j]) {
        assert t[j] in multiset(s[1..]) + multiset{x};
        if t[j] != x {
          assert t[j] in s[1..];
          var k :| 0 <= k < |s[1..]| && s[1..][k] == t[j];
          assert s[k + 1] == t[j];
        }
      }
      assert r == [s[0]] + t;
    }
  }

  /** sorted() returns its input in ascending tuple order. */
  lemma {:induction false} SortInputsSorted(s: seq<Input>)
    ensures SortedInputs(SortInputs(s))
    decreases |s|
  {
    if s != [] {
      SortInputsSorted(s[1..]);
      InsertSorted(s[0], SortInputs(s[1..]));
    }
  }

  /** The first of an ascending arrangement is at most every element of it. */
  lemma SortedHead(a: seq<Input>, x: Input)
    requires SortedInputs(a) && x in multiset(a)
    ensures InputLeq(a[0], x) || a[0] == x
  {
    var i :| 0 <= i < |a| && a[i] == x;
  }

  /** Lists with the same elements and the same first element have tails with the same elements. */
  lemma MultisetTail(a: seq<Input>, b: seq<Input>)
    requires a != [] && b != [] && a[0] == b[0] && multiset(a) == multiset(b)
    ensures multiset(a[1..]) == multiset(b[1..])
  {
    var a', b' := a[1..], b[1..];
    assert a == [a[0]] + a' && b == [b[0]] + b';
    assert multiset(a) == multiset{a[0]} + multiset(a');
    assert multiset(b) == multiset{b[0]} + multiset(b');
    forall y ensures multiset(a')[y] == multiset(b')[y] {
      assert multiset(a)[y] == multiset{a[0]}[y] + multiset(a')[y];
      assert multiset(b)[y] == multiset{b[0]}[y] + multiset(b')[y];
    }
  }

  /** Two ascending arrangements of the same inputs are the same list. */
  lemma {:induction false} SortedUnique(a: seq<Input>, b: seq<Input>)
    requires SortedInputs(a) && SortedInputs(b) && multiset(a) == multiset(b)
    ensures a == b
    decreases |a|
  {
    if a != [] {
      assert |b| == |multiset(b)| == |multiset(a)| == |a|;
      SortedHead(a, b[0]);
      SortedHead(b, a[0]);
      if a[0] != b[0] {
        InputLeqAntisym(a[0], b[0]);
      }
      var a', b' := a[1..], b[1..];
      MultisetTail(a, b);
      SortedUnique(a', b');
    }
  }

  /**
    The channel names in physical order: the one ascending arrangement of the inputs,
    names taken in that order.
  */
  lemma ChannelOrderSpec(inputs: seq<Input>, arranged: seq<Input>)
    requires SortedInputs(arranged) && multiset(arranged) == multiset(inputs)
    ensures var names := ChannelOrder(inputs);
      |names| == |arranged| && forall i :: 0 <= i < |arranged| ==> names[i] == arranged[i].1
  {
    SortInputsSorted(inputs);
    SortedUnique(SortInputs(inputs), arranged);
  }

  /** [i for _, i in sorted(channel_names)] */
  function ChannelOrder(inputs: seq<Input>): (names: seq<string>)
    ensures |names| == |inputs|
  {
    var s := SortInputs(inputs);
    assert |s| == |multiset(s)| == |multiset(inputs)| == |inputs|;
    seq(|s|, i requires 0 <= i < |s| => s[i].1)
  }

  /** The channels, the two session timestamps and the sampling rate of a recording. */
  datatype Protocol = Protocol(channels: seq<string>, timeStart: DateTime, timeStop: DateTime, rate: int)

  /** read_neurone_protocol over the parsed inputs, rate and session times. */
  function ReadProtocol(inputs: seq<Input>, rate: int, timeStart: DateTime, timeStop: DateTime): (p: Protocol)
    ensures |p.channels| == |inputs|
  {
    Protocol(ChannelOrder(inputs), timeStart, timeStop, rate)
  }

  /** protocol["meta"]: time_start, time_stop and sampling_rate, in that order. */
  function Meta(p: Protocol): Dict<Value> {
    [("time_start", TimeVal(p.timeStart)), ("time_stop", TimeVal(p.timeStop)), ("sampling_rate", IntVal(p.rate))]
  }

  // ---- the signal file (read_neurone_data) ----

  lemma WordInFile(size: nat, k: nat)
    requires k < size / 4
    ensures 4 * k + 4 <= size
  {
  }

  /** np.fromfile(fname, dtype='<i4'): every whole four-byte word of the file. */
  function Words(file: seq<Byte>): (ws: seq<int>)
    ensures |ws| == |file| / 4
  {
    seq(|file| / 4, k requires 0 <= k < |file| / 4 =>
      WordInFile(|file|, k);
      Int32(file[4 * k .. 4 * k + 4]))
  }

  /** A matrix with every row of length n. */
  predicate Rectangular(rows: seq<seq<int>>, n: nat) {
    forall k :: 0 <= k < |rows| ==> |rows[k]| == n
  }

  lemma {:induction false} MulMono(a: nat, b: nat, n: nat)
    requires a <= b
    ensures a * n <= b * n
    decreases b - a
  {
    if a < b {
      MulMono(a, b - 1, n);
    }
  }

  /** The quotient and remainder of x by n are the only q, r with x == q * n + r and r < n. */
  lemma DivUnique(x: nat, n: nat, q: nat, r: nat)
    requires n > 0 && x == q * n + r && r < n
    ensures x / n == q && x % n == r
  {
    var q', r' := x / n, x % n;
    assert x == q' * n + r' && 0 <= r' < n;
    if q' > q {
      MulMono(q + 1, q', n);
    } else if q' < q {
      MulMono(q' + 1, q, n);
    }
  }

  /** data.shape = (m, n): the first n words are row 0, the next n words row 1, and so on. */
  function Reshape(words: seq<int>, n: nat, m: nat): (rows: seq<seq<int>>)
    requires |words| == m * n
    ensures |rows| == m && Rectangular(rows, n)
    decreases m
  {
    if m == 0 then []
    else
      MulMono(1, m, n);
      [words[..n]] + Reshape(words[n..], n, m - 1)
  }

  /** Entry i of row k of the reshaped words is word k * n + i. */
  lemma {:induction false} ReshapeAt(words: seq<int>, n: nat, m: nat, k: nat, i: nat)
    requires |words| == m * n && k < m && i < n
    ensures k * n + i < |words| && Reshape(words, n, m)[k][i] == words[k * n + i]
    decreases k
  {
    MulMono(1, m, n);
    var rows := Reshape(words, n, m);
    assert rows == [words[..n]] + Reshape(words[n..], n, m - 1);
    if k > 0 {
      var w' := words[n..];
      assert |w'| == (m - 1) * n;
      ReshapeAt(w', n, m - 1, k - 1, i);
      var j := (k - 1) * n + i;
      assert j + n == k * n + i;
      assert rows[k] == Reshape(w', n, m - 1)[k - 1];
      assert w'[j] == words[j + n];
    }
  }

  /**
    read_neurone_data: n_samples = int(size / 4 / n_channels), and the words
    reshaped to n_samples rows of n_channels. No channel divides by zero; a word
    count that is not a multiple of the channel count cannot be reshaped.
  */
  function ReadData(file: seq<Byte>, nChannels: nat): (r: Result<seq<seq<int>>>)
    ensures r.Ok? ==> Rectangular(r.value, nChannels)
  {
    if nChannels == 0 then Err(ZeroDivisionError)
    else
      var words := Words(file);
      var nSamples := |file| / 4 / nChannels;
      if nSamples * nChannels != |words| then Err(ValueError)
      else Ok(Reshape(words, nChannels, nSamples))
  }

  /** data[:, i] */
  function Column(rows: seq<seq<int>>, i: nat): (c: seq<int>)
    requires forall k :: 0 <= k < |rows| ==> i < |rows[k]|
    ensures |c| == |rows| && forall k :: 0 <= k < |rows| ==> c[k] == rows[k][i]
  {
    seq(|rows|, k requires 0 <= k < |rows| => rows[k][i])
  }

  /**
    The file reshapes exactly when there is a channel and the channel count divides
    the word count, and the rows then hold all the words.
  */
  lemma ReadDataSpec(file: seq<Byte>, n: nat)
    ensures ReadData(file, n).Err? <==> n == 0 || (|file| / 4) % n != 0
    ensures n == 0 ==> ReadData(file, n) == Err(ZeroDivisionError)
    ensures n != 0 && (|file| / 4) % n != 0 ==> ReadData(file, n) == Err(ValueError)
    ensures ReadData(file, n).Ok? ==> |ReadData(file, n).value| * n == |Words(file)|
  {
    if n != 0 {
      var w := |file| / 4;
      var q, r := w / n, w % n;
      assert w == q * n + r && 0 <= r < n;
    }
  }

  /** Sample k of channel i is word k * n_channels + i of the file. */
  lemma ReadDataAt(file: seq<Byte>, n: nat, k: nat, i: nat)
    requires ReadData(file, n).Ok? && k < |ReadData(file, n).value| && i < n
    ensures k * n + i < |Words(file)| && ReadData(file, n).value[k][i] == Words(file)[k * n + i]
  {
    var q := |file| / 4 / n;
    assert ReadData(file, n) == Ok(Reshape(Words(file), n, q));
    ReshapeAt(Words(file), n, q, k, i);
  }

  /** The samples row after row. */
  function Flatten(rows: seq<seq<int>>): (ws: seq<int>)
  {
    if rows == [] then [] else rows[0] + Flatten(rows[1..])
  }

  predicate FitsInt32(v: int) {
    -0x8000_0000 <= v < 0x8000_0000
  }

  /** Words written back to back, each as '<i4'. */
  function EncodeWords(ws: seq<int>): (bs: seq<Byte>)
    requires forall k :: 0 <= k < |ws| ==> FitsInt32(ws[k])
    ensures |bs| == 4 * |ws|
  {
    if ws == [] then []
    else
      assert FitsInt32(ws[|ws| - 1]);
      EncodeWords(ws[..|ws| - 1]) + Int32Bytes(ws[|ws| - 1])
  }

  /** Word k of an encoding occupies bytes 4k to 4k + 4. */
  lemma {:induction false} EncodeWordsAt(ws: seq<int>, k: nat)
    requires forall j :: 0 <= j < |ws| ==> FitsInt32(ws[j])
    requires k < |ws|
    ensures EncodeWords(ws)[4 * k .. 4 * k + 4] == Int32Bytes(ws[k])
    decreases |ws|
  {
    var n := |ws|;
    var p := ws[..n - 1];
    var bs := EncodeWords(ws);
    assert bs == EncodeWords(p) + Int32Bytes(ws[n - 1]);
    if k < n - 1 {
      EncodeWordsAt(p, k);
      assert bs[4 * k .. 4 * k + 4] == EncodeWords(p)[4 * k .. 4 * k + 4];
    } else {
      assert bs[4 * k .. 4 * k + 4] == bs[|EncodeWords(p)|..];
    }
  }

  /** np.fromfile reads back the words that were written. */
  lemma WordsRoundTrip(ws: seq<int>)
    requires forall j :: 0 <= j < |ws| ==> FitsInt32(ws[j])
    ensures Words(EncodeWords(ws)) == ws
  {
    var w := Words(EncodeWords(ws));
    forall k | 0 <= k < |ws| ensures w[k] == ws[k] {
      EncodeWordsAt(ws, k);
      Int32RoundTrip(ws[k]);
    }
  }

  /** Reshaping the flattened rows gives the rows back. */
  lemma {:induction false} ReshapeFlatten(rows: seq<seq<int>>, n: nat)
    requires Rectangular(rows, n)
    ensures |Flatten(rows)| == |rows| * n
    ensures Reshape(Flatten(rows), n, |rows|) == rows
    decreases |rows|
  {
    if rows != [] {
      var f := Flatten(rows);
      ReshapeFlatten(rows[1..], n);
      assert f[..n] == rows[0] && f[n..] == Flatten(rows[1..]);
      assert rows == [rows[0]] + rows[1..];
    }
  }

  lemma {:induction false} FlattenFits(rows: seq<seq<int>>)
    requires forall k, i :: 0 <= k < |rows| && 0 <= i < |rows[k]| ==> FitsInt32(rows[k][i])
    ensures forall j :: 0 <= j < |Flatten(rows)| ==> FitsInt32(Flatten(rows)[j])
    decreases |rows|
  {
    if rows != [] {
      FlattenFits(rows[1..]);
      var f := Flatten(rows);
      forall j | 0 <= j < |f| ensures FitsInt32(f[j]) {
        if j < |rows[0]| {
          assert f[j] == rows[0][j];
        } else {
          assert f[j] == Flatten(rows[1..])[j - |rows[0]|];
        }
      }
    }
  }

  /**
    Reading a signal file written as rows of n int32 samples, with n channels, gives
    back those rows.
  */
  lemma ReadDataRoundTrip(rows: seq<seq<int>>, n: nat)
    requires n > 0 && Rectangular(rows, n)
    requires forall k, i :: 0 <= k < |rows| && 0 <= i < n ==> FitsInt32(rows[k][i])
    ensures forall j :: 0 <= j < |Flatten(rows)| ==> FitsInt32(Flatten(rows)[j])
    ensures ReadData(EncodeWords(Flatten(rows)), n) == Ok(rows)
  {
    var f := Flatten(rows);
    FlattenFits(rows);
    ReshapeFlatten(rows, n);
    var file := EncodeWords(f);
    WordsRoundTrip(f);
    assert |file| / 4 == |f| == |rows| * n;
    DivUnique(|f|, n, |rows|, 0);
  }

  // ---- one record per channel (read_neurone_data_hdf5) ----

  /** np.array(range(n_samples)) / float(sampling_rate). */
  function TimeVector(nSamples: nat, rate: int): (t: Samples)
    requires rate != 0
    ensures |t| == nSamples
  {
    seq(nSamples, k requires 0 <= k < nSamples => RealVal(k as real / rate as real))
  }

  /**
    {"meta": meta, "data": data_out} after data_out[label] = samples and
    data_out["time"] = timevec: a channel named "time" is overwritten by the time vector.
  */
  function ChannelRecord(meta: Dict<Value>, name: string, samples: Samples, timevec: Samples): (r: Record)
    ensures r.meta == meta
    ensures name != "time" ==> r.data == [(name, samples), ("time", timevec)]
    ensures name == "time" ==> r.data == [("time", timevec)]
  {
    Record(meta, Dicts.Set(Dicts.Set([], name, samples), "time", timevec))
  }

  /** The records read_neurone_data_hdf5 returns for a reshaped signal. */
  function DataRecords(p: Protocol, rows: seq<seq<int>>): (ds: Dataset)
    requires p.rate != 0 && Rectangular(rows, |p.channels|)
    ensures |ds| == |p.channels|
  {
    var timevec := TimeVector(|rows|, p.rate);
    seq(|p.channels|, i requires 0 <= i < |p.channels| =>
      ChannelRecord(Meta(p), p.channels[i], IntVals(Column(rows, i)), timevec))
  }

  /** read_neurone_data_hdf5: read the signal, then one record per channel. */
  function DataHdf5(p: Protocol, file: seq<Byte>): Result<Dataset>
    requires p.rate != 0
  {
    var rows :- ReadData(file, |p.channels|);
    Ok(DataRecords(p, rows))
  }

  /** The loop of read_neurone_data_hdf5 over the channels, filling the preallocated list. */
  method ReadNeuroneDataHdf5(p: Protocol, file: seq<Byte>) returns (r: Result<Dataset>)
    requires p.rate != 0
    ensures r == DataHdf5(p, file)
  {
    var data := ReadData(file, |p.channels|);
    if data.Err? {
      return Err(data.error);
    }
    var rows := data.value;
    ghost var want := DataRecords(p, rows);
    var timevec := TimeVector(|rows|, p.rate);
    var meta := Meta(p);
    var out := new Record[|p.channels|](_ => Record([], []));
    var i := 0;
    while i < |p.channels|
      invariant 0 <= i <= |p.channels| == out.Length
      invariant out[..i] == want[..i]
    {
      var name := p.channels[i];
      var dataOut: Dict<Samples> := [];
      dataOut := Dicts.Set(dataOut, name, IntVals(Column(rows, i)));
      dataOut := Dicts.Set(dataOut, "time", timevec);
      out[i] := Record(meta, dataOut);
      i := i + 1;
    }
    assert out[..] == out[..i] && want[..i] == want;
    r := Ok(out[..]);
  }

  /**
    Each record holds its channel's samples, sample k of channel i being word
    k * n_channels + i of the file, beside the time vector k / sampling_rate shared
    by all records, and the protocol meta.
  */
  lemma DataHdf5Records(p: Protocol, file: seq<Byte>, i: nat)
    requires p.rate != 0 && DataHdf5(p, file).Ok? && i < |p.channels| && p.channels[i] != "time"
    ensures var rec := DataHdf5(p, file).value[i];
      var n, m := |p.channels|, |rec.data[1].1|;
      && rec.meta == Meta(p)
      && Keys(rec.data) == [p.channels[i], "time"]
      && |rec.data[0].1| == m && m * n == |Words(file)|
      && (forall k :: 0 <= k < m ==>
            && k * n + i < |Words(file)|
            && rec.data[0].1[k] == IntVal(Words(file)[k * n + i])
            && rec.data[1].1[k] == RealVal(k as real / p.rate as real))
  {
    var n := |p.channels|;
    ReadDataSpec(file, n);
    forall k | 0 <= k < |ReadData(file, n).value| ensures k * n + i < |Words(file)| && ReadData(file, n).value[k][i] == Words(file)[k * n + i] {
      ReadDataAt(file, n, k, i);
    }
  }

  /**
    With distinct channel names, none of them "time", get_channels_in_set finds
    exactly the protocol's channels, in protocol order.
  */
  lemma DataHdf5Channels(p: Protocol, file: seq<Byte>)
    requires p.rate != 0 && DataHdf5(p, file).Ok?
    requires Distinct(p.channels) && "time" !in p.channels
    ensures Channels.ChannelsInSet(DataHdf5(p, file).value) == Ok(p.channels)
  {
    var ds := DataHdf5(p, file).value;
    ReadDataSpec(file, |p.channels|);
    forall j | 0 <= j < |ds| ensures Keys(ds[j].data) == [p.channels[j], "time"] {
      assert p.channels[j] in p.channels;
    }
    Channels.ChannelsOfKeyedRecords(ds, p.channels);
  }
}
