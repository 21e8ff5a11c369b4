/**
  utilities_psg: the accepted events of a polysomnography event list, the two
  index helpers, and the datasets built from the events (a hypnogram sampled every
  30 seconds, or the events with their offsets and durations).

  The XML file is not parsed here: each <Event> arrives with its Type and its two
  timestamps already read. Durations and offsets are exact reals.
*/
module Psg {
  import opened Base
  import Timestamps
  import Channels

  /**
    A parsed timestamp: the datetime strptime returns, with its microsecond count
    (Timestamps.Ticks), on which datetime subtraction works.
  */
  datatype Stamp = Stamp(time: DateTime, ticks: int)

  function StampOf(t: DateTime): (s: Stamp)
    ensures s.time == t
  {
    Stamp(t, Timestamps.Ticks(t))
  }

  /** One <Event> of the XML file: its Type, StartTime and StopTime. */
  datatype RawEvent = RawEvent(kind: string, start: Stamp, stop: Stamp)

  /** The dict read_psg_event returns: four parallel vectors and their length. */
  datatype EventList = EventList(tStart: seq<Stamp>, tStop: seq<Stamp>, duration: seq<real>,
                                 eventType: seq<string>, nEvents: int)

  /** (b - a).total_seconds(), exactly. */
  function Seconds(a: Stamp, b: Stamp): real {
    (b.ticks - a.ticks) as real / 1000000.0
  }

  /** (stop - start).total_seconds(), scaled to the unit of the duration vector. */
  function Duration(e: RawEvent, perSecond: real): real {
    Seconds(e.start, e.stop) * perSecond
  }

  /** The spacing check's condition: b does not start exactly 30 seconds after a. */
  predicate OffBeat(a: Stamp, b: Stamp) {
    Seconds(a, b) != 30.0
  }

  // ---- the event loop ----

  /** The events whose type is accepted, in document order. */
  function Accepted(events: seq<RawEvent>, accepted: seq<string>): (kept: seq<RawEvent>)
    ensures |kept| <= |events|
    decreases |events|
  {
    if events == [] then []
    else
      var last := events[|events| - 1];
      Accepted(events[..|events| - 1], accepted) + (if last.kind in accepted then [last] else [])
  }

  function Starts(kept: seq<RawEvent>): (s: seq<Stamp>)
    ensures |s| == |kept|
  {
    if kept == [] then [] else Starts(kept[..|kept| - 1]) + [kept[|kept| - 1].start]
  }

  function Stops(kept: seq<RawEvent>): (s: seq<Stamp>)
    ensures |s| == |kept|
  {
    if kept == [] then [] else Stops(kept[..|kept| - 1]) + [kept[|kept| - 1].stop]
  }

  function Types(kept: seq<RawEvent>): (s: seq<string>)
    ensures |s| == |kept|
  {
    if kept == [] then [] else Types(kept[..|kept| - 1]) + [kept[|kept| - 1].kind]
  }

  /** The durations, in units of 1/perSecond seconds (1 for seconds, 1000 for milliseconds). */
  function Durations(kept: seq<RawEvent>, perSecond: real): (s: seq<real>)
    ensures |s| == |kept|
  {
    if kept == [] then []
    else
      var e := kept[|kept| - 1];
      Durations(kept[..|kept| - 1], perSecond) + [Duration(e, perSecond)]
  }

  function EventListOf(kept: seq<RawEvent>, perSecond: real): EventList {
    EventList(Starts(kept), Stops(kept), Durations(kept, perSecond), Types(kept), |kept|)
  }

  /**
    The positions in the kept list at which the spacing check prints its message:
    an accepted event that does not start exactly 30 seconds after the previous one.
  */
  function Warnings(kept: seq<RawEvent>): seq<nat> {
    if |kept| <= 1 then []
    else
      var n := |kept|;
      Warnings(kept[..n - 1]) + (if OffBeat(kept[n - 2].start, kept[n - 1].start) then [n - 1] else [])
  }

  /** The last start the loop remembers (previous_event_start). */
  function LastStart(kept: seq<RawEvent>): Option<Stamp> {
    if kept == [] then None else Some(kept[|kept| - 1].start)
  }

  /**
    read_psg_event over already-parsed events, with the duration unit as a parameter
    (the hypnogram reader's copy of the loop uses milliseconds). The spacing check
    only prints: the printed positions are returned as `warned`.
  */
  method ReadEventsWith(events: seq<RawEvent>, accepted: seq<string>, checkConsecutive: bool, perSecond: real)
    returns (res: EventList, warned: seq<nat>)
    ensures res == EventListOf(Accepted(events, accepted), perSecond)
    ensures warned == if checkConsecutive then Warnings(Accepted(events, accepted)) else []
  {
    var starts: seq<Stamp> := [];
    var stops: seq<Stamp> := [];
    var durations: seq<real> := [];
    var types: seq<string> := [];
    var previous: Option<Stamp> := None;
    warned := [];
    ghost var kept: seq<RawEvent> := [];
    var i := 0;
    while i < |events|
      invariant 0 <= i <= |events|
      invariant kept == Accepted(events[..i], accepted)
      invariant (starts, stops, durations, types)
             == (Starts(kept), Stops(kept), Durations(kept, perSecond), Types(kept))
      invariant checkConsecutive ==> previous == LastStart(kept) && warned == Warnings(kept)
      invariant !checkConsecutive ==> warned == []
    {
      var e := events[i];
      AcceptedStep(events, i, accepted);
      if e.kind in accepted {
        KeptStep(kept, e, perSecond);
        assert |starts| == |kept|;
        if checkConsecutive {
          assert previous.Some? <==> kept != [];
          if previous.Some? && OffBeat(previous.value, e.start) {
            warned := warned + [|starts|];
          }
          previous := Some(e.start);
        }
        starts := starts + [e.start];
        stops := stops + [e.stop];
        durations := durations + [Duration(e, perSecond)];
        types := types + [e.kind];
        kept := kept + [e];
      }
      i := i + 1;
    }
    assert events[..i] == events;
    res := EventList(starts, stops, durations, types, |starts|);
  }

  lemma AcceptedStep(events: seq<RawEvent>, i: nat, accepted: seq<string>)
    requires i < |events|
    ensures events[i].kind in accepted ==>
              Accepted(events[..i + 1], accepted) == Accepted(events[..i], accepted) + [events[i]]
    ensures events[i].kind !in accepted ==>
              Accepted(events[..i + 1], accepted) == Accepted(events[..i], accepted)
  {
    var p := events[..i + 1];
    assert p[..i] == events[..i] && p[i] == events[i];
    if events[i].kind !in accepted {
      assert Accepted(p, accepted) == Accepted(events[..i], accepted) + [];
    }
  }

  /** What one more accepted event adds to each vector the loop builds. */
  lemma KeptStep(kept: seq<RawEvent>, e: RawEvent, perSecond: real)
    ensures Starts(kept + [e]) == Starts(kept) + [e.start]
    ensures Stops(kept + [e]) == Stops(kept) + [e.stop]
    ensures Types(kept + [e]) == Types(kept) + [e.kind]
    ensures Durations(kept + [e], perSecond) == Durations(kept, perSecond) + [Duration(e, perSecond)]
    ensures LastStart(kept + [e]) == Some(e.start)
    ensures Warnings(kept + [e]) == Warnings(kept)
      + (if kept != [] && OffBeat(LastStart(kept).value, e.start) then [|kept|] else [])
  {
    var d := kept + [e];
    assert d[..|d| - 1] == kept && d[|d| - 1] == e;
  }

  /** read_psg_event(fname, events_accepted, check_consecutive): durations in seconds. */
  method ReadPsgEvent(events: seq<RawEvent>, accepted: seq<string>, checkConsecutive: bool)
    returns (res: EventList, warned: seq<nat>)
    ensures res == EventListOf(Accepted(events, accepted), 1.0)
    ensures warned == if checkConsecutive then Warnings(Accepted(events, accepted)) else []
  {
    res, warned := ReadEventsWith(events, accepted, checkConsecutive, 1.0);
  }

  // ---- what the loop keeps ----

  /** Filtering a concatenation filters each part, in order. */
  lemma {:induction false} AcceptedAppend(a: seq<RawEvent>, b: seq<RawEvent>, accepted: seq<string>)
    ensures Accepted(a + b, accepted) == Accepted(a, accepted) + Accepted(b, accepted)
    decreases |b|
  {
    if b == [] {
      assert a + b == a;
    } else {
      var b' := b[..|b| - 1];
      assert (a + b)[..|a + b| - 1] == a + b';
      AcceptedAppend(a, b', accepted);
    }
  }

  /** An event is kept exactly when it occurs in the input and its type is accepted. */
  lemma {:induction false} AcceptedMembers(events: seq<RawEvent>, accepted: seq<string>)
    ensures forall e :: e in Accepted(events, accepted) <==> e in events && e.kind in accepted
    decreases |events|
  {
    if events != [] {
      var p := events[..|events| - 1];
      AcceptedMembers(p, accepted);
      assert events == p + [events[|events| - 1]];
    }
  }

  /** The four vectors line up with the kept events, and the count is their length. */
  lemma {:induction false} EventListShape(kept: seq<RawEvent>, perSecond: real)
    ensures var r := EventListOf(kept, perSecond);
      && |r.tStart| == |r.tStop| == |r.duration| == |r.eventType| == r.nEvents == |kept|
      && forall k :: 0 <= k < |kept| ==>
           && r.tStart[k] == kept[k].start && r.tStop[k] == kept[k].stop && r.eventType[k] == kept[k].kind
           && r.duration[k] == Duration(kept[k], perSecond)
    decreases |kept|
  {
    if kept != [] {
      var p := kept[..|kept| - 1];
      EventListShape(p, perSecond);
    }
  }

  /** The check prints at position k exactly when accepted event k is not 30 s after event k - 1. */
  lemma {:induction false} WarningsSpec(kept: seq<RawEvent>)
    ensures forall k :: k in Warnings(kept) ==> 1 <= k < |kept| && OffBeat(kept[k - 1].start, kept[k].start)
    ensures forall k :: 1 <= k < |kept| && OffBeat(kept[k - 1].start, kept[k].start) ==> k in Warnings(kept)
    decreases |kept|
  {
    if |kept| > 1 {
      var n := |kept|;
      var p := kept[..n - 1];
      WarningsSpec(p);
      var tail := if OffBeat(kept[n - 2].start, kept[n - 1].start) then [n - 1] else [];
      assert Warnings(kept) == Warnings(p) + tail;
      forall k | k in Warnings(kept) ensures 1 <= k < n && OffBeat(kept[k - 1].start, kept[k].start) {
        if k in Warnings(p) {
          assert p[k - 1] == kept[k - 1] && p[k] == kept[k];
        }
      }
      forall k | 1 <= k < n && OffBeat(kept[k - 1].start, kept[k].start) ensures k in Warnings(kept) {
        if k < n - 1 {
          assert p[k - 1] == kept[k - 1] && p[k] == kept[k];
        }
      }
    }
  }

  // ---- firstindex / lastindex ----

  /** firstindex(x, val): x.index(val), or 1 when val is absent. */
  function FirstIndex(x: seq<string>, val: string): (r: int)
    ensures val in x ==> 0 <= r < |x| && x[r] == val && forall j :: 0 <= j < r ==> x[j] != val
    ensures val !in x ==> r == 1
  {
    if val in x then
      var i := Channels.IndexOf(x, val);
      assert forall j :: 0 <= j < i ==> x[j] == x[..i][j];
      i
    else 1
  }

  function Reverse(x: seq<string>): (r: seq<string>)
    ensures |r| == |x| && forall i :: 0 <= i < |x| ==> r[i] == x[|x| - 1 - i]
  {
    seq(|x|, i requires 0 <= i < |x| => x[|x| - 1 - i])
  }

  /** lastindex(x, val) as written: len(x) - x[::-1].index(val) - 1, or len(x) when val is absent. */
  function LastIndex(x: seq<string>, val: string): int {
    var rev := Reverse(x);
    if val in rev then |x| - Channels.IndexOf(rev, val) - 1 else |x|
  }

  /** lastindex finds the last occurrence; its fallback len(x) is one past the end. */
  lemma LastIndexSpec(x: seq<string>, val: string)
    ensures val in x ==> var r := LastIndex(x, val);
      0 <= r < |x| && x[r] == val && forall j :: r < j < |x| ==> x[j] != val
    ensures val !in x ==> LastIndex(x, val) == |x|
  {
    var rev := Reverse(x);
    if val in x {
      var k :| 0 <= k < |x| && x[k] == val;
      assert rev[|x| - 1 - k] == val;
      var i := Channels.IndexOf(rev, val);
      var r := |x| - i - 1;
      assert x[r] == rev[i];
      forall j | r < j < |x| ensures x[j] != val {
        assert rev[|x| - 1 - j] == x[j] && rev[..i][|x| - 1 - j] == rev[|x| - 1 - j];
      }
    } else {
      forall i | 0 <= i < |rev| ensures rev[i] != val {
        assert rev[i] == x[|x| - 1 - i];
      }
    }
  }

  // ---- hypnogram_to_dataset ----

  /** The keys of hyp_val, the stage table of hypnogram_to_dataset. */
  const StageNames: seq<string> := ["SLEEP-MT", "SLEEP-REM", "SLEEP-S0", "SLEEP-S1",
                                    "SLEEP-S2", "SLEEP-S3", "LIGHTS-OFF", "LIGHTS-ON"]

  /** hyp_val[t]; KeyError for a type the table does not list. */
  function StageCode(t: string): (r: Result<int>)
    ensures r.Err? <==> t !in StageNames
    ensures r.Err? ==> r.error == KeyError(t)
    ensures r.Ok? ==> -6 <= r.value <= 0
  {
    if t == "SLEEP-MT" then Ok(-1)
    else if t == "SLEEP-REM" then Ok(-3)
    else if t == "SLEEP-S0" then Ok(-2)
    else if t == "SLEEP-S1" then Ok(-4)
    else if t == "SLEEP-S2" then Ok(-5)
    else if t == "SLEEP-S3" then Ok(-6)
    else if t == "LIGHTS-OFF" || t == "LIGHTS-ON" then Ok(0)
    else Err(KeyError(t))
  }

  /** [hyp_val[i] for i in types]: the first unknown type raises. */
  function StageCodes(types: seq<string>): (r: Result<seq<int>>)
    ensures r.Ok? <==> forall k :: 0 <= k < |types| ==> types[k] in StageNames
    ensures r.Ok? ==> |r.value| == |types| && forall k :: 0 <= k < |types| ==> Ok(r.value[k]) == StageCode(types[k])
    decreases |types|
  {
    if types == [] then Ok([])
    else
      var c :- StageCode(types[0]);
      var rest := StageCodes(types[1..]);
      if rest.Err? then
        assert exists k :: 0 < k < |types| && types[k] !in StageNames by {
          var k' :| 0 <= k' < |types[1..]| && types[1..][k'] !in StageNames;
          assert types[k' + 1] == types[1..][k'];
        }
        Err(rest.error)
      else
        Ok([c] + rest.value)
  }

  /** np.arange(0, 30 * n, step=30). */
  function TimeAxis(n: nat): (t: seq<Value>)
    ensures |t| == n && forall k :: 0 <= k < n ==> t[k] == IntVal(30 * k)
  {
    seq(n, k requires 0 <= k < n => IntVal(30 * k))
  }

  /**
    hypnogram_to_dataset(res): the whole list (i_start = 0, i_stop = len(event_type)),
    time_start from the first start time, the stage codes and a 30 s time axis.
  */
  function HypnogramToDataset(res: EventList): Result<Dataset> {
    var n := |res.eventType|;
    var starts := res.tStart[..if n < |res.tStart| then n else |res.tStart|];
    if starts == [] then Err(IndexError)
    else
      var codes :- StageCodes(res.eventType);
      var meta := [("time_start", TimeVal(starts[0].time)), ("sampling_rate", RealVal(1.0 / 30.0))];
      Ok([Record(meta, [("hypnogram", IntVals(codes)), ("time", TimeAxis(|codes|))])])
  }

  /**
    The hypnogram dataset exists exactly when there is a first event and every type
    has a stage code; it is one record whose hypnogram and time axis have one entry
    per event, the k-th time being 30 k seconds.
  */
  lemma HypnogramDataset(res: EventList)
    ensures var r := HypnogramToDataset(res);
      r.Ok? <==> |res.eventType| > 0 && |res.tStart| > 0
                 && forall k :: 0 <= k < |res.eventType| ==> res.eventType[k] in StageNames
    ensures var r := HypnogramToDataset(res);
      |res.eventType| == 0 || |res.tStart| == 0 ==> r == Err(IndexError)
    ensures var r := HypnogramToDataset(res);
      r.Ok? ==> var n := |res.eventType|;
        && |r.value| == 1
        && r.value[0].meta == [("time_start", TimeVal(res.tStart[0].time)), ("sampling_rate", RealVal(1.0 / 30.0))]
        && Keys(r.value[0].data) == ["hypnogram", "time"]
        && |r.value[0].data[0].1| == |r.value[0].data[1].1| == n
        && forall k :: 0 <= k < n ==>
             && StageCode(res.eventType[k]).Ok?
             && r.value[0].data[0].1[k] == IntVal(StageCode(res.eventType[k]).value)
             && r.value[0].data[1].1[k] == IntVal(30 * k)
  {
    var n := |res.eventType|;
    var starts := res.tStart[..if n < |res.tStart| then n else |res.tStart|];
    if starts != [] {
      assert starts[0] == res.tStart[0];
    }
    if HypnogramToDataset(res).Ok? {
      var d := HypnogramToDataset(res).value[0].data;
      assert Keys(d) == ["hypnogram", "time"];
    }
  }

  /** The hypnogram dataset has one channel, "hypnogram", besides its time vector. */
  lemma HypnogramChannels(res: EventList)
    requires HypnogramToDataset(res).Ok?
    ensures Channels.ChannelsInSet(HypnogramToDataset(res).value) == Ok(["hypnogram"])
  {
    var rec := HypnogramToDataset(res).value[0];
    var ks := Keys(rec.data);
    assert ks == ["hypnogram", "time"];
    assert HypnogramToDataset(res).value == [rec];
    Channels.ChannelsOfRecord(rec);
    assert Channels.IndexOf(ks, "time") == 1;
    assert Channels.RemoveAt(ks, 1) == ["hypnogram"];
  }

  // ---- psg_event_to_dataset ----

  /** [(i - t0).total_seconds() for i in starts]. */
  function Offsets(starts: seq<Stamp>, t0: Stamp): (r: seq<Value>)
    ensures |r| == |starts| && forall k :: 0 <= k < |starts| ==> r[k] == RealVal(Seconds(t0, starts[k]))
  {
    seq(|starts|, k requires 0 <= k < |starts| => RealVal(Seconds(t0, starts[k])))
  }

  /** psg_event_to_dataset(res): the events, their offsets from the first start and their durations. */
  function PsgEventToDataset(res: EventList): Result<Dataset> {
    if res.tStart == [] then Err(IndexError)
    else
      var t0 := res.tStart[0];
      var meta := [("time_start", TimeVal(t0.time)), ("sampling_rate", IntVal(0))];
      Ok([Record(meta, [("event", StrVals(res.eventType)), ("time", Offsets(res.tStart, t0)),
                        ("duration", RealVals(res.duration))])])
  }

  /**
    The event dataset exists exactly when there is a first event. Its time vector starts
    at 0 and holds each start's offset from the first; events and durations are copied in order.
  */
  lemma PsgEventDataset(res: EventList)
    ensures PsgEventToDataset(res).Err? <==> res.tStart == []
    ensures PsgEventToDataset(res).Err? ==> PsgEventToDataset(res).error == IndexError
    ensures var r := PsgEventToDataset(res);
      r.Ok? ==> var d := r.value[0].data;
        && |r.value| == 1 && Keys(d) == ["event", "time", "duration"]
        && r.value[0].meta == [("time_start", TimeVal(res.tStart[0].time)), ("sampling_rate", IntVal(0))]
        && |d[0].1| == |res.eventType| && |d[1].1| == |res.tStart| && |d[2].1| == |res.duration|
        && d[1].1[0] == RealVal(0.0)
        && (forall k :: 0 <= k < |res.eventType| ==> d[0].1[k] == StrVal(res.eventType[k]))
        && (forall k :: 0 <= k < |res.tStart| ==> d[1].1[k] == RealVal(Seconds(res.tStart[0], res.tStart[k])))
        && (forall k :: 0 <= k < |res.duration| ==> d[2].1[k] == RealVal(res.duration[k]))
  {
    if res.tStart != [] {
      var d := PsgEventToDataset(res).value[0].data;
      assert Keys(d) == ["event", "time", "duration"];
    }
  }

  /** The event dataset has the channels "event" and "duration" besides its time vector. */
  lemma PsgEventChannels(res: EventList)
    requires PsgEventToDataset(res).Ok?
    ensures Channels.ChannelsInSet(PsgEventToDataset(res).value) == Ok(["event", "duration"])
  {
    var rec := PsgEventToDataset(res).value[0];
    var ks := Keys(rec.data);
    assert ks == ["event", "time", "duration"];
    assert PsgEventToDataset(res).value == [rec];
    Channels.ChannelsOfRecord(rec);
    assert Channels.IndexOf(ks, "time") == 1;
    assert Channels.RemoveAt(ks, 1) == ["event", "duration"];
  }

  // ---- read_hypnogram / read_arousal ----

  /** The default events_accepted of read_hypnogram. */
  const SleepStages: seq<string> := ["SLEEP-MT", "SLEEP-REM", "SLEEP-S0", "SLEEP-S1", "SLEEP-S2", "SLEEP-S3"]

  /** read_hypnogram: the events with the spacing check, as a hypnogram dataset. */
  method ReadHypnogram(events: seq<RawEvent>, accepted: seq<string>) returns (r: Result<Dataset>, warned: seq<nat>)
    ensures r == HypnogramToDataset(EventListOf(Accepted(events, accepted), 1.0))
    ensures warned == Warnings(Accepted(events, accepted))
  {
    var res;
    res, warned := ReadPsgEvent(events, accepted, true);
    r := HypnogramToDataset(res);
  }

  /** read_arousal: the events without the spacing check, as an event dataset. */
  method ReadArousal(events: seq<RawEvent>, accepted: seq<string>) returns (r: Result<Dataset>)
    ensures r == PsgEventToDataset(EventListOf(Accepted(events, accepted), 1.0))
  {
    var res, warned := ReadPsgEvent(events, accepted, false);
    r := PsgEventToDataset(res);
  }

  /**
    With the default accepted types every kept event has a stage code, so read_hypnogram
    fails only when no event is accepted (IndexError on the first start time).
  */
  lemma DefaultHypnogramOk(events: seq<RawEvent>)
    ensures var kept := Accepted(events, SleepStages);
      var r := HypnogramToDataset(EventListOf(kept, 1.0));
      && (r.Ok? <==> kept != [])
      && (kept == [] ==> r == Err(IndexError))
  {
    var kept := Accepted(events, SleepStages);
    var res := EventListOf(kept, 1.0);
    AcceptedMembers(events, SleepStages);
    EventListShape(kept, 1.0);
    forall k | 0 <= k < |res.eventType| ensures res.eventType[k] in StageNames {
      assert kept[k] in kept;
      assert StageCode(kept[k].kind).Ok?;
    }
    HypnogramDataset(res);
  }
}
