/**
  utilities_hypnogram: a second copy of the hypnogram reader. Its loop always runs the
  30-second spacing check and stores durations in milliseconds; firstindex, lastindex and
  hypnogram_to_dataset are the same code as in utilities_psg and are used from there.
*/
module Hypnogram {
  import opened Base
  import Psg

  /** read_hypnogram(fname, events_accepted) of utilities_hypnogram. */
  method ReadHypnogram(events: seq<Psg.RawEvent>, accepted: seq<string>) returns (r: Result<Dataset>, warned: seq<nat>)
    ensures r == Psg.HypnogramToDataset(Psg.EventListOf(Psg.Accepted(events, accepted), 1000.0))
    ensures warned == Psg.Warnings(Psg.Accepted(events, accepted))
  {
    var res;
    res, warned := Psg.ReadEventsWith(events, accepted, true, 1000.0);
    r := Psg.HypnogramToDataset(res);
  }

  /**
    The duration unit never reaches the dataset: on the same events, the two
    read_hypnogram functions give the same hypnogram. HypnogramToDataset reads only
    the event types and the first start time and ignores the durations, the only place
    the unit appears, so no proof steps are needed.
  */
  lemma SameAsPsg(events: seq<Psg.RawEvent>, accepted: seq<string>)
    ensures var kept := Psg.Accepted(events, accepted);
      Psg.HypnogramToDataset(Psg.EventListOf(kept, 1000.0)) == Psg.HypnogramToDataset(Psg.EventListOf(kept, 1.0))
  {
  }
}
