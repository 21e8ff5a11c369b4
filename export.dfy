/**
  The export driver (export_hdf5): for every configured source, read it with the
  reader its data_type selects, then for every map of that source write the
  selected channels under the map's path and, when the map has "meta", the
  metadata groups. A ["*"] channel list is resolved in the map itself.
*/
module Export {
  import opened Base
  import Dicts
  import Channels
  import H5

  /** The keys of the reader registry. */
  datatype DataType =
    | Edf | MyDarwin | Empatica
    | BodyguardFeatures | BodyguardFeaturesMisc | BodyguardIbi | BodyguardAcc
    | Hypnogram | Shimmer

  function Name(t: DataType): string {
    match t
    case Edf => "edf"
    case MyDarwin => "mydarwin"
    case Empatica => "empatica"
    case BodyguardFeatures => "bodyguard_features"
    case BodyguardFeaturesMisc => "bodyguard_features_misc"
    case BodyguardIbi => "bodyguard_ibi"
    case BodyguardAcc => "bodyguard_acc"
    case Hypnogram => "hypnogram"
    case Shimmer => "shimmer"
  }

  const RegistryNames: seq<string> := [
    "edf", "mydarwin", "empatica", "bodyguard_features", "bodyguard_features_misc",
    "bodyguard_ibi", "bodyguard_acc", "hypnogram", "shimmer"]

  /** readerlist[data_type]: None where the dict lookup raises KeyError. */
  function LookupReader(name: string): (r: Option<DataType>)
    ensures r.Some? <==> name in RegistryNames
    ensures r.Some? ==> Name(r.value) == name
  {
    if name == "edf" then Some(Edf)
    else if name == "mydarwin" then Some(MyDarwin)
    else if name == "empatica" then Some(Empatica)
    else if name == "bodyguard_features" then Some(BodyguardFeatures)
    else if name == "bodyguard_features_misc" then Some(BodyguardFeaturesMisc)
    else if name == "bodyguard_ibi" then Some(BodyguardIbi)
    else if name == "bodyguard_acc" then Some(BodyguardAcc)
    else if name == "hypnogram" then Some(Hypnogram)
    else if name == "shimmer" then Some(Shimmer)
    else None
  }

  /** Every registered reader is found under its own name. */
  lemma RegistryRoundTrip(t: DataType)
    ensures LookupReader(Name(t)) == Some(t)
  {
    match t
    case Edf =>
    case MyDarwin =>
    case Empatica =>
    case BodyguardFeatures =>
    case BodyguardFeaturesMisc =>
    case BodyguardIbi =>
    case BodyguardAcc =>
    case Hypnogram =>
    case Shimmer =>
  }

  /** The device readers, which are not part of this model: what readerlist[t](filename) returns. */
  type Reader = (DataType, string) -> Dataset

  /** One entry of a source's "maps": {"path", "channels", "shared_group", optional "meta"}. */
  datatype DsetMap = DsetMap(path: H5.Path, channels: seq<string>, sharedGroup: bool,
                             meta: Option<seq<H5.MetaGroup>>)

  /** One entry of the config's "datasets": {"data_type", "filename", "maps"}. */
  datatype Source = Source(dataType: string, filename: string, maps: seq<DsetMap>)

  /**
    One map: resolve ["*"], write the data, then the metadata with the resolved
    channels; returns the container and the map as the loop leaves it.
  */
  function MapF(m: H5.Nodes, data: Dataset, mp: DsetMap): (r: Result<(H5.Nodes, DsetMap)>)
    ensures r.Ok? ==> H5.Extends(m, r.value.0)
  {
    var chans :- if mp.channels == ["*"] then Channels.ChannelsInSet(data) else Ok(mp.channels);
    var mp1 := mp.(channels := chans);
    var m2 :- WriteMapF(m, data, mp1);
    Ok((m2, Resolved(mp1)))
  }

  /** A map with its channels resolved: add_data_h5, then add_metadata_h5 when it has "meta". */
  function WriteMapF(m: H5.Nodes, data: Dataset, mp: DsetMap): (r: Result<H5.Nodes>)
    ensures r.Ok? ==> H5.Extends(m, r.value)
  {
    var m1 :- H5.AddDataF(m, mp.path, data, mp.channels, mp.sharedGroup);
    if mp.meta.None? then Ok(m1)
    else
      var m2 :- H5.MetaH5F(m1, mp.path, mp.meta.value, mp.channels);
      H5.ExtendsTrans(m, m1, m2);
      Ok(m2)
  }

  /** The map as add_metadata_h5 leaves it: each ["*"] selector of its metadata rewritten. */
  function Resolved(mp: DsetMap): DsetMap {
    if mp.meta.None? then mp else mp.(meta := Some(H5.Rewritten(mp.meta.value, mp.channels)))
  }

  /** The maps of one source, in their listed order, all on the same data. */
  function MapsF(m: H5.Nodes, data: Dataset, maps: seq<DsetMap>): (r: Result<(H5.Nodes, seq<DsetMap>)>)
    ensures r.Ok? ==> H5.Extends(m, r.value.0) && |r.value.1| == |maps|
    decreases |maps|
  {
    if maps == [] then Ok((m, []))
    else
      var s :- MapF(m, data, maps[0]);
      var t :- MapsF(s.0, data, maps[1..]);
      H5.ExtendsTrans(m, s.0, t.0);
      Ok((t.0, [s.1] + t.1))
  }

  /** One source: look its reader up, read it once, then process its maps. */
  function SourceF(m: H5.Nodes, read: Reader, src: Source): (r: Result<(H5.Nodes, Source)>)
    ensures LookupReader(src.dataType).None? ==> r == Err(KeyError(src.dataType))
    ensures r.Ok? ==> H5.Extends(m, r.value.0)
  {
    match LookupReader(src.dataType)
    case None => Err(KeyError(src.dataType))
    case Some(t) =>
      var s :- MapsF(m, read(t, src.filename), src.maps);
      Ok((s.0, src.(maps := s.1)))
  }

  /** The loop over the configured sources, in config order. */
  function ExportF(m: H5.Nodes, read: Reader, sources: seq<Source>): (r: Result<(H5.Nodes, seq<Source>)>)
    ensures r.Ok? ==> H5.Extends(m, r.value.0) && |r.value.1| == |sources|
    decreases |sources|
  {
    if sources == [] then Ok((m, []))
    else
      var s :- SourceF(m, read, sources[0]);
      var t :- ExportF(s.0, read, sources[1..]);
      H5.ExtendsTrans(m, s.0, t.0);
      Ok((t.0, [s.1] + t.1))
  }

  /** The sources already processed, put in front of what the rest of the loop yields. */
  function Prepend<T>(done: seq<T>, r: Result<(H5.Nodes, seq<T>)>): Result<(H5.Nodes, seq<T>)> {
    if r.Ok? then Ok((r.value.0, done + r.value.1)) else r
  }

  lemma PrependEmpty<T>(r: Result<(H5.Nodes, seq<T>)>)
    ensures Prepend([], r) == r
  {
    if r.Ok? {
      assert [] + r.value.1 == r.value.1;
    }
  }

  lemma PrependTwice<T>(a: seq<T>, b: seq<T>, r: Result<(H5.Nodes, seq<T>)>)
    ensures Prepend(a, Prepend(b, r)) == Prepend(a + b, r)
  {
    if r.Ok? {
      assert a + (b + r.value.1) == (a + b) + r.value.1;
    }
  }

  /**
    Storing the item a loop turn produced at position i of the list moves it from the
    pending outcome to the finished prefix.
  */
  lemma PrependAdvance<T>(total: Result<(H5.Nodes, seq<T>)>, cur: seq<T>, orig: seq<T>, i: nat, x: T,
                          tail: Result<(H5.Nodes, seq<T>)>)
    requires i < |cur| == |orig| && cur[i..] == orig[i..]
    requires total == Prepend(cur[..i], Prepend([x], tail))
    ensures cur[i := x][i + 1..] == orig[i + 1..]
    ensures total == Prepend(cur[i := x][..i + 1], tail)
  {
    PrependTwice(cur[..i], [x], tail);
    assert cur[i := x][..i + 1] == cur[..i] + [x];
    assert cur[i := x][i + 1..] == cur[i + 1..] == cur[i..][1..];
  }

  /** One turn of the loop over the sources. */
  lemma ExportStep(m: H5.Nodes, read: Reader, sources: seq<Source>)
    requires sources != []
    ensures ExportF(m, read, sources) ==
      match SourceF(m, read, sources[0])
      case Err(x) => Err(x)
      case Ok(s) => Prepend([s.1], ExportF(s.0, read, sources[1..]))
  {
  }

  /** Processing s1 + s2 is processing s1, then s2 on the container s1 leaves. */
  lemma {:induction false} ExportAppend(m: H5.Nodes, read: Reader, s1: seq<Source>, s2: seq<Source>)
    ensures ExportF(m, read, s1).Err? ==> ExportF(m, read, s1 + s2) == ExportF(m, read, s1)
    ensures ExportF(m, read, s1).Ok? ==>
      var a := ExportF(m, read, s1).value;
      ExportF(m, read, s1 + s2) == Prepend(a.1, ExportF(a.0, read, s2))
    decreases |s1|
  {
    if s1 == [] {
      assert s1 + s2 == s2;
      PrependEmpty(ExportF(m, read, s2));
    } else {
      assert (s1 + s2)[0] == s1[0] && (s1 + s2)[1..] == s1[1..] + s2;
      var s := SourceF(m, read, s1[0]);
      if s.Ok? {
        var m1, src1 := s.value.0, s.value.1;
        ExportAppend(m1, read, s1[1..], s2);
        assert ExportF(m, read, s1 + s2) == Prepend([src1], ExportF(m1, read, s1[1..] + s2));
        var t := ExportF(m1, read, s1[1..]);
        if t.Ok? {
          assert ExportF(m, read, s1).value == (t.value.0, [src1] + t.value.1);
          PrependTwice([src1], t.value.1, ExportF(t.value.0, read, s2));
        }
      }
    }
  }

  /** A ["*"] list becomes every data key of the dataset except "time"; any other list is kept. */
  lemma MapChannels(m: H5.Nodes, data: Dataset, mp: DsetMap)
    requires MapF(m, data, mp).Ok?
    ensures var mp' := MapF(m, data, mp).value.1;
      && mp'.path == mp.path && mp'.sharedGroup == mp.sharedGroup
      && (mp.channels != ["*"] ==> mp'.channels == mp.channels)
      && (mp.channels == ["*"] ==>
            Distinct(mp'.channels) &&
            forall x :: x in mp'.channels <==> x in Channels.AllKeys(data) && x != "time")
  {
    MapShape(m, data, mp);
    if mp.channels == ["*"] {
      Channels.ChannelsInSetMembers(data);
    }
  }

  /** The map a successful MapF returns: the channel list resolved, everything else as given. */
  lemma MapShape(m: H5.Nodes, data: Dataset, mp: DsetMap)
    requires MapF(m, data, mp).Ok?
    ensures mp.channels == ["*"] ==> Channels.ChannelsInSet(data).Ok?
    ensures var mp' := MapF(m, data, mp).value.1;
      && mp'.path == mp.path && mp'.sharedGroup == mp.sharedGroup
      && mp'.channels == if mp.channels == ["*"] then Channels.ChannelsInSet(data).value else mp.channels
  {
    var chans := if mp.channels == ["*"] then Channels.ChannelsInSet(data) else Ok(mp.channels);
    assert chans.Ok?;
    var mp1 := mp.(channels := chans.value);
    assert WriteMapF(m, data, mp1).Ok?;
    assert MapF(m, data, mp).value.1 == Resolved(mp1);
  }

  /**
    The metadata write comes after the data write: in per-channel mode each
    selected record's data leaf keeps its samples, and the info value of the last
    metadata group that sets key k on channel c is what path/c ends up holding.
  */
  lemma MapSeparateLeaf(m: H5.Nodes, data: Dataset, mp: DsetMap, i: nat)
    requires MapF(m, data, mp).Ok? && !mp.sharedGroup
    requires i < |data| && H5.Matches(data[i], MapF(m, data, mp).value.1.channels)
    ensures var r, ch := MapF(m, data, mp).value.0, H5.FirstChannel(data[i]).value;
      mp.path + [ch, "data"] in r && r[mp.path + [ch, "data"]].kind == H5.Leaf(H5.Column(data[i], ch))
  {
    var chans := MapF(m, data, mp).value.1.channels;
    MapShape(m, data, mp);
    var mp1 := mp.(channels := chans);
    assert MapF(m, data, mp).value.0 == WriteMapF(m, data, mp1).value;
    WriteMapAfterData(m, data, mp1);
    H5.SeparateLeaves(m, mp.path, data, chans, i);
  }

  /** The metadata write only adds attributes to what add_data_h5 wrote. */
  lemma WriteMapAfterData(m: H5.Nodes, data: Dataset, mp: DsetMap)
    requires WriteMapF(m, data, mp).Ok?
    ensures H5.AddDataF(m, mp.path, data, mp.channels, mp.sharedGroup).Ok?
    ensures H5.Extends(H5.AddDataF(m, mp.path, data, mp.channels, mp.sharedGroup).value, WriteMapF(m, data, mp).value)
  {
  }

  lemma MapMetadataWins(m: H5.Nodes, data: Dataset, mp: DsetMap, g: nat, c: string, k: string)
    requires MapF(m, data, mp).Ok? && mp.meta.Some?
    requires var groups, chans := mp.meta.value, MapF(m, data, mp).value.1.channels;
      && (forall j :: 0 <= j < |groups| ==> Dicts.WellFormed(groups[j].info))
      && g < |groups| && H5.Selects(groups[g], chans, c, k)
      && (forall j :: g < j < |groups| ==> !H5.Selects(groups[j], chans, c, k))
    ensures H5.HoldsAttr(MapF(m, data, mp).value.0, mp.path + [c], k,
                         Dicts.Get(mp.meta.value[g].info, k).value)
  {
    var chans := MapF(m, data, mp).value.1.channels;
    var m1 := H5.AddDataF(m, mp.path, data, chans, mp.sharedGroup).value;
    H5.MetaH5Sets(m1, mp.path, mp.meta.value, chans, g, c, k);
  }

  /** The exporter's state: the configured sources, whose maps it rewrites, and the output file. */
  class Exporter {
    var datasets: seq<Source>
    const fid: H5.Container

    ghost predicate Valid()
      reads this, fid
    {
      fid.Valid()
    }

    /** init_h5 before any source is read: the output starts empty. */
    constructor (sources: seq<Source>)
      ensures Valid() && fresh(fid)
      ensures datasets == sources && fid.nodes == map[]
    {
      datasets := sources;
      fid := new H5.Container.Init();
    }

    /** The body of the inner loop for one map. */
    method ProcessMap(data: Dataset, mp: DsetMap) returns (mp': DsetMap, r: Outcome)
      requires Valid()
      modifies fid
      ensures Valid() && H5.Extends(old(fid.nodes), fid.nodes)
      ensures r == MapF(old(fid.nodes), data, mp).ToOutcome()
      ensures r.Pass? ==> (fid.nodes, mp') == MapF(old(fid.nodes), data, mp).value
    {
      mp' := mp;
      if mp.channels == ["*"] {
        var cs := Channels.GetChannelsInSet(Channels.Many(data));
        if cs.Err? {
          return mp', Fail(cs.error);
        }
        mp' := mp'.(channels := cs.value);
      }
      r := fid.AddDataH5(mp'.path, data, mp'.channels, mp'.sharedGroup);
      if r.Fail? {
        return;
      }
      if mp'.meta.Some? {
        var meta';
        meta', r := fid.AddMetadataH5(mp'.path, mp'.meta.value, mp'.channels);
        if r.Fail? {
          return;
        }
        mp' := mp'.(meta := Some(meta'));
      }
    }

    /** The inner loop over one source's maps, in order. */
    method ProcessMaps(data: Dataset, maps: seq<DsetMap>) returns (maps': seq<DsetMap>, r: Outcome)
      requires Valid()
      modifies fid
      ensures Valid() && H5.Extends(old(fid.nodes), fid.nodes)
      ensures r == MapsF(old(fid.nodes), data, maps).ToOutcome()
      ensures r.Pass? ==> (fid.nodes, maps') == MapsF(old(fid.nodes), data, maps).value
    {
      maps' := maps;
      var j := 0;
      assert maps[j..] == maps;
      PrependEmpty(MapsF(fid.nodes, data, maps));
      while j < |maps|
        invariant Valid() && H5.Extends(old(fid.nodes), fid.nodes)
        invariant 0 <= j <= |maps| && |maps'| == |maps|
        invariant maps'[j..] == maps[j..]
        invariant MapsF(old(fid.nodes), data, maps) == Prepend(maps'[..j], MapsF(fid.nodes, data, maps[j..]))
      {
        assert maps[j..][0] == maps[j] && maps[j..][1..] == maps[j + 1..];
        ghost var before := fid.nodes;
        var mp', rm := ProcessMap(data, maps[j]);
        if rm.Fail? {
          return maps', rm;
        }
        assert MapsF(before, data, maps[j..]) == Prepend([mp'], MapsF(fid.nodes, data, maps[j + 1..]));
        PrependAdvance(MapsF(old(fid.nodes), data, maps), maps', maps, j, mp', MapsF(fid.nodes, data, maps[j + 1..]));
        maps' := maps'[j := mp'];
        j := j + 1;
      }
      assert maps[j..] == [] && maps'[..j] == maps' && maps' + [] == maps';
      r := Pass;
    }

    /** The body of the loop over the sources: pick the reader, read the file, write its maps. */
    method ProcessSource(read: Reader, src: Source) returns (src': Source, r: Outcome)
      requires Valid()
      modifies fid
      ensures Valid() && H5.Extends(old(fid.nodes), fid.nodes)
      ensures r == SourceF(old(fid.nodes), read, src).ToOutcome()
      ensures r.Pass? ==> (fid.nodes, src') == SourceF(old(fid.nodes), read, src).value
    {
      src' := src;
      var t := LookupReader(src.dataType);
      if t.None? {
        return src', Fail(KeyError(src.dataType));
      }
      var data := read(t.value, src.filename);
      var maps';
      maps', r := ProcessMaps(data, src.maps);
      if r.Fail? {
        return;
      }
      src' := src.(maps := maps');
    }

    /** export_hdf5's loop over the configured sources. */
    method Run(read: Reader) returns (r: Outcome)
      requires Valid()
      modifies this, fid
      ensures Valid() && H5.Extends(old(fid.nodes), fid.nodes)
      ensures r == ExportF(old(fid.nodes), read, old(datasets)).ToOutcome()
      ensures r.Pass? ==> (fid.nodes, datasets) == ExportF(old(fid.nodes), read, old(datasets)).value
    {
      var i := 0;
      assert old(datasets)[i..] == datasets;
      PrependEmpty(ExportF(fid.nodes, read, datasets));
      while i < |datasets|
        invariant Valid() && H5.Extends(old(fid.nodes), fid.nodes)
        invariant 0 <= i <= |datasets| && |datasets| == |old(datasets)|
        invariant datasets[i..] == old(datasets)[i..]
        invariant ExportF(old(fid.nodes), read, old(datasets)) == Prepend(datasets[..i], ExportF(fid.nodes, read, old(datasets)[i..]))
      {
        ghost var rest := old(datasets)[i..];
        assert rest[0] == datasets[i] && rest[1..] == old(datasets)[i + 1..];
        ExportStep(fid.nodes, read, rest);
        var src := datasets[i];
        ghost var before := fid.nodes;
        ghost var step := SourceF(before, read, src);
        var src', rs := ProcessSource(read, src);
        H5.ExtendsTrans(old(fid.nodes), before, fid.nodes);
        if rs.Fail? {
          assert ExportF(before, read, rest) == Err(step.error);
          return rs;
        }
        assert ExportF(before, read, rest) == Prepend([src'], ExportF(fid.nodes, read, rest[1..]));
        PrependAdvance(ExportF(old(fid.nodes), read, old(datasets)), datasets, old(datasets), i, src',
                       ExportF(fid.nodes, read, rest[1..]));
        datasets := datasets[i := src'];
        i := i + 1;
      }
      assert old(datasets)[i..] == [] && datasets[..i] == datasets && datasets + [] == datasets;
      r := Pass;
    }
  }
}
