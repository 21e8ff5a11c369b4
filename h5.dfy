/**
  The HDF5 writer (utilities_h5), over an abstract container: a map from a
  slash-separated path, held as its list of segments, to a group or a dataset,
  each carrying an attribute dict. `path + "/" + name` is `path + [name]`.

  As h5py does, creating an object also creates its missing ancestor groups.
  Creating an object where one already exists, or below a dataset, fails: this
  is the modelling assumption for the h5py calls the model does not contain.
*/
module H5 {
  import opened Base
  import Dicts
  import Timestamps
  import Channels

  type Path = seq<string>

  /** A group, or a dataset holding its sample values. */
  datatype Kind = Group | Leaf(values: Samples)

  datatype Node = Node(kind: Kind, attrs: map<string, Value>)

  type Nodes = map<Path, Node>

  const EmptyGroup := Node(Group, map[])

  predicate IsAncestor(a: Path, p: Path) {
    1 <= |a| < |p| && a == p[..|a|]
  }

  /** Objects have non-empty paths, and every ancestor of an object exists and is a group. */
  ghost predicate Tree(m: Nodes) {
    && (forall p :: p in m ==> |p| > 0)
    && (forall p, a :: p in m && IsAncestor(a, p) ==> a in m && m[a].kind.Group?)
  }

  /** No object is lost, changes kind or loses an attribute. */
  ghost predicate Extends(m: Nodes, m': Nodes) {
    forall q :: q in m ==> q in m' && m'[q].kind == m[q].kind && m[q].attrs.Keys <= m'[q].attrs.Keys
  }

  lemma ExtendsTrans(m1: Nodes, m2: Nodes, m3: Nodes)
    requires Extends(m1, m2) && Extends(m2, m3)
    ensures Extends(m1, m3)
  {
  }

  /** Whether h5py can create an object at p: p is free and no ancestor is a dataset. */
  predicate CanCreate(m: Nodes, p: Path) {
    |p| > 0 && p !in m && forall a :: IsAncestor(a, p) && a in m ==> m[a].kind.Group?
  }

  /** m with node placed at p and the missing ancestors of p added as empty groups. */
  function Insert(m: Nodes, p: Path, node: Node): (r: Nodes)
    requires |p| > 0 && p !in m
    ensures p in r && r[p] == node
    ensures forall q :: q in m ==> q in r && r[q] == m[q]
    ensures forall q :: q in r ==> q in m || q == p || IsAncestor(q, p)
    ensures forall a :: IsAncestor(a, p) ==> a in r && (a !in m ==> r[a] == EmptyGroup)
  {
    var ancestors := set k | 1 <= k < |p| :: p[..k];
    assert forall a :: IsAncestor(a, p) ==> a in ancestors;
    map q | q in m.Keys + ancestors + {p} :: if q == p then node else if q in m then m[q] else EmptyGroup
  }

  /** create_group(p) / create_dataset(p, ...): fails at an occupied path or below a dataset. */
  function CreateF(m: Nodes, p: Path, node: Node): (r: Result<Nodes>)
    ensures r.Ok? <==> CanCreate(m, p)
    ensures r.Ok? ==> r.value == Insert(m, p, node)
  {
    if |p| == 0 || p in m then Err(PathOccupied(p))
    else if exists a :: IsAncestor(a, p) && a in m && m[a].kind.Leaf? then Err(NotAGroup(p))
    else Ok(Insert(m, p, node))
  }

  lemma InsertTree(m: Nodes, p: Path, node: Node)
    requires Tree(m) && CanCreate(m, p)
    ensures Tree(Insert(m, p, node))
  {
    var r := Insert(m, p, node);
    forall q, a | q in r && IsAncestor(a, q) ensures a in r && r[a].kind.Group? {
      if q in m {
      } else if q == p {
      } else {
        assert IsAncestor(q, p);
        assert a == p[..|a|];
        assert IsAncestor(a, p);
      }
    }
  }

  lemma InsertExtends(m: Nodes, p: Path, node: Node)
    requires |p| > 0 && p !in m
    ensures Extends(m, Insert(m, p, node))
  {
  }

  /** get_group: the object at p when there is one, otherwise a new group there. */
  function GetGroupF(m: Nodes, p: Path): (r: Result<Nodes>)
    ensures p in m ==> r == Ok(m)
    ensures r.Ok? ==> p in r.value && Extends(m, r.value)
    ensures r.Ok? && p !in m ==> r.value[p] == EmptyGroup
  {
    if p in m then Ok(m) else CreateF(m, p, EmptyGroup)
  }

  /** add_metadata's value rule: datetimes become their "%Y%m%dT%H%M%S" string. */
  function ConvertValue(v: Value): (r: Value)
    ensures !v.TimeVal? ==> r == v
    ensures v.TimeVal? ==> r.StrVal?
  {
    match v
    case TimeVal(t) => StrVal(Timestamps.FormatBasic(t))
    case _ => v
  }

  /** A converted datetime is a basic-form string that reads back as the datetime to the second. */
  lemma ConvertTimeRoundTrip(v: Value)
    requires v.TimeVal?
    ensures ConvertValue(v).StrVal? && Timestamps.IsBasicForm(ConvertValue(v).s)
    ensures Timestamps.ParseBasic(ConvertValue(v).s) == Some(v.t.(microsecond := 0))
  {
    Timestamps.FormatParseRoundTrip(v.t);
  }

  /** The attribute dict after `attrs[tag] = val` for every entry of meta, in order. */
  function MetaAttrs(attrs: map<string, Value>, meta: Dict<Value>): map<string, Value>
    decreases |meta|
  {
    if meta == [] then attrs
    else MetaAttrs(attrs[meta[0].0 := ConvertValue(meta[0].1)], meta[1..])
  }

  /** add_metadata sets every key of meta and leaves every other attribute alone. */
  lemma MetaAttrsSpec(attrs: map<string, Value>, meta: Dict<Value>)
    requires Dicts.WellFormed(meta)
    ensures var r := MetaAttrs(attrs, meta);
      && r.Keys == attrs.Keys + (set k | k in Keys(meta))
      && (forall k :: k in Keys(meta) ==> r[k] == ConvertValue(Dicts.Get(meta, k).value))
      && (forall k :: k in attrs && k !in Keys(meta) ==> r[k] == attrs[k])
  {
    MetaAttrsDomain(attrs, meta);
    MetaAttrsKeeps(attrs, meta);
    forall k | k in Keys(meta) ensures MetaAttrs(attrs, meta)[k] == ConvertValue(Dicts.Get(meta, k).value) {
      MetaAttrsSets(attrs, meta, k);
    }
  }

  lemma {:induction false} MetaAttrsDomain(attrs: map<string, Value>, meta: Dict<Value>)
    ensures MetaAttrs(attrs, meta).Keys == attrs.Keys + (set k | k in Keys(meta))
    decreases |meta|
  {
    if meta != [] {
      Dicts.KeysCons(meta);
      MetaAttrsDomain(attrs[meta[0].0 := ConvertValue(meta[0].1)], meta[1..]);
      assert (set k | k in Keys(meta)) == {meta[0].0} + (set k | k in Keys(meta[1..]));
    }
  }

  lemma {:induction false} MetaAttrsKeeps(attrs: map<string, Value>, meta: Dict<Value>)
    ensures var r := MetaAttrs(attrs, meta);
      forall k :: k in attrs && k !in Keys(meta) ==> k in r && r[k] == attrs[k]
    decreases |meta|
  {
    if meta != [] {
      Dicts.KeysCons(meta);
      MetaAttrsKeeps(attrs[meta[0].0 := ConvertValue(meta[0].1)], meta[1..]);
    }
  }

  lemma {:induction false} MetaAttrsSets(attrs: map<string, Value>, meta: Dict<Value>, k: string)
    requires Dicts.WellFormed(meta) && k in Keys(meta)
    ensures var r := MetaAttrs(attrs, meta);
      k in r && r[k] == ConvertValue(Dicts.Get(meta, k).value)
    decreases |meta|
  {
    var k0, rest := meta[0].0, meta[1..];
    var a1 := attrs[k0 := ConvertValue(meta[0].1)];
    Dicts.KeysCons(meta);
    Dicts.WellFormedTail(meta);
    if k == k0 {
      MetaAttrsKeeps(a1, rest);
    } else {
      assert k in Keys(rest);
      MetaAttrsSets(a1, rest, k);
    }
  }

  function SetMeta(m: Nodes, p: Path, meta: Dict<Value>): (r: Nodes)
    requires p in m
    ensures r.Keys == m.Keys && Extends(m, r)
  {
    MetaAttrsKeys(m[p].attrs, meta);
    m[p := m[p].(attrs := MetaAttrs(m[p].attrs, meta))]
  }

  lemma {:induction false} MetaAttrsKeys(attrs: map<string, Value>, meta: Dict<Value>)
    ensures attrs.Keys <= MetaAttrs(attrs, meta).Keys
    decreases |meta|
  {
    if meta != [] {
      MetaAttrsKeys(attrs[meta[0].0 := ConvertValue(meta[0].1)], meta[1..]);
    }
  }

  /** One turn of add_metadata's loop keeps the rest of the file and what is left to set. */
  lemma MetaStep(m0: Nodes, m: Nodes, p: Path, meta: Dict<Value>, i: nat)
    requires p in m0 && p in m && i < |meta|
    requires m == m0[p := m0[p].(attrs := m[p].attrs)]
    requires MetaAttrs(m[p].attrs, meta[i..]) == MetaAttrs(m0[p].attrs, meta)
    ensures var m' := SetAttrF(m, p, meta[i].0, ConvertValue(meta[i].1));
      && m' == m0[p := m0[p].(attrs := m'[p].attrs)]
      && MetaAttrs(m'[p].attrs, meta[i + 1..]) == MetaAttrs(m0[p].attrs, meta)
  {
    var v := ConvertValue(meta[i].1);
    var a' := m[p].attrs[meta[i].0 := v];
    MetaAttrsStep(m[p].attrs, meta, i);
    var n := m0[p].(attrs := a');
    assert m[p].(attrs := a') == n;
    assert m[p := n] == m0[p := n];
  }

  /** Setting the i-th entry first, then the rest, is setting meta[i..]. */
  lemma MetaAttrsStep(a: map<string, Value>, meta: Dict<Value>, i: nat)
    requires i < |meta|
    ensures MetaAttrs(a, meta[i..]) == MetaAttrs(a[meta[i].0 := ConvertValue(meta[i].1)], meta[i + 1..])
  {
    assert meta[i..][0] == meta[i] && meta[i..][1..] == meta[i + 1..];
  }

  /** `obj.attrs[tag] = val`, with the value stored as given. */
  function SetAttrF(m: Nodes, p: Path, tag: string, val: Value): (r: Nodes)
    requires p in m
    ensures r.Keys == m.Keys && Extends(m, r)
  {
    m[p := m[p].(attrs := m[p].attrs[tag := val])]
  }

  // ---- add_metadata_h5 ----

  /** One entry of a mapping's "meta" list: {"channels": [...], "info": {...}}. */
  datatype MetaGroup = MetaGroup(channels: seq<string>, info: Dict<Value>)

  /** A selector that is exactly ["*"] stands for the resolved channels. */
  function Expand(selector: seq<string>, channels: seq<string>): seq<string> {
    if selector == ["*"] then channels else selector
  }

  /** The attribute loop for one channel: get_group(path/channel), then set one info entry. */
  function InfoF(m: Nodes, p: Path, info: Dict<Value>): (r: Result<Nodes>)
    ensures r.Ok? ==> Extends(m, r.value) && (info != [] ==> p in r.value)
    decreases |info|
  {
    if info == [] then Ok(m)
    else
      var m1 :- GetGroupF(m, p);
      InfoF(SetAttrF(m1, p, info[0].0, info[0].1), p, info[1..])
  }

  /** The channel loop of one metadata group. */
  function ChannelsInfoF(m: Nodes, path: Path, chans: seq<string>, info: Dict<Value>): (r: Result<Nodes>)
    ensures r.Ok? ==> Extends(m, r.value)
    decreases |chans|
  {
    if chans == [] then Ok(m)
    else
      var m1 :- InfoF(m, path + [chans[0]], info);
      ChannelsInfoF(m1, path, chans[1..], info)
  }

  /** add_metadata_h5 over the metadata groups, in order. */
  function MetaH5F(m: Nodes, path: Path, groups: seq<MetaGroup>, channels: seq<string>): (r: Result<Nodes>)
    ensures r.Ok? ==> Extends(m, r.value)
    decreases |groups|
  {
    if groups == [] then Ok(m)
    else
      var m1 :- ChannelsInfoF(m, path, Expand(groups[0].channels, channels), groups[0].info);
      MetaH5F(m1, path, groups[1..], channels)
  }

  /** One metadata group of add_metadata_h5: its channel loop, then the groups after it. */
  lemma MetaH5Step(m: Nodes, path: Path, groups: seq<MetaGroup>, channels: seq<string>, g: nat)
    requires g < |groups|
    ensures MetaH5F(m, path, groups[g..], channels) ==
      match ChannelsInfoF(m, path, Rewritten(groups, channels)[g].channels, groups[g].info)
      case Err(x) => Err(x)
      case Ok(m1) => MetaH5F(m1, path, groups[g + 1..], channels)
  {
    assert groups[g..][0] == groups[g] && groups[g..][1..] == groups[g + 1..];
  }

  /** Rewriting the g-th selector in place extends the rewritten prefix by one group. */
  lemma RewriteStep(before: seq<MetaGroup>, after: seq<MetaGroup>, groups: seq<MetaGroup>,
                    channels: seq<string>, g: nat)
    requires g < |groups| && |before| == |groups|
    requires before[..g] == Rewritten(groups, channels)[..g] && before[g..] == groups[g..]
    requires after == before[g := before[g].(channels := Expand(before[g].channels, channels))]
    ensures after[g] == Rewritten(groups, channels)[g]
    ensures after[..g + 1] == Rewritten(groups, channels)[..g + 1] && after[g + 1..] == groups[g + 1..]
  {
    var target := Rewritten(groups, channels);
    assert before[g] == before[g..][0] == groups[g];
    assert after[..g + 1] == before[..g] + [after[g]];
    assert target[..g + 1] == target[..g] + [target[g]];
    assert after[g + 1..] == before[g + 1..] == before[g..][1..];
  }

  /** The metadata groups after add_metadata_h5 has rewritten each ["*"] selector in place. */
  function Rewritten(groups: seq<MetaGroup>, channels: seq<string>): (r: seq<MetaGroup>)
    ensures |r| == |groups|
    ensures forall i :: 0 <= i < |r| ==> r[i].info == groups[i].info
    ensures forall i :: 0 <= i < |r| ==>
      r[i].channels == (if groups[i].channels == ["*"] then channels else groups[i].channels)
  {
    seq(|groups|, i requires 0 <= i < |groups| => groups[i].(channels := Expand(groups[i].channels, channels)))
  }

  /** The object at q exists and its attribute k holds v. */
  ghost predicate HoldsAttr(m: Nodes, q: Path, k: string, v: Value) {
    q in m && k in m[q].attrs && m[q].attrs[k] == v
  }

  /**
    The attribute loop for one path sets every info entry, raw, on the object at p
    (creating it as a group if needed), keeps its other attributes, and leaves every
    other existing object alone.
  */
  lemma {:induction false} InfoSets(m: Nodes, p: Path, info: Dict<Value>)
    requires Dicts.WellFormed(info) && InfoF(m, p, info).Ok?
    ensures var r := InfoF(m, p, info).value;
      && Unmoved(m, r, p)
      && (forall k :: k in Keys(info) ==> HoldsAttr(r, p, k, Dicts.Get(info, k).value))
      && (forall k :: p in m && k in m[p].attrs && k !in Keys(info) ==> HoldsAttr(r, p, k, m[p].attrs[k]))
    decreases |info|
  {
    if info != [] {
      var k0, rest := info[0].0, info[1..];
      Dicts.KeysCons(info);
      Dicts.WellFormedTail(info);
      var m1 := GetGroupF(m, p).value;
      var m2 := SetAttrF(m1, p, k0, info[0].1);
      assert Unmoved(m, m2, p);
      InfoSets(m2, p, rest);
      var r := InfoF(m2, p, rest).value;
      assert r == InfoF(m, p, info).value;
      forall k | k in Keys(info) ensures HoldsAttr(r, p, k, Dicts.Get(info, k).value) {
        if k != k0 {
          assert k in Keys(rest);
        }
      }
    }
  }

  /** An attribute already in place survives an attribute loop that does not set that key there. */
  lemma InfoKeepsAttr(m: Nodes, p: Path, info: Dict<Value>, q: Path, k: string, v: Value)
    requires Dicts.WellFormed(info) && InfoF(m, p, info).Ok?
    requires HoldsAttr(m, q, k, v) && (q != p || k !in Keys(info))
    ensures HoldsAttr(InfoF(m, p, info).value, q, k, v)
  {
    InfoSets(m, p, info);
  }

  /** The channel loop sets every info entry on path/c for each selected channel c. */
  lemma {:induction false} ChannelsInfoSets(m: Nodes, path: Path, chans: seq<string>, info: Dict<Value>, c: string, k: string)
    requires Dicts.WellFormed(info) && ChannelsInfoF(m, path, chans, info).Ok?
    requires c in chans && k in Keys(info)
    ensures HoldsAttr(ChannelsInfoF(m, path, chans, info).value, path + [c], k, Dicts.Get(info, k).value)
    decreases |chans|
  {
    var m1 := InfoF(m, path + [chans[0]], info).value;
    assert ChannelsInfoF(m, path, chans, info) == ChannelsInfoF(m1, path, chans[1..], info);
    if c in chans[1..] {
      ChannelsInfoSets(m1, path, chans[1..], info, c, k);
    } else {
      assert chans[0] == c;
      InfoSets(m, path + [c], info);
      forall c' | c' in chans[1..] ensures path + [c] != path + [c'] {
        assert (path + [c])[|path|] == c && (path + [c'])[|path|] == c';
      }
      ChannelsInfoKeeps(m1, path, chans[1..], info, path + [c], k, Dicts.Get(info, k).value);
    }
  }

  /** The channel loop keeps an attribute that it does not set. */
  lemma {:induction false} ChannelsInfoKeeps(m: Nodes, path: Path, chans: seq<string>, info: Dict<Value>, q: Path, k: string, v: Value)
    requires Dicts.WellFormed(info) && ChannelsInfoF(m, path, chans, info).Ok?
    requires HoldsAttr(m, q, k, v)
    requires k in Keys(info) ==> forall c :: c in chans ==> q != path + [c]
    ensures HoldsAttr(ChannelsInfoF(m, path, chans, info).value, q, k, v)
    decreases |chans|
  {
    if chans != [] {
      var m1 := InfoF(m, path + [chans[0]], info).value;
      InfoKeepsAttr(m, path + [chans[0]], info, q, k, v);
      ChannelsInfoKeeps(m1, path, chans[1..], info, q, k, v);
    }
  }

  /** Whether a metadata group sets attribute k on channel c. */
  predicate Selects(group: MetaGroup, channels: seq<string>, c: string, k: string) {
    c in Expand(group.channels, channels) && k in Keys(group.info)
  }

  /** Groups that do not set (c, k) keep the value of attribute k on path/c. */
  lemma {:induction false} MetaH5Keeps(m: Nodes, path: Path, groups: seq<MetaGroup>, channels: seq<string>, c: string, k: string, v: Value)
    requires forall g :: 0 <= g < |groups| ==> Dicts.WellFormed(groups[g].info)
    requires MetaH5F(m, path, groups, channels).Ok?
    requires HoldsAttr(m, path + [c], k, v)
    requires forall g :: 0 <= g < |groups| ==> !Selects(groups[g], channels, c, k)
    ensures HoldsAttr(MetaH5F(m, path, groups, channels).value, path + [c], k, v)
    decreases |groups|
  {
    if groups != [] {
      var chans := Expand(groups[0].channels, channels);
      var m1 := ChannelsInfoF(m, path, chans, groups[0].info).value;
      assert !Selects(groups[0], channels, c, k);
      forall c' | c' in chans && k in Keys(groups[0].info) ensures path + [c] != path + [c'] {
        assert (path + [c])[|path|] == c && (path + [c'])[|path|] == c';
      }
      ChannelsInfoKeeps(m, path, chans, groups[0].info, path + [c], k, v);
      forall g | 0 <= g < |groups[1..]| ensures !Selects(groups[1..][g], channels, c, k) && Dicts.WellFormed(groups[1..][g].info) {
        assert groups[1..][g] == groups[g + 1];
      }
      MetaH5Keeps(m1, path, groups[1..], channels, c, k, v);
    }
  }

  /**
    add_metadata_h5: attribute k of path/c holds the info value of the last metadata
    group that selects channel c and has key k; later groups override earlier ones.
  */
  lemma {:induction false} MetaH5Sets(m: Nodes, path: Path, groups: seq<MetaGroup>, channels: seq<string>, g: nat, c: string, k: string)
    requires forall j :: 0 <= j < |groups| ==> Dicts.WellFormed(groups[j].info)
    requires MetaH5F(m, path, groups, channels).Ok?
    requires g < |groups| && Selects(groups[g], channels, c, k)
    requires forall j :: g < j < |groups| ==> !Selects(groups[j], channels, c, k)
    ensures HoldsAttr(MetaH5F(m, path, groups, channels).value, path + [c], k, Dicts.Get(groups[g].info, k).value)
    decreases |groups|
  {
    var chans := Expand(groups[0].channels, channels);
    var m1 := ChannelsInfoF(m, path, chans, groups[0].info).value;
    forall j | 0 <= j < |groups[1..]| ensures Dicts.WellFormed(groups[1..][j].info) {
      assert groups[1..][j] == groups[j + 1];
    }
    if g == 0 {
      ChannelsInfoSets(m, path, chans, groups[0].info, c, k);
      forall j | 0 <= j < |groups[1..]| ensures !Selects(groups[1..][j], channels, c, k) {
        assert groups[1..][j] == groups[j + 1];
      }
      MetaH5Keeps(m1, path, groups[1..], channels, c, k, Dicts.Get(groups[0].info, k).value);
    } else {
      assert groups[1..][g - 1] == groups[g];
      forall j | g - 1 < j < |groups[1..]| ensures !Selects(groups[1..][j], channels, c, k) {
        assert groups[1..][j] == groups[j + 1];
      }
      MetaH5Sets(m1, path, groups[1..], channels, g - 1, c, k);
    }
  }

  // ---- add_data_h5 ----

  /** `i["data"][key]` for a key the record has. */
  function Column(rec: Record, key: string): (r: Samples)
    requires key in Keys(rec.data)
    ensures (key, r) in rec.data
  {
    Dicts.Get(rec.data, key).value
  }

  /** `get_channels_in_set(i)[0]`: the channel a record contributes. */
  function FirstChannel(rec: Record): (r: Result<string>)
    ensures r.Ok? ==> r.value in Keys(rec.data) && r.value != "time" && "time" in Keys(rec.data)
  {
    var cs :- Channels.ChannelsInSet([rec]);
    Channels.ChannelsInSetMembers([rec]);
    Channels.ChannelsDefinedIffTime([rec]);
    assert [rec][..0] == [];
    assert Channels.AllKeys([rec]) == Keys(rec.data);
    if |cs| == 0 then Err(IndexError) else Ok(cs[0])
  }

  /** A record takes part in a write when its channel is one of the selected ones. */
  predicate Matches(rec: Record, channels: seq<string>) {
    FirstChannel(rec).Ok? && FirstChannel(rec).value in channels
  }

  /** The channel a record writes: its first channel when that one is selected, otherwise none. */
  function WrittenBy(rec: Record, channels: seq<string>): set<string> {
    if Matches(rec, channels) then {FirstChannel(rec).value} else {}
  }

  /** The channels add_data_h5 writes for a dataset. */
  function Written(ds: Dataset, channels: seq<string>): set<string>
    decreases |ds|
  {
    if ds == [] then {} else WrittenBy(ds[0], channels) + Written(ds[1..], channels)
  }

  /** A channel is written exactly when some selected record has it as its first channel; "time" never is. */
  lemma {:induction false} WrittenMembers(ds: Dataset, channels: seq<string>)
    ensures forall j :: 0 <= j < |ds| && Matches(ds[j], channels) ==> FirstChannel(ds[j]).value in Written(ds, channels)
    ensures forall c :: c in Written(ds, channels) ==>
      exists j :: 0 <= j < |ds| && Matches(ds[j], channels) && FirstChannel(ds[j]).value == c
    ensures "time" !in Written(ds, channels)
    decreases |ds|
  {
    if ds != [] {
      WrittenMembers(ds[1..], channels);
      forall j | 1 <= j < |ds| && Matches(ds[j], channels) ensures FirstChannel(ds[j]).value in Written(ds, channels) {
        assert ds[1..][j - 1] == ds[j];
      }
      forall c | c in Written(ds[1..], channels)
        ensures exists j :: 0 <= j < |ds| && Matches(ds[j], channels) && FirstChannel(ds[j]).value == c
      {
        var j :| 0 <= j < |ds[1..]| && Matches(ds[1..][j], channels) && FirstChannel(ds[1..][j]).value == c;
        assert ds[1..][j] == ds[j + 1];
      }
    }
  }

  /** path/name for one of names. */
  predicate ChildIn(q: Path, path: Path, names: set<string>) {
    |q| == |path| + 1 && q[..|path|] == path && q[|path|] in names
  }

  /** path/name, path/name/data or path/name/time for one of names. */
  predicate ChannelPart(q: Path, path: Path, names: set<string>) {
    && |path| < |q| <= |path| + 2 && q[..|path|] == path && q[|path|] in names
    && (|q| == |path| + 2 ==> q[|path| + 1] == "data" || q[|path| + 1] == "time")
  }

  /**
    Shared mode's new objects: the group and its ancestors, path/channel for the
    written channels and, when `time`, path/time.
  */
  ghost predicate SharedAdds(m: Nodes, r: Nodes, path: Path, names: set<string>, time: bool) {
    forall q :: q in r && q !in m ==>
      IsAncestor(q, path) || q == path || ChildIn(q, path, names) || (time && q == path + ["time"])
  }

  /**
    Per-channel mode's new objects: path and its ancestors, and path/channel with
    its data and time leaves for the written channels.
  */
  ghost predicate SeparateAdds(m: Nodes, r: Nodes, path: Path, names: set<string>) {
    forall q :: q in r && q !in m ==> IsAncestor(q, path) || q == path || ChannelPart(q, path, names)
  }

  /** An ancestor of path/x is path itself or an ancestor of path. */
  lemma AncestorOfChild(path: Path, x: string)
    ensures forall q :: IsAncestor(q, path + [x]) ==> q == path || IsAncestor(q, path)
  {
    forall q | IsAncestor(q, path + [x]) ensures q == path || IsAncestor(q, path) {
      assert (path + [x])[..|path|] == path;
      if |q| < |path| {
        assert (path + [x])[..|q|] == path[..|q|];
      }
    }
  }

  /**
    One record of the shared-group loop: the channel's dataset with the record's
    metadata, the group's time vector if none is written yet, then the record's
    metadata on the group (metadata_added stays False).
  */
  function SharedStepF(m: Nodes, path: Path, rec: Record, channels: seq<string>, timeAdded: bool)
    : (r: Result<(Nodes, bool)>)
    requires path in m
    ensures r.Ok? ==> path in r.value.0 && Extends(m, r.value.0)
    ensures r.Ok? ==> r.value.1 == (timeAdded || Matches(rec, channels))
    ensures r.Ok? ==> SharedAdds(m, r.value.0, path, WrittenBy(rec, channels), !timeAdded && Matches(rec, channels))
  {
    var ch :- FirstChannel(rec);
    if ch !in channels then Ok((m, timeAdded))
    else
      AncestorOfChild(path, ch);
      AncestorOfChild(path, "time");
      var m1 :- CreateF(m, path + [ch], Node(Leaf(Column(rec, ch)), map[]));
      var m2 := SetMeta(m1, path + [ch], rec.meta);
      var m3 :-
        if timeAdded then Ok(m2)
        else CreateF(m2, path + ["time"], Node(Leaf(Column(rec, "time")), map[]));
      Ok((SetMeta(m3, path, rec.meta), true))
  }

  function SharedF(m: Nodes, path: Path, ds: Dataset, channels: seq<string>, timeAdded: bool)
    : (r: Result<(Nodes, bool)>)
    requires path in m
    ensures r.Ok? ==> path in r.value.0 && Extends(m, r.value.0)
    ensures r.Ok? ==> SharedAdds(m, r.value.0, path, Written(ds, channels), !timeAdded && Written(ds, channels) != {})
    decreases |ds|
  {
    if ds == [] then Ok((m, timeAdded))
    else
      var s :- SharedStepF(m, path, ds[0], channels, timeAdded);
      SharedF(s.0, path, ds[1..], channels, s.1)
  }

  /** One record of the per-channel loop: path/channel/data with its metadata, and path/channel/time. */
  function SeparateStepF(m: Nodes, path: Path, rec: Record, channels: seq<string>): (r: Result<Nodes>)
    ensures r.Ok? ==> Extends(m, r.value)
    ensures r.Ok? ==> SeparateAdds(m, r.value, path, WrittenBy(rec, channels))
  {
    var ch :- FirstChannel(rec);
    if ch !in channels then Ok(m)
    else
      AncestorOfChild(path, ch);
      AncestorOfChild(path + [ch], "data");
      AncestorOfChild(path + [ch], "time");
      assert path + [ch, "data"] == path + [ch] + ["data"] && path + [ch, "time"] == path + [ch] + ["time"];
      var m1 :- CreateF(m, path + [ch, "data"], Node(Leaf(Column(rec, ch)), map[]));
      var m2 :- CreateF(m1, path + [ch, "time"], Node(Leaf(Column(rec, "time")), map[]));
      Ok(SetMeta(m2, path + [ch, "data"], rec.meta))
  }

  function SeparateF(m: Nodes, path: Path, ds: Dataset, channels: seq<string>): (r: Result<Nodes>)
    ensures r.Ok? ==> Extends(m, r.value)
    ensures r.Ok? ==> SeparateAdds(m, r.value, path, Written(ds, channels))
    decreases |ds|
  {
    if ds == [] then Ok(m)
    else
      var m1 :- SeparateStepF(m, path, ds[0], channels);
      SeparateF(m1, path, ds[1..], channels)
  }

  /** add_data_h5(fid, path, dataset, channels, shared_group). */
  function AddDataF(m: Nodes, path: Path, ds: Dataset, channels: seq<string>, shared: bool): (r: Result<Nodes>)
    ensures r.Ok? ==> Extends(m, r.value)
    ensures r.Ok? && shared ==> SharedAdds(m, r.value, path, Written(ds, channels), Written(ds, channels) != {})
    ensures r.Ok? && !shared ==> SeparateAdds(m, r.value, path, Written(ds, channels))
  {
    if shared then
      var m1 :- GetGroupF(m, path);
      var s :- SharedF(m1, path, ds, channels, false);
      Ok(s.0)
    else
      SeparateF(m, path, ds, channels)
  }

  // ---- what add_data_h5 writes ----

  lemma SharedStepFrame(m: Nodes, path: Path, rec: Record, channels: seq<string>, timeAdded: bool)
    requires path in m && SharedStepF(m, path, rec, channels, timeAdded).Ok?
    ensures var r := SharedStepF(m, path, rec, channels, timeAdded).value.0;
      forall q :: q in m && q != path ==> q in r && r[q] == m[q]
  {
    var ch := FirstChannel(rec).value;
    if ch in channels {
      var r := SharedStepF(m, path, rec, channels, timeAdded).value.0;
      var p := path + [ch];
      var m1 := CreateF(m, p, Node(Leaf(Column(rec, ch)), map[])).value;
      CreateUnmoved(m, p, Node(Leaf(Column(rec, ch)), map[]), path);
      var m2 := SetMeta(m1, p, rec.meta);
      SetMetaOutside(m, m1, p, rec.meta, path);
      var m3 := m2;
      if !timeAdded {
        m3 := CreateF(m2, path + ["time"], Node(Leaf(Column(rec, "time")), map[])).value;
        CreateUnmoved(m2, path + ["time"], Node(Leaf(Column(rec, "time")), map[]), path);
        UnmovedTrans(m, m2, m3, path);
      }
      assert r == SetMeta(m3, path, rec.meta);
      SetMetaUnmoved(m3, path, rec.meta);
      UnmovedTrans(m, m3, r, path);
    }
  }

  lemma UnmovedTrans(m1: Nodes, m2: Nodes, m3: Nodes, except: Path)
    requires Unmoved(m1, m2, except) && Unmoved(m2, m3, except)
    ensures Unmoved(m1, m3, except)
  {
  }

  lemma CreateUnmoved(m: Nodes, p: Path, node: Node, except: Path)
    requires CanCreate(m, p)
    ensures Unmoved(m, CreateF(m, p, node).value, except)
  {
  }

  /** Setting attributes on an object created after m leaves m's objects alone. */
  lemma SetMetaOutside(m0: Nodes, m: Nodes, p: Path, meta: Dict<Value>, except: Path)
    requires Unmoved(m0, m, except) && p in m && p !in m0
    ensures Unmoved(m0, SetMeta(m, p, meta), except)
  {
  }

  lemma SetMetaUnmoved(m: Nodes, p: Path, meta: Dict<Value>)
    requires p in m
    ensures Unmoved(m, SetMeta(m, p, meta), p)
  {
  }

  /** The first selected record writes path/time from its time column. */
  lemma SharedStepTime(m: Nodes, path: Path, rec: Record, channels: seq<string>)
    requires path in m && SharedStepF(m, path, rec, channels, false).Ok? && Matches(rec, channels)
    ensures var r := SharedStepF(m, path, rec, channels, false).value.0;
      path + ["time"] != path && path + ["time"] in r && r[path + ["time"]] == Node(Leaf(Column(rec, "time")), map[])
  {
    var ch := FirstChannel(rec).value;
    var t := path + ["time"];
    assert t != path by {
      assert |t| != |path|;
    }
    var m1 := CreateF(m, path + [ch], Node(Leaf(Column(rec, ch)), map[])).value;
    var m2 := SetMeta(m1, path + [ch], rec.meta);
    var m3 := CreateF(m2, t, Node(Leaf(Column(rec, "time")), map[])).value;
    assert SharedStepF(m, path, rec, channels, false).value.0 == SetMeta(m3, path, rec.meta);
  }

  /** A selected record leaves path/channel holding its column and its metadata. */
  lemma SharedStepLeaf(m: Nodes, path: Path, rec: Record, channels: seq<string>, timeAdded: bool)
    requires path in m && SharedStepF(m, path, rec, channels, timeAdded).Ok? && Matches(rec, channels)
    ensures var r, ch := SharedStepF(m, path, rec, channels, timeAdded).value.0, FirstChannel(rec).value;
      path + [ch] != path && path + [ch] in r && r[path + [ch]] == Node(Leaf(Column(rec, ch)), MetaAttrs(map[], rec.meta))
  {
    var ch := FirstChannel(rec).value;
    var leaf := Node(Leaf(Column(rec, ch)), map[]);
    var p := path + [ch];
    assert p != path && p != path + ["time"] by {
      assert p[|path|] == ch && (path + ["time"])[|path|] == "time";
    }
    var m1 := CreateF(m, p, leaf).value;
    var m2 := SetMeta(m1, p, rec.meta);
    assert m2[p] == Node(Leaf(Column(rec, ch)), MetaAttrs(map[], rec.meta));
    var m3 := if timeAdded then m2 else CreateF(m2, path + ["time"], Node(Leaf(Column(rec, "time")), map[])).value;
    assert m3[p] == m2[p];
    assert SharedStepF(m, path, rec, channels, timeAdded).value.0 == SetMeta(m3, path, rec.meta);
  }

  /** Every object of m other than the one at `except` is still there, unchanged, in m'. */
  ghost predicate Unmoved(m: Nodes, m': Nodes, except: Path) {
    forall q :: q in m && q != except ==> q in m' && m'[q] == m[q]
  }

  /** Shared mode touches no existing object other than the group itself. */
  lemma {:induction false} SharedFrame(m: Nodes, path: Path, ds: Dataset, channels: seq<string>, timeAdded: bool)
    requires path in m && SharedF(m, path, ds, channels, timeAdded).Ok?
    ensures var r := SharedF(m, path, ds, channels, timeAdded).value.0;
      forall q :: q in m && q != path ==> q in r && r[q] == m[q]
    ensures var r := SharedF(m, path, ds, channels, timeAdded).value.0;
      SharedAdds(m, r, path, Written(ds, channels), !timeAdded && Written(ds, channels) != {})
    decreases |ds|
  {
    if ds != [] {
      var s := SharedStepF(m, path, ds[0], channels, timeAdded).value;
      SharedStepFrame(m, path, ds[0], channels, timeAdded);
      SharedFrame(s.0, path, ds[1..], channels, s.1);
    }
  }

  /** Records whose channel is not selected leave the container as it is. */
  lemma {:induction false} SharedNoMatch(m: Nodes, path: Path, ds: Dataset, channels: seq<string>, timeAdded: bool)
    requires path in m && SharedF(m, path, ds, channels, timeAdded).Ok?
    requires forall j :: 0 <= j < |ds| ==> !Matches(ds[j], channels)
    ensures SharedF(m, path, ds, channels, timeAdded).value == (m, timeAdded)
    decreases |ds|
  {
    if ds != [] {
      SharedNoMatch(m, path, ds[1..], channels, timeAdded);
    }
  }

  /** Each selected record becomes path/channel, holding its samples and its metadata. */
  lemma {:induction false} SharedChannelLeaf(m: Nodes, path: Path, ds: Dataset, channels: seq<string>, timeAdded: bool, i: nat)
    requires path in m && SharedF(m, path, ds, channels, timeAdded).Ok?
    requires i < |ds| && Matches(ds[i], channels)
    ensures var r, ch := SharedF(m, path, ds, channels, timeAdded).value.0, FirstChannel(ds[i]).value;
      path + [ch] in r && r[path + [ch]] == Node(Leaf(Column(ds[i], ch)), MetaAttrs(map[], ds[i].meta))
    decreases |ds|
  {
    var s := SharedStepF(m, path, ds[0], channels, timeAdded).value;
    if i == 0 {
      SharedStepLeaf(m, path, ds[0], channels, timeAdded);
      SharedFrame(s.0, path, ds[1..], channels, s.1);
    } else {
      assert ds[1..][i - 1] == ds[i];
      SharedChannelLeaf(s.0, path, ds[1..], channels, s.1, i - 1);
    }
  }

  /** The group's single time vector is the time column of the first selected record. */
  lemma {:induction false} SharedTimeLeaf(m: Nodes, path: Path, ds: Dataset, channels: seq<string>, i: nat)
    requires path in m && SharedF(m, path, ds, channels, false).Ok?
    requires i < |ds| && Matches(ds[i], channels)
    requires forall j :: 0 <= j < i ==> !Matches(ds[j], channels)
    ensures var r := SharedF(m, path, ds, channels, false).value.0;
      path + ["time"] in r && r[path + ["time"]] == Node(Leaf(Column(ds[i], "time")), map[])
    decreases |ds|
  {
    var s := SharedStepF(m, path, ds[0], channels, false).value;
    if i == 0 {
      SharedStepTime(m, path, ds[0], channels);
      SharedFrame(s.0, path, ds[1..], channels, s.1);
    } else {
      assert s == (m, false);
      assert ds[1..][i - 1] == ds[i];
      forall j | 0 <= j < i - 1 ensures !Matches(ds[1..][j], channels) {
        assert ds[1..][j] == ds[j + 1];
      }
      SharedTimeLeaf(m, path, ds[1..], channels, i - 1);
    }
  }

  /**
    The group's attributes come from every selected record in turn, so each key of
    the last selected record's metadata ends up with that record's value.
  */
  lemma {:induction false} SharedGroupMeta(m: Nodes, path: Path, ds: Dataset, channels: seq<string>, timeAdded: bool, i: nat)
    requires path in m && SharedF(m, path, ds, channels, timeAdded).Ok?
    requires i < |ds| && Matches(ds[i], channels) && Dicts.WellFormed(ds[i].meta)
    requires forall j :: i < j < |ds| ==> !Matches(ds[j], channels)
    ensures var r := SharedF(m, path, ds, channels, timeAdded).value.0;
      forall k :: k in Keys(ds[i].meta) ==> k in r[path].attrs && r[path].attrs[k] == ConvertValue(Dicts.Get(ds[i].meta, k).value)
    decreases |ds|
  {
    SharedUnfold(m, path, ds, channels, timeAdded);
    var s := SharedStepF(m, path, ds[0], channels, timeAdded).value;
    NoMatchAfterTail(ds, channels, i);
    if i == 0 {
      SharedNoMatch(s.0, path, ds[1..], channels, s.1);
      SharedStepGroupMeta(m, path, ds[0], channels, timeAdded);
    } else {
      SharedGroupMeta(s.0, path, ds[1..], channels, s.1, i - 1);
    }
  }

  /** The records after record i of ds are those after record i - 1 of its tail. */
  lemma NoMatchAfterTail(ds: Dataset, channels: seq<string>, i: nat)
    requires i < |ds| && forall j :: i < j < |ds| ==> !Matches(ds[j], channels)
    ensures forall j :: i - 1 < j < |ds[1..]| ==> !Matches(ds[1..][j], channels)
    ensures 0 < i ==> ds[1..][i - 1] == ds[i]
  {
    forall j | i - 1 < j < |ds[1..]| ensures !Matches(ds[1..][j], channels) {
      assert ds[1..][j] == ds[j + 1];
    }
  }

  /** A successful shared-mode write is its first record's step followed by the rest. */
  lemma SharedUnfold(m: Nodes, path: Path, ds: Dataset, channels: seq<string>, timeAdded: bool)
    requires path in m && ds != [] && SharedF(m, path, ds, channels, timeAdded).Ok?
    ensures SharedStepF(m, path, ds[0], channels, timeAdded).Ok?
    ensures var s := SharedStepF(m, path, ds[0], channels, timeAdded).value;
      SharedF(m, path, ds, channels, timeAdded) == SharedF(s.0, path, ds[1..], channels, s.1)
  {
  }

  /** A selected record's metadata ends up on the group. */
  lemma SharedStepGroupMeta(m: Nodes, path: Path, rec: Record, channels: seq<string>, timeAdded: bool)
    requires path in m && SharedStepF(m, path, rec, channels, timeAdded).Ok?
    requires Matches(rec, channels) && Dicts.WellFormed(rec.meta)
    ensures var r := SharedStepF(m, path, rec, channels, timeAdded).value.0;
      forall k :: k in Keys(rec.meta) ==> k in r[path].attrs && r[path].attrs[k] == ConvertValue(Dicts.Get(rec.meta, k).value)
  {
    var ch := FirstChannel(rec).value;
    var m1 := CreateF(m, path + [ch], Node(Leaf(Column(rec, ch)), map[])).value;
    var m2 := SetMeta(m1, path + [ch], rec.meta);
    var m3 := if timeAdded then m2 else CreateF(m2, path + ["time"], Node(Leaf(Column(rec, "time")), map[])).value;
    assert SharedStepF(m, path, rec, channels, timeAdded).value.0 == SetMeta(m3, path, rec.meta);
    MetaAttrsSpec(m3[path].attrs, rec.meta);
  }

  /** Per-channel mode changes no object that existed before: it only adds new ones. */
  lemma {:induction false} SeparateFrame(m: Nodes, path: Path, ds: Dataset, channels: seq<string>)
    requires SeparateF(m, path, ds, channels).Ok?
    ensures var r := SeparateF(m, path, ds, channels).value;
      forall q :: q in m ==> q in r && r[q] == m[q]
    ensures SeparateAdds(m, SeparateF(m, path, ds, channels).value, path, Written(ds, channels))
    decreases |ds|
  {
    if ds != [] {
      var m1 := SeparateStepF(m, path, ds[0], channels).value;
      SeparateStepFrame(m, path, ds[0], channels);
      SeparateFrame(m1, path, ds[1..], channels);
    }
  }

  /** Per-channel mode never creates the group-level path/time that shared mode writes. */
  lemma SeparateNoGroupTime(m: Nodes, path: Path, ds: Dataset, channels: seq<string>)
    requires SeparateF(m, path, ds, channels).Ok? && path + ["time"] !in m
    ensures path + ["time"] !in SeparateF(m, path, ds, channels).value
  {
    WrittenMembers(ds, channels);
    var t := path + ["time"];
    assert t[|path|] == "time" && |t| == |path| + 1;
    assert !ChannelPart(t, path, Written(ds, channels));
  }

  lemma SeparateStepFrame(m: Nodes, path: Path, rec: Record, channels: seq<string>)
    requires SeparateStepF(m, path, rec, channels).Ok?
    ensures var r := SeparateStepF(m, path, rec, channels).value;
      forall q :: q in m ==> q in r && r[q] == m[q]
  {
    var ch := FirstChannel(rec).value;
    if ch in channels {
      var d, t := path + [ch, "data"], path + [ch, "time"];
      var m1 := CreateF(m, d, Node(Leaf(Column(rec, ch)), map[])).value;
      CreateUnmoved(m, d, Node(Leaf(Column(rec, ch)), map[]), d);
      var m2 := CreateF(m1, t, Node(Leaf(Column(rec, "time")), map[])).value;
      CreateUnmoved(m1, t, Node(Leaf(Column(rec, "time")), map[]), d);
      UnmovedTrans(m, m1, m2, d);
      SetMetaOutside(m, m2, d, rec.meta, d);
      assert SeparateStepF(m, path, rec, channels).value == SetMeta(m2, d, rec.meta);
    }
  }

  /** A selected record leaves path/channel/data and path/channel/time holding its columns. */
  lemma SeparateStepLeaves(m: Nodes, path: Path, rec: Record, channels: seq<string>)
    requires SeparateStepF(m, path, rec, channels).Ok? && Matches(rec, channels)
    ensures var r, ch := SeparateStepF(m, path, rec, channels).value, FirstChannel(rec).value;
      && path + [ch, "data"] in r && r[path + [ch, "data"]] == Node(Leaf(Column(rec, ch)), MetaAttrs(map[], rec.meta))
      && path + [ch, "time"] in r && r[path + [ch, "time"]] == Node(Leaf(Column(rec, "time")), map[])
  {
    var ch := FirstChannel(rec).value;
    var d, t := path + [ch, "data"], path + [ch, "time"];
    assert d != t by {
      assert d[|path| + 1] == "data" && t[|path| + 1] == "time";
    }
    var m1 := CreateF(m, d, Node(Leaf(Column(rec, ch)), map[])).value;
    var m2 := CreateF(m1, t, Node(Leaf(Column(rec, "time")), map[])).value;
    assert m2[d] == Node(Leaf(Column(rec, ch)), map[]);
    assert SeparateStepF(m, path, rec, channels).value == SetMeta(m2, d, rec.meta);
  }

  /** Each selected record becomes path/channel/data (samples and metadata) and path/channel/time. */
  lemma {:induction false} SeparateLeaves(m: Nodes, path: Path, ds: Dataset, channels: seq<string>, i: nat)
    requires SeparateF(m, path, ds, channels).Ok?
    requires i < |ds| && Matches(ds[i], channels)
    ensures var r, ch := SeparateF(m, path, ds, channels).value, FirstChannel(ds[i]).value;
      && path + [ch, "data"] in r && r[path + [ch, "data"]] == Node(Leaf(Column(ds[i], ch)), MetaAttrs(map[], ds[i].meta))
      && path + [ch, "time"] in r && r[path + [ch, "time"]] == Node(Leaf(Column(ds[i], "time")), map[])
    decreases |ds|
  {
    var m1 := SeparateStepF(m, path, ds[0], channels).value;
    if i == 0 {
      SeparateStepLeaves(m, path, ds[0], channels);
      SeparateFrame(m1, path, ds[1..], channels);
    } else {
      assert ds[1..][i - 1] == ds[i];
      SeparateLeaves(m1, path, ds[1..], channels, i - 1);
    }
  }

  class Container {
    var nodes: Nodes

    ghost predicate Valid()
      reads this
    {
      Tree(nodes)
    }

    /** init_h5: the file is opened with mode "w", which truncates: the container starts empty. */
    constructor Init()
      ensures Valid() && nodes == map[]
    {
      nodes := map[];
    }

    method GetGroup(p: Path) returns (r: Outcome)
      requires Valid()
      modifies this
      ensures Valid() && Extends(old(nodes), nodes)
      ensures r == GetGroupF(old(nodes), p).ToOutcome()
      ensures r.Pass? ==> nodes == GetGroupF(old(nodes), p).value
      ensures r.Fail? ==> nodes == old(nodes)
    {
      if p !in nodes {
        r := CreateDataset(p, EmptyGroup);
      } else {
        r := Pass;
      }
    }

    /** create_group / create_dataset. */
    method CreateDataset(p: Path, node: Node) returns (r: Outcome)
      requires Valid()
      modifies this
      ensures Valid() && Extends(old(nodes), nodes)
      ensures r == CreateF(old(nodes), p, node).ToOutcome()
      ensures r.Pass? ==> nodes == CreateF(old(nodes), p, node).value
      ensures r.Fail? ==> nodes == old(nodes)
    {
      var res := CreateF(nodes, p, node);
      if res.Ok? {
        InsertTree(nodes, p, node);
        nodes := res.value;
        r := Pass;
      } else {
        r := Fail(res.error);
      }
    }

    /** add_metadata: sets each entry of meta on the object at p, datetimes as strings. */
    method AddMetadata(p: Path, meta: Dict<Value>)
      requires Valid() && p in nodes
      modifies this
      ensures Valid() && Extends(old(nodes), nodes)
      ensures nodes == SetMeta(old(nodes), p, meta)
    {
      var i := 0;
      while i < |meta|
        invariant 0 <= i <= |meta|
        invariant Valid() && p in nodes && Extends(old(nodes), nodes)
        invariant nodes == old(nodes)[p := old(nodes)[p].(attrs := nodes[p].attrs)]
        invariant MetaAttrs(nodes[p].attrs, meta[i..]) == MetaAttrs(old(nodes)[p].attrs, meta)
      {
        MetaStep(old(nodes), nodes, p, meta, i);
        SetAttr(p, meta[i].0, ConvertValue(meta[i].1));
        i := i + 1;
      }
      assert meta[i..] == [];
    }

    /** `obj.attrs[tag] = val` on the object at p. */
    method SetAttr(p: Path, tag: string, val: Value)
      requires Valid() && p in nodes
      modifies this
      ensures Valid() && Extends(old(nodes), nodes)
      ensures nodes == SetAttrF(old(nodes), p, tag, val)
    {
      nodes := nodes[p := nodes[p].(attrs := nodes[p].attrs[tag := val])];
    }

    /** The attribute loop of add_metadata_h5 for one channel's path p. */
    method SetInfo(p: Path, info: Dict<Value>) returns (r: Outcome)
      requires Valid()
      modifies this
      ensures Valid() && Extends(old(nodes), nodes)
      ensures r == InfoF(old(nodes), p, info).ToOutcome()
      ensures r.Pass? ==> nodes == InfoF(old(nodes), p, info).value
      ensures r.Fail? ==> nodes == old(nodes)
    {
      var a := 0;
      while a < |info|
        invariant Valid()
        invariant 0 <= a <= |info|
        invariant a == 0 ==> nodes == old(nodes)
        invariant a > 0 ==> p in nodes
        invariant InfoF(old(nodes), p, info) == InfoF(nodes, p, info[a..])
      {
        assert info[a..][0] == info[a] && info[a..][1..] == info[a + 1..];
        r := GetGroup(p);
        if r.Fail? {
          assert a == 0;
          return;
        }
        SetAttr(p, info[a].0, info[a].1);
        a := a + 1;
      }
      assert info[a..] == [];
      r := Pass;
    }

    /** The channel loop of add_metadata_h5 for one metadata group. */
    method SetChannelsInfo(path: Path, chans: seq<string>, info: Dict<Value>) returns (r: Outcome)
      requires Valid()
      modifies this
      ensures Valid() && Extends(old(nodes), nodes)
      ensures r == ChannelsInfoF(old(nodes), path, chans, info).ToOutcome()
      ensures r.Pass? ==> nodes == ChannelsInfoF(old(nodes), path, chans, info).value
    {
      var c := 0;
      while c < |chans|
        invariant Valid() && Extends(old(nodes), nodes)
        invariant 0 <= c <= |chans|
        invariant ChannelsInfoF(old(nodes), path, chans, info) == ChannelsInfoF(nodes, path, chans[c..], info)
      {
        assert chans[c..][0] == chans[c] && chans[c..][1..] == chans[c + 1..];
        r := SetInfo(path + [chans[c]], info);
        if r.Fail? {
          return;
        }
        c := c + 1;
      }
      assert chans[c..] == [];
      r := Pass;
    }

    /**
      add_metadata_h5: rewrites each ["*"] selector to the resolved channels (the
      caller's list is changed in place, so the rewritten list is returned) and sets
      every info entry on path/channel for each selected channel.
    */
    method AddMetadataH5(path: Path, meta: seq<MetaGroup>, channels: seq<string>)
      returns (meta': seq<MetaGroup>, r: Outcome)
      requires Valid()
      modifies this
      ensures Valid() && Extends(old(nodes), nodes)
      ensures r == MetaH5F(old(nodes), path, meta, channels).ToOutcome()
      ensures r.Pass? ==> nodes == MetaH5F(old(nodes), path, meta, channels).value
      ensures r.Pass? ==> meta' == Rewritten(meta, channels)
    {
      ghost var target := Rewritten(meta, channels);
      meta' := meta;
      var g := 0;
      while g < |meta'|
        invariant Valid() && Extends(old(nodes), nodes)
        invariant 0 <= g <= |meta| && |meta'| == |meta|
        invariant meta'[..g] == target[..g] && meta'[g..] == meta[g..]
        invariant MetaH5F(old(nodes), path, meta, channels) == MetaH5F(nodes, path, meta[g..], channels)
      {
        MetaH5Step(nodes, path, meta, channels, g);
        ghost var before := meta';
        if meta'[g].channels == ["*"] {
          meta' := meta'[g := meta'[g].(channels := channels)];
        }
        RewriteStep(before, meta', meta, channels, g);
        r := SetChannelsInfo(path, meta'[g].channels, meta'[g].info);
        if r.Fail? {
          return;
        }
        g := g + 1;
      }
      assert meta'[..g] == meta';
      r := Pass;
    }

    /** One pass of the shared-group loop of add_data_h5; returns the new time_added. */
    method AddSharedRecord(path: Path, rec: Record, channels: seq<string>, timeAdded: bool)
      returns (timeAdded': bool, r: Outcome)
      requires Valid() && path in nodes
      modifies this
      ensures Valid() && Extends(old(nodes), nodes)
      ensures r == SharedStepF(old(nodes), path, rec, channels, timeAdded).ToOutcome()
      ensures r.Pass? ==> (nodes, timeAdded') == SharedStepF(old(nodes), path, rec, channels, timeAdded).value
    {
      var metadataAdded := false;
      timeAdded' := timeAdded;
      var cs := Channels.GetChannelsInSet(Channels.One(rec));
      if cs.Err? {
        return timeAdded', Fail(cs.error);
      }
      if |cs.value| == 0 {
        return timeAdded', Fail(IndexError);
      }
      var ch := cs.value[0];
      assert FirstChannel(rec) == Ok(ch);
      if ch in channels {
        r := CreateDataset(path + [ch], Node(Leaf(Column(rec, ch)), map[]));
        if r.Fail? {
          return;
        }
        AddMetadata(path + [ch], rec.meta);
        ghost var m2 := nodes;
        if !timeAdded' {
          r := CreateDataset(path + ["time"], Node(Leaf(Column(rec, "time")), map[]));
          if r.Fail? {
            ExtendsTrans(old(nodes), m2, nodes);
            return;
          }
          timeAdded' := true;
        }
        if !metadataAdded {
          AddMetadata(path, rec.meta);
        }
      }
      r := Pass;
    }

    /** One pass of the per-channel loop of add_data_h5. */
    method AddSeparateRecord(path: Path, rec: Record, channels: seq<string>) returns (r: Outcome)
      requires Valid()
      modifies this
      ensures Valid() && Extends(old(nodes), nodes)
      ensures r == SeparateStepF(old(nodes), path, rec, channels).ToOutcome()
      ensures r.Pass? ==> nodes == SeparateStepF(old(nodes), path, rec, channels).value
    {
      var cs := Channels.GetChannelsInSet(Channels.One(rec));
      if cs.Err? {
        return Fail(cs.error);
      }
      if |cs.value| == 0 {
        return Fail(IndexError);
      }
      var ch := cs.value[0];
      assert FirstChannel(rec) == Ok(ch);
      if ch in channels {
        r := CreateDataset(path + [ch, "data"], Node(Leaf(Column(rec, ch)), map[]));
        if r.Fail? {
          return;
        }
        r := CreateDataset(path + [ch, "time"], Node(Leaf(Column(rec, "time")), map[]));
        if r.Fail? {
          return;
        }
        AddMetadata(path + [ch, "data"], rec.meta);
      }
      r := Pass;
    }

    /**
      add_data_h5: writes the records whose channel is selected, either into one
      group sharing a single time vector or as per-channel data/time pairs.
    */
    method AddDataH5(path: Path, ds: Dataset, channels: seq<string>, shared: bool) returns (r: Outcome)
      requires Valid()
      modifies this
      ensures Valid() && Extends(old(nodes), nodes)
      ensures r == AddDataF(old(nodes), path, ds, channels, shared).ToOutcome()
      ensures r.Pass? ==> nodes == AddDataF(old(nodes), path, ds, channels, shared).value
    {
      if shared {
        r := AddSharedH5(path, ds, channels);
      } else {
        r := AddSeparateH5(path, ds, channels);
      }
    }

    /** The shared_group branch of add_data_h5: the group at path, then every record into it. */
    method AddSharedH5(path: Path, ds: Dataset, channels: seq<string>) returns (r: Outcome)
      requires Valid()
      modifies this
      ensures Valid() && Extends(old(nodes), nodes)
      ensures r == AddDataF(old(nodes), path, ds, channels, true).ToOutcome()
      ensures r.Pass? ==> nodes == AddDataF(old(nodes), path, ds, channels, true).value
    {
      r := GetGroup(path);
      if r.Fail? {
        return;
      }
      ghost var groupReady := nodes;
      var timeAdded := false;
      var i := 0;
      while i < |ds|
        invariant Valid() && path in nodes && Extends(old(nodes), nodes)
        invariant 0 <= i <= |ds|
        invariant SharedF(groupReady, path, ds, channels, false) == SharedF(nodes, path, ds[i..], channels, timeAdded)
      {
        assert ds[i..][0] == ds[i] && ds[i..][1..] == ds[i + 1..];
        timeAdded, r := AddSharedRecord(path, ds[i], channels, timeAdded);
        if r.Fail? {
          return;
        }
        i := i + 1;
      }
      assert ds[i..] == [];
      r := Pass;
    }

    /** The per-channel branch of add_data_h5: one group per selected record. */
    method AddSeparateH5(path: Path, ds: Dataset, channels: seq<string>) returns (r: Outcome)
      requires Valid()
      modifies this
      ensures Valid() && Extends(old(nodes), nodes)
      ensures r == AddDataF(old(nodes), path, ds, channels, false).ToOutcome()
      ensures r.Pass? ==> nodes == AddDataF(old(nodes), path, ds, channels, false).value
    {
      var i := 0;
      while i < |ds|
        invariant Valid() && Extends(old(nodes), nodes)
        invariant 0 <= i <= |ds|
        invariant SeparateF(old(nodes), path, ds, channels) == SeparateF(nodes, path, ds[i..], channels)
      {
        assert ds[i..][0] == ds[i] && ds[i..][1..] == ds[i + 1..];
        r := AddSeparateRecord(path, ds[i], channels);
        if r.Fail? {
          return;
        }
        i := i + 1;
      }
      assert ds[i..] == [];
      r := Pass;
    }
  }
}
