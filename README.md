# export2hdf5 core, modelled in Dafny

export2hdf5 reads physiological recordings and writes them into one HDF5 file. A
JSON configuration names the files and where their channels go. This project
models the logic at the centre of that pipeline and proves what it does:

- **Channel-set resolution** (`get_channels_in_set`, module `Channels`). A
  dataset is a list of channel records. Each record's `data` is an
  insertion-ordered dict of sample arrays, including `"time"`. The channel set is
  every data key, de-duplicated in first-seen order, with `"time"` removed.
- **The HDF5 writer** (`utilities_h5`, module `H5`). The file is a class
  `Container` holding a map from paths to nodes. A node is a group or a dataset
  leaf, and each node has an attribute map. `init_h5`, `get_group`,
  `add_metadata`, `add_metadata_h5` and both modes of `add_data_h5` are methods
  that update the map. When a method succeeds, its new map is proved equal to a
  function of the old map. The lemmas bound what that function adds, and say what
  it writes and what it leaves alone. When a method fails, it is only proved to
  lose nothing (see "## Left out").
- **The export driver** (`export_hdf5`, module `Export`). The reader registry is
  a lookup by `data_type`, and reading a file is a function parameter. The class
  `Exporter` runs the loop over sources and their maps. It rewrites `["*"]`
  channel lists in place, writes the data, then writes the metadata.
- **The Bittium NeurOne codec** (`utilities_neurone`, modules `NeurOne`,
  `NeurOneSignal` and `LittleEndian`). This covers:
  - the 88-byte event record (`Int32sl` and `Int64ul` fields, little-endian);
  - the read loop, which parses each record, adds StartTime/StopTime and deletes
    RFU1–RFU5, and the event table built from the rows;
  - the event writer, both as written and as intended;
  - the channel order taken from the protocol (`sorted` over
    (input number, name) pairs);
  - the int32 signal file reshaped into rows of samples;
  - the per-channel records of `read_neurone_data_hdf5`.
- **PSG and hypnogram events** (`utilities_psg`, `utilities_hypnogram`, modules
  `Psg` and `Hypnogram`). This covers:
  - the event filter loop with its 30-second spacing check;
  - `firstindex` and `lastindex` with their fallbacks;
  - the sleep-stage table;
  - `hypnogram_to_dataset` and `psg_event_to_dataset`.

Supporting modules:
- `Base`: errors, `Result`, values, records.
- `Dicts`: Python dicts as ordered key/value lists, with `d[k]`, `d[k] = v` and
  `del d[k]`.
- `Timestamps`: datetimes, the microsecond count that datetime subtraction uses,
  and the `strftime("%Y%m%dT%H%M%S")` rendering. That rendering is the basic
  combined date-time form of ISO 8601:2004, section 4.3.2.

Python exceptions are `Err` values of `Result`, named after the exception. The
writers return an `Outcome` (`Pass` or `Fail(error)`). Integers are unbounded:
fixed-width fields are modelled explicitly by range predicates (`Fits`,
`FitsInt32`, `ColumnFits`). Floating-point values are exact reals.

## Model

| member | source | states |
|---|---|---|
| Channels.AsList | export2hdf5/utilities_general.py:30-31 | a single record stands for the one-element list; a list is taken as is |
| Channels.AppendUnseen | export2hdf5/utilities_general.py:35-37 | the inner loop appends exactly the keys not seen yet: the list stays the first-seen de-duplication of all keys so far |
| Channels.GetChannelsInSet | export2hdf5/utilities_general.py:18-40 | the nested loop followed by `index`/`del` returns ChannelsInSet of the argument taken as a list |
| Channels.IndexOf | export2hdf5/utilities_general.py:38 | `list.index`: a position holding the value with no earlier occurrence |
| Channels.RemoveAt | export2hdf5/utilities_general.py:39 | `del l[i]`: one element shorter, later elements shift down by one |
| Channels.ChannelsDefinedIffTime | export2hdf5/utilities_general.py:38 | the call succeeds if and only if some record has a `"time"` key; otherwise `index` raises |
| Channels.ChannelsInSetMembers | export2hdf5/utilities_general.py:34-39 | the result has no duplicates, never contains `"time"`, and contains a name exactly when it is a data key other than `"time"` |
| Channels.ChannelsInSetOrder | export2hdf5/utilities_general.py:33-37 | channels appear in the order their keys are first seen, across records and then across keys within a record |
| Channels.ChannelsInSetLength | export2hdf5/utilities_general.py:33-40 | the length is the number of distinct data keys minus one |
| Channels.DedupMembers | export2hdf5/utilities_general.py:36-37 | the de-duplicated list has exactly the elements of the input |
| Channels.DedupDistinct | export2hdf5/utilities_general.py:36-37 | the de-duplicated list has no repeated element |
| Channels.DedupOrder | export2hdf5/utilities_general.py:33-37 | the de-duplicated list is in first-occurrence order of the input |
| Channels.ChannelsOfRecord | export2hdf5/utilities_general.py:30-40 | a lone record with distinct keys yields its own keys minus `"time"`, in order |
| Channels.ChannelsOfKeyedRecords | export2hdf5/utilities_general.py:33-40 | records keyed `[label, "time"]` with distinct labels other than `"time"` give exactly those labels, in record order |
| H5.Container.constructor | export2hdf5/utilities_h5.py:27-29 | `init_h5` opens with mode "w", which truncates: the container starts empty |
| H5.CreateF | export2hdf5/utilities_h5.py:41 | creating succeeds exactly when the path is free and no ancestor is a dataset; the node is placed and missing ancestors become empty groups (assumed h5py behaviour) |
| H5.InsertTree | export2hdf5/utilities_h5.py:41 | creating keeps the container a tree: every ancestor of an object exists and is a group |
| H5.GetGroupF | export2hdf5/utilities_h5.py:35-44 | an existing path gives the container back unchanged; otherwise a new empty group appears there and nothing else is lost |
| H5.Container.GetGroup | export2hdf5/utilities_h5.py:35-44 | the method's outcome and new state are GetGroupF of the old state, and it keeps the tree invariant |
| H5.Container.CreateDataset | export2hdf5/utilities_h5.py:113-116 | `create_dataset`: the outcome and new state are CreateF of the old state |
| H5.ConvertValue | export2hdf5/utilities_h5.py:52-53 | datetimes become strings; every other value is stored unchanged |
| H5.ConvertTimeRoundTrip | export2hdf5/utilities_h5.py:52-53 | a converted datetime is a 15-character `YYYYMMDDThhmmss` string with `T` at index 8, and it reads back as the datetime truncated to the second |
| H5.MetaAttrsSpec | export2hdf5/utilities_h5.py:47-55 | `add_metadata` sets every key of meta to its converted value and leaves every other attribute alone |
| H5.SetMeta | export2hdf5/utilities_h5.py:47-55 | setting metadata keeps every object and its kind, and only adds attributes |
| H5.Container.AddMetadata | export2hdf5/utilities_h5.py:47-55 | the loop over meta leaves the container equal to SetMeta of the old one |
| H5.SetAttrF | export2hdf5/utilities_h5.py:71 | `obj.attrs[k] = v` keeps every object and only adds or overwrites that attribute |
| H5.Container.SetAttr | export2hdf5/utilities_h5.py:71 | the assignment leaves the container equal to SetAttrF of the old one |
| H5.InfoF | export2hdf5/utilities_h5.py:69-71 | the attribute loop for one channel loses no object, and the channel's object exists afterwards when info is non-empty |
| H5.InfoSets | export2hdf5/utilities_h5.py:68-71 | every info entry is set raw on path/channel (created if needed); other attributes there and every other object are unchanged |
| H5.InfoKeepsAttr | export2hdf5/utilities_h5.py:69-71 | an attribute not set by the loop keeps its value |
| H5.Container.SetInfo | export2hdf5/utilities_h5.py:69-71 | the method's outcome and new state are InfoF of the old state |
| H5.ChannelsInfoF | export2hdf5/utilities_h5.py:67-71 | the channel loop loses no object |
| H5.ChannelsInfoSets | export2hdf5/utilities_h5.py:67-71 | each listed channel gets every info attribute |
| H5.ChannelsInfoKeeps | export2hdf5/utilities_h5.py:67-71 | attributes the channel loop does not set keep their values |
| H5.Container.SetChannelsInfo | export2hdf5/utilities_h5.py:67-71 | the method's outcome and new state are ChannelsInfoF of the old state |
| H5.Rewritten | export2hdf5/utilities_h5.py:65-66 | each group whose selector is exactly `["*"]` gets the resolved channels; other selectors and all info are kept |
| H5.MetaH5F | export2hdf5/utilities_h5.py:64-71 | the loop over metadata groups loses no object |
| H5.MetaH5Sets | export2hdf5/utilities_h5.py:64-71 | attribute k of path/c ends up holding the value of the last group that selects c and has key k: later groups override earlier ones |
| H5.MetaH5Keeps | export2hdf5/utilities_h5.py:64-71 | an attribute that no group selects keeps its value |
| H5.Container.AddMetadataH5 | export2hdf5/utilities_h5.py:57-71 | the outcome and new state are MetaH5F of the old state, and the groups come back with their `["*"]` selectors rewritten in place |
| H5.Column | export2hdf5/utilities_h5.py:114 | `i["data"][key]` is the samples stored under that key |
| H5.FirstChannel | export2hdf5/utilities_h5.py:109 | `get_channels_in_set(i)[0]` is a data key other than `"time"` of a record that has `"time"` |
| H5.SharedStepF | export2hdf5/utilities_h5.py:108-127 | one record of the shared loop loses no object, keeps the group, and sets time_added exactly when it was set or the record matches. The only objects it adds are missing ancestors of path and, when its first channel c is selected, path/c and (if no time vector was written yet) path/time |
| H5.Container.AddSharedRecord | export2hdf5/utilities_h5.py:108-127 | the loop body's outcome, new state and new flag are SharedStepF of the old ones |
| H5.SharedStepTime | export2hdf5/utilities_h5.py:120-125 | the first matching record writes path/time from its time column |
| H5.SharedStepLeaf | export2hdf5/utilities_h5.py:112-118 | a matching record leaves path/channel holding its column and its metadata |
| H5.SharedF | export2hdf5/utilities_h5.py:108-127 | the shared loop loses no object and keeps the group. The only new objects are path/c for the first channel c of each matching record, path/time when the flag was unset and some record matches, and missing ancestors of path |
| H5.SharedFrame | export2hdf5/utilities_h5.py:97-127 | shared mode changes no existing object other than the group itself. Every new object is path/c for a matching record's first channel c, path/time, or an ancestor of path |
| H5.SharedNoMatch | export2hdf5/utilities_h5.py:109-112 | records whose first channel is not selected leave the container and the flag unchanged |
| H5.SharedChannelLeaf | export2hdf5/utilities_h5.py:112-118 | each matching record becomes path/channel holding its samples and its metadata |
| H5.SharedTimeLeaf | export2hdf5/utilities_h5.py:120-125 | the group's single time vector is the time column of the first matching record |
| H5.SharedStepGroupMeta | export2hdf5/utilities_h5.py:126-127 | one matching record puts each key of its meta on the group, converted as add_metadata converts it |
| H5.SharedGroupMeta | export2hdf5/utilities_h5.py:126-127 | since metadata_added stays False, each key of the last matching record's meta ends up on the group with that record's value |
| H5.SeparateStepF | export2hdf5/utilities_h5.py:131-146 | one record of the per-channel loop loses no object. The only objects it adds are path/c, path/c/data and path/c/time for its first channel c when that channel is selected, and missing ancestors of path |
| H5.Container.AddSeparateRecord | export2hdf5/utilities_h5.py:131-146 | the loop body's outcome and new state are SeparateStepF of the old state |
| H5.SeparateStepLeaves | export2hdf5/utilities_h5.py:133-146 | a matching record leaves path/channel/data with its samples and metadata, and path/channel/time with its time column and no attributes |
| H5.SeparateF | export2hdf5/utilities_h5.py:131-146 | the per-channel loop loses no object. The only new objects are path, its ancestors, and path/c, path/c/data and path/c/time for the first channel c of each matching record |
| H5.SeparateFrame | export2hdf5/utilities_h5.py:130-146 | per-channel mode changes no existing object: it only adds path, its ancestors, and path/c, path/c/data and path/c/time for the matching records' first channels |
| H5.SeparateNoGroupTime | export2hdf5/utilities_h5.py:130-146 | per-channel mode never creates path/time: each time vector goes under its own channel |
| H5.SeparateLeaves | export2hdf5/utilities_h5.py:131-146 | each matching record becomes path/channel/data (samples and metadata) and path/channel/time |
| H5.WrittenMembers | export2hdf5/utilities_h5.py:108-112 | the channels either mode writes are exactly the first channels of the records whose first channel is selected, and never "time" |
| H5.AddDataF | export2hdf5/utilities_h5.py:73-146 | `add_data_h5` in either mode loses no object. In shared mode it adds only path/c for the written channels c, path/time when some record matches, and ancestors of path. In per-channel mode it adds only path, its ancestors, and path/c, path/c/data and path/c/time |
| H5.Container.AddSharedH5 | export2hdf5/utilities_h5.py:97-127 | the shared branch's outcome and new state are AddDataF with shared_group set |
| H5.Container.AddSeparateH5 | export2hdf5/utilities_h5.py:130-146 | the per-channel branch's outcome and new state are AddDataF with shared_group unset |
| H5.Container.AddDataH5 | export2hdf5/utilities_h5.py:73-146 | the outcome and new state are AddDataF of the old state, and the tree invariant holds |
| Export.LookupReader | export2hdf5/export_hdf5.py:47-55 | a name finds a reader if and only if it is one of the nine registry keys, and the reader found has that name |
| Export.RegistryRoundTrip | export2hdf5/export_hdf5.py:47-55 | every registered reader is found under its own name |
| Export.MapF | export2hdf5/export_hdf5.py:70-83 | one map loses no object of the output |
| Export.WriteMapF | export2hdf5/export_hdf5.py:73-83 | the data write followed by the optional metadata write loses no object |
| Export.MapsF | export2hdf5/export_hdf5.py:67-83 | the maps loop loses no object and returns one rewritten map per map |
| Export.SourceF | export2hdf5/export_hdf5.py:66-83 | an unknown data_type fails with KeyError before anything is written; otherwise no object is lost |
| Export.ExportF | export2hdf5/export_hdf5.py:65-83 | the sources loop loses no object and returns one rewritten source per source |
| Export.ExportStep | export2hdf5/export_hdf5.py:65-66 | the first source is processed, then the rest on the container it leaves; a failure stops the loop |
| Export.ExportAppend | export2hdf5/export_hdf5.py:65-83 | processing s1 + s2 is processing s1, then s2 on what s1 leaves; a failure in s1 ends there |
| Export.MapChannels | export2hdf5/export_hdf5.py:70-71 | a `["*"]` list becomes the distinct data keys other than `"time"`, all of them; any other list is untouched; path and mode are kept |
| Export.MapShape | export2hdf5/export_hdf5.py:70-71 | the returned map's channels are exactly get_channels_in_set of the data when the list was `["*"]`, and the given list otherwise |
| Export.MapSeparateLeaf | export2hdf5/export_hdf5.py:73-83 | in per-channel mode each selected record's data leaf still holds its samples after the metadata write |
| Export.WriteMapAfterData | export2hdf5/export_hdf5.py:73-83 | the data write happens first and succeeds, and the metadata write only adds to what it left |
| Export.MapMetadataWins | export2hdf5/export_hdf5.py:79-83 | with `meta` present, attribute k of path/c holds the value of the last metadata group that selects c (after `["*"]` expansion) and has k |
| Export.Exporter.constructor | export2hdf5/export_hdf5.py:60-63 | the output container is created empty, before any source is read, and holds the configured sources |
| Export.Exporter.ProcessMap | export2hdf5/export_hdf5.py:68-83 | the inner loop body's outcome, new output and rewritten map are MapF of the old output |
| Export.Exporter.ProcessMaps | export2hdf5/export_hdf5.py:67-83 | the inner loop's outcome, output and rewritten maps are MapsF |
| Export.Exporter.ProcessSource | export2hdf5/export_hdf5.py:66-83 | the outer loop body's outcome, output and rewritten source are SourceF |
| Export.Exporter.Run | export2hdf5/export_hdf5.py:65-83 | the loop over the configured sources, in config order, leaves output and rewritten config equal to ExportF of the old ones |
| Timestamps.FormatBasic | export2hdf5/utilities_h5.py:53 | `strftime("%Y%m%dT%H%M%S")` is 15 characters, `T` at index 8 and decimal digits elsewhere |
| Timestamps.FormatParseRoundTrip | export2hdf5/utilities_h5.py:53 | reading the rendering back gives the datetime with its microseconds dropped |
| Timestamps.FormatInjective | export2hdf5/utilities_h5.py:53 | two datetimes render alike if and only if they agree down to the second |
| Timestamps.Digits | export2hdf5/utilities_h5.py:53 | a zero-padded decimal field has exactly the given width, all digits |
| Timestamps.DigitsRoundTrip | export2hdf5/utilities_h5.py:53 | a zero-padded field reads back as its number |
| LittleEndian.Unsigned | export2hdf5/utilities_neurone.py:159-164 | little-endian bytes denote a value below 256 to the number of bytes |
| LittleEndian.UnsignedRoundTrip | export2hdf5/utilities_neurone.py:159-164 | decoding an n-byte encoding gives the value back |
| LittleEndian.BytesRoundTrip | export2hdf5/utilities_neurone.py:159-164 | encoding a decoded byte string gives the bytes back |
| LittleEndian.Int32 | export2hdf5/utilities_neurone.py:153 | `Int32sl` reads four bytes as a two's-complement value in [-2^31, 2^31) |
| LittleEndian.Int32RoundTrip | export2hdf5/utilities_neurone.py:153 | building then parsing an int32 gives it back |
| LittleEndian.Int32BytesRoundTrip | export2hdf5/utilities_neurone.py:153 | parsing then building four bytes gives them back |
| LittleEndian.UInt64 | export2hdf5/utilities_neurone.py:159 | `Int64ul` reads eight bytes as a value in [0, 2^64) |
| LittleEndian.UInt64RoundTrip | export2hdf5/utilities_neurone.py:159 | building then parsing a uint64 gives it back |
| LittleEndian.UInt64BytesRoundTrip | export2hdf5/utilities_neurone.py:159 | parsing then building eight bytes gives them back |
| Dicts.Get | export2hdf5/utilities_neurone.py:238 | `e[k]` finds nothing (KeyError) if and only if k is not a key, and otherwise a stored pair |
| Dicts.Set | export2hdf5/utilities_neurone.py:216-217 | `d[k] = v` keeps the key order (appending a new key), makes k read v, and changes no other lookup |
| Dicts.SetAbsent | export2hdf5/utilities_neurone.py:216-217 | setting a new key appends the pair at the end |
| Dicts.Del | export2hdf5/utilities_neurone.py:219 | `del d[k]` fails with KeyError if and only if k is absent, and otherwise removes one entry |
| Dicts.DelDrop | export2hdf5/utilities_neurone.py:219 | in a dict, `del d[k]` removes exactly the entry for k, keeping the rest in order |
| Dicts.Values | export2hdf5/utilities_neurone.py:238 | the values, one per entry, in insertion order |
| NeurOne.DecodeField | export2hdf5/utilities_neurone.py:152-168 | a field decodes to a value its kind can hold |
| NeurOne.FieldRoundTrip | export2hdf5/utilities_neurone.py:152-168 | each field kind decodes its own encoding |
| NeurOne.FieldBytesRoundTrip | export2hdf5/utilities_neurone.py:152-168 | each field kind re-encodes its own decoding |
| NeurOne.EventLayoutSize | export2hdf5/utilities_neurone.py:152-168 | the event layout is 88 bytes |
| NeurOne.EventLayoutNames | export2hdf5/utilities_neurone.py:152-168 | the layout's sixteen field names are distinct |
| NeurOne.EventLayoutNamesLit | export2hdf5/utilities_neurone.py:152-168 | the field names in layout order: Revision, RFU1, Type, …, DataOffset, RFU2…RFU5 |
| NeurOne.EventWidths | export2hdf5/utilities_neurone.py:152-168 | the first six fields are int32 and the next six uint64 |
| NeurOne.Parse | export2hdf5/utilities_neurone.py:215 | `format.parse` gives the layout's names in order, each value in range for its field |
| NeurOne.Build | export2hdf5/utilities_neurone.py:277 | a successful `format.build` is as long as the layout |
| NeurOne.BuildOk | export2hdf5/utilities_neurone.py:277 | build succeeds if and only if every field is present and in range |
| NeurOne.BuildMissing | export2hdf5/utilities_neurone.py:277 | build stops at the first missing field with KeyError naming it |
| NeurOne.BuildParse | export2hdf5/utilities_neurone.py:152-168 | building what was parsed gives back the same bytes |
| NeurOne.ParseBuild | export2hdf5/utilities_neurone.py:152-168 | parsing what was built gives back, field by field, the values of the dict |
| NeurOne.TruncDiv | export2hdf5/utilities_neurone.py:216-217 | the true quotient stored in an int64 column is truncated toward zero: the floor quotient for non-negative operands, never larger in size than the dividend |
| NeurOne.Chunk | export2hdf5/utilities_neurone.py:213-215 | the i-th `file.read(88)` is 88 bytes |
| NeurOne.ChunkAt | export2hdf5/utilities_neurone.py:213-215 | record k spans bytes 88k to 88k + 88 |
| NeurOne.EventTimes | export2hdf5/utilities_neurone.py:216-217 | the two added keys are StartTime then StopTime |
| NeurOne.EventDictValue | export2hdf5/utilities_neurone.py:215-219 | the parse/set/del steps never fail and leave exactly the record's eleven event fields followed by the two times |
| NeurOne.DelRfusDrop | export2hdf5/utilities_neurone.py:218-219 | the `del` loop removes exactly RFU1..RFU5 |
| NeurOne.EventRecordKeys | export2hdf5/utilities_neurone.py:216-234 | a decoded event's keys are, in order, the thirteen columns of the table dtype, each once |
| NeurOne.Events | export2hdf5/utilities_neurone.py:205-219 | there are floor(size / 88) events; trailing bytes are not read |
| NeurOne.RowOf | export2hdf5/utilities_neurone.py:238 | `tuple([e[k] for k in keylist])` has one value per key, each the one the event stores |
| NeurOne.Rows | export2hdf5/utilities_neurone.py:238 | one row per event, each its RowOf |
| NeurOne.RowsOfValues | export2hdf5/utilities_neurone.py:237-238 | when every event has exactly the key list, the rows are the events' values |
| NeurOne.EventsTable | export2hdf5/utilities_neurone.py:237-239 | the key list taken from `events[0]` is the table's columns, and the rows are the records' values |
| NeurOne.EventRowsFit | export2hdf5/utilities_neurone.py:222-239 | the rows fit the dtype if and only if the six unsigned fields are below 2^63 |
| NeurOne.EventRowFits | export2hdf5/utilities_neurone.py:222-234 | a decoded row has 13 values and fits exactly when its six unsigned fields are below 2^63 |
| NeurOne.DecodeEvents | export2hdf5/utilities_neurone.py:205-241 | fewer than 88 bytes: IndexError; zero rate: ZeroDivisionError; otherwise one row per record, or OverflowError when an unsigned field exceeds the int64 column |
| NeurOne.ReadEvent | export2hdf5/utilities_neurone.py:215-219 | one turn of the read loop turns 88 bytes into the decoded event |
| NeurOne.ReadNeuroneEvents | export2hdf5/utilities_neurone.py:205-241 | the loop over the records and the table construction give DecodeEventsF of the bytes |
| NeurOne.ZeroRfusOther | export2hdf5/utilities_neurone.py:275-276 | setting the reserved fields leaves every other field as it was |
| NeurOne.ZeroRfusZero | export2hdf5/utilities_neurone.py:275-276 | a reserved field set to 0 stays 0 through the later passes |
| NeurOne.ZeroRfusFacts | export2hdf5/utilities_neurone.py:275-276 | after the five passes the event fields are unchanged and RFU1..RFU5 read 0 |
| NeurOne.EncodeEvent | export2hdf5/utilities_neurone.py:275-277 | a successful encoding is one 88-byte record |
| NeurOne.EncodeEventOk | export2hdf5/utilities_neurone.py:275-277 | an event encodes if and only if its eleven fields are present and in range |
| NeurOne.EncodeDecodeEvent | export2hdf5/utilities_neurone.py:275-277 | decoding an encoded event gives back its eleven fields and the times of its sample indices |
| NeurOne.WriteAllOk | export2hdf5/utilities_neurone.py:273-277 | the writer finishes if and only if every build succeeds |
| NeurOne.WriteAllStops | export2hdf5/utilities_neurone.py:273-277 | the first failing build ends the file: what came before, and that build's error |
| NeurOne.WriteAllChunks | export2hdf5/utilities_neurone.py:273-277 | when every build is one record, the file is those records back to back |
| NeurOne.Encodings | export2hdf5/utilities_neurone.py:274-277 | the intended writer builds each event once, with its reserved fields zeroed |
| NeurOne.EncodingOk | export2hdf5/utilities_neurone.py:274-277 | the i-th build succeeds exactly when the i-th event fits, and is then 88 bytes |
| NeurOne.WriteEventsOk | export2hdf5/utilities_neurone.py:271-277 | the intended writer finishes if and only if every event fits, and then writes 88 bytes per event |
| NeurOne.EncodedChunks | export2hdf5/utilities_neurone.py:271-277 | the intended writer's file holds each event's record in turn |
| NeurOne.EncodedRows | export2hdf5/utilities_neurone.py:271-277 | the rows read back from the intended writer's file are the events' own rows |
| NeurOne.WriteReadRoundTrip | export2hdf5/utilities_neurone.py:271-277 | reading back what the intended writer wrote gives one row per event holding the event's fields and times, or OverflowError when an unsigned field is too large for the int64 columns |
| NeurOne.EncodeOne | export2hdf5/utilities_neurone.py:275-277 | the inner loop with the build taken out of it builds the event with RFU1..RFU5 set to 0 |
| NeurOne.AttemptedSpec | export2hdf5/utilities_neurone.py:273-277 | the writer makes every build when it finishes; when it stops, the last build it made failed and every earlier one succeeded |
| NeurOne.AttemptedStopsAt | export2hdf5/utilities_neurone.py:273-277 | a failing build after a prefix that was written ends the file with that build's error and is the last build made |
| NeurOne.WriteEventsWith | export2hdf5/utilities_neurone.py:273-277 | the intended loop over events writes WriteAll of the intended builds. The caller's dicts it reached have RFU1..RFU5 set to 0, and the others are as they were |
| NeurOne.WriteNeuroneEvents | export2hdf5/utilities_neurone.py:271-277 | the intended writer's file is EncodedEvents of the events. The caller's dicts come back as Zeroed up to the last build made, because the writer sets their reserved fields in place |
| NeurOne.CallerEventsZeroed | export2hdf5/utilities_neurone.py:274-276 | after an intended write that finishes, each of the caller's dicts has RFU1..RFU5 equal to 0 and every other field as it was |
| NeurOne.PassEncodings | export2hdf5/utilities_neurone.py:274-277 | as written, five builds per event, in loop order |
| NeurOne.PassEncodingsSize | export2hdf5/utilities_neurone.py:274-277 | every successful build as written is one layout-sized record |
| NeurOne.LastPassEncodes | export2hdf5/utilities_neurone.py:274-277 | the fifth build of each event as written is the intended build |
| NeurOne.AsWrittenRepeats | export2hdf5/utilities_neurone.py:274-277 | when the writer as written finishes, the file is 5 · 88 bytes per event, and the fifth copy of each event is its intended record |
| NeurOne.AsWrittenFailsWithoutReserved | export2hdf5/utilities_neurone.py:274-277 | an event that fits but has no RFU2 makes the writer as written fail at its first build, with KeyError('RFU2') and nothing written |
| NeurOne.DocumentedEventFits | export2hdf5/utilities_neurone.py:252-265 | the documented example event has its eleven fields in range and no RFU2 |
| NeurOne.DocumentedEventWrites | export2hdf5/utilities_neurone.py:252-277 | on the documented example the writer as written raises KeyError('RFU2'); the intended writer writes one 88-byte record |
| NeurOne.SingleEventWrites | export2hdf5/utilities_neurone.py:274-277 | a lone event that fits but lacks RFU2: KeyError as written, one record as intended |
| NeurOne.WritePassesWith | export2hdf5/utilities_neurone.py:273-277 | the nested loops as written write WriteAll of the five builds per event. Event i of the caller's dicts has had Passes(n - 5i) of its reserved fields set, where n is the number of builds made |
| NeurOne.WriteNeuroneEventsAsWritten | export2hdf5/utilities_neurone.py:271-277 | write_neurone_events as written produces EncodedEventsAsWritten of the events, and returns the caller's dicts as ZeroedAsWritten up to the last build made |
| NeurOne.ZeroedAsWrittenStep | export2hdf5/utilities_neurone.py:274-276 | after n builds, with 5i < n <= 5i + 5, the dicts are those after 5i builds with event i given n - 5i passes: the passes over event i touch no other dict |
| NeurOne.AsWrittenLeavesPartialReserved | export2hdf5/utilities_neurone.py:274-277 | when the first event fits but lacks RFU2, the writer as written leaves that dict with RFU1 = 0 added and the later dicts untouched |
| NeurOne.AsWrittenZeroesAll | export2hdf5/utilities_neurone.py:274-276 | when the writer as written finishes, every dict the caller passed has had RFU1..RFU5 set to 0 |
| NeurOneSignal.StrLeqTotal | export2hdf5/utilities_neurone.py:65 | Python's string order is total |
| NeurOneSignal.StrLeqTrans | export2hdf5/utilities_neurone.py:65 | Python's string order is transitive |
| NeurOneSignal.StrLeqAntisym | export2hdf5/utilities_neurone.py:65 | Python's string order is antisymmetric |
| NeurOneSignal.InputLeqTotal | export2hdf5/utilities_neurone.py:65 | the tuple order on (input number, name) is total |
| NeurOneSignal.InputLeqTrans | export2hdf5/utilities_neurone.py:65 | the tuple order is transitive |
| NeurOneSignal.InputLeqAntisym | export2hdf5/utilities_neurone.py:65 | the tuple order is antisymmetric |
| NeurOneSignal.SortInputs | export2hdf5/utilities_neurone.py:65 | `sorted` returns a permutation of its input |
| NeurOneSignal.SortInputsSorted | export2hdf5/utilities_neurone.py:65 | `sorted` returns its input in ascending (input number, name) order |
| NeurOneSignal.SortedUnique | export2hdf5/utilities_neurone.py:65 | two ascending arrangements of the same inputs are equal, so the sort is determined |
| NeurOneSignal.ChannelOrder | export2hdf5/utilities_neurone.py:63-65 | one name per TableInput |
| NeurOneSignal.ChannelOrderSpec | export2hdf5/utilities_neurone.py:61-65 | the names are those of any ascending permutation of the inputs, in order: by input number, ties broken by name |
| NeurOneSignal.ReadProtocol | export2hdf5/utilities_neurone.py:59-92 | one channel name per TableInput |
| NeurOneSignal.Words | export2hdf5/utilities_neurone.py:134 | `np.fromfile(dtype='<i4')` gives floor(size / 4) words |
| NeurOneSignal.WordsRoundTrip | export2hdf5/utilities_neurone.py:134 | reading back int32 words written as '<i4' gives them back |
| NeurOneSignal.Reshape | export2hdf5/utilities_neurone.py:135 | the reshape has m rows of n samples |
| NeurOneSignal.ReshapeAt | export2hdf5/utilities_neurone.py:135 | the reshape is row-major: entry i of row k is word k·n + i |
| NeurOneSignal.ReadData | export2hdf5/utilities_neurone.py:127-135 | a successful read has every row n_channels long |
| NeurOneSignal.ReadDataSpec | export2hdf5/utilities_neurone.py:127-135 | zero channels: ZeroDivisionError; a word count not a multiple of the channel count: ValueError from the reshape; otherwise the rows hold all the words |
| NeurOneSignal.ReadDataAt | export2hdf5/utilities_neurone.py:127-135 | sample k of channel i is word k·n_channels + i of the file |
| NeurOneSignal.Column | export2hdf5/utilities_neurone.py:348 | `data[:, i]` holds entry i of every row |
| NeurOneSignal.EncodeWords | export2hdf5/utilities_neurone.py:134 | four bytes per word |
| NeurOneSignal.ReshapeFlatten | export2hdf5/utilities_neurone.py:135 | reshaping flattened rows gives the rows back |
| NeurOneSignal.ReadDataRoundTrip | export2hdf5/utilities_neurone.py:127-137 | reading a file written as rows of n int32 samples, with n channels, gives back those rows |
| NeurOneSignal.TimeVector | export2hdf5/utilities_neurone.py:343 | one time per sample |
| NeurOneSignal.ChannelRecord | export2hdf5/utilities_neurone.py:347-350 | the record carries the protocol meta and data `{label: samples, "time": timevec}`; a channel named "time" is overwritten by the time vector |
| NeurOneSignal.DataRecords | export2hdf5/utilities_neurone.py:345-350 | one record per protocol channel |
| NeurOneSignal.ReadNeuroneDataHdf5 | export2hdf5/utilities_neurone.py:336-352 | the loop filling the preallocated list gives DataHdf5 of the protocol and file |
| NeurOneSignal.DataHdf5Records | export2hdf5/utilities_neurone.py:336-352 | record i holds protocol meta, keys [label, "time"], sample k of channel i = word k·n + i, and time k / sampling_rate |
| NeurOneSignal.DataHdf5Channels | export2hdf5/utilities_neurone.py:345-350 | with distinct channel names other than "time", get_channels_in_set of the records is exactly the protocol channels, in order |
| Psg.StampOf | export2hdf5/utilities_psg.py:93-94 | a parsed timestamp keeps its datetime |
| Psg.Accepted | export2hdf5/utilities_psg.py:102 | the kept events are no more than the events |
| Psg.AcceptedMembers | export2hdf5/utilities_psg.py:102 | an event is kept if and only if it occurs and its type is accepted |
| Psg.AcceptedAppend | export2hdf5/utilities_psg.py:86-113 | filtering is in document order: filtering a concatenation filters each part |
| Psg.EventListShape | export2hdf5/utilities_psg.py:110-119 | the four vectors and n_events all equal the number kept; entry k is kept event k's start, stop, type and duration |
| Psg.WarningsSpec | export2hdf5/utilities_psg.py:103-108 | the check prints at kept position k if and only if kept event k does not start exactly 30 s after kept event k − 1 |
| Psg.ReadEventsWith | export2hdf5/utilities_psg.py:79-121 | the loop's result is the event list of the accepted events; the printed positions are the warnings when the check is on, and none when off |
| Psg.ReadPsgEvent | export2hdf5/utilities_psg.py:54-121 | read_psg_event returns the accepted events' list with durations in seconds, and prints only when check_consecutive is set |
| Psg.FirstIndex | export2hdf5/utilities_psg.py:123-128 | the first index of val, or 1 when val is absent |
| Psg.Reverse | export2hdf5/utilities_psg.py:133 | `x[::-1]` |
| Psg.LastIndexSpec | export2hdf5/utilities_psg.py:130-135 | the last index of val, or len(x), one past the end, when val is absent |
| Psg.StageCode | export2hdf5/utilities_psg.py:156-163 | the stage table: KeyError exactly for a type outside its eight keys; codes lie in -6..0 |
| Psg.StageCodes | export2hdf5/utilities_psg.py:168 | the codes exist if and only if every type is in the table, one code per type |
| Psg.TimeAxis | export2hdf5/utilities_psg.py:169 | `np.arange(0, 30n, 30)`: n entries, entry k = 30k |
| Psg.HypnogramDataset | export2hdf5/utilities_psg.py:137-171 | succeeds exactly when there is a first event and every type has a code; empty: IndexError; one record, time_start = first start, rate 1/30, hypnogram and time one entry per event |
| Psg.HypnogramChannels | export2hdf5/utilities_psg.py:168-171 | the hypnogram dataset's only channel is "hypnogram" |
| Psg.Offsets | export2hdf5/utilities_psg.py:191 | entry k is event k's start minus the given start, in seconds |
| Psg.PsgEventDataset | export2hdf5/utilities_psg.py:174-194 | fails with IndexError exactly on an empty list; one record, time[0] = 0, time[k] = start k minus the first start, events and durations copied in order |
| Psg.PsgEventChannels | export2hdf5/utilities_psg.py:190-194 | the event dataset's channels are "event" and "duration" |
| Psg.ReadHypnogram | export2hdf5/utilities_psg.py:20-35 | read_hypnogram of utilities_psg: the accepted events, with the spacing check on, as a hypnogram dataset |
| Psg.ReadArousal | export2hdf5/utilities_psg.py:37-52 | read_arousal: the accepted events, without the check, as an event dataset |
| Psg.DefaultHypnogramOk | export2hdf5/utilities_psg.py:20-35 | with the default accepted types, read_hypnogram fails only when no event is accepted, with IndexError |
| Hypnogram.ReadHypnogram | export2hdf5/utilities_hypnogram.py:20-86 | the second read_hypnogram: the accepted events with the check always on and durations in milliseconds, as a hypnogram dataset |
| Hypnogram.SameAsPsg | export2hdf5/utilities_hypnogram.py:58-60 | the duration unit never reaches the dataset: both read_hypnogram functions give the same hypnogram |

## Left out

- XML parsing and `datetime.strptime`. Events arrive with their type and parsed
  timestamps. A timestamp carries its microsecond count (`Psg.Stamp`), and time
  differences are exact reals. TableInputs arrive as (PhysicalInputNumber, Name)
  pairs, with the rate and the session times already read.
- The `'+'` slicing of the session timestamps in `read_neurone_protocol` is not
  modelled; the times arrive parsed.
- File I/O. Files are byte sequences, and the writers return the bytes they
  would write.
- Floating-point arithmetic. `int(f_info / 4 / n_channels)` is modelled as
  nested integer division, which agrees for non-negative sizes. Time vectors,
  durations and the 1/30 rate are exact reals.
- NeurOne.TruncDiv: StartTime and StopTime are float64 quotients that numpy
  truncates when it stores them in int64 columns. The model truncates the exact
  quotient, so it agrees with the source only while the sample index and the
  quotient fit a float64 mantissa (about 2^53). For example, StartSampleIndex =
  2^53 + 1 at rate 1 becomes 2^53 in Python but stays 2^53 + 1 here.
- numpy's reading of a file whose size is not a multiple of 4: trailing bytes
  are ignored.
- NeurOneSignal.ReadNeuroneDataHdf5: a sampling rate of 0, which in numpy gives
  inf/nan times, is excluded by `requires p.rate != 0`. The same applies to
  NeurOneSignal.DataHdf5, NeurOneSignal.TimeVector and
  NeurOneSignal.DataRecords.
- NeurOne.Build: construct reports an out-of-range value with its own exception
  class; here every such failure is `OverflowError`.
- Timestamps.FormatBasic: years below 1000 are rendered zero-padded to four
  digits. The C library's `%Y` may render them unpadded.
- `print` diagnostics. The spacing check's messages are returned as the list of
  kept positions that print (`warned`).
- H5.GetGroupF: paths are lists of names, and the root group is not an object of the
  map. `get_group(fid, "/")` returns the root group, but GetGroupF of the empty path
  fails with `PathOccupied`. A name holding "/" (such as a channel "EEG/Fz", which
  h5py would split into a group and a child), empty names, and leading or doubled
  slashes are not represented either. The same applies to every member that builds
  path + "/" + channel.
- H5.Container.AddMetadataH5, H5.Container.AddDataH5, H5.Container.AddSharedH5,
  H5.Container.AddSeparateH5, H5.Container.SetChannelsInfo,
  H5.Container.AddSharedRecord, H5.Container.AddSeparateRecord and the
  Export.Exporter methods: when they fail, they are only proved to keep the tree
  and lose nothing (`Extends` of the old map). The objects written before the
  failing call, which h5py leaves in the file, are not stated. H5.Container.GetGroup,
  H5.Container.SetInfo and H5.Container.CreateDataset leave the map unchanged when
  they fail.
- NeurOne.WriteNeuroneEvents and NeurOne.WriteNeuroneEventsAsWritten: the caller's
  dicts are returned as a new sequence. Aliasing is not modelled: the same dict
  object appearing twice in `events` would receive both updates in Python.
- h5py internals: the on-disk format, the float32 conversion (`dtype="f"`) and
  closing. Creating an object at an occupied path, or below a dataset, is an
  assumed failure (`PathOccupied`, `NotAGroup`).
- `read_neurone` (utilities_neurone.py:280-317) is not modelled separately. Its
  record loop is the one of `read_neurone_data_hdf5`. Likewise
  `read_neurone_events_hdf5` only calls the modelled readers.
- The device readers behind the registry (EDF, Empatica, Firstbeat, MyDarwin,
  Shimmer) are a function parameter of the export loop. The CLI, JSON loading and
  configuration validation are not modelled.
- utilities_hypnogram.py's copies of `firstindex`, `lastindex` and
  `hypnogram_to_dataset` are the same code as in utilities_psg.py and are
  modelled once, in `Psg`.

## Findings

| source | as written | input that shows it | evidently intended | confidence | as-written member | corrected member |
|---|---|---|---|---|---|---|
| export2hdf5/utilities_neurone.py:274-277 | `file.write(format.build(e))` sits inside the `for j in range(5)` loop. Each event is built after setting only RFU1..RFU<j+1>, and is written five times | the documented example event (Revision=5 … DataOffset=0, no RFU fields): the first build lacks RFU2 and raises KeyError('RFU2') before anything is written. An event that already has RFU2..RFU5 is written 5 × 88 bytes | set RFU1..RFU5 to 0, then build and write each event once: 88 bytes per event, which the reader reads back | not executed | NeurOne.WriteNeuroneEventsAsWritten, NeurOne.AsWrittenFailsWithoutReserved, NeurOne.DocumentedEventWrites, NeurOne.AsWrittenRepeats | NeurOne.WriteNeuroneEvents, NeurOne.WriteReadRoundTrip |
