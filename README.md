# Auctus (datamart) core logic in Dafny

This project models the deterministic parts of the Auctus dataset search engine (the `datamart`
repository) and proves properties of them. It covers the following parts.

- **Profiler text helpers** (`profiler_text.dfy`). These are `truncate_string`,
  `expand_attribute_name`, and `count_garbage_rows` over row lengths.
- **Profiler metadata bookkeeping** (`profiler_dataset.dfy`). This is the `process_dataset` and
  `process_column` code that checks keyword arguments, reconciles column metadata, merges
  semantic types, tallies dataset types, merges administrative-area bounding boxes and builds
  attribute keywords.
- **Dataset identifiers and links** (`dataset_ids.dfy`). This covers the `encode_dataset_id` and
  `decode_dataset_id` escape codec, `_base_url`, and the link replacement of `strip_html`.
- **The supplementary search index** (`sup_index.dfy`). This is `add_dataset_to_sup_index`, with
  `es.index` recorded as an append to a log object.
- **Spatial profiling**:
  - `spatial_pairing.dfy`: latitude/longitude name normalisation and pairing.
  - `spatial_geohash.dfy`: Geohash bit packing and the base checks of `hash_location` and
    `decode_hash`.
  - `spatial_nominatim.dfy`: the batching, caching and de-duplication loop of
    `nominatim_resolve_all`, with the geocoder as an oracle.
- **The coordinator** (`coordinator.dfy`). This is the bounded `RecentList` class and
  `build_discovery`.
- **The upload form** (`upload.dfy`). This is the state machine of the React `UploadForm`
  component (`validate`, submit, profile, column-type edit) and `Upload.onFormSubmit`.
- **The UAZ indicators discoverer** (`uaz_indicators.dfy`). It groups consecutive variables by
  prefix and builds each dataset's header, query parameters and CSV rows.
- **Geographic data preparation** (`geo_data.dfy`). This covers the SPARQL binding accessors, the
  shape-URL rewrite, polygon point flattening, and the bounding-box folds of `bounds0`, `bounds1`
  and the OSM fallback.

Shared modules:

- `wrappers.dfy`: `Option` and `Result`.
- `seqs.dfy`: concatenation and "append if absent".
- `pystr.dfy`: Python's `strip`, `lower`, `find`, `replace`, `'%X'` and `str(int)`.
- `json.dfy`: the JSON-like values the Python dictionaries hold.

Python dictionaries become Dafny `map`s, lists become `seq`s, and strings become `seq<char>`.
Code that updates state step by step is written as Dafny methods with loops. Each method is
proved equal to a specification function, and the properties are proved about that function.
`RecentList`, the `UploadForm` and `Upload` components, and the Elasticsearch log are classes.

## Model

| member | source | states |
|---|---|---|
| Coordinator.Islice | coordinator/coordinator/coordinator.py:39 | `islice(init, size)` is the prefix of `init` of length `min(size, len(init))` |
| Coordinator.IndexOf | coordinator/coordinator/coordinator.py:44-45 | the scan finds the first entry with the key, and finds nothing exactly when no entry has it |
| Coordinator.ValuesOf | coordinator/coordinator/coordinator.py:53-54 | iteration yields exactly the values, one per entry, in list order |
| Coordinator.InsertKeepsBound | coordinator/coordinator/coordinator.py:49-51 | `insert_or_replace` never lets the list grow beyond `size` |
| Coordinator.ReplaceInPlace | coordinator/coordinator/coordinator.py:44-47 | an existing key is replaced where it stands; the length and every other entry are unchanged |
| Coordinator.InsertAtFront | coordinator/coordinator/coordinator.py:49-51 | a new key goes to index 0, the others shift right by one, and entries beyond `size` are dropped |
| Coordinator.InsertKeepsDistinct | coordinator/coordinator/coordinator.py:43-51 | keys stay pairwise distinct |
| Coordinator.InsertedIsListed | coordinator/coordinator/coordinator.py:43-54 | after an insert the entry is in the list and its value is iterated, whenever `size > 0` |
| Coordinator.RecentList.constructor | coordinator/coordinator/coordinator.py:36-41 | the list keeps at most the first `size` entries of `init`, or starts empty without `init` |
| Coordinator.RecentList.InsertOrReplace | coordinator/coordinator/coordinator.py:43-51 | the loop leaves exactly the entries of the insert-or-replace specification and keeps the size bound |
| Coordinator.RecentList.Values | coordinator/coordinator/coordinator.py:53-54 | `__iter__` yields one value per entry, in list order |
| Coordinator.BuildDiscovery | coordinator/coordinator/coordinator.py:126-135 | the summary has exactly the six keys `id`, `discoverer`, `discovered`, `profiled`, `name` and `types`; a `materialize` entry that is not a dict is an error |
| Coordinator.BuildDiscoveryFields | coordinator/coordinator/coordinator.py:127-134 | each field is the metadata's own value when present, otherwise `(unknown)`, `???` or `None` |
| Coordinator.BuildDiscoveryDefaults | coordinator/coordinator/coordinator.py:127-134 | empty metadata gives `discoverer='(unknown)'`, `discovered='???'`, `profiled='???'` and no name or types |
| DatasetIds.EscapeUnsafeAppend | lib_core/datamart_core/common.py:151-152 | the regular-expression substitution works character by character, so it distributes over concatenation |
| DatasetIds.EncodeCons | lib_core/datamart_core/common.py:147-153 | the encoding of an identifier is the encoding of its first character followed by the encoding of the rest |
| DatasetIds.EncodeIsPathSafe | lib_core/datamart_core/common.py:144-153 | every character of an encoded identifier is in `[A-Za-z0-9_.-]` |
| DatasetIds.EncodeSafe | lib_core/datamart_core/common.py:150-153 | on path-safe input the encoding only doubles every `_` |
| DatasetIds.EncodeIdentity | lib_core/datamart_core/common.py:150-153 | an identifier made only of `[A-Za-z0-9.-]` is its own encoding |
| DatasetIds.HexDigitsValue | lib_core/datamart_core/common.py:169 | one or two hexadecimal digits give a value below 256, and one digit gives a value below 16 |
| DatasetIds.IntBase16 | lib_core/datamart_core/common.py:169 | `int(s, 16)` on the at most two characters after a `_` is between -255 and 255 when it succeeds (ASCII hexadecimal digits only) |
| DatasetIds.SignedHex | lib_core/datamart_core/common.py:169 | a sign followed by hexadecimal digits reads as a value between -255 and 255 |
| DatasetIds.IntBase16ShortAgrees | lib_core/datamart_core/common.py:169 | the case-by-case table of `int(s, 16)` on short strings agrees with the strip-sign-digits reading on every input |
| DatasetIds.HexChar | lib_core/datamart_core/common.py:169 | `chr(int(char_hex, 16))` is a character of code at most 255, or a `ValueError` |
| DatasetIds.DecodeDatasetId | lib_core/datamart_core/common.py:156-171 | the loop that deletes from and overwrites the character list returns exactly the decoding, errors included, with hexadecimal digits limited to ASCII |
| DatasetIds.DecodeEscape | lib_core/datamart_core/common.py:162-169 | one `_` step either fails with the decoding's own error, or keeps the loop invariant one position further on |
| DatasetIds.DecodeDoubleUnderscore | lib_core/datamart_core/common.py:163-164 | `__` decodes to a single `_` |
| DatasetIds.DecodeTrailingUnderscore | lib_core/datamart_core/common.py:161-163 | a lone `_` at the end is an `IndexError` |
| DatasetIds.HexCharOfHex | lib_core/datamart_core/common.py:151-169 | a code point from 0x10 to 0xFF is written as two upper-case digits that decode back to it |
| DatasetIds.DecodeEncode | lib_core/datamart_core/common.py:147-171 | decoding the encoding gives the identifier back whenever every escaped character has a code point from 0x10 to 0xFF |
| DatasetIds.ShortEscapeBreaksRoundTrip | lib_core/datamart_core/common.py:151-169 | `"\x05A"` encodes to `"_5A"`, which decodes to `"Z"`: `'%X'` has no zero padding |
| DatasetIds.LongEscapeBreaksRoundTrip | lib_core/datamart_core/common.py:151-169 | `"€"` encodes to `"_20AC"`, which decodes to `" AC"`: only two hexadecimal digits are read back |
| DatasetIds.HexTwoDigits | lib_core/datamart_core/common.py:151 | `'%X'` writes a code point from 0x10 to 0xFF as exactly two digits, the case in which the round trip holds |
| DatasetIds.HexOfEuro | lib_core/datamart_core/common.py:151 | `'%X' % 0x20AC` is four digits, `20AC` |
| DatasetIds.StripTrailingSlashes | lib_core/datamart_core/common.py:207 | `rstrip('/')` keeps a prefix that does not end in `/` and removes only `/` characters |
| DatasetIds.BaseUrl | lib_core/datamart_core/common.py:200-207 | `_base_url` never ends in `/` |
| DatasetIds.BaseUrlOneScheme | lib_core/datamart_core/common.py:200-207 | exactly one leading `http://` or `https://` is removed, and both schemes give the same base |
| DatasetIds.ReplaceLink | lib_core/datamart_core/common.py:212-217 | the label is kept alone exactly when its base URL equals the link's, and is otherwise followed by ` (url)` |
| DatasetIds.ReplaceLinkSameSite | lib_core/datamart_core/common.py:212-217 | a label that spells its own target, up to the scheme and trailing slashes, is kept alone |
| SupIndex.Lookup | lib_core/datamart_core/common.py:271-272 | `v[key]` succeeds exactly on a dict holding the key, and gives its value |
| SupIndex.At | lib_core/datamart_core/common.py:293-296 | `v[i]` on a list succeeds exactly for an index in range and gives that element; a dict or a number raises |
| SupIndex.Prefixed | lib_core/datamart_core/common.py:258 | `'dataset_' + key` is the key behind an eight-character `dataset_` prefix |
| SupIndex.PrefixedInjective | lib_core/datamart_core/common.py:258 | two distinct dataset keys never land on the same prefixed key |
| SupIndex.CommonMetadataKeys | lib_core/datamart_core/common.py:248-258 | the common fields are `dataset_id` plus exactly the non-discarded dataset fields under `dataset_<key>`, with their values; `dataset_id` is the identifier unless the dataset has an `id` field |
| SupIndex.MapAll | lib_core/datamart_core/common.py:268-275 | a list comprehension that completes gives one element per item |
| SupIndex.MapAllOk | lib_core/datamart_core/common.py:268-275 | the comprehension completes exactly when every item's element can be built, and then gives those elements in order |
| SupIndex.ColumnDocShape | lib_core/datamart_core/common.py:261-275 | a column document fails exactly when the column is not a dict or a coverage range lacks `range.gte`/`range.lte`; otherwise it has no `plot`, its `index`, every common field, every other column field, and `coverage` exactly when the column has one |
| SupIndex.Emit | lib_core/datamart_core/common.py:261-279 | the loop indexes at most one document per item |
| SupIndex.IndexLog.constructor | lib_core/datamart_core/common.py:243 | the client starts with no documents indexed |
| SupIndex.IndexLog.Index | lib_core/datamart_core/common.py:276-279 | `es.index(name, doc)` appends one document to the log |
| SupIndex.IndexAll | lib_core/datamart_core/common.py:261-279 | the indexing loop appends exactly the documents of the specification and stops with its error |
| SupIndex.IndexIfPresent | lib_core/datamart_core/common.py:282-283 | a coverage pass runs only when the dataset has that field |
| SupIndex.IndexCoverages | lib_core/datamart_core/common.py:281-321 | the spatial pass, then the temporal pass unless the spatial one raised |
| SupIndex.IndexDocs | lib_core/datamart_core/common.py:260-321 | the columns pass, then the coverage passes unless it raised; a missing `columns` key is a `KeyError` |
| SupIndex.AddDatasetToSupIndex | lib_core/datamart_core/common.py:243-321 | the documents appended to the log, and the exception raised, are exactly those of the specification |
| SupIndex.EmitErrorSticks | lib_core/datamart_core/common.py:261-279 | once a document fails, the items after it add nothing |
| SupIndex.EmitInOrder | lib_core/datamart_core/common.py:261-279 | document `i` is item `i`'s document, the run completes exactly when every item gave one, and an error is the first failing item's |
| SupIndex.CommonAvoidsColumnKeys | lib_core/datamart_core/common.py:255-266 | the common fields never include `plot`, `index` or `coverage` |
| SupIndex.ColumnDocsInOrder | lib_core/datamart_core/common.py:255-279 | whatever exception ends the run, the documents at the columns' positions are the `datamart_columns` documents, in column order, with `index` equal to the position, no `plot`, and every non-discarded dataset field under `dataset_<key>`; a completed run has one per column |
| SupIndex.ColumnDocCarriesDataset | lib_core/datamart_core/common.py:255-266 | a column document carries its position, has no `plot`, and carries every non-discarded dataset field |
| SupIndex.ColumnsComeFirst | lib_core/datamart_core/common.py:260-281 | whatever exception ends the run, the documents start with the column documents, and the first `n` columns are all indexed when their documents build; a completed run has built every column's document |
| SupIndex.WithBoundsLifts | lib_core/datamart_core/common.py:268-275 | a numeric or temporal range gets `gte` and `lte` copied from its `range` exactly when that object holds both |
| SupIndex.WithCornersOfEnvelope | lib_core/datamart_core/common.py:289-297 | the envelope `[[a, b], [c, d]]` gives `min_lon = a`, `max_lat = b`, `max_lon = c`, `min_lat = d`, and every other field is kept |
| ProfilerText.SliceIndex | lib_profiler/datamart_profiler/core.py:81-83 | a Python slice bound is clamped into `[0, len]` and a bound already in range is kept |
| ProfilerText.RFindChar | lib_profiler/datamart_profiler/core.py:81 | `rfind` returns the last position of the character in the window, and finds nothing exactly when the window holds none |
| ProfilerText.TruncateString | lib_profiler/datamart_profiler/core.py:74-85 | a short string is unchanged; with no space in the window the result is `s[:limit-3] + "..."`, exactly `limit` long; otherwise it is cut at the found space and is shorter than `limit` |
| ProfilerText.TruncateAtLastSpace | lib_profiler/datamart_profiler/core.py:81-85 | for `limit >= 20` a space is found exactly when one lies in `[limit-20, limit-4]`, the cut is at the last such space, and the result is between `limit-17` and `limit-1` long |
| ProfilerText.SplitSnoc | lib_profiler/datamart_profiler/core.py:99-114 | the pieces of a name grow by one loop step per character |
| ProfilerText.StepWord | lib_profiler/datamart_profiler/core.py:100-114 | a delimiter closes a non-empty word, a break closes the word and starts a new one, and any other character extends the word |
| ProfilerText.StepGrows | lib_profiler/datamart_profiler/core.py:106-114 | a character that neither delimits nor breaks extends the word being built |
| ProfilerText.ExpandAttributeName | lib_profiler/datamart_profiler/core.py:93-116 | the generator's loop yields exactly the pieces of the specification after `_` and `-` become spaces |
| ProfilerText.RemoveDelimiters | lib_profiler/datamart_profiler/core.py:100-104 | the name with its delimiters removed holds no delimiter |
| ProfilerText.SplitConcat | lib_profiler/datamart_profiler/core.py:93-116 | the pieces put back together give the name with every delimiter removed |
| ProfilerText.CleanSnoc | lib_profiler/datamart_profiler/core.py:106-114 | appending a character that neither delimits nor breaks keeps a word free of delimiters and breaks |
| ProfilerText.SplitPiecesClean | lib_profiler/datamart_profiler/core.py:99-116 | no piece contains a delimiter, and no piece contains a digit/non-digit or lower/upper switch |
| ProfilerText.SplitEmptyPieces | lib_profiler/datamart_profiler/core.py:101-116 | only the final piece can be empty, and it is empty exactly when the name is empty or ends in a delimiter |
| ProfilerText.SplitCutsAtBreaks | lib_profiler/datamart_profiler/core.py:106-112 | without delimiters, consecutive pieces are non-empty and meet at a break: a new piece starts exactly at a switch |
| ProfilerText.SplitSingle | lib_profiler/datamart_profiler/core.py:93-116 | a name is its own single piece exactly when it has no delimiter and no break |
| ProfilerText.SplitSingleClean | lib_profiler/datamart_profiler/core.py:100-104 | a single piece holds no delimiter |
| ProfilerText.SingleFromClean | lib_profiler/datamart_profiler/core.py:106-116 | a name with no delimiter and no break is one piece |
| ProfilerText.SplitRun | lib_profiler/datamart_profiler/core.py:106-114 | within a run of characters that neither delimit nor break, the last piece keeps growing |
| ProfilerText.SplitGrows | lib_profiler/datamart_profiler/core.py:106-114 | one more character of such a run extends the last piece |
| ProfilerText.SplitCut | lib_profiler/datamart_profiler/core.py:106-114 | a break closes the piece being built and starts a new one with the breaking character |
| ProfilerText.SplitNextPiece | lib_profiler/datamart_profiler/core.py:106-114 | a break closes one piece, and the next piece runs up to the next break |
| ProfilerText.ExpandExample | lib_profiler/datamart_profiler/core.py:93-116 | `'Apt221bBakerStreet'` gives `Apt`, `221`, `b`, `Baker`, `Street` |
| ProfilerText.ExampleSpaced | lib_profiler/datamart_profiler/core.py:96 | the example name has no `_` or `-` to replace |
| ProfilerText.CountGarbageRows | lib_profiler/datamart_profiler/core.py:143-164 | over the first ten row widths the result is the start of the first run of four equal widths, otherwise the start of the last run (0 for an empty file); it is below 10 and the `ValueError` branch is never taken |
| ProfilerDataset.FirstOther | lib_profiler/datamart_profiler/core.py:641-645 | the first keyword other than `sample_size`, or none exactly when every keyword is `sample_size` |
| ProfilerDataset.CheckKwargs | lib_profiler/datamart_profiler/core.py:636-646 | a `TypeError` exactly when a keyword other than `sample_size` was passed, naming the first one; otherwise `sample_size` replaces `load_max_size` when given |
| ProfilerDataset.ReconcileColumns | lib_profiler/datamart_profiler/core.py:668-680 | provided columns with the wrong count raise the count `ValueError` and are left as they are; otherwise the columns before the first name that differs from the header are renamed in place, that column raises the names `ValueError` and the rest are untouched, and with no such column every column gets its header name and keeps its other fields; without provided columns one `{'name': name}` is made per header name |
| ProfilerDataset.FirstDisagreement | lib_profiler/datamart_profiler/core.py:673-675 | the first provided column whose `name` differs from the header's, with every earlier one agreeing, or none exactly when all agree |
| ProfilerDataset.MergeSemanticTypes | lib_profiler/datamart_profiler/core.py:294-297 | the existing types are kept in order and each detected type is appended only if absent |
| ProfilerDataset.TallyDatasetTypes | lib_profiler/datamart_profiler/core.py:802-809 | a type is counted exactly when some column has it, and its count is the number of such columns |
| ProfilerDataset.CountKeysDistinct | lib_profiler/datamart_profiler/core.py:810-815 | the four `nb_*_columns` keys are pairwise distinct |
| ProfilerDataset.PresentFrom | lib_profiler/datamart_profiler/core.py:818 | the types present, from rank `k` on, in strictly increasing order, each listed exactly when it was counted |
| ProfilerDataset.TypeNameInjective | lib_profiler/datamart_profiler/core.py:818 | two types share a name exactly when they are the same type |
| ProfilerDataset.SortedTypesMembers | lib_profiler/datamart_profiler/core.py:818 | `sorted(set(dataset_types))` lists a type's name exactly when the type was counted |
| ProfilerDataset.PresentIsListed | lib_profiler/datamart_profiler/core.py:818 | a counted type's name is listed |
| ProfilerDataset.ListedIsPresent | lib_profiler/datamart_profiler/core.py:818 | a listed name belongs to a counted type |
| ProfilerDataset.SortedTypesOrdered | lib_profiler/datamart_profiler/core.py:818 | the names are strictly increasing, so they are sorted and hold no duplicate |
| ProfilerDataset.RankFollowsNames | lib_profiler/datamart_profiler/core.py:818 | the order of the types is the alphabetical order of their names |
| ProfilerDataset.KeyPosition | lib_profiler/datamart_profiler/core.py:810-815 | every type has its place in the list of count keys |
| ProfilerDataset.SetCountKeys | lib_profiler/datamart_profiler/core.py:810-817 | each `nb_*_columns` key is set to the count of a type that occurs, keys of absent types keep what the metadata had, and every other key is untouched |
| ProfilerDataset.CountKeysUpTo | lib_profiler/datamart_profiler/core.py:810-817 | after the first `i` rounds, the count keys of the first `i` types present are set and the other count keys are as before |
| ProfilerDataset.OtherKeysUpTo | lib_profiler/datamart_profiler/core.py:810-817 | keys other than the count keys keep their presence and their value through the loop |
| ProfilerDataset.TypesIsNoCountKey | lib_profiler/datamart_profiler/core.py:810-818 | `types` is none of the count keys |
| ProfilerDataset.RecordDatasetTypes | lib_profiler/datamart_profiler/core.py:810-818 | the count keys as above, then `types` is the sorted list of the type names present, and every other key is left alone |
| ProfilerDataset.MergeAdminBounds | lib_profiler/datamart_profiler/core.py:910-924 | the merged box is `None` exactly when no area has bounds; otherwise every area's box lies inside it and each of its four sides is the side of some box |
| ProfilerDataset.AdminEnvelope | lib_profiler/datamart_profiler/core.py:925-946 | an envelope is recorded exactly when the box is wider and taller than 0.01 degrees, with corners `[min_lon, max_lat]` and `[max_lon, min_lat]` |
| ProfilerDataset.ColumnKeywords | lib_profiler/datamart_profiler/core.py:992-995 | a column's keywords start with its name |
| ProfilerDataset.AttributeKeywords | lib_profiler/datamart_profiler/core.py:990-996 | the loop builds exactly the keywords of the specification: each name, followed by its pieces when they differ from `[name]` |
| ProfilerDataset.ColumnKeywordsSingle | lib_profiler/datamart_profiler/core.py:993-995 | a column adds only its name exactly when the name has no delimiter and no break |
| ProfilerDataset.KeywordsListNames | lib_profiler/datamart_profiler/core.py:990-996 | every column name is among the keywords, and there are at least as many keywords as columns |
| SpatialPairing.CutFirstMarkerAt | lib_profiler/datamart_profiler/spatial.py:105-109 | when marker `k` is the first marker in tuple order that occurs, and it first occurs at `i`, exactly that occurrence is removed |
| SpatialPairing.CutFirstMarkerUnchanged | lib_profiler/datamart_profiler/spatial.py:105-110 | a name that contains no marker is left as it is |
| SpatialPairing.SomeMarkerIsCut | lib_profiler/datamart_profiler/spatial.py:105-109 | a name that contains some marker has a first one in tuple order, and only its first occurrence is removed |
| SpatialPairing.AbsentByFirstChar | lib_profiler/datamart_profiler/spatial.py:106 | `find` finds no occurrence where no character starts the marker |
| SpatialPairing.LatIndex | lib_profiler/datamart_profiler/spatial.py:115-118 | `normalized_lat` maps each normalized latitude name to a column with that name, and to the last such column |
| SpatialPairing.LatIndexSnoc | lib_profiler/datamart_profiler/spatial.py:116-118 | each latitude column overwrites the entry for its normalized name |
| SpatialPairing.Match | lib_profiler/datamart_profiler/spatial.py:121-129 | the pairs, the remaining latitude entries and the missed longitudes refer to existing columns |
| SpatialPairing.MatchSnoc | lib_profiler/datamart_profiler/spatial.py:123-129 | the loop over longitude columns advances one column at a time |
| SpatialPairing.MatchFromIndex | lib_profiler/datamart_profiler/spatial.py:125-127 | what is left of `normalized_lat` is part of it, and every pair joins a longitude with the latitude `normalized_lat` gives for its normalized name, which has been popped |
| SpatialPairing.MatchInOrder | lib_profiler/datamart_profiler/spatial.py:123-129 | pairs and missed longitudes come in longitude-column order, and every longitude column is in exactly one of them |
| SpatialPairing.MatchLatitudesDistinct | lib_profiler/datamart_profiler/spatial.py:126 | no latitude column is used in two pairs, because it is popped |
| SpatialPairing.MatchKeepsInvariant | lib_profiler/datamart_profiler/spatial.py:115-129 | all of the above hold together |
| SpatialPairing.Ascending | lib_profiler/datamart_profiler/spatial.py:132 | `sorted(normalized_lat.values())` lists exactly the positions left, strictly ascending |
| SpatialPairing.NamesAt | lib_profiler/datamart_profiler/spatial.py:132 | the names of the columns at the given positions, in that order |
| SpatialPairing.NormalizeLatitudes | lib_profiler/datamart_profiler/spatial.py:115-118 | the first loop builds exactly `normalized_lat` |
| SpatialPairing.MatchLongitudes | lib_profiler/datamart_profiler/spatial.py:121-129 | the second loop builds exactly the pairs, missed longitudes and remaining entries of the specification |
| SpatialPairing.MatchOne | lib_profiler/datamart_profiler/spatial.py:124-129 | one longitude column either takes and pops its latitude or is missed, as the specification steps |
| SpatialPairing.LeftoverNames | lib_profiler/datamart_profiler/spatial.py:132 | the missed latitudes are the names left in `normalized_lat`, in column order |
| SpatialPairing.PairLatlongColumns | lib_profiler/datamart_profiler/spatial.py:113-134 | the pairs are the matched columns in longitude order, each latitude used once; `missed_lat` lists the unmatched latitude names in column order and `missed_long` the unmatched longitude names in order |
| SpatialPairing.OverwrittenLatitudeVanishes | lib_profiler/datamart_profiler/spatial.py:116-132 | a latitude column whose normalized name a later one shares is in no pair and not among the missed latitudes |
| SpatialPairing.NormalizeLatitudeAlone | lib_profiler/datamart_profiler/spatial.py:103-110 | `'latitude'` normalizes to the empty string |
| SpatialPairing.CutLatitude | lib_profiler/datamart_profiler/spatial.py:105-109 | cutting the latitude markers from `'latitude'` leaves nothing |
| SpatialPairing.LonIsTheMarker | lib_profiler/datamart_profiler/spatial.py:105-109 | in `start_lon_deg` neither `longitude` nor `long` occurs, so `lon` at position 6 is the marker cut |
| SpatialPairing.NormalizeStartLonDeg | lib_profiler/datamart_profiler/spatial.py:103-110 | `'start_Lon_deg'` becomes `'start__deg'` |
| SpatialPairing.CutStartLonDeg | lib_profiler/datamart_profiler/spatial.py:105-109 | only the first occurrence of the first marker found, `lon`, is cut from `'start_lon_deg'` |
| SpatialGeohash.CharValue | lib_profiler/datamart_profiler/spatial.py:292-294 | `GEOHASH_CHAR_VALUES.get(c)` is below 32 whenever it exists |
| SpatialGeohash.AlphabetSize | lib_profiler/datamart_profiler/spatial.py:292-293 | the alphabet has 32 characters |
| SpatialGeohash.CharValueOfAlphabet | lib_profiler/datamart_profiler/spatial.py:294 | the character at position `v` of the alphabet has value `v` |
| SpatialGeohash.AlphabetOfCharValue | lib_profiler/datamart_profiler/spatial.py:294 | a character has a value exactly when it is in the alphabet, and the value is its position |
| SpatialGeohash.GroupValue | lib_profiler/datamart_profiler/spatial.py:301-303 | the shift-and-or over a group of `n` bits gives a value below `2**n` |
| SpatialGeohash.BitsToChars | lib_profiler/datamart_profiler/spatial.py:297-307 | the index-advancing loop returns exactly the characters of the specification, or its `IndexError` |
| SpatialGeohash.ReadGroup | lib_profiler/datamart_profiler/spatial.py:301-303 | the inner loop computes the value of the group starting at `i` |
| SpatialGeohash.CharsOfLength | lib_profiler/datamart_profiler/spatial.py:297-307 | with at most five bits per group every group names a character, and there are `len(bits) // base_bits` of them: a trailing partial group is dropped |
| SpatialGeohash.WideGroupFails | lib_profiler/datamart_profiler/spatial.py:304 | a group of six or more one-bits indexes past the alphabet, which is an `IndexError` |
| SpatialGeohash.ToBits | lib_profiler/datamart_profiler/spatial.py:313-314 | `(v >> i) & 1` over `reversed(range(n))` yields `n` bits |
| SpatialGeohash.BitsOf | lib_profiler/datamart_profiler/spatial.py:310-314 | `chars_to_bits` yields `base_bits` bits per character |
| SpatialGeohash.BitsOfFails | lib_profiler/datamart_profiler/spatial.py:312 | `chars_to_bits` raises `KeyError` exactly when some character is outside the alphabet |
| SpatialGeohash.GroupValueOfBits | lib_profiler/datamart_profiler/spatial.py:303-314 | reading the `n` bits of `v` back gives `v mod 2**n` |
| SpatialGeohash.BitsOfGroupValue | lib_profiler/datamart_profiler/spatial.py:303-314 | writing a group's value out as bits gives the group back |
| SpatialGeohash.GroupRoundTrip | lib_profiler/datamart_profiler/spatial.py:301-314 | a group of at most five bits names a character whose value gives the group back |
| SpatialGeohash.BitsOfCharsOf | lib_profiler/datamart_profiler/spatial.py:297-314 | decoding an encoding gives the bits back without the dropped partial group |
| SpatialGeohash.CharRoundTrip | lib_profiler/datamart_profiler/spatial.py:303-314 | a character whose value fits in `base_bits` bits survives the trip through its bits |
| SpatialGeohash.CharsOfBitsOf | lib_profiler/datamart_profiler/spatial.py:297-314 | encoding a decoding gives the string back when every character fits in `base_bits` bits |
| SpatialGeohash.GeohashRoundTrips | lib_profiler/datamart_profiler/spatial.py:297-314 | for `base_bits = 5` the two are mutually inverse, on bit lists whose length is a multiple of 5 and on Geohash strings |
| SpatialGeohash.BitLengthBounds | lib_profiler/datamart_profiler/spatial.py:327 | `n.bit_length()` is the `L` with `2**(L-1) <= n < 2**L` |
| SpatialGeohash.BaseBits | lib_profiler/datamart_profiler/spatial.py:327-329 | the base check accepts only a power of two, and gives its exponent |
| SpatialGeohash.BitLengthOfPower | lib_profiler/datamart_profiler/spatial.py:327 | `(2**k).bit_length()` is `k + 1` |
| SpatialGeohash.BaseBitsOfPower | lib_profiler/datamart_profiler/spatial.py:327-329 | every power of two passes the check with its exponent, so the `ValueError` is raised exactly for the other bases |
| SpatialGeohash.BaseOnePasses | lib_profiler/datamart_profiler/spatial.py:327-329 | as written, `base = 1` passes the check with `base_bits = 0` |
| SpatialGeohash.ZeroBaseBitsNeverExits | lib_profiler/datamart_profiler/spatial.py:300-305 | with `base_bits = 0` the loop of `bits_to_chars` never advances, so no number of iterations ends it |
| SpatialGeohash.PositiveBaseBitsExits | lib_profiler/datamart_profiler/spatial.py:300-305 | with `base_bits >= 1` the loop ends within `len(bits) + 1` iterations |
| SpatialGeohash.CheckedBaseBits | lib_profiler/datamart_profiler/spatial.py:327-329 | the corrected check accepts only powers of two of at least one bit |
| SpatialGeohash.CheckedBaseBitsOfPower | lib_profiler/datamart_profiler/spatial.py:327-329 | every power of two from 2 on passes the corrected check with its exponent |
| SpatialGeohash.HashBits | lib_profiler/datamart_profiler/spatial.py:326-354 | the encoding step of `hash_location` raises `ValueError` for a base the corrected check refuses, and otherwise packs the bits |
| SpatialGeohash.HashToBits | lib_profiler/datamart_profiler/spatial.py:362-369 | `decode_hash` refuses a base that is not a power of two, and otherwise bisects with `base_bits` bits per character |
| SpatialGeohash.HashRoundTrip | lib_profiler/datamart_profiler/spatial.py:357-369 | a Geohash string decodes to bits that encode back to it with `base = 32` |
| SpatialNominatim.FoundOne | lib_profiler/datamart_profiler/spatial.py:236-245 | a found value contributes its location `count` times, a value not found nothing |
| SpatialNominatim.Answers | lib_profiler/datamart_profiler/spatial.py:236-244 | the cache entries of a batch are its values, each mapped to the service's answer or `None` |
| SpatialNominatim.Query | lib_profiler/datamart_profiler/spatial.py:216 | the batch query returns one answer per value, in the batch's order |
| SpatialNominatim.BatchStep | lib_profiler/datamart_profiler/spatial.py:236-245 | one more item of the zip adds its locations, its misses and its cache entry after those of the items before it |
| SpatialNominatim.NominatimBatch | lib_profiler/datamart_profiler/spatial.py:215-246 | the zip loop counts the occurrences of the values not found, extends `locations` with the found ones and records every answer in the cache |
| SpatialNominatim.Run | lib_profiler/datamart_profiler/spatial.py:259-279 | the state after the loop over a prefix of `array` keeps a well-formed batch |
| SpatialNominatim.StepKeepsValid | lib_profiler/datamart_profiler/spatial.py:266-279 | one iteration keeps the batch's keys distinct and equal to its dict's keys |
| SpatialNominatim.RunStaysStopped | lib_profiler/datamart_profiler/spatial.py:278-279 | after the `break` the rest of `array` changes nothing |
| SpatialNominatim.ResolveOne | lib_profiler/datamart_profiler/spatial.py:259-279 | the loop body updates the loop variables as the specification's step does |
| SpatialNominatim.CountValue | lib_profiler/datamart_profiler/spatial.py:260-263 | a blank stripped value is skipped, any other is counted in `non_empty` and visited |
| SpatialNominatim.VisitValue | lib_profiler/datamart_profiler/spatial.py:265-272 | a value too long is skipped, a cached one adds its cached location if any, one in the batch is counted once more |
| SpatialNominatim.AddNewValue | lib_profiler/datamart_profiler/spatial.py:273-279 | a new value enters the batch with count 1, and a batch that reaches 30 values is sent |
| SpatialNominatim.SendFullBatch | lib_profiler/datamart_profiler/spatial.py:275-279 | the full batch is sent and cleared, and the loop stops once the cache holds `max_requests` values |
| SpatialNominatim.AddNewShape | lib_profiler/datamart_profiler/spatial.py:273-279 | the two outcomes of adding a new value: it joins the batch, which is sent when it is then full |
| SpatialNominatim.NominatimResolveAll | lib_profiler/datamart_profiler/spatial.py:249-289 | the loop and the final send return the locations and the count of non-blank values of the specification |
| SpatialNominatim.Stripped | lib_profiler/datamart_profiler/spatial.py:259-260 | the values the loop looks at are the stripped values of `array`, one each |
| SpatialNominatim.CacheSize | lib_profiler/datamart_profiler/spatial.py:278-281 | `len(cache)` is the number of values sent to the service |
| SpatialNominatim.StepCacheIsSent | lib_profiler/datamart_profiler/spatial.py:259-279 | each iteration keeps the cache equal to the values sent, each sent once, with the service's answers |
| SpatialNominatim.StepOnlyQueryable | lib_profiler/datamart_profiler/spatial.py:259-279 | each iteration sends or batches only non-blank stripped values of at most 90 characters |
| SpatialNominatim.StepBatchOfPending | lib_profiler/datamart_profiler/spatial.py:270-279 | each iteration keeps the batch the tally of the values added since it was last sent, and under 30 keys |
| SpatialNominatim.TalliesRepeat | lib_profiler/datamart_profiler/spatial.py:270-271 | `batch[value] += 1` keeps the batch the tally of its values |
| SpatialNominatim.TalliesNew | lib_profiler/datamart_profiler/spatial.py:272-273 | `batch[value] = 1` appends a new key and keeps the batch the tally of its values |
| SpatialNominatim.StepWithinBudget | lib_profiler/datamart_profiler/spatial.py:274-279 | each iteration keeps the number of values sent under `max(max_requests, 1) + 30`, and the loop stops only with the budget used up |
| SpatialNominatim.StepCountsNonBlank | lib_profiler/datamart_profiler/spatial.py:260-263 | each iteration keeps `non_empty` the number of non-blank values seen until the loop stops |
| SpatialNominatim.StepComplete | lib_profiler/datamart_profiler/spatial.py:265-279 | until the loop stops, every value looked up so far is cached or waiting in the batch |
| SpatialNominatim.FoundBump | lib_profiler/datamart_profiler/spatial.py:270-271 | a value seen again adds one more copy of its location to what the batch will contribute |
| SpatialNominatim.FoundNew | lib_profiler/datamart_profiler/spatial.py:272-273 | a new value adds its location, once, to what the batch will contribute |
| SpatialNominatim.StepLocationsFound | lib_profiler/datamart_profiler/spatial.py:259-279 | each iteration keeps `locations` plus what the batch will contribute equal, as a multiset, to one location per found occurrence of a value looked up |
| SpatialNominatim.StartInvariant | lib_profiler/datamart_profiler/spatial.py:250-256 | the initial empty cache, locations and batch satisfy the loop's invariant |
| SpatialNominatim.StepInvariant | lib_profiler/datamart_profiler/spatial.py:259-279 | one iteration keeps the whole invariant |
| SpatialNominatim.RunInvariant | lib_profiler/datamart_profiler/spatial.py:259-279 | the loop keeps its invariant over any input |
| SpatialNominatim.FinishFinal | lib_profiler/datamart_profiler/spatial.py:281-282 | after the conditional final send the cache, budget, count and location properties still hold |
| SpatialNominatim.FlushFinal | lib_profiler/datamart_profiler/spatial.py:281-282 | the final send of a non-empty batch under budget leaves the batch empty and completes the cache |
| SpatialNominatim.ResolvedQueries | lib_profiler/datamart_profiler/spatial.py:249-289 | the values sent are distinct, non-blank stripped input values of at most 90 characters, fewer than `max(max_requests, 1) + 30`, and the cache maps exactly them to the service's answers |
| SpatialNominatim.ResolvedNonEmpty | lib_profiler/datamart_profiler/spatial.py:259-279 | `non_empty` counts the non-blank values, all of them unless the loop broke off, which it does only with the budget used up |
| SpatialNominatim.ResolvedLocations | lib_profiler/datamart_profiler/spatial.py:249-289 | unless the loop broke off or a batch was left unsent for lack of budget, every value looked up is cached and `locations` holds, in some order, one location per found occurrence |
| Upload.Reset | frontend/src/components/Upload/Upload.tsx:46-56 | `setState(initialState())` resets every field of `initialState()` and keeps `profiledData` and `failedProfiler`, which it does not name |
| Upload.Validate | frontend/src/components/Upload/Upload.tsx:88-102 | a file error exactly for an upload form without a file, an address error exactly for a URL form without an address, a name error exactly for an empty name, and valid exactly when there is no error |
| Upload.EditedOf | frontend/src/components/Upload/Upload.tsx:65-67 | the filter keeps exactly the columns whose name was edited, and no more columns than the profile has |
| Upload.Request | frontend/src/components/Upload/Upload.tsx:68-76 | the data passed carries the form's file, name and description, and its address only when it is not empty |
| Upload.Failure | frontend/src/components/Upload/Upload.tsx:124-139 | a request leaves no failure text exactly when it answered with status 200 |
| Upload.Retyped | frontend/src/components/Upload/Upload.tsx:146-154 | the map keeps the number of columns |
| Upload.TransitionsKeepConsistent | frontend/src/components/Upload/Upload.tsx:58-159 | every handler keeps the status `SUCCESSED` paired with profile data |
| Upload.SubmitOutcome | frontend/src/components/Upload/Upload.tsx:58-76 | an invalid submit sends nothing, stores the validation and stops the profiling status; a valid one only raises `submitting` and sends a non-empty name, and a file or an address as the form's type requires |
| Upload.EditedInOrder | frontend/src/components/Upload/Upload.tsx:65-67 | the columns sent keep the profile's order |
| Upload.NothingEditedSendsNone | frontend/src/components/Upload/Upload.tsx:65-75 | with no profile or no edited name the request sends no column |
| Upload.NoNamesNoneEdited | frontend/src/components/Upload/Upload.tsx:65-67 | filtering by an empty list of names keeps no column |
| Upload.SubmittedOutcome | frontend/src/components/Upload/Upload.tsx:77-84 | success resets the form and keeps the profile; failure only lowers `submitting` and stops the profiling status |
| Upload.ProfiledOutcome | frontend/src/components/Upload/Upload.tsx:124-141 | the profiling ends in `SUCCESSED` with the data exactly on status 200, and otherwise in `ERROR` with the failure text and the previous profile |
| Upload.HttpErrorInjective | frontend/src/components/Upload/Upload.tsx:132 | `Error ${status}: ${statusText}` determines the status and the status text |
| Upload.DigitsThenColon | frontend/src/components/Upload/Upload.tsx:132 | the decimal status ends where `": "` begins, so the two parts can be told apart |
| Upload.ColumnTypeUpdatedOutcome | frontend/src/components/Upload/Upload.tsx:144-159 | every column with the edited name gets the type `http://schema.org/<value>`, every other column is unchanged, and the name is appended to `columnsName` |
| Upload.ColumnTypeUpdateWithoutProfile | frontend/src/components/Upload/Upload.tsx:145 | without a profile nothing changes |
| Upload.RetypedIsSent | frontend/src/components/Upload/Upload.tsx:144-159 | a retyped column is among those the next submit sends, with its new type |
| Upload.StaleColumnNames | frontend/src/components/Upload/Upload.tsx:125-128 | a new profile keeps the names edited in the previous one, which may name no column of the new profile |
| Upload.UploadForm.constructor | frontend/src/components/Upload/Upload.tsx:39-44 | the form starts in `initialState()` with no file chosen |
| Upload.UploadForm.OnFormSubmit | frontend/src/components/Upload/Upload.tsx:58-76 | the state and the data passed to the parent are those of the submit specification |
| Upload.UploadForm.OnFormSubmitted | frontend/src/components/Upload/Upload.tsx:77-84 | the state after the parent answered is that of the specification |
| Upload.UploadForm.OnProfileData | frontend/src/components/Upload/Upload.tsx:116-123 | the status becomes `RUNNING`, and the file, the non-empty address and the name are sent |
| Upload.UploadForm.OnProfileAnswered | frontend/src/components/Upload/Upload.tsx:124-141 | the state is that of the specification, and the result is true exactly on status 200 |
| Upload.UploadForm.UpdateColumnType | frontend/src/components/Upload/Upload.tsx:144-159 | the state is that of the specification, the file input is unchanged |
| Upload.UploadPage.constructor | frontend/src/components/Upload/Upload.tsx:288-292 | the page starts on the upload tab with no outcome |
| Upload.UploadPage.OnFormSubmit | frontend/src/components/Upload/Upload.tsx:294-306 | true exactly on status 200, which records the success; otherwise the failure text is recorded; the tab is unchanged |
| UazIndicators.PrefixIsBeforeFirstComma | discovery/uaz_indicators/uaz_indicators.py:97-101 | the prefix is a comma-free start of the name that ends at the name's end or right before its first comma |
| UazIndicators.AddVariableLast | discovery/uaz_indicators/uaz_indicators.py:103-111 | a variable with the current prefix joins the last group, any other opens a new group; the earlier groups stay |
| UazIndicators.GroupsSnoc | discovery/uaz_indicators/uaz_indicators.py:96-111 | the grouping of the rows seen so far grows by one variable at a time |
| UazIndicators.JoinLast | discovery/uaz_indicators/uaz_indicators.py:103-111 | joining the last group keeps the groups well formed and the variables in order |
| UazIndicators.OpenGroup | discovery/uaz_indicators/uaz_indicators.py:104-109 | opening a group keeps the groups well formed and the variables in order |
| UazIndicators.GroupsPartition | discovery/uaz_indicators/uaz_indicators.py:87-114 | every group is non-empty with one prefix shared by all its variables, adjacent groups differ in prefix, and the groups put back together give the rows in order |
| UazIndicators.FlattenEmpty | discovery/uaz_indicators/uaz_indicators.py:113-114 | non-empty groups hold no variable exactly when there are none |
| UazIndicators.DropSingleton | discovery/uaz_indicators/uaz_indicators.py:104-111 | a last group of one variable is the one that variable opened |
| UazIndicators.DropLastVariable | discovery/uaz_indicators/uaz_indicators.py:103-111 | a last group of several variables is the shorter group joined by its last variable |
| UazIndicators.LastGroupShrinks | discovery/uaz_indicators/uaz_indicators.py:103-111 | dropping the last variable of a group of several keeps the groups well formed |
| UazIndicators.LastAdded | discovery/uaz_indicators/uaz_indicators.py:103-111 | any non-empty well-formed grouping is a shorter one extended by its last variable |
| UazIndicators.GroupsUnique | discovery/uaz_indicators/uaz_indicators.py:87-114 | the grouping is the only well-formed one that gives the rows back |
| UazIndicators.NoIndicatorsNoGroups | discovery/uaz_indicators/uaz_indicators.py:113-114 | no rows give no group, so no dataset |
| UazIndicators.RecurringPrefix | discovery/uaz_indicators/uaz_indicators.py:103-111 | only adjacent variables are merged: a prefix that comes back after another one opens a second group |
| UazIndicators.Header | discovery/uaz_indicators/uaz_indicators.py:162-168 | the five fixed columns, then `variable (unit)` for each variable in order |
| UazIndicators.KeysDistinct | discovery/uaz_indicators/uaz_indicators.py:142-145 | `variable<nb>` and `unit<nb>` never clash, and name their position |
| UazIndicators.ParamNamesSnoc | discovery/uaz_indicators/uaz_indicators.py:143-145 | one more position adds its two parameter names |
| UazIndicators.ParamsKeys | discovery/uaz_indicators/uaz_indicators.py:142-145 | the parameters are exactly `variable<nb>` and `unit<nb>` for every position |
| UazIndicators.ParamsValues | discovery/uaz_indicators/uaz_indicators.py:142-145 | each position's parameters are bound to that position's variable and unit |
| UazIndicators.CsvRow | discovery/uaz_indicators/uaz_indicators.py:170-173 | a written row has the same cells except that each `NULL` becomes an empty string |
| UazIndicators.CsvRows | discovery/uaz_indicators/uaz_indicators.py:169-173 | every row of the query is written, in order |
| UazIndicators.BuildParams | discovery/uaz_indicators/uaz_indicators.py:142-145 | the `enumerate` loop builds the parameters of the specification |
| UazIndicators.MakeIndicatorDataset | discovery/uaz_indicators/uaz_indicators.py:116-179 | the dataset written and recorded has the prefix as name and source field, the header, the parameters and the written rows |
| UazIndicators.ConsumeVariable | discovery/uaz_indicators/uaz_indicators.py:96-111 | one pass of the loop body keeps `current_prefix`, `variables` and the calls made tracking the grouping |
| UazIndicators.DiscoverIndicators | discovery/uaz_indicators/uaz_indicators.py:87-114 | the calls to `make_indicator_dataset` are the groups of the rows, in order |
| GeoData.Literal | lib_geo/data/get_data.py:56-58 | the value of a binding of type `literal`, an assertion failure for any other type |
| GeoData.Uri | lib_geo/data/get_data.py:69-71 | the value of a binding of type `uri`, an assertion failure for any other type |
| GeoData.QEntityUri | lib_geo/data/get_data.py:61-66 | succeeds exactly on a `uri` starting with the Wikidata entity prefix, and the prefix followed by the result is the value |
| GeoData.QEntityUriRoundTrip | lib_geo/data/get_data.py:61-66 | the entity URI of an id gives the id back |
| GeoData.FirstSlash | lib_geo/data/get_data.py:124 | `shape_uri.index('/')` is the position of the first `/` |
| GeoData.FixShapeUri | lib_geo/data/get_data.py:124-129 | the fix fails with `ValueError` exactly when the URL has no `/` |
| GeoData.FixShapeUriSpec | lib_geo/data/get_data.py:124-129 | the fixed URL keeps everything up to the first `/` and has `_` where the rest had `+` |
| GeoData.ReplaceAfterSlashSpec | lib_geo/data/get_data.py:125-129 | the replacement keeps the head and replaces exactly the `+` of the tail |
| GeoData.FixShapeUriKeepsPlusFree | lib_geo/data/get_data.py:125 | a URL without `+` after its first `/` is unchanged |
| GeoData.FirstSlashAt | lib_geo/data/get_data.py:124 | a `/` with none before it is the one `index` finds |
| GeoData.FixShapeUriIdempotent | lib_geo/data/get_data.py:124-129 | fixing a fixed URL changes nothing |
| GeoData.FeaturePoints | lib_geo/data/get_data.py:199-212 | a feature gives points exactly when its type is `Feature` and its geometry a `Polygon` or `MultiPolygon` |
| GeoData.ShapePointsOk | lib_geo/data/get_data.py:197-213 | `get_shape_points` succeeds exactly when every feature does |
| GeoData.ShapePointsAppend | lib_geo/data/get_data.py:199-210 | the points of consecutive features are appended in feature order |
| GeoData.SinglePolygon | lib_geo/data/get_data.py:202-210 | a `MultiPolygon` of one polygon gives the same points as that `Polygon` |
| GeoData.AppendRings | lib_geo/data/get_data.py:203-205 | the nested loops append the points of every ring, in order |
| GeoData.GetShapePoints | lib_geo/data/get_data.py:197-213 | the loop returns the points of the specification, or its assertion failure |
| GeoData.PrefixErr | lib_geo/data/get_data.py:199-212 | the first failing feature decides the failure |
| GeoData.MergedIsBox | lib_geo/data/get_data.py:233-243 | folding no point gives nothing, and folding points gives the smallest box around them: every point inside, every side reached |
| GeoData.MergedFromFirst | lib_geo/data/get_data.py:233-243 | starting from the first point's box and folding the rest is folding them all |
| GeoData.Bounds | lib_geo/data/get_data.py:233-236 | a shape gives a box exactly when it has points; none raises `IndexError` |
| GeoData.BoundsIsBox | lib_geo/data/get_data.py:233-246 | the box written for a shape holds all its points and each side is reached by one |
| GeoData.ShapeBounds | lib_geo/data/get_data.py:233-243 | the `merged` loop computes the box of the specification |
| GeoData.WrittenAreas | lib_geo/data/get_data.py:291-293 | the areas written, one per box, in order |
| GeoData.Bounds1StepKeeps | lib_geo/data/get_data.py:271-293 | one shape row keeps every area with at most one box, only known areas boxed, and `remaining_admins` the known areas without a box |
| GeoData.Bounds1Written | lib_geo/data/get_data.py:254-293 | after the shape loop every known area has at most one box and the areas left for OpenStreetMap are exactly the known ones without a box |
| GeoData.DuplicateShapeSkipped | lib_geo/data/get_data.py:274-276 | a second shape for an area already boxed changes nothing |
| GeoData.UnknownAreaFails | lib_geo/data/get_data.py:273 | a shape for an area not among the level-1 areas is an assertion failure |
| GeoData.Bounds1Shapes | lib_geo/data/get_data.py:271-293 | the shape loop, updating `remaining_admins` in place, computes the state of the specification |
| GeoData.Bounds1PrefixErr | lib_geo/data/get_data.py:271-293 | the first failing row decides the failure |
| GeoData.Positions | lib_geo/data/get_data.py:358-360 | the positions of the node ids, in order |
| GeoData.MergeIdsPoints | lib_geo/data/get_data.py:358-372 | folding node ids fails with `KeyError` exactly when some id is not a node of the relation, and otherwise is folding their positions |
| GeoData.OsmBoundsIsBox | lib_geo/data/get_data.py:344-377 | the OpenStreetMap box is a `KeyError` on an unknown node, `None` when the administrative ways have no node, and otherwise the smallest box around their nodes |
| GeoData.ReadNodes | lib_geo/data/get_data.py:344-348 | the `nodes` dict maps each node id to the position of its last node element |
| GeoData.MergeIdsAppend | lib_geo/data/get_data.py:358-372 | folding two runs of ids is folding the second from the result of the first |
| GeoData.AdminNodeIdsAppend | lib_geo/data/get_data.py:352-358 | the node ids of the administrative ways split along the element list |
| GeoData.MergeIdsSnoc | lib_geo/data/get_data.py:358-372 | one more id widens the box, or fails if it is unknown |
| GeoData.MergeIdsFailed | lib_geo/data/get_data.py:359 | the first unknown id decides the failure |
| GeoData.MergeWayNodes | lib_geo/data/get_data.py:358-372 | the loop over one way's nodes continues the fold |
| GeoData.MergeWays | lib_geo/data/get_data.py:351-372 | the loop over the administrative ways folds all their node ids |
| GeoData.OsmAreaBounds | lib_geo/data/get_data.py:344-377 | the two loops compute the OpenStreetMap box of the specification |
| PyStr.Strip | lib_profiler/datamart_profiler/spatial.py:260 | `str.strip()` removes the white space at both ends, and the result neither starts nor ends with white space |
| PyStr.StripUnchanged | lib_profiler/datamart_profiler/spatial.py:260 | a string that neither starts nor ends with white space is its own `strip()` |
| PyStr.Lower | lib_profiler/datamart_profiler/spatial.py:104 | `str.lower()` on ASCII letters lowers each character in place |
| PyStr.Find | discovery/uaz_indicators/uaz_indicators.py:97 | `str.find` gives the lowest index where the substring occurs, or none when it occurs nowhere |
| PyStr.ReplaceChar | lib_geo/data/get_data.py:128 | `str.replace` of one character by another changes exactly the occurrences of the first |
| PyStr.Hex | lib_core/datamart_core/common.py:151 | `'%X'` writes at least one upper-case hexadecimal digit |
| PyStr.Decimal | frontend/src/components/Upload/Upload.tsx:132 | a number in decimal is at least one digit, and nothing else |
| PyStr.DecimalInjective | frontend/src/components/Upload/Upload.tsx:132 | different numbers have different decimal texts |
| Seqs.AppendAbsentProperties | lib_profiler/datamart_profiler/core.py:294-297 | appending the absent semantic types keeps the existing ones first and in order, contains exactly the existing and the new ones, and adds no duplicate |
| Seqs.AppendAbsentKeepsOrder | lib_profiler/datamart_profiler/core.py:294-297 | the appended semantic types come in the order of their first detection |
| Seqs.AppendAbsentIdempotent | lib_profiler/datamart_profiler/core.py:294-297 | adding the same semantic types a second time changes nothing |
| Seqs.AppendAbsentKeeps | lib_profiler/datamart_profiler/core.py:295-296 | types already present are not appended again |
| Seqs.ConcatAppend | lib_geo/data/get_data.py:203-205 | flattening one more ring appends its points |
| Seqs.ConcatSplit | lib_geo/data/get_data.py:199-210 | flattening two runs of rings concatenates their points |

## Where the code and its description differ

The model follows the code in each of these cases.

- `setState(this.initialState())` merges, so a successful submit keeps `profiledData` and
  `failedProfiler`, which `initialState()` does not name (`Upload.Reset`, `Upload.SubmittedOutcome`).
- `columnsName` is not kept a subset of the profiled column names: any edited name is appended, and a
  new profile keeps the old names (`Upload.StaleColumnNames`).
- A valid submit does not store the fresh validation; only an invalid one does
  (`Upload.SubmitOutcome`).
- In `add_dataset_to_sup_index` a metadata field named `id` is written as `dataset_id` after the
  dataset's identifier, and so replaces it.
- `RecentList` does not check that the initial entries have distinct keys; `InsertKeepsDistinct`
  therefore assumes distinct keys rather than proving them from the constructor.
- `not_found` counts occurrences of the values not found, not distinct values; it is only logged.
- The variable `last_slash` of the geoshape URL fix holds the position of the first `/`
  (`GeoData.FirstSlash`).

## Left out

- Floating point: the bisection of `hash_location` and `decode_hash` is not modelled; the geohash
  model starts from the bit list, so the extra bit an odd precision produces with `base = 2` is
  not captured. Coordinates are exact reals.
- `get_spatial_ranges` (KMeans), `median_smallest_distance` (KDTree), `_parse_point` and the numpy
  statistics of `process_column`: library numerics.
- `nominatim_query`: HTTP, retries, the JSON answer and the split of a batch on status 500 are not
  modelled. The service is a function from a value to an optional location.
- SpatialNominatim.Query: assumes one answer per value; the `zip` of the source would silently
  drop values if the service returned fewer answers.
- `uuid.uuid5` dataset ids, the SQL text of the join query, and the sqlite, storage and CSV I/O of
  the UAZ discoverer: the id and the query's rows are parameters, and rows are written as lists of
  values.
- `count_garbage_rows` reads the CSV itself; the model takes the first rows' lengths.
- `sparql_query`, the geoshape and OpenStreetMap downloads, `json.loads`, the `makes_file` decorator,
  and the pickle cache and writing loop of `bounds1` (get_data.py lines 295-343 and 378-392): I/O.
  The model computes the box of one relation's elements.
- `hash_json`, `fscache`, Lazo, `load_data`, and every Elasticsearch call other than the `es.index`
  calls of `add_dataset_to_sup_index`: I/O or library behaviour.
- The tag and entity regular expressions of `strip_html`: only the link replacement is modelled.
- JSX rendering, the DOM file input and `JSON.stringify`: the chosen file is a field, and the
  columns sent are a list.
- Coordinator.RecentList.constructor: a negative `size` makes `islice` raise `ValueError`; sizes are `nat`.
- DatasetIds.DecodeDatasetId: after a `_`, only the ASCII digits `0`-`9` and the letters `a`-`f`
  and `A`-`F` are read as hexadecimal digits (`DatasetIds.HexValue`, used by `DatasetIds.IntBase16`
  and `DatasetIds.HexChar`). Python's `int(char_hex, 16)` also accepts any other Unicode decimal
  digit, so `_٣` decodes to `"\x03"` in the source but is an `InvalidLiteral` error here. The
  table of Unicode decimal digits depends on the Python version and is not modelled. Whitespace
  around the digits uses Python's full set.
- SupIndex.AddDatasetToSupIndex: `metadata['columns']`, the coverage lists and their `ranges` are
  taken to be lists of dicts, as the profiler produces them. Python iterates any iterable (an empty
  dict or string indexes nothing) and `dict(column)` also accepts a list of pairs; the model raises
  `TypeError` on any value that is not a list, or on an element that is not a dict, and does not
  tell `TypeError` from the `ValueError` `dict()` raises on other values.
- SupIndex.ColumnDocShape: a column is a dict or fails; a column given as a list of key/value pairs,
  which `dict(column)` accepts, is not modelled (same reason as the line above).
- SpatialPairing.PairLatlongColumns: the names are lowered with `PyStr.Lower`, which folds only the
  ASCII letters `A`-`Z`; Python's `str.lower()` also lowers other letters, so names that differ only
  in the case of a non-ASCII letter (`städte_lat`, `STÄDTE_LON`) pair in the source and not in the
  model.
- ProfilerDataset.CheckKwargs: keyword arguments are a list of (name, value) pairs in call order
  rather than a dict; Python's rule that a keyword is passed at most once is not enforced.

## Findings

| source | as written | input that shows it | evidently intended | confidence | as-written member | corrected member |
|---|---|---|---|---|---|---|
| lib_profiler/datamart_profiler/spatial.py:297-329 | the power-of-two check accepts `base = 1`, since `2 ** 0 == 1`, giving `base_bits = 0`; the loop of `bits_to_chars` then never advances `i` and does not end | `hash_location(point, base=1)` | refuse bases below 2 with `ValueError`, like any other unusable base | not executed | SpatialGeohash.BaseOnePasses, SpatialGeohash.ZeroBaseBitsNeverExits | SpatialGeohash.CheckedBaseBits, SpatialGeohash.CheckedBaseBitsOfPower, SpatialGeohash.PositiveBaseBitsExits, SpatialGeohash.HashBits |
