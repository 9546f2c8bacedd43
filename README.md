# constellation: a verified model of the data-preparation core

constellation prepares Euclid Q1 data for shear inference. It discovers the
VIS exposures of a public S3 bucket and groups them by observation, scans the
FITS headers of every DET file through a ranged, read-ahead reader to build an
index of quadrant footprints on the sky, divides each MER tile into
overlapping sub-tiles, writes one manifest per sub-tile naming the quadrants
that overlap it, extracts each sub-tile's quadrants, PSFs and catalog subset
into a self-contained directory, and uploads the results under a run prefix.

This project models that core in Dafny, one module per source file:

- `VisNames` and `Discovery` (`discovery.py`): the two VIS file-name patterns,
  the grouping of a bucket listing into an observation index, its queries,
  its plain-data form, and the quadrant references of one observation.
- `RangeReader` and `QuadrantResolver` (`quadrant_resolver.py`): the
  seekable range reader as a class over the object's bytes, the footprint of
  each science HDU, the bounding-box overlap test, the quadrant index and its
  plain-data form.
- `Tiling` (`tiling.py`): tile footprints, the sub-tile grid, the EDFF tile
  table and the lookup by id.
- `Manifest` (`manifest.py`): mock source ids, the manifest of one sub-tile
  and all manifests of a tile with their paths.
- `Extractor` (`extractor.py`): the download cache, HDU extraction, the
  catalog subset and the whole sub-tile extraction over a `Workspace` class
  holding the local files.
- `Storage` (`storage.py`): S3 URI parsing, the sub-tile prefix and the
  skip-existing uploads into an `ObjectStore` class.
- `Config` (`config.py`) and `Tasks` (`workflows/tasks.py`): the
  configuration validators and defaults, and the logic of the pipeline's tasks.
- `Schemas` holds the shared records. `Wrappers`, `Strings`, `Paths`,
  `Dicts`, `Seqs` and `Sorting` give the Python operations the pipeline
  relies on (`str.split`, `int()`, `zfill`, insertion-ordered dicts,
  `sorted`) a precise meaning.

Exceptions become `Err` values of a `Result`, and `None` becomes `Option`.
Operations that loop or update state in the source are methods with loop
invariants, proved equal to a specification function. The properties are
proved about those functions.

## Model

| member | source | states |
|---|---|---|
| VisNames.Expect | src/constellation/discovery.py:21-22 | a literal of the pattern matches exactly when the text starts with it, and the rest follows it |
| VisNames.ExpectConcat | src/constellation/discovery.py:21-22 | a literal followed by any text is matched, leaving that text |
| VisNames.FixedDigits | src/constellation/discovery.py:22 | `\d{n}` then a separator captures exactly n digits and splits the text around the separator |
| VisNames.FixedDigitsConcat | src/constellation/discovery.py:22 | n digits followed by the separator are captured exactly |
| VisNames.DigitRun | src/constellation/discovery.py:22 | the run is all digits and stops at the end or at a non-digit |
| VisNames.DigitRunConcat | src/constellation/discovery.py:22 | digits followed by a non-digit run exactly to the non-digit |
| VisNames.DigitsThen | src/constellation/discovery.py:22-26 | `\d+` then a separator captures at least one digit and splits the text around the separator |
| VisNames.DigitsThenConcat | src/constellation/discovery.py:22-26 | a digit run followed by a separator that starts with a non-digit is captured exactly |
| VisNames.LastFitsAt | src/constellation/discovery.py:22-26 | the position is the last one in range at which ".fits" occurs, or none occurs |
| VisNames.FitsTail | src/constellation/discovery.py:22-26 | the greedy `(.+)\.fits` group is non-empty, holds no newline, is followed by ".fits" and ends at the last ".fits" of the first line |
| VisNames.FitsTailConcat | src/constellation/discovery.py:22-26 | a one-line timestamp followed by ".fits" is captured exactly |
| VisNames.SwlFromSeq | src/constellation/discovery.py:22 | the sequence number is a digit run and the timestamp is captured after "__" |
| VisNames.SwlFromCcd | src/constellation/discovery.py:22 | the CCD is one digit followed by "-" |
| VisNames.SwlFromDither | src/constellation/discovery.py:22 | the dither is two digits followed by "-" |
| VisNames.SwlFromObs | src/constellation/discovery.py:22 | the observation id is six digits followed by "-" |
| VisNames.MatchType | src/constellation/discovery.py:22 | the type is one of DET, BKG, WGT followed by "-" |
| VisNames.MatchTypeConcat | src/constellation/discovery.py:22 | each of the three types followed by "-" is matched |
| VisNames.MatchSwl | src/constellation/discovery.py:21-23 | a match captures well-formed fields whose file name starts the text |
| VisNames.SwlRoundTrip | src/constellation/discovery.py:21-23 | every well-formed science/background/weight name is matched with exactly its fields |
| VisNames.PsfFromThird | src/constellation/discovery.py:26 | the third run is a digit run and the timestamp is captured after "__" |
| VisNames.PsfFromSecond | src/constellation/discovery.py:26 | the second run is a digit run followed by "-" |
| VisNames.MatchPsf | src/constellation/discovery.py:26 | a match captures well-formed fields whose file name starts the text |
| VisNames.PsfRoundTrip | src/constellation/discovery.py:26 | every well-formed PSF grid name is matched with exactly its fields |
| VisNames.PsfNotSwl | src/constellation/discovery.py:129-140 | a PSF grid name never matches the science pattern, so the PSF branch is reached |
| VisNames.NamesArePrefixed | src/constellation/discovery.py:21-26 | both recognised names begin with "EUC_VIS_" |
| VisNames.PsfObsId | src/constellation/discovery.py:142-144 | the id has at least six characters and is "000000" when the key has fewer than three segments |
| VisNames.ParseVisFilename | src/constellation/discovery.py:125-154 | a record keeps the key, has one of the four types and a non-empty timestamp, a PSF record has dither "00" and CCD "0", and the file name starts with "EUC_VIS_" |
| VisNames.DigitsFree | src/constellation/discovery.py:22 | a digit run holds no '/' |
| VisNames.SwlNameFree | src/constellation/discovery.py:127 | a well-formed name with a '/'-free timestamp holds no '/' |
| VisNames.PsfNameFree | src/constellation/discovery.py:127 | a well-formed PSF name with a '/'-free timestamp holds no '/' |
| VisNames.ParseSwlKey | src/constellation/discovery.py:125-138 | a key ending in a well-formed science name parses to exactly its fields and the key |
| VisNames.ParsePsfKey | src/constellation/discovery.py:125-152 | a key ending in a well-formed PSF name takes its id from the third segment, zero-filled, or "000000" |
| VisNames.KeySegments | src/constellation/discovery.py:127-143 | a key joined from '/'-free segments splits back into them |
| Discovery.DirObsId | src/constellation/discovery.py:189 | a key without '/' groups under ""; otherwise its third '/'-segment, and a key with fewer than three segments is an IndexError |
| Discovery.AddRecord | src/constellation/discovery.py:190-192 | the record is appended to its group's list, created empty if new, and no other group changes |
| Discovery.GroupKeysFails | src/constellation/discovery.py:184-192 | grouping fails exactly when some recognised key has no third segment |
| Discovery.GroupKeysDistinct | src/constellation/discovery.py:190-191 | the groups have distinct observation keys |
| Discovery.GroupKeysSound | src/constellation/discovery.py:184-192 | every grouped record was parsed from a listed key in that group's directory |
| Discovery.GroupKeysComplete | src/constellation/discovery.py:184-192 | every recognised key's record is in its directory's group |
| Discovery.BucketOf | src/constellation/discovery.py:176-177 | the bucket holds no '/' |
| Discovery.BuildObservationIndex | src/constellation/discovery.py:157-194 | the listing loop succeeds exactly when the grouping does, giving the grouped records and the base URI's bucket |
| Discovery.GroupKeysPrefixFails | src/constellation/discovery.py:184-192 | a failure on a prefix of the listing is a failure on the whole listing |
| Discovery.ObsIds | src/constellation/discovery.py:57-58 | the ids are the index's keys, sorted |
| Discovery.ObsIdsDistinct | src/constellation/discovery.py:57-58 | the ids of an index with distinct keys are distinct |
| Discovery.GetPsfKey | src/constellation/discovery.py:60-65 | the key of the observation's first PSF record, or None exactly when it has none |
| Discovery.GetFile | src/constellation/discovery.py:75-86 | the key of the observation's first record of that type, dither and CCD, or None exactly when there is none |
| Discovery.DetPairs | src/constellation/discovery.py:69-72 | the pairs are exactly those of the DET records |
| Discovery.DitherCcdPairs | src/constellation/discovery.py:67-73 | the pairs are sorted, distinct, and exactly those of the observation's DET records |
| Discovery.GetDitherCcdPairs | src/constellation/discovery.py:67-73 | the set-and-sort loop returns DitherCcdPairs |
| Discovery.UriOrEmpty | src/constellation/discovery.py:247-249 | the URI is "" exactly when the key is missing or empty |
| Discovery.S3UriPrefix | src/constellation/discovery.py:246 | every built URI starts with "s3://" |
| Discovery.RefsFor | src/constellation/discovery.py:235-252 | at most one reference per pair, exactly those of the pairs with a DET key, each with quadrant "TBD" and an s3 science path |
| Discovery.BuildQuadrantRefs | src/constellation/discovery.py:221-254 | the loop returns RefsFor over the observation's sorted pairs |
| Discovery.StrField | src/constellation/discovery.py:114 | a field is read exactly when present; the model also requires a string, because the record holds only strings (see Left out) |
| Discovery.RecordFromJson | src/constellation/discovery.py:114 | a record is built only from a dict whose every name is a field, each field read under its name; an unknown name is a TypeError |
| Discovery.RecordRoundTrip | src/constellation/discovery.py:94-114 | a record decodes back from its encoding |
| Discovery.RecordToJsonFields | src/constellation/discovery.py:94-101 | the encoding holds exactly the six names, each with its field |
| Discovery.RecordsToJson | src/constellation/discovery.py:93-103 | one dict per record, in order |
| Discovery.RecordsFromJson | src/constellation/discovery.py:113-115 | a decoded list has one record per item |
| Discovery.RecordsRoundTrip | src/constellation/discovery.py:93-115 | a record list decodes back from its encoding |
| Discovery.IndexFromJson | src/constellation/discovery.py:108-116 | a decoded index takes its bucket from the "bucket" string |
| Discovery.ObservationIndexFromDict | src/constellation/discovery.py:108-116 | the loop over the "records" items returns IndexFromJson |
| Discovery.GroupsEmptyIterable | src/constellation/discovery.py:112-115 | an observation stored as an empty dict or an empty string decodes to no records |
| Discovery.GroupsPrefixFails | src/constellation/discovery.py:112-115 | a failure on a prefix of the items is the failure of the whole loop |
| Discovery.GroupsRoundTrip | src/constellation/discovery.py:88-116 | the encoded groups of distinct observations decode back to them |
| Discovery.GroupsRoundTripStep | src/constellation/discovery.py:112-115 | appending a new observation keeps the round trip |
| Discovery.GroupsToJsonSnoc | src/constellation/discovery.py:92-105 | the encoding of one more group appends that group's entry |
| Discovery.GroupsFromJsonSnoc | src/constellation/discovery.py:112-115 | decoding one more item appends that item's group |
| Discovery.IndexRoundTrip | src/constellation/discovery.py:88-116 | `from_dict(to_dict(idx))` keeps the bucket and every record |
| RangeReader.RangeGet | src/constellation/quadrant_resolver.py:119-124 | a range request for `bytes=a-b` returns `b-a+1` bytes, the object's bytes from a to b inclusive |
| RangeReader.ReadLength | src/constellation/quadrant_resolver.py:99-129 | a read returns at most n bytes and never past the end; -1 reads to the end; it returns nothing exactly when n is 0 or below (other than -1) or the position is at the end; a short read stops at the end |
| RangeReader.FetchEnd | src/constellation/quadrant_resolver.py:117-118 | a miss requests from the position to at least max(n, 64 KiB) bytes or to the last byte, and never beyond either bound |
| RangeReader.SeekTarget | src/constellation/quadrant_resolver.py:131-139 | a seek lands on the raw target for whence 0/1/2 clamped to [0, size] |
| RangeReader.FetchCoversRead | src/constellation/quadrant_resolver.py:117-128 | the bytes fetched on a miss include every byte the read returns |
| RangeReader.WindowServesLaterReads | src/constellation/quadrant_resolver.py:105-125 | after a miss, later reads within the read-ahead are served from the window |
| RangeReader.FitsBlocksPerRequest | src/constellation/quadrant_resolver.py:26-29 | one 64 KiB request covers the next 21 FITS blocks of 2880 bytes |
| RangeReader.WindowSlice | src/constellation/quadrant_resolver.py:108-112 | a slice of the window is the object's bytes at the same offset |
| RangeReader.SeekableFile.constructor | src/constellation/quadrant_resolver.py:89-97 | a new reader is at position 0 with an empty window and no requests |
| RangeReader.SeekableFile.Read | src/constellation/quadrant_resolver.py:99-129 | returns the object's next ReadLength bytes and advances by that many; no request when the read is empty or the window covers it, else exactly one request for [pos, FetchEnd] |
| RangeReader.SeekableFile.Refill | src/constellation/quadrant_resolver.py:116-129 | one range request from the position to FetchEnd; the window becomes those bytes and the read returns its first n |
| RangeReader.SeekableFile.Seek | src/constellation/quadrant_resolver.py:131-139 | the position becomes SeekTarget and is returned; the window and request log are unchanged |
| RangeReader.SeekableFile.Tell | src/constellation/quadrant_resolver.py:141-142 | returns the position, which lies in [0, size] |
| RangeReader.SeekableFile.Close | src/constellation/quadrant_resolver.py:153-154 | drops the window and changes nothing else |
| RangeReader.ReadTwice | src/constellation/quadrant_resolver.py:99-129 | two reads in a row return consecutive bytes of the object |
| RangeReader.BlockThenBlock | src/constellation/quadrant_resolver.py:99-129 | reading two FITS blocks from an empty window issues one request |
| QuadrantResolver.Min4 | src/constellation/quadrant_resolver.py:252-254 | the minimum of the four corner values is one of them and below all of them |
| QuadrantResolver.Max4 | src/constellation/quadrant_resolver.py:253-255 | the maximum of the four corner values is one of them and above all of them |
| QuadrantResolver.HduFootprint | src/constellation/quadrant_resolver.py:219-258 | an HDU yields a footprint exactly when its name ends in ".SCI", both axes are non-zero and the WCS maps all four corners; the quadrant is the name without ".SCI", the box holds all four corners and each bound is the minimum or maximum of the corners' coordinates, so it is the smallest such box; the DET path is the file's and every other path and tag is "" |
| QuadrantResolver.HduFootprints | src/constellation/quadrant_resolver.py:216-267 | a file yields at most one footprint per HDU |
| QuadrantResolver.HduFootprintsMembers | src/constellation/quadrant_resolver.py:216-267 | the footprints read are exactly those of the file's HDUs |
| QuadrantResolver.FootprintBoxes | src/constellation/quadrant_resolver.py:249-257 | every footprint read has min below max on both axes and the file's DET path |
| QuadrantResolver.ReadQuadrantFootprints | src/constellation/quadrant_resolver.py:196-267 | a file that cannot be opened fails the read; otherwise the loop returns the footprints of its HDUs in order |
| QuadrantResolver.OverlapsIffCommonPoint | src/constellation/quadrant_resolver.py:270-292 | for well-formed boxes the test holds exactly when some sky position lies in both closed boxes |
| QuadrantResolver.ToRef | src/constellation/quadrant_resolver.py:381-390 | the reference takes `det_path` as its science path and copies every other field |
| QuadrantResolver.Resolve | src/constellation/quadrant_resolver.py:377-392 | the references are exactly those of the overlapping footprints, at most one per footprint |
| QuadrantResolver.ResolveAppend | src/constellation/quadrant_resolver.py:377-392 | the filter keeps index order: resolving a concatenation concatenates the results |
| QuadrantResolver.ResolveAllOverlapping | src/constellation/quadrant_resolver.py:377-392 | when every footprint overlaps, each becomes its reference in place |
| QuadrantResolver.ResolveQuadrantsForSubtile | src/constellation/quadrant_resolver.py:364-392 | the append loop returns Resolve |
| QuadrantResolver.TagAll | src/constellation/quadrant_resolver.py:350-356 | tagging keeps the footprints and their order and sets each one's paths and provenance |
| QuadrantResolver.PairsFootprintsSnoc | src/constellation/quadrant_resolver.py:322-358 | one more pair appends that pair's footprints |
| QuadrantResolver.ObsFootprintsSnoc | src/constellation/quadrant_resolver.py:318-358 | one more observation appends its pairs' footprints |
| QuadrantResolver.PairFootprintsSound | src/constellation/quadrant_resolver.py:323-358 | a pair's footprints come from a successful read of its DET file and carry that pair's tags |
| QuadrantResolver.PairsFootprintsSound | src/constellation/quadrant_resolver.py:322-358 | an observation's footprints come from one of the listed pairs and carry its tags |
| QuadrantResolver.ObsFootprintsSound | src/constellation/quadrant_resolver.py:318-358 | the footprints come from a listed observation's DET pair and carry its tags |
| QuadrantResolver.QuadrantIndexSound | src/constellation/quadrant_resolver.py:315-361 | every indexed footprint belongs to an indexed observation and one of its DET pairs, is one of the footprints read from that pair's DET file, and carries its companions, with "" for missing ones |
| QuadrantResolver.QuadrantIndexFromDetFiles | src/constellation/quadrant_resolver.py:336-357 | with `read_quadrant_footprints` as the reader, every indexed footprint's `det_path` is its own pair's DET URI, that file opened, and its box is well formed |
| QuadrantResolver.PairsFootprintsComplete | src/constellation/quadrant_resolver.py:322-358 | every footprint read for a listed DET pair is in the result, tagged |
| QuadrantResolver.ObsFootprintsComplete | src/constellation/quadrant_resolver.py:318-358 | every footprint read for a listed observation's DET pair is in the result, tagged |
| QuadrantResolver.QuadrantIndexComplete | src/constellation/quadrant_resolver.py:315-361 | every footprint read from a DET pair of an indexed observation is in the index, tagged with that pair |
| QuadrantResolver.TagFootprints | src/constellation/quadrant_resolver.py:350-356 | the tagging loop returns TagAll |
| QuadrantResolver.IndexPair | src/constellation/quadrant_resolver.py:323-358 | one inner pass yields the pair's tagged footprints, or none without a DET key or on a read failure |
| QuadrantResolver.IndexObservation | src/constellation/quadrant_resolver.py:319-358 | one outer pass yields the footprints of the observation's pairs in pair order |
| QuadrantResolver.BuildQuadrantIndex | src/constellation/quadrant_resolver.py:295-361 | the loops return QuadrantIndex |
| QuadrantResolver.NumField | src/constellation/quadrant_resolver.py:421 | a number field is read exactly when present; the model also requires a number, because the footprint holds only reals (see Left out) |
| QuadrantResolver.OptStrField | src/constellation/quadrant_resolver.py:57-62 | a missing string field defaults to ""; a present one is read, and the model also requires a string (see Left out) |
| QuadrantResolver.BoxFromJson | src/constellation/quadrant_resolver.py:51-56 | the required fields are read under their names; a missing `det_path` is a TypeError |
| QuadrantResolver.TagsFromJson | src/constellation/quadrant_resolver.py:57-62 | the optional fields are read under their names, "" when absent |
| QuadrantResolver.FootprintFromJson | src/constellation/quadrant_resolver.py:419-421 | a footprint is built only from a dict whose every name is a field; a non-dict, an unknown name or a missing `det_path` is a TypeError |
| QuadrantResolver.FootprintToJsonBounds | src/constellation/quadrant_resolver.py:402-406 | the encoding holds the quadrant and the four bounds under their names |
| QuadrantResolver.FootprintToJsonDetBkg | src/constellation/quadrant_resolver.py:407-408 | the encoding holds the DET and BKG paths under their names |
| QuadrantResolver.FootprintToJsonWgtPsf | src/constellation/quadrant_resolver.py:409-410 | the encoding holds the WGT and PSF paths under their names |
| QuadrantResolver.FootprintToJsonProvenance | src/constellation/quadrant_resolver.py:411-413 | the encoding holds obs_id, dither and ccd under their names |
| QuadrantResolver.BoxRoundTrip | src/constellation/quadrant_resolver.py:398-421 | the required fields decode back from the encoding |
| QuadrantResolver.TagsRoundTrip | src/constellation/quadrant_resolver.py:398-421 | the optional fields decode back from the encoding |
| QuadrantResolver.FootprintRoundTrip | src/constellation/quadrant_resolver.py:398-421 | a footprint decodes back from its encoding |
| QuadrantResolver.FootprintKeysKnown | src/constellation/quadrant_resolver.py:398-421 | every key of the encoding names a parameter of the footprint's constructor |
| QuadrantResolver.IndexFromJson | src/constellation/quadrant_resolver.py:419-421 | a decoded list has one footprint per item, each that item's decoding; a failure comes from some bad item |
| QuadrantResolver.IndexRoundTrip | src/constellation/quadrant_resolver.py:398-421 | `quadrant_index_from_dict(quadrant_index_to_dict(x)) == x` |
| Tiling.ArcminToDegRa | src/constellation/tiling.py:45-53 | fails with ValueError exactly when cos(dec) is below 1e-6; otherwise the result times 60·cos(dec) is the arcminutes |
| Tiling.ArcminToDegDec | src/constellation/tiling.py:56-58 | the result times 60 is the arcminutes |
| Tiling.MakeTileFootprint | src/constellation/tiling.py:61-82 | fails exactly when the centre's cos(dec) is too small; otherwise the footprint is centred on the given point with core and extended ranges symmetric about it, of half-widths size/2 converted at the centre declination |
| Tiling.ExtendedContainsCore | src/constellation/tiling.py:69-82 | a larger extended size gives extended ranges strictly containing the core ranges on both axes |
| Tiling.GridCells | src/constellation/tiling.py:118-146 | rows·cols cells for positive dimensions, none when a dimension is negative |
| Tiling.SubtileGrid | src/constellation/tiling.py:85-146 | fails exactly on a zero dimension (division by zero) or a too-small cos(dec) at the tile centre; otherwise rows·cols sub-tiles |
| Tiling.GenerateSubtileGrid | src/constellation/tiling.py:85-146 | the nested loop returns SubtileGrid |
| Tiling.DivModCell | src/constellation/tiling.py:119-120 | row-major index `row·cols+col` divides back into (row, col) |
| Tiling.GridCellCoords | src/constellation/tiling.py:119-130 | cell k of the list carries row k/cols and column k%cols, both in range |
| Tiling.GridCellAt | src/constellation/tiling.py:119-130 | the cell of (row, col) sits at index row·cols+col, so each pair appears exactly once |
| Tiling.SlicesSpan | src/constellation/tiling.py:111-124 | the first slice starts at the range's low end and the last ends at its high end |
| Tiling.SlicesAbut | src/constellation/tiling.py:121-124 | neighbouring slices share their boundary exactly |
| Tiling.SlicesPartition | src/constellation/tiling.py:111-124 | every point of [lo, hi) lies in exactly one half-open slice |
| Tiling.SlicesOrdered | src/constellation/tiling.py:121-124 | a slice ends no later than any later slice begins |
| Tiling.GridCoresTileParent | src/constellation/tiling.py:107-124 | cell (0,0) starts at the tile core's minimum, the last cell ends at its maximum, and adjacent cells share their boundary |
| Tiling.GridCoresPartition | src/constellation/tiling.py:94-124 | every point of the tile core lies in the half-open core of exactly one cell |
| Tiling.GridExtendedMargins | src/constellation/tiling.py:133-140 | each extended range is its core widened by the margin on both sides, and neighbouring extended ranges overlap by twice the margin |
| Tiling.GridMarginsFromArcmin | src/constellation/tiling.py:114-116 | the margins of a successful grid are the arcminute margin converted once at the tile centre's declination |
| Tiling.GridCentresIncrease | src/constellation/tiling.py:104-142 | each centre is the midpoint of its core, and centres increase with row in Dec and with column in RA (row 0 lowest Dec) |
| Tiling.CentersOf | src/constellation/tiling.py:166-190 | at most 48 centres (6 x 8), one per id in id order |
| Tiling.CenterAt | src/constellation/tiling.py:182-188 | the centre in row `row` and column `col` has the id at index `row * 8 + col`, RA `50.5 + col * spacing_ra` and Dec `-29.5 + row * 0.5` |
| Tiling.TileCenters | src/constellation/tiling.py:166-190 | the nested loop with its counter and break returns CentersOf |
| Tiling.FootprintsOf | src/constellation/tiling.py:195-198 | one footprint per centre, in order, failing exactly when some centre's cos(dec) is too small |
| Tiling.GetEdffTiles | src/constellation/tiling.py:193-198 | one footprint per EDFF id, in catalog order, each with that id |
| Tiling.TileById | src/constellation/tiling.py:201-210 | an unknown id is a KeyError; a known id gives a footprint with that id |
| Tiling.GetTileById | src/constellation/tiling.py:201-210 | the search loop returns TileById |
| Tiling.TileByIdAt | src/constellation/tiling.py:207-209 | a known id yields the footprint built at its first catalog centre |
| Tiling.TileByIdListed | src/constellation/tiling.py:193-210 | every catalog id is found, and its footprint is the one `get_edff_tiles` lists |
| Tiling.EdffTileListed | src/constellation/tiling.py:193-198 | the footprint listed at position i is built at the i-th centre |
| Manifest.Trunc | src/constellation/manifest.py:46 | `int(x)` truncates toward zero: the result is within 1 of x on x's side of zero |
| Manifest.SliceStop | src/constellation/manifest.py:47 | the stop of `all_ids[:k]` is k when it is in range, counts from the end when negative, and never exceeds the length |
| Manifest.MockSourceIds | src/constellation/manifest.py:30-48 | n consecutive ids from `(tile_id*100+row*10+col)*10000` (none for n ≤ 0), and the core ids are their prefix of length `int(n*core_fraction)` |
| Manifest.MockDefaults | src/constellation/manifest.py:32-48 | with the defaults a sub-tile gets 2500 consecutive ids from its base, the first 1600 in the core |
| Manifest.MockCoreSubset | src/constellation/manifest.py:40-47 | every core id is one of the sub-tile's ids |
| Manifest.MockIdsDisjoint | src/constellation/manifest.py:43-45 | different cells with row and column below 10 get disjoint id ranges of at most 10000 ids |
| Manifest.SkyBoundsOf | src/constellation/manifest.py:51-58 | the bounds copy the sub-tile's four ranges unchanged |
| Manifest.GenerateManifest | src/constellation/manifest.py:61-78 | the manifest copies the sub-tile's id, row, column and bounds and the given quadrants, catalog and ids verbatim |
| Manifest.RefsOfObsSound | src/constellation/manifest.py:134-136 | every reference of the legacy list is that of a DET pair of a listed observation |
| Manifest.RefsOfObsComplete | src/constellation/manifest.py:134-136 | the legacy list holds the reference of every DET pair of every listed observation |
| Manifest.ManifestsFor | src/constellation/manifest.py:141-167 | one manifest per sub-tile |
| Manifest.ManifestsForTile | src/constellation/manifest.py:81-175 | an unknown tile id is a KeyError |
| Manifest.ManifestsForTileShape | src/constellation/manifest.py:107-167 | one manifest per grid cell, in row-major order, at `manifest_dir/tile_id/{tile_id}_{row}_{col}.yaml`, with the tile id, the cell's row and column, and the catalog ("" when none was found) |
| Manifest.ManifestsForTileStrategy | src/constellation/manifest.py:124-155 | with a quadrant index each manifest holds the quadrants overlapping its own extended box, in index order, and no ids; without one, every reference and the cell's 2500 mock ids, 1600 of them in the core |
| Manifest.CollectAllRefs | src/constellation/manifest.py:134-136 | the gathering loop returns every observation's references in observation order |
| Manifest.WriteManifestsForTile | src/constellation/manifest.py:81-175 | the procedure returns ManifestsForTile |
| Manifest.WriteManifestsForGrid | src/constellation/manifest.py:138-167 | the loop over the sub-tiles returns ManifestsFor |
| Manifest.ManifestForSubtile | src/constellation/manifest.py:142-163 | one sub-tile's manifest is the one ManifestFor gives under the chosen strategy |
| Extractor.LocalPathOf | src/constellation/extractor.py:23-45 | a path that is not an `s3://` URI is returned as it is |
| Extractor.DownloadSource | src/constellation/extractor.py:58-60 | the bucket of a download holds no '/' |
| Extractor.RemoveAllAbsent | src/constellation/extractor.py:59 | removing "s3://" where it does not occur changes nothing |
| Extractor.CachePathDropsBucket | src/constellation/extractor.py:42-45 | `s3://bucket/key` is cached at `cache_dir/key` |
| Extractor.DownloadSourceOf | src/constellation/extractor.py:58-66 | `s3://bucket/key` is downloaded from that bucket under that key |
| Extractor.CacheSharedAcrossBuckets | src/constellation/extractor.py:42-48 | two URIs differing only in bucket share one cache file |
| Extractor.Lookup | src/constellation/extractor.py:95 | `hdul[name]` finds an HDU whose name equals the name ignoring case, and fails only when none does |
| Extractor.SelectNamed | src/constellation/extractor.py:93-106 | at most one copy per requested name |
| Extractor.SelectNamedSound | src/constellation/extractor.py:93-106 | every copy carries the data and header of a requested HDU under that name |
| Extractor.SelectNamedComplete | src/constellation/extractor.py:93-106 | every requested HDU that exists is copied |
| Extractor.SelectNamedAllPresent | src/constellation/extractor.py:93-106 | with every HDU present, one copy per name in order |
| Extractor.SelectNamedNonePresent | src/constellation/extractor.py:93-106 | with no HDU present, nothing is copied |
| Extractor.ExtractQuadrant | src/constellation/extractor.py:88-106 | the output starts with an empty primary HDU and holds at most three extensions |
| Extractor.ExtractPsf | src/constellation/extractor.py:124-138 | the output starts with an empty primary HDU and holds at most one extension |
| Extractor.ExtractQuadrantFits | src/constellation/extractor.py:70-106 | the loop over the three names returns ExtractQuadrant |
| Extractor.ExtractPsfFits | src/constellation/extractor.py:109-138 | the single lookup returns ExtractPsf |
| Extractor.ExtractQuadrantComplete | src/constellation/extractor.py:88-106 | a quadrant with SCI, RMS and FLG present gives the primary HDU and the three copies in that order |
| Extractor.ExtractQuadrantMissing | src/constellation/extractor.py:97-104 | a quadrant with none present gives the primary HDU alone, each missing HDU being skipped |
| Extractor.ExtractQuadrantSound | src/constellation/extractor.py:93-102 | every extension after the primary copies one of the quadrant's three HDUs |
| Extractor.ExtractPsfCases | src/constellation/extractor.py:124-138 | the PSF file holds the copy of the quadrant's HDU exactly when the source has it |
| Extractor.LastUpperMatch | src/constellation/extractor.py:177 | the index found is within the column names |
| Extractor.LastUpperMatchLast | src/constellation/extractor.py:177 | the name found is the last with that upper-case form, and none is found when no name has it |
| Extractor.ResolveColumn | src/constellation/extractor.py:177-180 | the resolved column is the requested name or a column of the catalog |
| Extractor.ResolveColumnCases | src/constellation/extractor.py:177-180 | a column matching ignoring case is used, otherwise the name as given |
| Extractor.Column | src/constellation/extractor.py:182-183 | a column of a rectangular catalog has one value per row |
| Extractor.ColumnLength | src/constellation/extractor.py:182-183 | every column found in a rectangular catalog has the row count |
| Extractor.Hits | src/constellation/extractor.py:188-202 | a boolean mask is the increasing list of exactly the rows it selects |
| Extractor.Take | src/constellation/extractor.py:204-207 | `col[mask]` holds the selected values in order |
| Extractor.TakeRows | src/constellation/extractor.py:204 | `table[mask]` keeps every column, cut to the selected rows |
| Extractor.IdsAt | src/constellation/extractor.py:207-208 | one id per selected row |
| Extractor.Masks | src/constellation/extractor.py:182-202 | both masks select rows of the catalog; a missing RA or Dec column is a KeyError |
| Extractor.SubsetCatalog | src/constellation/extractor.py:141-218 | the subset written has one row per extended id |
| Extractor.SubsetCatalogRows | src/constellation/extractor.py:186-218 | exactly the rows inside the closed extended box are kept in table order, and the core ids are those also inside the core box |
| Extractor.SubsetCoreInExtended | src/constellation/extractor.py:186-218 | every core id is also an extended id |
| Extractor.SafeName | src/constellation/extractor.py:265 | the safe name holds no '-' and no '.' |
| Extractor.RemoveAllKeepsAbsent | src/constellation/extractor.py:265 | removing a pattern introduces no character |
| Extractor.ExposureRel | src/constellation/extractor.py:269-292 | a product's relative path is "" exactly when the manifest names no source for it |
| Extractor.PsfRel | src/constellation/extractor.py:303-309 | the PSF path is "" exactly when the manifest names no PSF |
| Extractor.RewriteRef | src/constellation/extractor.py:300-311 | the rewritten reference keeps the quadrant, observation, dither and CCD, and each path is empty exactly when the source path was |
| Extractor.RewriteManifest | src/constellation/extractor.py:337-348 | the new manifest keeps the tile, sub-tile and bounds, rewrites every reference in order, names "catalog.fits" and carries the id lists |
| Extractor.Fetch | src/constellation/extractor.py:23-67 | the path is LocalPathOf's; a hit or a local path changes nothing; a miss downloads once into the cache; written files are untouched |
| Extractor.FetchKeepsCacheValid | src/constellation/extractor.py:45-48 | a miss never downloads a file already cached |
| Extractor.FetchTwice | src/constellation/extractor.py:45-48 | fetching again hits the cache: the same path and no download |
| Extractor.ExtractFile | src/constellation/extractor.py:269-309 | without a source nothing happens; otherwise the cut-out of the local copy is written at the destination, every other FITS file keeps its content, and catalogs and manifests are unchanged |
| Extractor.FetchKeepsCacheValid2 | src/constellation/extractor.py:45-48 | every successful fetch from a valid cache leaves it valid |
| Extractor.ExtractRef | src/constellation/extractor.py:262-311 | every non-empty rewritten path names a written FITS file, and earlier paths stay written |
| Extractor.ExtractRefKeepsOthers | src/constellation/extractor.py:262-311 | a FITS file at any path other than the reference's four destinations keeps its content; a destination may be overwritten, as in the source |
| Extractor.ExtractAll | src/constellation/extractor.py:262-311 | an empty quadrant list writes nothing |
| Extractor.ExtractAllWritten | src/constellation/extractor.py:262-311 | after the loop every reference's rewritten paths name written files, and only FITS files were added |
| Extractor.ExtractAllErrPrefix | src/constellation/extractor.py:262-311 | a failure on the first quadrants is the failure of the whole loop |
| Extractor.WriteSubset | src/constellation/extractor.py:319-335 | only the catalogs change |
| Extractor.SubsetWritten | src/constellation/extractor.py:172-206 | whether or not `subset_catalog` succeeds, only the catalogs change, and on success the disk is WriteSubset's |
| Extractor.WriteSubsetBeforeIdLookup | src/constellation/extractor.py:205-208 | a catalog with both coordinate columns and no id column fails with KeyError after the extended subset is written as `catalog.fits` |
| Extractor.CatalogStepDisk | src/constellation/extractor.py:313-335 | whether or not the catalog step succeeds, exposures and manifests are unchanged, and on success the disk is CatalogStep's |
| Extractor.CatalogStep | src/constellation/extractor.py:313-335 | without a source catalog nothing is written and the ids are empty; exposures and manifests never change |
| Extractor.CatalogStepWrites | src/constellation/extractor.py:318-335 | with a source catalog, the subset of the local copy is written at `catalog.fits` and its id lists are returned |
| Extractor.ExtractSubtileSpec | src/constellation/extractor.py:244-248 | the directory returned is `extraction_dir/tile_id/row_col` |
| Extractor.ExtractSubtileSelfContained | src/constellation/extractor.py:221-359 | the written manifest is the rewritten one, every non-empty path in it names a written file, the catalog is written when there was one, ids are empty without one, and the cache stays valid |
| Extractor.Workspace.EnsureLocal | src/constellation/extractor.py:23-67 | the workspace changes as Fetch says and the path is Fetch's |
| Extractor.Workspace.ExtractFileInto | src/constellation/extractor.py:269-309 | the workspace changes as ExtractFile says |
| Extractor.Workspace.ExtractRefInto | src/constellation/extractor.py:262-311 | the workspace changes as ExtractRef says |
| Extractor.Workspace.SubsetCatalogInto | src/constellation/extractor.py:313-335 | the ids are CatalogStep's, and the workspace is CatalogStepDisk's on success and on failure |
| Extractor.Workspace.WriteSubsetInto | src/constellation/extractor.py:141-218 | the ids are WriteSubset's, and the subset is written before the id column is looked up, so the workspace is SubsetWritten's on success and on failure |
| Extractor.Workspace.ExtractAllInto | src/constellation/extractor.py:262-311 | the loop leaves the workspace ExtractAll gives |
| Extractor.Workspace.ExtractSubtile | src/constellation/extractor.py:221-359 | the directory and workspace are ExtractSubtileSpec's |
| Config.MarginPositive | src/constellation/config.py:20-25 | a margin is accepted, unchanged, exactly when it is positive; otherwise ValueError |
| Config.GridPositive | src/constellation/config.py:27-32 | a grid is accepted, unchanged, exactly when both dimensions are positive; otherwise ValueError |
| Config.TileIdsNonempty | src/constellation/config.py:79-84 | a tile list is accepted, unchanged, exactly when it is non-empty; otherwise ValueError |
| Config.ValidateTiling | src/constellation/config.py:12-32 | a tiling record validates exactly when its grid and margin are positive, and validation returns it unchanged |
| Config.ValidatePipeline | src/constellation/config.py:59-84 | a pipeline record validates exactly when its tile list is non-empty and its tiling validates |
| Config.DefaultTiling | src/constellation/config.py:15-18 | the default tiling (4x4, 1', 32', 30') passes every tiling validator and has a core smaller than the tile |
| Config.DefaultPipeline | src/constellation/config.py:59-75 | a pipeline built with every default validates exactly when its tile list is non-empty |
| Storage.ParseS3Uri | src/constellation/storage.py:43-54 | the bucket holds no '/', and bucket, '/' and key spell the URI with its first "s3://" removed (key "" when there is no '/') |
| Storage.ParseS3UriRoundTrip | src/constellation/storage.py:43-54 | `s3://bucket/key` parses back to (bucket, key) for every bucket without '/' |
| Storage.ParseS3UriBucketOnly | src/constellation/storage.py:52-54 | `s3://bucket` parses to the bucket and the empty key |
| Storage.RowColName | src/constellation/storage.py:162 | the `row_col` segment holds no '/' |
| Storage.ParseRowColName | src/constellation/workflows/tasks.py:336-338 | a parsed directory name has at least two '_'-separated fields, the first two being the integers returned |
| Storage.RowColNameRoundTrip | src/constellation/workflows/tasks.py:336-338 | a `row_col` name parses back to (row, col) |
| Storage.BuildSubtilePrefix | src/constellation/storage.py:149-162 | the prefix starts with the base without trailing '/', then the run id, and its last segment is `row_col` |
| Storage.PrefixIgnoresTrailingSlash | src/constellation/storage.py:161 | a trailing '/' on the base does not change the prefix |
| Storage.BuildSubtilePrefixSegments | src/constellation/storage.py:158-162 | after `{base}/{run_id}/` the prefix splits on '/' into exactly the tile id and `row_col` |
| Storage.BuildSubtilePrefixInjective | src/constellation/storage.py:158-162 | within one base and run, equal prefixes mean the same tile, row and column, so every sub-tile's outputs land under its own tile |
| Storage.PutObject | src/constellation/storage.py:124-133 | skipping an existing key writes nothing and returns false; otherwise the object is written and true returned; the key is present after |
| Storage.ObjectKey | src/constellation/storage.py:113 | a file's key is the base key, '/', then its relative path |
| Storage.UploadAll | src/constellation/storage.py:112-138 | the count lies between 0 and the number of files, and an empty tree uploads nothing and returns 0 |
| Storage.UploadAllPresent | src/constellation/storage.py:112-138 | after the uploads every file of the tree has an object |
| Storage.UploadAllOthers | src/constellation/storage.py:112-138 | objects no file maps to are unchanged |
| Storage.UploadAllKeepsExisting | src/constellation/storage.py:126-131 | with skipping, an object that existed keeps its bytes |
| Storage.UploadAllNoSkipCount | src/constellation/storage.py:132-138 | without skipping, the count is the number of files |
| Storage.UploadAllAllPresent | src/constellation/storage.py:126-138 | with skipping, a tree whose every key exists changes nothing and returns 0 |
| Storage.UploadAllRerun | src/constellation/storage.py:126-138 | uploading the same tree twice with skipping writes nothing the second time |
| Storage.CountNew | src/constellation/storage.py:138 | the number of new files lies between 0 and the number of files |
| Storage.FileKeysDistinct | src/constellation/storage.py:112-116 | distinct relative paths map to distinct keys |
| Storage.UploadAllCountsNew | src/constellation/storage.py:103-138 | with skipping, the count returned is the number of files that had no object before |
| Storage.ObjectStore.constructor | src/constellation/storage.py:122 | the store starts with the given objects |
| Storage.ObjectStore.PutIfAbsent | src/constellation/storage.py:124-133 | the new objects and the result are those of PutObject |
| Storage.ObjectStore.UploadFile | src/constellation/storage.py:57-85 | with skipping and an existing key: false and no change; a missing local file fails with nothing written; otherwise the object is written and true returned |
| Storage.ObjectStore.UploadDirectory | src/constellation/storage.py:88-146 | the new objects and the count are those of UploadAll at the prefix with trailing '/' removed |
| Tasks.ParseSubtileFromManifestPath | src/constellation/workflows/tasks.py:37-44 | a result is the first three '_'-separated fields of the file name's stem, as integers; failures are IndexError or ValueError |
| Tasks.ManifestStem | src/constellation/workflows/tasks.py:42 | the stem of a manifest path is tile, row and column joined with '_' |
| Tasks.ParseManifestPathRoundTrip | src/constellation/workflows/tasks.py:37-44 | the parser inverts the manifest naming of `write_manifests_for_tile` |
| Tasks.ManifestPathInjective | src/constellation/workflows/tasks.py:37-44 | two sub-tiles never share a manifest path |
| Tasks.ItemFor | src/constellation/workflows/tasks.py:125-146 | an item carries its observation and pair; bkg, wgt and psf paths are "" exactly when the key is missing or empty |
| Tasks.ItemsForPairs | src/constellation/workflows/tasks.py:128-147 | an observation has at most one item per pair |
| Tasks.ItemsForPairsSound | src/constellation/workflows/tasks.py:128-132 | every item comes from a listed pair that has a DET key |
| Tasks.ItemsForPairsComplete | src/constellation/workflows/tasks.py:128-147 | every listed pair with a DET key has its item |
| Tasks.ItemsForObsSound | src/constellation/workflows/tasks.py:124-147 | every item comes from a listed observation and one of its DET pairs |
| Tasks.ItemsForObsComplete | src/constellation/workflows/tasks.py:124-147 | every DET pair of a listed observation has its item |
| Tasks.WorkItemsMembers | src/constellation/workflows/tasks.py:124-147 | an item is emitted exactly when it is the item of a DET pair of an indexed observation |
| Tasks.WorkItemsSharePsf | src/constellation/workflows/tasks.py:125-126 | all items of one observation have the same psf path |
| Tasks.ObservationItems | src/constellation/workflows/tasks.py:125-147 | the inner loop emits the items of the observation's sorted pairs that have a DET key |
| Tasks.BuildDetWorkItems | src/constellation/workflows/tasks.py:103-150 | the loop emits the items of the sorted observations, each over its sorted pairs |
| Tasks.ReadDet | src/constellation/workflows/tasks.py:185-216 | a read failure gives no footprints; otherwise one entry per footprint read |
| Tasks.ReadDetTagged | src/constellation/workflows/tasks.py:193-216 | each entry decodes to the footprint read with the item's paths and provenance |
| Tasks.ReadDetFootprints | src/constellation/workflows/tasks.py:154-225 | the tagging loop produces ReadDet |
| Tasks.Flatten | src/constellation/workflows/tasks.py:246-250 | no files merge to the empty list |
| Tasks.FlattenAppend | src/constellation/workflows/tasks.py:246-250 | merging concatenated file lists concatenates the merges |
| Tasks.FlattenContains | src/constellation/workflows/tasks.py:246-250 | every entry of every file is in the merge |
| Tasks.MergeFootprints | src/constellation/workflows/tasks.py:229-257 | the extend loop produces the files' entries in order |
| Tasks.IndexToJsonAppend | src/constellation/quadrant_resolver.py:398-416 | serialising a concatenation concatenates the serialisations |
| Tasks.ReadAll | src/constellation/workflows/tasks.py:154-225 | one footprint file per work item, each that item's ReadDet |
| Tasks.ReadAllAppend | src/constellation/workflows/tasks.py:246-250 | reading and merging a concatenation of items merges the two halves |
| Tasks.PairItemRead | src/constellation/workflows/tasks.py:128-216 | the item of one pair reads exactly that pair's tagged footprints |
| Tasks.PairsItemsRead | src/constellation/workflows/tasks.py:128-216 | an observation's items read its pairs' footprints, in order |
| Tasks.ObsItemsRead | src/constellation/workflows/tasks.py:124-216 | the observations' items read their footprints, in order |
| Tasks.DistributedIndexMatches | src/constellation/workflows/tasks.py:103-257 | reading every work item and merging the files decodes to the quadrant index `build_quadrant_index` builds |
| Tasks.BuildConfig | src/constellation/workflows/tasks.py:74-79 | a non-empty URI replaces the storage URI, a two-value grid replaces the grid, and nothing else changes |
| Tasks.BuildConfigIdempotent | src/constellation/workflows/tasks.py:74-79 | applying the same overrides twice equals applying them once |
| Tasks.BuildConfigValidity | src/constellation/workflows/tasks.py:77-78 | a valid configuration stays valid exactly when an overriding grid is positive |
| Tasks.ManifestTarget | src/constellation/workflows/tasks.py:327-331 | a manifest whose name does not parse fails the upload |
| Tasks.DirTarget | src/constellation/workflows/tasks.py:333-341 | a directory whose name does not parse fails the upload |
| Tasks.ManifestTargetOfPath | src/constellation/workflows/tasks.py:327-331 | a manifest is uploaded to `{prefix}/manifest.yaml` of its own sub-tile |
| Tasks.DirTargetOfSubtileDir | src/constellation/workflows/tasks.py:333-341 | an extracted sub-tile directory is uploaded under its own sub-tile's prefix |
| Tasks.UploadOne | src/constellation/storage.py:57-85 | with skipping, an upload keeps every existing object, puts the target, and fails on a missing file only when the target is new |
| Tasks.UploadTile | src/constellation/workflows/tasks.py:326-343 | without a base URI or a run id nothing is uploaded |
| Tasks.UploadManifestsPresent | src/constellation/workflows/tasks.py:327-331 | the manifest uploads keep every existing object and leave every manifest at its target |
| Tasks.UploadDirsKeepsExisting | src/constellation/workflows/tasks.py:333-341 | the directory uploads keep every existing object |
| Tasks.UploadTileKeepsExisting | src/constellation/workflows/tasks.py:326-343 | uploading a tile never changes an object already stored |
| Tasks.UploadManifestFile | src/constellation/workflows/tasks.py:328-331 | one manifest's upload: a path that does not parse fails with the parse error; otherwise result and store are those of uploading the file to `<prefix>/manifest.yaml` |
| Tasks.UploadManifestFiles | src/constellation/workflows/tasks.py:327-331 | the manifest loop's store and result are those of UploadManifests |
| Tasks.UploadManifestsErrPrefix | src/constellation/workflows/tasks.py:327-331 | the first manifest failure ends the loop |
| Tasks.UploadSubtileDir | src/constellation/workflows/tasks.py:334-341 | one directory's upload: a name that is not `row_col` fails with the store unchanged, otherwise every file lands under the sub-tile prefix |
| Tasks.UploadSubtileDirs | src/constellation/workflows/tasks.py:333-341 | the directory loop's store and result are those of UploadDirs |
| Tasks.UploadDirsErrPrefix | src/constellation/workflows/tasks.py:333-341 | the first directory failure ends the loop |
| Tasks.UploadTileOutputs | src/constellation/workflows/tasks.py:324-343 | the upload step's store and result are those of UploadTile |
| Sorting.SortBy | src/constellation/discovery.py:58 | `sorted()` returns a permutation of its input |
| Sorting.SortBySorted | src/constellation/discovery.py:73 | under a total order the result is sorted |
| Sorting.SortByDistinct | src/constellation/discovery.py:73 | sorting a set's elements keeps them distinct |
| Sorting.StrLeTotalOrder | src/constellation/discovery.py:58 | Python's comparison of strings is a total order |
| Sorting.PairLeTotalOrder | src/constellation/discovery.py:73 | Python's comparison of string pairs is a total order |
| Strings.ZFill | src/constellation/discovery.py:147 | `zfill` leaves a long enough text alone and otherwise puts exactly the missing number of '0's in front, after a leading '+' or '-' |
| Strings.Upper | src/constellation/extractor.py:177-180 | ASCII `upper()`: each lower-case letter becomes its capital, every other character is kept, and the length is kept (see Left out) |
| Strings.Partition | src/constellation/storage.py:53 | `partition('/')` splits at the first separator, or returns the whole text and "" without one |
| Strings.RStrip | src/constellation/storage.py:108 | `rstrip('/')` removes exactly the trailing separators |
| Strings.SplitJoin | src/constellation/workflows/tasks.py:43 | joining separator-free parts and splitting again gives the parts |
| Strings.JoinSplit | src/constellation/workflows/tasks.py:43 | splitting and joining again gives the text |
| Strings.ParseIntToString | src/constellation/workflows/tasks.py:44 | `int(str(i)) == i` |
| Strings.ParseFields | src/constellation/workflows/tasks.py:44 | the parsed fields are the integers the first parts spell; a missing part is an IndexError and a malformed one a ValueError |
| Strings.ParseFieldsOfValues | src/constellation/workflows/tasks.py:44 | parts that each parse to a value parse together to those values |
| Strings.ParseFieldsOfStrings | src/constellation/workflows/tasks.py:44 | parts written with `str` parse back to the integers written |

## Left out

- Network and S3 access (`boto3`: listing, `get_object`, `head_object`, `download_file`, `upload_file`, pagination) is not modelled as I/O. A bucket listing is its sequence of keys, a remote object is its bytes, a download is a logged event, and the object store is a map from (bucket, key) to bytes.
- astropy is not modelled. A FITS file is its list of HDUs (name, data, header) and a catalog is a table of real columns. Opening a file, reading a table and the WCS pixel-to-world transform are parameters, and writing a file records it by path in the workspace.
- `_open_fits` and the `_get_s3_client` helpers are client construction and I/O; the header reader that uses them is a parameter that may fail.
- Trigonometry is not modelled: the cosine of the centre declination is a parameter (`cosDeg`). Floating-point rounding is not modelled either: coordinates are `real`, so the equalities the tests check within `1e-10` hold exactly.
- NaN coordinates are not modelled.
- Conversion of a float id column with `.astype(int)` truncates toward zero; values beyond 64 bits are not modelled.
- `get_run_id` and `resolve_run_id` read the clock and the Flyte environment; they are not part of this model.
- YAML and pydantic are not modelled: loading and dumping configurations and manifests, and pydantic's type coercion. The records are datatypes, and a manifest file is the manifest value stored under its path.
- Flyte orchestration is not modelled: `build_obs_index`, task decorators, caching, `map_task`, `FlyteFile` and the workflow in `pipeline.py`. A footprint file is the list of plain values it holds.
- `extract_all_subtiles_for_tile`, imported by `workflows/tasks.py`, is not part of this model. `Tasks.UploadTileOutputs` therefore takes the extracted sub-tile directories as an input.
- `list_mer_catalog` is not modelled; the MER catalog URI is a parameter of manifest generation.
- The `ThreadPoolExecutor` in `upload_directory` is modelled as a sequential loop. Its uploads touch distinct keys, so the resulting store and count do not depend on the order.
- `pathlib` normalisation is not modelled: paths are '/'-joined strings, and `Path.name` and `Path.stem` are taken on that text.
- `rglob` ordering and directories are not modelled: a local directory is given as its files with their relative paths, in sorted order.
- `int()` is modelled on an optional sign followed by ASCII digits. Surrounding whitespace, underscores and non-ASCII digits, which Python also accepts, are not modelled.
- VisNames recognisers (VisNames.MatchSwl, VisNames.MatchPsf, VisNames.FixedDigits, VisNames.DigitRun, VisNames.DigitsThen and the name parsers built on them): `\d` in the file-name patterns is read as an ASCII digit (Strings.IsDigit). Python's `\d` also matches other Unicode decimal digits, and the model rejects names that use them.
- Discovery.StrField, Discovery.RecordFromJson, Discovery.IndexFromJson, QuadrantResolver.NumField, QuadrantResolver.OptStrField, QuadrantResolver.BoxFromJson, QuadrantResolver.TagsFromJson and QuadrantResolver.FootprintFromJson: the source decodes with plain dataclass constructors, which check no types, so a wrong-typed value such as a string bound or a numeric `obs_id` is stored as it is. The model's records hold only strings and reals, so it refuses such a value with a TypeError. Well-typed input, including everything the encoders produce, decodes as in the source.
- Strings.Upper, Extractor.Lookup and Extractor.ResolveColumn: upper-casing is ASCII only. Python's `str.upper()` also maps non-ASCII letters and can change the length ('ß' becomes "SS"). FITS extension and column names are ASCII, where the two agree. astropy's HDU lookup also strips surrounding spaces from the key and accepts "PRIMARY" for the first HDU; Extractor.Lookup matches names only.
- Creating directories (`mkdir`) has no effect in the model.
- Logging calls are not modelled.
- Iceberg tables, the Parquet result writer, the catalog assembler's statistics, the mock shear inference, the CLI and the sequential local runner are outside this model.
- Extractor.Workspace.ExtractSubtile: on failure the files written before the failing step stay, as in the source, but the contract states only the error, not which files remain. The same holds for ExtractFileInto, ExtractRefInto and ExtractAllInto. SubsetCatalogInto and WriteSubsetInto do state their failure state, through CatalogStepDisk and SubsetWritten.
- Tasks.UploadTileOutputs: on failure the objects uploaded before the failing step stay, but the contract states only the error. The same holds for Tasks.UploadManifestFiles and Tasks.UploadSubtileDirs.
- Extractor.Fetch: the cache path takes the text after the first "s3://" and drops everything up to the next '/', while the download removes every "s3://" before splitting. The two agree whenever "s3://" occurs only once, which `Extractor.DownloadSourceOf` states, and the model keeps both derivations as the source has them.
- Extractor.RewriteManifest: the rewritten manifest names "catalog.fits" even when no catalog was written, because the source always sets it.
