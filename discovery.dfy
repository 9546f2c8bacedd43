/** VIS observation discovery: grouping the recognised VIS files of a bucket
    listing by observation directory, querying the resulting index,
    serialising it for transport, and turning an observation into quadrant
    references. Listing the bucket is a parameter: the object keys in listing
    order. */
module Discovery {
  import opened Wrappers
  import opened Seqs
  import opened Strings
  import opened Dicts
  import opened Sorting
  import opened Schemas
  import opened VisNames

  /** All VIS files, grouped by observation directory, in insertion order. */
  datatype ObservationIndex = ObservationIndex(
    records: Dict<seq<VisFileRecord>>,
    bucket: string)

  // ----- grouping the listing -----

  /** The observation directory of a key: its third path segment, or "" for
      a key without any '/'; a key with one '/' has no third segment and is
      an IndexError. */
  function DirObsId(key: string): (r: Result<string>)
    ensures r.Err? <==> '/' in key && |Split(key, '/')| < 3
    ensures r.Err? ==> r.error == IndexError
    ensures r.Ok? && '/' in key ==> r.value == Split(key, '/')[2]
    ensures '/' !in key ==> r == Ok("")
  {
    if '/' in key then
      var parts := Split(key, '/');
      if |parts| >= 3 then Ok(parts[2]) else Err(IndexError)
    else Ok("")
  }

  /** Appending `rec` to the list stored under `g`, creating it if needed. */
  function AddRecord(d: Dict<seq<VisFileRecord>>, g: string, rec: VisFileRecord): (r: Dict<seq<VisFileRecord>>)
    ensures Get(r, g) == Some(GetOr(d, g, []) + [rec])
    ensures forall g' :: g' != g ==> Get(r, g') == Get(d, g')
  {
    Put(d, g, GetOr(d, g, []) + [rec])
  }

  /** The grouping `build_observation_index` performs over the listed keys,
      in listing order, with `parse` recognising file names; the first
      recognised key without a third path segment aborts it. */
  function GroupKeys(keys: seq<string>, parse: string -> Option<VisFileRecord>): (r: Result<Dict<seq<VisFileRecord>>>)
    decreases |keys|
  {
    if |keys| == 0 then Ok([])
    else
      match GroupKeys(keys[..|keys| - 1], parse)
      case Err(e) => Err(e)
      case Ok(d) =>
        var key := keys[|keys| - 1];
        match parse(key)
        case None => Ok(d)
        case Some(rec) =>
          match DirObsId(key)
          case Err(e) => Err(e)
          case Ok(g) => Ok(AddRecord(d, g, rec))
  }

  /** Grouping fails exactly when some recognised key has no observation
      directory. */
  lemma {:induction false} GroupKeysFails(keys: seq<string>, parse: string -> Option<VisFileRecord>)
    ensures GroupKeys(keys, parse).Err? <==>
      exists i :: 0 <= i < |keys| && parse(keys[i]).Some? && DirObsId(keys[i]).Err?
  {
    if |keys| > 0 {
      GroupKeysFails(keys[..|keys| - 1], parse);
      UnplacedKeySnoc(keys, parse);
    }
  }

  lemma UnplacedKeySnoc(keys: seq<string>, parse: string -> Option<VisFileRecord>)
    requires |keys| > 0
    ensures var n := |keys| - 1;
      (exists i :: 0 <= i < |keys| && parse(keys[i]).Some? && DirObsId(keys[i]).Err?) <==>
      (exists i :: 0 <= i < n && parse(keys[..n][i]).Some? && DirObsId(keys[..n][i]).Err?)
        || (parse(keys[n]).Some? && DirObsId(keys[n]).Err?)
  {
    var n := |keys| - 1;
    assert forall i :: 0 <= i < n ==> keys[..n][i] == keys[i];
  }

  /** A grouping has distinct observation keys. */
  lemma {:induction false} GroupKeysDistinct(keys: seq<string>, parse: string -> Option<VisFileRecord>)
    requires GroupKeys(keys, parse).Ok?
    ensures DistinctKeys(GroupKeys(keys, parse).value)
  {
    if |keys| > 0 {
      var init := keys[..|keys| - 1];
      var key := keys[|keys| - 1];
      GroupKeysDistinct(init, parse);
      var d := GroupKeys(init, parse).value;
      if parse(key).Some? {
        var g0 := DirObsId(key).value;
        PutDistinct(d, g0, GetOr(d, g0, []) + [parse(key).value]);
      }
    }
  }

  /** Every grouped record was parsed from a listed key in that record's
      directory. */
  lemma {:induction false} GroupKeysSound(keys: seq<string>, parse: string -> Option<VisFileRecord>, g: string, rec: VisFileRecord)
    requires GroupKeys(keys, parse).Ok?
    requires rec in GetOr(GroupKeys(keys, parse).value, g, [])
    ensures exists i :: 0 <= i < |keys| && parse(keys[i]) == Some(rec) && DirObsId(keys[i]) == Ok(g)
  {
    if |keys| > 0 {
      var n := |keys| - 1;
      var init := keys[..n];
      var key := keys[n];
      var d := GroupKeys(init, parse).value;
      var r := GroupKeys(keys, parse).value;
      if parse(key).None? {
        assert r == d;
        GroupKeysSound(init, parse, g, rec);
        var i :| 0 <= i < |init| && parse(init[i]) == Some(rec) && DirObsId(init[i]) == Ok(g);
        assert keys[i] == init[i];
      } else {
        var g0 := DirObsId(key).value;
        var rec0 := parse(key).value;
        assert r == AddRecord(d, g0, rec0);
        if g == g0 && rec == rec0 {
          assert parse(keys[n]) == Some(rec) && DirObsId(keys[n]) == Ok(g);
        } else {
          assert rec in GetOr(d, g, []);
          GroupKeysSound(init, parse, g, rec);
          var i :| 0 <= i < |init| && parse(init[i]) == Some(rec) && DirObsId(init[i]) == Ok(g);
          assert keys[i] == init[i];
        }
      }
    }
  }

  /** Every recognised key's record is grouped under its directory. */
  lemma {:induction false} GroupKeysComplete(keys: seq<string>, parse: string -> Option<VisFileRecord>, i: int)
    requires GroupKeys(keys, parse).Ok? && 0 <= i < |keys| && parse(keys[i]).Some?
    ensures DirObsId(keys[i]).Ok?
    ensures parse(keys[i]).value in GetOr(GroupKeys(keys, parse).value, DirObsId(keys[i]).value, [])
  {
    var init := keys[..|keys| - 1];
    var key := keys[|keys| - 1];
    var d := GroupKeys(init, parse).value;
    var r := GroupKeys(keys, parse).value;
    if i < |keys| - 1 {
      assert init[i] == keys[i];
      GroupKeysComplete(init, parse, i);
      var g := DirObsId(keys[i]).value;
      if parse(key).Some? {
        var g0 := DirObsId(key).value;
        if g == g0 {
          assert GetOr(r, g, []) == GetOr(d, g, []) + [parse(key).value];
        } else {
          assert GetOr(r, g, []) == GetOr(d, g, []);
        }
      }
    } else {
      var g := DirObsId(key).value;
      assert GetOr(r, g, []) == GetOr(d, g, []) + [parse(key).value];
    }
  }

  /** The bucket of a base URI: every "s3://" removed, then the text before
      the first '/'. */
  function BucketOf(uri: string): (b: string)
    ensures '/' !in b
  {
    Partition(RemoveAll(uri, "s3://"), '/').0
  }

  /** `build_observation_index` over a listing: the loop over the listed
      keys that appends each recognised record to its directory's list. */
  method BuildObservationIndex(visBaseUri: string, keys: seq<string>) returns (r: Result<ObservationIndex>)
    ensures r.Ok? <==> GroupKeys(keys, ParseVisFilename).Ok?
    ensures r.Ok? ==> r.value == ObservationIndex(GroupKeys(keys, ParseVisFilename).value, BucketOf(visBaseUri))
  {
    var bucket := BucketOf(visBaseUri);
    var records: Dict<seq<VisFileRecord>> := [];
    var i := 0;
    while i < |keys|
      invariant 0 <= i <= |keys|
      invariant GroupKeys(keys[..i], ParseVisFilename) == Ok(records)
    {
      assert keys[..i + 1][..i] == keys[..i];
      var key := keys[i];
      var record := ParseVisFilename(key);
      if record.Some? {
        var dirObsId := DirObsId(key);
        if dirObsId.Err? {
          GroupKeysPrefixFails(keys, ParseVisFilename, i + 1);
          return Err(dirObsId.error);
        }
        records := Put(records, dirObsId.value, GetOr(records, dirObsId.value, []) + [record.value]);
      }
      i := i + 1;
    }
    assert keys[..i] == keys;
    r := Ok(ObservationIndex(records, bucket));
  }

  /** A failure on a prefix of the listing is a failure on the whole of it. */
  lemma {:induction false} GroupKeysPrefixFails(keys: seq<string>, parse: string -> Option<VisFileRecord>, n: int)
    requires 0 <= n <= |keys| && GroupKeys(keys[..n], parse).Err?
    ensures GroupKeys(keys, parse).Err?
    decreases |keys| - n
  {
    if n < |keys| {
      assert keys[..n + 1][..n] == keys[..n];
      GroupKeysPrefixFails(keys, parse, n + 1);
    } else {
      assert keys[..n] == keys;
    }
  }

  // ----- queries -----

  /** The records of one observation; an unknown observation has none. */
  function RecordsOf(idx: ObservationIndex, obsId: string): seq<VisFileRecord> {
    GetOr(idx.records, obsId, [])
  }

  /** `obs_ids()`: the observation ids, sorted. */
  function ObsIds(idx: ObservationIndex): (ids: seq<string>)
    ensures multiset(ids) == multiset(Keys(idx.records))
    ensures SortedBy(ids, StrLe)
  {
    var ks := Keys(idx.records);
    StrLeTotalOrder();
    SortBySorted(ks, StrLe);
    SortBy(ks, StrLe)
  }

  /** The observation ids of an index with distinct keys are distinct. */
  lemma ObsIdsDistinct(idx: ObservationIndex)
    requires DistinctKeys(idx.records)
    ensures Distinct(ObsIds(idx))
  {
    DistinctKeysDistinct(idx.records);
    SortByDistinct(Keys(idx.records), StrLe);
  }

  /** `recs[i]` is the first PSF record. */
  predicate FirstPsfAt(recs: seq<VisFileRecord>, i: int) {
    0 <= i < |recs| && recs[i].fileType == "PSF" && forall j :: 0 <= j < i ==> recs[j].fileType != "PSF"
  }

  /** `get_psf_key`: the key of the observation's first PSF record. */
  function GetPsfKey(idx: ObservationIndex, obsId: string): (k: Option<string>)
    ensures var recs := RecordsOf(idx, obsId);
      k.None? <==> forall i :: 0 <= i < |recs| ==> recs[i].fileType != "PSF"
    ensures var recs := RecordsOf(idx, obsId);
      k.Some? ==> exists i :: FirstPsfAt(recs, i) && recs[i].s3Key == k.value
  {
    var recs := RecordsOf(idx, obsId);
    match FirstMatch(recs, (r: VisFileRecord) => r.fileType == "PSF")
    case None => None
    case Some(i) => Some(recs[i].s3Key)
  }

  predicate FileMatches(r: VisFileRecord, fileType: string, dither: string, ccd: string) {
    r.fileType == fileType && r.dither == dither && r.ccd == ccd
  }

  /** `recs[i]` is the first record of that type, dither and CCD. */
  predicate FirstFileAt(recs: seq<VisFileRecord>, i: int, fileType: string, dither: string, ccd: string) {
    && 0 <= i < |recs| && FileMatches(recs[i], fileType, dither, ccd)
    && forall j :: 0 <= j < i ==> !FileMatches(recs[j], fileType, dither, ccd)
  }

  /** `get_file`: the key of the observation's first record of that type,
      dither and CCD. */
  function GetFile(idx: ObservationIndex, obsId: string, fileType: string, dither: string, ccd: string): (k: Option<string>)
    ensures var recs := RecordsOf(idx, obsId);
      k.None? <==> forall i :: 0 <= i < |recs| ==> !FileMatches(recs[i], fileType, dither, ccd)
    ensures var recs := RecordsOf(idx, obsId);
      k.Some? ==> exists i :: FirstFileAt(recs, i, fileType, dither, ccd) && recs[i].s3Key == k.value
  {
    var recs := RecordsOf(idx, obsId);
    match FirstMatch(recs, (r: VisFileRecord) => FileMatches(r, fileType, dither, ccd))
    case None => None
    case Some(i) => Some(recs[i].s3Key)
  }

  /** The (dither, ccd) pair of every DET record, in record order. */
  function DetPairs(recs: seq<VisFileRecord>): (ps: seq<(string, string)>)
    ensures forall p :: p in ps <==> exists r :: r in recs && r.fileType == "DET" && (r.dither, r.ccd) == p
  {
    if |recs| == 0 then []
    else
      var last := recs[|recs| - 1];
      assert recs == recs[..|recs| - 1] + [last];
      DetPairs(recs[..|recs| - 1]) + (if last.fileType == "DET" then [(last.dither, last.ccd)] else [])
  }

  /** `get_dither_ccd_pairs`: the distinct (dither, ccd) pairs having a DET
      file, in tuple order. */
  function DitherCcdPairs(idx: ObservationIndex, obsId: string): (ps: seq<(string, string)>)
    ensures SortedBy(ps, PairLe) && Distinct(ps)
    ensures forall p :: p in ps <==>
      exists r :: r in RecordsOf(idx, obsId) && r.fileType == "DET" && (r.dither, r.ccd) == p
  {
    var d := Dedup(DetPairs(RecordsOf(idx, obsId)));
    PairLeTotalOrder();
    SortBySorted(d, PairLe);
    SortByDistinct(d, PairLe);
    var r := SortBy(d, PairLe);
    assert forall p :: p in r <==> p in d by {
      forall p ensures p in r <==> p in d {
        assert p in r <==> p in multiset(r);
        assert p in d <==> p in multiset(d);
      }
    }
    r
  }

  /** One more record adds its pair to the distinct DET pairs when it is a
      DET record with a pair not yet seen. */
  lemma DedupDetPairsStep(recs: seq<VisFileRecord>, i: int)
    requires 0 <= i < |recs|
    ensures var before := Dedup(DetPairs(recs[..i]));
      var p := (recs[i].dither, recs[i].ccd);
      Dedup(DetPairs(recs[..i + 1]))
        == if recs[i].fileType == "DET" && p !in before then before + [p] else before
  {
    var rec := recs[i];
    assert recs[..i + 1][..i] == recs[..i];
    var before := DetPairs(recs[..i]);
    if rec.fileType == "DET" {
      var after := before + [(rec.dither, rec.ccd)];
      assert DetPairs(recs[..i + 1]) == after;
      assert after[..|after| - 1] == before;
    } else {
      assert DetPairs(recs[..i + 1]) == before;
    }
  }

  /** The loop of `get_dither_ccd_pairs`: collect the pairs into a set, then
      sort it. */
  method GetDitherCcdPairs(idx: ObservationIndex, obsId: string) returns (ps: seq<(string, string)>)
    ensures ps == DitherCcdPairs(idx, obsId)
  {
    var recs := RecordsOf(idx, obsId);
    var pairs: seq<(string, string)> := [];
    var i := 0;
    while i < |recs|
      invariant 0 <= i <= |recs|
      invariant pairs == Dedup(DetPairs(recs[..i]))
    {
      DedupDetPairsStep(recs, i);
      var rec := recs[i];
      if rec.fileType == "DET" && (rec.dither, rec.ccd) !in pairs {
        pairs := pairs + [(rec.dither, rec.ccd)];
      }
      i := i + 1;
    }
    assert recs[..i] == recs;
    ps := SortBy(pairs, PairLe);
  }

  // ----- quadrant references -----

  function S3Uri(bucket: string, key: string): string {
    "s3://" + bucket + "/" + key
  }

  /** A found, non-empty key as an s3 URI, anything else as "". */
  function UriOrEmpty(bucket: string, k: Option<string>): (u: string)
    ensures u == "" <==> k.None? || k.value == ""
  {
    if k.Some? && k.value != "" then S3Uri(bucket, k.value) else ""
  }

  predicate HasDetKey(idx: ObservationIndex, obsId: string, p: (string, string)) {
    var k := GetFile(idx, obsId, "DET", p.0, p.1);
    k.Some? && k.value != ""
  }

  /** The reference `build_quadrant_refs` makes for one (dither, ccd) pair:
      the quadrant is not known from the listing and is "TBD". */
  function RefFor(idx: ObservationIndex, obsId: string, p: (string, string)): QuadrantRef {
    QuadrantRef(
      UriOrEmpty(idx.bucket, GetFile(idx, obsId, "DET", p.0, p.1)),
      UriOrEmpty(idx.bucket, GetFile(idx, obsId, "BKG", p.0, p.1)),
      UriOrEmpty(idx.bucket, GetFile(idx, obsId, "WGT", p.0, p.1)),
      UriOrEmpty(idx.bucket, GetPsfKey(idx, obsId)),
      "TBD", "", "", "")
  }

  lemma S3UriPrefix(bucket: string, key: string)
    ensures StartsWith(S3Uri(bucket, key), "s3://")
  {
    assert S3Uri(bucket, key)[..5] == "s3://";
  }

  /** One reference per pair that has a DET key, in pair order; each has an
      s3 science path and the placeholder quadrant. */
  function RefsFor(idx: ObservationIndex, obsId: string, pairs: seq<(string, string)>): (refs: seq<QuadrantRef>)
    ensures |refs| <= |pairs|
    ensures forall q :: q in refs <==>
      exists p :: p in pairs && HasDetKey(idx, obsId, p) && q == RefFor(idx, obsId, p)
    ensures forall q :: q in refs ==> q.quadrant == "TBD" && StartsWith(q.sciPath, "s3://")
  {
    if |pairs| == 0 then []
    else
      var p := pairs[|pairs| - 1];
      assert pairs == pairs[..|pairs| - 1] + [p];
      var k := GetFile(idx, obsId, "DET", p.0, p.1);
      if k.Some? && k.value != "" then
        S3UriPrefix(idx.bucket, k.value);
        RefsFor(idx, obsId, pairs[..|pairs| - 1]) + [RefFor(idx, obsId, p)]
      else
        RefsFor(idx, obsId, pairs[..|pairs| - 1])
  }

  /** One more pair appends its reference when it has a DET key. */
  lemma RefsForSnoc(idx: ObservationIndex, obsId: string, pairs: seq<(string, string)>, i: int)
    requires 0 <= i < |pairs|
    ensures RefsFor(idx, obsId, pairs[..i + 1]) == RefsFor(idx, obsId, pairs[..i])
      + (if HasDetKey(idx, obsId, pairs[i]) then [RefFor(idx, obsId, pairs[i])] else [])
  {
    assert pairs[..i + 1][..i] == pairs[..i];
  }

  /** `build_quadrant_refs`: one reference per DET pair of the observation,
      in pair order. */
  method BuildQuadrantRefs(idx: ObservationIndex, obsId: string) returns (refs: seq<QuadrantRef>)
    ensures refs == RefsFor(idx, obsId, DitherCcdPairs(idx, obsId))
  {
    var pairs := GetDitherCcdPairs(idx, obsId);
    var psfKey := GetPsfKey(idx, obsId);
    refs := [];
    var i := 0;
    while i < |pairs|
      invariant 0 <= i <= |pairs|
      invariant refs == RefsFor(idx, obsId, pairs[..i])
    {
      RefsForSnoc(idx, obsId, pairs, i);
      var (dither, ccd) := pairs[i];
      var detKey := GetFile(idx, obsId, "DET", dither, ccd);
      var bkgKey := GetFile(idx, obsId, "BKG", dither, ccd);
      var wgtKey := GetFile(idx, obsId, "WGT", dither, ccd);
      if detKey.Some? && detKey.value != "" {
        refs := refs + [QuadrantRef(
          S3Uri(idx.bucket, detKey.value),
          UriOrEmpty(idx.bucket, bkgKey),
          UriOrEmpty(idx.bucket, wgtKey),
          UriOrEmpty(idx.bucket, psfKey),
          "TBD", "", "", "")];
      }
      i := i + 1;
    }
    assert pairs[..i] == pairs;
  }

  // ----- serialisation -----

  function RecordToJson(r: VisFileRecord): Json {
    JObj([("file_type", JStr(r.fileType)), ("obs_id", JStr(r.obsId)), ("dither", JStr(r.dither)),
          ("ccd", JStr(r.ccd)), ("timestamp", JStr(r.timestamp)), ("s3_key", JStr(r.s3Key))])
  }

  /** The keyword parameters of the record's constructor. */
  predicate IsRecordField(k: string) {
    k == "file_type" || k == "obs_id" || k == "dither" || k == "ccd" || k == "timestamp" || k == "s3_key"
  }

  /** A string field of a keyword-argument dict: missing is a TypeError. */
  function StrField(fields: Dict<Json>, name: string): (r: Result<string>)
    ensures r.Ok? <==> Get(fields, name).Some? && Get(fields, name).value.JStr?
    ensures r.Ok? ==> Get(fields, name) == Some(JStr(r.value))
  {
    var v := Get(fields, name);
    if v.Some? && v.value.JStr? then Ok(v.value.s) else Err(TypeError)
  }

  /** `VISFileRecord(**d)`: a dict holding only the six field names, each
      of them present. */
  function RecordFromJson(j: Json): (r: Result<VisFileRecord>)
    ensures r.Ok? ==> j.JObj?
    ensures r.Ok? ==> forall i :: 0 <= i < |j.fields| ==> IsRecordField(j.fields[i].0)
    ensures r.Ok? ==> (StrField(j.fields, "file_type") == Ok(r.value.fileType)
      && StrField(j.fields, "obs_id") == Ok(r.value.obsId)
      && StrField(j.fields, "dither") == Ok(r.value.dither)
      && StrField(j.fields, "ccd") == Ok(r.value.ccd)
      && StrField(j.fields, "timestamp") == Ok(r.value.timestamp)
      && StrField(j.fields, "s3_key") == Ok(r.value.s3Key))
    ensures j.JObj? && (exists i :: 0 <= i < |j.fields| && !IsRecordField(j.fields[i].0)) ==> r == Err(TypeError)
  {
    if !j.JObj? then Err(TypeError)
    else if exists i :: 0 <= i < |j.fields| && !IsRecordField(j.fields[i].0) then Err(TypeError)
    else
      match StrField(j.fields, "file_type")
      case Err(e) => Err(e)
      case Ok(ft) =>
      match StrField(j.fields, "obs_id")
      case Err(e) => Err(e)
      case Ok(o) =>
      match StrField(j.fields, "dither")
      case Err(e) => Err(e)
      case Ok(d) =>
      match StrField(j.fields, "ccd")
      case Err(e) => Err(e)
      case Ok(c) =>
      match StrField(j.fields, "timestamp")
      case Err(e) => Err(e)
      case Ok(t) =>
      match StrField(j.fields, "s3_key")
      case Err(e) => Err(e)
      case Ok(k) => Ok(VisFileRecord(ft, o, d, c, t, k))
  }

  lemma RecordRoundTrip(r: VisFileRecord)
    ensures RecordFromJson(RecordToJson(r)) == Ok(r)
  {
    var f := RecordToJson(r).fields;
    RecordToJsonFields(r);
    assert forall i :: 0 <= i < |f| ==> IsRecordField(f[i].0);
    assert !exists i :: 0 <= i < |f| && !IsRecordField(f[i].0);
    assert StrField(f, "file_type") == Ok(r.fileType) && StrField(f, "obs_id") == Ok(r.obsId);
    assert StrField(f, "dither") == Ok(r.dither) && StrField(f, "ccd") == Ok(r.ccd);
    assert StrField(f, "timestamp") == Ok(r.timestamp) && StrField(f, "s3_key") == Ok(r.s3Key);
  }

  /** The encoded record holds exactly the six names, each with its field. */
  lemma RecordToJsonFields(r: VisFileRecord)
    ensures var f := RecordToJson(r).fields;
      && Get(f, "file_type") == Some(JStr(r.fileType))
      && Get(f, "obs_id") == Some(JStr(r.obsId))
      && Get(f, "dither") == Some(JStr(r.dither))
      && Get(f, "ccd") == Some(JStr(r.ccd))
      && Get(f, "timestamp") == Some(JStr(r.timestamp))
      && Get(f, "s3_key") == Some(JStr(r.s3Key))
  {
    var f := RecordToJson(r).fields;
    var t5: Dict<Json> := [("s3_key", JStr(r.s3Key))];
    var t4 := [("timestamp", JStr(r.timestamp))] + t5;
    var t3 := [("ccd", JStr(r.ccd))] + t4;
    var t2 := [("dither", JStr(r.dither))] + t3;
    var t1 := [("obs_id", JStr(r.obsId))] + t2;
    assert f == [("file_type", JStr(r.fileType))] + t1;
    GetCons("file_type", JStr(r.fileType), t1, "file_type");
    GetCons("file_type", JStr(r.fileType), t1, "obs_id");
    GetCons("obs_id", JStr(r.obsId), t2, "obs_id");
    GetCons("file_type", JStr(r.fileType), t1, "dither");
    GetCons("obs_id", JStr(r.obsId), t2, "dither");
    GetCons("dither", JStr(r.dither), t3, "dither");
    GetCons("file_type", JStr(r.fileType), t1, "ccd");
    GetCons("obs_id", JStr(r.obsId), t2, "ccd");
    GetCons("dither", JStr(r.dither), t3, "ccd");
    GetCons("ccd", JStr(r.ccd), t4, "ccd");
    GetCons("file_type", JStr(r.fileType), t1, "timestamp");
    GetCons("obs_id", JStr(r.obsId), t2, "timestamp");
    GetCons("dither", JStr(r.dither), t3, "timestamp");
    GetCons("ccd", JStr(r.ccd), t4, "timestamp");
    GetCons("timestamp", JStr(r.timestamp), t5, "timestamp");
    GetCons("file_type", JStr(r.fileType), t1, "s3_key");
    GetCons("obs_id", JStr(r.obsId), t2, "s3_key");
    GetCons("dither", JStr(r.dither), t3, "s3_key");
    GetCons("ccd", JStr(r.ccd), t4, "s3_key");
    GetCons("timestamp", JStr(r.timestamp), t5, "s3_key");
    GetCons("s3_key", JStr(r.s3Key), [], "s3_key");
  }

  function RecordsToJson(recs: seq<VisFileRecord>): (j: seq<Json>)
    ensures |j| == |recs| && forall i :: 0 <= i < |recs| ==> j[i] == RecordToJson(recs[i])
  {
    if |recs| == 0 then [] else [RecordToJson(recs[0])] + RecordsToJson(recs[1..])
  }

  /** `[VISFileRecord(**rd) for rd in items]`: the first bad item fails the list. */
  function RecordsFromJson(items: seq<Json>): (r: Result<seq<VisFileRecord>>)
    ensures r.Ok? ==> |r.value| == |items|
  {
    if |items| == 0 then Ok([])
    else
      match RecordFromJson(items[0])
      case Err(e) => Err(e)
      case Ok(rec) =>
        match RecordsFromJson(items[1..])
        case Err(e) => Err(e)
        case Ok(rest) => Ok([rec] + rest)
  }

  lemma {:induction false} RecordsRoundTrip(recs: seq<VisFileRecord>)
    ensures RecordsFromJson(RecordsToJson(recs)) == Ok(recs)
  {
    if |recs| > 0 {
      RecordRoundTrip(recs[0]);
      assert RecordsToJson(recs)[1..] == RecordsToJson(recs[1..]);
      RecordsRoundTrip(recs[1..]);
      assert recs == [recs[0]] + recs[1..];
    }
  }

  /** The "records" dict of `to_dict`: each observation's records encoded. */
  function GroupsToJson(d: Dict<seq<VisFileRecord>>): Dict<Json> {
    seq(|d|, i requires 0 <= i < |d| => (d[i].0, JList(RecordsToJson(d[i].1))))
  }

  /** `to_dict`. */
  function IndexToJson(idx: ObservationIndex): Json {
    JObj([("bucket", JStr(idx.bucket)), ("records", JObj(GroupsToJson(idx.records)))])
  }

  /** The loop of `from_dict` over the "records" items: each observation's
      list is decoded and stored under its key. An empty dict or string
      iterates to no records; any other non-list fails, as `**` of a
      character or a key, or iterating a number, does. */
  function GroupsFromJson(items: Dict<Json>): (r: Result<Dict<seq<VisFileRecord>>>)
    decreases |items|
  {
    if |items| == 0 then Ok([])
    else
      match GroupsFromJson(items[..|items| - 1])
      case Err(e) => Err(e)
      case Ok(d) =>
        var (obsId, v) := items[|items| - 1];
        match GroupFromJson(v)
        case Err(e) => Err(e)
        case Ok(recs) => Ok(Put(d, obsId, recs))
  }

  /** `[VISFileRecord(**rd) for rd in rec_dicts]` for one observation. */
  function GroupFromJson(v: Json): Result<seq<VisFileRecord>> {
    if v == JObj([]) || v == JStr("") then Ok([])
    else if !v.JList? then Err(TypeError)
    else RecordsFromJson(v.items)
  }

  /** Decoding one more item decodes that item's group after the others. */
  lemma GroupsFromJsonAt(items: Dict<Json>, i: int)
    requires 0 <= i < |items|
    ensures GroupsFromJson(items[..i + 1]) ==
      match GroupsFromJson(items[..i])
      case Err(e) => Err(e)
      case Ok(d) =>
        match GroupFromJson(items[i].1)
        case Err(e) => Err(e)
        case Ok(recs) => Ok(Put(d, items[i].0, recs))
  {
    assert items[..i + 1][..i] == items[..i];
  }

  /** An observation stored as an empty dict or an empty string decodes to
      no records, since iterating either yields nothing. */
  lemma GroupsEmptyIterable(obsId: string, v: Json)
    requires v == JObj([]) || v == JStr("")
    ensures GroupsFromJson([(obsId, v)]) == Ok([(obsId, [])])
  {
    assert [(obsId, v)][..0] == [];
  }

  /** `from_dict`: a dict with a "bucket" and a "records" dict. */
  function IndexFromJson(j: Json): (r: Result<ObservationIndex>)
    ensures r.Ok? ==> j.JObj? && Get(j.fields, "bucket") == Some(JStr(r.value.bucket))
  {
    if !j.JObj? then Err(TypeError)
    else
      match Get(j.fields, "bucket")
      case None => Err(KeyError)
      case Some(b) =>
        if !b.JStr? then Err(TypeError)
        else
          match Get(j.fields, "records")
          case None => Err(KeyError)
          case Some(recs) =>
            if !recs.JObj? then Err(AttributeError)
            else
              match GroupsFromJson(recs.fields)
              case Err(e) => Err(e)
              case Ok(d) => Ok(ObservationIndex(d, b.s))
  }

  /** `from_dict` as the loop it is. */
  method ObservationIndexFromDict(j: Json) returns (r: Result<ObservationIndex>)
    ensures r == IndexFromJson(j)
  {
    if !j.JObj? {
      return Err(TypeError);
    }
    var b := Get(j.fields, "bucket");
    if b.None? {
      return Err(KeyError);
    }
    if !b.value.JStr? {
      return Err(TypeError);
    }
    var recs := Get(j.fields, "records");
    if recs.None? {
      return Err(KeyError);
    }
    if !recs.value.JObj? {
      return Err(AttributeError);
    }
    var items := recs.value.fields;
    var records: Dict<seq<VisFileRecord>> := [];
    var i := 0;
    while i < |items|
      invariant 0 <= i <= |items|
      invariant GroupsFromJson(items[..i]) == Ok(records)
    {
      GroupsFromJsonAt(items, i);
      var (obsId, v) := items[i];
      var decoded := GroupFromJson(v);
      if decoded.Err? {
        GroupsPrefixFails(items, i + 1);
        return Err(decoded.error);
      }
      records := Put(records, obsId, decoded.value);
      i := i + 1;
    }
    assert items[..i] == items;
    r := Ok(ObservationIndex(records, b.value.s));
  }

  lemma {:induction false} GroupsPrefixFails(items: Dict<Json>, n: int)
    requires 0 <= n <= |items| && GroupsFromJson(items[..n]).Err?
    ensures GroupsFromJson(items).Err? && GroupsFromJson(items).error == GroupsFromJson(items[..n]).error
    decreases |items| - n
  {
    if n < |items| {
      assert items[..n + 1][..n] == items[..n];
      GroupsPrefixFails(items, n + 1);
    } else {
      assert items[..n] == items;
    }
  }

  /** Decoding the encoded groups of a dict with distinct keys gives the
      dict back, in the same order. */
  lemma {:induction false} GroupsRoundTrip(d: Dict<seq<VisFileRecord>>)
    requires DistinctKeys(d)
    ensures GroupsFromJson(GroupsToJson(d)) == Ok(d)
    decreases |d|
  {
    if |d| > 0 {
      var n := |d| - 1;
      DistinctKeysLast(d);
      GroupsRoundTrip(d[..n]);
      assert d == d[..n] + [(d[n].0, d[n].1)];
      GroupsRoundTripStep(d[..n], d[n].0, d[n].1);
    }
  }

  /** Appending a new observation keeps the round trip. */
  lemma GroupsRoundTripStep(d: Dict<seq<VisFileRecord>>, k: string, recs: seq<VisFileRecord>)
    requires k !in Keys(d)
    requires GroupsFromJson(GroupsToJson(d)) == Ok(d)
    ensures GroupsFromJson(GroupsToJson(d + [(k, recs)])) == Ok(d + [(k, recs)])
  {
    var e := d + [(k, recs)];
    assert e[..|d|] == d;
    GroupsToJsonSnoc(e);
    RecordsRoundTrip(recs);
    GroupsFromJsonSnoc(GroupsToJson(d), k, RecordsToJson(recs));
    PutNew(d, k, recs);
  }

  lemma GroupsToJsonSnoc(d: Dict<seq<VisFileRecord>>)
    requires |d| > 0
    ensures GroupsToJson(d) == GroupsToJson(d[..|d| - 1]) + [(d[|d| - 1].0, JList(RecordsToJson(d[|d| - 1].1)))]
  {
    var n := |d| - 1;
    assert forall i :: 0 <= i < n ==> d[..n][i] == d[i];
  }

  lemma GroupsFromJsonSnoc(items: Dict<Json>, k: string, xs: seq<Json>)
    ensures GroupsFromJson(items + [(k, JList(xs))]) ==
      match GroupsFromJson(items)
      case Err(e) => Err(e)
      case Ok(d) =>
        match RecordsFromJson(xs)
        case Err(e) => Err(e)
        case Ok(recs) => Ok(Put(d, k, recs))
  {
    assert (items + [(k, JList(xs))])[..|items|] == items;
  }

  /** `from_dict(to_dict(idx)) == idx` for every index Python can build. */
  lemma IndexRoundTrip(idx: ObservationIndex)
    requires DistinctKeys(idx.records)
    ensures IndexFromJson(IndexToJson(idx)) == Ok(idx)
  {
    var groups := JObj(GroupsToJson(idx.records));
    var rest: Dict<Json> := [("records", groups)];
    GetCons("bucket", JStr(idx.bucket), rest, "bucket");
    GetCons("bucket", JStr(idx.bucket), rest, "records");
    GetCons("records", groups, [], "records");
    GroupsRoundTrip(idx.records);
  }
}
