/** S3 URI handling and the uploads of pipeline output into an object store,
    which skip objects that already exist when asked to. The object store
    is a map from (bucket, key) to the uploaded bytes; the local files are
    given with their bytes. */
module Storage {
  import opened Wrappers
  import opened Seqs
  import opened Strings
  import Discovery

  /** A file's bytes, carried as they are. */
  type Blob = seq<int>

  /** The objects of the store by (bucket, key). */
  type Store = map<(string, string), Blob>

  /** `_parse_s3_uri`: the first "s3://" is removed, wherever it occurs, and
      the rest splits at its first '/' into bucket and key. */
  function ParseS3Uri(uri: string): (r: (string, string))
    ensures '/' !in r.0
    ensures var rest := RemoveFirst(uri, "s3://");
      rest == r.0 + "/" + r.1 || (rest == r.0 && r.1 == "")
  {
    var p := Partition(RemoveFirst(uri, "s3://"), '/');
    (p.0, p.2)
  }

  /** Removing a leading "s3://" leaves what follows it. */
  lemma RemoveScheme(rest: string)
    ensures RemoveFirst("s3://" + rest, "s3://") == rest
  {
    assert StartsWith("s3://" + rest, "s3://");
  }

  /** Parsing inverts `s3://bucket/key` for every bucket without '/'. */
  lemma ParseS3UriRoundTrip(bucket: string, key: string)
    requires '/' !in bucket
    ensures ParseS3Uri(Discovery.S3Uri(bucket, key)) == (bucket, key)
  {
    assert Discovery.S3Uri(bucket, key) == "s3://" + (bucket + "/" + key);
    RemoveScheme(bucket + "/" + key);
    var rest := bucket + "/" + key;
    assert rest == bucket + ['/'] + key;
    FindCharAfterFree(bucket, '/', key);
    assert rest[..|bucket|] == bucket && rest[|bucket| + 1..] == key;
  }

  /** A URI naming only a bucket parses with the empty key. */
  lemma ParseS3UriBucketOnly(bucket: string)
    requires '/' !in bucket
    ensures ParseS3Uri("s3://" + bucket) == (bucket, "")
  {
    RemoveScheme(bucket);
  }

  /** The name of a sub-tile's directory and of the last segment of its
      prefix: `f"{row}_{col}"`. */
  function RowColName(row: int, col: int): (r: string)
    ensures '/' !in r
  {
    IntToStringFree(row, '/');
    IntToStringFree(col, '/');
    IntToString(row) + "_" + IntToString(col)
  }

  /** `"row_col"` split at '_' into two integers. */
  function ParseRowColName(name: string): (r: Result<(int, int)>)
    ensures r.Ok? ==> var parts := Split(name, '_');
      |parts| >= 2 && ParseInt(parts[0]) == Some(r.value.0) && ParseInt(parts[1]) == Some(r.value.1)
  {
    match ParseFields(Split(name, '_'), 2)
    case Err(e) => Err(e)
    case Ok(vs) => Ok((vs[0], vs[1]))
  }

  /** The directory name parses back to the row and column. */
  lemma RowColNameRoundTrip(row: int, col: int)
    ensures ParseRowColName(RowColName(row, col)) == Ok((row, col))
  {
    IntToStringFree(row, '_');
    IntToStringFree(col, '_');
    var name := RowColName(row, col);
    var parts := [IntToString(row), IntToString(col)];
    assert name == Join(parts, '_');
    SplitJoin(parts, '_');
    ParseFieldsOfStrings(parts, [row, col]);
  }

  /** `build_subtile_prefix`: `{base}/{run_id}/{tile_id}/{row}_{col}` with
      every trailing '/' of the base removed. */
  function BuildSubtilePrefix(base: string, runId: string, tileId: int, row: int, col: int): (r: string)
    ensures StartsWith(r, RStrip(base, '/') + "/" + runId + "/")
    ensures AfterLast(r, '/') == RowColName(row, col)
  {
    var head := RStrip(base, '/') + "/" + runId + "/" + IntToString(tileId);
    var r := head + "/" + RowColName(row, col);
    AfterLastFree(head, '/', RowColName(row, col));
    assert r[..|RStrip(base, '/') + "/" + runId + "/"|] == RStrip(base, '/') + "/" + runId + "/";
    r
  }

  /** Trailing slashes on the base do not change the prefix. */
  lemma PrefixIgnoresTrailingSlash(base: string, runId: string, tileId: int, row: int, col: int)
    ensures BuildSubtilePrefix(base + "/", runId, tileId, row, col) == BuildSubtilePrefix(base, runId, tileId, row, col)
  {
    assert (base + "/")[..|base|] == base;
  }

  /** After the base and the run id, the prefix holds exactly two segments:
      the tile id and `row_col`. */
  lemma BuildSubtilePrefixSegments(base: string, runId: string, tileId: int, row: int, col: int)
    ensures var head := RStrip(base, '/') + "/" + runId + "/";
      var r := BuildSubtilePrefix(base, runId, tileId, row, col);
      |head| <= |r| && Split(r[|head|..], '/') == [IntToString(tileId), RowColName(row, col)]
  {
    var head := RStrip(base, '/') + "/" + runId + "/";
    var r := BuildSubtilePrefix(base, runId, tileId, row, col);
    var parts := [IntToString(tileId), RowColName(row, col)];
    IntToStringFree(tileId, '/');
    assert r == head + (IntToString(tileId) + "/" + RowColName(row, col));
    assert r[|head|..] == Join(parts, '/');
    SplitJoin(parts, '/');
  }

  /** Within one base and run, two sub-tiles share a prefix only when they
      are the same sub-tile of the same tile. */
  lemma BuildSubtilePrefixInjective(base: string, runId: string, t1: int, r1: int, c1: int, t2: int, r2: int, c2: int)
    requires BuildSubtilePrefix(base, runId, t1, r1, c1) == BuildSubtilePrefix(base, runId, t2, r2, c2)
    ensures t1 == t2 && r1 == r2 && c1 == c2
  {
    BuildSubtilePrefixSegments(base, runId, t1, r1, c1);
    BuildSubtilePrefixSegments(base, runId, t2, r2, c2);
    ParseIntToString(t1);
    ParseIntToString(t2);
    RowColNameRoundTrip(r1, c1);
    RowColNameRoundTrip(r2, c2);
  }

  /** One object upload: with `skip` and the key present nothing is written
      and the result is false; otherwise the object is (re)written and the
      result is true. */
  function PutObject(objects: Store, key: (string, string), blob: Blob, skip: bool): (r: (Store, bool))
    ensures key in r.0
    ensures r.1 ==> r.0 == objects[key := blob]
    ensures !r.1 ==> r.0 == objects
    ensures r.1 <==> !(skip && key in objects)
  {
    if skip && key in objects then (objects, false) else (objects[key := blob], true)
  }

  /** The key of a file uploaded under a prefix: `f"{base_key}/{rel}"`. */
  function ObjectKey(baseKey: string, rel: string): (k: string)
    ensures StartsWith(k, baseKey + "/") && k[|baseKey| + 1..] == rel
  {
    baseKey + "/" + rel
  }

  /** The key of the `i`-th file of a listing in `bucket`. */
  function FileKey(bucket: string, baseKey: string, files: seq<(string, Blob)>, i: int): (string, string)
    requires 0 <= i < |files|
  {
    (bucket, ObjectKey(baseKey, files[i].0))
  }

  /** The uploads of a listing, one after the other: the new store and the
      number of files written. */
  function UploadAll(objects: Store, bucket: string, baseKey: string, files: seq<(string, Blob)>, skip: bool): (r: (Store, int))
    ensures 0 <= r.1 <= |files|
    ensures |files| == 0 ==> r == (objects, 0)
    decreases |files|
  {
    if |files| == 0 then (objects, 0)
    else
      var prev := UploadAll(objects, bucket, baseKey, files[..|files| - 1], skip);
      var put := PutObject(prev.0, FileKey(bucket, baseKey, files, |files| - 1), files[|files| - 1].1, skip);
      (put.0, prev.1 + if put.1 then 1 else 0)
  }

  /** After the uploads every file of the listing has an object. */
  lemma {:induction false} UploadAllPresent(objects: Store, bucket: string, baseKey: string, files: seq<(string, Blob)>, skip: bool)
    ensures forall i :: 0 <= i < |files| ==> FileKey(bucket, baseKey, files, i) in UploadAll(objects, bucket, baseKey, files, skip).0
  {
    if |files| > 0 {
      var init := files[..|files| - 1];
      UploadAllPresent(objects, bucket, baseKey, init, skip);
      forall i | 0 <= i < |files| - 1
        ensures FileKey(bucket, baseKey, files, i) in UploadAll(objects, bucket, baseKey, files, skip).0
      {
        assert FileKey(bucket, baseKey, files, i) == FileKey(bucket, baseKey, init, i);
      }
    }
  }

  /** Objects whose key no file of the listing maps to are left as they were. */
  lemma {:induction false} UploadAllOthers(objects: Store, bucket: string, baseKey: string, files: seq<(string, Blob)>, skip: bool, key: (string, string))
    requires forall i :: 0 <= i < |files| ==> FileKey(bucket, baseKey, files, i) != key
    ensures var s := UploadAll(objects, bucket, baseKey, files, skip).0;
      (key in s <==> key in objects) && (key in objects ==> s[key] == objects[key])
  {
    if |files| > 0 {
      var init := files[..|files| - 1];
      forall i | 0 <= i < |init| ensures FileKey(bucket, baseKey, init, i) != key {
        assert FileKey(bucket, baseKey, init, i) == FileKey(bucket, baseKey, files, i);
      }
      UploadAllOthers(objects, bucket, baseKey, init, skip, key);
    }
  }

  /** With skipping, an object that existed before keeps its bytes. */
  lemma {:induction false} UploadAllKeepsExisting(objects: Store, bucket: string, baseKey: string, files: seq<(string, Blob)>, key: (string, string))
    requires key in objects
    ensures var s := UploadAll(objects, bucket, baseKey, files, true).0;
      key in s && s[key] == objects[key]
  {
    if |files| > 0 {
      UploadAllKeepsExisting(objects, bucket, baseKey, files[..|files| - 1], key);
    }
  }

  /** Without skipping every file is written. */
  lemma {:induction false} UploadAllNoSkipCount(objects: Store, bucket: string, baseKey: string, files: seq<(string, Blob)>)
    ensures UploadAll(objects, bucket, baseKey, files, false).1 == |files|
  {
    if |files| > 0 {
      UploadAllNoSkipCount(objects, bucket, baseKey, files[..|files| - 1]);
    }
  }

  /** A listing whose every key is already in the store uploads nothing
      when skipping. */
  lemma {:induction false} UploadAllAllPresent(objects: Store, bucket: string, baseKey: string, files: seq<(string, Blob)>)
    requires forall i :: 0 <= i < |files| ==> FileKey(bucket, baseKey, files, i) in objects
    ensures UploadAll(objects, bucket, baseKey, files, true) == (objects, 0)
  {
    if |files| > 0 {
      var init := files[..|files| - 1];
      forall i | 0 <= i < |init| ensures FileKey(bucket, baseKey, init, i) in objects {
        assert FileKey(bucket, baseKey, init, i) == FileKey(bucket, baseKey, files, i);
      }
      UploadAllAllPresent(objects, bucket, baseKey, init);
    }
  }

  /** Uploading the same tree again with skipping writes nothing. */
  lemma UploadAllRerun(objects: Store, bucket: string, baseKey: string, files: seq<(string, Blob)>)
    ensures var first := UploadAll(objects, bucket, baseKey, files, true).0;
      UploadAll(first, bucket, baseKey, files, true) == (first, 0)
  {
    UploadAllPresent(objects, bucket, baseKey, files, true);
    UploadAllAllPresent(UploadAll(objects, bucket, baseKey, files, true).0, bucket, baseKey, files);
  }

  /** The relative paths of a listing are distinct. */
  predicate DistinctPaths(files: seq<(string, Blob)>) {
    forall i, j :: 0 <= i < j < |files| ==> files[i].0 != files[j].0
  }

  /** The number of files of a listing with no object yet. */
  function CountNew(objects: Store, bucket: string, baseKey: string, files: seq<(string, Blob)>): (n: int)
    ensures 0 <= n <= |files|
    decreases |files|
  {
    if |files| == 0 then 0
    else
      var added := if FileKey(bucket, baseKey, files, |files| - 1) in objects then 0 else 1;
      CountNew(objects, bucket, baseKey, files[..|files| - 1]) + added
  }

  /** Distinct files have distinct keys. */
  lemma FileKeysDistinct(bucket: string, baseKey: string, files: seq<(string, Blob)>, i: int, j: int)
    requires DistinctPaths(files) && 0 <= i < j < |files|
    ensures FileKey(bucket, baseKey, files, i) != FileKey(bucket, baseKey, files, j)
  {
    var ki := ObjectKey(baseKey, files[i].0);
    var kj := ObjectKey(baseKey, files[j].0);
    assert ki[|baseKey| + 1..] == files[i].0 && kj[|baseKey| + 1..] == files[j].0;
  }

  /** With skipping, the count returned is the number of files that had no
      object before. */
  lemma {:induction false} UploadAllCountsNew(objects: Store, bucket: string, baseKey: string, files: seq<(string, Blob)>)
    requires DistinctPaths(files)
    ensures UploadAll(objects, bucket, baseKey, files, true).1 == CountNew(objects, bucket, baseKey, files)
  {
    if |files| > 0 {
      var init := files[..|files| - 1];
      var last := |files| - 1;
      UploadAllCountsNew(objects, bucket, baseKey, init);
      forall i | 0 <= i < |init| ensures FileKey(bucket, baseKey, init, i) != FileKey(bucket, baseKey, files, last) {
        FileKeysDistinct(bucket, baseKey, files, i, last);
        assert FileKey(bucket, baseKey, init, i) == FileKey(bucket, baseKey, files, i);
      }
      UploadAllOthers(objects, bucket, baseKey, init, true, FileKey(bucket, baseKey, files, last));
    }
  }

  /** The S3 store that the pipeline uploads into. */
  class ObjectStore {
    var objects: Store

    constructor (objects: Store)
      ensures this.objects == objects
    {
      this.objects := objects;
    }

    /** `head_object` followed, unless skipped, by `upload_file`. */
    method PutIfAbsent(bucket: string, key: string, blob: Blob, skip: bool) returns (uploaded: bool)
      modifies this
      ensures (objects, uploaded) == PutObject(old(objects), (bucket, key), blob, skip)
    {
      if skip && (bucket, key) in objects {
        return false;
      }
      objects := objects[(bucket, key) := blob];
      uploaded := true;
    }

    /** `upload_file(local_path, s3_uri, skip_existing)`; `content` is the
        local file's bytes, None when it does not exist, which fails only
        when the upload is attempted. */
    method UploadFile(content: Option<Blob>, uri: string, skip: bool) returns (r: Result<bool>)
      modifies this
      ensures var key := ParseS3Uri(uri);
        if skip && key in old(objects) then r == Ok(false) && objects == old(objects)
        else if content.None? then r == Err(FileNotFound) && objects == old(objects)
        else r == Ok(true) && objects == old(objects)[key := content.value]
    {
      var key := ParseS3Uri(uri);
      if skip && key in objects {
        return Ok(false);
      }
      if content.None? {
        return Err(FileNotFound);
      }
      var uploaded := PutIfAbsent(key.0, key.1, content.value, false);
      r := Ok(uploaded);
    }

    /** `upload_directory(local_dir, prefix, skip_existing)`: `files` is the
        sorted listing of the tree as (relative path, bytes); each file goes
        to `base_key/relative_path` and the result counts the writes. */
    method UploadDirectory(files: seq<(string, Blob)>, prefix: string, skip: bool) returns (uploaded: int)
      modifies this
      ensures var key := ParseS3Uri(RStrip(prefix, '/'));
        (objects, uploaded) == UploadAll(old(objects), key.0, key.1, files, skip)
    {
      var key := ParseS3Uri(RStrip(prefix, '/'));
      var bucket, baseKey := key.0, key.1;
      if |files| == 0 {
        return 0;
      }
      uploaded := 0;
      var i := 0;
      while i < |files|
        invariant 0 <= i <= |files|
        invariant (objects, uploaded) == UploadAll(old(objects), bucket, baseKey, files[..i], skip)
      {
        var put := PutIfAbsent(bucket, ObjectKey(baseKey, files[i].0), files[i].1, skip);
        if put {
          uploaded := uploaded + 1;
        }
        assert files[..i + 1][..i] == files[..i];
        i := i + 1;
      }
      assert files[..i] == files;
    }
  }
}
