/** Extraction of one sub-tile into a self-contained directory: remote files
    are cached per tile and downloaded only on a cache miss, the quadrant's
    HDUs are copied into small FITS files, the catalog is cut to the
    sub-tile's boxes, and the manifest is rewritten to relative paths.
    Opening FITS files and reading catalogs are parameters; files written are
    recorded by path in a workspace. */
module Extractor {
  import opened Wrappers
  import opened Seqs
  import opened Strings
  import opened Dicts
  import opened Schemas
  import opened Paths
  import Storage
  import opened Manifest

  // ----- the local cache -----

  /** `_ensure_local`'s cache file for an `s3://` URI: the text after the
      scheme loses everything up to its first '/', so the bucket is dropped;
      a URI without a '/' after the bucket is an IndexError. */
  function CachePath(src: string, cacheDir: string): (r: Result<string>)
    requires StartsWith(src, "s3://")
  {
    var p := Partition(src[5..], '/');
    if p.1 then Ok(PathJoin(cacheDir, p.2)) else Err(IndexError)
  }

  /** The local file `_ensure_local` returns: a path that is not an `s3://`
      URI is used as it is. */
  function LocalPathOf(src: string, cacheDir: string): (r: Result<string>)
    ensures !StartsWith(src, "s3://") ==> r == Ok(src)
  {
    if StartsWith(src, "s3://") then CachePath(src, cacheDir) else Ok(src)
  }

  /** The object a cache miss downloads: every "s3://" is removed and the
      rest splits at its first '/' into bucket and key. */
  function DownloadSource(src: string): (r: Result<(string, string)>)
    ensures r.Ok? ==> '/' !in r.value.0
  {
    var p := Partition(RemoveAll(src, "s3://"), '/');
    if p.1 then Ok((p.0, p.2)) else Err(IndexError)
  }

  /** `pat` occurs nowhere in `s`. */
  predicate Absent(s: string, pat: string) {
    forall i :: 0 <= i <= |s| ==> !StartsWith(s[i..], pat)
  }

  /** Removing a pattern that does not occur changes nothing. */
  lemma {:induction false} RemoveAllAbsent(s: string, pat: string)
    requires |pat| > 0 && Absent(s, pat)
    ensures RemoveAll(s, pat) == s
    decreases |s|
  {
    if |s| > 0 {
      assert !StartsWith(s[0..], pat);
      assert s[0..] == s;
      forall i | 0 <= i <= |s| - 1 ensures !StartsWith(s[1..][i..], pat) {
        assert s[1..][i..] == s[i + 1..];
      }
      RemoveAllAbsent(s[1..], pat);
    }
  }

  /** For `s3://bucket/key` the cache file is `cache_dir/key`: the bucket
      is dropped. */
  lemma CachePathDropsBucket(bucket: string, key: string, cacheDir: string)
    requires '/' !in bucket
    ensures LocalPathOf("s3://" + bucket + "/" + key, cacheDir) == Ok(PathJoin(cacheDir, key))
  {
    var rest := bucket + "/" + key;
    var src := "s3://" + bucket + "/" + key;
    assert src[5..] == rest;
    assert rest == bucket + ['/'] + key;
    FindCharAfterFree(bucket, '/', key);
    assert rest[|bucket| + 1..] == key;
  }

  /** For `s3://bucket/key` where "s3://" occurs nowhere else, the download
      fetches `key` from `bucket`. */
  lemma DownloadSourceOf(bucket: string, key: string)
    requires '/' !in bucket && Absent(bucket + "/" + key, "s3://")
    ensures DownloadSource("s3://" + bucket + "/" + key) == Ok((bucket, key))
  {
    var rest := bucket + "/" + key;
    var src := "s3://" + bucket + "/" + key;
    assert src[5..] == rest;
    assert StartsWith(src, "s3://");
    RemoveAllAbsent(rest, "s3://");
    assert RemoveAll(src, "s3://") == rest;
    assert rest == bucket + ['/'] + key;
    FindCharAfterFree(bucket, '/', key);
    assert rest[..|bucket|] == bucket && rest[|bucket| + 1..] == key;
  }

  /** Two URIs that differ only in their bucket share one cache file. */
  lemma CacheSharedAcrossBuckets(b1: string, b2: string, key: string, cacheDir: string)
    requires '/' !in b1 && '/' !in b2
    ensures LocalPathOf("s3://" + b1 + "/" + key, cacheDir) == LocalPathOf("s3://" + b2 + "/" + key, cacheDir)
  {
    CachePathDropsBucket(b1, key, cacheDir);
    CachePathDropsBucket(b2, key, cacheDir);
  }

  // ----- HDU selection -----

  /** An HDU: its EXTNAME, its data and its header cards. */
  datatype Hdu = Hdu(name: string, data: seq<real>, header: seq<(string, string)>)

  /** A FITS file as its list of HDUs. */
  type Fits = seq<Hdu>

  /** A new primary HDU with no data. */
  const PrimaryHdu: Hdu := Hdu("PRIMARY", [], [])

  /** `hdul[name]`: the first HDU whose name matches, ignoring case. */
  function Lookup(hdus: Fits, name: string): (r: Option<Hdu>)
    ensures r.Some? ==> r.value in hdus && Upper(r.value.name) == Upper(name)
    ensures r.None? ==> forall h :: h in hdus ==> Upper(h.name) != Upper(name)
  {
    match FirstMatch(hdus, (h: Hdu) => Upper(h.name) == Upper(name))
    case None => None
    case Some(i) => Some(hdus[i])
  }

  /** `ImageHDU(data=ext.data, header=ext.header, name=name)`: the name is
      stored upper-cased. */
  function CopyAs(h: Hdu, name: string): Hdu {
    Hdu(Upper(name), h.data, h.header)
  }

  /** The copies of the HDUs named `names` that exist, in the order of `names`. */
  function SelectNamed(hdus: Fits, names: seq<string>): (r: Fits)
    ensures |r| <= |names|
    decreases |names|
  {
    if |names| == 0 then []
    else
      var name := names[|names| - 1];
      SelectNamed(hdus, names[..|names| - 1])
        + match Lookup(hdus, name) case Some(h) => [CopyAs(h, name)] case None => []
  }

  lemma SelectNamedSnoc(hdus: Fits, names: seq<string>, i: int)
    requires 0 <= i < |names|
    ensures var ext := Lookup(hdus, names[i]);
      SelectNamed(hdus, names[..i + 1])
        == SelectNamed(hdus, names[..i]) + if ext.Some? then [CopyAs(ext.value, names[i])] else []
  {
    assert names[..i + 1][..i] == names[..i];
  }

  /** `h` copies the data and header of the source HDU `name` under its name. */
  predicate CopyOf(hdus: Fits, name: string, h: Hdu) {
    Lookup(hdus, name).Some? && h == CopyAs(Lookup(hdus, name).value, name)
  }

  /** Every HDU selected copies the HDU of one of the names. */
  lemma {:induction false} SelectNamedSound(hdus: Fits, names: seq<string>, h: Hdu)
    requires h in SelectNamed(hdus, names)
    ensures exists j :: 0 <= j < |names| && CopyOf(hdus, names[j], h)
    decreases |names|
  {
    var init := names[..|names| - 1];
    if h in SelectNamed(hdus, init) {
      SelectNamedSound(hdus, init, h);
      var j :| 0 <= j < |init| && CopyOf(hdus, init[j], h);
      assert names[j] == init[j];
    } else {
      assert CopyOf(hdus, names[|names| - 1], h);
    }
  }

  /** Every name that exists in the source is copied. */
  lemma {:induction false} SelectNamedComplete(hdus: Fits, names: seq<string>, j: int)
    requires 0 <= j < |names| && Lookup(hdus, names[j]).Some?
    ensures CopyAs(Lookup(hdus, names[j]).value, names[j]) in SelectNamed(hdus, names)
    decreases |names|
  {
    if j < |names| - 1 {
      var init := names[..|names| - 1];
      assert init[j] == names[j];
      SelectNamedComplete(hdus, init, j);
    }
  }

  /** When every name exists, one copy per name, in order. */
  lemma {:induction false} SelectNamedAllPresent(hdus: Fits, names: seq<string>)
    requires forall j :: 0 <= j < |names| ==> Lookup(hdus, names[j]).Some?
    ensures |SelectNamed(hdus, names)| == |names|
    ensures forall j :: 0 <= j < |names| ==>
      SelectNamed(hdus, names)[j] == CopyAs(Lookup(hdus, names[j]).value, names[j])
    decreases |names|
  {
    if |names| > 0 {
      var init := names[..|names| - 1];
      SelectNamedAllPresent(hdus, init);
    }
  }

  /** When no name exists, nothing is selected. */
  lemma {:induction false} SelectNamedNonePresent(hdus: Fits, names: seq<string>)
    requires forall j :: 0 <= j < |names| ==> Lookup(hdus, names[j]).None?
    ensures SelectNamed(hdus, names) == []
    decreases |names|
  {
    if |names| > 0 {
      SelectNamedNonePresent(hdus, names[..|names| - 1]);
    }
  }

  /** The extensions of one quadrant in a VIS exposure. */
  function QuadrantHduNames(q: string): seq<string> {
    [q + ".SCI", q + ".RMS", q + ".FLG"]
  }

  /** `extract_quadrant_fits`' output: a primary HDU and the quadrant's
      extensions that exist. */
  function ExtractQuadrant(hdus: Fits, q: string): (r: Fits)
    ensures 1 <= |r| <= 4 && r[0] == PrimaryHdu
  {
    [PrimaryHdu] + SelectNamed(hdus, QuadrantHduNames(q))
  }

  /** `extract_psf_fits`' output: a primary HDU and the quadrant's PSF
      extension if it exists. */
  function ExtractPsf(hdus: Fits, q: string): (r: Fits)
    ensures 1 <= |r| <= 2 && r[0] == PrimaryHdu
  {
    [PrimaryHdu] + SelectNamed(hdus, [q])
  }

  /** `extract_quadrant_fits`: the loop over the three extension names. */
  method ExtractQuadrantFits(hdus: Fits, q: string) returns (out: Fits)
    ensures out == ExtractQuadrant(hdus, q)
  {
    var names := QuadrantHduNames(q);
    out := [PrimaryHdu];
    var i := 0;
    while i < |names|
      invariant 0 <= i <= |names|
      invariant out == [PrimaryHdu] + SelectNamed(hdus, names[..i])
    {
      SelectNamedSnoc(hdus, names, i);
      var ext := Lookup(hdus, names[i]);
      if ext.Some? {
        out := out + [CopyAs(ext.value, names[i])];
      }
      i := i + 1;
    }
    assert names[..i] == names;
  }

  /** `extract_psf_fits`: one lookup. */
  method ExtractPsfFits(hdus: Fits, q: string) returns (out: Fits)
    ensures out == ExtractPsf(hdus, q)
  {
    out := [PrimaryHdu];
    var ext := Lookup(hdus, q);
    if ext.Some? {
      out := out + [CopyAs(ext.value, q)];
    }
    assert [q][..0] == [];
  }

  /** A quadrant whose extensions all exist gives the primary HDU and the
      three copies, named `q.SCI`, `q.RMS` and `q.FLG` upper-cased. */
  lemma ExtractQuadrantComplete(hdus: Fits, q: string)
    requires forall s :: s in QuadrantHduNames(q) ==> Lookup(hdus, s).Some?
    ensures var r := ExtractQuadrant(hdus, q);
      |r| == 4
      && r[1] == CopyAs(Lookup(hdus, q + ".SCI").value, q + ".SCI")
      && r[2] == CopyAs(Lookup(hdus, q + ".RMS").value, q + ".RMS")
      && r[3] == CopyAs(Lookup(hdus, q + ".FLG").value, q + ".FLG")
  {
    var names := QuadrantHduNames(q);
    assert forall j :: 0 <= j < |names| ==> names[j] in names;
    SelectNamedAllPresent(hdus, names);
  }

  /** A quadrant absent from the source gives the primary HDU alone. */
  lemma ExtractQuadrantMissing(hdus: Fits, q: string)
    requires forall s :: s in QuadrantHduNames(q) ==> Lookup(hdus, s).None?
    ensures ExtractQuadrant(hdus, q) == [PrimaryHdu]
  {
    var names := QuadrantHduNames(q);
    assert forall j :: 0 <= j < |names| ==> names[j] in names;
    SelectNamedNonePresent(hdus, names);
  }

  /** Every extension written after the primary HDU copies one of the
      quadrant's three extensions. */
  lemma ExtractQuadrantSound(hdus: Fits, q: string, k: int)
    requires 1 <= k < |ExtractQuadrant(hdus, q)|
    ensures exists s :: s in QuadrantHduNames(q) && CopyOf(hdus, s, ExtractQuadrant(hdus, q)[k])
  {
    var names := QuadrantHduNames(q);
    var h := ExtractQuadrant(hdus, q)[k];
    assert h in SelectNamed(hdus, names);
    SelectNamedSound(hdus, names, h);
    var j :| 0 <= j < |names| && CopyOf(hdus, names[j], h);
    assert names[j] in names;
  }

  /** The PSF file holds the primary HDU and the copy of HDU `q` exactly
      when the source has it. */
  lemma ExtractPsfCases(hdus: Fits, q: string)
    ensures Lookup(hdus, q).Some? ==> ExtractPsf(hdus, q) == [PrimaryHdu, CopyAs(Lookup(hdus, q).value, q)]
    ensures Lookup(hdus, q).None? ==> ExtractPsf(hdus, q) == [PrimaryHdu]
  {
    assert [q][..0] == [];
  }

  // ----- the catalog subset -----

  /** A catalog: its columns in order, each with one value per row. */
  datatype Table = Table(columns: Dict<seq<real>>, nrows: nat)

  /** Every column has one value per row. */
  predicate Rectangular(t: Table) {
    forall i :: 0 <= i < |t.columns| ==> |t.columns[i].1| == t.nrows
  }

  /** `{c.upper(): c for c in names}.get(key)`, as the index of the name
      found: a later name with the same upper-case form replaces an earlier one. */
  function LastUpperMatch(names: seq<string>, key: string): (r: Option<nat>)
    ensures r.Some? ==> r.value < |names|
  {
    if |names| == 0 then None
    else if Upper(names[|names| - 1]) == key then Some(|names| - 1)
    else LastUpperMatch(names[..|names| - 1], key)
  }

  /** The name found is the last one whose upper-case form is `key`; none
      is found when no name has it. */
  lemma {:induction false} LastUpperMatchLast(names: seq<string>, key: string)
    ensures var r := LastUpperMatch(names, key);
      && (r.Some? ==> Upper(names[r.value]) == key && forall j :: r.value < j < |names| ==> Upper(names[j]) != key)
      && (r.None? ==> forall j :: 0 <= j < |names| ==> Upper(names[j]) != key)
  {
    if |names| > 0 && Upper(names[|names| - 1]) != key {
      var init := names[..|names| - 1];
      LastUpperMatchLast(init, key);
      assert forall j :: 0 <= j < |init| ==> init[j] == names[j];
    }
  }

  /** The column a requested name resolves to: the catalog's column with the
      same upper-case form, or the name itself. */
  function ResolveColumn(t: Table, name: string): (c: string)
    ensures c == name || c in Keys(t.columns)
  {
    match LastUpperMatch(Keys(t.columns), Upper(name))
    case Some(i) => Keys(t.columns)[i]
    case None => name
  }

  /** Column lookup ignores case: the last column whose upper-case form
      matches the requested name's is the one used, and otherwise the name
      is used as given. */
  lemma ResolveColumnCases(t: Table, name: string)
    ensures (exists c :: c in Keys(t.columns) && Upper(c) == Upper(name)) ==>
      ResolveColumn(t, name) in Keys(t.columns) && Upper(ResolveColumn(t, name)) == Upper(name)
    ensures (forall c :: c in Keys(t.columns) ==> Upper(c) != Upper(name)) ==> ResolveColumn(t, name) == name
  {
    LastUpperMatchLast(Keys(t.columns), Upper(name));
  }

  /** `Column(t, c)` is the value column `c`, when the catalog has it. */
  function Column(t: Table, c: string): (r: Option<seq<real>>)
    ensures Rectangular(t) && r.Some? ==> |r.value| == t.nrows
  {
    ColumnLength(t.columns, t.nrows, c);
    Get(t.columns, c)
  }

  /** A column of a rectangular table has one value per row. */
  lemma {:induction false} ColumnLength(cols: Dict<seq<real>>, n: nat, c: string)
    ensures (forall i :: 0 <= i < |cols| ==> |cols[i].1| == n) && Get(cols, c).Some? ==> |Get(cols, c).value| == n
  {
    if |cols| > 0 && cols[0].0 != c {
      assert forall i :: 0 <= i < |cols| - 1 ==> cols[1..][i] == cols[i + 1];
      ColumnLength(cols[1..], n, c);
    }
  }

  /** A closed RA/Dec box: ((ra_min, ra_max), (dec_min, dec_max)). */
  type Box = ((real, real), (real, real))

  predicate InBox(b: Box, ra: real, dec: real) {
    b.0.0 <= ra <= b.0.1 && b.1.0 <= dec <= b.1.1
  }

  /** The indices below `n` that satisfy `p`, increasing: a boolean mask. */
  function Hits(n: nat, p: nat -> bool): (r: seq<nat>)
    ensures forall k :: 0 <= k < |r| ==> r[k] < n && p(r[k])
    ensures forall i :: 0 <= i < n && p(i) ==> i in r
    ensures forall k, l :: 0 <= k < l < |r| ==> r[k] < r[l]
  {
    if n == 0 then []
    else Hits(n - 1, p) + if p(n - 1) then [n - 1] else []
  }

  /** `col[mask]`, for the mask's indices. */
  function Take(col: seq<real>, idx: seq<nat>): (r: seq<real>)
    requires forall k :: 0 <= k < |idx| ==> idx[k] < |col|
    ensures |r| == |idx| && forall k :: 0 <= k < |idx| ==> r[k] == col[idx[k]]
  {
    seq(|idx|, k requires 0 <= k < |idx| => col[idx[k]])
  }

  /** `table[mask]`: every column cut to the selected rows. */
  function TakeRows(t: Table, idx: seq<nat>): (r: Table)
    requires Rectangular(t) && forall k :: 0 <= k < |idx| ==> idx[k] < t.nrows
    ensures Rectangular(r) && r.nrows == |idx| && Keys(r.columns) == Keys(t.columns)
  {
    var cols := seq(|t.columns|, i requires 0 <= i < |t.columns| => (t.columns[i].0, Take(t.columns[i].1, idx)));
    assert Keys(cols) == Keys(t.columns) by {
      forall i | 0 <= i < |cols| ensures Keys(cols)[i] == Keys(t.columns)[i] {
        KeysAt(cols, i);
        KeysAt(t.columns, i);
      }
    }
    Table(cols, |idx|)
  }

  /** `.astype(int)` of the selected ids: truncation toward zero. */
  function IdsAt(col: seq<real>, idx: seq<nat>): (r: seq<int>)
    requires forall k :: 0 <= k < |idx| ==> idx[k] < |col|
    ensures |r| == |idx|
  {
    seq(|idx|, k requires 0 <= k < |idx| => Trunc(col[idx[k]]))
  }

  /** The row masks of `subset_catalog`: the rows inside the extended box and
      those inside both boxes, or a KeyError when RA or Dec is missing. */
  function Masks(t: Table, ext: Box, core: Box, raCol: string, decCol: string): (r: Result<(seq<nat>, seq<nat>)>)
    requires Rectangular(t)
    ensures r.Ok? ==> forall k :: 0 <= k < |r.value.0| ==> r.value.0[k] < t.nrows
    ensures r.Ok? ==> forall k :: 0 <= k < |r.value.1| ==> r.value.1[k] < t.nrows
  {
    match (Column(t, ResolveColumn(t, raCol)), Column(t, ResolveColumn(t, decCol)))
    case (Some(ra), Some(dec)) =>
      Ok((Hits(t.nrows, (i: nat) => i < |ra| && i < |dec| && InBox(ext, ra[i], dec[i])),
          Hits(t.nrows, (i: nat) => i < |ra| && i < |dec| && InBox(ext, ra[i], dec[i]) && InBox(core, ra[i], dec[i]))))
    case _ => Err(KeyError)
  }

  /** `subset_catalog`'s default column names. */
  const DefaultRaCol: string := "RIGHT_ASCENSION"
  const DefaultDecCol: string := "DECLINATION"
  const DefaultIdCol: string := "OBJECT_ID"

  /** `subset_catalog` as a value: the subset written, the ids of the rows
      in the extended box and those also in the core box, in table order. */
  function SubsetCatalog(t: Table, ext: Box, core: Box, raCol: string, decCol: string, idCol: string)
    : (r: Result<(Table, seq<int>, seq<int>)>)
    requires Rectangular(t)
    ensures r.Ok? ==> r.value.0.nrows == |r.value.1|
  {
    match Masks(t, ext, core, raCol, decCol)
    case Err(e) => Err(e)
    case Ok((extRows, coreRows)) =>
      match Column(t, ResolveColumn(t, idCol))
      case None => Err(KeyError)
      case Some(ids) =>
        Ok((TakeRows(t, extRows), IdsAt(ids, extRows), IdsAt(ids, coreRows)))
  }

  /** The subset keeps exactly the rows inside the closed extended box, in
      table order, and the core ids are those of the rows inside both boxes. */
  lemma SubsetCatalogRows(t: Table, ext: Box, core: Box, raCol: string, decCol: string, idCol: string)
    requires Rectangular(t) && SubsetCatalog(t, ext, core, raCol, decCol, idCol).Ok?
    ensures var ra := Column(t, ResolveColumn(t, raCol)).value;
      var dec := Column(t, ResolveColumn(t, decCol)).value;
      var ids := Column(t, ResolveColumn(t, idCol)).value;
      var r := SubsetCatalog(t, ext, core, raCol, decCol, idCol).value;
      var m := Masks(t, ext, core, raCol, decCol).value;
      && |r.1| == |m.0| && |r.2| == |m.1|
      && (forall k :: 0 <= k < |m.0| ==>
            (m.0[k] < |ra| && m.0[k] < |dec| && m.0[k] < |ids|
             && InBox(ext, ra[m.0[k]], dec[m.0[k]]) && r.1[k] == Trunc(ids[m.0[k]])))
      && (forall i :: 0 <= i < t.nrows && i < |ra| && i < |dec| && InBox(ext, ra[i], dec[i]) ==> i in m.0)
      && (forall k :: 0 <= k < |m.1| ==>
            (m.1[k] < |ra| && m.1[k] < |dec| && m.1[k] < |ids|
             && InBox(ext, ra[m.1[k]], dec[m.1[k]]) && InBox(core, ra[m.1[k]], dec[m.1[k]])
             && r.2[k] == Trunc(ids[m.1[k]])))
  {
  }

  /** Every core id is also an extended id. */
  lemma SubsetCoreInExtended(t: Table, ext: Box, core: Box, raCol: string, decCol: string, idCol: string)
    requires Rectangular(t) && SubsetCatalog(t, ext, core, raCol, decCol, idCol).Ok?
    ensures var r := SubsetCatalog(t, ext, core, raCol, decCol, idCol).value;
      forall x :: x in r.2 ==> x in r.1
  {
    var r := SubsetCatalog(t, ext, core, raCol, decCol, idCol).value;
    var m := Masks(t, ext, core, raCol, decCol).value;
    forall x | x in r.2 ensures x in r.1 {
      var k :| 0 <= k < |r.2| && r.2[k] == x;
      var i := m.1[k];
      assert i in m.0;
      var l :| 0 <= l < |m.0| && m.0[l] == i;
      assert r.1[l] == x;
    }
  }

  // ----- the manifest rewrite -----

  /** The quadrant name without '-' and '.', as file names use it. */
  function SafeName(q: string): (r: string)
    ensures '-' !in r && '.' !in r
  {
    var noDash := RemoveAll(q, "-");
    var r := RemoveAll(noDash, ".");
    assert '-' !in r by {
      RemoveAllKeepsAbsent(noDash, ".", '-');
    }
    r
  }

  /** Removing a pattern does not introduce a character. */
  lemma {:induction false} RemoveAllKeepsAbsent(s: string, pat: string, c: char)
    requires |pat| > 0 && c !in s
    ensures c !in RemoveAll(s, pat)
    decreases |s|
  {
    if |s| > 0 {
      if StartsWith(s, pat) {
        RemoveAllKeepsAbsent(s[|pat|..], pat, c);
      } else {
        RemoveAllKeepsAbsent(s[1..], pat, c);
      }
    }
  }

  /** `f"{obs_id}_{dither}_{ccd}_{safe_qname}"`. */
  function ExposureStem(q: QuadrantRef): string {
    q.obsId + "_" + q.dither + "_" + q.ccd + "_" + SafeName(q.quadrant)
  }

  /** The relative path of an exposure product, or "" when the manifest
      names no source for it. */
  function ExposureRel(q: QuadrantRef, src: string, kind: string): (r: string)
    ensures src == "" <==> r == ""
  {
    if src == "" then "" else "exposures/" + ExposureStem(q) + "_" + kind + ".fits"
  }

  /** The relative path of the PSF cut-out, or "" without a PSF source. */
  function PsfRel(q: QuadrantRef): (r: string)
    ensures q.psfPath == "" <==> r == ""
  {
    if q.psfPath == "" then "" else "psf/" + q.obsId + "_" + SafeName(q.quadrant) + "_psf.fits"
  }

  /** A quadrant reference rewritten to the extracted files. */
  function RewriteRef(q: QuadrantRef): (r: QuadrantRef)
    ensures r.quadrant == q.quadrant && r.obsId == q.obsId && r.dither == q.dither && r.ccd == q.ccd
    ensures (r.sciPath == "") == (q.sciPath == "") && (r.bkgPath == "") == (q.bkgPath == "")
    ensures (r.wgtPath == "") == (q.wgtPath == "") && (r.psfPath == "") == (q.psfPath == "")
  {
    QuadrantRef(ExposureRel(q, q.sciPath, "sci"), ExposureRel(q, q.bkgPath, "bkg"),
                ExposureRel(q, q.wgtPath, "wgt"), PsfRel(q), q.quadrant, q.obsId, q.dither, q.ccd)
  }

  /** The catalog file of every extracted sub-tile. */
  const CatalogRel: string := "catalog.fits"

  /** The manifest written into the sub-tile directory. */
  function RewriteManifest(m: SubTileManifest, ids: (seq<int>, seq<int>)): (r: SubTileManifest)
    ensures r.tileId == m.tileId && r.subTileRow == m.subTileRow && r.subTileCol == m.subTileCol
    ensures r.skyBounds == m.skyBounds && r.sourceCatalog == CatalogRel
    ensures |r.quadrants| == |m.quadrants|
    ensures forall k :: 0 <= k < |m.quadrants| ==> r.quadrants[k] == RewriteRef(m.quadrants[k])
    ensures r.sourceIds == ids.0 && r.coreSourceIds == ids.1
  {
    SubTileManifest(m.tileId, m.subTileRow, m.subTileCol, m.skyBounds,
                    seq(|m.quadrants|, k requires 0 <= k < |m.quadrants| => RewriteRef(m.quadrants[k])),
                    CatalogRel, ids.0, ids.1)
  }

  /** `extraction_dir/tile_id/"row_col"`. */
  function SubtileDir(extractionDir: string, tileId: int, row: int, col: int): string {
    PathJoin(PathJoin(extractionDir, IntToString(tileId)), Storage.RowColName(row, col))
  }

  /** `extraction_dir/tile_id/_cache`: shared by all sub-tiles of a tile. */
  function CacheDir(extractionDir: string, tileId: int): string {
    PathJoin(PathJoin(extractionDir, IntToString(tileId)), "_cache")
  }

  /** The name of the rewritten manifest inside the sub-tile directory. */
  const ManifestFile: string := "manifest.yaml"

  // ----- extraction as a sequence of disk states -----

  /** A download made on a cache miss: the object fetched and its cache file. */
  datatype Download = Download(bucket: string, key: string, path: string)

  /** What extraction observes and produces: the cache files present, the
      downloads made, and the FITS files, catalogs and manifests written. */
  datatype Disk = Disk(
    cached: set<string>,
    downloads: seq<Download>,
    fits: map<string, Fits>,
    catalogs: map<string, Table>,
    manifests: map<string, SubTileManifest>)

  /** Every download lands in the cache and no cache file is downloaded twice. */
  predicate CacheValid(d: Disk) {
    && (forall i :: 0 <= i < |d.downloads| ==> d.downloads[i].path in d.cached)
    && (forall i, j :: 0 <= i < j < |d.downloads| ==> d.downloads[i].path != d.downloads[j].path)
  }

  /** `e` holds the same written files as `d`. */
  predicate SameOutputs(d: Disk, e: Disk) {
    d.fits == e.fits && d.catalogs == e.catalogs && d.manifests == e.manifests
  }

  /** `_ensure_local` on a disk: the local path and the disk after it, which
      has one more download exactly on a cache miss. */
  function Fetch(d: Disk, src: string, cacheDir: string): (r: Result<(string, Disk)>)
    ensures LocalPathOf(src, cacheDir).Err? ==> r.Err?
    ensures r.Ok? ==> LocalPathOf(src, cacheDir) == Ok(r.value.0)
    ensures r.Ok? ==> SameOutputs(d, r.value.1) && d.cached <= r.value.1.cached
    ensures r.Ok? && StartsWith(src, "s3://") ==> r.value.0 in r.value.1.cached
    ensures r.Ok? && (!StartsWith(src, "s3://") || r.value.0 in d.cached) ==> r.value.1 == d
    ensures r.Ok? && r.value.1 != d ==>
      (r.value.0 !in d.cached && DownloadSource(src).Ok?
       && r.value.1.cached == d.cached + {r.value.0}
       && r.value.1.downloads == d.downloads + [Download(DownloadSource(src).value.0, DownloadSource(src).value.1, r.value.0)])
  {
    if !StartsWith(src, "s3://") then Ok((src, d))
    else
      match CachePath(src, cacheDir)
      case Err(e) => Err(e)
      case Ok(p) =>
        if p in d.cached then Ok((p, d))
        else
          match DownloadSource(src)
          case Err(e) => Err(e)
          case Ok((b, k)) => Ok((p, d.(cached := d.cached + {p}, downloads := d.downloads + [Download(b, k, p)])))
  }

  /** A fetch keeps the cache valid: a miss downloads a file not yet cached. */
  lemma FetchKeepsCacheValid(d: Disk, src: string, cacheDir: string)
    requires CacheValid(d) && Fetch(d, src, cacheDir).Ok?
    ensures CacheValid(Fetch(d, src, cacheDir).value.1)
  {
    var (p, e) := Fetch(d, src, cacheDir).value;
    if e != d {
      var (b, k) := DownloadSource(src).value;
      CacheValidAdd(d, Download(b, k, p));
      assert e == d.(cached := d.cached + {p}, downloads := d.downloads + [Download(b, k, p)]);
    }
  }

  /** Downloading a file not yet cached, and caching it, keeps the cache valid. */
  lemma CacheValidAdd(d: Disk, dl: Download)
    requires CacheValid(d) && dl.path !in d.cached
    ensures CacheValid(d.(cached := d.cached + {dl.path}, downloads := d.downloads + [dl]))
  {
    var e := d.(cached := d.cached + {dl.path}, downloads := d.downloads + [dl]);
    forall i, j | 0 <= i < j < |e.downloads| ensures e.downloads[i].path != e.downloads[j].path {
      if j == |d.downloads| {
        assert e.downloads[i] == d.downloads[i];
      }
    }
  }

  /** Fetching the same source again hits the cache: the same path, no download. */
  lemma FetchTwice(d: Disk, src: string, cacheDir: string)
    requires Fetch(d, src, cacheDir).Ok?
    ensures var first := Fetch(d, src, cacheDir).value;
      Fetch(first.1, src, cacheDir) == Ok(first)
  {
    var first := Fetch(d, src, cacheDir).value;
    if StartsWith(src, "s3://") {
      assert CachePath(src, cacheDir) == Ok(first.0);
      assert first.0 in first.1.cached;
    }
  }

  /** The extracted FITS file of one product. */
  function Cut(hdus: Fits, q: string, psf: bool): Fits {
    if psf then ExtractPsf(hdus, q) else ExtractQuadrant(hdus, q)
  }

  /** One product of a quadrant: nothing when the manifest names no source;
      otherwise the source is fetched, opened, cut and written to `dest`. */
  function ExtractFile(d: Disk, src: string, q: string, dest: string, psf: bool, cacheDir: string,
                       open: string -> Result<Fits>): (r: Result<Disk>)
    ensures src == "" ==> r == Ok(d)
    ensures r.Ok? && src != "" ==>
      (LocalPathOf(src, cacheDir).Ok? && var hdus := open(LocalPathOf(src, cacheDir).value);
       hdus.Ok? && dest in r.value.fits && r.value.fits[dest] == Cut(hdus.value, q, psf))
    ensures r.Ok? && src != "" ==> r.value.fits == d.fits[dest := r.value.fits[dest]]
    ensures r.Ok? ==> d.fits.Keys <= r.value.fits.Keys && d.catalogs == r.value.catalogs && d.manifests == r.value.manifests
    ensures r.Ok? && CacheValid(d) ==> CacheValid(r.value)
  {
    if src == "" then Ok(d)
    else
      match Fetch(d, src, cacheDir)
      case Err(e) => Err(e)
      case Ok((local, d1)) =>
        FetchKeepsCacheValid2(d, src, cacheDir);
        match open(local)
        case Err(e) => Err(e)
        case Ok(hdus) => Ok(d1.(fits := d1.fits[dest := Cut(hdus, q, psf)]))
  }

  /** `FetchKeepsCacheValid` for every disk, for use inside expressions. */
  lemma FetchKeepsCacheValid2(d: Disk, src: string, cacheDir: string)
    ensures CacheValid(d) && Fetch(d, src, cacheDir).Ok? ==> CacheValid(Fetch(d, src, cacheDir).value.1)
  {
    if CacheValid(d) && Fetch(d, src, cacheDir).Ok? {
      FetchKeepsCacheValid(d, src, cacheDir);
    }
  }

  /** Every non-empty path of a rewritten reference names a written FITS file. */
  predicate RefWritten(written: set<string>, subDir: string, r: QuadrantRef) {
    && (r.sciPath != "" ==> PathJoin(subDir, r.sciPath) in written)
    && (r.bkgPath != "" ==> PathJoin(subDir, r.bkgPath) in written)
    && (r.wgtPath != "" ==> PathJoin(subDir, r.wgtPath) in written)
    && (r.psfPath != "" ==> PathJoin(subDir, r.psfPath) in written)
  }

  /** One iteration of the quadrant loop: science, background, weight and PSF. */
  /** The four destinations a reference's files are written to. */
  function RefDests(subDir: string, n: QuadrantRef): set<string> {
    {PathJoin(subDir, n.sciPath), PathJoin(subDir, n.bkgPath), PathJoin(subDir, n.wgtPath), PathJoin(subDir, n.psfPath)}
  }

  function ExtractRef(d: Disk, q: QuadrantRef, subDir: string, cacheDir: string,
                      open: string -> Result<Fits>): (r: Result<Disk>)
    ensures r.Ok? ==> RefWritten(r.value.fits.Keys, subDir, RewriteRef(q))
    ensures r.Ok? ==> d.fits.Keys <= r.value.fits.Keys && d.catalogs == r.value.catalogs && d.manifests == r.value.manifests
    ensures r.Ok? && CacheValid(d) ==> CacheValid(r.value)
  {
    var n := RewriteRef(q);
    match ExtractFile(d, q.sciPath, q.quadrant, PathJoin(subDir, n.sciPath), false, cacheDir, open)
    case Err(e) => Err(e)
    case Ok(d1) =>
      match ExtractFile(d1, q.bkgPath, q.quadrant, PathJoin(subDir, n.bkgPath), false, cacheDir, open)
      case Err(e) => Err(e)
      case Ok(d2) =>
        match ExtractFile(d2, q.wgtPath, q.quadrant, PathJoin(subDir, n.wgtPath), false, cacheDir, open)
        case Err(e) => Err(e)
        case Ok(d3) => ExtractFile(d3, q.psfPath, q.quadrant, PathJoin(subDir, n.psfPath), true, cacheDir, open)
  }

  /** A FITS file at one of the four destinations is the only kind a
      reference's extraction changes: every other file keeps its content. */
  lemma ExtractRefKeepsOthers(d: Disk, q: QuadrantRef, subDir: string, cacheDir: string,
                              open: string -> Result<Fits>, p: string)
    requires ExtractRef(d, q, subDir, cacheDir, open).Ok?
    requires p in d.fits && p !in RefDests(subDir, RewriteRef(q))
    ensures ExtractRef(d, q, subDir, cacheDir, open).value.fits[p] == d.fits[p]
  {
    var n := RewriteRef(q);
    var d1 := ExtractFile(d, q.sciPath, q.quadrant, PathJoin(subDir, n.sciPath), false, cacheDir, open).value;
    assert d1.fits[p] == d.fits[p];
    var d2 := ExtractFile(d1, q.bkgPath, q.quadrant, PathJoin(subDir, n.bkgPath), false, cacheDir, open).value;
    assert d2.fits[p] == d.fits[p];
    var d3 := ExtractFile(d2, q.wgtPath, q.quadrant, PathJoin(subDir, n.wgtPath), false, cacheDir, open).value;
    assert d3.fits[p] == d.fits[p];
  }

  /** The quadrant loop, in manifest order, stopping at the first failure. */
  function ExtractAll(d: Disk, qs: seq<QuadrantRef>, subDir: string, cacheDir: string,
                      open: string -> Result<Fits>): (r: Result<Disk>)
    ensures |qs| == 0 ==> r == Ok(d)
    decreases |qs|
  {
    if |qs| == 0 then Ok(d)
    else
      match ExtractAll(d, qs[..|qs| - 1], subDir, cacheDir, open)
      case Err(e) => Err(e)
      case Ok(d1) => ExtractRef(d1, qs[|qs| - 1], subDir, cacheDir, open)
  }

  lemma ExtractAllSnoc(d: Disk, qs: seq<QuadrantRef>, i: int, subDir: string, cacheDir: string,
                       open: string -> Result<Fits>)
    requires 0 <= i < |qs|
    ensures var prev := ExtractAll(d, qs[..i], subDir, cacheDir, open);
      ExtractAll(d, qs[..i + 1], subDir, cacheDir, open)
        == if prev.Err? then Err(prev.error) else ExtractRef(prev.value, qs[i], subDir, cacheDir, open)
  {
    assert qs[..i + 1][..i] == qs[..i];
  }

  /** The quadrant loop only adds FITS files and keeps the cache valid. */
  predicate OnlyAddsFits(d: Disk, e: Disk) {
    d.fits.Keys <= e.fits.Keys && d.catalogs == e.catalogs && d.manifests == e.manifests
    && (CacheValid(d) ==> CacheValid(e))
  }

  /** After the loop every reference's rewritten paths name written files. */
  lemma {:induction false} ExtractAllWritten(d: Disk, qs: seq<QuadrantRef>, subDir: string, cacheDir: string,
                                             open: string -> Result<Fits>)
    requires ExtractAll(d, qs, subDir, cacheDir, open).Ok?
    ensures var e := ExtractAll(d, qs, subDir, cacheDir, open).value;
      OnlyAddsFits(d, e) && forall k :: 0 <= k < |qs| ==> RefWritten(e.fits.Keys, subDir, RewriteRef(qs[k]))
    decreases |qs|
  {
    if |qs| > 0 {
      var init := qs[..|qs| - 1];
      ExtractAllWritten(d, init, subDir, cacheDir, open);
      var d1 := ExtractAll(d, init, subDir, cacheDir, open).value;
      var e := ExtractRef(d1, qs[|qs| - 1], subDir, cacheDir, open).value;
      assert ExtractAll(d, qs, subDir, cacheDir, open).value == e;
      forall k | 0 <= k < |qs| ensures RefWritten(e.fits.Keys, subDir, RewriteRef(qs[k])) {
        if k < |qs| - 1 {
          assert qs[k] == init[k];
          assert RefWritten(d1.fits.Keys, subDir, RewriteRef(init[k]));
        }
      }
    }
  }

  /** A failure in the first `j` quadrants is the failure of the whole loop. */
  lemma {:induction false} ExtractAllErrPrefix(d: Disk, qs: seq<QuadrantRef>, j: nat, subDir: string,
                                               cacheDir: string, open: string -> Result<Fits>)
    requires j <= |qs| && ExtractAll(d, qs[..j], subDir, cacheDir, open).Err?
    ensures ExtractAll(d, qs, subDir, cacheDir, open) == ExtractAll(d, qs[..j], subDir, cacheDir, open)
    decreases |qs|
  {
    if j < |qs| {
      assert qs[..|qs| - 1][..j] == qs[..j];
      ExtractAllErrPrefix(d, qs[..|qs| - 1], j, subDir, cacheDir, open);
    } else {
      assert qs[..j] == qs;
    }
  }

  /** The extended and core boxes of a manifest's sky bounds. */
  function ExtendedBox(b: SkyBounds): Box { (b.extendedRa, b.extendedDec) }
  function CoreBox(b: SkyBounds): Box { (b.coreRa, b.coreDec) }

  /** A catalog as `Table.read` gives it: every column has one value per row. */
  type Catalog = t: Table | Rectangular(t) witness Table([], 0)

  /** `subset_catalog` on the local copy `local` of the catalog, with the
      default column names: the subset is written as `catalog.fits`. */
  function WriteSubset(d: Disk, m: SubTileManifest, subDir: string, local: string,
                       readTable: string -> Result<Catalog>): (r: Result<(Disk, (seq<int>, seq<int>))>)
    ensures r.Ok? ==> r.value.0 == d.(catalogs := r.value.0.catalogs)
  {
    var t := readTable(local);
    if t.Err? then Err(t.error)
    else
      var sub := SubsetCatalog(t.value, ExtendedBox(m.skyBounds), CoreBox(m.skyBounds), DefaultRaCol, DefaultDecCol, DefaultIdCol);
      if sub.Err? then Err(sub.error)
      else Ok((d.(catalogs := d.catalogs[PathJoin(subDir, CatalogRel) := sub.value.0]), (sub.value.1, sub.value.2)))
  }

  /** The disk after `subset_catalog` whether or not it succeeds: once the
      table is read and both coordinate columns are found, the extended
      subset is written, before the id column is looked up. */
  function SubsetWritten(d: Disk, m: SubTileManifest, subDir: string, local: string,
                         readTable: string -> Result<Catalog>): (e: Disk)
    ensures e == d.(catalogs := e.catalogs)
    ensures WriteSubset(d, m, subDir, local, readTable).Ok? ==> WriteSubset(d, m, subDir, local, readTable).value.0 == e
  {
    var t := readTable(local);
    if t.Err? then d
    else
      match Masks(t.value, ExtendedBox(m.skyBounds), CoreBox(m.skyBounds), DefaultRaCol, DefaultDecCol)
      case Err(_) => d
      case Ok((extRows, _)) => d.(catalogs := d.catalogs[PathJoin(subDir, CatalogRel) := TakeRows(t.value, extRows)])
  }

  /** A catalog with both coordinate columns but no id column fails with a
      KeyError after its subset has been written as `catalog.fits`. */
  lemma WriteSubsetBeforeIdLookup(d: Disk, m: SubTileManifest, subDir: string, local: string,
                                  readTable: string -> Result<Catalog>)
    requires readTable(local).Ok?
    requires Masks(readTable(local).value, ExtendedBox(m.skyBounds), CoreBox(m.skyBounds), DefaultRaCol, DefaultDecCol).Ok?
    requires Column(readTable(local).value, ResolveColumn(readTable(local).value, DefaultIdCol)).None?
    ensures WriteSubset(d, m, subDir, local, readTable) == Err(KeyError)
    ensures var t := readTable(local).value;
      var ext := Masks(t, ExtendedBox(m.skyBounds), CoreBox(m.skyBounds), DefaultRaCol, DefaultDecCol).value.0;
      SubsetWritten(d, m, subDir, local, readTable).catalogs == d.catalogs[PathJoin(subDir, CatalogRel) := TakeRows(t, ext)]
  {
  }

  /** The disk after the catalog step whether or not it succeeds: the
      fetch's download, then whatever `subset_catalog` wrote. */
  function CatalogStepDisk(d: Disk, m: SubTileManifest, subDir: string, cacheDir: string,
                           readTable: string -> Result<Catalog>): (e: Disk)
    ensures d.fits == e.fits && d.manifests == e.manifests
    ensures CatalogStep(d, m, subDir, cacheDir, readTable).Ok? ==> CatalogStep(d, m, subDir, cacheDir, readTable).value.0 == e
  {
    if m.sourceCatalog == "" then d
    else
      match Fetch(d, m.sourceCatalog, cacheDir)
      case Err(_) => d
      case Ok((local, d1)) => SubsetWritten(d1, m, subDir, local, readTable)
  }

  /** The catalog step: without a source catalog nothing is written and the
      id lists are empty; otherwise the catalog is fetched and cut. */
  function CatalogStep(d: Disk, m: SubTileManifest, subDir: string, cacheDir: string,
                       readTable: string -> Result<Catalog>): (r: Result<(Disk, (seq<int>, seq<int>))>)
    ensures m.sourceCatalog == "" ==> r == Ok((d, ([], [])))
    ensures r.Ok? ==> d.fits == r.value.0.fits && d.manifests == r.value.0.manifests
    ensures r.Ok? && CacheValid(d) ==> CacheValid(r.value.0)
  {
    if m.sourceCatalog == "" then Ok((d, ([], [])))
    else
      match Fetch(d, m.sourceCatalog, cacheDir)
      case Err(e) => Err(e)
      case Ok((local, d1)) =>
        FetchKeepsCacheValid2(d, m.sourceCatalog, cacheDir);
        WriteSubset(d1, m, subDir, local, readTable)
  }

  /** With a source catalog, a successful catalog step wrote the subset of
      the catalog read from the local copy, cut with the default column
      names, and returned its id lists. */
  lemma CatalogStepWrites(d: Disk, m: SubTileManifest, subDir: string, cacheDir: string,
                          readTable: string -> Result<Catalog>)
    requires m.sourceCatalog != "" && CatalogStep(d, m, subDir, cacheDir, readTable).Ok?
    ensures LocalPathOf(m.sourceCatalog, cacheDir).Ok?
    ensures var t := readTable(LocalPathOf(m.sourceCatalog, cacheDir).value);
      var sub := SubsetCatalog(t.value, ExtendedBox(m.skyBounds), CoreBox(m.skyBounds),
                               DefaultRaCol, DefaultDecCol, DefaultIdCol);
      var r := CatalogStep(d, m, subDir, cacheDir, readTable).value;
      t.Ok? && sub.Ok?
      && r.0.catalogs == d.catalogs[PathJoin(subDir, CatalogRel) := sub.value.0]
      && r.1 == (sub.value.1, sub.value.2)
  {
    var f := Fetch(d, m.sourceCatalog, cacheDir);
    assert f.Ok?;
    var local := f.value.0;
    var t := readTable(local);
    assert t.Ok?;
    var sub := SubsetCatalog(t.value, ExtendedBox(m.skyBounds), CoreBox(m.skyBounds),
                             DefaultRaCol, DefaultDecCol, DefaultIdCol);
    assert sub.Ok?;
    var e := f.value.1.(catalogs := f.value.1.catalogs[PathJoin(subDir, CatalogRel) := sub.value.0]);
    assert CatalogStep(d, m, subDir, cacheDir, readTable) == Ok((e, (sub.value.1, sub.value.2)));
  }

  /** `extract_subtile` on a disk: the sub-tile directory and the disk after
      the quadrant loop, the catalog step and the manifest write. */
  function ExtractSubtileSpec(d: Disk, m: SubTileManifest, extractionDir: string,
                              open: string -> Result<Fits>, readTable: string -> Result<Catalog>)
    : (r: Result<(string, Disk)>)
    ensures r.Ok? ==> r.value.0 == SubtileDir(extractionDir, m.tileId, m.subTileRow, m.subTileCol)
  {
    var subDir := SubtileDir(extractionDir, m.tileId, m.subTileRow, m.subTileCol);
    var cacheDir := CacheDir(extractionDir, m.tileId);
    match ExtractAll(d, m.quadrants, subDir, cacheDir, open)
    case Err(e) => Err(e)
    case Ok(d1) =>
      match CatalogStep(d1, m, subDir, cacheDir, readTable)
      case Err(e) => Err(e)
      case Ok((d2, ids)) =>
        Ok((subDir, d2.(manifests := d2.manifests[PathJoin(subDir, ManifestFile) := RewriteManifest(m, ids)])))
  }

  /** The extracted directory is self-contained: its manifest is the
      rewritten one, every non-empty quadrant path in it names a FITS file
      written below the directory, the catalog it names is written when the
      input had one, and without one the id lists are empty. The cache stays
      valid: no cache file was downloaded twice. */
  lemma ExtractSubtileSelfContained(d: Disk, m: SubTileManifest, extractionDir: string,
                                    open: string -> Result<Fits>, readTable: string -> Result<Catalog>)
    requires ExtractSubtileSpec(d, m, extractionDir, open, readTable).Ok?
    ensures var (dir, e) := ExtractSubtileSpec(d, m, extractionDir, open, readTable).value;
      var mp := PathJoin(dir, ManifestFile);
      && mp in e.manifests
      && e.manifests[mp].tileId == m.tileId && e.manifests[mp].skyBounds == m.skyBounds
      && e.manifests[mp].subTileRow == m.subTileRow && e.manifests[mp].subTileCol == m.subTileCol
      && |e.manifests[mp].quadrants| == |m.quadrants|
      && (forall k :: 0 <= k < |m.quadrants| ==> e.manifests[mp].quadrants[k] == RewriteRef(m.quadrants[k]))
      && (forall k :: 0 <= k < |m.quadrants| ==> RefWritten(e.fits.Keys, dir, RewriteRef(m.quadrants[k])))
      && e.manifests[mp].sourceCatalog == CatalogRel
      && (m.sourceCatalog != "" ==> PathJoin(dir, CatalogRel) in e.catalogs)
      && (m.sourceCatalog == "" ==> e.manifests[mp].sourceIds == [] && e.manifests[mp].coreSourceIds == [])
      && (CacheValid(d) ==> CacheValid(e))
  {
    var subDir := SubtileDir(extractionDir, m.tileId, m.subTileRow, m.subTileCol);
    var cacheDir := CacheDir(extractionDir, m.tileId);
    ExtractAllWritten(d, m.quadrants, subDir, cacheDir, open);
    var d1 := ExtractAll(d, m.quadrants, subDir, cacheDir, open).value;
    var step := CatalogStep(d1, m, subDir, cacheDir, readTable).value;
    if m.sourceCatalog != "" {
      CatalogStepWrites(d1, m, subDir, cacheDir, readTable);
    }
    var nm := RewriteManifest(m, step.1);
    var e := step.0.(manifests := step.0.manifests[PathJoin(subDir, ManifestFile) := nm]);
    assert ExtractSubtileSpec(d, m, extractionDir, open, readTable).value == (subDir, e);
  }

  /** The extraction workspace: the files on local disk that extraction
      reads and writes. */
  class Workspace {
    var cached: set<string>
    var downloads: seq<Download>
    var fits: map<string, Fits>
    var catalogs: map<string, Table>
    var manifests: map<string, SubTileManifest>

    /** A workspace whose cache already holds `cached` and nothing else is written. */
    constructor (cached: set<string>)
      ensures State() == Disk(cached, [], map[], map[], map[])
    {
      this.cached := cached;
      downloads := [];
      fits := map[];
      catalogs := map[];
      manifests := map[];
    }

    /** The workspace's contents as a value. */
    function State(): Disk
      reads this
    {
      Disk(cached, downloads, fits, catalogs, manifests)
    }

    /** `_ensure_local(src, cache_dir)`. */
    method EnsureLocal(src: string, cacheDir: string) returns (r: Result<string>)
      modifies this
      ensures var spec := Fetch(old(State()), src, cacheDir);
        (r.Ok? <==> spec.Ok?) && (r.Ok? ==> (r.value, State()) == spec.value)
        && (r.Err? ==> r == Err(spec.error) && State() == old(State()))
    {
      if !StartsWith(src, "s3://") {
        return Ok(src);
      }
      var local := CachePath(src, cacheDir);
      if local.Err? {
        return Err(local.error);
      }
      var p := local.value;
      if p in cached {
        return Ok(p);
      }
      var obj := DownloadSource(src);
      if obj.Err? {
        return Err(obj.error);
      }
      downloads := downloads + [Download(obj.value.0, obj.value.1, p)];
      cached := cached + {p};
      r := Ok(p);
    }

    /** `extract_quadrant_fits` or `extract_psf_fits` on the local copy of
        `src`, writing `dest`; nothing when `src` is empty. */
    method ExtractFileInto(src: string, q: string, dest: string, psf: bool, cacheDir: string,
                           open: string -> Result<Fits>) returns (r: Result<()>)
      modifies this
      ensures var spec := ExtractFile(old(State()), src, q, dest, psf, cacheDir, open);
        (r.Ok? <==> spec.Ok?) && (r.Ok? ==> State() == spec.value) && (r.Err? ==> r == Err(spec.error))
    {
      if src == "" {
        return Ok(());
      }
      var local := EnsureLocal(src, cacheDir);
      if local.Err? {
        return Err(local.error);
      }
      var hdus := open(local.value);
      if hdus.Err? {
        return Err(hdus.error);
      }
      var cut;
      if psf {
        cut := ExtractPsfFits(hdus.value, q);
      } else {
        cut := ExtractQuadrantFits(hdus.value, q);
      }
      fits := fits[dest := cut];
      r := Ok(());
    }

    /** One iteration of `extract_subtile`'s quadrant loop. */
    method ExtractRefInto(q: QuadrantRef, subDir: string, cacheDir: string,
                          open: string -> Result<Fits>) returns (r: Result<()>)
      modifies this
      ensures var spec := ExtractRef(old(State()), q, subDir, cacheDir, open);
        (r.Ok? <==> spec.Ok?) && (r.Ok? ==> State() == spec.value) && (r.Err? ==> r == Err(spec.error))
    {
      var n := RewriteRef(q);
      r := ExtractFileInto(q.sciPath, q.quadrant, PathJoin(subDir, n.sciPath), false, cacheDir, open);
      if r.Err? {
        return;
      }
      r := ExtractFileInto(q.bkgPath, q.quadrant, PathJoin(subDir, n.bkgPath), false, cacheDir, open);
      if r.Err? {
        return;
      }
      r := ExtractFileInto(q.wgtPath, q.quadrant, PathJoin(subDir, n.wgtPath), false, cacheDir, open);
      if r.Err? {
        return;
      }
      r := ExtractFileInto(q.psfPath, q.quadrant, PathJoin(subDir, n.psfPath), true, cacheDir, open);
    }

    /** The catalog step of `extract_subtile`, with `subset_catalog`'s
        default column names; on failure the workspace keeps what was
        written before the failing step. */
    method SubsetCatalogInto(m: SubTileManifest, subDir: string, cacheDir: string,
                             readTable: string -> Result<Catalog>) returns (r: Result<(seq<int>, seq<int>)>)
      modifies this
      ensures var spec := CatalogStep(old(State()), m, subDir, cacheDir, readTable);
        (r.Ok? <==> spec.Ok?) && (r.Ok? ==> r.value == spec.value.1) && (r.Err? ==> r == Err(spec.error))
      ensures State() == CatalogStepDisk(old(State()), m, subDir, cacheDir, readTable)
    {
      if m.sourceCatalog == "" {
        return Ok(([], []));
      }
      var local := EnsureLocal(m.sourceCatalog, cacheDir);
      if local.Err? {
        return Err(local.error);
      }
      r := WriteSubsetInto(m, subDir, local.value, readTable);
    }

    /** `subset_catalog` on the local copy of the catalog: the subset is
        written before the id column is looked up, so a missing id column
        fails after the write. */
    method WriteSubsetInto(m: SubTileManifest, subDir: string, local: string,
                           readTable: string -> Result<Catalog>) returns (r: Result<(seq<int>, seq<int>)>)
      modifies this
      ensures var spec := WriteSubset(old(State()), m, subDir, local, readTable);
        (r.Ok? <==> spec.Ok?) && (r.Ok? ==> r.value == spec.value.1) && (r.Err? ==> r == Err(spec.error))
      ensures State() == SubsetWritten(old(State()), m, subDir, local, readTable)
    {
      var t := readTable(local);
      if t.Err? {
        return Err(t.error);
      }
      var masks := Masks(t.value, ExtendedBox(m.skyBounds), CoreBox(m.skyBounds), DefaultRaCol, DefaultDecCol);
      if masks.Err? {
        return Err(masks.error);
      }
      var (extRows, coreRows) := masks.value;
      catalogs := catalogs[PathJoin(subDir, CatalogRel) := TakeRows(t.value, extRows)];
      var ids := Column(t.value, ResolveColumn(t.value, DefaultIdCol));
      if ids.None? {
        return Err(KeyError);
      }
      r := Ok((IdsAt(ids.value, extRows), IdsAt(ids.value, coreRows)));
    }

    /** The quadrant loop of `extract_subtile`, in manifest order, stopping
        at the first failure. */
    method ExtractAllInto(qs: seq<QuadrantRef>, subDir: string, cacheDir: string,
                          open: string -> Result<Fits>) returns (r: Result<()>)
      modifies this
      ensures var spec := ExtractAll(old(State()), qs, subDir, cacheDir, open);
        (r.Ok? <==> spec.Ok?) && (r.Ok? ==> State() == spec.value) && (r.Err? ==> r == Err(spec.error))
    {
      ghost var d0 := State();
      var i := 0;
      while i < |qs|
        invariant 0 <= i <= |qs|
        invariant ExtractAll(d0, qs[..i], subDir, cacheDir, open) == Ok(State())
      {
        ExtractAllSnoc(d0, qs, i, subDir, cacheDir, open);
        var step := ExtractRefInto(qs[i], subDir, cacheDir, open);
        if step.Err? {
          ExtractAllErrPrefix(d0, qs, i + 1, subDir, cacheDir, open);
          return Err(step.error);
        }
        i := i + 1;
      }
      assert qs[..i] == qs;
      r := Ok(());
    }

    /** `extract_subtile(manifest, extraction_dir)`: the sub-tile directory,
        after the loop over the manifest's quadrants, the catalog step and
        the rewritten manifest. */
    method ExtractSubtile(m: SubTileManifest, extractionDir: string, open: string -> Result<Fits>,
                          readTable: string -> Result<Catalog>) returns (r: Result<string>)
      modifies this
      ensures var spec := ExtractSubtileSpec(old(State()), m, extractionDir, open, readTable);
        (r.Ok? <==> spec.Ok?) && (r.Ok? ==> (r.value, State()) == spec.value) && (r.Err? ==> r == Err(spec.error))
    {
      var subDir := SubtileDir(extractionDir, m.tileId, m.subTileRow, m.subTileCol);
      var cacheDir := CacheDir(extractionDir, m.tileId);
      var done := ExtractAllInto(m.quadrants, subDir, cacheDir, open);
      if done.Err? {
        return Err(done.error);
      }
      var ids := SubsetCatalogInto(m, subDir, cacheDir, readTable);
      if ids.Err? {
        return Err(ids.error);
      }
      manifests := manifests[PathJoin(subDir, ManifestFile) := RewriteManifest(m, ids.value)];
      r := Ok(subDir);
    }
  }
}
