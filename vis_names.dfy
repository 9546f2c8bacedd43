/** Recognising Euclid VIS file names: the science/background/weight pattern
    and the PSF grid pattern, each matched at the start of the file name as
    `re.match` does, and the record a recognised key yields. Every matcher is
    built from small stages, one per field, each proved against the text its
    fields spell. */
module VisNames {
  import opened Wrappers
  import opened Strings

  /** Metadata parsed from one VIS file name. */
  datatype VisFileRecord = VisFileRecord(
    fileType: string,
    obsId: string,
    dither: string,
    ccd: string,
    timestamp: string,
    s3Key: string)

  const SwlPrefix: string := "EUC_VIS_SWL-"
  const PsfPrefix: string := "EUC_VIS_GRD-PSF-"
  const FitsSuffix: string := ".fits"

  /** A prefix stays a prefix when the same text is put in front of both. */
  lemma StartsWithPrepend(x: string, e: string, t: string)
    requires StartsWith(e, t)
    ensures StartsWith(x + e, x + t)
  {
    assert (x + e)[..|x + t|] == x + e[..|t|];
  }

  /** `lit` at the start of `s`: the text after it. */
  function Expect(s: string, lit: string): (r: Option<string>)
    ensures r.Some? <==> StartsWith(s, lit)
    ensures r.Some? ==> s == lit + r.value
  {
    if StartsWith(s, lit) then
      assert s == s[..|lit|] + s[|lit|..];
      Some(s[|lit|..])
    else None
  }

  lemma ExpectConcat(lit: string, rest: string)
    ensures Expect(lit + rest, lit) == Some(rest)
  {
    assert (lit + rest)[..|lit|] == lit;
  }

  /** `\d{n}` followed by `sep`: the digits and the text after `sep`. */
  function FixedDigits(s: string, n: nat, sep: string): (r: Option<(string, string)>)
    ensures r.Some? ==> |r.value.0| == n && AllDigits(r.value.0) && s == r.value.0 + (sep + r.value.1)
  {
    if |s| >= n && AllDigits(s[..n]) then
      match Expect(s[n..], sep)
      case None => None
      case Some(rest) =>
        assert s == s[..n] + s[n..];
        Some((s[..n], rest))
    else None
  }

  lemma FixedDigitsConcat(d: string, sep: string, rest: string)
    requires AllDigits(d)
    ensures FixedDigits(d + (sep + rest), |d|, sep) == Some((d, rest))
  {
    var s := d + (sep + rest);
    assert s[..|d|] == d;
    assert s[|d|..] == sep + rest;
    ExpectConcat(sep, rest);
  }

  /** The length of the run of digits that starts `s`. */
  function DigitRun(s: string): (k: nat)
    ensures k <= |s| && AllDigits(s[..k]) && (k == |s| || !IsDigit(s[k]))
  {
    if |s| == 0 || !IsDigit(s[0]) then 0
    else
      var k := 1 + DigitRun(s[1..]);
      assert s[..k] == [s[0]] + s[1..][..k - 1];
      k
  }

  lemma {:induction false} DigitRunConcat(d: string, rest: string)
    requires AllDigits(d)
    requires |rest| == 0 || !IsDigit(rest[0])
    ensures DigitRun(d + rest) == |d|
  {
    if |d| > 0 {
      assert (d + rest)[1..] == d[1..] + rest;
      DigitRunConcat(d[1..], rest);
    }
  }

  /** `\d+` followed by `sep`: the whole run of digits must be followed by
      `sep`, since no shorter run is followed by a non-digit. */
  function DigitsThen(s: string, sep: string): (r: Option<(string, string)>)
    ensures r.Some? ==> |r.value.0| >= 1 && AllDigits(r.value.0) && s == r.value.0 + (sep + r.value.1)
  {
    var k := DigitRun(s);
    if k >= 1 then
      match Expect(s[k..], sep)
      case None => None
      case Some(rest) =>
        assert s == s[..k] + s[k..];
        Some((s[..k], rest))
    else None
  }

  lemma DigitsThenConcat(d: string, sep: string, rest: string)
    requires |d| >= 1 && AllDigits(d)
    requires |sep| >= 1 && !IsDigit(sep[0])
    ensures DigitsThen(d + (sep + rest), sep) == Some((d, rest))
  {
    var s := d + (sep + rest);
    DigitRunConcat(d, sep + rest);
    assert s[..|d|] == d;
    assert s[|d|..] == sep + rest;
    ExpectConcat(sep, rest);
  }

  predicate FitsAt(line: string, j: int) {
    0 <= j && j + |FitsSuffix| <= |line| && line[j..j + |FitsSuffix|] == FitsSuffix
  }

  /** The largest j in [1, i] at which ".fits" occurs in `line`. */
  function LastFitsAt(line: string, i: int): (r: Option<nat>)
    ensures r.Some? ==> 1 <= r.value <= i && FitsAt(line, r.value)
    ensures r.Some? ==> forall j :: r.value < j <= i ==> !FitsAt(line, j)
    ensures r.None? ==> forall j :: 1 <= j <= i ==> !FitsAt(line, j)
    decreases i
  {
    if i < 1 then None
    else if FitsAt(line, i) then Some(i)
    else LastFitsAt(line, i - 1)
  }

  /** `(.+)\.fits` matched at the start of `s`, with no end anchor: `.` stops
      at a newline, so the greedy group runs to the last ".fits" on the first
      line that leaves it non-empty. */
  function FitsTail(s: string): (r: Option<string>)
    ensures r.Some? ==> |r.value| >= 1 && '\n' !in r.value && StartsWith(s, r.value + FitsSuffix)
    ensures r.Some? ==> forall j :: |r.value| < j ==> !FitsAt(Partition(s, '\n').0, j)
    ensures r.None? ==> forall j :: 1 <= j ==> !FitsAt(Partition(s, '\n').0, j)
  {
    var line := Partition(s, '\n').0;
    match LastFitsAt(line, |line| - |FitsSuffix|)
    case None => None
    case Some(i) =>
      assert line[..i] + FitsSuffix == line[..i + |FitsSuffix|];
      assert s[..|line|] == line;
      Some(line[..i])
  }

  lemma FitsTailConcat(ts: string)
    requires |ts| >= 1 && '\n' !in ts
    ensures FitsTail(ts + FitsSuffix) == Some(ts)
  {
    var s := ts + FitsSuffix;
    assert '\n' !in s;
    assert Partition(s, '\n').0 == s;
    assert s[|ts|..|ts| + |FitsSuffix|] == FitsSuffix;
    assert FitsAt(s, |ts|);
  }

  // ----- science, background and weight frames -----

  /** The fields the science/background/weight pattern captures, plus the
      sequence number it skips. */
  datatype SwlName = SwlName(
    fileType: string,
    obsId: string,
    dither: string,
    ccd: string,
    seqNo: string,
    timestamp: string)

  predicate SwlFields(n: SwlName) {
    && n.fileType in ["DET", "BKG", "WGT"]
    && |n.obsId| == 6 && AllDigits(n.obsId)
    && |n.dither| == 2 && AllDigits(n.dither)
    && |n.ccd| == 1 && AllDigits(n.ccd)
    && |n.seqNo| >= 1 && AllDigits(n.seqNo)
    && |n.timestamp| >= 1 && '\n' !in n.timestamp
  }

  /** `{SEQ}__{TS}.fits` */
  function SeqOnward(n: SwlName): string {
    n.seqNo + ("__" + (n.timestamp + FitsSuffix))
  }

  /** `{CCD}-{SEQ}__{TS}.fits` */
  function CcdOnward(n: SwlName): string {
    n.ccd + ("-" + SeqOnward(n))
  }

  /** `{DITHER}-{CCD}-...` */
  function DitherOnward(n: SwlName): string {
    n.dither + ("-" + CcdOnward(n))
  }

  /** `{OBS}-{DITHER}-...` */
  function ObsOnward(n: SwlName): string {
    n.obsId + ("-" + DitherOnward(n))
  }

  /** `{TYPE}-{OBS}-...` */
  function TypeOnward(n: SwlName): string {
    n.fileType + ("-" + ObsOnward(n))
  }

  /** `EUC_VIS_SWL-{TYPE}-{OBS}-{DITHER}-{CCD}-{SEQ}__{TS}.fits`. */
  function SwlFileName(n: SwlName): string {
    SwlPrefix + TypeOnward(n)
  }

  /** `\d+__(.+)\.fits`, the fields before it already captured. */
  function SwlFromSeq(e: string, ty: string, obs: string, dither: string, ccd: string): (r: Option<SwlName>)
    ensures r.Some? ==> (r.value.fileType == ty && r.value.obsId == obs
      && r.value.dither == dither && r.value.ccd == ccd)
    ensures r.Some? ==> (|r.value.seqNo| >= 1 && AllDigits(r.value.seqNo)
      && |r.value.timestamp| >= 1 && '\n' !in r.value.timestamp)
    ensures r.Some? ==> StartsWith(e, SeqOnward(r.value))
  {
    match DigitsThen(e, "__")
    case None => None
    case Some((sq, g)) =>
      match FitsTail(g)
      case None => None
      case Some(ts) =>
        SeqPrefixStarts(e, sq, g, ts + FitsSuffix);
        Some(SwlName(ty, obs, dither, ccd, sq, ts))
  }

  lemma SeqPrefixStarts(e: string, sq: string, g: string, t: string)
    requires e == sq + ("__" + g) && StartsWith(g, t)
    ensures StartsWith(e, sq + ("__" + t))
  {
    StartsWithPrepend("__", g, t);
    StartsWithPrepend(sq, "__" + g, "__" + t);
  }

  /** `(\d)-` and onward. */
  function SwlFromCcd(d: string, ty: string, obs: string, dither: string): (r: Option<SwlName>)
    ensures r.Some? ==> r.value.fileType == ty && r.value.obsId == obs && r.value.dither == dither
    ensures r.Some? ==> (|r.value.ccd| == 1 && AllDigits(r.value.ccd)
      && |r.value.seqNo| >= 1 && AllDigits(r.value.seqNo)
      && |r.value.timestamp| >= 1 && '\n' !in r.value.timestamp)
    ensures r.Some? ==> StartsWith(d, CcdOnward(r.value))
  {
    match FixedDigits(d, 1, "-")
    case None => None
    case Some((ccd, e)) =>
      match SwlFromSeq(e, ty, obs, dither, ccd)
      case None => None
      case Some(n) =>
        StartsWithPrepend("-", e, SeqOnward(n));
        StartsWithPrepend(ccd, "-" + e, "-" + SeqOnward(n));
        Some(n)
  }

  /** `(\d{2})-` and onward. */
  function SwlFromDither(c: string, ty: string, obs: string): (r: Option<SwlName>)
    ensures r.Some? ==> r.value.fileType == ty && r.value.obsId == obs
    ensures r.Some? ==> (|r.value.dither| == 2 && AllDigits(r.value.dither)
      && |r.value.ccd| == 1 && AllDigits(r.value.ccd)
      && |r.value.seqNo| >= 1 && AllDigits(r.value.seqNo)
      && |r.value.timestamp| >= 1 && '\n' !in r.value.timestamp)
    ensures r.Some? ==> StartsWith(c, DitherOnward(r.value))
  {
    match FixedDigits(c, 2, "-")
    case None => None
    case Some((dither, d)) =>
      match SwlFromCcd(d, ty, obs, dither)
      case None => None
      case Some(n) =>
        StartsWithPrepend("-", d, CcdOnward(n));
        StartsWithPrepend(dither, "-" + d, "-" + CcdOnward(n));
        Some(n)
  }

  /** `(\d{6})-` and onward. */
  function SwlFromObs(b: string, ty: string): (r: Option<SwlName>)
    ensures r.Some? ==> r.value.fileType == ty
    ensures r.Some? ==> (|r.value.obsId| == 6 && AllDigits(r.value.obsId)
      && |r.value.dither| == 2 && AllDigits(r.value.dither)
      && |r.value.ccd| == 1 && AllDigits(r.value.ccd)
      && |r.value.seqNo| >= 1 && AllDigits(r.value.seqNo)
      && |r.value.timestamp| >= 1 && '\n' !in r.value.timestamp)
    ensures r.Some? ==> StartsWith(b, ObsOnward(r.value))
  {
    match FixedDigits(b, 6, "-")
    case None => None
    case Some((obs, c)) =>
      match SwlFromDither(c, ty, obs)
      case None => None
      case Some(n) =>
        StartsWithPrepend("-", c, DitherOnward(n));
        StartsWithPrepend(obs, "-" + c, "-" + DitherOnward(n));
        Some(n)
  }

  /** `(DET|BKG|WGT)-`: the alternatives are tried in order. */
  function MatchType(s: string): (r: Option<(string, string)>)
    ensures r.Some? ==> r.value.0 in ["DET", "BKG", "WGT"] && s == r.value.0 + ("-" + r.value.1)
  {
    match Expect(s, "DET-")
    case Some(rest) => Some(("DET", rest))
    case None =>
      match Expect(s, "BKG-")
      case Some(rest) => Some(("BKG", rest))
      case None =>
        match Expect(s, "WGT-")
        case Some(rest) => Some(("WGT", rest))
        case None => None
  }

  lemma MatchTypeConcat(ty: string, rest: string)
    requires ty in ["DET", "BKG", "WGT"]
    ensures MatchType(ty + ("-" + rest)) == Some((ty, rest))
  {
    var s := ty + ("-" + rest);
    assert s == (ty + "-") + rest;
    ExpectConcat(ty + "-", rest);
    assert s[..4] == ty + "-";
    assert s[..3] == ty;
    if ty != "DET" {
      assert s[..4][..3] != "DET";
      assert Expect(s, "DET-").None?;
    }
    if ty == "WGT" {
      assert s[..4][..3] != "BKG";
      assert Expect(s, "BKG-").None?;
    }
  }

  /** `EUC_VIS_SWL-(DET|BKG|WGT)-(\d{6})-(\d{2})-(\d)-\d+__(.+)\.fits`, matched
      at the start of `f`: a match yields well-formed fields and `f` begins
      with the name those fields spell. */
  function MatchSwl(f: string): (r: Option<SwlName>)
    ensures r.Some? ==> SwlFields(r.value) && StartsWith(f, SwlFileName(r.value))
  {
    match Expect(f, SwlPrefix)
    case None => None
    case Some(a) =>
      match MatchType(a)
      case None => None
      case Some((ty, b)) =>
        match SwlFromObs(b, ty)
        case None => None
        case Some(n) =>
          StartsWithPrepend("-", b, ObsOnward(n));
          StartsWithPrepend(ty, "-" + b, "-" + ObsOnward(n));
          StartsWithPrepend(SwlPrefix, a, TypeOnward(n));
          Some(n)
  }

  /** A well-formed science/background/weight name is recognised with exactly
      its fields. */
  lemma SwlRoundTrip(n: SwlName)
    requires SwlFields(n)
    ensures MatchSwl(SwlFileName(n)) == Some(n)
  {
    DigitsThenConcat(n.seqNo, "__", n.timestamp + FitsSuffix);
    FitsTailConcat(n.timestamp);
    assert SwlFromSeq(SeqOnward(n), n.fileType, n.obsId, n.dither, n.ccd) == Some(n);
    FixedDigitsConcat(n.ccd, "-", SeqOnward(n));
    assert SwlFromCcd(CcdOnward(n), n.fileType, n.obsId, n.dither) == Some(n);
    FixedDigitsConcat(n.dither, "-", CcdOnward(n));
    assert SwlFromDither(DitherOnward(n), n.fileType, n.obsId) == Some(n);
    FixedDigitsConcat(n.obsId, "-", DitherOnward(n));
    assert SwlFromObs(ObsOnward(n), n.fileType) == Some(n);
    MatchTypeConcat(n.fileType, ObsOnward(n));
    ExpectConcat(SwlPrefix, TypeOnward(n));
  }

  // ----- PSF grids -----

  /** The three digit runs of a PSF grid name and its timestamp. */
  datatype PsfName = PsfName(first: string, second: string, third: string, timestamp: string)

  predicate PsfFields(n: PsfName) {
    && |n.first| >= 1 && AllDigits(n.first)
    && |n.second| >= 1 && AllDigits(n.second)
    && |n.third| >= 1 && AllDigits(n.third)
    && |n.timestamp| >= 1 && '\n' !in n.timestamp
  }

  function PsfThirdOnward(n: PsfName): string {
    n.third + ("__" + (n.timestamp + FitsSuffix))
  }

  function PsfSecondOnward(n: PsfName): string {
    n.second + ("-" + PsfThirdOnward(n))
  }

  function PsfFirstOnward(n: PsfName): string {
    n.first + ("-" + PsfSecondOnward(n))
  }

  /** `EUC_VIS_GRD-PSF-{A}-{B}-{C}__{TS}.fits`. */
  function PsfFileName(n: PsfName): string {
    PsfPrefix + PsfFirstOnward(n)
  }

  /** `\d+__(.+)\.fits`, the first two runs already captured. */
  function PsfFromThird(s: string, a: string, b: string): (r: Option<PsfName>)
    ensures r.Some? ==> r.value.first == a && r.value.second == b
    ensures r.Some? ==> (|r.value.third| >= 1 && AllDigits(r.value.third)
      && |r.value.timestamp| >= 1 && '\n' !in r.value.timestamp)
    ensures r.Some? ==> StartsWith(s, PsfThirdOnward(r.value))
  {
    match DigitsThen(s, "__")
    case None => None
    case Some((c, g)) =>
      match FitsTail(g)
      case None => None
      case Some(ts) =>
        SeqPrefixStarts(s, c, g, ts + FitsSuffix);
        Some(PsfName(a, b, c, ts))
  }

  /** `\d+-` and onward. */
  function PsfFromSecond(s: string, a: string): (r: Option<PsfName>)
    ensures r.Some? ==> r.value.first == a
    ensures r.Some? ==> (|r.value.second| >= 1 && AllDigits(r.value.second)
      && |r.value.third| >= 1 && AllDigits(r.value.third)
      && |r.value.timestamp| >= 1 && '\n' !in r.value.timestamp)
    ensures r.Some? ==> StartsWith(s, PsfSecondOnward(r.value))
  {
    match DigitsThen(s, "-")
    case None => None
    case Some((b, t)) =>
      match PsfFromThird(t, a, b)
      case None => None
      case Some(n) =>
        StartsWithPrepend("-", t, PsfThirdOnward(n));
        StartsWithPrepend(b, "-" + t, "-" + PsfThirdOnward(n));
        Some(n)
  }

  /** `EUC_VIS_GRD-PSF-\d+-\d+-\d+__(.+)\.fits`, matched at the start of `f`:
      a match yields well-formed fields and `f` begins with the name they spell. */
  function MatchPsf(f: string): (r: Option<PsfName>)
    ensures r.Some? ==> PsfFields(r.value) && StartsWith(f, PsfFileName(r.value))
  {
    match Expect(f, PsfPrefix)
    case None => None
    case Some(s1) =>
      match DigitsThen(s1, "-")
      case None => None
      case Some((a, s2)) =>
        match PsfFromSecond(s2, a)
        case None => None
        case Some(n) =>
          StartsWithPrepend("-", s2, PsfSecondOnward(n));
          StartsWithPrepend(a, "-" + s2, "-" + PsfSecondOnward(n));
          StartsWithPrepend(PsfPrefix, s1, PsfFirstOnward(n));
          Some(n)
  }

  /** A well-formed PSF grid name is recognised with exactly its fields. */
  lemma PsfRoundTrip(n: PsfName)
    requires PsfFields(n)
    ensures MatchPsf(PsfFileName(n)) == Some(n)
  {
    DigitsThenConcat(n.third, "__", n.timestamp + FitsSuffix);
    FitsTailConcat(n.timestamp);
    assert PsfFromThird(PsfThirdOnward(n), n.first, n.second) == Some(n);
    DigitsThenConcat(n.second, "-", PsfThirdOnward(n));
    assert PsfFromSecond(PsfSecondOnward(n), n.first) == Some(n);
    DigitsThenConcat(n.first, "-", PsfSecondOnward(n));
    ExpectConcat(PsfPrefix, PsfFirstOnward(n));
  }

  /** A PSF grid name is never taken for a science/background/weight name. */
  lemma PsfNotSwl(n: PsfName)
    ensures MatchSwl(PsfFileName(n)).None?
  {
    var f := PsfFileName(n);
    assert f[8] == PsfPrefix[8] == 'G';
    assert !StartsWith(f, SwlPrefix) by {
      assert SwlPrefix[8] == 'S';
    }
  }

  /** A prefix of a prefix is a prefix. */
  lemma StartsWithTrans(f: string, q: string, p: string)
    requires StartsWith(f, q) && StartsWith(q, p)
    ensures StartsWith(f, p)
  {
    assert f[..|p|] == f[..|q|][..|p|];
  }

  lemma StartsWithExtend(p: string, x: string, q: string)
    requires StartsWith(p, q)
    ensures StartsWith(p + x, q)
  {
    assert (p + x)[..|q|] == p[..|q|];
  }

  /** Both recognised names begin with the mission's VIS prefix. */
  lemma NamesArePrefixed(n: SwlName, m: PsfName)
    ensures StartsWith(SwlFileName(n), "EUC_VIS_")
    ensures StartsWith(PsfFileName(m), "EUC_VIS_")
  {
    assert SwlPrefix[..8] == "EUC_VIS_";
    assert PsfPrefix[..8] == "EUC_VIS_";
    StartsWithExtend(SwlPrefix, TypeOnward(n), "EUC_VIS_");
    StartsWithExtend(PsfPrefix, PsfFirstOnward(m), "EUC_VIS_");
  }

  // ----- keys -----

  /** The observation id a PSF key carries: its third path segment, or
      "000000" when there is none, zero-filled to six digits. */
  function PsfObsId(key: string): (o: string)
    ensures |o| >= 6
    ensures |Split(key, '/')| < 3 ==> o == "000000"
  {
    var parts := Split(key, '/');
    ZFill(if |parts| >= 3 then parts[2] else "000000", 6)
  }

  /** `_parse_vis_filename`: the file name is the text after the last '/';
      a science/background/weight name is tried first, then a PSF grid name,
      and anything else is not a VIS file. */
  function ParseVisFilename(key: string): (r: Option<VisFileRecord>)
    ensures r.Some? ==> r.value.s3Key == key && r.value.fileType in ["DET", "BKG", "WGT", "PSF"]
    ensures r.Some? ==> |r.value.timestamp| >= 1
    ensures r.Some? && r.value.fileType == "PSF" ==> r.value.dither == "00" && r.value.ccd == "0"
    ensures r.Some? ==> StartsWith(AfterLast(key, '/'), "EUC_VIS_")
  {
    var f := AfterLast(key, '/');
    match MatchSwl(f)
    case Some(n) =>
      NamesArePrefixed(n, PsfName("0", "0", "0", "t"));
      StartsWithTrans(f, SwlFileName(n), "EUC_VIS_");
      Some(VisFileRecord(n.fileType, n.obsId, n.dither, n.ccd, n.timestamp, key))
    case None =>
      match MatchPsf(f)
      case Some(p) =>
        NamesArePrefixed(SwlName("DET", "", "", "", "", ""), p);
        StartsWithTrans(f, PsfFileName(p), "EUC_VIS_");
        Some(VisFileRecord("PSF", PsfObsId(key), "00", "0", p.timestamp, key))
      case None => None
  }

  lemma DigitsFree(s: string)
    requires AllDigits(s)
    ensures '/' !in s
  {
    assert forall i :: 0 <= i < |s| ==> s[i] != '/';
  }

  lemma SwlNameFree(n: SwlName)
    requires SwlFields(n) && '/' !in n.timestamp
    ensures '/' !in SwlFileName(n)
  {
    DigitsFree(n.obsId);
    DigitsFree(n.dither);
    DigitsFree(n.ccd);
    DigitsFree(n.seqNo);
    assert '/' !in FitsSuffix;
    NotInConcat('/', n.timestamp, FitsSuffix);
    NotInConcat('/', "__", n.timestamp + FitsSuffix);
    NotInConcat('/', n.seqNo, "__" + (n.timestamp + FitsSuffix));
    NotInConcat('/', "-", SeqOnward(n));
    NotInConcat('/', n.ccd, "-" + SeqOnward(n));
    NotInConcat('/', "-", CcdOnward(n));
    NotInConcat('/', n.dither, "-" + CcdOnward(n));
    NotInConcat('/', "-", DitherOnward(n));
    NotInConcat('/', n.obsId, "-" + DitherOnward(n));
    NotInConcat('/', "-", ObsOnward(n));
    assert '/' !in n.fileType;
    NotInConcat('/', n.fileType, "-" + ObsOnward(n));
    assert '/' !in SwlPrefix;
    NotInConcat('/', SwlPrefix, TypeOnward(n));
  }

  lemma PsfNameFree(n: PsfName)
    requires PsfFields(n) && '/' !in n.timestamp
    ensures '/' !in PsfFileName(n)
  {
    DigitsFree(n.first);
    DigitsFree(n.second);
    DigitsFree(n.third);
  }

  /** A key whose last segment is a well-formed science/background/weight
      name parses to exactly the fields of that name. */
  lemma ParseSwlKey(key: string, dirs: seq<string>, n: SwlName)
    requires Split(key, '/') == dirs + [SwlFileName(n)]
    requires SwlFields(n)
    ensures ParseVisFilename(key)
      == Some(VisFileRecord(n.fileType, n.obsId, n.dither, n.ccd, n.timestamp, key))
  {
    var parts := Split(key, '/');
    assert AfterLast(key, '/') == parts[|parts| - 1] == SwlFileName(n);
    SwlRoundTrip(n);
  }

  /** A PSF grid key takes its observation id from its third path segment,
      zero-filled, and falls back to "000000" when there is none; under
      exactly two directories the third segment is the file name itself. */
  lemma ParsePsfKey(key: string, dirs: seq<string>, n: PsfName)
    requires Split(key, '/') == dirs + [PsfFileName(n)]
    requires PsfFields(n)
    ensures ParseVisFilename(key) == Some(VisFileRecord(
      "PSF",
      if |dirs| >= 3 then ZFill(dirs[2], 6) else if |dirs| == 2 then PsfFileName(n) else "000000",
      "00", "0", n.timestamp, key))
  {
    PsfRoundTrip(n);
    PsfNotSwl(n);
  }

  /** Every key spelled from directories and a well-formed name splits back
      into them, so the two lemmas above apply to it. */
  lemma KeySegments(dirs: seq<string>, name: string)
    requires forall i :: 0 <= i < |dirs| ==> '/' !in dirs[i]
    requires '/' !in name
    ensures Split(Join(dirs + [name], '/'), '/') == dirs + [name]
  {
    SplitJoin(dirs + [name], '/');
  }
}
