/** The seekable reader over a remote object that the FITS header scan uses:
    every miss issues one inclusive HTTP byte-range request (section 14.1.2
    of RFC 9110) of at least the read-ahead size, and later reads inside the
    fetched window are served without a request. The remote object is its
    byte content; the request log records every range asked for. */
module RangeReader {

  newtype byte = b: int | 0 <= b < 256

  /** Bytes fetched per range request at the least: 64 KiB. */
  const ReadAhead: int := 64 * 1024

  /** The FITS logical record length (section 3.1 of the FITS Standard 4.0). */
  const FitsBlock: int := 2880

  /** `get_object(Range="bytes=a-b")`: both ends included. */
  function RangeGet(content: seq<byte>, a: int, b: int): (r: seq<byte>)
    requires 0 <= a <= b < |content|
    ensures |r| == b - a + 1
    ensures forall i :: 0 <= i < |r| ==> r[i] == content[a + i]
  {
    content[a..b + 1]
  }

  /** The byte count a read asks for: -1 means "to the end". */
  function Wanted(size: int, pos: int, n: int): int {
    if n == -1 then size - pos else n
  }

  /** A read returns nothing, without a request, when it asks for no bytes
      or starts at or past the end. */
  predicate EmptyRead(size: int, pos: int, n: int) {
    Wanted(size, pos, n) <= 0 || pos >= size
  }

  /** The window `[start, start+len)` holds `[pos, pos+m)`. */
  predicate Covers(start: int, len: int, pos: int, m: int) {
    len > 0 && start <= pos < start + len && len - (pos - start) >= m
  }

  /** The number of bytes a read returns. */
  function ReadLength(size: int, pos: int, n: int): (r: int)
    requires 0 <= pos <= size
    ensures 0 <= r <= size - pos
    ensures n > 0 ==> r <= n
    ensures n == -1 ==> r == size - pos
    ensures r == 0 <==> EmptyRead(size, pos, n)
    ensures !EmptyRead(size, pos, n) && r < Wanted(size, pos, n) ==> r == size - pos
  {
    var m := Wanted(size, pos, n);
    if m <= 0 || pos >= size then 0
    else if m < size - pos then m
    else size - pos
  }

  /** The last byte a missing read requests:
      `min(pos + max(n, READ_AHEAD) - 1, size - 1)`. */
  function FetchEnd(size: int, pos: int, m: int): (e: int)
    requires 0 <= pos < size && m > 0
    ensures pos <= e < size
    ensures e - pos + 1 >= m || e == size - 1
    ensures e - pos + 1 >= ReadAhead || e == size - 1
    ensures e - pos + 1 <= (if m > ReadAhead then m else ReadAhead)
  {
    var fetchSize := if m > ReadAhead then m else ReadAhead;
    if pos + fetchSize - 1 < size - 1 then pos + fetchSize - 1 else size - 1
  }

  /** Where a seek lands before clamping; an unknown `whence` stays put. */
  function SeekRaw(size: int, pos: int, offset: int, whence: int): int {
    if whence == 0 then offset
    else if whence == 1 then pos + offset
    else if whence == 2 then size + offset
    else pos
  }

  /** Where a seek lands: the raw target clamped to `[0, size]`. */
  function SeekTarget(size: int, pos: int, offset: int, whence: int): (r: int)
    requires 0 <= size
    ensures 0 <= r <= size
    ensures var raw := SeekRaw(size, pos, offset, whence);
      (0 <= raw <= size ==> r == raw) && (raw < 0 ==> r == 0) && (raw > size ==> r == size)
  {
    var raw := SeekRaw(size, pos, offset, whence);
    if raw < 0 then 0 else if raw > size then size else raw
  }

  /** A read that misses fetches at least the bytes it returns. */
  lemma FetchCoversRead(size: int, pos: int, n: int)
    requires 0 <= pos <= size && !EmptyRead(size, pos, n)
    ensures FetchEnd(size, pos, Wanted(size, pos, n)) - pos + 1 >= ReadLength(size, pos, n)
  {
  }

  /** After a miss at `p`, every later read that stays within the read-ahead
      and the object is served from the window. */
  lemma WindowServesLaterReads(size: int, p: int, n: int, q: int, m: int)
    requires 0 <= p < size && n > 0
    requires p <= q && m >= 1 && q + m <= p + ReadAhead && q + m <= size
    ensures Covers(p, FetchEnd(size, p, n) - p + 1, q, m)
  {
  }

  /** A header scan reading one FITS block at a time issues one request per
      22 blocks: after the request for block 0, blocks 1 to 21 are served
      from the window whenever the object holds them. */
  lemma FitsBlocksPerRequest(size: int, p: int, k: int)
    requires 0 <= p < size && 1 <= k <= 21 && p + (k + 1) * FitsBlock <= size
    ensures Covers(p, FetchEnd(size, p, FitsBlock) - p + 1, p + k * FitsBlock, FitsBlock)
  {
    WindowServesLaterReads(size, p, FitsBlock, p + k * FitsBlock, FitsBlock);
  }

  /** A slice of a window is the object's bytes at the same place. */
  lemma WindowSlice(content: seq<byte>, start: int, buf: seq<byte>, offset: int, m: int)
    requires 0 <= start && start + |buf| <= |content| && buf == content[start..start + |buf|]
    requires 0 <= offset && 0 <= m && offset + m <= |buf|
    ensures buf[offset..offset + m] == content[start + offset..start + offset + m]
  {
    assert forall i :: 0 <= i < |buf| ==> buf[i] == content[start + i];
  }

  /** `_S3SeekableFile`: a position, one read-ahead window and the log of
      range requests issued so far, over an object of `size` bytes. */
  class SeekableFile {
    const bucket: string
    const key: string
    const content: seq<byte>
    const size: int
    var pos: int
    var buf: seq<byte>
    var bufStart: int
    var fetches: seq<(int, int)>

    /** The window always holds the object's bytes at its place. */
    ghost predicate Valid()
      reads this
    {
      && size == |content|
      && 0 <= pos <= size
      && 0 <= bufStart && bufStart + |buf| <= size
      && buf == content[bufStart..bufStart + |buf|]
    }

    constructor (bucket: string, key: string, content: seq<byte>)
      ensures Valid()
      ensures this.bucket == bucket && this.key == key && this.content == content
      ensures pos == 0 && buf == [] && bufStart == 0 && fetches == []
    {
      this.bucket := bucket;
      this.key := key;
      this.content := content;
      this.size := |content|;
      pos := 0;
      buf := [];
      bufStart := 0;
      fetches := [];
    }

    /** `read(n)`: the next `ReadLength` bytes of the object. */
    method Read(n: int) returns (data: seq<byte>)
      requires Valid()
      modifies this
      ensures Valid()
      ensures data == content[old(pos)..old(pos) + ReadLength(size, old(pos), n)]
      ensures pos == old(pos) + |data|
      ensures EmptyRead(size, old(pos), n) || Covers(old(bufStart), |old(buf)|, old(pos), Wanted(size, old(pos), n))
        ==> buf == old(buf) && bufStart == old(bufStart) && fetches == old(fetches)
      ensures !EmptyRead(size, old(pos), n) && !Covers(old(bufStart), |old(buf)|, old(pos), Wanted(size, old(pos), n))
        ==> var e := FetchEnd(size, old(pos), Wanted(size, old(pos), n));
            fetches == old(fetches) + [(old(pos), e)] && bufStart == old(pos) && buf == content[old(pos)..e + 1]
    {
      var m := n;
      if m == -1 {
        m := size - pos;
      }
      assert m == Wanted(size, pos, n);
      if m <= 0 || pos >= size {
        return [];
      }
      var bufEnd := bufStart + |buf|;
      if |buf| > 0 && bufStart <= pos < bufEnd {
        var offset := pos - bufStart;
        var available := |buf| - offset;
        if available >= m {
          data := buf[offset..offset + m];
          WindowSlice(content, bufStart, buf, offset, m);
          pos := pos + |data|;
          return;
        }
      }
      assert !Covers(bufStart, |buf|, pos, m);
      data := Refill(m);
    }

    /** The miss path of `read`: one range request from the position for at
        least the read-ahead, the window replaced by its answer, and the
        first `m` bytes of it returned. */
    method Refill(m: int) returns (data: seq<byte>)
      requires Valid() && m > 0 && pos < size
      modifies this
      ensures Valid()
      ensures var e := FetchEnd(size, old(pos), m);
        fetches == old(fetches) + [(old(pos), e)] && bufStart == old(pos) && buf == content[old(pos)..e + 1]
      ensures data == content[old(pos)..old(pos) + (if m < size - old(pos) then m else size - old(pos))]
      ensures pos == old(pos) + |data|
    {
      var fetchSize := if m > ReadAhead then m else ReadAhead;
      var end := if pos + fetchSize - 1 < size - 1 then pos + fetchSize - 1 else size - 1;
      fetches := fetches + [(pos, end)];
      buf := RangeGet(content, pos, end);
      bufStart := pos;
      data := if m < |buf| then buf[..m] else buf;
      WindowSlice(content, bufStart, buf, 0, |data|);
      pos := pos + |data|;
    }

    /** `seek(offset, whence)`: moves the position only. */
    method Seek(offset: int, whence: int) returns (r: int)
      requires Valid()
      modifies this
      ensures Valid()
      ensures pos == SeekTarget(size, old(pos), offset, whence) && r == pos
      ensures buf == old(buf) && bufStart == old(bufStart) && fetches == old(fetches)
    {
      if whence == 0 {
        pos := offset;
      } else if whence == 1 {
        pos := pos + offset;
      } else if whence == 2 {
        pos := size + offset;
      }
      pos := if pos < 0 then 0 else if pos > size then size else pos;
      r := pos;
    }

    /** `tell()`. */
    method Tell() returns (r: int)
      requires Valid()
      ensures r == pos && 0 <= r <= size
    {
      r := pos;
    }

    /** `close()`: drops the window. */
    method Close()
      requires Valid()
      modifies this
      ensures Valid()
      ensures buf == [] && pos == old(pos) && bufStart == old(bufStart) && fetches == old(fetches)
    {
      buf := [];
    }
  }

  /** Two sequential reads return consecutive bytes of the object, whatever
      the window held. */
  method ReadTwice(f: SeekableFile, n1: int, n2: int) returns (a: seq<byte>, b: seq<byte>)
    requires f.Valid()
    modifies f
    ensures f.Valid() && old(f.pos) <= f.pos
    ensures a + b == f.content[old(f.pos)..f.pos]
  {
    a := f.Read(n1);
    b := f.Read(n2);
  }

  /** A header-sized read right after a missed read of one FITS block issues
      no second request. */
  method BlockThenBlock(f: SeekableFile) returns (a: seq<byte>, b: seq<byte>)
    requires f.Valid() && f.buf == [] && f.pos + 2 * FitsBlock <= f.size
    modifies f
    ensures |f.fetches| == |old(f.fetches)| + 1
    ensures a + b == f.content[old(f.pos)..old(f.pos) + 2 * FitsBlock]
  {
    a := f.Read(FitsBlock);
    WindowServesLaterReads(f.size, old(f.pos), FitsBlock, f.pos, FitsBlock);
    b := f.Read(FitsBlock);
  }
}
