/**
  Streaming a file, or one byte range of it, in chunks from a moving position
  (RFC 9110, sections 14.1.2 and 14.4).  A read returns at least one byte before the end of the
  file, but may return fewer than were asked for.
 */
module MediaStream {
  import opened ByteRanges
  import opened Options

  type Byte = nat

  function Concat(chunks: seq<seq<Byte>>): seq<Byte> {
    if chunks == [] then [] else Concat(chunks[..|chunks| - 1]) + chunks[|chunks| - 1]
  }

  function Min(a: int, b: int): int {
    if a < b then a else b
  }

  /** The bytes from `start` up to `end` exclusive, as far as the file goes. */
  function Slice(data: seq<Byte>, start: nat, end: nat): seq<Byte>
    requires start <= end
  {
    data[Min(start, |data|)..Min(end, |data|)]
  }

  /** What the range asks for. */
  function Content(data: seq<Byte>, r: ByteRange): seq<Byte>
    requires 0 <= r.start <= r.end
  {
    Slice(data, r.start, r.end + 1)
  }

  /** A file opened for reading. */
  class File {
    const data: seq<Byte>
    var pos: nat

    constructor (data: seq<Byte>)
      ensures this.data == data && pos == 0
    {
      this.data, pos := data, 0;
    }

    method Seek(to: nat)
      modifies this
      ensures pos == to
    {
      pos := to;
    }

    /** At most `n` bytes from the position; a negative `n` asks for all there are. */
    method Read(n: int) returns (chunk: seq<Byte>)
      modifies this
      ensures |chunk| <= |data| - Min(old(pos), |data|)
      ensures chunk == data[Min(old(pos), |data|)..Min(old(pos), |data|) + |chunk|]
      ensures pos == old(pos) + |chunk|
      ensures 0 <= n ==> |chunk| <= n
      ensures chunk == [] <==> n == 0 || old(pos) >= |data|
      ensures n < 0 ==> pos >= |data|
    {
      var at := Min(pos, |data|);
      var left := |data| - at;
      var size := if n < 0 then left else Min(n, left);
      if n > 0 {
        var short: int := *;
        if 0 < short < size { size := short; }
      }
      chunk := data[at..at + size];
      pos := pos + size;
    }
  }

  lemma ConcatGrows(chunks: seq<seq<Byte>>, chunk: seq<Byte>)
    ensures Concat(chunks + [chunk]) == Concat(chunks) + chunk
  {
    assert (chunks + [chunk])[..|chunks|] == chunks;
  }

  lemma SliceGrows(data: seq<Byte>, start: nat, at: nat, chunk: seq<Byte>)
    requires start <= at < |data| && at + |chunk| <= |data| && chunk == data[at..at + |chunk|]
    ensures Slice(data, start, at) + chunk == Slice(data, start, at + |chunk|)
  {
  }

  /**
    The range in chunks.  Exactly its bytes for every positive chunk size; nothing at all for size
    zero; and for a negative one, everything from its start.
   */
  method StreamByteRange(file: File, r: ByteRange, chunkSize: int) returns (chunks: seq<seq<Byte>>)
    requires 0 <= r.start <= r.end
    modifies file
    ensures chunkSize > 0 ==> Concat(chunks) == Content(file.data, r)
    ensures chunkSize == 0 ==> chunks == []
    ensures chunkSize < 0 ==> Concat(chunks) == file.data[Min(r.start, |file.data|)..]
    ensures forall i :: 0 <= i < |chunks| ==> chunks[i] != [] && (chunkSize > 0 ==> |chunks[i]| <= chunkSize)
  {
    chunks := [];
    var remaining := Length(r);
    file.Seek(r.start);
    while remaining > 0
      invariant chunkSize >= 0 ==> remaining == r.end + 1 - file.pos && r.start <= file.pos <= r.end + 1
      invariant chunkSize == 0 ==> chunks == []
      invariant chunkSize < 0 ==> if chunks == [] then remaining > 0 else file.pos >= |file.data|
      invariant r.start <= file.pos && (file.pos > |file.data| ==> file.pos == r.start)
      invariant Concat(chunks) == Slice(file.data, r.start, file.pos)
      invariant forall i :: 0 <= i < |chunks| ==> chunks[i] != [] && (chunkSize > 0 ==> |chunks[i]| <= chunkSize)
    {
      ghost var at := file.pos;
      var chunk := file.Read(Min(chunkSize, remaining));
      if chunk == [] { break; }
      SliceGrows(file.data, r.start, at, chunk);
      remaining := remaining - |chunk|;
      ConcatGrows(chunks, chunk);
      chunks := chunks + [chunk];
    }
  }

  /** The whole file in chunks. */
  method StreamFullFile(file: File, chunkSize: int) returns (chunks: seq<seq<Byte>>)
    requires file.pos == 0
    modifies file
    ensures chunkSize != 0 ==> Concat(chunks) == file.data
    ensures chunkSize == 0 ==> chunks == []
    ensures forall i :: 0 <= i < |chunks| ==> chunks[i] != [] && (chunkSize > 0 ==> |chunks[i]| <= chunkSize)
  {
    chunks := [];
    while true
      invariant file.pos <= |file.data| && Concat(chunks) == file.data[..file.pos]
      invariant chunkSize == 0 ==> chunks == []
      invariant forall i :: 0 <= i < |chunks| ==> chunks[i] != [] && (chunkSize > 0 ==> |chunks[i]| <= chunkSize)
      decreases |file.data| - file.pos
    {
      var chunk := file.Read(chunkSize);
      if chunk == [] { break; }
      ConcatGrows(chunks, chunk);
      chunks := chunks + [chunk];
    }
  }

  // ---------------------------------------------------------------- the response

  datatype Response =
    | Full(contentLength: int, chunks: seq<seq<Byte>>)                              // 200
    | Partial(contentRange: string, contentLength: int, chunks: seq<seq<Byte>>)     // 206
    | Refused(error: Error)                                                         // 416

  /** "bytes start-end/total" */
  function ContentRange(r: ByteRange): string
    requires 0 <= r.start && 0 <= r.end
  {
    "bytes " + Decimal(r.start) + "-" + Decimal(r.end) + "/" + Decimal(r.total)
  }

  /** `text` says "bytes a-b/c", with the ends and the total of `r` in decimal. */
  ghost predicate Tells(text: string, r: ByteRange) {
    exists a, b, c :: text == "bytes " + a + "-" + b + "/" + c && TellsNumbers(a, b, c, r)
  }

  predicate TellsNumbers(a: string, b: string, c: string, r: ByteRange) {
    AllDigits(a) && AllDigits(b) && AllDigits(c) && Value(a) == r.start && Value(b) == r.end && Value(c) == r.total
  }

  /** The header tells the ends and the total of the range, and those of no other one. */
  lemma ContentRangeIsReadBack(r: ByteRange, q: ByteRange)
    requires 0 <= r.start && 0 <= r.end
    ensures Tells(ContentRange(r), q) <==> q == r
  {
    var a, b, c := Decimal(r.start), Decimal(r.end), Decimal(r.total);
    DecimalRoundTrip(r.start);
    DecimalRoundTrip(r.end);
    DecimalRoundTrip(r.total);
    assert TellsNumbers(a, b, c, r);
    forall a', b', c' | ContentRange(r) == "bytes " + a' + "-" + b' + "/" + c' && TellsNumbers(a', b', c', q)
      ensures q == r
    {
      NumbersAreReadBack(a, b, c, a', b', c');
    }
  }

  lemma NumbersAreReadBack(a: string, b: string, c: string, a': string, b': string, c': string)
    requires "bytes " + a + "-" + b + "/" + c == "bytes " + a' + "-" + b' + "/" + c'
    requires AllDigits(a) && AllDigits(b) && AllDigits(a') && AllDigits(b')
    ensures a == a' && b == b' && c == c'
  {
    var text, text' := "bytes " + a + "-" + b + "/" + c, "bytes " + a' + "-" + b' + "/" + c';
    assert text[6..] == a + ("-" + b + "/" + c) && text'[6..] == a' + ("-" + b' + "/" + c');
    FirstNumber(a, "-" + b + "/" + c, a', "-" + b' + "/" + c');
    assert ("-" + b + "/" + c)[1..] == b + ("/" + c) && ("-" + b' + "/" + c')[1..] == b' + ("/" + c');
    FirstNumber(b, "/" + c, b', "/" + c');
    assert ("/" + c)[1..] == c && ("/" + c')[1..] == c';
  }

  /** A number ends where something else begins. */
  lemma FirstNumber(a: string, rest: string, a': string, rest': string)
    requires AllDigits(a) && AllDigits(a') && a + rest == a' + rest'
    requires rest != "" && !IsDigit(rest[0]) && rest' != "" && !IsDigit(rest'[0])
    ensures a == a' && rest == rest'
  {
    var text := a + rest;
    assert text[|a|] == rest[0] && text[|a'|] == rest'[0];
    assert forall i :: 0 <= i < |a| ==> IsDigit(text[i]);
    assert forall i :: 0 <= i < |a'| ==> IsDigit((a' + rest')[i]);
    assert a == text[..|a|] && a' == text[..|a'|];
    assert rest == text[|a|..] && rest' == text[|a'|..];
  }

  function Body(response: Response): seq<Byte>
    requires !response.Refused?
  {
    Concat(response.chunks)
  }

  /** What comes out for a chunk size: the wanted bytes, nothing for zero, all the rest for a negative one. */
  function Sent(wanted: seq<Byte>, rest: seq<Byte>, chunkSize: int): seq<Byte> {
    if chunkSize > 0 then wanted else if chunkSize == 0 then [] else rest
  }

  /**
    The file as a whole without a Range header; otherwise the range, if the header asks for one that
    the file has.  With a positive chunk size the body is exactly that, and as long as Content-Length
    says; a chunk size of zero sends nothing, and a negative one does not stop at the end of the range.
   */
  method SeekableResponse(data: seq<Byte>, header: Option<string>, chunkSize: int) returns (response: Response)
    ensures response.Full? <==> header.None?
    ensures response.Refused? <==> header.Some? && ParseRange(header.value, |data|).Err?
    ensures response.Full? ==> response.contentLength == |data| && Body(response) == Sent(data, data, chunkSize)
    ensures response.Partial? ==> (
      var r := ParseRange(header.value, |data|).range;
      AsksFor(header.value, r, |data|) && response.contentRange == ContentRange(r) && Tells(response.contentRange, r) &&
      response.contentLength == |data[r.start..r.end + 1]| &&
      Body(response) == Sent(data[r.start..r.end + 1], data[r.start..], chunkSize))
    ensures chunkSize > 0 && !response.Refused? ==> response.contentLength == |Body(response)|
  {
    var file := new File(data);
    if header.None? {
      var chunks := StreamFullFile(file, chunkSize);
      return Full(|data|, chunks);
    }
    var parsed := ParseRange(header.value, |data|);
    if parsed.Err? { return Refused(parsed.error); }
    ParseIsExact(header.value, |data|, parsed.range);
    ContentRangeIsReadBack(parsed.range, parsed.range);
    var chunks := StreamByteRange(file, parsed.range, chunkSize);
    return Partial(ContentRange(parsed.range), Length(parsed.range), chunks);
  }

  // ---------------------------------------------------------------- ranges together

  /** Each range starts where the one before ends, and together they reach from 0 to `upTo`. */
  predicate Consecutive(ranges: seq<ByteRange>, upTo: nat) {
    (ranges == [] ==> upTo == 0) &&
    (ranges != [] ==> ranges[0].start == 0 && ranges[|ranges| - 1].end + 1 == upTo) &&
    (forall i :: 0 <= i < |ranges| ==> 0 <= ranges[i].start <= ranges[i].end) &&
    (forall i :: 0 <= i < |ranges| - 1 ==> ranges[i + 1].start == ranges[i].end + 1)
  }

  function Contents(data: seq<Byte>, ranges: seq<ByteRange>): seq<seq<Byte>>
    requires forall i :: 0 <= i < |ranges| ==> 0 <= ranges[i].start <= ranges[i].end
  {
    seq(|ranges|, i requires 0 <= i < |ranges| => Content(data, ranges[i]))
  }

  /** Consecutive ranges fit together: what they ask for, one after the other, is the file up to where they reach. */
  lemma {:induction false} ConsecutiveRangesFit(data: seq<Byte>, ranges: seq<ByteRange>, upTo: nat)
    requires Consecutive(ranges, upTo)
    ensures Concat(Contents(data, ranges)) == data[..Min(upTo, |data|)]
  {
    if ranges != [] {
      var front, last := ranges[..|ranges| - 1], ranges[|ranges| - 1];
      FrontIsConsecutive(ranges, upTo);
      ConsecutiveRangesFit(data, front, last.start);
      assert Contents(data, ranges)[..|front|] == Contents(data, front);
      assert Contents(data, ranges)[|front|] == Content(data, last);
      assert data[..Min(last.start, |data|)] + Content(data, last) == data[..Min(upTo, |data|)];
    }
  }

  lemma FrontIsConsecutive(ranges: seq<ByteRange>, upTo: nat)
    requires Consecutive(ranges, upTo) && ranges != []
    ensures Consecutive(ranges[..|ranges| - 1], ranges[|ranges| - 1].start)
  {
    var n := |ranges| - 1;
    if n > 0 { assert ranges[n - 1 + 1].start == ranges[n - 1].end + 1; }
  }

  /** A download that broke off after `k` bytes is completed by asking for the rest. */
  lemma ResumingCompletes(data: seq<Byte>, k: nat)
    requires 0 < k < |data|
    ensures var head := ParseRange(PREFIX + Decimal(0) + "-" + Decimal(k - 1), |data|);
      var rest := ParseRange(PREFIX + Decimal(k) + "-", |data|);
      head.Ok? && rest.Ok? && Content(data, head.range) + Content(data, rest.range) == data
  {
    PrintedRangeParses(0, k - 1, |data|);
    PrintedRestParses(k, |data|);
    TwoRangesFit(data, k);
  }

  lemma TwoRangesFit(data: seq<Byte>, k: nat)
    requires 0 < k < |data|
    ensures Content(data, ByteRange(0, k - 1, |data|)) + Content(data, ByteRange(k, |data| - 1, |data|)) == data
  {
  }

  /** Asking for the last `n` bytes gives the last `n` bytes. */
  lemma SuffixIsTheEnd(data: seq<Byte>, n: nat)
    requires n > 0 && data != []
    ensures var r := ParseRange(PREFIX + "-" + Decimal(n), |data|);
      r.Ok? && Content(data, r.range) == data[|data| - Min(n, |data|)..]
  {
    PrintedSuffixParses(n, |data|);
  }
}
