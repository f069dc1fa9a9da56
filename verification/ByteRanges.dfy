/**
  The Range header of one byte range (RFC 9110, section 14.1.2): parsing, and what it means.
 */
module ByteRanges {
  import opened Options

  /** Both ends included. */
  datatype ByteRange = ByteRange(start: int, end: int, total: nat)

  /** All of them are answered with status 416. */
  datatype Error = InvalidHeader | MultiRange | OutOfBounds(total: nat)

  datatype Result = Ok(range: ByteRange) | Err(error: Error)

  const PREFIX := "bytes="

  function Length(r: ByteRange): int {
    r.end - r.start + 1
  }

  // ---------------------------------------------------------------- text

  predicate IsSpace(c: char) {
    c == ' ' || '\t' <= c <= '\r' || '\U{1c}' <= c <= '\U{1f}' || c == '\U{85}' || c == '\U{a0}'
  }

  predicate AllSpace(s: string) {
    forall i :: 0 <= i < |s| ==> IsSpace(s[i])
  }

  function StripLeft(s: string): (r: string) {
    if s != "" && IsSpace(s[0]) then StripLeft(s[1..]) else s
  }

  function StripRight(s: string): (r: string) {
    if s != "" && IsSpace(s[|s| - 1]) then StripRight(s[..|s| - 1]) else s
  }

  function Strip(s: string): string {
    StripRight(StripLeft(s))
  }

  predicate IsDigit(c: char) {
    '0' <= c <= '9'
  }

  predicate AllDigits(s: string) {
    s != "" && forall i :: 0 <= i < |s| ==> IsDigit(s[i])
  }

  function DigitValue(c: char): (d: nat)
    requires IsDigit(c)
    ensures d < 10
  {
    (c - '0') as int
  }

  function Value(s: string): nat
    requires forall i :: 0 <= i < |s| ==> IsDigit(s[i])
  {
    if s == "" then 0 else 10 * Value(s[..|s| - 1]) + DigitValue(s[|s| - 1])
  }

  function ToInt(s: string): Option<nat> {
    if AllDigits(s) then Some(Value(s)) else None
  }

  function Digit(d: nat): (c: char)
    requires d < 10
    ensures IsDigit(c) && DigitValue(c) == d
  {
    ['0', '1', '2', '3', '4', '5', '6', '7', '8', '9'][d]
  }

  function Decimal(n: nat): (s: string) {
    if n < 10 then [Digit(n)] else Decimal(n / 10) + [Digit(n % 10)]
  }

  /** Where the first '-' is, or the length. */
  function Dash(s: string): (i: nat)
    ensures i <= |s| && (i < |s| ==> s[i] == '-')
    ensures forall k :: 0 <= k < i ==> s[k] != '-'
  {
    if s == "" || s[0] == '-' then 0 else 1 + Dash(s[1..])
  }

  // ---------------------------------------------------------------- the parser

  /** The two ends that `first`-`last` stands for, before they are checked against the size. */
  function Ends(first: string, last: string, total: nat): Option<(int, int)> {
    if first == "" && last != "" then
      if ToInt(last).None? || ToInt(last).value <= 0 then None
      else Some((if total >= ToInt(last).value then total - ToInt(last).value else 0, total - 1))
    else if first != "" && last == "" then
      if ToInt(first).None? then None else Some((ToInt(first).value, total - 1))
    else if first != "" && last != "" then
      if ToInt(first).None? || ToInt(last).None? then None
      else Some((ToInt(first).value, if ToInt(last).value < total - 1 then ToInt(last).value else total - 1))
    else None
  }

  function ParseSpec(spec: string, total: nat): Result {
    if ',' in spec then Err(MultiRange)
    else if Dash(spec) == |spec| then Err(InvalidHeader)
    else
      var ends := Ends(spec[..Dash(spec)], spec[Dash(spec) + 1..], total);
      if ends.None? then Err(InvalidHeader)
      else if ends.value.0 < 0 || ends.value.0 >= total || ends.value.1 < ends.value.0 then Err(OutOfBounds(total))
      else Ok(ByteRange(ends.value.0, ends.value.1, total))
  }

  function ParseRange(header: string, total: nat): (r: Result)
    ensures r.Ok? ==> 0 <= r.range.start <= r.range.end < total && r.range.total == total
  {
    if PREFIX <= header then ParseSpec(Strip(header[|PREFIX|..]), total) else Err(InvalidHeader)
  }

  // ---------------------------------------------------------------- printing and reading numbers

  lemma {:induction false} DecimalRoundTrip(n: nat)
    ensures AllDigits(Decimal(n)) && Value(Decimal(n)) == n
  {
    if n >= 10 {
      DecimalRoundTrip(n / 10);
      assert Decimal(n)[..|Decimal(n)| - 1] == Decimal(n / 10);
    } else {
      assert Decimal(n)[..0] == "";
    }
  }

  // ---------------------------------------------------------------- what is accepted

  /** `spec` is one of the three forms of a single range, and asks for `r` out of `total` bytes. */
  ghost predicate Denotes(spec: string, r: ByteRange, total: nat) {
    r.total == total && 0 <= r.start <= r.end < total &&
    exists first, last :: spec == first + "-" + last && DenotesEnds(first, last, r)
  }

  /** first-last: up to the last byte there is; first-: the rest; -n: the last n bytes. */
  predicate DenotesEnds(first: string, last: string, r: ByteRange) {
    if first == "" then AllDigits(last) && r.end == r.total - 1 && LastBytes(r, Value(last))
    else
      AllDigits(first) && r.start == Value(first) &&
      if last == "" then r.end == r.total - 1
      else AllDigits(last) && r.end <= Value(last) && (r.end == Value(last) || r.end == r.total - 1)
  }

  predicate LastBytes(r: ByteRange, n: nat) {
    Length(r) <= n && (Length(r) == n || r.start == 0)
  }

  lemma SplitAtDash(spec: string, first: string, last: string)
    requires spec == first + "-" + last && '-' !in first
    ensures Dash(spec) == |first| && spec[..Dash(spec)] == first && spec[Dash(spec) + 1..] == last
  {
    assert spec[|first|] == '-';
    assert forall k :: 0 <= k < |first| ==> spec[k] == first[k] && first[k] in first;
    assert spec[..|first|] == first && spec[|first| + 1..] == last;
  }

  lemma {:induction false} StripLeftSplits(s: string) returns (lead: string)
    ensures s == lead + StripLeft(s) && AllSpace(lead)
  {
    if s != "" && IsSpace(s[0]) {
      var rest := StripLeftSplits(s[1..]);
      lead := [s[0]] + rest;
    } else {
      lead := "";
    }
  }

  lemma {:induction false} StripRightSplits(s: string) returns (trail: string)
    ensures s == StripRight(s) + trail && AllSpace(trail)
  {
    if s != "" && IsSpace(s[|s| - 1]) {
      var rest := StripRightSplits(s[..|s| - 1]);
      trail := rest + [s[|s| - 1]];
    } else {
      trail := "";
    }
  }

  /** Neither end is a space. */
  predicate Trimmed(s: string) {
    s != "" ==> !IsSpace(s[0]) && !IsSpace(s[|s| - 1])
  }

  lemma {:induction false} StripLeftTrims(lead: string, s: string)
    requires AllSpace(lead) && (s != "" ==> !IsSpace(s[0]))
    ensures StripLeft(lead + s) == s
  {
    if lead == "" {
      assert lead + s == s;
    } else {
      StripLeftTrims(lead[1..], s);
      assert (lead + s)[1..] == lead[1..] + s;
    }
  }

  lemma {:induction false} StripRightTrims(s: string, trail: string)
    requires AllSpace(trail) && (s != "" ==> !IsSpace(s[|s| - 1]))
    ensures StripRight(s + trail) == s
  {
    if trail == "" {
      assert s + trail == s;
    } else {
      StripRightTrims(s, trail[..|trail| - 1]);
      assert (s + trail)[..|s + trail| - 1] == s + trail[..|trail| - 1];
    }
  }

  lemma StripTrims(lead: string, s: string, trail: string)
    requires AllSpace(lead) && AllSpace(trail) && Trimmed(s) && s != ""
    ensures Strip(lead + s + trail) == s
  {
    assert lead + s + trail == lead + (s + trail);
    StripLeftTrims(lead, s + trail);
    StripRightTrims(s, trail);
  }

  /** Digits or nothing. */
  predicate Number(s: string) {
    s == "" || AllDigits(s)
  }

  lemma NumbersHaveNoSigns(s: string)
    requires Number(s)
    ensures ',' !in s && '-' !in s
  {
  }

  /** The accepted ends, and whether they lie in the file. */
  lemma EndsAreExact(first: string, last: string, total: nat, r: ByteRange)
    requires r.total == total && '-' !in first
    ensures 0 <= r.start <= r.end < total && DenotesEnds(first, last, r) <==>
      Ends(first, last, total) == Some((r.start, r.end)) && 0 <= r.start < total && r.start <= r.end
  {
  }

  lemma ParsedSpecsDenote(spec: string, total: nat, r: ByteRange)
    requires ParseSpec(spec, total) == Ok(r)
    ensures Denotes(spec, r, total)
  {
    var first, last := spec[..Dash(spec)], spec[Dash(spec) + 1..];
    assert spec == first + "-" + last;
    EndsAreExact(first, last, total, r);
  }

  lemma DenotedSpecsParse(first: string, last: string, total: nat, r: ByteRange)
    requires r.total == total && 0 <= r.start <= r.end < total && DenotesEnds(first, last, r)
    ensures ParseSpec(first + "-" + last, total) == Ok(r)
  {
    var spec := first + "-" + last;
    NumbersHaveNoSigns(first);
    NumbersHaveNoSigns(last);
    SplitAtDash(spec, first, last);
    EndsAreExact(first, last, total, r);
    assert ',' !in spec;
  }

  lemma DenotedSpecsAreTrimmed(spec: string, r: ByteRange, total: nat)
    requires Denotes(spec, r, total)
    ensures spec != "" && Trimmed(spec)
  {
    var first, last :| spec == first + "-" + last && DenotesEnds(first, last, r);
    assert spec[0] == (if first == "" then '-' else first[0]);
    assert spec[|spec| - 1] == (if last == "" then '-' else last[|last| - 1]);
  }

  /** The header is "bytes=", spaces, a single range that asks for `r`, spaces. */
  ghost predicate AsksFor(header: string, r: ByteRange, total: nat) {
    exists lead, spec, trail ::
      header == PREFIX + (lead + spec + trail) && AllSpace(lead) && AllSpace(trail) && Denotes(spec, r, total)
  }

  lemma AcceptedHeadersAsk(header: string, total: nat, r: ByteRange)
    requires ParseRange(header, total) == Ok(r)
    ensures AsksFor(header, r, total)
  {
    var body := header[|PREFIX|..];
    var lead := StripLeftSplits(body);
    var trail := StripRightSplits(StripLeft(body));
    ParsedSpecsDenote(Strip(body), total, r);
    assert header == PREFIX + (lead + Strip(body) + trail);
  }

  lemma AskingHeadersAreAccepted(lead: string, spec: string, trail: string, total: nat, r: ByteRange)
    requires AllSpace(lead) && AllSpace(trail) && Denotes(spec, r, total)
    ensures ParseRange(PREFIX + (lead + spec + trail), total) == Ok(r)
  {
    var first, last :| spec == first + "-" + last && DenotesEnds(first, last, r);
    DenotedSpecsAreTrimmed(spec, r, total);
    StripTrims(lead, spec, trail);
    DenotedSpecsParse(first, last, total, r);
    PrefixIsCutOff(lead + spec + trail);
  }

  lemma PrefixIsCutOff(body: string)
    ensures PREFIX <= PREFIX + body && (PREFIX + body)[|PREFIX|..] == body
  {
  }

  /** A header is accepted exactly when it asks for a range that the file has, and then as that range. */
  lemma ParseIsExact(header: string, total: nat, r: ByteRange)
    ensures ParseRange(header, total) == Ok(r) <==> AsksFor(header, r, total)
  {
    if ParseRange(header, total) == Ok(r) { AcceptedHeadersAsk(header, total, r); }
    if AsksFor(header, r, total) {
      var lead, spec, trail :|
        header == PREFIX + (lead + spec + trail) && AllSpace(lead) && AllSpace(trail) && Denotes(spec, r, total);
      AskingHeadersAreAccepted(lead, spec, trail, total, r);
    }
  }

  // ---------------------------------------------------------------- headers a client writes

  lemma PrintedIsTrimmed(first: string, last: string)
    requires Number(first) && Number(last)
    ensures Trimmed(first + "-" + last)
  {
    var spec := first + "-" + last;
    assert spec[0] == (if first == "" then '-' else first[0]);
    assert spec[|spec| - 1] == (if last == "" then '-' else last[|last| - 1]);
  }

  lemma ParsePrinted(first: string, last: string, total: nat)
    requires Number(first) && Number(last)
    ensures ParseRange(PREFIX + first + "-" + last, total) == ParseSpec(first + "-" + last, total)
    ensures var spec := first + "-" + last;
      ',' !in spec && Dash(spec) == |first| && spec[..Dash(spec)] == first && spec[Dash(spec) + 1..] == last
  {
    var spec := first + "-" + last;
    assert PREFIX + first + "-" + last == PREFIX + spec;
    PrefixIsCutOff(spec);
    PrintedIsTrimmed(first, last);
    StripTrims("", spec, "");
    assert "" + spec + "" == spec;
    NumbersHaveNoSigns(first);
    NumbersHaveNoSigns(last);
    SplitAtDash(spec, first, last);
    assert ',' !in spec;
  }

  lemma EndsOfPrinted(start: nat, end: nat, total: nat)
    ensures Ends(Decimal(start), Decimal(end), total) == Some((start, if end < total - 1 then end else total - 1))
  {
    DecimalRoundTrip(start);
    DecimalRoundTrip(end);
  }

  /** Printing both ends and parsing gives them back, the last one cut off at the end of the file. */
  lemma PrintedRangeParses(start: nat, end: nat, total: nat)
    ensures ParseRange(PREFIX + Decimal(start) + "-" + Decimal(end), total) ==
      if start < total && start <= end then Ok(ByteRange(start, if end < total then end else total - 1, total))
      else Err(OutOfBounds(total))
  {
    DecimalRoundTrip(start);
    DecimalRoundTrip(end);
    EndsOfPrinted(start, end, total);
    ParsePrinted(Decimal(start), Decimal(end), total);
  }

  lemma EndsOfSuffix(n: nat, total: nat)
    ensures Ends("", Decimal(n), total) ==
      if n == 0 then None else Some((if total >= n then total - n else 0, total - 1))
  {
    DecimalRoundTrip(n);
  }

  /** "-n" stands for the last n bytes, or for the whole file when it is shorter. */
  lemma PrintedSuffixParses(n: nat, total: nat)
    ensures ParseRange(PREFIX + "-" + Decimal(n), total) ==
      if n == 0 then Err(InvalidHeader)
      else if total == 0 then Err(OutOfBounds(total))
      else Ok(ByteRange(if n <= total then total - n else 0, total - 1, total))
  {
    DecimalRoundTrip(n);
    EndsOfSuffix(n, total);
    ParsePrinted("", Decimal(n), total);
    assert PREFIX + "" + "-" + Decimal(n) == PREFIX + "-" + Decimal(n);
  }

  /** "start-" stands for everything from there on. */
  lemma PrintedRestParses(start: nat, total: nat)
    ensures ParseRange(PREFIX + Decimal(start) + "-", total) ==
      if start < total then Ok(ByteRange(start, total - 1, total)) else Err(OutOfBounds(total))
  {
    DecimalRoundTrip(start);
    ParsePrinted(Decimal(start), "", total);
    assert PREFIX + Decimal(start) + "-" + "" == PREFIX + Decimal(start) + "-";
  }
}
