/** The headers and offsets of a resumable upload. */
module UploadRanges {
  import opened Common
  import opened Decimal
  import opened Text
  import opened DriveSession
  import opened ResumableUpload

  function RangeHeader(first: nat, last: nat): string {
    "bytes=" + Print(first) + "-" + Print(last)
  }

  /** The first separator of `digits + [c] + rest` is the one after the digits. */
  lemma SplitAfterDigits(digits: string, c: char, rest: string)
    requires AllDigits(digits) && !IsDigit(c)
    ensures SplitOnce(digits + [c] + rest, [c]) == Some((digits, rest))
  {
    var s := digits + [c] + rest;
    forall j | 0 <= j < |digits|
      ensures !([c] <= s[j..])
    {
      assert s[j..][0] == digits[j] && IsDigit(digits[j]);
    }
    SplitOnceAt(digits, [c], rest);
  }

  /** Reading the end of a byte range undoes its decimal printing, for every `u64`. */
  lemma RangeRoundTrip(first: nat, last: nat)
    requires last < TWO_64
    ensures ParseBytesRangeEnd(RangeHeader(first, last)) == Some(last)
  {
    ValuePrint(first);
    SplitAfterDigits(Print(first), '-', Print(last));
    ParsePrint(last);
    assert RangeHeader(first, last) == "bytes=" + (Print(first) + ['-'] + Print(last));
    assert RangeHeader(first, last)[|"bytes="|..] == Print(first) + ['-'] + Print(last);
  }

  /** The header value of a request. */
  function ContentRange(put: Put): string {
    "bytes " + Print(put.first) + "-" + Print(put.last) + "/" + Print(put.total)
  }

  /** A reader for the Content-Range of section 14.4 of RFC 9110: range unit, first and last position, length. */
  function ReadContentRange(s: string): Option<(nat, nat, nat)> {
    match StripPrefix(s, "bytes ")
    case None => None
    case Some(rest) =>
      match SplitOnce(rest, "-")
      case None => None
      case Some((first, afterFirst)) =>
        match SplitOnce(afterFirst, "/")
        case None => None
        case Some((last, total)) =>
          match (ParseU64(first), ParseU64(last), ParseU64(total))
          case (Some(a), Some(b), Some(c)) => Some((a, b, c))
          case _ => None
  }

  lemma ContentRangeRoundTrip(put: Put)
    requires put.first < TWO_64 && put.last < TWO_64 && put.total < TWO_64
    ensures ReadContentRange(ContentRange(put)) == Some((put.first, put.last, put.total))
  {
    var first, last, total := Print(put.first), Print(put.last), Print(put.total);
    assert ContentRange(put) == "bytes " + (first + ['-'] + (last + ['/'] + total));
    SplitPrinted(put.first, '-', last + ['/'] + total);
    SplitPrinted(put.last, '/', total);
    ParsePrint(put.total);
    ReadParts(first, last, total);
  }

  /** A text of three parts between its separators. */
  lemma ReadParts(first: string, last: string, total: string)
    requires var tail := last + ['/'] + total;
             && SplitOnce(first + ['-'] + tail, "-") == Some((first, tail))
             && SplitOnce(tail, "/") == Some((last, total))
    requires ParseU64(first).Some? && ParseU64(last).Some? && ParseU64(total).Some?
    ensures ReadContentRange("bytes " + (first + ['-'] + (last + ['/'] + total)))
            == Some((ParseU64(first).value, ParseU64(last).value, ParseU64(total).value))
  {
    StripPrefixOf("bytes ", first + ['-'] + (last + ['/'] + total));
  }

  lemma SplitPrinted(n: nat, c: char, rest: string)
    requires n < TWO_64 && !IsDigit(c)
    ensures SplitOnce(Print(n) + [c] + rest, [c]) == Some((Print(n), rest)) && ParseU64(Print(n)) == Some(n)
  {
    ValuePrint(n);
    ParsePrint(n);
    SplitAfterDigits(Print(n), c, rest);
  }

  /** The drive says truly what it holds, and leaves the range out only after it took the chunk whole. */
  predicate TellsTruth(ex: Exchange) {
    IsIncomplete(ex.answer) ==>
      match ex.answer.range
      case Some(text) => |ex.stored| > 0 && text == RangeHeader(0, |ex.stored| - 1)
      case None => |ex.stored| == ex.put.last + 1
  }

  lemma NextAfterText(text: string, end: nat, last: nat)
    requires ParseBytesRangeEnd(text) == Some(end) && end + 1 < TWO_64
    ensures NextOffset(Some(text), last) == end + 1
  {
  }

  /** The client's next offset after a header that reports `stored` bytes. */
  lemma NextAfterHeader(stored: nat, last: nat)
    requires 0 < stored < TWO_64
    ensures NextOffset(Some(RangeHeader(0, stored - 1)), last) == stored
  {
    var end := stored - 1;
    RangeRoundTrip(0, end);
    NextAfterText(RangeHeader(0, end), end, last);
  }

  lemma TruthfulNext(ex: Exchange)
    requires TellsTruth(ex) && IsIncomplete(ex.answer) && |ex.stored| < TWO_64
    ensures NextOffset(ex.answer.range, ex.put.last) == |ex.stored|
  {
    if ex.answer.range.Some? {
      NextAfterHeader(|ex.stored|, ex.put.last);
    }
  }

  /** A phase at an offset comes from a 308. */
  lemma AtOffsetFrom308(data: seq<byte>, total: nat, chunkSize: nat, log: seq<Exchange>)
    requires log != [] && PhaseAfter(data, total, chunkSize, log).AtOffset?
    ensures IsIncomplete(Last(log).answer)
    ensures PhaseAfter(data, total, chunkSize, log).offset == NextOffset(Last(log).answer.range, Last(log).put.last)
  {
  }

  /** After every 308 the client goes on exactly where the drive stopped. */
  lemma OffsetIsStoredLength(data: seq<byte>, total: nat, chunkSize: nat, log: seq<Exchange>)
    requires LawfulLog(log) && OnProtocol(data, total, chunkSize, log) && |data| < TWO_64
    requires forall i | 0 <= i < |log| :: TellsTruth(log[i])
    requires PhaseAfter(data, total, chunkSize, log).AtOffset?
    ensures PhaseAfter(data, total, chunkSize, log).offset == |StoredAfter(log)|
  {
    if log != [] {
      var ex := log[|log| - 1];
      AtOffsetFrom308(data, total, chunkSize, log);
      StoredIsPrefix(data, total, chunkSize, log);
      assert TellsTruth(ex) && ex.stored <= data;
      TruthfulNext(ex);
    }
  }

  /** The other convention a drive may follow: a 308 without a range means that nothing is stored. */
  predicate OmitsRangeWhenEmpty(ex: Exchange) {
    IsIncomplete(ex.answer) ==>
      ex.answer.range == if ex.stored == [] then None else Some(RangeHeader(0, |ex.stored| - 1))
  }

  /** For such a drive the client's next offset is right exactly when something is stored. */
  lemma OffsetRightIffStored(ex: Exchange)
    requires OmitsRangeWhenEmpty(ex) && IsIncomplete(ex.answer)
    requires |ex.stored| < TWO_64 && ex.put.last + 1 < TWO_64
    ensures NextOffset(ex.answer.range, ex.put.last) == |ex.stored| <==> ex.stored != []
  {
    if ex.stored != [] {
      NextAfterHeader(|ex.stored|, ex.put.last);
    }
  }

  /** An example of the wrong case, with the smallest chunk size: a short read sends the first byte of a two-byte
      file, the drive takes nothing, and the client goes on with the second. By `SuccessMeansStored` such an upload
      cannot end in a false success. */
  lemma OffsetSkipsExample() returns (log: seq<Exchange>)
    ensures LawfulLog(log) && (forall ex :: ex in log ==> OmitsRangeWhenEmpty(ex))
    ensures PhaseAfter([1, 2], 2, MIN_CHUNK, log) == AtOffset(1) && StoredAfter(log) == []
  {
    var ex := Exchange(Put(0, 0, 2, [1]), 0, 0, Answer(308, None, None), [], 0);
    log := [ex];
    assert Front(log) == [];
    assert [1, 2][0..1] == [1 as byte];
    assert ex.stored == Store([], ex.put, 0, 0);
  }
}
