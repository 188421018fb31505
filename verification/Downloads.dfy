/** Byte-limited downloads and the size limit they share with the uploader and yt-dlp
    (crates/downloader/src/http.rs, telegram.rs, ytdlp.rs; crates/drive/src/resumable.rs). */
module Downloads {
  import opened Common
  import opened DriveSession
  import opened ResumableUpload
  import opened Uploader

  datatype Item = Chunk(bytes: seq<byte>) | Lost

  /** The chunks of a stream up to where it is lost. */
  function Received(stream: seq<Item>): seq<byte> {
    if stream == [] || stream[0].Lost? then [] else stream[0].bytes + Received(stream[1..])
  }

  predicate Complete(stream: seq<Item>) {
    forall i | 0 <= i < |stream| :: stream[i].Chunk?
  }

  /** A reply to a GET: no answer at all, or a status, an announced length, the destination its headers lead to, and
      the body as it arrives. */
  datatype Response =
    | NoResponse
    | Response(status: nat, contentLength: Option<nat>, dest: string, stream: seq<Item>)

  datatype DownloadError =
    | SendFailed
    | HttpStatus(status: nat)
    | TooLong(len: nat)
    | StreamFailed
    | Exceeded
    | DiskFailed

  /** The job's directory on a disk with `free` bytes left. `answers` is what creating and flushing files comes to,
      `failed` tells whether the disk ever failed, `peak` is the largest size any file has had. */
  class Scratch {
    var files: map<string, seq<byte>>
    var free: nat
    var answers: seq<bool>
    var failed: bool
    ghost var peak: nat

    constructor (free: nat, answers: seq<bool>)
      ensures files == map[] && peak == 0 && !failed
    {
      files := map[];
      this.free, this.answers, this.failed := free, answers, false;
      peak := 0;
    }

    /** A call that may fail without doing anything. */
    method Attempt() returns (ok: bool)
      modifies this`answers, this`failed
      ensures failed == (old(failed) || !ok)
    {
      ok := answers == [] || answers[0];
      answers := if answers == [] then [] else answers[1..];
      failed := failed || !ok;
    }

    /** `create_dir_all` and `File::create`, which truncates. */
    method Create(path: string) returns (ok: bool)
      modifies this
      ensures files == (if ok then old(files)[path := []] else old(files)) && peak == old(peak)
      ensures failed == (old(failed) || !ok)
    {
      ok := Attempt();
      if ok {
        files := files[path := []];
      }
    }

    /** `flush`: everything has been written before, but it may still report an error. */
    method Flush() returns (ok: bool)
      modifies this`answers, this`failed
      ensures failed == (old(failed) || !ok)
    {
      ok := Attempt();
    }

    /** `write_all`: all of the bytes or, when the disk is full, some of them and an error. */
    method Append(path: string, bytes: seq<byte>) returns (ok: bool)
      requires path in files
      modifies this
      ensures path in files
      ensures files == old(files)[path := files[path]]
      ensures failed == (old(failed) || !ok)
      ensures ok ==> files[path] == old(files)[path] + bytes
      ensures !ok ==> exists n: nat :: n < |bytes| && files[path] == old(files)[path] + bytes[..n]
      ensures peak == if |files[path]| > old(peak) then |files[path]| else old(peak)
    {
      var n := Min(free, |bytes|);
      files := files[path := files[path] + bytes[..n]];
      free := free - n;
      if |files[path]| > peak {
        peak := |files[path]|;
      }
      ok := n == |bytes|;
      failed := failed || !ok;
      assert ok ==> bytes[..n] == bytes;
    }
  }

  lemma {:induction false} ReceivedSnoc(stream: seq<Item>, item: Item)
    requires Complete(stream) && item.Chunk?
    ensures Complete(stream + [item])
    ensures Received(stream + [item]) == Received(stream) + item.bytes
    decreases |stream|
  {
    if stream == [] {
      assert ([] + [item])[1..] == [];
      assert Received([item]) == item.bytes + Received([]);
    } else {
      assert (stream + [item])[1..] == stream[1..] + [item];
      ReceivedSnoc(stream[1..], item);
    }
  }

  /** Some chunks at the front of a stream are more than the limit. */
  ghost predicate Overflows(stream: seq<Item>, limit: nat) {
    exists i | 0 <= i <= |stream| :: Complete(stream[..i]) && |Received(stream[..i])| > limit
  }

  /** The loop both downloaders share: it appends chunks as long as the total stays within the limit. The file never
      holds more than the limit, and after success it holds the whole stream and nothing else. */
  method CopyLimited(scratch: Scratch, path: string, stream: seq<Item>, limit: nat)
      returns (r: Result<(), DownloadError>)
    requires path in scratch.files && scratch.files[path] == []
    modifies scratch
    ensures path in scratch.files && scratch.files == old(scratch.files)[path := scratch.files[path]]
    ensures scratch.peak <= if old(scratch.peak) > limit then old(scratch.peak) else limit
    ensures |scratch.files[path]| <= limit
    ensures r.Ok? ==> Complete(stream) && scratch.files[path] == Received(stream) && |Received(stream)| <= limit
    ensures r == Err(Exceeded) ==> Overflows(stream, limit)
    ensures r == Err(StreamFailed) ==> !Complete(stream)
    ensures r.Err? ==> r.error.Exceeded? || r.error.StreamFailed? || r.error.DiskFailed?
    ensures scratch.failed == (old(scratch.failed) || r == Err(DiskFailed))
  {
    var downloaded := 0;
    assert stream[..0] == [];
    for i := 0 to |stream|
      invariant path in scratch.files && scratch.files == old(scratch.files)[path := scratch.files[path]]
      invariant Complete(stream[..i]) && scratch.files[path] == Received(stream[..i])
      invariant downloaded == |scratch.files[path]| <= limit
      invariant scratch.failed == old(scratch.failed)
      invariant scratch.peak <= if old(scratch.peak) > limit then old(scratch.peak) else limit
    {
      assert stream[..i + 1] == stream[..i] + [stream[i]];
      if stream[i].Lost? {
        return Err(StreamFailed);
      }
      var chunk := stream[i].bytes;
      ReceivedSnoc(stream[..i], stream[i]);
      downloaded := downloaded + |chunk|;
      if downloaded > limit {
        return Err(Exceeded);
      }
      var ok := scratch.Append(path, chunk);
      if !ok {
        return Err(DiskFailed);
      }
    }
    assert stream[..|stream|] == stream;
    r := Ok(());
  }

  predicate StatusOk(status: nat) {
    200 <= status < 300
  }

  /** A response that the limits, the network and the status allow to be stored. */
  predicate Acceptable(response: Response, limit: nat) {
    && response.Response?
    && StatusOk(response.status)
    && (response.contentLength.Some? ==> response.contentLength.value <= limit)
    && Complete(response.stream)
    && |Received(response.stream)| <= limit
  }

  method DownloadOnce(scratch: Scratch, response: Response, limit: nat) returns (r: Result<string, DownloadError>)
    requires scratch.peak <= limit
    modifies scratch
    ensures scratch.peak <= limit
    ensures r.Ok? ==>
              && Acceptable(response, limit)
              && r.value == response.dest && r.value in scratch.files
              && scratch.files[r.value] == Received(response.stream)
    ensures Acceptable(response, limit) && !scratch.failed ==> r.Ok?
    ensures old(scratch.failed) ==> scratch.failed
    ensures r.Err? ==>
              match r.error
              case SendFailed => response.NoResponse?
              case HttpStatus(_) => response.Response? && !StatusOk(response.status)
              case TooLong(len) => response.Response? && response.contentLength == Some(len) && len > limit
              case StreamFailed => response.Response? && !Complete(response.stream)
              case Exceeded => response.Response? && Overflows(response.stream, limit)
              case DiskFailed => scratch.failed
    ensures response.NoResponse? ==> r == Err(SendFailed)
    ensures response.Response? && !StatusOk(response.status) ==> r == Err(HttpStatus(response.status))
    ensures (response.Response? && StatusOk(response.status)
             && response.contentLength.Some? && response.contentLength.value > limit) ==>
              r == Err(TooLong(response.contentLength.value))
    ensures forall path | path in old(scratch.files) && (response.NoResponse? || path != response.dest) ::
              path in scratch.files && scratch.files[path] == old(scratch.files)[path]
  {
    if response.NoResponse? {
      return Err(SendFailed);
    }
    if !StatusOk(response.status) {
      return Err(HttpStatus(response.status));
    }
    if response.contentLength.Some? && response.contentLength.value > limit {
      return Err(TooLong(response.contentLength.value));
    }
    var created := scratch.Create(response.dest);
    if !created {
      return Err(DiskFailed);
    }
    var copied := CopyLimited(scratch, response.dest, response.stream, limit);
    if copied.Err? {
      PrefixesFit(response.stream, limit);
      return Err(copied.error);
    }
    var flushed := scratch.Flush();
    r := if flushed then Ok(response.dest) else Err(DiskFailed);
  }

  /** No part of a stream within the limit exceeds it. */
  lemma PrefixesFit(stream: seq<Item>, limit: nat)
    ensures Complete(stream) && |Received(stream)| <= limit ==>
              forall i | 0 <= i <= |stream| :: |Received(stream[..i])| <= limit
  {
    if Complete(stream) {
      forall i | 0 <= i <= |stream|
        ensures |Received(stream[..i])| <= |Received(stream)|
      {
        ReceivedPrefix(stream, i);
      }
    }
  }

  lemma {:induction false} ReceivedPrefix(stream: seq<Item>, i: nat)
    requires Complete(stream) && i <= |stream|
    ensures |Received(stream[..i])| <= |Received(stream)|
    decreases |stream|
  {
    if i > 0 {
      assert stream[..i][1..] == stream[1..][..i - 1];
      ReceivedPrefix(stream[1..], i - 1);
    }
  }

  /** One retry. On success the file holds the chunks of the last attempt only, even when an earlier attempt left part
      of its own in the same file; and it is within the limit. */
  method DownloadDirect(scratch: Scratch, first: Response, second: Response, limit: nat)
      returns (r: Result<string, DownloadError>, ghost last: Response)
    requires scratch.peak <= limit
    modifies scratch
    ensures scratch.peak <= limit
    ensures Acceptable(first, limit) && !scratch.failed ==> last == first && r.Ok?
    ensures !Acceptable(first, limit) ==> last == second && (Acceptable(second, limit) && !scratch.failed ==> r.Ok?)
    ensures last == first || last == second
    ensures r.Err? ==> last == second
    ensures old(scratch.failed) ==> scratch.failed
    ensures r.Ok? ==>
              && Acceptable(last, limit) && r.value == last.dest
              && r.value in scratch.files
              && scratch.files[r.value] == Received(last.stream)
              && |scratch.files[r.value]| <= limit
  {
    r := DownloadOnce(scratch, first, limit);
    last := first;
    if r.Err? {
      r := DownloadOnce(scratch, second, limit);
      last := second;
    }
  }

  /** The same loop behind the Bot API: `size` is what `get_file` announced. */
  method DownloadTelegramFile(scratch: Scratch, size: Option<nat>, dest: string, stream: seq<Item>, limit: nat)
      returns (r: Result<string, DownloadError>)
    requires scratch.peak <= limit
    modifies scratch
    ensures scratch.peak <= limit
    ensures r.Ok? ==>
              && r.value == dest && dest in scratch.files
              && scratch.files[dest] == Received(stream) && Complete(stream)
              && |Received(stream)| <= limit && size.Some? && size.value <= limit
    ensures size.Some? && size.value <= limit && Complete(stream) && |Received(stream)| <= limit && !scratch.failed ==>
              r.Ok?
    ensures size.None? ==> r == Err(SendFailed)
    ensures r.Err? ==>
              match r.error
              case SendFailed => size.None?
              case HttpStatus(_) => false
              case TooLong(len) => size == Some(len) && len > limit
              case StreamFailed => !Complete(stream)
              case Exceeded => Overflows(stream, limit)
              case DiskFailed => scratch.failed
    ensures size.Some? && size.value > limit ==> r == Err(TooLong(size.value)) && scratch.files == old(scratch.files)
  {
    if size.None? {
      return Err(SendFailed);
    }
    if size.value > limit {
      return Err(TooLong(size.value));
    }
    var created := scratch.Create(dest);
    if !created {
      return Err(DiskFailed);
    }
    var copied := CopyLimited(scratch, dest, stream, limit);
    if copied.Err? {
      PrefixesFit(stream, limit);
      return Err(copied.error);
    }
    var flushed := scratch.Flush();
    r := if flushed then Ok(dest) else Err(DiskFailed);
  }

  /** A direct link from end to end under one limit: the uploader's own size check never fails, and a file id means
      that the drive holds exactly what the last download attempt received. If nothing fails on the way it ends so for
      every download that is not empty. */
  method DirectToDrive(scratch: Scratch, first: Response, second: Response, limit: nat, session: Session,
                       shortReads: seq<Option<nat>>, chunkSize: nat, startFailure: Option<UploadError>)
      returns (r: Result<Outcome, DownloadError>, ghost last: Response)
    requires scratch.peak <= limit && session.Valid() && session.log == []
    requires startFailure.Some? ==> !startFailure.value.TooLarge?
    modifies scratch, session
    ensures r.Err? ==> session.log == []
    ensures (Acceptable(first, limit) || Acceptable(second, limit)) && !scratch.failed ==> r.Ok?
    ensures r.Ok? ==> (last == first || last == second) && Acceptable(last, limit)
    ensures r.Ok? && r.value.Err? ==> !r.value.error.TooLarge?
    ensures r.Ok? && startFailure.Some? ==> r.value == Err(startFailure.value) && session.log == []
    ensures r.Ok? && startFailure.None? ==>
              StopsWith(Received(last.stream), |Received(last.stream)|, chunkSize, session.log, r.value)
    ensures r.Ok? && startFailure.None? && WellServed(session.log) && NoneFails(shortReads) ==>
              (|Received(last.stream)| < TWO_64 && chunkSize > 0 ==> (r.value.Ok? <==> Received(last.stream) != []))
    ensures r.Ok? && r.value.Ok? ==> StoredAfter(session.log) == Received(last.stream)
  {
    var downloaded;
    downloaded, last := DownloadDirect(scratch, first, second, limit);
    if downloaded.Err? {
      return Err(downloaded.error), last;
    }
    var file := new LocalFile(scratch.files[downloaded.value], shortReads);
    var outcome := UploadResumable(session, file, limit, chunkSize, startFailure);
    if startFailure.None? {
      StopsNotTooLarge(file.data, |file.data|, chunkSize, session.log, outcome);
    }
    r := Ok(outcome);
  }

  lemma StopsNotTooLarge(data: seq<byte>, total: nat, chunkSize: nat, log: seq<Exchange>, outcome: Outcome)
    requires StopsWith(data, total, chunkSize, log, outcome)
    ensures outcome.Err? ==> !outcome.error.TooLarge?
  {
  }
}
