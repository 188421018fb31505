/** The client of a resumable upload (crates/drive/src/resumable.rs). */
module ResumableUpload {
  import opened Common
  import opened Decimal
  import opened Text
  import opened DriveSession

  const CHUNK_PUT_RETRIES: nat := 3

  datatype UploadError =
    | TooLarge(size: nat, limit: nat)
    | ReadFailed
    | Stalled(offset: nat)
    | NoFileId                     // the loop ended without one
    | Transport
    | MissingId                    // a success without one
    | Rejected(status: nat)

  type Outcome = Result<string, UploadError>

  /** What the client makes of an answer to a PUT that ended at byte `last` and was retried `attempt` times. */
  datatype Verdict = Done(id: string) | ResumeFrom(offset: nat) | Again | GiveUp(error: UploadError)

  function ParseBytesRangeEnd(range: string): Option<nat> {
    match StripPrefix(range, "bytes=")
    case None => None
    case Some(rest) =>
      match SplitOnce(rest, "-")
      case None => None
      case Some((_, end)) => ParseU64(end)
  }

  /** Additions of the release build wrap. */
  function WrappingSucc(n: nat): nat {
    (n + 1) % TWO_64
  }

  function NextOffset(range: Option<string>, last: nat): nat {
    match range
    case None => WrappingSucc(last)
    case Some(text) =>
      match ParseBytesRangeEnd(text)
      case Some(end) => WrappingSucc(end)
      case None => WrappingSucc(last)
  }

  function Judge(a: Answer, last: nat, attempt: nat): Verdict {
    if a.Broken? then GiveUp(Transport)
    else if IsSuccess(a) then
      if a.id.Some? then Done(a.id.value) else GiveUp(MissingId)
    else if IsIncomplete(a) then ResumeFrom(NextOffset(a.range, last))
    else if IsRetryable(a) && attempt < CHUNK_PUT_RETRIES then Again
    else GiveUp(Rejected(a.status))
  }

  /** Seconds before retry number `attempt`: 1 << min(attempt, 2). */
  function Backoff(attempt: nat): nat {
    if attempt == 0 then 1 else if attempt == 1 then 2 else 4
  }

  /** Where the client is between two requests. `OffProtocol` means the log is not one the client produces. */
  datatype Phase =
    | AtOffset(offset: nat)
    | Retrying(put: Put, attempt: nat)
    | Ended(outcome: Outcome)
    | OffProtocol

  predicate IsChunk(data: seq<byte>, total: nat, chunkSize: nat, offset: nat, put: Put) {
    && put.first == offset
    && 0 < |put.body| <= chunkSize
    && offset + |put.body| <= |data|
    && put.body == data[offset..offset + |put.body|]
    && put.last == offset + |put.body| - 1
    && put.total == total
  }

  function AfterAnswer(ex: Exchange, attempt: nat): Phase {
    match Judge(ex.answer, ex.put.last, attempt)
    case Done(id) => if ex.wait == 0 then Ended(Ok(id)) else OffProtocol
    case ResumeFrom(next) => if ex.wait == 0 then AtOffset(next) else OffProtocol
    case Again => if ex.wait == Backoff(attempt + 1) then Retrying(ex.put, attempt + 1) else OffProtocol
    case GiveUp(error) => if ex.wait == 0 then Ended(Err(error)) else OffProtocol
  }

  function Advance(data: seq<byte>, total: nat, chunkSize: nat, phase: Phase, ex: Exchange): Phase {
    match phase
    case AtOffset(offset) =>
      if offset < total && IsChunk(data, total, chunkSize, offset, ex.put) then AfterAnswer(ex, 0) else OffProtocol
    case Retrying(put, attempt) => if ex.put == put then AfterAnswer(ex, attempt) else OffProtocol
    case _ => OffProtocol
  }

  /** The client's protocol as a function of what has gone over the wire. */
  function PhaseAfter(data: seq<byte>, total: nat, chunkSize: nat, log: seq<Exchange>): Phase {
    if log == [] then AtOffset(0)
    else Advance(data, total, chunkSize, PhaseAfter(data, total, chunkSize, Front(log)), Last(log))
  }

  /** The outcomes a client may return with once it stops sending. */
  predicate StopsWith(data: seq<byte>, total: nat, chunkSize: nat, log: seq<Exchange>, outcome: Outcome) {
    match PhaseAfter(data, total, chunkSize, log)
    case Ended(end) => outcome == end
    case AtOffset(offset) =>
      if offset >= total then outcome == Err(NoFileId)
      else if chunkSize == 0 || offset >= |data| then outcome == Err(Stalled(offset)) || outcome == Err(ReadFailed)
      else outcome == Err(ReadFailed)
    case _ => false
  }

  /** Where the client is before request number `attempt` for a chunk. */
  function BeforePut(put: Put, attempt: nat): Phase {
    if attempt == 0 then AtOffset(put.first) else Retrying(put, attempt)
  }

  /** One more request for a chunk, answered by `ex` before any waiting: where the verdict leads. */
  lemma PutStep(data: seq<byte>, total: nat, chunkSize: nat, log: seq<Exchange>, put: Put, ex: Exchange,
                attempt: nat)
    requires put.first < total && IsChunk(data, total, chunkSize, put.first, put)
    requires PhaseAfter(data, total, chunkSize, log) == BeforePut(put, attempt) && ex.put == put && ex.wait == 0
    ensures var phase := PhaseAfter(data, total, chunkSize, log + [ex]);
            match Judge(ex.answer, put.last, attempt)
            case Done(id) => phase == Ended(Ok(id))
            case ResumeFrom(next) => phase == AtOffset(next)
            case GiveUp(error) => phase == Ended(Err(error))
            case Again =>
              PhaseAfter(data, total, chunkSize, log + [ex.(wait := Backoff(attempt + 1))])
              == Retrying(put, attempt + 1)
  {
    FrontLast(log, ex);
    FrontLast(log, ex.(wait := Backoff(attempt + 1)));
  }

  /** Where the client is once it knows what to make of an answer. */
  function AfterPut(put: Put, attempt: nat, verdict: Verdict): Phase {
    match verdict
    case Done(id) => Ended(Ok(id))
    case ResumeFrom(next) => AtOffset(next)
    case GiveUp(error) => Ended(Err(error))
    case Again => Retrying(put, attempt + 1)
  }

  /** One pass of the retry loop: a request and, if it is to be repeated, the wait before that. */
  method PutOnce(session: Session, put: Put, attempt: nat, ghost data: seq<byte>, ghost total: nat,
                 ghost chunkSize: nat)
      returns (verdict: Verdict)
    requires session.Valid()
    requires PhaseAfter(data, total, chunkSize, session.log) == BeforePut(put, attempt)
    requires put.first < total && IsChunk(data, total, chunkSize, put.first, put)
    modifies session
    ensures session.Valid() && |session.log| == |old(session.log)| + 1 && old(session.log) <= session.log
    ensures Last(session.log).put == put
    ensures |session.script| <= |old(session.script)|
    ensures verdict.ResumeFrom? ==> |session.script| < |old(session.script)|
    ensures verdict.Again? ==> attempt < CHUNK_PUT_RETRIES
    ensures PhaseAfter(data, total, chunkSize, session.log) == AfterPut(put, attempt, verdict)
  {
    ghost var before := session.log;
    var answer := session.Send(put);
    ghost var ex := Last(session.log);
    PutStep(data, total, chunkSize, before, put, ex, attempt);
    FrontLast(before, ex);
    verdict := Judge(answer, put.last, attempt);
    if verdict.Again? {
      session.Sleep(Backoff(attempt + 1));
    }
  }

  /** From number `n` on, every request is `put`. */
  predicate RepeatsFrom(log: seq<Exchange>, n: nat, put: Put) {
    forall i | n <= i < |log| :: log[i].put == put
  }

  lemma RepeatsSnoc(log: seq<Exchange>, longer: seq<Exchange>, n: nat, put: Put)
    requires log <= longer && |longer| == |log| + 1 && Last(longer).put == put && RepeatsFrom(log, n, put)
    ensures RepeatsFrom(longer, n, put)
  {
    assert forall i | 0 <= i < |log| :: longer[i] == log[i];
  }

  method PutChunkWithRetries(session: Session, put: Put, ghost data: seq<byte>, ghost total: nat, ghost chunkSize: nat)
      returns (verdict: Verdict)
    requires session.Valid()
    requires PhaseAfter(data, total, chunkSize, session.log) == AtOffset(put.first)
    requires put.first < total && IsChunk(data, total, chunkSize, put.first, put)
    modifies session
    ensures session.Valid()
    ensures |old(session.log)| < |session.log| <= |old(session.log)| + 1 + CHUNK_PUT_RETRIES
    ensures old(session.log) <= session.log
    ensures RepeatsFrom(session.log, |old(session.log)|, put)
    ensures verdict.ResumeFrom? ==> |session.script| < |old(session.script)|
    ensures !verdict.Again? && PhaseAfter(data, total, chunkSize, session.log) == AfterPut(put, 0, verdict)
  {
    var attempt := 0;
    verdict := Again;
    while verdict.Again?
      invariant session.Valid() && attempt <= CHUNK_PUT_RETRIES + 1
      invariant old(session.log) <= session.log && |session.log| == |old(session.log)| + attempt
      invariant RepeatsFrom(session.log, |old(session.log)|, put)
      invariant |session.script| <= |old(session.script)|
      invariant verdict.Again? ==> attempt <= CHUNK_PUT_RETRIES
      invariant verdict.Again? ==> PhaseAfter(data, total, chunkSize, session.log) == BeforePut(put, attempt)
      invariant !verdict.Again? ==> PhaseAfter(data, total, chunkSize, session.log) == AfterPut(put, 0, verdict)
      invariant verdict.ResumeFrom? ==> |session.script| < |old(session.script)|
      invariant !verdict.Again? ==> attempt > 0
      decreases CHUNK_PUT_RETRIES + 1 - attempt, verdict.Again?
    {
      ghost var before := session.log;
      verdict := PutOnce(session, put, attempt, data, total, chunkSize);
      RepeatsSnoc(before, session.log, |old(session.log)|, put);
      attempt := attempt + 1;
    }
  }

  /** The reads between two moments, of which none failed but the last one, if `failed`. */
  predicate ReadsWent(before: seq<Option<nat>>, after: seq<Option<nat>>, failed: bool) {
    && |after| <= |before|
    && var n := |before| - |after|;
       && after == before[n..]
       && (forall i | 0 <= i < n - 1 :: before[i].Some?)
       && (failed <==> n > 0 && before[n - 1].None?)
  }

  lemma ReadOnce(before: seq<Option<nat>>, now: seq<Option<nat>>)
    requires ReadsWent(before, now, false)
    ensures ReadsWent(before, if now == [] then [] else now[1..], now != [] && now[0].None?)
  {
    var n := |before| - |now|;
    if now != [] {
      assert now[0] == before[n];
      assert now[1..] == before[n + 1..];
    }
  }

  /** The body of a request is as much of the file's `length` bytes as fits into the buffer, unless a read was short. */
  predicate SizedBy(script: seq<Option<nat>>, length: nat, chunkSize: nat, put: Put) {
    || (put.first < length && |put.body| == Min(chunkSize, length - put.first))
    || exists k | 0 <= k < |script| :: script[k].Some? && |put.body| == 1 + script[k].value
  }

  predicate AllSized(script: seq<Option<nat>>, length: nat, chunkSize: nat, log: seq<Exchange>) {
    forall i | 0 <= i < |log| :: SizedBy(script, length, chunkSize, log[i].put)
  }

  lemma AllSizedOn(script: seq<Option<nat>>, length: nat, chunkSize: nat, log: seq<Exchange>, longer: seq<Exchange>,
                   put: Put)
    requires AllSized(script, length, chunkSize, log) && SizedBy(script, length, chunkSize, put)
    requires log <= longer && RepeatsFrom(longer, |log|, put)
    ensures AllSized(script, length, chunkSize, longer)
  {
    assert forall i | 0 <= i < |log| :: longer[i] == log[i];
  }

  /** The next chunk of the file, as a request. `start` is what the reads were going to come to before the upload. */
  method ReadChunk(file: LocalFile, offset: nat, total: nat, chunkSize: nat, ghost start: seq<Option<nat>>)
      returns (r: Result<Put, UploadError>)
    requires ReadsWent(start, file.script, false)
    modifies file`script
    ensures ReadsWent(start, file.script, r == Err(ReadFailed))
    ensures r.Ok? ==>
              IsChunk(file.data, total, chunkSize, offset, r.value) && SizedBy(start, |file.data|, chunkSize, r.value)
    ensures r.Err? ==>
              r.error.ReadFailed? || (r.error == Stalled(offset) && (chunkSize == 0 || offset >= |file.data|))
  {
    ReadOnce(start, file.script);
    ghost var unread := file.script;
    var read := file.Read(offset, chunkSize);
    if read.Err? {
      return Err(ReadFailed);
    }
    var chunk := read.value;
    if chunk == [] {
      return Err(Stalled(offset));
    }
    var put := Put(offset, offset + |chunk| - 1, total, chunk);
    ReadIsSized(start, unread, |file.data|, chunkSize, put);
    r := Ok(put);
  }

  datatype Next = Stop(outcome: Outcome) | GoOn(offset: nat)

  /** One pass of the loop: a read and, with the retries, the requests for its chunk. */
  method UploadNext(session: Session, file: LocalFile, offset: nat, total: nat, chunkSize: nat,
                    ghost start: seq<Option<nat>>) returns (next: Next)
    requires session.Valid() && offset < total
    requires PhaseAfter(file.data, total, chunkSize, session.log) == AtOffset(offset)
    requires ReadsWent(start, file.script, false) && AllSized(start, |file.data|, chunkSize, session.log)
    modifies session, file`script
    ensures session.Valid() && AllSized(start, |file.data|, chunkSize, session.log)
    ensures ReadsWent(start, file.script, next == Stop(Err(ReadFailed)))
    ensures next.Stop? ==> StopsWith(file.data, total, chunkSize, session.log, next.outcome)
    ensures next.GoOn? ==>
              && |session.script| < |old(session.script)|
              && PhaseAfter(file.data, total, chunkSize, session.log) == AtOffset(next.offset)
  {
    var chunk := ReadChunk(file, offset, total, chunkSize, start);
    if chunk.Err? {
      return Stop(Err(chunk.error));
    }
    ghost var sent := session.log;
    var verdict := PutChunkWithRetries(session, chunk.value, file.data, total, chunkSize);
    AllSizedOn(start, |file.data|, chunkSize, sent, session.log, chunk.value);
    NotReadFailed(file.data, total, chunkSize, session.log);
    match verdict
    case Done(id) => next := Stop(Ok(id));
    case ResumeFrom(resume) => next := GoOn(resume);
    case GiveUp(error) => next := Stop(Err(error));
  }

  /** What the client sends and returns is what its protocol allows; it gives up on the file exactly when a read
      fails. */
  method UploadChunks(session: Session, file: LocalFile, total: nat, chunkSize: nat) returns (outcome: Outcome)
    requires session.Valid() && session.log == []
    modifies session, file
    ensures session.Valid()
    ensures StopsWith(file.data, total, chunkSize, session.log, outcome)
    ensures ReadsWent(old(file.script), file.script, outcome == Err(ReadFailed))
    ensures AllSized(old(file.script), |file.data|, chunkSize, session.log)
  {
    var offset: nat := 0;
    while offset < total
      invariant session.Valid()
      invariant PhaseAfter(file.data, total, chunkSize, session.log) == AtOffset(offset)
      invariant ReadsWent(old(file.script), file.script, false)
      invariant AllSized(old(file.script), |file.data|, chunkSize, session.log)
      decreases |session.script|
    {
      var next := UploadNext(session, file, offset, total, chunkSize, old(file.script));
      if next.Stop? {
        return next.outcome;
      }
      offset := next.offset;
    }
    outcome := Err(NoFileId);
  }

  lemma ReadIsSized(before: seq<Option<nat>>, now: seq<Option<nat>>, length: nat, chunkSize: nat, put: Put)
    requires ReadsWent(before, now, false) && put.first < length
    requires |put.body| == ReadSize(now, Min(chunkSize, length - put.first)) && !(now != [] && now[0].None?)
    ensures SizedBy(before, length, chunkSize, put)
  {
    if now != [] {
      assert now[0] == before[|before| - |now|];
    }
  }

  /** No answer of the drive ends an upload as a failing read does. */
  lemma NotReadFailed(data: seq<byte>, total: nat, chunkSize: nat, log: seq<Exchange>)
    ensures PhaseAfter(data, total, chunkSize, log) != Ended(Err(ReadFailed))
  {
  }

  const MIN_CHUNK: nat := 256 * 1024

  datatype ChunkSizeError = TooSmall | NotAMultiple

  function ValidateUploadChunkBytes(chunk: nat): (r: Result<nat, ChunkSizeError>)
    ensures r.Ok? <==> chunk > 0 && exists k: nat :: chunk == k * MIN_CHUNK
    ensures r == Err(TooSmall) <==> chunk < MIN_CHUNK
    ensures r.Ok? ==> r.value == chunk
  {
    if chunk < MIN_CHUNK then Err(TooSmall)
    else if chunk % MIN_CHUNK != 0 then
      assert forall k: nat :: chunk == k * MIN_CHUNK ==> chunk % MIN_CHUNK == 0;
      Err(NotAMultiple)
    else
      assert chunk == (chunk / MIN_CHUNK) * MIN_CHUNK;
      Ok(chunk)
  }

  // ----- what every conforming log has -----------------------------------------------------

  predicate OnProtocol(data: seq<byte>, total: nat, chunkSize: nat, log: seq<Exchange>) {
    !PhaseAfter(data, total, chunkSize, log).OffProtocol?
  }

  predicate ValidPut(data: seq<byte>, total: nat, chunkSize: nat, put: Put) {
    put.first < total && IsChunk(data, total, chunkSize, put.first, put)
  }

  /** Every request carries the file's own bytes at the place its Content-Range names. */
  lemma {:induction false} PutsAreChunks(data: seq<byte>, total: nat, chunkSize: nat, log: seq<Exchange>)
    requires OnProtocol(data, total, chunkSize, log)
    ensures forall i | 0 <= i < |log| :: ValidPut(data, total, chunkSize, log[i].put)
    ensures var phase := PhaseAfter(data, total, chunkSize, log);
            phase.Retrying? ==>
              && log != [] && phase.put == Last(log).put
              && 1 <= phase.attempt <= CHUNK_PUT_RETRIES
    decreases |log|
  {
    if log != [] {
      PutsAreChunks(data, total, chunkSize, Front(log));
      forall i | 0 <= i < |log|
        ensures ValidPut(data, total, chunkSize, log[i].put)
      {
        if i < |log| - 1 {
          assert Front(log)[i] == log[i];
        }
      }
    }
  }

  /** Every Content-Range is well formed, spans exactly the body and stays within the file and the chunk size,
      also after the drive has rolled back. */
  lemma ContentRangesFit(data: seq<byte>, chunkSize: nat, log: seq<Exchange>, i: nat)
    requires OnProtocol(data, |data|, chunkSize, log) && i < |log|
    ensures var put := log[i].put;
            && put.first <= put.last < put.total == |data|
            && put.last - put.first + 1 == |put.body| <= chunkSize
            && put.body == data[put.first..put.last + 1]
  {
    PutsAreChunks(data, |data|, chunkSize, log);
    assert ValidPut(data, |data|, chunkSize, log[i].put);
  }

  lemma StoreKeepsPrefix(data: seq<byte>, before: seq<byte>, put: Put, keep: nat, take: nat)
    requires before <= data
    requires put.first + |put.body| <= |data| && put.body == data[put.first..put.first + |put.body|]
    ensures Store(before, put, keep, take) <= data
  {
    var base := before[..Min(keep, |before|)];
    if put.first <= |base| < put.first + |put.body| {
      var rest := put.body[|base| - put.first..];
      assert rest == data[|base|..put.first + |put.body|];
      var n := Min(take, |rest|);
      assert base + rest[..n] == data[..|base| + n];
    }
  }

  lemma LawfulKeepsPrefix(data: seq<byte>, total: nat, chunkSize: nat, before: seq<byte>, ex: Exchange)
    requires before <= data && Lawful(before, ex) && ValidPut(data, total, chunkSize, ex.put)
    ensures ex.stored <= data
  {
    StoreKeepsPrefix(data, before, ex.put, ex.keep, ex.take);
  }

  /** A prefix of what a client produces is what a client produces. */
  lemma {:induction false} OnProtocolPrefix(data: seq<byte>, total: nat, chunkSize: nat, log: seq<Exchange>, i: nat)
    requires i <= |log| && OnProtocol(data, total, chunkSize, log)
    ensures OnProtocol(data, total, chunkSize, log[..i])
    decreases |log|
  {
    if i == |log| {
      assert log[..i] == log;
    } else {
      PrefixOfFront(log, i);
      OnProtocolPrefix(data, total, chunkSize, Front(log), i);
    }
  }

  /** After every exchange the drive holds a prefix of the file. */
  lemma {:induction false} StoredIsPrefix(data: seq<byte>, total: nat, chunkSize: nat, log: seq<Exchange>)
    requires LawfulLog(log) && OnProtocol(data, total, chunkSize, log)
    ensures StoredAfter(log) <= data
    decreases |log|
  {
    if log != [] {
      StoredIsPrefix(data, total, chunkSize, Front(log));
      PutsAreChunks(data, total, chunkSize, log);
      assert ValidPut(data, total, chunkSize, log[|log| - 1].put);
      LawfulKeepsPrefix(data, total, chunkSize, StoredAfter(Front(log)), Last(log));
    }
  }

  lemma {:induction false} LawfulPrefix(log: seq<Exchange>, i: nat)
    requires LawfulLog(log) && i <= |log|
    ensures LawfulLog(log[..i])
    decreases |log|
  {
    if i == |log| {
      assert log[..i] == log;
    } else {
      PrefixOfFront(log, i);
      LawfulPrefix(Front(log), i);
    }
  }

  /** ... so at every moment of a run it does. */
  lemma StoredIsAlwaysPrefix(data: seq<byte>, total: nat, chunkSize: nat, log: seq<Exchange>, i: nat)
    requires LawfulLog(log) && OnProtocol(data, total, chunkSize, log) && i < |log|
    ensures log[i].stored <= data
  {
    OnProtocolPrefix(data, total, chunkSize, log, i + 1);
    LawfulPrefix(log, i + 1);
    StoredIsPrefix(data, total, chunkSize, log[..i + 1]);
    assert Last(log[..i + 1]) == log[i];
  }

  /** Only a success with an id ends an upload well. */
  lemma EndsWithSuccess(data: seq<byte>, total: nat, chunkSize: nat, log: seq<Exchange>)
    requires PhaseAfter(data, total, chunkSize, log).Ended? && PhaseAfter(data, total, chunkSize, log).outcome.Ok?
    ensures log != [] && IsSuccess(Last(log).answer)
    ensures Last(log).answer.id == Some(PhaseAfter(data, total, chunkSize, log).outcome.value)
  {
  }

  /** No run reports success unless the drive holds the whole file; the id is the one it answered with. */
  lemma SuccessMeansStored(data: seq<byte>, total: nat, chunkSize: nat, log: seq<Exchange>)
    requires LawfulLog(log) && PhaseAfter(data, total, chunkSize, log).Ended?
    requires PhaseAfter(data, total, chunkSize, log).outcome.Ok?
    ensures total <= |data| && StoredAfter(log) == data[..total]
    ensures log != [] && Last(log).answer.id == Some(PhaseAfter(data, total, chunkSize, log).outcome.value)
  {
    EndsWithSuccess(data, total, chunkSize, log);
    StoredIsPrefix(data, total, chunkSize, log);
    PutsAreChunks(data, total, chunkSize, log);
    assert ValidPut(data, total, chunkSize, log[|log| - 1].put);
    WholePrefix(StoredAfter(log), data, total);
  }

  lemma WholePrefix(stored: seq<byte>, data: seq<byte>, total: nat)
    requires stored <= data && |stored| == total
    ensures stored == data[..total]
  {
  }

  /** An empty file always ends in an error, and without a request. */
  lemma EmptyFileFails(data: seq<byte>, chunkSize: nat, log: seq<Exchange>, outcome: Outcome)
    requires StopsWith(data, 0, chunkSize, log, outcome)
    ensures log == [] && outcome == Err(NoFileId)
  {
    PutsAreChunks(data, 0, chunkSize, log);
    assert forall put :: !ValidPut(data, 0, chunkSize, put);
  }
}
