/** What a resumable upload costs, and how its chunks lie. */
module UploadEffort {
  import opened Common
  import opened DriveSession
  import opened ResumableUpload
  import opened UploadRanges

  /** Seconds slept. */
  function Slept(log: seq<Exchange>): nat {
    if log == [] then 0 else Slept(Front(log)) + Last(log).wait
  }

  /** The requests made so far for the chunk of the latest request. */
  function Requests(data: seq<byte>, total: nat, chunkSize: nat, log: seq<Exchange>): seq<Exchange>
    requires log != []
  {
    if |log| == 1 || PhaseAfter(data, total, chunkSize, Front(log)).AtOffset? then [Last(log)]
    else Requests(data, total, chunkSize, Front(log)) + [Last(log)]
  }

  lemma AnswerCases(ex: Exchange, attempt: nat)
    requires attempt <= CHUNK_PUT_RETRIES && !AfterAnswer(ex, attempt).OffProtocol?
    ensures var phase := AfterAnswer(ex, attempt);
            if phase.Retrying? then
              && phase.put == ex.put && phase.attempt == attempt + 1 <= CHUNK_PUT_RETRIES
              && ex.wait == Backoff(attempt + 1)
            else ex.wait == 0
  {
  }

  /** What one request adds. */
  lemma LastRequest(data: seq<byte>, total: nat, chunkSize: nat, log: seq<Exchange>)
    requires log != [] && OnProtocol(data, total, chunkSize, log)
    ensures var before := PhaseAfter(data, total, chunkSize, Front(log));
            var after := PhaseAfter(data, total, chunkSize, log);
            && (before.AtOffset? || before.Retrying?)
            && (before.AtOffset? ==> after == AfterAnswer(Last(log), 0))
            && (before.AtOffset? ==> Last(log).put.first == before.offset < total)
            && (before.Retrying? ==> Last(log).put == before.put && after == AfterAnswer(Last(log), before.attempt))
  {
  }

  /** Another request for the same chunk, at the end of the log. */
  lemma SuffixSnoc(log: seq<Exchange>, earlier: seq<Exchange>)
    requires log != [] && 1 <= |earlier| <= |log| - 1 && earlier == Front(log)[|log| - 1 - |earlier|..]
    requires forall i | 0 <= i < |earlier| :: earlier[i].put == Last(log).put
    ensures var requests := earlier + [Last(log)];
            && requests == log[|log| - |requests|..]
            && forall i | 0 <= i < |requests| :: requests[i].put == Last(log).put
  {
  }

  /** They are the end of the log and all the same. */
  lemma {:induction false} RequestsAreIdentical(data: seq<byte>, total: nat, chunkSize: nat, log: seq<Exchange>)
    requires log != [] && OnProtocol(data, total, chunkSize, log)
    ensures var requests := Requests(data, total, chunkSize, log);
            && 1 <= |requests| <= |log|
            && requests == log[|log| - |requests|..]
            && forall i | 0 <= i < |requests| :: requests[i].put == Last(log).put
    decreases |log|
  {
    LastRequest(data, total, chunkSize, log);
    if !PhaseAfter(data, total, chunkSize, Front(log)).AtOffset? {
      RequestsAreIdentical(data, total, chunkSize, Front(log));
      PutsAreChunks(data, total, chunkSize, Front(log));
      SuffixSnoc(log, Requests(data, total, chunkSize, Front(log)));
    }
  }

  lemma SleptSnoc(requests: seq<Exchange>, ex: Exchange)
    ensures Slept(requests + [ex]) == Slept(requests) + ex.wait
    ensures Slept([ex]) == ex.wait
  {
    FrontLast(requests, ex);
    assert Front([ex]) == [];
  }

  predicate WaitsAdd(phase: Phase, requests: seq<Exchange>) {
    var n := |requests|;
    && 1 <= n <= 1 + CHUNK_PUT_RETRIES
    && if phase.Retrying? then phase.attempt == n && Slept(requests) == (if n == 1 then 2 else if n == 2 then 6 else 10)
       else Slept(requests) == (if n == 1 then 0 else if n == 2 then 2 else if n == 3 then 6 else 10)
  }

  lemma {:induction false} WaitsOfRequests(data: seq<byte>, total: nat, chunkSize: nat, log: seq<Exchange>)
    requires log != [] && OnProtocol(data, total, chunkSize, log)
    ensures WaitsAdd(PhaseAfter(data, total, chunkSize, log), Requests(data, total, chunkSize, log))
    decreases |log|
  {
    LastRequest(data, total, chunkSize, log);
    var before := PhaseAfter(data, total, chunkSize, Front(log));
    if before.AtOffset? {
      AnswerCases(Last(log), 0);
      assert Requests(data, total, chunkSize, log) == [Last(log)];
      SleptSnoc([], Last(log));
    } else {
      var earlier := Requests(data, total, chunkSize, Front(log));
      PutsAreChunks(data, total, chunkSize, Front(log));
      WaitsOfRequests(data, total, chunkSize, Front(log));
      AnswerCases(Last(log), before.attempt);
      SleptSnoc(earlier, Last(log));
      assert Requests(data, total, chunkSize, log) == earlier + [Last(log)];
    }
  }

  /** How many requests were made for the chunk before the latest one. */
  lemma EarlierRequests(data: seq<byte>, total: nat, chunkSize: nat, log: seq<Exchange>)
    requires log != [] && OnProtocol(data, total, chunkSize, log)
    ensures var before := PhaseAfter(data, total, chunkSize, Front(log));
            |Requests(data, total, chunkSize, log)| == 1 + if before.Retrying? then before.attempt else 0
  {
    LastRequest(data, total, chunkSize, log);
    if PhaseAfter(data, total, chunkSize, Front(log)).Retrying? {
      PutsAreChunks(data, total, chunkSize, Front(log));
      WaitsOfRequests(data, total, chunkSize, Front(log));
    }
  }

  /** What follows an answer, in status numbers: an id after 2xx; the next offset after 308, behind the reported range
      or, if there is none that can be read, behind the chunk; the same request again after 429 and 5xx, three times;
      and the end after everything else. */
  lemma AnswersInNumbers(data: seq<byte>, total: nat, chunkSize: nat, log: seq<Exchange>)
    requires log != [] && OnProtocol(data, total, chunkSize, log)
    ensures var phase := PhaseAfter(data, total, chunkSize, log);
            var put, sent := Last(log).put, |Requests(data, total, chunkSize, log)|;
            match Last(log).answer
            case Broken => phase == Ended(Err(Transport))
            case Answer(status, range, id) =>
              if 200 <= status <= 299 then phase == Ended(if id.Some? then Ok(id.value) else Err(MissingId))
              else if status == 308 then
                var end := if range.Some? then ParseBytesRangeEnd(range.value) else None;
                phase == AtOffset((if end.Some? then end.value + 1 else put.last + 1) % 0x1_0000_0000_0000_0000)
              else if (status == 429 || 500 <= status <= 599) && sent <= 3 then phase == Retrying(put, sent)
              else phase == Ended(Err(Rejected(status)))
  {
    LastRequest(data, total, chunkSize, log);
    EarlierRequests(data, total, chunkSize, log);
  }

  /** One chunk is sent at most four times, always with the same bytes and range, and costs at most
      2 + 4 + 4 seconds of waiting. */
  lemma ChunkEffort(data: seq<byte>, total: nat, chunkSize: nat, log: seq<Exchange>)
    requires log != [] && OnProtocol(data, total, chunkSize, log)
    ensures var requests := Requests(data, total, chunkSize, log);
            && 1 <= |requests| <= 4
            && |requests| <= |log| && requests == log[|log| - |requests|..]
            && (forall i | 0 <= i < |requests| :: requests[i].put == Last(log).put)
            && Slept(requests) <= 10
  {
    RequestsAreIdentical(data, total, chunkSize, log);
    WaitsOfRequests(data, total, chunkSize, log);
  }

  /** How many chunks have been started. */
  function Rounds(data: seq<byte>, total: nat, chunkSize: nat, log: seq<Exchange>): nat {
    if log == [] then 0
    else Rounds(data, total, chunkSize, Front(log))
         + if PhaseAfter(data, total, chunkSize, Front(log)).AtOffset? then 1 else 0
  }

  lemma {:induction false} PutsPerRound(data: seq<byte>, total: nat, chunkSize: nat, log: seq<Exchange>)
    requires OnProtocol(data, total, chunkSize, log)
    ensures var rounds := Rounds(data, total, chunkSize, log);
            match PhaseAfter(data, total, chunkSize, log)
            case Retrying(_, attempt) => rounds > 0 && |log| <= 4 * (rounds - 1) + attempt
            case _ => |log| <= 4 * rounds
    decreases |log|
  {
    if log != [] {
      PutsPerRound(data, total, chunkSize, Front(log));
      PutsAreChunks(data, total, chunkSize, Front(log));
    }
  }

  /** Every 308 moves the client forward. */
  predicate Advances(ex: Exchange) {
    IsIncomplete(ex.answer) ==> NextOffset(ex.answer.range, ex.put.last) > ex.put.first
  }

  lemma {:induction false} AdvancingRounds(data: seq<byte>, total: nat, chunkSize: nat, log: seq<Exchange>)
    requires OnProtocol(data, total, chunkSize, log)
    requires forall i | 0 <= i < |log| :: Advances(log[i])
    ensures var rounds := Rounds(data, total, chunkSize, log);
            match PhaseAfter(data, total, chunkSize, log)
            case AtOffset(offset) => rounds <= offset && rounds <= total
            case Retrying(put, _) => rounds <= put.first + 1 <= total
            case _ => rounds <= total
    decreases |log|
  {
    if log != [] {
      assert forall i | 0 <= i < |Front(log)| :: Front(log)[i] == log[i];
      AdvancingRounds(data, total, chunkSize, Front(log));
      assert Advances(log[|log| - 1]);
    }
  }

  /** If every 308 advances, the upload ends: it takes at most four requests for each byte of the file. */
  lemma AdvancingEnds(data: seq<byte>, total: nat, chunkSize: nat, log: seq<Exchange>)
    requires OnProtocol(data, total, chunkSize, log)
    requires forall i | 0 <= i < |log| :: Advances(log[i])
    ensures |log| <= 4 * total
  {
    AdvancingRounds(data, total, chunkSize, log);
    PutsPerRound(data, total, chunkSize, log);
    PutsAreChunks(data, total, chunkSize, log);
  }

  /** Reads fill the buffer, and a 308 comes only after the chunk was taken whole. */
  predicate Smooth(total: nat, chunkSize: nat, ex: Exchange) {
    && |ex.put.body| == Min(chunkSize, if ex.put.first < total then total - ex.put.first else 0)
    && (IsIncomplete(ex.answer) ==> NextOffset(ex.answer.range, ex.put.last) == ex.put.last + 1)
  }

  /** `n * size`. */
  function Times(n: nat, size: nat): nat {
    if n == 0 then 0 else Times(n - 1, size) + size
  }

  lemma {:induction false} TimesIsProduct(n: nat, size: nat)
    ensures Times(n, size) == n * size
  {
    if n > 0 {
      TimesIsProduct(n - 1, size);
    }
  }

  lemma SmoothStep(data: seq<byte>, total: nat, chunkSize: nat, log: seq<Exchange>)
    requires log != [] && OnProtocol(data, total, chunkSize, log) && chunkSize > 0
    requires Smooth(total, chunkSize, Last(log))
    ensures var before := PhaseAfter(data, total, chunkSize, Front(log));
            var after := PhaseAfter(data, total, chunkSize, log);
            && (before.AtOffset? ==> before.offset < total)
            && (before.Retrying? ==> Last(log).put == before.put)
            && (after.AtOffset? && Last(log).put.first < total ==>
                  after.offset == Min(total, Last(log).put.first + chunkSize))
            && (after.Retrying? ==> after.put == Last(log).put)
            && (before.AtOffset? ==> Last(log).put.first == before.offset)
  {
    PutsAreChunks(data, total, chunkSize, log);
    assert ValidPut(data, total, chunkSize, log[|log| - 1].put);
  }

  predicate SmoothAt(total: nat, chunkSize: nat, rounds: nat, phase: Phase) {
    match phase
    case AtOffset(offset) =>
      offset == Min(total, Times(rounds, chunkSize)) && (rounds > 0 ==> Times(rounds - 1, chunkSize) < total)
    case Retrying(put, _) => rounds > 0 && put.first == Times(rounds - 1, chunkSize) < total
    case _ => rounds > 0 && Times(rounds - 1, chunkSize) < total
  }

  lemma {:induction false} SmoothRounds(data: seq<byte>, total: nat, chunkSize: nat, log: seq<Exchange>)
    requires OnProtocol(data, total, chunkSize, log) && chunkSize > 0
    requires forall i | 0 <= i < |log| :: Smooth(total, chunkSize, log[i])
    ensures SmoothAt(total, chunkSize, Rounds(data, total, chunkSize, log), PhaseAfter(data, total, chunkSize, log))
    decreases |log|
  {
    if log != [] {
      var earlier := Front(log);
      assert forall i | 0 <= i < |earlier| :: earlier[i] == log[i];
      SmoothRounds(data, total, chunkSize, earlier);
      assert Smooth(total, chunkSize, log[|log| - 1]);
      SmoothStep(data, total, chunkSize, log);
      LastRequest(data, total, chunkSize, log);
      SmoothAtStep(total, chunkSize, Rounds(data, total, chunkSize, earlier),
                   PhaseAfter(data, total, chunkSize, earlier), PhaseAfter(data, total, chunkSize, log), Last(log));
    }
  }

  lemma SmoothAtStep(total: nat, chunkSize: nat, rounds: nat, before: Phase, after: Phase, ex: Exchange)
    requires SmoothAt(total, chunkSize, rounds, before) && !after.OffProtocol? && chunkSize > 0
    requires before.AtOffset? || before.Retrying?
    requires before.AtOffset? ==> ex.put.first == before.offset < total
    requires before.Retrying? ==> ex.put == before.put
    requires after.AtOffset? && ex.put.first < total ==> after.offset == Min(total, ex.put.first + chunkSize)
    requires after.Retrying? ==> after.put == ex.put
    ensures SmoothAt(total, chunkSize, rounds + if before.AtOffset? then 1 else 0, after)
  {
  }

  /** Then the whole upload takes at most four requests for each of the `chunks` chunks that cover the file. */
  lemma SmoothEffort(data: seq<byte>, total: nat, chunkSize: nat, log: seq<Exchange>, chunks: nat)
    requires OnProtocol(data, total, chunkSize, log) && chunkSize > 0
    requires forall i | 0 <= i < |log| :: Smooth(total, chunkSize, log[i])
    requires total <= chunks * chunkSize
    ensures |log| <= 4 * chunks
  {
    TimesIsProduct(chunks, chunkSize);
    SmoothRounds(data, total, chunkSize, log);
    PutsPerRound(data, total, chunkSize, log);
    PutsAreChunks(data, total, chunkSize, log);
    FewRounds(total, chunkSize, chunks, Rounds(data, total, chunkSize, log));
  }

  /** Covering the file takes no more rounds than there are chunks that cover it. */
  lemma FewRounds(total: nat, chunkSize: nat, chunks: nat, rounds: nat)
    requires total <= Times(chunks, chunkSize)
    ensures rounds > 0 && Times(rounds - 1, chunkSize) < total ==> rounds <= chunks
  {
    if rounds > chunks {
      TimesMonotone(chunks, rounds - 1, chunkSize);
    }
  }

  lemma {:induction false} TimesMonotone(a: nat, b: nat, size: nat)
    requires a <= b
    ensures Times(a, size) <= Times(b, size)
    decreases b
  {
    if a < b {
      TimesMonotone(a, b - 1, size);
    }
  }

  /** Reads fill the buffer, and the ranges the drive reports end on 256 KiB boundaries or at the end of the file. */
  predicate Aligned(total: nat, chunkSize: nat, ex: Exchange) {
    && |ex.put.body| == Min(chunkSize, if ex.put.first < total then total - ex.put.first else 0)
    && (IsIncomplete(ex.answer) && ex.answer.range.Some? ==>
          match ParseBytesRangeEnd(ex.answer.range.value)
          case Some(end) => WrappingSucc(end) % MIN_CHUNK == 0 || WrappingSucc(end) >= total
          case None => true)
  }

  predicate OnBoundaries(total: nat, put: Put) {
    put.first % MIN_CHUNK == 0 && (put.last + 1 < total ==> (put.last + 1) % MIN_CHUNK == 0)
  }

  lemma PutOnBoundaries(total: nat, chunkSize: nat, put: Put)
    requires ValidateUploadChunkBytes(chunkSize).Ok?
    requires put.first % MIN_CHUNK == 0 && put.first < total
    requires |put.body| == Min(chunkSize, total - put.first) && put.last == put.first + |put.body| - 1
    ensures OnBoundaries(total, put)
  {
  }

  lemma NextOnBoundary(total: nat, chunkSize: nat, ex: Exchange)
    requires Aligned(total, chunkSize, ex) && IsIncomplete(ex.answer)
    requires OnBoundaries(total, ex.put) && ex.put.last < total < TWO_64
    ensures var next := NextOffset(ex.answer.range, ex.put.last);
            next % MIN_CHUNK == 0 || next >= total
  {
  }

  lemma {:induction false} LatestIsAligned(data: seq<byte>, chunkSize: nat, log: seq<Exchange>)
    requires OnProtocol(data, |data|, chunkSize, log) && ValidateUploadChunkBytes(chunkSize).Ok?
    requires |data| < TWO_64
    requires forall i | 0 <= i < |log| :: Aligned(|data|, chunkSize, log[i])
    ensures log != [] ==> OnBoundaries(|data|, Last(log).put)
    ensures var phase := PhaseAfter(data, |data|, chunkSize, log);
            phase.AtOffset? ==> phase.offset % MIN_CHUNK == 0 || phase.offset >= |data|
    decreases |log|
  {
    if log != [] {
      var before := Front(log);
      var ex := log[|log| - 1];
      assert forall i | 0 <= i < |before| :: before[i] == log[i];
      LatestIsAligned(data, chunkSize, before);
      PutsAreChunks(data, |data|, chunkSize, before);
      LastRequest(data, |data|, chunkSize, log);
      ContentRangesFit(data, chunkSize, log, |log| - 1);
      assert Aligned(|data|, chunkSize, ex);
      if PhaseAfter(data, |data|, chunkSize, before).AtOffset? {
        PutOnBoundaries(|data|, chunkSize, ex.put);
      }
      if PhaseAfter(data, |data|, chunkSize, log).AtOffset? {
        AtOffsetFrom308(data, |data|, chunkSize, log);
        NextOnBoundary(|data|, chunkSize, ex);
      }
    }
  }

  /** With an accepted chunk size, every chunk starts on a 256 KiB boundary and every chunk but the last ends on one,
      fallbacks and rollbacks included. */
  lemma ChunksAreAligned(data: seq<byte>, chunkSize: nat, log: seq<Exchange>, i: nat)
    requires OnProtocol(data, |data|, chunkSize, log) && ValidateUploadChunkBytes(chunkSize).Ok?
    requires |data| < TWO_64 && i < |log|
    requires forall i | 0 <= i < |log| :: Aligned(|data|, chunkSize, log[i])
    ensures log[i].put.first % MIN_CHUNK == 0
    ensures log[i].put.last + 1 < |data| ==> (log[i].put.last + 1) % MIN_CHUNK == 0
  {
    var part := log[..i + 1];
    OnProtocolPrefix(data, |data|, chunkSize, log, i + 1);
    forall j | 0 <= j < |part|
      ensures Aligned(|data|, chunkSize, part[j])
    {
      assert part[j] == log[j];
    }
    LatestIsAligned(data, chunkSize, part);
    assert Last(part) == log[i];
  }
}
