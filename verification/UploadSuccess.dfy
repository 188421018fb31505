/** When a resumable upload succeeds. */
module UploadSuccess {
  import opened Common
  import opened DriveSession
  import opened ResumableUpload
  import opened UploadRanges
  import opened UploadEffort

  /** The drive does its part in an exchange: it answers, and unless it asks for a repetition it confirms a complete
      object with an id and reports truthfully how much it holds of an incomplete one. */
  predicate Serves(ex: Exchange) {
    && !ex.answer.Broken?
    && (IsRetryable(ex.answer)
        || if |ex.stored| == ex.put.total then IsSuccess(ex.answer) && ex.answer.id.Some?
           else IsIncomplete(ex.answer) && TellsTruth(ex))
  }

  predicate AlwaysServes(log: seq<Exchange>) {
    forall i | 0 <= i < |log| :: Serves(log[i])
  }

  /** The four requests up to number `i` were all answered with 429 or 5xx. */
  predicate FourRepeats(log: seq<Exchange>, i: nat) {
    3 <= i < |log| && forall j | i - 3 <= j <= i :: IsRetryable(log[j].answer)
  }

  predicate WithinBudget(log: seq<Exchange>) {
    forall i | 0 <= i < |log| :: !FourRepeats(log, i)
  }

  /** The client counts the repetitions in a row. */
  lemma {:induction false} RetriesAreRepeats(data: seq<byte>, total: nat, chunkSize: nat, log: seq<Exchange>)
    requires PhaseAfter(data, total, chunkSize, log).Retrying?
    ensures var attempt := PhaseAfter(data, total, chunkSize, log).attempt;
            attempt <= |log| && forall j | |log| - attempt <= j < |log| :: IsRetryable(log[j].answer)
    decreases |log|
  {
    LastRequest(data, total, chunkSize, log);
    if PhaseAfter(data, total, chunkSize, Front(log)).Retrying? {
      RetriesAreRepeats(data, total, chunkSize, Front(log));
      assert forall j | 0 <= j < |log| - 1 :: Front(log)[j] == log[j];
    }
  }

  /** With such a drive only success ends an upload from within a request. */
  lemma ServedEndIsGood(data: seq<byte>, total: nat, chunkSize: nat, log: seq<Exchange>)
    requires PhaseAfter(data, total, chunkSize, log).Ended? && AlwaysServes(log) && WithinBudget(log)
    ensures PhaseAfter(data, total, chunkSize, log).outcome.Ok?
  {
    assert Serves(log[|log| - 1]);
    LastRequest(data, total, chunkSize, log);
    var before := PhaseAfter(data, total, chunkSize, Front(log));
    if before.Retrying? {
      RetriesAreRepeats(data, total, chunkSize, Front(log));
      PutsAreChunks(data, total, chunkSize, Front(log));
      assert forall j | 0 <= j < |log| - 1 :: Front(log)[j] == log[j];
      assert !FourRepeats(log, |log| - 1);
    }
  }

  /** ... and only the end of the file, or a failing read of it, ends it between two requests. */
  lemma ServedOffsetIsInFile(data: seq<byte>, chunkSize: nat, log: seq<Exchange>)
    requires LawfulLog(log) && |data| < TWO_64 && data != [] && AlwaysServes(log)
    requires PhaseAfter(data, |data|, chunkSize, log).AtOffset?
    ensures PhaseAfter(data, |data|, chunkSize, log).offset < |data|
  {
    forall i | 0 <= i < |log|
      ensures TellsTruth(log[i])
    {
      assert Serves(log[i]);
    }
    OffsetIsStoredLength(data, |data|, chunkSize, log);
    if log != [] {
      AtOffsetFrom308(data, |data|, chunkSize, log);
      StoredIsPrefix(data, |data|, chunkSize, log);
      PutsAreChunks(data, |data|, chunkSize, log);
      assert Serves(log[|log| - 1]) && ValidPut(data, |data|, chunkSize, log[|log| - 1].put);
    }
  }

  /** With a drive that does its part, and never asks for four repetitions in a row, an upload that no read of the local
      file ends is a success if and only if the file is not empty. */
  lemma SucceedsIffNonEmpty(data: seq<byte>, chunkSize: nat, log: seq<Exchange>, outcome: Outcome)
    requires |data| < TWO_64 && chunkSize > 0 && LawfulLog(log)
    requires StopsWith(data, |data|, chunkSize, log, outcome) && outcome != Err(ReadFailed)
    requires AlwaysServes(log) && WithinBudget(log)
    ensures outcome.Ok? <==> data != []
  {
    if data == [] {
      EmptyFileFails(data, chunkSize, log, outcome);
    } else if PhaseAfter(data, |data|, chunkSize, log).Ended? {
      ServedEndIsGood(data, |data|, chunkSize, log);
    } else {
      ServedOffsetIsInFile(data, chunkSize, log);
    }
  }

  // ----- such uploads exist ----------------------------------------------------------------

  /** The log of a drive that takes every chunk whole, `log` being its part so far. */
  predicate GoesSmoothly(data: seq<byte>, chunkSize: nat, log: seq<Exchange>) {
    && LawfulLog(log) && AlwaysServes(log)
    && (forall i | 0 <= i < |log| :: !IsRetryable(log[i].answer))
    && StoredAfter(log) <= data
  }

  /** A request for the next chunk, taken whole. */
  function TakenWhole(data: seq<byte>, offset: nat, size: nat): Exchange
    requires 0 < size && offset + size <= |data|
  {
    var next := offset + size;
    var put := Put(offset, next - 1, |data|, data[offset..next]);
    var answer := if next == |data| then Answer(200, None, Some("id"))
                  else Answer(308, Some(RangeHeader(0, next - 1)), None);
    Exchange(put, offset, size, answer, data[..next], 0)
  }

  lemma TakenWholeIsLawful(data: seq<byte>, offset: nat, size: nat)
    requires 0 < size && offset + size <= |data|
    ensures Lawful(data[..offset], TakenWhole(data, offset, size))
  {
    var ex := TakenWhole(data, offset, size);
    assert data[..offset][..offset] == data[..offset];
    assert ex.put.body[0..] == ex.put.body && ex.put.body[..size] == ex.put.body;
    assert data[..offset] + ex.put.body == ex.stored;
  }

  lemma TakenWholeServes(data: seq<byte>, offset: nat, size: nat)
    requires 0 < size && offset + size <= |data|
    ensures Serves(TakenWhole(data, offset, size)) && !IsRetryable(TakenWhole(data, offset, size).answer)
  {
  }

  lemma SmoothSnoc(data: seq<byte>, chunkSize: nat, log: seq<Exchange>, ex: Exchange)
    requires GoesSmoothly(data, chunkSize, log)
    requires Lawful(StoredAfter(log), ex) && Serves(ex) && !IsRetryable(ex.answer) && ex.stored <= data
    ensures GoesSmoothly(data, chunkSize, log + [ex]) && StoredAfter(log + [ex]) == ex.stored
  {
    FrontLast(log, ex);
  }

  lemma TakenWholeGoesSmoothly(data: seq<byte>, chunkSize: nat, log: seq<Exchange>, size: nat)
    requires GoesSmoothly(data, chunkSize, log)
    requires 0 < size && |StoredAfter(log)| + size <= |data|
    ensures var ex := TakenWhole(data, |StoredAfter(log)|, size);
            GoesSmoothly(data, chunkSize, log + [ex]) && StoredAfter(log + [ex]) == data[..|StoredAfter(log)| + size]
  {
    var offset := |StoredAfter(log)|;
    assert StoredAfter(log) == data[..offset];
    TakenWholeIsLawful(data, offset, size);
    TakenWholeServes(data, offset, size);
    SmoothSnoc(data, chunkSize, log, TakenWhole(data, offset, size));
  }

  lemma AfterTakenWhole(data: seq<byte>, offset: nat, size: nat)
    requires 0 < size && offset + size <= |data| < TWO_64
    ensures AfterAnswer(TakenWhole(data, offset, size), 0)
            == if offset + size == |data| then Ended(Ok("id")) else AtOffset(offset + size)
  {
    if offset + size < |data| {
      NextAfterHeader(offset + size, offset + size - 1);
    }
  }

  lemma TakenWholePhase(data: seq<byte>, chunkSize: nat, log: seq<Exchange>, offset: nat, size: nat)
    requires PhaseAfter(data, |data|, chunkSize, log) == AtOffset(offset)
    requires 0 < size <= chunkSize && offset + size <= |data| < TWO_64
    ensures PhaseAfter(data, |data|, chunkSize, log + [TakenWhole(data, offset, size)])
            == if offset + size == |data| then Ended(Ok("id")) else AtOffset(offset + size)
  {
    var ex := TakenWhole(data, offset, size);
    FrontLast(log, ex);
    AfterTakenWhole(data, offset, size);
    assert IsChunk(data, |data|, chunkSize, offset, ex.put);
  }

  lemma {:induction false} ServeTheRest(data: seq<byte>, chunkSize: nat, log: seq<Exchange>)
      returns (longer: seq<Exchange>)
    requires |data| < TWO_64 && chunkSize > 0 && GoesSmoothly(data, chunkSize, log)
    requires |StoredAfter(log)| < |data|
    requires PhaseAfter(data, |data|, chunkSize, log) == AtOffset(|StoredAfter(log)|)
    ensures GoesSmoothly(data, chunkSize, longer)
    ensures PhaseAfter(data, |data|, chunkSize, longer) == Ended(Ok("id"))
    decreases |data| - |StoredAfter(log)|
  {
    var offset := |StoredAfter(log)|;
    var size := Min(chunkSize, |data| - offset);
    longer := log + [TakenWhole(data, offset, size)];
    TakenWholeGoesSmoothly(data, chunkSize, log, size);
    TakenWholePhase(data, chunkSize, log, offset, size);
    if offset + size < |data| {
      longer := ServeTheRest(data, chunkSize, longer);
    }
  }

  /** For every file that is not empty, and every chunk size, there is such an upload, and it succeeds. */
  lemma SomeUploadSucceeds(data: seq<byte>, chunkSize: nat) returns (log: seq<Exchange>)
    requires 0 < |data| < TWO_64 && chunkSize > 0
    ensures LawfulLog(log) && AlwaysServes(log) && WithinBudget(log)
    ensures StopsWith(data, |data|, chunkSize, log, Ok("id")) && StoredAfter(log) == data
  {
    log := ServeTheRest(data, chunkSize, []);
    SuccessMeansStored(data, |data|, chunkSize, log);
    forall i | 0 <= i < |log|
      ensures !FourRepeats(log, i)
    {
      assert !IsRetryable(log[i].answer);
    }
  }
}
