/** The upload of one file (crates/drive/src/resumable.rs). */
module Uploader {
  import opened Common
  import opened DriveSession
  import opened ResumableUpload
  import opened UploadSuccess

  /** The drive does its part in the whole upload. */
  predicate WellServed(log: seq<Exchange>) {
    AlwaysServes(log) && WithinBudget(log)
  }

  /** No read of the local file fails. */
  predicate NoneFails(script: seq<Option<nat>>) {
    forall i | 0 <= i < |script| :: script[i].Some?
  }

  /** The whole upload. A session that does not start is reported as `startFailure`. An id is returned only when the
      drive holds exactly the file, whatever the drive, the network and the disk did on the way; and it is returned for
      every file that is not empty if the drive does its part and no read fails. */
  method UploadResumable(session: Session, file: LocalFile, maxFileBytes: nat, chunkSize: nat,
                         startFailure: Option<UploadError>) returns (outcome: Outcome)
    requires session.Valid() && session.log == []
    modifies session, file
    ensures session.Valid()
    ensures |file.data| > maxFileBytes ==> outcome == Err(TooLarge(|file.data|, maxFileBytes)) && session.log == []
    ensures |file.data| <= maxFileBytes && startFailure.Some? ==>
              outcome == Err(startFailure.value) && session.log == []
    ensures |file.data| <= maxFileBytes && startFailure.None? ==>
              && StopsWith(file.data, |file.data|, chunkSize, session.log, outcome)
              && ReadsWent(old(file.script), file.script, outcome == Err(ReadFailed))
              && AllSized(old(file.script), |file.data|, chunkSize, session.log)
    ensures |file.data| <= maxFileBytes && startFailure.None? && NoneFails(old(file.script)) ==>
              (WellServed(session.log) && |file.data| < TWO_64 && chunkSize > 0 ==> (outcome.Ok? <==> file.data != []))
    ensures outcome.Ok? ==> StoredAfter(session.log) == file.data
  {
    var total := |file.data|;
    if total > maxFileBytes {
      return Err(TooLarge(total, maxFileBytes));
    }
    if startFailure.Some? {
      return Err(startFailure.value);
    }
    outcome := UploadChunks(session, file, total, chunkSize);
    if outcome.Ok? {
      SuccessMeansStored(file.data, total, chunkSize, session.log);
    }
    if WellServed(session.log) && total < TWO_64 && chunkSize > 0 && outcome != Err(ReadFailed) {
      SucceedsIffNonEmpty(file.data, chunkSize, session.log, outcome);
    }
  }
}
