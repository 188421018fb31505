/** The drive's end of a resumable upload session, and the local file it is fed from. */
module DriveSession {
  import opened Common
  import opened Decimal

  /** One PUT: the numbers of its Content-Range header and its body. */
  datatype Put = Put(first: nat, last: nat, total: nat, body: seq<byte>)

  /** `id` is the string field "id" of a JSON body. */
  datatype Answer =
    | Broken                       // the request could not be sent or answered
    | Answer(status: nat, range: Option<string>, id: Option<string>)

  predicate IsSuccess(a: Answer) {
    a.Answer? && 200 <= a.status < 300
  }

  predicate IsIncomplete(a: Answer) {
    a.Answer? && a.status == 308
  }

  predicate IsRetryable(a: Answer) {
    a.Answer? && (500 <= a.status < 600 || a.status == 429)
  }

  /** One request as it went over the wire: the drive first rolled back to at most `keep` bytes and then took
      at most `take` bytes of the body that continue what it had left. `stored` is what it held afterwards, `wait` how
      many seconds the client slept after the answer. */
  datatype Exchange = Exchange(put: Put, keep: nat, take: nat, answer: Answer, stored: seq<byte>, wait: nat)

  /** What the drive holds after a PUT. It stores every byte at its own place, so a body that starts
      beyond what it holds, or ends before it, adds nothing. */
  function Store(before: seq<byte>, put: Put, keep: nat, take: nat): seq<byte> {
    var base := before[..Min(keep, |before|)];
    if put.first <= |base| < put.first + |put.body| then
      var rest := put.body[|base| - put.first..];
      base + rest[..Min(take, |rest|)]
    else base
  }

  /** The drive's contract for one exchange: bytes as above, and success only for a complete object. */
  predicate Lawful(before: seq<byte>, ex: Exchange) {
    && ex.stored == Store(before, ex.put, ex.keep, ex.take)
    && (IsSuccess(ex.answer) ==> |ex.stored| == ex.put.total)
  }

  function StoredAfter(log: seq<Exchange>): seq<byte> {
    if log == [] then [] else Last(log).stored
  }

  predicate LawfulLog(log: seq<Exchange>) {
    log == [] || (LawfulLog(Front(log)) && Lawful(StoredAfter(Front(log)), Last(log)))
  }

  /** The session as the client's code meets it. `script` is what the drive is going to do; a script that
      runs out, or asks for what the contract forbids, shows up as a broken connection. */
  class Session {
    var script: seq<(nat, nat, Answer)>
    var log: seq<Exchange>

    predicate Valid()
      reads this
    {
      LawfulLog(log)
    }

    constructor (script: seq<(nat, nat, Answer)>)
      ensures Valid() && log == [] && this.script == script
    {
      this.script := script;
      this.log := [];
    }

    method Send(put: Put) returns (answer: Answer)
      requires Valid()
      modifies this
      ensures Valid()
      ensures |log| == |old(log)| + 1 && log == old(log) + [Last(log)]
      ensures Last(log).put == put && Last(log).answer == answer && Last(log).wait == 0
      ensures |script| <= |old(script)| && (!answer.Broken? ==> |script| < |old(script)|)
      ensures old(script) != [] ==>
                var (keep, take, move) := old(script)[0];
                (IsSuccess(move) ==> |Store(StoredAfter(old(log)), put, keep, take)| == put.total) ==>
                  answer == move && Last(log).keep == keep && Last(log).take == take
    {
      var keep, take := |StoredAfter(log)|, 0;
      answer := Broken;
      if script != [] {
        var (k, t, a) := script[0];
        script := script[1..];
        var after := Store(StoredAfter(log), put, k, t);
        if IsSuccess(a) ==> |after| == put.total {
          keep, take, answer := k, t, a;
        }
      }
      var ex := Exchange(put, keep, take, answer, Store(StoredAfter(log), put, keep, take), 0);
      FrontLast(log, ex);
      log := log + [ex];
    }

    /** The client sleeps after the latest answer. */
    method Sleep(seconds: nat)
      requires Valid() && log != []
      modifies this`log
      ensures Valid()
      ensures log == Front(old(log)) + [Last(old(log)).(wait := seconds)]
      ensures StoredAfter(log) == StoredAfter(old(log))
    {
      var ex := Last(log).(wait := seconds);
      FrontLast(Front(log), ex);
      log := Front(log) + [ex];
    }
  }

  datatype ReadError = ReadError

  /** How much a read gets of the `available` bytes, if it works: all of them or, as `script` has it, fewer, but at
      least one. */
  function ReadSize(script: seq<Option<nat>>, available: nat): nat {
    if script == [] || script[0].None? || available == 0 then available else Min(available, 1 + script[0].value)
  }

  /** The file on disk. `script` is what its reads come to: nothing for a failure, otherwise a bound on the bytes;
      when it is used up, reads fill the buffer. */
  class LocalFile {
    const data: seq<byte>
    var script: seq<Option<nat>>

    constructor (data: seq<byte>, script: seq<Option<nat>>)
      ensures this.data == data && this.script == script
    {
      this.data, this.script := data, script;
    }

    /** Seek to `offset` and read into a buffer of `size` bytes: nothing at the end of the file or into an empty
        buffer, otherwise at least one byte. */
    method Read(offset: nat, size: nat) returns (r: Result<seq<byte>, ReadError>)
      modifies this`script
      ensures script == if old(script) == [] then [] else old(script)[1..]
      ensures r.Err? <==> old(script) != [] && old(script)[0].None?
      ensures r.Ok? ==>
                && |r.value| == ReadSize(old(script), if offset < |data| then Min(size, |data| - offset) else 0)
                && (r.value != [] ==> offset + |r.value| <= |data| && r.value == data[offset..offset + |r.value|])
    {
      var available := if offset < |data| then Min(size, |data| - offset) else 0;
      var n := available;
      if script != [] {
        var move := script[0];
        script := script[1..];
        if move.None? {
          return Err(ReadError);
        }
        if available > 0 {
          n := Min(available, 1 + move.value);
        }
      }
      r := Ok(if offset < |data| then data[offset..offset + n] else []);
    }
  }
}
