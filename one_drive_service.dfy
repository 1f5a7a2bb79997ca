/**
 * OneDriveService: uploading a report file into a personal OneDrive or a
 * team's drive. A file of at most 4 MiB goes up in one PUT; a larger one goes
 * through an upload session, chunk by chunk, with one more full pass over the
 * same session when no chunk reported the finished item.
 *
 * The drive answers are inputs: the item a direct PUT returns or its
 * exception, the session a session request returns or its exception, and the
 * result of every chunk request of each pass. An exception of any of these
 * requests ends the upload with that exception.
 */
module OneDriveService {
  import opened Wrappers

  const SmallFileSizeLimit: int := 4 * 1024 * 1024
  const MaxSizeChunk: int := 320 * 4 * 1024
  const UploadFailedMessage: string := "Can't upload file into onedrive"

  /** The signed-in user's drive, or the drive of the group behind a team. */
  datatype Drive = PersonalDrive | GroupDrive(groupId: string)

  /** An inclusive byte range of the file. */
  datatype Range = Range(first: nat, last: nat)

  /** A request the service sends to the drive. */
  datatype DriveRequest<+S> =
    | PutContent(drive: Drive, path: string)
    | CreateUploadSession(drive: Drive, path: string)
    | PutChunk(session: S, range: Range)

  /**
   * What GetChunkRequestResponseAsync does for one chunk: it yields the item,
   * yields an accepted chunk, records an error and goes on, or throws.
   */
  datatype ChunkResult<+I> =
    | Succeeded(item: I)
    | Accepted
    | Errored(error: string)
    | Threw(exception: string)

  /** A file larger than 4 MiB goes through an upload session. */
  predicate UsesUploadSession(length: nat) {
    length > SmallFileSizeLimit
  }

  /**
   * The chunk requests of ChunkedUploadProvider: consecutive ranges of
   * maxSizeChunk bytes from the given offset, the last one cut at the end.
   */
  function ChunkRanges(offset: nat, length: nat, size: nat): seq<Range>
    requires size > 0
    decreases length - offset
  {
    if offset >= length then []
    else
      var last := if offset + size - 1 < length - 1 then offset + size - 1 else length - 1;
      [Range(offset, last)] + ChunkRanges(offset + size, length, size)
  }

  /**
   * The ranges cover the bytes from the offset to the end, in order, without
   * gaps or overlaps, none longer than the chunk size.
   */
  lemma {:induction false} ChunkRangesCover(offset: nat, length: nat, size: nat)
    requires size > 0
    ensures var rs := ChunkRanges(offset, length, size);
      && (offset < length <==> |rs| > 0)
      && (|rs| > 0 ==> rs[0].first == offset && rs[|rs| - 1].last == length - 1)
      && (forall i :: 0 <= i < |rs| ==> rs[i].first <= rs[i].last < length && rs[i].last - rs[i].first < size)
      && (forall i :: 0 <= i < |rs| - 1 ==> rs[i + 1].first == rs[i].last + 1)
    decreases length - offset
  {
    if offset < length {
      var rs := ChunkRanges(offset, length, size);
      var rest := ChunkRanges(offset + size, length, size);
      ChunkRangesCover(offset + size, length, size);
      assert rs == [rs[0]] + rest;
      forall i | 0 <= i < |rs| - 1
        ensures rs[i + 1].first == rs[i].last + 1
      {
        if i > 0 {
          assert rs[i] == rest[i - 1] && rs[i + 1] == rest[i];
        }
      }
    }
  }

  /** The item of the last chunk result that reports one; None when none does. */
  function LastSucceeded<I>(results: seq<ChunkResult<I>>): Option<I> {
    if |results| == 0 then None
    else if results[|results| - 1].Succeeded? then Some(results[|results| - 1].item)
    else LastSucceeded(results[..|results| - 1])
  }

  /** The errors collected over a pass, in order. */
  function Errors<I>(results: seq<ChunkResult<I>>): seq<string> {
    if |results| == 0 then []
    else Errors(results[..|results| - 1]) + (if results[|results| - 1].Errored? then [results[|results| - 1].error] else [])
  }

  /** The item is that of a succeeded chunk after which no chunk succeeded; there is one exactly when some chunk succeeded. */
  lemma {:induction false} LastSucceededMeaning<I>(results: seq<ChunkResult<I>>)
    ensures LastSucceeded(results).Some? <==> exists i :: 0 <= i < |results| && results[i].Succeeded?
    ensures LastSucceeded(results).Some? ==>
      exists i :: (&& 0 <= i < |results|
                   && results[i] == Succeeded(LastSucceeded(results).value)
                   && forall j :: i < j < |results| ==> !results[j].Succeeded?)
  {
    if |results| > 0 && !results[|results| - 1].Succeeded? {
      var front := results[..|results| - 1];
      LastSucceededMeaning(front);
      if exists i :: 0 <= i < |results| && results[i].Succeeded? {
        var i :| 0 <= i < |results| && results[i].Succeeded?;
        assert front[i] == results[i];
      }
      if LastSucceeded(results).Some? {
        var i :| && 0 <= i < |front|
                 && front[i] == Succeeded(LastSucceeded(front).value)
                 && forall j :: i < j < |front| ==> !front[j].Succeeded?;
        assert results[i] == front[i];
        forall j | i < j < |results|
          ensures !results[j].Succeeded?
        {
          if j < |front| {
            assert results[j] == front[j];
          }
        }
      }
    }
  }

  /** The position of the first chunk request that throws; the length when none does. */
  function FirstThrow<I>(results: seq<ChunkResult<I>>): (n: nat)
    ensures n <= |results|
    ensures forall i :: 0 <= i < n ==> !results[i].Threw?
    ensures n < |results| ==> results[n].Threw?
  {
    if |results| == 0 || results[0].Threw? then 0 else 1 + FirstThrow(results[1..])
  }

  /** Some chunk request of the pass throws. */
  predicate Throws<I>(results: seq<ChunkResult<I>>) {
    FirstThrow(results) < |results|
  }

  /**
   * How one pass ends: the exception of the first chunk request that throws,
   * or else the item of the last succeeded chunk, None when no chunk succeeded.
   */
  function PassOutcome<I>(results: seq<ChunkResult<I>>): Result<Option<I>, string> {
    if Throws(results) then Failure(results[FirstThrow(results)].exception)
    else Success(LastSucceeded(results))
  }

  /** The number of chunk requests a pass sends: all of them, or up to and including the one that throws. */
  function PassLength<I>(results: seq<ChunkResult<I>>): (n: nat)
    ensures n <= |results|
    ensures Throws(results) <==> n < |results| || (n > 0 && results[n - 1].Threw?)
  {
    if Throws(results) then FirstThrow(results) + 1 else |results|
  }

  /** The chunk requests of one pass, one per range, in order, all on one session. */
  function ChunkRequests<S>(session: S, ranges: seq<Range>): (r: seq<DriveRequest<S>>)
    ensures |r| == |ranges| && forall i :: 0 <= i < |ranges| ==> r[i] == PutChunk(session, ranges[i])
  {
    seq(|ranges|, i requires 0 <= i < |ranges| => PutChunk(session, ranges[i]))
  }

  /**
   * One pass of Upload's foreach: the chunk requests are sent in order, a
   * recorded error does not stop the pass, and a request that throws ends it
   * with its exception; otherwise the item of the last succeeded chunk is kept
   * and the recorded errors are collected.
   */
  method UploadPass<S, I>(session: S, ranges: seq<Range>, results: seq<ChunkResult<I>>)
    returns (itemResult: Option<I>, thrown: Option<string>, exceptions: seq<string>, sent: seq<DriveRequest<S>>)
    requires |results| == |ranges|
    ensures thrown.Some? <==> Throws(results)
    ensures thrown.Some? ==> thrown.value == results[FirstThrow(results)].exception
    ensures thrown.None? ==> itemResult == LastSucceeded(results)
    ensures PassOutcome(results) == if thrown.Some? then Failure(thrown.value) else Success(itemResult)
    ensures exceptions == Errors(results[..FirstThrow(results)])
    ensures sent == ChunkRequests(session, ranges[..PassLength(results)])
  {
    itemResult := None;
    thrown := None;
    exceptions := [];
    sent := [];
    var k := 0;
    while k < |ranges|
      invariant k <= |ranges| && k <= FirstThrow(results)
      invariant itemResult == LastSucceeded(results[..k])
      invariant exceptions == Errors(results[..k])
      invariant sent == ChunkRequests(session, ranges[..k])
    {
      sent := sent + [PutChunk(session, ranges[k])];
      var result := results[k];
      if result.Threw? {
        assert ranges[..k + 1] == ranges[..k] + [ranges[k]];
        thrown := Some(result.exception);
        return;
      }
      assert results[..k + 1][..k] == results[..k];
      if result.Errored? {
        exceptions := exceptions + [result.error];
      }
      if result.Succeeded? {
        itemResult := Some(result.item);
      }
      k := k + 1;
    }
    assert results[..k] == results;
    assert ranges[..k] == ranges;
  }

  /** The result of Upload once a pass has ended: its exception, its item, or, with no item, the failure. */
  function Finished<I>(outcome: Result<Option<I>, string>): Result<I, string> {
    if outcome.Failure? then Failure(outcome.error)
    else if outcome.value.Some? then Success(outcome.value.value)
    else Failure(UploadFailedMessage)
  }

  /** The chunk requests of a pass over a file of this length. */
  function PassRequests<S, I>(session: S, length: nat, results: seq<ChunkResult<I>>): seq<DriveRequest<S>>
    requires |results| == |ChunkRanges(0, length, MaxSizeChunk)|
  {
    ChunkRequests(session, ChunkRanges(0, length, MaxSizeChunk)[..PassLength(results)])
  }

  /**
   * Upload: a pass over the chunks; a chunk request that throws ends the
   * upload with its exception; if no chunk reported the item and this is the
   * first pass, the whole upload runs once more over the same session (with
   * retryPass as the chunk results); if the second pass finds no item either,
   * the upload fails. The result is never null.
   */
  method Upload<S, I>(session: S, length: nat, pass: seq<ChunkResult<I>>, retryPass: seq<ChunkResult<I>>, first: bool)
    returns (result: Result<I, string>, sent: seq<DriveRequest<S>>)
    requires |pass| == |ChunkRanges(0, length, MaxSizeChunk)|
    requires first ==> |retryPass| == |pass|
    ensures Throws(pass) ==> result == Failure(pass[FirstThrow(pass)].exception) && sent == PassRequests(session, length, pass)
    ensures !Throws(pass) && LastSucceeded(pass).Some? ==> result == Success(LastSucceeded(pass).value) && sent == PassRequests(session, length, pass)
    ensures !Throws(pass) && LastSucceeded(pass).None? && !first ==> result == Failure(UploadFailedMessage) && sent == PassRequests(session, length, pass)
    ensures !Throws(pass) && LastSucceeded(pass).None? && first ==>
      && result == Finished(PassOutcome(retryPass))
      && sent == PassRequests(session, length, pass) + PassRequests(session, length, retryPass)
    decreases first
  {
    var maxSizeChunk := 320 * 4 * 1024;
    var chunkRequests := ChunkRanges(0, length, maxSizeChunk);
    var itemResult, thrown, exceptions;
    itemResult, thrown, exceptions, sent := UploadPass(session, chunkRequests, pass);
    if thrown.Some? {
      result := Failure(thrown.value);
      return;
    }
    if itemResult.None? {
      if first {
        var more;
        result, more := Upload(session, length, retryPass, retryPass, false);
        sent := sent + more;
      } else {
        result := Failure(UploadFailedMessage);
      }
      return;
    }
    result := Success(itemResult.value);
  }

  /**
   * The drive's answers to one upload: the item a PUT returns or its
   * exception, the session or the exception of its request, and the chunk
   * results of each pass.
   */
  datatype DriveAnswers<+S, +I> = DriveAnswers(putResult: Result<I, string>, session: Result<S, string>,
                                               firstPass: seq<ChunkResult<I>>, secondPass: seq<ChunkResult<I>>)

  /** Each pass has one chunk result per chunk request of a file of this length. */
  predicate Fits<S, I>(answers: DriveAnswers<S, I>, length: nat) {
    UsesUploadSession(length) ==> |answers.firstPass| == |ChunkRanges(0, length, MaxSizeChunk)| == |answers.secondPass|
  }

  /**
   * What an upload of a file of this length ends in: the direct PUT's item or
   * exception; through a session, the exception of the session request, else
   * how the first pass ends, else (no item and no exception) how the second
   * pass ends.
   */
  function UploadResult<S, I>(length: nat, putResult: Result<I, string>, session: Result<S, string>,
                              firstPass: seq<ChunkResult<I>>, secondPass: seq<ChunkResult<I>>): Result<I, string> {
    if !UsesUploadSession(length) then putResult
    else if session.Failure? then Failure(session.error)
    else if Throws(firstPass) || LastSucceeded(firstPass).Some? then Finished(PassOutcome(firstPass))
    else Finished(PassOutcome(secondPass))
  }

  /** UploadResult for the drive's answers. */
  function Answered<S, I>(answers: DriveAnswers<S, I>, length: nat): Result<I, string> {
    UploadResult(length, answers.putResult, answers.session, answers.firstPass, answers.secondPass)
  }

  /**
   * The requests of an upload: one PUT; or the session request, then, when a
   * session came back, one pass and a second pass when the first ended with
   * neither an item nor an exception.
   */
  function UploadRequests<S, I>(drive: Drive, length: nat, uploadPath: string, session: Result<S, string>,
                                firstPass: seq<ChunkResult<I>>, secondPass: seq<ChunkResult<I>>): seq<DriveRequest<S>>
    requires UsesUploadSession(length) ==> |firstPass| == |ChunkRanges(0, length, MaxSizeChunk)| == |secondPass|
  {
    if !UsesUploadSession(length) then [PutContent(drive, uploadPath)]
    else if session.Failure? then [CreateUploadSession(drive, uploadPath)]
    else
      [CreateUploadSession(drive, uploadPath)] + PassRequests(session.value, length, firstPass)
        + (if !Throws(firstPass) && LastSucceeded(firstPass).None? then PassRequests(session.value, length, secondPass) else [])
  }

  /**
   * The upload ends in an item exactly when no request threw and a pass found
   * an item; a failure is the exception of the PUT, of the session request or
   * of the first chunk request that threw, or the message of a second pass
   * without an item.
   */
  ghost predicate UploadMeaning<S, I>(length: nat, putResult: Result<I, string>, session: Result<S, string>,
                                firstPass: seq<ChunkResult<I>>, secondPass: seq<ChunkResult<I>>,
                                drive: Drive, uploadPath: string, result: Result<I, string>, sent: seq<DriveRequest<S>>)
  {
    && (!UsesUploadSession(length) ==> result == putResult && sent == [PutContent(drive, uploadPath)])
    && (UsesUploadSession(length) ==>
          && |sent| > 0
          && sent[0] == CreateUploadSession(drive, uploadPath)
          && (session.Failure? ==> result == Failure(session.error) && |sent| == 1)
          && (session.Success? ==> forall i :: 1 <= i < |sent| ==> sent[i].PutChunk? && sent[i].session == session.value)
          && (session.Success? && Throws(firstPass) ==> result == Failure(firstPass[FirstThrow(firstPass)].exception))
          && (session.Success? && !Throws(firstPass) && LastSucceeded(firstPass).Some? ==>
                result == Success(LastSucceeded(firstPass).value))
          && (session.Success? && !Throws(firstPass) && LastSucceeded(firstPass).None? && Throws(secondPass) ==>
                result == Failure(secondPass[FirstThrow(secondPass)].exception))
          && (session.Success? && !Throws(firstPass) && LastSucceeded(firstPass).None? && !Throws(secondPass) ==>
                && (result.Success? <==> LastSucceeded(secondPass).Some?)
                && (result.Failure? ==> result.error == UploadFailedMessage)))
  }

  /** The chunk requests of a pass all go to its session. */
  lemma ChunkRequestsOnSession<S>(session: S, ranges: seq<Range>)
    ensures forall r :: r in ChunkRequests(session, ranges) ==> r.PutChunk? && r.session == session
  {
  }

  /** The function view of an upload has the meaning stated by UploadMeaning. */
  lemma {:induction false} UploadResultMeaning<S, I>(drive: Drive, length: nat, uploadPath: string, putResult: Result<I, string>,
                                                     session: Result<S, string>, firstPass: seq<ChunkResult<I>>, secondPass: seq<ChunkResult<I>>)
    requires UsesUploadSession(length) ==> |firstPass| == |ChunkRanges(0, length, MaxSizeChunk)| == |secondPass|
    ensures UploadMeaning(length, putResult, session, firstPass, secondPass, drive, uploadPath,
                          UploadResult(length, putResult, session, firstPass, secondPass),
                          UploadRequests(drive, length, uploadPath, session, firstPass, secondPass))
  {
    if UsesUploadSession(length) && session.Success? {
      var sent := UploadRequests(drive, length, uploadPath, session, firstPass, secondPass);
      var ranges := ChunkRanges(0, length, MaxSizeChunk);
      var one := PassRequests(session.value, length, firstPass);
      var two := if !Throws(firstPass) && LastSucceeded(firstPass).None? then PassRequests(session.value, length, secondPass) else [];
      ChunkRequestsOnSession(session.value, ranges[..PassLength(firstPass)]);
      ChunkRequestsOnSession(session.value, ranges[..PassLength(secondPass)]);
      assert sent == [CreateUploadSession(drive, uploadPath)] + one + two;
      forall i | 1 <= i < |sent|
        ensures sent[i].PutChunk? && sent[i].session == session.value
      {
        if i <= |one| {
          assert sent[i] == one[i - 1];
        } else {
          assert sent[i] == two[i - 1 - |one|];
        }
      }
    }
  }

  /** The session branch of UploadTo: the session request, then the chunked upload over the session it returned. */
  method UploadThroughSession<S, I>(drive: Drive, length: nat, uploadPath: string, putResult: Result<I, string>, session: Result<S, string>,
                                    firstPass: seq<ChunkResult<I>>, secondPass: seq<ChunkResult<I>>)
    returns (result: Result<I, string>, sent: seq<DriveRequest<S>>)
    requires UsesUploadSession(length) && |firstPass| == |ChunkRanges(0, length, MaxSizeChunk)| == |secondPass|
    ensures result == UploadResult(length, putResult, session, firstPass, secondPass)
    ensures sent == UploadRequests(drive, length, uploadPath, session, firstPass, secondPass)
  {
    if session.Failure? {
      result := Failure(session.error);
      sent := [CreateUploadSession(drive, uploadPath)];
    } else {
      var chunks;
      result, chunks := Upload(session.value, length, firstPass, secondPass, true);
      sent := [CreateUploadSession(drive, uploadPath)] + chunks;
    }
  }

  /**
   * Shared by both public operations: a small file is PUT into place; a
   * larger one gets an upload session at the path and goes up in chunks.
   * Any request that throws ends the upload with its exception.
   */
  method UploadTo<S, I>(drive: Drive, length: nat, uploadPath: string, putResult: Result<I, string>, session: Result<S, string>,
                        firstPass: seq<ChunkResult<I>>, secondPass: seq<ChunkResult<I>>)
    returns (result: Result<I, string>, sent: seq<DriveRequest<S>>)
    requires UsesUploadSession(length) ==> |firstPass| == |ChunkRanges(0, length, MaxSizeChunk)| == |secondPass|
    ensures UploadMeaning(length, putResult, session, firstPass, secondPass, drive, uploadPath, result, sent)
    ensures result == UploadResult(length, putResult, session, firstPass, secondPass)
    ensures sent == UploadRequests(drive, length, uploadPath, session, firstPass, secondPass)
  {
    if length > SmallFileSizeLimit {
      result, sent := UploadThroughSession(drive, length, uploadPath, putResult, session, firstPass, secondPass);
    } else {
      result := putResult;
      sent := [PutContent(drive, uploadPath)];
    }
    UploadResultMeaning(drive, length, uploadPath, putResult, session, firstPass, secondPass);
  }

  /** UploadToPersonalOneDrive: the upload into the signed-in user's drive. */
  method UploadToPersonalOneDrive<S, I>(length: nat, uploadPath: string, putResult: Result<I, string>, session: Result<S, string>,
                                        firstPass: seq<ChunkResult<I>>, secondPass: seq<ChunkResult<I>>)
    returns (result: Result<I, string>, sent: seq<DriveRequest<S>>)
    requires UsesUploadSession(length) ==> |firstPass| == |ChunkRanges(0, length, MaxSizeChunk)| == |secondPass|
    ensures UploadMeaning(length, putResult, session, firstPass, secondPass, PersonalDrive, uploadPath, result, sent)
    ensures result == UploadResult(length, putResult, session, firstPass, secondPass)
    ensures sent == UploadRequests(PersonalDrive, length, uploadPath, session, firstPass, secondPass)
  {
    result, sent := UploadTo(PersonalDrive, length, uploadPath, putResult, session, firstPass, secondPass);
  }

  /** UploadToChannelFolder: the same size rule, into the group's drive. */
  method UploadToChannelFolder<S, I>(groupId: string, length: nat, uploadPath: string, putResult: Result<I, string>, session: Result<S, string>,
                                     firstPass: seq<ChunkResult<I>>, secondPass: seq<ChunkResult<I>>)
    returns (result: Result<I, string>, sent: seq<DriveRequest<S>>)
    requires UsesUploadSession(length) ==> |firstPass| == |ChunkRanges(0, length, MaxSizeChunk)| == |secondPass|
    ensures UploadMeaning(length, putResult, session, firstPass, secondPass, GroupDrive(groupId), uploadPath, result, sent)
    ensures result == UploadResult(length, putResult, session, firstPass, secondPass)
    ensures sent == UploadRequests(GroupDrive(groupId), length, uploadPath, session, firstPass, secondPass)
  {
    result, sent := UploadTo(GroupDrive(groupId), length, uploadPath, putResult, session, firstPass, secondPass);
  }
}
