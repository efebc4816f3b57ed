/**
 * components/FileUpload.tsx: the drop handler of the upload widget. The POST to the upload
 * route is a parameter, the outcome it ends in; the widget's state is the two React state
 * variables, and a ghost trace records, in order, each state write, the POST and the call
 * of the `onUploadSuccess` callback.
 */
module FileUpload {
  import opened Wrappers
  import opened JsText

  const SUCCESS_MARK := "✅ "
  const FAILURE_MARK := "❌ "
  const RATE_LIMIT_STATUS := FAILURE_MARK + "Google API rate limit reached. Please wait a minute before trying again."
  const UPLOAD_FAILED_STATUS := FAILURE_MARK + "Upload failed. Please try again."

  /** A dropped file; only its identity matters here. */
  datatype DroppedFile = DroppedFile(name: string, mimeType: string, size: nat)

  /** The JSON body of the upload route's answer; each field may be absent. */
  datatype UploadReply = UploadReply(
    message: Option<string>, chunksCount: Option<int>, filename: Option<string>, error: Option<string>)

  /**
   * How the POST ends: an answer with `response.ok` and its parsed body, or an exception
   * (the request failed or the body was not JSON).
   */
  datatype UploadOutcome = Responded(ok: bool, body: UploadReply) | Threw

  predicate Succeeded(outcome: UploadOutcome) {
    outcome.Responded? && outcome.ok
  }

  /** The error of a failed answer names a rate limit or a quota, case-sensitively. */
  predicate RateLimited(error: Option<string>) {
    && error.Some? && error.value != ""
    && (|| Includes(error.value, "rate limit")
        || Includes(error.value, "Quota exceeded")
        || Includes(error.value, "API rate limit"))
  }

  /** The status line the widget ends with after a drop. */
  function StatusMessage(outcome: UploadOutcome): string {
    match outcome
    case Threw => UPLOAD_FAILED_STATUS
    case Responded(ok, body) =>
      if ok then
        SUCCESS_MARK + TemplateText(body.message) + " (" + TemplateNumber(body.chunksCount) + " chunks created)"
      else if RateLimited(body.error) then RATE_LIMIT_STATUS
      else FAILURE_MARK + TemplateText(body.error)
  }

  /** The third keyword adds nothing: every error containing "API rate limit" contains "rate limit". */
  lemma RateLimitTwoKeywords(error: Option<string>)
    ensures RateLimited(error) <==>
              error.Some? && (Includes(error.value, "rate limit") || Includes(error.value, "Quota exceeded"))
  {
    if error.Some? && Includes(error.value, "API rate limit") {
      IncludesPiece(error.value, "API rate limit", 4, 14);
      assert "API rate limit"[4..14] == "rate limit";
    }
  }

  /** A string lacking the first character of `sub` does not include `sub`. */
  lemma MissingFirstCharacter(s: string, sub: string)
    requires sub != [] && sub[0] !in s
    ensures !Includes(s, sub)
  {
    forall i | 0 <= i <= |s| - |sub|
      ensures !OccursAt(s, sub, i)
    {
      assert s[i..i + |sub|][0] == s[i];
    }
  }

  /** The keywords are matched case-sensitively: a capitalised rate-limit error is shown verbatim. */
  lemma RateLimitIsCaseSensitive(reply: UploadReply)
    requires reply.error == Some("Rate Limit exceeded")
    ensures !RateLimited(reply.error)
    ensures StatusMessage(Responded(false, reply)) == FAILURE_MARK + "Rate Limit exceeded"
  {
    var e := "Rate Limit exceeded";
    MissingFirstCharacter(e, "rate limit");
    MissingFirstCharacter(e, "Quota exceeded");
    MissingFirstCharacter(e, "API rate limit");
  }

  /** A failed answer without an error field shows "❌ undefined". */
  lemma MissingErrorShowsUndefined(reply: UploadReply)
    requires reply.error.None?
    ensures StatusMessage(Responded(false, reply)) == FAILURE_MARK + "undefined"
  {
  }

  /** The status is marked as a success exactly when the answer was `ok`; every other path is marked as a failure. */
  lemma StatusMarksOutcome(outcome: UploadOutcome)
    ensures Succeeded(outcome) <==> StartsWith(StatusMessage(outcome), SUCCESS_MARK)
    ensures !Succeeded(outcome) <==> StartsWith(StatusMessage(outcome), FAILURE_MARK)
  {
    var status := StatusMessage(outcome);
    if Succeeded(outcome) {
      assert status[..|SUCCESS_MARK|] == SUCCESS_MARK;
      assert status[0] != FAILURE_MARK[0];
    } else {
      assert status[..|FAILURE_MARK|] == FAILURE_MARK;
      assert status[0] != SUCCESS_MARK[0];
    }
  }

  /** A successful answer's status starts with the route's message. */
  lemma SuccessShowsMessage(reply: UploadReply)
    requires reply.message.Some?
    ensures StartsWith(StatusMessage(Responded(true, reply)), SUCCESS_MARK + reply.message.value)
  {
    var head := SUCCESS_MARK + reply.message.value;
    var status := StatusMessage(Responded(true, reply));
    assert status == head + (" (" + TemplateNumber(reply.chunksCount) + " chunks created)");
  }

  /** What the drop handler does, in the order it does it. */
  datatype Event =
    | SetUploading(uploading: bool)
    | SetStatus(status: string)
    | Post(file: DroppedFile)
    | Notify(filename: Option<string>)

  /** What the outcome of the POST adds: its status, then the callback after a success. */
  function OutcomeEvents(outcome: UploadOutcome): (es: seq<Event>)
    ensures 1 <= |es| <= 2 && es[0] == SetStatus(StatusMessage(outcome))
    ensures |es| == 2 <==> Succeeded(outcome)
  {
    [SetStatus(StatusMessage(outcome))] + (if Succeeded(outcome) then [Notify(outcome.body.filename)] else [])
  }

  /**
   * The events of one drop of `file`: the flag goes on and the status is cleared before the
   * POST; the status is set from its outcome; the callback follows only a success; the flag
   * goes off last, whatever happened.
   */
  function DropEvents(file: DroppedFile, outcome: UploadOutcome): (es: seq<Event>)
    ensures |es| >= 5 && es[0] == SetUploading(true) && es[|es| - 1] == SetUploading(false)
    ensures Post(file) in es && SetStatus(StatusMessage(outcome)) in es
    ensures (exists name :: Notify(name) in es) <==> Succeeded(outcome)
  {
    [SetUploading(true), SetStatus(""), Post(file)] + OutcomeEvents(outcome) + [SetUploading(false)]
  }

  /** Events appended one by one form the same trace as the block appended at once. */
  lemma AppendEvents(start: seq<Event>, a: Event, b: Event, c: Event, mid: seq<Event>, z: Event)
    ensures start + [a] + [b] + [c] + mid + [z] == start + ([a, b, c] + mid + [z])
  {
  }

  /**
   * The flag is on for the whole request: it is set before the POST, and it is cleared only
   * after the final status and the callback, as the last event.
   */
  lemma {:induction false} UploadingSpansRequest(file: DroppedFile, outcome: UploadOutcome)
    ensures var es := DropEvents(file, outcome);
            exists p :: 0 < p < |es| - 1 && es[p] == Post(file)
              && (forall j :: 0 <= j < p ==> es[j] != SetUploading(false))
              && (forall j :: p < j < |es| - 1 ==> !es[j].SetUploading? && !es[j].Post?)
  {
    var es := DropEvents(file, outcome);
    assert es[2] == Post(file);
    if Succeeded(outcome) {
      assert |es| == 6 && es[3].SetStatus? && es[4].Notify?;
    } else {
      assert |es| == 5 && es[3].SetStatus?;
    }
  }

  /** The upload widget's state. */
  class UploadWidget {
    var uploading: bool
    var uploadStatus: string
    ghost var events: seq<Event>

    constructor ()
      ensures !uploading && uploadStatus == "" && events == []
    {
      uploading := false;
      uploadStatus := "";
      events := [];
    }

    /** The dropzone takes a drop only while no upload is running. */
    predicate AcceptsDrops()
      reads this
    {
      !uploading
    }

    /**
     * The `try` block after the POST: the status the outcome calls for and, after a
     * success, the callback with the answer's filename.
     */
    method ShowOutcome(outcome: UploadOutcome)
      modifies this
      ensures uploadStatus == StatusMessage(outcome)
      ensures events == old(events) + OutcomeEvents(outcome)
      ensures uploading == old(uploading)
    {
      match outcome {
        case Threw =>
          uploadStatus := UPLOAD_FAILED_STATUS;
          events := events + [SetStatus(uploadStatus)];
        case Responded(ok, result) =>
          if ok {
            uploadStatus := SUCCESS_MARK + TemplateText(result.message) + " ("
              + TemplateNumber(result.chunksCount) + " chunks created)";
            events := events + [SetStatus(uploadStatus)];
            events := events + [Notify(result.filename)];
          } else if RateLimited(result.error) {
            uploadStatus := RATE_LIMIT_STATUS;
            events := events + [SetStatus(uploadStatus)];
          } else {
            uploadStatus := FAILURE_MARK + TemplateText(result.error);
            events := events + [SetStatus(uploadStatus)];
          }
      }
    }

    /**
     * `onDrop(acceptedFiles)`: nothing happens for an empty drop. Otherwise only the first
     * file is posted, inside the window in which `uploading` is on; the widget ends with the
     * status of the outcome and accepts drops again.
     */
    method OnDrop(acceptedFiles: seq<DroppedFile>, outcome: UploadOutcome)
      modifies this
      ensures acceptedFiles == [] ==> unchanged(this)
      ensures acceptedFiles != [] ==>
                && events == old(events) + DropEvents(acceptedFiles[0], outcome)
                && uploadStatus == StatusMessage(outcome)
                && !uploading && AcceptsDrops()
    {
      if |acceptedFiles| == 0 {
        return;
      }
      var file := acceptedFiles[0];
      uploading := true;
      events := events + [SetUploading(true)];
      uploadStatus := "";
      events := events + [SetStatus("")];

      events := events + [Post(file)];
      ShowOutcome(outcome);
      AppendEvents(old(events), SetUploading(true), SetStatus(""), Post(file), OutcomeEvents(outcome), SetUploading(false));

      uploading := false;
      events := events + [SetUploading(false)];
    }
  }
}
