/**
 * The value-level parts of the `TakePicture` direct-method handler: how a
 * payload changes the save path, where a capture is written, and how the
 * response is built.
 */
module Command {
  import opened Base
  import opened DotNetString

  /** The payload of the telemetry event sent after a capture. */
  const TelemetryPayload := "newImage"

  /** The file extension of captured pictures. */
  const PictureExtension := "jpg"

  /** The payload text that means "keep the current path". */
  const NullToken := "null"

  /** The character removed from a new path. */
  const Quote: char := '"'

  /** An incoming direct-method call; `data` is the UTF-8 decoded payload, `None` when the payload array is null. */
  datatype MethodRequest = MethodRequest(name: string, data: Option<string>)

  /** The response returned to the cloud: a JSON body and a status code. */
  datatype MethodResponse = MethodResponse(result: string, status: int)

  /**
   * How the capture code ends on one call. `SetupThrew` is a failure while the
   * capture handler, the encoder or the null sink is being built, before the
   * camera is touched; `Threw` is a failure once the camera is in use;
   * `Returned` means every step returned (the capture itself is not awaited).
   */
  datatype CaptureOutcome = Returned | SetupThrew(detail: string) | Threw(detail: string)

  /** The exceptions the handler catches. */
  datatype HandlerFault =
    | NullPayload                 // decoding a null payload throws ArgumentNullException
    | CameraNotInitialized        // the camera field is still null: NullReferenceException
    | CaptureFailed(detail: string)  // the camera pipeline threw

  /** The directory and extension given to the image capture handler. */
  datatype CaptureTarget = CaptureTarget(directory: string, extension: string)

  /** A payload that leaves the save path as it is: blank, or exactly `null`. */
  predicate KeepsPath(data: string) {
    IsBlank(data) || data == NullToken
  }

  /** The save path after a decoded payload: unchanged, or the payload with every quote removed. */
  function NewPath(path: Option<string>, data: string): Option<string>
  {
    if !IsBlank(data) && data != NullToken then Some(RemoveAll(data, Quote)) else path
  }

  /** The directory handed to the capture handler: the save path followed by a slash (a null path reads as empty). */
  function CaptureDirectory(path: Option<string>): string
  {
    (if path.Some? then path.value else "") + "/"
  }

  /**
   * How a capture ends: a failure while building the pipeline objects comes
   * first; then a null camera throws at its first use; otherwise the
   * pipeline decides.
   */
  function CaptureResult(camReady: bool, outcome: CaptureOutcome): Outcome<HandlerFault>
  {
    match outcome
    case SetupThrew(d) => Fail(CaptureFailed(d))
    case _ =>
      if !camReady then Fail(CameraNotInitialized)
      else if outcome.Threw? then Fail(CaptureFailed(outcome.detail))
      else Pass
  }

  /** How the whole command ends: decoding a null payload throws before anything else. */
  function HandlerResult(decoded: bool, camReady: bool, outcome: CaptureOutcome): Outcome<HandlerFault>
  {
    if !decoded then Fail(NullPayload) else CaptureResult(camReady, outcome)
  }

  const ResultPrefix := "{\"result\":\""
  const ResultSuffix := "\"}"

  /** The JSON object `{"result":"<text>"}`. */
  function ResultJson(text: string): string {
    ResultPrefix + text + ResultSuffix
  }

  /** Reads the text back out of a `{"result":"<text>"}` body. */
  function ResultText(body: string): Option<string> {
    if |body| >= |ResultPrefix| + |ResultSuffix| && body[..|ResultPrefix|] == ResultPrefix
       && body[|body| - |ResultSuffix|..] == ResultSuffix
    then Some(body[|ResultPrefix|..|body| - |ResultSuffix|])
    else None
  }

  /** Stands for `exception.ToString()`: the exception's type name, or the camera's own detail. */
  function ExceptionText(f: HandlerFault): string {
    match f
    case NullPayload => "System.ArgumentNullException"
    case CameraNotInitialized => "System.NullReferenceException"
    case CaptureFailed(d) => d
  }

  const ExecutedPrefix := "Executed direct method: "
  const ExceptionPrefix := "Exception: "

  /** The response for a command that ended with `result`. */
  function Respond(name: string, result: Outcome<HandlerFault>): MethodResponse
  {
    match result
    case Pass => MethodResponse(ResultJson(ExecutedPrefix + name), 200)
    case Fail(f) => MethodResponse(ResultJson(ExceptionPrefix + ExceptionText(f)), 400)
  }

  /** The body text can always be read back out of the JSON object. */
  lemma ResultJsonRoundTrip(text: string)
    ensures ResultText(ResultJson(text)) == Some(text)
  {
    var body := ResultJson(text);
    assert body[..|ResultPrefix|] == ResultPrefix;
    assert body[|body| - |ResultSuffix|..] == ResultSuffix;
    assert body[|ResultPrefix|..|body| - |ResultSuffix|] == text;
  }

  /**
   * Every command is answered with 200 or 400: 200 exactly when it ended
   * normally, with a body naming the method; 400 otherwise, with a body that
   * starts with `Exception: ` and carries the exception's text.
   */
  lemma RespondReportsOutcome(name: string, result: Outcome<HandlerFault>)
    ensures Respond(name, result).status in {200, 400}
    ensures Respond(name, result).status == 200 <==> result.Pass?
    ensures result.Pass? ==> ResultText(Respond(name, result).result) == Some(ExecutedPrefix + name)
    ensures result.Fail? ==> ResultText(Respond(name, result).result) == Some(ExceptionPrefix + ExceptionText(result.error))
  {
    match result
    case Pass => ResultJsonRoundTrip(ExecutedPrefix + name);
    case Fail(f) => ResultJsonRoundTrip(ExceptionPrefix + ExceptionText(f));
  }

  /** A success body never equals a failure body, whatever the method name and the exception text. */
  lemma SuccessAndFailureBodiesDiffer(name: string, f: HandlerFault)
    ensures Respond(name, Pass).result != Respond(name, Fail(f)).result
  {
    RespondReportsOutcome(name, Pass);
    RespondReportsOutcome(name, Fail(f));
    var a := ExecutedPrefix + name;
    var b := ExceptionPrefix + ExceptionText(f);
    assert a[2] != b[2];
  }

  /**
   * The command succeeds exactly when the payload decodes, the camera exists
   * and the capture code returns; each failure is the exception thrown first.
   */
  lemma HandlerSucceedsIff(decoded: bool, camReady: bool, outcome: CaptureOutcome)
    ensures HandlerResult(decoded, camReady, outcome).Pass? <==> decoded && camReady && outcome.Returned?
    ensures !decoded ==> HandlerResult(decoded, camReady, outcome) == Fail(NullPayload)
    ensures decoded && outcome.SetupThrew? ==>
              HandlerResult(decoded, camReady, outcome) == Fail(CaptureFailed(outcome.detail))
    ensures decoded && !camReady && !outcome.SetupThrew? ==>
              HandlerResult(decoded, camReady, outcome) == Fail(CameraNotInitialized)
    ensures decoded && camReady && outcome.Threw? ==>
              HandlerResult(decoded, camReady, outcome) == Fail(CaptureFailed(outcome.detail))
  {
  }

  /** A blank payload or exactly `null` keeps the save path. */
  lemma KeepingPayload(path: Option<string>, data: string)
    requires KeepsPath(data)
    ensures NewPath(path, data) == path
  {
  }

  /**
   * Any other payload replaces the save path by the payload with every quote
   * removed, wherever it stands, and every other character kept in order.
   */
  lemma ReplacingPayload(path: Option<string>, data: string)
    requires !KeepsPath(data)
    ensures NewPath(path, data).Some?
    ensures Quote !in NewPath(path, data).value
    ensures multiset(NewPath(path, data).value) == multiset(data)[Quote := 0]
    ensures Quote !in data ==> NewPath(path, data) == Some(data)
    ensures forall a, b :: data == a + b ==> NewPath(path, data).value == RemoveAll(a, Quote) + RemoveAll(b, Quote)
  {
    RemoveAllContents(data, Quote);
    RemoveAllIdentity(data, Quote);
    forall a, b | data == a + b
      ensures RemoveAll(data, Quote) == RemoveAll(a, Quote) + RemoveAll(b, Quote)
    {
      RemoveAllConcat(a, b, Quote);
    }
  }

  /** Removing quotes from a quoted, quote-free text gives the text. */
  lemma {:induction false} UnquoteEnclosed(text: string)
    requires Quote !in text
    ensures RemoveAll([Quote] + text + [Quote], Quote) == text
  {
    RemoveAllConcat([Quote] + text, [Quote], Quote);
    RemoveAllConcat([Quote], text, Quote);
    NoOccurrenceKept(text, Quote);
    assert RemoveAll([Quote], Quote) == [];
  }

  /** A quoted path is unquoted: `"/tmp/x"` gives `/tmp/x`. */
  lemma QuotedPayload(path: Option<string>)
    ensures NewPath(path, "\"/tmp/x\"") == Some("/tmp/x")
  {
    var data := "\"/tmp/x\"";
    assert !IsWhiteSpace(data[0]) && data != NullToken;
    assert data == [Quote] + "/tmp/x" + [Quote];
    UnquoteEnclosed("/tmp/x");
  }

  /** Removing quotes joins the quote-free texts on either side of a quote. */
  lemma {:induction false} UnquoteInner(a: string, b: string)
    requires Quote !in a && Quote !in b
    ensures RemoveAll(a + [Quote] + b, Quote) == a + b
  {
    var left := a + [Quote];
    assert RemoveAll([Quote], Quote) == [];
    RemoveAllConcat(a, [Quote], Quote);
    NoOccurrenceKept(a, Quote);
    assert RemoveAll(left, Quote) == a;
    RemoveAllConcat(left, b, Quote);
    NoOccurrenceKept(b, Quote);
  }

  /** Inner quotes go too, not just enclosing ones: `/tmp"/x` gives `/tmp/x`. */
  lemma InnerQuoteRemoved(path: Option<string>)
    ensures NewPath(path, "/tmp\"/x") == Some("/tmp/x")
  {
    var data := "/tmp\"/x";
    assert !IsWhiteSpace(data[0]) && data != NullToken;
    assert data == "/tmp" + [Quote] + "/x";
    UnquoteInner("/tmp", "/x");
    assert "/tmp" + "/x" == "/tmp/x";
  }

  /** A payload of two quote characters is not blank, so it sets the empty path and the capture handler is given the directory `/`. */
  lemma QuotesOnlyPayload(path: Option<string>)
    ensures NewPath(path, "\"\"") == Some("")
    ensures CaptureDirectory(NewPath(path, "\"\"")) == "/"
  {
    var data := "\"\"";
    assert !IsWhiteSpace(data[0]) && data != NullToken;
    assert data == [Quote] + "" + [Quote];
    UnquoteEnclosed("");
  }

  /** The JSON string `"null"` is not the `null` token: it sets the path `null`. */
  lemma QuotedNullToken(path: Option<string>)
    ensures NewPath(path, NullToken) == path
    ensures NewPath(path, "\"null\"") == Some("null")
  {
    var data := "\"null\"";
    assert !IsWhiteSpace(data[0]) && data != NullToken;
    assert data == [Quote] + NullToken + [Quote];
    UnquoteEnclosed(NullToken);
  }

  /** The capture directory is the save path with a slash appended, or `/` alone when the path is null. */
  lemma CaptureDirectoryOfPath(path: Option<string>)
    ensures |CaptureDirectory(path)| >= 1 && CaptureDirectory(path)[|CaptureDirectory(path)| - 1] == '/'
    ensures path.Some? ==> CaptureDirectory(path)[..|path.value|] == path.value
    ensures path.Some? ==> |CaptureDirectory(path)| == |path.value| + 1
    ensures path.None? ==> CaptureDirectory(path) == "/"
  {
  }
}
