/**
 One run of the capture-and-submit timer callback, with the camera and the
 network replaced by their outcomes: what is captured, which requests are
 made, what is logged, and which word (if any) reaches the transcript updater.
 */
module Cycle {
  import opened Wrappers
  import opened Transcript

  /** What `takePictureAsync` did: it threw, or it produced a photo whose `uri` may be missing. */
  datatype Capture = CaptureThrew(message: string) | Photo(uri: Option<string>)

  /** What one HTTP request did: a response body, or an exception with its message. */
  datatype Response = Responded(data: Word) | RequestFailed(message: string)

  /** A request to the recognition service, carrying the uri of the captured photo. */
  datatype Request = Post(url: string, fileUri: string) | Get(url: string, fileUri: string)

  /** A `console.error` call: its fixed text and the error message passed after it, if any. */
  datatype LogEntry = LogEntry(text: string, detail: Option<string>)

  datatype Outcome = Outcome(captured: bool, requests: seq<Request>, logs: seq<LogEntry>, word: Option<Word>)

  const CaptureFailedText: string := "Failed to capture photo."
  const PostFailedText: string := "POST failed, trying GET:"
  const GetFailedText: string := "GET also failed:"
  const PredictionErrorText: string := "Error during prediction:"

  /** Both requests go to the `/predict` path under the service's base URL. */
  function PredictUrl(service: string): (url: string)
    ensures |url| == |service| + |"/predict"|
    ensures url[..|service|] == service && url[|service|..] == "/predict"
  {
    service + "/predict"
  }

  /** `photo.uri` is truthy: present and not the empty string. */
  predicate HasUri(c: Capture)
    ensures HasUri(c) ==> c.Photo? && c.uri.Some? && |c.uri.value| > 0
    ensures c.Photo? && c.uri.Some? && |c.uri.value| > 0 ==> HasUri(c)
  {
    c.Photo? && c.uri.Some? && c.uri.value != ""
  }

  /**
   The timer callback. Nothing happens unless recording is on and a camera
   is mounted; a capture without a uri stops before any request; the GET
   fallback is tried only when the POST throws; a failed GET is logged and
   the cycle ends normally.
   */
  function RunCycle(recording: bool, cameraPresent: bool, service: string,
                    capture: Capture, primary: Response, fallback: Response): (o: Outcome)
    ensures o.captured <==> recording && cameraPresent
    ensures !o.captured ==> o.requests == [] && o.logs == [] && o.word == None
    ensures o.requests != [] <==> o.captured && HasUri(capture)
    ensures |o.requests| <= 2
    ensures forall i :: 0 <= i < |o.requests| ==> o.requests[i].url == PredictUrl(service)
    ensures forall i :: 0 <= i < |o.requests| ==> o.requests[i].fileUri == capture.uri.value
    ensures o.requests != [] ==> o.requests[0].Post?
    ensures |o.requests| == 2 <==> o.requests != [] && primary.RequestFailed?
    ensures |o.requests| == 2 ==> o.requests[1].Get?
    ensures o.word.Some? <==> o.requests != [] && (primary.Responded? || fallback.Responded?)
    ensures o.word.Some? && primary.Responded? ==> o.word.value == primary.data
    ensures o.word.Some? && primary.RequestFailed? ==> o.word.value == fallback.data
  {
    if !recording || !cameraPresent then Outcome(false, [], [], None)
    else match capture
      case CaptureThrew(m) => Outcome(true, [], [LogEntry(PredictionErrorText, Some(m))], None)
      case Photo(uri) =>
        if !HasUri(capture) then Outcome(true, [], [LogEntry(CaptureFailedText, None)], None)
        else
          var post := Post(PredictUrl(service), uri.value);
          match primary
          case Responded(w) => Outcome(true, [post], [], Some(w))
          case RequestFailed(m) =>
            var get := Get(PredictUrl(service), uri.value);
            var postLog := LogEntry(PostFailedText, Some(m));
            match fallback
            case Responded(w) => Outcome(true, [post, get], [postLog], Some(w))
            case RequestFailed(m2) =>
              Outcome(true, [post, get], [postLog, LogEntry(GetFailedText, Some(m2))], None)
  }

  /** The transcript after a cycle: the word, if one came back, goes through the updater. */
  function ApplyOutcome(t: seq<Word>, o: Outcome): (r: seq<Word>)
    ensures o.word.None? ==> r == t
    ensures o.word.Some? ==> r == AppendWord(t, o.word.value)
  {
    match o.word
    case None => t
    case Some(w) => AppendWord(t, w)
  }

  /** A cycle keeps the transcript free of equal neighbours. */
  lemma CycleKeepsNoAdjacentDuplicates(t: seq<Word>, recording: bool, cameraPresent: bool, service: string,
                                       capture: Capture, primary: Response, fallback: Response)
    requires NoAdjacentDuplicates(t)
    ensures NoAdjacentDuplicates(ApplyOutcome(t, RunCycle(recording, cameraPresent, service, capture, primary, fallback)))
  {
    var o := RunCycle(recording, cameraPresent, service, capture, primary, fallback);
    if o.word.Some? {
      AppendWordKeepsNoAdjacentDuplicates(t, o.word.value);
    }
  }

  /** With recording off or no camera the tick captures nothing, sends nothing and changes nothing. */
  lemma IdleTickDoesNothing(t: seq<Word>, recording: bool, cameraPresent: bool, service: string,
                            capture: Capture, primary: Response, fallback: Response)
    requires !recording || !cameraPresent
    ensures RunCycle(recording, cameraPresent, service, capture, primary, fallback) == Outcome(false, [], [], None)
    ensures ApplyOutcome(t, RunCycle(recording, cameraPresent, service, capture, primary, fallback)) == t
  {
  }

  /** A photo without a uri aborts the cycle with one log line and no request. */
  lemma MissingUriSendsNothing(t: seq<Word>, service: string, uri: Option<string>,
                               primary: Response, fallback: Response)
    requires uri.None? || uri == Some("")
    ensures RunCycle(true, true, service, Photo(uri), primary, fallback)
            == Outcome(true, [], [LogEntry(CaptureFailedText, None)], None)
    ensures ApplyOutcome(t, RunCycle(true, true, service, Photo(uri), primary, fallback)) == t
  {
  }

  /** A successful POST's word goes through the updater and no GET is sent. */
  lemma PostSuccessAppends(t: seq<Word>, service: string, uri: string, w: Word, fallback: Response)
    requires uri != ""
    ensures RunCycle(true, true, service, Photo(Some(uri)), Responded(w), fallback)
            == Outcome(true, [Post(PredictUrl(service), uri)], [], Some(w))
    ensures ApplyOutcome(t, RunCycle(true, true, service, Photo(Some(uri)), Responded(w), fallback))
            == AppendWord(t, w)
  {
  }

  /** When both requests throw there are two log lines, the transcript is unchanged and the cycle ends normally. */
  lemma BothRequestsFail(t: seq<Word>, service: string, uri: string, m1: string, m2: string)
    requires uri != ""
    ensures RunCycle(true, true, service, Photo(Some(uri)), RequestFailed(m1), RequestFailed(m2))
            == Outcome(true, [Post(PredictUrl(service), uri), Get(PredictUrl(service), uri)],
                       [LogEntry(PostFailedText, Some(m1)), LogEntry(GetFailedText, Some(m2))], None)
    ensures ApplyOutcome(t, RunCycle(true, true, service, Photo(Some(uri)), RequestFailed(m1), RequestFailed(m2))) == t
  {
  }

  /** A successful GET after a failed POST hands its word to the same updater as a successful POST. */
  lemma GetSuccessAppends(t: seq<Word>, service: string, uri: string, w: Word, m: string, fallback: Response)
    requires uri != ""
    ensures RunCycle(true, true, service, Photo(Some(uri)), RequestFailed(m), Responded(w))
            == Outcome(true, [Post(PredictUrl(service), uri), Get(PredictUrl(service), uri)],
                       [LogEntry(PostFailedText, Some(m))], Some(w))
    ensures ApplyOutcome(t, RunCycle(true, true, service, Photo(Some(uri)), RequestFailed(m), Responded(w)))
            == AppendWord(t, w)
    ensures ApplyOutcome(t, RunCycle(true, true, service, Photo(Some(uri)), RequestFailed(m), Responded(w)))
            == ApplyOutcome(t, RunCycle(true, true, service, Photo(Some(uri)), Responded(w), fallback))
  {
  }

  /** A capture that throws is caught by the outer handler: one log line, no request, transcript unchanged. */
  lemma CaptureThrewLogsOnce(t: seq<Word>, service: string, m: string, primary: Response, fallback: Response)
    ensures RunCycle(true, true, service, CaptureThrew(m), primary, fallback)
            == Outcome(true, [], [LogEntry(PredictionErrorText, Some(m))], None)
    ensures ApplyOutcome(t, RunCycle(true, true, service, CaptureThrew(m), primary, fallback)) == t
  {
  }

  /** The fallback's outcome matters only when the POST throws. */
  lemma FallbackIrrelevantAfterPostSuccess(recording: bool, cameraPresent: bool, service: string,
                                           capture: Capture, w: Word, fallback1: Response, fallback2: Response)
    ensures RunCycle(recording, cameraPresent, service, capture, Responded(w), fallback1)
            == RunCycle(recording, cameraPresent, service, capture, Responded(w), fallback2)
  {
  }
}
