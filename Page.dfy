/**
 The recognizer screen component as an object: its state hooks become
 fields, and the permission callback, the render pass, the three buttons and
 the timer callback become methods that each update only their own fields.
 */
module Page {
  import opened Wrappers
  import opened Transcript
  import opened Controls
  import opened Display
  import opened Cycle

  /** The recognition service's base URL, set once the permission request settles. */
  const ServiceUrl: string := "https://detect.roboflow.com/asl-new/3"

  class RecognizerPage {
    var permission: Permission
    var facing: Facing
    var recording: bool
    var transcript: seq<Word>
    var service: string
    /** Whether `cameraRef.current` holds a mounted camera. */
    var cameraPresent: bool

    /** The transcript never holds two equal neighbouring words. */
    ghost predicate Valid()
      reads this
    {
      NoAdjacentDuplicates(transcript)
    }

    /** The state hooks' initial values: no permission answer, back camera, not recording, empty transcript, no service, no camera. */
    constructor ()
      ensures Valid()
      ensures permission == Unknown && facing == Back && !recording
      ensures transcript == [] && service == "" && !cameraPresent
    {
      permission := Unknown;
      facing := Back;
      recording := false;
      transcript := [];
      service := "";
      cameraPresent := false;
    }

    /** The mount effect once the permission request answers: record the answer and set the service URL. */
    method PermissionSettled(granted: bool)
      requires Valid()
      modifies this`permission, this`service
      ensures Valid()
      ensures permission == (if granted then Granted else Denied)
      ensures service == ServiceUrl
    {
      permission := if granted then Granted else Denied;
      service := ServiceUrl;
    }

    /**
     One render pass with the font and focus hooks' current values. The
     camera reference is set exactly when the camera surface is rendered.
     */
    method Render(fontsLoaded: bool, focused: bool) returns (s: Screen)
      requires Valid()
      modifies this`cameraPresent
      ensures Valid()
      ensures s == ScreenFor(permission, fontsLoaded, focused, facing, transcript)
      ensures cameraPresent <==> CameraMounted(s)
    {
      if permission == Unknown {
        s := Blank;
      } else if permission == Denied {
        s := NoAccess(NoAccessMessage);
      } else if !fontsLoaded {
        s := Loading;
      } else if focused {
        s := Main(Some(facing), PanelFor(transcript));
      } else {
        s := Main(None, PanelFor(transcript));
      }
      cameraPresent := CameraMounted(s);
    }

    /** The backspace area: drop the last word, if any. */
    method PressUndo()
      requires Valid()
      modifies this`transcript
      ensures Valid()
      ensures transcript == Undo(old(transcript))
    {
      UndoKeepsNoAdjacentDuplicates(transcript);
      transcript := Undo(transcript);
    }

    /** The record button. */
    method PressRecord()
      requires Valid()
      modifies this`recording
      ensures Valid()
      ensures recording == ToggleRecording(old(recording))
    {
      recording := !recording;
    }

    /** The flip button. */
    method PressFlip()
      requires Valid()
      modifies this`facing
      ensures Valid()
      ensures facing == Flip(old(facing))
    {
      facing := if facing == Back then Front else Back;
    }

    /**
     One run of the timer callback against the current state, given what the
     camera and the two requests do. Only the transcript can change.
     */
    method Tick(capture: Capture, primary: Response, fallback: Response) returns (o: Outcome)
      requires Valid()
      modifies this`transcript
      ensures Valid()
      ensures o == RunCycle(recording, cameraPresent, service, capture, primary, fallback)
      ensures transcript == ApplyOutcome(old(transcript), o)
    {
      o := Outcome(false, [], [], None);
      if !recording || !cameraPresent {
        return;
      }
      if capture.CaptureThrew? {
        o := Outcome(true, [], [LogEntry(PredictionErrorText, Some(capture.message))], None);
        return;
      }
      if capture.uri.None? || capture.uri.value == "" {
        o := Outcome(true, [], [LogEntry(CaptureFailedText, None)], None);
        return;
      }
      var url, uri := PredictUrl(service), capture.uri.value;
      var requests := [Post(url, uri)];
      var logs := [];
      if primary.Responded? {
        AppendWordKeepsNoAdjacentDuplicates(transcript, primary.data);
        transcript := AppendWord(transcript, primary.data);
        o := Outcome(true, requests, logs, Some(primary.data));
        return;
      }
      logs := logs + [LogEntry(PostFailedText, Some(primary.message))];
      requests := requests + [Get(url, uri)];
      if fallback.Responded? {
        AppendWordKeepsNoAdjacentDuplicates(transcript, fallback.data);
        transcript := AppendWord(transcript, fallback.data);
        o := Outcome(true, requests, logs, Some(fallback.data));
      } else {
        logs := logs + [LogEntry(GetFailedText, Some(fallback.message))];
        o := Outcome(true, requests, logs, None);
      }
    }
  }

  /** A session's start: permission granted, camera shown, recording on, and the same word reported twice. */
  method SessionRepeatedWord(uri: string) returns (page: RecognizerPage)
    requires uri != ""
    ensures fresh(page) && page.Valid()
    ensures page.transcript == ["HELLO"]
    ensures page.recording && page.cameraPresent && page.service == ServiceUrl
  {
    page := new RecognizerPage();
    page.PermissionSettled(true);
    var s := page.Render(true, true);
    assert s == Main(Some(Back), PanelFor([]));
    page.PressRecord();
    assert page.recording && page.cameraPresent && page.service == ServiceUrl;
    var o := page.Tick(Photo(Some(uri)), Responded("HELLO"), RequestFailed("unused"));
    PostSuccessAppends([], ServiceUrl, uri, "HELLO", RequestFailed("unused"));
    assert page.transcript == ["HELLO"];
    o := page.Tick(Photo(Some(uri)), RequestFailed("timeout"), Responded("HELLO"));
    GetSuccessAppends(["HELLO"], ServiceUrl, uri, "HELLO", "timeout", RequestFailed("unused"));
    assert page.transcript == ["HELLO"];
  }

  /** A session's continuation: a new word, a flip, an undo, and a tick after recording is switched off. */
  method SessionNewWordThenUndo(page: RecognizerPage, uri: string)
    requires uri != "" && page.Valid()
    requires page.transcript == ["HELLO"]
    requires page.recording && page.cameraPresent
    modifies page
    ensures page.transcript == ["HELLO"] && !page.recording && page.facing == Flip(old(page.facing))
  {
    var o := page.Tick(Photo(Some(uri)), Responded("WORLD"), RequestFailed("unused"));
    PostSuccessAppends(["HELLO"], page.service, uri, "WORLD", RequestFailed("unused"));
    assert page.transcript == ["HELLO", "WORLD"];
    page.PressFlip();
    page.PressUndo();
    UndoDropsLast(["HELLO", "WORLD"]);
    assert page.transcript == ["HELLO"];
    page.PressRecord();
    o := page.Tick(Photo(Some(uri)), Responded("AGAIN"), RequestFailed("unused"));
    assert o.requests == [];
  }
}
