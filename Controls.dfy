/** The two capture controls of the recognizer screen: the record button and the camera flip button. */
module Controls {

  /** `Camera.Constants.Type`: which physical camera feeds the preview. */
  datatype Facing = Back | Front

  /** The flip button: back becomes front, anything else becomes back. */
  function Flip(f: Facing): (r: Facing)
    ensures r != f
    ensures r == Front <==> f == Back
  {
    if f == Back then Front else Back
  }

  lemma FlipTwice(f: Facing)
    ensures Flip(Flip(f)) == f
  {
  }

  /** The record button's updater `prev => !prev`. */
  function ToggleRecording(recording: bool): (r: bool)
    ensures r != recording
  {
    !recording
  }

  lemma ToggleRecordingTwice(recording: bool)
    ensures ToggleRecording(ToggleRecording(recording)) == recording
  {
  }
}
