/**
 What the recognizer screen shows: the result panel derived from the
 transcript, and which of its four screens is rendered.
 */
module Display {
  import opened Wrappers
  import opened Transcript
  import opened Controls

  const Placeholder: string := "Press 'Record' to start"
  const ResultHeader: string := "Translation Result"
  const NoAccessMessage: string := "No access to camera"

  datatype TextColor = Black | Gray

  /** The result panel: its header line, its body text and style, and whether the backspace image is shown. */
  datatype Panel = Panel(header: string, body: string, fontSize: nat, color: TextColor, backspaceIcon: bool)

  /**
   The panel for a transcript: the placeholder prompt while it is empty,
   otherwise the words joined by single spaces under the result header.
   */
  function PanelFor(t: seq<Word>): (p: Panel)
    ensures p.backspaceIcon <==> |t| > 0
    ensures |t| == 0 ==> p == Panel("", Placeholder, 18, Gray, false)
    ensures |t| > 0 ==> p.header == ResultHeader && p.fontSize == 32 && p.color == Black
    ensures |t| > 0 ==> p.body == Join(t, " ")
  {
    if |t| > 0 then Panel(ResultHeader, Join(t, " "), 32, Black, true)
    else Panel("", Placeholder, 18, Gray, false)
  }

  /**
   After a new word is appended the panel shows the earlier text followed by
   a space and the word; a repeated word leaves the panel as it was.
   */
  lemma PanelAfterAppend(t: seq<Word>, w: Word)
    ensures LastEntry(t) != Some(w) ==>
              PanelFor(AppendWord(t, w)).body == if |t| == 0 then w else PanelFor(t).body + " " + w
    ensures LastEntry(t) == Some(w) ==> PanelFor(AppendWord(t, w)) == PanelFor(t)
    ensures PanelFor(AppendWord(t, w)).backspaceIcon
  {
    JoinSnoc(t, " ", w);
  }

  /** Undoing the only word brings back the placeholder prompt. */
  lemma PanelAfterLastUndo(w: Word)
    ensures PanelFor(Undo([w])) == Panel("", Placeholder, 18, Gray, false)
  {
    UndoDropsLast([w]);
  }

  /** `hasPermission`: `null` until the permission request settles, then granted or denied. */
  datatype Permission = Unknown | Granted | Denied

  /** The four screens; the main one shows the camera preview (with its facing) only while focused. */
  datatype Screen = Blank | NoAccess(message: string) | Loading | Main(preview: Option<Facing>, panel: Panel)

  /**
   The render order of the component: the permission checks come before the
   font check, so the denial message appears whatever the font state.
   */
  function ScreenFor(permission: Permission, fontsLoaded: bool, focused: bool,
                     facing: Facing, t: seq<Word>): (s: Screen)
    ensures s == Blank <==> permission == Unknown
    ensures s.NoAccess? <==> permission == Denied
    ensures s.NoAccess? ==> s.message == NoAccessMessage
    ensures s == Loading <==> permission.Granted? && !fontsLoaded
    ensures s.Main? <==> permission.Granted? && fontsLoaded
    ensures s.Main? ==> s.panel == PanelFor(t)
    ensures s.Main? ==> (s.preview.Some? <==> focused)
    ensures s.Main? && focused ==> s.preview == Some(facing)
  {
    if permission == Unknown then Blank
    else if permission == Denied then NoAccess(NoAccessMessage)
    else if !fontsLoaded then Loading
    else Main(if focused then Some(facing) else None, PanelFor(t))
  }

  /** The denial screen does not depend on the fonts, the focus, the camera or the transcript. */
  lemma DenialIgnoresEverythingElse(fonts1: bool, fonts2: bool, focused1: bool, focused2: bool,
                                    facing1: Facing, facing2: Facing, t1: seq<Word>, t2: seq<Word>)
    ensures ScreenFor(Denied, fonts1, focused1, facing1, t1) == ScreenFor(Denied, fonts2, focused2, facing2, t2)
  {
  }

  /** Whether the camera surface, and so a camera reference, exists on this screen. */
  predicate CameraMounted(s: Screen)
    ensures CameraMounted(s) ==> s.Main? && s.preview.Some?
    ensures s.Main? && s.preview.Some? ==> CameraMounted(s)
  {
    s.Main? && s.preview.Some?
  }

  lemma CameraMountedExactly(permission: Permission, fontsLoaded: bool, focused: bool,
                             facing: Facing, t: seq<Word>)
    ensures CameraMounted(ScreenFor(permission, fontsLoaded, focused, facing, t))
            <==> permission == Granted && fontsLoaded && focused
  {
  }
}
