# Transana session coordinator, transcript record and global tables

This project models three parts of Transana, a qualitative analysis tool for video and audio data. Each part is proved against its own specification.

- **The ControlObject** (`ControlObjectClass.py`) coordinates the open windows of a session.
  - It keeps two parallel lists: the transcript windows and the transcript numbers shown in them.
  - It keeps the index of the active transcript window. Assigning that index re-marks the window titles with the `** title **` marker.
  - It also keeps the video selection (start and end points), the loaded subject (an Episode, a Clip or nothing), and the snapshot of window positions taken for presentation mode.
  - The class `Control.ControlObject` holds this state in fields. Its methods update those fields the way the Python methods do.
  - The window objects are records (`Session.TranscriptWindow`) holding a frame (title, geometry, window number, close box, shown) and an editor (document, selection, flags).
  - The resulting window lists are specified by the pure functions of `Windows`, and lemmas about those functions state the invariants.
- **The Transcript data object** (`Transcript.py`) covers several pieces:
  - the plain-text rewrite of its RTF text (`TranscriptText`);
  - the checks and the write of `db_save`;
  - the exactly-one-row rule of the three loaders and the constructor's choice of loader;
  - the stale-record reload in `lock_record`.

  The Transcripts2 table is a `TranscriptRecord.Table` object: a sequence of rows plus its AUTO_INCREMENT counter.
- **The module-level tables of `TransanaGlobal.py`:**
  - the colour-file parser `getColorDefs`, over the file's lines;
  - the name list, the lookup dictionary and the keyword-map order built by `SetColorVariables`;
  - the gray lookup;
  - the start-up default encoding;
  - the choice of `programDir`.

Inputs that the program gets from the user, the file system, the media player or the database server become parameters. These are dialog answers, file existence, the media length, connection attempts and the server version. Python 2 string behaviour that the code relies on is modelled in `PyStrings`: `find`, `strip`, `split`, `int()`, `str()` of a natural number, and ASCII `upper`/`lower`.

Where the Python negative index `-1` can arise (the close-focus rule below), list access follows Python's rule (`Session.PyIndex`).

## Model

| member | source | states |
|---|---|---|
| Layout.ArrangeSpace | ControlObjectClass.py:456-465 | the height shared by the transcript windows runs from the first window's top to the bottom of the screen, plus 20 pixels on the Mac |
| Layout.TileRect | ControlObjectClass.py:467-475 | slot k of n has the first transcript window's left edge and the visualization window's width; its height is the share `space div n` (n slots fill at most `space` and leave less than n pixels); it starts k heights below the top |
| Layout.TilesContiguous | ControlObjectClass.py:471-475 | slot k+1 starts exactly where slot k ends |
| Layout.TilesDisjoint | ControlObjectClass.py:471-475 | two different slots never overlap when the space is not negative |
| Layout.TilesFit | ControlObjectClass.py:471-475 | every slot lies inside `[top, top + space]` |
| Session.PyIndex | ControlObjectClass.py:422-424 | a Python index in `-n..n-1` denotes the element at `i`, or at `n + i` when negative |
| Session.RemoveAt | ControlObjectClass.py:410-412 | `del xs[t]` removes exactly entry t and keeps the others in order |
| Session.Decorate | ControlObjectClass.py:1624-1628 | the `'** %s **'` marker adds six characters |
| Session.Undecorate | ControlObjectClass.py:1612-1617 | `title[3:-3]` removes six characters, or gives the empty string for a title shorter than six |
| Session.UndecorateDecorate | ControlObjectClass.py:1612-1628 | removing the marker from a decorated title gives the title back, and a decorated title is seen as marked |
| Session.Activated | ControlObjectClass.py:1605-1642 | the setter changes only window titles: every window keeps its identity, document and geometry |
| Session.Retitle | ControlObjectClass.py:1605-1628 | the window gaining focus keeps its title or gets the marker, and only when several windows are open. A window losing focus keeps its title or loses the marker, and never while shutting down. An unmarked window losing focus and a marked one gaining it are left alone |
| Session.RetitleWellFormed | ControlObjectClass.py:1605-1628 | one title after the setter is still a plain title or a marked one with the same text; an inactive window is unmarked; the active one is marked when several windows are open |
| Session.ActivatedMarksOnlyActive | ControlObjectClass.py:1605-1642 | outside shutdown, after activating k only window k may carry the marker, it carries it when several windows are open, and every title keeps its text |
| Session.ActivatedIdempotent | ControlObjectClass.py:1605-1642 | assigning the same active index twice changes nothing the second time |
| Session.CloseFocusAsWritten | ControlObjectClass.py:390-402 | as written: closing the active window gives 0; when the previously active window was the last, t-1 (which is -1 for t = 0); otherwise the old index, unshifted |
| Session.CloseFocusAsWrittenMovesFocus | ControlObjectClass.py:401-424 | with 4 windows, active 2, closing 0 focuses index 2, which after the deletion is the former window 3; with 3 windows the result is -1 |
| Session.CloseFocus | ControlObjectClass.py:390-402 | corrected rule: closing the active window gives 0; otherwise the index the previously active window has after the deletion |
| Session.CloseFocusKeepsWindow | ControlObjectClass.py:390-424 | with the corrected rule, the window that had the focus (and was not closed) has it after the deletion |
| Session.ClampStart | ControlObjectClass.py:859-861 | a negative start becomes 0 and any other start is kept |
| Session.SelectionEnd | ControlObjectClass.py:904-908 | an end of 0 or less becomes the media length for an Episode or the clip stop for a Clip, and stays as given with nothing loaded |
| Session.ClipDefaultRange | ControlObjectClass.py:1402-1418 | the default start is the clip start (Clip) or 0; the default end is the clip stop (Clip) or the whole media length |
| Session.ClipDefaultRangeIdempotent | ControlObjectClass.py:1402-1418 | normalising an already normalised range changes nothing |
| Session.ClipDefaultRangeMatchesSelectionEnd | ControlObjectClass.py:904-908 | with a subject loaded, the default end of a range agrees with SetVideoSelection's end rule |
| Session.PlayBase | ControlObjectClass.py:792-800 | the setback floor is 0 for an Episode, the clip start for a Clip, and the video start point with nothing loaded |
| Session.SetbackPosition | ControlObjectClass.py:792-800 | the setback position is never before the base; it is `pos - seconds*1000` when that is still after the base, otherwise the base |
| Session.ResolveEndPoint | ControlObjectClass.py:804-809 | an end point of -1 becomes the tape length (Episode) or the clip stop (Clip); anything else is kept |
| Session.EffectiveEndPoint | ControlObjectClass.py:865-870 | GetVideoEndPoint is the stored end point when positive, otherwise the media length |
| Session.SegmentLength | ControlObjectClass.py:1201-1229 | the segment length is end - start when the end point is set and after the start, otherwise media length - start |
| Session.SegmentLengthEndsAtEndPoint | ControlObjectClass.py:865-870 | start plus segment length is the effective end point when that lies after the start, and the media end otherwise |
| Session.Toggle | ControlObjectClass.py:822-838 | PlayPause and PlayStop play exactly when paused or stopped, do nothing exactly while loading, and pause (PlayPause) or stop (PlayStop) when playing |
| Session.EarliestStart | ControlObjectClass.py:1435-1446 | the result is the minimum of the limit and the starts of the entries with selected text, and it is one of those values |
| Session.LatestEnd | ControlObjectClass.py:1437-1451 | the result is the maximum of 0 and the ends of the entries with selected text, and it is one of those values |
| Session.MultiPlayExample | ControlObjectClass.py:1435-1453 | for the selections (5000,9000,"a"), (0,0,""), (7000,12000,"b") MultiPlay plays 5000 to 12000 |
| Session.LanguageEncoding | ControlObjectClass.py:544-566 | ru, zh, easteurope, el, ja and ko map to their encodings, and every other language maps to the fallback |
| Session.NewDatabaseEncoding | ControlObjectClass.py:544-566 | utf8 when the server version passes `>= u'4.1'`, otherwise the language table with latin1 as the fallback |
| Session.VersionComparisonIsTextual | ControlObjectClass.py:544 | the version test compares strings: "5.0.45" passes; "10.1", "4.0.27" and the unset version 0 do not |
| Session.LogonSucceeds | ControlObjectClass.py:569-600 | the logon loop ends logged on only when some attempt from k to 3 connects; when attempt k (at most 3) connects, it does |
| Session.LogonGivesUpAfterThree | ControlObjectClass.py:569-600 | when the first three connection attempts fail the loop ends logged off, whatever the user answers |
| Session.RtfFileName | ControlObjectClass.py:1353-1354 | the file name ends in `.rtf` in any case; a name that already does is kept, any other gets `.rtf` appended |
| Session.RtfFileNameIdempotent | ControlObjectClass.py:1353-1354 | applying the suffix rule twice is the same as once |
| Session.SaveAsTarget | ControlObjectClass.py:1349-1368 | nothing is written when the dialog is cancelled, or when the file exists and the user declines to replace it; otherwise the suffixed path is written |
| Session.SaveProceeds | ControlObjectClass.py:1316-1345 | SaveTranscript returns 0 exactly when the document is modified, the user was asked, and the answer was no |
| Windows.ClearDoc | ControlObjectClass.py:486 | clearing empties the document and clears the modified flag, and changes nothing else |
| Windows.LoadedInto | ControlObjectClass.py:362 | loading puts the record's text, number, clip and id into the editor, unmodified, and keeps the selection and read-only flag |
| Windows.AfterSave | ControlObjectClass.py:1316-1345 | an unmodified document is untouched; a save that proceeds clears the modified flag unless it fails; a declined save clears the document only with cleardoc |
| Windows.Written | ControlObjectClass.py:1316-1345 | what one `SaveTranscript` call writes: the window's transcript and text exactly when it is modified, the save proceeds and does not fail, and nothing otherwise |
| Windows.WrittenOnce | ControlObjectClass.py:1316-1345 | after a save that wrote the text, a second save of the same window writes nothing |
| Windows.ClosingSaves | ControlObjectClass.py:507-513 | the closing loop, where each window has its own answer and its own save failure, writes at most one text per window it closes |
| Windows.ClosingSavesContents | ControlObjectClass.py:507-513 | the closing loop writes at most one text per window. It writes the text of every modified window whose user answers yes at that window's prompt and whose save does not fail. Everything it writes is such a text |
| Windows.ClosingSavesReadsFrom | ControlObjectClass.py:507-513 | the closing saves depend only on the documents of the windows still to be closed |
| Windows.FirstSaved | ControlObjectClass.py:479-480 | the windows after `SaveTranscript(1)` on window i: same length, only window i changes, and its text is kept. It is still modified exactly when it was modified and the save was declined or failed |
| Windows.ClearAllSaves | ControlObjectClass.py:477-513 | ClearAllWindows writes at most one text without a reset, and at most one per window with one |
| Windows.ClearAllSavesContents | ControlObjectClass.py:477-513 | on a reset, each prompt has its own answer and each save its own failure. The active window is written when its first save goes through. When that save is declined or fails, it is written if the closing loop asks again and that save goes through, provided it is not the first window. Every other window from the second on is written when it is modified, answered yes and its save does not fail. Only texts of modified windows are written, at most one per window |
| Windows.ClearAllSavesAsksTwice | ControlObjectClass.py:479-513 | a modified active window other than the first whose user declines line 480 and accepts at line 509 is written by the closing loop, not by the first save |
| Windows.ClearAllSavesReadsDocuments | ControlObjectClass.py:477-513 | what ClearAllWindows writes depends only on the windows' documents |
| Windows.ClearAllSavesSkipsFirst | ControlObjectClass.py:479-489 | on a reset with another window active, the first window's document has no effect on what is written: its changes are cleared without a save offer |
| Windows.EpisodeTitle | ControlObjectClass.py:353-360 | the episode transcript title carries no marker |
| Windows.Cascade | ControlObjectClass.py:373-376 | a cascaded window is 16 pixels right of and below the previous one, and 16 pixels narrower and shorter |
| Windows.Arranged | ControlObjectClass.py:442-475 | window k gets slot k of the space below the first window; the first window shows its close box exactly when several are open; identities and documents are kept |
| Windows.DimsOf | ControlObjectClass.py:970-972 | the snapshot holds each window's rectangle, in list order |
| Windows.SelectionLabelFor | ControlObjectClass.py:1163-1196 | the label is empty exactly when nothing is selected; otherwise it shows the default range of the selection |
| Windows.Relabelled | ControlObjectClass.py:1160-1196 | only window winNum (when it exists) changes, and only its label |
| Windows.RelabelledIdempotent | ControlObjectClass.py:1160-1196 | relabelling a window twice is the same as once |
| Windows.Positioned | ControlObjectClass.py:1156-1158 | each window is moved to the position and labelled, and nothing else in its editor changes |
| Windows.SelectionInfoFor | ControlObjectClass.py:1075-1112 | window i reports the default range of its selection; its text is empty exactly when nothing is selected; the transcript number is its own for an episode transcript, and the clip's source transcript otherwise |
| Windows.SelectionInfos | ControlObjectClass.py:1070-1113 | one report per window, in list order |
| Windows.LabelAgreesWithReport | ControlObjectClass.py:1075-1112 | the label a window shows for a selection agrees with the range GetMultipleTranscriptSelectionInfo reports for it |
| Windows.OpenTitle | ControlObjectClass.py:339-360 | only an episode transcript gets a title; it carries the marker exactly when another window was active (index > 0) |
| Windows.Opened | ControlObjectClass.py:328-385 | opening adds one window at the end, with the given identity and shown; the others keep their identity |
| Windows.OpenedAppends | ControlObjectClass.py:119-125 | opening appends exactly one window: the others keep identity and document, and the new one shows the loaded transcript at the video position |
| Windows.OpenedPlacement | ControlObjectClass.py:368-376 | with auto-arrange every window gets its tile; otherwise the new window is cascaded from the previous last one and the others do not move |
| Windows.OpenedTitlesAre | ControlObjectClass.py:333-360 | after opening, the new window has its given title and the earlier ones have the setter's titles |
| Windows.OpenedTitles | ControlObjectClass.py:333-360 | outside shutdown, opening keeps every title well formed with its text and leaves at most the new window marked |
| Windows.Focused | ControlObjectClass.py:390-405 | focusing window t before closing it keeps the length, and every window keeps its identity and document |
| Windows.Compacted | ControlObjectClass.py:406-420 | removing window t leaves one window fewer, and window j carries window number j |
| Windows.Closed | ControlObjectClass.py:387-424 | after CloseAdditionalTranscript one window fewer remains, and window j carries window number j |
| Windows.CompactedIgnoresClosed | ControlObjectClass.py:406-420 | removing, re-arranging and renumbering does not depend on the closed window's document |
| Windows.ClosedRemoves | ControlObjectClass.py:404-420 | closing t removes exactly entry t; the rest keep their order, identity and document and are numbered 0..N-2 |
| Windows.ClosedTiles | ControlObjectClass.py:406-414 | the remaining windows are tiled from where the first window was, and the first shows its close box exactly when several remain |
| Windows.ClosedKeepsFocus | ControlObjectClass.py:390-424 | with the corrected focus rule the previously active window (if not closed) is the one focused afterwards |
| Windows.ClosedTitles | ControlObjectClass.py:390-424 | outside shutdown, closing keeps every title well formed with its text and leaves only the new active window marked |
| Windows.FocusedKeepsTitles | ControlObjectClass.py:390-405 | focusing the closing window and saving it keeps the titles well formed with their text |
| Windows.CompactedTitles | ControlObjectClass.py:406-420 | the titles move with their windows when one is removed |
| Windows.WindowNumbers | ControlObjectClass.py:1420-1427 | the window numbers in list order |
| Windows.RelabelledAll | ControlObjectClass.py:1420-1427 | relabelling keeps the length and leaves every window whose number is not in the list unchanged |
| Windows.RelabelledAllLabels | ControlObjectClass.py:1420-1427 | relabelling by a list of numbers labels exactly the windows at those numbers |
| Windows.NumberedRelabelsAll | ControlObjectClass.py:1420-1427 | in a list numbered 0..N-1, MultiSelect's relabelling labels every window |
| Windows.Repositioned | ControlObjectClass.py:1156-1158 | every window is moved to the position and labelled |
| Windows.RepositionedLabelsAll | ControlObjectClass.py:1156-1158 | in a numbered list every window ends up labelled from its own selection |
| Windows.ShownFrom | ControlObjectClass.py:943-944 | windows from the index on are shown (or hidden), and the others are untouched |
| Windows.Resized | ControlObjectClass.py:935-937 | the first windows get the saved rectangles, and the rest are untouched |
| Windows.PresentedVideo | ControlObjectClass.py:989-1013 | "present all" keeps the video window where it is. Otherwise it is inset 2 pixels from the left, top and right of the client area. For "video" its bottom is 2 pixels above the area's bottom; for "transcript" it ends 1 pixel above `upper` |
| Windows.PresentedWindows | ControlObjectClass.py:989-1018 | "present all" leaves the windows alone; "video" hides every transcript window; "transcript" puts window 0 under the video and hides the others |
| Windows.PresentedPlayAll | ControlObjectClass.py:996-1026 | the PlayAllClips dialog is placed across the bottom of the layout, 56 pixels high, when there is one |
| Windows.PresentationRoundTrip | ControlObjectClass.py:929-948 | restoring the snapshot taken before a presentation layout gives the windows back exactly |
| Control.AfterPlay | ControlObjectClass.py:774-811 | Play leaves the video playing; with a setback it moves back, never before the base and never forward; an end point of -1 is resolved from the subject |
| Control.LogonLoop | ControlObjectClass.py:569-600 | at most three attempts; logged on exactly when the last attempt connects; every earlier attempt failed and the user chose to retry |
| Control.ControlObject.constructor | ControlObjectClass.py:79-101 | a new coordinator has no windows, no subject, no selection and no snapshot |
| Control.ControlObject.SetActiveTranscript | ControlObjectClass.py:1602-1646 | the titles are re-marked, the edit options follow the new window's read-only flag, and the index is stored even when it is out of range |
| Control.ControlObject.Register | ControlObjectClass.py:105-135 | the window and a transcript number of 0 are appended, and the new last index becomes active |
| Control.ControlObject.AutoArrangeTranscriptWindows | ControlObjectClass.py:442-475 | the windows become the tiling of the space below the first one |
| Control.ControlObject.OpenAdditionalTranscript | ControlObjectClass.py:328-385 | the window list becomes the opened list, the transcript number is appended, and the new window is active |
| Control.ControlObject.TitleAndLoad | ControlObjectClass.py:360-364 | window k gets its title and the transcript, and its slot in the number list the transcript's number |
| Control.ControlObject.PlaceWindow | ControlObjectClass.py:368-376 | all windows are arranged, or window k is cascaded from the one before it |
| Control.ControlObject.SaveTranscript | ControlObjectClass.py:1305-1345 | the target (the active window by default) is saved, left alone or cleared as the save decision says; asking the user makes the target active |
| Control.ControlObject.CloseAdditionalTranscript | ControlObjectClass.py:387-424 | both lists lose entry t, the windows are re-tiled and renumbered, and the focus goes by the corrected rule |
| Control.ControlObject.FocusAndSave | ControlObjectClass.py:390-405 | window t is activated and saved (or cleared) when modified, and the list keeps its length |
| Control.ControlObject.RemoveWindow | ControlObjectClass.py:406-420 | entry t is removed from both lists, the rest are re-tiled and renumbered 0..N-2 |
| Control.ControlObject.RenumberWindows | ControlObjectClass.py:416-420 | window j gets window number j |
| Control.ControlObject.ClearAllWindows | ControlObjectClass.py:477-529 | with a reset only the first window is left, cleared, active and numbered 0; without one only the active window's document is cleared. The saved log grows by exactly `Windows.ClearAllSaves`. That is the active window's save, with the first prompt's answer and failure, then on a reset the closing saves of the windows from the last down to the second, each with its own answer and failure |
| Control.ControlObject.ClearActiveWindow | ControlObjectClass.py:480-489 | the active (or, on a reset, the first) window's document is cleared; every other window keeps its document, except that on a reset the active window's save has been applied to it. The saved log grows by the active window's save (`Windows.Written`) |
| Control.ControlObject.SaveActiveWindow | ControlObjectClass.py:479-481 | `SaveTranscript(1)` on the active window, then the index 0 on a reset: every window keeps its identity, the active one has the save applied, and the saved log grows by its save |
| Control.ControlObject.ResetSession | ControlObjectClass.py:491-523 | the reset branch leaves only the first window, unchanged and active. It clears the media file name and the loaded subject, and logs the closing saves of the other windows, each with its own answer and failure |
| Control.ControlObject.CloseAllButFirst | ControlObjectClass.py:507-513 | the closing loop leaves exactly the first window, with its document, active; the saved log grows by the closing saves of windows `n-1` down to 1 (`Windows.ClosingSaves`), each window with its own answer and failure |
| Control.ControlObject.CloseLast | ControlObjectClass.py:507-513 | one round removes the last window and keeps the others' documents; the saved log grows by that window's save, if any |
| Control.ControlObject.SaveAndClear | ControlObjectClass.py:509-512 | window k ends with an empty document and every other window is untouched; the saved log grows by window k's save, if any |
| Control.ControlObject.GetNewDatabase | ControlObjectClass.py:531-600 | the session is cleared to the first window, the encoding follows the server version and language, and the program exits exactly when logon fails; the saved log grows by the clearing's saves (`Windows.ClearAllSaves` from window 0 with a reset) |
| Control.ControlObject.ChangeLanguages | ControlObjectClass.py:1536-1585 | the session is cleared; a new database is opened exactly when the encoding matters and the new language needs a different one; the saved log grows by the clearing's saves (`Windows.ClearAllSaves` with a reset) |
| Control.ControlObject.SetVideoStartPoint | ControlObjectClass.py:856-863 | the clamped start is stored in the coordinator and the video window |
| Control.ControlObject.SetVideoEndPoint | ControlObjectClass.py:872-875 | the end is stored as given in both places |
| Control.ControlObject.SetVideoSelection | ControlObjectClass.py:881-918 | the clamped start and the normalised end are stored, and the active window is relabelled |
| Control.ControlObject.UpdateSelectionTextLater | ControlObjectClass.py:1160-1196 | window winNum is relabelled when it still exists |
| Control.ControlObject.UpdateVideoPosition | ControlObjectClass.py:1127-1158 | an active index past the end becomes 0; every window is moved to the position and labelled |
| Control.ControlObject.MoveWindowsTo | ControlObjectClass.py:1156-1158 | the loop's result is the repositioned list |
| Control.ControlObject.GetMultipleTranscriptSelectionInfo | ControlObjectClass.py:1070-1113 | the result is one report per window |
| Control.ControlObject.MultiSelect | ControlObjectClass.py:1399-1427 | the range is window k's selection with the defaults, and every listed window number is relabelled |
| Control.ControlObject.Play | ControlObjectClass.py:774-811 | the video is in the AfterPlay state and the end point is resolved from the subject |
| Control.ControlObject.Stop | ControlObjectClass.py:813-816 | the video stops and nothing else in it changes |
| Control.ControlObject.Pause | ControlObjectClass.py:818-820 | the video pauses and nothing else in it changes |
| Control.ControlObject.Transport | ControlObjectClass.py:822-838 | PlayPause/PlayStop play, pause, stop or do nothing as the toggle rule says |
| Control.ControlObject.GetMediaLength | ControlObjectClass.py:1198-1234 | the whole length or the segment length; an open-ended segment of an Episode with an unknown tape length stores the media length when the record can be locked |
| Control.ControlObject.MultiPlay | ControlObjectClass.py:1429-1455 | the selection becomes the earliest start and latest end among the windows with selected text, and playback starts |
| Control.ControlObject.LoadVideo | ControlObjectClass.py:717-754 | loading succeeds exactly when the file exists, and only then is the file name remembered |
| Control.ControlObject.SaveTranscriptAs | ControlObjectClass.py:1347-1369 | the active window's text is written to the suffixed path exactly when the save-as rule says so |
| Control.ControlObject.UpdatePlayState | ControlObjectClass.py:921-1026 | on Stop (no PlayAllClips window) the snapshot is restored and cleared; on Play outside "present all" the snapshot is taken only when empty and auto-arrange is switched off; otherwise nothing changes |
| Control.ControlObject.RestoreLayout | ControlObjectClass.py:926-948 | the video and transcript windows get their saved rectangles, everything is shown, auto-arrange comes from the menu, and the snapshot is cleared |
| Control.ControlObject.PresentLayout | ControlObjectClass.py:963-1026 | the snapshot is kept when present, otherwise taken; auto-arrange is off after a first snapshot; the other windows are hidden and the presentation layout is applied |
| Control.ControlObject.ResizeWindows | ControlObjectClass.py:935-937 | the first windows get the saved rectangles |
| Control.ControlObject.TranscriptDims | ControlObjectClass.py:970-972 | the rectangles of the windows in list order |
| Control.ControlObject.ShowWindows | ControlObjectClass.py:943-944 | the windows from the index on are shown or hidden |
| PyStrings.Find | Transcript.py:85-88 | `find` returns the first occurrence at or after the start, or -1 when there is none |
| PyStrings.Upper | ControlObjectClass.py:1353 | `upper()` maps each character on its own and keeps the length |
| PyStrings.Lower | TransanaGlobal.py:38 | `lower()` maps each character on its own and keeps the length |
| PyStrings.StripLeft | TransanaGlobal.py:126-128 | the result is no longer than the input and does not start with whitespace |
| PyStrings.StripRight | TransanaGlobal.py:126-128 | the result is no longer than the input and does not end with whitespace |
| PyStrings.Strip | TransanaGlobal.py:126-128 | `strip()` leaves no whitespace at either end and keeps a string that has none |
| PyStrings.StripLeftSplit | TransanaGlobal.py:126-128 | the input is some whitespace followed by what StripLeft returns |
| PyStrings.StripRightSplit | TransanaGlobal.py:126-128 | the input is what StripRight returns followed by some whitespace |
| PyStrings.StripTrimsEnds | TransanaGlobal.py:126-128 | `s.strip()` is `s` with only whitespace removed, and only from its two ends: `s == pre + s.strip() + post` with whitespace-only `pre` and `post` |
| PyStrings.StripSurrounded | TransanaGlobal.py:126-128 | a string with no whitespace at its ends, between whitespace-only ends, is what `strip()` returns |
| PyStrings.StripLeftSpaces | TransanaGlobal.py:126-128 | whitespace in front of a string that does not start with whitespace is exactly what StripLeft removes |
| PyStrings.StripRightSpaces | TransanaGlobal.py:126-128 | whitespace after a string that does not end in whitespace is exactly what StripRight removes |
| PyStrings.Split | TransanaGlobal.py:128 | `split(',')` gives at least one field, and no field holds the separator |
| PyStrings.JoinSplit | TransanaGlobal.py:128 | joining the fields of a split with the separator gives the line back |
| PyStrings.SplitJoin | TransanaGlobal.py:128 | splitting fields joined with the separator gives the fields back when none holds it |
| PyStrings.ParseInt | TransanaGlobal.py:130-132 | `int()` succeeds only on text with something other than whitespace |
| PyStrings.ParseIntAccepts | TransanaGlobal.py:130-132 | every text of the form whitespace, optional sign, whitespace (only after a sign), one or more digits, whitespace is accepted with the signed value of its digits |
| PyStrings.ParseIntForm | TransanaGlobal.py:130-132 | conversely, every text `int()` accepts has that form, and its value is the signed value of its digits |
| PyStrings.ParseStrippedAccepts | TransanaGlobal.py:130-132 | on stripped text: a sign, whitespace and digits, or digits alone, are accepted with their signed value |
| PyStrings.ParseStrippedForm | TransanaGlobal.py:130-132 | on stripped text: everything accepted is a sign, whitespace and digits, or digits alone |
| PyStrings.ToDecimal | TransanaGlobal.py:130-132 | `str(n)` is a run of digits whose value is n |
| PyStrings.ParseIntToDecimal | TransanaGlobal.py:130-132 | `int(str(n)) == n` |
| TranscriptText.StripTimeCodes | Transcript.py:84-89 | when the loop ends, no time-code marker is left and only characters of the text remain |
| TranscriptText.TimeCodeStepAsWritten | Transcript.py:88-89 | a pass with no `>` after the marker at s never shrinks the text, and the whole old text follows position s |
| TranscriptText.TimeCodeStepWithoutEnd | Transcript.py:88-89 | a marker with no later `>` makes a pass rebuild the text as `text[:s] + text`: it never shrinks and keeps the marker, so the loop does not end |
| TranscriptText.StripTimeCodesNoMarker | Transcript.py:84-87 | a text without markers is left unchanged |
| TranscriptText.ReplaceTabs | Transcript.py:92-99 | no `\tab` is left after the tab loop |
| TranscriptText.ReplaceTabsIsUntab | Transcript.py:92-99 | the tab loop equals one left-to-right scan that writes three spaces for each `\tab` and keeps the character after it |
| TranscriptText.UntabSplice | Transcript.py:96-99 | one pass of the tab loop, which replaces the first `\tab` by three spaces, leaves the reference scan unchanged |
| TranscriptText.UntabWithoutTab | Transcript.py:93-95 | when `find` reports no `\tab`, the text the loop stops with is already its own scan |
| TranscriptText.ReplaceTabsKeepsNoMarker | Transcript.py:92-99 | the tab loop does not create a time-code marker |
| TranscriptText.CutTimeCodes | Transcript.py:84-89 | the time-code loop computes the text without time codes |
| TranscriptText.TabPass | Transcript.py:96-99 | line 98 always sees one of the inserted spaces, so a pass leaves three spaces in place of `\tab` |
| TranscriptText.CutTabs | Transcript.py:92-99 | the tab loop computes ReplaceTabs |
| TranscriptText.WithoutTimeCodes | Transcript.py:80-102 | the rewritten text holds neither a time-code marker nor a `\tab` |
| TranscriptText.WithoutTimeCodesClean | Transcript.py:80-102 | the rewritten text holds neither a marker nor a `\tab`, and equals the tab scan of the text without time codes |
| TranscriptText.TimeCodeExample | Transcript.py:84-89 | `a\'a4<1000>b` becomes `ab` |
| TranscriptText.TabExampleDelimited | Transcript.py:92-99 | `x\tab y` becomes `x` and four spaces and `y`: three from the tab plus the delimiter |
| TranscriptText.TabExampleUndelimited | Transcript.py:92-99 | `\tab\par` becomes three spaces and `\par` |
| TranscriptRecord.FromRow | Transcript.py:516-574 | `_load_row` takes the number, the text, the episode, clip and source numbers from the row, and the object knows the row's save time |
| TranscriptRecord.ToRow | Transcript.py:223-288 | the written row loads back as the object, with the assigned number and save time, under the object's key |
| TranscriptRecord.Select | Transcript.py:137-139 | a query returns exactly the matching rows of the table |
| TranscriptRecord.SelectByNumAtMostOne | Transcript.py:137-144 | in a valid table a lookup by number finds at most one row |
| TranscriptRecord.Refusal | Transcript.py:173-261 | a save is refused with ID required, too large, duplicate ID or the demo limit exactly in those cases; a save that is not refused has an ID or clip, fits the size limit and clashes with no other row |
| TranscriptRecord.UpdateRows | Transcript.py:264-278 | the UPDATE replaces exactly the rows with the object's number |
| TranscriptRecord.Written | Transcript.py:223-288 | a new object (number 0) adds one row under the next AUTO_INCREMENT number. A saved object replaces the rows with its number and leaves the others alone |
| TranscriptRecord.FollowUp | Transcript.py:290-308 | the follow-up lookup changes neither the table nor the counter. When it finds exactly one row, the object takes that row's save time, and its number too if it was new. Otherwise the object is unchanged and the save reports the row count |
| TranscriptRecord.Save | Transcript.py:168-310 | a refused save changes nothing; a save whose row is not found again leaves the object unchanged |
| TranscriptRecord.UpdatedKeyCount | Transcript.py:264-309 | after an UPDATE the rows with the object's key are the rows that had its number |
| TranscriptRecord.UpdatedNumCount | Transcript.py:264-278 | an UPDATE does not change how many rows carry any number |
| TranscriptRecord.WrittenKeyRows | Transcript.py:223-309 | after a write with no clash the object's key finds exactly the row just written |
| TranscriptRecord.WrittenValid | Transcript.py:223-288 | the write keeps TranscriptNum a key below the counter |
| TranscriptRecord.SaveFindsItsRow | Transcript.py:168-310 | a save that passes the checks succeeds exactly when it inserts or its row still exists; the object then has its number (a fresh one on insert) and the new save time; otherwise the lookup found no row |
| TranscriptRecord.SaveKeepsTableValid | Transcript.py:168-310 | every save keeps TranscriptNum a key |
| TranscriptRecord.WrittenKeysUnique | Transcript.py:228-288 | a write with no clash keeps the key columns unique |
| TranscriptRecord.SaveKeepsKeysUnique | Transcript.py:168-310 | every save keeps the key columns unique |
| TranscriptRecord.WrittenNumRows | Transcript.py:223-288 | after the write the assigned number finds exactly the written row |
| TranscriptRecord.SaveThenLoadByNum | Transcript.py:129-148 | loading by number right after a save finds exactly the saved record |
| TranscriptRecord.Stale | Transcript.py:386-399 | lock_record reloads only when a row with the object's number holds a save time other than the object's |
| TranscriptRecord.SavedIsNotStale | Transcript.py:382-403 | right after its own save the object is not stale, so lock_record does not reload it |
| TranscriptRecord.ChooseLoader | Transcript.py:52-57 | the loader is by clip when only a clip is given, by number for an int, and by name for a string with an int episode; otherwise nothing is loaded |
| TranscriptRecord.Table.constructor | Transcript.py:137-139 | a table holds the given rows and counter |
| TranscriptRecord.Transcript.Empty | Transcript.py:45-51 | a new object has every property at its default |
| TranscriptRecord.Transcript.Create | Transcript.py:45-57 | the constructor loads by the chosen loader, or leaves the object cleared |
| TranscriptRecord.Transcript.Clear | Transcript.py:119-122 | clear() resets every property to its default |
| TranscriptRecord.Transcript.LoadRow | Transcript.py:516-593 | `_load_row` takes every property from the row and clears `changed` |
| TranscriptRecord.Transcript.LoadFrom | Transcript.py:119-125 | exactly one row loads it; any other count clears the object and reports the count |
| TranscriptRecord.Transcript.LoadByNum | Transcript.py:129-148 | the exactly-one-row rule on the rows with that number |
| TranscriptRecord.Transcript.LoadByClipNum | Transcript.py:150-166 | the exactly-one-row rule on the rows with that clip |
| TranscriptRecord.Transcript.LoadByName | Transcript.py:104-127 | the exactly-one-row rule on the rows with that ID in that episode; on success the episode and series IDs are taken from the join |
| TranscriptRecord.Transcript.CheckSave | Transcript.py:173-261 | the checks give the Refusal of the object and table |
| TranscriptRecord.Transcript.Write | Transcript.py:223-288 | the INSERT or UPDATE writes the object's row and advances the counter on insert |
| TranscriptRecord.Transcript.DbSave | Transcript.py:168-310 | db_save leaves the object and table as Save says, and a table whose TranscriptNum column is a key below the AUTO_INCREMENT counter stays so |
| TranscriptRecord.Transcript.TakeSavedRow | Transcript.py:301-309 | the follow-up lookup takes the number (when 0) and the save time from the one row found, or reports not found |
| TranscriptRecord.Transcript.LockRecord | Transcript.py:382-403 | single-user does nothing; otherwise it fails unless exactly one row has the number, and reloads the object when the stored save time differs |
| TranscriptRecord.Transcript.GetTranscriptWithoutTimeCodes | Transcript.py:80-102 | the result is the text with time codes cut and tabs replaced; the object is unchanged |
| TransanaGlobal.DefaultGraphicsColorsShape | TransanaGlobal.py:165-193 | the default list has 29 entries and ends in White |
| TransanaGlobal.ConfigData.constructor | TransanaGlobal.py:200 | the configuration holds the colour file name |
| TransanaGlobal.ParseColorLine | TransanaGlobal.py:126-140 | an accepted line gives a named colour with channels in 0..255 |
| TransanaGlobal.ParseFields | TransanaGlobal.py:128-140 | exactly four fields, three integers, a name, channels in range: only then an entry |
| TransanaGlobal.FormatColorLineShape | TransanaGlobal.py:128 | a written entry is the name and the three channel numerals separated by commas |
| TransanaGlobal.ParseFieldsOfFormat | TransanaGlobal.py:128-140 | the fields of a written entry parse back to the entry |
| TransanaGlobal.StripFormatColorLine | TransanaGlobal.py:126-128 | a written entry whose name starts with a non-space passes the blank-line test and is left unchanged by `line.strip()` |
| TransanaGlobal.ParseFormatColorLine | TransanaGlobal.py:126-140 | reading back a written entry gives the entry, for a name without commas that does not start with whitespace |
| TransanaGlobal.Classify | TransanaGlobal.py:123-140 | a line classified as an entry holds a valid colour. A blank line of the file is `"\n"` and is a comment |
| TransanaGlobal.Kinds | TransanaGlobal.py:121 | one kind per line |
| TransanaGlobal.Entries | TransanaGlobal.py:121-142 | the reference list: the entries of the lines in file order |
| TransanaGlobal.EntriesSnoc | TransanaGlobal.py:121-142 | one more line adds its entry at the end |
| TransanaGlobal.ReadColorsAcross | TransanaGlobal.py:121-142 | reading across comment and entry lines appends their entries in order |
| TransanaGlobal.ReadColors | TransanaGlobal.py:121-157 | the file loop keeps the entries read so far at the front. An error names a bad line after the start, and without an error at most one entry per line is added |
| TransanaGlobal.ColorFileWithoutErrors | TransanaGlobal.py:121-142 | a file of comments and entries yields its entries in file order and no error |
| TransanaGlobal.ColorFileStopsAtBadLine | TransanaGlobal.py:119-157 | a malformed line k stops the parse: the earlier entries, then White, and the 1-based line number k+1 |
| TransanaGlobal.ColorFileStopsAtEmptyLine | TransanaGlobal.py:123-124 | a line that is the empty string ends the parse with the earlier entries and no error. Lines keep their terminators, so a file never yields one; the lemma covers the `if not line: break` guard |
| TransanaGlobal.ReadColorsValid | TransanaGlobal.py:128-157 | the colours read are valid entries or White |
| TransanaGlobal.ColorFileValid | TransanaGlobal.py:128-157 | every colour read from a file has a name and channels in 0..255 |
| TransanaGlobal.GetColorDefs | TransanaGlobal.py:108-197 | with a file, the parse of its lines and the file name kept; without one, the default list and the file name reset to "" |
| TransanaGlobal.NextKind | TransanaGlobal.py:123-128 | the loop body's view of line i is its kind |
| TransanaGlobal.ReadColorFile | TransanaGlobal.py:113-157 | the loop returns the parse of the lines: colours and error line |
| TransanaGlobal.ColorNames | TransanaGlobal.py:244-247 | the text-colour names in order |
| TransanaGlobal.BuildLookup | TransanaGlobal.py:249-252 | a name is a key exactly when some entry has it |
| TransanaGlobal.LookupLaterWins | TransanaGlobal.py:249-252 | a name maps to the colour of its last entry |
| TransanaGlobal.LookupTable | TransanaGlobal.py:249-252 | the dictionary loop builds the lookup |
| TransanaGlobal.ColumnContents | TransanaGlobal.py:257-259 | the inner loop for column x takes, in increasing order, the indices below the bound with remainder x |
| TransanaGlobal.ColumnsContents | TransanaGlobal.py:256-259 | columns x..9 take the indices whose remainder is at least x, ordered by (remainder, index) |
| TransanaGlobal.Range | TransanaGlobal.py:256-259 | `[0, ..., m-1]` |
| TransanaGlobal.KeywordIndicesPermutation | TransanaGlobal.py:255-259 | the keyword-map order is a permutation of `0..m-1`, ordered by (index mod 10, index) |
| TransanaGlobal.NamesAt | TransanaGlobal.py:259 | the names at the given indices, in that order |
| TransanaGlobal.KeywordColoursShape | TransanaGlobal.py:255-259 | keywordMapColourSet is the names at the keyword-map order of all indices but the last, and has length max(n-1, 0) |
| TransanaGlobal.DefaultKeywordColours | TransanaGlobal.py:255-259 | for the default list the keyword map has 28 colours |
| TransanaGlobal.AppendColumn | TransanaGlobal.py:257-259 | the inner loop appends column x's names |
| TransanaGlobal.KeywordMapColourSet | TransanaGlobal.py:255-259 | the nested loops build the keyword-map names |
| TransanaGlobal.SetColorVariables | TransanaGlobal.py:241-260 | the name list, the lookup and the keyword-map order of the two colour lists |
| TransanaGlobal.GrayLookupContents | TransanaGlobal.py:277-292 | each gray shade maps to its own RGB, and every keyword-map gray is a key |
| TransanaGlobal.DefaultEncoding | TransanaGlobal.py:72-96 | utf8 except on Windows single-user, where it is latin1 unless the language is ru, zh, el, ja or ko |
| TransanaGlobal.DefaultEncodingMatchesDatabaseTable | TransanaGlobal.py:86-96 | the start-up table is GetNewDatabase's pre-4.1 table, except that easteurope gets latin1 at start-up and iso8859_2 there |
| TransanaGlobal.FirstTransanaPath | TransanaGlobal.py:37-40 | the first path whose lower-case form contains "transana", or -1 when none does |
| TransanaGlobal.ProgramDir | TransanaGlobal.py:34-42 | with no path naming Transana, the absolute first entry (or its directory when it names a file). Otherwise the first path naming Transana (or its directory) |
| TransanaGlobal.ChooseProgramDir | TransanaGlobal.py:34-42 | programDir is the first Transana path (or the absolute first entry), replaced by its directory when it names a file |

## Left out

- Everything wx draws or schedules is left out. This covers window styles beyond the close box, Show/Hide effects on other windows, SetFocus, Refresh, wx.Yield, the FindFocus test in UpdatePlayState, and the menu, visualization, video and data windows' own methods. Windows are records.
- Control.ControlObject.SetVideoSelection, Control.ControlObject.MultiSelect: deferred callbacks (wx.CallLater, wx.CallAfter) take effect at once. Word tracking in read-only transcripts and the selections made in the other windows by MultiSelect (scroll_to_time, select_find) are not modelled.
- Control.ControlObject.Stop: restoring the transcript cursors and the video window's own repositioning are not modelled; only the play state changes.
- Control.ControlObject.UpdatePlayState: the 70/30 "video and transcript" layout uses float arithmetic (`int(0.7 * height)`). The model takes the two heights as parameters (`upper`, `lower`). When it restores the snapshot on Stop, it also requires that the snapshot holds no more transcript rectangles than there are open windows, because the Python code would raise IndexError otherwise.
- Control.ControlObject.GetMediaLength: exceptions from the video window (returning 0) and from the record save are not modelled. The lock succeeding is a parameter.
- Control.ControlObject.GetNewDatabase: closing the database, the connection timer and the tree refresh are left out. The connection attempts and the retry answers are oracles.
- Control.ControlObject.LoadVideo: the existence of the file is an oracle. The error dialog and the media and visualization loading are left out.
- Control.ControlObject.ClearAllWindows: closing a window's dialog (line 513) is taken to remove it the way CloseAdditionalTranscript does. TranscriptionUI is not part of this model.
- Control.ControlObject.CloseAdditionalTranscript: follows the corrected focus rule (`Session.CloseFocus`, see Findings), not lines 401-402 and 424 as written. The as-written rule is modelled and its effect shown by `Session.CloseFocusAsWrittenMovesFocus`.
- Control.ControlObject.OpenAdditionalTranscript: two error paths of the Python code are not modelled. First, `Transcript.Transcript(transcriptNum)` at line 337 raises RecordNotFoundError for a missing record (Transcript.py:140-143), after `Register` at line 333 has already appended an empty window and made it active. Second, when `episodeID` is given and `seriesID` is empty, `episodeObj` is bound only at line 343 and is used unbound at line 349 (NameError). The model receives the loaded transcript record and the series and episode ids as parameters, so neither error can arise in it.
- The other ControlObject methods are not part of this model: LoadTranscript, LoadClipByNumber, Help, PropagateChanges and the database-tree helpers. They depend on Episode, Clip, Series, TranscriptionUI and Dialogs, which are not part of it either.
- Control.ControlObject.GetMultipleTranscriptSelectionInfo, Control.ControlObject.MultiPlay: both require that every window showing a clip transcript (clip number not 0) has a transcript at its own index in the loaded Clip (`Windows.ClipTranscriptsKnown`). Without one, `self.currentObj.transcripts[...]` at ControlObjectClass.py:1110 raises IndexError, and that path is not modelled. The loaders that open a clip's transcripts (LoadClipByNumber, OpenAdditionalTranscript from the clip) are what keep this true, and they are not part of this model.
- TranscriptRecord.Transcript.GetTranscriptWithoutTimeCodes: requires every time-code marker to have a later `>`. On other text the Python loop never ends (see Findings), so no result exists to model; `TranscriptText.StripTimeCodes` always ends and reports such a text as `None`.
- TranscriptRecord: SQL, cursors, transactions, record locking, db_delete and the array/unicode decoding in `_load_row` are left out. The table is a sequence of rows with an AUTO_INCREMENT counter.
- DataObject.py is not part of this model. `clear()` is taken to set each property to its deleter's default, and a record is taken to be new exactly when its number is 0.
- TranscriptRecord.Save: the demo-version count of episode transcripts is a parameter. The sort order is always an integer; the None case is not modelled.
- TransanaGlobal.GetColorDefs: opening the file, the exception dialog and the temporary wx.App are left out. The file is given as its lines, and a read error other than a malformed line is not modelled. The lines keep their terminators, as `for line in f` yields them. A blank line is therefore `"\n"`, a comment, and the empty-string case of `TransanaGlobal.Classify` (the guard at lines 123-124) never arises from a real file.
- PyStrings.ParseInt: accepts surrounding whitespace, an optional sign, whitespace after the sign and decimal digits, which is what Python 2's `int()` accepts on a plain decimal string. Python 2 also accepts a trailing `L` or `l`, but only when the value is beyond the range of a machine int; such values are rejected by every caller here anyway (colour components must be 0-255). That suffix is not modelled.
- PyStrings.Upper, PyStrings.Lower: ASCII letters only; no Unicode case mapping.
- TransanaGlobal.DefaultGraphicsColorsShape: states the length and last entry of the default list, not the validity of each of its 29 entries.
- Transana.py, gettext `_()`, `Misc.time_in_ms_to_str` label formatting and all Unicode conversions are left out. A selection label is kept as its pair of times.

## Findings

| source | as written | input that shows it | evidently intended | confidence | as-written member | corrected member |
|---|---|---|---|---|---|---|
| ControlObjectClass.py:401-402 | after closing window t, the old active index is reused without shifting it down, and "last window active" gives `activeTranscript - 1`, which is t - 1 | 4 windows, active 2, close 0: index 2 then names the former window 3. 3 windows, active 2, close 0: index -1, so the last window gets the focus and no title is marked | the window that was active before the close keeps the focus (the comments at 390-402 say so) | not executed | Session.CloseFocusAsWrittenMovesFocus | Session.CloseFocusKeepsWindow |
| Transcript.py:88-89 | when a time-code marker has no later `>`, `find` returns -1 and `newText[timeCodeEnd + 1:]` is the whole text, so the pass rebuilds `newText[:s] + newText`, which keeps the marker and grows | the text `\'a4 12` (a marker and no `>`): the loop never ends | the loop ends on every text and leaves no marker | not executed | TranscriptText.TimeCodeStepWithoutEnd | TranscriptText.StripTimeCodes |

Three places where the code does something a reader may not expect:
- UpdateVideoPosition refreshes the selected-range tab when the video is not playing **or** the active window moved (ControlObjectClass.py:1151).
- The tab loop keeps the RTF delimiter space after `\tab` (Transcript.py:98).
- ClearAllWindows with a reset offers to save only the active window and the windows it closes. When another window is active, the first window is cleared without a save offer (ControlObjectClass.py:479-489). `Windows.ClearAllSavesSkipsFirst` states this: the first window's document has no effect on what is written.
