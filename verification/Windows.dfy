/** The transcript-window list of the session coordinator
  * (ControlObjectClass.py) as values: what opening, closing, arranging,
  * saving and relabelling windows does to the list, and what that
  * guarantees.  The ControlObject class in Control.dfy is proved to
  * update its list exactly as these functions say. */
module Windows {
  import opened Layout
  import opened PyStrings
  import opened Session

  /** A transcript text written to the database by a save. */
  datatype SavedText = SavedText(transcriptNumber: int, text: string)

  /** A transcript record as the window loads it. */
  datatype TranscriptData = TranscriptData(number: int, id: string, clipNum: int, text: string)

  /** What the editor's ClearDoc leaves: an empty, unmodified document;
    * nothing else changes. */
  function ClearDoc(e: Editor): (r: Editor)
    ensures r.text == "" && !r.modified
    ensures r.(text := e.text, modified := e.modified) == e
  {
    e.(text := "", modified := false)
  }

  /** The editor after LoadTranscript(data): the record's text, id and
    * numbers, unmodified. */
  function LoadedInto(e: Editor, data: TranscriptData): (r: Editor)
    ensures r.text == data.text && r.transcriptNumber == data.number && r.clipNum == data.clipNum
    ensures r.transcriptId == data.id && !r.modified
    ensures r.selStart == e.selStart && r.selEnd == e.selEnd && r.readOnly == e.readOnly
  {
    e.(text := data.text, transcriptId := data.id, transcriptNumber := data.number, clipNum := data.clipNum, modified := false)
  }

  /** What the ControlObject does to the editor it saves: nothing when it
    * is unmodified; on "yes" it is written (and is no longer modified
    * unless the write failed); on "no" it is cleared if asked to. */
  function AfterSave(e: Editor, prompt: bool, answerYes: bool, cleardoc: bool, saveFails: bool): (r: Editor)
    ensures !e.modified ==> r == e
    ensures e.modified && SaveProceeds(e.modified, prompt, answerYes) ==> r == (if saveFails then e else e.(modified := false))
    ensures !SaveProceeds(e.modified, prompt, answerYes) ==> r == (if cleardoc then ClearDoc(e) else e)
  {
    if !e.modified then e
    else if !prompt || answerYes then (if saveFails then e else e.(modified := false))
    else if cleardoc then ClearDoc(e)
    else e
  }

  /** What SaveTranscript writes to the database: the window's text under
    * its transcript number, when it was modified, the save went ahead and
    * the write did not fail. */
  function Written(e: Editor, prompt: bool, answerYes: bool, saveFails: bool): (r: seq<SavedText>)
    ensures r == [] || r == [SavedText(e.transcriptNumber, e.text)]
    ensures r != [] <==> e.modified && (!prompt || answerYes) && !saveFails
  {
    if e.modified && SaveProceeds(e.modified, prompt, answerYes) && !saveFails then [SavedText(e.transcriptNumber, e.text)]
    else []
  }

  /** A window whose text was written is unmodified afterwards, so a second
    * offer writes nothing. */
  lemma WrittenOnce(e: Editor, prompt: bool, answerYes: bool, cleardoc: bool, saveFails: bool,
                    prompt2: bool, answerYes2: bool)
    requires Written(e, prompt, answerYes, saveFails) != []
    ensures Written(AfterSave(e, prompt, answerYes, cleardoc, saveFails), prompt2, answerYes2, saveFails) == []
  {
  }

  /** The text a window's save writes. */
  function SavedOf(e: Editor): SavedText
  {
    SavedText(e.transcriptNumber, e.text)
  }

  /** What the user and the database do at ClearAllWindows' save prompts:
    * the answer to the first prompt (the active window, line 480) and
    * whether that save raises SaveError, then for each window j the
    * closing loop reaches (line 509) its own answer and failure. */
  datatype Replies = Replies(firstYes: bool, firstFails: bool, closeYes: nat -> bool, closeFails: nat -> bool)

  /** The saves of ClearAllWindows' closing loop, which offers windows
    * |ws|-1 down to n a save in turn, window j with the answer `yes(j)`
    * and the failure `fails(j)`. */
  function ClosingSaves(ws: seq<TranscriptWindow>, n: nat, yes: nat -> bool, fails: nat -> bool): (r: seq<SavedText>)
    ensures |r| <= if n <= |ws| then |ws| - n else 0
    decreases |ws| - n
  {
    if n >= |ws| then []
    else ClosingSaves(ws, n + 1, yes, fails) + Written(ws[n].editor, true, yes(n), fails(n))
  }

  /** The closing loop writes at most one text per window; it writes the
    * text of every modified window from n on that is answered yes and
    * whose save does not fail, and nothing else. */
  lemma {:induction false} ClosingSavesContents(ws: seq<TranscriptWindow>, n: nat, yes: nat -> bool, fails: nat -> bool)
    ensures |ClosingSaves(ws, n, yes, fails)| <= if n <= |ws| then |ws| - n else 0
    ensures forall j :: n <= j < |ws| && ws[j].editor.modified && yes(j) && !fails(j) ==>
      SavedOf(ws[j].editor) in ClosingSaves(ws, n, yes, fails)
    ensures forall x :: x in ClosingSaves(ws, n, yes, fails) ==>
      exists j :: n <= j < |ws| && ws[j].editor.modified && yes(j) && !fails(j) && x == SavedOf(ws[j].editor)
    decreases |ws| - n
  {
    if n < |ws| {
      ClosingSavesContents(ws, n + 1, yes, fails);
      var w := Written(ws[n].editor, true, yes(n), fails(n));
      assert ClosingSaves(ws, n, yes, fails) == ClosingSaves(ws, n + 1, yes, fails) + w;
      assert |w| <= 1;
      assert w != [] <==> ws[n].editor.modified && yes(n) && !fails(n);
      assert w != [] ==> w == [SavedOf(ws[n].editor)];
    }
  }

  /** The closing loop reads only the documents of windows n and after. */
  lemma {:induction false} ClosingSavesReadsFrom(ws: seq<TranscriptWindow>, vs: seq<TranscriptWindow>, n: nat,
                                                 yes: nat -> bool, fails: nat -> bool)
    requires |ws| == |vs| && forall j :: n <= j < |ws| ==> ws[j].editor == vs[j].editor
    ensures ClosingSaves(ws, n, yes, fails) == ClosingSaves(vs, n, yes, fails)
    decreases |ws| - n
  {
    if n < |ws| {
      ClosingSavesReadsFrom(ws, vs, n + 1, yes, fails);
    }
  }

  /** The list after ClearAllWindows' first, prompted save of window i,
    * which does not clear the document when the user declines. */
  function FirstSaved(ws: seq<TranscriptWindow>, i: nat, answerYes: bool, saveFails: bool): (r: seq<TranscriptWindow>)
    requires i < |ws|
    ensures |r| == |ws| && forall j :: 0 <= j < |ws| && j != i ==> r[j] == ws[j]
    ensures SavedOf(r[i].editor) == SavedOf(ws[i].editor)
    ensures r[i].editor.modified <==> ws[i].editor.modified && (!answerYes || saveFails)
  {
    ws[i := ws[i].(editor := AfterSave(ws[i].editor, true, answerYes, false, saveFails))]
  }

  /** Everything ClearAllWindows(reset) writes: the active window's text,
    * then on a reset the closing loop's writes for windows |ws|-1 down to 1.
    * Window 0 is cleared on a reset but is offered a save only when it
    * was the active window. */
  function ClearAllSaves(ws: seq<TranscriptWindow>, active: int, reset: bool, r: Replies): (log: seq<SavedText>)
    requires -|ws| <= active < |ws|
    ensures |log| <= if reset then |ws| else 1
  {
    var i := PyIndex(active, |ws|);
    Written(ws[i].editor, true, r.firstYes, r.firstFails)
      + (if reset then ClosingSaves(FirstSaved(ws, i, r.firstYes, r.firstFails), 1, r.closeYes, r.closeFails) else [])
  }

  /** On a reset: the active window i is written when its first save goes
    * through, and otherwise (declined, or failed) when the closing loop
    * asks again and that save goes through, provided i is not window 0;
    * every other window after the first is written when it is modified,
    * answered yes and its save does not fail; at most one text per window
    * is written, and only texts of modified windows. */
  lemma ClearAllSavesContents(ws: seq<TranscriptWindow>, active: int, r: Replies)
    requires -|ws| <= active < |ws|
    ensures var i := PyIndex(active, |ws|);
      ws[i].editor.modified && r.firstYes && !r.firstFails ==> SavedOf(ws[i].editor) in ClearAllSaves(ws, active, true, r)
    ensures var i := PyIndex(active, |ws|);
      0 < i && ws[i].editor.modified && !(r.firstYes && !r.firstFails) && r.closeYes(i) && !r.closeFails(i) ==>
        SavedOf(ws[i].editor) in ClearAllSaves(ws, active, true, r)
    ensures forall j :: 0 < j < |ws| && j != PyIndex(active, |ws|) && ws[j].editor.modified && r.closeYes(j) && !r.closeFails(j) ==>
      SavedOf(ws[j].editor) in ClearAllSaves(ws, active, true, r)
    ensures forall x :: x in ClearAllSaves(ws, active, true, r) ==>
      exists j :: 0 <= j < |ws| && ws[j].editor.modified && x == SavedOf(ws[j].editor)
    ensures |ClearAllSaves(ws, active, true, r)| <= |ws|
  {
    var i := PyIndex(active, |ws|);
    var mid := FirstSaved(ws, i, r.firstYes, r.firstFails);
    ClosingSavesContents(mid, 1, r.closeYes, r.closeFails);
    var w := Written(ws[i].editor, true, r.firstYes, r.firstFails);
    assert ClearAllSaves(ws, active, true, r) == w + ClosingSaves(mid, 1, r.closeYes, r.closeFails);
    forall x | x in ClearAllSaves(ws, active, true, r)
      ensures exists j :: 0 <= j < |ws| && ws[j].editor.modified && x == SavedOf(ws[j].editor)
    {
      if x in w {
        assert ws[i].editor.modified && x == SavedOf(ws[i].editor);
      } else {
        var j :| 1 <= j < |mid| && mid[j].editor.modified && r.closeYes(j) && !r.closeFails(j) && x == SavedOf(mid[j].editor);
        assert ws[j].editor.modified && x == SavedOf(ws[j].editor);
      }
    }
  }

  /** Declining the first prompt and accepting the second writes the
    * active window when it is not window 0: the closing loop asks again. */
  lemma ClearAllSavesAsksTwice(ws: seq<TranscriptWindow>, active: int, r: Replies)
    requires -|ws| <= active < |ws| && 0 < PyIndex(active, |ws|)
    requires ws[PyIndex(active, |ws|)].editor.modified
    requires !r.firstYes && r.closeYes(PyIndex(active, |ws|)) && !r.closeFails(PyIndex(active, |ws|))
    ensures SavedOf(ws[PyIndex(active, |ws|)].editor) in ClearAllSaves(ws, active, true, r)
    ensures SavedOf(ws[PyIndex(active, |ws|)].editor) !in Written(ws[PyIndex(active, |ws|)].editor, true, r.firstYes, r.firstFails)
  {
    ClearAllSavesContents(ws, active, r);
  }

  /** What ClearAllWindows writes depends on the windows' documents only. */
  lemma ClearAllSavesReadsDocuments(ws: seq<TranscriptWindow>, vs: seq<TranscriptWindow>, active: int, reset: bool, r: Replies)
    requires -|ws| <= active < |ws| && |ws| == |vs|
    requires forall j :: 0 <= j < |ws| ==> ws[j].editor == vs[j].editor
    ensures ClearAllSaves(ws, active, reset, r) == ClearAllSaves(vs, active, reset, r)
  {
    var i := PyIndex(active, |ws|);
    ClosingSavesReadsFrom(FirstSaved(ws, i, r.firstYes, r.firstFails), FirstSaved(vs, i, r.firstYes, r.firstFails),
                          1, r.closeYes, r.closeFails);
  }

  /** On a reset with another window active, the first window's document
    * plays no part in what is written, although it is then cleared. */
  lemma ClearAllSavesSkipsFirst(ws: seq<TranscriptWindow>, e: Editor, active: int, r: Replies)
    requires -|ws| <= active < |ws| && PyIndex(active, |ws|) != 0
    ensures ClearAllSaves(ws[0 := ws[0].(editor := e)], active, true, r) == ClearAllSaves(ws, active, true, r)
  {
    var i := PyIndex(active, |ws|);
    var vs := ws[0 := ws[0].(editor := e)];
    ClosingSavesReadsFrom(FirstSaved(vs, i, r.firstYes, r.firstFails), FirstSaved(ws, i, r.firstYes, r.firstFails),
                          1, r.closeYes, r.closeFails);
  }

  /** The title an episode transcript window gets. */
  function EpisodeTitle(id: string, seriesId: string, episodeId: string): (r: string)
    ensures Unmarked(r)
  {
    var r := "Transcript \"" + id + "\" for Series \"" + seriesId + "\", Episode \"" + episodeId + "\"";
    assert r[..2] == "Tr";
    assert r[|r| - 2..] == [r[|r| - 2], '"'];
    r
  }

  /** A window placed 16 pixels right of and below `d`, and 16 pixels
    * smaller in both directions. */
  function Cascade(d: Rect): (r: Rect)
    ensures r.left - d.left == r.top - d.top == d.width - r.width == d.height - r.height == 16
  {
    Rect(d.left + 16, d.top + 16, d.width - 16, d.height - 16)
  }

  /** AutoArrangeTranscriptWindows' result: window k gets slot k of the
    * space below the first window, the visualization window's width, and
    * the first window shows its close box exactly when several are open. */
  function Arranged(ws: seq<TranscriptWindow>, vizWidth: int, screenHeight: int, isMac: bool): (r: seq<TranscriptWindow>)
    requires |ws| >= 1
    ensures |r| == |ws|
    ensures forall i :: 0 <= i < |ws| ==> r[i].uid == ws[i].uid && r[i].editor == ws[i].editor
    ensures var left, top := ws[0].frame.dims.left, ws[0].frame.dims.top;
      forall i :: 0 <= i < |ws| ==> r[i].frame == ws[i].frame.(
        dims := TileRect(left, top, vizWidth, ArrangeSpace(screenHeight, top, isMac), |ws|, i),
        closeBox := if i == 0 then |ws| > 1 else ws[i].frame.closeBox)
  {
    var left := ws[0].frame.dims.left;
    var top := ws[0].frame.dims.top;
    var space := ArrangeSpace(screenHeight, top, isMac);
    seq(|ws|, i requires 0 <= i < |ws| => ws[i].(frame := ws[i].frame.(
      dims := TileRect(left, top, vizWidth, space, |ws|, i),
      closeBox := if i == 0 then |ws| > 1 else ws[i].frame.closeBox)))
  }

  predicate TitlesWellFormed(ws: seq<TranscriptWindow>)
  {
    forall i :: 0 <= i < |ws| ==> WellFormedTitle(ws[i].frame.title)
  }

  /** Only window k may show the active marker, and it does when several
    * windows are open. */
  predicate MarkedExactly(ws: seq<TranscriptWindow>, k: int)
  {
    (forall i :: 0 <= i < |ws| && i != k ==> Unmarked(ws[i].frame.title)) &&
    (0 <= k < |ws| && |ws| > 1 ==> Marked(ws[k].frame.title))
  }

  /** The transcript windows' geometry, in list order. */
  function DimsOf(ws: seq<TranscriptWindow>): (r: seq<Rect>)
    ensures |r| == |ws| && forall i :: 0 <= i < |ws| ==> r[i] == ws[i].frame.dims
  {
    seq(|ws|, i requires 0 <= i < |ws| => ws[i].frame.dims)
  }

  /** The label UpdateSelectionTextLater shows for an editor: none for a
    * point, else the selection's time range with the clip defaults. */
  function SelectionLabelFor(e: Editor, subject: Subject, mediaLength: int): (l: SelectionLabel)
    ensures l.NoLabel? <==> !e.hasSelection
    ensures l.Label? ==> (l.start, l.end) == ClipDefaultRange(e.selStart, e.selEnd, subject, mediaLength)
  {
    if !e.hasSelection then NoLabel
    else
      var r := ClipDefaultRange(e.selStart, e.selEnd, subject, mediaLength);
      Label(r.0, r.1)
  }

  /** UpdateSelectionTextLater(k): window k, when it exists, shows the
    * label of its current selection; the list is otherwise unchanged. */
  function Relabelled(ws: seq<TranscriptWindow>, k: int, subject: Subject, mediaLength: int): (r: seq<TranscriptWindow>)
    ensures |r| == |ws|
    ensures forall i :: 0 <= i < |ws| && i != k ==> r[i] == ws[i]
    ensures 0 <= k < |ws| ==> r[k].uid == ws[k].uid && r[k].frame == ws[k].frame
    ensures 0 <= k < |ws| ==> r[k].editor == ws[k].editor.(selectionLabel := SelectionLabelFor(ws[k].editor, subject, mediaLength))
  {
    if 0 <= k < |ws| then
      ws[k := ws[k].(editor := ws[k].editor.(selectionLabel := SelectionLabelFor(ws[k].editor, subject, mediaLength)))]
    else ws
  }

  /** Relabelling is idempotent: the label depends only on the selection. */
  lemma RelabelledIdempotent(ws: seq<TranscriptWindow>, k: int, subject: Subject, mediaLength: int)
    ensures Relabelled(Relabelled(ws, k, subject, mediaLength), k, subject, mediaLength) == Relabelled(ws, k, subject, mediaLength)
  {
  }

  /** An editor after UpdateVideoPosition(pos): moved to pos, labelled. */
  function Positioned(e: Editor, pos: int, subject: Subject, mediaLength: int): (r: Editor)
    ensures r.time == pos && r.selectionLabel == SelectionLabelFor(e, subject, mediaLength)
    ensures r.(time := e.time, selectionLabel := e.selectionLabel) == e
  {
    e.(time := pos, selectionLabel := SelectionLabelFor(e, subject, mediaLength))
  }

  /** GetMultipleTranscriptSelectionInfo's precondition: a window showing
    * a clip transcript needs the loaded Clip to have a transcript at the
    * window's index. */
  predicate ClipTranscriptsKnown(ws: seq<TranscriptWindow>, subject: Subject)
  {
    forall i :: 0 <= i < |ws| && ws[i].editor.clipNum != 0 ==> subject.Clip? && i < |subject.transcripts|
  }

  /** The entry GetMultipleTranscriptSelectionInfo reports for window i:
    * the original transcript's number, the default-filled time range and
    * the selected RTF (empty for a point). */
  function SelectionInfoFor(ws: seq<TranscriptWindow>, i: nat, subject: Subject, mediaLength: int): (r: SelectionInfo)
    requires i < |ws| && ClipTranscriptsKnown(ws, subject)
    ensures (r.start, r.end) == ClipDefaultRange(ws[i].editor.selStart, ws[i].editor.selEnd, subject, mediaLength)
    ensures r.text == "" <==> !ws[i].editor.hasSelection || ws[i].editor.selectedRtf == ""
    ensures ws[i].editor.clipNum == 0 ==> r.transcriptNum == ws[i].editor.transcriptNumber
    ensures ws[i].editor.clipNum != 0 ==> r.transcriptNum == subject.transcripts[i].sourceTranscript
  {
    var e := ws[i].editor;
    var range := ClipDefaultRange(e.selStart, e.selEnd, subject, mediaLength);
    var original := if e.clipNum == 0 then e.transcriptNumber else subject.transcripts[i].sourceTranscript;
    SelectionInfo(original, range.0, range.1, if e.hasSelection then e.selectedRtf else "")
  }

  /** The whole report, one entry per window in list order. */
  function SelectionInfos(ws: seq<TranscriptWindow>, subject: Subject, mediaLength: int): (r: seq<SelectionInfo>)
    requires ClipTranscriptsKnown(ws, subject)
    ensures |r| == |ws|
    ensures forall i :: 0 <= i < |ws| ==> r[i] == SelectionInfoFor(ws, i, subject, mediaLength)
  {
    seq(|ws|, i requires 0 <= i < |ws| => SelectionInfoFor(ws, i, subject, mediaLength))
  }

  /** A label shown for a selection always lies in the range the report
    * gives for the same window: both use the clip defaults. */
  lemma LabelAgreesWithReport(ws: seq<TranscriptWindow>, i: nat, subject: Subject, mediaLength: int)
    requires i < |ws| && ClipTranscriptsKnown(ws, subject)
    requires ws[i].editor.hasSelection
    ensures var l := SelectionLabelFor(ws[i].editor, subject, mediaLength);
      var info := SelectionInfoFor(ws, i, subject, mediaLength);
      l == Label(info.start, info.end)
  {
  }

  /** GetMediaLength's tape-length repair applies: an Episode whose media
    * file is the loaded video, whose stored length is not positive, while
    * the player knows a positive length. */
  predicate TapeLengthRepairable(subject: Subject, videoFilename: string, videoLength: int)
  {
    subject.Episode? && subject.mediaFile == videoFilename && subject.tapeLength <= 0 && videoLength > 0
  }


  /** Every title of `ws` is well formed and has the plain text of the
    * title at the same index of `orig`. */
  predicate TitlesKept(ws: seq<TranscriptWindow>, orig: seq<TranscriptWindow>)
  {
    |ws| == |orig| &&
    forall j :: 0 <= j < |ws| ==> WellFormedTitle(ws[j].frame.title) && PlainTitle(ws[j].frame.title) == PlainTitle(orig[j].frame.title)
  }

  // ------------------------------------------------------ opening a window

  /** The title OpenAdditionalTranscript gives a new window: for an episode
    * transcript the episode title, marked when other windows are already
    * open; otherwise none (the window keeps its own). */
  function OpenTitle(isEpisodeTranscript: bool, id: string, seriesId: string, episodeId: string, k: nat): (r: Option<string>)
    ensures r.Some? <==> isEpisodeTranscript
    ensures r.Some? ==> WellFormedTitle(r.value) && PlainTitle(r.value) == EpisodeTitle(id, seriesId, episodeId)
    ensures r.Some? ==> (Marked(r.value) <==> k > 0) && (k == 0 ==> Unmarked(r.value))
  {
    if !isEpisodeTranscript then None
    else
      var t := EpisodeTitle(id, seriesId, episodeId);
      UndecorateDecorate(t);
      Some(if k > 0 then Decorate(t) else t)
  }

  function TitledAt(ws: seq<TranscriptWindow>, k: nat, title: Option<string>): seq<TranscriptWindow>
    requires k < |ws|
  {
    if title.Some? then ws[k := ws[k].(frame := ws[k].frame.(title := title.value))] else ws
  }

  function LoadedAt(ws: seq<TranscriptWindow>, k: nat, data: TranscriptData): seq<TranscriptWindow>
    requires k < |ws|
  {
    ws[k := ws[k].(editor := LoadedInto(ws[k].editor, data))]
  }

  /** Auto-arrange all windows, or cascade window k from the window before
    * it (Python's index k-1, which is the last window when k is 0). */
  function PlacedAt(ws: seq<TranscriptWindow>, k: nat, autoArrange: bool, vizWidth: int, screenHeight: int, isMac: bool)
    : seq<TranscriptWindow>
    requires k < |ws|
  {
    if autoArrange then Arranged(ws, vizWidth, screenHeight, isMac)
    else ws[k := ws[k].(frame := ws[k].frame.(dims := Cascade(ws[PyIndex(k - 1, |ws|)].frame.dims)))]
  }

  function ShownAt(ws: seq<TranscriptWindow>, k: nat, pos: int): seq<TranscriptWindow>
    requires k < |ws|
  {
    ws[k := ws[k].(frame := ws[k].frame.(shown := true), editor := ws[k].editor.(time := pos))]
  }

  /** The window list after OpenAdditionalTranscript(w): register w (the
    * setter activates it), title it, load the transcript, place it and
    * show it at the video position. */
  function Opened(ws: seq<TranscriptWindow>, w: TranscriptWindow, title: Option<string>, data: TranscriptData, pos: int,
                  autoArrange: bool, vizWidth: int, screenHeight: int, isMac: bool, shuttingDown: bool): (r: seq<TranscriptWindow>)
    ensures |r| == |ws| + 1 && r[|ws|].uid == w.uid && r[|ws|].frame.shown
    ensures forall i :: 0 <= i < |ws| ==> r[i].uid == ws[i].uid
  {
    var k := |ws|;
    var registered := Activated(ws + [w], k, shuttingDown);
    ShownAt(PlacedAt(LoadedAt(TitledAt(registered, k, title), k, data), k, autoArrange, vizWidth, screenHeight, isMac), k, pos)
  }

  /** Opening appends exactly one window: the others keep their identity
    * and document, the new one is w with the transcript loaded, shown at
    * the video position. */
  lemma OpenedAppends(ws: seq<TranscriptWindow>, w: TranscriptWindow, title: Option<string>, data: TranscriptData, pos: int,
                      autoArrange: bool, vizWidth: int, screenHeight: int, isMac: bool, shuttingDown: bool)
    ensures var r := Opened(ws, w, title, data, pos, autoArrange, vizWidth, screenHeight, isMac, shuttingDown);
      && |r| == |ws| + 1
      && (forall i :: 0 <= i < |ws| ==> r[i].uid == ws[i].uid && r[i].editor == ws[i].editor)
      && r[|ws|].uid == w.uid && r[|ws|].frame.shown
      && r[|ws|].editor == LoadedInto(w.editor, data).(time := pos)
  {
    var k := |ws|;
    var a := Activated(ws + [w], k, shuttingDown);
    var b := LoadedAt(TitledAt(a, k, title), k, data);
    var c := PlacedAt(b, k, autoArrange, vizWidth, screenHeight, isMac);
    assert forall i :: 0 <= i < |ws| ==> c[i].uid == ws[i].uid && c[i].editor == ws[i].editor;
    assert c[k].uid == w.uid && c[k].editor == LoadedInto(w.editor, data);
  }

  /** Where opening puts the windows.  Auto-arranged: every window gets its
    * slot below the first one, whose close box shows when several are
    * open.  Otherwise the new window is cascaded from the last one (from
    * its own position when it is alone) and the others do not move. */
  lemma OpenedPlacement(ws: seq<TranscriptWindow>, w: TranscriptWindow, title: Option<string>, data: TranscriptData, pos: int,
                        autoArrange: bool, vizWidth: int, screenHeight: int, isMac: bool, shuttingDown: bool)
    ensures var r := Opened(ws, w, title, data, pos, autoArrange, vizWidth, screenHeight, isMac, shuttingDown);
      var first := if |ws| > 0 then ws[0] else w;
      var left, top := first.frame.dims.left, first.frame.dims.top;
      && |r| == |ws| + 1
      && (autoArrange ==> forall i :: 0 <= i < |r| ==>
            r[i].frame.dims == TileRect(left, top, vizWidth, ArrangeSpace(screenHeight, top, isMac), |r|, i))
      && (autoArrange ==> r[0].frame.closeBox == (|r| > 1))
      && (!autoArrange ==> r[|ws|].frame.dims == Cascade((if |ws| > 0 then ws[|ws| - 1] else w).frame.dims))
      && (!autoArrange ==> forall i :: 0 <= i < |ws| ==> r[i].frame.dims == ws[i].frame.dims)
  {
    var k := |ws|;
    var a := Activated(ws + [w], k, shuttingDown);
    var b := LoadedAt(TitledAt(a, k, title), k, data);
    assert forall i :: 0 <= i <= k ==> b[i].frame.dims == (ws + [w])[i].frame.dims;
    if |ws| > 0 {
      assert PyIndex(k - 1, |b|) == k - 1;
    }
  }

  /** The titles of the windows before the new one after opening are the
    * setter's; the new window's is the given title or the setter's. */
  lemma OpenedTitlesAre(ws: seq<TranscriptWindow>, w: TranscriptWindow, title: Option<string>, data: TranscriptData, pos: int,
                        autoArrange: bool, vizWidth: int, screenHeight: int, isMac: bool, shuttingDown: bool)
    ensures var r := Opened(ws, w, title, data, pos, autoArrange, vizWidth, screenHeight, isMac, shuttingDown);
      var a := Activated(ws + [w], |ws|, shuttingDown);
      && |r| == |ws| + 1
      && (forall i :: 0 <= i < |ws| ==> r[i].frame.title == a[i].frame.title)
      && r[|ws|].frame.title == if title.Some? then title.value else a[|ws|].frame.title
  {
    var k := |ws|;
    var a := Activated(ws + [w], k, shuttingDown);
    var b := LoadedAt(TitledAt(a, k, title), k, data);
    var c := PlacedAt(b, k, autoArrange, vizWidth, screenHeight, isMac);
    assert forall i :: 0 <= i <= k ==> c[i].frame.title == b[i].frame.title;
  }

  /** Outside shutdown, opening keeps every title well formed with its
    * text, leaves exactly the new window marked, and an episode
    * transcript's window shows its episode title. */
  lemma OpenedTitles(ws: seq<TranscriptWindow>, w: TranscriptWindow, isEpisodeTranscript: bool,
                     id: string, seriesId: string, episodeId: string, data: TranscriptData, pos: int,
                     autoArrange: bool, vizWidth: int, screenHeight: int, isMac: bool)
    requires TitlesWellFormed(ws) && (isEpisodeTranscript || WellFormedTitle(w.frame.title))
    ensures var title := OpenTitle(isEpisodeTranscript, id, seriesId, episodeId, |ws|);
      var r := Opened(ws, w, title, data, pos, autoArrange, vizWidth, screenHeight, isMac, false);
      && TitlesWellFormed(r) && MarkedExactly(r, |ws|)
      && (forall i :: 0 <= i < |ws| ==> PlainTitle(r[i].frame.title) == PlainTitle(ws[i].frame.title))
      && (isEpisodeTranscript ==> PlainTitle(r[|ws|].frame.title) == EpisodeTitle(id, seriesId, episodeId))
  {
    var k := |ws|;
    var title := OpenTitle(isEpisodeTranscript, id, seriesId, episodeId, k);
    var a := Activated(ws + [w], k, false);
    OpenedTitlesAre(ws, w, title, data, pos, autoArrange, vizWidth, screenHeight, isMac, false);
    forall i | 0 <= i < k
      ensures WellFormedTitle(a[i].frame.title) && Unmarked(a[i].frame.title)
      ensures PlainTitle(a[i].frame.title) == PlainTitle(ws[i].frame.title)
    {
      RetitleWellFormed(ws[i].frame.title, false, k + 1);
    }
    if title.None? {
      RetitleWellFormed(w.frame.title, true, k + 1);
    }
  }

  // ------------------------------------------------------ closing a window

  /** The list once CloseAdditionalTranscript(t) has activated window t
    * (unless it was already active) and, when t was modified,
    * SaveTranscript's prompt has activated it again. */
  function Focused(ws: seq<TranscriptWindow>, t: nat, active: int, modified: bool, shuttingDown: bool): (r: seq<TranscriptWindow>)
    ensures |r| == |ws|
    ensures forall i :: 0 <= i < |ws| ==> r[i].uid == ws[i].uid && r[i].editor == ws[i].editor
  {
    var f := if active != t then Activated(ws, t, shuttingDown) else ws;
    if modified then Activated(f, t, shuttingDown) else f
  }

  /** When window 0 closes, window 1 moves to window 0's top-left corner. */
  function MovedUp(ws: seq<TranscriptWindow>, t: nat): seq<TranscriptWindow>
    requires 2 <= |ws|
  {
    if t == 0 then
      var d := ws[0].frame.dims;
      ws[1 := ws[1].(frame := ws[1].frame.(dims := ws[1].frame.dims.(left := d.left, top := d.top)))]
    else ws
  }

  /** The renumbering loop's result: window j gets window number j. */
  function Renumbered(ws: seq<TranscriptWindow>): seq<TranscriptWindow>
  {
    seq(|ws|, j requires 0 <= j < |ws| => ws[j].(frame := ws[j].frame.(windowNumber := j)))
  }

  /** Remove window t, re-arrange and renumber the rest. */
  function Compacted(ws: seq<TranscriptWindow>, t: nat, vizWidth: int, screenHeight: int, isMac: bool): (r: seq<TranscriptWindow>)
    requires 2 <= |ws| && t < |ws|
    ensures |r| == |ws| - 1
    ensures forall j :: 0 <= j < |r| ==> r[j].frame.windowNumber == j
  {
    Renumbered(Arranged(RemoveAt(MovedUp(ws, t), t), vizWidth, screenHeight, isMac))
  }

  /** The window list after CloseAdditionalTranscript(t): focus t, remove
    * it, and activate the window CloseFocus chooses. */
  function Closed(ws: seq<TranscriptWindow>, t: nat, active: int, modified: bool,
                  vizWidth: int, screenHeight: int, isMac: bool, shuttingDown: bool): (r: seq<TranscriptWindow>)
    requires 2 <= |ws| && t < |ws| && -1 <= active < |ws|
    ensures |r| == |ws| - 1
    ensures forall j :: 0 <= j < |r| ==> r[j].frame.windowNumber == j
  {
    var kept := Focused(ws, t, active, modified, shuttingDown);
    Activated(Compacted(kept, t, vizWidth, screenHeight, isMac), CloseFocus(active, t, |ws|), shuttingDown)
  }

  /** Compacting does not look at the closed window's document. */
  lemma CompactedIgnoresClosed(a: seq<TranscriptWindow>, b: seq<TranscriptWindow>, t: nat,
                               vizWidth: int, screenHeight: int, isMac: bool)
    requires 2 <= |a| == |b| && t < |a|
    requires forall j :: 0 <= j < |a| && j != t ==> a[j] == b[j]
    requires a[t].frame == b[t].frame
    ensures Compacted(a, t, vizWidth, screenHeight, isMac) == Compacted(b, t, vizWidth, screenHeight, isMac)
  {
    var ra, rb := RemoveAt(MovedUp(a, t), t), RemoveAt(MovedUp(b, t), t);
    assert forall j :: 0 <= j < |ra| ==> ra[j] == rb[j];
    assert ra == rb;
  }

  /** Closing window t removes exactly entry t: the others keep their
    * order, identity and document, and are numbered 0..N-2. */
  lemma ClosedRemoves(ws: seq<TranscriptWindow>, t: nat, active: int, modified: bool,
                      vizWidth: int, screenHeight: int, isMac: bool, shuttingDown: bool)
    requires 2 <= |ws| && t < |ws| && -1 <= active < |ws|
    ensures var r := Closed(ws, t, active, modified, vizWidth, screenHeight, isMac, shuttingDown);
      && |r| == |ws| - 1
      && (forall j :: 0 <= j < |r| ==> r[j].uid == ws[OldIndex(j, t)].uid && r[j].editor == ws[OldIndex(j, t)].editor)
      && (forall j :: 0 <= j < |r| ==> r[j].frame.windowNumber == j)
  {
    var f := Focused(ws, t, active, modified, shuttingDown);
    assert forall j :: 0 <= j < |ws| ==> f[j].uid == ws[j].uid && f[j].editor == ws[j].editor;
    var m := RemoveAt(MovedUp(f, t), t);
    assert forall j :: 0 <= j < |m| ==> m[j].uid == ws[OldIndex(j, t)].uid && m[j].editor == ws[OldIndex(j, t)].editor;
  }

  /** The remaining windows are tiled from where the first window was, and
    * the first shows its close box exactly when several remain. */
  lemma ClosedTiles(ws: seq<TranscriptWindow>, t: nat, active: int, modified: bool,
                    vizWidth: int, screenHeight: int, isMac: bool, shuttingDown: bool)
    requires 2 <= |ws| && t < |ws| && -1 <= active < |ws|
    ensures var r := Closed(ws, t, active, modified, vizWidth, screenHeight, isMac, shuttingDown);
      var left, top := ws[0].frame.dims.left, ws[0].frame.dims.top;
      && |r| == |ws| - 1
      && (forall j :: 0 <= j < |r| ==> r[j].frame.dims == TileRect(left, top, vizWidth, ArrangeSpace(screenHeight, top, isMac), |r|, j))
      && r[0].frame.closeBox == (|r| > 1)
  {
    var f := Focused(ws, t, active, modified, shuttingDown);
    assert forall j :: 0 <= j < |ws| ==> f[j].frame.dims == ws[j].frame.dims;
    var m := RemoveAt(MovedUp(f, t), t);
    assert m[0].frame.dims.left == ws[0].frame.dims.left && m[0].frame.dims.top == ws[0].frame.dims.top;
  }

  /** The window that had the focus keeps it, unless it was the one closed. */
  lemma ClosedKeepsFocus(ws: seq<TranscriptWindow>, t: nat, active: int, modified: bool,
                         vizWidth: int, screenHeight: int, isMac: bool, shuttingDown: bool)
    requires 2 <= |ws| && t < |ws| && 0 <= active < |ws| && active != t
    ensures var r := Closed(ws, t, active, modified, vizWidth, screenHeight, isMac, shuttingDown);
      var k := CloseFocus(active, t, |ws|);
      0 <= k < |r| && r[k].uid == ws[active].uid
  {
    ClosedRemoves(ws, t, active, modified, vizWidth, screenHeight, isMac, shuttingDown);
  }

  /** Outside shutdown, closing keeps every title well formed with its
    * text and leaves only the newly active window marked. */
  lemma ClosedTitles(ws: seq<TranscriptWindow>, t: nat, active: int, modified: bool,
                     vizWidth: int, screenHeight: int, isMac: bool)
    requires 2 <= |ws| && t < |ws| && -1 <= active < |ws| && TitlesWellFormed(ws)
    ensures var r := Closed(ws, t, active, modified, vizWidth, screenHeight, isMac, false);
      && TitlesWellFormed(r) && MarkedExactly(r, CloseFocus(active, t, |ws|))
      && forall j :: 0 <= j < |r| ==> PlainTitle(r[j].frame.title) == PlainTitle(ws[OldIndex(j, t)].frame.title)
  {
    var f := Focused(ws, t, active, modified, false);
    FocusedKeepsTitles(ws, t, active, modified);
    CompactedTitles(f, t, vizWidth, screenHeight, isMac);
    var c := Compacted(f, t, vizWidth, screenHeight, isMac);
    assert TitlesWellFormed(c);
    ActivatedMarksOnlyActive(c, CloseFocus(active, t, |ws|));
  }

  /** Focusing and re-focusing keeps the titles well formed with their text. */
  lemma FocusedKeepsTitles(ws: seq<TranscriptWindow>, t: nat, active: int, modified: bool)
    requires TitlesWellFormed(ws)
    ensures TitlesKept(Focused(ws, t, active, modified, false), ws)
  {
    ActivatedMarksOnlyActive(ws, t);
    var f0 := if active != t then Activated(ws, t, false) else ws;
    ActivatedMarksOnlyActive(f0, t);
  }

  /** Compacting moves the titles with their windows. */
  lemma CompactedTitles(f: seq<TranscriptWindow>, t: nat, vizWidth: int, screenHeight: int, isMac: bool)
    requires 2 <= |f| && t < |f|
    ensures var c := Compacted(f, t, vizWidth, screenHeight, isMac);
      && |c| == |f| - 1
      && forall j :: 0 <= j < |c| ==> c[j].frame.title == f[OldIndex(j, t)].frame.title
  {
    var m := RemoveAt(MovedUp(f, t), t);
    assert forall j :: 0 <= j < |m| ==> m[j].frame.title == f[OldIndex(j, t)].frame.title;
  }

  // ------------------------------------------------- labels and positions

  /** The window numbers, in list order. */
  function WindowNumbers(ws: seq<TranscriptWindow>): (r: seq<int>)
    ensures |r| == |ws| && forall i :: 0 <= i < |ws| ==> r[i] == ws[i].frame.windowNumber
  {
    seq(|ws|, i requires 0 <= i < |ws| => ws[i].frame.windowNumber)
  }

  /** Window i carries window number i (what closing a window restores). */
  predicate Numbered(ws: seq<TranscriptWindow>)
  {
    forall i :: 0 <= i < |ws| ==> ws[i].frame.windowNumber == i
  }

  /** UpdateSelectionTextLater called for each number of `nums` in turn. */
  function RelabelledAll(ws: seq<TranscriptWindow>, nums: seq<int>, subject: Subject, mediaLength: int): (r: seq<TranscriptWindow>)
    ensures |r| == |ws|
    ensures forall i :: 0 <= i < |ws| && i !in nums ==> r[i] == ws[i]
    decreases |nums|
  {
    if |nums| == 0 then ws
    else Relabelled(RelabelledAll(ws, nums[..|nums| - 1], subject, mediaLength), nums[|nums| - 1], subject, mediaLength)
  }

  /** Relabelling by a list of numbers labels exactly the windows at those
    * indices, each from its own selection, whatever the order and
    * repetitions of the list. */
  lemma {:induction false} RelabelledAllLabels(ws: seq<TranscriptWindow>, nums: seq<int>, subject: Subject, mediaLength: int)
    ensures var r := RelabelledAll(ws, nums, subject, mediaLength);
      && |r| == |ws|
      && (forall i :: 0 <= i < |ws| ==> r[i].uid == ws[i].uid && r[i].frame == ws[i].frame)
      && (forall i :: 0 <= i < |ws| && i !in nums ==> r[i].editor == ws[i].editor)
      && (forall i :: 0 <= i < |ws| && i in nums ==>
            r[i].editor == ws[i].editor.(selectionLabel := SelectionLabelFor(ws[i].editor, subject, mediaLength)))
    decreases |nums|
  {
    if |nums| > 0 {
      var front := nums[..|nums| - 1];
      RelabelledAllLabels(ws, front, subject, mediaLength);
      assert forall i :: i in nums <==> i in front || i == nums[|nums| - 1] by {
        assert nums == front + [nums[|nums| - 1]];
      }
    }
  }

  /** In a numbered list, relabelling by the window numbers labels every
    * window. */
  lemma NumberedRelabelsAll(ws: seq<TranscriptWindow>, subject: Subject, mediaLength: int)
    requires Numbered(ws)
    ensures var r := RelabelledAll(ws, WindowNumbers(ws), subject, mediaLength);
      && |r| == |ws|
      && forall i :: 0 <= i < |ws| ==> r[i] == Relabelled(ws, i, subject, mediaLength)[i]
  {
    var nums := WindowNumbers(ws);
    RelabelledAllLabels(ws, nums, subject, mediaLength);
    assert forall i :: 0 <= i < |ws| ==> i in nums by {
      forall i | 0 <= i < |ws| ensures i in nums {
        assert nums[i] == i;
      }
    }
  }

  /** UpdateVideoPosition's loop: every window moved to `pos` and labelled. */
  function Repositioned(ws: seq<TranscriptWindow>, pos: int, subject: Subject, mediaLength: int): (r: seq<TranscriptWindow>)
    ensures |r| == |ws|
    ensures forall i :: 0 <= i < |ws| ==> r[i] == ws[i].(editor := Positioned(ws[i].editor, pos, subject, mediaLength))
  {
    seq(|ws|, i requires 0 <= i < |ws| => ws[i].(editor := Positioned(ws[i].editor, pos, subject, mediaLength)))
  }

  /** Moving to a position and labelling is what relabelling every window
    * does, apart from the time each window shows. */
  lemma RepositionedLabelsAll(ws: seq<TranscriptWindow>, pos: int, subject: Subject, mediaLength: int)
    requires Numbered(ws)
    ensures var r := Repositioned(ws, pos, subject, mediaLength);
      var l := RelabelledAll(ws, WindowNumbers(ws), subject, mediaLength);
      && |r| == |l|
      && forall i :: 0 <= i < |r| ==> r[i] == l[i].(editor := l[i].editor.(time := pos))
  {
    NumberedRelabelsAll(ws, subject, mediaLength);
  }

  // ------------------------------------------------------ presentation mode

  /** The windows from index `from` on shown (or hidden). */
  function ShownFrom(ws: seq<TranscriptWindow>, from: nat, show: bool): (r: seq<TranscriptWindow>)
    ensures |r| == |ws|
    ensures forall i :: 0 <= i < |ws| ==> r[i] == if i >= from then ws[i].(frame := ws[i].frame.(shown := show)) else ws[i]
  {
    seq(|ws|, i requires 0 <= i < |ws| => if i >= from then ws[i].(frame := ws[i].frame.(shown := show)) else ws[i])
  }

  /** The first |dims| windows moved back to the saved rectangles. */
  function Resized(ws: seq<TranscriptWindow>, dims: seq<Rect>): (r: seq<TranscriptWindow>)
    requires |dims| <= |ws|
    ensures |r| == |ws|
    ensures forall i :: 0 <= i < |ws| ==> r[i] == if i < |dims| then ws[i].(frame := ws[i].frame.(dims := dims[i])) else ws[i]
  {
    seq(|ws|, i requires 0 <= i < |ws| => if i < |dims| then ws[i].(frame := ws[i].frame.(dims := dims[i])) else ws[i])
  }

  /** The transcript windows in a presentation layout: all hidden for
    * "video only"; for "video and transcript" the first takes the band
    * below the video (from `upper`, `lower` high) and the others are
    * hidden. */
  function PresentedWindows(ws: seq<TranscriptWindow>, mode: PresentMode, screen: Rect, upper: int, lower: int)
    : (r: seq<TranscriptWindow>)
    requires mode.PresentTranscript? ==> |ws| >= 1
    ensures |r| == |ws|
    ensures forall i :: 0 <= i < |ws| ==> r[i].uid == ws[i].uid && r[i].editor == ws[i].editor
    ensures mode.PresentAll? ==> r == ws
    ensures mode.PresentVideo? ==> forall i :: 0 <= i < |ws| ==> !r[i].frame.shown && r[i].frame.dims == ws[i].frame.dims
    ensures mode.PresentTranscript? ==> r[0].frame == ws[0].frame.(dims := Rect(screen.left + 2, upper + 1, screen.width - 4, lower - 4))
    ensures mode.PresentTranscript? ==> forall i :: 1 <= i < |ws| ==> !r[i].frame.shown && r[i].frame.dims == ws[i].frame.dims
  {
    match mode
    case PresentAll => ws
    case PresentVideo => ShownFrom(ws, 0, false)
    case PresentTranscript =>
      var h := ShownFrom(ws, 1, false);
      h[0 := h[0].(frame := h[0].frame.(dims := Rect(screen.left + 2, upper + 1, screen.width - 4, lower - 4)))]
  }

  /** The video window in a presentation layout: nearly the whole client
    * area for "video only", the band above `upper` for "video and
    * transcript". */
  function PresentedVideo(mode: PresentMode, screen: Rect, upper: int, d: Rect): (r: Rect)
    ensures mode.PresentAll? ==> r == d
    ensures !mode.PresentAll? ==> r.left == screen.left + 2 && r.top == screen.top + 2 && r.width == screen.width - 4
    ensures mode.PresentVideo? ==> r.top + r.height == screen.top + screen.height - 2
    ensures mode.PresentTranscript? ==> r.top + r.height == screen.top + upper - 1
  {
    match mode
    case PresentAll => d
    case PresentVideo => Rect(screen.left + 2, screen.top + 2, screen.width - 4, screen.height - 4)
    case PresentTranscript => Rect(screen.left + 2, screen.top + 2, screen.width - 4, upper - 3)
  }

  /** The PlayAllClips dialog, when there is one, in a presentation
    * layout: a 56-pixel strip 58 pixels above the bottom of the screen
    * (24 lower on the Mac) or of the video band. */
  function PresentedPlayAll(mode: PresentMode, screen: Rect, upper: int, isMac: bool, p: Option<Rect>): (r: Option<Rect>)
    ensures r.Some? <==> p.Some?
    ensures r.Some? && !mode.PresentAll? ==> r.value.height == 56 && r.value.left == screen.left + 2 && r.value.width == screen.width - 4
  {
    if p.None? then None
    else
      match mode
      case PresentAll => p
      case PresentVideo => Some(Rect(screen.left + 2, screen.height - 58 + (if isMac then 24 else 0), screen.width - 4, 56))
      case PresentTranscript => Some(Rect(screen.left + 2, upper - 58, screen.width - 4, 56))
  }

  /** Restoring the snapshot taken before a presentation layout gives
    * every transcript window back its place and shows it again. */
  lemma PresentationRoundTrip(ws: seq<TranscriptWindow>, mode: PresentMode, screen: Rect, upper: int, lower: int)
    requires mode.PresentTranscript? ==> |ws| >= 1
    ensures var r := ShownFrom(Resized(PresentedWindows(ws, mode, screen, upper, lower), DimsOf(ws)), 0, true);
      && |r| == |ws|
      && forall i :: 0 <= i < |ws| ==> r[i] == ws[i].(frame := ws[i].frame.(shown := true))
  {
  }
}
