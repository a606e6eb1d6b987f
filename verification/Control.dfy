/** The session coordinator of ControlObjectClass.py: the list of open
  * transcript windows with their transcript numbers, the active window,
  * the video selection, the presentation-mode snapshot and the loaded
  * Episode or Clip.  Other windows are records; what the user answers in
  * dialogs, what the database reports and which files exist are
  * parameters. */
module Control {
  import opened Layout
  import opened PyStrings
  import opened Session
  import opened Windows

  /** The video window after ControlObject.Play: moved back by the setback
    * when asked, never before the base position and never forward; given
    * the resolved end point when the stored one is -1 and a subject is
    * loaded; playing. */
  function AfterPlay(v: VideoWindow, subject: Subject, videoEndPoint: int, setback: bool, seconds: int): (r: VideoWindow)
    ensures r.state == Playing && r.dims == v.dims && r.mediaLength == v.mediaLength && r.startPoint == v.startPoint
    ensures !setback ==> r.position == v.position
    ensures setback ==> r.position >= PlayBase(subject, v.startPoint)
    ensures setback && seconds >= 0 && v.position >= PlayBase(subject, v.startPoint) ==> r.position <= v.position
    ensures videoEndPoint == -1 && subject.Episode? ==> r.endPoint == subject.tapeLength
    ensures videoEndPoint == -1 && subject.Clip? ==> r.endPoint == subject.clipStop
    ensures videoEndPoint != -1 || subject.NoSubject? ==> r.endPoint == v.endPoint
  {
    var position := if setback then SetbackPosition(v.position, PlayBase(subject, v.startPoint), seconds) else v.position;
    var endPoint := if videoEndPoint == -1 && !subject.NoSubject? then ResolveEndPoint(videoEndPoint, subject) else v.endPoint;
    v.(position := position, endPoint := endPoint, state := Playing)
  }

  /** GetNewDatabase's logon loop: up to three connection attempts; after
    * a failed first or second attempt the user is asked whether to try
    * again.  `connect(k)` is the outcome of attempt k, `retry(k)` the
    * answer after attempt k fails. */
  method LogonLoop(connect: nat -> bool, retry: nat -> bool) returns (loggedOn: bool, attempts: nat)
    ensures 1 <= attempts <= 3
    ensures loggedOn <==> connect(attempts)
    ensures forall k :: 1 <= k < attempts ==> !connect(k) && retry(k)
    ensures !loggedOn && attempts < 3 ==> !retry(attempts)
    ensures loggedOn == LogonSucceeds(connect, retry, 1)
  {
    var logonCount := 1;
    loggedOn := false;
    attempts := 0;
    while logonCount <= 3 && !loggedOn
      invariant 1 <= logonCount <= 4 && attempts <= 3
      invariant logonCount <= 3 ==> logonCount == attempts + 1
      invariant logonCount > 1 ==> attempts >= 1
      invariant loggedOn ==> attempts >= 1 && connect(attempts) && LogonSucceeds(connect, retry, 1)
      invariant !loggedOn && attempts >= 1 ==> !connect(attempts)
      invariant !loggedOn && 1 <= attempts < 3 && logonCount > 3 ==> !retry(attempts)
      invariant !loggedOn && 1 <= attempts && logonCount <= 3 ==> retry(attempts)
      invariant forall k :: 1 <= k < attempts ==> !connect(k) && retry(k)
      invariant !loggedOn ==> (LogonSucceeds(connect, retry, 1) <==> logonCount <= 3 && LogonSucceeds(connect, retry, logonCount))
      decreases 4 - logonCount
    {
      attempts := logonCount;
      logonCount := logonCount + 1;
      if connect(attempts) {
        loggedOn := true;
      } else if logonCount <= 3 {
        if !retry(attempts) {
          logonCount := 4;
        }
      }
    }
  }

  class ControlObject {
    var windows: seq<TranscriptWindow>       // TranscriptWindow
    var transcriptNums: seq<int>             // TranscriptNum
    var active: int                          // activeTranscript
    var editOptionsEnabled: bool             // the menu's transcript edit options
    var videoFilename: string
    var videoStartPoint: int
    var videoEndPoint: int
    var windowPositions: Option<Snapshot>    // WindowPositions ([] is None)
    var currentObj: Subject
    var shuttingDown: bool
    var video: VideoWindow
    var menuRect: Rect
    var vizRect: Rect
    var dataRect: Rect
    var menuShown: bool
    var vizShown: bool
    var dataShown: bool
    var vizPosition: int                     // the visualization's position marker
    var playAllClips: Option<Rect>           // PlayAllClipsWindow, if registered
    var autoArrange: bool                    // configData.autoArrange
    var encoding: string                     // TransanaGlobal.encoding
    var saved: seq<SavedText>                // transcripts written to the database
    var exitRequested: bool                  // MenuWindow.OnFileExit was called
    const screen: Rect                       // wx.ClientDisplayRect()
    const isMac: bool

    /** The two lists run in parallel and the active index is a window
      * index or -1 (none). */
    predicate Valid()
      reads this
    {
      |windows| == |transcriptNums| && -1 <= active
    }

    constructor (screen: Rect, isMac: bool, video: VideoWindow, menuRect: Rect, vizRect: Rect, dataRect: Rect,
                 encoding: string, autoArrange: bool)
      ensures Valid()
      ensures windows == [] && transcriptNums == [] && active == -1
      ensures videoFilename == "" && videoStartPoint == 0 && videoEndPoint == 0
      ensures windowPositions == None && currentObj == NoSubject && !shuttingDown
      ensures this.screen == screen && this.isMac == isMac && this.video == video
      ensures this.encoding == encoding && this.autoArrange == autoArrange && saved == []
    {
      this.screen := screen;
      this.isMac := isMac;
      this.video := video;
      this.menuRect := menuRect;
      this.vizRect := vizRect;
      this.dataRect := dataRect;
      this.encoding := encoding;
      this.autoArrange := autoArrange;
      windows := [];
      transcriptNums := [];
      active := -1;
      videoFilename := "";
      videoStartPoint := 0;
      videoEndPoint := 0;
      windowPositions := None;
      currentObj := NoSubject;
      shuttingDown := false;
      playAllClips := None;
      menuShown := true;
      vizShown := true;
      dataShown := true;
      vizPosition := 0;
      saved := [];
      exitRequested := false;
      editOptionsEnabled := false;
    }

    // ------------------------------------------------ the active window

    /** The `activeTranscript` setter: re-mark the titles, match the edit
      * menu to the new active window's read-only state, store k. */
    method SetActiveTranscript(k: int)
      modifies this`windows, this`editOptionsEnabled, this`active
      ensures windows == Activated(old(windows), k, shuttingDown)
      ensures editOptionsEnabled == if 0 <= k < |windows| then !windows[k].editor.readOnly else old(editOptionsEnabled)
      ensures active == k
    {
      var x := 0;
      while x < |windows|
        invariant 0 <= x <= |windows| == |old(windows)|
        invariant forall i :: 0 <= i < x ==> windows[i] == Activated(old(windows), k, shuttingDown)[i]
        invariant forall i :: x <= i < |windows| ==> windows[i] == old(windows)[i]
        invariant editOptionsEnabled == if 0 <= k < x then !old(windows)[k].editor.readOnly else old(editOptionsEnabled)
      {
        var title := windows[x].frame.title;
        var newTitle := title;
        // a window losing focus loses its marker (not while shutting down)
        if x != k && StartsMarked(title) && EndsMarked(title) {
          if !shuttingDown {
            newTitle := Undecorate(title);
          }
        }
        // the window gaining focus gets the marker when several are open
        if x == k && !StartsMarked(title) && !EndsMarked(title) && |windows| > 1 {
          newTitle := Decorate(title);
        }
        windows := windows[x := windows[x].(frame := windows[x].frame.(title := newTitle))];
        if x == k {
          editOptionsEnabled := !windows[x].editor.readOnly;
        }
        x := x + 1;
      }
      assert windows == Activated(old(windows), k, shuttingDown);
      active := k;
    }

    // ------------------------------------------- opening and closing windows

    /** Register(Transcript=w): append the window and a transcript number
      * of 0, and make the new window active. */
    method Register(w: TranscriptWindow)
      requires Valid()
      modifies this`windows, this`transcriptNums, this`editOptionsEnabled, this`active
      ensures Valid()
      ensures windows == Activated(old(windows) + [w], |old(windows)|, shuttingDown)
      ensures transcriptNums == old(transcriptNums) + [0]
      ensures active == |old(windows)| == |windows| - 1
      ensures editOptionsEnabled == !w.editor.readOnly
    {
      windows := windows + [w];
      transcriptNums := transcriptNums + [0];
      SetActiveTranscript(|windows| - 1);
    }

    /** AutoArrangeTranscriptWindows: tile the windows below the first one. */
    method AutoArrangeTranscriptWindows()
      requires |windows| >= 1
      modifies this`windows
      ensures windows == Arranged(old(windows), vizRect.width, screen.height, isMac)
    {
      var left := windows[0].frame.dims.left;
      var top := windows[0].frame.dims.top;
      var height := ArrangeSpace(screen.height, top, isMac);
      var n := |windows|;
      windows := windows[0 := windows[0].(frame := windows[0].frame.(closeBox := n > 1))];
      var cnt := 0;
      while cnt < n
        invariant 0 <= cnt <= n == |windows|
        invariant forall i :: 0 <= i < cnt ==> windows[i] == Arranged(old(windows), vizRect.width, screen.height, isMac)[i]
        invariant forall i :: cnt <= i < n ==>
          windows[i] == old(windows)[i].(frame := old(windows)[i].frame.(closeBox := if i == 0 then n > 1 else old(windows)[i].frame.closeBox))
      {
        windows := windows[cnt := windows[cnt].(frame := windows[cnt].frame.(dims := TileRect(left, top, vizRect.width, height, n, cnt)))];
        cnt := cnt + 1;
      }
    }

    /** OpenAdditionalTranscript: register a new window, title it (episode
      * transcripts only), load the transcript and record its number, place
      * it and show it at the current video position. */
    method OpenAdditionalTranscript(w: TranscriptWindow, data: TranscriptData, seriesId: string, episodeId: string,
                                    isEpisodeTranscript: bool)
      requires Valid()
      modifies this`windows, this`transcriptNums, this`editOptionsEnabled, this`active
      ensures Valid()
      ensures windows == Opened(old(windows), w, OpenTitle(isEpisodeTranscript, data.id, seriesId, episodeId, |old(windows)|),
                                data, video.position, autoArrange, vizRect.width, screen.height, isMac, shuttingDown)
      ensures transcriptNums == old(transcriptNums) + [data.number]
      ensures active == |old(windows)|
      ensures editOptionsEnabled == !w.editor.readOnly
    {
      var k := |windows|;
      var title := OpenTitle(isEpisodeTranscript, data.id, seriesId, episodeId, k);
      Register(w);
      TitleAndLoad(k, title, data);
      PlaceWindow(k);
      windows := windows[k := windows[k].(frame := windows[k].frame.(shown := true), editor := windows[k].editor.(time := video.position))];
    }

    /** Set the title (when given) of window k, load the transcript into it
      * and record its number. */
    method TitleAndLoad(k: int, title: Option<string>, data: TranscriptData)
      requires 0 <= k < |windows| == |transcriptNums|
      modifies this`windows, this`transcriptNums
      ensures windows == LoadedAt(TitledAt(old(windows), k, title), k, data)
      ensures transcriptNums == old(transcriptNums)[k := data.number]
    {
      if title.Some? {
        windows := windows[k := windows[k].(frame := windows[k].frame.(title := title.value))];
      }
      windows := windows[k := windows[k].(editor := LoadedInto(windows[k].editor, data))];
      transcriptNums := transcriptNums[k := data.number];
    }

    /** Place window k: auto-arrange all windows, or cascade window k from
      * the window before it. */
    method PlaceWindow(k: int)
      requires 0 <= k < |windows|
      modifies this`windows
      ensures windows == PlacedAt(old(windows), k, autoArrange, vizRect.width, screen.height, isMac)
    {
      if autoArrange {
        AutoArrangeTranscriptWindows();
      } else {
        var d := windows[PyIndex(k - 1, |windows|)].frame.dims;
        windows := windows[k := windows[k].(frame := windows[k].frame.(dims := Cascade(d)))];
      }
    }

    /** SaveTranscript(prompt, cleardoc, transcriptToSave): save the window
      * if it was modified, asking first when `prompt` is set (which also
      * makes it the active window); on "no" discard, clearing the document
      * if `cleardoc`.  The answer is false (0) exactly when the user
      * declined.  A failed write (SaveError) is reported and still
      * answers 1. */
    method SaveTranscript(prompt: bool, cleardoc: bool, transcriptToSave: int, answerYes: bool, saveFails: bool)
      returns (proceed: bool)
      requires Valid() && |windows| >= 1 && active < |windows| && -1 <= transcriptToSave < |windows|
      modifies this`windows, this`editOptionsEnabled, this`active, this`saved
      ensures Valid()
      ensures var target := if transcriptToSave == -1 then old(active) else transcriptToSave;
        var i := PyIndex(target, |old(windows)|);
        var e := old(windows)[i].editor;
        var asked := e.modified && prompt;
        var marked := if asked then Activated(old(windows), target, shuttingDown) else old(windows);
        && proceed == SaveProceeds(e.modified, prompt, answerYes)
        && windows == marked[i := marked[i].(editor := AfterSave(e, prompt, answerYes, cleardoc, saveFails))]
        && active == (if asked then target else old(active))
        && saved == old(saved) + Written(e, prompt, answerYes, saveFails)
        && (asked && 0 <= target < |windows| ==> editOptionsEnabled == !e.readOnly)
        && (!asked ==> editOptionsEnabled == old(editOptionsEnabled))
    {
      var target := if transcriptToSave == -1 then active else transcriptToSave;
      var i := PyIndex(target, |windows|);
      if windows[i].editor.modified {
        var yes := true;
        if prompt {
          yes := answerYes;
          SetActiveTranscript(target);
        }
        if yes {
          if !saveFails {
            saved := saved + [SavedText(windows[i].editor.transcriptNumber, windows[i].editor.text)];
            windows := windows[i := windows[i].(editor := windows[i].editor.(modified := false))];
          }
          return true;
        } else {
          if cleardoc {
            windows := windows[i := windows[i].(editor := ClearDoc(windows[i].editor))];
          }
          return false;
        }
      }
      return true;
    }

    /** CloseAdditionalTranscript(t): focus window t and save it if
      * modified (asking first), then remove it and activate the window that
      * had the focus before (the corrected focus rule CloseFocus). */
    method CloseAdditionalTranscript(t: int, answerYes: bool, saveFails: bool)
      requires Valid() && 2 <= |windows| && 0 <= t < |windows| && active < |windows|
      modifies this`windows, this`transcriptNums, this`editOptionsEnabled, this`active, this`saved
      ensures Valid()
      ensures windows == Closed(old(windows), t, old(active), old(windows)[t].editor.modified,
                                vizRect.width, screen.height, isMac, shuttingDown)
      ensures transcriptNums == RemoveAt(old(transcriptNums), t)
      ensures active == CloseFocus(old(active), t, |old(windows)|)
      ensures var e := old(windows)[t].editor;
        saved == old(saved) + Written(e, true, answerYes, saveFails)
    {
      var prev := CloseFocus(active, t, |windows|);
      FocusAndSave(t, answerYes, saveFails);
      ghost var kept := windows;
      RemoveWindow(t);
      CompactedIgnoresClosed(kept, Focused(old(windows), t, old(active), old(windows)[t].editor.modified, shuttingDown), t,
                             vizRect.width, screen.height, isMac);
      SetActiveTranscript(prev);
    }

    /** The first half of CloseAdditionalTranscript(t): activate window t
      * and save it if modified, asking first; on "no" its document is
      * cleared. */
    method FocusAndSave(t: int, answerYes: bool, saveFails: bool)
      requires Valid() && 2 <= |windows| && 0 <= t < |windows| && active < |windows|
      modifies this`windows, this`editOptionsEnabled, this`active, this`saved
      ensures Valid() && |windows| == |old(windows)| && active == t
      ensures var f := Focused(old(windows), t, old(active), old(windows)[t].editor.modified, shuttingDown);
        && (forall j :: 0 <= j < |windows| && j != t ==> windows[j] == f[j])
        && windows[t].frame == f[t].frame
      ensures var e := old(windows)[t].editor;
        saved == old(saved) + Written(e, true, answerYes, saveFails)
    {
      if active != t {
        SetActiveTranscript(t);
      }
      if windows[t].editor.modified {
        var _ := SaveTranscript(true, true, -1, answerYes, saveFails);
      }
    }

    /** The list surgery of CloseAdditionalTranscript: when window 0 closes
      * window 1 takes its place; entry t leaves both lists; the rest are
      * re-arranged and renumbered. */
    method RemoveWindow(t: int)
      requires Valid() && 2 <= |windows| && 0 <= t < |windows|
      modifies this`windows, this`transcriptNums
      ensures Valid()
      ensures windows == Compacted(old(windows), t, vizRect.width, screen.height, isMac)
      ensures transcriptNums == RemoveAt(old(transcriptNums), t)
    {
      if t == 0 {
        var d := windows[0].frame.dims;
        windows := windows[1 := windows[1].(frame := windows[1].frame.(dims := windows[1].frame.dims.(left := d.left, top := d.top)))];
      }
      windows := RemoveAt(windows, t);
      transcriptNums := RemoveAt(transcriptNums, t);
      AutoArrangeTranscriptWindows();
      RenumberWindows();
    }

    /** The renumbering loop: window j gets window number j. */
    method RenumberWindows()
      modifies this`windows
      ensures windows == Renumbered(old(windows))
    {
      var x := 0;
      while x < |windows|
        invariant 0 <= x <= |windows| == |old(windows)|
        invariant forall j :: 0 <= j < x ==> windows[j] == Renumbered(old(windows))[j]
        invariant forall j :: x <= j < |windows| ==> windows[j] == old(windows)[j]
      {
        windows := windows[x := windows[x].(frame := windows[x].frame.(windowNumber := x))];
        x := x + 1;
      }
    }

    // ------------------------------------------------- clearing the session

    /** ClearAllWindows' outcome for a reset: only the first window is
      * left, the same window with its document cleared, with transcript
      * number 0, and no media or subject is loaded. */
    predicate ClearedTo(first: TranscriptWindow)
      reads this
    {
      && |windows| == 1 && |transcriptNums| == 1 && active == 0
      && windows[0].uid == first.uid && windows[0].editor == ClearDoc(first.editor)
      && transcriptNums == [0] && videoFilename == "" && currentObj == NoSubject
    }

    /** ClearAllWindows(reset): save the active window (asking first), then
      * clear it and title it "Transcript".  A reset activates window 0
      * first, forgets the media file, saves, clears and closes every other
      * window from the last one down, re-arranges and forgets the subject.
      * `replies` gives the user's answer and the save's failure at each
      * prompt. */
    method ClearAllWindows(reset: bool, replies: Replies)
      requires Valid() && |windows| >= 1 && active < |windows|
      modifies this`windows, this`transcriptNums, this`editOptionsEnabled, this`active, this`saved
      modifies this`videoFilename, this`currentObj
      ensures Valid() && active < |windows|
      ensures reset ==> ClearedTo(old(windows)[0])
      ensures !reset ==>
        var i := PyIndex(old(active), |old(windows)|);
        && |windows| == |old(windows)| && active == old(active)
        && windows[i].uid == old(windows)[i].uid && windows[i].editor == ClearDoc(old(windows)[i].editor)
        && windows[i].frame.title == "Transcript"
        && transcriptNums == old(transcriptNums)[i := 0]
        && videoFilename == old(videoFilename) && currentObj == old(currentObj)
      ensures !reset ==> forall j :: 0 <= j < |windows| && j != PyIndex(old(active), |old(windows)|) ==>
        windows[j].uid == old(windows)[j].uid && windows[j].editor == old(windows)[j].editor
      ensures saved == old(saved) + ClearAllSaves(old(windows), old(active), reset, replies)
    {
      var i := PyIndex(active, |windows|);
      ghost var first := FirstSaved(windows, i, replies.firstYes, replies.firstFails);
      ClearActiveWindow(reset, replies.firstYes, replies.firstFails);
      if reset {
        ghost var cleared := windows;
        ResetSession(replies.closeYes, replies.closeFails);
        ClosingSavesReadsFrom(cleared, first, 1, replies.closeYes, replies.closeFails);
        assert saved == old(saved) + (Written(old(windows)[i].editor, true, replies.firstYes, replies.firstFails)
                                      + ClosingSaves(first, 1, replies.closeYes, replies.closeFails));
      }
    }

    /** The reset part of ClearAllWindows, once window 0 is active and
      * cleared: forget the media file, close every other window from the
      * last one down, re-arrange and forget the subject. */
    method ResetSession(answers: nat -> bool, fails: nat -> bool)
      requires Valid() && |windows| >= 1 && active == 0
      modifies this`windows, this`transcriptNums, this`editOptionsEnabled, this`active, this`saved
      modifies this`videoFilename, this`currentObj
      ensures Valid() && |windows| == 1 && active == 0
      ensures windows[0].uid == old(windows)[0].uid && windows[0].editor == old(windows)[0].editor
      ensures transcriptNums == old(transcriptNums)[..1]
      ensures videoFilename == "" && currentObj == NoSubject
      ensures saved == old(saved) + ClosingSaves(old(windows), 1, answers, fails)
    {
      videoFilename := "";
      CloseAllButFirst(answers, fails);
      AutoArrangeTranscriptWindows();
      currentObj := NoSubject;
    }

    /** The first part of ClearAllWindows: save the active window, on a
      * reset activate window 0, then clear the active window, title it
      * "Transcript" and give it transcript number 0. */
    method ClearActiveWindow(reset: bool, answerYes: bool, saveFails: bool)
      requires Valid() && |windows| >= 1 && active < |windows|
      modifies this`windows, this`transcriptNums, this`editOptionsEnabled, this`active, this`saved
      ensures Valid() && |windows| == |old(windows)|
      ensures active == if reset then 0 else old(active)
      ensures var i := if reset then 0 else PyIndex(old(active), |old(windows)|);
        && windows[i].editor == ClearDoc(old(windows)[i].editor) && windows[i].frame.title == "Transcript"
        && transcriptNums == old(transcriptNums)[i := 0]
      ensures forall j :: 0 <= j < |windows| ==> windows[j].uid == old(windows)[j].uid
      ensures !reset ==> forall j :: 0 <= j < |windows| && j != PyIndex(old(active), |old(windows)|) ==>
        windows[j].editor == old(windows)[j].editor
      ensures var i := PyIndex(old(active), |old(windows)|);
        && saved == old(saved) + Written(old(windows)[i].editor, true, answerYes, saveFails)
        && (reset ==> forall j :: 1 <= j < |windows| ==> windows[j].editor == FirstSaved(old(windows), i, answerYes, saveFails)[j].editor)
    {
      SaveActiveWindow(reset, answerYes, saveFails);
      var i := PyIndex(active, |windows|);
      transcriptNums := transcriptNums[i := 0];
      windows := windows[i := windows[i].(editor := ClearDoc(windows[i].editor), frame := windows[i].frame.(title := "Transcript"))];
    }

    /** The save ClearAllWindows starts with: the active window is offered
      * a save (its document is not cleared on "no"), and on a reset window 0
      * becomes the active one. */
    method SaveActiveWindow(reset: bool, answerYes: bool, saveFails: bool)
      requires Valid() && |windows| >= 1 && active < |windows|
      modifies this`windows, this`editOptionsEnabled, this`active, this`saved
      ensures Valid() && |windows| == |old(windows)|
      ensures active == if reset then 0 else old(active)
      ensures var i := PyIndex(old(active), |old(windows)|);
        && saved == old(saved) + Written(old(windows)[i].editor, true, answerYes, saveFails)
        && forall j :: 0 <= j < |windows| ==>
             windows[j].uid == old(windows)[j].uid && windows[j].editor == FirstSaved(old(windows), i, answerYes, saveFails)[j].editor
    {
      var _ := SaveTranscript(true, false, -1, answerYes, saveFails);
      if reset {
        SetActiveTranscript(0);
      }
    }

    /** ClearAllWindows' closing loop: while more than one window is open,
      * save, clear and close the last one. */
    method CloseAllButFirst(answers: nat -> bool, fails: nat -> bool)
      requires Valid() && |windows| >= 1 && active == 0
      modifies this`windows, this`transcriptNums, this`editOptionsEnabled, this`active, this`saved
      ensures Valid() && |windows| == 1 && active == 0
      ensures windows[0].uid == old(windows)[0].uid && windows[0].editor == old(windows)[0].editor
      ensures transcriptNums == old(transcriptNums)[..1]
      ensures saved == old(saved) + ClosingSaves(old(windows), 1, answers, fails)
    {
      while |windows| > 1
        invariant Valid() && 1 <= |windows| <= |old(windows)| && active == 0
        invariant windows[0].uid == old(windows)[0].uid
        invariant forall j :: 0 <= j < |windows| ==> windows[j].editor == old(windows)[j].editor
        invariant transcriptNums == old(transcriptNums)[..|windows|]
        invariant saved == old(saved) + ClosingSaves(old(windows), |windows|, answers, fails)
        decreases |windows|
      {
        var n := |windows| - 1;
        CloseLast(answers(n), fails(n));
        assert saved == old(saved) + (ClosingSaves(old(windows), n + 1, answers, fails)
                                      + Written(old(windows)[n].editor, true, answers(n), fails(n)));
      }
    }

    /** One round of ClearAllWindows' closing loop: save the last window
      * (asking first), clear it and close it. */
    method CloseLast(answerYes: bool, saveFails: bool)
      requires Valid() && 2 <= |windows| && active < |windows|
      modifies this`windows, this`transcriptNums, this`editOptionsEnabled, this`active, this`saved
      ensures Valid() && |windows| == |old(windows)| - 1 && active < |windows|
      ensures old(active) == 0 ==> active == 0
      ensures transcriptNums == old(transcriptNums)[..|windows|]
      ensures forall j :: 0 <= j < |windows| ==> windows[j].uid == old(windows)[j].uid && windows[j].editor == old(windows)[j].editor
      ensures saved == old(saved) + Written(old(windows)[|old(windows)| - 1].editor, true, answerYes, saveFails)
    {
      var last := |windows| - 1;
      SaveAndClear(last, answerYes, saveFails);
      ghost var before, activeBefore := windows, active;
      CloseAdditionalTranscript(last, answerYes, saveFails);
      ClosedRemoves(before, last, activeBefore, false, vizRect.width, screen.height, isMac, shuttingDown);
      assert transcriptNums == old(transcriptNums)[..|windows|];
    }

    /** SaveTranscript(1, transcriptToSave=k) followed by ClearDoc on
      * window k. */
    method SaveAndClear(k: int, answerYes: bool, saveFails: bool)
      requires Valid() && 0 <= k < |windows| && active < |windows|
      modifies this`windows, this`editOptionsEnabled, this`active, this`saved
      ensures Valid() && |windows| == |old(windows)| && active < |windows|
      ensures active == old(active) || active == k
      ensures forall j :: 0 <= j < |windows| && j != k ==> windows[j].uid == old(windows)[j].uid && windows[j].editor == old(windows)[j].editor
      ensures windows[k].uid == old(windows)[k].uid && windows[k].editor == ClearDoc(old(windows)[k].editor)
      ensures saved == old(saved) + Written(old(windows)[k].editor, true, answerYes, saveFails)
    {
      var _ := SaveTranscript(true, false, k, answerYes, saveFails);
      windows := windows[k := windows[k].(editor := ClearDoc(windows[k].editor))];
    }

    // ------------------------------------------------ database and language

    /** GetNewDatabase: activate window 0, clear the session, pick the
      * encoding for the new connection from the server version and the
      * language, then try to log on; when that fails the program is asked
      * to exit. */
    method GetNewDatabase(dbVersion: DbVersion, language: string, chineseEncoding: string,
                          connect: nat -> bool, retry: nat -> bool, replies: Replies)
      returns (loggedOn: bool)
      requires Valid() && |windows| >= 1 && active < |windows|
      modifies this`windows, this`transcriptNums, this`editOptionsEnabled, this`active, this`saved
      modifies this`videoFilename, this`currentObj, this`encoding, this`exitRequested
      ensures Valid() && ClearedTo(old(windows)[0])
      ensures encoding == NewDatabaseEncoding(dbVersion, language, chineseEncoding)
      ensures loggedOn == LogonSucceeds(connect, retry, 1)
      ensures exitRequested == (old(exitRequested) || !loggedOn)
      ensures saved == old(saved) + ClearAllSaves(old(windows), 0, true, replies)
    {
      SetActiveTranscript(0);
      ClearAllSavesReadsDocuments(windows, old(windows), 0, true, replies);
      ClearAllWindows(true, replies);
      encoding := NewDatabaseEncoding(dbVersion, language, chineseEncoding);
      var attempts;
      loggedOn, attempts := LogonLoop(connect, retry);
      if !loggedOn {
        exitRequested := true;
      }
    }

    /** ChangeLanguages: clear the session; when the database encoding may
      * matter (it is not UTF-8, or this is the Windows single-user
      * version) and the new language calls for a different one, get a new
      * database. */
    method ChangeLanguages(language: string, chineseEncoding: string, isWindows: bool, singleUser: bool,
                           dbVersion: DbVersion, connect: nat -> bool, retry: nat -> bool,
                           replies: Replies)
      requires Valid() && |windows| >= 1 && active < |windows|
      modifies this`windows, this`transcriptNums, this`editOptionsEnabled, this`active, this`saved
      modifies this`videoFilename, this`currentObj, this`encoding, this`exitRequested
      ensures Valid() && ClearedTo(old(windows)[0])
      ensures var change := (old(encoding) != "utf8" || (isWindows && singleUser))
                            && LanguageEncoding(language, chineseEncoding, "utf8") != old(encoding);
        && (change ==> encoding == NewDatabaseEncoding(dbVersion, language, chineseEncoding))
        && (change ==> exitRequested == (old(exitRequested) || !LogonSucceeds(connect, retry, 1)))
        && (!change ==> encoding == old(encoding) && exitRequested == old(exitRequested))
      ensures saved == old(saved) + ClearAllSaves(old(windows), old(active), true, replies)
    {
      ClearAllWindows(true, replies);
      if encoding != "utf8" || (isWindows && singleUser) {
        var newEncoding := LanguageEncoding(language, chineseEncoding, "utf8");
        if newEncoding != encoding {
          var _ := GetNewDatabase(dbVersion, language, chineseEncoding, connect, retry, replies);
        }
      }
    }

    // ----------------------------------------------------- video selection

    /** SetVideoStartPoint: a negative time code becomes 0; the video
      * window and the coordinator store the same start. */
    method SetVideoStartPoint(timeCode: int)
      modifies this`video, this`videoStartPoint
      ensures videoStartPoint == ClampStart(timeCode) && videoStartPoint >= 0
      ensures video == old(video).(startPoint := videoStartPoint)
    {
      var t := timeCode;
      if t < 0 {
        t := 0;
      }
      video := video.(startPoint := t);
      videoStartPoint := t;
    }

    /** SetVideoEndPoint: stored as given, in both places. */
    method SetVideoEndPoint(timeCode: int)
      modifies this`video, this`videoEndPoint
      ensures videoEndPoint == timeCode && video == old(video).(endPoint := timeCode)
    {
      video := video.(endPoint := timeCode);
      videoEndPoint := timeCode;
    }

    /** SetVideoSelection: an end of 0 or less means the end of the media
      * (Episode) or of the clip (Clip); store the clamped start and the
      * end, and relabel the active window. */
    method SetVideoSelection(startTimeCode: int, endTimeCode: int)
      modifies this`video, this`videoStartPoint, this`videoEndPoint, this`windows
      ensures videoStartPoint == ClampStart(startTimeCode)
      ensures videoEndPoint == SelectionEnd(endTimeCode, currentObj, old(video).mediaLength)
      ensures video == old(video).(startPoint := videoStartPoint, endPoint := videoEndPoint)
      ensures windows == Relabelled(old(windows), active, currentObj, video.mediaLength)
    {
      var e := endTimeCode;
      if e <= 0 {
        if currentObj.Episode? {
          e := video.mediaLength;
        } else if currentObj.Clip? {
          e := currentObj.clipStop;
        }
      }
      SetVideoStartPoint(startTimeCode);
      SetVideoEndPoint(e);
      UpdateSelectionTextLater(active);
    }

    /** UpdateSelectionTextLater(winNum): if window winNum still exists it
      * shows the label of its current selection. */
    method UpdateSelectionTextLater(winNum: int)
      modifies this`windows
      ensures windows == Relabelled(old(windows), winNum, currentObj, video.mediaLength)
    {
      if 0 <= winNum < |windows| {
        var e := windows[winNum].editor;
        var text := NoLabel;
        if e.hasSelection {
          var range := ClipDefaultRange(e.selStart, e.selEnd, currentObj, video.mediaLength);
          text := Label(range.0, range.1);
        }
        windows := windows[winNum := windows[winNum].(editor := e.(selectionLabel := text))];
      }
    }

    /** UpdateVideoPosition(pos): an active index past the last window is
      * reset to 0; the visualization and every window move to pos and
      * every window is relabelled. */
    method UpdateVideoPosition(pos: int)
      requires Valid() && |windows| >= 1
      modifies this`windows, this`active, this`editOptionsEnabled, this`vizPosition
      ensures Valid()
      ensures active == if old(active) >= |windows| then 0 else old(active)
      ensures vizPosition == pos
      ensures var focused := if old(active) >= |old(windows)| then Activated(old(windows), 0, shuttingDown) else old(windows);
        windows == Repositioned(focused, pos, currentObj, video.mediaLength)
    {
      if active >= |windows| {
        SetActiveTranscript(0);
      }
      vizPosition := pos;
      MoveWindowsTo(pos);
    }

    /** UpdateVideoPosition's loop over the windows: move each to pos and
      * relabel it. */
    method MoveWindowsTo(pos: int)
      modifies this`windows
      ensures windows == Repositioned(old(windows), pos, currentObj, video.mediaLength)
    {
      var winNum := 0;
      while winNum < |windows|
        invariant 0 <= winNum <= |windows| == |old(windows)|
        invariant forall i :: 0 <= i < winNum ==> windows[i] == Repositioned(old(windows), pos, currentObj, video.mediaLength)[i]
        invariant forall i :: winNum <= i < |windows| ==> windows[i] == old(windows)[i]
      {
        windows := windows[winNum := windows[winNum].(editor := windows[winNum].editor.(time := pos))];
        UpdateSelectionTextLater(winNum);
        winNum := winNum + 1;
      }
    }

    /** GetMultipleTranscriptSelectionInfo: one entry per window. */
    method GetMultipleTranscriptSelectionInfo() returns (infos: seq<SelectionInfo>)
      requires ClipTranscriptsKnown(windows, currentObj)
      ensures infos == SelectionInfos(windows, currentObj, video.mediaLength)
    {
      infos := [];
      var x := 0;
      while x < |windows|
        invariant 0 <= x <= |windows| && |infos| == x
        invariant forall i :: 0 <= i < x ==> infos[i] == SelectionInfoFor(windows, i, currentObj, video.mediaLength)
      {
        var e := windows[x].editor;
        var range := ClipDefaultRange(e.selStart, e.selEnd, currentObj, video.mediaLength);
        var text := if e.hasSelection then e.selectedRtf else "";
        var original := if e.clipNum == 0 then e.transcriptNumber else currentObj.transcripts[x].sourceTranscript;
        infos := infos + [SelectionInfo(original, range.0, range.1, text)];
        x := x + 1;
      }
    }

    /** MultiSelect(k): the time range of window k's selection with the
      * clip defaults, which the other windows are made to select; then
      * every window is relabelled by its window number. */
    method MultiSelect(k: int) returns (start: int, end: int)
      requires 0 <= k < |windows|
      modifies this`windows
      ensures (start, end) == ClipDefaultRange(old(windows)[k].editor.selStart, old(windows)[k].editor.selEnd, currentObj, video.mediaLength)
      ensures windows == RelabelledAll(old(windows), WindowNumbers(old(windows)), currentObj, video.mediaLength)
    {
      var range := ClipDefaultRange(windows[k].editor.selStart, windows[k].editor.selEnd, currentObj, video.mediaLength);
      start, end := range.0, range.1;
      var x := 0;
      while x < |windows|
        invariant 0 <= x <= |windows| == |old(windows)|
        invariant windows == RelabelledAll(old(windows), WindowNumbers(old(windows))[..x], currentObj, video.mediaLength)
      {
        assert WindowNumbers(old(windows))[..x + 1][..x] == WindowNumbers(old(windows))[..x];
        RelabelledAllLabels(old(windows), WindowNumbers(old(windows))[..x], currentObj, video.mediaLength);
        UpdateSelectionTextLater(windows[x].frame.windowNumber);
        x := x + 1;
      }
      assert WindowNumbers(old(windows))[..x] == WindowNumbers(old(windows));
    }

    // ------------------------------------------------------------ transport

    /** Play(setback): with a setback, jump back `seconds` seconds but not
      * before the base position; resolve an end point of -1; play. */
    method Play(setback: bool, seconds: int)
      modifies this`video, this`videoEndPoint
      ensures video == AfterPlay(old(video), currentObj, old(videoEndPoint), setback, seconds)
      ensures videoEndPoint == ResolveEndPoint(old(videoEndPoint), currentObj)
    {
      if setback {
        var base := PlayBase(currentObj, video.startPoint);
        var size := seconds * 1000;
        if video.position - base > size {
          video := video.(position := video.position - size);
        } else {
          video := video.(position := base);
        }
      }
      if videoEndPoint == -1 && !currentObj.NoSubject? {
        var videoEnd := if currentObj.Episode? then currentObj.tapeLength else currentObj.clipStop;
        SetVideoEndPoint(videoEnd);
      }
      video := video.(state := Playing);
    }

    /** Stop and Pause change the play state only. */
    method Stop()
      modifies this`video
      ensures video == old(video).(state := Stopped)
    {
      video := video.(state := Stopped);
    }

    method Pause()
      modifies this`video
      ensures video == old(video).(state := Paused)
    {
      video := video.(state := Paused);
    }

    /** PlayPause (stopWhenPlaying false) and PlayStop (true): pause or stop
      * a playing video, play a paused or stopped one, leave a loading one. */
    method Transport(stopWhenPlaying: bool, setback: bool, seconds: int)
      modifies this`video, this`videoEndPoint
      ensures Toggle(old(video).state, stopWhenPlaying) == DoPlay ==>
        video == AfterPlay(old(video), currentObj, old(videoEndPoint), setback, seconds)
        && videoEndPoint == ResolveEndPoint(old(videoEndPoint), currentObj)
      ensures Toggle(old(video).state, stopWhenPlaying) != DoPlay ==> videoEndPoint == old(videoEndPoint)
      ensures Toggle(old(video).state, stopWhenPlaying) == DoPause ==> video == old(video).(state := Paused)
      ensures Toggle(old(video).state, stopWhenPlaying) == DoStop ==> video == old(video).(state := Stopped)
      ensures Toggle(old(video).state, stopWhenPlaying) == DoNothing ==> video == old(video)
    {
      if video.state.Playing? {
        if stopWhenPlaying {
          Stop();
        } else {
          Pause();
        }
      } else if video.state.Paused? || video.state.Stopped? {
        Play(setback, seconds);
      }
    }

    /** GetMediaLength(entire): the whole media length, or the length of
      * the selected segment.  While computing the segment of an open-ended
      * selection it repairs an Episode whose stored length is unknown,
      * when the record can be locked. */
    method GetMediaLength(entire: bool, lockSucceeds: bool) returns (length: int)
      modifies this`currentObj
      ensures length == if entire then video.mediaLength else SegmentLength(videoStartPoint, videoEndPoint, video.mediaLength)
      ensures currentObj ==
        if !entire && videoEndPoint <= 0 && lockSucceeds && TapeLengthRepairable(old(currentObj), videoFilename, video.mediaLength)
        then old(currentObj).(tapeLength := video.mediaLength)
        else old(currentObj)
    {
      if entire {
        return video.mediaLength;
      }
      if videoEndPoint <= 0 {
        var videoLength := video.mediaLength;
        length := videoLength - videoStartPoint;
        if currentObj.Episode? && currentObj.mediaFile == videoFilename && currentObj.tapeLength <= 0 && videoLength > 0 {
          if lockSucceeds {
            currentObj := currentObj.(tapeLength := videoLength);
          }
        }
      } else if videoEndPoint - videoStartPoint > 0 {
        length := videoEndPoint - videoStartPoint;
      } else {
        length := video.mediaLength - videoStartPoint;
      }
    }

    /** MultiPlay: from the windows' selection reports, the earliest start
      * (at most the media length) and the latest end (at least 0) of the
      * windows with selected text become the video selection; then play. */
    method MultiPlay()
      requires ClipTranscriptsKnown(windows, currentObj)
      modifies this`video, this`videoStartPoint, this`videoEndPoint, this`windows
      ensures var infos := SelectionInfos(old(windows), currentObj, old(video).mediaLength);
        && videoStartPoint == ClampStart(EarliestStart(infos, old(video).mediaLength))
        && videoEndPoint == ResolveEndPoint(SelectionEnd(LatestEnd(infos, 0), currentObj, old(video).mediaLength), currentObj)
        && video.state == Playing && video.position == old(video).position
        && video.startPoint == videoStartPoint
      ensures windows == Relabelled(old(windows), active, currentObj, video.mediaLength)
    {
      var infos := GetMultipleTranscriptSelectionInfo();
      var earliest := video.mediaLength;
      var latest := 0;
      var x := 0;
      while x < |infos|
        invariant 0 <= x <= |infos|
        invariant earliest == EarliestStart(infos[..x], video.mediaLength)
        invariant latest == LatestEnd(infos[..x], 0)
      {
        assert infos[..x + 1][..x] == infos[..x];
        if infos[x].text != "" {
          if infos[x].start < earliest {
            earliest := infos[x].start;
          }
          if infos[x].end > latest {
            latest := infos[x].end;
          }
        }
        x := x + 1;
      }
      assert infos[..x] == infos;
      SetVideoSelection(earliest, latest);
      Play(false, 0);
    }

    // ------------------------------------------------------- other commands

    /** LoadVideo(filename): fails when the file does not exist; otherwise
      * remembers the file name. */
    method LoadVideo(filename: string, found: bool) returns (success: bool)
      modifies this`videoFilename
      ensures success == found
      ensures videoFilename == if found then filename else old(videoFilename)
    {
      success := true;
      if !found {
        success := false;
      } else {
        videoFilename := filename;
      }
    }

    /** SaveTranscriptAs: the file written (path and the active window's
      * text), if any; nothing in the session changes. */
    method SaveTranscriptAs(chosen: Option<string>, fileExists: string -> bool, replaceAnswer: bool)
      returns (written: Option<(string, string)>)
      requires |windows| >= 1 && -|windows| <= active < |windows|
      ensures written.None? <==> SaveAsTarget(chosen, fileExists, replaceAnswer).None?
      ensures written.Some? ==> written.value == (SaveAsTarget(chosen, fileExists, replaceAnswer).value, windows[PyIndex(active, |windows|)].editor.text)
    {
      written := None;
      if chosen.Some? {
        var fname := chosen.value;
        if !EndsWith(Upper(fname), ".RTF") {
          fname := fname + ".rtf";
        }
        if fileExists(fname) {
          if replaceAnswer {
            written := Some((fname, windows[PyIndex(active, |windows|)].editor.text));
          }
        } else {
          written := Some((fname, windows[PyIndex(active, |windows|)].editor.text));
        }
      }
    }

    // ---------------------------------------------------- presentation mode

    /** UpdatePlayState(playState): on Stop with no PlayAllClips window,
      * restore the saved layout if there is one; on Play outside
      * "present all", take the snapshot (only if none is held) and switch
      * to the presentation layout.  `autoArrangeChecked` is the menu's
      * auto-arrange item; `upper` and `lower` are the heights of the video
      * and transcript bands of the "video and transcript" layout. */
    method UpdatePlayState(playState: PlayState, mode: PresentMode, autoArrangeChecked: bool, upper: int, lower: int)
      requires playState.Stopped? && playAllClips.None? && windowPositions.Some? ==>
                 |windowPositions.value.transcripts| <= |windows|
      requires playState.Playing? && mode.PresentTranscript? ==> |windows| >= 1
      modifies this`windows, this`video, this`windowPositions, this`autoArrange
      modifies this`menuShown, this`vizShown, this`dataShown, this`playAllClips
      ensures playState.Stopped? && old(playAllClips).None? && old(windowPositions).Some? ==>
        var s := old(windowPositions).value;
        && windows == ShownFrom(Resized(old(windows), s.transcripts), 0, true)
        && video == old(video).(dims := s.video)
        && windowPositions.None? && autoArrange == autoArrangeChecked
        && menuShown && vizShown && dataShown && playAllClips == old(playAllClips)
      ensures playState.Playing? && !mode.PresentAll? ==>
        && windows == PresentedWindows(old(windows), mode, screen, upper, lower)
        && video == old(video).(dims := PresentedVideo(mode, screen, upper, old(video).dims))
        && windowPositions == Some(
             if old(windowPositions).Some? then old(windowPositions).value
             else Snapshot(menuRect, vizRect, old(video).dims, DimsOf(old(windows)), dataRect))
        && autoArrange == (old(windowPositions).Some? && old(autoArrange))
        && !menuShown && !vizShown && !dataShown
        && playAllClips == PresentedPlayAll(mode, screen, upper, isMac, old(playAllClips))
      ensures !(playState.Stopped? && old(playAllClips).None? && old(windowPositions).Some?) &&
              !(playState.Playing? && !mode.PresentAll?) ==>
        && windows == old(windows) && video == old(video) && windowPositions == old(windowPositions)
        && autoArrange == old(autoArrange) && playAllClips == old(playAllClips)
        && menuShown == old(menuShown) && vizShown == old(vizShown) && dataShown == old(dataShown)
    {
      if playState.Stopped? && playAllClips.None? {
        if windowPositions.Some? {
          RestoreLayout(autoArrangeChecked);
        }
      } else if playState.Playing? && !mode.PresentAll? {
        PresentLayout(mode, upper, lower);
      }
    }

    /** The Stop half of UpdatePlayState: the video window and each saved
      * transcript window go back to their saved places, everything is
      * shown, auto-arrange follows the menu again and the snapshot is
      * dropped. */
    method RestoreLayout(autoArrangeChecked: bool)
      requires windowPositions.Some? && |windowPositions.value.transcripts| <= |windows|
      modifies this`windows, this`video, this`windowPositions, this`autoArrange
      modifies this`menuShown, this`vizShown, this`dataShown
      ensures windows == ShownFrom(Resized(old(windows), old(windowPositions).value.transcripts), 0, true)
      ensures video == old(video).(dims := old(windowPositions).value.video)
      ensures windowPositions.None? && autoArrange == autoArrangeChecked
      ensures menuShown && vizShown && dataShown
    {
      var s := windowPositions.value;
      autoArrange := autoArrangeChecked;
      video := video.(dims := s.video);
      ResizeWindows(s.transcripts);
      menuShown := true;
      vizShown := true;
      ShowWindows(0, true);
      dataShown := true;
      windowPositions := None;
    }

    /** The Play half of UpdatePlayState outside "present all". */
    method PresentLayout(mode: PresentMode, upper: int, lower: int)
      requires !mode.PresentAll? && (mode.PresentTranscript? ==> |windows| >= 1)
      modifies this`windows, this`video, this`windowPositions, this`autoArrange
      modifies this`menuShown, this`vizShown, this`dataShown, this`playAllClips
      ensures windows == PresentedWindows(old(windows), mode, screen, upper, lower)
      ensures video == old(video).(dims := PresentedVideo(mode, screen, upper, old(video).dims))
      ensures windowPositions == Some(
        if old(windowPositions).Some? then old(windowPositions).value
        else Snapshot(menuRect, vizRect, old(video).dims, DimsOf(old(windows)), dataRect))
      ensures autoArrange == (old(windowPositions).Some? && old(autoArrange))
      ensures !menuShown && !vizShown && !dataShown
      ensures playAllClips == PresentedPlayAll(mode, screen, upper, isMac, old(playAllClips))
    {
      if windowPositions.None? {
        autoArrange := false;
        var dims := TranscriptDims();
        windowPositions := Some(Snapshot(menuRect, vizRect, video.dims, dims, dataRect));
      }
      menuShown := false;
      vizShown := false;
      dataShown := false;
      var left, top, width, height := screen.left, screen.top, screen.width, screen.height;
      if mode.PresentVideo? {
        ShowWindows(0, false);
        video := video.(dims := Rect(left + 2, top + 2, width - 4, height - 4));
        if playAllClips.Some? {
          var yPos := height - 58;
          if isMac {
            yPos := yPos + 24;
          }
          playAllClips := Some(Rect(left + 2, yPos, width - 4, 56));
        }
      }
      if mode.PresentTranscript? {
        video := video.(dims := Rect(left + 2, top + 2, width - 4, upper - 3));
        windows := windows[0 := windows[0].(frame := windows[0].frame.(dims := Rect(left + 2, upper + 1, width - 4, lower - 4)))];
        ShowWindows(1, false);
        assert windows == PresentedWindows(old(windows), mode, screen, upper, lower);
        if playAllClips.Some? {
          playAllClips := Some(Rect(left + 2, upper - 58, width - 4, 56));
        }
      }
    }

    /** Restore the first |dims| windows to the saved rectangles. */
    method ResizeWindows(dims: seq<Rect>)
      requires |dims| <= |windows|
      modifies this`windows
      ensures windows == Resized(old(windows), dims)
    {
      var winNum := 0;
      while winNum < |dims|
        invariant 0 <= winNum <= |dims| && |windows| == |old(windows)|
        invariant forall i :: 0 <= i < |windows| ==>
          windows[i] == if i < winNum then old(windows)[i].(frame := old(windows)[i].frame.(dims := dims[i])) else old(windows)[i]
      {
        windows := windows[winNum := windows[winNum].(frame := windows[winNum].frame.(dims := dims[winNum]))];
        winNum := winNum + 1;
      }
      assert windows == Resized(old(windows), dims);
    }

    /** The snapshot's transcript part: each window's dimensions in list
      * order. */
    method TranscriptDims() returns (dims: seq<Rect>)
      ensures dims == DimsOf(windows)
    {
      dims := [];
      for x := 0 to |windows|
        invariant dims == DimsOf(windows[..x])
      {
        assert windows[..x + 1] == windows[..x] + [windows[x]];
        dims := dims + [windows[x].frame.dims];
      }
      assert windows[..|windows|] == windows;
    }

    /** Show (or hide) the transcript windows from index `from` on. */
    method ShowWindows(from: nat, show: bool)
      modifies this`windows
      ensures windows == ShownFrom(old(windows), from, show)
    {
      var x := from;
      while x < |windows|
        invariant |windows| == |old(windows)|
        invariant forall i :: 0 <= i < |windows| ==>
          windows[i] == if from <= i < x then old(windows)[i].(frame := old(windows)[i].frame.(shown := show)) else old(windows)[i]
      {
        windows := windows[x := windows[x].(frame := windows[x].frame.(shown := show))];
        x := x + 1;
      }
      assert windows == ShownFrom(old(windows), from, show);
    }
  }
}
