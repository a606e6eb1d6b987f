/** The values the ControlObject coordinates — the loaded subject, the
  * transcript windows, the video window, the presentation-mode snapshot —
  * and the pure decision rules of ControlObjectClass.py. */
module Session {
  import opened Layout
  import opened PyStrings

  // ---------------------------------------------------------------- data

  /** One transcript of a multi-transcript clip. */
  datatype ClipTranscript = ClipTranscript(number: int, sourceTranscript: int)

  /** `currentObj`: nothing loaded, an Episode or a Clip. */
  datatype Subject =
    | NoSubject
    | Episode(id: string, seriesId: string, mediaFile: string, tapeLength: int)
    | Clip(id: string, mediaFile: string, clipStart: int, clipStop: int, transcripts: seq<ClipTranscript>)

  /** The "Selection:  start - end" label of a transcript window, kept as
    * the two times it shows. */
  datatype SelectionLabel = NoLabel | Label(start: int, end: int)

  /** A transcript window's frame: what the ControlObject changes when it
    * marks, numbers, arranges, shows or hides the window. */
  datatype Frame = Frame(title: string, windowNumber: int, dims: Rect, closeBox: bool, shown: bool)

  /** A transcript window's editor: the document and the selection. */
  datatype Editor = Editor(
    readOnly: bool,
    modified: bool,
    text: string,              // the RTF text
    transcriptId: string,      // the loaded Transcript object's id ...
    transcriptNumber: int,     // ... number ...
    clipNum: int,              // ... and clip number
    selStart: int,             // time range of the selection (get_selected_time_range)
    selEnd: int,
    hasSelection: bool,        // the character selection is not a point
    selectedRtf: string,       // the selection as RTF
    selectionLabel: SelectionLabel,
    time: int)                 // the last media position the window was moved to

  /** A transcript window; `uid` stands for the window object's identity. */
  datatype TranscriptWindow = TranscriptWindow(uid: nat, frame: Frame, editor: Editor)

  datatype PlayState = Stopped | Paused | Playing | Loading

  /** The video window as the ControlObject sees it. */
  datatype VideoWindow = VideoWindow(
    state: PlayState,
    position: int,
    mediaLength: int,
    startPoint: int,
    endPoint: int,
    dims: Rect)

  /** `WindowPositions`: menu, visualization, video, each transcript window,
    * data window, saved before a presentation-mode layout. */
  datatype Snapshot = Snapshot(menu: Rect, visualization: Rect, video: Rect, transcripts: seq<Rect>, data: Rect)

  /** The Options > Presentation Mode radio items. */
  datatype PresentMode = PresentAll | PresentVideo | PresentTranscript

  /** One entry of GetMultipleTranscriptSelectionInfo. */
  datatype SelectionInfo = SelectionInfo(transcriptNum: int, start: int, end: int, text: string)

  // -------------------------------------------------- Python list helpers

  /** `xs[i]` with Python's negative indexing. */
  function PyIndex(i: int, n: int): (j: int)
    requires -n <= i < n
    ensures 0 <= j < n
    ensures i >= 0 ==> j == i
    ensures i < 0 ==> j == n + i
  {
    if i < 0 then n + i else i
  }

  /** `del xs[t]` */
  function RemoveAt<T>(s: seq<T>, t: nat): (r: seq<T>)
    requires t < |s|
    ensures |r| == |s| - 1
    ensures forall j :: 0 <= j < |r| ==> r[j] == s[OldIndex(j, t)]
  {
    s[..t] + s[t + 1..]
  }

  /** The index before `del xs[t]` of what is at index `j` after it. */
  function OldIndex(j: int, t: int): int
  {
    if j < t then j else j + 1
  }

  // ------------------------------------------------------ title marking

  predicate StartsMarked(t: string)
  {
    |t| >= 2 && t[..2] == "**"
  }

  predicate EndsMarked(t: string)
  {
    |t| >= 2 && t[|t| - 2..] == "**"
  }

  /** The setter's test for a title that shows the active-window marker. */
  predicate Marked(t: string)
  {
    StartsMarked(t) && EndsMarked(t)
  }

  /** The setter's test for a title that shows no marker at either end. */
  predicate Unmarked(t: string)
  {
    !StartsMarked(t) && !EndsMarked(t)
  }

  /** `'** %s **' % t` */
  function Decorate(t: string): (r: string)
    ensures |r| == |t| + 6
  {
    "** " + t + " **"
  }

  /** `t[3:-3]`, which is empty for titles shorter than six characters. */
  function Undecorate(t: string): (r: string)
    ensures |r| == if |t| >= 6 then |t| - 6 else 0
  {
    if |t| >= 6 then t[3..|t| - 3] else ""
  }

  lemma UndecorateDecorate(t: string)
    ensures Undecorate(Decorate(t)) == t
    ensures Marked(Decorate(t))
  {
    var d := Decorate(t);
    assert d[3..|d| - 3] == t;
    assert d[..2] == "**";
    assert d[|d| - 2..] == "**";
  }

  /** A title is well formed when it is a plain title or a plain title with
    * the marker around it. */
  predicate WellFormedTitle(t: string)
  {
    Unmarked(t) || (|t| >= 6 && Unmarked(Undecorate(t)) && t == Decorate(Undecorate(t)))
  }

  /** The title without the marker. */
  function PlainTitle(t: string): string
  {
    if Unmarked(t) then t else Undecorate(t)
  }

  /** What `_set_activeTranscript(k)` does to the title of one window:
    * strip the marker from a window losing focus (unless shutting down),
    * add it to the window gaining focus when several windows are open. */
  function Retitle(t: string, isActive: bool, count: nat, shuttingDown: bool): (r: string)
    ensures isActive ==> r == t || (r == Decorate(t) && count > 1)
    ensures !isActive ==> r == t || (r == Undecorate(t) && !shuttingDown)
    ensures Unmarked(t) && !isActive ==> r == t
    ensures Marked(t) && isActive ==> r == t
  {
    if !isActive && Marked(t) then (if shuttingDown then t else Undecorate(t))
    else if isActive && Unmarked(t) && count > 1 then Decorate(t)
    else t
  }

  /** The title part of `_set_activeTranscript(k)`, applied to every window. */
  function Activated(ws: seq<TranscriptWindow>, k: int, shuttingDown: bool): (r: seq<TranscriptWindow>)
    ensures |r| == |ws|
    ensures forall i :: 0 <= i < |ws| ==> r[i].uid == ws[i].uid && r[i].editor == ws[i].editor
    ensures forall i :: 0 <= i < |ws| ==>
      r[i].frame == ws[i].frame.(title := Retitle(ws[i].frame.title, i == k, |ws|, shuttingDown))
  {
    seq(|ws|, i requires 0 <= i < |ws| =>
      ws[i].(frame := ws[i].frame.(title := Retitle(ws[i].frame.title, i == k, |ws|, shuttingDown))))
  }

  lemma RetitleWellFormed(t: string, isActive: bool, count: nat)
    requires WellFormedTitle(t)
    ensures WellFormedTitle(Retitle(t, isActive, count, false))
    ensures PlainTitle(Retitle(t, isActive, count, false)) == PlainTitle(t)
    ensures !isActive ==> Unmarked(Retitle(t, isActive, count, false))
    ensures isActive && count > 1 ==> Marked(Retitle(t, isActive, count, false))
  {
    UndecorateDecorate(t);
    if !Unmarked(t) {
      UndecorateDecorate(Undecorate(t));
    }
  }

  /** Outside shutdown, activating window k keeps every title well formed
    * and keeps its plain text; afterwards only window k can carry the
    * marker, and it does whenever more than one window is open. */
  lemma {:induction false} ActivatedMarksOnlyActive(ws: seq<TranscriptWindow>, k: int)
    requires forall i :: 0 <= i < |ws| ==> WellFormedTitle(ws[i].frame.title)
    ensures forall i :: 0 <= i < |ws| ==> WellFormedTitle(Activated(ws, k, false)[i].frame.title)
    ensures forall i :: 0 <= i < |ws| ==> PlainTitle(Activated(ws, k, false)[i].frame.title) == PlainTitle(ws[i].frame.title)
    ensures forall i :: 0 <= i < |ws| && i != k ==> Unmarked(Activated(ws, k, false)[i].frame.title)
    ensures 0 <= k < |ws| && |ws| > 1 ==> Marked(Activated(ws, k, false)[k].frame.title)
  {
    forall i | 0 <= i < |ws|
      ensures WellFormedTitle(Activated(ws, k, false)[i].frame.title)
      ensures PlainTitle(Activated(ws, k, false)[i].frame.title) == PlainTitle(ws[i].frame.title)
      ensures i != k ==> Unmarked(Activated(ws, k, false)[i].frame.title)
      ensures i == k && |ws| > 1 ==> Marked(Activated(ws, k, false)[i].frame.title)
    {
      RetitleWellFormed(ws[i].frame.title, i == k, |ws|);
    }
  }

  /** Activating the same window twice changes nothing the second time. */
  lemma ActivatedIdempotent(ws: seq<TranscriptWindow>, k: int)
    requires forall i :: 0 <= i < |ws| ==> WellFormedTitle(ws[i].frame.title)
    ensures Activated(Activated(ws, k, false), k, false) == Activated(ws, k, false)
  {
    var once := Activated(ws, k, false);
    ActivatedMarksOnlyActive(ws, k);
    forall i | 0 <= i < |ws|
      ensures Activated(once, k, false)[i] == once[i]
    {
      var t := once[i].frame.title;
      if i == k && |ws| > 1 {
        assert Marked(t);
      } else if i == k {
        assert Retitle(t, true, |ws|, false) == t;
      } else {
        assert Unmarked(t);
        assert !Marked(t);
      }
    }
  }

  // ------------------------------------------------ close-window focus

  /** The index CloseAdditionalTranscript(t) activates last, as written:
    * the previously active index, or 0 when the active window itself is
    * closed; t-1 when the previous index was the last one. */
  function CloseFocusAsWritten(active: int, t: int, n: int): (r: int)
    requires 2 <= n && 0 <= t < n && -1 <= active < n
    ensures active == t ==> r == 0
    ensures active != t && active == n - 1 ==> r == t - 1
    ensures active != t && active != n - 1 ==> r == active
    ensures -1 <= r < n - 1
  {
    var prev := if active != t then active else 0;
    if prev == n - 1 then t - 1 else prev
  }

  /** As written, closing a window before the active one hands the focus
    * to a different window: with four windows, window 2 active and window
    * 0 closed, index 2 is activated, which holds the old window 3; with
    * three windows, window 2 active and window 0 closed, index -1 is
    * activated, so no window carries the active-window marker. */
  lemma CloseFocusAsWrittenMovesFocus()
    ensures CloseFocusAsWritten(2, 0, 4) == 2 && OldIndex(2, 0) == 3
    ensures CloseFocusAsWritten(2, 0, 3) == -1
  {
  }

  /** The focus rule the comments describe: the window that was active
    * stays active, at its shifted index; closing the active window moves
    * the focus to the top window 0. */
  function CloseFocus(active: int, t: int, n: int): (r: int)
    requires 2 <= n && 0 <= t < n && -1 <= active < n
    ensures -1 <= r < n - 1
    ensures active == t ==> r == 0
    ensures active != t && 0 <= active ==> 0 <= r && OldIndex(r, t) == active
    ensures active == -1 ==> r == -1
  {
    if active == t then 0 else if active > t then active - 1 else active
  }

  /** With the corrected rule the window that was active before the close
    * is the one active after it. */
  lemma CloseFocusKeepsWindow<T>(s: seq<T>, active: int, t: nat)
    requires 2 <= |s| && t < |s| && 0 <= active < |s| && active != t
    ensures 0 <= CloseFocus(active, t, |s|) < |s| - 1
    ensures RemoveAt(s, t)[CloseFocus(active, t, |s|)] == s[active]
  {
  }

  // ------------------------------------------- selection normalisation

  /** SetVideoStartPoint: a negative time code becomes 0. */
  function ClampStart(timeCode: int): (r: int)
    ensures r >= 0
    ensures timeCode >= 0 ==> r == timeCode
  {
    if timeCode < 0 then 0 else timeCode
  }

  /** SetVideoSelection: an end of 0 or less means "to the end": the media
    * length for an Episode, the clip stop for a Clip, unchanged otherwise. */
  function SelectionEnd(end: int, subject: Subject, mediaLength: int): (r: int)
    ensures end > 0 ==> r == end
    ensures end <= 0 && subject.Episode? ==> r == mediaLength
    ensures end <= 0 && subject.Clip? ==> r == subject.clipStop
    ensures subject.NoSubject? ==> r == end
  {
    if end <= 0 then
      match subject
      case Episode(_, _, _, _) => mediaLength
      case Clip(_, _, _, clipStop, _) => clipStop
      case NoSubject => end
    else end
  }

  /** The default selection range of MultiSelect, UpdateSelectionTextLater
    * and GetMultipleTranscriptSelectionInfo: a start of 0 in a Clip is the
    * clip start; an end of 0 or less is the clip stop in a Clip and the
    * media length otherwise. */
  function ClipDefaultRange(start: int, end: int, subject: Subject, mediaLength: int): (r: (int, int))
    ensures start != 0 ==> r.0 == start
    ensures start == 0 ==> r.0 == (if subject.Clip? then subject.clipStart else 0)
    ensures end > 0 ==> r.1 == end
    ensures end <= 0 ==> r.1 == (if subject.Clip? then subject.clipStop else mediaLength)
  {
    var s := if start == 0 && subject.Clip? then subject.clipStart else start;
    var e := if end <= 0 then (if subject.Clip? then subject.clipStop else mediaLength) else end;
    (s, e)
  }

  /** Normalising a normalised range changes nothing. */
  lemma ClipDefaultRangeIdempotent(start: int, end: int, subject: Subject, mediaLength: int)
    ensures var r := ClipDefaultRange(start, end, subject, mediaLength);
      ClipDefaultRange(r.0, r.1, subject, mediaLength) == r
  {
  }

  /** The default range and SetVideoSelection agree on the end of an
    * Episode or Clip selection. */
  lemma ClipDefaultRangeMatchesSelectionEnd(start: int, end: int, subject: Subject, mediaLength: int)
    requires !subject.NoSubject?
    ensures ClipDefaultRange(start, end, subject, mediaLength).1 == SelectionEnd(end, subject, mediaLength)
  {
  }

  // ------------------------------------------------------------ transport

  /** Where a setback (Play with setback) may jump back to: 0 for an
    * Episode, the clip start for a Clip, the video start point otherwise. */
  function PlayBase(subject: Subject, videoStartPoint: int): (r: int)
    ensures subject.Episode? ==> r == 0
    ensures subject.Clip? ==> r == subject.clipStart
    ensures subject.NoSubject? ==> r == videoStartPoint
  {
    match subject
    case Episode(_, _, _, _) => 0
    case Clip(_, _, clipStart, _, _) => clipStart
    case NoSubject => videoStartPoint
  }

  /** Play with setback: jump back `seconds` seconds, but never before the
    * base position. */
  function SetbackPosition(position: int, base: int, seconds: int): (r: int)
    ensures r >= base
    ensures r == base || r == position - seconds * 1000
    ensures position - base > seconds * 1000 ==> r == position - seconds * 1000
  {
    if position - base > seconds * 1000 then position - seconds * 1000 else base
  }

  /** Play: an end point of -1 with a subject loaded is replaced by the
    * episode's tape length or the clip's stop time. */
  function ResolveEndPoint(endPoint: int, subject: Subject): (r: int)
    ensures endPoint != -1 || subject.NoSubject? ==> r == endPoint
    ensures endPoint == -1 && subject.Episode? ==> r == subject.tapeLength
    ensures endPoint == -1 && subject.Clip? ==> r == subject.clipStop
  {
    if endPoint == -1 then
      match subject
      case Episode(_, _, _, tapeLength) => tapeLength
      case Clip(_, _, _, clipStop, _) => clipStop
      case NoSubject => endPoint
    else endPoint
  }

  /** GetVideoEndPoint: the stored end point when positive, else the
    * media length. */
  function EffectiveEndPoint(endPoint: int, mediaLength: int): (r: int)
    ensures endPoint > 0 ==> r == endPoint
    ensures endPoint <= 0 ==> r == mediaLength
  {
    if endPoint > 0 then endPoint else mediaLength
  }

  /** GetMediaLength(entire=False): the length of the selected segment. */
  function SegmentLength(startPoint: int, endPoint: int, mediaLength: int): (r: int)
    ensures endPoint > 0 && endPoint - startPoint > 0 ==> r == endPoint - startPoint && r > 0
    ensures !(endPoint > 0 && endPoint - startPoint > 0) ==> r == mediaLength - startPoint
  {
    if endPoint <= 0 then mediaLength - startPoint
    else if endPoint - startPoint > 0 then endPoint - startPoint
    else mediaLength - startPoint
  }

  /** The segment always ends at the effective end point, unless that lies
    * at or before the start, in which case it runs to the media end. */
  lemma SegmentLengthEndsAtEndPoint(startPoint: int, endPoint: int, mediaLength: int)
    ensures var e := EffectiveEndPoint(endPoint, mediaLength);
      startPoint + SegmentLength(startPoint, endPoint, mediaLength) == (if e - startPoint > 0 then e else mediaLength)
  {
  }

  datatype TransportAction = DoPlay | DoPause | DoStop | DoNothing

  /** PlayPause (`stopWhenPlaying` false) and PlayStop (true): a playing
    * video is paused or stopped, a paused or stopped one is played, and a
    * video still loading is left alone. */
  function Toggle(state: PlayState, stopWhenPlaying: bool): (a: TransportAction)
    ensures a == DoPlay <==> state.Paused? || state.Stopped?
    ensures a == DoNothing <==> state.Loading?
    ensures state.Playing? ==> a == (if stopWhenPlaying then DoStop else DoPause)
  {
    match state
    case Playing => if stopWhenPlaying then DoStop else DoPause
    case Paused => DoPlay
    case Stopped => DoPlay
    case Loading => DoNothing
  }

  // ---------------------------------------------------------- MultiPlay

  /** The earliest start of the transcripts with selected text, or `limit`. */
  function EarliestStart(infos: seq<SelectionInfo>, limit: int): (r: int)
    ensures r <= limit
    ensures forall i :: 0 <= i < |infos| && infos[i].text != "" ==> r <= infos[i].start
    ensures r == limit || exists i :: 0 <= i < |infos| && infos[i].text != "" && r == infos[i].start
  {
    if |infos| == 0 then limit
    else
      var r := EarliestStart(infos[..|infos| - 1], limit);
      var last := infos[|infos| - 1];
      if last.text != "" && last.start < r then last.start else r
  }

  /** The latest end of the transcripts with selected text, or `floor`. */
  function LatestEnd(infos: seq<SelectionInfo>, floor: int): (r: int)
    ensures r >= floor
    ensures forall i :: 0 <= i < |infos| && infos[i].text != "" ==> r >= infos[i].end
    ensures r == floor || exists i :: 0 <= i < |infos| && infos[i].text != "" && r == infos[i].end
  {
    if |infos| == 0 then floor
    else
      var r := LatestEnd(infos[..|infos| - 1], floor);
      var last := infos[|infos| - 1];
      if last.text != "" && last.end > r then last.end else r
  }

  lemma MultiPlayExample()
    ensures var infos := [SelectionInfo(1, 5000, 9000, "a"), SelectionInfo(2, 0, 0, ""), SelectionInfo(3, 7000, 12000, "b")];
      EarliestStart(infos, 60000) == 5000 && LatestEnd(infos, 0) == 12000
  {
    var infos := [SelectionInfo(1, 5000, 9000, "a"), SelectionInfo(2, 0, 0, ""), SelectionInfo(3, 7000, 12000, "b")];
    assert infos[..2][..1] == [infos[0]];
    assert infos[..2] == [infos[0], infos[1]];
  }

  // ---------------------------------------------------- database encoding

  /** `TransanaGlobal.DBVersion`: the integer 0 until a server has reported
    * its version string. */
  datatype DbVersion = NoVersion | Version(text: string)

  /** Python's `<` on two strings: lexicographic by character code. */
  predicate StringLess(a: string, b: string)
    decreases |a|
  {
    if |a| == 0 then |b| > 0
    else if |b| == 0 then false
    else if a[0] != b[0] then a[0] < b[0]
    else StringLess(a[1..], b[1..])
  }

  /** `DBVersion >= u'4.1'` as Python 2 evaluates it: an int is below every
    * string, and strings compare lexicographically. */
  predicate SupportsUtf8(v: DbVersion)
  {
    v.Version? && !StringLess(v.text, "4.1")
  }

  /** The language-to-encoding chain shared by GetNewDatabase (fallback
    * latin1) and ChangeLanguages (fallback utf8). */
  function LanguageEncoding(language: string, chineseEncoding: string, fallback: string): (e: string)
    ensures language == "ru" ==> e == "koi8_r"
    ensures language == "zh" ==> e == chineseEncoding
    ensures language == "easteurope" ==> e == "iso8859_2"
    ensures language == "el" ==> e == "iso8859_7"
    ensures language == "ja" ==> e == "cp932"
    ensures language == "ko" ==> e == "cp949"
    ensures language !in {"ru", "zh", "easteurope", "el", "ja", "ko"} ==> e == fallback
  {
    if language == "ru" then "koi8_r"
    else if language == "zh" then chineseEncoding
    else if language == "easteurope" then "iso8859_2"
    else if language == "el" then "iso8859_7"
    else if language == "ja" then "cp932"
    else if language == "ko" then "cp949"
    else fallback
  }

  /** The encoding GetNewDatabase installs before reconnecting. */
  function NewDatabaseEncoding(v: DbVersion, language: string, chineseEncoding: string): (e: string)
    ensures SupportsUtf8(v) ==> e == "utf8"
    ensures !SupportsUtf8(v) ==> e == LanguageEncoding(language, chineseEncoding, "latin1")
  {
    if SupportsUtf8(v) then "utf8" else LanguageEncoding(language, chineseEncoding, "latin1")
  }

  /** The version test is on strings: "5.0.45" passes it, but "10.1" and
    * "4.0.27" do not. */
  lemma VersionComparisonIsTextual()
    ensures SupportsUtf8(Version("5.0.45"))
    ensures !SupportsUtf8(Version("10.1"))
    ensures !SupportsUtf8(Version("4.0.27"))
    ensures !SupportsUtf8(NoVersion)
  {
    assert StringLess("10.1", "4.1");
    assert !StringLess("5.0.45", "4.1");
    assert StringLess("4.0.27", "4.1") by {
      assert StringLess(".0.27", ".1") by {
        assert StringLess("0.27", "1");
      }
    }
  }

  // -------------------------------------------------------- logon attempts

  /** Whether GetNewDatabase's logon loop ends logged on, for attempt
    * counter `k` (1-based): attempt k connects, or fails and, when
    * another attempt remains, the user answers "try again". */
  predicate LogonSucceeds(connect: nat -> bool, retry: nat -> bool, k: nat)
    ensures LogonSucceeds(connect, retry, k) ==> exists j :: k <= j <= 3 && connect(j)
    ensures k <= 3 && connect(k) ==> LogonSucceeds(connect, retry, k)
    decreases 4 - k
  {
    k <= 3 && (connect(k) || (k < 3 && retry(k) && LogonSucceeds(connect, retry, k + 1)))
  }

  /** At most three connection attempts: the loop gives up after the
    * third failure whatever the answers. */
  lemma LogonGivesUpAfterThree(connect: nat -> bool, retry: nat -> bool)
    requires !connect(1) && !connect(2) && !connect(3)
    ensures !LogonSucceeds(connect, retry, 1)
  {
  }

  // ------------------------------------------------------- SaveTranscriptAs

  /** The `.rtf` suffix rule: append ".rtf" unless the name already ends
    * in ".rtf" in any letter case. */
  function RtfFileName(fname: string): (r: string)
    ensures EndsWith(Upper(r), ".RTF")
    ensures StartsWith(r, fname)
    ensures EndsWith(Upper(fname), ".RTF") ==> r == fname
    ensures !EndsWith(Upper(fname), ".RTF") ==> r == fname + ".rtf"
  {
    if EndsWith(Upper(fname), ".RTF") then fname
    else
      var r := fname + ".rtf";
      assert Upper(r)[|r| - 4..] == ".RTF";
      assert r[..|fname|] == fname;
      r
  }

  lemma RtfFileNameIdempotent(fname: string)
    ensures RtfFileName(RtfFileName(fname)) == RtfFileName(fname)
  {
  }

  /** The file SaveTranscriptAs writes, if any: the chosen path with the
    * suffix rule applied; an existing file is replaced only on "yes". */
  function SaveAsTarget(chosen: Option<string>, fileExists: string -> bool, replaceAnswer: bool): (r: Option<string>)
    ensures chosen.None? ==> r.None?
    ensures r.Some? ==> chosen.Some? && r.value == RtfFileName(chosen.value)
    ensures chosen.Some? && !fileExists(RtfFileName(chosen.value)) ==> r.Some?
    ensures chosen.Some? && fileExists(RtfFileName(chosen.value)) ==> (r.Some? <==> replaceAnswer)
  {
    match chosen
    case None => None
    case Some(path) =>
      var fname := RtfFileName(path);
      if fileExists(fname) && !replaceAnswer then None else Some(fname)
  }

  // ------------------------------------------------------- SaveTranscript

  /** SaveTranscript's answer: 0 (false) exactly when the transcript was
    * modified, the user was asked, and declined; 1 (true) otherwise. */
  function SaveProceeds(modified: bool, prompt: bool, answerYes: bool): (r: bool)
    ensures !r <==> modified && prompt && !answerYes
  {
    if modified then (if prompt then answerYes else true) else true
  }
}
