/** The Transcript data object over an abstract Transcripts2 table: the save
  * rules of db_save (validation, duplicate keys, insert or update, number
  * assignment), the "exactly one row" loaders, the constructor's choice of
  * loader and the stale-record reload of lock_record. */
module TranscriptRecord {
  import opened PyStrings
  import opened TranscriptText

  /** The largest RTF text the database accepts, in characters. */
  const MaxTextLength: int := 8388000

  /** A row of the Transcripts2 table; `num` is the AUTO_INCREMENT key
    * TranscriptNum and `lastSaveTime` the server's timestamp. */
  datatype Row = Row(num: int, id: string, episodeNum: int, sourceTranscript: int, clipNum: int,
                     sortOrder: int, transcriber: string, clipStart: int, clipStop: int,
                     text: string, comment: string, lastSaveTime: int)

  /** The properties of a Transcript object that a save writes and a load
    * reads; `lastSaveTime` is `None` until the object has been saved or
    * loaded. */
  datatype Record = Record(number: int, id: string, episodeNum: int, sourceTranscript: int, clipNum: int,
                           sortOrder: int, transcriber: string, clipStart: int, clipStop: int,
                           text: string, comment: string, lastSaveTime: Option<int>)

  /** The columns no two transcripts may share: ID, episode, clip, sort order. */
  datatype Key = Key(id: string, episodeNum: int, clipNum: int, sortOrder: int)

  function RowKey(r: Row): Key
  {
    Key(r.id, r.episodeNum, r.clipNum, r.sortOrder)
  }

  function RecordKey(f: Record): Key
  {
    Key(f.id, f.episodeNum, f.clipNum, f.sortOrder)
  }

  /** The object after `clear()`: each property at its deleter's default. */
  function Cleared(): Record
  {
    Record(0, "", 0, 0, 0, 0, "", 0, 0, "", "", None)
  }

  /** `_load_row`: the object's properties taken from a row. */
  function FromRow(r: Row): (f: Record)
    ensures f.number == r.num && f.text == r.text && f.lastSaveTime == Some(r.lastSaveTime)
    ensures f.clipNum == r.clipNum && f.episodeNum == r.episodeNum && f.sourceTranscript == r.sourceTranscript
  {
    Record(r.num, r.id, r.episodeNum, r.sourceTranscript, r.clipNum, r.sortOrder, r.transcriber,
           r.clipStart, r.clipStop, r.text, r.comment, Some(r.lastSaveTime))
  }

  /** The row an INSERT or UPDATE writes for the object, under number `num`
    * and the server time `now`.  Loading it back gives the object with that
    * number and save time. */
  function ToRow(f: Record, num: int, now: int): (r: Row)
    ensures FromRow(r) == f.(number := num, lastSaveTime := Some(now))
    ensures RowKey(r) == RecordKey(f) && r.num == num
  {
    Row(num, f.id, f.episodeNum, f.sourceTranscript, f.clipNum, f.sortOrder, f.transcriber,
        f.clipStart, f.clipStop, f.text, f.comment, now)
  }

  /** The WHERE clauses the Transcript code issues. */
  datatype Query =
    | ByNum(num: int)                    // TranscriptNum = num
    | ByClip(clip: int)                  // ClipNum = clip
    | ByName(name: string, episode: int) // TranscriptID = name AND EpisodeNum = episode
    | ByKey(key: Key)                    // the four key columns
    | KeyClash(key: Key, num: int)       // the key columns AND TranscriptNum != num
    | EpisodeTranscripts                 // ClipNum = 0

  predicate Matches(q: Query, r: Row)
  {
    match q
    case ByNum(n) => r.num == n
    case ByClip(c) => r.clipNum == c
    case ByName(name, ep) => r.id == name && r.episodeNum == ep
    case ByKey(k) => RowKey(r) == k
    case KeyClash(k, n) => RowKey(r) == k && r.num != n
    case EpisodeTranscripts => r.clipNum == 0
  }

  /** The rows a query returns, in table order. */
  function Select(rows: seq<Row>, q: Query): (r: seq<Row>)
    ensures |r| <= |rows|
    ensures forall x :: x in r <==> x in rows && Matches(q, x)
  {
    if |rows| == 0 then []
    else Select(rows[..|rows| - 1], q) + (if Matches(q, rows[|rows| - 1]) then [rows[|rows| - 1]] else [])
  }

  /** TranscriptNum is a key: no two rows share it, and every one is below
    * the next AUTO_INCREMENT value. */
  predicate TableValid(rows: seq<Row>, nextNum: int)
  {
    nextNum > 0 &&
    (forall i :: 0 <= i < |rows| ==> 0 < rows[i].num < nextNum) &&
    (forall i, j :: 0 <= i < j < |rows| ==> rows[i].num != rows[j].num)
  }

  /** No two rows share ID, episode, clip and sort order. */
  predicate KeysUnique(rows: seq<Row>)
  {
    forall i, j :: 0 <= i < j < |rows| ==> RowKey(rows[i]) != RowKey(rows[j])
  }

  /** Selecting by number in a valid table finds at most one row, so a load
    * by number fails only when the record is absent. */
  lemma {:induction false} SelectByNumAtMostOne(rows: seq<Row>, nextNum: int, n: int)
    requires TableValid(rows, nextNum)
    ensures |Select(rows, ByNum(n))| <= 1
  {
    if |rows| > 0 {
      var init := rows[..|rows| - 1];
      assert TableValid(init, nextNum);
      SelectByNumAtMostOne(init, nextNum, n);
      if rows[|rows| - 1].num == n {
        forall x | x in init
          ensures !Matches(ByNum(n), x)
        {
          var i :| 0 <= i < |init| && init[i] == x;
        }
        SelectNone(init, ByNum(n));
      }
    }
  }

  // ---------------------------------------------------------------------
  // db_save

  datatype SaveError =
    | DemoLimit(max: int)      // demonstration copy: too many episode transcripts
    | IdRequired               // an episode transcript without an ID
    | TooLarge                 // text longer than MaxTextLength
    | DuplicateId(id: string)  // another transcript has the same key

  /** How db_save ends: normally, with SaveError, or with
    * RecordNotFoundError (carrying the row count) from the follow-up lookup. */
  datatype SaveOutcome = Saved | Refused(error: SaveError) | NotFound(count: int)

  /** The rows that would make the save a duplicate: on insert every row with
    * the key, on update those with the key and another number. */
  function ClashQuery(f: Record): Query
  {
    if f.number == 0 then ByKey(RecordKey(f)) else KeyClash(RecordKey(f), f.number)
  }

  /** No row other than the object's own has the object's key. */
  predicate NoClash(f: Record, rows: seq<Row>)
  {
    forall x :: x in rows && RowKey(x) == RecordKey(f) ==> f.number != 0 && x.num == f.number
  }

  /** The SaveError db_save raises before writing anything, if any. */
  function Refusal(f: Record, rows: seq<Row>, demo: bool, maxEpisodeTranscripts: int): (r: Option<SaveError>)
    ensures r.None? ==> (f.id != "" || f.clipNum != 0) && |f.text| <= MaxTextLength
    ensures r.None? ==> NoClash(f, rows)
    ensures r == Some(IdRequired) ==> f.id == "" && f.clipNum == 0
    ensures r == Some(TooLarge) ==> |f.text| > MaxTextLength
    ensures r.Some? && r.value.DuplicateId? ==>
              exists x :: x in rows && RowKey(x) == RecordKey(f) && (f.number == 0 || x.num != f.number)
    ensures r.Some? && r.value.DemoLimit? ==> demo && f.number == 0 && f.clipNum == 0
    ensures (f.id == "" && f.clipNum == 0) || |f.text| > MaxTextLength ==> r.Some?
  {
    if demo && f.number == 0 && f.clipNum == 0 && |Select(rows, EpisodeTranscripts)| >= maxEpisodeTranscripts then
      Some(DemoLimit(maxEpisodeTranscripts))
    else if f.id == "" && f.clipNum == 0 then Some(IdRequired)
    else if |f.text| > MaxTextLength then Some(TooLarge)
    else
      var clash := Select(rows, ClashQuery(f));
      if |clash| > 0 then
        assert clash[0] in clash;
        Some(DuplicateId(f.id))
      else None
  }

  /** UPDATE ... WHERE TranscriptNum = n: every row numbered `n` becomes `row`. */
  function UpdateRows(rows: seq<Row>, n: int, row: Row): (r: seq<Row>)
    ensures |r| == |rows|
    ensures forall i :: 0 <= i < |rows| ==> r[i] == if rows[i].num == n then row else rows[i]
  {
    if |rows| == 0 then []
    else UpdateRows(rows[..|rows| - 1], n, row) + [if rows[|rows| - 1].num == n then row else rows[|rows| - 1]]
  }

  /** The table after the INSERT (new object) or UPDATE (saved object). */
  function Written(rows: seq<Row>, f: Record, nextNum: int, now: int): (r: seq<Row>)
    ensures f.number == 0 ==> r == rows + [ToRow(f, nextNum, now)]
    ensures f.number != 0 ==> |r| == |rows| && forall i :: 0 <= i < |rows| ==>
      r[i] == if rows[i].num == f.number then ToRow(f, f.number, now) else rows[i]
  {
    if f.number == 0 then rows + [ToRow(f, nextNum, now)]
    else UpdateRows(rows, f.number, ToRow(f, f.number, now))
  }

  /** Everything a call of db_save determines. */
  datatype SaveResult = SaveResult(outcome: SaveOutcome, record: Record, rows: seq<Row>, nextNum: int)

  /** The AUTO_INCREMENT counter after the write. */
  function NextNum(f: Record, nextNum: int): int
  {
    if f.number == 0 then nextNum + 1 else nextNum
  }

  /** The number the saved row carries: a fresh one on insert. */
  function AssignedNum(f: Record, nextNum: int): int
  {
    if f.number == 0 then nextNum else f.number
  }

  /** The follow-up lookup by key, which must find exactly one row; the
    * number is taken from it only for a new object, the save time always. */
  function FollowUp(f: Record, written: seq<Row>, next: int): (r: SaveResult)
    ensures r.rows == written && r.nextNum == next
    ensures r.outcome.Saved? || r.outcome.NotFound?
    ensures r.outcome.NotFound? ==> r.record == f
    ensures r.outcome.Saved? ==>
      exists x :: x in written && Matches(ByKey(RecordKey(f)), x) &&
        r.record == f.(number := if f.number == 0 then x.num else f.number, lastSaveTime := Some(x.lastSaveTime))
  {
    var found := Select(written, ByKey(RecordKey(f)));
    if |found| == 1 then
      var number := if f.number == 0 then found[0].num else f.number;
      SaveResult(Saved, f.(number := number, lastSaveTime := Some(found[0].lastSaveTime)), written, next)
    else SaveResult(NotFound(|found|), f, written, next)
  }

  /** db_save: the checks, the write, then the follow-up lookup. */
  function Save(f: Record, rows: seq<Row>, nextNum: int, demo: bool, maxEpisodeTranscripts: int, now: int): (r: SaveResult)
    ensures r.outcome.Refused? ==> r.record == f && r.rows == rows && r.nextNum == nextNum
    ensures r.outcome.NotFound? ==> r.record == f
  {
    var refusal := Refusal(f, rows, demo, maxEpisodeTranscripts);
    if refusal.Some? then SaveResult(Refused(refusal.value), f, rows, nextNum)
    else FollowUp(f, Written(rows, f, nextNum, now), NextNum(f, nextNum))
  }

  /** A query no row of the table answers returns nothing. */
  lemma SelectNone(rows: seq<Row>, q: Query)
    requires forall x :: x in rows ==> !Matches(q, x)
    ensures Select(rows, q) == []
  {
  }

  /** After the UPDATE, the rows with the key are exactly the rows that had
    * the object's number, when no row with another number had the key. */
  lemma {:induction false} UpdatedKeyCount(rows: seq<Row>, n: int, row: Row)
    requires row.num == n
    requires forall x :: x in rows && RowKey(x) == RowKey(row) ==> x.num == n
    ensures |Select(UpdateRows(rows, n, row), ByKey(RowKey(row)))| == |Select(rows, ByNum(n))|
  {
    if |rows| > 0 {
      var init := rows[..|rows| - 1];
      UpdatedKeyCount(init, n, row);
      assert UpdateRows(rows, n, row)[..|rows| - 1] == UpdateRows(init, n, row);
    }
  }

  /** The UPDATE leaves every row's number alone. */
  lemma {:induction false} UpdatedNumCount(rows: seq<Row>, n: int, row: Row, m: int)
    requires row.num == n
    ensures |Select(UpdateRows(rows, n, row), ByNum(m))| == |Select(rows, ByNum(m))|
  {
    if |rows| > 0 {
      var init := rows[..|rows| - 1];
      UpdatedNumCount(init, n, row, m);
      assert UpdateRows(rows, n, row)[..|rows| - 1] == UpdateRows(init, n, row);
    }
  }

  /** Selecting from the table with one row appended. */
  lemma SelectAppend(rows: seq<Row>, x: Row, q: Query)
    ensures Select(rows + [x], q) == Select(rows, q) + (if Matches(q, x) then [x] else [])
  {
    assert (rows + [x])[..|rows|] == rows;
  }

  /** The rows with the object's key after the write: only the row just
    * written, once on insert and once per row that had the object's number
    * on update. */
  lemma WrittenKeyRows(f: Record, rows: seq<Row>, nextNum: int, now: int)
    requires TableValid(rows, nextNum) && NoClash(f, rows)
    ensures var found := Select(Written(rows, f, nextNum, now), ByKey(RecordKey(f)));
            (forall x :: x in found ==> x == ToRow(f, AssignedNum(f, nextNum), now)) &&
            |found| == (if f.number == 0 then 1 else |Select(rows, ByNum(f.number))|) &&
            |found| <= 1
  {
    var k := RecordKey(f);
    if f.number == 0 {
      SelectNone(rows, ByKey(k));
      SelectAppend(rows, ToRow(f, nextNum, now), ByKey(k));
    } else {
      UpdatedKeyCount(rows, f.number, ToRow(f, f.number, now));
      SelectByNumAtMostOne(rows, nextNum, f.number);
    }
  }

  /** The write keeps TranscriptNum a key. */
  lemma WrittenValid(f: Record, rows: seq<Row>, nextNum: int, now: int)
    requires TableValid(rows, nextNum)
    ensures TableValid(Written(rows, f, nextNum, now), NextNum(f, nextNum))
  {
    var w := Written(rows, f, nextNum, now);
    if f.number != 0 {
      assert forall i :: 0 <= i < |rows| ==> w[i].num == rows[i].num;
    }
  }

  /** A save that passes the checks always finds its row again when it
    * inserted, and on update exactly when the record still exists; the
    * object then carries the row's number and the server time. */
  lemma SaveFindsItsRow(f: Record, rows: seq<Row>, nextNum: int, demo: bool, maxEpisodeTranscripts: int, now: int)
    requires TableValid(rows, nextNum)
    requires Refusal(f, rows, demo, maxEpisodeTranscripts).None?
    ensures var r := Save(f, rows, nextNum, demo, maxEpisodeTranscripts, now);
            r.outcome.Saved? <==> f.number == 0 || |Select(rows, ByNum(f.number))| > 0
    ensures var r := Save(f, rows, nextNum, demo, maxEpisodeTranscripts, now);
            r.outcome.Saved? ==> r.record == f.(number := AssignedNum(f, nextNum), lastSaveTime := Some(now))
    ensures var r := Save(f, rows, nextNum, demo, maxEpisodeTranscripts, now);
            r.outcome.NotFound? ==> r.outcome.count == 0
  {
    WrittenKeyRows(f, rows, nextNum, now);
    var found := Select(Written(rows, f, nextNum, now), ByKey(RecordKey(f)));
    if |found| == 1 {
      assert found[0] in found;
    }
  }

  /** Every save, whatever its outcome, keeps TranscriptNum a key. */
  lemma SaveKeepsTableValid(f: Record, rows: seq<Row>, nextNum: int, demo: bool, maxEpisodeTranscripts: int, now: int)
    requires TableValid(rows, nextNum)
    ensures var r := Save(f, rows, nextNum, demo, maxEpisodeTranscripts, now);
            TableValid(r.rows, r.nextNum)
  {
    WrittenValid(f, rows, nextNum, now);
  }

  /** The write keeps the key columns unique when no other row has the
    * object's key. */
  lemma WrittenKeysUnique(f: Record, rows: seq<Row>, nextNum: int, now: int)
    requires TableValid(rows, nextNum) && KeysUnique(rows) && NoClash(f, rows)
    ensures KeysUnique(Written(rows, f, nextNum, now))
  {
    var w := Written(rows, f, nextNum, now);
    if f.number == 0 {
      forall i, j | 0 <= i < j < |w|
        ensures RowKey(w[i]) != RowKey(w[j])
      {
        if j == |rows| {
          assert rows[i] in rows;
        }
      }
    } else {
      forall i, j | 0 <= i < j < |w|
        ensures RowKey(w[i]) != RowKey(w[j])
      {
        assert rows[i] in rows && rows[j] in rows;
      }
    }
  }

  /** Every save keeps the key columns unique: the duplicate check runs
    * before the write. */
  lemma SaveKeepsKeysUnique(f: Record, rows: seq<Row>, nextNum: int, demo: bool, maxEpisodeTranscripts: int, now: int)
    requires TableValid(rows, nextNum) && KeysUnique(rows)
    ensures var r := Save(f, rows, nextNum, demo, maxEpisodeTranscripts, now);
            KeysUnique(r.rows)
  {
    if Refusal(f, rows, demo, maxEpisodeTranscripts).None? {
      WrittenKeysUnique(f, rows, nextNum, now);
    }
  }

  /** The rows carrying the saved number after the write: the written row,
    * once per row that had the number before (once on insert). */
  lemma WrittenNumRows(f: Record, rows: seq<Row>, nextNum: int, now: int)
    requires TableValid(rows, nextNum)
    ensures var n := AssignedNum(f, nextNum);
            var found := Select(Written(rows, f, nextNum, now), ByNum(n));
            (forall x :: x in found ==> x == ToRow(f, n, now)) &&
            |found| == (if f.number == 0 then 1 else |Select(rows, ByNum(n))|)
  {
    var n := AssignedNum(f, nextNum);
    if f.number == 0 {
      SelectNone(rows, ByNum(n));
      SelectAppend(rows, ToRow(f, n, now), ByNum(n));
    } else {
      UpdatedNumCount(rows, n, ToRow(f, n, now), n);
    }
  }

  /** Loading by number right after a successful save returns exactly the
    * saved object: db_load_by_num inverts db_save. */
  lemma SaveThenLoadByNum(f: Record, rows: seq<Row>, nextNum: int, demo: bool, maxEpisodeTranscripts: int, now: int)
    requires TableValid(rows, nextNum)
    requires Save(f, rows, nextNum, demo, maxEpisodeTranscripts, now).outcome.Saved?
    ensures var r := Save(f, rows, nextNum, demo, maxEpisodeTranscripts, now);
            var found := Select(r.rows, ByNum(r.record.number));
            |found| == 1 && FromRow(found[0]) == r.record
  {
    SaveFindsItsRow(f, rows, nextNum, demo, maxEpisodeTranscripts, now);
    WrittenNumRows(f, rows, nextNum, now);
    SelectByNumAtMostOne(rows, nextNum, f.number);
    var found := Select(Written(rows, f, nextNum, now), ByNum(AssignedNum(f, nextNum)));
    assert found[0] in found;
  }

  // ---------------------------------------------------------------------
  // lock_record

  /** The stored row has a save time other than the object's, so
    * lock_record reloads the object. */
  predicate Stale(f: Record, rows: seq<Row>)
    ensures Stale(f, rows) ==> exists x :: x in rows && x.num == f.number && Some(x.lastSaveTime) != f.lastSaveTime
  {
    var found := Select(rows, ByNum(f.number));
    assert |found| == 1 ==> found[0] in found;
    |found| == 1 && Some(found[0].lastSaveTime) != f.lastSaveTime
  }

  /** Right after its own save nobody else has written the row, so locking
    * the object does not reload it. */
  lemma SavedIsNotStale(f: Record, rows: seq<Row>, nextNum: int, demo: bool, maxEpisodeTranscripts: int, now: int)
    requires TableValid(rows, nextNum)
    requires Save(f, rows, nextNum, demo, maxEpisodeTranscripts, now).outcome.Saved?
    ensures var r := Save(f, rows, nextNum, demo, maxEpisodeTranscripts, now);
            !Stale(r.record, r.rows)
  {
    SaveThenLoadByNum(f, rows, nextNum, demo, maxEpisodeTranscripts, now);
  }

  // ---------------------------------------------------------------------
  // The constructor's choice of loader

  /** An argument of the constructor, by Python type: None, int/long,
    * str/unicode, or anything else. */
  datatype Arg = NoArg | IntArg(n: int) | StrArg(s: string) | OtherArg

  datatype Loader =
    | NoLoader
    | ClipLoader(clip: int)
    | NumLoader(num: int)
    | NameLoader(name: string, episode: int)

  /** A transcript is loaded by clip when only a clip is given, by number
    * when the first argument is an integer, by name when it is a string and
    * the episode an integer; otherwise the object stays empty. */
  function ChooseLoader(idOrNum: Arg, ep: Arg, clip: Option<int>): (l: Loader)
    ensures l.ClipLoader? <==> idOrNum.NoArg? && clip.Some?
    ensures l.NumLoader? <==> idOrNum.IntArg?
    ensures l.NameLoader? <==> idOrNum.StrArg? && ep.IntArg?
    ensures l.ClipLoader? ==> clip == Some(l.clip)
    ensures l.NumLoader? ==> idOrNum == IntArg(l.num)
    ensures l.NameLoader? ==> idOrNum == StrArg(l.name) && ep == IntArg(l.episode)
  {
    if idOrNum.NoArg? && clip.Some? then ClipLoader(clip.value)
    else if idOrNum.IntArg? then NumLoader(idOrNum.n)
    else if idOrNum.StrArg? && ep.IntArg? then NameLoader(idOrNum.s, ep.n)
    else NoLoader
  }

  // ---------------------------------------------------------------------
  // The objects

  /** The Transcripts2 table, with its AUTO_INCREMENT counter. */
  class Table {
    var rows: seq<Row>
    var nextNum: int

    predicate Valid()
      reads this
    {
      TableValid(rows, nextNum)
    }

    constructor(rows: seq<Row>, nextNum: int)
      ensures this.rows == rows && this.nextNum == nextNum
    {
      this.rows := rows;
      this.nextNum := nextNum;
    }
  }

  /** The EpisodeID and SeriesID the name query joins in from Episodes2 and
    * Series2. */
  datatype EpisodeNames = EpisodeNames(episodeId: string, seriesId: string)

  /** A Transcript data object.  Its Transcripts2 properties (number, id,
    * episode_num, ..., lastsavetime) are held together as one Record. */
  class Transcript {
    var props: Record
    /** Set to False by `_load_row`. */
    var changed: bool
    /** Only set by a load by name. */
    var seriesId: string
    var episodeId: string

    /** A new, empty object. */
    constructor Empty()
      ensures props == Cleared() && !changed && seriesId == "" && episodeId == ""
    {
      props := Cleared();
      changed, seriesId, episodeId := false, "", "";
    }

    /** `Transcript(id_or_num, ep, clip)`: an empty object, then the loader
      * the arguments select.  A RecordNotFoundError is returned as the row
      * count in `notFound`. */
    static method Create(db: Table, episodes: map<int, EpisodeNames>, idOrNum: Arg, ep: Arg, clip: Option<int>)
      returns (t: Transcript, notFound: Option<int>)
      ensures fresh(t)
      ensures ChooseLoader(idOrNum, ep, clip) == NoLoader ==> t.props == Cleared() && notFound.None?
      ensures ChooseLoader(idOrNum, ep, clip).NumLoader? ==>
                LoadedBy(Select(db.rows, ByNum(idOrNum.n)), t.props, notFound)
      ensures ChooseLoader(idOrNum, ep, clip).ClipLoader? ==>
                LoadedBy(Select(db.rows, ByClip(clip.value)), t.props, notFound)
      ensures ChooseLoader(idOrNum, ep, clip).NameLoader? ==>
                LoadedBy(NameRows(db.rows, episodes, idOrNum.s, ep.n), t.props, notFound)
    {
      t := new Transcript.Empty();
      notFound := None;
      match ChooseLoader(idOrNum, ep, clip)
      case NoLoader =>
      case ClipLoader(c) => notFound := t.LoadByClipNum(db, c);
      case NumLoader(n) => notFound := t.LoadByNum(db, n);
      case NameLoader(name, e) => notFound := t.LoadByName(db, episodes, name, e);
    }

    /** `clear()`. */
    method Clear()
      modifies this
      ensures props == Cleared()
      ensures changed == old(changed) && seriesId == old(seriesId) && episodeId == old(episodeId)
    {
      props := Cleared();
    }

    /** `_load_row`. */
    method LoadRow(r: Row)
      modifies this
      ensures props == FromRow(r) && !changed
      ensures seriesId == old(seriesId) && episodeId == old(episodeId)
    {
      props := FromRow(r);
      changed := false;
    }

    /** The exactly-one-row rule shared by the loaders: on success the
      * object is the row, otherwise it is cleared and the count is
      * reported. */
    method LoadFrom(found: seq<Row>) returns (notFound: Option<int>)
      modifies this
      ensures LoadedBy(found, props, notFound)
      ensures |found| == 1 ==> !changed
      ensures |found| != 1 ==> changed == old(changed)
      ensures seriesId == old(seriesId) && episodeId == old(episodeId)
    {
      if |found| != 1 {
        Clear();
        notFound := Some(|found|);
      } else {
        LoadRow(found[0]);
        notFound := None;
      }
    }

    /** `db_load_by_num`. */
    method LoadByNum(db: Table, num: int) returns (notFound: Option<int>)
      modifies this
      ensures LoadedBy(Select(db.rows, ByNum(num)), props, notFound)
      ensures seriesId == old(seriesId) && episodeId == old(episodeId)
    {
      notFound := LoadFrom(Select(db.rows, ByNum(num)));
    }

    /** `db_load_by_clipnum`. */
    method LoadByClipNum(db: Table, clip: int) returns (notFound: Option<int>)
      modifies this
      ensures LoadedBy(Select(db.rows, ByClip(clip)), props, notFound)
      ensures seriesId == old(seriesId) && episodeId == old(episodeId)
    {
      notFound := LoadFrom(Select(db.rows, ByClip(clip)));
    }

    /** `db_load_by_name`: the episode's and series' IDs come with the row. */
    method LoadByName(db: Table, episodes: map<int, EpisodeNames>, name: string, episode: int)
      returns (notFound: Option<int>)
      modifies this
      ensures LoadedBy(NameRows(db.rows, episodes, name, episode), props, notFound)
      ensures notFound.None? ==> episodes[episode] == EpisodeNames(episodeId, seriesId)
      ensures notFound.Some? ==> seriesId == old(seriesId) && episodeId == old(episodeId)
    {
      var found := NameRows(db.rows, episodes, name, episode);
      notFound := LoadFrom(found);
      if notFound.None? {
        episodeId, seriesId := episodes[episode].episodeId, episodes[episode].seriesId;
      }
    }

    /** The checks db_save makes before writing, in its order. */
    method CheckSave(db: Table, demo: bool, maxEpisodeTranscripts: int) returns (refusal: Option<SaveError>)
      ensures refusal == Refusal(props, db.rows, demo, maxEpisodeTranscripts)
    {
      if demo && props.number == 0 && props.clipNum == 0 && |Select(db.rows, EpisodeTranscripts)| >= maxEpisodeTranscripts {
        return Some(DemoLimit(maxEpisodeTranscripts));
      }
      if props.id == "" && props.clipNum == 0 {
        return Some(IdRequired);
      }
      if |props.text| > MaxTextLength {
        return Some(TooLarge);
      }
      if |Select(db.rows, ClashQuery(props))| > 0 {
        return Some(DuplicateId(props.id));
      }
      return None;
    }

    /** The INSERT of a new object or the UPDATE of a saved one. */
    method Write(db: Table, now: int)
      modifies db
      ensures db.rows == Written(old(db.rows), props, old(db.nextNum), now)
      ensures db.nextNum == NextNum(props, old(db.nextNum))
    {
      if props.number == 0 {
        db.rows := db.rows + [ToRow(props, db.nextNum, now)];
        db.nextNum := db.nextNum + 1;
      } else {
        db.rows := UpdateRows(db.rows, props.number, ToRow(props, props.number, now));
      }
    }

    /** `db_save`.  The table is written before the follow-up lookup, so a
      * RecordNotFoundError leaves the write in place. */
    method DbSave(db: Table, demo: bool, maxEpisodeTranscripts: int, now: int) returns (outcome: SaveOutcome)
      modifies this, db
      ensures SaveResult(outcome, props, db.rows, db.nextNum)
              == Save(old(props), old(db.rows), old(db.nextNum), demo, maxEpisodeTranscripts, now)
      ensures changed == old(changed) && seriesId == old(seriesId) && episodeId == old(episodeId)
      ensures old(db.Valid()) ==> db.Valid()
    {
      if db.Valid() {
        SaveKeepsTableValid(props, db.rows, db.nextNum, demo, maxEpisodeTranscripts, now);
      }
      var refusal := CheckSave(db, demo, maxEpisodeTranscripts);
      if refusal.Some? {
        return Refused(refusal.value);
      }
      Write(db, now);
      outcome := TakeSavedRow(db);
    }

    /** The follow-up lookup by key after the write. */
    method TakeSavedRow(db: Table) returns (outcome: SaveOutcome)
      modifies this
      ensures SaveResult(outcome, props, db.rows, db.nextNum) == FollowUp(old(props), db.rows, db.nextNum)
      ensures changed == old(changed) && seriesId == old(seriesId) && episodeId == old(episodeId)
    {
      var found := Select(db.rows, ByKey(RecordKey(props)));
      if |found| == 1 {
        if props.number == 0 {
          props := props.(number := found[0].num);
        }
        props := props.(lastSaveTime := Some(found[0].lastSaveTime));
        outcome := Saved;
      } else {
        outcome := NotFound(|found|);
      }
    }

    /** `lock_record`: in the multi-user version, reload the object when the
      * stored save time differs from the object's.  A missing row is
      * returned as the count in `notFound`. */
    method LockRecord(db: Table, singleUser: bool) returns (notFound: Option<int>)
      modifies this
      ensures singleUser ==> notFound.None? && props == old(props)
      ensures !singleUser ==> (notFound.None? <==> |Select(db.rows, ByNum(old(props.number)))| == 1)
      ensures !singleUser && notFound.None? ==>
                props == (if Stale(old(props), db.rows) then FromRow(Select(db.rows, ByNum(old(props.number)))[0]) else old(props))
      ensures !singleUser && notFound.None? ==> props.lastSaveTime == Some(Select(db.rows, ByNum(old(props.number)))[0].lastSaveTime)
      ensures notFound.Some? ==> props == old(props)
      ensures seriesId == old(seriesId) && episodeId == old(episodeId)
    {
      notFound := None;
      if !singleUser {
        var found := Select(db.rows, ByNum(props.number));
        if |found| != 1 {
          return Some(|found|);
        }
        var newLastSaveTime := found[0].lastSaveTime;
        if Some(newLastSaveTime) != props.lastSaveTime {
          notFound := LoadByNum(db, props.number);
        }
      }
    }

    /** `GetTranscriptWithoutTimeCodes`: the text with its time codes cut and
      * its tabs replaced.  It works on a copy; the object is not changed. */
    method GetTranscriptWithoutTimeCodes() returns (r: string)
      requires TimeCodesClosed(props.text)
      ensures r == WithoutTimeCodes(props.text)
    {
      var newText := CutTimeCodes(props.text);
      r := CutTabs(newText);
    }
  }

  /** The rows the name query returns: none when the episode (or its series)
    * is missing from the join. */
  function NameRows(rows: seq<Row>, episodes: map<int, EpisodeNames>, name: string, episode: int): seq<Row>
  {
    if episode in episodes then Select(rows, ByName(name, episode)) else []
  }

  /** The outcome of a loader given the rows its query found. */
  predicate LoadedBy(found: seq<Row>, state: Record, notFound: Option<int>)
  {
    if |found| == 1 then state == FromRow(found[0]) && notFound.None?
    else state == Cleared() && notFound == Some(|found|)
  }
}
