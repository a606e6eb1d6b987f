/** The plain-text rewrite of a transcript's RTF text behind
  * Transcript.GetTranscriptWithoutTimeCodes: time-code markers (the RTF hex
  * escape `\'a4` up to the next `>`) are cut out, then every `\tab` control
  * word is rewritten as spaces.  The loops themselves live in the
  * Transcript class (TranscriptRecord.dfy); this module holds the functions
  * they are proved against and the properties of those functions. */
module TranscriptText {
  import opened PyStrings

  /** The RTF hex escape that opens a time code. */
  const TimeCodeChar: string := "\\'a4"

  /** The RTF tab control word. */
  const TabWord: string := "\\tab"

  /** `p` occurs nowhere in `s`. */
  predicate HasNo(s: string, p: string)
  {
    forall j :: 0 <= j <= |s| ==> !OccursAt(s, p, j)
  }

  /** The text left by the time-code loop, or `None` when the loop reaches a
    * marker with no `>` after it.  There `find` returns -1 and
    * GetTranscriptWithoutTimeCodes rebuilds `text[:s] + text[0:]`, which
    * keeps the marker and never shrinks (TimeCodeStepWithoutEnd), so the
    * model stops following it. */
  function StripTimeCodes(t: string): (r: Option<string>)
    ensures r.Some? ==> HasNo(r.value, TimeCodeChar)
    ensures r.Some? ==> |r.value| <= |t| && multiset(r.value) <= multiset(t)
    decreases |t|
  {
    var s := Find(t, TimeCodeChar, 0);
    if s == -1 then Some(t)
    else
      var e := Find(t, ">", s);
      if e == -1 then None
      else
        assert t == t[..s] + t[s..e + 1] + t[e + 1..];
        StripTimeCodes(t[..s] + t[e + 1..])
  }

  /** The time-code loop ends: every marker it meets has a `>` after it. */
  predicate TimeCodesClosed(t: string)
  {
    StripTimeCodes(t).Some?
  }

  /** One pass of the time-code loop when no `>` follows the marker at `s`:
    * Python's `t[e + 1:]` with `e == -1` is the whole text. */
  function TimeCodeStepAsWritten(t: string, s: nat): (r: string)
    requires s <= |t|
    ensures |r| >= |t| && r[s..] == t
  {
    t[..s] + t
  }

  /** That pass neither shrinks the text nor removes the marker, so the
    * loop finds a marker again on its next pass. */
  lemma TimeCodeStepWithoutEnd(t: string)
    requires Find(t, TimeCodeChar, 0) != -1 && Find(t, ">", Find(t, TimeCodeChar, 0)) == -1
    ensures var s := Find(t, TimeCodeChar, 0);
            |TimeCodeStepAsWritten(t, s)| >= |t| && OccursAt(TimeCodeStepAsWritten(t, s), TimeCodeChar, 2 * s)
    ensures !TimeCodesClosed(t)
  {
    var s := Find(t, TimeCodeChar, 0);
    var n := TimeCodeStepAsWritten(t, s);
    assert n[2 * s..2 * s + 4] == t[s..s + 4];
  }

  /** A text without markers is left alone by the time-code loop. */
  lemma StripTimeCodesNoMarker(t: string)
    requires HasNo(t, TimeCodeChar)
    ensures StripTimeCodes(t) == Some(t)
  {
    assert Find(t, TimeCodeChar, 0) == -1;
  }

  /** The tab loop: the first `\tab` is replaced by four spaces and the first
    * of those is then dropped (the test at Transcript.py line 98 looks at
    * the inserted space, not at the delimiter after `\tab`), so each pass
    * turns one `\tab` into three spaces. */
  function ReplaceTabs(t: string): (r: string)
    ensures HasNo(r, TabWord)
    decreases |t|
  {
    var i := Find(t, TabWord, 0);
    if i == -1 then t
    else ReplaceTabs(t[..i] + "   " + t[i + 4..])
  }

  /** Reference definition: a single left-to-right scan that writes three
    * spaces for each `\tab` and copies every other character. */
  function Untab(t: string): (r: string)
    decreases |t|
  {
    if |t| == 0 then ""
    else if StartsWith(t, TabWord) then "   " + Untab(t[4..])
    else [t[0]] + Untab(t[1..])
  }

  /** No occurrence of `p` starts inside the first `n` characters of `s`. */
  predicate NoneBefore(s: string, p: string, n: int)
  {
    forall j :: 0 <= j < n ==> !OccursAt(s, p, j)
  }

  /** An occurrence one position into `s` is an occurrence in its tail. */
  lemma OccursInTail(s: string, p: string, j: nat)
    requires |s| > 0
    ensures OccursAt(s, p, j + 1) <==> OccursAt(s[1..], p, j)
  {
    if j + 1 + |p| <= |s| {
      assert s[j + 1..j + 1 + |p|] == s[1..][j..j + |p|];
    }
  }

  /** No occurrence in the first `n + 1` positions of `s` leaves none in the
    * first `n` positions of its tail. */
  lemma NoneBeforeTail(s: string, p: string, n: int)
    requires |s| > 0 && NoneBefore(s, p, n + 1)
    ensures NoneBefore(s[1..], p, n)
  {
    forall j | 0 <= j < n
      ensures !OccursAt(s[1..], p, j)
    {
      OccursInTail(s, p, j);
    }
  }

  /** Where no `\tab` starts at the front, Untab copies the first character. */
  lemma UntabHead(s: string)
    requires |s| > 0 && !OccursAt(s, TabWord, 0)
    ensures Untab(s) == [s[0]] + Untab(s[1..])
  {
    assert !StartsWith(s, TabWord) by {
      assert |TabWord| <= |s| ==> s[..4] == s[0..4];
    }
  }

  /** Untab copies a prefix in which no `\tab` starts. */
  lemma {:induction false} UntabPrefix(p: string, q: string)
    requires NoneBefore(p + q, TabWord, |p|)
    ensures Untab(p + q) == p + Untab(q)
    decreases |p|
  {
    if |p| > 0 {
      var s := p + q;
      UntabHead(s);
      assert s[1..] == p[1..] + q;
      NoneBeforeTail(s, TabWord, |p| - 1);
      UntabPrefix(p[1..], q);
      assert [p[0]] + p[1..] == p;
    } else {
      assert p + q == q;
    }
  }

  /** Replacing the `\tab` at `i` by three spaces creates no occurrence of a
    * pattern that contains no space and did not occur before. */
  lemma SpliceKeepsAbsent(t: string, i: nat, p: string)
    requires i + 4 <= |t| && |p| == 4 && ' ' !in p
    requires NoneBefore(t, p, i)
    ensures NoneBefore(t[..i] + "   " + t[i + 4..], p, i)
  {
    var u := t[..i] + "   " + t[i + 4..];
    forall j | 0 <= j < i && j + 4 <= i
      ensures !OccursAt(u, p, j)
    {
      assert u[j..j + 4] == t[j..j + 4];
      assert !OccursAt(t, p, j);
    }
    forall j | 0 <= j < i && i < j + 4
      ensures !OccursAt(u, p, j)
    {
      assert u[i] == ' ';
      assert p[i - j] in p;
      assert j + 4 <= |u| ==> u[j..j + 4][i - j] == ' ';
    }
  }

  /** Three leading spaces are copied by the scan. */
  lemma UntabSpaces(rest: string)
    ensures Untab("   " + rest) == "   " + Untab(rest)
  {
    forall j | 0 <= j < 3
      ensures !OccursAt("   " + rest, TabWord, j)
    {
      assert ("   " + rest)[j] == ' ';
    }
    UntabPrefix("   ", rest);
  }

  /** The scan at the first `\tab`, found at `i`. */
  lemma UntabAtFirstTab(t: string, i: nat)
    requires OccursAt(t, TabWord, i) && NoneBefore(t, TabWord, i)
    ensures Untab(t) == t[..i] + "   " + Untab(t[i + 4..])
  {
    var p, q := t[..i], t[i..];
    assert t == p + q;
    UntabPrefix(p, q);
    assert StartsWith(q, TabWord) by {
      assert q[..4] == t[i..i + 4];
    }
    assert q[4..] == t[i + 4..];
  }

  /** The scan of the text after one pass of the tab loop. */
  lemma UntabAfterPass(t: string, i: nat)
    requires OccursAt(t, TabWord, i) && NoneBefore(t, TabWord, i)
    ensures Untab(t[..i] + "   " + t[i + 4..]) == t[..i] + "   " + Untab(t[i + 4..])
  {
    var p, rest := t[..i], t[i + 4..];
    SpliceKeepsAbsent(t, i, TabWord);
    assert p + "   " + rest == p + ("   " + rest);
    UntabPrefix(p, "   " + rest);
    UntabSpaces(rest);
  }

  /** Replacing the first `\tab` by three spaces leaves the scan unchanged. */
  lemma UntabSplice(t: string, i: nat)
    requires OccursAt(t, TabWord, i) && NoneBefore(t, TabWord, i)
    ensures Untab(t[..i] + "   " + t[i + 4..]) == Untab(t)
  {
    UntabAfterPass(t, i);
    UntabAtFirstTab(t, i);
  }

  /** A text without `\tab` is its own scan. */
  lemma UntabWithoutTab(t: string)
    requires NoneBefore(t, TabWord, |t| + 1)
    ensures Untab(t) == t
  {
    assert t + "" == t;
    UntabPrefix(t, "");
  }

  /** The tab loop computes the one-pass scan. */
  lemma {:induction false} ReplaceTabsIsUntab(t: string)
    ensures ReplaceTabs(t) == Untab(t)
    decreases |t|
  {
    var i := Find(t, TabWord, 0);
    if i == -1 {
      UntabWithoutTab(t);
    } else {
      var u := t[..i] + "   " + t[i + 4..];
      assert ReplaceTabs(t) == ReplaceTabs(u);
      ReplaceTabsIsUntab(u);
      UntabSplice(t, i);
    }
  }

  /** The tab loop does not create a time-code marker. */
  lemma {:induction false} ReplaceTabsKeepsNoMarker(t: string)
    requires HasNo(t, TimeCodeChar)
    ensures HasNo(ReplaceTabs(t), TimeCodeChar)
    decreases |t|
  {
    var i := Find(t, TabWord, 0);
    if i != -1 {
      var u := t[..i] + "   " + t[i + 4..];
      SpliceKeepsAbsent(t, i, TimeCodeChar);
      forall j | i + 3 <= j && j + 4 <= |u|
        ensures !OccursAt(u, TimeCodeChar, j)
      {
        assert u[j..j + 4] == t[j + 1..j + 5];
        assert !OccursAt(t, TimeCodeChar, j + 1);
      }
      forall j | i <= j < i + 3
        ensures !OccursAt(u, TimeCodeChar, j)
      {
        assert u[j] == ' ';
        assert j + 4 <= |u| ==> u[j..j + 4][0] == ' ';
      }
      assert HasNo(u, TimeCodeChar) by {
        forall j
          ensures !OccursAt(u, TimeCodeChar, j)
        {
          if 0 <= j < i {
            assert NoneBefore(u, TimeCodeChar, i);
          }
        }
      }
      ReplaceTabsKeepsNoMarker(u);
    }
  }

  /** The first loop of GetTranscriptWithoutTimeCodes: cut from the first
    * marker through the first `>` after it until no marker is left. */
  method CutTimeCodes(text: string) returns (newText: string)
    requires TimeCodesClosed(text)
    ensures Some(newText) == StripTimeCodes(text)
  {
    newText := text;
    while true
      invariant StripTimeCodes(newText) == StripTimeCodes(text)
      decreases |newText|
    {
      var timeCodeStart := Find(newText, TimeCodeChar, 0);
      if timeCodeStart == -1 {
        break;
      }
      var timeCodeEnd := Find(newText, ">", timeCodeStart);
      newText := newText[..timeCodeStart] + newText[timeCodeEnd + 1..];
    }
  }

  /** One pass of the tab loop as written: after the four spaces are put in
    * at `i`, the character at `i` is one of them, and dropping it leaves
    * three spaces in place of the `\tab`. */
  lemma TabPass(t: string, i: nat)
    requires i + 4 <= |t|
    ensures var u := t[..i] + "    " + t[i + 4..];
            u[i] == ' ' && u[..i] + u[i + 1..] == t[..i] + "   " + t[i + 4..]
  {
    var u := t[..i] + "    " + t[i + 4..];
    assert u[..i] == t[..i];
    assert u[i + 1..] == "   " + t[i + 4..];
  }

  /** The second loop: replace the first `\tab` by four spaces, then drop
    * the character at the tab's position when it is a space. */
  method CutTabs(text: string) returns (newText: string)
    ensures newText == ReplaceTabs(text)
  {
    newText := text;
    while true
      invariant ReplaceTabs(newText) == ReplaceTabs(text)
      decreases |newText|
    {
      var tabStart := Find(newText, TabWord, 0);
      if tabStart == -1 {
        break;
      }
      TabPass(newText, tabStart);
      newText := newText[..tabStart] + "    " + newText[tabStart + 4..];
      if newText[tabStart] == ' ' {
        newText := newText[..tabStart] + newText[tabStart + 1..];
      }
    }
  }

  /** The whole rewrite: time codes cut, then tabs replaced. */
  function WithoutTimeCodes(t: string): (r: string)
    requires TimeCodesClosed(t)
    ensures HasNo(r, TimeCodeChar) && HasNo(r, TabWord)
  {
    ReplaceTabsKeepsNoMarker(StripTimeCodes(t).value);
    ReplaceTabs(StripTimeCodes(t).value)
  }

  /** The rewritten text holds neither a time-code marker nor a `\tab`, and
    * is the one-pass tab scan of the text the time-code loop leaves. */
  lemma WithoutTimeCodesClean(t: string)
    requires TimeCodesClosed(t)
    ensures HasNo(WithoutTimeCodes(t), TimeCodeChar)
    ensures HasNo(WithoutTimeCodes(t), TabWord)
    ensures WithoutTimeCodes(t) == Untab(StripTimeCodes(t).value)
  {
    ReplaceTabsKeepsNoMarker(StripTimeCodes(t).value);
    ReplaceTabsIsUntab(StripTimeCodes(t).value);
  }

  /** `find` of a one-character pattern: `k` is the first position at or
    * after `start` holding `c`. */
  lemma FindChar(t: string, c: char, start: nat, k: nat)
    requires start <= k < |t| && t[k] == c
    requires forall j :: start <= j < k ==> t[j] != c
    ensures Find(t, [c], start) == k
  {
    var r := Find(t, [c], start);
    assert t[k..k + 1] == [c];
    assert OccursAt(t, [c], k);
    assert r != -1;
    assert t[r..r + 1][0] == t[r];
  }

  /** Worked example: a time code is cut through its `>`. */
  lemma TimeCodeExample()
    ensures StripTimeCodes("a\\'a4<1000>b") == Some("ab")
  {
    var t := "a\\'a4<1000>b";
    assert t[0..4][0] == 'a';
    assert OccursAt(t, TimeCodeChar, 1);
    assert Find(t, TimeCodeChar, 0) == 1;
    FindChar(t, '>', 1, 10);
    assert t[..1] + t[11..] == "ab";
    StripTimeCodesNoMarker("ab");
  }

  /** Worked example: a `\tab` with a delimiter space becomes three spaces
    * and the delimiter is kept, four blanks in all. */
  lemma TabExampleDelimited()
    ensures Untab("x\\tab y") == "x    y"
  {
    var x := "x\\tab y";
    assert x[..4][0] == 'x';
    assert x[1..] == "\\tab y";
    assert StartsWith(x[1..], TabWord);
    assert x[1..][4..] == " y";
    assert " y"[1..] == "y" && "y"[1..] == "";
  }

  /** Worked example: a `\tab` followed by another control word becomes
    * three spaces. */
  lemma TabExampleUndelimited()
    ensures Untab("\\tab\\par") == "   \\par"
  {
    var p := "\\tab\\par";
    assert StartsWith(p, TabWord);
    assert p[4..] == "\\par";
    assert "\\par"[..4][1] == 'p';
    assert "\\par"[1..] == "par" && "par"[1..] == "ar" && "ar"[1..] == "r" && "r"[1..] == "";
  }
}
