/** Python 2 string semantics the application code relies on: `find`,
  * `startswith`/`endswith`, ASCII `upper`/`lower`, `strip`, `split`/`join`
  * and `int()`.  Only what the modelled code uses is here. */
module PyStrings {

  datatype Option<T> = None | Some(value: T)

  /** `s[i:i+|p|] == p` */
  predicate OccursAt(s: string, p: string, i: int)
  {
    0 <= i && i + |p| <= |s| && s[i..i + |p|] == p
  }

  /** `s.find(p, start)` for a non-empty pattern: the first index at or after
    * `start` where `p` occurs, or -1. */
  function Find(s: string, p: string, start: nat): (r: int)
    requires |p| > 0
    ensures r == -1 || (start <= r && OccursAt(s, p, r))
    ensures r == -1 ==> forall j :: start <= j ==> !OccursAt(s, p, j)
    ensures r != -1 ==> forall j :: start <= j < r ==> !OccursAt(s, p, j)
    decreases |s| - start
  {
    if start + |p| > |s| then -1
    else if s[start..start + |p|] == p then start
    else Find(s, p, start + 1)
  }

  predicate StartsWith(s: string, p: string)
  {
    |p| <= |s| && s[..|p|] == p
  }

  predicate EndsWith(s: string, p: string)
  {
    |p| <= |s| && s[|s| - |p|..] == p
  }

  function UpperChar(c: char): char
  {
    if 'a' <= c <= 'z' then (c as int - 32) as char else c
  }

  /** `s.upper()` restricted to ASCII letters. */
  function Upper(s: string): (r: string)
    ensures |r| == |s|
    ensures forall i :: 0 <= i < |s| ==> r[i] == UpperChar(s[i])
  {
    seq(|s|, i requires 0 <= i < |s| => UpperChar(s[i]))
  }

  function LowerChar(c: char): char
  {
    if 'A' <= c <= 'Z' then (c as int + 32) as char else c
  }

  /** `s.lower()` restricted to ASCII letters. */
  function Lower(s: string): (r: string)
    ensures |r| == |s|
    ensures forall i :: 0 <= i < |s| ==> r[i] == LowerChar(s[i])
  {
    seq(|s|, i requires 0 <= i < |s| => LowerChar(s[i]))
  }

  /** The characters Python 2's `str.strip()` removes. */
  predicate IsSpace(c: char)
  {
    c == ' ' || c == '\t' || c == '\n' || c == '\r' || c == '\U{000B}' || c == '\U{000C}'
  }

  function StripLeft(s: string): (r: string)
    ensures |r| <= |s|
    ensures |r| == 0 || !IsSpace(r[0])
  {
    if |s| > 0 && IsSpace(s[0]) then StripLeft(s[1..]) else s
  }

  function StripRight(s: string): (r: string)
    ensures |r| <= |s|
    ensures |r| == 0 || !IsSpace(r[|r| - 1])
  {
    if |s| > 0 && IsSpace(s[|s| - 1]) then StripRight(s[..|s| - 1]) else s
  }

  /** `s.strip()`: the longest infix with no leading or trailing whitespace. */
  function Strip(s: string): (r: string)
    ensures |r| == 0 || (!IsSpace(r[0]) && !IsSpace(r[|r| - 1]))
    ensures |r| <= |s|
    ensures |s| > 0 && !IsSpace(s[0]) && !IsSpace(s[|s| - 1]) ==> r == s
  {
    var left := StripLeft(s);
    StripRightPrefix(left);
    var r := StripRight(left);
    assert |r| > 0 ==> r[0] == left[0];
    assert |s| > 0 && !IsSpace(s[0]) ==> left == s;
    r
  }

  predicate AllSpace(s: string)
  {
    forall i :: 0 <= i < |s| ==> IsSpace(s[i])
  }

  /** The whitespace StripLeft cuts from the front of `s`. */
  lemma {:induction false} StripLeftSplit(s: string) returns (gap: string)
    ensures s == gap + StripLeft(s) && AllSpace(gap)
    decreases |s|
  {
    if |s| > 0 && IsSpace(s[0]) {
      var g := StripLeftSplit(s[1..]);
      gap := [s[0]] + g;
      assert s == [s[0]] + s[1..];
    } else {
      gap := "";
    }
  }

  /** The whitespace StripRight cuts from the end of `s`. */
  lemma {:induction false} StripRightSplit(s: string) returns (post: string)
    ensures s == StripRight(s) + post && AllSpace(post)
    decreases |s|
  {
    if |s| > 0 && IsSpace(s[|s| - 1]) {
      var p := StripRightSplit(s[..|s| - 1]);
      post := p + [s[|s| - 1]];
      assert s == s[..|s| - 1] + [s[|s| - 1]];
    } else {
      post := "";
    }
  }

  lemma StripRightPrefix(s: string)
    ensures |StripRight(s)| > 0 ==> StripRight(s)[0] == s[0]
  {
    var post := StripRightSplit(s);
  }

  /** `s.strip()` is `s` with only whitespace cut from its two ends. */
  lemma StripTrimsEnds(s: string)
    ensures exists pre, post :: s == pre + Strip(s) + post && AllSpace(pre) && AllSpace(post)
  {
    var pre, post := StripSplit(s);
  }

  /** The whitespace `s.strip()` cuts from the two ends of `s`. */
  lemma StripSplit(s: string) returns (pre: string, post: string)
    ensures s == pre + Strip(s) + post && AllSpace(pre) && AllSpace(post)
  {
    pre := StripLeftSplit(s);
    post := StripRightSplit(StripLeft(s));
  }

  /** `strip()` of a string between whitespace-only ends that itself
    * neither starts nor ends with whitespace is that string. */
  lemma StripSurrounded(pre: string, m: string, post: string)
    requires AllSpace(pre) && AllSpace(post) && |m| > 0 && !IsSpace(m[0]) && !IsSpace(m[|m| - 1])
    ensures Strip(pre + m + post) == m
  {
    assert pre + m + post == pre + (m + post);
    StripLeftSpaces(pre, m + post);
    StripRightSpaces(m, post);
  }

  /** Whitespace in front of a string that does not start with whitespace
    * is what StripLeft removes. */
  lemma {:induction false} StripLeftSpaces(pre: string, x: string)
    requires AllSpace(pre) && (|x| == 0 || !IsSpace(x[0]))
    ensures StripLeft(pre + x) == x
    decreases |pre|
  {
    if |pre| > 0 {
      assert (pre + x)[1..] == pre[1..] + x;
      StripLeftSpaces(pre[1..], x);
    } else {
      assert pre + x == x;
    }
  }

  /** Whitespace after a string that does not end in whitespace is what
    * StripRight removes. */
  lemma {:induction false} StripRightSpaces(x: string, post: string)
    requires AllSpace(post) && (|x| == 0 || !IsSpace(x[|x| - 1]))
    ensures StripRight(x + post) == x
    decreases |post|
  {
    if |post| > 0 {
      assert (x + post)[..|x + post| - 1] == x + post[..|post| - 1];
      StripRightSpaces(x, post[..|post| - 1]);
    } else {
      assert x + post == x;
    }
  }

  /** `sep.join(parts)` */
  function Join(parts: seq<string>, sep: char): string
  {
    if |parts| == 0 then ""
    else if |parts| == 1 then parts[0]
    else parts[0] + [sep] + Join(parts[1..], sep)
  }

  /** `s.split(sep)` for a one-character separator: the fields between the
    * separators, so there is always at least one field. */
  function Split(s: string, sep: char): (r: seq<string>)
    ensures |r| >= 1
    ensures forall i :: 0 <= i < |r| ==> sep !in r[i]
    decreases |s|
  {
    if sep !in s then [s]
    else
      var k := FirstIndex(s, sep);
      [s[..k]] + Split(s[k + 1..], sep)
  }

  /** `sep.join(s.split(sep)) == s` */
  lemma {:induction false} JoinSplit(s: string, sep: char)
    ensures Join(Split(s, sep), sep) == s
    decreases |s|
  {
    if sep in s {
      var k := FirstIndex(s, sep);
      var rest := Split(s[k + 1..], sep);
      JoinSplit(s[k + 1..], sep);
      assert Split(s, sep) == [s[..k]] + rest;
      assert s == s[..k] + [sep] + s[k + 1..];
    }
  }

  /** `sep.join(parts).split(sep) == parts` when no part holds `sep`. */
  lemma {:induction false} SplitJoin(parts: seq<string>, sep: char)
    requires |parts| >= 1
    requires forall i :: 0 <= i < |parts| ==> sep !in parts[i]
    ensures Split(Join(parts, sep), sep) == parts
    decreases |parts|
  {
    if |parts| > 1 {
      var s := Join(parts, sep);
      var p := parts[0];
      assert s == p + [sep] + Join(parts[1..], sep);
      assert s[|p|] == sep;
      assert s[..|p|] == p;
      var k := FirstIndex(s, sep);
      assert k == |p|;
      assert s[k + 1..] == Join(parts[1..], sep);
      SplitJoin(parts[1..], sep);
      assert [p] + parts[1..] == parts;
    }
  }

  /** The index of the first occurrence of `c` in `s`. */
  function FirstIndex(s: string, c: char): (k: nat)
    requires c in s
    ensures k < |s| && s[k] == c && c !in s[..k]
  {
    if s[0] == c then 0 else FirstIndex(s[1..], c) + 1
  }

  predicate IsDigit(c: char)
  {
    '0' <= c <= '9'
  }

  function DigitValue(c: char): nat
    requires IsDigit(c)
  {
    c as int - '0' as int
  }

  /** The value of a non-empty run of decimal digits. */
  function DigitsValue(s: string): nat
    requires forall i :: 0 <= i < |s| ==> IsDigit(s[i])
  {
    if |s| == 0 then 0 else 10 * DigitsValue(s[..|s| - 1]) + DigitValue(s[|s| - 1])
  }

  predicate AllDigits(s: string)
  {
    |s| > 0 && forall i :: 0 <= i < |s| ==> IsDigit(s[i])
  }

  /** Python 2's `int(s)`: surrounding whitespace, then an optional sign
    * followed by optional whitespace, then one or more decimal digits;
    * anything else raises, modelled as `None`. */
  function ParseInt(s: string): (r: Option<int>)
    ensures r.Some? ==> |Strip(s)| > 0
  {
    ParseStripped(Strip(s))
  }

  /** `int()` on text already stripped of surrounding whitespace. */
  function ParseStripped(t: string): Option<int>
  {
    if |t| > 0 && (t[0] == '-' || t[0] == '+') then
      var digits := StripLeft(t[1..]);
      if AllDigits(digits) then
        var v: int := DigitsValue(digits);
        Some(if t[0] == '-' then -v else v)
      else None
    else if AllDigits(t) then Some(DigitsValue(t))
    else None
  }

  /** The value of a sign ("", "+" or "-") and a digit run. */
  function Signed(sign: string, v: nat): int
  {
    if sign == "-" then -(v as int) else v
  }

  /** Every spelling of the form whitespace, sign, whitespace, digits,
    * whitespace is accepted by `int()` with its value (no whitespace
    * between digits and a missing sign). */
  lemma ParseIntAccepts(pre: string, sign: string, gap: string, digits: string, post: string)
    requires AllSpace(pre) && AllSpace(gap) && AllSpace(post) && AllDigits(digits)
    requires sign == "+" || sign == "-" || (sign == "" && gap == "")
    ensures ParseInt(pre + sign + gap + digits + post) == Some(Signed(sign, DigitsValue(digits)))
  {
    var m := sign + gap + digits;
    assert pre + sign + gap + digits + post == pre + m + post;
    assert m[|m| - 1] == digits[|digits| - 1];
    assert m[0] == if sign != "" then sign[0] else digits[0];
    StripSurrounded(pre, m, post);
    ParseStrippedAccepts(sign, gap, digits);
  }

  lemma ParseStrippedAccepts(sign: string, gap: string, digits: string)
    requires AllSpace(gap) && AllDigits(digits)
    requires sign == "+" || sign == "-" || (sign == "" && gap == "")
    ensures ParseStripped(sign + gap + digits) == Some(Signed(sign, DigitsValue(digits)))
  {
    if sign != "" {
      var rest := gap + digits;
      assert sign + gap + digits == [sign[0]] + rest;
      StripLeftSpaces(gap, digits);
      ParseStrippedSigned(sign[0], rest, digits);
    } else {
      assert sign + gap + digits == digits;
    }
  }

  lemma ParseStrippedSigned(c: char, rest: string, digits: string)
    requires (c == '+' || c == '-') && StripLeft(rest) == digits && AllDigits(digits)
    ensures ParseStripped([c] + rest) == Some(Signed([c], DigitsValue(digits)))
  {
    assert ([c] + rest)[1..] == rest;
  }

  /** Everything `int()` accepts has that form, and its value is the signed
    * value of its digits. */
  lemma ParseIntForm(s: string) returns (pre: string, sign: string, gap: string, digits: string, post: string)
    requires ParseInt(s).Some?
    ensures s == pre + sign + gap + digits + post
    ensures AllSpace(pre) && AllSpace(gap) && AllSpace(post) && AllDigits(digits)
    ensures sign == "+" || sign == "-" || (sign == "" && gap == "")
    ensures ParseInt(s) == Some(Signed(sign, DigitsValue(digits)))
  {
    pre, post := StripSplit(s);
    sign, gap, digits := ParseStrippedForm(Strip(s));
  }

  lemma ParseStrippedForm(t: string) returns (sign: string, gap: string, digits: string)
    requires ParseStripped(t).Some?
    ensures t == sign + gap + digits
    ensures AllSpace(gap) && AllDigits(digits)
    ensures sign == "+" || sign == "-" || (sign == "" && gap == "")
    ensures ParseStripped(t) == Some(Signed(sign, DigitsValue(digits)))
  {
    if t[0] == '-' || t[0] == '+' {
      sign := t[..1];
      digits := StripLeft(t[1..]);
      gap := StripLeftSplit(t[1..]);
      assert t == sign + t[1..];
    } else {
      sign, gap, digits := "", "", t;
    }
  }

  /** `str(n)` for a natural number. */
  function ToDecimal(n: nat): (r: string)
    ensures AllDigits(r)
    ensures DigitsValue(r) == n
    decreases n
  {
    var d := ['0' + (n % 10) as char];
    if n < 10 then
      assert DigitsValue(d) == 10 * DigitsValue(d[..0]) + DigitValue(d[0]);
      d
    else
      var r := ToDecimal(n / 10) + d;
      assert r[..|r| - 1] == ToDecimal(n / 10);
      r
  }

  /** `int(str(n)) == n` */
  lemma {:induction false} ParseIntToDecimal(n: nat)
    ensures ParseInt(ToDecimal(n)) == Some(n)
  {
    var s := ToDecimal(n);
    assert !IsSpace(s[0]) && !IsSpace(s[|s| - 1]);
    assert s[0] != '-' && s[0] != '+';
  }
}
