/** Transana's global tables: the colour definitions read from a
  * `name,r,g,b` configuration file (getColorDefs), the tables derived from
  * them (SetColorVariables), the gray lookup, the start-up character
  * encoding and the program directory. */
module TransanaGlobal {
  import opened PyStrings
  import opened Session

  datatype Rgb = Rgb(red: int, green: int, blue: int)

  /** One `(name, (r, g, b))` entry of a colour list. */
  datatype ColorDef = ColorDef(name: string, rgb: Rgb)

  predicate Channel(v: int)
  {
    0 <= v <= 255
  }

  /** What getColorDefs accepts: a name and three channels in 0..255. */
  predicate ValidColor(c: ColorDef)
  {
    c.name != "" && Channel(c.rgb.red) && Channel(c.rgb.green) && Channel(c.rgb.blue)
  }

  const White: ColorDef := ColorDef("White", Rgb(255, 255, 255))

  /** The graphics colours used when no colour file is loaded. */
  const DefaultGraphicsColors: seq<ColorDef> := [
    ColorDef("Dark Blue", Rgb(0, 0, 128)),
    ColorDef("Blue", Rgb(0, 0, 255)),
    ColorDef("Light Blue", Rgb(0, 128, 255)),
    ColorDef("Lavender", Rgb(128, 128, 255)),
    ColorDef("Cyan", Rgb(0, 255, 255)),
    ColorDef("Blue Green", Rgb(0, 128, 128)),
    ColorDef("Dark Slate Gray", Rgb(47, 79, 79)),
    ColorDef("Dark Green", Rgb(0, 128, 0)),
    ColorDef("Green Blue", Rgb(0, 255, 128)),
    ColorDef("Chartreuse", Rgb(128, 255, 0)),
    ColorDef("Olive", Rgb(128, 128, 0)),
    ColorDef("Sienna", Rgb(142, 107, 35)),
    ColorDef("Gray", Rgb(128, 128, 128)),
    ColorDef("Purple", Rgb(128, 0, 255)),
    ColorDef("Light Purple", Rgb(176, 0, 255)),
    ColorDef("Dark Purple", Rgb(128, 0, 128)),
    ColorDef("Maroon", Rgb(128, 0, 0)),
    ColorDef("Indian Red", Rgb(79, 47, 47)),
    ColorDef("Violet Red", Rgb(204, 50, 153)),
    ColorDef("Magenta", Rgb(255, 0, 255)),
    ColorDef("Light Fuscia", Rgb(255, 128, 255)),
    ColorDef("Rose", Rgb(255, 0, 128)),
    ColorDef("Red", Rgb(255, 0, 0)),
    ColorDef("Red Orange", Rgb(204, 50, 50)),
    ColorDef("Salmon", Rgb(255, 128, 128)),
    ColorDef("Orange", Rgb(255, 128, 0)),
    ColorDef("Yellow", Rgb(255, 255, 0)),
    ColorDef("Goldenrod", Rgb(219, 219, 112)),
    White]

  /** The text colours offered in the font dialog. */
  const TextColors: seq<ColorDef> := [
    ColorDef("Black", Rgb(0, 0, 0)),
    ColorDef("Dark Blue", Rgb(0, 0, 128)),
    ColorDef("Blue", Rgb(0, 0, 255)),
    ColorDef("Light Blue", Rgb(0, 128, 255)),
    ColorDef("Lavender", Rgb(128, 128, 255)),
    ColorDef("Cyan", Rgb(0, 255, 255)),
    ColorDef("Light Aqua", Rgb(128, 255, 255)),
    ColorDef("Blue Green", Rgb(0, 128, 128)),
    ColorDef("Dark Slate Gray", Rgb(47, 79, 79)),
    ColorDef("Dark Green", Rgb(0, 128, 0)),
    ColorDef("Green Blue", Rgb(0, 255, 128)),
    ColorDef("Green", Rgb(0, 255, 0)),
    ColorDef("Chartreuse", Rgb(128, 255, 0)),
    ColorDef("Light Green", Rgb(128, 255, 128)),
    ColorDef("Olive", Rgb(128, 128, 0)),
    ColorDef("Sienna", Rgb(142, 107, 35)),
    ColorDef("Gray", Rgb(128, 128, 128)),
    ColorDef("Purple", Rgb(128, 0, 255)),
    ColorDef("Light Purple", Rgb(176, 0, 255)),
    ColorDef("Dark Purple", Rgb(128, 0, 128)),
    ColorDef("Maroon", Rgb(128, 0, 0)),
    ColorDef("Indian Red", Rgb(79, 47, 47)),
    ColorDef("Violet Red", Rgb(204, 50, 153)),
    ColorDef("Magenta", Rgb(255, 0, 255)),
    ColorDef("Light Fuscia", Rgb(255, 128, 255)),
    ColorDef("Rose", Rgb(255, 0, 128)),
    ColorDef("Red", Rgb(255, 0, 0)),
    ColorDef("Red Orange", Rgb(204, 50, 50)),
    ColorDef("Salmon", Rgb(255, 128, 128)),
    ColorDef("Orange", Rgb(255, 128, 0)),
    ColorDef("Yellow", Rgb(255, 255, 0)),
    ColorDef("Light Yellow", Rgb(255, 255, 128)),
    ColorDef("Goldenrod", Rgb(219, 219, 112)),
    White]

  /** The shades used for black-and-white graphics printing. */
  const GrayList: seq<ColorDef> := [
    ColorDef("Black", Rgb(0, 0, 0)),
    ColorDef("Dark Gray", Rgb(79, 79, 79)),
    ColorDef("Gray", Rgb(158, 158, 158)),
    ColorDef("Light Gray", Rgb(237, 237, 237)),
    White]

  /** The gray shades for keyword-map bars, in their display order. */
  const KeywordMapGraySet: seq<string> := ["Black", "Gray", "Dark Gray", "Light Gray"]

  /** The default list has 29 entries and ends in White. */
  lemma DefaultGraphicsColorsShape()
    ensures |DefaultGraphicsColors| == 29 && DefaultGraphicsColors[28] == White
  {
  }

  // ---------------------------------------------------------------------
  // getColorDefs

  /** Part of ConfigData: the name of the colour file to load. */
  class ConfigData {
    var colorConfigFilename: string

    constructor(colorConfigFilename: string)
      ensures this.colorConfigFilename == colorConfigFilename
    {
      this.colorConfigFilename := colorConfigFilename;
    }
  }

  /** One entry line: the stripped line split at commas must give exactly
    * four fields, the last three `int()`s, a non-empty name and channels in
    * 0..255; anything else raises ValueError, modelled as `None`. */
  function ParseColorLine(line: string): (r: Option<ColorDef>)
    ensures r.Some? ==> ValidColor(r.value) && ',' !in r.value.name
  {
    ParseFields(Split(Strip(line), ','))
  }

  /** The fields of an entry line, as the unpacking and checks read them. */
  function ParseFields(fields: seq<string>): (r: Option<ColorDef>)
    requires forall i :: 0 <= i < |fields| ==> ',' !in fields[i]
    ensures r.Some? ==> ValidColor(r.value) && ',' !in r.value.name
  {
    if |fields| != 4 then None
    else
      var red := ParseInt(fields[1]);
      var green := ParseInt(fields[2]);
      var blue := ParseInt(fields[3]);
      if red.None? || green.None? || blue.None? then None
      else if fields[0] == "" || !Channel(blue.value) || !Channel(green.value) || !Channel(red.value) then None
      else Some(ColorDef(fields[0], Rgb(red.value, green.value, blue.value)))
  }

  /** The line a colour editor would write for an entry. */
  function FormatColorLine(c: ColorDef): string
    requires ValidColor(c)
  {
    Join([c.name, ToDecimal(c.rgb.red), ToDecimal(c.rgb.green), ToDecimal(c.rgb.blue)], ',')
  }

  /** A written entry is the name, a comma and the channels, and it ends
    * in a digit. */
  lemma FormatColorLineShape(c: ColorDef)
    requires ValidColor(c)
    ensures var line := FormatColorLine(c);
            |line| > |c.name| && line[..|c.name|] == c.name && !IsSpace(line[|line| - 1])
  {
    var r, g, b := ToDecimal(c.rgb.red), ToDecimal(c.rgb.green), ToDecimal(c.rgb.blue);
    var parts := [c.name, r, g, b];
    assert parts[1..][1..][1..] == [b];
    assert Join(parts[1..][1..], ',') == g + [','] + b;
    var tail := r + [','] + (g + [','] + b);
    assert Join(parts[1..], ',') == tail;
    var line := c.name + [','] + tail;
    assert FormatColorLine(c) == line;
    assert line[|line| - 1] == b[|b| - 1];
    assert IsDigit(b[|b| - 1]);
  }

  /** A decimal numeral holds no comma. */
  lemma NumeralHasNoComma(n: nat)
    ensures ',' !in ToDecimal(n)
  {
    var d := ToDecimal(n);
    assert forall j :: 0 <= j < |d| ==> IsDigit(d[j]);
  }

  /** A channel numeral has no comma and parses back to the channel. */
  lemma NumeralField(n: nat)
    ensures ',' !in ToDecimal(n) && ParseInt(ToDecimal(n)) == Some(n)
  {
    NumeralHasNoComma(n);
    ParseIntToDecimal(n);
  }

  /** The fields of a written entry parse back to the entry. */
  lemma ParseFieldsOfFormat(c: ColorDef)
    requires ValidColor(c) && ',' !in c.name
    ensures ',' !in ToDecimal(c.rgb.red) && ',' !in ToDecimal(c.rgb.green) && ',' !in ToDecimal(c.rgb.blue)
    ensures ParseFields([c.name, ToDecimal(c.rgb.red), ToDecimal(c.rgb.green), ToDecimal(c.rgb.blue)]) == Some(c)
  {
    NumeralField(c.rgb.red);
    NumeralField(c.rgb.green);
    NumeralField(c.rgb.blue);
    ParseFieldsOfNumbers(c.name, ToDecimal(c.rgb.red), ToDecimal(c.rgb.green), ToDecimal(c.rgb.blue), c);
  }

  /** Comma-free fields whose last three parse to the channels of a valid
    * colour, with its name first, give that colour. */
  lemma ParseFieldsOfNumbers(name: string, red: string, green: string, blue: string, c: ColorDef)
    requires ',' !in name && ',' !in red && ',' !in green && ',' !in blue
    requires ValidColor(c) && name == c.name
    requires ParseInt(red) == Some(c.rgb.red) && ParseInt(green) == Some(c.rgb.green) && ParseInt(blue) == Some(c.rgb.blue)
    ensures ParseFields([name, red, green, blue]) == Some(c)
  {
  }

  /** Reading back a written entry gives the entry, for a name without
    * commas and without leading whitespace. */
  lemma ParseFormatColorLine(c: ColorDef)
    requires ValidColor(c) && ',' !in c.name && !IsSpace(c.name[0])
    ensures ParseColorLine(FormatColorLine(c)) == Some(c)
  {
    var parts := [c.name, ToDecimal(c.rgb.red), ToDecimal(c.rgb.green), ToDecimal(c.rgb.blue)];
    StripFormatColorLine(c);
    ParseFieldsOfFormat(c);
    SplitJoin(parts, ',');
  }

  /** A written entry whose name starts with a non-space is left alone by
    * the stripping of the file loop. */
  lemma StripFormatColorLine(c: ColorDef)
    requires ValidColor(c) && !IsSpace(c.name[0])
    ensures Strip(FormatColorLine(c)) == FormatColorLine(c)
  {
    var line := FormatColorLine(c);
    FormatColorLineShape(c);
    assert line[0] == line[..|c.name|][0];
  }

  /** How the file loop treats one line: the end of input (an empty
    * string), a comment or blank line, an entry, or a line that raises. */
  datatype LineKind = EndOfInput | Comment | Entry(color: ColorDef) | Bad

  function Classify(line: string): (k: LineKind)
    ensures k.Entry? ==> ValidColor(k.color)
  {
    if line == "" then EndOfInput
    else if line[0] == '#' || Strip(line) == "" then Comment
    else match ParseColorLine(line)
      case None => Bad
      case Some(c) => Entry(c)
  }

  /** The kind of every line of a file. */
  function Kinds(lines: seq<string>): (r: seq<LineKind>)
    ensures |r| == |lines|
  {
    if |lines| == 0 then [] else [Classify(lines[0])] + Kinds(lines[1..])
  }

  /** What getColorDefs returns for a file: the colours, and the 1-based
    * number of the line that raised an error, if one did. */
  datatype ColorFile = ColorFile(colors: seq<ColorDef>, errorLine: Option<int>)

  /** The file loop from line `i` on (`lineCount == i + 1`) with the entries
    * `acc` read so far.  An empty line ends the loop; a bad line ends it
    * with White appended. */
  function ReadColors(kinds: seq<LineKind>, i: nat, acc: seq<ColorDef>): (r: ColorFile)
    ensures acc <= r.colors
    ensures r.errorLine.Some? ==> i < r.errorLine.value <= |kinds| && kinds[r.errorLine.value - 1].Bad?
    ensures r.errorLine.None? ==> |r.colors| <= |acc| + (if i <= |kinds| then |kinds| - i else 0)
    decreases |kinds| - i
  {
    if i >= |kinds| then ColorFile(acc, None)
    else match kinds[i]
      case EndOfInput => ColorFile(acc, None)
      case Comment => ReadColors(kinds, i + 1, acc)
      case Bad => ColorFile(acc + [White], Some(i + 1))
      case Entry(c) => ReadColors(kinds, i + 1, acc + [c])
  }

  predicate ReadsPast(k: LineKind)
  {
    k.Comment? || k.Entry?
  }

  /** Reference definition: the entries among lines that are all comments
    * or entries, in file order. */
  function Entries(kinds: seq<LineKind>): (r: seq<ColorDef>)
    requires forall i :: 0 <= i < |kinds| ==> ReadsPast(kinds[i])
    ensures |r| <= |kinds|
  {
    if |kinds| == 0 then []
    else
      var rest := kinds[1..];
      assert forall i :: 0 <= i < |rest| ==> rest[i] == kinds[i + 1];
      (if kinds[0].Entry? then [kinds[0].color] else []) + Entries(rest)
  }

  /** Entries of a prefix extended by one more line. */
  lemma {:induction false} EntriesSnoc(kinds: seq<LineKind>, k: nat)
    requires k < |kinds| && forall i :: 0 <= i <= k ==> ReadsPast(kinds[i])
    ensures Entries(kinds[..k + 1]) ==
            Entries(kinds[..k]) + (if kinds[k].Entry? then [kinds[k].color] else [])
    decreases k
  {
    if k > 0 {
      assert kinds[..k + 1][1..] == kinds[1..][..k];
      assert kinds[..k][1..] == kinds[1..][..k - 1];
      EntriesSnoc(kinds[1..], k - 1);
    } else {
      assert kinds[..1][1..] == [];
    }
  }

  /** Reading across lines `i..k` that are comments or entries appends
    * their entries. */
  lemma {:induction false} ReadColorsAcross(kinds: seq<LineKind>, i: nat, k: nat, acc: seq<ColorDef>)
    requires i <= k <= |kinds|
    requires forall j :: 0 <= j < k ==> ReadsPast(kinds[j])
    ensures ReadColors(kinds, i, acc + Entries(kinds[..i])) == ReadColors(kinds, k, acc + Entries(kinds[..k]))
    decreases k - i
  {
    if i < k {
      EntriesSnoc(kinds, i);
      var before := acc + Entries(kinds[..i]);
      if kinds[i].Entry? {
        assert acc + Entries(kinds[..i + 1]) == before + [kinds[i].color];
        assert ReadColors(kinds, i, before) == ReadColors(kinds, i + 1, before + [kinds[i].color]);
      } else {
        assert acc + Entries(kinds[..i + 1]) == before;
        assert ReadColors(kinds, i, before) == ReadColors(kinds, i + 1, before);
      }
      ReadColorsAcross(kinds, i + 1, k, acc);
    }
  }

  /** A file whose lines are all comments or entries yields its entries in
    * order, with no White appended and no error. */
  lemma ColorFileWithoutErrors(kinds: seq<LineKind>)
    requires forall i :: 0 <= i < |kinds| ==> ReadsPast(kinds[i])
    ensures ReadColors(kinds, 0, []) == ColorFile(Entries(kinds), None)
  {
    assert kinds[..0] == [] && kinds[..|kinds|] == kinds;
    assert Entries(kinds[..0]) == [];
    ReadColorsAcross(kinds, 0, |kinds|, []);
    assert [] + Entries(kinds[..|kinds|]) == Entries(kinds);
  }

  /** A bad line `k` stops the parse: the entries before it are kept,
    * White is appended, and the error names line k + 1. */
  lemma ColorFileStopsAtBadLine(kinds: seq<LineKind>, k: nat)
    requires k < |kinds| && kinds[k].Bad?
    requires forall i :: 0 <= i < k ==> ReadsPast(kinds[i])
    ensures ReadColors(kinds, 0, []) == ColorFile(Entries(kinds[..k]) + [White], Some(k + 1))
  {
    assert kinds[..0] == [];
    assert Entries(kinds[..0]) == [];
    ReadColorsAcross(kinds, 0, k, []);
    assert [] + Entries(kinds[..k]) == Entries(kinds[..k]);
  }

  /** An empty line `k` ends the parse quietly: the lines after it are
    * never read. */
  lemma ColorFileStopsAtEmptyLine(kinds: seq<LineKind>, k: nat)
    requires k < |kinds| && kinds[k].EndOfInput?
    requires forall i :: 0 <= i < k ==> ReadsPast(kinds[i])
    ensures ReadColors(kinds, 0, []) == ColorFile(Entries(kinds[..k]), None)
  {
    assert kinds[..0] == [];
    assert Entries(kinds[..0]) == [];
    ReadColorsAcross(kinds, 0, k, []);
    assert [] + Entries(kinds[..k]) == Entries(kinds[..k]);
  }

  /** The colours read keep only valid entries (and White). */
  lemma {:induction false} ReadColorsValid(kinds: seq<LineKind>, i: nat, acc: seq<ColorDef>)
    requires forall j :: 0 <= j < |kinds| && kinds[j].Entry? ==> ValidColor(kinds[j].color)
    requires forall c :: c in acc ==> ValidColor(c)
    ensures forall c :: c in ReadColors(kinds, i, acc).colors ==> ValidColor(c)
    decreases |kinds| - i
  {
    if i < |kinds| {
      match kinds[i]
      case EndOfInput =>
      case Comment => ReadColorsValid(kinds, i + 1, acc);
      case Bad =>
      case Entry(c) => ReadColorsValid(kinds, i + 1, acc + [c]);
    }
  }

  /** Every colour getColorDefs returns for a file has a name and channels
    * in 0..255. */
  lemma ColorFileValid(lines: seq<string>)
    ensures forall c :: c in ReadColors(Kinds(lines), 0, []).colors ==> ValidColor(c)
  {
    var kinds := Kinds(lines);
    forall j | 0 <= j < |kinds| && kinds[j].Entry?
      ensures ValidColor(kinds[j].color)
    {
      KindAt(lines, j);
    }
    ReadColorsValid(kinds, 0, []);
  }

  /** `getColorDefs(filename)`: the file's lines are `lines`; `fileExists`
    * stands for `os.path.exists`. */
  method GetColorDefs(filename: string, fileExists: bool, lines: seq<string>, config: ConfigData)
    returns (colorList: seq<ColorDef>, errorLine: Option<int>)
    modifies config
    ensures filename != "" && fileExists ==>
              ColorFile(colorList, errorLine) == ReadColors(Kinds(lines), 0, []) &&
              config.colorConfigFilename == old(config.colorConfigFilename)
    ensures !(filename != "" && fileExists) ==>
              colorList == DefaultGraphicsColors && errorLine.None? && config.colorConfigFilename == ""
  {
    if filename != "" && fileExists {
      colorList, errorLine := ReadColorFile(lines);
    } else {
      colorList := DefaultGraphicsColors;
      errorLine := None;
      config.colorConfigFilename := "";
    }
  }

  /** How the loop body classifies line `i`. */
  method NextKind(lines: seq<string>, i: nat) returns (kind: LineKind)
    requires i < |lines|
    ensures kind == Kinds(lines)[i]
  {
    kind := Classify(lines[i]);
    KindAt(lines, i);
  }

  lemma {:induction false} KindAt(lines: seq<string>, i: nat)
    requires i < |lines|
    ensures Kinds(lines)[i] == Classify(lines[i])
  {
    if i > 0 {
      KindAt(lines[1..], i - 1);
    }
  }

  /** The `for line in f` loop of getColorDefs. */
  method ReadColorFile(lines: seq<string>) returns (colorList: seq<ColorDef>, errorLine: Option<int>)
    ensures ColorFile(colorList, errorLine) == ReadColors(Kinds(lines), 0, [])
  {
    ghost var kinds := Kinds(lines);
    colorList := [];
    errorLine := None;
    var lineCount := 1;
    var i := 0;
    while i < |lines|
      invariant 0 <= i <= |lines| && lineCount == i + 1
      invariant ReadColors(kinds, i, colorList) == ReadColors(kinds, 0, [])
    {
      var kind := NextKind(lines, i);
      match kind {
        case EndOfInput =>
          break;
        case Comment =>
        case Bad =>
          colorList := colorList + [White];
          errorLine := Some(lineCount);
          break;
        case Entry(c) =>
          colorList := colorList + [c];
      }
      lineCount := lineCount + 1;
      i := i + 1;
    }
  }

  // ---------------------------------------------------------------------
  // SetColorVariables

  /** The names of a colour list, in order. */
  method ColorNames(colors: seq<ColorDef>) returns (names: seq<string>)
    ensures |names| == |colors|
    ensures forall i :: 0 <= i < |colors| ==> names[i] == colors[i].name
  {
    names := [];
    for i := 0 to |colors|
      invariant |names| == i
      invariant forall j :: 0 <= j < i ==> names[j] == colors[j].name
    {
      names := names + [colors[i].name];
    }
  }

  /** The dictionary built by assigning each entry in list order. */
  function BuildLookup(colors: seq<ColorDef>): (r: map<string, Rgb>)
    ensures forall n :: n in r <==> exists i :: 0 <= i < |colors| && colors[i].name == n
  {
    if |colors| == 0 then map[]
    else
      var last := colors[|colors| - 1];
      var r := BuildLookup(colors[..|colors| - 1])[last.name := last.rgb];
      assert forall i :: 0 <= i < |colors| - 1 ==> colors[..|colors| - 1][i] == colors[i];
      r
  }

  /** A name maps to the colour of its last entry: a later duplicate wins. */
  lemma {:induction false} LookupLaterWins(colors: seq<ColorDef>, i: nat)
    requires i < |colors|
    requires forall j :: i < j < |colors| ==> colors[j].name != colors[i].name
    ensures BuildLookup(colors)[colors[i].name] == colors[i].rgb
    decreases |colors|
  {
    if i < |colors| - 1 {
      var init := colors[..|colors| - 1];
      assert init[i] == colors[i];
      LookupLaterWins(init, i);
    }
  }

  /** The lookup loop of SetColorVariables and of the gray table. */
  method LookupTable(colors: seq<ColorDef>) returns (lookup: map<string, Rgb>)
    ensures lookup == BuildLookup(colors)
  {
    lookup := map[];
    for i := 0 to |colors|
      invariant lookup == BuildLookup(colors[..i])
    {
      assert colors[..i + 1][..i] == colors[..i];
      lookup := lookup[colors[i].name := colors[i].rgb];
    }
    assert colors[..|colors|] == colors;
  }

  /** Column `x` of the keyword-map order from `y` on: the indices x + y,
    * x + y + 10, ... below `m`, as the inner loop visits `y` in
    * `range(0, m, 10)`. */
  function Column(x: int, y: int, m: int): seq<int>
    decreases m - y
  {
    if y >= m then []
    else (if x + y < m then [x + y] else []) + Column(x, y + 10, m)
  }

  /** Columns `x`..9 of the keyword-map order. */
  function Columns(x: int, m: int): seq<int>
    decreases 10 - x
  {
    if x >= 10 then [] else Column(x, 0, m) + Columns(x + 1, m)
  }

  /** The order of the graphics colours in the keyword map: indices below
    * `m = n - 1`, column by column. */
  function KeywordIndices(m: int): seq<int>
  {
    Columns(0, m)
  }

  /** The keyword-map order: by index mod 10, then by index. */
  predicate KeywordBefore(i: int, j: int)
  {
    i % 10 < j % 10 || (i % 10 == j % 10 && i < j)
  }

  predicate StrictlyOrdered(s: seq<int>)
  {
    forall a, b :: 0 <= a < b < |s| ==> KeywordBefore(s[a], s[b])
  }

  /** What Column(x, y, m) holds, for a column 0 <= x < 10 and y a
    * multiple of 10. */
  lemma {:induction false} ColumnContents(x: int, y: int, m: int)
    requires 0 <= x < 10 && y >= 0 && y % 10 == 0
    ensures forall i :: i in Column(x, y, m) <==> x + y <= i < m && i % 10 == x
    ensures StrictlyOrdered(Column(x, y, m))
    decreases m - y
  {
    if y < m {
      ColumnContents(x, y + 10, m);
      var rest := Column(x, y + 10, m);
      forall i | x + y <= i < m && i % 10 == x
        ensures i in Column(x, y, m)
      {
        if i != x + y {
          assert i >= x + y + 10;
        }
      }
      if x + y < m {
        assert Column(x, y, m) == [x + y] + rest;
        assert (x + y) % 10 == x;
        forall a, b | 0 <= a < b < |Column(x, y, m)|
          ensures KeywordBefore(Column(x, y, m)[a], Column(x, y, m)[b])
        {
          if a == 0 {
            assert Column(x, y, m)[b] in rest;
          } else {
            assert Column(x, y, m)[a] == rest[a - 1] && Column(x, y, m)[b] == rest[b - 1];
          }
        }
      }
    }
  }

  /** What Columns(x, m) holds. */
  lemma {:induction false} ColumnsContents(x: int, m: int)
    requires 0 <= x <= 10
    ensures forall i :: i in Columns(x, m) <==> 0 <= i < m && i % 10 >= x
    ensures StrictlyOrdered(Columns(x, m))
    decreases 10 - x
  {
    if x < 10 {
      ColumnContents(x, 0, m);
      ColumnsContents(x + 1, m);
      var c := Column(x, 0, m);
      var rest := Columns(x + 1, m);
      assert Columns(x, m) == c + rest;
      forall a, b | 0 <= a < b < |c + rest|
        ensures KeywordBefore((c + rest)[a], (c + rest)[b])
      {
        if b < |c| {
          assert (c + rest)[a] == c[a] && (c + rest)[b] == c[b];
        } else if a < |c| {
          assert (c + rest)[a] in c && (c + rest)[b] in rest;
        } else {
          assert (c + rest)[a] == rest[a - |c|] && (c + rest)[b] == rest[b - |c|];
        }
      }
    }
  }

  /** `[0, 1, ..., m - 1]` */
  function Range(m: int): (r: seq<int>)
    ensures |r| == if m > 0 then m else 0
    ensures forall i :: 0 <= i < |r| ==> r[i] == i
  {
    if m <= 0 then [] else Range(m - 1) + [m - 1]
  }

  predicate Distinct(s: seq<int>)
  {
    forall a, b :: 0 <= a < b < |s| ==> s[a] != s[b]
  }

  /** In a sequence without repeats each element occurs once. */
  lemma {:induction false} DistinctCounts(s: seq<int>)
    requires Distinct(s)
    ensures forall v :: multiset(s)[v] == if v in s then 1 else 0
  {
    if |s| > 0 {
      var init, last := s[..|s| - 1], s[|s| - 1];
      assert Distinct(init);
      DistinctCounts(init);
      assert s == init + [last];
      assert last !in init by {
        assert forall a :: 0 <= a < |init| ==> init[a] == s[a];
      }
      forall v
        ensures multiset(s)[v] == if v in s then 1 else 0
      {
        assert multiset(s) == multiset(init) + multiset{last};
        assert v in s <==> v in init || v == last;
      }
    }
  }

  /** Two sequences without repeats and with the same elements are
    * permutations of each other. */
  lemma SameElementsPermutation(s: seq<int>, t: seq<int>)
    requires Distinct(s) && Distinct(t)
    requires forall v :: v in s <==> v in t
    ensures multiset(s) == multiset(t) && |s| == |t|
  {
    DistinctCounts(s);
    DistinctCounts(t);
    assert forall v :: multiset(s)[v] == multiset(t)[v];
    assert multiset(s) == multiset(t);
    assert |multiset(s)| == |s| && |multiset(t)| == |t|;
  }

  /** keywordMapColourSet's index order is a permutation of 0..m-1, ordered
    * by (index mod 10, index); so it has max(m, 0) entries. */
  lemma KeywordIndicesPermutation(m: int)
    ensures multiset(KeywordIndices(m)) == multiset(Range(m))
    ensures StrictlyOrdered(KeywordIndices(m))
    ensures |KeywordIndices(m)| == if m > 0 then m else 0
  {
    var k := KeywordIndices(m);
    var r := Range(m);
    ColumnsContents(0, m);
    assert Distinct(k) by {
      forall a, b | 0 <= a < b < |k|
        ensures k[a] != k[b]
      {
        assert KeywordBefore(k[a], k[b]);
      }
    }
    forall v
      ensures v in r <==> 0 <= v < m
    {
      if 0 <= v < m {
        assert r[v] == v;
      }
    }
    SameElementsPermutation(k, r);
  }

  /** Every index is below `n`. */
  predicate Below(indices: seq<int>, n: int)
  {
    forall k :: 0 <= k < |indices| ==> 0 <= indices[k] < n
  }

  /** The names at the given indices of a colour list. */
  function NamesAt(colors: seq<ColorDef>, indices: seq<int>): (r: seq<string>)
    requires Below(indices, |colors|)
    ensures |r| == |indices|
    ensures forall k :: 0 <= k < |indices| ==> r[k] == colors[indices[k]].name
  {
    seq(|indices|, k requires 0 <= k < |indices| => colors[indices[k]].name)
  }

  /** The names the inner loop appends for column `x`, from `y` on. */
  function ColumnNames(colors: seq<ColorDef>, x: nat, y: nat): seq<string>
    decreases |colors| - y
  {
    var m := |colors| - 1;
    if y >= m then []
    else (if x + y < m then [colors[x + y].name] else []) + ColumnNames(colors, x, y + 10)
  }

  /** The names the outer loop appends for columns `x`..9. */
  function ColumnsNames(colors: seq<ColorDef>, x: nat): seq<string>
    decreases 10 - x
  {
    if x >= 10 then [] else ColumnNames(colors, x, 0) + ColumnsNames(colors, x + 1)
  }

  /** keywordMapColourSet for a graphics colour list. */
  function KeywordColours(colors: seq<ColorDef>): seq<string>
  {
    ColumnsNames(colors, 0)
  }

  lemma NamesAtAppend(colors: seq<ColorDef>, s: seq<int>, t: seq<int>)
    requires Below(s, |colors|) && Below(t, |colors|)
    ensures Below(s + t, |colors|)
    ensures NamesAt(colors, s + t) == NamesAt(colors, s) + NamesAt(colors, t)
  {
    assert forall k :: 0 <= k < |s + t| ==> (s + t)[k] == if k < |s| then s[k] else t[k - |s|];
  }

  /** The names of a column are the names at its indices. */
  lemma {:induction false} ColumnNamesAt(colors: seq<ColorDef>, x: nat, y: nat)
    requires x < 10
    ensures Below(Column(x, y, |colors| - 1), |colors|)
    ensures ColumnNames(colors, x, y) == NamesAt(colors, Column(x, y, |colors| - 1))
    decreases |colors| - y
  {
    var m := |colors| - 1;
    if y < m {
      var head, rest := if x + y < m then [x + y] else [], Column(x, y + 10, m);
      assert Column(x, y, m) == head + rest;
      ColumnNamesAt(colors, x, y + 10);
      NamesAtAppend(colors, head, rest);
      assert NamesAt(colors, head) == if x + y < m then [colors[x + y].name] else [];
    }
  }

  /** The names of columns `x`..9 are the names at their indices. */
  lemma {:induction false} ColumnsNamesAt(colors: seq<ColorDef>, x: nat)
    requires x <= 10
    ensures Below(Columns(x, |colors| - 1), |colors|)
    ensures ColumnsNames(colors, x) == NamesAt(colors, Columns(x, |colors| - 1))
    decreases 10 - x
  {
    if x < 10 {
      ColumnNamesAt(colors, x, 0);
      ColumnsNamesAt(colors, x + 1);
      NamesAtAppend(colors, Column(x, 0, |colors| - 1), Columns(x + 1, |colors| - 1));
    }
  }

  /** keywordMapColourSet holds the names of the graphics colours at the
    * keyword-map indices: every colour but the last, once each, column by
    * column (so the last is left out unless its name recurs earlier). */
  lemma KeywordColoursShape(colors: seq<ColorDef>)
    ensures Below(KeywordIndices(|colors| - 1), |colors| - 1)
    ensures KeywordColours(colors) == NamesAt(colors, KeywordIndices(|colors| - 1))
    ensures |KeywordColours(colors)| == if |colors| > 1 then |colors| - 1 else 0
  {
    var m := |colors| - 1;
    var idx := KeywordIndices(m);
    assert |idx| == if m > 0 then m else 0 by {
      KeywordIndicesPermutation(m);
    }
    assert Below(idx, m) by {
      ColumnsContents(0, m);
      assert forall k :: 0 <= k < |idx| ==> idx[k] in idx;
    }
    ColumnsNamesAt(colors, 0);
  }

  /** For the default graphics list the keyword map uses 28 colours. */
  lemma DefaultKeywordColours()
    ensures |KeywordColours(DefaultGraphicsColors)| == 28
  {
    DefaultGraphicsColorsShape();
    KeywordColoursShape(DefaultGraphicsColors);
  }

  /** The inner loop of the keyword-map construction: column `x`. */
  method AppendColumn(colors: seq<ColorDef>, x: nat, keywordSet: seq<string>) returns (newSet: seq<string>)
    ensures newSet == keywordSet + ColumnNames(colors, x, 0)
  {
    var m := |colors| - 1;
    newSet := keywordSet;
    var y := 0;
    while y < m
      invariant newSet + ColumnNames(colors, x, y) == keywordSet + ColumnNames(colors, x, 0)
      decreases m - y
    {
      if x + y < m {
        newSet := newSet + [colors[x + y].name];
      }
      y := y + 10;
    }
  }

  lemma AppendAssoc(a: seq<string>, b: seq<string>, c: seq<string>)
    ensures (a + b) + c == a + (b + c)
  {
  }

  /** The nested loops that build keywordMapColourSet. */
  method KeywordMapColourSet(colors: seq<ColorDef>) returns (keywordSet: seq<string>)
    ensures keywordSet == KeywordColours(colors)
  {
    keywordSet := [];
    var x := 0;
    while x < 10
      invariant x <= 10
      invariant keywordSet + ColumnsNames(colors, x) == KeywordColours(colors)
    {
      ghost var before := keywordSet;
      keywordSet := AppendColumn(colors, x, keywordSet);
      AppendAssoc(before, ColumnNames(colors, x, 0), ColumnsNames(colors, x + 1));
      x := x + 1;
    }
  }

  /** `SetColorVariables()`: the text colour names, the graphics colour
    * lookup and the keyword-map order. */
  method SetColorVariables(textColors: seq<ColorDef>, graphicsColors: seq<ColorDef>)
    returns (colorNameList: seq<string>, colorLookup: map<string, Rgb>, keywordMapColourSet: seq<string>)
    ensures |colorNameList| == |textColors|
    ensures forall i :: 0 <= i < |textColors| ==> colorNameList[i] == textColors[i].name
    ensures colorLookup == BuildLookup(graphicsColors)
    ensures keywordMapColourSet == KeywordColours(graphicsColors)
  {
    colorNameList := ColorNames(textColors);
    colorLookup := LookupTable(graphicsColors);
    keywordMapColourSet := KeywordMapColourSet(graphicsColors);
  }

  // ---------------------------------------------------------------------
  // The gray lookup

  /** transana_grayLookup maps each of the five shades to its own RGB,
    * and every keyword-map gray is one of its names. */
  lemma GrayLookupContents()
    ensures forall i :: 0 <= i < |GrayList| ==> BuildLookup(GrayList)[GrayList[i].name] == GrayList[i].rgb
    ensures forall n :: n in KeywordMapGraySet ==> n in BuildLookup(GrayList)
  {
    forall i | 0 <= i < |GrayList|
      ensures BuildLookup(GrayList)[GrayList[i].name] == GrayList[i].rgb
    {
      LookupLaterWins(GrayList, i);
    }
    forall n | n in KeywordMapGraySet
      ensures n in BuildLookup(GrayList)
    {
      var j := if n == "Black" then 0 else if n == "Dark Gray" then 1 else if n == "Gray" then 2 else 3;
      assert GrayList[j].name == n;
    }
  }

  // ---------------------------------------------------------------------
  // Start-up encoding

  /** The encoding chosen when the module loads: latin1 for the Windows
    * single-user version, overridden by the configured language; utf8
    * everywhere else. */
  function DefaultEncoding(isWindows: bool, singleUser: bool, language: string, chineseEncoding: string): (e: string)
    ensures !(isWindows && singleUser) ==> e == "utf8"
    ensures isWindows && singleUser && language !in {"ru", "zh", "el", "ja", "ko"} ==> e == "latin1"
  {
    var encoding := if isWindows && singleUser then "latin1" else "utf8";
    if isWindows && singleUser then
      if language == "ru" then "koi8_r"
      else if language == "zh" then chineseEncoding
      else if language == "el" then "iso8859_7"
      else if language == "ja" then "cp932"
      else if language == "ko" then "cp949"
      else encoding
    else encoding
  }

  /** The start-up table is GetNewDatabase's table for pre-4.1 MySQL, except
    * that it has no entry for "easteurope", which starts in latin1 but gets
    * iso8859_2 for a new database. */
  lemma DefaultEncodingMatchesDatabaseTable(language: string, chineseEncoding: string)
    ensures language != "easteurope" ==>
              DefaultEncoding(true, true, language, chineseEncoding) == LanguageEncoding(language, chineseEncoding, "latin1")
    ensures DefaultEncoding(true, true, "easteurope", chineseEncoding) == "latin1"
    ensures LanguageEncoding("easteurope", chineseEncoding, "latin1") == "iso8859_2"
  {
  }

  // ---------------------------------------------------------------------
  // programDir

  predicate MentionsTransana(path: string)
  {
    Find(Lower(path), "transana", 0) != -1
  }

  /** The index of the first path naming Transana, or -1. */
  function FirstTransanaPath(paths: seq<string>): (k: int)
    ensures -1 <= k < |paths|
    ensures k == -1 ==> forall i :: 0 <= i < |paths| ==> !MentionsTransana(paths[i])
    ensures k >= 0 ==> MentionsTransana(paths[k]) && forall i :: 0 <= i < k ==> !MentionsTransana(paths[i])
  {
    if |paths| == 0 then -1
    else if MentionsTransana(paths[0]) then 0
    else
      var k := FirstTransanaPath(paths[1..]);
      if k == -1 then -1 else k + 1
  }

  /** The program directory for `sys.path`: the first entry naming
    * Transana, else the absolute form of the first entry; its directory
    * when it names a file. */
  function ProgramDir(sysPath: seq<string>, absPath0: string, isFile: string -> bool, dirname: string -> string): (r: string)
    ensures (forall i :: 0 <= i < |sysPath| ==> !MentionsTransana(sysPath[i])) ==>
      r == if isFile(absPath0) then dirname(absPath0) else absPath0
    ensures (exists i :: 0 <= i < |sysPath| && MentionsTransana(sysPath[i])) ==>
      exists k :: 0 <= k < |sysPath| && MentionsTransana(sysPath[k])
        && (forall i :: 0 <= i < k ==> !MentionsTransana(sysPath[i]))
        && r == if isFile(sysPath[k]) then dirname(sysPath[k]) else sysPath[k]
  {
    var k := FirstTransanaPath(sysPath);
    var chosen := if k == -1 then absPath0 else sysPath[k];
    if isFile(chosen) then dirname(chosen) else chosen
  }

  /** The module-level loop that sets `programDir`.  `absPath0` stands for
    * `os.path.abspath(sys.path[0])`; `isFile` and `dirname` for
    * `os.path.isfile` and `os.path.dirname`. */
  method ChooseProgramDir(sysPath: seq<string>, absPath0: string, isFile: string -> bool, dirname: string -> string)
    returns (programDir: string)
    requires |sysPath| > 0
    ensures programDir == ProgramDir(sysPath, absPath0, isFile, dirname)
  {
    programDir := absPath0;
    var i := 0;
    while i < |sysPath|
      invariant 0 <= i <= |sysPath| && programDir == absPath0
      invariant forall j :: 0 <= j < i ==> !MentionsTransana(sysPath[j])
    {
      if Find(Lower(sysPath[i]), "transana", 0) != -1 {
        programDir := sysPath[i];
        break;
      }
      i := i + 1;
    }
    ghost var k := FirstTransanaPath(sysPath);
    assert programDir == if k == -1 then absPath0 else sysPath[k];
    if isFile(programDir) {
      programDir := dirname(programDir);
    }
  }
}
