/**
 * The CSV plot tab: the colour table, the conversion of `#rrggbb` text to
 * red, green and blue bytes, and `update_data`, which turns the loaded rows
 * into one plotted line per header column and keeps one scaling factor per
 * column. Reading the file and drawing are not part of this model.
 */
module PlotFiles {
  import opened Wrappers
  import opened Text

  type Byte = x: nat | x < 256

  /** The `i16` of the `x_axis` setting. */
  type I16 = x: int | -0x8000 <= x < 0x8000

  /** `Color32::from_rgb(r, g, b)`. */
  datatype Color = Color(r: Byte, g: Byte, b: Byte)

  /**
   * `INDEX_COLORS`: 128 colours for the plotted lines, written down in
   * eight runs of sixteen, in order.
   */
  const IndexColors0: seq<string> := [
    "#ffffff", "#FFFF00", "#1CE6FF", "#FF34FF", "#FF4A46", "#008941", "#006FA6", "#A30059",
    "#FFDBE5", "#7A4900", "#0000A6", "#63FFAC", "#B79762", "#004D43", "#8FB0FF", "#997D87"
  ]
  const IndexColors1: seq<string> := [
    "#5A0007", "#809693", "#FEFFE6", "#1B4400", "#4FC601", "#3B5DFF", "#4A3B53", "#FF2F80",
    "#61615A", "#BA0900", "#6B7900", "#00C2A0", "#FFAA92", "#FF90C9", "#B903AA", "#D16100"
  ]
  const IndexColors2: seq<string> := [
    "#DDEFFF", "#000035", "#7B4F4B", "#A1C299", "#300018", "#0AA6D8", "#013349", "#00846F",
    "#372101", "#FFB500", "#C2FFED", "#A079BF", "#CC0744", "#C0B9B2", "#C2FF99", "#001E09"
  ]
  const IndexColors3: seq<string> := [
    "#00489C", "#6F0062", "#0CBD66", "#EEC3FF", "#456D75", "#B77B68", "#7A87A1", "#788D66",
    "#885578", "#FAD09F", "#FF8A9A", "#D157A0", "#BEC459", "#456648", "#0086ED", "#886F4C"
  ]
  const IndexColors4: seq<string> := [
    "#34362D", "#B4A8BD", "#00A6AA", "#452C2C", "#636375", "#A3C8C9", "#FF913F", "#938A81",
    "#575329", "#00FECF", "#B05B6F", "#8CD0FF", "#3B9700", "#04F757", "#C8A1A1", "#1E6E00"
  ]
  const IndexColors5: seq<string> := [
    "#7900D7", "#A77500", "#6367A9", "#A05837", "#6B002C", "#772600", "#D790FF", "#9B9700",
    "#549E79", "#FFF69F", "#201625", "#72418F", "#BC23FF", "#99ADC0", "#3A2465", "#922329"
  ]
  const IndexColors6: seq<string> := [
    "#5B4534", "#FDE8DC", "#404E55", "#0089A3", "#CB7E98", "#A4E804", "#324E72", "#6A3A4C",
    "#83AB58", "#001C1E", "#D1F7CE", "#004B28", "#C8D0F6", "#A3A489", "#806C66", "#222800"
  ]
  const IndexColors7: seq<string> := [
    "#BF5650", "#E83000", "#66796D", "#DA007C", "#FF1A59", "#8ADBB4", "#1E0200", "#5B4E51",
    "#C895C5", "#320033", "#FF6832", "#66E1D3", "#CFCDAC", "#D0AC94", "#7ED379", "#012C58"
  ]

  const IndexColors: seq<string> :=
    IndexColors0 + IndexColors1 + IndexColors2 + IndexColors3 +
    IndexColors4 + IndexColors5 + IndexColors6 + IndexColors7

  /** A hexadecimal digit of either case. */
  predicate IsHexChar(ch: char)
  {
    '0' <= ch <= '9' || 'a' <= ch <= 'f' || 'A' <= ch <= 'F'
  }

  /** `char::to_digit(16)`. */
  function HexDigit(ch: char): (d: Option<nat>)
    ensures d.Some? <==> IsHexChar(ch)
    ensures d.Some? ==> d.value < 16
  {
    if '0' <= ch <= '9' then Some(ch as int - '0' as int)
    else if 'a' <= ch <= 'f' then Some(ch as int - 'a' as int + 10)
    else if 'A' <= ch <= 'F' then Some(ch as int - 'A' as int + 10)
    else None
  }

  /** A `#` followed by exactly six hexadecimal digits. */
  predicate IsHexColor(s: string)
  {
    |s| == 7 && s[0] == '#' &&
    IsHexChar(s[1]) && IsHexChar(s[2]) && IsHexChar(s[3]) &&
    IsHexChar(s[4]) && IsHexChar(s[5]) && IsHexChar(s[6])
  }

  /**
   * Each run of sixteen entries is well-formed. The table is checked in eight
   * runs, one lemma each, because a single proof over all 128 entries is more
   * than the solver's budget allows.
   */
  lemma PartIsHex0()
    ensures |IndexColors0| == 16 && forall i :: 0 <= i < 16 ==> IsHexColor(IndexColors0[i])
  {
  }

  lemma PartIsHex1()
    ensures |IndexColors1| == 16 && forall i :: 0 <= i < 16 ==> IsHexColor(IndexColors1[i])
  {
  }

  lemma PartIsHex2()
    ensures |IndexColors2| == 16 && forall i :: 0 <= i < 16 ==> IsHexColor(IndexColors2[i])
  {
  }

  lemma PartIsHex3()
    ensures |IndexColors3| == 16 && forall i :: 0 <= i < 16 ==> IsHexColor(IndexColors3[i])
  {
  }

  lemma PartIsHex4()
    ensures |IndexColors4| == 16 && forall i :: 0 <= i < 16 ==> IsHexColor(IndexColors4[i])
  {
  }

  lemma PartIsHex5()
    ensures |IndexColors5| == 16 && forall i :: 0 <= i < 16 ==> IsHexColor(IndexColors5[i])
  {
  }

  lemma PartIsHex6()
    ensures |IndexColors6| == 16 && forall i :: 0 <= i < 16 ==> IsHexColor(IndexColors6[i])
  {
  }

  lemma PartIsHex7()
    ensures |IndexColors7| == 16 && forall i :: 0 <= i < 16 ==> IsHexColor(IndexColors7[i])
  {
  }

  /** Every entry of the colour table is `#` and six hexadecimal digits. */
  lemma IndexColorsAreHex()
    ensures |IndexColors| == 128
    ensures forall i :: 0 <= i < 128 ==> IsHexColor(IndexColors[i])
  {
    PartIsHex0();
    PartIsHex1();
    PartIsHex2();
    PartIsHex3();
    PartIsHex4();
    PartIsHex5();
    PartIsHex6();
    PartIsHex7();
  }

  /** The text after the one leading `#` that `convert_hex_to_rgb` removes, if any. */
  function WithoutHash(hex: string): (h: string)
    ensures |h| == |hex| || (|hex| > 0 && hex[0] == '#' && h == hex[1..])
  {
    if |hex| > 0 && hex[0] == '#' then hex[1..] else hex
  }

  /**
   * `u8::from_str_radix(pair, 16)` on a two-character slice: an optional
   * `+` sign followed by hexadecimal digits.
   */
  function ParseByte(pair: string): (b: Option<Byte>)
    requires |pair| == 2
    ensures b.Some? <==> if pair[0] == '+' then IsHexChar(pair[1]) else IsHexChar(pair[0]) && IsHexChar(pair[1])
  {
    if pair[0] == '+' then
      (match HexDigit(pair[1]) case Some(d) => Some(d) case None => None)
    else
      match (HexDigit(pair[0]), HexDigit(pair[1]))
      case (Some(high), Some(low)) => Some(16 * high + low)
      case _ => None
  }

  /** The three slices `convert_hex_to_rgb` unwraps all parse: it panics otherwise. */
  predicate Convertible(hex: string)
  {
    var h := WithoutHash(hex);
    |h| >= 6 && ParseByte(h[0..2]).Some? && ParseByte(h[2..4]).Some? && ParseByte(h[4..6]).Some?
  }

  /** `convert_hex_to_rgb`: drop one leading `#`, read three two-digit bytes. */
  function ConvertHexToRgb(hex: string): Color
    requires Convertible(hex)
  {
    var h := WithoutHash(hex);
    Color(ParseByte(h[0..2]).value, ParseByte(h[2..4]).value, ParseByte(h[4..6]).value)
  }

  /** The lower-case digit for `d`. */
  function LowerDigit(d: nat): (ch: char)
    requires d < 16
    ensures IsHexChar(ch) && HexDigit(ch) == Some(d)
  {
    if d < 10 then ('0' as int + d) as char else ('a' as int + d - 10) as char
  }

  /** A colour as `#rrggbb` text in lower case, the form `convert_hex_to_rgb` reads. */
  function HexText(c: Color): (s: string)
    ensures IsHexColor(s)
  {
    ['#', LowerDigit(c.r / 16), LowerDigit(c.r % 16), LowerDigit(c.g / 16), LowerDigit(c.g % 16),
     LowerDigit(c.b / 16), LowerDigit(c.b % 16)]
  }

  /** A hexadecimal letter in lower case, anything else unchanged. */
  function LowerChar(ch: char): char
  {
    if 'A' <= ch <= 'F' then (ch as int + 32) as char else ch
  }

  /** Hexadecimal letters in lower case, everything else unchanged. */
  function Lowercase(s: string): (t: string)
    ensures |t| == |s| && forall i :: 0 <= i < |s| ==> t[i] == LowerChar(s[i])
  {
    seq(|s|, i requires 0 <= i < |s| => LowerChar(s[i]))
  }

  /** Two digits of a byte parse back to the byte. */
  lemma DigitsParse(x: Byte)
    ensures ParseByte([LowerDigit(x / 16), LowerDigit(x % 16)]) == Some(x)
  {
  }

  /** Every well-formed colour text can be converted without a panic. */
  lemma HexColorIsConvertible(s: string)
    requires IsHexColor(s)
    ensures Convertible(s)
    ensures ConvertHexToRgb(s) == Color(PairValue(s[1], s[2]), PairValue(s[3], s[4]), PairValue(s[5], s[6]))
  {
    var h := s[1..];
    assert WithoutHash(s) == h;
    assert h[0..2] == [s[1], s[2]] && h[2..4] == [s[3], s[4]] && h[4..6] == [s[5], s[6]];
  }

  /** The byte that two hexadecimal digits spell. */
  function PairValue(high: char, low: char): Byte
    requires IsHexChar(high) && IsHexChar(low)
  {
    16 * HexDigit(high).value + HexDigit(low).value
  }

  /** Writing a colour as `#rrggbb` and converting it back gives the colour. */
  lemma HexRoundTrip(c: Color)
    ensures Convertible(HexText(c)) && ConvertHexToRgb(HexText(c)) == c
  {
    var s := HexText(c);
    HexColorIsConvertible(s);
    DigitsParse(c.r);
    DigitsParse(c.g);
    DigitsParse(c.b);
  }

  /** Two digits read as a byte and written again come back in lower case. */
  lemma PairRoundTrip(high: char, low: char)
    requires IsHexChar(high) && IsHexChar(low)
    ensures LowerDigit(PairValue(high, low) / 16) == LowerChar(high)
    ensures LowerDigit(PairValue(high, low) % 16) == LowerChar(low)
  {
    var h, l := HexDigit(high).value, HexDigit(low).value;
    assert PairValue(high, low) / 16 == h && PairValue(high, low) % 16 == l;
  }

  /**
   * Converting well-formed colour text and writing the colour back gives the
   * text again, up to the case of its letters.
   */
  lemma RgbRoundTrip(s: string)
    requires IsHexColor(s)
    ensures Convertible(s) && HexText(ConvertHexToRgb(s)) == Lowercase(s)
  {
    HexColorIsConvertible(s);
    PairRoundTrip(s[1], s[2]);
    PairRoundTrip(s[3], s[4]);
    PairRoundTrip(s[5], s[6]);
  }

  /**
   * `get_color`: the colour of table entry `index % 128`, which never panics
   * because every entry is well-formed.
   */
  function GetColor(index: nat): Color
  {
    IndexColorsAreHex();
    HexColorIsConvertible(IndexColors[index % 128]);
    ConvertHexToRgb(IndexColors[index % 128])
  }

  /** The colour of `index` is table entry `index % 128`, written in lower case. */
  lemma GetColorIsTableEntry(index: nat)
    ensures HexText(GetColor(index)) == Lowercase(IndexColors[index % 128])
  {
    IndexColorsAreHex();
    RgbRoundTrip(IndexColors[index % 128]);
  }

  /** Colours repeat every 128 indices. */
  lemma GetColorWraps(index: nat)
    ensures GetColor(index + 128) == GetColor(index)
  {
    assert (index + 128) % 128 == index % 128;
  }

  /** A point of a plotted line. */
  type Point = (real, real)

  /** A plotted line: its points, its colour and its name. */
  datatype Line = Line(points: seq<Point>, color: Color, name: string)

  /** How many rows are long enough to have column `i`: the `j` counter of `update_data`. */
  function LongRows(rows: seq<seq<Option<real>>>, i: nat): (n: nat)
    ensures n <= |rows|
  {
    if |rows| == 0 then 0
    else LongRows(rows[..|rows| - 1], i) + if |rows[|rows| - 1]| > i then 1 else 0
  }

  /**
   * The points of column `i` as `update_data` is evidently meant to collect
   * them: rows too short for the column are skipped; with `x_axis == -1` a
   * present cell is plotted at the number of long rows before it; otherwise
   * a row contributes (`row[x_axis]`, `row[i]`) when both cells exist and
   * are present.
   */
  function ColumnPoints(rows: seq<seq<Option<real>>>, i: nat, xAxis: I16): seq<Point>
  {
    if |rows| == 0 then []
    else
      var front := rows[..|rows| - 1];
      var row := rows[|rows| - 1];
      var points := ColumnPoints(front, i, xAxis);
      if |row| <= i then points
      else if xAxis == -1 then
        if row[i].Some? then points + [(LongRows(front, i) as real, row[i].value)] else points
      else if 0 <= xAxis < |row| && row[xAxis].Some? && row[i].Some? then
        points + [(row[xAxis].value, row[i].value)]
      else points
  }

  /**
   * The points of column `i` as `update_data` collects them, `None` standing
   * for its panic: with an x axis it checks that `row[0]` is present but
   * unwraps `row[x_axis]`.
   */
  function AsWrittenColumn(rows: seq<seq<Option<real>>>, i: nat, xAxis: I16): Option<seq<Point>>
  {
    if |rows| == 0 then Some([])
    else
      var front := rows[..|rows| - 1];
      var row := rows[|rows| - 1];
      match AsWrittenColumn(front, i, xAxis)
      case None => None
      case Some(points) =>
        if |row| <= i then Some(points)
        else if xAxis == -1 then
          if row[i].Some? then Some(points + [(LongRows(front, i) as real, row[i].value)]) else Some(points)
        else if row[0].Some? && row[i].Some? then
          if 0 <= xAxis < |row| && row[xAxis].Some? then Some(points + [(row[xAxis].value, row[i].value)])
          else None
        else Some(points)
  }

  /**
   * When the x axis is the first column, or there is none, the source's
   * check is the intended one and the two agree.
   */
  lemma {:induction false} AsWrittenAgreesOnFirstColumn(rows: seq<seq<Option<real>>>, i: nat, xAxis: I16)
    requires xAxis == -1 || xAxis == 0
    ensures AsWrittenColumn(rows, i, xAxis) == Some(ColumnPoints(rows, i, xAxis))
  {
    if |rows| > 0 {
      AsWrittenAgreesOnFirstColumn(rows[..|rows| - 1], i, xAxis);
    }
  }

  /**
   * With the x axis in column 1, a row whose first and plotted cells are
   * present but whose x cell is empty makes the source panic, while the
   * intended check skips it.
   */
  lemma AsWrittenPanicsOnEmptyAxisCell()
    ensures AsWrittenColumn([[Some(0.0), None, Some(5.0)]], 0, 1).None?
    ensures ColumnPoints([[Some(0.0), None, Some(5.0)]], 0, 1) == []
  {
    var rows: seq<seq<Option<real>>> := [[Some(0.0), None, Some(5.0)]];
    assert rows[..0] == [];
  }

  /**
   * The two tests also differ where nothing panics: with the x axis in
   * column 1, a row whose first cell is empty is skipped by the source even
   * though its x cell and its plotted cell are present, while the intended
   * check plots it.
   */
  lemma AsWrittenSkipsRowWithEmptyFirstCell()
    ensures AsWrittenColumn([[None, Some(1.0), Some(5.0)]], 2, 1) == Some([])
    ensures ColumnPoints([[None, Some(1.0), Some(5.0)]], 2, 1) == [(1.0, 5.0)]
  {
    var rows: seq<seq<Option<real>>> := [[None, Some(1.0), Some(5.0)]];
    assert rows[..0] == [];
  }

  /** The x values of `points` strictly increase and lie in `[0, bound)`. */
  predicate IncreasingBelow(points: seq<Point>, bound: nat)
  {
    (forall p, q :: 0 <= p < q < |points| ==> points[p].0 < points[q].0) &&
    (forall p :: 0 <= p < |points| ==> 0.0 <= points[p].0 < bound as real)
  }

  /**
   * Without an x axis, the plotted x values strictly increase and stay below
   * the number of long rows: row `j` among the long rows is plotted at `j`,
   * whether or not the cells before it were present.
   */
  lemma {:induction false} IndexedColumnIncreases(rows: seq<seq<Option<real>>>, i: nat)
    ensures IncreasingBelow(ColumnPoints(rows, i, -1), LongRows(rows, i))
  {
    if |rows| > 0 {
      var front := rows[..|rows| - 1];
      IndexedColumnIncreases(front, i);
      var before := ColumnPoints(front, i, -1);
      var row := rows[|rows| - 1];
      if i < |row| && row[i].Some? {
        var next := (LongRows(front, i) as real, row[i].value);
        assert LongRows(rows, i) == LongRows(front, i) + 1;
        assert ColumnPoints(rows, i, -1) == before + [next];
        assert forall p :: 0 <= p < |before| ==> before[p].0 < next.0;
      } else {
        assert LongRows(front, i) <= LongRows(rows, i);
        assert ColumnPoints(rows, i, -1) == before;
      }
    }
  }

  /** Row `k` has both its x cell and its column-`i` cell, and `point` pairs them. */
  predicate IsAxisPoint(rows: seq<seq<Option<real>>>, i: nat, xAxis: I16, k: int, point: Point)
  {
    0 <= k < |rows| && i < |rows[k]| && 0 <= xAxis < |rows[k]| &&
    rows[k][xAxis].Some? && rows[k][i].Some? && point == (rows[k][xAxis].value, rows[k][i].value)
  }

  /** With an x axis, every point pairs the x cell and the column cell of one row. */
  lemma {:induction false} AxisColumnPairsCells(rows: seq<seq<Option<real>>>, i: nat, xAxis: I16, p: nat)
    requires xAxis != -1 && p < |ColumnPoints(rows, i, xAxis)|
    ensures exists k :: IsAxisPoint(rows, i, xAxis, k, ColumnPoints(rows, i, xAxis)[p])
  {
    var front := rows[..|rows| - 1];
    if p < |ColumnPoints(front, i, xAxis)| {
      AxisColumnPairsCells(front, i, xAxis, p);
      var k :| IsAxisPoint(front, i, xAxis, k, ColumnPoints(front, i, xAxis)[p]);
      assert IsAxisPoint(rows, i, xAxis, k, ColumnPoints(rows, i, xAxis)[p]);
    } else {
      assert IsAxisPoint(rows, i, xAxis, |rows| - 1, ColumnPoints(rows, i, xAxis)[p]);
    }
  }

  /**
   * One line per header column, named after it and coloured by its index;
   * `update_data` colours line `i` with `GetColor(i)`.
   */
  function Lines(header: seq<string>, rows: seq<seq<Option<real>>>, xAxis: I16, color: nat -> Color): (lines: seq<Line>)
    ensures |lines| == |header|
  {
    seq(|header|, i requires 0 <= i < |header| => Line(ColumnPoints(rows, i, xAxis), color(i), header[i]))
  }

  /** The first `n` old factors, then `1.0` for every column that had none. */
  function Resized(factors: seq<real>, n: nat): (r: seq<real>)
    ensures |r| == n
    ensures forall i :: 0 <= i < n && i < |factors| ==> r[i] == factors[i]
    ensures forall i :: |factors| <= i < n ==> r[i] == 1.0
  {
    seq(n, i requires 0 <= i < n => if i < |factors| then factors[i] else 1.0)
  }

  /** A second resize to the same width changes nothing. */
  lemma ResizedIsIdempotent(factors: seq<real>, n: nat)
    ensures Resized(Resized(factors, n), n) == Resized(factors, n)
  {
  }

  /** `format!("Loaded {} rows with format {}", rows, header.join(", "))`. */
  function LoadedMessage(rows: nat, header: seq<string>): string
  {
    "Loaded " + NatToString(rows) + " rows with format " + Join(header, ", ")
  }

  /** `PlotFile`: the loaded table and the lines drawn from it. */
  class PlotFile {
    var data: seq<Line>
    var rawData: seq<seq<Option<real>>>
    var header: seq<string>
    var loadFileName: string
    var loadingError: Option<string>
    var loadDataMessage: Option<string>
    var xAxis: I16
    var scalingFactors: seq<real>
    var comments: seq<string>

    /** `PlotFile::default`. */
    constructor ()
      ensures data == [] && rawData == [] && header == [] && comments == []
      ensures loadFileName == "data.csv" && loadingError == None && loadDataMessage == None
      ensures xAxis == -1 && scalingFactors == []
    {
      data, rawData, header, comments := [], [], [], [];
      loadFileName := "data.csv";
      loadingError, loadDataMessage := None, None;
      xAxis := -1;
      scalingFactors := [];
    }

    /** The inner loop of `update_data`: the points of column `i`. */
    static method BuildColumn(rows: seq<seq<Option<real>>>, i: nat, xAxis: I16) returns (column: seq<Point>)
      ensures column == ColumnPoints(rows, i, xAxis)
    {
      column := [];
      var j: nat := 0;
      for k := 0 to |rows|
        invariant column == ColumnPoints(rows[..k], i, xAxis)
        invariant xAxis == -1 ==> j == LongRows(rows[..k], i)
      {
        assert rows[..k + 1][..k] == rows[..k];
        var row := rows[k];
        if |row| <= i {
          continue;
        }
        if xAxis != -1 {
          if 0 <= xAxis < |row| && row[xAxis].Some? && row[i].Some? {
            column := column + [(row[xAxis].value, row[i].value)];
          }
        } else {
          if row[i].Some? {
            column := column + [(j as real, row[i].value)];
          }
          j := j + 1;
        }
      }
      assert rows[..|rows|] == rows;
    }

    /** The first loop of `update_data`: one line per header column. */
    static method BuildLines(header: seq<string>, rows: seq<seq<Option<real>>>, xAxis: I16, color: nat -> Color)
      returns (lines: seq<Line>)
      ensures lines == Lines(header, rows, xAxis, color)
    {
      ghost var want := Lines(header, rows, xAxis, color);
      lines := [];
      for i := 0 to |header|
        invariant |lines| == i && forall k :: 0 <= k < i ==> lines[k] == want[k]
      {
        var column := BuildColumn(rows, i, xAxis);
        lines := lines + [Line(column, color(i), header[i])];
      }
    }

    /**
     * The scaling-factor loops of `update_data`: push `1.0` for every column
     * without a factor, then pop the factors of columns that are gone.
     */
    static method FitFactors(factors: seq<real>, n: nat) returns (fitted: seq<real>)
      ensures fitted == Resized(factors, n)
    {
      fitted := factors;
      for i := 0 to n
        invariant |fitted| == if i <= |factors| then |factors| else i
        invariant forall k :: 0 <= k < |fitted| ==> fitted[k] == if k < |factors| then factors[k] else 1.0
      {
        if |fitted| <= i {
          fitted := fitted + [1.0];
        }
      }
      while |fitted| > n
        invariant |fitted| >= n
        invariant forall k :: 0 <= k < |fitted| ==> fitted[k] == if k < |factors| then factors[k] else 1.0
      {
        fitted := fitted[..|fitted| - 1];
      }
    }

    /**
     * `update_data`: unless loading failed, rebuild one line per header
     * column, bring the scaling factors to one per column and report what
     * was loaded.
     */
    method UpdateData()
      modifies this
      ensures old(loadingError).Some? ==> unchanged(this)
      ensures old(loadingError).None? ==>
        data == Lines(header, rawData, xAxis, GetColor) &&
        scalingFactors == Resized(old(scalingFactors), |header|) &&
        loadDataMessage == Some(LoadedMessage(|rawData|, header))
      ensures rawData == old(rawData) && header == old(header) && xAxis == old(xAxis)
      ensures loadingError == old(loadingError) && loadFileName == old(loadFileName) && comments == old(comments)
    {
      if loadingError.None? {
        var header := this.header;
        var rows := this.rawData;
        data := BuildLines(header, rows, xAxis, GetColor);
        scalingFactors := FitFactors(scalingFactors, |header|);
        loadDataMessage := Some(LoadedMessage(|rows|, header));
      }
    }
  }
}
