/** The CSV export of the indicator panel: number formatting, field quoting as in section 2
    of RFC 4180 (rules 5 to 7: every field enclosed in double quotes, every embedded quote
    doubled) and the assembly of the document. The number-to-text conversions of the
    JavaScript runtime are parameters; the download itself is not modelled. */
module Exporter {
  import opened Common

  /** `toFixed(digits)`, `toExponential(digits)` and `String(x)` on finite numbers. */
  datatype Formatter = Formatter(fixed: (real, nat) -> string, exponential: (real, nat) -> string, show: real -> string)

  const PLACEHOLDER: string := "--"

  /** `String(n)` of any number, the non-finite ones included. */
  function ShowNum(fmt: Formatter, n: Num): string {
    match n
    case Fin(r) => fmt.show(r)
    case NaN => "NaN"
    case PosInf => "Infinity"
    case NegInf => "-Infinity"
  }

  /** `format(value, type)`: '--' for anything that is not a finite number, then the
      conversion the type names, and `String(value)` for an unknown type. */
  function Format(fmt: Formatter, value: Num, kind: string): (s: string)
    ensures !value.IsFinite() ==> s == PLACEHOLDER
    ensures value.IsFinite() ==>
      s == (if kind == "fixed1" then fmt.fixed(value.r, 1)
            else if kind == "fixed2" then fmt.fixed(value.r, 2)
            else if kind == "fixed3" then fmt.fixed(value.r, 3)
            else if kind == "fixed4" then fmt.fixed(value.r, 4)
            else if kind == "exp3" then fmt.exponential(value.r, 3)
            else fmt.show(value.r))
  {
    if !value.IsFinite() then PLACEHOLDER
    else match kind
      case "fixed1" => fmt.fixed(value.r, 1)
      case "fixed2" => fmt.fixed(value.r, 2)
      case "fixed3" => fmt.fixed(value.r, 3)
      case "fixed4" => fmt.fixed(value.r, 4)
      case "exp3" => fmt.exponential(value.r, 3)
      case _ => fmt.show(value.r)
  }

  /** An unknown format type gives the same text as `String(value)`. */
  lemma UnknownFormatIsString(fmt: Formatter, value: Num, kind: string)
    requires kind !in {"fixed1", "fixed2", "fixed3", "fixed4", "exp3"}
    ensures Format(fmt, value, kind) == (if value.IsFinite() then ShowNum(fmt, value) else PLACEHOLDER)
  {
  }

  // ---------------------------------------------------------------------------------------
  // Field quoting

  /** Every `"` doubled: `replace(/"/g, '""')`. */
  function Escape(f: string): (e: string)
    ensures |f| <= |e|
  {
    if |f| == 0 then ""
    else if f[0] == '"' then "\"\"" + Escape(f[1..])
    else [f[0]] + Escape(f[1..])
  }

  /** A field in double quotes; a null or undefined field (`None`) is the empty string. */
  function Quote(field: Option<string>): string {
    "\"" + Escape(field.GetOr("")) + "\""
  }

  /** Reads the body of a quoted field, after its opening quote: a doubled quote stands
      for one quote, and a single quote closes the field. Gives the field's text and what
      follows the closing quote, or `None` when the field is not closed. */
  function ScanBody(s: string): (r: Option<(string, string)>)
    ensures r.Some? ==> |r.value.1| < |s|
  {
    if |s| == 0 then None
    else if s[0] == '"' then
      if 2 <= |s| && s[1] == '"' then
        match ScanBody(s[2..])
        case Some((c, rest)) => Some(("\"" + c, rest))
        case None => None
      else Some(("", s[1..]))
    else
      match ScanBody(s[1..])
      case Some((c, rest)) => Some(([s[0]] + c, rest))
      case None => None
  }

  /** Un-doubling an escaped body gives the original text back, whatever follows the
      closing quote, as long as it does not start with another quote. */
  lemma {:induction false} ScanEscaped(f: string, rest: string)
    requires |rest| == 0 || rest[0] != '"'
    ensures ScanBody(Escape(f) + "\"" + rest) == Some((f, rest))
  {
    var s := Escape(f) + "\"" + rest;
    if |f| == 0 {
      assert s == "\"" + rest;
      assert s[1..] == rest;
    } else if f[0] == '"' {
      ScanEscaped(f[1..], rest);
      assert s == "\"\"" + (Escape(f[1..]) + "\"" + rest);
      assert s[2..] == Escape(f[1..]) + "\"" + rest;
      assert "\"" + f[1..] == f;
    } else {
      ScanEscaped(f[1..], rest);
      assert s == [f[0]] + (Escape(f[1..]) + "\"" + rest);
      assert s[1..] == Escape(f[1..]) + "\"" + rest;
      assert [f[0]] + f[1..] == f;
    }
  }

  /** Stripping the outer quotes and un-doubling gives back the original field. */
  lemma QuoteRoundTrip(field: Option<string>, rest: string)
    requires |rest| == 0 || rest[0] != '"'
    ensures var q := Quote(field) + rest;
      q[0] == '"' && ScanBody(q[1..]) == Some((field.GetOr(""), rest))
  {
    var q := Quote(field) + rest;
    assert q[1..] == Escape(field.GetOr("")) + "\"" + rest;
    ScanEscaped(field.GetOr(""), rest);
  }

  /** Different fields are quoted differently. */
  lemma QuoteInjective(a: string, b: string)
    requires Quote(Some(a)) == Quote(Some(b))
    ensures a == b
  {
    QuoteRoundTrip(Some(a), "");
    QuoteRoundTrip(Some(b), "");
    assert Quote(Some(a)) + "" == Quote(Some(b)) + "";
  }

  // ---------------------------------------------------------------------------------------
  // Rows

  /** The quoted fields joined with commas. */
  function JoinQuoted(fields: seq<Option<string>>): string
    requires 0 < |fields|
  {
    if |fields| == 1 then Quote(fields[0]) else Quote(fields[0]) + "," + JoinQuoted(fields[1..])
  }

  /** One data line: `sanitized.join(',') + '\n'`. */
  function RowLine(fields: seq<Option<string>>): string
    requires 0 < |fields|
  {
    JoinQuoted(fields) + "\n"
  }

  /** Reads one line of quoted, comma-separated fields ending in a line break; gives the
      fields and the text after the line break. */
  function ParseRow(s: string): (r: Option<(seq<string>, string)>)
    ensures r.Some? ==> |r.value.1| < |s|
    decreases |s|
  {
    if |s| == 0 || s[0] != '"' then None
    else match ScanBody(s[1..])
      case None => None
      case Some((f, r)) =>
        if 0 < |r| && r[0] == ',' then
          match ParseRow(r[1..])
          case Some((fs, rest)) => Some(([f] + fs, rest))
          case None => None
        else if 0 < |r| && r[0] == '\n' then Some(([f], r[1..]))
        else None
  }

  /** The text of each field, a missing one being empty. */
  function FieldTexts(fields: seq<Option<string>>): (t: seq<string>)
    ensures |t| == |fields|
    ensures forall i :: 0 <= i < |fields| ==> t[i] == fields[i].GetOr("")
  {
    seq(|fields|, i requires 0 <= i < |fields| => fields[i].GetOr(""))
  }

  /** A data line reads back as its fields, whatever text follows it. */
  lemma {:induction false} RowRoundTrip(fields: seq<Option<string>>, more: string)
    requires 0 < |fields|
    ensures ParseRow(RowLine(fields) + more) == Some((FieldTexts(fields), more))
    decreases |fields|
  {
    var s := RowLine(fields) + more;
    var q := Quote(fields[0]);
    if |fields| == 1 {
      assert s == q + ("\n" + more);
      QuoteRoundTrip(fields[0], "\n" + more);
      assert ("\n" + more)[1..] == more;
      assert FieldTexts(fields) == [fields[0].GetOr("")];
    } else {
      var tail := RowLine(fields[1..]) + more;
      assert s == q + ("," + tail);
      QuoteRoundTrip(fields[0], "," + tail);
      assert ("," + tail)[1..] == tail;
      RowRoundTrip(fields[1..], more);
      assert FieldTexts(fields) == [fields[0].GetOr("")] + FieldTexts(fields[1..]);
    }
  }

  /** All data lines, one after the other. */
  function RowsText(rows: seq<seq<Option<string>>>): string
    requires forall i :: 0 <= i < |rows| ==> 0 < |rows[i]|
  {
    if |rows| == 0 then "" else RowsText(rows[..|rows| - 1]) + RowLine(rows[|rows| - 1])
  }

  /** Reads data lines until the text is used up. */
  function ParseRows(s: string): Option<seq<seq<string>>>
    decreases |s|
  {
    if |s| == 0 then Some([])
    else match ParseRow(s)
      case None => None
      case Some((fs, rest)) =>
        match ParseRows(rest)
        case None => None
        case Some(more) => Some([fs] + more)
  }

  function AllFieldTexts(rows: seq<seq<Option<string>>>): (t: seq<seq<string>>)
    ensures |t| == |rows|
  {
    seq(|rows|, i requires 0 <= i < |rows| => FieldTexts(rows[i]))
  }

  /** One data line followed by readable text reads back as its fields, then that text. */
  lemma ParseRowsLine(fields: seq<Option<string>>, more: string)
    requires 0 < |fields| && ParseRows(more).Some?
    ensures ParseRows(RowLine(fields) + more) == Some([FieldTexts(fields)] + ParseRows(more).value)
  {
    RowRoundTrip(fields, more);
    assert RowLine(fields) + more != "";
  }

  /** The last row's line comes after those of the rows before it. */
  lemma RowsTextLast(rows: seq<seq<Option<string>>>, more: string)
    requires |rows| > 0 && forall i :: 0 <= i < |rows| ==> 0 < |rows[i]|
    ensures RowsText(rows) + more == RowsText(rows[..|rows| - 1]) + (RowLine(rows[|rows| - 1]) + more)
  {
    var a, b := RowsText(rows[..|rows| - 1]), RowLine(rows[|rows| - 1]);
    assert RowsText(rows) == a + b;
    assert (a + b) + more == a + (b + more);
  }

  /** The last row's field texts come after those of the rows before it. */
  lemma AllFieldTextsLast(rows: seq<seq<Option<string>>>)
    requires |rows| > 0
    ensures AllFieldTexts(rows) == AllFieldTexts(rows[..|rows| - 1]) + [FieldTexts(rows[|rows| - 1])]
  {
    var n := |rows| - 1;
    assert forall i :: 0 <= i < n ==> AllFieldTexts(rows[..n])[i] == FieldTexts(rows[i]);
  }

  /** Lines of text followed by further text read back line by line. */
  lemma {:induction false} RowsTextAppend(rows: seq<seq<Option<string>>>, more: string)
    requires forall i :: 0 <= i < |rows| ==> 0 < |rows[i]|
    requires ParseRows(more).Some?
    ensures ParseRows(RowsText(rows) + more) == Some(AllFieldTexts(rows) + ParseRows(more).value)
    decreases |rows|
  {
    if |rows| > 0 {
      var n := |rows| - 1;
      var line := RowLine(rows[n]);
      var after := ParseRows(more).value;
      ParseRowsLine(rows[n], more);
      RowsTextAppend(rows[..n], line + more);
      RowsTextLast(rows, more);
      AllFieldTextsLast(rows);
      assert AllFieldTexts(rows[..n]) + ([FieldTexts(rows[n])] + after) == AllFieldTexts(rows) + after;
    } else {
      assert RowsText(rows) + more == more;
      assert AllFieldTexts(rows) + ParseRows(more).value == ParseRows(more).value;
    }
  }

  /** The data lines read back as exactly the rows' field texts, in order. */
  lemma RowsRoundTrip(rows: seq<seq<Option<string>>>)
    requires forall i :: 0 <= i < |rows| ==> 0 < |rows[i]|
    ensures ParseRows(RowsText(rows)) == Some(AllFieldTexts(rows))
  {
    assert ParseRows("") == Some([]);
    RowsTextAppend(rows, "");
    assert RowsText(rows) + "" == RowsText(rows);
    assert AllFieldTexts(rows) + [] == AllFieldTexts(rows);
  }

  // ---------------------------------------------------------------------------------------
  // The document

  const HEADERS: seq<string> := ["Indicator", "Value_Theoretical", "Value_Simulated", "Unit"]

  /** `headers.join(',') + '\n'`, unquoted. */
  function HeaderLine(): string {
    HEADERS[0] + "," + HEADERS[1] + "," + HEADERS[2] + "," + HEADERS[3] + "\n"
  }

  /** The indicator values the panel reports; `None` is undefined or null. */
  datatype IndicatorsData = IndicatorsData(
    vpTheoretical: Num, vpSimulated: Num, vrmsTheoretical: Num, vrmsSimulated: Num, entropy: Num,
    temperatureEffective: Num, particleCount: Option<Num>, keTotal: Num, keAverage: Num,
    pressureRelative: Num, timeScale: Option<Num>, mfpTheoretical: Num, mfpSimulated: Num)

  /** `String(x ?? '--')` */
  function ShowOr(fmt: Formatter, x: Option<Num>): string {
    if x.Some? then ShowNum(fmt, x.value) else PLACEHOLDER
  }

  /** The ten rows of four fields: name, theoretical value, simulated value, unit. */
  function IndicatorRows(fmt: Formatter, d: IndicatorsData): (rows: seq<seq<Option<string>>>)
    ensures |rows| == 10
    ensures forall i :: 0 <= i < 10 ==> |rows[i]| == 4 && forall j :: 0 <= j < 4 ==> rows[i][j].Some?
  {
    [ [Some("最概然速率 (Vp)"), Some(Format(fmt, d.vpTheoretical, "fixed1")), Some(Format(fmt, d.vpSimulated, "fixed1")), Some("m/s")],
      [Some("方均根速率 (Vrms)"), Some(Format(fmt, d.vrmsTheoretical, "fixed1")), Some(Format(fmt, d.vrmsSimulated, "fixed1")), Some("m/s")],
      [Some("分布熵 (相对)"), Some(PLACEHOLDER), Some(Format(fmt, d.entropy, "fixed4")), Some("无单位")],
      [Some("当前有效温度 (Teff)"), Some(PLACEHOLDER), Some(Format(fmt, d.temperatureEffective, "fixed2")), Some("K")],
      [Some("粒子总数 (N)"), Some(PLACEHOLDER), Some(ShowOr(fmt, d.particleCount)), Some("个")],
      [Some("当前总动能"), Some(PLACEHOLDER), Some(Format(fmt, d.keTotal, "exp3")), Some("J")],
      [Some("平均动能/粒子"), Some(PLACEHOLDER), Some(Format(fmt, d.keAverage, "exp3")), Some("J")],
      [Some("相对压强 (Prel)"), Some(PLACEHOLDER), Some(Format(fmt, d.pressureRelative, "fixed3")), Some("相对值")],
      [Some("模拟时间尺度"), Some(PLACEHOLDER), Some(ShowOr(fmt, d.timeScale)), Some("x")],
      [Some("平均自由程 (λ)"), Some(Format(fmt, d.mfpTheoretical, "exp3")), Some(Format(fmt, d.mfpSimulated, "exp3")), Some("m")] ]
  }

  /** The CSV text: the header line, then one quoted line per row, accumulated row by row. */
  method BuildCsv(rows: seq<seq<Option<string>>>) returns (csv: string)
    requires forall i :: 0 <= i < |rows| ==> 0 < |rows[i]|
    ensures csv == HeaderLine() + RowsText(rows)
  {
    csv := HeaderLine();
    var i := 0;
    while i < |rows|
      invariant 0 <= i <= |rows|
      invariant csv == HeaderLine() + RowsText(rows[..i])
    {
      var line := JoinQuoted(rows[i]) + "\n";
      assert rows[..i + 1][..i] == rows[..i];
      csv := csv + line;
      i := i + 1;
    }
    assert rows[..|rows|] == rows;
  }

  /** `exportIndicatorsToCSV` up to the download: `getter` is `None` when no data source is
      installed and `Some(None)` when it returns nothing; in both cases there is no CSV. */
  method ExportIndicatorsToCsv(fmt: Formatter, getter: Option<Option<IndicatorsData>>) returns (csv: Option<string>)
    ensures (getter.None? || getter.value.None?) ==> csv.None?
    ensures getter.Some? && getter.value.Some? ==>
      csv == Some(HeaderLine() + RowsText(IndicatorRows(fmt, getter.value.value)))
  {
    if getter.None? || getter.value.None? {
      return None;
    }
    var text := BuildCsv(IndicatorRows(fmt, getter.value.value));
    csv := Some(text);
  }

  /** The exported document is the header line followed by the ten rows, which read back
      as their field texts. */
  lemma ExportReadsBack(fmt: Formatter, d: IndicatorsData)
    ensures var rows := IndicatorRows(fmt, d);
      ParseRows(RowsText(rows)) == Some(AllFieldTexts(rows))
      && |AllFieldTexts(rows)| == 10
      && forall i :: 0 <= i < 10 ==> |AllFieldTexts(rows)[i]| == 4
  {
    RowsRoundTrip(IndicatorRows(fmt, d));
  }
}
