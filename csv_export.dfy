/**
 * GET /api/export/:format. The JSON branch hands the collection to the
 * library serialiser (not modelled); the CSV branch is written out: a
 * header line of the first record's keys, then one line per record of that
 * record's own values, commas between cells and newlines between lines.
 */
module CsvExport {
  import opened Results
  import opened Text
  import opened Records

  datatype ExportError = NoData | InvalidFormat
  {
    function Status(): nat
    {
      match this
      case NoData => 404
      case InvalidFormat => 400
    }

    function Message(): string
    {
      match this
      case NoData => "No data to export"
      case InvalidFormat => "Invalid format"
    }
  }

  /** The body sent back: the collection for `JSON.stringify`, or the CSV text. */
  datatype Payload = JsonDocument(records: seq<Record>) | CsvDocument(text: string)

  /** The string `join` makes of a value: `null` becomes the empty string. */
  function Display(v: Value): string
  {
    if v.Null? then "" else ToText(v)
  }

  /** One cell: a string holding a comma is wrapped in quotes, inner quotes left as they are. */
  function Cell(v: Value): string
  {
    if v.Str? && ',' in v.s then "\"" + v.s + "\"" else Display(v)
  }

  function Cells(vs: seq<Value>): (cs: seq<string>)
    ensures |cs| == |vs|
  {
    seq(|vs|, i requires 0 <= i < |vs| => Cell(vs[i]))
  }

  /** What `join` shows of each value, in order. */
  function Texts(vs: seq<Value>): (ts: seq<string>)
    ensures |ts| == |vs|
  {
    seq(|vs|, i requires 0 <= i < |vs| => Display(vs[i]))
  }

  function HeaderLine(first: Record): string
  {
    Join(Keys(first), ",")
  }

  function Row(r: Record): string
  {
    Join(Cells(Values(r)), ",")
  }

  function Rows(ips: seq<Record>): (rows: seq<string>)
    ensures |rows| == |ips|
  {
    seq(|ips|, i requires 0 <= i < |ips| => Row(ips[i]))
  }

  /** `[headers, ...rows].join('\n')`: no newline after the last row. */
  function Csv(ips: seq<Record>): string
    requires ips != []
  {
    Join([HeaderLine(ips[0])] + Rows(ips), "\n")
  }

  /** The export route after authentication, on the collection it has just read. */
  function Export(ips: seq<Record>, format: string): (r: Result<Payload, ExportError>)
    ensures format == "json" ==> r == Success(JsonDocument(ips))
    ensures format == "csv" ==> (r == Failure(NoData) <==> ips == [])
    ensures format == "csv" && ips != [] ==> r == Success(CsvDocument(Csv(ips)))
    ensures r == Failure(InvalidFormat) <==> format != "json" && format != "csv"
    ensures r.Failure? ==> r.error.Status() == (if format == "csv" then 404 else 400)
  {
    if format == "json" then Success(JsonDocument(ips))
    else if format == "csv" then
      if |ips| == 0 then Failure(NoData) else Success(CsvDocument(Csv(ips)))
    else Failure(InvalidFormat)
  }

  /** A one-entry export: `[{a: "1", b: "x,y"}]` gives `a,b\n1,"x,y"`. */
  lemma CsvOfOneRecord()
    ensures Csv([[("a", Str("1")), ("b", Str("x,y"))]]) == "a,b\n1,\"x,y\""
  {
    var r := [("a", Str("1")), ("b", Str("x,y"))];
    assert Keys(r) == ["a", "b"];
    assert Values(r) == [Str("1"), Str("x,y")];
    assert "x,y"[1] == ',';
    assert Cell(Str("1")) == "1";
    assert Cell(Str("x,y")) == "\"x,y\"";
    assert Cells(Values(r)) == ["1", "\"x,y\""];
    assert Row(r) == "1,\"x,y\"";
    assert Rows([r]) == ["1,\"x,y\""];
    assert HeaderLine(r) == "a,b";
    var lines := [HeaderLine(r)] + Rows([r]);
    assert lines == ["a,b", "1,\"x,y\""];
    assert lines[1..] == ["1,\"x,y\""];
    assert Join(lines[1..], "\n") == "1,\"x,y\"";
    assert Join(lines, "\n") == "a,b" + "\n" + "1,\"x,y\"";
    assert Csv([r]) == Join(lines, "\n");
  }

  /**
   * A reader for the lines the export writes: a field that starts with a
   * quote runs to the next quote, any other field to the next comma.
   */
  function ReadFields(line: string): seq<string>
    decreases |line|
  {
    if |line| > 0 && line[0] == '"' then
      match IndexOf(line[1..], '"')
      case None => [line]
      case Some(k) =>
        var rest := line[k + 2..];
        if rest == "" then [line[1..k + 1]]
        else if rest[0] == ',' then [line[1..k + 1]] + ReadFields(rest[1..])
        else [line]
    else
      match IndexOf(line, ',')
      case None => [line]
      case Some(k) => [line[..k]] + ReadFields(line[k + 1..])
  }

  /** `cell` is `text` written bare (no comma, no quote) or quoted (no quote inside). */
  predicate Encodes(cell: string, text: string)
  {
    '"' !in text && ((cell == text && ',' !in text) || cell == "\"" + text + "\"")
  }

  lemma ReadBareField(text: string, tail: string)
    requires ',' !in text && '"' !in text
    ensures ReadFields(text) == [text]
    ensures ReadFields(text + "," + tail) == [text] + ReadFields(tail)
  {
    assert |text| > 0 ==> text[0] != '"';
    var line := text + "," + tail;
    assert line[..|text|] == text;
    assert line[|text| + 1..] == tail;
    assert |line| > 0 && line[0] != '"' by {
      if |text| > 0 { assert line[0] == text[0]; }
    }
    IndexOfIs(line, ',', |text|);
  }

  lemma ReadQuotedFieldAlone(text: string)
    requires '"' !in text
    ensures ReadFields("\"" + text + "\"") == [text]
  {
    var cell := "\"" + text + "\"";
    assert cell[1..] == text + "\"";
    assert cell[1..][..|text|] == text;
    IndexOfIs(cell[1..], '"', |text|);
    assert cell[1..|text| + 1] == text;
    assert cell[|text| + 2..] == "";
  }

  lemma ReadQuotedFieldThenMore(text: string, tail: string)
    requires '"' !in text
    ensures ReadFields("\"" + text + "\"" + "," + tail) == [text] + ReadFields(tail)
  {
    var line := "\"" + text + "\"" + "," + tail;
    assert line[1..] == text + "\"" + "," + tail;
    assert line[1..][..|text|] == text;
    IndexOfIs(line[1..], '"', |text|);
    assert line[|text| + 2..] == "," + tail;
    assert line[1..|text| + 1] == text;
  }

  lemma ReadEncodedField(cell: string, text: string, tail: string)
    requires Encodes(cell, text)
    ensures ReadFields(cell) == [text]
    ensures ReadFields(cell + "," + tail) == [text] + ReadFields(tail)
  {
    if cell == text && ',' !in text {
      ReadBareField(text, tail);
    } else {
      ReadQuotedFieldAlone(text);
      ReadQuotedFieldThenMore(text, tail);
    }
  }

  /** Reading a joined line of encoded cells gives back the texts, one per cell. */
  lemma {:induction false} ReadFieldsJoin(cells: seq<string>, texts: seq<string>)
    requires |cells| == |texts| >= 1
    requires forall i :: 0 <= i < |cells| ==> Encodes(cells[i], texts[i])
    ensures ReadFields(Join(cells, ",")) == texts
    decreases |cells|
  {
    if |cells| == 1 {
      ReadEncodedField(cells[0], texts[0], "");
    } else {
      ReadFieldsJoin(cells[1..], texts[1..]);
      ReadEncodedField(cells[0], texts[0], Join(cells[1..], ","));
      assert [texts[0]] + texts[1..] == texts;
    }
  }

  /** A value the reader can recover: no string holds a quote or a newline. */
  predicate Plain(v: Value)
  {
    v.Str? ==> '"' !in v.s && '\n' !in v.s
  }

  /** A key the reader can recover from the header line. */
  predicate PlainKey(k: string)
  {
    ',' !in k && '"' !in k && '\n' !in k
  }

  /** Every value's cell is its text, quoted exactly when that text holds a comma. */
  lemma CellQuotesOnlyCommas(v: Value)
    ensures Cell(v) == if ',' in Display(v) then "\"" + Display(v) + "\"" else Display(v)
  {
    if v.Num? {
      var t := IntToString(v.n);
      assert forall i :: 0 <= i < |t| ==> t[i] == '-' || '0' <= t[i] <= '9';
    }
  }

  lemma CellEncodes(v: Value)
    requires Plain(v)
    ensures Encodes(Cell(v), Display(v))
    ensures '\n' !in Cell(v)
  {
    CellQuotesOnlyCommas(v);
    if v.Num? {
      var t := IntToString(v.n);
      assert forall i :: 0 <= i < |t| ==> t[i] == '-' || '0' <= t[i] <= '9';
    }
  }

  lemma RowReadsBack(r: Record)
    requires |r| >= 1
    requires forall j :: 0 <= j < |r| ==> Plain(r[j].1)
    ensures ReadFields(Row(r)) == Texts(Values(r))
    ensures '\n' !in Row(r)
  {
    var vs := Values(r);
    var cs := Cells(vs);
    forall j | 0 <= j < |vs| ensures Encodes(cs[j], Texts(vs)[j]) && '\n' !in cs[j] {
      CellEncodes(vs[j]);
    }
    ReadFieldsJoin(cs, Texts(vs));
    JoinAvoids(cs, ",", '\n');
  }

  lemma HeaderReadsBack(first: Record)
    requires |first| >= 1
    requires forall j :: 0 <= j < |first| ==> PlainKey(first[j].0)
    ensures ReadFields(HeaderLine(first)) == Keys(first)
    ensures '\n' !in HeaderLine(first)
  {
    var ks := Keys(first);
    assert forall j :: 0 <= j < |ks| ==> Encodes(ks[j], ks[j]);
    ReadFieldsJoin(ks, ks);
    JoinAvoids(ks, ",", '\n');
  }

  /**
   * The CSV text holds exactly one header line and one line per record, in
   * collection order; reading them back gives the first record's keys and
   * each record's own values in its own key order. This holds when no key
   * holds a comma, quote or newline and no string value a quote or newline.
   */
  lemma CsvReadsBack(ips: seq<Record>)
    requires ips != []
    requires forall j :: 0 <= j < |ips[0]| ==> PlainKey(ips[0][j].0)
    requires forall i :: 0 <= i < |ips| ==> |ips[i]| >= 1
    requires forall i, j :: 0 <= i < |ips| && 0 <= j < |ips[i]| ==> Plain(ips[i][j].1)
    ensures |SplitOn(Csv(ips), '\n')| == |ips| + 1
    ensures ReadFields(SplitOn(Csv(ips), '\n')[0]) == Keys(ips[0])
    ensures forall i :: 0 <= i < |ips| ==> ReadFields(SplitOn(Csv(ips), '\n')[i + 1]) == Texts(Values(ips[i]))
  {
    var lines := [HeaderLine(ips[0])] + Rows(ips);
    HeaderReadsBack(ips[0]);
    forall i | 0 <= i < |ips| ensures ReadFields(Rows(ips)[i]) == Texts(Values(ips[i])) && '\n' !in Rows(ips)[i] {
      RowReadsBack(ips[i]);
    }
    assert forall i :: 0 <= i < |lines| ==> '\n' !in lines[i] by {
      forall i | 0 <= i < |lines| ensures '\n' !in lines[i] {
        if i > 0 { assert lines[i] == Rows(ips)[i - 1]; }
      }
    }
    SplitJoin(lines, '\n');
    assert SplitOn(Csv(ips), '\n') == lines;
    forall i | 0 <= i < |ips| ensures ReadFields(lines[i + 1]) == Texts(Values(ips[i])) {
      assert lines[i + 1] == Rows(ips)[i];
    }
  }
}
