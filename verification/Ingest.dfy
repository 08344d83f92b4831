/** Reading a point-of-sale export line by line into rows, rejects and blanks. */
module Ingest {
  import opened Common
  import opened Text
  import opened Normalization

  // ----- reading a file -----

  type Cells = seq<string>

  /** One line after the header: readable as CSV or not. */
  datatype Line = Unreadable(cells: Cells) | Record(cells: Cells)

  datatype ParsedRow = ParsedRow(source: string, ext: string, time: Time, payload: map<string, string>)

  datatype Reason = BadCsv | TooFewColumns | NoSource | BadTime

  datatype Reject = Reject(line: nat, reason: Reason, cells: Cells)

  datatype Verdict = Blank | Rejected(reason: Reason) | Accepted(row: ParsedRow)

  const REQUIRED_COLUMNS := ["pos_source_id", "external_id", "occurred_at", "product_alias",
                             "quantity_liters", "unit_price", "total_amount", "payment_method"]

  const BYTE_ORDER_MARK := 0xFEFF as char

  function ColumnName(h: string): string {
    ToLower(TrimSpace(if h != [] && h[0] == BYTE_ORDER_MARK then h[1..] else h))
  }

  function ColumnNames(header: Cells): (names: Cells)
    ensures |names| == |header|
  {
    if header == [] then [] else [ColumnName(header[0])] + ColumnNames(header[1..])
  }

  /** The last column called `name`. */
  function Column(names: Cells, name: string): (i: nat)
    requires name in names
    ensures i < |names| && names[i] == name
    ensures forall k :: i < k < |names| ==> names[k] != name
  {
    if names[|names| - 1] == name then |names| - 1 else Column(names[..|names| - 1], name)
  }

  /** The row as an object keyed by column name; of equal names the last counts. */
  function Payload(names: Cells, cells: Cells): map<string, string>
    requires |names| <= |cells|
  {
    if names == [] then map[]
    else Payload(names[..|names| - 1], cells)[names[|names| - 1] := TrimSpace(cells[|names| - 1])]
  }

  predicate HasRequired(names: Cells) { forall i :: 0 <= i < |REQUIRED_COLUMNS| ==> REQUIRED_COLUMNS[i] in names }

  function Classify(names: Cells, line: Line, readTime: string -> Option<Time>): Verdict
    requires HasRequired(names)
  {
    assert REQUIRED_COLUMNS[0] in names && REQUIRED_COLUMNS[1] in names && REQUIRED_COLUMNS[2] in names;
    if line.Unreadable? then Rejected(BadCsv)
    else if |line.cells| == 1 && TrimSpace(line.cells[0]) == "" then Blank
    else if |line.cells| < |names| then Rejected(TooFewColumns)
    else
      var payload := Payload(names, line.cells);
      var source := TrimSpace(line.cells[Column(names, "pos_source_id")]);
      var time := readTime(TrimSpace(line.cells[Column(names, "occurred_at")]));
      if source == "" then Rejected(NoSource)
      else if time.None? then Rejected(BadTime)
      else Accepted(ParsedRow(source, TrimSpace(line.cells[Column(names, "external_id")]), time.value, payload))
  }

  function AcceptedRows(names: Cells, lines: seq<Line>, readTime: string -> Option<Time>): seq<ParsedRow>
    requires HasRequired(names)
  {
    if lines == [] then []
    else
      var v := Classify(names, lines[|lines| - 1], readTime);
      AcceptedRows(names, lines[..|lines| - 1], readTime) + (if v.Accepted? then [v.row] else [])
  }

  /** Line numbers count the header as line 1. */
  function RejectedRows(names: Cells, lines: seq<Line>, readTime: string -> Option<Time>): seq<Reject>
    requires HasRequired(names)
  {
    if lines == [] then []
    else
      var v := Classify(names, lines[|lines| - 1], readTime);
      RejectedRows(names, lines[..|lines| - 1], readTime) +
      (if v.Rejected? then [Reject(|lines| + 1, v.reason, lines[|lines| - 1].cells)] else [])
  }

  datatype File = File(names: Cells, rows: seq<ParsedRow>, rejects: seq<Reject>)

  /** Fails only when a required column is missing; otherwise sorts the lines into rows and rejects. */
  method ParseFile(header: Cells, lines: seq<Line>, readTime: string -> Option<Time>) returns (r: Result<File>)
    ensures r.Ok? <==> HasRequired(ColumnNames(header))
    ensures r.Ok? ==> r.value == File(ColumnNames(header), AcceptedRows(ColumnNames(header), lines, readTime),
                                      RejectedRows(ColumnNames(header), lines, readTime))
  {
    var names := ColumnNames(header);
    for i := 0 to |REQUIRED_COLUMNS|
      invariant forall k :: 0 <= k < i ==> REQUIRED_COLUMNS[k] in names
    {
      if REQUIRED_COLUMNS[i] !in names { return Err(REQUIRED_COLUMNS[i]); }
    }
    var rows: seq<ParsedRow>, rejects: seq<Reject> := [], [];
    for i := 0 to |lines|
      invariant rows == AcceptedRows(names, lines[..i], readTime) &&
                rejects == RejectedRows(names, lines[..i], readTime)
    {
      assert lines[..i + 1][..i] == lines[..i];
      match Classify(names, lines[i], readTime) {
        case Blank =>
        case Rejected(reason) => rejects := rejects + [Reject(i + 2, reason, lines[i].cells)];
        case Accepted(row) => rows := rows + [row];
      }
    }
    assert lines[..|lines|] == lines;
    return Ok(File(names, rows, rejects));
  }

  /**
    Every line is blank, or is stored as exactly its place among the rows, or is rejected verbatim under
    its own number.
   */
  lemma {:induction false} NoLineLost(names: Cells, lines: seq<Line>, readTime: string -> Option<Time>, i: nat)
    requires HasRequired(names) && i < |lines|
    ensures var v := Classify(names, lines[i], readTime);
            var rows, rejects := AcceptedRows(names, lines, readTime), RejectedRows(names, lines, readTime);
            var k, j := |AcceptedRows(names, lines[..i], readTime)|, |RejectedRows(names, lines[..i], readTime)|;
            (v.Accepted? ==> k < |rows| && rows[k] == v.row) &&
            (v.Rejected? ==> j < |rejects| && rejects[j] == Reject(i + 2, v.reason, lines[i].cells))
  {
    if i < |lines| - 1 {
      NoLineLost(names, lines[..|lines| - 1], readTime, i);
      assert lines[..|lines| - 1][..i] == lines[..i];
    }
  }

  /** And nothing else comes out: rows, rejects and blank lines add up to the file. */
  lemma {:induction false} NothingAdded(names: Cells, lines: seq<Line>, readTime: string -> Option<Time>)
    requires HasRequired(names)
    ensures |AcceptedRows(names, lines, readTime)| + |RejectedRows(names, lines, readTime)| + Blanks(lines) == |lines|
  {
    if lines != [] { NothingAdded(names, lines[..|lines| - 1], readTime); }
  }

  function Blanks(lines: seq<Line>): nat {
    if lines == [] then 0
    else
      var last := lines[|lines| - 1];
      Blanks(lines[..|lines| - 1]) +
        (if last.Record? && |last.cells| == 1 && TrimSpace(last.cells[0]) == "" then 1 else 0)
  }

  lemma {:induction false} PayloadAt(names: Cells, cells: Cells, name: string)
    requires |names| <= |cells| && name in names
    ensures name in Payload(names, cells) && Payload(names, cells)[name] == TrimSpace(cells[Column(names, name)])
  {
    if names[|names| - 1] != name { PayloadAt(names[..|names| - 1], cells, name); }
  }

  /** A stored row's source, external id and time are what its payload says. */
  lemma AcceptedRowAgreesWithPayload(names: Cells, line: Line, readTime: string -> Option<Time>)
    requires HasRequired(names) && Classify(names, line, readTime).Accepted?
    ensures var row := Classify(names, line, readTime).row;
            "pos_source_id" in row.payload && row.payload["pos_source_id"] == row.source != "" &&
            "external_id" in row.payload && row.payload["external_id"] == row.ext &&
            "occurred_at" in row.payload && readTime(row.payload["occurred_at"]) == Some(row.time)
  {
    assert REQUIRED_COLUMNS[0] in names && REQUIRED_COLUMNS[1] in names && REQUIRED_COLUMNS[2] in names;
    PayloadAt(names, line.cells, "pos_source_id");
    PayloadAt(names, line.cells, "external_id");
    PayloadAt(names, line.cells, "occurred_at");
  }

  lemma {:induction false} PayloadKeys(names: Cells, cells: Cells)
    requires |names| <= |cells|
    ensures Payload(names, cells).Keys == set name | name in names
  {
    if names != [] {
      var front, last := names[..|names| - 1], names[|names| - 1];
      assert names == front + [last];
      PayloadKeys(front, cells);
    }
  }

  /** A line with nothing in it but blanks. */
  predicate IsBlankLine(line: Line) { line.Record? && |line.cells| == 1 && TrimSpace(line.cells[0]) == "" }

  /** Unreadable lines, blank ones and those that are too short, in that order of precedence. */
  lemma EarlyVerdictIs(names: Cells, line: Line, readTime: string -> Option<Time>)
    requires HasRequired(names)
    ensures var v := Classify(names, line, readTime);
            (v == Rejected(BadCsv) <==> line.Unreadable?) && (v.Blank? <==> IsBlankLine(line)) &&
            (v == Rejected(TooFewColumns) <==> line.Record? && !IsBlankLine(line) && |line.cells| < |names|)
  {
  }

  lemma RequiredNames(names: Cells)
    requires HasRequired(names)
    ensures "pos_source_id" in names && "occurred_at" in names
  {
    assert REQUIRED_COLUMNS[0] in names && REQUIRED_COLUMNS[2] in names;
  }

  /** A line long enough is rejected when it names no source or its time cannot be read, and is otherwise accepted. */
  lemma LateVerdictIs(names: Cells, line: Line, readTime: string -> Option<Time>)
    requires HasRequired(names) && line.Record? && !IsBlankLine(line) && |names| <= |line.cells|
    ensures "pos_source_id" in names && "occurred_at" in names
    ensures var source, time := Said(names, line.cells, "pos_source_id"), Said(names, line.cells, "occurred_at");
            var v := Classify(names, line, readTime);
            if source == "" then v == Rejected(NoSource)
            else if readTime(time).None? then v == Rejected(BadTime)
            else v.Accepted?
  {
    RequiredNames(names);
  }

  /** What the line says in a column. */
  function Said(names: Cells, cells: Cells, name: string): string
    requires |names| <= |cells| && name in names
  {
    TrimSpace(cells[Column(names, name)])
  }

  /** A payload has every column of the file, as the line says it, and no more. */
  lemma PayloadIs(names: Cells, cells: Cells, name: string)
    requires |names| <= |cells|
    ensures name in Payload(names, cells) <==> name in names
    ensures name in names ==> Payload(names, cells)[name] == Said(names, cells, name)
  {
    PayloadKeys(names, cells);
    if name in names { PayloadAt(names, cells, name); }
  }

  /** An accepted line is stored with all that it says, column by column, and nothing else. */
  lemma AcceptedSays(names: Cells, line: Line, readTime: string -> Option<Time>, name: string)
    requires HasRequired(names) && Classify(names, line, readTime).Accepted?
    ensures var payload := Classify(names, line, readTime).row.payload;
            |names| <= |line.cells| && (name in payload <==> name in names) &&
            (name in names ==> payload[name] == Said(names, line.cells, name))
  {
    PayloadIs(names, line.cells, name);
  }

  /** A byte-order mark in front of a column name is ignored; otherwise the name is trimmed and in lower case. */
  lemma ColumnNameForgives(h: string)
    requires h == "" || h[0] != BYTE_ORDER_MARK
    ensures ColumnName([BYTE_ORDER_MARK] + h) == ColumnName(h) == ToLower(TrimSpace(h))
  {
    assert ([BYTE_ORDER_MARK] + h)[1..] == h;
  }

  /** A file is taken exactly when its header names all eight columns, in any order. */
  lemma HeaderTakenIff(names: Cells)
    ensures HasRequired(names) <==>
            "pos_source_id" in names && "external_id" in names && "occurred_at" in names && "product_alias" in names &&
            "quantity_liters" in names && "unit_price" in names && "total_amount" in names && "payment_method" in names
  {
    var c := REQUIRED_COLUMNS;
    assert c == [c[0], c[1], c[2], c[3], c[4], c[5], c[6], c[7]];
    if HasRequired(names) { assert c[0] in names && c[1] in names && c[2] in names && c[3] in names; }
    if HasRequired(names) { assert c[4] in names && c[5] in names && c[6] in names && c[7] in names; }
  }
}
