/** The audit log's CSV export (web/src/lib/audit-shared.ts), printed with
    formula neutralisation and quoting, against an independent reader of the
    format of section 2 of RFC 4180.

    Numbers, dates and the details object enter as the strings JavaScript makes
    of them. The reader takes any character but quote, comma, CR and LF in an
    unquoted field, where the RFC's grammar lists only printable ASCII. */
module Csv {
  import opened Wrappers

  datatype AuditRow = AuditRow(
    id: string, createdAt: string, actorType: string, actorId: Option<string>, actorLabel: string,
    impersonatorId: Option<string>, action: string, organizationId: Option<string>,
    organizationSlug: Option<string>, targetType: Option<string>, targetId: Option<string>,
    targetLabel: Option<string>, details: Option<string>, ip: Option<string>, userAgent: Option<string>)

  const COLUMNS: seq<string> := [
    "id", "created_at", "actor_type", "actor_id", "actor_label", "impersonator_id", "action",
    "organization_id", "organization_slug", "target_type", "target_id", "target_label", "details", "ip", "user_agent"
  ]

  function Cells(r: AuditRow): (cells: seq<Option<string>>)
    ensures |cells| == |COLUMNS| == 15
  {
    [Some(r.id), Some(r.createdAt), Some(r.actorType), r.actorId, Some(r.actorLabel), r.impersonatorId, Some(r.action),
     r.organizationId, r.organizationSlug, r.targetType, r.targetId, r.targetLabel, r.details, r.ip, r.userAgent]
  }

  // ---- The printer ----

  predicate IsFormulaStart(c: char) {
    c == '=' || c == '+' || c == '-' || c == '@' || c == '\t' || c == '\r'
  }

  /** The value a spreadsheet is meant to show: never a formula. */
  function Neutralised(v: Option<string>): (safe: string)
    ensures safe != "" ==> !IsFormulaStart(safe[0])
  {
    match v
    case None => ""
    case Some(s) => if s != "" && IsFormulaStart(s[0]) then "'" + s else s
  }

  predicate IsSpecial(c: char) {
    c == '"' || c == ',' || c == '\n' || c == '\r'
  }

  predicate Plain(s: string) {
    forall i :: 0 <= i < |s| ==> !IsSpecial(s[i])
  }

  function DoubleQuotes(s: string): string {
    if s == "" then "" else (if s[0] == '"' then "\"\"" else [s[0]]) + DoubleQuotes(s[1..])
  }

  function Quoted(s: string): string {
    if Plain(s) then s else "\"" + DoubleQuotes(s) + "\""
  }

  function CsvCell(v: Option<string>): string {
    Quoted(Neutralised(v))
  }

  function JoinCells(cells: seq<string>): string {
    if cells == [] then ""
    else if |cells| == 1 then cells[0]
    else cells[0] + "," + JoinCells(cells[1..])
  }

  const CRLF := "\r\n"

  function Lines(records: seq<seq<string>>): string {
    if records == [] then "" else JoinCells(QuotedAll(records[0])) + CRLF + Lines(records[1..])
  }

  function QuotedAll(values: seq<string>): (cells: seq<string>)
    ensures |cells| == |values|
  {
    seq(|values|, i requires 0 <= i < |values| => Quoted(values[i]))
  }

  /** The values of one data record. */
  function Record(r: AuditRow): (values: seq<string>)
    ensures |values| == 15
    ensures forall i :: 0 <= i < 15 && values[i] != "" ==> !IsFormulaStart(values[i][0])
  {
    seq(15, i requires 0 <= i < 15 => Neutralised(Cells(r)[i]))
  }

  function Records(rows: seq<AuditRow>): (records: seq<seq<string>>)
    ensures |records| == |rows|
    ensures forall i :: 0 <= i < |rows| ==> records[i] == Record(rows[i])
  {
    seq(|rows|, i requires 0 <= i < |rows| => Record(rows[i]))
  }

  // ---- What the cells hold ----

  /** The cell shows the value itself, with a quote in front exactly where it would
      begin like a formula; a missing value shows nothing. */
  predicate ShownAs(v: Option<string>, cell: string) {
    match v
    case None => cell == ""
    case Some(s) =>
      if s != "" && (s[0] == '=' || s[0] == '+' || s[0] == '-' || s[0] == '@' || s[0] == '\t' || s[0] == '\r')
      then cell == "'" + s
      else cell == s
  }

  lemma NeutralisedIsShown(v: Option<string>)
    ensures ShownAs(v, Neutralised(v))
  {
  }

  /** Each value of a record is the row's field for its column. */
  lemma RecordHoldsFields(r: AuditRow)
    ensures var v := Record(r);
            && ShownAs(Some(r.id), v[0]) && ShownAs(Some(r.createdAt), v[1]) && ShownAs(Some(r.actorType), v[2])
            && ShownAs(r.actorId, v[3]) && ShownAs(Some(r.actorLabel), v[4]) && ShownAs(r.impersonatorId, v[5])
            && ShownAs(Some(r.action), v[6]) && ShownAs(r.organizationId, v[7]) && ShownAs(r.organizationSlug, v[8])
            && ShownAs(r.targetType, v[9]) && ShownAs(r.targetId, v[10]) && ShownAs(r.targetLabel, v[11])
            && ShownAs(r.details, v[12]) && ShownAs(r.ip, v[13]) && ShownAs(r.userAgent, v[14])
  {
    hide ShownAs, Record, Cells;
    ValuesShowCells(r);
    CellsAreFields(r);
  }

  lemma ValuesShowCells(r: AuditRow)
    ensures forall i :: 0 <= i < 15 ==> ShownAs(Cells(r)[i], Record(r)[i])
  {
    hide Cells, ShownAs, Neutralised;
    forall i | 0 <= i < 15 ensures ShownAs(Cells(r)[i], Record(r)[i]) { NeutralisedIsShown(Cells(r)[i]); }
  }

  lemma CellsAreFields(r: AuditRow)
    ensures var c := Cells(r);
            && c[0] == Some(r.id) && c[1] == Some(r.createdAt) && c[2] == Some(r.actorType) && c[3] == r.actorId
            && c[4] == Some(r.actorLabel) && c[5] == r.impersonatorId && c[6] == Some(r.action)
            && c[7] == r.organizationId && c[8] == r.organizationSlug && c[9] == r.targetType
            && c[10] == r.targetId && c[11] == r.targetLabel && c[12] == r.details && c[13] == r.ip
            && c[14] == r.userAgent
  {
  }

  lemma FirstColumns()
    ensures COLUMNS[..5] == ["id", "created_at", "actor_type", "actor_id", "actor_label"]
  {
  }

  lemma MiddleColumns()
    ensures COLUMNS[5..10] == ["impersonator_id", "action", "organization_id", "organization_slug", "target_type"]
  {
  }

  lemma LastColumns()
    ensures COLUMNS[10..] == ["target_id", "target_label", "details", "ip", "user_agent"]
  {
  }

  /** A cell without quotes around it holds nothing that would need them. */
  lemma CellsAreWellFormed(v: Option<string>)
    ensures var c := CsvCell(v);
            || (|c| >= 2 && c[0] == '"' && c[|c| - 1] == '"')
            || forall i :: 0 <= i < |c| ==> c[i] != '"' && c[i] != ',' && c[i] != '\n' && c[i] != '\r'
  {
    hide DoubleQuotes, Neutralised;
  }

  /** The export: one line per row, each ended by CRLF. Read back by the
      standard's grammar it is the header and, for every table of arbitrary
      strings, exactly one 15-field record per row. */
  method AuditRowsToCsv(rows: seq<AuditRow>) returns (csv: string)
    ensures csv == Lines([COLUMNS] + Records(rows))
    ensures ParseFile(csv) == Some([COLUMNS] + Records(rows))
  {
    hide JoinCells, JoinLines, Lines, ParseFile, CsvCell, Cells, LinesOf;
    var lines := [JoinCells(COLUMNS)];
    HeaderLine();
    assert rows[..0] == [];
    for n := 0 to |rows|
      invariant |lines| == n + 1
      invariant LinesOf(lines, [COLUMNS] + Records(rows[..n]))
    {
      var cells := seq(15, i requires 0 <= i < 15 => CsvCell(Cells(rows[n])[i]));
      OneMoreLine(lines, rows, n, cells);
      lines := lines + [JoinCells(cells)];
    }
    assert rows[..|rows|] == rows;
    csv := JoinLines(lines) + CRLF;
    LinesAreJoined(lines, [COLUMNS] + Records(rows));
    FileRoundTrip([COLUMNS] + Records(rows));
  }

  /** The lines pushed so far are the printed records so far. */
  predicate LinesOf(lines: seq<string>, records: seq<seq<string>>) {
    |lines| == |records| && forall k :: 0 <= k < |lines| ==> lines[k] == JoinCells(QuotedAll(records[k]))
  }

  lemma HeaderLine()
    ensures LinesOf([JoinCells(COLUMNS)], [COLUMNS] + Records([]))
  {
    ColumnsArePlain();
    assert QuotedAll(COLUMNS) == COLUMNS;
  }

  lemma OneMoreLine(lines: seq<string>, rows: seq<AuditRow>, n: nat, cells: seq<string>)
    requires n < |rows| && LinesOf(lines, [COLUMNS] + Records(rows[..n]))
    requires |cells| == 15 && forall i :: 0 <= i < 15 ==> cells[i] == CsvCell(Cells(rows[n])[i])
    ensures LinesOf(lines + [JoinCells(cells)], [COLUMNS] + Records(rows[..n + 1]))
  {
    hide JoinCells, CsvCell, Cells, Neutralised, QuotedAll, Quoted, Record;
    CellsAreQuoted(rows[n], cells);
    assert Records(rows[..n + 1]) == Records(rows[..n]) + [Record(rows[n])];
    hide Records;
    assert [COLUMNS] + (Records(rows[..n]) + [Record(rows[n])]) == ([COLUMNS] + Records(rows[..n])) + [Record(rows[n])];
    LinesOfSnoc(lines, [COLUMNS] + Records(rows[..n]), cells, Record(rows[n]));
  }

  lemma LinesOfSnoc(lines: seq<string>, records: seq<seq<string>>, cells: seq<string>, values: seq<string>)
    requires LinesOf(lines, records) && cells == QuotedAll(values)
    ensures LinesOf(lines + [JoinCells(cells)], records + [values])
  {
    hide JoinCells, QuotedAll;
  }

  lemma CellsAreQuoted(r: AuditRow, cells: seq<string>)
    requires |cells| == 15 && forall i :: 0 <= i < 15 ==> cells[i] == CsvCell(Cells(r)[i])
    ensures cells == QuotedAll(Record(r))
  {
    hide Cells, Neutralised, Quoted;
  }

  function JoinLines(lines: seq<string>): string {
    if lines == [] then ""
    else if |lines| == 1 then lines[0]
    else lines[0] + CRLF + JoinLines(lines[1..])
  }

  lemma {:induction false} LinesAreJoined(lines: seq<string>, records: seq<seq<string>>)
    requires LinesOf(lines, records) && lines != []
    ensures JoinLines(lines) + CRLF == Lines(records)
    decreases |lines|
  {
    if |lines| == 1 {
      assert Lines(records[1..]) == "";
    } else {
      LinesAreJoined(lines[1..], records[1..]);
      var line, rest := lines[0], JoinLines(lines[1..]);
      assert line + CRLF + rest + CRLF == line + CRLF + (rest + CRLF);
    }
  }

  lemma ColumnsArePlain()
    ensures forall i :: 0 <= i < |COLUMNS| ==> Plain(COLUMNS[i])
  {
    FirstColumnsArePlain();
    LastColumnsArePlain();
  }

  lemma FirstColumnsArePlain()
    ensures forall i :: 0 <= i < 8 ==> Plain(COLUMNS[i])
  {
  }

  lemma LastColumnsArePlain()
    ensures forall i :: 8 <= i < 15 ==> Plain(COLUMNS[i])
  {
  }

  // ---- The reader: section 2 of RFC 4180 ----

  /** What a reader has consumed: a value and the text behind it. */
  datatype Parsed<T> = Parsed(value: T, rest: string) | Malformed

  /** The inside of a quoted field, up to the quote that closes it. */
  function ParseQuoted(s: string): (p: Parsed<string>)
    ensures p.Parsed? ==> |p.rest| <= |s|
    decreases |s|
  {
    if s == "" then Malformed
    else if s[0] == '"' then
      if |s| > 1 && s[1] == '"' then Prepend('"', ParseQuoted(s[2..])) else Parsed("", s[1..])
    else Prepend(s[0], ParseQuoted(s[1..]))
  }

  function ParsePlain(s: string): (p: Parsed<string>)
    ensures p.Parsed? ==> |p.rest| <= |s|
    decreases |s|
  {
    if s == "" || IsSpecial(s[0]) then Parsed("", s) else Prepend(s[0], ParsePlain(s[1..]))
  }

  function Prepend(c: char, p: Parsed<string>): Parsed<string> {
    match p
    case Malformed => Malformed
    case Parsed(v, rest) => Parsed([c] + v, rest)
  }

  function ParseField(s: string): (p: Parsed<string>)
    ensures p.Parsed? ==> |p.rest| <= |s|
  {
    if s != "" && s[0] == '"' then ParseQuoted(s[1..]) else ParsePlain(s)
  }

  /** Fields separated by commas; what follows the last one is left over. */
  function ParseRecord(s: string): (p: Parsed<seq<string>>)
    ensures p.Parsed? ==> p.value != [] && |p.rest| <= |s|
    decreases |s|
  {
    match ParseField(s)
    case Malformed => Malformed
    case Parsed(v, rest) =>
      if rest != "" && rest[0] == ',' then
        match ParseRecord(rest[1..])
        case Malformed => Malformed
        case Parsed(vs, last) => Parsed([v] + vs, last)
      else Parsed([v], rest)
  }

  /** Records separated by CRLF; the last one may be ended by CRLF or not. */
  function ParseFile(s: string): Option<seq<seq<string>>>
    decreases |s|
  {
    match ParseRecord(s)
    case Malformed => None
    case Parsed(r, rest) =>
      if rest == "" || rest == "\r\n" then Some([r])
      else if "\r\n" <= rest then
        match ParseFile(rest[2..])
        case None => None
        case Some(rs) => Some([r] + rs)
      else None
  }

  // ---- Round trips ----

  lemma {:induction false} QuotedRoundTrip(s: string, tail: string)
    requires tail != "" && tail[0] != '"'
    ensures ParseQuoted(DoubleQuotes(s) + "\"" + tail) == Parsed(s, tail)
    decreases |s|
  {
    var text := DoubleQuotes(s) + "\"" + tail;
    if s == "" {
      assert text[0] == '"' && text[1] == tail[0] && text[1..] == tail;
    } else {
      QuotedRoundTrip(s[1..], tail);
      var rest := DoubleQuotes(s[1..]) + "\"" + tail;
      assert [s[0]] + s[1..] == s;
      if s[0] == '"' {
        assert text == "\"\"" + rest && text[2..] == rest;
      } else {
        assert text == [s[0]] + rest && text[1..] == rest;
      }
    }
  }

  lemma {:induction false} PlainRoundTrip(s: string, tail: string)
    requires Plain(s) && tail != "" && IsSpecial(tail[0])
    ensures ParsePlain(s + tail) == Parsed(s, tail)
    decreases |s|
  {
    if s == "" {
      assert s + tail == tail;
    } else {
      assert Plain(s[1..]);
      PlainRoundTrip(s[1..], tail);
      assert (s + tail)[1..] == s[1..] + tail && [s[0]] + s[1..] == s;
    }
  }

  predicate Separator(tail: string) {
    tail != "" && (tail[0] == ',' || tail[0] == '\r')
  }

  lemma FieldRoundTrip(v: string, tail: string)
    requires Separator(tail)
    ensures ParseField(Quoted(v) + tail) == Parsed(v, tail)
  {
    hide ParsePlain, ParseQuoted, DoubleQuotes;
    if Plain(v) {
      PlainRoundTrip(v, tail);
      assert (v + tail)[0] == if v == "" then tail[0] else v[0];
    } else {
      var inner := DoubleQuotes(v) + "\"" + tail;
      assert Quoted(v) + tail == ['"'] + inner;
      assert (['"'] + inner)[1..] == inner;
      QuotedRoundTrip(v, tail);
    }
  }

  lemma {:induction false} RecordRoundTrip(values: seq<string>, tail: string)
    requires values != [] && tail != "" && tail[0] == '\r'
    ensures ParseRecord(JoinCells(QuotedAll(values)) + tail) == Parsed(values, tail)
    decreases |values|
  {
    hide JoinCells, QuotedAll, Quoted, ParseField, ParseRecord;
    CellsJoined(values, tail);
    var s := JoinCells(QuotedAll(values)) + tail;
    if |values| == 1 {
      FieldRoundTrip(values[0], tail);
      LastField(s, values[0], tail);
      assert values == [values[0]];
    } else {
      var more := JoinCells(QuotedAll(values[1..])) + tail;
      FieldRoundTrip(values[0], "," + more);
      RecordRoundTrip(values[1..], tail);
      OneMoreField(s, values[0], more);
      assert values == [values[0]] + values[1..];
    }
  }

  lemma CellsJoined(values: seq<string>, tail: string)
    requires values != []
    ensures JoinCells(QuotedAll(values)) + tail ==
              if |values| == 1 then Quoted(values[0]) + tail
              else Quoted(values[0]) + ("," + (JoinCells(QuotedAll(values[1..])) + tail))
  {
    hide Quoted;
    var cells := QuotedAll(values);
    assert cells[0] == Quoted(values[0]);
    if |values| > 1 {
      assert cells[1..] == QuotedAll(values[1..]);
      var rest := JoinCells(cells[1..]);
      assert JoinCells(cells) == cells[0] + "," + rest;
    }
  }

  lemma LastField(s: string, v: string, rest: string)
    requires ParseField(s) == Parsed(v, rest) && (rest == "" || rest[0] != ',')
    ensures ParseRecord(s) == Parsed([v], rest)
  {
    hide ParseField;
  }

  lemma OneMoreField(s: string, v: string, more: string)
    requires ParseField(s) == Parsed(v, "," + more) && ParseRecord(more).Parsed?
    ensures ParseRecord(s) == Parsed([v] + ParseRecord(more).value, ParseRecord(more).rest)
  {
    hide ParseField;
    assert ("," + more)[1..] == more && ("," + more)[0] == ',';
  }

  /** What the printer writes for any non-empty table of non-empty records, the
      reader reads back. */
  lemma {:induction false} FileRoundTrip(records: seq<seq<string>>)
    requires records != [] && forall i :: 0 <= i < |records| ==> records[i] != []
    ensures ParseFile(Lines(records)) == Some(records)
    decreases |records|
  {
    hide Lines, ParseFile;
    var rest := records[1..];
    FirstLine(records);
    assert records == [records[0]] + rest;
    if rest == [] {
      assert records == [records[0]];
    } else {
      FileRoundTrip(rest);
      LinesNotEmpty(rest);
    }
  }

  lemma FirstLine(records: seq<seq<string>>)
    requires records != [] && records[0] != []
    ensures Lines([]) == ""
    ensures var more := Lines(records[1..]);
            && (more == "" ==> ParseFile(Lines(records)) == Some([records[0]]))
            && (more != "" && ParseFile(more).Some? ==>
                  ParseFile(Lines(records)) == Some([records[0]] + ParseFile(more).value))
  {
    hide JoinCells, QuotedAll, ParseRecord, ParseFile;
    var line, more := JoinCells(QuotedAll(records[0])), Lines(records[1..]);
    assert Lines(records) == line + (CRLF + more);
    assert (CRLF + more)[0] == '\r';
    hide Lines;
    RecordRoundTrip(records[0], CRLF + more);
    FirstRecord(line + (CRLF + more), records[0], more);
  }

  /** A record ended by CRLF is the last one, or the rest is read on its own. */
  lemma FirstRecord(s: string, record: seq<string>, more: string)
    requires ParseRecord(s) == Parsed(record, CRLF + more)
    ensures more == "" ==> ParseFile(s) == Some([record])
    ensures more != "" && ParseFile(more).Some? ==> ParseFile(s) == Some([record] + ParseFile(more).value)
  {
    hide ParseRecord;
    var rest := CRLF + more;
    assert rest[2..] == more && rest[..2] == CRLF;
    assert more != "" ==> |rest| > 2;
    assert more == "" ==> rest == CRLF;
  }

  lemma LinesNotEmpty(records: seq<seq<string>>)
    requires records != []
    ensures Lines(records) != ""
  {
    assert |CRLF| == 2;
  }

  /** The table can be read off the export: two tables with the same export
      show the same values. */
  lemma ExportIsInjective(a: seq<AuditRow>, b: seq<AuditRow>)
    requires Lines([COLUMNS] + Records(a)) == Lines([COLUMNS] + Records(b))
    ensures Records(a) == Records(b)
  {
    FileRoundTrip([COLUMNS] + Records(a));
    FileRoundTrip([COLUMNS] + Records(b));
    assert ([COLUMNS] + Records(a))[1..] == Records(a);
    assert ([COLUMNS] + Records(b))[1..] == Records(b);
  }
}
