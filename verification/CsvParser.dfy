/**
 * The RFC 4180 parser of the Apex truth-table test (OutreachGuardrailsTest.parseCsv) against the
 * quoting rules of section 2 of RFC 4180: rendering and then parsing gives the table back.
 */
module CsvParser {
  type Table = seq<seq<string>>

  /** The parser's variables. */
  datatype Scan = Scan(rows: Table, current: seq<string>, field: string, inQuotes: bool)

  /** What the index loop does from one position to the end. */
  function ScanFrom(s: string, st: Scan): Scan
    decreases |s|
  {
    if s == [] then st
    else if st.inQuotes then
      if s[0] == '"' then
        if |s| > 1 && s[1] == '"' then ScanFrom(s[2..], st.(field := st.field + ['"']))
        else ScanFrom(s[1..], st.(inQuotes := false))
      else ScanFrom(s[1..], st.(field := st.field + [s[0]]))
    else if s[0] == '"' then ScanFrom(s[1..], st.(inQuotes := true))
    else if s[0] == ',' then ScanFrom(s[1..], st.(current := st.current + [st.field], field := []))
    else if s[0] == '\n' then
      ScanFrom(s[1..], Scan(st.rows + [st.current + [st.field]], [], [], false))
    else if s[0] == '\r' then ScanFrom(s[1..], st)
    else ScanFrom(s[1..], st.(field := st.field + [s[0]]))
  }

  /** A last row without its newline still counts, unless it looks empty. */
  function Finish(st: Scan): Table {
    if st.field != [] || st.current != [] then st.rows + [st.current + [st.field]] else st.rows
  }

  const START := Scan([], [], [], false)

  function Parse(content: string): Table { Finish(ScanFrom(content, START)) }

  method ParseCsv(content: string) returns (rows: Table)
    ensures rows == Parse(content)
  {
    rows := [];
    var current: seq<string> := [];
    var fieldValue: string := [];
    var inQuotes := false;
    var i := 0;
    while i < |content|
      invariant 0 <= i <= |content|
      invariant ScanFrom(content[i..], Scan(rows, current, fieldValue, inQuotes)) == ScanFrom(content, START)
    {
      var c := content[i];
      ghost var rest := content[i..];
      assert rest[1..] == content[i + 1..];
      assert i + 1 < |content| ==> rest[2..] == content[i + 2..] && rest[1] == content[i + 1];
      if inQuotes {
        if c == '"' {
          if i + 1 < |content| && content[i + 1] == '"' {
            fieldValue := fieldValue + ['"'];
            i := i + 1;
          } else {
            inQuotes := false;
          }
        } else {
          fieldValue := fieldValue + [c];
        }
      } else if c == '"' {
        inQuotes := true;
      } else if c == ',' {
        current := current + [fieldValue];
        fieldValue := [];
      } else if c == '\n' {
        current := current + [fieldValue];
        fieldValue := [];
        rows := rows + [current];
        current := [];
      } else if c != '\r' {
        fieldValue := fieldValue + [c];
      }
      i := i + 1;
    }
    if fieldValue != [] || current != [] {
      current := current + [fieldValue];
      rows := rows + [current];
    }
  }

  // --- the writer -----------------------------------------------------------------

  function Doubled(field: string): string {
    if field == [] then []
    else (if field[0] == '"' then ['"', '"'] else [field[0]]) + Doubled(field[1..])
  }

  function Quoted(field: string): string { ['"'] + Doubled(field) + ['"'] }

  /** A field that needs no quotes: no quote, comma or line break in it. */
  predicate Plain(field: string) { '"' !in field && ',' !in field && '\n' !in field && '\r' !in field }

  function Written(field: string, quoted: bool): string { if quoted then Quoted(field) else field }

  /** How a row is written: its line break, and field by field whether it is quoted. */
  datatype Style = Style(crlf: bool, quoted: seq<bool>)

  predicate Fits(fields: seq<string>, quoted: seq<bool>) {
    |quoted| == |fields| && forall i :: 0 <= i < |fields| ==> quoted[i] || Plain(fields[i])
  }

  function RenderRow(fields: seq<string>, quoted: seq<bool>): string
    requires fields != [] && |quoted| == |fields|
  {
    if |fields| == 1 then Written(fields[0], quoted[0])
    else Written(fields[0], quoted[0]) + [','] + RenderRow(fields[1..], quoted[1..])
  }

  function Terminator(crlf: bool): string { if crlf then ['\r', '\n'] else ['\n'] }

  /** Rows are not empty, and every row's style fits it. */
  predicate Writable(table: Table, styles: seq<Style>) {
    |styles| == |table| && forall i :: 0 <= i < |table| ==> table[i] != [] && Fits(table[i], styles[i].quoted)
  }

  /** Every field quoted or plain, every row ended by LF or CRLF, as the styles say. */
  function Render(table: Table, styles: seq<Style>): string
    requires Writable(table, styles)
  {
    if table == [] then []
    else RenderRow(table[0], styles[0].quoted) + Terminator(styles[0].crlf) + Render(table[1..], styles[1..])
  }

  // --- reading back what was written -------------------------------------------------

  lemma {:induction false} ScanQuotedBody(field: string, rest: string, st: Scan)
    requires st.inQuotes && (rest == [] || rest[0] != '"')
    ensures ScanFrom(Doubled(field) + ['"'] + rest, st) ==
            ScanFrom(rest, st.(field := st.field + field, inQuotes := false))
  {
    var text := Doubled(field) + ['"'] + rest;
    if field == [] {
      assert text == ['"'] + rest && text[1..] == rest && st.field + field == st.field;
    } else {
      var step := st.(field := st.field + [field[0]]);
      var tail := Doubled(field[1..]) + ['"'] + rest;
      if field[0] == '"' {
        assert text == ['"', '"'] + tail && text[2..] == tail;
      } else {
        assert text == [field[0]] + tail && text[1..] == tail;
      }
      ScanQuotedBody(field[1..], rest, step);
      assert step.field + field[1..] == st.field + field;
    }
  }

  /** A quoted field, whatever commas, quotes and line breaks it holds, is read as itself. */
  lemma ScanQuoted(field: string, rest: string, st: Scan)
    requires !st.inQuotes && st.field == [] && (rest == [] || rest[0] != '"')
    ensures ScanFrom(Quoted(field) + rest, st) == ScanFrom(rest, st.(field := field))
  {
    var text := Quoted(field) + rest;
    assert text[1..] == Doubled(field) + ['"'] + rest;
    ScanQuotedBody(field, rest, st.(inQuotes := true));
    assert [] + field == field;
  }

  lemma {:induction false} ScanPlain(field: string, rest: string, st: Scan)
    requires !st.inQuotes && Plain(field)
    ensures ScanFrom(field + rest, st) == ScanFrom(rest, st.(field := st.field + field))
  {
    if field == [] {
      assert field + rest == rest && st.field + field == st.field;
    } else {
      var step := st.(field := st.field + [field[0]]);
      assert (field + rest)[1..] == field[1..] + rest;
      ScanPlain(field[1..], rest, step);
      assert step.field + field[1..] == st.field + field;
    }
  }

  lemma ScanWritten(field: string, quoted: bool, rest: string, st: Scan)
    requires !st.inQuotes && st.field == [] && (rest == [] || rest[0] != '"') && (quoted || Plain(field))
    ensures ScanFrom(Written(field, quoted) + rest, st) == ScanFrom(rest, st.(field := field))
  {
    if quoted {
      ScanQuoted(field, rest, st);
    } else {
      ScanPlain(field, rest, st);
      assert [] + field == field;
    }
  }

  lemma ScanComma(rest: string, st: Scan)
    requires !st.inQuotes
    ensures ScanFrom([','] + rest, st) == ScanFrom(rest, st.(current := st.current + [st.field], field := []))
  {
    assert ([','] + rest)[1..] == rest;
  }

  function RowEnded(st: Scan): Scan { Scan(st.rows + [st.current + [st.field]], [], [], false) }

  lemma ScanNewline(rest: string, st: Scan)
    requires !st.inQuotes
    ensures ScanFrom(['\n'] + rest, st) == ScanFrom(rest, RowEnded(st))
  {
    assert (['\n'] + rest)[1..] == rest;
  }

  lemma ScanReturn(rest: string, st: Scan)
    requires !st.inQuotes
    ensures ScanFrom(['\r'] + rest, st) == ScanFrom(rest, st)
  {
    assert (['\r'] + rest)[1..] == rest;
  }

  lemma ScanLineEnd(crlf: bool, rest: string, st: Scan)
    requires !st.inQuotes
    ensures ScanFrom(Terminator(crlf) + rest, st) == ScanFrom(rest, RowEnded(st))
  {
    ScanNewline(rest, st);
    if crlf {
      assert Terminator(crlf) + rest == ['\r'] + (['\n'] + rest);
      ScanReturn(['\n'] + rest, st);
    }
  }

  /** Where a rendered row leaves the scan: its last field pending. */
  function RowRead(st: Scan, fields: seq<string>): Scan
    requires fields != []
  {
    st.(current := st.current + fields[..|fields| - 1], field := fields[|fields| - 1])
  }

  lemma RowReadStep(st: Scan, fields: seq<string>)
    requires |fields| > 1
    ensures RowRead(st.(current := st.current + [fields[0]], field := []), fields[1..]) == RowRead(st, fields)
  {
    assert st.current + [fields[0]] + fields[1..][..|fields| - 2] == st.current + fields[..|fields| - 1];
  }

  lemma {:induction false} ScanRow(fields: seq<string>, quoted: seq<bool>, rest: string, st: Scan)
    requires fields != [] && Fits(fields, quoted) && !st.inQuotes && st.field == [] && (rest == [] || rest[0] != '"')
    ensures ScanFrom(RenderRow(fields, quoted) + rest, st) == ScanFrom(rest, RowRead(st, fields))
  {
    if |fields| == 1 {
      ScanWritten(fields[0], quoted[0], rest, st);
      assert st.current + fields[..0] == st.current;
    } else {
      var tail := RenderRow(fields[1..], quoted[1..]) + rest;
      assert RenderRow(fields, quoted) + rest == Written(fields[0], quoted[0]) + ([','] + tail);
      ScanWritten(fields[0], quoted[0], [','] + tail, st);
      ScanComma(tail, st.(field := fields[0]));
      ScanRow(fields[1..], quoted[1..], rest, st.(current := st.current + [fields[0]], field := []));
      RowReadStep(st, fields);
    }
  }

  lemma Reassociate(a: string, b: string, c: string)
    ensures a + b + c == a + (b + c)
  {
  }

  lemma ReadRowEnds(rows: Table, fields: seq<string>)
    requires fields != []
    ensures RowEnded(RowRead(Scan(rows, [], [], false), fields)) == Scan(rows + [fields], [], [], false)
  {
    var n := |fields| - 1;
    assert [] + fields[..n] == fields[..n] && fields[..n] + [fields[n]] == fields;
  }

  lemma ScanTerminatedRow(fields: seq<string>, style: Style, rest: string, rows: Table)
    requires fields != [] && Fits(fields, style.quoted)
    ensures ScanFrom(RenderRow(fields, style.quoted) + Terminator(style.crlf) + rest, Scan(rows, [], [], false))
         == ScanFrom(rest, Scan(rows + [fields], [], [], false))
  {
    Reassociate(RenderRow(fields, style.quoted), Terminator(style.crlf), rest);
    ScanRow(fields, style.quoted, Terminator(style.crlf) + rest, Scan(rows, [], [], false));
    ScanLineEnd(style.crlf, rest, RowRead(Scan(rows, [], [], false), fields));
    ReadRowEnds(rows, fields);
  }

  lemma {:induction false} ScanTable(table: Table, styles: seq<Style>, rest: string, rows: Table)
    requires Writable(table, styles)
    ensures ScanFrom(Render(table, styles) + rest, Scan(rows, [], [], false))
         == ScanFrom(rest, Scan(rows + table, [], [], false))
  {
    if table == [] {
      assert Render(table, styles) + rest == rest && rows + table == rows;
    } else {
      var tail := Render(table[1..], styles[1..]) + rest;
      Reassociate(RenderRow(table[0], styles[0].quoted) + Terminator(styles[0].crlf),
                  Render(table[1..], styles[1..]), rest);
      ScanTerminatedRow(table[0], styles[0], tail, rows);
      ScanTable(table[1..], styles[1..], rest, rows + [table[0]]);
      assert rows + [table[0]] + table[1..] == rows + table;
    }
  }

  /** Parsing inverts writing, for every table of non-empty rows, any mix of quoted and plain fields and of endings. */
  lemma ParseInvertsRender(table: Table, styles: seq<Style>)
    requires Writable(table, styles)
    ensures Parse(Render(table, styles)) == table
  {
    ScanTable(table, styles, [], []);
    assert Render(table, styles) + [] == Render(table, styles) && [] + table == table;
  }

  /** A row left pending at the end of the text counts, unless it is one empty field. */
  lemma PendingRow(table: Table, last: seq<string>)
    requires last != []
    ensures Finish(RowRead(Scan(table, [], [], false), last)) == if last == [""] then table else table + [last]
  {
    var n := |last| - 1;
    assert [] + last[..n] == last[..n] && last[..n] + [last[n]] == last;
  }

  lemma ParsePending(table: Table, styles: seq<Style>, last: seq<string>, quoted: seq<bool>)
    requires Writable(table, styles) && last != [] && Fits(last, quoted)
    ensures ScanFrom(Render(table, styles) + RenderRow(last, quoted), START)
         == RowRead(Scan(table, [], [], false), last)
  {
    ScanTable(table, styles, RenderRow(last, quoted), []);
    assert [] + table == table;
    ScanRow(last, quoted, [], Scan(table, [], [], false));
    assert RenderRow(last, quoted) + [] == RenderRow(last, quoted);
  }

  /**
   * RFC 4180 lets the last record go without a line break. The parser then loses a last row that is
   * one empty field, and no other: the table comes back exactly when the last row is not that one.
   */
  lemma UnterminatedLastRow(table: Table, styles: seq<Style>, last: seq<string>, quoted: seq<bool>)
    requires Writable(table, styles) && last != [] && Fits(last, quoted)
    ensures Parse(Render(table, styles) + RenderRow(last, quoted)) == if last == [""] then table else table + [last]
  {
    ParsePending(table, styles, last, quoted);
    PendingRow(table, last);
  }
}
