/** The CSV writer and its readers: RFC 4180 quoting, the quote state machine
    that undoes it, and the line splitting that both table readers rely on. */
module Csv {

  // ----- Writing one record -----

  predicate Special(c: char) {
    c == ',' || c == '"' || c == '\n' || c == '\r'
  }

  predicate NeedsQuotes(field: string) {
    exists i :: 0 <= i < |field| && Special(field[i])
  }

  /** `field` with every quote doubled. */
  function Doubled(field: string): string {
    if field == [] then [] else (if field[0] == '"' then "\"\"" else [field[0]]) + Doubled(field[1..])
  }

  /** A field as it is written. */
  function Escaped(field: string): string {
    if NeedsQuotes(field) then "\"" + Doubled(field) + "\"" else field
  }

  method Escape(field: string) returns (s: string)
    ensures s == Escaped(field)
  {
    if NeedsQuotes(field) {
      s := "\"";
      for i := 0 to |field|
        invariant s + Doubled(field[i..]) == "\"" + Doubled(field)
      {
        if field[i] == '"' {
          s := s + "\"";
        }
        s := s + [field[i]];
        assert field[i..][1..] == field[i + 1..];
      }
      s := s + "\"";
    } else {
      s := field;
    }
  }

  lemma {:induction false} DoubledLength(field: string)
    ensures |Doubled(field)| == |field| + multiset(field)['"']
  {
    if field != [] {
      DoubledLength(field[1..]);
      assert field == [field[0]] + field[1..];
    }
  }

  /** A field is written as it is exactly when it has no comma, quote or line break in
      it; any other between quotes, and longer by those and one for each of its own. */
  lemma {:induction false} EscapeRule(field: string)
    ensures var s := Escaped(field);
            if ',' !in field && '"' !in field && '\n' !in field && '\r' !in field then s == field
            else |s| == |field| + 2 + multiset(field)['"'] && s[0] == s[|s| - 1] == '"'
  {
    DoubledLength(field);
    assert NeedsQuotes(field) <==> ',' in field || '"' in field || '\n' in field || '\r' in field by {
      forall c | c in field && Special(c)
        ensures NeedsQuotes(field)
      {
        var i :| 0 <= i < |field| && field[i] == c;
        assert Special(field[i]);
      }
    }
  }

  /** The cells of a record, escaped and separated by commas. */
  function Joined(cells: seq<string>): string {
    if cells == [] then ""
    else if |cells| == 1 then Escaped(cells[0])
    else Escaped(cells[0]) + "," + Joined(cells[1..])
  }

  /** One record, terminated by CRLF. */
  function RecordText(cells: seq<string>): string {
    Joined(cells) + "\r\n"
  }

  function TableText(rows: seq<seq<string>>): string {
    if rows == [] then "" else RecordText(rows[0]) + TableText(rows[1..])
  }

  /** A comma after each cell but the last, a line break after that. */
  lemma {:induction false} RecordShape(cell: string, rest: seq<string>)
    ensures RecordText([cell] + rest) == Escaped(cell) + (if rest == [] then "\r\n" else "," + RecordText(rest))
  {
    hide Escaped;
    assert ([cell] + rest)[1..] == rest;
    if rest != [] {
      assert Escaped(cell) + "," + Joined(rest) + "\r\n" == Escaped(cell) + ("," + (Joined(rest) + "\r\n"));
    }
  }

  lemma {:induction false} JoinedSnoc(cells: seq<string>, cell: string)
    ensures Joined(cells + [cell])
         == if cells == [] then Escaped(cell) else Joined(cells) + ("," + Escaped(cell))
  {
    var all := cells + [cell];
    if |cells| > 1 {
      JoinedSnoc(cells[1..], cell);
      assert all[1..] == cells[1..] + [cell];
      assert Joined(all) == Escaped(cells[0]) + "," + Joined(all[1..]);
      assert Joined(cells) == Escaped(cells[0]) + "," + Joined(cells[1..]);
    } else if |cells| == 1 {
      assert all[1..] == [cell];
    }
  }

  lemma {:induction false} RecordGrows(out: string, cells: seq<string>, i: nat)
    requires i < |cells|
    ensures out + Joined(cells[..i + 1])
         == if i > 0 then (out + Joined(cells[..i])) + ("," + Escaped(cells[i])) else (out + Joined(cells[..i])) + Escaped(cells[i])
  {
    JoinedSnoc(cells[..i], cells[i]);
    assert cells[..i] + [cells[i]] == cells[..i + 1];
    assert i == 0 ==> Joined(cells[..i]) == "";
    hide Joined, Escaped;
  }

  lemma {:induction false} RecordEnds(out: string, cells: seq<string>)
    ensures out + Joined(cells[..0]) == out
    ensures (out + Joined(cells[..|cells|])) + "\r\n" == out + RecordText(cells)
  {
    assert cells[..|cells|] == cells && cells[..0] == [];
    var line := Joined(cells);
    assert (out + line) + "\r\n" == out + (line + "\r\n");
  }

  method WriteRow(out: string, cells: seq<string>) returns (r: string)
    ensures r == out + RecordText(cells)
  {
    hide *;
    r := out;
    RecordEnds(out, cells);
    for i := 0 to |cells|
      invariant r == out + Joined(cells[..i])
    {
      RecordGrows(out, cells, i);
      var field := Escape(cells[i]);
      if i > 0 {
        r := r + ("," + field);
      } else {
        r := r + field;
      }
    }
    r := r + "\r\n";
  }

  lemma {:induction false} Regroup(a: string, b: string, c: string)
    ensures a + (b + c) == (a + b) + c
  {}

  lemma {:induction false} TableTextAppends(a: seq<seq<string>>, b: seq<seq<string>>)
    ensures TableText(a + b) == TableText(a) + TableText(b)
  {
    hide RecordText;
    if a == [] {
      assert a + b == b;
    } else {
      TableTextAppends(a[1..], b);
      assert (a + b)[1..] == a[1..] + b;
      Regroup(RecordText(a[0]), TableText(a[1..]), TableText(b));
    }
  }

  lemma {:induction false} TableTextSnoc(rows: seq<seq<string>>, row: seq<string>)
    ensures TableText(rows + [row]) == TableText(rows) + RecordText(row)
  {
    TableTextAppends(rows, [row]);
    assert [row][1..] == [] && TableText([row]) == RecordText(row) + "" == RecordText(row);
  }

  /** The in-memory table: a header row and the data rows pushed so far. */
  class Table {
    var headers: seq<string>
    var rows: seq<seq<string>>

    constructor (headers: seq<string>)
      ensures this.headers == headers && rows == []
    {
      this.headers := headers;
      rows := [];
    }

    constructor KeyValue()
      ensures headers == ["key", "value"] && rows == []
    {
      headers := ["key", "value"];
      rows := [];
    }

    method Row(cells: seq<string>)
      modifies this`rows
      ensures rows == old(rows) + [cells]
    {
      rows := rows + [cells];
    }

    method Kv(key: string, value: string)
      modifies this`rows
      ensures rows == old(rows) + [[key, value]]
    {
      rows := rows + [[key, value]];
    }

    method Render() returns (out: string)
      ensures out == TableText([headers] + rows)
    {
      out := WriteRow("", headers);
      TableTextSnoc([], headers);
      assert [] + [headers] == [headers] == [headers] + rows[..0];
      for i := 0 to |rows|
        invariant out == TableText([headers] + rows[..i])
      {
        TableTextSnoc([headers] + rows[..i], rows[i]);
        assert [headers] + rows[..i] + [rows[i]] == [headers] + rows[..i + 1];
        out := WriteRow(out, rows[i]);
      }
      assert rows[..|rows|] == rows;
    }

    /** The data rows alone, for tables that share one header. */
    method RenderBody() returns (out: string)
      ensures out == TableText(rows)
    {
      out := "";
      for i := 0 to |rows|
        invariant out == TableText(rows[..i])
      {
        TableTextSnoc(rows[..i], rows[i]);
        assert rows[..i] + [rows[i]] == rows[..i + 1];
        out := WriteRow(out, rows[i]);
      }
      assert rows[..|rows|] == rows;
    }
  }

  // ----- Reading one record -----

  /** The state machine from a given state: `inQuotes`, the field being built and
      the fields already finished. */
  function Scan(s: string, inQuotes: bool, field: string, done: seq<string>): seq<string> {
    if s == [] then done + [field]
    else if inQuotes then
      if s[0] != '"' then Scan(s[1..], true, field + [s[0]], done)
      else if |s| > 1 && s[1] == '"' then Scan(s[2..], true, field + "\"", done)
      else Scan(s[1..], false, field, done)
    else if s[0] == '"' then Scan(s[1..], true, field, done)
    else if s[0] == ',' then Scan(s[1..], false, "", done + [field])
    else Scan(s[1..], false, field + [s[0]], done)
  }

  function Fields(line: string): seq<string> {
    Scan(line, false, "", [])
  }

  /** The character loop shared, line for line, by both readers. */
  method ParseRecord(line: string) returns (out: seq<string>)
    ensures out == Fields(line)
  {
    out := [];
    var field := "";
    var inQuotes := false;
    var i := 0;
    while i < |line|
      invariant 0 <= i <= |line|
      invariant Scan(line[i..], inQuotes, field, out) == Fields(line)
    {
      var c := line[i];
      i := i + 1;
      if inQuotes {
        if c == '"' {
          if i < |line| && line[i] == '"' {
            field := field + "\"";
            i := i + 1;
          } else {
            inQuotes := false;
          }
        } else {
          field := field + [c];
        }
      } else {
        match c {
          case '"' => inQuotes := true;
          case ',' => out := out + [field]; field := "";
          case _ => field := field + [c];
        }
      }
    }
    out := out + [field];
  }

  // ----- Reading undoes writing -----

  /** What may follow a field: the end of the record or a separator. */
  predicate FieldEnd(rest: string) {
    rest == [] || rest[0] == ','
  }

  lemma {:induction false} ScanDoubled(text: string, rest: string, field: string, done: seq<string>)
    requires FieldEnd(rest)
    ensures Scan(Doubled(text) + "\"" + rest, true, field, done) == Scan(rest, false, field + text, done)
    decreases |text|
  {
    var s := Doubled(text) + "\"" + rest;
    if text == [] {
      assert s[1..] == rest && field + text == field;
    } else {
      var head := if text[0] == '"' then "\"\"" else [text[0]];
      assert s == head + (Doubled(text[1..]) + "\"" + rest);
      assert s[|head|..] == Doubled(text[1..]) + "\"" + rest;
      ScanDoubled(text[1..], rest, field + [text[0]], done);
      assert field + [text[0]] + text[1..] == field + text;
    }
  }

  lemma {:induction false} ScanPlain(text: string, rest: string, field: string, done: seq<string>)
    requires !NeedsQuotes(text)
    ensures Scan(text + rest, false, field, done) == Scan(rest, false, field + text, done)
    decreases |text|
  {
    if text == [] {
      assert text + rest == rest && field + text == field;
    } else {
      assert !Special(text[0]);
      assert (text + rest)[1..] == text[1..] + rest;
      assert forall i :: 0 <= i < |text| - 1 ==> text[1..][i] == text[i + 1];
      ScanPlain(text[1..], rest, field + [text[0]], done);
      assert field + [text[0]] + text[1..] == field + text;
    }
  }

  lemma {:induction false} ScanEscaped(text: string, rest: string, done: seq<string>)
    requires FieldEnd(rest)
    ensures Scan(Escaped(text) + rest, false, "", done) == Scan(rest, false, text, done)
  {
    if NeedsQuotes(text) {
      var s := Escaped(text) + rest;
      var tail := Doubled(text) + "\"" + rest;
      assert s == "\"" + tail && s[1..] == tail;
      assert Scan(s, false, "", done) == Scan(tail, true, "", done);
      ScanDoubled(text, rest, "", done);
      assert "" + text == text;
    } else {
      ScanPlain(text, rest, "", done);
      assert "" + text == text;
    }
  }

  lemma {:induction false} ScanJoined(cells: seq<string>, done: seq<string>)
    requires cells != []
    ensures Scan(Joined(cells), false, "", done) == done + cells
    decreases |cells|
  {
    if |cells| == 1 {
      assert Escaped(cells[0]) + "" == Joined(cells);
      ScanEscaped(cells[0], "", done);
    } else {
      var rest := "," + Joined(cells[1..]);
      assert Joined(cells) == Escaped(cells[0]) + rest;
      ScanEscaped(cells[0], rest, done);
      assert rest[1..] == Joined(cells[1..]);
      ScanJoined(cells[1..], done + [cells[0]]);
      assert done + [cells[0]] + cells[1..] == done + cells;
    }
  }

  /** Every non-empty row of arbitrary strings, with commas, quotes and line
      breaks, is read back from the record written for it. */
  lemma {:induction false} RecordRoundTrip(cells: seq<string>)
    requires cells != []
    ensures Fields(Joined(cells)) == cells
  {
    ScanJoined(cells, []);
  }

  lemma {:induction false} ScanQuoted(text: string, rest: string, field: string, done: seq<string>)
    requires '"' !in text
    ensures Scan(text + rest, true, field, done) == Scan(rest, true, field + text, done)
    decreases |text|
  {
    if text == [] {
      assert text + rest == rest && field + text == field;
    } else {
      assert (text + rest)[1..] == text[1..] + rest;
      ScanQuoted(text[1..], rest, field + [text[0]], done);
      assert field + [text[0]] + text[1..] == field + text;
    }
  }

  /** A stretch in quotes may begin and end anywhere in a field: commas in it belong
      to the field, and its quotes do not. */
  lemma {:induction false} QuotesInField(before: string, inside: string, after: string)
    requires !NeedsQuotes(before) && '"' !in inside && !NeedsQuotes(after)
    ensures Fields(before + ("\"" + (inside + ("\"" + after)))) == [before + inside + after]
  {
    var tail := "\"" + (inside + ("\"" + after));
    ScanPlain(before, tail, "", []);
    assert "" + before == before && tail[1..] == inside + ("\"" + after);
    ScanQuoted(inside, "\"" + after, before, []);
    var last := "\"" + after;
    assert last[1..] == after;
    assert after != [] ==> !Special(after[0]);
    ScanPlain(after, "", before + inside, []);
    assert after + "" == after && [] + [before + inside + after] == [before + inside + after];
  }

  // ----- Splitting a table into lines -----

  /** `split('\n')` */
  function Pieces(text: string): (ps: seq<string>)
    ensures |ps| >= 1
    ensures forall i :: 0 <= i < |ps| ==> '\n' !in ps[i]
  {
    if text == [] then [""]
    else
      var ps := Pieces(text[1..]);
      if text[0] == '\n' then [""] + ps else [[text[0]] + ps[0]] + ps[1..]
  }

  lemma {:induction false} PiecesOfLine(line: string, rest: string)
    requires '\n' !in line
    ensures Pieces(line + "\n" + rest) == [line] + Pieces(rest)
  {
    var t := line + "\n" + rest;
    if line == [] {
      assert t[1..] == rest;
    } else {
      assert t[1..] == line[1..] + "\n" + rest;
      PiecesOfLine(line[1..], rest);
      assert [line[0]] + line[1..] == line;
    }
  }

  predicate NoLineFeed(row: seq<string>) {
    forall i :: 0 <= i < |row| ==> '\n' !in row[i]
  }

  lemma {:induction false} DoubledKeepsOut(c: char, text: string)
    requires c != '"' && c !in text
    ensures c !in Doubled(text)
  {
    if text != [] {
      DoubledKeepsOut(c, text[1..]);
    }
  }

  lemma {:induction false} JoinedHasNoLineFeed(row: seq<string>)
    requires NoLineFeed(row)
    ensures '\n' !in Joined(row)
  {
    if row != [] {
      DoubledKeepsOut('\n', row[0]);
      JoinedHasNoLineFeed(row[1..]);
    }
  }

  /** No written record ends in a carriage return of its own. */
  lemma {:induction false} JoinedEnd(row: seq<string>)
    ensures Joined(row) == [] || Joined(row)[|Joined(row)| - 1] != '\r'
  {
    if |row| == 1 {
      if !NeedsQuotes(row[0]) && row[0] != [] {
        assert !Special(row[0][|row[0]| - 1]);
      }
    } else if row != [] {
      JoinedEnd(row[1..]);
    }
  }

  /** `trim_end_matches('\r')` */
  function TrimCr(line: string): string {
    if line != [] && line[|line| - 1] == '\r' then TrimCr(line[..|line| - 1]) else line
  }

  /** However many there are at the end, all carriage returns go, and nothing else. */
  lemma {:induction false} TrimmedCr(line: string, n: nat, crs: string)
    requires |crs| == n && (forall i :: 0 <= i < n ==> crs[i] == '\r') && (line == "" || line[|line| - 1] != '\r')
    ensures TrimCr(line + crs) == line
    decreases n
  {
    if n == 0 {
      assert line + crs == line;
    } else {
      assert (line + crs)[..|line + crs| - 1] == line + crs[..n - 1];
      TrimmedCr(line, n - 1, crs[..n - 1]);
    }
  }

  /** The overview's lines: split, trim carriage returns, drop what is empty. */
  function NonemptyLines(pieces: seq<string>): seq<string> {
    if pieces == [] then []
    else (if TrimCr(pieces[0]) == "" then [] else [TrimCr(pieces[0])]) + NonemptyLines(pieces[1..])
  }

  function FieldsOfAll(lines: seq<string>): seq<seq<string>> {
    if lines == [] then [] else [Fields(lines[0])] + FieldsOfAll(lines[1..])
  }

  /** The overview's view of a table: every non-empty line, split into fields. */
  function ParsedTable(text: string): seq<seq<string>> {
    FieldsOfAll(NonemptyLines(Pieces(text)))
  }

  lemma {:induction false} FieldsOfSnoc(lines: seq<string>, line: string)
    ensures FieldsOfAll(lines + [line]) == FieldsOfAll(lines) + [Fields(line)]
  {
    if lines == [] {
      assert [] + [line] == [line] && [line][1..] == [];
    } else {
      FieldsOfSnoc(lines[1..], line);
      assert (lines + [line])[1..] == lines[1..] + [line];
    }
  }

  /** The overview's reading loop: the header, then a row per remaining line. */
  method ParseSummary(text: string) returns (header: seq<string>, rows: seq<seq<string>>)
    ensures ParsedTable(text) == [] ==> header == [] && rows == []
    ensures ParsedTable(text) != [] ==> [header] + rows == ParsedTable(text)
  {
    header, rows := [], [];
    var lines := NonemptyLines(Pieces(text));
    if lines == [] {
      return;
    }
    header := ParseRecord(lines[0]);
    FieldsOfSnoc([], lines[0]);
    assert [] + [lines[0]] == lines[..1];
    for i := 1 to |lines|
      invariant [header] + rows == FieldsOfAll(lines[..i])
    {
      var f := ParseRecord(lines[i]);
      FieldsOfSnoc(lines[..i], lines[i]);
      assert lines[..i] + [lines[i]] == lines[..i + 1];
      rows := rows + [f];
    }
    assert lines[..|lines|] == lines;
  }

  /** A row whose line is empty: no cells, or a single empty one. */
  predicate Blank(row: seq<string>) {
    row == [] || row == [""]
  }

  function WithoutBlank(rows: seq<seq<string>>): seq<seq<string>> {
    if rows == [] then []
    else (if Blank(rows[0]) then [] else [rows[0]]) + WithoutBlank(rows[1..])
  }

  lemma {:induction false} BlankLine(row: seq<string>)
    ensures Joined(row) == "" <==> Blank(row)
  {
    if |row| == 1 {
      assert Blank(row) <==> row[0] == "";
    }
  }

  lemma {:induction false} RecordLine(row: seq<string>, rest: string)
    requires NoLineFeed(row)
    ensures Pieces(RecordText(row) + rest) == [Joined(row) + "\r"] + Pieces(rest)
    ensures TrimCr(Joined(row) + "\r") == Joined(row) == StripCr(Joined(row) + "\r")
  {
    var line := Joined(row) + "\r";
    JoinedHasNoLineFeed(row);
    assert RecordText(row) + rest == line + "\n" + rest;
    PiecesOfLine(line, rest);
    JoinedEnd(row);
    assert line[..|line| - 1] == Joined(row);
  }

  /** Without line feeds in cells, reading returns the rows that are not blank. */
  lemma {:induction false} TableParses(rows: seq<seq<string>>)
    requires forall i :: 0 <= i < |rows| ==> NoLineFeed(rows[i])
    ensures ParsedTable(TableText(rows)) == WithoutBlank(rows)
  {
    if rows == [] {
      assert NonemptyLines([""]) == [] + NonemptyLines([""][1..]);
    } else {
      var row, rest := rows[0], Pieces(TableText(rows[1..]));
      TableParses(rows[1..]);
      RecordLine(row, TableText(rows[1..]));
      assert ([Joined(row) + "\r"] + rest)[1..] == rest;
      BlankLine(row);
      var lines := NonemptyLines(rest);
      if Blank(row) {
        assert [] + lines == lines;
        assert [] + WithoutBlank(rows[1..]) == WithoutBlank(rows[1..]);
      } else {
        RecordRoundTrip(row);
        assert ([Joined(row)] + lines)[1..] == lines;
      }
    }
  }

  lemma {:induction false} ScanInvents(s: string, inQuotes: bool, field: string, done: seq<string>)
    requires '\n' !in s && '\n' !in field && NoLineFeed(done)
    ensures NoLineFeed(Scan(s, inQuotes, field, done))
    decreases |s|
  {
    if s != [] {
      var c := s[0];
      assert '\n' !in s[1..] && '\n' !in field + [c];
      if inQuotes && c == '"' && |s| > 1 && s[1] == '"' {
        ScanInvents(s[2..], true, field + "\"", done);
      } else if inQuotes {
        ScanInvents(s[1..], c != '"', if c == '"' then field else field + [c], done);
      } else if c == ',' {
        ScanInvents(s[1..], false, "", done + [field]);
      } else {
        ScanInvents(s[1..], c == '"', if c == '"' then field else field + [c], done);
      }
    }
  }

  lemma {:induction false} TrimCrKeeps(line: string)
    requires '\n' !in line
    ensures '\n' !in TrimCr(line)
  {
    if line != [] && line[|line| - 1] == '\r' {
      TrimCrKeeps(line[..|line| - 1]);
    }
  }

  lemma {:induction false} ParsedHasNoLineFeed(pieces: seq<string>)
    requires forall i :: 0 <= i < |pieces| ==> '\n' !in pieces[i]
    ensures forall i :: 0 <= i < |FieldsOfAll(NonemptyLines(pieces))| ==> NoLineFeed(FieldsOfAll(NonemptyLines(pieces))[i])
  {
    if pieces != [] {
      ParsedHasNoLineFeed(pieces[1..]);
      var head, lines := TrimCr(pieces[0]), NonemptyLines(pieces[1..]);
      TrimCrKeeps(pieces[0]);
      ScanInvents(head, false, "", []);
      if head == "" {
        assert [] + lines == lines;
      } else {
        assert ([head] + lines)[1..] == lines;
      }
    }
  }

  lemma {:induction false} WithoutBlankSame(rows: seq<seq<string>>)
    ensures |WithoutBlank(rows)| <= |rows|
    ensures WithoutBlank(rows) == rows <==> forall i :: 0 <= i < |rows| ==> !Blank(rows[i])
  {
    if rows != [] {
      WithoutBlankSame(rows[1..]);
      var rest := WithoutBlank(rows[1..]);
      if Blank(rows[0]) {
        assert |WithoutBlank(rows)| < |rows|;
      } else {
        assert rows == [rows[0]] + rows[1..];
        assert WithoutBlank(rows)[1..] == rest;
        assert forall i :: 0 < i < |rows| ==> rows[1..][i - 1] == rows[i];
      }
    }
  }

  predicate Tabular(rows: seq<seq<string>>) {
    forall i :: 0 <= i < |rows| ==> NoLineFeed(rows[i]) && !Blank(rows[i])
  }

  /** A written table is read back whole if and only if no cell has a line feed
      and no row is blank. */
  lemma {:induction false} TableRoundTrip(rows: seq<seq<string>>)
    ensures ParsedTable(TableText(rows)) == rows <==> Tabular(rows)
  {
    if forall i :: 0 <= i < |rows| ==> NoLineFeed(rows[i]) {
      TableParses(rows);
      WithoutBlankSame(rows);
    } else {
      ParsedHasNoLineFeed(Pieces(TableText(rows)));
    }
  }

  /** Bodies rendered apart and concatenated under one header read back as the
      header and all their rows in order. */
  lemma {:induction false} ConsolidatedRoundTrip(headers: seq<string>, bodies: seq<seq<string>>, more: seq<seq<string>>)
    requires Tabular([headers] + bodies + more)
    ensures ParsedTable(TableText([headers]) + TableText(bodies) + TableText(more)) == [headers] + bodies + more
  {
    TableTextAppends([headers], bodies);
    TableTextAppends([headers] + bodies, more);
    TableRoundTrip([headers] + bodies + more);
  }

  // ----- Key/value tables -----

  /** `str::lines`: each line ends at a line feed, which takes one carriage return
      with it; text after the last line feed is a line only when non-empty. */
  function Lines(pieces: seq<string>): seq<string>
    requires pieces != []
  {
    if |pieces| == 1 then (if pieces[0] == "" then [] else pieces)
    else [StripCr(pieces[0])] + Lines(pieces[1..])
  }

  function StripCr(line: string): string {
    if line != [] && line[|line| - 1] == '\r' then line[..|line| - 1] else line
  }

  function Insert(m: map<string, string>, cells: seq<string>): map<string, string> {
    if |cells| >= 2 then m[cells[0] := cells[1]] else m
  }

  /** Later pairs win. */
  function MapOf(rows: seq<seq<string>>): map<string, string> {
    if rows == [] then map[] else Insert(MapOf(rows[..|rows| - 1]), rows[|rows| - 1])
  }

  function Skip1(lines: seq<string>): seq<string> {
    if lines == [] then [] else lines[1..]
  }

  function KeyValuesOf(lines: seq<string>): map<string, string> {
    if lines == [] then map[]
    else
      var last := |lines| - 1;
      var m := KeyValuesOf(lines[..last]);
      if lines[last] == "" then m else Insert(m, Fields(lines[last]))
  }

  /** The map a key/value artifact denotes: its header line is skipped. */
  function KeyValues(text: string): map<string, string> {
    KeyValuesOf(Skip1(Lines(Pieces(text))))
  }

  lemma {:induction false} MapOfSnoc(rows: seq<seq<string>>, row: seq<string>)
    ensures MapOf(rows + [row]) == Insert(MapOf(rows), row)
  {
    assert (rows + [row])[..|rows|] == rows;
  }

  method ReadKeyValueCsv(text: string) returns (m: map<string, string>)
    ensures m == KeyValues(text)
  {
    m := map[];
    var lines := Skip1(Lines(Pieces(text)));
    for i := 0 to |lines|
      invariant m == KeyValuesOf(lines[..i])
    {
      assert lines[..i + 1][..i] == lines[..i];
      if lines[i] == "" {
        continue;
      }
      var cells := ParseRecord(lines[i]);
      if |cells| >= 2 {
        m := m[cells[0] := cells[1]];
      }
    }
    assert lines[..|lines|] == lines;
  }

  function KeyValueText(rows: seq<seq<string>>): string {
    TableText([["key", "value"]] + rows)
  }

  predicate Pairs(rows: seq<seq<string>>) {
    forall i :: 0 <= i < |rows| ==> |rows[i]| == 2 && NoLineFeed(rows[i])
  }

  function JoinedAll(rows: seq<seq<string>>): (lines: seq<string>)
    ensures |lines| == |rows|
  {
    seq(|rows|, i requires 0 <= i < |rows| => Joined(rows[i]))
  }

  lemma {:induction false} LinesSnoc(line: string, rest: seq<string>)
    requires rest != []
    ensures Lines([line] + rest) == [StripCr(line)] + Lines(rest)
  {
    assert ([line] + rest)[1..] == rest;
  }

  lemma {:induction false} TableCons(rows: seq<seq<string>>)
    requires rows != []
    ensures TableText(rows) == RecordText(rows[0]) + TableText(rows[1..])
    ensures JoinedAll(rows) == [Joined(rows[0])] + JoinedAll(rows[1..])
  {
    hide RecordText, Joined;
  }

  lemma {:induction false} NoRecords(rows: seq<seq<string>>)
    requires rows == []
    ensures Lines(Pieces(TableText(rows))) == JoinedAll(rows) == []
  {}

  lemma {:induction false} FirstLineFeed(rows: seq<seq<string>>)
    requires rows != [] && forall i :: 0 <= i < |rows| ==> NoLineFeed(rows[i])
    ensures NoLineFeed(rows[0]) && forall i :: 0 <= i < |rows[1..]| ==> NoLineFeed(rows[1..][i])
  {}

  lemma {:induction false} LinesOfTable(rows: seq<seq<string>>)
    requires forall i :: 0 <= i < |rows| ==> NoLineFeed(rows[i])
    ensures Lines(Pieces(TableText(rows))) == JoinedAll(rows)
  {
    hide *;
    if rows == [] {
      NoRecords(rows);
    } else {
      FirstLineFeed(rows);
      RecordLine(rows[0], TableText(rows[1..]));
      LinesOfTable(rows[1..]);
      TableCons(rows);
      LinesSnoc(Joined(rows[0]) + "\r", Pieces(TableText(rows[1..])));
    }
  }

  lemma {:induction false} PairLines(rows: seq<seq<string>>)
    requires Pairs(rows)
    ensures KeyValuesOf(JoinedAll(rows)) == MapOf(rows)
  {
    if rows != [] {
      var last := |rows| - 1;
      PairLines(rows[..last]);
      assert JoinedAll(rows)[..last] == JoinedAll(rows[..last]);
      BlankLine(rows[last]);
      RecordRoundTrip(rows[last]);
    }
  }

  // ----- Key/value artifacts with any texts -----

  /** What some records read as, line by line, whatever their cells hold. */
  function Read(rows: seq<seq<string>>): map<string, string> {
    KeyValuesOf(Lines(Pieces(TableText(rows))))
  }

  predicate EndsLine(text: string) {
    text == "" || text[|text| - 1] == '\n'
  }

  /** Text begins with a line, up to its first line feed. */
  lemma {:induction false} FirstLine(text: string) returns (line: string, rest: string)
    requires text != "" && EndsLine(text)
    ensures text == line + "\n" + rest && '\n' !in line && EndsLine(rest)
  {
    if text[0] == '\n' {
      line, rest := "", text[1..];
    } else {
      line, rest := FirstLine(text[1..]);
      assert text == [text[0]] + text[1..];
      line := [text[0]] + line;
    }
  }

  lemma {:induction false} LinesAppend(x: string, y: string)
    requires EndsLine(x)
    ensures Lines(Pieces(x + y)) == Lines(Pieces(x)) + Lines(Pieces(y))
    decreases |x|
  {
    hide StripCr;
    if x == "" {
      assert x + y == y && Pieces(x) == [""];
    } else {
      var line, rest := FirstLine(x);
      assert x + y == line + "\n" + (rest + y);
      PiecesOfLine(line, rest);
      PiecesOfLine(line, rest + y);
      LinesAppend(rest, y);
      LinesSnoc(line, Pieces(rest));
      LinesSnoc(line, Pieces(rest + y));
    }
  }

  lemma {:induction false} KeyValuesAppend(a: seq<string>, b: seq<string>)
    ensures KeyValuesOf(a + b) == KeyValuesOf(a) + KeyValuesOf(b)
    decreases |b|
  {
    hide Fields;
    if b == [] {
      assert a + b == a;
    } else {
      var init, last := b[..|b| - 1], b[|b| - 1];
      KeyValuesAppend(a, init);
      assert (a + b)[..|a + b| - 1] == a + init;
    }
  }

  lemma {:induction false} TableEndsLine(rows: seq<seq<string>>)
    ensures EndsLine(TableText(rows))
  {
    if rows != [] {
      TableEndsLine(rows[1..]);
    }
  }

  /** One more line of any text, written by this program or not: its first two fields
      are a pair that wins over earlier ones, and with fewer it says nothing. */
  lemma {:induction false} OneMoreLine(text: string, line: string)
    requires text != "" && EndsLine(text) && '\n' !in line
    ensures var (m, cells) := (KeyValues(text), Fields(StripCr(line)));
            KeyValues(text + (line + "\n")) ==
            if StripCr(line) != "" && |cells| >= 2 then m[cells[0] := cells[1]] else m
  {
    LinesAppend(text, line + "\n");
    LineAlone(line);
    hide Fields, StripCr, Pieces;
    var ls, l := Lines(Pieces(text)), StripCr(line);
    SomeLine(text);
    assert Skip1(ls + [l]) == Skip1(ls) + [l];
    assert (Skip1(ls) + [l])[..|Skip1(ls)|] == Skip1(ls);
  }

  lemma {:induction false} LineAlone(line: string)
    requires '\n' !in line
    ensures Lines(Pieces(line + "\n")) == [StripCr(line)]
  {
    assert line + "\n" == line + "\n" + "";
    PiecesOfLine(line, "");
    assert ([line] + [""])[1..] == [""] && Lines([""]) == [];
    hide StripCr;
  }

  lemma {:induction false} SomeLine(text: string)
    requires text != "" && EndsLine(text)
    ensures Lines(Pieces(text)) != []
  {
    var line, rest := FirstLine(text);
    PiecesOfLine(line, rest);
    hide Pieces;
  }

  /** Records are read one after another, later pairs winning. */
  lemma {:induction false} ReadAppends(a: seq<seq<string>>, b: seq<seq<string>>)
    ensures Read(a + b) == Read(a) + Read(b)
  {
    hide TableText, KeyValuesOf, Lines;
    TableTextAppends(a, b);
    TableEndsLine(a);
    LinesAppend(TableText(a), TableText(b));
    KeyValuesAppend(Lines(Pieces(TableText(a))), Lines(Pieces(TableText(b))));
  }

  /** The header line is not read. */
  lemma {:induction false} KeyValuesAreRead(rows: seq<seq<string>>)
    ensures KeyValues(KeyValueText(rows)) == Read(rows)
  {
    var header := [["key", "value"]];
    TableTextAppends(header, rows);
    TableEndsLine(header);
    LinesAppend(TableText(header), TableText(rows));
    LinesOfTable(header);
    hide TableText, KeyValuesOf, Lines, Joined;
    assert Skip1(JoinedAll(header) + Lines(Pieces(TableText(rows)))) == Lines(Pieces(TableText(rows)));
  }

  lemma {:induction false} ReadPairs(rows: seq<seq<string>>)
    requires Pairs(rows)
    ensures Read(rows) == MapOf(rows)
  {
    LinesOfTable(rows);
    PairLines(rows);
  }

  /** A key/value artifact reads back as the map of its pairs, later pairs winning. */
  lemma {:induction false} PairsReadBack(rows: seq<seq<string>>)
    requires Pairs(rows)
    ensures KeyValues(KeyValueText(rows)) == MapOf(rows)
  {
    KeyValuesAreRead(rows);
    ReadPairs(rows);
  }

  lemma {:induction false} LinesHaveNoLineFeed(pieces: seq<string>)
    requires pieces != [] && NoLineFeed(pieces)
    ensures NoLineFeed(Lines(pieces))
  {
    if |pieces| > 1 {
      assert NoLineFeed(pieces[1..]);
      LinesHaveNoLineFeed(pieces[1..]);
    }
  }

  predicate OneLineMap(m: map<string, string>) {
    forall k :: k in m ==> '\n' !in k && '\n' !in m[k]
  }

  lemma {:induction false} LinesReadOneLine(lines: seq<string>)
    requires NoLineFeed(lines)
    ensures OneLineMap(KeyValuesOf(lines))
  {
    if lines != [] {
      var last := |lines| - 1;
      LinesReadOneLine(lines[..last]);
      ScanInvents(lines[last], false, "", []);
    }
  }

  /** Nothing read from an artifact has a line feed. */
  lemma {:induction false} KeyValuesAreOneLine(text: string)
    ensures OneLineMap(KeyValues(text))
  {
    LinesHaveNoLineFeed(Pieces(text));
    LinesReadOneLine(Skip1(Lines(Pieces(text))));
  }

  predicate DistinctKeys(rows: seq<seq<string>>) {
    && (forall i :: 0 <= i < |rows| ==> |rows[i]| == 2)
    && (forall i, j :: 0 <= i < j < |rows| ==> rows[i][0] != rows[j][0])
  }

  lemma {:induction false} MapHolds(rows: seq<seq<string>>, i: nat)
    requires DistinctKeys(rows) && i < |rows|
    ensures rows[i][0] in MapOf(rows) && MapOf(rows)[rows[i][0]] == rows[i][1]
  {
    var last := |rows| - 1;
    if i < last {
      MapHolds(rows[..last], i);
    }
  }

  /** An artifact of pairs under distinct keys reads back as its map if and only if
      no key and no value has a line feed. */
  lemma {:induction false} KeyValueRoundTrip(rows: seq<seq<string>>)
    requires DistinctKeys(rows)
    ensures KeyValues(KeyValueText(rows)) == MapOf(rows) <==> forall i :: 0 <= i < |rows| ==> NoLineFeed(rows[i])
  {
    hide KeyValues, KeyValueText, MapOf;
    if forall i :: 0 <= i < |rows| ==> NoLineFeed(rows[i]) {
      PairsReadBack(rows);
    } else {
      var i :| 0 <= i < |rows| && !NoLineFeed(rows[i]);
      KeyValuesAreOneLine(KeyValueText(rows));
      MapHolds(rows, i);
    }
  }

  // ----- Columns by name -----

  /** Header name to position; a repeated name keeps its last position. */
  function HeaderIndex(headers: seq<string>): (idx: map<string, nat>)
    ensures forall h :: h in idx <==> h in headers
    ensures forall h :: h in idx ==> idx[h] < |headers| && headers[idx[h]] == h
  {
    if headers == [] then map[]
    else
      var last := |headers| - 1;
      HeaderIndex(headers[..last])[headers[last] := last]
  }

  /** A cell looked up by column name; blank when the column or the cell is missing. */
  function Column(headers: seq<string>, fields: seq<string>, name: string): string {
    var idx := HeaderIndex(headers);
    if name in idx && idx[name] < |fields| then fields[idx[name]] else ""
  }

  /** Reading by name is independent of column order: the last column of the name gives
      its cell, blank where the row is shorter, and a name without a column nothing. */
  lemma {:induction false} ColumnByName(headers: seq<string>, fields: seq<string>, k: nat, other: string)
    requires k < |headers| && forall j :: k < j < |headers| ==> headers[j] != headers[k]
    ensures Column(headers, fields, headers[k]) == if k < |fields| then fields[k] else ""
    ensures other !in headers ==> Column(headers, fields, other) == ""
  {
    LastOfName(headers, k);
  }

  lemma {:induction false} LastOfName(headers: seq<string>, k: nat)
    requires k < |headers| && forall j :: k < j < |headers| ==> headers[j] != headers[k]
    ensures headers[k] in HeaderIndex(headers) && HeaderIndex(headers)[headers[k]] == k
  {
    var last := |headers| - 1;
    var front := headers[..last];
    assert HeaderIndex(headers) == HeaderIndex(front)[headers[last] := last];
    hide HeaderIndex;
    if k < last {
      assert front[k] == headers[k];
      assert forall j :: k < j < last ==> front[j] == headers[j];
      LastOfName(front, k);
    }
  }
}
