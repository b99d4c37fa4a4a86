/**
 * What the CSV parser of the dashboard recovers: the cards of text written
 * in the documented import format (`"front","back","category"`, one
 * record per line), the behaviour of quotes and commas, and the parse of
 * empty and unquoted input.
 */
module CsvRoundTrip {
  import opened Text
  import opened Lists
  import opened Records
  import opened Csv

  /** One record of an import file. */
  datatype CsvRow = CsvRow(front: string, back: string, category: string)

  function Quote(f: string): string {
    "\"" + f + "\""
  }

  /** Quoted fields separated by commas. */
  function JoinQuoted(fs: seq<string>): (r: string)
    requires |fs| >= 1
    ensures |r| >= 2 && r[0] == '"' && r[|r| - 1] == '"'
  {
    if |fs| == 1 then Quote(fs[0]) else Quote(fs[0]) + "," + JoinQuoted(fs[1..])
  }

  function RowLine(row: CsvRow): string {
    JoinQuoted([row.front, row.back, row.category])
  }

  function RowLines(rows: seq<CsvRow>): (r: seq<string>)
    ensures |r| == |rows|
  {
    seq(|rows|, k requires 0 <= k < |rows| => RowLine(rows[k]))
  }

  /** The file text: the record lines joined by line feeds. */
  function CsvText(rows: seq<CsvRow>): string {
    if rows == [] then "" else JoinLines(RowLines(rows))
  }

  /** A field the format carries unchanged: trimmed, without '"' or a line feed. */
  predicate Portable(f: string) {
    CleanField(f) && '\n' !in f
  }

  /** A record the parser recovers: portable fields, front and back present. */
  predicate Exportable(row: CsvRow) {
    row.front != "" && row.back != ""
    && Portable(row.front) && Portable(row.back) && Portable(row.category)
  }

  /** The card the parser makes of a record; an empty category becomes "Imported". */
  function ImportedCard(row: CsvRow, id: int): Flashcard {
    Flashcard(id, row.front, row.back, if row.category == "" then DefaultCategory else row.category)
  }

  function ImportedCards(rows: seq<CsvRow>, base: int): (r: seq<Flashcard>)
    ensures |r| == |rows|
  {
    seq(|rows|, k requires 0 <= k < |rows| => ImportedCard(rows[k], base + k))
  }

  /** Inside quotes every character but '"' is kept, ',' included. */
  lemma {:induction false} ScanInsideQuotes(st: ScanState, f: string)
    requires st.inQuotes && '"' !in f
    ensures Scan(st, f) == ScanState(st.columns, st.current + f, true)
    decreases |f|
  {
    if f == [] {
      assert st.current + f == st.current;
    } else {
      var next := Step(st, f[0]);
      assert f[0] in f;
      assert next == ScanState(st.columns, st.current + [f[0]], true);
      assert Scan(st, f) == Scan(next, f[1..]);
      ScanInsideQuotes(next, f[1..]);
      assert st.current + [f[0]] + f[1..] == st.current + f;
    }
  }

  /** A quoted field is one piece of the current field, commas and all. */
  lemma ScanQuoted(st: ScanState, f: string)
    requires !st.inQuotes && '"' !in f
    ensures Scan(st, Quote(f)) == ScanState(st.columns, st.current + f, false)
  {
    var open := Step(st, '"');
    assert Scan(st, "\"") == open by {
      assert Scan(open, "") == open;
    }
    ScanConcat(st, "\"", f + "\"");
    assert Quote(f) == "\"" + (f + "\"");
    ScanConcat(open, f, "\"");
    ScanInsideQuotes(open, f);
    var inside := ScanState(st.columns, st.current + f, true);
    assert Scan(inside, "\"") == Step(inside, '"') by {
      assert Scan(Step(inside, '"'), "") == Step(inside, '"');
    }
  }

  /** A separating ',' outside quotes closes the field, trimmed. */
  lemma ScanComma(st: ScanState, rest: string)
    requires !st.inQuotes
    ensures Scan(st, "," + rest) == Scan(ScanState(st.columns + [Trim(st.current)], "", false), rest)
  {
    assert ("," + rest)[0] == ',' && ("," + rest)[1..] == rest;
  }

  /** A quoted clean field and its ',' add that field to the columns. */
  lemma ScanQuotedField(cols: seq<string>, f: string, rest: string)
    requires CleanField(f)
    ensures Scan(ScanState(cols, "", false), Quote(f) + "," + rest) == Scan(ScanState(cols + [f], "", false), rest)
  {
    var st := ScanState(cols, "", false);
    var quoted := ScanState(cols, f, false);
    assert Scan(st, Quote(f)) == quoted by {
      ScanQuoted(st, f);
      assert "" + f == f;
    }
    assert Scan(quoted, "," + rest) == Scan(ScanState(cols + [f], "", false), rest) by {
      ScanComma(quoted, rest);
      TrimFacts(f);
    }
    assert Quote(f) + "," + rest == Quote(f) + ("," + rest);
    ScanConcat(st, Quote(f), "," + rest);
  }

  /** The scanner splits quoted, comma-separated clean fields back apart. */
  lemma {:induction false} ScanJoinQuoted(cols: seq<string>, fs: seq<string>)
    requires |fs| >= 1
    requires forall k :: 0 <= k < |fs| ==> CleanField(fs[k])
    ensures Scan(ScanState(cols, "", false), JoinQuoted(fs)) == ScanState(cols + fs[..|fs| - 1], fs[|fs| - 1], false)
    decreases |fs|
  {
    if |fs| == 1 {
      ScanQuoted(ScanState(cols, "", false), fs[0]);
      assert "" + fs[0] == fs[0];
      assert cols + fs[..0] == cols;
    } else {
      ScanQuotedField(cols, fs[0], JoinQuoted(fs[1..]));
      ScanJoinQuoted(cols + [fs[0]], fs[1..]);
      assert (cols + [fs[0]]) + fs[1..][..|fs| - 2] == cols + fs[..|fs| - 1];
    }
  }

  /** The fields of a line of quoted clean fields are those fields. */
  lemma ColumnsOfJoinQuoted(fs: seq<string>)
    requires |fs| >= 1
    requires forall k :: 0 <= k < |fs| ==> CleanField(fs[k])
    ensures Columns(JoinQuoted(fs)) == fs
  {
    var n := |fs| - 1;
    assert Scan(Start, JoinQuoted(fs)) == ScanState(fs[..n], fs[n], false) by {
      ScanJoinQuoted([], fs);
      assert [] + fs[..n] == fs[..n];
    }
    assert Trim(fs[n]) == fs[n] by {
      TrimFacts(fs[n]);
    }
    ColumnsOfFinalState(JoinQuoted(fs), fs);
  }

  lemma ColumnsOfFinalState(line: string, fs: seq<string>)
    requires |fs| >= 1
    requires Scan(Start, line) == ScanState(fs[..|fs| - 1], fs[|fs| - 1], false)
    requires Trim(fs[|fs| - 1]) == fs[|fs| - 1]
    ensures Columns(line) == fs
  {
    assert fs[..|fs| - 1] + [fs[|fs| - 1]] == fs;
  }

  /** The fields of a line that trimming leaves alone are its columns. */
  lemma RowOfTrimmedLine(line: string)
    requires Trimmed(line)
    ensures Row(line) == Columns(line)
  {
    assert Trim(line) == line;
    ColumnsAreClean(line);
  }

  /** A quote pair of the format never reaches a field: '"' only toggles the state. */
  lemma RowOfJoinQuoted(fs: seq<string>)
    requires |fs| >= 1
    requires forall k :: 0 <= k < |fs| ==> CleanField(fs[k])
    ensures Row(JoinQuoted(fs)) == fs
  {
    ColumnsOfJoinQuoted(fs);
    RowOfTrimmedLine(JoinQuoted(fs));
  }

  lemma RowOfRowLine(row: CsvRow)
    requires Exportable(row)
    ensures Row(RowLine(row)) == [row.front, row.back, row.category]
  {
    var fs := [row.front, row.back, row.category];
    assert forall k :: 0 <= k < |fs| ==> CleanField(fs[k]);
    RowOfJoinQuoted(fs);
  }

  /**
   * A line of quoted fields yields one card from its first two fields and
   * the third; a missing or empty third field gives "Imported", and fields
   * after the third are ignored.
   */
  lemma CardOfQuotedFields(fs: seq<string>, id: int)
    requires |fs| >= 2 && fs[0] != "" && fs[1] != ""
    requires forall k :: 0 <= k < |fs| ==> CleanField(fs[k])
    ensures CardOf(Row(JoinQuoted(fs)), id)
      == [Flashcard(id, fs[0], fs[1], if |fs| >= 3 && fs[2] != "" then fs[2] else DefaultCategory)]
  {
    RowOfJoinQuoted(fs);
  }

  /** A line of quoted fields whose first or second field is empty yields no card. */
  lemma NoCardWithoutFrontAndBack(fs: seq<string>, id: int)
    requires |fs| >= 1 && (fs[0] == "" || |fs| < 2 || fs[1] == "")
    requires forall k :: 0 <= k < |fs| ==> CleanField(fs[k])
    ensures CardOf(Row(JoinQuoted(fs)), id) == []
  {
    RowOfJoinQuoted(fs);
  }

  /** Outside quotes, text without '"' or ',' is added to the current field. */
  lemma {:induction false} ScanPlain(st: ScanState, f: string)
    requires !st.inQuotes && '"' !in f && ',' !in f
    ensures Scan(st, f) == ScanState(st.columns, st.current + f, false)
    decreases |f|
  {
    if f == [] {
      assert st.current + f == st.current;
    } else {
      var next := Step(st, f[0]);
      assert f[0] in f;
      assert next == ScanState(st.columns, st.current + [f[0]], false);
      assert Scan(st, f) == Scan(next, f[1..]);
      ScanPlain(next, f[1..]);
      assert st.current + [f[0]] + f[1..] == st.current + f;
    }
  }

  /** The plain line `front,back` has the fields `front` and `back`. */
  lemma RowOfPlainPair(front: string, back: string)
    requires front != "" && back != ""
    requires CleanField(front) && CleanField(back) && ',' !in front && ',' !in back
    ensures Row(front + "," + back) == [front, back]
  {
    var line := front + "," + back;
    ScanOfPlainPair(front, back);
    TrimFacts(back);
    ColumnsOfFinalState(line, [front, back]);
    PlainPairIsTrimmed(front, back);
    RowOfTrimmedLine(line);
  }

  lemma ScanOfPlainPair(front: string, back: string)
    requires CleanField(front) && CleanField(back) && ',' !in front && ',' !in back
    ensures Scan(Start, front + "," + back) == ScanState([front], back, false)
  {
    ScanPlainFront(front);
    ScanCommaBack(front, back);
    CommaJoin(front, back);
    ScanConcat(Start, front, "," + back);
  }

  lemma ScanPlainFront(front: string)
    requires '"' !in front && ',' !in front
    ensures Scan(Start, front) == ScanState([], front, false)
  {
    ScanPlain(Start, front);
    assert "" + front == front;
  }

  lemma ScanCommaBack(front: string, back: string)
    requires CleanField(front) && '"' !in back && ',' !in back
    ensures Scan(ScanState([], front, false), "," + back) == ScanState([front], back, false)
  {
    var afterFront := ScanState([], front, false);
    ScanComma(afterFront, back);
    TrimFacts(front);
    assert afterFront.columns + [Trim(front)] == [front];
    ScanPlain(ScanState([front], "", false), back);
    assert "" + back == back;
  }

  lemma CommaJoin(front: string, back: string)
    ensures front + "," + back == front + ("," + back)
  {
  }

  lemma PlainPairIsTrimmed(front: string, back: string)
    requires front != "" && back != "" && Trimmed(front) && Trimmed(back)
    ensures Trimmed(front + "," + back)
  {
    var line := front + "," + back;
    assert line[0] == front[0];
    assert line[|line| - 1] == back[|back| - 1];
  }

  /** A text of one non-blank line without line feeds parses as that line. */
  lemma ParseOfOneLine(line: string, now: int)
    requires '\n' !in line && NonBlank(line)
    ensures Parse(line, now) == CardOf(Row(line), now)
  {
    SplitOfJoin([line]);
    assert NonBlankLines(SplitLines(line)) == [line];
    ParseOfLines(line, [line], now);
    assert Rows([line]) == [Row(line)];
    assert Cards([Row(line)], now) == Cards([], now) + CardOf(Row(line), now + 0);
  }

  /**
   * Quotes are optional: the one-line text `front,back` of two plain
   * fields parses to one card with the default category.
   */
  lemma UnquotedPair(front: string, back: string, now: int)
    requires front != "" && back != ""
    requires Portable(front) && Portable(back) && ',' !in front && ',' !in back
    ensures Parse(front + "," + back, now) == [Flashcard(now, front, back, DefaultCategory)]
  {
    var line := front + "," + back;
    RowOfPlainPair(front, back);
    assert '\n' !in line;
    assert NonBlank(line) by {
      TrimFacts(line);
      assert line[0] == front[0];
    }
    ParseOfOneLine(line, now);
  }

  /** A record's line yields exactly that record's card. */
  lemma CardOfRowLine(row: CsvRow, id: int)
    requires Exportable(row)
    ensures CardOf(Row(RowLine(row)), id) == [ImportedCard(row, id)]
  {
    RowOfRowLine(row);
  }

  lemma {:induction false} JoinQuotedKeepsLineFeedOut(fs: seq<string>)
    requires |fs| >= 1
    requires forall k :: 0 <= k < |fs| ==> '\n' !in fs[k]
    ensures '\n' !in JoinQuoted(fs)
    decreases |fs|
  {
    if |fs| > 1 {
      JoinQuotedKeepsLineFeedOut(fs[1..]);
    }
  }

  lemma LinesOfRows(rows: seq<CsvRow>)
    requires forall k :: 0 <= k < |rows| ==> Exportable(rows[k])
    ensures forall k :: 0 <= k < |rows| ==> '\n' !in RowLines(rows)[k] && NonBlank(RowLines(rows)[k])
  {
    forall k | 0 <= k < |rows|
      ensures '\n' !in RowLines(rows)[k] && NonBlank(RowLines(rows)[k])
    {
      var row := rows[k];
      var fs := [row.front, row.back, row.category];
      JoinQuotedKeepsLineFeedOut(fs);
      var line := JoinQuoted(fs);
      assert Trimmed(line);
    }
  }

  /** Rows that each yield exactly their card give exactly those cards. */
  lemma {:induction false} CardsOfFullRows(rows: seq<seq<string>>, cards: seq<Flashcard>, base: int)
    requires |rows| == |cards|
    requires forall k :: 0 <= k < |rows| ==> CardOf(rows[k], base + k) == [cards[k]]
    ensures Cards(rows, base) == cards
    decreases |rows|
  {
    if rows != [] {
      var n := |rows| - 1;
      CardsOfFullRows(rows[..n], cards[..n], base);
      assert cards[..n] + [cards[n]] == cards;
    }
  }

  /** The non-blank lines of an export are its record lines. */
  lemma LinesOfCsvText(rows: seq<CsvRow>)
    requires rows != []
    requires forall k :: 0 <= k < |rows| ==> Exportable(rows[k])
    ensures NonBlankLines(SplitLines(CsvText(rows))) == RowLines(rows)
  {
    var lines := RowLines(rows);
    LinesOfRows(rows);
    SplitOfJoin(lines);
    FilterKeepsAll(lines, NonBlank);
  }

  lemma CardsOfRowLines(rows: seq<CsvRow>, now: int)
    requires forall k :: 0 <= k < |rows| ==> Exportable(rows[k])
    ensures Cards(Rows(RowLines(rows)), now) == ImportedCards(rows, now)
  {
    var cells := Rows(RowLines(rows));
    var cards := ImportedCards(rows, now);
    forall k | 0 <= k < |rows|
      ensures CardOf(cells[k], now + k) == [cards[k]]
    {
      CardAtRowLine(rows, k, now);
    }
    CardsOfFullRows(cells, cards, now);
  }

  lemma CardAtRowLine(rows: seq<CsvRow>, k: int, now: int)
    requires 0 <= k < |rows| && Exportable(rows[k])
    ensures CardOf(Rows(RowLines(rows))[k], now + k) == [ImportedCards(rows, now)[k]]
  {
    assert Rows(RowLines(rows))[k] == Row(RowLine(rows[k]));
    assert ImportedCards(rows, now)[k] == ImportedCard(rows[k], now + k);
    CardOfRowLine(rows[k], now + k);
  }

  /**
   * Parsing the export of records recovers them: one card per record, in
   * order, with ids `now`, `now + 1`, …, and "Imported" for an empty
   * category. A ',' inside a quoted field stays in the field.
   */
  lemma ParseRoundTrip(rows: seq<CsvRow>, now: int)
    requires forall k :: 0 <= k < |rows| ==> Exportable(rows[k])
    ensures Parse(CsvText(rows), now) == ImportedCards(rows, now)
  {
    if rows == [] {
      ParseEmpty(now);
    } else {
      LinesOfCsvText(rows);
      CardsOfRowLines(rows, now);
    }
  }

  /** parse("") is empty. */
  lemma ParseEmpty(now: int)
    ensures Parse("", now) == []
  {
    assert SplitLines("") == [""];
    assert !NonBlank("");
    assert NonBlankLines([""]) == [];
  }
}
