/**
 * The flashcard CSV parser of the dashboard (parseCSV in
 * src/options/Dashboard.jsx): the text is split at '\n', blank lines are
 * dropped, and each remaining line is scanned character by character with
 * an in-quotes flag; a ',' outside quotes ends a field.
 */
module Csv {
  import opened Text
  import opened Lists
  import opened Records

  /** `text.split("\n")`: the pieces between line feeds; never empty. */
  function SplitLines(text: string): (r: seq<string>)
    ensures |r| >= 1
    ensures forall k :: 0 <= k < |r| ==> '\n' !in r[k]
  {
    if text == [] then [""]
    else
      var rest := SplitLines(text[1..]);
      if text[0] == '\n' then [""] + rest
      else [[text[0]] + rest[0]] + rest[1..]
  }

  /** `lines.join("\n")`. */
  function JoinLines(lines: seq<string>): string
    requires |lines| >= 1
  {
    if |lines| == 1 then lines[0] else lines[0] + "\n" + JoinLines(lines[1..])
  }

  /** Splitting loses nothing: joining the pieces gives the text back. */
  lemma {:induction false} JoinOfSplit(text: string)
    ensures JoinLines(SplitLines(text)) == text
  {
    if text != [] {
      var rest := SplitLines(text[1..]);
      JoinOfSplit(text[1..]);
      if text[0] == '\n' {
        assert ([""] + rest)[1..] == rest;
      } else if |rest| > 1 {
        assert ([[text[0]] + rest[0]] + rest[1..])[1..] == rest[1..];
      }
    }
  }

  /** Lines without line feeds are recovered by splitting their join. */
  lemma {:induction false} SplitOfJoin(lines: seq<string>)
    requires |lines| >= 1
    requires forall k :: 0 <= k < |lines| ==> '\n' !in lines[k]
    ensures SplitLines(JoinLines(lines)) == lines
  {
    if |lines| == 1 {
      SplitBeforeLineFeedFree(lines[0], "");
      assert lines[0] + "" == lines[0];
    } else {
      var tail := "\n" + JoinLines(lines[1..]);
      SplitOfJoin(lines[1..]);
      assert tail[1..] == JoinLines(lines[1..]);
      assert SplitLines(tail) == [""] + lines[1..];
      SplitBeforeLineFeedFree(lines[0], tail);
      assert lines[0] + "" == lines[0];
      assert [lines[0]] + lines[1..] == lines;
      assert lines[0] + "\n" + JoinLines(lines[1..]) == lines[0] + tail;
    }
  }

  lemma {:induction false} SplitBeforeLineFeedFree(a: string, t: string)
    requires '\n' !in a
    ensures SplitLines(a + t) == [a + SplitLines(t)[0]] + SplitLines(t)[1..]
  {
    var st := SplitLines(t);
    if a == [] {
      assert a + t == t && a + st[0] == st[0];
      assert [st[0]] + st[1..] == st;
    } else {
      assert (a + t)[0] == a[0];
      assert (a + t)[1..] == a[1..] + t;
      SplitBeforeLineFeedFree(a[1..], t);
      var rest := SplitLines(a[1..] + t);
      assert rest[0] == a[1..] + st[0] && rest[1..] == st[1..];
      assert [a[0]] + (a[1..] + st[0]) == a + st[0];
    }
  }

  /** The filter `line => line.trim()`: the line is not blank. */
  predicate NonBlank(line: string) {
    Trim(line) != ""
  }

  function NonBlankLines(lines: seq<string>): seq<string> {
    Filter(lines, NonBlank)
  }

  /** The scanner's variables `columns`, `current` and `inQuotes`. */
  datatype ScanState = ScanState(columns: seq<string>, current: string, inQuotes: bool)

  const Start := ScanState([], "", false)

  /** One iteration of the scanner on character `c`. */
  function Step(st: ScanState, c: char): ScanState {
    if c == '"' then st.(inQuotes := !st.inQuotes)
    else if c == ',' && !st.inQuotes then ScanState(st.columns + [Trim(st.current)], "", st.inQuotes)
    else st.(current := st.current + [c])
  }

  /** The scanner run over `s` from state `st`. */
  function Scan(st: ScanState, s: string): ScanState
    decreases |s|
  {
    if s == [] then st else Scan(Step(st, s[0]), s[1..])
  }

  lemma {:induction false} ScanConcat(st: ScanState, a: string, b: string)
    ensures Scan(st, a + b) == Scan(Scan(st, a), b)
    decreases |a|
  {
    if a != [] {
      assert (a + b)[0] == a[0];
      assert (a + b)[1..] == a[1..] + b;
      assert Scan(st, a + b) == Scan(Step(st, a[0]), a[1..] + b);
      assert Scan(st, a) == Scan(Step(st, a[0]), a[1..]);
      ScanConcat(Step(st, a[0]), a[1..], b);
    } else {
      assert a + b == b;
    }
  }

  lemma ScanSnoc(st: ScanState, s: string, c: char)
    ensures Scan(st, s + [c]) == Step(Scan(st, s), c)
  {
    ScanConcat(st, s, [c]);
  }

  /** The fields of a line: the scanned columns and the final field, each trimmed. */
  function Columns(line: string): seq<string> {
    var st := Scan(Start, line);
    st.columns + [Trim(st.current)]
  }

  predicate IsLineTerminator(c: char) {
    c == '\n' || c == '\r' || c == '\U{2028}' || c == '\U{2029}'
  }

  /** `col.replace(/^"(.*)"$/, "$1")`: one enclosing pair of quotes removed. */
  function StripQuotePair(col: string): string {
    if |col| >= 2 && col[0] == '"' && col[|col| - 1] == '"'
       && forall k :: 1 <= k < |col| - 1 ==> !IsLineTerminator(col[k])
    then col[1..|col| - 1]
    else col
  }

  function CleanColumn(col: string): string {
    Trim(StripQuotePair(col))
  }

  function CleanColumns(line: string): seq<string> {
    var cols := Columns(line);
    seq(|cols|, k requires 0 <= k < |cols| => CleanColumn(cols[k]))
  }

  const DefaultCategory := "Imported"

  /** A field the scanner can produce: trimmed and free of '"'. */
  predicate CleanField(f: string) {
    Trimmed(f) && '"' !in f
  }

  /** What every imported card satisfies. */
  predicate WellFormedCard(card: Flashcard) {
    && card.front != "" && card.back != "" && card.category != ""
    && CleanField(card.front) && CleanField(card.back) && CleanField(card.category)
  }

  /** `cleanColumns[2] || "Imported"`. */
  function CategoryOf(cols: seq<string>): string {
    if |cols| >= 3 && cols[2] != "" then cols[2] else DefaultCategory
  }

  /** The fields of one line: its trimmed text scanned and each column cleaned. */
  function Row(line: string): seq<string> {
    CleanColumns(Trim(line))
  }

  /** The fields of each line. */
  function Rows(lines: seq<string>): (r: seq<seq<string>>)
    ensures |r| == |lines|
  {
    seq(|lines|, k requires 0 <= k < |lines| => Row(lines[k]))
  }

  /**
   * `rows` are the fields of the first |rows| lines. The trigger keeps the
   * fields of a line from being unfolded where only their number matters.
   */
  ghost predicate RowsOfPrefix(lines: seq<string>, rows: seq<seq<string>>) {
    |rows| <= |lines| && forall k {:trigger Row(lines[k])} :: 0 <= k < |rows| ==> rows[k] == Row(lines[k])
  }

  lemma RowsOfAll(lines: seq<string>, rows: seq<seq<string>>)
    requires RowsOfPrefix(lines, rows) && |rows| == |lines|
    ensures rows == Rows(lines)
  {
    forall k | 0 <= k < |lines| ensures rows[k] == Rows(lines)[k] {
      assert rows[k] == Row(lines[k]);
    }
  }

  /** The card a row of fields yields: none, or one stamped `id`. */
  function CardOf(cols: seq<string>, id: int): (r: seq<Flashcard>)
    ensures |r| <= 1
    ensures forall k :: 0 <= k < |r| ==> r[k].id == id
    ensures |r| == 1 <==> |cols| >= 2 && cols[0] != "" && cols[1] != ""
  {
    if |cols| >= 2 && cols[0] != "" && cols[1] != "" then
      [Flashcard(id, cols[0], cols[1], CategoryOf(cols))]
    else []
  }

  /** A row of clean fields yields only a well-formed card. */
  lemma CardOfWellFormed(cols: seq<string>, id: int)
    requires forall k :: 0 <= k < |cols| ==> CleanField(cols[k])
    ensures forall k :: 0 <= k < |CardOf(cols, id)| ==> WellFormedCard(CardOf(cols, id)[k])
  {
    if |cols| >= 2 && cols[0] != "" && cols[1] != "" {
      if !(|cols| >= 3 && cols[2] != "") {
        DefaultCategoryIsClean();
      }
    }
  }

  lemma DefaultCategoryIsClean()
    ensures CleanField(DefaultCategory)
  {
    assert DefaultCategory[0] == 'I';
    assert DefaultCategory[|DefaultCategory| - 1] == 'd';
    assert forall k :: 0 <= k < |DefaultCategory| ==> DefaultCategory[k] != '"';
  }

  /**
   * The cards of a sequence of rows: row `i` yields at most one card,
   * with id `base + i`.
   */
  function Cards(rows: seq<seq<string>>, base: int): (r: seq<Flashcard>)
    ensures |r| <= |rows|
    decreases |rows|
  {
    if rows == [] then []
    else Cards(rows[..|rows| - 1], base) + CardOf(rows[|rows| - 1], base + |rows| - 1)
  }

  /**
   * The ids of the cards lie between `base` and `base + |rows|` and strictly
   * increase, so no two imported cards share an id.
   */
  lemma {:induction false} CardIdsIncrease(rows: seq<seq<string>>, base: int)
    ensures forall k :: 0 <= k < |Cards(rows, base)| ==> base <= Cards(rows, base)[k].id < base + |rows|
    ensures forall k, l :: 0 <= k < l < |Cards(rows, base)| ==> Cards(rows, base)[k].id < Cards(rows, base)[l].id
    decreases |rows|
  {
    if rows != [] {
      var n := |rows| - 1;
      CardIdsIncrease(rows[..n], base);
      var a: seq<Flashcard> := Cards(rows[..n], base);
      var b: seq<Flashcard> := CardOf(rows[n], base + n);
      var c: seq<Flashcard> := a + b;
      assert Cards(rows, base) == c;
      forall k: int | 0 <= k < |c| ensures base <= c[k].id < base + |rows| {
        if k < |a| {
          assert c[k] == a[k];
        } else {
          assert c[k] == b[k - |a|];
        }
      }
      forall k: int, l: int | 0 <= k < l < |c| ensures c[k].id < c[l].id {
        if l < |a| {
          assert c[k] == a[k] && c[l] == a[l];
        } else {
          assert c[l] == b[l - |a|] && c[k] == a[k];
        }
      }
    }
  }

  /** Whether a row yields a card does not depend on the ids. */
  lemma {:induction false} CardsCountIgnoresBase(rows: seq<seq<string>>, base1: int, base2: int)
    ensures |Cards(rows, base1)| == |Cards(rows, base2)|
    decreases |rows|
  {
    if rows != [] {
      var n := |rows| - 1;
      CardsCountIgnoresBase(rows[..n], base1, base2);
      assert |CardOf(rows[n], base1 + n)| == |CardOf(rows[n], base2 + n)|;
    }
  }

  /** Every field of every row is clean. */
  predicate CleanRows(rows: seq<seq<string>>) {
    forall i, k :: 0 <= i < |rows| && 0 <= k < |rows[i]| ==> CleanField(rows[i][k])
  }

  predicate AllWellFormed(cards: seq<Flashcard>) {
    forall k :: 0 <= k < |cards| ==> WellFormedCard(cards[k])
  }

  /** Rows of clean fields yield only well-formed cards. */
  lemma {:induction false} CardsWellFormed(rows: seq<seq<string>>, base: int)
    requires CleanRows(rows)
    ensures AllWellFormed(Cards(rows, base))
    decreases |rows|
  {
    if rows != [] {
      var n := |rows| - 1;
      CleanRowsPrefix(rows, n);
      CardsWellFormed(rows[..n], base);
      CardOfWellFormed(rows[n], base + n);
      WellFormedConcat(Cards(rows, base), Cards(rows[..n], base), CardOf(rows[n], base + n));
    }
  }

  lemma CleanRowsPrefix(rows: seq<seq<string>>, n: int)
    requires CleanRows(rows) && 0 <= n < |rows|
    ensures CleanRows(rows[..n]) && forall k :: 0 <= k < |rows[n]| ==> CleanField(rows[n][k])
  {
    assert forall i :: 0 <= i < n ==> rows[..n][i] == rows[i];
  }

  lemma WellFormedConcat(c: seq<Flashcard>, a: seq<Flashcard>, b: seq<Flashcard>)
    requires c == a + b && AllWellFormed(a) && AllWellFormed(b)
    ensures AllWellFormed(c)
  {
    forall k | 0 <= k < |c| ensures WellFormedCard(c[k]) {
      if k < |a| {
        assert c[k] == a[k];
      } else {
        assert c[k] == b[k - |a|];
      }
    }
  }

  /** Every row the parser builds consists of clean fields. */
  lemma RowsAreClean(lines: seq<string>)
    ensures CleanRows(Rows(lines))
  {
    forall i, k | 0 <= i < |Rows(lines)| && 0 <= k < |Rows(lines)[i]|
      ensures CleanField(Rows(lines)[i][k])
    {
      CleanColumnsAreClean(Trim(lines[i]));
    }
  }

  /** Cards follow line order: the cards of `a + b` are those of `a`, then those of `b`. */
  lemma {:induction false} CardsConcat(a: seq<seq<string>>, b: seq<seq<string>>, base: int)
    ensures Cards(a + b, base) == Cards(a, base) + Cards(b, base + |a|)
    decreases |b|
  {
    if b == [] {
      assert a + b == a;
    } else {
      CardsOfConcatLast(a, b, base);
      CardsConcat(a, b[..|b| - 1], base);
      CardsOfLast(b, base + |a|);
      var left := Cards(a, base);
      var middle := Cards(b[..|b| - 1], base + |a|);
      var card := CardOf(b[|b| - 1], base + |a| + |b| - 1);
      assert (left + middle) + card == left + (middle + card);
    }
  }

  /** The last card of `a + b` comes from the last row of `b`. */
  lemma CardsOfConcatLast(a: seq<seq<string>>, b: seq<seq<string>>, base: int)
    requires b != []
    ensures Cards(a + b, base) == Cards(a + b[..|b| - 1], base) + CardOf(b[|b| - 1], base + |a| + |b| - 1)
  {
    var ab := a + b;
    CardsOfLast(ab, base);
    ConcatLast(a, b);
    CardsOfSameRows(ab[..|ab| - 1], a + b[..|b| - 1], base);
    CardOfSameRow(ab[|ab| - 1], b[|b| - 1], base + |ab| - 1, base + |a| + |b| - 1);
    AppendOfEquals(Cards(ab[..|ab| - 1], base), CardOf(ab[|ab| - 1], base + |ab| - 1),
                   Cards(a + b[..|b| - 1], base), CardOf(b[|b| - 1], base + |a| + |b| - 1));
  }

  /** The cards of non-empty rows: those of all rows but the last, then the last row's. */
  lemma CardsOfLast(rows: seq<seq<string>>, base: int)
    requires rows != []
    ensures Cards(rows, base) == Cards(rows[..|rows| - 1], base) + CardOf(rows[|rows| - 1], base + |rows| - 1)
  {
  }

  lemma CardsOfSameRows(rows: seq<seq<string>>, other: seq<seq<string>>, base: int)
    requires rows == other
    ensures Cards(rows, base) == Cards(other, base)
  {
  }

  /** The card of a row depends only on the row's fields and the id's value. */
  lemma CardOfSameRow(cols: seq<string>, other: seq<string>, i: int, j: int)
    requires cols == other && i == j
    ensures CardOf(cols, i) == CardOf(other, j)
  {
  }

  /** Splitting at a line feed splits the two sides separately. */
  lemma SplitLinesOfLineFeed(a: string, b: string)
    ensures SplitLines(a + "\n" + b) == SplitLines(a) + SplitLines(b)
  {
    var x := SplitLines(a);
    var y := SplitLines(b);
    JoinOfSplit(a);
    JoinOfSplit(b);
    JoinLinesConcat(x, y);
    assert forall k :: 0 <= k < |x + y| ==> '\n' !in (x + y)[k] by {
      forall k | 0 <= k < |x + y| ensures '\n' !in (x + y)[k] {
        if k < |x| {
          assert (x + y)[k] == x[k];
        } else {
          assert (x + y)[k] == y[k - |x|];
        }
      }
    }
    SplitOfJoin(x + y);
  }

  /** Joining two non-empty lists of lines: the joins of each, separated by a line feed. */
  lemma {:induction false} JoinLinesConcat(x: seq<string>, y: seq<string>)
    requires |x| >= 1 && |y| >= 1
    ensures JoinLines(x + y) == JoinLines(x) + "\n" + JoinLines(y)
  {
    var xy := x + y;
    assert xy[0] == x[0];
    if |x| == 1 {
      assert xy[1..] == y;
    } else {
      assert xy[1..] == x[1..] + y;
      JoinLinesConcat(x[1..], y);
      assert JoinLines(xy) == x[0] + "\n" + (JoinLines(x[1..]) + "\n" + JoinLines(y));
      assert x[0] + "\n" + (JoinLines(x[1..]) + "\n" + JoinLines(y)) == (x[0] + "\n" + JoinLines(x[1..])) + "\n" + JoinLines(y);
    }
  }

  /** The fields of the lines of `a + b` are those of `a`, then those of `b`. */
  lemma RowsConcat(a: seq<string>, b: seq<string>)
    ensures Rows(a + b) == Rows(a) + Rows(b)
  {
    forall k | 0 <= k < |a + b| ensures Rows(a + b)[k] == (Rows(a) + Rows(b))[k] {
      if k < |a| {
        assert (a + b)[k] == a[k];
      } else {
        assert (a + b)[k] == b[k - |a|];
      }
    }
  }

  /** What parseCSV returns for `csvText` when the clock reads `now`. */
  function Parse(csvText: string, now: int): seq<Flashcard> {
    Cards(Rows(NonBlankLines(SplitLines(csvText))), now)
  }

  /**
   * Parsing two texts joined by a line feed gives the cards of the first,
   * then those of the second, whose ids continue after the first text's
   * non-blank lines `l1`.
   */
  lemma ParseOfJoinedTexts(t1: string, t2: string, now: int, l1: seq<string>, l2: seq<string>)
    requires l1 == NonBlankLines(SplitLines(t1)) && l2 == NonBlankLines(SplitLines(t2))
    ensures Parse(t1 + "\n" + t2, now) == Parse(t1, now) + Parse(t2, now + |l1|)
  {
    NonBlankLinesOfJoinedTexts(t1, t2);
    ParseOfJoinedLines(t1 + "\n" + t2, t1, t2, now, l1, l2);
  }

  /** The cards of a text whose non-blank lines are those of `t1`, then those of `t2`. */
  lemma ParseOfJoinedLines(text: string, t1: string, t2: string, now: int, l1: seq<string>, l2: seq<string>)
    requires NonBlankLines(SplitLines(text)) == l1 + l2
    requires NonBlankLines(SplitLines(t1)) == l1 && NonBlankLines(SplitLines(t2)) == l2
    ensures Parse(text, now) == Parse(t1, now) + Parse(t2, now + |l1|)
  {
    CardsOfLinesConcat(l1, l2, now);
    ParseOfLines(text, l1 + l2, now);
    ParseOfLines(t1, l1, now);
    ParseOfLines(t2, l2, now + |l1|);
  }

  lemma NonBlankLinesOfJoinedTexts(t1: string, t2: string)
    ensures NonBlankLines(SplitLines(t1 + "\n" + t2)) == NonBlankLines(SplitLines(t1)) + NonBlankLines(SplitLines(t2))
  {
    SplitLinesOfLineFeed(t1, t2);
    FilterConcat(SplitLines(t1), SplitLines(t2), NonBlank);
  }

  lemma ParseOfLines(csvText: string, lines: seq<string>, now: int)
    requires NonBlankLines(SplitLines(csvText)) == lines
    ensures Parse(csvText, now) == Cards(Rows(lines), now)
  {
  }

  lemma CardsOfLinesConcat(a: seq<string>, b: seq<string>, base: int)
    ensures Cards(Rows(a + b), base) == Cards(Rows(a), base) + Cards(Rows(b), base + |a|)
  {
    RowsConcat(a, b);
    CardsOfSplitRows(Rows(a + b), Rows(a), Rows(b), base, |a|);
  }

  lemma CardsOfSplitRows(rows: seq<seq<string>>, a: seq<seq<string>>, b: seq<seq<string>>, base: int, n: int)
    requires rows == a + b && n == |a|
    ensures Cards(rows, base) == Cards(a, base) + Cards(b, base + n)
  {
    CardsConcat(a, b, base);
  }

  /** The number of cards a text yields does not depend on the clock. */
  lemma ParseCountIgnoresClock(csvText: string, now1: int, now2: int)
    ensures |Parse(csvText, now1)| == |Parse(csvText, now2)|
  {
    CardsCountIgnoresBase(Rows(NonBlankLines(SplitLines(csvText))), now1, now2);
  }

  /** Every card the parser returns is well formed, whatever the text. */
  lemma ParseWellFormed(csvText: string, now: int)
    ensures AllWellFormed(Parse(csvText, now))
  {
    var lines := NonBlankLines(SplitLines(csvText));
    RowsAreClean(lines);
    CardsWellFormed(Rows(lines), now);
  }

  /**
   * The scanner keeps every finished column trimmed and quote-free, and
   * never puts a '"' into the current field.
   */
  lemma {:induction false} ScanKeepsFieldsClean(st: ScanState, s: string)
    requires forall k :: 0 <= k < |st.columns| ==> CleanField(st.columns[k])
    requires '"' !in st.current
    ensures forall k :: 0 <= k < |Scan(st, s).columns| ==> CleanField(Scan(st, s).columns[k])
    ensures '"' !in Scan(st, s).current
    decreases |s|
  {
    if s != [] {
      var next := Step(st, s[0]);
      if s[0] != '"' && s[0] == ',' && !st.inQuotes {
        TrimFacts(st.current);
        ContainsKeepsAbsence(st.current, Trim(st.current), '"');
      }
      ScanKeepsFieldsClean(next, s[1..]);
    }
  }

  lemma CleanColumnsAreClean(line: string)
    ensures forall k :: 0 <= k < |CleanColumns(line)| ==> CleanField(CleanColumns(line)[k])
  {
    ColumnsAreClean(line);
  }

  /** No field of a line contains '"', and every field is trimmed. */
  lemma ColumnsAreClean(line: string)
    ensures forall k :: 0 <= k < |Columns(line)| ==> CleanField(Columns(line)[k])
    ensures CleanColumns(line) == Columns(line)
  {
    var st := Scan(Start, line);
    ScanKeepsFieldsClean(Start, line);
    var last := Trim(st.current);
    TrimFacts(st.current);
    ContainsKeepsAbsence(st.current, last, '"');
    var cols := st.columns + [last];
    assert cols == Columns(line);
    forall k | 0 <= k < |cols| ensures CleanField(cols[k]) {
      if k < |st.columns| {
        assert cols[k] == st.columns[k];
      }
    }
    var clean := CleanColumns(line);
    forall k | 0 <= k < |cols| ensures clean[k] == cols[k] {
      CleanColumnOfCleanField(cols[k]);
    }
  }

  /** Removing an enclosing quote pair and trimming leave a scanned field as it is. */
  lemma CleanColumnOfCleanField(f: string)
    requires CleanField(f)
    ensures CleanColumn(f) == f
  {
    if |f| >= 2 {
      assert f[0] in f;
    }
  }

  /** One more row adds its card, if any, at the end. */
  lemma CardsAppend(rows: seq<seq<string>>, row: seq<string>, base: int, cards: seq<Flashcard>, card: seq<Flashcard>)
    requires cards == Cards(rows, base) && card == CardOf(row, base + |rows|)
    ensures cards + card == Cards(rows + [row], base)
  {
    assert (rows + [row])[..|rows|] == rows;
  }

  /** The scanning loop of parseCSV over one trimmed line. */
  method ScanFields(line: string) returns (columns: seq<string>)
    ensures columns == Columns(line)
  {
    columns := [];
    var current := "";
    var inQuotes := false;
    var j := 0;
    while j < |line|
      invariant 0 <= j <= |line|
      invariant Scan(Start, line[..j]) == ScanState(columns, current, inQuotes)
    {
      var ch := line[j];
      if ch == '"' {
        inQuotes := !inQuotes;
      } else if ch == ',' && !inQuotes {
        columns := columns + [Trim(current)];
        current := "";
      } else {
        current := current + [ch];
      }
      ScanSnoc(Start, line[..j], ch);
      assert line[..j + 1] == line[..j] + [ch];
      j := j + 1;
    }
    assert line[..j] == line;
    columns := columns + [Trim(current)];
  }

  /**
   * The body of parseCSV's outer loop for line `i`: the line trimmed,
   * skipped when empty, else scanned and its card, if any, built.
   */
  method LineCard(lines: seq<string>, i: int, id: int, ghost rows: seq<seq<string>>)
    returns (card: seq<Flashcard>, ghost row: seq<string>)
    requires i == |rows| < |lines| && RowsOfPrefix(lines, rows)
    ensures RowsOfPrefix(lines, rows + [row])
    ensures card == CardOf(row, id)
  {
    var line := Trim(lines[i]);
    row := Row(lines[i]);
    card := [];
    if line == "" {
      assert Columns(line) == [""];
    } else {
      var columns := ScanFields(line);
      var cleanColumns := seq(|columns|, k requires 0 <= k < |columns| => CleanColumn(columns[k]));
      assert cleanColumns == row;
      if |cleanColumns| >= 2 {
        var front := cleanColumns[0];
        var back := cleanColumns[1];
        var category := if |cleanColumns| >= 3 && cleanColumns[2] != "" then cleanColumns[2] else DefaultCategory;
        if front != "" && back != "" {
          card := [Flashcard(id, front, back, category)];
        }
      }
    }
    forall k | 0 <= k < |rows| + 1 ensures (rows + [row])[k] == Row(lines[k]) {
      if k < |rows| {
        assert (rows + [row])[k] == rows[k];
      }
    }
  }

  /**
   * The parser (parseCSV): the cards of the non-blank lines of `csvText`,
   * the card of the i-th non-blank line stamped `now + i`.
   */
  method ParseCsv(csvText: string, now: int) returns (flashcards: seq<Flashcard>)
    ensures flashcards == Parse(csvText, now)
  {
    var lines := NonBlankLines(SplitLines(csvText));
    ghost var rows: seq<seq<string>> := [];
    flashcards := [];
    var i := 0;
    while i < |lines|
      invariant i == |rows| <= |lines|
      invariant RowsOfPrefix(lines, rows)
      invariant flashcards == Cards(rows, now)
    {
      ghost var row;
      var card;
      card, row := LineCard(lines, i, now + i, rows);
      CardsAppend(rows, row, now, flashcards, card);
      flashcards := flashcards + card;
      rows := rows + [row];
      i := i + 1;
    }
    RowsOfAll(lines, rows);
  }
}
