/** The CSV the predictions export prints and the CSV the upload page reads:
    csvCell/csvRow of predictions.controller.js against splitCsvLine of
    Upload.jsx. */
module Csv {

  /** A value handed to `csvCell`; null and undefined print as nothing. */
  datatype Cell = Absent | Text(value: string)

  function TextOf(c: Cell): string {
    if c.Absent? then "" else c.value
  }

  predicate Special(ch: char) {
    ch == '"' || ch == '\n' || ch == '\r' || ch == ','
  }

  predicate NeedsQuotes(text: string) {
    exists i :: 0 <= i < |text| && Special(text[i])
  }

  /** `text.replace(/"/g, '""')`. */
  function Doubled(text: string): string {
    if text == "" then ""
    else (if text[0] == '"' then "\"\"" else [text[0]]) + Doubled(text[1..])
  }

  function CsvCell(c: Cell): string {
    var text := TextOf(c);
    if NeedsQuotes(text) then "\"" + Doubled(text) + "\"" else text
  }

  /** `values.map(csvCell).join(',')`. */
  function JoinCells(cells: seq<Cell>): string {
    if cells == [] then ""
    else if |cells| == 1 then CsvCell(cells[0])
    else CsvCell(cells[0]) + "," + JoinCells(cells[1..])
  }

  function CsvRow(cells: seq<Cell>): string {
    JoinCells(cells) + "\r\n"
  }

  // ---- trim -------------------------------------------------------------------

  /** What String.prototype.trim removes: WhiteSpace and LineTerminator. */
  predicate Blank(ch: char) {
    || ch == ' ' || ch == '\t' || ch == '\n' || ch == '\r' || ch == '\U{000B}' || ch == '\U{000C}'
    || ch == '\U{00A0}' || ch == '\U{1680}' || '\U{2000}' <= ch <= '\U{200A}'
    || ch == '\U{2028}' || ch == '\U{2029}' || ch == '\U{202F}' || ch == '\U{205F}'
    || ch == '\U{3000}' || ch == '\U{FEFF}'
  }

  function TrimStart(s: string): string {
    if s != "" && Blank(s[0]) then TrimStart(s[1..]) else s
  }

  function TrimEnd(s: string): string {
    if s != "" && Blank(s[|s| - 1]) then TrimEnd(s[..|s| - 1]) else s
  }

  function Trim(s: string): string {
    TrimEnd(TrimStart(s))
  }

  ghost predicate AllBlank(s: string) {
    forall i :: 0 <= i < |s| ==> Blank(s[i])
  }

  lemma {:induction false} TrimStartCuts(s: string) returns (before: string)
    ensures s == before + TrimStart(s) && AllBlank(before)
    ensures TrimStart(s) != "" ==> !Blank(TrimStart(s)[0])
  {
    before := "";
    if s != "" && Blank(s[0]) {
      before := TrimStartCuts(s[1..]);
      before := [s[0]] + before;
    }
  }

  lemma {:induction false} TrimEndCuts(s: string) returns (after: string)
    ensures s == TrimEnd(s) + after && AllBlank(after)
    ensures TrimEnd(s) != "" ==> !Blank(TrimEnd(s)[|TrimEnd(s)| - 1])
  {
    after := "";
    if s != "" && Blank(s[|s| - 1]) {
      after := TrimEndCuts(s[..|s| - 1]);
      after := after + [s[|s| - 1]];
    }
  }

  /** Trimming takes blanks off both ends, all of them and nothing else. */
  lemma TrimExactly(s: string) returns (before: string, after: string)
    ensures s == before + Trim(s) + after && AllBlank(before) && AllBlank(after)
    ensures Trim(s) != "" ==> !Blank(Trim(s)[0]) && !Blank(Trim(s)[|Trim(s)| - 1])
  {
    before := TrimStartCuts(s);
    after := TrimEndCuts(TrimStart(s));
  }

  function TrimAll(cells: seq<string>): (r: seq<string>)
    ensures |r| == |cells| && forall i :: 0 <= i < |cells| ==> r[i] == Trim(cells[i])
  {
    seq(|cells|, i requires 0 <= i < |cells| => Trim(cells[i]))
  }

  function Texts(cells: seq<Cell>): (r: seq<string>)
    ensures |r| == |cells| && forall i :: 0 <= i < |cells| ==> r[i] == TextOf(cells[i])
  {
    seq(|cells|, i requires 0 <= i < |cells| => TextOf(cells[i]))
  }

  // ---- the hand-written splitter ---------------------------------------------------

  /** The splitter's run over what is left of the line. */
  function Scan(rest: string, cur: string, quoted: bool, out: seq<string>): seq<string>
    decreases |rest|
  {
    if rest == "" then out + [cur]
    else if quoted then
      if rest[0] == '"' && |rest| > 1 && rest[1] == '"' then Scan(rest[2..], cur + "\"", true, out)
      else if rest[0] == '"' then Scan(rest[1..], cur, false, out)
      else Scan(rest[1..], cur + [rest[0]], true, out)
    else if rest[0] == '"' then Scan(rest[1..], cur, true, out)
    else if rest[0] == ',' then Scan(rest[1..], "", false, out + [cur])
    else Scan(rest[1..], cur + [rest[0]], false, out)
  }

  /** `splitCsvLine`. */
  method SplitCsvLine(line: string) returns (cells: seq<string>)
    ensures cells == TrimAll(Scan(line, "", false, []))
  {
    var out: seq<string> := [];
    var cur, quoted, i := "", false, 0;
    while i < |line|
      invariant 0 <= i <= |line|
      invariant Scan(line, "", false, []) == Scan(line[i..], cur, quoted, out)
    {
      var ch := line[i];
      assert line[i..][0] == ch && line[i..][1..] == line[i + 1..];
      if quoted {
        if ch == '"' && i + 1 < |line| && line[i + 1] == '"' {
          assert line[i..][1] == '"' && line[i..][2..] == line[i + 2..];
          cur := cur + "\"";
          i := i + 1;
        } else if ch == '"' {
          quoted := false;
        } else {
          cur := cur + [ch];
        }
      } else if ch == '"' {
        quoted := true;
      } else if ch == ',' {
        out := out + [cur];
        cur := "";
      } else {
        cur := cur + [ch];
      }
      i := i + 1;
    }
    assert line[i..] == "";
    out := out + [cur];
    cells := TrimAll(out);
  }

  lemma {:induction false} DoubledGrows(text: string)
    ensures |Doubled(text)| >= |text|
  {
    if text != "" {
      DoubledGrows(text[1..]);
    }
  }

  /** A value is printed as it is exactly when it holds no quote, comma or line break. */
  lemma PrintedBareExactly(c: Cell)
    ensures CsvCell(c) == TextOf(c) <==>
              forall i :: 0 <= i < |TextOf(c)| ==> TextOf(c)[i] !in {'"', ',', '\n', '\r'}
  {
    DoubledGrows(TextOf(c));
  }

  // ---- any line, printed or not ------------------------------------------------------------

  /** A line cut at its commas, those with an odd number of quotes before them left out. */
  function EvenSplit(rest: string, cur: string, even: bool): seq<string> {
    if rest == "" then [cur]
    else if rest[0] == ',' && even then [cur] + EvenSplit(rest[1..], "", true)
    else EvenSplit(rest[1..], cur + [rest[0]], if rest[0] == '"' then !even else even)
  }

  function NoQuotes(s: string): string {
    if s == "" then "" else NoQuotes(s[..|s| - 1]) + if s[|s| - 1] == '"' then "" else [s[|s| - 1]]
  }

  lemma NoQuotesAdd(s: string, ch: char)
    ensures NoQuotes(s + [ch]) == NoQuotes(s) + if ch == '"' then "" else [ch]
  {
    assert (s + [ch])[..|s|] == s;
  }

  /** The same but for quotes. */
  ghost predicate SameCells(cells: seq<string>, segments: seq<string>) {
    |cells| == |segments| && forall k :: 0 <= k < |cells| ==> NoQuotes(cells[k]) == NoQuotes(segments[k])
  }

  lemma CellEnds(cur: string, raw: string, cells: seq<string>, segments: seq<string>)
    requires SameCells(cells, segments) && NoQuotes(cur) == NoQuotes(raw)
    ensures SameCells([cur] + cells, [raw] + segments)
  {
  }

  lemma Regroup(out: seq<string>, cur: string, rest: seq<string>)
    ensures (out + [cur]) + rest == out + ([cur] + rest)
  {
  }

  /** What has been pushed stays in front. */
  lemma {:induction false} ScanPushes(rest: string, cur: string, quoted: bool, out: seq<string>)
    ensures Scan(rest, cur, quoted, out) == out + Scan(rest, cur, quoted, [])
    decreases |rest|
  {
    if rest == "" {
      assert [] + [cur] == [cur];
    } else if quoted && rest[0] == '"' && |rest| > 1 && rest[1] == '"' {
      ScanPushes(rest[2..], cur + "\"", true, out);
    } else if rest[0] == '"' {
      ScanPushes(rest[1..], cur, !quoted, out);
    } else if rest[0] == ',' && !quoted {
      ScanPushes(rest[1..], "", false, out + [cur]);
      ScanPushes(rest[1..], "", false, [] + [cur]);
      Regroup(out, cur, Scan(rest[1..], "", false, []));
      Regroup([], cur, Scan(rest[1..], "", false, []));
    } else {
      ScanPushes(rest[1..], cur + [rest[0]], quoted, out);
    }
  }

  lemma CommaEnds(rest: string, cur: string)
    requires rest != "" && rest[0] == ','
    ensures Scan(rest, cur, false, []) == [cur] + Scan(rest[1..], "", false, [])
  {
    assert [] + [cur] == [cur];
    ScanPushes(rest[1..], "", false, [cur]);
  }

  predicate Pair(rest: string) {
    |rest| > 1 && rest[0] == '"' && rest[1] == '"'
  }

  lemma PairIsSkipped(rest: string, cur: string, raw: string)
    requires Pair(rest)
    ensures Scan(rest, cur, true, []) == Scan(rest[2..], cur + ['"'], true, [])
    ensures EvenSplit(rest, raw, false) == EvenSplit(rest[2..], raw + ['"'] + ['"'], false)
  {
    assert rest[1..][1..] == rest[2..] && rest[1..][0] == '"';
    assert EvenSplit(rest, raw, false) == EvenSplit(rest[1..], raw + ['"'], true);
  }

  lemma QuoteToggles(rest: string, cur: string, raw: string, quoted: bool)
    requires rest != "" && rest[0] == '"' && !(quoted && Pair(rest))
    ensures Scan(rest, cur, quoted, []) == Scan(rest[1..], cur, !quoted, [])
    ensures EvenSplit(rest, raw, !quoted) == EvenSplit(rest[1..], raw + ['"'], quoted)
  {
  }

  lemma OtherIsKept(rest: string, cur: string, raw: string, quoted: bool)
    requires rest != "" && rest[0] != '"' && (quoted || rest[0] != ',')
    ensures Scan(rest, cur, quoted, []) == Scan(rest[1..], cur + [rest[0]], quoted, [])
    ensures EvenSplit(rest, raw, !quoted) == EvenSplit(rest[1..], raw + [rest[0]], !quoted)
  {
  }

  lemma LineEnds(cur: string, raw: string, quoted: bool)
    requires NoQuotes(cur) == NoQuotes(raw)
    ensures SameCells(Scan("", cur, quoted, []), EvenSplit("", raw, !quoted))
  {
    assert [] + [cur] == [cur];
  }

  lemma {:induction false} ScanSplits(rest: string, cur: string, raw: string, quoted: bool)
    requires NoQuotes(cur) == NoQuotes(raw)
    ensures SameCells(Scan(rest, cur, quoted, []), EvenSplit(rest, raw, !quoted))
    decreases |rest|
  {
    if rest == "" {
      LineEnds(cur, raw, quoted);
    } else if quoted && Pair(rest) {
      NoQuotesAdd(cur, '"');
      NoQuotesAdd(raw, '"');
      NoQuotesAdd(raw + ['"'], '"');
      PairIsSkipped(rest, cur, raw);
      ScanSplits(rest[2..], cur + ['"'], raw + ['"'] + ['"'], true);
    } else if rest[0] == '"' {
      NoQuotesAdd(raw, '"');
      QuoteToggles(rest, cur, raw, quoted);
      ScanSplits(rest[1..], cur, raw + ['"'], !quoted);
    } else if rest[0] == ',' && !quoted {
      CommaEnds(rest, cur);
      ScanSplits(rest[1..], "", "", false);
      CellEnds(cur, raw, Scan(rest[1..], "", false, []), EvenSplit(rest[1..], "", true));
    } else {
      NoQuotesAdd(cur, rest[0]);
      NoQuotesAdd(raw, rest[0]);
      OtherIsKept(rest, cur, raw, quoted);
      ScanSplits(rest[1..], cur + [rest[0]], raw + [rest[0]], quoted);
    }
  }

  /** Whatever the line, quotes wherever they stand: it is cut exactly at the commas
      with an even number of quotes before them, and but for quotes and blanks at the
      ends every cell is what stands between two cuts. */
  lemma SplitsAtEvenCommas(line: string)
    ensures SameCells(Scan(line, "", false, []), EvenSplit(line, "", true))
  {
    ScanSplits(line, "", "", false);
  }

  // ---- printer and parser undo each other ---------------------------------------------

  lemma ScanOneQuoted(ch: char, tail: string, cur: string, out: seq<string>)
    ensures Scan((if ch == '"' then "\"\"" else [ch]) + tail, cur, true, out) == Scan(tail, cur + [ch], true, out)
  {
    if ch == '"' {
      var line := "\"\"" + tail;
      assert line[0] == '"' && line[1] == '"' && line[2..] == tail;
    } else {
      var line := [ch] + tail;
      assert line[0] == ch && line[1..] == tail;
    }
  }

  lemma DoubledFirst(text: string, rest: string)
    requires text != ""
    ensures Doubled(text) + rest == (if text[0] == '"' then "\"\"" else [text[0]]) + (Doubled(text[1..]) + rest)
  {
  }

  lemma FirstAndRest(cur: string, text: string)
    requires text != ""
    ensures (cur + [text[0]]) + text[1..] == cur + text
  {
  }

  /** Inside quotes, doubled text is read back as it was. */
  lemma {:induction false} ScanQuoted(text: string, rest: string, cur: string, out: seq<string>)
    ensures Scan(Doubled(text) + rest, cur, true, out) == Scan(rest, cur + text, true, out)
  {
    if text == "" {
      assert Doubled(text) + rest == rest && cur + text == cur;
    } else {
      DoubledFirst(text, rest);
      ScanOneQuoted(text[0], Doubled(text[1..]) + rest, cur, out);
      ScanQuoted(text[1..], rest, cur + [text[0]], out);
      FirstAndRest(cur, text);
    }
  }

  lemma {:induction false} ScanPlain(text: string, rest: string, cur: string, out: seq<string>)
    requires !NeedsQuotes(text)
    ensures Scan(text + rest, cur, false, out) == Scan(rest, cur + text, false, out)
  {
    if text == "" {
      assert text + rest == rest && cur + text == cur;
    } else {
      assert !Special(text[0]);
      assert !NeedsQuotes(text[1..]) by {
        forall i | 0 <= i < |text[1..]| ensures !Special(text[1..][i]) {
          assert text[1..][i] == text[i + 1];
        }
      }
      ScanPlain(text[1..], rest, cur + [text[0]], out);
      assert (text + rest)[1..] == text[1..] + rest;
      assert (cur + [text[0]]) + text[1..] == cur + text;
    }
  }

  lemma OpenQuote(body: string, out: seq<string>)
    ensures Scan("\"" + body, "", false, out) == Scan(body, "", true, out)
  {
    assert ("\"" + body)[1..] == body;
  }

  lemma CloseQuote(rest: string, cur: string, out: seq<string>)
    requires rest == "" || rest[0] == ','
    ensures Scan("\"" + rest, cur, true, out) == Scan(rest, cur, false, out)
  {
    assert ("\"" + rest)[1..] == rest;
  }

  lemma NextField(rest: string, cur: string, out: seq<string>)
    ensures Scan("," + rest, cur, false, out) == Scan(rest, "", false, out + [cur])
  {
    assert ("," + rest)[1..] == rest;
  }

  lemma ScanQuotedCell(text: string, rest: string, out: seq<string>)
    requires rest == "" || rest[0] == ','
    ensures Scan("\"" + (Doubled(text) + ("\"" + rest)), "", false, out) == Scan(rest, text, false, out)
  {
    OpenQuote(Doubled(text) + ("\"" + rest), out);
    ScanQuoted(text, "\"" + rest, "", out);
    assert "" + text == text;
    CloseQuote(rest, text, out);
  }

  /** A printed cell, at the start of a field, is read back as its text. */
  lemma ScanCell(c: Cell, rest: string, out: seq<string>)
    requires rest == "" || rest[0] == ','
    ensures Scan(CsvCell(c) + rest, "", false, out) == Scan(rest, TextOf(c), false, out)
  {
    var text := TextOf(c);
    if NeedsQuotes(text) {
      assert CsvCell(c) + rest == "\"" + (Doubled(text) + ("\"" + rest));
      ScanQuotedCell(text, rest, out);
    } else {
      ScanPlain(text, rest, "", out);
      assert "" + text == text;
    }
  }

  lemma ScanLastCell(c: Cell, out: seq<string>)
    ensures Scan(CsvCell(c), "", false, out) == out + [TextOf(c)]
  {
    ScanCell(c, "", out);
    assert CsvCell(c) + "" == CsvCell(c);
  }

  lemma ScanFirstCell(c: Cell, rest: string, out: seq<string>)
    ensures Scan(CsvCell(c) + ("," + rest), "", false, out) == Scan(rest, "", false, out + [TextOf(c)])
  {
    ScanCell(c, "," + rest, out);
    NextField(rest, TextOf(c), out);
  }

  lemma OneText(cells: seq<Cell>)
    requires |cells| == 1
    ensures JoinCells(cells) == CsvCell(cells[0]) && Texts(cells) == [TextOf(cells[0])]
  {
  }

  lemma {:induction false} ScanJoined(cells: seq<Cell>, out: seq<string>)
    requires cells != []
    ensures Scan(JoinCells(cells), "", false, out) == out + Texts(cells)
  {
    if |cells| == 1 {
      OneText(cells);
      ScanLastCell(cells[0], out);
    } else {
      JoinSplit(cells);
      ScanFirstCell(cells[0], JoinCells(cells[1..]), out);
      ScanJoined(cells[1..], out + [TextOf(cells[0])]);
      TextsSplit(cells, out);
    }
  }

  lemma TextsSplit(cells: seq<Cell>, out: seq<string>)
    requires cells != []
    ensures (out + [TextOf(cells[0])]) + Texts(cells[1..]) == out + Texts(cells)
  {
  }

  /** Section 2 of RFC 4180, rules 5 to 7: splitting a printed row returns its cells,
      trimmed, whatever quotes, commas or line breaks they hold; an empty row
      comes back as one empty cell. */
  lemma RoundTrip(cells: seq<Cell>)
    ensures TrimAll(Scan(JoinCells(cells), "", false, [])) == if cells == [] then [""] else TrimAll(Texts(cells))
  {
    if cells == [] {
      assert TrimAll([""])[0] == "";
    } else {
      ScanJoined(cells, []);
      assert [] + Texts(cells) == Texts(cells);
    }
  }

  /** Nothing but trimming is lost, and only by cells that had something to trim. */
  lemma LosslessExactly(cells: seq<Cell>)
    requires cells != []
    ensures TrimAll(Scan(JoinCells(cells), "", false, [])) == Texts(cells)
            <==> forall c :: c in cells ==> Trim(TextOf(c)) == TextOf(c)
  {
    RoundTrip(cells);
    var read, texts := TrimAll(Texts(cells)), Texts(cells);
    if read == texts {
      forall c | c in cells ensures Trim(TextOf(c)) == TextOf(c) {
        var i :| 0 <= i < |cells| && cells[i] == c;
        assert read[i] == texts[i];
      }
    }
  }

  lemma {:induction false} TrimEndIsIdempotent(s: string)
    ensures TrimEnd(TrimEnd(s)) == TrimEnd(s)
    ensures TrimEnd(s) <= s
    ensures TrimEnd(s) != "" ==> !Blank(TrimEnd(s)[|TrimEnd(s)| - 1])
  {
    if s != "" && Blank(s[|s| - 1]) {
      TrimEndIsIdempotent(s[..|s| - 1]);
    }
  }

  lemma {:induction false} TrimStartStops(s: string)
    ensures TrimStart(s) != "" ==> !Blank(TrimStart(s)[0])
  {
    if s != "" && Blank(s[0]) {
      TrimStartStops(s[1..]);
    }
  }

  /** A trimmed text is not changed by a second round trip. */
  lemma TrimIsIdempotent(s: string)
    ensures Trim(Trim(s)) == Trim(s)
  {
    TrimStartStops(s);
    TrimEndIsIdempotent(TrimStart(s));
    var t := Trim(s);
    if t != "" {
      assert t[0] == TrimStart(s)[0];
      assert TrimStart(t) == t;
    }
  }

  // ---- a whole file --------------------------------------------------------------------

  predicate HasLineFeed(text: string) {
    exists i :: 0 <= i < |text| && text[i] == '\n'
  }

  /** `text.split(/\r?\n/)`. */
  function Lines(text: string, cur: string): seq<string>
    decreases |text|
  {
    if text == "" then [cur]
    else if text[0] == '\n' then [cur] + Lines(text[1..], "")
    else if text[0] == '\r' && |text| > 1 && text[1] == '\n' then [cur] + Lines(text[2..], "")
    else Lines(text[1..], cur + [text[0]])
  }

  /** Lines the preview keeps: `.filter((l) => l.trim() !== '')`. */
  function Kept(lines: seq<string>): seq<string> {
    if lines == [] then []
    else (if Trim(lines[0]) != "" then [lines[0]] else []) + Kept(lines[1..])
  }

  /** The lines `parsePreview` goes on to split into cells. */
  function PreviewLines(text: string): seq<string> {
    Kept(Lines(text, ""))
  }

  function PrintRows(rows: seq<seq<Cell>>): string {
    if rows == [] then "" else CsvRow(rows[0]) + PrintRows(rows[1..])
  }

  predicate RowHasLineFeed(row: seq<Cell>) {
    exists i :: 0 <= i < |row| && HasLineFeed(TextOf(row[i]))
  }

  lemma {:induction false} LinesOfRow(row: string, rest: string, cur: string)
    ensures Lines(row + "\r\n" + rest, cur) == Lines(row, cur) + Lines(rest, "")
    decreases |row|
  {
    var text := row + "\r\n" + rest;
    if row == "" {
      assert text[0] == '\r' && text[1] == '\n' && text[2..] == rest;
    } else if row[0] == '\n' {
      assert text[1..] == row[1..] + "\r\n" + rest;
      LinesOfRow(row[1..], rest, "");
    } else if row[0] == '\r' && |row| > 1 && row[1] == '\n' {
      assert text[2..] == row[2..] + "\r\n" + rest;
      LinesOfRow(row[2..], rest, "");
    } else {
      assert text[1..] == row[1..] + "\r\n" + rest;
      assert |text| > 1 && (row[0] == '\r' ==> text[1] != '\n');
      LinesOfRow(row[1..], rest, cur + [row[0]]);
    }
  }

  lemma {:induction false} KeptAppend(a: seq<string>, b: seq<string>)
    ensures Kept(a + b) == Kept(a) + Kept(b)
  {
    if a == [] {
      assert a + b == b;
    } else {
      assert (a + b)[1..] == a[1..] + b;
      KeptAppend(a[1..], b);
    }
  }

  lemma {:induction false} OneLine(text: string, cur: string)
    requires !HasLineFeed(text)
    ensures Lines(text, cur) == [cur + text]
  {
    if text == "" {
      assert cur + text == cur;
    } else {
      assert text[0] != '\n' && (|text| > 1 ==> text[1] != '\n');
      assert !HasLineFeed(text[1..]) by {
        forall i | 0 <= i < |text[1..]| ensures text[1..][i] != '\n' {
          assert text[1..][i] == text[i + 1];
        }
      }
      OneLine(text[1..], cur + [text[0]]);
      assert (cur + [text[0]]) + text[1..] == cur + text;
    }
  }

  /** A text that is not all blank. */
  predicate Visible(text: string) {
    exists i :: 0 <= i < |text| && !Blank(text[i])
  }

  lemma {:induction false} TrimVisible(s: string)
    ensures Visible(s) ==> Trim(s) != ""
  {
    if Visible(s) {
      StartVisible(s);
      EndVisible(TrimStart(s));
    }
  }

  lemma {:induction false} StartVisible(s: string)
    requires Visible(s)
    ensures Visible(TrimStart(s))
  {
    if Blank(s[0]) {
      var i :| 0 <= i < |s| && !Blank(s[i]);
      assert s[1..][i - 1] == s[i];
      StartVisible(s[1..]);
    }
  }

  lemma {:induction false} EndVisible(s: string)
    requires Visible(s)
    ensures TrimEnd(s) != ""
  {
    if Blank(s[|s| - 1]) {
      var i :| 0 <= i < |s| && !Blank(s[i]);
      assert s[..|s| - 1][i] == s[i];
      EndVisible(s[..|s| - 1]);
    }
  }

  /** A visible character before a line feed and one after it: at least two lines
      survive the filter. */
  lemma {:induction false} TwoKept(text: string, cur: string, lf: nat)
    requires lf < |text| && text[lf] == '\n'
    requires Visible(cur) || (exists a :: 0 <= a < lf && !Blank(text[a]))
    requires exists b :: lf < b < |text| && !Blank(text[b])
    ensures |Kept(Lines(text, cur))| >= 2
    decreases |text|
  {
    var b :| lf < b < |text| && !Blank(text[b]);
    if text[0] == '\n' {
      var tail := text[1..];
      assert tail[b - 1] == text[b];
      if Visible(cur) {
        TrimVisible(cur);
        SomeKept(tail, "", b - 1);
      } else {
        var a :| 0 <= a < lf && !Blank(text[a]);
        assert tail[a - 1] == text[a] && tail[lf - 1] == text[lf];
        TwoKept(tail, "", lf - 1);
      }
    } else if text[0] == '\r' && |text| > 1 && text[1] == '\n' {
      var tail := text[2..];
      assert tail[b - 2] == text[b];
      if Visible(cur) {
        TrimVisible(cur);
        SomeKept(tail, "", b - 2);
      } else {
        var a :| 0 <= a < lf && !Blank(text[a]);
        assert tail[a - 2] == text[a] && tail[lf - 2] == text[lf];
        TwoKept(tail, "", lf - 2);
      }
    } else {
      var tail, cur' := text[1..], cur + [text[0]];
      assert tail[b - 1] == text[b] && tail[lf - 1] == text[lf];
      if Visible(cur) {
        var i :| 0 <= i < |cur| && !Blank(cur[i]);
        assert cur'[i] == cur[i];
      } else {
        var a :| 0 <= a < lf && !Blank(text[a]);
        if a == 0 {
          assert cur'[|cur|] == text[0];
        } else {
          assert tail[a - 1] == text[a];
        }
      }
      TwoKept(tail, cur', lf - 1);
    }
  }

  lemma {:induction false} SomeKept(text: string, cur: string, b: nat)
    requires Visible(cur) || (b < |text| && !Blank(text[b]))
    ensures |Kept(Lines(text, cur))| >= 1
    decreases |text|
  {
    if text == "" {
      TrimVisible(cur);
      assert Kept([cur]) == [cur] + Kept([]);
    } else if text[0] == '\n' {
      if Visible(cur) {
        TrimVisible(cur);
      } else {
        assert text[1..][b - 1] == text[b];
        SomeKept(text[1..], "", b - 1);
      }
    } else if text[0] == '\r' && |text| > 1 && text[1] == '\n' {
      if Visible(cur) {
        TrimVisible(cur);
      } else {
        assert text[2..][b - 2] == text[b];
        SomeKept(text[2..], "", b - 2);
      }
    } else {
      var cur' := cur + [text[0]];
      if Visible(cur) {
        var i :| 0 <= i < |cur| && !Blank(cur[i]);
        assert cur'[i] == cur[i];
        SomeKept(text[1..], cur', b);
      } else if b == 0 {
        assert cur'[|cur|] == text[0];
        SomeKept(text[1..], cur', b);
      } else {
        assert text[1..][b - 1] == text[b];
        SomeKept(text[1..], cur', b - 1);
      }
    }
  }

  // what the printed row holds

  lemma {:induction false} DoubledFeed(text: string) returns (k: nat)
    requires HasLineFeed(text)
    ensures k < |Doubled(text)| && Doubled(text)[k] == '\n'
  {
    if text[0] == '\n' {
      k := 0;
    } else {
      var i :| 0 <= i < |text| && text[i] == '\n';
      assert text[1..][i - 1] == text[i];
      var j := DoubledFeed(text[1..]);
      k := if text[0] == '"' then j + 2 else j + 1;
    }
  }

  /** Positions `a < lf < b` of a quote, a line feed and a quote. */
  predicate FeedBetween(out: string, a: nat, lf: nat, b: nat) {
    a < lf < b < |out| && out[lf] == '\n' && out[a] == '"' && out[b] == '"'
  }

  lemma CellFeed(c: Cell)
    requires HasLineFeed(TextOf(c))
    ensures HoldsFeed(CsvCell(c))
  {
    var text := TextOf(c);
    var i :| 0 <= i < |text| && text[i] == '\n';
    assert Special(text[i]);
    var k := DoubledFeed(text);
    assert FeedBetween(CsvCell(c), 0, k + 1, |CsvCell(c)| - 1);
  }

  ghost predicate HoldsFeed(out: string) {
    exists a: nat, lf: nat, b: nat :: FeedBetween(out, a, lf, b)
  }

  lemma FeedShifts(before: string, tail: string)
    requires HoldsFeed(tail)
    ensures HoldsFeed(before + tail)
  {
    var a: nat, lf: nat, b: nat :| FeedBetween(tail, a, lf, b);
    assert FeedBetween(before + tail, |before| + a, |before| + lf, |before| + b);
  }

  lemma FeedStays(out: string, after: string)
    requires HoldsFeed(out)
    ensures HoldsFeed(out + after)
  {
    var a: nat, lf: nat, b: nat :| FeedBetween(out, a, lf, b);
    assert FeedBetween(out + after, a, lf, b);
  }

  lemma JoinSplit(cells: seq<Cell>)
    requires |cells| > 1
    ensures JoinCells(cells) == (CsvCell(cells[0]) + ",") + JoinCells(cells[1..])
    ensures JoinCells(cells) == CsvCell(cells[0]) + ("," + JoinCells(cells[1..]))
  {
  }

  lemma HeadFeed(cells: seq<Cell>)
    requires cells != [] && HasLineFeed(TextOf(cells[0]))
    ensures HoldsFeed(JoinCells(cells))
  {
    CellFeed(cells[0]);
    if |cells| > 1 {
      JoinSplit(cells);
      FeedStays(CsvCell(cells[0]), "," + JoinCells(cells[1..]));
    }
  }

  /** A line feed in a cell is printed between two quotes. */
  lemma {:induction false} RowFeed(cells: seq<Cell>)
    requires RowHasLineFeed(cells)
    ensures HoldsFeed(JoinCells(cells))
  {
    if HasLineFeed(TextOf(cells[0])) {
      HeadFeed(cells);
    } else {
      FeedInTail(cells);
      RowFeed(cells[1..]);
      JoinSplit(cells);
      FeedShifts(CsvCell(cells[0]) + ",", JoinCells(cells[1..]));
    }
  }

  lemma FeedInTail(cells: seq<Cell>)
    requires RowHasLineFeed(cells) && !HasLineFeed(TextOf(cells[0]))
    ensures |cells| > 1 && RowHasLineFeed(cells[1..])
  {
    var i :| 0 <= i < |cells| && HasLineFeed(TextOf(cells[i]));
    assert cells[1..][i - 1] == cells[i];
  }

  lemma {:induction false} DoubledPlain(text: string)
    requires !HasLineFeed(text)
    ensures !HasLineFeed(Doubled(text))
  {
    if text != "" {
      assert text[0] != '\n';
      assert !HasLineFeed(text[1..]) by {
        forall i | 0 <= i < |text[1..]| ensures text[1..][i] != '\n' {
          assert text[1..][i] == text[i + 1];
        }
      }
      DoubledPlain(text[1..]);
    }
  }

  lemma {:induction false} RowPlain(cells: seq<Cell>)
    requires !RowHasLineFeed(cells)
    ensures !HasLineFeed(JoinCells(cells))
  {
    if cells != [] {
      assert !HasLineFeed(TextOf(cells[0]));
      DoubledPlain(TextOf(cells[0]));
      assert !HasLineFeed(CsvCell(cells[0]));
      if |cells| > 1 {
        assert !RowHasLineFeed(cells[1..]) by {
          forall i | 0 <= i < |cells[1..]| ensures !HasLineFeed(TextOf(cells[1..][i])) {
            assert cells[1..][i] == cells[i + 1];
          }
        }
        RowPlain(cells[1..]);
      }
    }
  }

  /** How many preview lines one printed row turns into. */
  lemma KeptOne(text: string)
    requires Visible(text)
    ensures Kept([text]) == [text]
  {
    TrimVisible(text);
    assert Kept([text]) == [text] + Kept([]);
  }

  lemma PlainTextKept(text: string)
    requires Visible(text) && !HasLineFeed(text)
    ensures Kept(Lines(text, "")) == [text]
  {
    OneLine(text, "");
    assert "" + text == text;
    KeptOne(text);
  }

  lemma CommaVisible(before: string, after: string)
    ensures Visible(before + "," + after)
  {
    assert (before + "," + after)[|before|] == ',';
  }

  lemma PlainRowKept(row: seq<Cell>)
    requires |row| >= 2 && !RowHasLineFeed(row)
    ensures Kept(Lines(JoinCells(row), "")) == [JoinCells(row)]
  {
    RowPlain(row);
    CommaVisible(CsvCell(row[0]), JoinCells(row[1..]));
    PlainTextKept(JoinCells(row));
  }

  lemma FeedRowKept(row: seq<Cell>)
    requires RowHasLineFeed(row)
    ensures |Kept(Lines(JoinCells(row), ""))| >= 2
  {
    var text := JoinCells(row);
    RowFeed(row);
    var a: nat, lf: nat, b: nat :| FeedBetween(text, a, lf, b);
    TwoKept(text, "", lf);
  }

  lemma LinesKept(row: seq<Cell>)
    requires |row| >= 2
    ensures !RowHasLineFeed(row) ==> Kept(Lines(JoinCells(row), "")) == [JoinCells(row)]
    ensures RowHasLineFeed(row) ==> |Kept(Lines(JoinCells(row), ""))| >= 2
  {
    if RowHasLineFeed(row) {
      FeedRowKept(row);
    } else {
      PlainRowKept(row);
    }
  }

  function Joined(rows: seq<seq<Cell>>): seq<string> {
    if rows == [] then [] else [JoinCells(rows[0])] + Joined(rows[1..])
  }

  lemma {:induction false} PreviewLinesOf(rows: seq<seq<Cell>>)
    requires forall row :: row in rows ==> |row| >= 2
    ensures |PreviewLines(PrintRows(rows))| >= |rows|
    ensures (forall row :: row in rows ==> !RowHasLineFeed(row)) ==> PreviewLines(PrintRows(rows)) == Joined(rows)
    ensures (exists row :: row in rows && RowHasLineFeed(row)) ==> |PreviewLines(PrintRows(rows))| > |rows|
  {
    if rows == [] {
      assert Kept([""]) == [];
    } else {
      var text, rest := JoinCells(rows[0]), PrintRows(rows[1..]);
      PreviewLinesOf(rows[1..]);
      assert PrintRows(rows) == text + "\r\n" + rest;
      LinesOfRow(text, rest, "");
      KeptAppend(Lines(text, ""), Lines(rest, ""));
      LinesKept(rows[0]);
      if exists row :: row in rows && RowHasLineFeed(row) {
        var row :| row in rows && RowHasLineFeed(row);
        assert row == rows[0] || row in rows[1..];
      }
    }
  }

  /** The cells the upload page shows for a file (before it keeps only a head). */
  function Preview(text: string): seq<seq<string>> {
    var lines := PreviewLines(text);
    seq(|lines|, i requires 0 <= i < |lines| => TrimAll(Scan(lines[i], "", false, [])))
  }

  function TrimmedRows(rows: seq<seq<Cell>>): seq<seq<string>> {
    seq(|rows|, i requires 0 <= i < |rows| => TrimAll(Texts(rows[i])))
  }

  lemma {:induction false} JoinedAt(rows: seq<seq<Cell>>)
    ensures |Joined(rows)| == |rows| && forall i :: 0 <= i < |rows| ==> Joined(rows)[i] == JoinCells(rows[i])
  {
    if rows != [] {
      JoinedAt(rows[1..]);
    }
  }

  /** The preview reads an exported file back, trimmed, exactly when no cell holds
      a line feed: it splits lines before it looks at quotes. Exported rows have
      four cells, so none of them is blank. */
  lemma FileRoundTripExactly(rows: seq<seq<Cell>>)
    requires forall row :: row in rows ==> |row| >= 2
    ensures Preview(PrintRows(rows)) == TrimmedRows(rows) <==> forall row :: row in rows ==> !RowHasLineFeed(row)
  {
    PreviewLinesOf(rows);
    if forall row :: row in rows ==> !RowHasLineFeed(row) {
      JoinedAt(rows);
      forall i | 0 <= i < |rows| ensures Preview(PrintRows(rows))[i] == TrimmedRows(rows)[i] {
        RoundTrip(rows[i]);
      }
    } else {
      assert |Preview(PrintRows(rows))| > |TrimmedRows(rows)|;
    }
  }
}
