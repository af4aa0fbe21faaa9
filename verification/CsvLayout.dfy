/**
 What the strict reader accepts, told as a layout of lines and cells: every cell plain or quoted, every line ended in
 one of three ways, the last one perhaps not at all.
 */
module CsvLayout {
  import opened Text
  import opened Csv

  datatype Cell = Cell(quoted: bool, text: string)

  datatype Line = Line(cells: seq<Cell>, end: string)

  function CellText(c: Cell): string {
    if c.quoted then "\"" + Doubled(c.text) + "\"" else c.text
  }

  /** The cells with the separator behind each. */
  function Lead(cells: seq<Cell>, separator: char): string {
    if cells == [] then ""
    else Lead(cells[..|cells| - 1], separator) + CellText(cells[|cells| - 1]) + [separator]
  }

  function LineText(cells: seq<Cell>, separator: char): string {
    if cells == [] then "" else Lead(cells[..|cells| - 1], separator) + CellText(cells[|cells| - 1])
  }

  function FileText(lines: seq<Line>, separator: char): string {
    if lines == [] then ""
    else
      var last := lines[|lines| - 1];
      FileText(lines[..|lines| - 1], separator) + LineText(last.cells, separator) + last.end
  }

  function Texts(cells: seq<Cell>): seq<string> {
    seq(|cells|, i requires 0 <= i < |cells| => cells[i].text)
  }

  function RowsOf(lines: seq<Line>): seq<seq<string>> {
    seq(|lines|, i requires 0 <= i < |lines| => Texts(lines[i].cells))
  }

  /** A cell without quotes around it does not start with one and holds neither separator nor line break. */
  predicate ValidCell(c: Cell, separator: char) {
    |c.text| <= FIELD_LIMIT
    && (!c.quoted ==> Continues(c.text, separator) && (c.text != "" ==> c.text[0] != '"'))
  }

  predicate ValidCells(cells: seq<Cell>, separator: char) {
    forall i | 0 <= i < |cells| :: ValidCell(cells[i], separator)
  }

  /** An empty cell alone on its line needs its quotes, or the line would be one without cells. */
  predicate ValidRow(cells: seq<Cell>, separator: char) {
    ValidCells(cells, separator) && cells != [Cell(false, "")]
  }

  predicate ValidLine(l: Line, separator: char) {
    ValidRow(l.cells, separator) && l.end in ["\n", "\r", "\r\n"]
  }

  /** A line end of one character is not taken for the second half of the one before. */
  predicate Apart(before: Line, l: Line) {
    before.end == "\r" && l.cells == [] ==> l.end != "\n"
  }

  predicate ValidLines(lines: seq<Line>, separator: char) {
    && (forall i | 0 <= i < |lines| :: ValidLine(lines[i], separator))
    && forall i | 0 < i < |lines| :: Apart(lines[i - 1], lines[i])
  }

  /** The last line may go without its end if it has cells. */
  predicate ValidFile(lines: seq<Line>, separator: char) {
    ValidLines(lines, separator)
    || (lines != []
        && var last := lines[|lines| - 1];
           ValidLines(lines[..|lines| - 1], separator) && last.end == "" && last.cells != []
           && ValidRow(last.cells, separator))
  }

  predicate Separates(c: char) {
    c != '"' && c != '\r' && c != '\n'
  }

  // ---- small steps ----

  lemma LeadNext(cells: seq<Cell>, c: Cell, separator: char)
    ensures Lead(cells + [c], separator) == Lead(cells, separator) + CellText(c) + [separator]
    ensures LineText(cells + [c], separator) == Lead(cells, separator) + CellText(c)
  {
    assert (cells + [c])[..|cells|] == cells;
  }

  lemma FileNext(lines: seq<Line>, l: Line, separator: char)
    ensures FileText(lines + [l], separator) == FileText(lines, separator) + LineText(l.cells, separator) + l.end
    ensures RowsOf(lines + [l]) == RowsOf(lines) + [Texts(l.cells)]
  {
    assert (lines + [l])[..|lines|] == lines;
    hide LineText;
  }

  lemma TextsNext(cells: seq<Cell>, c: Cell)
    ensures Texts(cells + [c]) == Texts(cells) + [c.text]
  {}

  lemma CellsNext(cells: seq<Cell>, c: Cell, separator: char)
    requires ValidCells(cells, separator) && ValidCell(c, separator)
    ensures ValidCells(cells + [c], separator)
  {
    hide ValidCell;
  }

  lemma LinesNext(lines: seq<Line>, l: Line, separator: char)
    requires ValidLines(lines, separator) && ValidLine(l, separator)
    requires lines != [] ==> Apart(lines[|lines| - 1], l)
    ensures ValidLines(lines + [l], separator)
  {
    hide ValidLine, Apart;
    var all := lines + [l];
    forall i | 0 < i < |all| ensures Apart(all[i - 1], all[i]) {
      if i < |lines| { assert all[i - 1] == lines[i - 1] && all[i] == lines[i]; }
    }
  }

  // ---- what the reader has seen ----

  /** The text read so far of the cell being read. */
  function Begun(mode: Mode, field: string): string {
    match mode
    case InField => field
    case InQuoted => "\"" + Doubled(field)
    case QuoteInQuoted => "\"" + Doubled(field) + "\""
    case _ => ""
  }

  predicate SeenLines(rows: seq<seq<string>>, separator: char, lines: seq<Line>) {
    ValidLines(lines, separator) && RowsOf(lines) == rows
  }

  predicate SeenCells(row: seq<string>, separator: char, cells: seq<Cell>) {
    ValidCells(cells, separator) && Texts(cells) == row
  }

  predicate EndsInCr(lines: seq<Line>) {
    lines != [] && lines[|lines| - 1].end == "\r"
  }

  /** What the mode says of the field and of what is before it. */
  predicate SeenField(mode: Mode, field: string, separator: char, lines: seq<Line>, cells: seq<Cell>) {
    |field| <= FIELD_LIMIT
    && match mode
       case StartRecord => cells == [] && field == "" && !EndsInCr(lines)
       case AfterCr => cells == [] && field == "" && EndsInCr(lines)
       case StartField => cells != [] && field == ""
       case InField => field != "" && field[0] != '"' && Continues(field, separator)
       case InQuoted => true
       case QuoteInQuoted => true
  }

  /** The reader stands behind these lines and cells, in the middle of a cell that looks like its field. */
  predicate Seen(r: Reader, separator: char, lines: seq<Line>, cells: seq<Cell>)
    requires r.Reader?
  {
    && SeenLines(r.rows, separator, lines) && SeenCells(r.row, separator, cells)
    && SeenField(r.mode, r.field, separator, lines, cells)
  }

  function SeenText(r: Reader, separator: char, lines: seq<Line>, cells: seq<Cell>): string
    requires r.Reader?
  {
    FileText(lines, separator) + Lead(cells, separator) + Begun(r.mode, r.field)
  }

  lemma {:induction false} DoubledNext(s: string, c: char)
    ensures Doubled(s + [c]) == Doubled(s) + if c == '"' then "\"\"" else [c]
    decreases |s|
  {
    if s == "" {
      assert [c][1..] == "";
    } else {
      assert (s + [c])[1..] == s[1..] + [c];
      DoubledNext(s[1..], c);
    }
  }

  // ---- one character more ----

  /** The cell that ends where the reader stands. */
  function Ending(r: Reader): Cell
    requires r.Reader?
  {
    Cell(r.mode.QuoteInQuoted?, r.field)
  }

  predicate MayEnd(mode: Mode) {
    mode != InQuoted
  }

  lemma EndingValid(r: Reader, separator: char, lines: seq<Line>, cells: seq<Cell>)
    requires r.Reader? && SeenField(r.mode, r.field, separator, lines, cells) && MayEnd(r.mode)
    ensures ValidCell(Ending(r), separator) && CellText(Ending(r)) == Begun(r.mode, r.field)
    ensures r.mode != StartRecord && r.mode != AfterCr ==> cells + [Ending(r)] != [Cell(false, "")]
  {
    hide Doubled, EndsInCr;
    if cells == [] && r.mode != StartRecord && r.mode != AfterCr {
      assert (cells + [Ending(r)])[0] == Ending(r) && Ending(r) != Cell(false, "");
    } else if cells != [] {
      assert |cells + [Ending(r)]| >= 2;
    }
  }

  lemma MoreCells(row: seq<string>, separator: char, cells: seq<Cell>, c: Cell)
    requires SeenCells(row, separator, cells) && ValidCell(c, separator)
    ensures SeenCells(row + [c.text], separator, cells + [c])
  {
    CellsNext(cells, c, separator);
    TextsNext(cells, c);
    hide ValidCells, Texts;
  }

  lemma MoreLines(rows: seq<seq<string>>, separator: char, lines: seq<Line>, l: Line)
    requires SeenLines(rows, separator, lines) && ValidLine(l, separator)
    requires lines != [] ==> Apart(lines[|lines| - 1], l)
    ensures SeenLines(rows + [Texts(l.cells)], separator, lines + [l])
    ensures EndsInCr(lines + [l]) <==> l.end == "\r"
  {
    LinesNext(lines, l, separator);
    FileNext(lines, l, separator);
    hide ValidLines, RowsOf, ValidLine, Apart, FileText;
  }

  lemma NothingBegun()
    ensures Begun(StartField, "") == "" && Begun(StartRecord, "") == "" && Begun(AfterCr, "") == ""
  {}

  lemma NothingLeads(separator: char)
    ensures Lead([], separator) == "" && LineText([], separator) == "" && Texts([]) == []
    ensures ValidCells([], separator) && SeenCells([], separator, [])
  {}

  lemma Joined(a: string, b: string, c: string, d: string)
    ensures a + (b + c + d) + "" == a + b + c + d
    ensures a + (b + c) + d + "" + "" == a + b + c + d
  {}

  /** The separator ends the cell. */
  lemma SeparatorSeen(r: Reader, separator: char, lines: seq<Line>, cells: seq<Cell>)
    requires r.Reader? && Seen(r, separator, lines, cells) && MayEnd(r.mode)
    ensures Seen(EndField(r), separator, lines, cells + [Ending(r)])
    ensures SeenText(EndField(r), separator, lines, cells + [Ending(r)])
            == SeenText(r, separator, lines, cells) + [separator]
  {
    EndingValid(r, separator, lines, cells);
    hide ValidCell, SeenLines, SeenCells, EndsInCr, Lead, LineText, FileText, Begun, CellText, Continues;
    MoreCells(r.row, separator, cells, Ending(r));
    LeadNext(cells, Ending(r), separator);
    NothingBegun();
    Joined(FileText(lines, separator), Lead(cells, separator), CellText(Ending(r)), [separator]);
  }

  lemma EndValid(c: char)
    requires c == '\n' || c == '\r'
    ensures [c] in ["\n", "\r", "\r\n"] && ([c] == "\r" <==> c == '\r') && ([c] == "\n" <==> c == '\n')
  {
    if c == '\n' { assert [c] == "\n"; } else { assert [c] == "\r"; }
    assert [c][0] == c;
  }

  lemma LineEnds(cells: seq<Cell>, separator: char, c: char)
    requires ValidCells(cells, separator) && cells != [Cell(false, "")] && (c == '\n' || c == '\r')
    ensures ValidLine(Line(cells, [c]), separator)
  {
    EndValid(c);
    hide ValidCells;
  }

  lemma CellsValid(row: seq<string>, separator: char, cells: seq<Cell>)
    requires SeenCells(row, separator, cells)
    ensures ValidCells(cells, separator) && Texts(cells) == row
  {}

  lemma WithCells(before: seq<Line>, l: Line)
    requires l.cells != []
    ensures before != [] ==> Apart(before[|before| - 1], l)
  {}

  /** A line break behind a cell ends the line. */
  lemma BreakSeen(r: Reader, separator: char, lines: seq<Line>, cells: seq<Cell>, c: char)
    requires r.Reader? && Seen(r, separator, lines, cells) && (c == '\n' || c == '\r')
    requires r.mode in {StartField, InField, QuoteInQuoted}
    ensures var after, more := EndRecord(EndField(r), LineEnd(c)), lines + [Line(cells + [Ending(r)], [c])];
            Seen(after, separator, more, [])
            && SeenText(after, separator, more, []) == SeenText(r, separator, lines, cells) + [c]
  {
    var all := cells + [Ending(r)];
    var l := Line(all, [c]);
    EndingValid(r, separator, lines, cells);
    hide ValidCell, ValidLine, Apart, SeenLines, SeenCells, EndsInCr, Lead, LineText, FileText, Begun, CellText,
         Continues, Texts;
    MoreCells(r.row, separator, cells, Ending(r));
    CellsValid(r.row + [r.field], separator, all);
    LineEnds(all, separator, c);
    WithCells(lines, l);
    MoreLines(r.rows, separator, lines, l);
    LeadNext(cells, Ending(r), separator);
    FileNext(lines, l, separator);
    NothingLeads(separator);
    NothingBegun();
    EndValid(c);
    Joined(FileText(lines, separator), Lead(cells, separator), CellText(Ending(r)), [c]);
  }

  lemma NotSecondHalf(lines: seq<Line>, c: char)
    requires EndsInCr(lines) ==> c == '\r'
    ensures lines != [] ==> Apart(lines[|lines| - 1], Line([], [c]))
  {
    assert [c][0] == c;
  }

  /** A line break at the start of a line makes a line without cells. */
  lemma EmptyLineSeen(r: Reader, separator: char, lines: seq<Line>, cells: seq<Cell>, c: char)
    requires r.Reader? && Seen(r, separator, lines, cells) && (c == '\n' || c == '\r')
    requires r.mode == StartRecord || (r.mode == AfterCr && c == '\r')
    ensures var after, more := EndRecord(r, LineEnd(c)), lines + [Line([], [c])];
            Seen(after, separator, more, [])
            && SeenText(after, separator, more, []) == SeenText(r, separator, lines, cells) + [c]
  {
    var l := Line([], [c]);
    NotSecondHalf(lines, c);
    hide ValidLine, Apart, SeenLines, EndsInCr, Lead, LineText, FileText, Begun, Continues, Texts;
    NothingLeads(separator);
    assert r.row == [] by { CellsValid(r.row, separator, cells); }
    hide SeenCells, ValidCells;
    LineEnds([], separator, c);
    MoreLines(r.rows, separator, lines, l);
    FileNext(lines, l, separator);
    NothingBegun();
    EndValid(c);
    Joined(FileText(lines, separator), "", "", [c]);
    assert FileText(lines, separator) + "" + [c] == FileText(lines, separator) + [c];
  }

  lemma LinesBefore(before: seq<Line>, last: Line, separator: char)
    requires ValidLines(before + [last], separator)
    ensures ValidLines(before, separator) && ValidLine(last, separator)
    ensures before != [] ==> Apart(before[|before| - 1], last)
  {
    hide ValidLine, Apart;
    var all := before + [last];
    assert all[|before|] == last;
    assert forall i | 0 <= i < |before| :: all[i] == before[i];
  }

  lemma RowsBefore(before: seq<Line>, l: Line, separator: char, rows: seq<seq<string>>)
    requires SeenLines(rows, separator, before + [l])
    ensures SeenLines(RowsOf(before), separator, before) && rows == RowsOf(before) + [Texts(l.cells)]
    ensures ValidLine(l, separator) && (before != [] ==> Apart(before[|before| - 1], l))
  {
    LinesBefore(before, l, separator);
    FileNext(before, l, separator);
    hide ValidLines, RowsOf, ValidLine, Apart, Texts;
  }

  lemma LongerEnd(before: seq<Line>, last: Line, l: Line, separator: char)
    requires ValidLine(last, separator) && last.end == "\r" && l == Line(last.cells, "\r\n")
    ensures ValidLine(l, separator) && (before != [] ==> Apart(before[|before| - 1], l))
    ensures last.end + ['\n'] == l.end && l.end != "\r"
  {
    assert l.end[0] == '\r' && |l.end| == 2;
    hide ValidRow;
  }

  /** The second half of a line end. */
  lemma SecondHalfSeen(r: Reader, separator: char, lines: seq<Line>, cells: seq<Cell>)
    requires r.Reader? && Seen(r, separator, lines, cells) && r.mode == AfterCr
    ensures var after, l := r.(mode := StartRecord), Line(lines[|lines| - 1].cells, "\r\n");
            var more := lines[..|lines| - 1] + [l];
            Seen(after, separator, more, cells)
            && SeenText(after, separator, more, cells) == SeenText(r, separator, lines, cells) + ['\n']
  {
    var before, last := lines[..|lines| - 1], lines[|lines| - 1];
    var l := Line(last.cells, "\r\n");
    assert lines == before + [last] && last.end == "\r";
    RowsBefore(before, last, separator, r.rows);
    LongerEnd(before, last, l, separator);
    hide ValidLine, Apart, SeenLines, SeenCells, EndsInCr, Lead, LineText, FileText, Begun, Texts;
    MoreLines(RowsOf(before), separator, before, l);
    FileNext(before, last, separator);
    FileNext(before, l, separator);
    NothingLeads(separator);
    NothingBegun();
    HalfJoined(FileText(before, separator) + LineText(last.cells, separator), last.end);
  }

  lemma HalfJoined(a: string, b: string)
    ensures a + (b + ['\n']) + "" + "" == a + b + "" + "" + ['\n']
  {}

  /** A character that goes on with the cell, or begins it. */
  lemma CellSeen(r: Reader, separator: char, lines: seq<Line>, cells: seq<Cell>, c: char)
    requires r.Reader? && Seen(r, separator, lines, cells) && Step(r, separator, c).Reader? && Separates(separator)
    requires c == '"' || (c != separator && c != '\n' && c != '\r') || r.mode == InQuoted
    ensures var after := Step(r, separator, c);
            Seen(after, separator, lines, cells)
            && SeenText(after, separator, lines, cells) == SeenText(r, separator, lines, cells) + [c]
  {
    var after := Step(r, separator, c);
    CellBegun(r, separator, c);
    FieldSeen(r, separator, lines, cells, c);
    hide SeenLines, SeenCells, SeenField, Lead, FileText, Begun, Step;
    var text := FileText(lines, separator) + Lead(cells, separator);
    assert text + (Begun(r.mode, r.field) + [c]) == text + Begun(r.mode, r.field) + [c];
  }

  lemma FieldSeen(r: Reader, separator: char, lines: seq<Line>, cells: seq<Cell>, c: char)
    requires r.Reader? && SeenField(r.mode, r.field, separator, lines, cells) && Step(r, separator, c).Reader?
    requires c == '"' || (c != separator && c != '\n' && c != '\r') || r.mode == InQuoted
    requires Separates(separator)
    ensures var after := Step(r, separator, c);
            SeenField(after.mode, after.field, separator, lines, cells) && after.rows == r.rows && after.row == r.row
  {
    hide EndsInCr;
  }

  lemma CellBegun(r: Reader, separator: char, c: char)
    requires r.Reader? && Step(r, separator, c).Reader? && Separates(separator)
    requires c == '"' || (c != separator && c != '\n' && c != '\r') || r.mode == InQuoted
    requires r.mode in {StartRecord, AfterCr, StartField} ==> r.field == ""
    ensures var after := Step(r, separator, c); Begun(after.mode, after.field) == Begun(r.mode, r.field) + [c]
  {
    DoubledNext(r.field, c);
    NoneDoubled();
    hide Doubled;
    match r.mode
    case InQuoted =>
      if c != '"' { assert "\"" + (Doubled(r.field) + [c]) == "\"" + Doubled(r.field) + [c]; }
    case QuoteInQuoted =>
      assert "\"" + (Doubled(r.field) + "\"\"") == "\"" + Doubled(r.field) + "\"" + "\"";
    case InField =>
    case _ =>
      assert r.field + [c] == [c] && "" + [c] == [c] && "\"" + "" == "\"";
  }

  lemma NoneDoubled()
    ensures Doubled("") == ""
  {}

  /** One character more, wherever the reader stands. */
  lemma StepSeen(r: Reader, separator: char, lines: seq<Line>, cells: seq<Cell>, c: char)
    returns (lines': seq<Line>, cells': seq<Cell>)
    requires r.Reader? && Seen(r, separator, lines, cells) && Step(r, separator, c).Reader? && Separates(separator)
    ensures Seen(Step(r, separator, c), separator, lines', cells')
    ensures SeenText(Step(r, separator, c), separator, lines', cells')
            == SeenText(r, separator, lines, cells) + [c]
  {
    hide Seen, SeenText;
    lines', cells' := lines, cells;
    if c == '"' || (c != separator && c != '\n' && c != '\r') || r.mode == InQuoted {
      CellSeen(r, separator, lines, cells, c);
    } else if c == separator {
      SeparatorSeen(r, separator, lines, cells);
      cells' := cells + [Ending(r)];
    } else if r.mode == StartRecord || (r.mode == AfterCr && c == '\r') {
      EmptyLineSeen(r, separator, lines, cells, c);
      lines', cells' := lines + [Line([], [c])], [];
    } else if r.mode == AfterCr {
      assert lines != [] by { AfterLine(r, separator, lines, cells); }
      SecondHalfSeen(r, separator, lines, cells);
      lines' := lines[..|lines| - 1] + [Line(lines[|lines| - 1].cells, "\r\n")];
    } else {
      BreakSeen(r, separator, lines, cells, c);
      lines', cells' := lines + [Line(cells + [Ending(r)], [c])], [];
    }
  }

  lemma AfterLine(r: Reader, separator: char, lines: seq<Line>, cells: seq<Cell>)
    requires r.Reader? && Seen(r, separator, lines, cells) && r.mode == AfterCr
    ensures lines != []
  {}

  const START := Reader(StartRecord, "", [], [])

  lemma NothingSeen(separator: char)
    ensures Seen(START, separator, [], []) && SeenText(START, separator, [], []) == ""
  {}

  lemma FeedNext(separator: char, text: string)
    requires text != ""
    ensures Feed(START, separator, text)
            == Step(Feed(START, separator, text[..|text| - 1]), separator, text[|text| - 1])
  {
    var before, c := text[..|text| - 1], text[|text| - 1];
    assert text == before + [c];
    FeedConcat(START, separator, before, [c]);
    FeedChar(Feed(START, separator, before), separator, c);
  }

  /** Whatever text the reader gets through is a layout of lines and cells. */
  lemma {:induction false} FeedSeen(separator: char, text: string) returns (lines: seq<Line>, cells: seq<Cell>)
    requires Separates(separator) && Feed(START, separator, text).Reader?
    ensures Seen(Feed(START, separator, text), separator, lines, cells)
    ensures SeenText(Feed(START, separator, text), separator, lines, cells) == text
    decreases |text|
  {
    hide Seen, SeenText, Step;
    if text == "" {
      lines, cells := [], [];
      NothingSeen(separator);
    } else {
      var before, c := text[..|text| - 1], text[|text| - 1];
      FeedNext(separator, text);
      hide Feed;
      StepOfFailed(separator, c);
      lines, cells := FeedSeen(separator, before);
      lines, cells := StepSeen(Feed(START, separator, before), separator, lines, cells, c);
      assert before + [c] == text;
    }
  }

  lemma StepOfFailed(separator: char, c: char)
    ensures Step(Failed, separator, c) == Failed
  {}

  /** The text is the layout, and its rows are the texts of the cells. */
  predicate Lays(lines: seq<Line>, separator: char, text: string, rows: seq<seq<string>>) {
    ValidFile(lines, separator) && FileText(lines, separator) == text && RowsOf(lines) == rows
  }

  /** At the end of the text the line being read counts without an end. */
  lemma EndSeen(r: Reader, separator: char, lines: seq<Line>, cells: seq<Cell>) returns (all: seq<Line>)
    requires r.Reader? && Seen(r, separator, lines, cells) && r.mode in {StartField, InField, QuoteInQuoted}
    ensures Lays(all, separator, SeenText(r, separator, lines, cells), r.rows + [r.row + [r.field]])
  {
    var last := cells + [Ending(r)];
    var l := Line(last, "");
    all := lines + [l];
    EndingValid(r, separator, lines, cells);
    hide ValidCell, SeenLines, SeenCells, EndsInCr, Lead, LineText, FileText, Begun, CellText, Continues, Texts, RowsOf,
         ValidLines;
    MoreCells(r.row, separator, cells, Ending(r));
    CellsValid(r.row + [r.field], separator, last);
    hide ValidCells;
    LinesValid(r.rows, separator, lines);
    LeadNext(cells, Ending(r), separator);
    FileNext(lines, l, separator);
    LastEnd(lines, l);
    EndJoined(FileText(lines, separator), Lead(cells, separator), CellText(Ending(r)));
    assert all[..|all| - 1] == lines;
  }

  lemma LastEnd(lines: seq<Line>, l: Line)
    ensures var all := lines + [l]; all != [] && all[|all| - 1] == l
  {}

  lemma EndJoined(a: string, b: string, c: string)
    ensures a + (b + c) + "" == a + b + c
  {}

  lemma LinesValid(rows: seq<seq<string>>, separator: char, lines: seq<Line>)
    requires SeenLines(rows, separator, lines)
    ensures ValidLines(lines, separator) && RowsOf(lines) == rows
  {}

  lemma BetweenLines(r: Reader, separator: char, lines: seq<Line>, cells: seq<Cell>)
    requires r.Reader? && Seen(r, separator, lines, cells) && (r.mode == StartRecord || r.mode == AfterCr)
    ensures Lays(lines, separator, SeenText(r, separator, lines, cells), r.rows)
  {
    NothingLeads(separator);
    hide ValidLines, RowsOf, FileText, Lead;
    assert FileText(lines, separator) + "" + "" == FileText(lines, separator);
  }

  /** Every text that is read is a layout of the rows that are read. */
  lemma ReadLays(text: string, separator: char) returns (lines: seq<Line>)
    requires Separates(separator) && ReadRows(text, separator).Some?
    ensures Lays(lines, separator, text, ReadRows(text, separator).value)
  {
    var r := Feed(START, separator, text);
    assert r.Reader? && r.mode != InQuoted;
    var cells;
    lines, cells := FeedSeen(separator, text);
    hide Lays, Seen, SeenText, Feed;
    if r.mode == StartRecord || r.mode == AfterCr {
      BetweenLines(r, separator, lines, cells);
    } else {
      lines := EndSeen(r, separator, lines, cells);
    }
  }

  // ---- every layout is read ----

  predicate FieldStart(r: Reader) {
    r.Reader? && r.field == "" && r.mode in {StartRecord, AfterCr, StartField}
  }

  /** The reader at the end of a cell. */
  function Filled(r: Reader, c: Cell): Reader
    requires r.Reader?
  {
    r.(mode := if c.quoted then QuoteInQuoted else InField, field := c.text)
  }

  lemma QuotedRead(r: Reader, separator: char, c: Cell)
    requires FieldStart(r) && ValidCell(c, separator) && c.quoted && Separates(separator)
    ensures Feed(r, separator, CellText(c)) == Filled(r, c)
  {
    var open := r.(mode := InQuoted);
    FeedConcat(r, separator, "\"" + Doubled(c.text), "\"");
    FeedConcat(r, separator, "\"", Doubled(c.text));
    FeedChar(r, separator, '"');
    ReadDoubled(open, separator, c.text);
    hide Feed, Doubled;
    assert "" + c.text == c.text;
    FeedChar(open.(field := c.text), separator, '"');
  }

  lemma PlainRead(r: Reader, separator: char, c: Cell)
    requires FieldStart(r) && ValidCell(c, separator) && !c.quoted && c.text != "" && Separates(separator)
    ensures Feed(r, separator, CellText(c)) == Filled(r, c)
  {
    var text := c.text;
    assert text == [text[0]] + text[1..];
    FeedConcat(r, separator, [text[0]], text[1..]);
    FeedChar(r, separator, text[0]);
    hide Feed;
    var next := r.(mode := InField, field := [text[0]]);
    assert Step(r, separator, text[0]) == next by { assert "" + [text[0]] == [text[0]]; }
    assert Continues(text[1..], separator);
    ReadPlain(next, separator, text[1..]);
  }

  /** A cell with its separator. */
  lemma CellRead(r: Reader, separator: char, c: Cell)
    requires FieldStart(r) && ValidCell(c, separator) && Separates(separator)
    ensures Feed(r, separator, CellText(c) + [separator]) == r.(mode := StartField, row := r.row + [c.text])
  {
    FeedConcat(r, separator, CellText(c), [separator]);
    if c.quoted {
      QuotedRead(r, separator, c);
      FeedChar(Filled(r, c), separator, separator);
    } else if c.text != "" {
      PlainRead(r, separator, c);
      FeedChar(Filled(r, c), separator, separator);
    } else {
      FeedChar(r, separator, separator);
    }
    hide Feed, Doubled;
  }

  lemma CellsBefore(cells: seq<Cell>, separator: char)
    requires cells != [] && ValidCells(cells, separator)
    ensures ValidCells(cells[..|cells| - 1], separator) && ValidCell(cells[|cells| - 1], separator)
  {
    hide ValidCell;
  }

  /** Cells with a separator behind each. */
  lemma {:induction false} LeadRead(r: Reader, separator: char, cells: seq<Cell>)
    requires FieldStart(r) && ValidCells(cells, separator) && Separates(separator)
    ensures Feed(r, separator, Lead(cells, separator))
            == if cells == [] then r else r.(mode := StartField, row := r.row + Texts(cells))
    decreases |cells|
  {
    hide CellText, ValidCells, ValidCell, Feed, Texts;
    if cells == [] {
      FeedNothing(r, separator);
    } else {
      var before, last := cells[..|cells| - 1], cells[|cells| - 1];
      CellsBefore(cells, separator);
      LeadRead(r, separator, before);
      NoTexts(before);
      var mid := Feed(r, separator, Lead(before, separator));
      CellRead(mid, separator, last);
      FeedConcat(r, separator, Lead(before, separator), CellText(last) + [separator]);
      assert Lead(cells, separator) == Lead(before, separator) + (CellText(last) + [separator]);
      TextsNext(before, last);
      assert cells == before + [last];
      assert r.row + (Texts(before) + [last.text]) == r.row + Texts(before) + [last.text];
    }
  }

  lemma NoTexts(cells: seq<Cell>)
    ensures cells == [] ==> Texts(cells) == []
  {}

  lemma FeedNothing(r: Reader, separator: char)
    ensures Feed(r, separator, "") == r
  {}

  /** The reader at the end of a line's cells, before the line end. */
  ghost predicate AtLineEnd(r: Reader, rows: seq<seq<string>>, cells: seq<Cell>) {
    && r.Reader? && r.rows == rows && r.row + [r.field] == Texts(cells)
    && r.mode in {StartField, InField, QuoteInQuoted}
  }

  lemma LastCellRead(r: Reader, separator: char, before: seq<Cell>, last: Cell)
    requires FieldStart(r) && ValidCell(last, separator) && Separates(separator) && r.row == Texts(before)
    requires r.mode == StartField || last != Cell(false, "")
    ensures AtLineEnd(Feed(r, separator, CellText(last)), r.rows, before + [last])
  {
    TextsNext(before, last);
    if last.quoted {
      QuotedRead(r, separator, last);
    } else if last.text != "" {
      PlainRead(r, separator, last);
    } else {
      FeedNothing(r, separator);
    }
    hide Feed, Texts, Doubled;
  }

  lemma RowRead(r: Reader, separator: char, cells: seq<Cell>)
    requires FieldStart(r) && r.row == [] && r.mode != StartField && cells != [] && ValidRow(cells, separator)
    requires Separates(separator)
    ensures AtLineEnd(Feed(r, separator, LineText(cells, separator)), r.rows, cells)
  {
    var before, last := cells[..|cells| - 1], cells[|cells| - 1];
    CellsBefore(cells, separator);
    LeadRead(r, separator, before);
    assert cells == before + [last];
    if before == [] { assert cells == [last]; }
    NoTexts(before);
    hide Feed, Lead, CellText, Texts, ValidCells, ValidCell;
    assert [] + Texts(before) == Texts(before);
    FeedConcat(r, separator, Lead(before, separator), CellText(last));
    LastCellRead(Feed(r, separator, Lead(before, separator)), separator, before, last);
  }

  /** The reader between two lines, when these have been read. */
  function Between(lines: seq<Line>): Reader {
    Reader(if EndsInCr(lines) then AfterCr else StartRecord, "", [], RowsOf(lines))
  }

  lemma EndRead(r: Reader, separator: char, lines: seq<Line>, l: Line)
    requires AtLineEnd(r, RowsOf(lines), l.cells) && l.end in ["\n", "\r", "\r\n"] && Separates(separator)
    ensures Feed(r, separator, l.end) == Between(lines + [l])
  {
    FileNext(lines, l, separator);
    LastEnd(lines, l);
    hide RowsOf, Texts, FileText, LineText;
    var ended := EndRecord(EndField(r), AfterCr);
    FeedChar(r, separator, '\n');
    FeedChar(r, separator, '\r');
    assert "\r\n" == ['\r'] + ['\n'];
    FeedConcat(r, separator, ['\r'], ['\n']);
    FeedChar(ended, separator, '\n');
    hide Feed;
    if l.end == "\n" {
      assert l.end == ['\n'] && l.end[0] != '\r';
    } else if l.end == "\r" {
      assert l.end == ['\r'];
    } else {
      assert |l.end| == 2;
    }
  }

  lemma EmptyLineRead(separator: char, lines: seq<Line>, l: Line)
    requires l.cells == [] && l.end in ["\n", "\r", "\r\n"] && Separates(separator)
    requires lines != [] ==> Apart(lines[|lines| - 1], l)
    ensures Feed(Between(lines), separator, l.end) == Between(lines + [l])
  {
    FileNext(lines, l, separator);
    LastEnd(lines, l);
    NothingLeads(separator);
    hide RowsOf, Texts, FileText, LineText;
    var r := Between(lines);
    var ended := EndRecord(r, AfterCr);
    FeedChar(r, separator, '\n');
    FeedChar(r, separator, '\r');
    assert "\r\n" == ['\r'] + ['\n'];
    FeedConcat(r, separator, ['\r'], ['\n']);
    FeedChar(ended, separator, '\n');
    hide Feed;
    if l.end == "\n" {
      assert l.end == ['\n'] && l.end[0] != '\r';
    } else if l.end == "\r" {
      assert l.end == ['\r'];
    } else {
      assert |l.end| == 2;
    }
  }

  lemma LineRead(separator: char, lines: seq<Line>, l: Line)
    requires ValidLine(l, separator) && Separates(separator)
    requires lines != [] ==> Apart(lines[|lines| - 1], l)
    ensures Feed(Between(lines), separator, LineText(l.cells, separator) + l.end) == Between(lines + [l])
  {
    hide Feed, RowsOf, LineText, ValidRow, Apart;
    if l.cells == [] {
      NothingLeads(separator);
      EmptyLineRead(separator, lines, l);
      assert "" + l.end == l.end;
    } else {
      RowRead(Between(lines), separator, l.cells);
      FeedConcat(Between(lines), separator, LineText(l.cells, separator), l.end);
      EndRead(Feed(Between(lines), separator, LineText(l.cells, separator)), separator, lines, l);
    }
  }

  lemma {:induction false} LinesRead(separator: char, lines: seq<Line>)
    requires ValidLines(lines, separator) && Separates(separator)
    ensures Feed(START, separator, FileText(lines, separator)) == Between(lines)
    decreases |lines|
  {
    hide *;
    if lines == [] {
      NoLines(separator);
    } else {
      var before, l := lines[..|lines| - 1], lines[|lines| - 1];
      assert lines == before + [l];
      LinesBefore(before, l, separator);
      LinesRead(separator, before);
      LineRead(separator, before, l);
      FileNext(before, l, separator);
      FeedConcat(START, separator, FileText(before, separator), LineText(l.cells, separator) + l.end);
      assert FileText(before, separator) + (LineText(l.cells, separator) + l.end)
          == FileText(before, separator) + LineText(l.cells, separator) + l.end;
    }
  }

  lemma NoLines(separator: char)
    ensures Feed(START, separator, FileText([], separator)) == Between([])
  {}

  lemma WholeRead(separator: char, lines: seq<Line>)
    requires ValidLines(lines, separator) && Separates(separator)
    ensures ReadRows(FileText(lines, separator), separator) == Some(RowsOf(lines))
  {
    LinesRead(separator, lines);
    hide Feed, FileText, RowsOf, ValidLines;
  }

  lemma UnendedRead(separator: char, before: seq<Line>, l: Line)
    requires ValidLines(before, separator) && Separates(separator)
    requires l.end == "" && l.cells != [] && ValidRow(l.cells, separator)
    ensures ReadRows(FileText(before + [l], separator), separator) == Some(RowsOf(before + [l]))
  {
    LinesRead(separator, before);
    FileNext(before, l, separator);
    hide FileText, RowsOf, ValidLines, LineText, ValidRow, Texts;
    RowRead(Between(before), separator, l.cells);
    FeedConcat(START, separator, FileText(before, separator), LineText(l.cells, separator));
    hide Feed;
    var text := FileText(before, separator) + LineText(l.cells, separator);
    assert text + "" == text;
  }

  /** Every layout is read as its rows. */
  lemma LayoutRead(lines: seq<Line>, separator: char, text: string, rows: seq<seq<string>>)
    requires Separates(separator) && Lays(lines, separator, text, rows)
    ensures ReadRows(text, separator) == Some(rows)
  {
    hide ReadRows, FileText, RowsOf, ValidLines, ValidRow;
    if ValidLines(lines, separator) {
      WholeRead(separator, lines);
    } else {
      var before, l := lines[..|lines| - 1], lines[|lines| - 1];
      assert lines == before + [l];
      UnendedRead(separator, before, l);
    }
  }

  /**
   The strict reader reads exactly the texts that are laid out in lines and cells, each cell within the limit, and
   reads them as their rows; whatever else it is given it rejects.
   */
  lemma ReadExactly(text: string, separator: char, rows: seq<seq<string>>)
    requires Separates(separator)
    ensures ReadRows(text, separator) == Some(rows) <==> exists lines :: Lays(lines, separator, text, rows)
  {
    hide *;
    if ReadRows(text, separator) == Some(rows) {
      var lines := ReadLays(text, separator);
    }
    if lines :| Lays(lines, separator, text, rows) {
      LayoutRead(lines, separator, text, rows);
    }
  }
}
