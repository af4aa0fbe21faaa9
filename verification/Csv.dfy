/**
 The CSV dialect the commit list is written and read in: minimal quoting with doubled quotes and CRLF line
 ends (section 2 of RFC 4180), read strictly and with the reader's limit on the length of a field.
 */
module Csv {
  import opened Text

  const FIELD_LIMIT := 131072

  // ---- writing ----

  predicate Special(c: char) {
    c == ',' || c == '"' || c == '\r' || c == '\n'
  }

  predicate NeedsQuotes(cell: string) {
    exists i | 0 <= i < |cell| :: Special(cell[i])
  }

  function Doubled(cell: string): string {
    if cell == "" then "" else (if cell[0] == '"' then "\"\"" else [cell[0]]) + Doubled(cell[1..])
  }

  function Quoted(cell: string): string {
    if NeedsQuotes(cell) then "\"" + Doubled(cell) + "\"" else cell
  }

  function WriteRow(a: string, b: string): string {
    Quoted(a) + "," + Quoted(b) + "\r\n"
  }

  // ---- reading ----

  datatype Mode = StartRecord | AfterCr | StartField | InField | InQuoted | QuoteInQuoted

  datatype Reader =
    | Reader(mode: Mode, field: string, row: seq<string>, rows: seq<seq<string>>)
    | Failed

  function AddChar(r: Reader, mode: Mode, c: char): Reader
    requires r.Reader?
  {
    if |r.field| >= FIELD_LIMIT then Failed else r.(mode := mode, field := r.field + [c])
  }

  function EndField(r: Reader): Reader
    requires r.Reader?
  {
    r.(mode := StartField, field := "", row := r.row + [r.field])
  }

  function EndRecord(r: Reader, mode: Mode): Reader
    requires r.Reader?
  {
    Reader(mode, "", [], r.rows + [r.row])
  }

  function LineEnd(c: char): Mode {
    if c == '\r' then AfterCr else StartRecord
  }

  function InitialField(r: Reader, separator: char, c: char): Reader
    requires r.Reader?
  {
    if c == '\r' || c == '\n' then EndRecord(EndField(r), LineEnd(c))
    else if c == '"' then r.(mode := InQuoted)
    else if c == separator then EndField(r)
    else AddChar(r, InField, c)
  }

  function InitialRecord(r: Reader, separator: char, c: char): Reader
    requires r.Reader?
  {
    if c == '\r' || c == '\n' then EndRecord(r, LineEnd(c)) else InitialField(r, separator, c)
  }

  function Step(r: Reader, separator: char, c: char): Reader {
    if r.Failed? then r
    else
      match r.mode
      case StartRecord => InitialRecord(r, separator, c)
      case AfterCr => if c == '\n' then r.(mode := StartRecord) else InitialRecord(r, separator, c)
      case StartField => InitialField(r, separator, c)
      case InField =>
        if c == '\r' || c == '\n' then EndRecord(EndField(r), LineEnd(c))
        else if c == separator then EndField(r)
        else AddChar(r, InField, c)
      case InQuoted => if c == '"' then r.(mode := QuoteInQuoted) else AddChar(r, InQuoted, c)
      case QuoteInQuoted =>
        if c == '"' then AddChar(r, InQuoted, c)
        else if c == separator then EndField(r)
        else if c == '\r' || c == '\n' then EndRecord(EndField(r), LineEnd(c))
        else Failed
  }

  function Feed(r: Reader, separator: char, text: string): Reader
    decreases |text|
  {
    if text == "" then r else Feed(Step(r, separator, text[0]), separator, text[1..])
  }

  /** The rows of a whole text, or None where the strict reader raises. */
  function ReadRows(text: string, separator: char): Option<seq<seq<string>>> {
    var r := Feed(Reader(StartRecord, "", [], []), separator, text);
    if r.Failed? || r.mode == InQuoted then None
    else if r.mode == StartRecord || r.mode == AfterCr then Some(r.rows)
    else Some(r.rows + [r.row + [r.field]])
  }

  // ---- what is written is read back ----

  lemma {:induction false} FeedConcat(r: Reader, separator: char, a: string, b: string)
    ensures Feed(r, separator, a + b) == Feed(Feed(r, separator, a), separator, b)
    decreases |a|
  {
    if a == "" {
      assert a + b == b;
    } else {
      assert (a + b)[1..] == a[1..] + b;
      FeedConcat(Step(r, separator, a[0]), separator, a[1..], b);
    }
  }

  lemma {:induction false} FailedStays(separator: char, text: string)
    ensures Feed(Failed, separator, text) == Failed
    decreases |text|
  {
    if text == "" {
    } else {
      FailedStays(separator, text[1..]);
    }
  }

  /** A field as far as it has been read, or the failure once it is over the limit. */
  function Grown(r: Reader, mode: Mode, cell: string): Reader
    requires r.Reader?
  {
    if |r.field| + |cell| > FIELD_LIMIT then Failed else r.(mode := mode, field := r.field + cell)
  }

  /** Characters that go on with a field that did not start with a quote. */
  predicate Continues(cell: string, separator: char) {
    forall i | 0 <= i < |cell| :: cell[i] != separator && cell[i] != '\r' && cell[i] != '\n'
  }

  lemma {:induction false} ReadPlain(r: Reader, separator: char, cell: string)
    requires r.Reader? && r.mode == InField && Continues(cell, separator) && |r.field| <= FIELD_LIMIT
    ensures Feed(r, separator, cell) == Grown(r, InField, cell)
    decreases |cell|
  {
    if cell == "" {
      assert r.field + "" == r.field;
    } else {
      var next := Step(r, separator, cell[0]);
      assert forall i | 0 <= i < |cell[1..]| :: cell[1..][i] == cell[i + 1];
      if next.Failed? {
        FailedStays(separator, cell[1..]);
      } else {
        ReadPlain(next, separator, cell[1..]);
        assert r.field + [cell[0]] + cell[1..] == r.field + cell;
      }
    }
  }

  lemma {:induction false} ReadDoubled(r: Reader, separator: char, cell: string)
    requires r.Reader? && r.mode == InQuoted && |r.field| <= FIELD_LIMIT
    ensures Feed(r, separator, Doubled(cell)) == Grown(r, InQuoted, cell)
    decreases |cell|
  {
    if cell == "" {
      assert r.field + "" == r.field;
    } else {
      var head := if cell[0] == '"' then "\"\"" else [cell[0]];
      FeedConcat(r, separator, head, Doubled(cell[1..]));
      ReadOne(r, separator, cell[0]);
      var next := Feed(r, separator, head);
      hide Feed, Step;
      if next.Failed? {
        FailedStays(separator, Doubled(cell[1..]));
      } else {
        ReadDoubled(next, separator, cell[1..]);
        assert r.field + [cell[0]] + cell[1..] == r.field + cell;
      }
    }
  }

  lemma ReadOne(r: Reader, separator: char, c: char)
    requires r.Reader? && r.mode == InQuoted
    ensures Feed(r, separator, if c == '"' then "\"\"" else [c]) == AddChar(r, InQuoted, c)
  {
    if c == '"' {
      var twice := "\"\"";
      assert twice[1..] == "\"" && twice[1..][1..] == "";
      var met := Step(r, separator, '"');
      assert Feed(r, separator, twice) == Feed(met, separator, twice[1..])
          == Feed(Step(met, separator, '"'), separator, twice[1..][1..]);
    } else {
      assert [c][1..] == "";
    }
  }

  lemma FeedChar(r: Reader, separator: char, c: char)
    ensures Feed(r, separator, [c]) == Step(r, separator, c)
  {
    assert [c][1..] == "";
  }

  predicate AtField(r: Reader) {
    r.Reader? && r.field == "" && (r.mode == StartRecord || r.mode == StartField)
  }

  /** A non-empty cell followed by the character that ends it. */
  lemma ReadCell(r: Reader, cell: string, end: char)
    requires AtField(r) && cell != "" && (end == ',' || end == '\r')
    ensures Feed(r, ',', Quoted(cell) + [end]) ==
            if |cell| > FIELD_LIMIT then Failed
            else if end == ',' then EndField(r.(field := cell))
            else EndRecord(EndField(r.(field := cell)), AfterCr)
  {
    FeedConcat(r, ',', Quoted(cell), [end]);
    var filled := Feed(r, ',', Quoted(cell));
    if NeedsQuotes(cell) {
      var open := r.(mode := InQuoted);
      FeedConcat(r, ',', "\"" + Doubled(cell), "\"");
      FeedConcat(r, ',', "\"", Doubled(cell));
      FeedChar(r, ',', '"');
      ReadDoubled(open, ',', cell);
      hide Feed;
      assert "" + cell == cell;
      var inside := Grown(open, InQuoted, cell);
      FeedChar(inside, ',', '"');
      FeedChar(filled, ',', end);
    } else {
      assert !Special(cell[0]);
      assert cell == [cell[0]] + cell[1..];
      FeedConcat(r, ',', [cell[0]], cell[1..]);
      FeedChar(r, ',', cell[0]);
      var next := Step(r, ',', cell[0]);
      assert "" + [cell[0]] == [cell[0]];
      assert forall i | 0 <= i < |cell[1..]| :: cell[1..][i] == cell[i + 1];
      ReadPlain(next, ',', cell[1..]);
      hide Feed;
      FeedChar(filled, ',', end);
    }
  }

  /** One written row is read back as that row, or fails when a cell is over the limit. */
  lemma ReadWrittenRow(rows: seq<seq<string>>, a: string, b: string)
    requires a != "" && b != ""
    ensures Feed(Reader(StartRecord, "", [], rows), ',', WriteRow(a, b)) ==
            if |a| > FIELD_LIMIT || |b| > FIELD_LIMIT then Failed else Reader(StartRecord, "", [], rows + [[a, b]])
  {
    var r := Reader(StartRecord, "", [], rows);
    assert WriteRow(a, b) == Quoted(a) + [','] + (Quoted(b) + ['\r'] + ['\n']);
    FeedConcat(r, ',', Quoted(a) + [','], Quoted(b) + ['\r'] + ['\n']);
    ReadCell(r, a, ',');
    if |a| > FIELD_LIMIT {
      FailedStays(',', Quoted(b) + ['\r'] + ['\n']);
    } else {
      var mid := EndField(r.(field := a));
      FeedConcat(mid, ',', Quoted(b) + ['\r'], ['\n']);
      ReadCell(mid, b, '\r');
      hide Feed, Quoted;
      if |b| > FIELD_LIMIT {
        FailedStays(',', ['\n']);
      } else {
        FeedChar(EndRecord(EndField(mid.(field := b)), AfterCr), ',', '\n');
        assert [] + [a] + [b] == [a, b];
      }
    }
  }
}
