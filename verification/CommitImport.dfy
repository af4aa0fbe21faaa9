/**
 The commit-list import (backport_commit_import.py): validation of submitted entries, the CSV list a run
 archives, and the parser that reads such a list back.
 */
module CommitImport {
  import opened Text
  import Csv

  const MAX_BYTES := 1048576
  const MAX_ENTRIES := 5000

  datatype Entry = Entry(commit: string, title: string)

  /** One submitted item: a bare mapping, a (row, mapping) pair, or anything else. A field that is not a
      string is None. */
  datatype Item =
    | Plain(commit: Option<string>, title: Option<string>)
    | At(row: int, commit: Option<string>, title: Option<string>)
    | Malformed

  datatype Problem =
    | NotAnEntry(row: int)
    | BadSha(row: int)
    | EmptyTitle(row: int)
    | MultilineTitle(row: int)
    | TitleConflict(row: int, firstRow: int)
    | RowWidth(row: int)
    | NoEntries
    | TooManyEntries
    | ListTooLarge
    | FileTooLarge
    | NotUtf8
    | BadFormat

  datatype Duplicate = Duplicate(row: int, firstRow: int)

  datatype PreviewRow = PreviewRow(row: int, commit: string, title: string)

  datatype Outcome = Outcome(
    entries: seq<Entry>, errors: seq<Problem>, warnings: seq<Duplicate>, rows: seq<PreviewRow>)

  // ---- what one item says ----

  predicate IsHex(c: char) {
    '0' <= c <= '9' || 'a' <= c <= 'f' || 'A' <= c <= 'F'
  }

  predicate IsSha(s: string) {
    |s| >= 7 && forall i | 0 <= i < |s| :: IsHex(s[i])
  }

  function LowerHex(c: char): char {
    if 'A' <= c <= 'F' then c + ('a' - 'A') else c
  }

  function Lowered(s: string): string {
    if s == "" then "" else [LowerHex(s[0])] + Lowered(s[1..])
  }

  function StripOr(s: Option<string>): string {
    if s.Some? then Strip(s.value) else ""
  }

  predicate SingleLine(s: string) {
    '\n' !in s && '\r' !in s
  }

  predicate GoodItem(item: Item) {
    !item.Malformed? && IsSha(StripOr(item.commit)) && StripOr(item.title) != ""
    && SingleLine(StripOr(item.title))
  }

  function Key(item: Item): string
    requires !item.Malformed?
  {
    Lowered(StripOr(item.commit))
  }

  function Title(item: Item): string
    requires !item.Malformed?
  {
    StripOr(item.title)
  }

  function RowOf(items: seq<Item>, i: nat): int
    requires i < |items|
  {
    if items[i].At? then items[i].row else i + 1
  }

  // ---- what the whole list says, item by item ----

  /** The first good item among the first n with this key. */
  function FirstIndex(items: seq<Item>, key: string, n: nat): (r: Option<nat>)
    requires n <= |items|
    ensures r.Some? ==> r.value < n && GoodItem(items[r.value]) && Key(items[r.value]) == key
                        && forall j | 0 <= j < r.value :: !(GoodItem(items[j]) && Key(items[j]) == key)
    ensures r.None? ==> forall j | 0 <= j < n :: !(GoodItem(items[j]) && Key(items[j]) == key)
  {
    if n == 0 then None
    else
      var earlier := FirstIndex(items, key, n - 1);
      if earlier.Some? then earlier
      else if GoodItem(items[n - 1]) && Key(items[n - 1]) == key then Some(n - 1) else None
  }

  function FormErrors(items: seq<Item>, i: nat): seq<Problem>
    requires i < |items|
  {
    if items[i].Malformed? then [NotAnEntry(RowOf(items, i))]
    else
      (if IsSha(StripOr(items[i].commit)) then [] else [BadSha(RowOf(items, i))])
      + (if Title(items[i]) == "" then [EmptyTitle(RowOf(items, i))]
         else if SingleLine(Title(items[i])) then [] else [MultilineTitle(RowOf(items, i))])
  }

  /** The row of the earlier item that item i repeats, with that item's title. */
  function Earlier(items: seq<Item>, i: nat): Option<(int, string)>
    requires i < |items| && GoodItem(items[i])
  {
    var first := FirstIndex(items, Key(items[i]), i);
    if first.None? then None else Some((RowOf(items, first.value), Title(items[first.value])))
  }

  function ItemErrors(items: seq<Item>, i: nat): seq<Problem>
    requires i < |items|
  {
    if !GoodItem(items[i]) then FormErrors(items, i)
    else
      var e := Earlier(items, i);
      if e.Some? && e.value.1 != Title(items[i]) then [TitleConflict(RowOf(items, i), e.value.0)] else []
  }

  function ItemWarnings(items: seq<Item>, i: nat): seq<Duplicate>
    requires i < |items|
  {
    if !GoodItem(items[i]) then []
    else
      var e := Earlier(items, i);
      if e.Some? && e.value.1 == Title(items[i]) then [Duplicate(RowOf(items, i), e.value.0)] else []
  }

  function ItemEntries(items: seq<Item>, i: nat): seq<Entry>
    requires i < |items|
  {
    if GoodItem(items[i]) && Earlier(items, i).None? then [Entry(Key(items[i]), Title(items[i]))] else []
  }

  function Errors(items: seq<Item>, n: nat): seq<Problem>
    requires n <= |items|
  {
    if n == 0 then [] else Errors(items, n - 1) + ItemErrors(items, n - 1)
  }

  function Warnings(items: seq<Item>, n: nat): seq<Duplicate>
    requires n <= |items|
  {
    if n == 0 then [] else Warnings(items, n - 1) + ItemWarnings(items, n - 1)
  }

  function Entries(items: seq<Item>, n: nat): seq<Entry>
    requires n <= |items|
  {
    if n == 0 then [] else Entries(items, n - 1) + ItemEntries(items, n - 1)
  }

  function Utf8Width(c: char): nat {
    var n := c as int;
    if n < 0x80 then 1 else if n < 0x800 then 2 else if n < 0x10000 then 3 else 4
  }

  function Utf8Size(s: string): nat {
    if s == "" then 0 else Utf8Width(s[0]) + Utf8Size(s[1..])
  }

  const HEADER := Csv.WriteRow("commit_id", "commit_title")

  function Lines(entries: seq<Entry>, n: nat): string
    requires n <= |entries|
  {
    if n == 0 then "" else Lines(entries, n - 1) + Csv.WriteRow(entries[n - 1].commit, entries[n - 1].title)
  }

  function Serialize(entries: seq<Entry>): string {
    HEADER + Lines(entries, |entries|)
  }

  function Sized(entries: seq<Entry>, warnings: seq<Duplicate>): Outcome {
    if Utf8Size(Serialize(entries)) > MAX_BYTES then Outcome([], [ListTooLarge], warnings, [])
    else Outcome(entries, [], warnings, [])
  }

  function Validated(items: seq<Item>): Outcome {
    var n := |items|;
    if n > MAX_ENTRIES then Outcome([], [TooManyEntries], [], [])
    else if Errors(items, n) != [] then Outcome(Entries(items, n), Errors(items, n), Warnings(items, n), [])
    else if Entries(items, n) == [] then Outcome([], [NoEntries], Warnings(items, n), [])
    else Sized(Entries(items, n), Warnings(items, n))
  }

  method SerializeCommitEntries(entries: seq<Entry>) returns (output: string)
    ensures output == Serialize(entries)
  {
    output := HEADER;
    for i := 0 to |entries|
      invariant output == HEADER + Lines(entries, i)
    {
      output := output + Csv.WriteRow(entries[i].commit, entries[i].title);
    }
  }

  /** The dictionary of first occurrences, against the items read so far. */
  ghost predicate RemembersKey(first: map<string, (int, string)>, items: seq<Item>, n: nat, key: string)
    requires n <= |items|
  {
    var j := FirstIndex(items, key, n);
    (key in first <==> j.Some?)
    && (j.Some? ==> first[key] == (RowOf(items, j.value), Title(items[j.value])))
  }

  ghost predicate Remembers(first: map<string, (int, string)>, items: seq<Item>, n: nat)
    requires n <= |items|
  {
    forall key: string :: RemembersKey(first, items, n, key)
  }

  lemma RemembersStep(first: map<string, (int, string)>, items: seq<Item>, n: nat)
    requires n < |items| && Remembers(first, items, n)
    requires !GoodItem(items[n]) || Key(items[n]) in first
    ensures Remembers(first, items, n + 1)
  {
    hide GoodItem, Key, Title;
    var next := n + 1;
    forall key: string ensures RemembersKey(first, items, next, key) {
      assert RemembersKey(first, items, n, key);
    }
  }

  lemma RemembersNew(first: map<string, (int, string)>, items: seq<Item>, n: nat)
    requires n < |items| && Remembers(first, items, n)
    requires GoodItem(items[n]) && Key(items[n]) !in first
    ensures Remembers(first[Key(items[n]) := (RowOf(items, n), Title(items[n]))], items, n + 1)
  {
    var more := first[Key(items[n]) := (RowOf(items, n), Title(items[n]))];
    hide GoodItem, Key, Title;
    var next := n + 1;
    forall key: string ensures RemembersKey(more, items, next, key) {
      assert RemembersKey(first, items, n, key);
    }
  }

  lemma Nothing(items: seq<Item>)
    ensures Errors(items, 0) == [] && Warnings(items, 0) == [] && Entries(items, 0) == []
    ensures Remembers(map[], items, 0)
  {}

  lemma Recalls(first: map<string, (int, string)>, items: seq<Item>, n: nat)
    requires n < |items| && Remembers(first, items, n) && GoodItem(items[n])
    ensures Earlier(items, n) ==
            if Key(items[n]) in first then Some(first[Key(items[n])]) else None
  {
    assert RemembersKey(first, items, n, Key(items[n]));
  }

  /** One item: what is wrong with its form, whether it is good, its key and title. */
  lemma ItemIs(items: seq<Item>, i: nat)
    requires i < |items|
    ensures items[i].Malformed? ==> !GoodItem(items[i]) && FormErrors(items, i) == [NotAnEntry(RowOf(items, i))]
    ensures !items[i].Malformed? ==>
              var commit, title, row := StripOr(items[i].commit), StripOr(items[i].title), RowOf(items, i);
              && FormErrors(items, i) ==
                 (if IsSha(commit) then [] else [BadSha(row)])
                 + (if title == "" then [EmptyTitle(row)] else if SingleLine(title) then [] else [MultilineTitle(row)])
              && (GoodItem(items[i]) <==> IsSha(commit) && title != "" && SingleLine(title))
              && Key(items[i]) == Lowered(commit) && Title(items[i]) == title
  {}

  lemma ValidatedIs(items: seq<Item>)
    ensures var n := |items|;
            var errors, entries, warnings := Errors(items, n), Entries(items, n), Warnings(items, n);
            Validated(items) ==
            if n > MAX_ENTRIES then Outcome([], [TooManyEntries], [], [])
            else if errors != [] then Outcome(entries, errors, warnings, [])
            else if entries == [] then Outcome([], [NoEntries], warnings, [])
            else if Utf8Size(Serialize(entries)) > MAX_BYTES then Outcome([], [ListTooLarge], warnings, [])
            else Outcome(entries, [], warnings, [])
  {
    hide Errors, Entries, Warnings, Utf8Size, Serialize;
  }

  lemma BadItem(items: seq<Item>, i: nat)
    requires i < |items| && !GoodItem(items[i])
    ensures Errors(items, i + 1) == Errors(items, i) + FormErrors(items, i)
    ensures Warnings(items, i + 1) == Warnings(items, i)
    ensures Entries(items, i + 1) == Entries(items, i)
  {}

  lemma RepeatedItem(items: seq<Item>, i: nat)
    requires i < |items| && GoodItem(items[i]) && Earlier(items, i).Some?
    ensures var e := Earlier(items, i).value;
            var same := e.1 == Title(items[i]);
            && Errors(items, i + 1) ==
               (if same then Errors(items, i) else Errors(items, i) + [TitleConflict(RowOf(items, i), e.0)])
            && Warnings(items, i + 1) ==
               (if same then Warnings(items, i) + [Duplicate(RowOf(items, i), e.0)] else Warnings(items, i))
            && Entries(items, i + 1) == Entries(items, i)
  {}

  lemma NewItem(items: seq<Item>, i: nat)
    requires i < |items| && GoodItem(items[i]) && Earlier(items, i).None?
    ensures Errors(items, i + 1) == Errors(items, i) && Warnings(items, i + 1) == Warnings(items, i)
    ensures Entries(items, i + 1) == Entries(items, i) + [Entry(Key(items[i]), Title(items[i]))]
  {}

  /** The validation loop with its dictionary computes the verdict item by item. */
  method ValidateCommitEntries(items: seq<Item>) returns (r: Outcome)
    ensures r == Validated(items)
  {
    hide *;
    ValidatedIs(items);
    if |items| > MAX_ENTRIES { return Outcome([], [TooManyEntries], [], []); }
    var normalized: seq<Entry> := [];
    var errors: seq<Problem> := [];
    var warnings: seq<Duplicate> := [];
    var first: map<string, (int, string)> := map[];
    var i := 0;
    Nothing(items);
    while i < |items|
      invariant 0 <= i <= |items|
      invariant normalized == Entries(items, i) && errors == Errors(items, i) && warnings == Warnings(items, i)
      invariant Remembers(first, items, i)
    {
      var row := RowOf(items, i);
      ghost var before := errors;
      ItemIs(items, i);
      if items[i].Malformed? {
        errors := errors + [NotAnEntry(row)];
        RemembersStep(first, items, i);
        BadItem(items, i);
      } else {
        var commit, title := StripOr(items[i].commit), StripOr(items[i].title);
        if !IsSha(commit) { errors := errors + [BadSha(row)]; }
        if title == "" {
          errors := errors + [EmptyTitle(row)];
        } else if !SingleLine(title) {
          errors := errors + [MultilineTitle(row)];
        }
        assert errors == before + FormErrors(items, i);
        if IsSha(commit) && title != "" && SingleLine(title) {
          var key := Lowered(commit);
          assert key == Key(items[i]);
          Recalls(first, items, i);
          if key in first {
            RepeatedItem(items, i);
            RemembersStep(first, items, i);
            if first[key].1 == title {
              warnings := warnings + [Duplicate(row, first[key].0)];
            } else {
              errors := errors + [TitleConflict(row, first[key].0)];
            }
          } else {
            NewItem(items, i);
            RemembersNew(first, items, i);
            first := first[key := (row, title)];
            normalized := normalized + [Entry(key, title)];
          }
        } else {
          RemembersStep(first, items, i);
          BadItem(items, i);
        }
      }
      i := i + 1;
    }
    if normalized == [] && errors == [] { errors := [NoEntries]; }
    if errors == [] {
      var list := SerializeCommitEntries(normalized);
      if Utf8Size(list) > MAX_BYTES { return Outcome([], [ListTooLarge], warnings, []); }
    }
    r := Outcome(normalized, errors, warnings, []);
  }

  // ---- reading a submitted list ----

  /** What the submitted bytes are: not UTF-8, or text that may still start with a byte-order mark. */
  datatype Content = Undecodable(bytes: nat) | Decoded(text: string)

  datatype Layout = CommaSeparated | TabSeparated

  /** What lower-casing leaves of a character outside ASCII once everything not alphanumeric is dropped. */
  type Folding = char -> string

  function HeaderChar(c: char, fold: Folding): string {
    if c as int >= 0x80 then fold(c)
    else if 'A' <= c <= 'Z' then [c + ('a' - 'A')]
    else if 'a' <= c <= 'z' || '0' <= c <= '9' then [c]
    else ""
  }

  function HeaderChars(s: string, n: nat, fold: Folding): string
    requires n <= |s|
  {
    if n == 0 then "" else HeaderChars(s, n - 1, fold) + HeaderChar(s[n - 1], fold)
  }

  function NormalizeHeader(s: string, fold: Folding): string {
    var stripped := Strip(s);
    HeaderChars(stripped, |stripped|, fold)
  }

  predicate CommitHeader(s: string) {
    s == "commithash" || s == "commit" || s == "hash" || s == "sha" || s == "commitid"
  }

  predicate TitleHeader(s: string) {
    s == "committitle" || s == "title" || s == "subject" || s == "patchtitle"
  }

  lemma HeadersDiffer(s: string)
    ensures !(CommitHeader(s) && TitleHeader(s))
  {}

  /** A cell that names the commits beside one that names the titles. */
  predicate Heads(commit: string, title: string, fold: Folding) {
    CommitHeader(NormalizeHeader(commit, fold)) && TitleHeader(NormalizeHeader(title, fold))
  }

  /** The commit and title columns, when exactly one of two cells names each. */
  function HeaderColumns(row: seq<string>, fold: Folding): (r: Option<(nat, nat)>)
    ensures r == Some((0, 1)) <==> |row| == 2 && Heads(row[0], row[1], fold)
    ensures r == Some((1, 0)) <==> |row| == 2 && Heads(row[1], row[0], fold)
    ensures r == None || r == Some((0, 1)) || r == Some((1, 0))
  {
    if |row| != 2 then None
    else
      HeadersDiffer(NormalizeHeader(row[0], fold));
      HeadersDiffer(NormalizeHeader(row[1], fold));
      var first, second := NormalizeHeader(row[0], fold), NormalizeHeader(row[1], fold);
      if CommitHeader(first) == CommitHeader(second) || TitleHeader(first) == TitleHeader(second) then None
      else Some((if CommitHeader(first) then 0 else 1, if TitleHeader(first) then 0 else 1))
  }

  datatype NumberedRow = NumberedRow(number: int, cells: seq<string>)

  predicate Blank(row: seq<string>) {
    forall i | 0 <= i < |row| :: Strip(row[i]) == ""
  }

  function Numbered(rows: seq<seq<string>>, n: nat): seq<NumberedRow>
    requires n <= |rows|
  {
    if n == 0 then []
    else Numbered(rows, n - 1) + (if Blank(rows[n - 1]) then [] else [NumberedRow(n, rows[n - 1])])
  }

  function Cell(row: NumberedRow, k: nat): string {
    if |row.cells| > k then row.cells[k] else ""
  }

  function Previews(rows: seq<NumberedRow>, columns: (nat, nat), n: nat): seq<PreviewRow>
    requires n <= |rows|
  {
    if n == 0 then []
    else Previews(rows, columns, n - 1)
         + [PreviewRow(rows[n - 1].number, Cell(rows[n - 1], columns.0), Cell(rows[n - 1], columns.1))]
  }

  function WidthErrors(rows: seq<NumberedRow>, n: nat): seq<Problem>
    requires n <= |rows|
  {
    if n == 0 then []
    else WidthErrors(rows, n - 1) + if |rows[n - 1].cells| != 2 then [RowWidth(rows[n - 1].number)] else []
  }

  function RawItems(rows: seq<NumberedRow>, columns: (nat, nat), n: nat): seq<Item>
    requires n <= |rows|
  {
    if n == 0 then []
    else
      var row := rows[n - 1];
      RawItems(rows, columns, n - 1)
      + if |row.cells| != 2 then []
        else [At(row.number, Some(Cell(row, columns.0)), Some(Cell(row, columns.1)))]
  }

  function OfRows(rows: seq<NumberedRow>, columns: (nat, nat)): Outcome {
    var n := |rows|;
    var checked := Validated(RawItems(rows, columns, n));
    Outcome(checked.entries, WidthErrors(rows, n) + checked.errors, checked.warnings, Previews(rows, columns, n))
  }

  function OfTable(rows: seq<seq<string>>, fold: Folding): Outcome {
    var numbered := Numbered(rows, |rows|);
    var columns := if numbered == [] then None else HeaderColumns(numbered[0].cells, fold);
    if columns.Some? then OfRows(numbered[1..], columns.value) else OfRows(numbered, (0, 1))
  }

  function WithoutMark(text: string): string {
    if text != "" && text[0] as int == 0xFEFF then text[1..] else text
  }

  function Bytes(content: Content): nat {
    match content
    case Undecodable(bytes) => bytes
    case Decoded(text) => Utf8Size(text)
  }

  function Parsed(content: Content, form: Layout, fold: Folding): Outcome {
    if Bytes(content) > MAX_BYTES then Outcome([], [FileTooLarge], [], [])
    else if content.Undecodable? then Outcome([], [NotUtf8], [], [])
    else
      var rows := Csv.ReadRows(WithoutMark(content.text), if form.CommaSeparated? then ',' else '\t');
      if rows.None? then Outcome([], [BadFormat], [], []) else OfTable(rows.value, fold)
  }

  /** The import: its loops build the numbered rows, the preview, the width errors and the raw entries. */
  method ParseCommitImport(content: Content, form: Layout, fold: Folding) returns (r: Outcome)
    ensures r == Parsed(content, form, fold)
  {
    hide Csv.ReadRows, HeaderColumns, Strip, Utf8Size, Validated;
    if Bytes(content) > MAX_BYTES { return Outcome([], [FileTooLarge], [], []); }
    if content.Undecodable? { return Outcome([], [NotUtf8], [], []); }
    var table := Csv.ReadRows(WithoutMark(content.text), if form.CommaSeparated? then ',' else '\t');
    if table.None? { return Outcome([], [BadFormat], [], []); }
    var numbered: seq<NumberedRow> := [];
    for i := 0 to |table.value|
      invariant numbered == Numbered(table.value, i)
    {
      if !Blank(table.value[i]) { numbered := numbered + [NumberedRow(i + 1, table.value[i])]; }
    }
    var columns: (nat, nat) := (0, 1);
    if numbered != [] {
      var header := HeaderColumns(numbered[0].cells, fold);
      if header.Some? {
        columns := header.value;
        numbered := numbered[1..];
      }
    }
    assert OfTable(table.value, fold) == OfRows(numbered, columns);
    r := ReadNumberedRows(numbered, columns);
  }

  method ReadNumberedRows(numbered: seq<NumberedRow>, columns: (nat, nat)) returns (r: Outcome)
    requires columns.0 < 2 && columns.1 < 2
    ensures r == OfRows(numbered, columns)
  {
    hide Validated;
    var raw: seq<Item> := [];
    var preview: seq<PreviewRow> := [];
    var errors: seq<Problem> := [];
    for i := 0 to |numbered|
      invariant raw == RawItems(numbered, columns, i)
      invariant preview == Previews(numbered, columns, i)
      invariant errors == WidthErrors(numbered, i)
    {
      var row := numbered[i];
      preview := preview + [PreviewRow(row.number, Cell(row, columns.0), Cell(row, columns.1))];
      if |row.cells| != 2 {
        errors := errors + [RowWidth(row.number)];
      } else {
        raw := raw + [At(row.number, Some(row.cells[columns.0]), Some(row.cells[columns.1]))];
      }
    }
    var checked := ValidateCommitEntries(raw);
    r := Outcome(checked.entries, errors + checked.errors, checked.warnings, preview);
  }
}
