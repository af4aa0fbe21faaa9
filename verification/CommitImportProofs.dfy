/**
 What an accepted commit list is: canonical, a fixed point of validation, and readable from its own archived
 form exactly when no cell is longer than the CSV reader's field limit.
 */
module CommitImportProofs {
  import opened Text
  import opened CommitImport
  import Csv

  // ---- canonical entries ----

  predicate Canonical(e: Entry) {
    IsSha(e.commit) && Lowered(e.commit) == e.commit && e.title != "" && Stripped(e.title) && SingleLine(e.title)
  }

  ghost predicate Distinct(entries: seq<Entry>) {
    forall i, j | 0 <= i < j < |entries| :: entries[i].commit != entries[j].commit
  }

  ghost predicate Acceptable(entries: seq<Entry>) {
    && 0 < |entries| <= MAX_ENTRIES
    && (forall i | 0 <= i < |entries| :: Canonical(entries[i]))
    && Distinct(entries)
    && Utf8Size(Serialize(entries)) <= MAX_BYTES
  }

  lemma {:induction false} LoweredAt(s: string)
    ensures |Lowered(s)| == |s| && forall i | 0 <= i < |s| :: Lowered(s)[i] == LowerHex(s[i])
    decreases |s|
  {
    if s == "" {
    } else {
      LoweredAt(s[1..]);
      assert forall i | 0 < i < |s| :: Lowered(s)[i] == Lowered(s[1..])[i - 1] && s[1..][i - 1] == s[i];
    }
  }

  lemma LoweredSha(s: string)
    requires IsSha(s)
    ensures IsSha(Lowered(s)) && Lowered(Lowered(s)) == Lowered(s)
  {
    LoweredAt(s);
    LoweredAt(Lowered(s));
  }

  lemma ShaStripped(s: string)
    requires IsSha(s)
    ensures Strip(s) == s
  {
    assert IsHex(s[0]) && IsHex(s[|s| - 1]);
    StripOfStripped(s);
  }

  lemma GoodIsCanonical(item: Item)
    requires GoodItem(item)
    ensures Canonical(Entry(Key(item), Title(item)))
  {
    LoweredSha(StripOr(item.commit));
    StripStrips(item.title.value);
  }

  // ---- the accepted entries are the first occurrences ----

  ghost predicate Opens(items: seq<Item>, j: nat, e: Entry) {
    j < |items| && GoodItem(items[j]) && Earlier(items, j).None? && e == Entry(Key(items[j]), Title(items[j]))
  }

  ghost predicate Opened(items: seq<Item>, n: nat, e: Entry) {
    exists j: nat | j < n :: Opens(items, j, e)
  }

  ghost predicate Listed(item: Item, entries: seq<Entry>) {
    GoodItem(item) && Entry(Key(item), Title(item)) in entries
  }

  lemma {:induction false} EntriesOpen(items: seq<Item>, n: nat, k: nat)
    requires n <= |items| && k < |Entries(items, n)|
    ensures Opened(items, n, Entries(items, n)[k])
    decreases n
  {
    hide GoodItem, Earlier, Key, Title;
    if k < |Entries(items, n - 1)| {
      EntriesOpen(items, n - 1, k);
      var j: nat :| j < n - 1 && Opens(items, j, Entries(items, n)[k]);
    } else {
      assert Opens(items, n - 1, Entries(items, n)[k]);
    }
  }

  lemma EntriesCanonical(items: seq<Item>, n: nat)
    requires n <= |items|
    ensures forall k | 0 <= k < |Entries(items, n)| :: Canonical(Entries(items, n)[k])
  {
    forall k | 0 <= k < |Entries(items, n)| ensures Canonical(Entries(items, n)[k]) {
      EntriesOpen(items, n, k);
      var j: nat :| j < n && Opens(items, j, Entries(items, n)[k]);
      GoodIsCanonical(items[j]);
    }
  }

  lemma {:induction false} EntriesDistinct(items: seq<Item>, n: nat)
    requires n <= |items|
    ensures Distinct(Entries(items, n))
    decreases n
  {
    hide StripOr, Lowered, IsSha, SingleLine, FirstIndex;
    if n == 0 {
    } else {
      EntriesDistinct(items, n - 1);
      var before := Entries(items, n - 1);
      if Entries(items, n) != before {
        forall k | 0 <= k < |before| ensures before[k].commit != Key(items[n - 1]) {
          EntriesOpen(items, n - 1, k);
          var j: nat :| j < n - 1 && Opens(items, j, before[k]);
        }
      }
    }
  }

  lemma {:induction false} EntriesShort(items: seq<Item>, n: nat)
    requires n <= |items|
    ensures |Entries(items, n)| <= n
    decreases n
  {
    if n == 0 {
    } else {
      EntriesShort(items, n - 1);
    }
  }

  lemma {:induction false} NoErrors(items: seq<Item>, n: nat, i: nat)
    requires i < n <= |items| && Errors(items, n) == []
    ensures ItemErrors(items, i) == []
    decreases n
  {
    hide ItemErrors;
    if i < n - 1 { NoErrors(items, n - 1, i); }
  }

  lemma {:induction false} OpensEnters(items: seq<Item>, n: nat, i: nat)
    requires i < n <= |items| && GoodItem(items[i]) && Earlier(items, i).None?
    ensures Entry(Key(items[i]), Title(items[i])) in Entries(items, n)
    decreases n
  {
    hide GoodItem, Earlier, Key, Title;
    if i < n - 1 { OpensEnters(items, n - 1, i); }
  }

  lemma BadHasErrors(items: seq<Item>, i: nat)
    requires i < |items| && FormErrors(items, i) == []
    ensures GoodItem(items[i])
  {
    hide IsSha, Strip, SingleLine;
  }

  /** The first item under a key opens it. */
  lemma FirstOpens(items: seq<Item>, i: nat)
    requires i < |items| && GoodItem(items[i]) && Earlier(items, i).Some?
    ensures var j := FirstIndex(items, Key(items[i]), i).value;
            Key(items[j]) == Key(items[i]) && Earlier(items, j).None?
  {
    hide GoodItem, Key;
  }

  /** No submitted line is lost: every item of an error-free list is good and its entry is on the list. */
  lemma EveryItemListed(items: seq<Item>, i: nat)
    requires i < |items| && Errors(items, |items|) == []
    ensures Listed(items[i], Entries(items, |items|))
  {
    NoErrors(items, |items|, i);
    if !GoodItem(items[i]) { BadHasErrors(items, i); }
    hide GoodItem, Key, Title;
    if Earlier(items, i).None? {
      OpensEnters(items, |items|, i);
    } else {
      FirstOpens(items, i);
      OpensEnters(items, |items|, FirstIndex(items, Key(items[i]), i).value);
    }
  }

  /** Every item is well formed, and items with the same SHA, up to letter case, have the same title. */
  ghost predicate Coherent(items: seq<Item>, n: nat)
    requires n <= |items|
  {
    && (forall i | 0 <= i < n :: GoodItem(items[i]))
    && forall i, j | 0 <= i < j < n :: Agree(items[i], items[j])
  }

  predicate Agree(a: Item, b: Item)
    requires GoodItem(a) && GoodItem(b)
  {
    Key(a) == Key(b) ==> Title(a) == Title(b)
  }

  lemma FirstTitle(items: seq<Item>, i: nat, j: nat)
    requires i < j < |items| && GoodItem(items[i]) && GoodItem(items[j]) && ItemErrors(items, j) == []
    requires ItemErrors(items, i) == [] && Key(items[i]) == Key(items[j])
    ensures Title(items[i]) == Title(items[j])
  {
    var key := Key(items[j]);
    hide GoodItem, Key, Title, FirstIndex;
    if FirstIndex(items, key, j).value < i { FirstAgrees(items, key, i, j); }
  }

  lemma FirstAgrees(items: seq<Item>, key: string, i: nat, j: nat)
    requires i <= j <= |items| && FirstIndex(items, key, j).Some? && FirstIndex(items, key, j).value < i
    ensures FirstIndex(items, key, i) == FirstIndex(items, key, j)
  {
    hide GoodItem, Key;
  }

  lemma AgreeingItem(items: seq<Item>, n: nat)
    requires n < |items| && GoodItem(items[n])
    requires forall i | 0 <= i < n :: GoodItem(items[i]) && Agree(items[i], items[n])
    ensures ItemErrors(items, n) == []
  {
    hide GoodItem, Key, Title, FirstIndex;
  }

  lemma CleanItem(items: seq<Item>, m: nat, i: nat)
    requires i < m <= |items| && Errors(items, m) == []
    ensures GoodItem(items[i]) && ItemErrors(items, i) == []
  {
    hide Errors;
    NoErrors(items, m, i);
    if !GoodItem(items[i]) { BadHasErrors(items, i); }
  }

  lemma CleanPair(items: seq<Item>, i: nat, n: nat)
    requires i < n < |items| && GoodItem(items[i]) && GoodItem(items[n])
    requires ItemErrors(items, i) == [] && ItemErrors(items, n) == []
    ensures Agree(items[i], items[n])
  {
    hide Key, Title, ItemErrors, IsSha, Strip, SingleLine;
    if Key(items[i]) == Key(items[n]) { FirstTitle(items, i, n); }
  }

  lemma ErrorlessItem(items: seq<Item>, n: nat)
    requires n < |items| && Errors(items, n + 1) == []
    ensures GoodItem(items[n]) && forall i | 0 <= i < n :: GoodItem(items[i]) && Agree(items[i], items[n])
  {
    hide *;
    CleanItem(items, n + 1, n);
    forall i | 0 <= i < n ensures GoodItem(items[i]) && Agree(items[i], items[n]) {
      CleanItem(items, n + 1, i);
      CleanPair(items, i, n);
    }
  }

  lemma {:induction false} NoErrorsExactly(items: seq<Item>, n: nat)
    requires n <= |items|
    ensures Errors(items, n) == [] <==> Coherent(items, n)
    decreases n
  {
    hide GoodItem, Agree, ItemErrors;
    if n == 0 {
    } else {
      NoErrorsExactly(items, n - 1);
      if Errors(items, n) == [] { ErrorlessItem(items, n - 1); }
      if Coherent(items, n) { AgreeingItem(items, n - 1); }
    }
  }

  /** A list is accepted exactly when it has between one and 5000 items, all well formed and coherent, and its
      archived form fits in one MiB. */
  lemma ErrorFreeExactly(items: seq<Item>)
    ensures Validated(items).errors == [] <==>
            && 0 < |items| <= MAX_ENTRIES
            && Coherent(items, |items|)
            && Utf8Size(Serialize(Entries(items, |items|))) <= MAX_BYTES
  {
    hide Serialize, Utf8Size, Errors, Coherent;
    NoErrorsExactly(items, |items|);
    if items != [] && Errors(items, |items|) == [] {
      EveryItemListed(items, 0);
    }
  }

  /** The entries are those of the items: each item's is listed, and each listed one is some item's. */
  ghost predicate ListsAll(items: seq<Item>, entries: seq<Entry>) {
    && (forall i | 0 <= i < |items| :: Listed(items[i], entries))
    && (forall k | 0 <= k < |entries| :: Opened(items, |items|, entries[k]))
  }

  lemma NoErrorsCanonical(items: seq<Item>)
    requires 0 < |items| <= MAX_ENTRIES && Errors(items, |items|) == []
    requires Utf8Size(Serialize(Entries(items, |items|))) <= MAX_BYTES
    ensures Acceptable(Entries(items, |items|)) && ListsAll(items, Entries(items, |items|))
  {
    hide Errors, Entries, Serialize, Utf8Size, Canonical, Opened, Listed;
    var n := |items|;
    EntriesCanonical(items, n);
    EntriesDistinct(items, n);
    EntriesShort(items, n);
    forall i | 0 <= i < n ensures Listed(items[i], Entries(items, n)) {
      EveryItemListed(items, i);
    }
    forall k | 0 <= k < |Entries(items, n)| ensures Opened(items, n, Entries(items, n)[k]) {
      EntriesOpen(items, n, k);
    }
    SomethingListed(items[0], Entries(items, n));
  }

  lemma SomethingListed(item: Item, entries: seq<Entry>)
    requires Listed(item, entries)
    ensures entries != []
  {}

  /** An error-free list is canonical, has each SHA once, and holds exactly what was submitted. */
  lemma ErrorFreeIsCanonical(items: seq<Item>)
    ensures Validated(items).errors == [] ==>
              Acceptable(Validated(items).entries) && ListsAll(items, Validated(items).entries)
  {
    ErrorFreeExactly(items);
    NoErrorsExactly(items, |items|);
    hide Acceptable, ListsAll, Coherent, Errors, Entries, Warnings, Serialize, Utf8Size;
    if Validated(items).errors == [] { NoErrorsCanonical(items); }
  }

  // ---- fixed point ----

  /** Items that carry these entries unchanged, bare or with row numbers. */
  ghost predicate Carries(items: seq<Item>, entries: seq<Entry>) {
    |items| == |entries|
    && forall i | 0 <= i < |items| :: CarriesOne(items[i], entries[i])
  }

  predicate Reads(item: Item, e: Entry) {
    GoodItem(item) && Key(item) == e.commit && Title(item) == e.title
  }

  predicate CarriesOne(item: Item, e: Entry) {
    !item.Malformed? && item.commit == Some(e.commit) && item.title == Some(e.title)
  }

  lemma CarriedIsGood(item: Item, e: Entry)
    requires CarriesOne(item, e) && Canonical(e)
    ensures Reads(item, e)
  {
    ShaStripped(e.commit);
    StripOfStripped(e.title);
    hide Strip, IsSha, Lowered;
  }

  lemma CarriedIsNew(items: seq<Item>, entries: seq<Entry>, i: nat)
    requires Carries(items, entries) && i < |items| && Distinct(entries)
    requires forall k | 0 <= k < |entries| :: Canonical(entries[k])
    ensures Reads(items[i], entries[i]) && Earlier(items, i).None?
  {
    hide Canonical, CarriesOne, IsSha, Strip, Lowered, SingleLine;
    forall j | 0 <= j <= i ensures Reads(items[j], entries[j]) {
      CarriedIsGood(items[j], entries[j]);
    }
  }

  lemma CarriedStep(items: seq<Item>, entries: seq<Entry>, i: nat)
    requires i < |items| == |entries| && Reads(items[i], entries[i]) && Earlier(items, i).None?
    ensures Entries(items, i + 1) == Entries(items, i) + [entries[i]]
    ensures Errors(items, i + 1) == Errors(items, i) && Warnings(items, i + 1) == Warnings(items, i)
  {
    hide IsSha, Strip, Lowered, SingleLine, FirstIndex;
    NewItem(items, i);
  }

  lemma {:induction false} CarriedFolds(items: seq<Item>, entries: seq<Entry>, n: nat)
    requires Carries(items, entries) && n <= |items| && Distinct(entries)
    requires forall i | 0 <= i < |entries| :: Canonical(entries[i])
    ensures Entries(items, n) == entries[..n] && Errors(items, n) == [] && Warnings(items, n) == []
    decreases n
  {
    hide Canonical, CarriesOne, Distinct, Reads, Errors, Warnings, Entries, Earlier, GoodItem, Key, Title;
    if n == 0 {
      Nothing(items);
    } else {
      var i := n - 1;
      CarriedFolds(items, entries, i);
      CarriedIsNew(items, entries, i);
      CarriedStep(items, entries, i);
      assert entries[..n] == entries[..i] + [entries[i]];
    }
  }

  /** An acceptable list, however its rows are numbered, validates to itself without errors or warnings. */
  lemma FixedPoint(items: seq<Item>, entries: seq<Entry>)
    requires Acceptable(entries) && Carries(items, entries)
    ensures Validated(items) == Outcome(entries, [], [], [])
  {
    CarriedFolds(items, entries, |items|);
    assert entries[..|items|] == entries;
    hide Errors, Warnings, Entries, Serialize, Utf8Size;
  }

  /** Validating an error-free result again changes nothing. */
  lemma ValidationIdempotent(items: seq<Item>, again: seq<Item>)
    ensures Validated(items).errors == [] && Carries(again, Validated(items).entries) ==>
              Validated(again) == Validated(items).(warnings := [])
  {
    hide Validated, Acceptable, ListsAll;
    ErrorFreeIsCanonical(items);
    ValidatedHasNoRows(items);
    if Validated(items).errors == [] && Carries(again, Validated(items).entries) {
      FixedPoint(again, Validated(items).entries);
    }
  }

  lemma ValidatedHasNoRows(items: seq<Item>)
    ensures Validated(items).rows == []
  {
    hide Errors, Warnings, Entries, Serialize, Utf8Size;
  }

  // ---- the archived list is read back ----

  predicate Readable(e: Entry) {
    |e.commit| <= Csv.FIELD_LIMIT && |e.title| <= Csv.FIELD_LIMIT
  }

  predicate AllReadable(entries: seq<Entry>) {
    forall i | 0 <= i < |entries| :: Readable(entries[i])
  }

  function Table(entries: seq<Entry>, n: nat): seq<seq<string>>
    requires n <= |entries|
  {
    if n == 0 then [["commit_id", "commit_title"]]
    else Table(entries, n - 1) + [[entries[n - 1].commit, entries[n - 1].title]]
  }

  function AtRecord(rows: seq<seq<string>>): Csv.Reader {
    Csv.Reader(Csv.StartRecord, "", [], rows)
  }

  lemma {:induction false} ReadLines(entries: seq<Entry>, n: nat)
    requires n <= |entries|
    requires forall i | 0 <= i < |entries| :: Canonical(entries[i])
    ensures Csv.Feed(AtRecord([]), ',', HEADER + Lines(entries, n)) ==
            if forall i | 0 <= i < n :: Readable(entries[i]) then AtRecord(Table(entries, n)) else Csv.Failed
    decreases n
  {
    hide Csv.Feed, Csv.WriteRow, Canonical;
    if n == 0 {
      assert HEADER + "" == HEADER;
      Csv.ReadWrittenRow([], "commit_id", "commit_title");
      assert [] + [["commit_id", "commit_title"]] == [["commit_id", "commit_title"]];
    } else {
      ReadLines(entries, n - 1);
      var e := entries[n - 1];
      var line := Csv.WriteRow(e.commit, e.title);
      assert HEADER + Lines(entries, n) == HEADER + Lines(entries, n - 1) + line;
      Csv.FeedConcat(AtRecord([]), ',', HEADER + Lines(entries, n - 1), line);
      Csv.FailedStays(',', line);
      assert Canonical(e);
      assert e.commit != "" && e.title != "" by { NotEmpty(e); }
      Csv.ReadWrittenRow(Table(entries, n - 1), e.commit, e.title);
    }
  }

  lemma NotEmpty(e: Entry)
    requires Canonical(e)
    ensures e.commit != "" && e.title != ""
  {}

  /** The strict reader returns the archived table, unless some cell is over its field limit. */
  lemma ReadArchive(entries: seq<Entry>)
    requires forall i | 0 <= i < |entries| :: Canonical(entries[i])
    ensures Csv.ReadRows(Serialize(entries), ',') ==
            if AllReadable(entries) then Some(Table(entries, |entries|)) else None
  {
    hide Csv.Feed, Canonical, Readable;
    ReadLines(entries, |entries|);
  }

  function Row(entries: seq<Entry>, i: nat): seq<string>
    requires i <= |entries|
  {
    if i == 0 then ["commit_id", "commit_title"] else [entries[i - 1].commit, entries[i - 1].title]
  }

  lemma {:induction false} TableRows(entries: seq<Entry>, n: nat)
    requires n <= |entries|
    ensures |Table(entries, n)| == n + 1 && forall i | 0 <= i <= n :: Table(entries, n)[i] == Row(entries, i)
    decreases n
  {
    if n == 0 {
    } else {
      TableRows(entries, n - 1);
    }
  }

  lemma {:induction false} NumberedAll(rows: seq<seq<string>>, n: nat)
    requires n <= |rows| && forall i | 0 <= i < n :: !Blank(rows[i])
    ensures |Numbered(rows, n)| == n && forall i | 0 <= i < n :: Numbered(rows, n)[i] == NumberedRow(i + 1, rows[i])
    decreases n
  {
    hide Blank;
    if n == 0 {
    } else {
      NumberedAll(rows, n - 1);
    }
  }

  lemma NotBlank(e: Entry)
    requires Canonical(e)
    ensures !Blank([e.commit, e.title])
  {
    ShaStripped(e.commit);
    var row := [e.commit, e.title];
    assert Strip(row[0]) != "";
  }

  lemma HeaderReadable()
    ensures !Blank(["commit_id", "commit_title"])
  {
    var row := ["commit_id", "commit_title"];
    StripOfStripped(row[0]);
    assert Strip(row[0]) != "";
  }

  /** No line of an archived list is blank, so every line keeps its number. */
  lemma TableNumbered(entries: seq<Entry>)
    requires forall i | 0 <= i < |entries| :: Canonical(entries[i])
    ensures var rows := Table(entries, |entries|);
            var numbered := Numbered(rows, |rows|);
            |rows| == |numbered| == |entries| + 1
            && forall i | 0 <= i <= |entries| :: numbered[i] == NumberedRow(i + 1, Row(entries, i))
  {
    var n := |entries|;
    TableRows(entries, n);
    HeaderReadable();
    forall i | 0 <= i <= n ensures !Blank(Row(entries, i)) {
      if i > 0 { NotBlank(entries[i - 1]); }
    }
    hide Blank, Row;
    NumberedAll(Table(entries, n), n + 1);
  }

  // ---- round trip ----

  function PreviewOf(entries: seq<Entry>): seq<PreviewRow> {
    seq(|entries|, i requires 0 <= i < |entries| => PreviewRow(i + 2, entries[i].commit, entries[i].title))
  }

  function DataRows(entries: seq<Entry>): seq<NumberedRow> {
    seq(|entries|, i requires 0 <= i < |entries| => NumberedRow(i + 2, [entries[i].commit, entries[i].title]))
  }

  lemma {:induction false} DataFolds(entries: seq<Entry>, n: nat)
    requires n <= |entries|
    ensures var rows := DataRows(entries);
            && WidthErrors(rows, n) == []
            && Previews(rows, (0, 1), n) == PreviewOf(entries)[..n]
            && |RawItems(rows, (0, 1), n)| == n
            && forall i | 0 <= i < n ::
                 RawItems(rows, (0, 1), n)[i] == At(i + 2, Some(entries[i].commit), Some(entries[i].title))
    decreases n
  {
    if n == 0 {
    } else {
      DataFolds(entries, n - 1);
      assert PreviewOf(entries)[..n] == PreviewOf(entries)[..n - 1] + [PreviewOf(entries)[n - 1]];
    }
  }

  lemma AsciiHeader(s: string, n: nat, fold: Folding)
    requires n <= |s| && forall i | 0 <= i < |s| :: 'a' <= s[i] <= 'z' || s[i] == '_'
    ensures HeaderChars(s, n, fold) == Letters(s, n)
  {}

  function Letters(s: string, n: nat): string
    requires n <= |s|
  {
    if n == 0 then "" else Letters(s, n - 1) + if s[n - 1] == '_' then "" else [s[n - 1]]
  }

  lemma {:induction false} LettersSplit(a: string, b: string, n: nat)
    requires '_' !in a && '_' !in b && n <= |a| + 1 + |b|
    ensures Letters(a + "_" + b, n) == if n <= |a| then a[..n] else a + b[..n - |a| - 1]
    decreases n
  {
    if n == 0 {
    } else {
      LettersSplit(a, b, n - 1);
    }
  }

  lemma NormalizesTo(a: string, b: string, fold: Folding)
    requires a != "" && b != ""
    requires forall i | 0 <= i < |a| :: 'a' <= a[i] <= 'z'
    requires forall i | 0 <= i < |b| :: 'a' <= b[i] <= 'z'
    ensures NormalizeHeader(a + "_" + b, fold) == a + b
  {
    var s := a + "_" + b;
    StripOfStripped(s);
    hide Strip;
    AsciiHeader(s, |s|, fold);
    LettersSplit(a, b, |s|);
    hide Letters, HeaderChars;
    assert b[..|s| - |a| - 1] == b;
  }

  lemma ArchiveHeader(fold: Folding)
    ensures HeaderColumns(["commit_id", "commit_title"], fold) == Some((0, 1))
  {
    hide NormalizeHeader;
    NormalizesTo("commit", "id", fold);
    NormalizesTo("commit", "title", fold);
    assert "commit_id" == "commit" + "_" + "id" && "commit_title" == "commit" + "_" + "title";
    assert "commit" + "id" == "commitid" && "commit" + "title" == "committitle";
    HeaderNames();
  }

  lemma HeaderNames()
    ensures CommitHeader("commitid") && !TitleHeader("commitid")
    ensures TitleHeader("committitle") && !CommitHeader("committitle")
  {
    var id, title := "commitid", "committitle";
    assert |id| == 8 && |title| == 11;
    assert title[6] != "commithash"[6] && |"commithash"| == 10;
  }

  lemma HeaderRow(entries: seq<Entry>, fold: Folding)
    ensures HeaderColumns(Row(entries, 0), fold) == Some((0, 1))
  {
    hide HeaderColumns;
    ArchiveHeader(fold);
  }

  lemma EntryRow(entries: seq<Entry>, i: nat)
    requires 1 <= i <= |entries|
    ensures Row(entries, i) == [entries[i - 1].commit, entries[i - 1].title]
  {}

  lemma DataRow(entries: seq<Entry>, i: nat)
    requires i < |entries|
    ensures |DataRows(entries)| == |entries|
    ensures DataRows(entries)[i] == NumberedRow(i + 2, [entries[i].commit, entries[i].title])
  {}

  /** The archive's rows: its header, then one row per entry. */
  lemma HeaderAndData(entries: seq<Entry>)
    requires forall i | 0 <= i < |entries| :: Canonical(entries[i])
    ensures Numbered(Table(entries, |entries|), |Table(entries, |entries|)|) ==
            [NumberedRow(1, Row(entries, 0))] + DataRows(entries)
  {
    TableNumbered(entries);
    hide *;
    var numbered := Numbered(Table(entries, |entries|), |Table(entries, |entries|)|);
    forall i | 1 <= i <= |entries| ensures |DataRows(entries)| == |entries| && numbered[i] == DataRows(entries)[i - 1] {
      EntryRow(entries, i);
      DataRow(entries, i - 1);
    }
    if entries == [] { NoData(); }
  }

  lemma NoData()
    ensures DataRows([]) == []
  {}

  lemma OfTableWithHeader(rows: seq<seq<string>>, header: NumberedRow, data: seq<NumberedRow>, fold: Folding)
    requires Numbered(rows, |rows|) == [header] + data && HeaderColumns(header.cells, fold) == Some((0, 1))
    ensures OfTable(rows, fold) == OfRows(data, (0, 1))
  {
    hide HeaderColumns, OfRows, Numbered;
    assert ([header] + data)[1..] == data;
  }

  lemma HeaderSkipped(entries: seq<Entry>, fold: Folding)
    requires forall i | 0 <= i < |entries| :: Canonical(entries[i])
    ensures OfTable(Table(entries, |entries|), fold) == OfRows(DataRows(entries), (0, 1))
  {
    hide *;
    HeaderAndData(entries);
    HeaderRow(entries, fold);
    OfTableWithHeader(Table(entries, |entries|), NumberedRow(1, Row(entries, 0)), DataRows(entries), fold);
  }

  lemma DataImports(entries: seq<Entry>)
    requires Acceptable(entries)
    ensures OfRows(DataRows(entries), (0, 1)) == Outcome(entries, [], [], PreviewOf(entries))
  {
    var n, rows := |entries|, DataRows(entries);
    DataFolds(entries, n);
    assert PreviewOf(entries)[..n] == PreviewOf(entries);
    hide Acceptable, Validated, WidthErrors, Previews, RawItems;
    FixedPoint(RawItems(rows, (0, 1), n), entries);
  }

  /** The archived table imports as the entries it lists. */
  lemma TableImports(entries: seq<Entry>, fold: Folding)
    requires Acceptable(entries)
    ensures OfTable(Table(entries, |entries|), fold) == Outcome(entries, [], [], PreviewOf(entries))
  {
    HeaderSkipped(entries, fold);
    DataImports(entries);
    hide *;
  }

  lemma NoMark(entries: seq<Entry>)
    ensures WithoutMark(Serialize(entries)) == Serialize(entries)
  {
    hide Lines;
    var id := "commit_id";
    assert !Csv.NeedsQuotes(id);
    assert Csv.Quoted(id) == id;
  }

  lemma AcceptableReturns(entries: seq<Entry>, fold: Folding)
    requires Acceptable(entries)
    ensures Parsed(Decoded(Serialize(entries)), CommaSeparated, fold) ==
            if AllReadable(entries) then Outcome(entries, [], [], PreviewOf(entries))
            else Outcome([], [BadFormat], [], [])
  {
    ReadArchive(entries);
    TableImports(entries, fold);
    NoMark(entries);
    hide Canonical, Distinct, Utf8Size, OfTable, Lines, Serialize, WithoutMark, Csv.ReadRows, AllReadable, Table,
      PreviewOf;
  }

  /**
   The archived form of any accepted list is within the import's size limit and imports again as exactly that
   list, without errors or warnings, if and only if every cell is within the CSV reader's field limit; otherwise
   the import rejects the whole file as badly formed.
   */
  lemma RoundTrip(items: seq<Item>, fold: Folding)
    ensures var entries := Validated(items).entries;
            Validated(items).errors == [] ==>
              Parsed(Decoded(Serialize(entries)), CommaSeparated, fold) ==
              if AllReadable(entries) then Outcome(entries, [], [], PreviewOf(entries))
              else Outcome([], [BadFormat], [], [])
  {
    hide Validated, Parsed, Acceptable, ListsAll, Serialize, AllReadable, PreviewOf;
    ErrorFreeIsCanonical(items);
    if Validated(items).errors == [] { AcceptableReturns(Validated(items).entries, fold); }
  }

  // ---- a list that validates but cannot be imported again ----

  predicate Plainest(s: string) {
    forall i | 0 <= i < |s| :: (s[i] as int) < 0x80 && !Csv.Special(s[i])
  }

  lemma {:induction false} PlainSize(s: string)
    requires Plainest(s)
    ensures Utf8Size(s) == |s|
    decreases |s|
  {
    if s == "" {
    } else {
      assert forall i | 0 <= i < |s[1..]| :: s[1..][i] == s[i + 1];
      PlainSize(s[1..]);
    }
  }

  lemma {:induction false} SizeOfConcat(a: string, b: string)
    ensures Utf8Size(a + b) == Utf8Size(a) + Utf8Size(b)
    decreases |a|
  {
    if a == "" {
      assert a + b == b;
    } else {
      assert (a + b)[1..] == a[1..] + b;
      SizeOfConcat(a[1..], b);
    }
  }

  lemma SizeOfRow(a: string, b: string)
    requires Plainest(a) && Plainest(b)
    ensures Utf8Size(Csv.WriteRow(a, b)) == |a| + |b| + 3
  {
    assert Csv.WriteRow(a, b) == a + "," + b + "\r\n";
    SizeOfConcat(a + "," + b, "\r\n");
    SizeOfConcat(a + ",", b);
    SizeOfConcat(a, ",");
    PlainSize(a);
    PlainSize(b);
    var comma, end := ",", "\r\n";
    assert comma[1..] == "" && end[1..][1..] == "";
  }

  lemma SizeOfOne(e: Entry)
    requires Plainest(e.commit) && Plainest(e.title)
    ensures Utf8Size(Serialize([e])) == |e.commit| + |e.title| + 27
  {
    SizeOfRow("commit_id", "commit_title");
    SizeOfRow(e.commit, e.title);
    hide Csv.WriteRow, Utf8Size;
    var row := Csv.WriteRow(e.commit, e.title);
    assert Lines([e], 0) == "";
    assert Lines([e], 1) == Lines([e], 0) + row == row;
    SizeOfConcat(HEADER, row);
  }

  lemma LongTitlesDoNotReturn(e: Entry, fold: Folding)
    requires Canonical(e) && Plainest(e.commit) && Plainest(e.title)
    requires |e.title| > Csv.FIELD_LIMIT && |e.commit| + |e.title| + 27 <= MAX_BYTES
    ensures var items := [Plain(Some(e.commit), Some(e.title))];
            && Validated(items).errors == []
            && Parsed(Decoded(Serialize(Validated(items).entries)), CommaSeparated, fold)
               == Outcome([], [BadFormat], [], [])
  {
    var items := [Plain(Some(e.commit), Some(e.title))];
    SizeOfOne(e);
    hide Canonical, Plainest, Utf8Size, Serialize;
    assert CarriesOne(items[0], [e][0]);
    FixedPoint(items, [e]);
    assert !Readable([e][0]);
    hide Validated, Parsed;
    AcceptableReturns([e], fold);
  }

  function LongTitle(): string {
    seq(Csv.FIELD_LIMIT + 1, _ => 'x')
  }

  /** One valid commit with a title of 131073 characters: accepted, archived, and refused when imported back. */
  lemma LongTitleDoesNotReturn(fold: Folding)
    ensures var items := [Plain(Some("abcdef0"), Some(LongTitle()))];
            && Validated(items).errors == []
            && Parsed(Decoded(Serialize(Validated(items).entries)), CommaSeparated, fold)
               == Outcome([], [BadFormat], [], [])
  {
    var e := Entry("abcdef0", LongTitle());
    LongIsCanonical(e);
    hide Validated, Parsed, Serialize, Canonical, LongTitle, Plainest;
    LongTitlesDoNotReturn(e, fold);
  }

  lemma LongIsCanonical(e: Entry)
    requires e == Entry("abcdef0", LongTitle())
    ensures Canonical(e) && Plainest(e.commit) && Plainest(e.title)
    ensures |e.commit| == 7 && |e.title| == Csv.FIELD_LIMIT + 1
  {
    hide Lowered;
    LoweredAt(e.commit);
    assert Lowered(e.commit) == e.commit;
  }
}
