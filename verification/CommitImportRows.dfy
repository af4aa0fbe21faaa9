/**
 What the commit-list import says of every item and of every row: which ones are wrong and how, which ones repeat
 an earlier one, and which ones enter the list.
 */
module CommitImportRows {
  import opened Text
  import opened CommitImport
  import opened CommitImportProofs
  import Csv

  // ---- one item ----

  /** A commit id of at least seven hexadecimal digits. */
  predicate Sha(s: string) {
    |s| >= 7 && forall i | 0 <= i < |s| :: s[i] in "0123456789abcdefABCDEF"
  }

  predicate LineBreak(s: string) {
    exists i | 0 <= i < |s| :: s[i] == '\n' || s[i] == '\r'
  }

  /** The text of a field without the white space around it; a field that is no string has none. */
  function Word(field: Option<string>): string {
    if field.Some? then Strip(field.value) else ""
  }

  predicate Sound(item: Item) {
    !item.Malformed? && Sha(Word(item.commit)) && Word(item.title) != "" && !LineBreak(Word(item.title))
  }

  predicate SameDigit(a: char, b: char) {
    a == b || ('A' <= a <= 'F' && b as int == a as int + 32) || ('A' <= b <= 'F' && a as int == b as int + 32)
  }

  /** The same digits up to letter case. */
  predicate SameSha(a: string, b: string) {
    |a| == |b| && forall i | 0 <= i < |a| :: SameDigit(a[i], b[i])
  }

  /** The row an item is reported under: its own, or its position counted from 1. */
  function RowNumber(items: seq<Item>, i: nat): int
    requires i < |items|
  {
    if items[i].At? then items[i].row else i + 1
  }

  /** Item k is sound and has the SHA of item i. */
  predicate Twin(items: seq<Item>, i: nat, k: nat)
    requires i < |items| && Sound(items[i]) && k < |items|
  {
    Sound(items[k]) && SameSha(Word(items[i].commit), Word(items[k].commit))
  }

  /** Item j is the first sound item with the SHA of item i, and stands before it. */
  ghost predicate FirstOf(items: seq<Item>, i: nat, j: nat) {
    && j < i < |items| && Sound(items[i]) && Twin(items, i, j)
    && forall k | 0 <= k < j :: !Twin(items, i, k)
  }

  /** No sound item before item i has its SHA. */
  ghost predicate Fresh(items: seq<Item>, i: nat) {
    i < |items| && Sound(items[i]) && forall k | 0 <= k < i :: !Twin(items, i, k)
  }

  // ---- what is said of an item ----

  /** The first sound item with this SHA, in that row, has another title. */
  ghost predicate Conflicts(items: seq<Item>, i: nat, firstRow: int)
    requires i < |items|
  {
    exists j: nat :: FirstOf(items, i, j) && firstRow == RowNumber(items, j) && !SameTitle(items[i], items[j])
  }

  predicate SameTitle(a: Item, b: Item)
    requires !a.Malformed? && !b.Malformed?
  {
    Word(a.title) == Word(b.title)
  }

  ghost predicate Wrong(items: seq<Item>, i: nat, p: Problem)
    requires i < |items|
  {
    var item, row := items[i], RowNumber(items, i);
    match p
    case NotAnEntry(r) => r == row && item.Malformed?
    case BadSha(r) => r == row && !item.Malformed? && !Sha(Word(item.commit))
    case EmptyTitle(r) => r == row && !item.Malformed? && Word(item.title) == ""
    case MultilineTitle(r) => r == row && !item.Malformed? && LineBreak(Word(item.title))
    case TitleConflict(r, s) => r == row && Conflicts(items, i, s)
    case _ => false
  }

  ghost predicate Repeats(items: seq<Item>, i: nat, w: Duplicate)
    requires i < |items|
  {
    w.row == RowNumber(items, i)
    && exists j: nat :: FirstOf(items, i, j) && w.firstRow == RowNumber(items, j) && SameTitle(items[i], items[j])
  }

  /** The entry has the item's SHA in lower case and its title. */
  ghost predicate Enters(items: seq<Item>, i: nat, e: Entry) {
    Fresh(items, i) && SameSha(Word(items[i].commit), e.commit) && e.title == Word(items[i].title)
    && forall k | 0 <= k < |e.commit| :: e.commit[k] in "0123456789abcdef"
  }

  // ---- the lists that are made of them ----

  /** Each problem of the first n items once, item by item; of one item, the SHA's before the title's. */
  ghost predicate AllWrong(items: seq<Item>, n: nat, problems: seq<Problem>, of: seq<nat>)
    requires n <= |items|
  {
    && |of| == |problems|
    && (forall k | 0 <= k < |of| :: of[k] < n && Wrong(items, of[k], problems[k]))
    && InTurn(problems, of)
    && forall i: nat, p | i < n && Wrong(items, i, p) :: Says(problems, of, i, p)
  }

  predicate InTurn(problems: seq<Problem>, of: seq<nat>)
    requires |of| == |problems|
  {
    forall a, b | 0 <= a < b < |of| ::
      of[a] < of[b] || (of[a] == of[b] && problems[a].BadSha? && !problems[b].BadSha?)
  }

  ghost predicate Says<T(!new)>(said: seq<T>, of: seq<nat>, i: nat, p: T) {
    exists k | 0 <= k < |of| && k < |said| :: of[k] == i && said[k] == p
  }

  ghost predicate AllRepeats(items: seq<Item>, n: nat, warnings: seq<Duplicate>, of: seq<nat>)
    requires n <= |items|
  {
    && |of| == |warnings|
    && (forall k | 0 <= k < |of| :: of[k] < n && Repeats(items, of[k], warnings[k]))
    && Rising(of)
    && forall i: nat, w | i < n && Repeats(items, i, w) :: Says(warnings, of, i, w)
  }

  ghost predicate AllEnter(items: seq<Item>, n: nat, entries: seq<Entry>, of: seq<nat>)
    requires n <= |items|
  {
    && |of| == |entries|
    && (forall k | 0 <= k < |of| :: of[k] < n && Enters(items, of[k], entries[k]))
    && Rising(of)
    && forall i: nat, e | i < n && Enters(items, i, e) :: Says(entries, of, i, e)
  }

  // ---- the model's words for the same things ----

  lemma HexIs(c: char)
    ensures IsHex(c) <==> c in "0123456789abcdefABCDEF"
    ensures IsHex(c) ==> LowerHex(c) in "0123456789abcdef" && SameDigit(c, LowerHex(c))
  {
    var digits := "0123456789abcdefABCDEF";
    if IsHex(c) {
      var at := if '0' <= c <= '9' then c as int - 48 else if 'a' <= c then c as int - 87 else c as int - 65 + 16;
      assert digits[at] == c;
      var low := "0123456789abcdef";
      assert low[if at >= 16 then at - 6 else at] == LowerHex(c);
    }
  }

  lemma ShaIs(s: string)
    ensures Sha(s) <==> IsSha(s)
  {
    forall i | 0 <= i < |s| ensures IsHex(s[i]) <==> s[i] in "0123456789abcdefABCDEF" { HexIs(s[i]); }
  }

  lemma SameDigitIs(a: char, b: char)
    requires IsHex(a) && IsHex(b)
    ensures SameDigit(a, b) <==> LowerHex(a) == LowerHex(b)
  {}

  lemma SameShaIs(a: string, b: string)
    requires Sha(a) && Sha(b)
    ensures SameSha(a, b) <==> Lowered(a) == Lowered(b)
  {
    LoweredAt(a);
    LoweredAt(b);
    ShaIs(a);
    ShaIs(b);
    hide Lowered, Sha, SameDigit, LowerHex, IsHex;
    forall i | 0 <= i < |a| && i < |b| ensures SameDigit(a[i], b[i]) <==> LowerHex(a[i]) == LowerHex(b[i]) {
      SameDigitIs(a[i], b[i]);
    }
    if |a| == |b| {
      assert Lowered(a) == Lowered(b) <==> forall i | 0 <= i < |a| :: Lowered(a)[i] == Lowered(b)[i];
    }
  }

  lemma LoweredIs(a: string, key: string)
    requires Sha(a)
    ensures key == Lowered(a) <==> SameSha(a, key) && forall k | 0 <= k < |key| :: key[k] in "0123456789abcdef"
  {
    LoweredAt(a);
    ShaIs(a);
    var low := Lowered(a);
    hide Lowered;
    forall i | 0 <= i < |a| ensures low[i] in "0123456789abcdef" && SameDigit(a[i], low[i]) {
      HexIs(a[i]);
      assert IsHex(a[i]);
    }
    if SameSha(a, key) && forall k | 0 <= k < |key| :: key[k] in "0123456789abcdef" {
      forall i | 0 <= i < |a| ensures key[i] == low[i] {
        assert SameDigit(a[i], key[i]) && key[i] in "0123456789abcdef" && low[i] in "0123456789abcdef";
      }
    }
  }

  lemma LineBreakIs(s: string)
    ensures LineBreak(s) <==> !SingleLine(s)
  {
    if '\n' in s {
      var i :| 0 <= i < |s| && s[i] == '\n';
    } else if '\r' in s {
      var i :| 0 <= i < |s| && s[i] == '\r';
    }
  }

  lemma SoundIs(item: Item)
    ensures Sound(item) <==> GoodItem(item)
    ensures !item.Malformed? ==> Key(item) == Lowered(Word(item.commit)) && Title(item) == Word(item.title)
  {
    if !item.Malformed? {
      ShaIs(Word(item.commit));
      LineBreakIs(Word(item.title));
    }
    hide IsSha, Sha, LineBreak, SingleLine, Strip, Lowered;
  }

  lemma TwinIs(items: seq<Item>, i: nat, k: nat)
    requires i < |items| && Sound(items[i]) && k < |items|
    ensures GoodItem(items[i]) && (Twin(items, i, k) <==> GoodItem(items[k]) && Key(items[k]) == Key(items[i]))
  {
    SoundIs(items[i]);
    SoundIs(items[k]);
    if Sound(items[k]) {
      SoundSha(items[i]);
      SoundSha(items[k]);
      SameShaIs(Word(items[i].commit), Word(items[k].commit));
    }
    hide Sound, SameSha, Sha, Lowered, Word, GoodItem, Key;
  }

  lemma SoundSha(item: Item)
    requires Sound(item)
    ensures Sha(Word(item.commit))
  {}

  lemma FreshIs(items: seq<Item>, i: nat)
    requires i < |items| && GoodItem(items[i])
    ensures Fresh(items, i) <==> Earlier(items, i).None?
  {
    SoundIs(items[i]);
    forall k | 0 <= k < i ensures Twin(items, i, k) <==> GoodItem(items[k]) && Key(items[k]) == Key(items[i]) {
      TwinIs(items, i, k);
    }
    hide Sound, GoodItem, Twin, Key, Title;
  }

  predicate Keyed(items: seq<Item>, key: string, k: nat) {
    k < |items| && GoodItem(items[k]) && Key(items[k]) == key
  }

  ghost predicate FirstKeyed(items: seq<Item>, key: string, n: nat, j: nat) {
    j < n && Keyed(items, key, j) && forall k: nat | k < j :: !Keyed(items, key, k)
  }

  lemma FirstIndexIs(items: seq<Item>, key: string, n: nat, j: nat)
    requires n <= |items|
    ensures FirstIndex(items, key, n) == Some(j) <==> FirstKeyed(items, key, n, j)
  {
    hide GoodItem, Key;
    if FirstKeyed(items, key, n, j) { FirstKeyedFound(items, key, n, j); }
  }

  lemma FirstKeyedFound(items: seq<Item>, key: string, n: nat, j: nat)
    requires n <= |items| && FirstKeyed(items, key, n, j)
    ensures FirstIndex(items, key, n) == Some(j)
  {
    var found := FirstIndex(items, key, n);
    hide GoodItem, Key, FirstIndex;
    assert found.Some?;
    assert Keyed(items, key, found.value);
  }

  lemma TwinIsKeyed(items: seq<Item>, i: nat, k: nat)
    requires i < |items| && Sound(items[i]) && k < |items|
    ensures GoodItem(items[i]) && (Twin(items, i, k) <==> Keyed(items, Key(items[i]), k))
  {
    TwinIs(items, i, k);
    hide GoodItem, Key, Twin, Sound;
  }

  lemma FirstIs(items: seq<Item>, i: nat, j: nat)
    requires i < |items| && GoodItem(items[i])
    ensures FirstOf(items, i, j) <==> FirstKeyed(items, Key(items[i]), i, j)
  {
    SoundIs(items[i]);
    hide Twin, Keyed, Key, GoodItem, Sound;
    forall k: nat | k < i ensures Twin(items, i, k) <==> Keyed(items, Key(items[i]), k) { TwinIsKeyed(items, i, k); }
  }

  lemma FirstFound(items: seq<Item>, i: nat, j: nat)
    requires i < |items| && FirstOf(items, i, j)
    ensures GoodItem(items[i]) && FirstIndex(items, Key(items[i]), i) == Some(j)
  {
    SoundIs(items[i]);
    hide FirstKeyed, GoodItem, Twin;
    FirstIs(items, i, j);
    FirstIndexIs(items, Key(items[i]), i, j);
  }

  lemma FirstMade(items: seq<Item>, i: nat, j: nat)
    requires i < |items| && GoodItem(items[i]) && FirstIndex(items, Key(items[i]), i) == Some(j)
    ensures FirstOf(items, i, j)
  {
    hide FirstKeyed, FirstOf, Key, FirstIndex, IsSha, Strip;
    FirstIs(items, i, j);
    FirstIndexIs(items, Key(items[i]), i, j);
  }

  /** The item that the model names as the first one, with its row and title. */
  lemma EarlierIs(items: seq<Item>, i: nat, j: nat)
    requires i < |items| && FirstOf(items, i, j)
    ensures GoodItem(items[i]) && !items[j].Malformed?
            && Earlier(items, i) == Some((RowNumber(items, j), Word(items[j].title)))
  {
    FirstFound(items, i, j);
    hide GoodItem, Key, FirstOf;
    SoundIs(items[j]);
  }

  lemma SomeFirst(items: seq<Item>, i: nat)
    requires i < |items| && GoodItem(items[i]) && Earlier(items, i).Some?
    ensures exists j: nat :: FirstOf(items, i, j)
  {
    var j := FirstIndex(items, Key(items[i]), i).value;
    FirstMade(items, i, j);
    hide GoodItem, Key, FirstOf;
  }

  lemma RowNumberIs(items: seq<Item>, i: nat)
    requires i < |items|
    ensures RowNumber(items, i) == RowOf(items, i)
  {}

  /** The problems of one item, in the order they are reported. */
  ghost predicate ItemSays(items: seq<Item>, i: nat, batch: seq<Problem>)
    requires i < |items|
  {
    && |batch| <= 2 && (|batch| == 2 ==> batch[0].BadSha? && !batch[1].BadSha?)
    && forall p :: Wrong(items, i, p) <==> p in batch
  }

  lemma NoConflict(items: seq<Item>, i: nat, p: Problem)
    requires i < |items| && !Sound(items[i])
    ensures p.TitleConflict? ==> !Wrong(items, i, p)
  {}

  lemma FormSays(items: seq<Item>, i: nat)
    requires i < |items| && !GoodItem(items[i])
    ensures ItemSays(items, i, FormErrors(items, i))
  {
    var item := items[i];
    SoundIs(item);
    if !item.Malformed? {
      ShaIs(Word(item.commit));
      LineBreakIs(Word(item.title));
    }
    hide Sound, Sha, IsSha, LineBreak, SingleLine, Strip, FirstOf;
    forall p ensures Wrong(items, i, p) <==> p in FormErrors(items, i) { NoConflict(items, i, p); }
  }

  lemma SoundWrong(items: seq<Item>, i: nat, p: Problem)
    requires i < |items| && Sound(items[i])
    ensures Wrong(items, i, p) ==> p.TitleConflict?
  {}

  lemma ConflictIs(items: seq<Item>, i: nat, firstRow: int)
    requires i < |items| && GoodItem(items[i])
    ensures var e := Earlier(items, i);
            Conflicts(items, i, firstRow) <==> e.Some? && e.value.0 == firstRow && e.value.1 != Title(items[i])
  {
    SoundIs(items[i]);
    if Earlier(items, i).Some? {
      SomeFirst(items, i);
      var j: nat :| FirstOf(items, i, j);
      EarlierIs(items, i, j);
    }
    hide Earlier, GoodItem, FirstOf, Title, Word;
    forall j: nat | FirstOf(items, i, j)
      ensures Earlier(items, i) == Some((RowNumber(items, j), Word(items[j].title)))
    {
      EarlierIs(items, i, j);
    }
  }

  lemma RepeatIs(items: seq<Item>, i: nat, w: Duplicate)
    requires i < |items| && GoodItem(items[i])
    ensures var e := Earlier(items, i);
            Repeats(items, i, w) <==>
            e.Some? && w == Duplicate(RowOf(items, i), e.value.0) && e.value.1 == Title(items[i])
  {
    SoundIs(items[i]);
    if Earlier(items, i).Some? {
      SomeFirst(items, i);
      var j: nat :| FirstOf(items, i, j);
      EarlierIs(items, i, j);
    }
    hide Earlier, GoodItem, FirstOf, Title, Word;
    forall j: nat | FirstOf(items, i, j)
      ensures Earlier(items, i) == Some((RowNumber(items, j), Word(items[j].title)))
    {
      EarlierIs(items, i, j);
    }
  }

  lemma SoundSays(items: seq<Item>, i: nat)
    requires i < |items| && GoodItem(items[i])
    ensures ItemSays(items, i, ItemErrors(items, i))
  {
    GoodErrors(items, i);
    hide Wrong, GoodItem, ItemErrors;
    forall p ensures Wrong(items, i, p) <==> p in ItemErrors(items, i) { SoundSaysOne(items, i, p); }
  }

  lemma ConflictSays(items: seq<Item>, i: nat, p: Problem)
    requires i < |items| && p.TitleConflict?
    ensures Wrong(items, i, p) <==> p.row == RowOf(items, i) && Conflicts(items, i, p.firstRow)
  {
    RowNumberIs(items, i);
    hide Conflicts;
  }

  lemma SoundSaysOne(items: seq<Item>, i: nat, p: Problem)
    requires i < |items| && GoodItem(items[i])
    ensures Wrong(items, i, p) <==> p in ItemErrors(items, i)
  {
    SoundIs(items[i]);
    hide Wrong, Conflicts, Sound, GoodItem, Earlier, Title, ItemErrors;
    GoodSays(items, i, p);
    if p.TitleConflict? {
      ConflictIs(items, i, p.firstRow);
      ConflictSays(items, i, p);
    } else {
      SoundWrong(items, i, p);
    }
  }

  lemma GoodSays(items: seq<Item>, i: nat, p: Problem)
    requires i < |items| && GoodItem(items[i])
    ensures p in ItemErrors(items, i) <==>
            p.TitleConflict? && p.row == RowOf(items, i) && Earlier(items, i).Some?
            && Earlier(items, i).value.0 == p.firstRow && Earlier(items, i).value.1 != Title(items[i])
  {
    hide GoodItem, Earlier, Title;
  }

  lemma GoodErrors(items: seq<Item>, i: nat)
    requires i < |items| && GoodItem(items[i])
    ensures |ItemErrors(items, i)| <= 1 && forall p | p in ItemErrors(items, i) :: p.TitleConflict?
  {
    hide GoodItem, Earlier, Title;
  }

  lemma EveryItemSays(items: seq<Item>, i: nat)
    requires i < |items|
    ensures ItemSays(items, i, ItemErrors(items, i))
  {
    if GoodItem(items[i]) {
      SoundSays(items, i);
    } else {
      FormSays(items, i);
      hide GoodItem, FormErrors;
    }
  }

  lemma ItemRepeats(items: seq<Item>, i: nat)
    requires i < |items|
    ensures |ItemWarnings(items, i)| <= 1 && forall w :: Repeats(items, i, w) <==> w in ItemWarnings(items, i)
  {
    SoundIs(items[i]);
    hide Earlier, Title, Sound;
    if GoodItem(items[i]) {
      hide GoodItem, Repeats;
      forall w ensures Repeats(items, i, w) <==> w in ItemWarnings(items, i) { RepeatIs(items, i, w); }
    } else {
      hide GoodItem;
      forall w ensures !Repeats(items, i, w) { NoRepeat(items, i, w); }
    }
  }

  lemma NoRepeat(items: seq<Item>, i: nat, w: Duplicate)
    requires i < |items| && !Sound(items[i])
    ensures !Repeats(items, i, w)
  {}

  lemma EnterIs(items: seq<Item>, i: nat, e: Entry)
    requires i < |items| && GoodItem(items[i])
    ensures Enters(items, i, e) <==> Earlier(items, i).None? && e == Entry(Key(items[i]), Title(items[i]))
  {
    SoundIs(items[i]);
    FreshIs(items, i);
    SoundSha(items[i]);
    LoweredIs(Word(items[i].commit), e.commit);
    hide GoodItem, Fresh, Title, Key, Earlier, Word, SameSha, Sha, Sound;
  }

  lemma ItemEnters(items: seq<Item>, i: nat)
    requires i < |items|
    ensures |ItemEntries(items, i)| <= 1 && forall e :: Enters(items, i, e) <==> e in ItemEntries(items, i)
  {
    SoundIs(items[i]);
    hide Earlier, Title, Key, Sound;
    if GoodItem(items[i]) {
      hide GoodItem, Enters;
      forall e: Entry ensures Enters(items, i, e) <==> e in ItemEntries(items, i) { EnterIs(items, i, e); }
    } else {
      hide GoodItem;
      forall e ensures !Enters(items, i, e) { NoEntry(items, i, e); }
    }
  }

  lemma NoEntry(items: seq<Item>, i: nat, e: Entry)
    requires i < |items| && !Sound(items[i])
    ensures !Enters(items, i, e)
  {}

  // ---- the whole list ----

  lemma SaysMore<T(!new)>(said: seq<T>, of: seq<nat>, more: seq<T>, moreOf: seq<nat>, i: nat, p: T)
    requires |of| == |said| && (Says(said, of, i, p) || Says(more, moreOf, i, p))
    ensures Says(said + more, of + moreOf, i, p)
  {
    if Says(said, of, i, p) {
      var k :| 0 <= k < |of| && k < |said| && of[k] == i && said[k] == p;
      assert (of + moreOf)[k] == i && (said + more)[k] == p;
    } else {
      var k :| 0 <= k < |moreOf| && k < |more| && moreOf[k] == i && more[k] == p;
      assert (of + moreOf)[|of| + k] == i && (said + more)[|said| + k] == p;
    }
  }

  /** The positions of a batch that item n adds. */
  function Of(n: nat, batch: nat): (of: seq<nat>)
    ensures |of| == batch && forall k | 0 <= k < batch :: of[k] == n
  {
    seq(batch, _ => n)
  }

  lemma SaysHere<T(!new)>(said: seq<T>, of: seq<nat>, batch: seq<T>, n: nat, p: T)
    requires |of| == |said| && p in batch
    ensures Says(said + batch, of + Of(n, |batch|), n, p)
  {
    var k :| 0 <= k < |batch| && batch[k] == p;
    assert Says(batch, Of(n, |batch|), n, p);
    SaysMore(said, of, batch, Of(n, |batch|), n, p);
  }

  lemma InTurnNext(problems: seq<Problem>, of: seq<nat>, n: nat, batch: seq<Problem>)
    requires |of| == |problems| && InTurn(problems, of) && forall k | 0 <= k < |of| :: of[k] < n
    requires |batch| <= 2 && (|batch| == 2 ==> batch[0].BadSha? && !batch[1].BadSha?)
    ensures InTurn(problems + batch, of + Of(n, |batch|))
  {}

  lemma WrongNext(items: seq<Item>, n: nat, problems: seq<Problem>, of: seq<nat>, batch: seq<Problem>)
    requires n < |items| && AllWrong(items, n, problems, of) && ItemSays(items, n, batch)
    ensures AllWrong(items, n + 1, problems + batch, of + Of(n, |batch|))
  {
    var all, owners := problems + batch, of + Of(n, |batch|);
    InTurnNext(problems, of, n, batch);
    hide Wrong, Says, InTurn;
    forall k | 0 <= k < |owners| ensures owners[k] < n + 1 && Wrong(items, owners[k], all[k]) {
      if k >= |of| { assert all[k] in batch; }
    }
    forall i: nat, p | i < n + 1 && Wrong(items, i, p) ensures Says(all, owners, i, p) {
      if i == n {
        SaysHere(problems, of, batch, n, p);
      } else {
        SaysMore(problems, of, batch, Of(n, |batch|), i, p);
      }
    }
  }

  lemma RisingNext(of: seq<nat>, n: nat, batch: nat)
    requires Rising(of) && batch <= 1 && forall k | 0 <= k < |of| :: of[k] < n
    ensures Rising(of + Of(n, batch))
  {}

  lemma RepeatsNext(items: seq<Item>, n: nat, warnings: seq<Duplicate>, of: seq<nat>, batch: seq<Duplicate>)
    requires n < |items| && AllRepeats(items, n, warnings, of)
    requires |batch| <= 1 && forall w :: Repeats(items, n, w) <==> w in batch
    ensures AllRepeats(items, n + 1, warnings + batch, of + Of(n, |batch|))
  {
    var all, owners := warnings + batch, of + Of(n, |batch|);
    RisingNext(of, n, |batch|);
    hide Rising, Word, Repeats, Says;
    forall k | 0 <= k < |owners| ensures owners[k] < n + 1 && Repeats(items, owners[k], all[k]) {
      if k >= |of| { assert all[k] in batch; }
    }
    forall i: nat, w | i < n + 1 && Repeats(items, i, w) ensures Says(all, owners, i, w) {
      if i == n {
        SaysHere(warnings, of, batch, n, w);
      } else {
        SaysMore(warnings, of, batch, Of(n, |batch|), i, w);
      }
    }
  }

  lemma EnterNext(items: seq<Item>, n: nat, entries: seq<Entry>, of: seq<nat>, batch: seq<Entry>)
    requires n < |items| && AllEnter(items, n, entries, of)
    requires |batch| <= 1 && forall e :: Enters(items, n, e) <==> e in batch
    ensures AllEnter(items, n + 1, entries + batch, of + Of(n, |batch|))
  {
    var all, owners := entries + batch, of + Of(n, |batch|);
    RisingNext(of, n, |batch|);
    hide Rising, Word, Enters, Says;
    forall k | 0 <= k < |owners| ensures owners[k] < n + 1 && Enters(items, owners[k], all[k]) {
      if k >= |of| { assert all[k] in batch; }
    }
    forall i: nat, e | i < n + 1 && Enters(items, i, e) ensures Says(all, owners, i, e) {
      if i == n {
        SaysHere(entries, of, batch, n, e);
      } else {
        SaysMore(entries, of, batch, Of(n, |batch|), i, e);
      }
    }
  }

  /** Every problem, repetition and entry of the first n items is on its list, once and in order. */
  lemma {:induction false} ListsExactly(items: seq<Item>, n: nat)
    returns (wrong: seq<nat>, repeated: seq<nat>, entered: seq<nat>)
    requires n <= |items|
    ensures AllWrong(items, n, Errors(items, n), wrong) && AllRepeats(items, n, Warnings(items, n), repeated)
    ensures AllEnter(items, n, Entries(items, n), entered)
    decreases n
  {
    hide *;
    if n == 0 {
      wrong, repeated, entered := [], [], [];
      NothingListed(items);
    } else {
      wrong, repeated, entered := ListsExactly(items, n - 1);
      EveryItemSays(items, n - 1);
      ItemRepeats(items, n - 1);
      ItemEnters(items, n - 1);
      ListsNext(items, n - 1);
      WrongNext(items, n - 1, Errors(items, n - 1), wrong, ItemErrors(items, n - 1));
      RepeatsNext(items, n - 1, Warnings(items, n - 1), repeated, ItemWarnings(items, n - 1));
      EnterNext(items, n - 1, Entries(items, n - 1), entered, ItemEntries(items, n - 1));
      wrong := wrong + Of(n - 1, |ItemErrors(items, n - 1)|);
      repeated := repeated + Of(n - 1, |ItemWarnings(items, n - 1)|);
      entered := entered + Of(n - 1, |ItemEntries(items, n - 1)|);
    }
  }

  lemma NothingListed(items: seq<Item>)
    ensures AllWrong(items, 0, Errors(items, 0), []) && AllRepeats(items, 0, Warnings(items, 0), [])
    ensures AllEnter(items, 0, Entries(items, 0), [])
  {}

  lemma ListsNext(items: seq<Item>, n: nat)
    requires n < |items|
    ensures Errors(items, n + 1) == Errors(items, n) + ItemErrors(items, n)
    ensures Warnings(items, n + 1) == Warnings(items, n) + ItemWarnings(items, n)
    ensures Entries(items, n + 1) == Entries(items, n) + ItemEntries(items, n)
  {}

  lemma Limits()
    ensures MAX_ENTRIES == 5000 && MAX_BYTES == 1024 * 1024
  {}

  /** The verdict on a list of items, from what is said of each of them. */
  lemma ValidatedExactly(items: seq<Item>)
    returns (problems: seq<Problem>, warnings: seq<Duplicate>, entries: seq<Entry>,
             wrong: seq<nat>, repeated: seq<nat>, entered: seq<nat>)
    ensures AllWrong(items, |items|, problems, wrong) && AllRepeats(items, |items|, warnings, repeated)
    ensures AllEnter(items, |items|, entries, entered)
    ensures Validated(items) ==
            if |items| > 5000 then Outcome([], [TooManyEntries], [], [])
            else if problems != [] then Outcome(entries, problems, warnings, [])
            else if entries == [] then Outcome([], [NoEntries], warnings, [])
            else if Utf8Size(Serialize(entries)) > 1024 * 1024 then Outcome([], [ListTooLarge], warnings, [])
            else Outcome(entries, [], warnings, [])
  {
    hide *;
    Limits();
    ValidatedIs(items);
    wrong, repeated, entered := ListsExactly(items, |items|);
    problems, warnings, entries := Errors(items, |items|), Warnings(items, |items|), Entries(items, |items|);
  }

  // ---- rows ----

  predicate Filled(row: seq<string>) {
    exists i | 0 <= i < |row| :: Strip(row[i]) != ""
  }

  ghost predicate FirstFilled(rows: seq<seq<string>>, j: nat) {
    j < |rows| && Filled(rows[j]) && forall k | 0 <= k < j :: !Filled(rows[k])
  }

  /** Two cells of which one names the commits and the other the titles. */
  predicate HeadRow(row: seq<string>, fold: Folding) {
    |row| == 2 && (Heads(row[0], row[1], fold) || Heads(row[1], row[0], fold))
  }

  /** A row that is not blank and is not the header: only the first row that is not blank can be one. */
  ghost predicate DataAt(rows: seq<seq<string>>, fold: Folding, j: nat) {
    j < |rows| && Filled(rows[j]) && !(FirstFilled(rows, j) && HeadRow(rows[j], fold))
  }

  /** The header names the titles first. */
  ghost predicate Swapped(rows: seq<seq<string>>, fold: Folding) {
    exists j: nat :: FirstFilled(rows, j) && |rows[j]| == 2 && Heads(rows[j][1], rows[j][0], fold)
  }

  ghost predicate AllData(rows: seq<seq<string>>, fold: Folding, data: seq<nat>) {
    Rising(data) && forall j: nat :: j in data <==> DataAt(rows, fold, j)
  }

  ghost predicate AllOfWidth(rows: seq<seq<string>>, fold: Folding, two: bool, at: seq<nat>) {
    Rising(at) && forall j: nat :: j in at <==> DataAt(rows, fold, j) && (|rows[j]| == 2 <==> two)
  }

  function CellAt(row: seq<string>, k: nat): string {
    if k < |row| then row[k] else ""
  }

  /** Each row as it is shown: its number, its commit and its title, empty where the row has none. */
  ghost predicate ShownAs(rows: seq<seq<string>>, swapped: bool, data: seq<nat>, shown: seq<PreviewRow>) {
    && |shown| == |data|
    && forall k | 0 <= k < |data| :: data[k] < |rows|
         && shown[k] == PreviewRow(data[k] + 1, CellAt(rows[data[k]], if swapped then 1 else 0),
                                   CellAt(rows[data[k]], if swapped then 0 else 1))
  }

  /** Each row of two cells as an item under its row number. */
  ghost predicate SubmittedAs(rows: seq<seq<string>>, swapped: bool, at: seq<nat>, items: seq<Item>) {
    && |items| == |at|
    && forall k | 0 <= k < |at| :: at[k] < |rows| && |rows[at[k]]| == 2
         && items[k] == At(at[k] + 1, Some(rows[at[k]][if swapped then 1 else 0]),
                           Some(rows[at[k]][if swapped then 0 else 1]))
  }

  ghost predicate WidthsOf(at: seq<nat>, problems: seq<Problem>) {
    |problems| == |at| && forall k | 0 <= k < |at| :: problems[k] == RowWidth(at[k] + 1)
  }

  // ---- the rows that are not blank ----

  lemma FilledIs(row: seq<string>)
    ensures Filled(row) <==> !Blank(row)
  {}

  ghost predicate NumberedAt(rows: seq<seq<string>>, at: seq<nat>, numbered: seq<NumberedRow>) {
    && |numbered| == |at|
    && forall k | 0 <= k < |at| :: at[k] < |rows| && numbered[k] == NumberedRow(at[k] + 1, rows[at[k]])
  }

  ghost predicate AllFilled(rows: seq<seq<string>>, n: nat, at: seq<nat>)
    requires n <= |rows|
  {
    Rising(at) && forall j: nat :: j in at <==> j < n && Filled(rows[j])
  }

  lemma FilledNext(rows: seq<seq<string>>, n: nat, at: seq<nat>)
    requires n < |rows| && AllFilled(rows, n, at)
    ensures AllFilled(rows, n + 1, if Filled(rows[n]) then at + [n] else at)
  {
    hide Filled, Rising;
    RisingMore(at, n);
  }

  lemma NumberedNext(rows: seq<seq<string>>, n: nat, at: seq<nat>)
    requires n < |rows| && NumberedAt(rows, at, Numbered(rows, n))
    ensures NumberedAt(rows, if Filled(rows[n]) then at + [n] else at, Numbered(rows, n + 1))
  {
    FilledIs(rows[n]);
    hide Filled, Blank;
  }

  lemma {:induction false} NumberedExactly(rows: seq<seq<string>>, n: nat) returns (at: seq<nat>)
    requires n <= |rows|
    ensures AllFilled(rows, n, at) && NumberedAt(rows, at, Numbered(rows, n))
    decreases n
  {
    hide *;
    if n == 0 {
      at := [];
      NothingNumbered(rows);
    } else {
      var before := NumberedExactly(rows, n - 1);
      FilledNext(rows, n - 1, before);
      NumberedNext(rows, n - 1, before);
      at := if Filled(rows[n - 1]) then before + [n - 1] else before;
    }
  }

  lemma NothingNumbered(rows: seq<seq<string>>)
    ensures AllFilled(rows, 0, []) && NumberedAt(rows, [], Numbered(rows, 0))
  {}

  // ---- the header ----

  lemma RisingLeast(at: seq<nat>)
    requires Rising(at) && at != []
    ensures at[0] in at && (forall j | j in at :: at[0] <= j) && (forall j | j in at[1..] :: at[0] < j)
  {}

  lemma FirstIsFirst(rows: seq<seq<string>>, at: seq<nat>)
    requires AllFilled(rows, |rows|, at) && at != []
    ensures forall j: nat :: FirstFilled(rows, j) <==> j == at[0]
  {
    RisingLeast(at);
    hide Filled, Rising;
    assert at[0] in at;
    forall j: nat | FirstFilled(rows, j) ensures j == at[0] { assert j in at; }
    assert forall k: nat | k < at[0] :: k !in at;
  }

  lemma NoFirst(rows: seq<seq<string>>, at: seq<nat>)
    requires AllFilled(rows, |rows|, at) && at == []
    ensures forall j: nat :: !FirstFilled(rows, j)
  {
    hide Filled;
    assert forall j: nat :: j !in at;
  }

  lemma TailData(rows: seq<seq<string>>, fold: Folding, at: seq<nat>)
    requires AllFilled(rows, |rows|, at) && at != [] && at[0] < |rows| && HeadRow(rows[at[0]], fold)
    ensures AllData(rows, fold, at[1..])
  {
    FirstIsFirst(rows, at);
    RisingLeast(at);
    hide Filled, FirstFilled, HeadRow;
    forall j: nat ensures j in at[1..] <==> DataAt(rows, fold, j) {
      assert at == [at[0]] + at[1..];
      assert j in at <==> j == at[0] || j in at[1..];
    }
  }

  lemma AllAreData(rows: seq<seq<string>>, fold: Folding, at: seq<nat>)
    requires AllFilled(rows, |rows|, at) && (at != [] ==> at[0] < |rows| && !HeadRow(rows[at[0]], fold))
    ensures AllData(rows, fold, at)
  {
    if at == [] { NoFirst(rows, at); } else { FirstIsFirst(rows, at); }
    hide Filled, FirstFilled, HeadRow;
  }

  ghost predicate DataTable(rows: seq<seq<string>>, fold: Folding, data: seq<nat>, numbered: seq<NumberedRow>) {
    AllData(rows, fold, data) && NumberedAt(rows, data, numbered)
  }

  function Columns(swapped: bool): (nat, nat) {
    if swapped then (1, 0) else (0, 1)
  }

  lemma HeaderIs(row: seq<string>, fold: Folding)
    ensures var columns := HeaderColumns(row, fold);
            && (columns.Some? <==> HeadRow(row, fold))
            && (columns.Some? ==> columns.value == Columns(Heads(row[1], row[0], fold)))
  {
    if |row| == 2 { HeadersDiffer(NormalizeHeader(row[0], fold)); }
    hide HeaderColumns, NormalizeHeader, CommitHeader, TitleHeader;
  }

  lemma SwappedIs(rows: seq<seq<string>>, fold: Folding, at: seq<nat>)
    requires AllFilled(rows, |rows|, at) && (at != [] ==> at[0] < |rows|)
    ensures Swapped(rows, fold) <==> at != [] && |rows[at[0]]| == 2 && Heads(rows[at[0]][1], rows[at[0]][0], fold)
  {
    if at == [] { NoFirst(rows, at); } else { FirstIsFirst(rows, at); }
    hide FirstFilled, Heads, AllFilled;
  }

  lemma HeadTwo(row: seq<string>, fold: Folding)
    requires !HeadRow(row, fold)
    ensures |row| == 2 ==> !Heads(row[1], row[0], fold)
  {}

  lemma TailNumbered(rows: seq<seq<string>>, at: seq<nat>, numbered: seq<NumberedRow>)
    requires NumberedAt(rows, at, numbered) && at != []
    ensures NumberedAt(rows, at[1..], numbered[1..])
    ensures at[0] < |rows| && numbered[0].cells == rows[at[0]]
  {}

  lemma TableBehindHeader(rows: seq<seq<string>>, fold: Folding)
    requires var numbered := Numbered(rows, |rows|); numbered != [] && HeadRow(numbered[0].cells, fold)
    ensures var numbered := Numbered(rows, |rows|);
            && |numbered[0].cells| == 2
            && OfTable(rows, fold) ==
               OfRows(numbered[1..], Columns(Heads(numbered[0].cells[1], numbered[0].cells[0], fold)))
  {
    var numbered := Numbered(rows, |rows|);
    HeaderIs(numbered[0].cells, fold);
    hide HeaderColumns, Heads, OfRows, Numbered;
  }

  lemma WithHeader(rows: seq<seq<string>>, fold: Folding, at: seq<nat>, numbered: seq<NumberedRow>)
    requires AllFilled(rows, |rows|, at) && NumberedAt(rows, at, numbered) && numbered == Numbered(rows, |rows|)
    requires at != [] && HeadRow(rows[at[0]], fold)
    ensures DataTable(rows, fold, at[1..], numbered[1..])
    ensures OfTable(rows, fold) == OfRows(numbered[1..], Columns(Swapped(rows, fold)))
  {
    TailNumbered(rows, at, numbered);
    TailData(rows, fold, at);
    hide NumberedAt, HeadRow, Heads, AllFilled, AllData, Swapped, OfRows, OfTable, Numbered;
    SwappedIs(rows, fold, at);
    TableBehindHeader(rows, fold);
  }

  lemma WithoutHeader(rows: seq<seq<string>>, fold: Folding, at: seq<nat>, numbered: seq<NumberedRow>)
    requires AllFilled(rows, |rows|, at) && NumberedAt(rows, at, numbered) && numbered == Numbered(rows, |rows|)
    requires at != [] ==> !HeadRow(rows[at[0]], fold)
    ensures DataTable(rows, fold, at, numbered)
    ensures OfTable(rows, fold) == OfRows(numbered, Columns(Swapped(rows, fold)))
  {
    SwappedIs(rows, fold, at);
    if at != [] {
      HeaderIs(rows[at[0]], fold);
      HeadTwo(rows[at[0]], fold);
    }
    AllAreData(rows, fold, at);
    hide HeaderColumns, HeadRow, Heads, AllFilled, AllData, Swapped, OfRows, Numbered;
  }

  lemma PlacesInside(rows: seq<seq<string>>, at: seq<nat>, numbered: seq<NumberedRow>)
    requires NumberedAt(rows, at, numbered)
    ensures at != [] ==> at[0] < |rows| && numbered != []
  {}

  /** The table that is read: all rows that are not blank, without the header, under their own numbers. */
  lemma TableExactly(rows: seq<seq<string>>, fold: Folding) returns (data: seq<nat>, numbered: seq<NumberedRow>)
    ensures DataTable(rows, fold, data, numbered)
    ensures OfTable(rows, fold) == OfRows(numbered, Columns(Swapped(rows, fold)))
  {
    hide *;
    data := NumberedExactly(rows, |rows|);
    numbered := Numbered(rows, |rows|);
    PlacesInside(rows, data, numbered);
    if data != [] && HeadRow(rows[data[0]], fold) {
      WithHeader(rows, fold, data, numbered);
      data, numbered := data[1..], numbered[1..];
    } else {
      WithoutHeader(rows, fold, data, numbered);
    }
  }

  // ---- rows of two cells and the others ----

  ghost predicate OfWidth(rows: seq<seq<string>>, data: seq<nat>, two: bool, at: seq<nat>) {
    Rising(at) && forall j: nat :: j in at <==> j in data && j < |rows| && (|rows[j]| == 2 <==> two)
  }

  /** How the first rows of a table are split: those with two cells become items, the others width errors. */
  ghost predicate SplitAt(rows: seq<seq<string>>, swapped: bool, data: seq<nat>, shaped: seq<nat>, odd: seq<nat>,
                          numbered: seq<NumberedRow>, n: nat)
    requires n <= |numbered| && n <= |data|
  {
    && OfWidth(rows, data[..n], true, shaped) && OfWidth(rows, data[..n], false, odd)
    && SubmittedAs(rows, swapped, shaped, RawItems(numbered, Columns(swapped), n))
    && WidthsOf(odd, WidthErrors(numbered, n))
  }

  lemma OfWidthNext(rows: seq<seq<string>>, data: seq<nat>, two: bool, at: seq<nat>, j: nat)
    requires OfWidth(rows, data, two, at) && j < |rows| && forall k | k in data :: k < j
    ensures OfWidth(rows, data + [j], two, if |rows[j]| == 2 <==> two then at + [j] else at)
  {
    hide Rising;
    RisingMore(at, j);
    assert forall k: nat :: k in data + [j] <==> k in data || k == j;
  }

  lemma RawNext(rows: seq<seq<string>>, swapped: bool, at: seq<nat>, numbered: seq<NumberedRow>, n: nat, j: nat)
    requires n < |numbered| && j < |rows| && numbered[n] == NumberedRow(j + 1, rows[j])
    requires SubmittedAs(rows, swapped, at, RawItems(numbered, Columns(swapped), n))
    ensures SubmittedAs(rows, swapped, if |rows[j]| == 2 then at + [j] else at,
                        RawItems(numbered, Columns(swapped), n + 1))
  {}

  lemma WidthNext(rows: seq<seq<string>>, odd: seq<nat>, numbered: seq<NumberedRow>, n: nat, j: nat)
    requires n < |numbered| && j < |rows| && numbered[n] == NumberedRow(j + 1, rows[j])
    requires WidthsOf(odd, WidthErrors(numbered, n))
    ensures WidthsOf(if |rows[j]| == 2 then odd else odd + [j], WidthErrors(numbered, n + 1))
  {}

  lemma NothingSplit(rows: seq<seq<string>>, swapped: bool, data: seq<nat>, numbered: seq<NumberedRow>)
    ensures SplitAt(rows, swapped, data, [], [], numbered, 0)
  {}

  lemma SplitNext(rows: seq<seq<string>>, swapped: bool, data: seq<nat>, shaped: seq<nat>, odd: seq<nat>,
                  numbered: seq<NumberedRow>, n: nat)
    requires n < |numbered| == |data| && Rising(data) && NumberedAt(rows, data, numbered)
    requires SplitAt(rows, swapped, data, shaped, odd, numbered, n)
    ensures var two := data[n] < |rows| && |rows[data[n]]| == 2;
            SplitAt(rows, swapped, data, if two then shaped + [data[n]] else shaped,
                    if two then odd else odd + [data[n]], numbered, n + 1)
  {
    var j := data[n];
    assert data[..n + 1] == data[..n] + [j];
    assert forall k | k in data[..n] :: k < j;
    hide Rising, OfWidth, SubmittedAs, WidthsOf, RawItems, WidthErrors;
    OfWidthNext(rows, data[..n], true, shaped, j);
    OfWidthNext(rows, data[..n], false, odd, j);
    RawNext(rows, swapped, shaped, numbered, n, j);
    WidthNext(rows, odd, numbered, n, j);
  }

  lemma {:induction false} SplitExactly(rows: seq<seq<string>>, swapped: bool, data: seq<nat>,
                                        numbered: seq<NumberedRow>, n: nat)
    returns (shaped: seq<nat>, odd: seq<nat>)
    requires n <= |numbered| == |data| && Rising(data) && NumberedAt(rows, data, numbered)
    ensures SplitAt(rows, swapped, data, shaped, odd, numbered, n)
    decreases n
  {
    hide *;
    if n == 0 {
      shaped, odd := [], [];
      NothingSplit(rows, swapped, data, numbered);
    } else {
      shaped, odd := SplitExactly(rows, swapped, data, numbered, n - 1);
      SplitNext(rows, swapped, data, shaped, odd, numbered, n - 1);
      if data[n - 1] < |rows| && |rows[data[n - 1]]| == 2 {
        shaped := shaped + [data[n - 1]];
      } else {
        odd := odd + [data[n - 1]];
      }
    }
  }

  lemma {:induction false} PreviewsAre(rows: seq<seq<string>>, swapped: bool, data: seq<nat>,
                                       numbered: seq<NumberedRow>, n: nat)
    requires n <= |numbered| == |data| && NumberedAt(rows, data, numbered)
    ensures ShownAs(rows, swapped, data[..n], Previews(numbered, Columns(swapped), n))
    decreases n
  {
    if n == 0 {
    } else {
      PreviewsAre(rows, swapped, data, numbered, n - 1);
      assert data[..n] == data[..n - 1] + [data[n - 1]];
    }
  }

  lemma WidthsAreData(rows: seq<seq<string>>, fold: Folding, data: seq<nat>, two: bool, at: seq<nat>)
    requires AllData(rows, fold, data) && OfWidth(rows, data, two, at)
    ensures AllOfWidth(rows, fold, two, at)
  {
    hide Rising, FirstFilled, HeadRow, Filled;
    forall j: nat ensures j in at <==> DataAt(rows, fold, j) && (|rows[j]| == 2 <==> two) {
      assert j in data <==> DataAt(rows, fold, j);
    }
  }

  lemma OfRowsIs(numbered: seq<NumberedRow>, columns: (nat, nat))
    ensures var n, r := |numbered|, OfRows(numbered, columns);
            var items := RawItems(numbered, columns, n);
            && r.rows == Previews(numbered, columns, n)
            && r.errors == WidthErrors(numbered, n) + Validated(items).errors
            && r.entries == Validated(items).entries && r.warnings == Validated(items).warnings
  {}

  /**
   What is read from a table: every row that is not blank is shown, save the header; those of two cells are
   validated as items, and each of the others is an error.
   */
  lemma RowsExactly(rows: seq<seq<string>>, fold: Folding)
    returns (data: seq<nat>, shaped: seq<nat>, odd: seq<nat>, items: seq<Item>, widths: seq<Problem>)
    ensures AllData(rows, fold, data) && AllOfWidth(rows, fold, true, shaped) && AllOfWidth(rows, fold, false, odd)
    ensures SubmittedAs(rows, Swapped(rows, fold), shaped, items) && WidthsOf(odd, widths)
    ensures var r := OfTable(rows, fold);
            && ShownAs(rows, Swapped(rows, fold), data, r.rows)
            && r.errors == widths + Validated(items).errors
            && r.entries == Validated(items).entries && r.warnings == Validated(items).warnings
  {
    hide *;
    var numbered;
    data, numbered := TableExactly(rows, fold);
    var swapped, n := Swapped(rows, fold), |numbered|;
    TableIs(rows, fold, data, numbered);
    shaped, odd := SplitExactly(rows, swapped, data, numbered, n);
    PreviewsAre(rows, swapped, data, numbered, n);
    OfRowsIs(numbered, Columns(swapped));
    items, widths := RawItems(numbered, Columns(swapped), n), WidthErrors(numbered, n);
    SplitIs(rows, swapped, data, shaped, odd, numbered);
    assert data[..n] == data;
    WidthsAreData(rows, fold, data, true, shaped);
    WidthsAreData(rows, fold, data, false, odd);
  }

  lemma TableIs(rows: seq<seq<string>>, fold: Folding, data: seq<nat>, numbered: seq<NumberedRow>)
    requires DataTable(rows, fold, data, numbered)
    ensures |numbered| == |data| && Rising(data) && NumberedAt(rows, data, numbered) && AllData(rows, fold, data)
  {}

  lemma SplitIs(rows: seq<seq<string>>, swapped: bool, data: seq<nat>, shaped: seq<nat>, odd: seq<nat>,
                numbered: seq<NumberedRow>)
    requires |numbered| == |data| && SplitAt(rows, swapped, data, shaped, odd, numbered, |numbered|)
    ensures var n := |numbered|;
            && data[..n] == data && OfWidth(rows, data, true, shaped) && OfWidth(rows, data, false, odd)
            && SubmittedAs(rows, swapped, shaped, RawItems(numbered, Columns(swapped), n))
            && WidthsOf(odd, WidthErrors(numbered, n))
  {
    assert data[..|numbered|] == data;
    hide OfWidth, SubmittedAs, WidthsOf, RawItems, WidthErrors;
  }

  // ---- what the import reports of a file ----

  /** The file is small enough, is text, and the reader makes these rows of it. */
  predicate ReadAs(content: Content, form: Layout, rows: seq<seq<string>>) {
    && content.Decoded? && Utf8Size(content.text) <= 1024 * 1024
    && Csv.ReadRows(WithoutMark(content.text), if form.CommaSeparated? then ',' else '\t') == Some(rows)
  }

  lemma ReadIs(content: Content, form: Layout, fold: Folding, rows: seq<seq<string>>)
    requires ReadAs(content, form, rows)
    ensures Parsed(content, form, fold) == OfTable(rows, fold)
  {
    hide OfTable, Csv.ReadRows, Utf8Size, WithoutMark;
  }

  lemma NoWidths(items: seq<Item>, n: int)
    ensures RowWidth(n) !in Validated(items).errors
  {
    hide *;
    var problems, warnings, entries, wrong, repeated, entered := ValidatedExactly(items);
    NoneIsWidth(items, problems, wrong, n);
  }

  lemma NoneIsWidth(items: seq<Item>, problems: seq<Problem>, of: seq<nat>, n: int)
    requires AllWrong(items, |items|, problems, of)
    ensures RowWidth(n) !in problems && RowWidth(n) !in [TooManyEntries] && RowWidth(n) !in [NoEntries]
            && RowWidth(n) !in [ListTooLarge]
  {
    hide InTurn, Says;
    forall k | 0 <= k < |problems| ensures !problems[k].RowWidth? { assert Wrong(items, of[k], problems[k]); }
  }

  lemma WidthIn(at: seq<nat>, problems: seq<Problem>, n: int)
    requires WidthsOf(at, problems)
    ensures RowWidth(n) in problems <==> n >= 1 && n - 1 in at
  {
    if RowWidth(n) in problems {
      var k :| 0 <= k < |problems| && problems[k] == RowWidth(n);
      assert n - 1 == at[k] && at[k] in at;
    }
    if n >= 1 && n - 1 in at {
      var k :| 0 <= k < |at| && at[k] == n - 1;
      assert problems[k] in problems;
    }
  }

  /** Row n is reported for its width if and only if it is neither blank nor the header and has not two cells. */
  lemma RowWidthExactly(content: Content, form: Layout, fold: Folding, rows: seq<seq<string>>, n: int)
    requires ReadAs(content, form, rows)
    ensures RowWidth(n) in Parsed(content, form, fold).errors <==>
            n >= 1 && DataAt(rows, fold, n - 1) && |rows[n - 1]| != 2
  {
    var data, shaped, odd, items, widths := RowsExactly(rows, fold);
    hide DataAt, SubmittedAs, ShownAs, WidthsOf, Swapped, Rising, Validated, OfTable, ReadAs, Parsed;
    ReadIs(content, form, fold, rows);
    WidthIn(odd, widths, n);
    NoWidths(items, n);
  }

  /** The entry a row of two cells asks for: its SHA in lower case and its title, both without white space around. */
  ghost predicate Asks(rows: seq<seq<string>>, swapped: bool, j: nat, e: Entry)
    requires j < |rows| && |rows[j]| == 2
  {
    && SameSha(Strip(rows[j][if swapped then 1 else 0]), e.commit)
    && (forall k | 0 <= k < |e.commit| :: e.commit[k] in "0123456789abcdef")
    && e.title == Strip(rows[j][if swapped then 0 else 1])
  }

  ghost predicate Answered(rows: seq<seq<string>>, swapped: bool, j: nat, entries: seq<Entry>)
    requires j < |rows|
  {
    |rows[j]| == 2 && exists e :: e in entries && Asks(rows, swapped, j, e)
  }

  ghost predicate Asked(rows: seq<seq<string>>, fold: Folding, e: Entry) {
    exists j: nat :: DataAt(rows, fold, j) && |rows[j]| == 2 && Asks(rows, Swapped(rows, fold), j, e)
  }

  lemma ListedAnswers(rows: seq<seq<string>>, swapped: bool, shaped: seq<nat>, items: seq<Item>, k: nat,
                      entries: seq<Entry>)
    requires SubmittedAs(rows, swapped, shaped, items) && k < |shaped| && Listed(items[k], entries)
    ensures Answered(rows, swapped, shaped[k], entries)
  {
    var j, item := shaped[k], items[k];
    SoundIs(item);
    SoundSha(item);
    LoweredIs(Word(item.commit), Key(item));
    hide GoodItem, Sound, Key, Title, SameSha, Strip;
    assert Asks(rows, swapped, j, Entry(Key(item), Title(item)));
  }

  lemma OpenedAsked(rows: seq<seq<string>>, fold: Folding, shaped: seq<nat>, items: seq<Item>, e: Entry)
    requires SubmittedAs(rows, Swapped(rows, fold), shaped, items) && AllOfWidth(rows, fold, true, shaped)
    requires Opened(items, |items|, e)
    ensures Asked(rows, fold, e)
  {
    var k: nat :| k < |items| && Opens(items, k, e);
    var j, item := shaped[k], items[k];
    assert j in shaped;
    SoundIs(item);
    SoundSha(item);
    LoweredIs(Word(item.commit), Key(item));
    hide GoodItem, Sound, Key, Title, SameSha, Strip, DataAt, Swapped, Earlier;
    assert Asks(rows, Swapped(rows, fold), j, e);
  }

  lemma NoWidthAllTwo(rows: seq<seq<string>>, fold: Folding, odd: seq<nat>, shaped: seq<nat>, j: nat)
    requires AllOfWidth(rows, fold, false, odd) && AllOfWidth(rows, fold, true, shaped) && odd == []
    requires DataAt(rows, fold, j)
    ensures j in shaped
  {
    hide DataAt, Rising;
    assert j !in odd;
  }

  /** A file imported without errors loses no row and adds none: each row that is neither blank nor the header has
      its entry on the list, and each entry is asked for by such a row. */
  lemma NoRowLost(content: Content, form: Layout, fold: Folding, rows: seq<seq<string>>)
    requires ReadAs(content, form, rows) && Parsed(content, form, fold).errors == []
    ensures var entries := Parsed(content, form, fold).entries;
            && (forall j: nat | DataAt(rows, fold, j) :: Answered(rows, Swapped(rows, fold), j, entries))
            && (forall e | e in entries :: Asked(rows, fold, e))
  {
    hide *;
    var data, shaped, odd, items, widths := RowsExactly(rows, fold);
    ReadIs(content, form, fold, rows);
    var entries := Parsed(content, form, fold).entries;
    NoWidthsNoOdd(odd, widths);
    ErrorFreeIsCanonical(items);
    LengthsAre(rows, Swapped(rows, fold), shaped, items);
    forall j: nat | DataAt(rows, fold, j) ensures j < |rows| && Answered(rows, Swapped(rows, fold), j, entries) {
      NoWidthAllTwo(rows, fold, odd, shaped, j);
      var k :| 0 <= k < |shaped| && shaped[k] == j;
      ListsOne(items, entries, k);
      ListedAnswers(rows, Swapped(rows, fold), shaped, items, k, entries);
    }
    forall e | e in entries ensures Asked(rows, fold, e) {
      OpensOne(items, entries, e);
      OpenedAsked(rows, fold, shaped, items, e);
    }
  }

  lemma NoWidthsNoOdd(odd: seq<nat>, widths: seq<Problem>)
    requires WidthsOf(odd, widths)
    ensures widths == [] <==> odd == []
  {}

  lemma LengthsAre(rows: seq<seq<string>>, swapped: bool, at: seq<nat>, items: seq<Item>)
    requires SubmittedAs(rows, swapped, at, items)
    ensures |at| == |items| && forall k | 0 <= k < |at| :: at[k] < |rows|
  {}

  lemma ListsOne(items: seq<Item>, entries: seq<Entry>, k: nat)
    requires ListsAll(items, entries) && k < |items|
    ensures Listed(items[k], entries)
  {}

  lemma OpensOne(items: seq<Item>, entries: seq<Entry>, e: Entry)
    requires ListsAll(items, entries) && e in entries
    ensures Opened(items, |items|, e)
  {}

  // ---- what is reported of a row's cells ----

  /** What is wrong with the cells of a row of two, by themselves. */
  predicate CellsWrong(commit: string, title: string, row: int, p: Problem) {
    || (p == BadSha(row) && !Sha(Strip(commit)))
    || (p == EmptyTitle(row) && Strip(title) == "")
    || (p == MultilineTitle(row) && LineBreak(Strip(title)))
  }

  predicate OfCells(p: Problem) {
    p.BadSha? || p.EmptyTitle? || p.MultilineTitle?
  }

  ghost predicate RowWrong(rows: seq<seq<string>>, fold: Folding, p: Problem)
    requires OfCells(p)
  {
    && p.row >= 1 && DataAt(rows, fold, p.row - 1) && |rows[p.row - 1]| == 2
    && var c := if Swapped(rows, fold) then 1 else 0;
       CellsWrong(rows[p.row - 1][c], rows[p.row - 1][1 - c], p.row, p)
  }

  lemma ItemWrong(rows: seq<seq<string>>, swapped: bool, at: seq<nat>, items: seq<Item>, k: nat, p: Problem)
    requires SubmittedAs(rows, swapped, at, items) && k < |at| && OfCells(p)
    ensures var c := if swapped then 1 else 0;
            Wrong(items, k, p) <==> CellsWrong(rows[at[k]][c], rows[at[k]][1 - c], at[k] + 1, p)
  {
    hide Sha, LineBreak, Strip, Conflicts;
  }

  lemma SaidIsWrong(items: seq<Item>, problems: seq<Problem>, of: seq<nat>, p: Problem)
    requires AllWrong(items, |items|, problems, of)
    ensures p in problems <==> exists k: nat :: k < |items| && Wrong(items, k, p)
  {
    hide Wrong, InTurn;
    if p in problems {
      var m :| 0 <= m < |problems| && problems[m] == p;
      assert Wrong(items, of[m], p);
    }
    if k: nat :| k < |items| && Wrong(items, k, p) {
      assert Says(problems, of, k, p);
    }
  }

  lemma WrongRow(rows: seq<seq<string>>, fold: Folding, shaped: seq<nat>, items: seq<Item>, p: Problem)
    requires SubmittedAs(rows, Swapped(rows, fold), shaped, items) && AllOfWidth(rows, fold, true, shaped) && OfCells(p)
    ensures (exists k: nat :: k < |items| && Wrong(items, k, p)) <==> RowWrong(rows, fold, p)
  {
    hide DataAt, Swapped, Wrong, Rising, Sha, LineBreak, Strip;
    if k: nat :| k < |items| && Wrong(items, k, p) {
      assert shaped[k] in shaped;
      ItemWrong(rows, Swapped(rows, fold), shaped, items, k, p);
    }
    if RowWrong(rows, fold, p) {
      assert p.row - 1 in shaped;
      var k :| 0 <= k < |shaped| && shaped[k] == p.row - 1;
      ItemWrong(rows, Swapped(rows, fold), shaped, items, k, p);
    }
  }

  lemma NotOfCells(widths: seq<Problem>, odd: seq<nat>, p: Problem)
    requires WidthsOf(odd, widths) && (OfCells(p) || p == TooManyEntries)
    ensures p !in widths
  {}

  lemma ManyIn(items: seq<Item>, problems: seq<Problem>, of: seq<nat>)
    requires AllWrong(items, |items|, problems, of)
    ensures TooManyEntries !in problems && TooManyEntries !in [NoEntries] && TooManyEntries !in [ListTooLarge]
    ensures forall p | OfCells(p) :: p !in [NoEntries] && p !in [ListTooLarge]
  {
    hide InTurn, Says;
    forall k | 0 <= k < |problems| ensures !problems[k].TooManyEntries? { assert Wrong(items, of[k], problems[k]); }
  }

  /** What the verdict says of single cells, and of too many items. */
  lemma VerdictOnCells(items: seq<Item>, p: Problem)
    requires OfCells(p)
    ensures TooManyEntries in Validated(items).errors <==> |items| > 5000
    ensures |items| <= 5000 ==>
              (p in Validated(items).errors <==> exists k: nat :: k < |items| && Wrong(items, k, p))
  {
    hide *;
    var problems, warnings, entries, wrong, repeated, entered := ValidatedExactly(items);
    SaidIsWrong(items, problems, wrong, p);
    ManyIn(items, problems, wrong);
  }

  /**
   More than 5000 rows of two cells are refused as too many.  Otherwise a bad SHA, an empty title and a title of
   more lines are reported for exactly the rows of two cells, neither blank nor the header, that have them.
   */
  lemma RowErrorsExactly(content: Content, form: Layout, fold: Folding, rows: seq<seq<string>>, p: Problem)
    returns (shaped: seq<nat>)
    requires ReadAs(content, form, rows) && OfCells(p)
    ensures AllOfWidth(rows, fold, true, shaped)
    ensures TooManyEntries in Parsed(content, form, fold).errors <==> |shaped| > 5000
    ensures |shaped| <= 5000 ==> (p in Parsed(content, form, fold).errors <==> RowWrong(rows, fold, p))
  {
    hide *;
    var data, odd, items, widths;
    data, shaped, odd, items, widths := RowsExactly(rows, fold);
    ReadIs(content, form, fold, rows);
    LengthsAre(rows, Swapped(rows, fold), shaped, items);
    VerdictOnCells(items, p);
    WrongRow(rows, fold, shaped, items, p);
    NotOfCells(widths, odd, p);
    NotOfCells(widths, odd, TooManyEntries);
  }

  // ---- the file before its rows ----

  lemma RowsAreNoFile(rows: seq<seq<string>>, fold: Folding, p: Problem)
    requires p in [FileTooLarge, NotUtf8, BadFormat]
    ensures p !in OfTable(rows, fold).errors
  {
    hide *;
    var data, shaped, odd, items, widths := RowsExactly(rows, fold);
    var problems, warnings, entries, wrong, repeated, entered := ValidatedExactly(items);
    NoFileProblem(items, problems, wrong, odd, widths, p);
  }

  lemma NoFileProblem(items: seq<Item>, problems: seq<Problem>, of: seq<nat>, odd: seq<nat>, widths: seq<Problem>,
                      p: Problem)
    requires AllWrong(items, |items|, problems, of) && WidthsOf(odd, widths)
    requires p in [FileTooLarge, NotUtf8, BadFormat]
    ensures p !in problems && p !in widths
    ensures p !in [TooManyEntries] && p !in [NoEntries] && p !in [ListTooLarge]
  {
    hide InTurn, Says;
    forall k | 0 <= k < |problems| ensures problems[k] != p { assert Wrong(items, of[k], problems[k]); }
  }

  /** A file is refused whole exactly when it is over one MiB, is not UTF-8, or is not read as rows; in this order. */
  lemma RefusedExactly(content: Content, form: Layout, fold: Folding)
    ensures var errors := Parsed(content, form, fold).errors;
            var large, bad := Bytes(content) > 1024 * 1024, content.Undecodable?;
            && (FileTooLarge in errors <==> large)
            && (NotUtf8 in errors <==> !large && bad)
            && (BadFormat in errors <==>
                  !large && !bad
                  && Csv.ReadRows(WithoutMark(content.text), if form.CommaSeparated? then ',' else '\t').None?)
  {
    hide OfTable, Csv.ReadRows, Utf8Size, WithoutMark;
    if Bytes(content) <= 1024 * 1024 && content.Decoded? {
      var rows := Csv.ReadRows(WithoutMark(content.text), if form.CommaSeparated? then ',' else '\t');
      if rows.Some? {
        RowsAreNoFile(rows.value, fold, FileTooLarge);
        RowsAreNoFile(rows.value, fold, NotUtf8);
        RowsAreNoFile(rows.value, fold, BadFormat);
      }
    }
  }

  /** UTF-8 takes one to four bytes for a character; a text takes those of its characters (SizeOfConcat). */
  lemma SizeOfChar(c: char)
    ensures var n := c as int;
            Utf8Size([c]) == if n <= 127 then 1 else if n <= 2047 then 2 else if n <= 65535 then 3 else 4
  {
    assert [c][1..] == "";
  }

  /** A byte-order mark before a text changes nothing as long as its three bytes fit. */
  lemma MarkIgnored(text: string, form: Layout, fold: Folding)
    requires Utf8Size(text) + 3 <= 1024 * 1024 && (text != "" ==> text[0] != '\U{FEFF}')
    ensures Parsed(Decoded("\U{FEFF}" + text), form, fold) == Parsed(Decoded(text), form, fold)
  {
    var mark := '\U{FEFF}';
    SizeOfChar(mark);
    SizeOfConcat([mark], text);
    hide OfTable, Csv.ReadRows, Utf8Size;
    assert ([mark] + text)[1..] == text;
  }

  // ---- header cells ----

  /** A cell of a header without the white space around it and written in ASCII. */
  predicate AsciiText(s: string) {
    forall i | 0 <= i < |s| :: s[i] as int <= 127
  }

  predicate Alphanumeric(c: char) {
    'a' <= c <= 'z' || 'A' <= c <= 'Z' || '0' <= c <= '9'
  }

  /** The letters and digits of the first n characters, in order, the letters made small. */
  ghost predicate LettersOf(s: string, n: nat, at: seq<nat>, word: string) {
    && |word| == |at| && Rising(at) && (forall k: nat :: k in at <==> k < n && k < |s| && Alphanumeric(s[k]))
    && forall k | 0 <= k < |at| :: at[k] < |s| && SmallOf(s[at[k]], word[k])
  }

  predicate SmallOf(c: char, small: char) {
    if 'A' <= c <= 'Z' then small as int == c as int + 32 else small == c
  }

  lemma LettersNext(s: string, n: nat, at: seq<nat>, word: string, fold: Folding)
    requires n < |s| && s[n] as int <= 127 && LettersOf(s, n, at, word)
    ensures LettersOf(s, n + 1, if Alphanumeric(s[n]) then at + [n] else at, word + HeaderChar(s[n], fold))
  {
    hide Rising;
    RisingMore(at, n);
    if !Alphanumeric(s[n]) { assert word + "" == word; }
  }

  lemma NoLetters(s: string)
    ensures LettersOf(s, 0, [], "")
  {}

  lemma {:induction false} HeaderCharsExactly(s: string, n: nat, fold: Folding) returns (at: seq<nat>)
    requires n <= |s| && AsciiText(s)
    ensures LettersOf(s, n, at, HeaderChars(s, n, fold))
    decreases n
  {
    hide LettersOf, Alphanumeric, HeaderChar;
    if n == 0 {
      at := [];
      NoLetters(s);
    } else {
      at := HeaderCharsExactly(s, n - 1, fold);
      LettersNext(s, n - 1, at, HeaderChars(s, n - 1, fold), fold);
      at := if Alphanumeric(s[n - 1]) then at + [n - 1] else at;
    }
  }

  /** A header cell in ASCII is known by its letters and digits alone, whatever their case and what is between them. */
  lemma HeaderExactly(s: string, fold: Folding) returns (at: seq<nat>)
    requires AsciiText(Strip(s))
    ensures LettersOf(Strip(s), |Strip(s)|, at, NormalizeHeader(s, fold))
  {
    hide Strip, HeaderChars, LettersOf;
    at := HeaderCharsExactly(Strip(s), |Strip(s)|, fold);
  }
}
