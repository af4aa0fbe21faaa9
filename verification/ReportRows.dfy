/** Merging updated rows into a report by row identity (backport_cvekit_client.py). */
module ReportRows {
  import opened Text

  /** A value in a row: a text, or anything else. */
  datatype Value = Text(text: string) | Other(tag: int)

  type Row = map<string, Value>

  /** An item of a report's row list: an object, or something that is not one. */
  datatype Item = Obj(row: Row) | NotAnObject(tag: int)

  const ID_KEYS := ["row_id", "commit", "input_commit", "original_patch_path", "patch_path", "backported_patch_path"]

  predicate Names(row: Row, key: string) {
    key in row && row[key].Text? && Strip(row[key].text) != ""
  }

  /** The first key from k on that holds a non-blank text. */
  function NamingKey(row: Row, k: nat): (r: Option<string>)
    requires k <= |ID_KEYS|
    ensures r.Some? ==> Names(row, r.value)
    decreases |ID_KEYS| - k
  {
    if k == |ID_KEYS| then None
    else if Names(row, ID_KEYS[k]) then Some(ID_KEYS[k])
    else NamingKey(row, k + 1)
  }

  /** The identity of a row; `dump` is the sorted JSON rendering used when no key names it. */
  function RowId(row: Row, dump: Row -> string): string {
    var key := NamingKey(row, 0);
    if key.Some? then Strip(row[key.value].text) else dump(row)
  }

  /** The dictionary of the first n updates: a later row replaces an earlier one with the same identity. */
  function Updates(updated: seq<Item>, n: nat, dump: Row -> string): map<string, Row>
    requires n <= |updated|
  {
    if n == 0 then map[]
    else
      var before := Updates(updated, n - 1, dump);
      var item := updated[n - 1];
      if item.Obj? then before[RowId(item.row, dump) := item.row] else before
  }

  function Get(updates: map<string, Row>, id: string, row: Row): Row {
    if id in updates then updates[id] else row
  }

  function MergedUpTo(commits: seq<Item>, updates: map<string, Row>, n: nat, dump: Row -> string): seq<Item>
    requires n <= |commits|
  {
    if n == 0 then []
    else
      var before := MergedUpTo(commits, updates, n - 1, dump);
      var item := commits[n - 1];
      if item.Obj? then before + [Obj(Get(updates, RowId(item.row, dump), item.row))] else before
  }

  function Merge(commits: seq<Item>, updated: seq<Item>, dump: Row -> string): seq<Item> {
    MergedUpTo(commits, Updates(updated, |updated|, dump), |commits|, dump)
  }

  // ---- what the merge keeps ----

  predicate AllObjects(items: seq<Item>) {
    forall i | 0 <= i < |items| :: items[i].Obj?
  }

  function Ids(items: seq<Item>, dump: Row -> string): seq<string>
    requires AllObjects(items)
  {
    seq(|items|, i requires 0 <= i < |items| => RowId(items[i].row, dump))
  }

  /** Row r is the last update with this identity. */
  ghost predicate LastWith(updated: seq<Item>, n: nat, id: string, r: Row, dump: Row -> string)
    requires n <= |updated|
  {
    exists j | 0 <= j < n ::
      updated[j] == Obj(r) && RowId(r, dump) == id
      && forall k | j < k < n :: updated[k].Obj? ==> RowId(updated[k].row, dump) != id
  }

  /** The dictionary holds, under each identity, the last update with it, and nothing else. */
  lemma {:induction false} UpdatesAreLast(updated: seq<Item>, n: nat, id: string, dump: Row -> string)
    requires n <= |updated|
    ensures var u := Updates(updated, n, dump);
            if id in u then LastWith(updated, n, id, u[id], dump)
            else forall j | 0 <= j < n :: updated[j].Obj? ==> RowId(updated[j].row, dump) != id
    decreases n
  {
    hide RowId;
    if n == 0 {
    } else {
      UpdatesAreLast(updated, n - 1, id, dump);
      var item := updated[n - 1];
      if item.Obj? && RowId(item.row, dump) == id {
        assert updated[n - 1] == Obj(item.row);
      }
    }
  }

  lemma {:induction false} MergedShape(commits: seq<Item>, updates: map<string, Row>, n: nat, dump: Row -> string)
    requires n <= |commits|
    ensures var m := MergedUpTo(commits, updates, n, dump);
            && AllObjects(m) && |m| <= n
            && (|m| == n <==> forall i | 0 <= i < n :: commits[i].Obj?)
            && (|m| == n ==> forall i | 0 <= i < n ::
                  commits[i].Obj? && m[i] == Obj(Get(updates, RowId(commits[i].row, dump), commits[i].row)))
    decreases n
  {
    hide RowId;
    if n == 0 {
    } else {
      MergedShape(commits, updates, n - 1, dump);
    }
  }

  lemma UpdateKeepsId(updated: seq<Item>, row: Row, dump: Row -> string)
    ensures RowId(Get(Updates(updated, |updated|, dump), RowId(row, dump), row), dump) == RowId(row, dump)
  {
    hide RowId;
    UpdatesAreLast(updated, |updated|, RowId(row, dump), dump);
  }

  /**
   Merging keeps the number of rows exactly when all rows are objects, and then keeps the sequence of identities;
   each row becomes the last update with its identity, or stays as it is when there is none.
   */
  lemma MergeKeepsIds(commits: seq<Item>, updated: seq<Item>, dump: Row -> string)
    ensures var m := Merge(commits, updated, dump);
            && (|m| == |commits| <==> AllObjects(commits))
            && AllObjects(m)
            && (AllObjects(commits) ==>
                  Ids(m, dump) == Ids(commits, dump)
                  && forall i | 0 <= i < |commits| ::
                       LastWith(updated, |updated|, RowId(commits[i].row, dump), m[i].row, dump)
                       || (m[i] == commits[i]
                           && forall j | 0 <= j < |updated| ::
                                updated[j].Obj? ==> RowId(updated[j].row, dump) != RowId(commits[i].row, dump)))
  {
    hide RowId;
    var u := Updates(updated, |updated|, dump);
    MergedShape(commits, u, |commits|, dump);
    var m := Merge(commits, updated, dump);
    if AllObjects(commits) {
      forall i | 0 <= i < |commits|
        ensures RowId(m[i].row, dump) == RowId(commits[i].row, dump)
        ensures LastWith(updated, |updated|, RowId(commits[i].row, dump), m[i].row, dump)
                || (m[i] == commits[i]
                    && forall j | 0 <= j < |updated| ::
                         updated[j].Obj? ==> RowId(updated[j].row, dump) != RowId(commits[i].row, dump))
      {
        UpdateKeepsId(updated, commits[i].row, dump);
        UpdatesAreLast(updated, |updated|, RowId(commits[i].row, dump), dump);
      }
    }
  }

  lemma {:induction false} UpdatesConcat(a: seq<Item>, b: seq<Item>, n: nat, dump: Row -> string)
    requires n <= |b|
    ensures Updates(a + b, |a| + n, dump) == Updates(a, |a|, dump) + Updates(b, n, dump)
    decreases n
  {
    hide RowId;
    if n == 0 {
      UpdatesPrefix(a, b, |a|, dump);
      assert Updates(a, |a|, dump) + map[] == Updates(a, |a|, dump);
    } else {
      UpdatesConcat(a, b, n - 1, dump);
      assert (a + b)[|a| + n - 1] == b[n - 1];
    }
  }

  lemma {:induction false} UpdatesPrefix(a: seq<Item>, b: seq<Item>, n: nat, dump: Row -> string)
    requires n <= |a|
    ensures Updates(a + b, n, dump) == Updates(a, n, dump)
    decreases n
  {
    hide RowId;
    if n == 0 {
    } else {
      UpdatesPrefix(a, b, n - 1, dump);
    }
  }

  /** A merge of whatever rows, item by item over those that are objects, can be redone on its own result. */
  lemma {:induction false} MergeTwice(commits: seq<Item>, a: seq<Item>, b: seq<Item>, n: nat, dump: Row -> string)
    requires n <= |commits|
    ensures var ua, ub := Updates(a, |a|, dump), Updates(b, |b|, dump);
            var once := MergedUpTo(commits, ua, n, dump);
            MergedUpTo(once, ub, |once|, dump) == MergedUpTo(commits, ua + ub, n, dump)
    decreases n
  {
    hide RowId;
    if n == 0 {
    } else {
      MergeTwice(commits, a, b, n - 1, dump);
      var ua, ub := Updates(a, |a|, dump), Updates(b, |b|, dump);
      var before := MergedUpTo(commits, ua, n - 1, dump);
      var item := commits[n - 1];
      if item.Obj? {
        UpdateKeepsId(a, item.row, dump);
        var now := Obj(Get(ua, RowId(item.row, dump), item.row));
        MergedPrefix(before, now, ub, |before|, dump);
        assert (before + [now])[|before|] == now;
      }
    }
  }

  lemma {:induction false} MergedPrefix(items: seq<Item>, last: Item, u: map<string, Row>, n: nat, dump: Row -> string)
    requires n <= |items|
    ensures MergedUpTo(items + [last], u, n, dump) == MergedUpTo(items, u, n, dump)
    decreases n
  {
    hide RowId;
    if n == 0 {
    } else {
      MergedPrefix(items, last, u, n - 1, dump);
    }
  }

  /** Merging two lists of updates in turn is merging them as one list: the later wins, identity by identity. */
  lemma MergeInTurn(commits: seq<Item>, a: seq<Item>, b: seq<Item>, dump: Row -> string)
    ensures Merge(Merge(commits, a, dump), b, dump) == Merge(commits, a + b, dump)
  {
    UpdatesConcat(a, b, |b|, dump);
    MergeTwice(commits, a, b, |commits|, dump);
    hide Updates, MergedUpTo;
  }

  /** Merging the same updates again changes nothing. */
  lemma MergeIdempotent(commits: seq<Item>, updated: seq<Item>, dump: Row -> string)
    ensures Merge(Merge(commits, updated, dump), updated, dump) == Merge(commits, updated, dump)
  {
    var u := Updates(updated, |updated|, dump);
    MergeTwice(commits, updated, updated, |commits|, dump);
    assert u + u == u;
    hide Updates, MergedUpTo;
  }

  /** Key k is the first of the six that holds a text that is not blank. */
  predicate FirstNaming(row: Row, k: nat) {
    k < |ID_KEYS| && Names(row, ID_KEYS[k]) && forall j | 0 <= j < k :: !Names(row, ID_KEYS[j])
  }

  lemma {:induction false} NamingKeyIs(row: Row, k: nat)
    requires k <= |ID_KEYS| && forall j | 0 <= j < k :: !Names(row, ID_KEYS[j])
    ensures var r := NamingKey(row, k);
            if r.Some? then exists i: nat :: FirstNaming(row, i) && r.value == ID_KEYS[i]
            else forall j | 0 <= j < |ID_KEYS| :: !Names(row, ID_KEYS[j])
    decreases |ID_KEYS| - k
  {
    hide Names, ID_KEYS;
    if k == |ID_KEYS| {
    } else if Names(row, ID_KEYS[k]) {
      assert FirstNaming(row, k);
    } else {
      NamingKeyIs(row, k + 1);
    }
  }

  /** A row is known by the text under its first naming key, without white space around it, or by its rendering. */
  lemma RowIdExactly(row: Row, dump: Row -> string)
    ensures forall k: nat | FirstNaming(row, k) :: RowId(row, dump) == Strip(row[ID_KEYS[k]].text)
    ensures (forall j | 0 <= j < |ID_KEYS| :: !Names(row, ID_KEYS[j])) ==> RowId(row, dump) == dump(row)
  {
    NamingKeyIs(row, 0);
    hide Names, NamingKey, ID_KEYS;
    if i: nat :| FirstNaming(row, i) {
      assert forall k: nat | FirstNaming(row, k) :: k == i;
    }
  }

  /** The objects of the list stand at these places. */
  ghost predicate ObjectsAt(commits: seq<Item>, n: nat, at: seq<nat>) {
    && Rising(at)
    && forall k: nat :: k in at <==> k < n && k < |commits| && commits[k].Obj?
  }

  /** A row becomes the last update with its identity, or stays when there is none. */
  ghost predicate Becomes(updated: seq<Item>, row: Row, now: Row, dump: Row -> string) {
    || LastWith(updated, |updated|, RowId(row, dump), now, dump)
    || (now == row
        && forall j | 0 <= j < |updated| :: updated[j].Obj? ==> RowId(updated[j].row, dump) != RowId(row, dump))
  }

  ghost predicate MergedAt(commits: seq<Item>, updated: seq<Item>, at: seq<nat>, m: seq<Item>, dump: Row -> string) {
    && |m| == |at|
    && forall k | 0 <= k < |at| :: at[k] < |commits| && commits[at[k]].Obj? && m[k].Obj?
                                    && Becomes(updated, commits[at[k]].row, m[k].row, dump)
  }

  lemma GetBecomes(updated: seq<Item>, row: Row, dump: Row -> string)
    ensures Becomes(updated, row, Get(Updates(updated, |updated|, dump), RowId(row, dump), row), dump)
  {
    hide RowId;
    UpdatesAreLast(updated, |updated|, RowId(row, dump), dump);
    hide Updates;
  }

  lemma ObjectsNext(commits: seq<Item>, n: nat, at: seq<nat>)
    requires n < |commits| && ObjectsAt(commits, n, at)
    ensures ObjectsAt(commits, n + 1, if commits[n].Obj? then at + [n] else at)
  {
    hide Rising;
    RisingMore(at, n);
  }

  lemma MergedNext(commits: seq<Item>, updated: seq<Item>, at: seq<nat>, m: seq<Item>, n: nat, now: Row,
                   dump: Row -> string)
    requires n < |commits| && commits[n].Obj? && MergedAt(commits, updated, at, m, dump)
    requires Becomes(updated, commits[n].row, now, dump)
    ensures MergedAt(commits, updated, at + [n], m + [Obj(now)], dump)
  {
    hide Becomes;
    var more, all := at + [n], m + [Obj(now)];
    forall k | 0 <= k < |more|
      ensures more[k] < |commits| && commits[more[k]].Obj? && all[k].Obj?
              && Becomes(updated, commits[more[k]].row, all[k].row, dump)
    {
      if k < |at| { assert more[k] == at[k] && all[k] == m[k]; }
    }
  }

  lemma {:induction false} MergedUpToExactly(commits: seq<Item>, updated: seq<Item>, n: nat, dump: Row -> string)
    returns (at: seq<nat>)
    requires n <= |commits|
    ensures ObjectsAt(commits, n, at)
    ensures MergedAt(commits, updated, at, MergedUpTo(commits, Updates(updated, |updated|, dump), n, dump), dump)
    decreases n
  {
    hide Updates, RowId, Get, ObjectsAt, MergedAt;
    if n == 0 {
      at := [];
      NothingMerged(commits, updated, dump);
    } else {
      var before := MergedUpToExactly(commits, updated, n - 1, dump);
      ObjectsNext(commits, n - 1, before);
      at := before;
      if commits[n - 1].Obj? {
        var row, u := commits[n - 1].row, Updates(updated, |updated|, dump);
        GetBecomes(updated, row, dump);
        MergedNext(commits, updated, before, MergedUpTo(commits, u, n - 1, dump), n - 1,
                   Get(u, RowId(row, dump), row), dump);
        at := before + [n - 1];
      }
    }
  }

  lemma NothingMerged(commits: seq<Item>, updated: seq<Item>, dump: Row -> string)
    ensures ObjectsAt(commits, 0, []) && MergedAt(commits, updated, [], [], dump)
  {}

  /** Of any list, the merge keeps exactly the rows that are objects, in order, each as its last update left it. */
  lemma MergeExactly(commits: seq<Item>, updated: seq<Item>, dump: Row -> string) returns (at: seq<nat>)
    ensures ObjectsAt(commits, |commits|, at) && MergedAt(commits, updated, at, Merge(commits, updated, dump), dump)
  {
    hide Updates, RowId, MergedUpTo, ObjectsAt, MergedAt;
    at := MergedUpToExactly(commits, updated, |commits|, dump);
  }
}
