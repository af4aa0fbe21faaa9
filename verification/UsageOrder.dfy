/**
 Where each field of a normalised usage payload comes from, told without the worklist: the objects are visited so that
 each one's children come after those of the objects before it, and a field is the first number found on the way.
 */
module UsageOrder {
  import opened Text
  import opened Usage

  // ---- one object ----

  /** The number under the first of the aliases that has one. */
  predicate Numbered(fields: map<string, Json>, aliases: seq<string>, v: real) {
    exists k | 0 <= k < |aliases| ::
      aliases[k] in fields && fields[aliases[k]] == Num(v)
      && forall j | 0 <= j < k :: !(aliases[j] in fields && fields[aliases[j]].Num?)
  }

  lemma {:induction false} PickIsNumbered(fields: map<string, Json>, aliases: seq<string>)
    ensures forall v :: Pick(fields, aliases) == Some(v) <==> Numbered(fields, aliases, v)
    decreases |aliases|
  {
    if aliases == [] {
    } else {
      var rest := aliases[1..];
      PickIsNumbered(fields, rest);
      forall v ensures Pick(fields, aliases) == Some(v) <==> Numbered(fields, aliases, v) {
        NumberedRest(fields, aliases, v);
      }
    }
  }

  lemma NumberedRest(fields: map<string, Json>, aliases: seq<string>, v: real)
    requires aliases != []
    ensures Numbered(fields, aliases, v) <==>
            if aliases[0] in fields && fields[aliases[0]].Num? then fields[aliases[0]] == Num(v)
            else Numbered(fields, aliases[1..], v)
  {
    var rest := aliases[1..];
    assert forall j | 0 <= j < |rest| :: rest[j] == aliases[j + 1];
    if aliases[0] in fields && fields[aliases[0]].Num? {
    } else {
      if Numbered(fields, aliases, v) {
        var k :| 0 <= k < |aliases| && aliases[k] in fields && fields[aliases[k]] == Num(v)
                 && forall j | 0 <= j < k :: !(aliases[j] in fields && fields[aliases[j]].Num?);
        assert rest[k - 1] == aliases[k];
      }
      if Numbered(fields, rest, v) {
        var k :| 0 <= k < |rest| && rest[k] in fields && fields[rest[k]] == Num(v)
                 && forall j | 0 <= j < k :: !(rest[j] in fields && fields[rest[j]].Num?);
        assert aliases[k + 1] == rest[k];
        assert forall j | 0 < j < k + 1 :: aliases[j] == rest[j - 1];
      }
    }
  }

  // ---- the children of an object ----

  /** Under `cache` and `cost` only their own short names count. */
  function TableUnder(key: string): Table {
    if key == "cache" then CacheTable else if key == "cost" then CostTable else General
  }

  ghost predicate TakenFrom(items: seq<Json>, t: Table, part: seq<Node>, at: seq<nat>) {
    && |part| == |at|
    && forall i | 0 <= i < |at| :: at[i] < |items| && part[i].obj == items[at[i]] && part[i].table == t
  }

  ghost predicate Covers(items: seq<Json>, at: seq<nat>) {
    forall k: nat | k < |items| && items[k].Obj? :: k in at
  }

  /** The objects of a list, in order, under a table. */
  ghost predicate ObjectsIn(items: seq<Json>, t: Table, part: seq<Node>, at: seq<nat>) {
    Rising(at) && TakenFrom(items, t, part, at) && Covers(items, at)
  }

  /** What one container key of an object holds: an object, the objects of a list, or nothing. */
  ghost predicate Holds(fields: map<string, Json>, key: string, part: seq<Node>) {
    if key in fields && fields[key].Obj? then part == [Node(fields[key], TableUnder(key))]
    else if key in fields && fields[key].Arr? then exists at :: ObjectsIn(fields[key].items, TableUnder(key), part, at)
    else part == []
  }

  /** The children of an object: those under `usage`, `tokens`, `cache`, `cost`, `data` and `sessions`, in turn. */
  ghost predicate ChildrenOf(n: Node, kids: seq<Node>) {
    exists a, b, c, d, e, f ::
      && Holds(n.obj.fields, "usage", a) && Holds(n.obj.fields, "tokens", b) && Holds(n.obj.fields, "cache", c)
      && Holds(n.obj.fields, "cost", d) && Holds(n.obj.fields, "data", e) && Holds(n.obj.fields, "sessions", f)
      && kids == a + b + c + d + e + f
  }

  function Shifted(at: seq<nat>): (r: seq<nat>)
    ensures |r| == |at| && forall i | 0 <= i < |at| :: r[i] == at[i] + 1
  {
    seq(|at|, i requires 0 <= i < |at| => at[i] + 1)
  }

  lemma ShiftedHolds(items: seq<Json>, at: seq<nat>)
    requires items != [] && forall k: nat | k < |items| - 1 && items[1..][k].Obj? :: k in at
    ensures forall k: nat | 0 < k < |items| && items[k].Obj? :: k in Shifted(at)
  {
    var moved := Shifted(at);
    forall k: nat | 0 < k < |items| && items[k].Obj? ensures k in moved {
      assert items[1..][k - 1] == items[k] && k - 1 in at;
      var i :| 0 <= i < |at| && at[i] == k - 1;
      assert moved[i] == k;
    }
  }

  lemma RisesFromZero(at: seq<nat>)
    requires Rising(at)
    ensures Rising(Shifted(at)) && Rising([0] + Shifted(at))
  {}

  lemma TakenShifted(items: seq<Json>, t: Table, part: seq<Node>, at: seq<nat>)
    requires items != [] && TakenFrom(items[1..], t, part, at)
    ensures TakenFrom(items, t, part, Shifted(at))
  {
    var moved := Shifted(at);
    hide Shifted;
    forall i | 0 <= i < |moved| ensures moved[i] < |items| && part[i].obj == items[moved[i]] {
      assert items[1..][at[i]] == items[moved[i]];
    }
  }

  lemma TakenFirst(items: seq<Json>, t: Table, part: seq<Node>, at: seq<nat>)
    requires items != [] && items[0].Obj? && TakenFrom(items, t, part, at)
    ensures TakenFrom(items, t, [Node(items[0], t)] + part, [0] + at)
  {
    var all, whole := [0] + at, [Node(items[0], t)] + part;
    forall i | 0 <= i < |all| ensures all[i] < |items| && whole[i].obj == items[all[i]] && whole[i].table == t {
      if i > 0 { assert all[i] == at[i - 1] && whole[i] == part[i - 1]; }
    }
  }

  lemma CoversShifted(items: seq<Json>, at: seq<nat>)
    requires items != [] && Covers(items[1..], at)
    ensures if items[0].Obj? then Covers(items, [0] + Shifted(at)) else Covers(items, Shifted(at))
  {
    ShiftedHolds(items, at);
    hide Shifted;
    var all := [0] + Shifted(at);
    assert all[0] == 0;
    assert forall k | k in Shifted(at) :: k in all;
  }

  lemma NoObjectHere(items: seq<Json>, t: Table, part: seq<Node>, at: seq<nat>)
    requires items != [] && ObjectsIn(items[1..], t, part, at) && !items[0].Obj?
    ensures ObjectsIn(items, t, part, Shifted(at))
  {
    hide Covers, Shifted, Rising, TakenFrom;
    CoversShifted(items, at);
    RisesFromZero(at);
    TakenShifted(items, t, part, at);
  }

  lemma ObjectHere(items: seq<Json>, t: Table, part: seq<Node>, at: seq<nat>)
    requires items != [] && ObjectsIn(items[1..], t, part, at) && items[0].Obj?
    ensures ObjectsIn(items, t, [Node(items[0], t)] + part, [0] + Shifted(at))
  {
    hide Covers, Shifted, Rising, TakenFrom;
    CoversShifted(items, at);
    RisesFromZero(at);
    TakenShifted(items, t, part, at);
    TakenFirst(items, t, part, Shifted(at));
  }

  lemma TaggedNext(items: seq<Json>, t: Table)
    requires items != []
    ensures var later := Tagged(ObjectsOf(items[1..]), t);
            Tagged(ObjectsOf(items), t) == if items[0].Obj? then [Node(items[0], t)] + later else later
  {
    var os := ObjectsOf(items[1..]);
    if items[0].Obj? {
      assert ObjectsOf(items) == [items[0]] + os;
      assert ([items[0]] + os)[1..] == os;
    } else {
      assert [] + os == os;
    }
  }

  lemma {:induction false} ObjectsFound(items: seq<Json>, t: Table) returns (at: seq<nat>)
    ensures ObjectsIn(items, t, Tagged(ObjectsOf(items), t), at)
    decreases |items|
  {
    hide *;
    if items == [] {
      at := [];
      NoObjects(t);
    } else {
      var later := ObjectsFound(items[1..], t);
      TaggedNext(items, t);
      if items[0].Obj? {
        ObjectHere(items, t, Tagged(ObjectsOf(items[1..]), t), later);
        at := [0] + Shifted(later);
      } else {
        NoObjectHere(items, t, Tagged(ObjectsOf(items[1..]), t), later);
        at := Shifted(later);
      }
    }
  }

  lemma NoObjects(t: Table)
    ensures ObjectsIn([], t, Tagged(ObjectsOf([]), t), [])
  {}

  lemma KeyHolds(n: Node, key: string)
    ensures Holds(n.obj.fields, key, Tagged(Children(n.obj, key), ContainerTable(key)))
  {
    var fields := n.obj.fields;
    if key in fields && fields[key].Arr? {
      var at := ObjectsFound(fields[key].items, TableUnder(key));
    } else if key in fields && fields[key].Obj? {
      assert [fields[key]][1..] == [];
    }
  }

  lemma KidsAre(n: Node)
    ensures ChildrenOf(n, Kids(n))
  {
    KeyHolds(n, "usage");
    KeyHolds(n, "tokens");
    KeyHolds(n, "cache");
    KeyHolds(n, "cost");
    KeyHolds(n, "data");
    KeyHolds(n, "sessions");
    KidsJoin(n);
    hide Holds, Children, Tagged, ContainerTable, Kids;
  }

  function Under(n: Node, key: string): seq<Node> {
    Tagged(Children(n.obj, key), ContainerTable(key))
  }

  lemma KidsJoin(n: Node)
    ensures Kids(n) == Under(n, "usage") + Under(n, "tokens") + Under(n, "cache") + Under(n, "cost")
                       + Under(n, "data") + Under(n, "sessions")
  {
    hide Children, Tagged, ContainerTable;
    assert KidsUpTo(n, 1) == [] + Under(n, "usage") == Under(n, "usage");
    assert KidsUpTo(n, 2) == KidsUpTo(n, 1) + Under(n, "tokens");
    assert KidsUpTo(n, 3) == KidsUpTo(n, 2) + Under(n, "cache");
    assert KidsUpTo(n, 4) == KidsUpTo(n, 3) + Under(n, "cost");
    assert KidsUpTo(n, 5) == KidsUpTo(n, 4) + Under(n, "data");
    assert KidsUpTo(n, 6) == KidsUpTo(n, 5) + Under(n, "sessions");
  }

  // ---- the order of the walk ----

  function StartOf(roots: nat, ends: seq<nat>, i: nat): nat
    requires i <= |ends|
  {
    if i == 0 then roots else ends[i - 1]
  }

  ghost predicate Family(n: Node, all: seq<Node>, from: nat, to: nat) {
    from <= to <= |all| && ChildrenOf(n, all[from..to])
  }

  /** The children of each of these stand together in `all`, behind those of the ones before it: they begin after the
      roots, which are nobody's children, and `ends[i]` is where those of the i-th end. */
  ghost predicate Follows(ns: seq<Node>, roots: nat, ends: seq<nat>, all: seq<Node>) {
    && |ends| == |ns|
    && (forall i | 0 <= i < |ns| :: Family(ns[i], all, StartOf(roots, ends, i), ends[i]))
    && StartOf(roots, ends, |ns|) == |all|
  }

  lemma {:induction false} NextLevelConcat(a: seq<Node>, b: seq<Node>)
    ensures NextLevel(a + b) == NextLevel(a) + NextLevel(b)
    decreases |a|
  {
    hide Kids;
    if a == [] {
      assert a + b == b;
    } else {
      assert (a + b)[1..] == a[1..] + b;
      NextLevelConcat(a[1..], b);
    }
  }

  /** The walk is its first level and then the children of all it visits, in turn. */
  lemma {:induction false} WalkUnfolds(ns: seq<Node>)
    ensures LevelOrder(ns) == ns + NextLevel(LevelOrder(ns))
    decreases QueueWeight(ns)
  {
    hide Kids, Weight;
    if ns == [] {
      assert NextLevel([]) == [];
    } else {
      NextLevelWeight(ns);
      var below := LevelOrder(NextLevel(ns));
      WalkUnfolds(NextLevel(ns));
      NextLevelConcat(ns, below);
    }
  }

  lemma FollowsNext(ns: seq<Node>, roots: nat, ends: seq<nat>, all: seq<Node>, n: Node, kids: seq<Node>)
    requires Follows(ns, roots, ends, all) && ChildrenOf(n, kids)
    ensures Follows(ns + [n], roots, ends + [|all| + |kids|], all + kids)
  {
    hide ChildrenOf;
    var more, last := all + kids, ends + [|all| + |kids|];
    assert more[|all|..|all| + |kids|] == kids;
    forall i | 0 <= i < |ns| ensures Family(ns[i], more, StartOf(roots, last, i), last[i]) {
      assert Family(ns[i], all, StartOf(roots, ends, i), ends[i]);
      assert more[StartOf(roots, ends, i)..ends[i]] == all[StartOf(roots, ends, i)..ends[i]];
    }
  }

  lemma {:induction false} EndsFound(lead: seq<Node>, ns: seq<Node>) returns (ends: seq<nat>)
    ensures Follows(ns, |lead|, ends, lead + NextLevel(ns))
    decreases |ns|
  {
    hide *;
    if ns == [] {
      ends := [];
      NoEnds(lead);
    } else {
      var before, n := ns[..|ns| - 1], ns[|ns| - 1];
      ends := EndsFound(lead, before);
      KidsAre(n);
      assert ns == before + [n];
      NextLevelConcat(before, [n]);
      NextLevelOne(n);
      FollowsNext(before, |lead|, ends, lead + NextLevel(before), n, Kids(n));
      assert lead + NextLevel(before) + Kids(n) == lead + NextLevel(ns);
      ends := ends + [|lead + NextLevel(before)| + |Kids(n)|];
    }
  }

  lemma NoEnds(lead: seq<Node>)
    ensures Follows([], |lead|, [], lead + NextLevel([]))
  {}

  lemma NextLevelOne(n: Node)
    ensures NextLevel([n]) == Kids(n)
  {
    hide Kids;
    assert [n][1..] == [];
    assert Kids(n) + [] == Kids(n);
  }

  // ---- the payload ----

  /** The number of a field is that of the first object on the way that has one. */
  ghost predicate FoundFirst(order: seq<Node>, f: Field, v: real) {
    exists i | 0 <= i < |order| :: Has(order[i], f, v) && forall j, w | 0 <= j < i :: !Has(order[j], f, w)
  }

  predicate Has(n: Node, f: Field, v: real) {
    Numbered(n.obj.fields, Aliases(n.table, f), v)
  }

  lemma {:induction false} FirstHitIsFound(order: seq<Node>, f: Field)
    ensures forall v :: FirstHit(order, f) == Some(v) <==> FoundFirst(order, f, v)
    decreases |order|
  {
    if order == [] {
    } else {
      var rest := order[1..];
      FirstHitIsFound(rest, f);
      PickIsNumbered(order[0].obj.fields, Aliases(order[0].table, f));
      hide Pick, Numbered, Aliases;
      assert forall v :: PickField(order[0], f) == Some(v) <==> Has(order[0], f, v);
      hide Has, PickField, FoundFirst;
      if PickField(order[0], f).Some? { assert Has(order[0], f, PickField(order[0], f).value); }
      forall v ensures FirstHit(order, f) == Some(v) <==> FoundFirst(order, f, v) { FoundRest(order, f, v); }
    }
  }

  lemma FoundRest(order: seq<Node>, f: Field, v: real)
    requires order != []
    ensures FoundFirst(order, f, v) <==>
            Has(order[0], f, v) || ((forall w :: !Has(order[0], f, w)) && FoundFirst(order[1..], f, v))
  {
    hide Has;
    var rest := order[1..];
    assert forall j | 0 <= j < |rest| :: rest[j] == order[j + 1];
    if FoundFirst(order, f, v) && !Has(order[0], f, v) {
      var i :| 0 <= i < |order| && Has(order[i], f, v) && forall j, w | 0 <= j < i :: !Has(order[j], f, w);
      assert rest[i - 1] == order[i];
    }
    if (forall w :: !Has(order[0], f, w)) && FoundFirst(rest, f, v) {
      var i :| 0 <= i < |rest| && Has(rest[i], f, v) && forall j, w | 0 <= j < i :: !Has(rest[j], f, w);
      assert order[i + 1] == rest[i];
      forall j, w | 0 <= j < i + 1 ensures !Has(order[j], f, w) { if j > 0 { assert order[j] == rest[j - 1]; } }
    }
  }

  /** The fields found, and a total made of the four counts when none is given. */
  ghost predicate Totalled(order: seq<Node>, u: Totals) {
    && (forall f: Field | f != Total :: forall v :: f in u && u[f] == v <==> FoundFirst(order, f, v))
    && (forall v | FoundFirst(order, Total, v) :: Total in u && u[Total] == v)
    && ((forall v :: !FoundFirst(order, Total, v)) ==>
          (Total in u <==> Input in u || Output in u || CacheRead in u || CacheWrite in u)
          && (Total in u ==>
                u[Total] == Count(u, Input) + Count(u, Output) + Count(u, CacheRead) + Count(u, CacheWrite)))
  }

  function Count(u: Totals, f: Field): real {
    if f in u then u[f] else 0.0
  }

  lemma HitsFound(order: seq<Node>, f: Field)
    ensures forall v :: f in FirstHits(order) && FirstHits(order)[f] == v <==> FoundFirst(order, f, v)
  {
    AllFields(f);
    FirstHitIsFound(order, f);
    hide FirstHit, FoundFirst, FIELDS;
  }

  lemma DerivedTotals(order: seq<Node>)
    ensures Totalled(order, Derive(FirstHits(order)))
  {
    hide FirstHits, FoundFirst;
    forall f: Field ensures forall v :: f in FirstHits(order) && FirstHits(order)[f] == v <==> FoundFirst(order, f, v) {
      HitsFound(order, f);
    }
    var u := FirstHits(order);
    if Total in u { assert FoundFirst(order, Total, u[Total]); }
  }

  /**
   The normal form of a payload: its objects are walked from the payload itself, each one's children behind those of
   the objects before it, and every field is the first number on the way.
   */
  lemma PayloadExactly(raw: Json) returns (order: seq<Node>, ends: seq<nat>)
    requires raw.Obj?
    ensures order != [] && order[0] == Node(raw, General) && Follows(order, 1, ends, order)
    ensures Totalled(order, Normalize(raw))
  {
    var root := [Node(raw, General)];
    order := LevelOrder(root);
    WalkUnfolds(root);
    ends := EndsFound(root, order);
    hide LevelOrder, NextLevel, Follows, Derive, FirstHits, Totalled;
    assert order == root + NextLevel(order);
    assert order[0] == root[0];
    DerivedTotals(order);
  }

  /** A payload that is no object has no usage. */
  lemma NoObjectNoUsage(raw: Json)
    requires !raw.Obj?
    ensures Normalize(raw) == map[]
  {}
}
