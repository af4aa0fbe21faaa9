/** Idempotence of the usage contract and the total it promises over the steps of a turn. */
module UsageProofs {
  import opened Text
  import opened Usage

  // ---- a contract payload passes through unchanged ----

  lemma OtherAliasesDiffer(f: Field, i: nat)
    requires 1 <= i < |GeneralAliases(f)|
    ensures !NameShape(GeneralAliases(f)[i])
  {}

  lemma ContainerKeysDiffer(i: nat)
    requires i < |CONTAINER_KEYS|
    ensures !NameShape(CONTAINER_KEYS[i])
  {}

  lemma KeysAreNames(u: Totals)
    ensures forall key | key in AsPayload(u).fields :: NameShape(key)
  {
    forall key | key in AsPayload(u).fields ensures NameShape(key) {
      var f :| f in u && FieldName(f) == key;
      NameCode(f);
    }
  }

  lemma {:induction false} NoOtherAlias(fields: map<string, Json>, aliases: seq<string>)
    requires forall key | key in fields :: NameShape(key)
    requires forall i | 0 <= i < |aliases| :: !NameShape(aliases[i])
    ensures Pick(fields, aliases).None?
  {
    if aliases == [] {
    } else {
      NoOtherAlias(fields, aliases[1..]);
    }
  }

  lemma PickOfPayload(u: Totals, f: Field)
    ensures Pick(AsPayload(u).fields, GeneralAliases(f)) == if f in u then Some(u[f]) else None
  {
    var fields := AsPayload(u).fields;
    KeysAreNames(u);
    NamesDiffer();
    var aliases := GeneralAliases(f);
    assert aliases[0] == FieldName(f);
    forall i | 0 <= i < |aliases[1..]| ensures !NameShape(aliases[1..][i]) { OtherAliasesDiffer(f, i + 1); }
    NoOtherAlias(fields, aliases[1..]);
    assert f in u ==> FieldName(f) in fields && fields[FieldName(f)] == Num(u[f]);
    assert f !in u ==> FieldName(f) !in fields;
  }

  lemma {:induction false} NoKids(n: Node, i: nat)
    requires i <= |CONTAINER_KEYS| && forall key | key in n.obj.fields :: NameShape(key)
    ensures KidsUpTo(n, i) == []
  {
    if i == 0 {
    } else {
      NoKids(n, i - 1);
      ContainerKeysDiffer(i - 1);
    }
  }

  /** A total is present exactly as the contract derives it, unless upstream gave one. */
  predicate Contract(u: Totals) {
    HasCount(u) ==> Total in u
  }

  lemma LeafLevelOrder(n: Node)
    requires Kids(n) == []
    ensures LevelOrder([n]) == [n]
  {
    hide Kids;
    assert [n][1..] == [];
    assert NextLevel([n]) == [] + NextLevel([]);
    assert LevelOrder([n]) == [n] + LevelOrder([]);
  }

  lemma LeafHits(n: Node, u: Totals)
    requires n.table == General
    requires forall f: Field :: Pick(n.obj.fields, GeneralAliases(f)) == if f in u then Some(u[f]) else None
    ensures FirstHits([n]) == u
  {
    hide GeneralAliases, FIELDS;
    assert [n][1..] == [];
    forall f: Field ensures f in FIELDS && FirstHit([n], f) == if f in u then Some(u[f]) else None {
      AllFields(f);
      assert PickField(n, f) == Pick(n.obj.fields, GeneralAliases(f));
    }
  }

  lemma PayloadNormalizes(u: Totals)
    requires Contract(u)
    ensures Normalize(AsPayload(u)) == u
  {
    var n := Node(AsPayload(u), General);
    KeysAreNames(u);
    NoKids(n, |CONTAINER_KEYS|);
    forall f: Field ensures Pick(n.obj.fields, GeneralAliases(f)) == if f in u then Some(u[f]) else None {
      PickOfPayload(u, f);
    }
    hide AsPayload, LevelOrder, FirstHits, KidsUpTo;
    LeafLevelOrder(n);
    LeafHits(n, u);
  }

  /** Normalising a normalised payload changes nothing. */
  lemma NormalizeIdempotent(raw: Json)
    ensures Normalize(AsPayload(Normalize(raw))) == Normalize(raw)
  {
    hide LevelOrder, FirstHits;
    PayloadNormalizes(Normalize(raw));
  }

  // ---- sums over the steps of a turn ----

  /** What field f adds up to over the steps that have it. */
  function FieldSum(payloads: seq<Json>, f: Field): real {
    if payloads == [] then 0.0
    else FieldSum(payloads[..|payloads| - 1], f) + At(Normalize(payloads[|payloads| - 1]), f)
  }

  /** The turn's usage has a field exactly when some step has it, with the sum of the steps' values. */
  lemma {:induction false} SumIsFieldwise(payloads: seq<Json>, f: Field)
    ensures f in Sum(payloads) <==> exists i | 0 <= i < |payloads| :: f in Normalize(payloads[i])
    ensures At(Sum(payloads), f) == FieldSum(payloads, f)
  {
    hide Normalize;
    if payloads == [] {
    } else {
      SumIsFieldwise(payloads[..|payloads| - 1], f);
    }
  }

  /** What upstream says of a field: its first number in level order. */
  function Hit(raw: Json, f: Field): Option<real> {
    if raw.Obj? then FirstHit(LevelOrder([Node(raw, General)]), f) else None
  }

  /** Upstream stated a total itself somewhere in the payload. */
  predicate StatesTotal(raw: Json) {
    Hit(raw, Total).Some?
  }

  /** total = input + output + cache read + cache write, and a total appears only with a count. */
  predicate Balanced(u: Totals) {
    (Total in u <==> HasCount(u)) && (Total in u ==> u[Total] == Parts(u))
  }

  lemma DerivedIsBalanced(raw: Json)
    requires !StatesTotal(raw)
    ensures Balanced(Normalize(raw))
  {
    hide LevelOrder, FirstHit;
  }

  lemma MergeBalanced(total: Totals, u: Totals)
    requires Balanced(total) && Balanced(u)
    ensures Balanced(Merge(total, u))
  {
    assert Parts(Merge(total, u)) == Parts(total) + Parts(u);
  }

  /** Summing steps without an upstream total keeps total = input + output + cache read + cache write. */
  lemma {:induction false} SumIsBalanced(payloads: seq<Json>)
    requires forall i | 0 <= i < |payloads| :: !StatesTotal(payloads[i])
    ensures Balanced(Sum(payloads))
  {
    hide Normalize, Merge, StatesTotal;
    if payloads == [] {
    } else {
      var n := |payloads| - 1;
      SumIsBalanced(payloads[..n]);
      DerivedIsBalanced(payloads[n]);
      MergeBalanced(Sum(payloads[..n]), Normalize(payloads[n]));
    }
  }

  // ---- when upstream states totals ----

  /** Upstream gave at least one of the four counts. */
  predicate StatesCount(raw: Json) {
    Hit(raw, Input).Some? || Hit(raw, Output).Some? || Hit(raw, CacheRead).Some? || Hit(raw, CacheWrite).Some?
  }

  function OrZero(hit: Option<real>): real {
    if hit.Some? then hit.value else 0.0
  }

  /** By how much a stated total exceeds the counts stated with it. */
  function Excess(raw: Json): real {
    if !StatesTotal(raw) then 0.0
    else
      OrZero(Hit(raw, Total))
      - (OrZero(Hit(raw, Input)) + OrZero(Hit(raw, Output)) + OrZero(Hit(raw, CacheRead))
         + OrZero(Hit(raw, CacheWrite)))
  }

  function ExcessOf(payloads: seq<Json>): real {
    if payloads == [] then 0.0 else ExcessOf(payloads[..|payloads| - 1]) + Excess(payloads[|payloads| - 1])
  }

  lemma HitsOf(raw: Json, f: Field)
    ensures var u := if raw.Obj? then FirstHits(LevelOrder([Node(raw, General)])) else map[];
            (f in u <==> Hit(raw, f).Some?) && At(u, f) == OrZero(Hit(raw, f))
  {
    AllFields(f);
    hide LevelOrder, FirstHit;
  }

  /** One step: a total is there when stated or when there is a count, and it is off by the excess. */
  lemma NormalizeHits(raw: Json)
    ensures var u := Normalize(raw);
            && (HasCount(u) <==> StatesCount(raw))
            && (Total in u <==> StatesTotal(raw) || StatesCount(raw))
            && At(u, Total) - Parts(u) == Excess(raw)
  {
    HitsOf(raw, Input);
    HitsOf(raw, Output);
    HitsOf(raw, CacheRead);
    HitsOf(raw, CacheWrite);
    HitsOf(raw, Total);
    hide FirstHits, LevelOrder, Hit;
  }

  lemma MergeField(total: Totals, u: Totals, f: Field)
    ensures f in Merge(total, u) <==> f in total || f in u
    ensures At(Merge(total, u), f) == At(total, f) + At(u, f)
  {}

  lemma MergeAdds(total: Totals, u: Totals)
    ensures HasCount(Merge(total, u)) <==> HasCount(total) || HasCount(u)
    ensures Total in Merge(total, u) <==> Total in total || Total in u
    ensures At(Merge(total, u), Total) - Parts(Merge(total, u)) ==
            At(total, Total) - Parts(total) + (At(u, Total) - Parts(u))
  {
    hide Merge, At;
    MergeField(total, u, Input);
    MergeField(total, u, Output);
    MergeField(total, u, CacheRead);
    MergeField(total, u, CacheWrite);
    MergeField(total, u, Total);
  }

  lemma {:induction false} SumHits(payloads: seq<Json>)
    ensures var u := Sum(payloads);
            && (HasCount(u) <==> exists i | 0 <= i < |payloads| :: StatesCount(payloads[i]))
            && (Total in u <==>
                exists i | 0 <= i < |payloads| :: StatesTotal(payloads[i]) || StatesCount(payloads[i]))
            && At(u, Total) - Parts(u) == ExcessOf(payloads)
    decreases |payloads|
  {
    hide Normalize, Merge, StatesTotal, StatesCount, Excess, HasCount, Parts, At;
    if payloads == [] {
      EmptyTotals();
    } else {
      var n := |payloads| - 1;
      SumHits(payloads[..n]);
      NormalizeHits(payloads[n]);
      MergeAdds(Sum(payloads[..n]), Normalize(payloads[n]));
      assert forall i | 0 <= i < n :: payloads[..n][i] == payloads[i];
    }
  }

  lemma EmptyTotals()
    ensures var u: Totals := map[]; !HasCount(u) && Total !in u && At(u, Total) - Parts(u) == 0.0
  {}

  /**
   A turn's usage is balanced if and only if, once some step states a total, some step states a count and the stated
   totals together are what the counts stated with them come to: excesses of single steps may cancel.
   */
  lemma SumBalancedExactly(payloads: seq<Json>)
    ensures Balanced(Sum(payloads)) <==>
            ((exists i | 0 <= i < |payloads| :: StatesTotal(payloads[i])) ==>
              (exists i | 0 <= i < |payloads| :: StatesCount(payloads[i])) && ExcessOf(payloads) == 0.0)
  {
    SumHits(payloads);
    if !exists i | 0 <= i < |payloads| :: StatesTotal(payloads[i]) { NoExcess(payloads); }
    hide Sum, StatesTotal, StatesCount, ExcessOf;
  }

  lemma {:induction false} NoExcess(payloads: seq<Json>)
    requires forall i | 0 <= i < |payloads| :: !StatesTotal(payloads[i])
    ensures ExcessOf(payloads) == 0.0
    decreases |payloads|
  {
    hide StatesTotal;
    if payloads == [] {
    } else {
      NoExcess(payloads[..|payloads| - 1]);
    }
  }

  /** One step is balanced if and only if a total stated upstream comes with a count and is the sum of the counts. */
  lemma BalancedExactly(raw: Json)
    ensures Balanced(Normalize(raw)) <==> (StatesTotal(raw) ==> StatesCount(raw) && Excess(raw) == 0.0)
  {
    NormalizeHits(raw);
    hide Normalize, Hit, HasCount;
  }

  /** A usage of an input count and a stated total. */
  function Stating(count: real, total: real): Totals {
    map[Input := count, Total := total]
  }

  lemma StatingBalanced(count: real, total: real)
    ensures Balanced(Stating(count, total)) <==> count == total
    ensures Contract(Stating(count, total))
  {}

  lemma StatingMerges(a: real, b: real, c: real, d: real)
    ensures Merge(Merge(map[], Stating(a, b)), Stating(c, d)) == Stating(a + c, b + d)
  {
    assert Merge(map[], Stating(a, b)) == Stating(a, b);
  }

  /** Two steps that state totals one too high and one too low: neither is balanced, their sum is. */
  lemma ExcessesCancel()
    ensures var high, low := AsPayload(Stating(1.0, 2.0)), AsPayload(Stating(1.0, 0.0));
            !Balanced(Normalize(high)) && !Balanced(Normalize(low)) && Balanced(Sum([high, low]))
  {
    hide *;
    StatingBalanced(1.0, 2.0);
    StatingBalanced(1.0, 0.0);
    StatingBalanced(2.0, 2.0);
    PayloadNormalizes(Stating(1.0, 2.0));
    PayloadNormalizes(Stating(1.0, 0.0));
    SumOfTwo(AsPayload(Stating(1.0, 2.0)), AsPayload(Stating(1.0, 0.0)));
    StatingMerges(1.0, 2.0, 1.0, 0.0);
  }

  lemma SumOfTwo(a: Json, b: Json)
    ensures Sum([a, b]) == Merge(Merge(map[], Normalize(a)), Normalize(b))
  {
    assert [a, b][..1] == [a] && [a][..0] == [];
    hide Normalize, Merge;
    assert Sum([a]) == Merge(map[], Normalize(a));
  }
}
