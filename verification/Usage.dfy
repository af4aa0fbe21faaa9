/**
 Normalisation of upstream token-usage payloads to one flat contract, and their sum over the
 steps of a turn.  The worklist walks the payload's containers breadth first; the contract says
 each field is its first hit in level order under the alias table of the container it sits in.
 */
module Usage {
  import opened Text

  datatype Json =
    | Null
    | Bool(flag: bool)
    | Num(number: real)
    | Str(text: string)
    | Arr(items: seq<Json>)
    | Obj(fields: map<string, Json>)

  datatype Field = Input | Output | CacheRead | CacheWrite | Reasoning | Total | Cost

  const FIELDS: seq<Field> := [Input, Output, CacheRead, CacheWrite, Reasoning, Total, Cost]

  datatype Table = General | CacheTable | CostTable

  function FieldName(f: Field): string {
    match f
    case Input => "input_tokens"
    case Output => "output_tokens"
    case CacheRead => "cache_read_tokens"
    case CacheWrite => "cache_write_tokens"
    case Reasoning => "reasoning_tokens"
    case Total => "total_tokens"
    case Cost => "total_cost"
  }

  function GeneralAliases(f: Field): seq<string> {
    match f
    case Input => ["input_tokens", "inputTokens", "prompt_tokens", "input"]
    case Output => ["output_tokens", "outputTokens", "completion_tokens", "output"]
    case CacheRead => ["cache_read_tokens", "cacheReadTokens", "cache_read_input_tokens", "cacheRead", "cache_read"]
    case CacheWrite =>
      ["cache_write_tokens", "cacheWriteTokens", "cache_creation_input_tokens", "cacheWrite", "cache_write"]
    case Reasoning => ["reasoning_tokens", "reasoningTokens", "reasoning_output_tokens", "reasoning"]
    case Total => ["total_tokens", "totalTokens", "total"]
    case Cost => ["total_cost", "totalCost", "estimatedCostUsd", "estimated_cost_usd", "cost"]
  }

  function Aliases(t: Table, f: Field): seq<string> {
    match t
    case General => GeneralAliases(f)
    case CacheTable =>
      if f == CacheRead then ["read", "read_tokens", "readTokens"]
      else if f == CacheWrite then ["write", "write_tokens", "writeTokens"]
      else []
    case CostTable => if f == Cost then ["total", "total_cost", "totalCost", "cost"] else []
  }

  const CONTAINER_KEYS: seq<string> := ["usage", "tokens", "cache", "cost", "data", "sessions"]

  function ContainerTable(key: string): Table {
    if key == "cache" then CacheTable else if key == "cost" then CostTable else General
  }

  /** First alias holding a number; booleans are not numbers. */
  function Pick(fields: map<string, Json>, aliases: seq<string>): Option<real> {
    if aliases == [] then None
    else if aliases[0] in fields && fields[aliases[0]].Num? then Some(fields[aliases[0]].number)
    else Pick(fields, aliases[1..])
  }

  type ObjNode = j: Json | j.Obj? witness Obj(map[])

  datatype Node = Node(obj: ObjNode, table: Table)

  function ObjectsOf(items: seq<Json>): (os: seq<ObjNode>)
    ensures forall i | 0 <= i < |os| :: os[i] in items
  {
    if items == [] then [] else (if items[0].Obj? then [items[0]] else []) + ObjectsOf(items[1..])
  }

  function Children(obj: ObjNode, key: string): (os: seq<ObjNode>)
    ensures forall i | 0 <= i < |os| :: os[i] < obj
  {
    if key !in obj.fields then []
    else
      match obj.fields[key]
      case Obj(_) => [obj.fields[key]]
      case Arr(items) => ObjectsOf(items)
      case _ => []
  }

  function Tagged(os: seq<ObjNode>, t: Table): seq<Node> {
    if os == [] then [] else [Node(os[0], t)] + Tagged(os[1..], t)
  }

  function KidsUpTo(n: Node, i: nat): seq<Node>
    requires i <= |CONTAINER_KEYS|
  {
    if i == 0 then []
    else KidsUpTo(n, i - 1) + Tagged(Children(n.obj, CONTAINER_KEYS[i - 1]), ContainerTable(CONTAINER_KEYS[i - 1]))
  }

  function Kids(n: Node): seq<Node> {
    KidsUpTo(n, |CONTAINER_KEYS|)
  }

  // ---- the number of objects the walk can reach ----

  function Weight(obj: ObjNode): nat
    decreases obj, 2
  {
    1 + WeightKeys(obj, |CONTAINER_KEYS|)
  }

  function WeightKeys(obj: ObjNode, i: nat): nat
    requires i <= |CONTAINER_KEYS|
    decreases obj, 1, i
  {
    if i == 0 then 0 else WeightKeys(obj, i - 1) + WeightAll(obj, Children(obj, CONTAINER_KEYS[i - 1]))
  }

  function WeightAll(obj: ObjNode, os: seq<ObjNode>): nat
    requires forall i | 0 <= i < |os| :: os[i] < obj
    decreases obj, 0, |os|
  {
    if os == [] then 0 else Weight(os[0]) + WeightAll(obj, os[1..])
  }

  function QueueWeight(ns: seq<Node>): nat {
    if ns == [] then 0 else Weight(ns[0].obj) + QueueWeight(ns[1..])
  }

  lemma {:induction false} QueueWeightConcat(ms: seq<Node>, ns: seq<Node>)
    ensures QueueWeight(ms + ns) == QueueWeight(ms) + QueueWeight(ns)
  {
    if ms == [] {
      assert ms + ns == ns;
    } else {
      assert (ms + ns)[1..] == ms[1..] + ns;
      QueueWeightConcat(ms[1..], ns);
    }
  }

  lemma {:induction false} TaggedWeight(obj: ObjNode, os: seq<ObjNode>, t: Table)
    requires forall i | 0 <= i < |os| :: os[i] < obj
    ensures QueueWeight(Tagged(os, t)) == WeightAll(obj, os)
  {
    if os == [] {
    } else {
      TaggedWeight(obj, os[1..], t);
      assert Tagged(os, t)[1..] == Tagged(os[1..], t);
    }
  }

  lemma {:induction false} KidsUpToWeight(n: Node, i: nat)
    requires i <= |CONTAINER_KEYS|
    ensures QueueWeight(KidsUpTo(n, i)) == WeightKeys(n.obj, i)
  {
    if i == 0 {
    } else {
      hide Children, ContainerTable;
      var key := CONTAINER_KEYS[i - 1];
      hide CONTAINER_KEYS;
      KidsUpToWeight(n, i - 1);
      TaggedWeight(n.obj, Children(n.obj, key), ContainerTable(key));
      QueueWeightConcat(KidsUpTo(n, i - 1), Tagged(Children(n.obj, key), ContainerTable(key)));
    }
  }

  /** Replacing a node by its children makes the pending work strictly smaller. */
  lemma KidsWeigh(n: Node, rest: seq<Node>)
    ensures QueueWeight(rest + Kids(n)) < QueueWeight([n] + rest)
  {
    KidsUpToWeight(n, |CONTAINER_KEYS|);
    QueueWeightConcat(rest, Kids(n));
    assert ([n] + rest)[1..] == rest;
  }

  // ---- level order ----

  function NextLevel(ns: seq<Node>): seq<Node> {
    if ns == [] then [] else Kids(ns[0]) + NextLevel(ns[1..])
  }

  lemma {:induction false} NextLevelWeight(ns: seq<Node>)
    ensures QueueWeight(NextLevel(ns)) + |ns| == QueueWeight(ns)
  {
    if ns == [] {
    } else {
      hide Kids;
      NextLevelWeight(ns[1..]);
      KidsUpToWeight(ns[0], |CONTAINER_KEYS|);
      assert QueueWeight(Kids(ns[0])) + 1 == Weight(ns[0].obj) by { KidsWeight(ns[0]); }
      QueueWeightConcat(Kids(ns[0]), NextLevel(ns[1..]));
    }
  }

  lemma KidsWeight(n: Node)
    ensures QueueWeight(Kids(n)) + 1 == Weight(n.obj)
  {
    KidsUpToWeight(n, |CONTAINER_KEYS|);
  }

  /** All reachable objects, level by level. */
  function LevelOrder(ns: seq<Node>): seq<Node>
    decreases QueueWeight(ns)
  {
    if ns == [] then []
    else
      NextLevelWeight(ns);
      ns + LevelOrder(NextLevel(ns))
  }

  /** The order in which the worklist takes objects off its front. */
  ghost function QueueOrder(queue: seq<Node>): seq<Node>
    decreases QueueWeight(queue)
  {
    if queue == [] then []
    else
      KidsWeigh(queue[0], queue[1..]);
      assert [queue[0]] + queue[1..] == queue;
      [queue[0]] + QueueOrder(queue[1..] + Kids(queue[0]))
  }

  lemma QueueOrderOne(n: Node, rest: seq<Node>)
    ensures QueueOrder([n] + rest) == [n] + QueueOrder(rest + Kids(n))
  {
    hide Kids, QueueWeight;
    assert ([n] + rest)[1..] == rest;
  }

  lemma NextLevelOfMore(n: Node, rest: seq<Node>)
    ensures NextLevel([n] + rest) == Kids(n) + NextLevel(rest)
  {
    hide Kids;
    assert ([n] + rest)[1..] == rest;
  }

  lemma {:induction false} QueueTakesLevel(level: seq<Node>, below: seq<Node>)
    ensures QueueOrder(level + below) == level + QueueOrder(below + NextLevel(level))
    decreases |level|
  {
    if level == [] {
      assert level + below == below && below + [] == below;
    } else {
      hide *;
      var n, rest := level[0], level[1..];
      assert level == [n] + rest;
      assert level + below == [n] + (rest + below) && rest + below + Kids(n) == rest + (below + Kids(n));
      QueueOrderOne(n, rest + below);
      QueueTakesLevel(rest, below + Kids(n));
      NextLevelOfMore(n, rest);
      assert below + Kids(n) + NextLevel(rest) == below + (Kids(n) + NextLevel(rest));
      var later := QueueOrder(below + NextLevel(level));
      assert [n] + (rest + later) == [n] + rest + later;
    }
  }

  /** The first-in first-out worklist visits objects in level order. */
  lemma {:induction false} QueueIsLevelOrder(level: seq<Node>)
    ensures QueueOrder(level) == LevelOrder(level)
    decreases QueueWeight(level)
  {
    if level == [] {
    } else {
      NextLevelWeight(level);
      QueueTakesLevel(level, []);
      assert level + [] == level && [] + NextLevel(level) == NextLevel(level);
      QueueIsLevelOrder(NextLevel(level));
    }
  }

  // ---- the normalised payload ----

  type Totals = map<Field, real>

  function PickField(n: Node, f: Field): Option<real> {
    Pick(n.obj.fields, Aliases(n.table, f))
  }

  /** The first object of the walk that has a number for the field. */
  function FirstHit(order: seq<Node>, f: Field): Option<real> {
    if order == [] then None
    else if PickField(order[0], f).Some? then PickField(order[0], f)
    else FirstHit(order[1..], f)
  }

  function FirstHits(order: seq<Node>): Totals {
    map f: Field | f in FIELDS && FirstHit(order, f).Some? :: FirstHit(order, f).value
  }

  lemma AllFields(f: Field)
    ensures f in FIELDS
  {
    match f
    case Input => assert FIELDS[0] == f;
    case Output => assert FIELDS[1] == f;
    case CacheRead => assert FIELDS[2] == f;
    case CacheWrite => assert FIELDS[3] == f;
    case Reasoning => assert FIELDS[4] == f;
    case Total => assert FIELDS[5] == f;
    case Cost => assert FIELDS[6] == f;
  }

  function At(u: Totals, f: Field): real {
    if f in u then u[f] else 0.0
  }

  /** input + output + cache read + cache write, absent counts being nothing. */
  function Parts(u: Totals): real {
    At(u, Input) + At(u, Output) + At(u, CacheRead) + At(u, CacheWrite)
  }

  predicate HasCount(u: Totals) {
    Input in u || Output in u || CacheRead in u || CacheWrite in u
  }

  function Derive(u: Totals): Totals {
    if Total !in u && HasCount(u) then u[Total := Parts(u)] else u
  }

  /** The contract of the normaliser. */
  function Normalize(raw: Json): Totals {
    if raw.Obj? then Derive(FirstHits(LevelOrder([Node(raw, General)]))) else map[]
  }

  /** Field-wise sum; a field only one side has is taken over. */
  function Merge(total: Totals, u: Totals): Totals {
    total + map f: Field | f in u :: if f in total then total[f] + u[f] else u[f]
  }

  /** The usage of a turn so far: the merged normal forms of its usage events. */
  function Sum(payloads: seq<Json>): Totals {
    if payloads == [] then map[]
    else Merge(Sum(payloads[..|payloads| - 1]), Normalize(payloads[|payloads| - 1]))
  }

  function AsPayload(u: Totals): ObjNode {
    NamesDiffer();
    Obj(map f: Field | f in u :: FieldName(f) := Num(u[f]))
  }

  /** Length and first letters tell the contract's names from every other key the normaliser looks for. */
  predicate NameShape(s: string) {
    |s| >= 2 &&
    if |s| == 12 then s[0] == 'i' || s[0] == 't'
    else if |s| == 13 then s[0] == 'o'
    else if |s| == 17 || |s| == 18 then s[0] == 'c' && s[1] == 'a'
    else if |s| == 16 then s[0] == 'r'
    else |s| == 10 && s[0] == 't'
  }

  lemma NamesDiffer()
    ensures forall f: Field, g: Field | FieldName(f) == FieldName(g) :: f == g
  {
    forall f: Field, g: Field | FieldName(f) == FieldName(g) ensures f == g {
      NameCode(f);
      NameCode(g);
    }
  }

  lemma NameCode(f: Field)
    ensures var s := FieldName(f);
            NameShape(s)
            && f == if |s| == 12 then (if s[0] == 'i' then Input else Total) else if |s| == 13 then Output
                    else if |s| == 17 then CacheRead else if |s| == 18 then CacheWrite
                    else if |s| == 16 then Reasoning else Cost
  {}

  method PickMethod(fields: map<string, Json>, aliases: seq<string>) returns (value: Option<real>)
    ensures value == Pick(fields, aliases)
  {
    for i := 0 to |aliases|
      invariant Pick(fields, aliases) == Pick(fields, aliases[i..])
    {
      if aliases[i] in fields && fields[aliases[i]].Num? {
        return Some(fields[aliases[i]].number);
      }
    }
    value := None;
  }

  lemma {:induction false} FirstHitConcat(order: seq<Node>, more: seq<Node>, f: Field)
    ensures FirstHit(order + more, f) == if FirstHit(order, f).Some? then FirstHit(order, f) else FirstHit(more, f)
  {
    hide PickField;
    if order == [] {
      assert order + more == more;
    } else {
      assert (order + more)[1..] == order[1..] + more;
      FirstHitConcat(order[1..], more, f);
    }
  }

  /** What one visit adds: fields not yet found that this object has. */
  function Absorb(u: Totals, n: Node): Totals {
    u + map f: Field | f in FIELDS && f !in u && PickField(n, f).Some? :: PickField(n, f).value
  }

  lemma AbsorbHits(visited: seq<Node>, n: Node)
    ensures Absorb(FirstHits(visited), n) == FirstHits(visited + [n])
  {
    hide PickField, FIELDS;
    forall f: Field ensures FirstHit(visited + [n], f) ==
                            if FirstHit(visited, f).Some? then FirstHit(visited, f) else PickField(n, f) {
      FirstHitConcat(visited, [n], f);
      assert [n][1..] == [];
    }
  }

  method AbsorbNode(u: Totals, n: Node) returns (r: Totals)
    ensures r == Absorb(u, n)
  {
    hide PickField;
    r := u;
    for i := 0 to |FIELDS|
      invariant forall f | f in u :: f in r && r[f] == u[f]
      invariant forall f | f !in u ::
        (f in r <==> f in FIELDS[..i] && PickField(n, f).Some?) && (f in r ==> r[f] == PickField(n, f).value)
    {
      var f := FIELDS[i];
      assert FIELDS[..i + 1] == FIELDS[..i] + [f];
      if f !in r {
        var value := PickMethod(n.obj.fields, Aliases(n.table, f));
        assert value == PickField(n, f) by { PickFieldIs(n, f); }
        if value.Some? {
          r := r[f := value.value];
        }
      }
    }
    assert FIELDS[..|FIELDS|] == FIELDS;
  }

  lemma PickFieldIs(n: Node, f: Field)
    ensures PickField(n, f) == Pick(n.obj.fields, Aliases(n.table, f))
  {}

  method Enqueue(queue: seq<Node>, current: Node) returns (q: seq<Node>)
    ensures q == queue + Kids(current)
  {
    hide Children, ContainerTable;
    q := queue;
    for i := 0 to |CONTAINER_KEYS|
      invariant q == queue + KidsUpTo(current, i)
    {
      var key := CONTAINER_KEYS[i];
      q := q + Tagged(Children(current.obj, key), ContainerTable(key));
    }
  }

  lemma NoHits()
    ensures FirstHits([]) == map[]
  {}

  lemma NothingQueued()
    ensures QueueOrder([]) == []
  {}

  lemma QueueOrderStep(visited: seq<Node>, queue: seq<Node>)
    requires queue != []
    ensures visited + QueueOrder(queue) == visited + [queue[0]] + QueueOrder(queue[1..] + Kids(queue[0]))
    ensures QueueWeight(queue[1..] + Kids(queue[0])) < QueueWeight(queue)
  {
    hide Kids, Weight;
    var n, rest := queue[0], queue[1..];
    assert [n] + rest == queue;
    KidsWeigh(n, rest);
    hide QueueWeight;
    var later := QueueOrder(rest + Kids(n));
    assert QueueOrder(queue) == [n] + later;
    assert visited + ([n] + later) == visited + [n] + later;
  }

  method NormalizeUsagePayload(raw: Json) returns (result: Totals)
    ensures result == Normalize(raw)
  {
    if !raw.Obj? {
      return map[];
    }
    hide Kids, Absorb, FirstHits, QueueOrder, LevelOrder, QueueWeight;
    result := map[];
    var queue := [Node(raw, General)];
    ghost var visited: seq<Node> := [];
    QueueIsLevelOrder(queue);
    ghost var order := QueueOrder(queue);
    NoHits();
    while queue != []
      invariant visited + QueueOrder(queue) == order
      invariant result == FirstHits(visited)
      decreases QueueWeight(queue)
    {
      var current := queue[0];
      QueueOrderStep(visited, queue);
      queue := queue[1..];
      AbsorbHits(visited, current);
      result := AbsorbNode(result, current);
      visited := visited + [current];
      queue := Enqueue(queue, current);
    }
    assert visited == order by { NothingQueued(); }
    if Total !in result && HasCount(result) {
      result := result[Total := Parts(result)];
    }
  }
}
