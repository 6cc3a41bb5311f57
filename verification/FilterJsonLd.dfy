/**
 * filterJSONLD.ts: dropping the keys that start with "@" from a graph of objects, which may be
 * shared or cyclic. Records enter the visited set; arrays never do.
 */
module FilterJsonLd {

  import opened Json

  type Ref = nat

  datatype Value = Leaf(scalar: string) | At(ref: Ref)

  datatype Entry = Entry(key: string, value: Value)

  datatype Node = ArrayNode(items: seq<Value>) | RecordNode(entries: seq<Entry>)

  type Graph = map<Ref, Node>

  /** What the function returns: new arrays and records, and objects of the input as they are. */
  datatype Result =
    | Same(scalar: string)
    | NewArray(items: seq<Result>)
    | NewRecord(keys: seq<string>, values: seq<Result>)
    | Original(ref: Ref)

  predicate Closed(g: Graph)
  {
    forall r <- g :: ValuesIn(g, ChildrenOf(g[r]))
  }

  predicate ValuesIn(g: Graph, values: seq<Value>)
  {
    forall i :: 0 <= i < |values| ==> ValueIn(g, values[i])
  }

  predicate ValueIn(g: Graph, v: Value)
  {
    v.At? ==> v.ref in g
  }

  predicate IsAtKey(key: string)
  {
    key != "" && key[0] == '@'
  }

  /** The entries that pass the filter. */
  function Kept(entries: seq<Entry>): (kept: seq<Entry>)
    ensures forall e <- kept :: e in entries && !IsAtKey(e.key)
  {
    if entries == [] then []
    else if IsAtKey(entries[0].key) then Kept(entries[1..])
    else [entries[0]] + Kept(entries[1..])
  }

  function KeysOf(entries: seq<Entry>): (keys: seq<string>)
    ensures |keys| == |entries|
  {
    seq(|entries|, i requires 0 <= i < |entries| => entries[i].key)
  }

  function ValuesOf(entries: seq<Entry>): (values: seq<Value>)
    ensures |values| == |entries|
  {
    seq(|entries|, i requires 0 <= i < |entries| => entries[i].value)
  }

  /** The values that the function goes on to. */
  function ChildrenOf(node: Node): seq<Value>
  {
    match node
    case ArrayNode(items) => items
    case RecordNode(entries) => ValuesOf(entries)
  }

  // Graphs on which the recursion ends

  /** A walk from array to array. */
  ghost predicate ArrayWalk(g: Graph, walk: seq<Ref>)
  {
    && (forall i :: 0 <= i < |walk| ==> walk[i] in g && g[walk[i]].ArrayNode?)
    && (forall i :: 0 <= i < |walk| - 1 ==> Contains(g, walk[i], walk[i + 1]))
  }

  /** The array `a` has the object `b` among its items. */
  predicate Contains(g: Graph, a: Ref, b: Ref)
    requires a in g
  {
    g[a].ArrayNode? && At(b) in g[a].items
  }

  /** Every cycle passes through a record: no walk from array to array comes back. */
  ghost predicate NoArrayCycle(g: Graph)
  {
    forall walk :: ArrayWalk(g, walk) && |walk| > 1 ==> walk[0] != walk[|walk| - 1]
  }

  /** Numbers for the arrays, less than `limit`, that go down from each array to the arrays in it. */
  datatype Ranks = Ranks(of: map<Ref, nat>, limit: nat)

  predicate Grounded(g: Graph, ranks: Ranks)
  {
    && g.Keys <= ranks.of.Keys
    && (forall r <- g :: ranks.of[r] < ranks.limit)
    && (forall a <- g, b <- g :: Contains(g, a, b) && g[b].ArrayNode? ==> ranks.of[b] < ranks.of[a])
  }

  lemma {:induction false} WalksGoDown(g: Graph, ranks: Ranks, walk: seq<Ref>, k: nat)
    requires Grounded(g, ranks) && ArrayWalk(g, walk) && 0 < k < |walk|
    ensures ranks.of[walk[k]] < ranks.of[walk[0]]
  {
    assert Contains(g, walk[k - 1], walk[k - 1 + 1]);
    if k > 1 {
      WalksGoDown(g, ranks, walk, k - 1);
    }
  }

  function ArraysOf(g: Graph): set<Ref>
  {
    set r | r in g && g[r].ArrayNode?
  }

  /** An array of the set that holds none of the set. */
  ghost predicate IsSink(g: Graph, arrays: set<Ref>, a: Ref)
    requires arrays <= ArraysOf(g)
  {
    a in arrays && forall b <- arrays :: !Contains(g, a, b)
  }

  lemma {:induction false} WalkSnoc(g: Graph, walk: seq<Ref>, b: Ref)
    requires ArrayWalk(g, walk) && walk != [] && Contains(g, walk[|walk| - 1], b) && b in ArraysOf(g)
    ensures ArrayWalk(g, walk + [b])
  {
    forall i | 0 <= i < |walk| ensures Contains(g, (walk + [b])[i], (walk + [b])[i + 1]) {
      assert i < |walk| - 1 ==> Contains(g, walk[i], walk[i + 1]);
    }
  }

  lemma {:induction false} SubWalk(g: Graph, walk: seq<Ref>, i: nat, j: nat)
    requires ArrayWalk(g, walk) && i < j < |walk|
    ensures ArrayWalk(g, walk[i..j + 1])
  {
    var sub := walk[i..j + 1];
    forall k | 0 <= k < |sub| - 1 ensures Contains(g, sub[k], sub[k + 1]) {
      assert Contains(g, walk[i + k], walk[i + k + 1]);
    }
  }

  lemma HeldBy(g: Graph, arrays: set<Ref>, a: Ref) returns (b: Ref)
    requires arrays <= ArraysOf(g) && a in arrays && !IsSink(g, arrays, a)
    ensures b in arrays && b in ArraysOf(g) && Contains(g, a, b)
  {
    b :| b in arrays && Contains(g, a, b);
  }

  /** As long as there is no sink, walks can be made longer than the set. */
  lemma {:induction false} LongWalk(g: Graph, arrays: set<Ref>, n: nat) returns (walk: seq<Ref>)
    requires arrays <= ArraysOf(g) && arrays != {} && forall a <- arrays :: !IsSink(g, arrays, a)
    ensures |walk| == n + 1 && ArrayWalk(g, walk) && forall i :: 0 <= i < |walk| ==> walk[i] in arrays
  {
    if n == 0 {
      var a :| a in arrays;
      walk := [a];
    } else {
      var before := LongWalk(g, arrays, n - 1);
      var last := before[n - 1];
      var b := HeldBy(g, arrays, last);
      walk := before + [b];
      WalkSnoc(g, before, b);
    }
  }

  lemma {:induction false} Pigeonhole(walk: seq<Ref>, arrays: set<Ref>) returns (i: nat, j: nat)
    requires |walk| > |arrays| && forall k :: 0 <= k < |walk| ==> walk[k] in arrays
    ensures i < j < |walk| && walk[i] == walk[j]
  {
    var n := |walk| - 1;
    if k :| 0 <= k < n && walk[k] == walk[n] {
      return k, n;
    }
    assert arrays - {walk[n]} < arrays;
    Fewer(arrays - {walk[n]}, arrays);
    i, j := Pigeonhole(walk[..n], arrays - {walk[n]});
  }

  /** Without a sink some walk comes back. */
  lemma CycleWithoutSink(g: Graph, arrays: set<Ref>) returns (cycle: seq<Ref>)
    requires arrays <= ArraysOf(g) && arrays != {} && forall a <- arrays :: !IsSink(g, arrays, a)
    ensures ArrayWalk(g, cycle) && |cycle| > 1 && cycle[0] == cycle[|cycle| - 1]
  {
    var walk := LongWalk(g, arrays, |arrays|);
    var i, j := Pigeonhole(walk, arrays);
    SubWalk(g, walk, i, j);
    cycle := walk[i..j + 1];
  }

  lemma SinkExists(g: Graph, arrays: set<Ref>) returns (a: Ref)
    requires NoArrayCycle(g) && arrays <= ArraysOf(g) && arrays != {}
    ensures IsSink(g, arrays, a)
  {
    if forall a <- arrays :: !IsSink(g, arrays, a) {
      var cycle := CycleWithoutSink(g, arrays);
      assert false;
    }
    a :| a in arrays && IsSink(g, arrays, a);
  }

  /** Numbers by taking sinks away one after the other. */
  lemma {:induction false} NumbersFor(g: Graph, arrays: set<Ref>) returns (of: map<Ref, nat>)
    requires NoArrayCycle(g) && arrays <= ArraysOf(g)
    ensures of.Keys == arrays && forall r <- arrays :: of[r] < |arrays|
    ensures forall a <- arrays, b <- arrays :: Contains(g, a, b) ==> of[b] < of[a]
  {
    if arrays == {} {
      of := map[];
    } else {
      var sink := SinkExists(g, arrays);
      Fewer(arrays - {sink}, arrays);
      var others := NumbersFor(g, arrays - {sink});
      of := map r | r in arrays :: if r == sink then 0 else others[r] + 1;
    }
  }

  lemma RanksExist(g: Graph) returns (ranks: Ranks)
    requires NoArrayCycle(g)
    ensures Grounded(g, ranks)
  {
    var arrays := ArraysOf(g);
    var numbers := NumbersFor(g, arrays);
    ranks := Ranks(map r | r in g :: if r in arrays then numbers[r] else 0, |arrays| + 1);
  }

  /** The termination measure exists exactly on the graphs whose cycles pass through records. */
  lemma GroundedIff(g: Graph)
    ensures (exists ranks :: Grounded(g, ranks)) <==> NoArrayCycle(g)
  {
    if ranks :| Grounded(g, ranks) {
      forall walk | ArrayWalk(g, walk) && |walk| > 1 ensures walk[0] != walk[|walk| - 1] {
        WalksGoDown(g, ranks, walk, |walk| - 1);
      }
    }
    if NoArrayCycle(g) {
      var ranks := RanksExist(g);
    }
  }

  ghost function RanksOf(g: Graph): (ranks: Ranks)
    requires NoArrayCycle(g)
    ensures Grounded(g, ranks)
  {
    GroundedIff(g);
    var ranks :| Grounded(g, ranks);
    ranks
  }

  /** Every reference leads to an object, and every cycle passes through a record. */
  ghost predicate Valid(g: Graph)
  {
    Closed(g) && NoArrayCycle(g)
  }

  ghost function RankOf(g: Graph, v: Value): nat
    requires NoArrayCycle(g)
  {
    if v.At? && v.ref in g && g[v.ref].ArrayNode? then RanksOf(g).of[v.ref] + 1 else 0
  }

  ghost predicate RanksUpTo(g: Graph, values: seq<Value>, bound: nat)
    requires NoArrayCycle(g)
  {
    forall i :: 0 <= i < |values| ==> RankOf(g, values[i]) <= bound
  }

  lemma ItemsGoDown(g: Graph, r: Ref)
    requires Valid(g) && r in g && g[r].ArrayNode?
    ensures RanksUpTo(g, g[r].items, RanksOf(g).of[r]) && ValuesIn(g, g[r].items)
  {
    var items := g[r].items;
    assert ValuesIn(g, ChildrenOf(g[r]));
    forall i | 0 <= i < |items| ensures RankOf(g, items[i]) <= RanksOf(g).of[r] {
      if items[i].At? && g[items[i].ref].ArrayNode? {
        assert Contains(g, r, items[i].ref);
      }
    }
  }

  lemma KeptIsValid(g: Graph, r: Ref)
    requires Valid(g) && r in g && g[r].RecordNode?
    ensures ValuesIn(g, ValuesOf(Kept(g[r].entries)))
    ensures RanksUpTo(g, ValuesOf(Kept(g[r].entries)), RanksOf(g).limit)
  {
    var entries, kept := g[r].entries, Kept(g[r].entries);
    forall i | 0 <= i < |kept|
      ensures ValueIn(g, kept[i].value) && RankOf(g, kept[i].value) <= RanksOf(g).limit
    {
      assert kept[i] in entries;
      var j :| 0 <= j < |entries| && entries[j] == kept[i];
      assert ChildrenOf(g[r])[j] == kept[i].value;
    }
  }

  /** The recursion goes down on unvisited records first, and on the depth of arrays second. */
  function Filter(g: Graph, v: Value, visited: set<Ref>): (r: (Result, set<Ref>))
    requires Valid(g) && ValueIn(g, v)
    ensures visited <= r.1
    decreases |g.Keys - visited|, RankOf(g, v), 0
  {
    match v
    case Leaf(scalar) => (Same(scalar), visited)
    case At(ref) =>
      match g[ref]
      case ArrayNode(items) =>
        var (results, after) := FilterAll(g, items, RanksOf(g).of[ref], visited);
        (NewArray(results), after)
      case RecordNode(entries) =>
        if ref in visited then (Original(ref), visited)
        else
          assert g.Keys - (visited + {ref}) < g.Keys - visited;
          Fewer(g.Keys - (visited + {ref}), g.Keys - visited);
          KeptIsValid(g, ref);
          var kept := Kept(entries);
          var (results, after) := FilterAll(g, ValuesOf(kept), RanksOf(g).limit, visited + {ref});
          (NewRecord(KeysOf(kept), results), after)
  }

  function FilterAll(g: Graph, values: seq<Value>, ghost bound: nat, visited: set<Ref>)
    : (r: (seq<Result>, set<Ref>))
    requires Valid(g) && ValuesIn(g, values) && RanksUpTo(g, values, bound)
    ensures |r.0| == |values| && visited <= r.1
    decreases |g.Keys - visited|, bound, 1 + |values|
  {
    if values == [] then ([], visited)
    else
      var (first, between) := Filter(g, values[0], visited);
      AtMost(g.Keys - between, g.Keys - visited);
      var (rest, after) := FilterAll(g, values[1..], bound, between);
      ([first] + rest, after)
  }

  lemma AtMost<T>(a: set<T>, b: set<T>)
    requires a <= b
    ensures |a| <= |b|
  {
    assert b == a + (b - a);
  }

  lemma Fewer<T>(a: set<T>, b: set<T>)
    requires a < b
    ensures |a| < |b|
  {
    assert b == a + (b - a) && b - a != {};
  }

  /** The visited set that all calls share. */
  class WeakSet {
    var members: set<Ref>

    constructor ()
      ensures members == {}
    {
      members := {};
    }

    method Add(r: Ref)
      modifies this
      ensures members == old(members) + {r}
    {
      members := members + {r};
    }
  }

  method FilterInto(g: Graph, v: Value, visited: WeakSet) returns (result: Result)
    requires Valid(g) && ValueIn(g, v)
    modifies visited
    ensures (result, visited.members) == Filter(g, v, old(visited.members))
    decreases |g.Keys - visited.members|, RankOf(g, v), 0
  {
    if v.Leaf? {
      return Same(v.scalar);
    }
    match g[v.ref]
    case ArrayNode(items) =>
      var results := FilterEach(g, items, RanksOf(g).of[v.ref], visited);
      result := NewArray(results);
    case RecordNode(entries) =>
      if v.ref in visited.members {
        return Original(v.ref);
      }
      Fewer(g.Keys - (visited.members + {v.ref}), g.Keys - visited.members);
      visited.Add(v.ref);
      KeptIsValid(g, v.ref);
      var kept := Kept(entries);
      var results := FilterEach(g, ValuesOf(kept), RanksOf(g).limit, visited);
      result := NewRecord(KeysOf(kept), results);
  }

  /** `map` calls the function on one value after the other. */
  method FilterEach(g: Graph, values: seq<Value>, ghost bound: nat, visited: WeakSet)
    returns (results: seq<Result>)
    requires Valid(g) && ValuesIn(g, values) && RanksUpTo(g, values, bound)
    modifies visited
    ensures (results, visited.members) == FilterAll(g, values, bound, old(visited.members))
    decreases |g.Keys - visited.members|, bound, 1 + |values|
  {
    if values == [] {
      return [];
    }
    var first := FilterInto(g, values[0], visited);
    AtMost(g.Keys - visited.members, g.Keys - old(visited.members));
    var rest := FilterEach(g, values[1..], bound, visited);
    results := [first] + rest;
  }

  // What the traversal does

  function RecordCount(r: Result): nat
  {
    match r
    case NewArray(items) => RecordCounts(items)
    case NewRecord(_, values) => 1 + RecordCounts(values)
    case _ => 0
  }

  function RecordCounts(rs: seq<Result>): nat
  {
    if rs == [] then 0 else RecordCount(rs[0]) + RecordCounts(rs[1..])
  }

  lemma OneMore(visited: set<Ref>, ref: Ref, after: set<Ref>)
    requires ref !in visited && ref in after
    ensures after - visited == {ref} + (after - (visited + {ref}))
    ensures |after - visited| == 1 + |after - (visited + {ref})|
  {
    assert after - visited == {ref} + (after - (visited + {ref}));
  }

  /** One new record for each object that became visited: no object is expanded twice. */
  lemma {:induction false} ExpandsOnce(g: Graph, v: Value, visited: set<Ref>)
    requires Valid(g) && ValueIn(g, v)
    ensures var (r, after) := Filter(g, v, visited);
      RecordCount(r) == |after - visited| && after - visited <= g.Keys
    decreases |g.Keys - visited|, RankOf(g, v), 0
  {
    if v.At? {
      match g[v.ref]
      case ArrayNode(items) => ExpandsAllOnce(g, items, RanksOf(g).of[v.ref], visited);
      case RecordNode(entries) =>
        if v.ref !in visited {
          Fewer(g.Keys - (visited + {v.ref}), g.Keys - visited);
          KeptIsValid(g, v.ref);
          var values := ValuesOf(Kept(entries));
          ExpandsAllOnce(g, values, RanksOf(g).limit, visited + {v.ref});
          OneMore(visited, v.ref, FilterAll(g, values, RanksOf(g).limit, visited + {v.ref}).1);
        }
    }
  }

  lemma Stages<T>(a: set<T>, b: set<T>, c: set<T>)
    requires a <= b <= c
    ensures |c - a| == |b - a| + |c - b|
  {
    assert c - a == (b - a) + (c - b);
  }

  lemma {:induction false} ExpandsAllOnce(g: Graph, values: seq<Value>, bound: nat, visited: set<Ref>)
    requires Valid(g) && ValuesIn(g, values) && RanksUpTo(g, values, bound)
    ensures var (rs, after) := FilterAll(g, values, bound, visited);
      RecordCounts(rs) == |after - visited| && after - visited <= g.Keys
    decreases |g.Keys - visited|, bound, 1 + |values|
  {
    if values != [] {
      var (first, between) := Filter(g, values[0], visited);
      AtMost(g.Keys - between, g.Keys - visited);
      ExpandsOnce(g, values[0], visited);
      ExpandsAllOnce(g, values[1..], bound, between);
      var (rest, after) := FilterAll(g, values[1..], bound, between);
      Stages(visited, between, after);
      assert ([first] + rest)[1..] == rest;
    }
  }

  /** Each result comes from the value at its place. */
  lemma {:induction false} ResultOf(g: Graph, values: seq<Value>, bound: nat, visited: set<Ref>, k: nat)
    returns (seen: set<Ref>)
    requires Valid(g) && ValuesIn(g, values) && RanksUpTo(g, values, bound) && k < |values|
    ensures FilterAll(g, values, bound, visited).0[k] == Filter(g, values[k], seen).0
    decreases |values|
  {
    if k == 0 {
      seen := visited;
    } else {
      seen := ResultOf(g, values[1..], bound, Filter(g, values[0], visited).1, k - 1);
    }
  }

  // What a reader finds at a path of keys and indices

  datatype PathStep = Key(key: string) | Index(index: nat)

  function IndexOf(keys: seq<string>, key: string): (r: Option<nat>)
    ensures r.Some? ==> r.value < |keys|
  {
    if keys == [] then None
    else if keys[0] == key then Some(0)
    else match IndexOf(keys[1..], key) case None => None case Some(i) => Some(i + 1)
  }

  function Child(node: Node, step: PathStep): Option<Value>
  {
    match (node, step)
    case (ArrayNode(items), Index(i)) => if i < |items| then Some(items[i]) else None
    case (RecordNode(entries), Key(key)) =>
      (match IndexOf(KeysOf(entries), key) case None => None case Some(i) => Some(entries[i].value))
    case _ => None
  }

  function ValueAt(g: Graph, v: Value, path: seq<PathStep>): Option<Value>
    decreases |path|
  {
    if path == [] then Some(v)
    else if v.Leaf? || v.ref !in g then None
    else match Child(g[v.ref], path[0])
         case None => None
         case Some(child) => ValueAt(g, child, path[1..])
  }

  /** Objects of the input that the result holds are read as they are. */
  function ResultAt(g: Graph, r: Result, path: seq<PathStep>): Option<Result>
    decreases |path|
  {
    if path == [] then Some(r)
    else
      match (r, path[0])
      case (NewArray(items), Index(i)) => if i < |items| then ResultAt(g, items[i], path[1..]) else None
      case (NewRecord(keys, values), Key(key)) =>
        (match IndexOf(keys, key)
         case None => None
         case Some(i) => if i < |values| then ResultAt(g, values[i], path[1..]) else None)
      case (Original(ref), _) =>
        (match ValueAt(g, At(ref), path)
         case None => None
         case Some(Leaf(scalar)) => Some(Same(scalar))
         case Some(At(other)) => Some(Original(other)))
      case _ => None
  }

  /** `r` stands for `v`: the scalar, an array as long, a record with the kept keys, or the object itself. */
  predicate StandsFor(g: Graph, r: Result, v: Value)
  {
    match r
    case Same(scalar) => v == Leaf(scalar)
    case NewArray(items) => v.At? && v.ref in g && g[v.ref].ArrayNode? && |g[v.ref].items| == |items|
    case NewRecord(keys, values) =>
      v.At? && v.ref in g && g[v.ref].RecordNode? && keys == KeysOf(Kept(g[v.ref].entries)) && |values| == |keys|
    case Original(ref) => v == At(ref)
  }

  predicate WithoutAtKeys(path: seq<PathStep>)
  {
    forall i :: 0 <= i < |path| && path[i].Key? ==> path[i].key == "" || path[i].key[0] != '@'
  }

  lemma IndexCons(entry: Entry, rest: seq<Entry>, key: string)
    ensures var i := IndexOf(KeysOf(rest), key);
      IndexOf(KeysOf([entry] + rest), key) ==
        if entry.key == key then Some(0) else if i.None? then None else Some(i.value + 1)
  {
    assert KeysOf([entry] + rest)[1..] == KeysOf(rest);
  }

  ghost predicate SameEntry(entries: seq<Entry>, key: string)
  {
    var i, j := IndexOf(KeysOf(entries), key), IndexOf(KeysOf(Kept(entries)), key);
    (i.None? <==> j.None?) && (i.Some? ==> Kept(entries)[j.value] == entries[i.value])
  }

  lemma SameEntryCons(entry: Entry, rest: seq<Entry>, key: string)
    requires SameEntry(rest, key) && !IsAtKey(key)
    ensures SameEntry([entry] + rest, key)
  {
    assert ([entry] + rest)[1..] == rest;
    IndexCons(entry, rest, key);
    if IsAtKey(entry.key) {
      assert Kept([entry] + rest) == Kept(rest);
    } else {
      assert Kept([entry] + rest) == [entry] + Kept(rest);
      IndexCons(entry, Kept(rest), key);
    }
  }

  lemma {:induction false} KeptIndex(entries: seq<Entry>, key: string)
    requires !IsAtKey(key)
    ensures SameEntry(entries, key)
  {
    if entries != [] {
      KeptIndex(entries[1..], key);
      SameEntryCons(entries[0], entries[1..], key);
      assert [entries[0]] + entries[1..] == entries;
    }
  }

  lemma {:induction false} AtKeyIsDropped(entries: seq<Entry>, key: string)
    requires IsAtKey(key)
    ensures IndexOf(KeysOf(Kept(entries)), key).None?
  {
    if entries != [] {
      var rest := Kept(entries[1..]);
      AtKeyIsDropped(entries[1..], key);
      assert KeysOf([entries[0]] + rest)[1..] == KeysOf(rest);
    }
  }

  lemma {:induction false} FilteredItem(g: Graph, ref: Ref, visited: set<Ref>, i: nat) returns (seen: set<Ref>)
    requires Valid(g) && ref in g && g[ref].ArrayNode? && i < |g[ref].items|
    ensures var r := Filter(g, At(ref), visited).0;
      r.NewArray? && |r.items| == |g[ref].items|
      && ValueIn(g, g[ref].items[i]) && r.items[i] == Filter(g, g[ref].items[i], seen).0
  {
    ItemsGoDown(g, ref);
    seen := ResultOf(g, g[ref].items, RanksOf(g).of[ref], visited, i);
  }

  lemma {:induction false} FilteredEntry(g: Graph, ref: Ref, visited: set<Ref>, j: nat) returns (seen: set<Ref>)
    requires Valid(g) && ref in g && g[ref].RecordNode? && ref !in visited && j < |Kept(g[ref].entries)|
    ensures var r, kept := Filter(g, At(ref), visited).0, Kept(g[ref].entries);
      r.NewRecord? && r.keys == KeysOf(kept) && |r.values| == |kept|
      && ValueIn(g, kept[j].value) && r.values[j] == Filter(g, kept[j].value, seen).0
  {
    var values := ValuesOf(Kept(g[ref].entries));
    KeptIsValid(g, ref);
    assert ValueIn(g, values[j]);
    seen := ResultOf(g, values, RanksOf(g).limit, visited + {ref}, j);
  }

  lemma {:induction false} FilteredRecord(g: Graph, ref: Ref, visited: set<Ref>)
    requires Valid(g) && ref in g && g[ref].RecordNode? && ref !in visited
    ensures var r := Filter(g, At(ref), visited).0;
      r.NewRecord? && r.keys == KeysOf(Kept(g[ref].entries)) && |r.values| == |r.keys|
  {
  }

  lemma {:induction false} StandsForItself(g: Graph, v: Value, visited: set<Ref>)
    requires Valid(g) && ValueIn(g, v)
    ensures StandsFor(g, Filter(g, v, visited).0, v)
  {
  }

  /**
   * On every graph, shared or cyclic, a path without "@" keys leads to the same place in the
   * result as in the input, or to nothing in both.
   */
  lemma {:induction false} PathsKept(g: Graph, v: Value, visited: set<Ref>, path: seq<PathStep>)
    requires Valid(g) && ValueIn(g, v) && WithoutAtKeys(path)
    ensures var r, w := ResultAt(g, Filter(g, v, visited).0, path), ValueAt(g, v, path);
      (r.None? <==> w.None?) && (r.Some? ==> StandsFor(g, r.value, w.value))
    decreases |path|
  {
    if path == [] {
      StandsForItself(g, v, visited);
    } else if v.At? {
      match g[v.ref]
      case ArrayNode(items) =>
        if path[0].Index? && path[0].index < |items| {
          var seen := FilteredItem(g, v.ref, visited, path[0].index);
          PathsKept(g, items[path[0].index], seen, path[1..]);
        }
      case RecordNode(entries) =>
        if path[0].Key? && v.ref !in visited {
          FilteredRecord(g, v.ref, visited);
          KeptIndex(entries, path[0].key);
          var j := IndexOf(KeysOf(Kept(entries)), path[0].key);
          if j.Some? {
            var seen := FilteredEntry(g, v.ref, visited, j.value);
            PathsKept(g, Kept(entries)[j.value].value, seen, path[1..]);
          }
        }
    }
  }

  // Where "@" keys can be left

  /** No key of a new record starts with "@", at any depth. */
  predicate NewKeysClean(r: Result)
  {
    match r
    case NewArray(items) => AllNewKeysClean(items)
    case NewRecord(keys, values) => (forall key <- keys :: key == "" || key[0] != '@') && AllNewKeysClean(values)
    case _ => true
  }

  predicate AllNewKeysClean(rs: seq<Result>)
  {
    rs == [] || (NewKeysClean(rs[0]) && AllNewKeysClean(rs[1..]))
  }

  /** No object of the input is left in the result. */
  predicate AllNew(r: Result)
  {
    match r
    case Original(_) => false
    case NewArray(items) => EachAllNew(items)
    case NewRecord(_, values) => EachAllNew(values)
    case _ => true
  }

  predicate EachAllNew(rs: seq<Result>)
  {
    rs == [] || (AllNew(rs[0]) && EachAllNew(rs[1..]))
  }

  /** On every graph: only objects returned as they are can have "@" keys. */
  lemma {:induction false} CreatedKeysAreClean(g: Graph, v: Value, visited: set<Ref>)
    requires Valid(g) && ValueIn(g, v)
    ensures NewKeysClean(Filter(g, v, visited).0)
    decreases |g.Keys - visited|, RankOf(g, v), 0
  {
    if v.At? {
      match g[v.ref]
      case ArrayNode(items) => AllCreatedKeysAreClean(g, items, RanksOf(g).of[v.ref], visited);
      case RecordNode(entries) =>
        if v.ref !in visited {
          Fewer(g.Keys - (visited + {v.ref}), g.Keys - visited);
          KeptIsValid(g, v.ref);
          AllCreatedKeysAreClean(g, ValuesOf(Kept(entries)), RanksOf(g).limit, visited + {v.ref});
          assert forall e <- Kept(entries) :: !IsAtKey(e.key);
        }
    }
  }

  lemma {:induction false} AllCreatedKeysAreClean(g: Graph, values: seq<Value>, bound: nat, visited: set<Ref>)
    requires Valid(g) && ValuesIn(g, values) && RanksUpTo(g, values, bound)
    ensures AllNewKeysClean(FilterAll(g, values, bound, visited).0)
    decreases |g.Keys - visited|, bound, 1 + |values|
  {
    if values != [] {
      var (first, between) := Filter(g, values[0], visited);
      AtMost(g.Keys - between, g.Keys - visited);
      CreatedKeysAreClean(g, values[0], visited);
      AllCreatedKeysAreClean(g, values[1..], bound, between);
      var (rest, after) := FilterAll(g, values[1..], bound, between);
      assert ([first] + rest)[1..] == rest;
    }
  }

  // Inputs without sharing

  /** What can be seen from a value along kept keys, as a tree. */
  datatype Tree =
    | LeafTree(scalar: string)
    | ArrayTree(items: seq<Tree>)
    | RecordTree(ref: Ref, keys: seq<string>, values: seq<Tree>)

  ghost predicate Unfolds(g: Graph, v: Value, t: Tree)
    decreases t, 0
  {
    match t
    case LeafTree(scalar) => v == Leaf(scalar)
    case ArrayTree(items) =>
      v.At? && v.ref in g && g[v.ref].ArrayNode? && EachUnfolds(g, g[v.ref].items, items)
    case RecordTree(ref, keys, values) =>
      v == At(ref) && ref in g && g[ref].RecordNode?
      && keys == KeysOf(Kept(g[ref].entries)) && EachUnfolds(g, ValuesOf(Kept(g[ref].entries)), values)
  }

  ghost predicate EachUnfolds(g: Graph, values: seq<Value>, trees: seq<Tree>)
    decreases trees, |trees|
  {
    && |values| == |trees|
    && (trees == [] || (Unfolds(g, values[0], trees[0]) && EachUnfolds(g, values[1..], trees[1..])))
  }

  /** The records of a tree, once for every place they are at. */
  function RecordsIn(t: Tree): multiset<Ref>
  {
    match t
    case LeafTree(_) => multiset{}
    case ArrayTree(items) => RecordsInAll(items)
    case RecordTree(ref, _, values) => multiset{ref} + RecordsInAll(values)
  }

  function RecordsInAll(trees: seq<Tree>): multiset<Ref>
  {
    if trees == [] then multiset{} else RecordsIn(trees[0]) + RecordsInAll(trees[1..])
  }

  /** No record is at two places, or visited before. */
  ghost predicate Unshared(records: multiset<Ref>, visited: set<Ref>)
  {
    forall r :: records[r] <= (if r in visited then 0 else 1)
  }

  /** From `v` on, every record is at one place, and none of them was visited. */
  ghost predicate IsTree(g: Graph, v: Value, t: Tree, visited: set<Ref>)
  {
    Unfolds(g, v, t) && Unshared(RecordsIn(t), visited)
  }

  function Members(m: multiset<Ref>): set<Ref>
  {
    set r | r in m
  }

  lemma UnsharedSum(a: multiset<Ref>, b: multiset<Ref>, visited: set<Ref>)
    ensures Unshared(a + b, visited) <==> Unshared(a, visited) && Unshared(b, visited + Members(a))
    ensures visited + Members(a) + Members(b) == visited + Members(a + b)
  {
    assert forall r :: (a + b)[r] == a[r] + b[r];
    if Unshared(a, visited) && Unshared(b, visited + Members(a)) {
      forall r
        ensures (a + b)[r] <= (if r in visited then 0 else 1)
      {
        assert r in a ==> r in Members(a);
      }
    }
  }

  /** The tree as new objects. */
  function Plain(t: Tree): Result
  {
    match t
    case LeafTree(scalar) => Same(scalar)
    case ArrayTree(items) => NewArray(PlainAll(items))
    case RecordTree(_, keys, values) => NewRecord(keys, PlainAll(values))
  }

  function PlainAll(trees: seq<Tree>): seq<Result>
  {
    if trees == [] then [] else [Plain(trees[0])] + PlainAll(trees[1..])
  }

  lemma OneUnshared(ref: Ref, others: multiset<Ref>, visited: set<Ref>)
    requires Unshared(multiset{ref} + others, visited)
    ensures ref !in visited && Unshared(others, visited + {ref})
    ensures visited + Members(multiset{ref} + others) == (visited + {ref}) + Members(others)
  {
    UnsharedSum(multiset{ref}, others, visited);
    assert Members(multiset{ref}) == {ref};
    assert multiset{ref}[ref] == 1;
  }

  lemma {:induction false} TreeIsCopied(g: Graph, v: Value, t: Tree, visited: set<Ref>)
    requires Valid(g) && ValueIn(g, v) && Unfolds(g, v, t) && Unshared(RecordsIn(t), visited)
    ensures Filter(g, v, visited) == (Plain(t), visited + Members(RecordsIn(t)))
    decreases t, 0
  {
    match t
    case LeafTree(_) => assert visited + Members(multiset{}) == visited;
    case ArrayTree(items) => TreesAreCopied(g, g[v.ref].items, items, RanksOf(g).of[v.ref], visited);
    case RecordTree(ref, keys, values) =>
      OneUnshared(ref, RecordsInAll(values), visited);
      KeptIsValid(g, ref);
      TreesAreCopied(g, ValuesOf(Kept(g[ref].entries)), values, RanksOf(g).limit, visited + {ref});
      RecordIsCopied(g, ref, values, visited);
  }

  /** A record met for the first time, whose values are copied. */
  lemma RecordIsCopied(g: Graph, ref: Ref, values: seq<Tree>, visited: set<Ref>)
    requires Valid(g) && ref in g && g[ref].RecordNode? && ref !in visited
    requires var kept := ValuesOf(Kept(g[ref].entries));
      && ValuesIn(g, kept) && RanksUpTo(g, kept, RanksOf(g).limit)
      && FilterAll(g, kept, RanksOf(g).limit, visited + {ref}) == (PlainAll(values), (visited + {ref}) + Members(RecordsInAll(values)))
    ensures Filter(g, At(ref), visited) ==
            (NewRecord(KeysOf(Kept(g[ref].entries)), PlainAll(values)), (visited + {ref}) + Members(RecordsInAll(values)))
  {
  }

  lemma {:induction false} TreesAreCopied(g: Graph, values: seq<Value>, trees: seq<Tree>, bound: nat, visited: set<Ref>)
    requires Valid(g) && ValuesIn(g, values) && RanksUpTo(g, values, bound)
    requires EachUnfolds(g, values, trees) && Unshared(RecordsInAll(trees), visited)
    ensures FilterAll(g, values, bound, visited) == (PlainAll(trees), visited + Members(RecordsInAll(trees)))
    decreases trees, |trees|
  {
    if trees == [] {
      assert visited + Members(multiset{}) == visited;
    } else {
      UnsharedSum(RecordsIn(trees[0]), RecordsInAll(trees[1..]), visited);
      TreeIsCopied(g, values[0], trees[0], visited);
      TreesAreCopied(g, values[1..], trees[1..], bound, visited + Members(RecordsIn(trees[0])));
    }
  }

  lemma RecordIsTree(g: Graph, ref: Ref, trees: seq<Tree>, visited: set<Ref>)
    requires ref in g && g[ref].RecordNode? && ref !in visited
    requires EachUnfolds(g, ValuesOf(Kept(g[ref].entries)), trees) && Unshared(RecordsInAll(trees), visited + {ref})
    ensures IsTree(g, At(ref), RecordTree(ref, KeysOf(Kept(g[ref].entries)), trees), visited)
  {
    assert Members(multiset{ref}) == {ref};
    UnsharedSum(multiset{ref}, RecordsInAll(trees), visited);
  }

  /** A result made of new objects only shows that the input was a tree. */
  lemma {:induction false} CopyIsTree(g: Graph, v: Value, visited: set<Ref>) returns (t: Tree)
    requires Valid(g) && ValueIn(g, v) && AllNew(Filter(g, v, visited).0)
    ensures IsTree(g, v, t, visited)
    decreases |g.Keys - visited|, RankOf(g, v), 0
  {
    if v.Leaf? {
      t := LeafTree(v.scalar);
    } else if g[v.ref].ArrayNode? {
      var trees := CopiesAreTrees(g, g[v.ref].items, RanksOf(g).of[v.ref], visited);
      t := ArrayTree(trees);
    } else {
      var kept := Kept(g[v.ref].entries);
      Fewer(g.Keys - (visited + {v.ref}), g.Keys - visited);
      KeptIsValid(g, v.ref);
      var trees := CopiesAreTrees(g, ValuesOf(kept), RanksOf(g).limit, visited + {v.ref});
      t := RecordTree(v.ref, KeysOf(kept), trees);
      RecordIsTree(g, v.ref, trees, visited);
    }
  }

  lemma {:induction false} CopiesAreTrees(g: Graph, values: seq<Value>, bound: nat, visited: set<Ref>)
    returns (trees: seq<Tree>)
    requires Valid(g) && ValuesIn(g, values) && RanksUpTo(g, values, bound)
    requires EachAllNew(FilterAll(g, values, bound, visited).0)
    ensures EachUnfolds(g, values, trees) && Unshared(RecordsInAll(trees), visited)
    decreases |g.Keys - visited|, bound, 1 + |values|
  {
    if values == [] {
      trees := [];
    } else {
      var (first, between) := Filter(g, values[0], visited);
      var (rest, after) := FilterAll(g, values[1..], bound, between);
      assert ([first] + rest)[1..] == rest;
      AtMost(g.Keys - between, g.Keys - visited);
      var t := CopyIsTree(g, values[0], visited);
      TreeIsCopied(g, values[0], t, visited);
      var ts := CopiesAreTrees(g, values[1..], bound, between);
      trees := [t] + ts;
      assert trees[1..] == ts;
      UnsharedSum(RecordsIn(t), RecordsInAll(ts), visited);
    }
  }

  /** Objects of the input are left in the result exactly when a record is met more than once. */
  lemma AllNewIff(g: Graph, v: Value, visited: set<Ref>)
    requires Valid(g) && ValueIn(g, v)
    ensures AllNew(Filter(g, v, visited).0) <==>
            exists t :: IsTree(g, v, t, visited)
  {
    if AllNew(Filter(g, v, visited).0) {
      var t := CopyIsTree(g, v, visited);
    }
    forall t | IsTree(g, v, t, visited)
      ensures AllNew(Filter(g, v, visited).0)
    {
      TreeIsCopied(g, v, t, visited);
      PlainIsNew(t);
    }
  }

  lemma {:induction false} PlainIsNew(t: Tree)
    ensures AllNew(Plain(t))
    decreases t, 0
  {
    match t
    case LeafTree(_) =>
    case ArrayTree(items) => PlainsAreNew(items);
    case RecordTree(_, _, values) => PlainsAreNew(values);
  }

  lemma {:induction false} PlainsAreNew(trees: seq<Tree>)
    ensures EachAllNew(PlainAll(trees))
    decreases trees, |trees|
  {
    if trees != [] {
      PlainIsNew(trees[0]);
      PlainsAreNew(trees[1..]);
      assert PlainAll(trees)[1..] == PlainAll(trees[1..]);
    }
  }

  /** The value `v` of `g` is the object that the result `r` describes. */
  ghost predicate Holds(g: Graph, v: Value, r: Result)
    decreases r, 0
  {
    match r
    case Same(scalar) => v == Leaf(scalar)
    case NewArray(items) => v.At? && v.ref in g && g[v.ref].ArrayNode? && EachHolds(g, g[v.ref].items, items)
    case NewRecord(keys, values) =>
      v.At? && v.ref in g && g[v.ref].RecordNode?
      && keys == KeysOf(g[v.ref].entries) && EachHolds(g, ValuesOf(g[v.ref].entries), values)
    case Original(_) => false
  }

  ghost predicate EachHolds(g: Graph, values: seq<Value>, rs: seq<Result>)
    decreases rs, |rs|
  {
    && |values| == |rs|
    && (rs == [] || (Holds(g, values[0], rs[0]) && EachHolds(g, values[1..], rs[1..])))
  }

  lemma {:induction false} NothingToDrop(entries: seq<Entry>)
    requires forall key <- KeysOf(entries) :: !IsAtKey(key)
    ensures Kept(entries) == entries
  {
    if entries != [] {
      assert KeysOf(entries)[0] in KeysOf(entries);
      assert KeysOf(entries) == [entries[0].key] + KeysOf(entries[1..]);
      NothingToDrop(entries[1..]);
    }
  }

  lemma {:induction false} HeldIsPlain(g: Graph, v: Value, t: Tree, r: Result)
    requires Unfolds(g, v, t) && Holds(g, v, r) && NewKeysClean(r)
    ensures Plain(t) == r
    decreases t, 0
  {
    match t
    case LeafTree(_) =>
    case ArrayTree(items) => HeldArePlain(g, g[v.ref].items, items, r.items);
    case RecordTree(ref, keys, values) =>
      NothingToDrop(g[ref].entries);
      HeldArePlain(g, ValuesOf(g[ref].entries), values, r.values);
  }

  lemma {:induction false} HeldArePlain(g: Graph, values: seq<Value>, trees: seq<Tree>, rs: seq<Result>)
    requires EachUnfolds(g, values, trees) && EachHolds(g, values, rs) && AllNewKeysClean(rs)
    ensures PlainAll(trees) == rs
    decreases trees, |trees|
  {
    if trees != [] {
      HeldIsPlain(g, values[0], trees[0], rs[0]);
      HeldArePlain(g, values[1..], trees[1..], rs[1..]);
      assert rs == [rs[0]] + rs[1..];
    }
  }

  /**
   * Without sharing, filtering is complete and idempotent: the result has new objects only and
   * no "@" key at any depth, and filtering the object it describes gives the same again.
   */
  lemma FilterHeld(g: Graph, v: Value, t: Tree, g': Graph, v': Value, t': Tree)
    requires Valid(g) && ValueIn(g, v) && IsTree(g, v, t, {})
    requires Valid(g') && ValueIn(g', v') && IsTree(g', v', t', {})
    requires Holds(g', v', Filter(g, v, {}).0)
    ensures var r := Filter(g, v, {}).0;
      AllNew(r) && NewKeysClean(r) && Filter(g', v', {}).0 == r
  {
    var r := Filter(g, v, {}).0;
    TreeIsCopied(g, v, t, {});
    PlainIsNew(t);
    CreatedKeysAreClean(g, v, {});
    TreeIsCopied(g', v', t', {});
    HeldIsPlain(g', v', t', r);
  }

  // The result as objects of its own

  /** Every record of the result has a value for each key. */
  predicate Paired(r: Result)
  {
    match r
    case NewArray(items) => EachPaired(items)
    case NewRecord(keys, values) => |keys| == |values| && EachPaired(values)
    case _ => true
  }

  predicate EachPaired(rs: seq<Result>)
  {
    rs == [] || (Paired(rs[0]) && EachPaired(rs[1..]))
  }

  function Zip(keys: seq<string>, values: seq<Value>): seq<Entry>
    requires |keys| == |values|
  {
    seq(|keys|, i requires 0 <= i < |keys| => Entry(keys[i], values[i]))
  }

  /** New objects for a result, with references from `next` on; the tree is what they unfold to. */
  datatype Layout = Layout(graph: Graph, value: Value, tree: Tree, next: Ref)

  datatype Layouts = Layouts(graph: Graph, values: seq<Value>, trees: seq<Tree>, next: Ref)

  function Lay(r: Result, next: Ref): Layout
    requires AllNew(r) && Paired(r)
  {
    match r
    case Same(scalar) => Layout(map[], Leaf(scalar), LeafTree(scalar), next)
    case NewArray(items) =>
      var below := LayAll(items, next);
      Layout(below.graph[below.next := ArrayNode(below.values)], At(below.next), ArrayTree(below.trees), below.next + 1)
    case NewRecord(keys, values) =>
      var below := LayAll(values, next);
      Layout(below.graph[below.next := RecordNode(Zip(keys, below.values))], At(below.next),
             RecordTree(below.next, keys, below.trees), below.next + 1)
  }

  function LayAll(rs: seq<Result>, next: Ref): (l: Layouts)
    requires EachAllNew(rs) && EachPaired(rs)
    ensures |l.values| == |rs|
  {
    if rs == [] then Layouts(map[], [], [], next)
    else
      var first := Lay(rs[0], next);
      var rest := LayAll(rs[1..], first.next);
      Layouts(first.graph + rest.graph, [first.value] + rest.values, [first.tree] + rest.trees, rest.next)
  }

  /** The objects of a graph refer to objects of it with smaller numbers only. */
  ghost predicate Downward(g: Graph, from: Ref, next: Ref)
  {
    forall r <- g :: from <= r < next && ValuesIn(g, ChildrenOf(g[r])) && ValuesBelow(ChildrenOf(g[r]), r)
  }

  predicate ValuesBelow(values: seq<Value>, bound: Ref)
  {
    forall i :: 0 <= i < |values| ==> ValueBelow(values[i], bound)
  }

  predicate ValueBelow(v: Value, bound: Ref)
  {
    v.At? ==> v.ref < bound
  }

  lemma {:induction false} LaidDownward(r: Result, next: Ref)
    requires AllNew(r) && Paired(r)
    ensures var l := Lay(r, next);
      next <= l.next && Downward(l.graph, next, l.next) && ValueIn(l.graph, l.value) && ValueBelow(l.value, l.next)
    decreases r, 0
  {
    match r
    case Same(_) =>
    case NewArray(items) =>
      AllLaidDownward(items, next);
    case NewRecord(keys, values) =>
      AllLaidDownward(values, next);
      assert ValuesOf(Zip(keys, LayAll(values, next).values)) == LayAll(values, next).values;
  }

  lemma {:induction false} AllLaidDownward(rs: seq<Result>, next: Ref)
    requires EachAllNew(rs) && EachPaired(rs)
    ensures var l := LayAll(rs, next);
      next <= l.next && Downward(l.graph, next, l.next) && ValuesIn(l.graph, l.values) && ValuesBelow(l.values, l.next)
    decreases rs, |rs|
  {
    if rs != [] {
      LaidDownward(rs[0], next);
      AllLaidDownward(rs[1..], Lay(rs[0], next).next);
    }
  }

  lemma DownwardIsValid(g: Graph, from: Ref, next: Ref)
    requires Downward(g, from, next)
    ensures Valid(g)
  {
    var ranks := Ranks(map r | r in g :: r, next);
    forall a, b | a in g && b in g && Contains(g, a, b) ensures b < a {
      var i :| 0 <= i < |g[a].items| && g[a].items[i] == At(b);
      assert ValueBelow(ChildrenOf(g[a])[i], a);
    }
    assert Grounded(g, ranks);
    GroundedIff(g);
  }

  /** A larger graph. */
  predicate Extends(g: Graph, bigger: Graph)
  {
    forall r <- g :: r in bigger && bigger[r] == g[r]
  }

  lemma {:induction false} HoldsInExtension(g: Graph, bigger: Graph, v: Value, r: Result)
    requires Extends(g, bigger) && Holds(g, v, r)
    ensures Holds(bigger, v, r)
    decreases r, 0
  {
    match r
    case NewArray(items) => EachHoldsInExtension(g, bigger, g[v.ref].items, items);
    case NewRecord(_, values) => EachHoldsInExtension(g, bigger, ValuesOf(g[v.ref].entries), values);
    case _ =>
  }

  lemma {:induction false} EachHoldsInExtension(g: Graph, bigger: Graph, values: seq<Value>, rs: seq<Result>)
    requires Extends(g, bigger) && EachHolds(g, values, rs)
    ensures EachHolds(bigger, values, rs)
    decreases rs, |rs|
  {
    if rs != [] {
      HoldsInExtension(g, bigger, values[0], rs[0]);
      EachHoldsInExtension(g, bigger, values[1..], rs[1..]);
    }
  }

  lemma {:induction false} UnfoldsInExtension(g: Graph, bigger: Graph, v: Value, t: Tree)
    requires Extends(g, bigger) && Unfolds(g, v, t)
    ensures Unfolds(bigger, v, t)
    decreases t, 0
  {
    match t
    case LeafTree(_) =>
    case ArrayTree(items) => EachUnfoldsInExtension(g, bigger, g[v.ref].items, items);
    case RecordTree(ref, _, values) => EachUnfoldsInExtension(g, bigger, ValuesOf(Kept(g[ref].entries)), values);
  }

  lemma {:induction false} EachUnfoldsInExtension(g: Graph, bigger: Graph, values: seq<Value>, trees: seq<Tree>)
    requires Extends(g, bigger) && EachUnfolds(g, values, trees)
    ensures EachUnfolds(bigger, values, trees)
    decreases trees, |trees|
  {
    if trees != [] {
      UnfoldsInExtension(g, bigger, values[0], trees[0]);
      EachUnfoldsInExtension(g, bigger, values[1..], trees[1..]);
    }
  }

  /** The records of a layout have numbers of their own. */
  ghost predicate OnceWithin(records: multiset<Ref>, from: Ref, next: Ref)
  {
    forall r :: records[r] <= (if from <= r < next then 1 else 0)
  }

  lemma {:induction false} LaidHolds(r: Result, next: Ref)
    requires AllNew(r) && Paired(r) && NewKeysClean(r)
    ensures var l := Lay(r, next);
      Holds(l.graph, l.value, r) && Unfolds(l.graph, l.value, l.tree) && OnceWithin(RecordsIn(l.tree), next, l.next)
    decreases r, 0
  {
    var l := Lay(r, next);
    match r
    case Same(_) =>
    case NewArray(items) =>
      var below := LayAll(items, next);
      AllLaidHold(items, next);
      AllLaidDownward(items, next);
      assert Extends(below.graph, l.graph);
      EachHoldsInExtension(below.graph, l.graph, below.values, items);
      EachUnfoldsInExtension(below.graph, l.graph, below.values, below.trees);
    case NewRecord(keys, values) =>
      var below := LayAll(values, next);
      var entries := Zip(keys, below.values);
      AllLaidHold(values, next);
      AllLaidDownward(values, next);
      assert Extends(below.graph, l.graph);
      EachHoldsInExtension(below.graph, l.graph, below.values, values);
      EachUnfoldsInExtension(below.graph, l.graph, below.values, below.trees);
      assert KeysOf(entries) == keys && ValuesOf(entries) == below.values;
      NothingToDrop(entries);
  }

  lemma {:induction false} AllLaidHold(rs: seq<Result>, next: Ref)
    requires EachAllNew(rs) && EachPaired(rs) && AllNewKeysClean(rs)
    ensures var l := LayAll(rs, next);
      && EachHolds(l.graph, l.values, rs) && EachUnfolds(l.graph, l.values, l.trees)
      && OnceWithin(RecordsInAll(l.trees), next, l.next)
    decreases rs, |rs|
  {
    if rs != [] {
      var l, first := LayAll(rs, next), Lay(rs[0], next);
      var rest := LayAll(rs[1..], first.next);
      LaidHolds(rs[0], next);
      AllLaidHold(rs[1..], first.next);
      LaidDownward(rs[0], next);
      AllLaidDownward(rs[1..], first.next);
      assert Extends(first.graph, l.graph) && Extends(rest.graph, l.graph);
      HoldsInExtension(first.graph, l.graph, first.value, rs[0]);
      UnfoldsInExtension(first.graph, l.graph, first.value, first.tree);
      EachHoldsInExtension(rest.graph, l.graph, rest.values, rs[1..]);
      EachUnfoldsInExtension(rest.graph, l.graph, rest.values, rest.trees);
      assert l.values[1..] == rest.values && l.trees[1..] == rest.trees;
    }
  }

  lemma {:induction false} FilteredIsPaired(g: Graph, v: Value, visited: set<Ref>)
    requires Valid(g) && ValueIn(g, v)
    ensures Paired(Filter(g, v, visited).0)
    decreases |g.Keys - visited|, RankOf(g, v), 0
  {
    if v.At? {
      match g[v.ref]
      case ArrayNode(items) =>
        ItemsGoDown(g, v.ref);
        AllFilteredArePaired(g, items, RanksOf(g).of[v.ref], visited);
      case RecordNode(entries) =>
        if v.ref !in visited {
          Fewer(g.Keys - (visited + {v.ref}), g.Keys - visited);
          KeptIsValid(g, v.ref);
          AllFilteredArePaired(g, ValuesOf(Kept(entries)), RanksOf(g).limit, visited + {v.ref});
        }
    }
  }

  lemma {:induction false} AllFilteredArePaired(g: Graph, values: seq<Value>, bound: nat, visited: set<Ref>)
    requires Valid(g) && ValuesIn(g, values) && RanksUpTo(g, values, bound)
    ensures EachPaired(FilterAll(g, values, bound, visited).0)
    decreases |g.Keys - visited|, bound, 1 + |values|
  {
    if values != [] {
      var (first, between) := Filter(g, values[0], visited);
      AtMost(g.Keys - between, g.Keys - visited);
      FilteredIsPaired(g, values[0], visited);
      AllFilteredArePaired(g, values[1..], bound, between);
      var (rest, after) := FilterAll(g, values[1..], bound, between);
      assert ([first] + rest)[1..] == rest;
    }
  }

  /**
   * Filtering is idempotent on inputs without sharing: the result is an object of its own,
   * laid out as `l`, and filtering that object gives the same result once more.
   */
  lemma FilterTwice(g: Graph, v: Value, t: Tree) returns (l: Layout)
    requires Valid(g) && ValueIn(g, v) && IsTree(g, v, t, {})
    ensures var r := Filter(g, v, {}).0;
      && AllNew(r) && NewKeysClean(r)
      && Valid(l.graph) && ValueIn(l.graph, l.value) && Holds(l.graph, l.value, r)
      && Filter(l.graph, l.value, {}).0 == r
  {
    var r := Filter(g, v, {}).0;
    TreeIsCopied(g, v, t, {});
    PlainIsNew(t);
    CreatedKeysAreClean(g, v, {});
    FilteredIsPaired(g, v, {});
    l := Lay(r, 0);
    LaidDownward(r, 0);
    DownwardIsValid(l.graph, 0, l.next);
    LaidHolds(r, 0);
    assert IsTree(l.graph, l.value, l.tree, {});
    FilterHeld(g, v, t, l.graph, l.value, l.tree);
  }

  lemma FilterPair(g: Graph, a: Value, b: Value, bound: nat, visited: set<Ref>)
    requires Valid(g) && ValuesIn(g, [a, b]) && RanksUpTo(g, [a, b], bound)
    ensures ValueIn(g, a) && ValueIn(g, b)
    ensures var (first, between) := Filter(g, a, visited);
      FilterAll(g, [a, b], bound, visited).0 == [first, Filter(g, b, between).0]
  {
    assert [a, b][0] == a && [a, b][1] == b && [a, b][1..] == [b] && [b][1..] == [];
  }

  /** An object at two places: where it is met again it is returned with its "@" key. */
  lemma SharingLeavesAtKeys()
    ensures var g: Graph := map[
        0 := ArrayNode([At(1), At(1)]),
        1 := RecordNode([Entry("@id", Leaf("x"))])];
      && Valid(g)
      && Filter(g, At(0), {}).0 == NewArray([NewRecord([], []), Original(1)])
      && g[1].entries[0].key == "@id"
  {
    var g: Graph := map[
      0 := ArrayNode([At(1), At(1)]),
      1 := RecordNode([Entry("@id", Leaf("x"))])];
    assert Valid(g) by {
      assert Grounded(g, Ranks(map[0 := 0, 1 := 0], 1));
      GroundedIff(g);
    }
    assert Kept(g[1].entries) == [] && KeysOf([]) == [] && ValuesOf([]) == [];
    assert Filter(g, At(1), {}).0 == NewRecord([], []);
    ItemsGoDown(g, 0);
    FilterPair(g, At(1), At(1), RanksOf(g).of[0], {});
  }
}
