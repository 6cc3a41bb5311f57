/** Aggregate slots (packages/calc-engine/src/pushdown.ts) and their fingerprints. */
module Pushdown {
  import opened Strings
  import opened Json
  import opened JsonText
  import opened Canonical
  import opened Profiles
  import opened Fingerprints

  /** The position a key names in an array of n items, or n. */
  function IndexOf(key: string, n: nat, from: nat): nat
    requires from <= n
    decreases n - from
  {
    if from == n || IntText(from) == key then from else IndexOf(key, n, from + 1)
  }

  function Member(v: Json, key: string): Json
  {
    match v
    case Obj(fields) => Lookup(fields, key)
    case Arr(items) =>
      if key == "length" then Num(|items|)
      else
        var i := IndexOf(key, |items|, 0);
        if 0 <= i < |items| then items[i] else Undefined
    case _ => Undefined
  }

  /** lodash `get` */
  function Get(v: Json, path: seq<string>): Json
    decreases |path|
  {
    if path == [] then v else Get(Member(v, path[0]), path[1..])
  }

  lemma {:induction false} GetOneMore(v: Json, path: seq<string>, key: string)
    ensures Get(v, path + [key]) == Member(Get(v, path), key)
    decreases |path|
  {
    if path != [] {
      assert (path + [key])[1..] == path[1..] + [key];
      GetOneMore(Member(v, path[0]), path[1..], key);
    } else {
      assert (path + [key])[1..] == [];
    }
  }

  lemma {:induction false} IndexFound(n: nat, i: nat, from: nat)
    requires from <= i < n
    ensures IndexOf(IntText(i), n, from) == i
    decreases i - from
  {
    if IntText(from) == IntText(i) {
      IntTextInjective(from, i);
    } else {
      IndexFound(n, i, from + 1);
    }
  }

  /** The next key of a path is looked up in a record, and counts the items of an array or names one of them. */
  lemma GetStep(v: Json, path: seq<string>, key: string, i: nat)
    ensures var g := Get(v, path);
      && (g.Obj? ==> Get(v, path + [key]) == Lookup(g.fields, key))
      && (g.Arr? ==> Get(v, path + ["length"]) == Num(|g.items|))
      && (g.Arr? && i < |g.items| ==> Get(v, path + [IntText(i)]) == g.items[i])
      && (!g.Obj? && !g.Arr? ==> Get(v, path + [key]) == Undefined)
  {
    var g := Get(v, path);
    GetOneMore(v, path, key);
    GetOneMore(v, path, "length");
    GetOneMore(v, path, IntText(i));
    if g.Arr? && i < |g.items| {
      IndexFound(|g.items|, i, 0);
      assert IntText(i)[0] != 'l';
    }
  }

  function Sum(nums: seq<int>): int
  {
    if nums == [] then 0 else nums[0] + Sum(nums[1..])
  }

  /** `Number(v) || 0` for values that are not numbers is the parameter `coerce`. */
  function Numeric(v: Json, coerce: Json -> int): int
  {
    if v.Num? then v.n else coerce(v)
  }

  function Numbers(items: seq<Json>, field: Option<seq<string>>, coerce: Json -> int): (r: seq<int>)
    ensures |r| == |items|
  {
    seq(|items|, i requires 0 <= i < |items| =>
      if field.None? then Numeric(items[i], coerce) else Numeric(Get(items[i], field.value), coerce))
  }

  /** `computeAggregateInJs` */
  function ComputeAggregate(slot: Slot, entity: Json, coerce: Json -> int): real
  {
    if slot.aggregate.None? then 0.0
    else
      var aggregate := slot.aggregate.value;
      var collection := Get(entity, aggregate.over);
      if !collection.Arr? then 0.0
      else
        var nums := Numbers(collection.items, aggregate.field, coerce);
        match aggregate.kind
        case Count => |collection.items| as real
        case Sum => Sum(nums) as real
        case Avg => if |nums| == 0 then 0.0 else Sum(nums) as real / |nums| as real
  }

  // ----- what aggregates are -----

  /** The slot aggregates like that over the collection at its path. */
  predicate Aggregates(slot: Slot, kind: AggregateKind)
  {
    slot.aggregate.Some? && slot.aggregate.value.kind == kind
  }

  /** Two slots over one collection and field. */
  predicate SameColumn(s: Slot, t: Slot)
  {
    && s.aggregate.Some? && t.aggregate.Some?
    && s.aggregate.value.over == t.aggregate.value.over && s.aggregate.value.field == t.aggregate.value.field
  }

  /** Without a collection there is nothing to aggregate. */
  lemma NoCollection(slot: Slot, entity: Json, coerce: Json -> int)
    requires slot.aggregate.Some? ==> !Get(entity, slot.aggregate.value.over).Arr?
    ensures ComputeAggregate(slot, entity, coerce) == 0.0
  {
  }

  /** A count is the length of the collection. */
  lemma CountIsLength(slot: Slot, entity: Json, coerce: Json -> int)
    requires Aggregates(slot, Count) && Get(entity, slot.aggregate.value.over).Arr?
    ensures ComputeAggregate(slot, entity, coerce) == |Get(entity, slot.aggregate.value.over).items| as real
  {
  }

  /** Average times count is sum, and the average of nothing is zero. */
  lemma AverageTimesCount(sum: Slot, avg: Slot, count: Slot, entity: Json, coerce: Json -> int)
    requires Aggregates(sum, AggregateKind.Sum) && Aggregates(avg, Avg) && Aggregates(count, Count)
    requires SameColumn(sum, avg) && SameColumn(avg, count)
    ensures ComputeAggregate(avg, entity, coerce) * ComputeAggregate(count, entity, coerce)
         == ComputeAggregate(sum, entity, coerce)
    ensures ComputeAggregate(count, entity, coerce) == 0.0 ==> ComputeAggregate(avg, entity, coerce) == 0.0
  {
  }

  /** The sum over one item is its number: the field's own when it is one, and coerced otherwise. */
  lemma SumOfOne(slot: Slot, entity: Json, item: Json, coerce: Json -> int)
    requires Aggregates(slot, AggregateKind.Sum) && Get(entity, slot.aggregate.value.over) == Arr([item])
    ensures var value := if slot.aggregate.value.field.Some? then Get(item, slot.aggregate.value.field.value) else item;
      && (value.Num? ==> ComputeAggregate(slot, entity, coerce) == value.n as real)
      && (!value.Num? ==> ComputeAggregate(slot, entity, coerce) == coerce(value) as real)
  {
    var nums := Numbers([item], slot.aggregate.value.field, coerce);
    assert nums[1..] == [] && Sum(nums) == nums[0];
  }

  lemma {:induction false} SumConcat(a: seq<int>, b: seq<int>)
    ensures Sum(a + b) == Sum(a) + Sum(b)
  {
    if a == [] {
      assert a + b == b;
    } else {
      assert (a + b)[1..] == a[1..] + b;
      SumConcat(a[1..], b);
    }
  }

  lemma NumbersConcat(a: seq<Json>, b: seq<Json>, field: Option<seq<string>>, coerce: Json -> int)
    ensures Numbers(a + b, field, coerce) == Numbers(a, field, coerce) + Numbers(b, field, coerce)
  {
  }

  /** The sum over a longer collection adds up, and so does a sum over nothing. */
  lemma SumAddsUp(slot: Slot, d: Json, e: Json, both: Json, coerce: Json -> int)
    requires Aggregates(slot, AggregateKind.Sum)
    requires var over := slot.aggregate.value.over;
      Get(d, over).Arr? && Get(e, over).Arr? && Get(both, over) == Arr(Get(d, over).items + Get(e, over).items)
    ensures ComputeAggregate(slot, both, coerce) == ComputeAggregate(slot, d, coerce) + ComputeAggregate(slot, e, coerce)
    ensures Get(d, slot.aggregate.value.over).items == [] ==> ComputeAggregate(slot, d, coerce) == 0.0
  {
    var over, field := slot.aggregate.value.over, slot.aggregate.value.field;
    var a, b := Get(d, over).items, Get(e, over).items;
    NumbersConcat(a, b, field, coerce);
    SumConcat(Numbers(a, field, coerce), Numbers(b, field, coerce));
  }

  // ----- fingerprints determine aggregates -----

  /** The path steps through records only. */
  ghost predicate ThroughRecords(v: Json, path: seq<string>)
    decreases |path|
  {
    path == [] || (v.Obj? && ThroughRecords(Lookup(v.fields, path[0]), path[1..]))
  }

  /** An array of records with a number at the field path of each. */
  ghost predicate NumberColumn(v: Json, over: seq<string>, field: seq<string>)
  {
    && ThroughRecords(v, over) && Get(v, over).Arr?
    && forall i :: 0 <= i < |Get(v, over).items| ==> NumberItem(Get(v, over).items[i], field)
  }

  ghost predicate NumberItem(item: Json, field: seq<string>)
  {
    item.Obj? && ThroughRecords(item, field) && Get(item, field).Num?
  }

  function OwnerAfter(v: Json, path: seq<string>, owner: Option<string>): Option<string>
    decreases |path|
  {
    if path == [] || !v.Obj? then owner
    else OwnerAfter(Lookup(v.fields, path[0]), path[1..], Or(EntityId(v), owner))
  }

  lemma {:induction false} ValuesThroughRecords(v: Json, path: seq<string>, rest: seq<string>, owner: Option<string>)
    requires ThroughRecords(v, path)
    ensures Values(v, path + rest, owner) == Values(Get(v, path), rest, OwnerAfter(v, path, owner))
    decreases |path|
  {
    if path == [] {
      assert path + rest == rest;
    } else {
      assert (path + rest)[0] == path[0] && (path + rest)[1..] == path[1..] + rest;
      ValuesThroughRecords(Lookup(v.fields, path[0]), path[1..], rest, Or(EntityId(v), owner));
    }
  }

  lemma NumberAt(item: Json, field: seq<string>, owner: Option<string>)
    requires ThroughRecords(item, field) && Get(item, field).Num?
    ensures Values(item, field, owner) == [PathValue(Get(item, field), OwnerAfter(item, field, owner))]
  {
    ValuesThroughRecords(item, field, [], owner);
    assert field + [] == field;
  }

  function Column(items: seq<Json>, field: seq<string>): (r: seq<Norm>)
    ensures |r| == |items|
  {
    seq(|items|, i requires 0 <= i < |items| => Normal(Get(items[i], field)))
  }

  lemma {:induction false} ColumnValues(items: seq<Json>, lists: seq<seq<PathValue>>, field: seq<string>)
    requires |lists| == |items|
    requires forall i :: 0 <= i < |items| ==>
      |lists[i]| == 1 && lists[i][0].value == Get(items[i], field)
    ensures Denotations(Concat(lists)) == Column(items, field)
  {
    if items != [] {
      ColumnValues(items[1..], lists[1..], field);
      assert Concat(lists) == lists[0] + Concat(lists[1..]);
      assert Column(items, field) == [Normal(Get(items[0], field))] + Column(items[1..], field);
      assert Denotations(Concat(lists)) == Denotations(lists[0]) + Denotations(Concat(lists[1..]));
      assert Denotations(lists[0]) == [Normal(lists[0][0].value)];
    }
  }

  /** The source path of an aggregate yields exactly its column of numbers. */
  lemma ColumnOf(v: Json, over: seq<string>, field: seq<string>)
    requires NumberColumn(v, over, field)
    ensures SourceValues(v, over + field) == multiset(Column(Get(v, over).items, field))
  {
    var items := Get(v, over).items;
    var owner := OwnerAfter(v, over, EntityId(v));
    ValuesThroughRecords(v, over, field, EntityId(v));
    var lists: seq<seq<PathValue>> :=
      seq(|items|, i requires 0 <= i < |items| => Values(items[i], field, Or(EntityId(items[i]), owner)));
    forall i | 0 <= i < |items| ensures |lists[i]| == 1 && lists[i][0].value == Get(items[i], field) {
      NumberAt(items[i], field, Or(EntityId(items[i]), owner));
    }
    ColumnValues(items, lists, field);
  }

  lemma {:induction false} SumRemove(nums: seq<int>, j: nat)
    requires j < |nums|
    ensures Sum(nums) == nums[j] + Sum(Without(nums, j))
  {
    var less := Without(nums, j);
    if j == 0 {
      assert less == nums[1..];
    } else {
      SumRemove(nums[1..], j - 1);
      assert less[1..] == Without(nums[1..], j - 1);
    }
  }

  lemma {:induction false} SumPermutation(a: seq<int>, b: seq<int>)
    requires multiset(a) == multiset(b)
    ensures Sum(a) == Sum(b) && |a| == |b|
  {
    SameLength(a, b);
    if a != [] {
      SameMembers(a, b);
      assert a[0] in b;
      var j :| 0 <= j < |b| && b[j] == a[0];
      RemoveAt(b, j);
      Uncons(a);
      Cancel(a[0], multiset(a[1..]), multiset(Without(b, j)));
      SumRemove(b, j);
      SumPermutation(a[1..], Without(b, j));
    }
  }

  lemma {:induction false} RowsGiveNumbers(xs: seq<Json>, ys: seq<Json>, field: seq<string>, coerce: Json -> int)
    requires forall i :: 0 <= i < |xs| ==> NumberItem(xs[i], field)
    requires forall i :: 0 <= i < |ys| ==> NumberItem(ys[i], field)
    requires multiset(Column(xs, field)) == multiset(Column(ys, field))
    ensures multiset(Numbers(xs, Some(field), coerce)) == multiset(Numbers(ys, Some(field), coerce))
  {
    Matching(Column(xs, field), Numbers(xs, Some(field), coerce), Column(ys, field), Numbers(ys, Some(field), coerce));
  }

  lemma {:induction false} ColumnNumbers(d: Json, e: Json, over: seq<string>, field: seq<string>, coerce: Json -> int)
    requires NumberColumn(d, over, field) && NumberColumn(e, over, field)
    requires SourceValues(d, over + field) == SourceValues(e, over + field)
    ensures multiset(Numbers(Get(d, over).items, Some(field), coerce)) ==
            multiset(Numbers(Get(e, over).items, Some(field), coerce))
  {
    ColumnOf(d, over, field);
    ColumnOf(e, over, field);
    RowsGiveNumbers(Get(d, over).items, Get(e, over).items, field, coerce);
  }

  lemma ValuesDetermineAggregate(slot: Slot, d: Json, e: Json, coerce: Json -> int)
    requires slot.aggregate.Some? && slot.aggregate.value.field.Some?
    requires NumberColumn(d, slot.aggregate.value.over, slot.aggregate.value.field.value)
    requires NumberColumn(e, slot.aggregate.value.over, slot.aggregate.value.field.value)
    requires SourceValues(d, slot.aggregate.value.over + slot.aggregate.value.field.value) ==
             SourceValues(e, slot.aggregate.value.over + slot.aggregate.value.field.value)
    ensures ComputeAggregate(slot, d, coerce) == ComputeAggregate(slot, e, coerce)
  {
    var over, field := slot.aggregate.value.over, slot.aggregate.value.field.value;
    ColumnNumbers(d, e, over, field, coerce);
    SumPermutation(Numbers(Get(d, over).items, Some(field), coerce), Numbers(Get(e, over).items, Some(field), coerce));
  }

  /**
   * For sum, avg and count slots over records with numeric fields on both sides, equal
   * fingerprints of the owning entities imply equal aggregates.
   */
  lemma FingerprintDeterminesAggregate(
      profile: Profile, typeName: string, slot: Slot, source: Source, d: Json, e: Json, coerce: Json -> int)
    requires WellFormed(d) && WellFormed(e) && CleanSources(SourcesOf(SlotsOf(profile, typeName)))
    requires slot in profile && Owns(slot, typeName) && source in slot.sources
    requires slot.aggregate.Some? && slot.aggregate.value.field.Some?
    requires source.path == slot.aggregate.value.over + slot.aggregate.value.field.value
    requires NumberColumn(d, slot.aggregate.value.over, slot.aggregate.value.field.value)
    requires NumberColumn(e, slot.aggregate.value.over, slot.aggregate.value.field.value)
    requires Fingerprint(profile, typeName, d) == Fingerprint(profile, typeName, e)
    ensures ComputeAggregate(slot, d, coerce) == ComputeAggregate(slot, e, coerce)
  {
    SlotsOfMember(profile, typeName, slot);
    SourcesOfContains(SlotsOf(profile, typeName), slot, source);
    FingerprintFaithful(profile, typeName, d, e);
    ValuesDetermineAggregate(slot, d, e, coerce);
  }

  // ----- native evaluation -----

  datatype Request = Request(slot: Slot, scope: string, entities: seq<Json>)

  datatype Capability = Capability(canPushdown: bool, native: Option<Request -> Option<real>>)

  datatype PushResult = PushResult(scope: string, value: real, pushed: bool)

  datatype Comparison = Comparison(scope: string, native: real, js: real, equal: bool)

  /** The store's own answer, when it has one. */
  function NativeAnswer(capability: Capability, req: Request): Option<real>
  {
    if capability.canPushdown && capability.native.Some? then capability.native.value(req) else None
  }

  /** Nothing is pushed without an answer, and an answer is passed on unchanged. */
  method TryPushdownAggregates(capability: Capability, requests: seq<Request>) returns (out: seq<PushResult>)
    ensures |out| == |requests|
    ensures forall i :: 0 <= i < |out| ==>
      && out[i].scope == requests[i].scope
      && (out[i].pushed <==>
            capability.canPushdown && capability.native.Some? && capability.native.value(requests[i]).Some?)
      && (out[i].pushed ==> capability.native.value(requests[i]) == Some(out[i].value))
      && (!out[i].pushed ==> out[i].value == 0.0)
  {
    out := [];
    for k := 0 to |requests|
      invariant |out| == k
      invariant forall i :: 0 <= i < k ==>
        && out[i].scope == requests[i].scope
        && (out[i].pushed <==>
              capability.canPushdown && capability.native.Some? && capability.native.value(requests[i]).Some?)
        && (out[i].pushed ==> capability.native.value(requests[i]) == Some(out[i].value))
        && (!out[i].pushed ==> out[i].value == 0.0)
    {
      var req := requests[k];
      if !capability.canPushdown || capability.native.None? {
        out := out + [PushResult(req.scope, 0.0, false)];
        continue;
      }
      var native := capability.native.value(req);
      if native.None? {
        out := out + [PushResult(req.scope, 0.0, false)];
        continue;
      }
      out := out + [PushResult(req.scope, native.value, true)];
    }
  }

  /** `req.entities?.[0] ?? {}` */
  function FirstEntity(req: Request): (entity: Json)
    ensures if req.entities == [] then entity == Obj([]) else [entity] <= req.entities
  {
    if req.entities == [] then Obj([]) else req.entities[0]
  }

  /** A comparison fails exactly when the store answered, and differently from the reference. */
  method AssertPushdownEqualsJs(capability: Capability, requests: seq<Request>, coerce: Json -> int)
    returns (out: seq<Comparison>)
    ensures |out| == |requests|
    ensures forall i :: 0 <= i < |out| ==>
      && out[i].scope == requests[i].scope
      && out[i].js == ComputeAggregate(requests[i].slot, FirstEntity(requests[i]), coerce)
      && out[i].native == (if NativeAnswer(capability, requests[i]).Some? then NativeAnswer(capability, requests[i]).value
                           else out[i].js)
      && (out[i].equal <==> NativeAnswer(capability, requests[i]) in {None, Some(out[i].js)})
  {
    var pushed := TryPushdownAggregates(capability, requests);
    out := [];
    for k := 0 to |requests|
      invariant |out| == k
      invariant forall i :: 0 <= i < k ==>
        && out[i].scope == requests[i].scope
        && out[i].js == ComputeAggregate(requests[i].slot, FirstEntity(requests[i]), coerce)
        && out[i].native == (if NativeAnswer(capability, requests[i]).Some? then NativeAnswer(capability, requests[i]).value
                             else out[i].js)
        && (out[i].equal <==> NativeAnswer(capability, requests[i]) in {None, Some(out[i].js)})
    {
      var js := ComputeAggregate(requests[k].slot, FirstEntity(requests[k]), coerce);
      var native := if pushed[k].pushed then pushed[k].value else js;
      out := out + [Comparison(requests[k].scope, native, js, native == js)];
    }
  }
}
