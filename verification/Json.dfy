/** JavaScript data as the calc engine sees it: trees of scalars, arrays and records. */
module Json {
  datatype Option<+T> = None | Some(value: T)

  /** Numbers are integers; record fields keep their insertion order. */
  datatype Json =
    | Undefined
    | Null
    | Bool(b: bool)
    | Num(n: int)
    | Str(s: string)
    | Arr(items: seq<Json>)
    | Obj(fields: seq<Field>)

  datatype Field = Field(key: string, value: Json)

  predicate UniqueKeys(fields: seq<Field>)
  {
    forall i, j :: 0 <= i < j < |fields| ==> fields[i].key != fields[j].key
  }

  /** Every record of the tree has distinct keys, as every JavaScript object does. */
  ghost predicate WellFormed(v: Json)
  {
    match v
    case Arr(items) => forall i :: 0 <= i < |items| ==> WellFormed(items[i])
    case Obj(fields) => UniqueKeys(fields) && forall i :: 0 <= i < |fields| ==> WellFormed(fields[i].value)
    case _ => true
  }

  predicate IsScalar(v: Json)
  {
    v.Str? || v.Num? || v.Bool?
  }

  type Scalar = v: Json | IsScalar(v) witness Num(0)

  /** Not an array or a record. */
  predicate IsFlat(v: Json)
  {
    !v.Arr? && !v.Obj?
  }

  /** `record[key]`: undefined when the key is absent. */
  function Lookup(fields: seq<Field>, key: string): Json
  {
    if fields == [] then Undefined
    else if fields[0].key == key then fields[0].value
    else Lookup(fields[1..], key)
  }

  predicate HasKey(fields: seq<Field>, key: string)
  {
    exists i :: 0 <= i < |fields| && fields[i].key == key
  }

  lemma HasKeyTail(fields: seq<Field>, key: string)
    requires fields != []
    ensures HasKey(fields, key) <==> fields[0].key == key || HasKey(fields[1..], key)
  {
    if i :| 0 <= i < |fields[1..]| && fields[1..][i].key == key {
      assert fields[i + 1].key == key;
    }
    if i :| 0 < i < |fields| && fields[i].key == key {
      assert fields[1..][i - 1].key == key;
    }
  }

  lemma {:induction false} LookupIsField(fields: seq<Field>, key: string)
    ensures Lookup(fields, key) == Undefined || exists i :: 0 <= i < |fields| && fields[i] == Field(key, Lookup(fields, key))
  {
    if fields != [] && fields[0].key != key {
      LookupIsField(fields[1..], key);
      if i :| 0 <= i < |fields[1..]| && fields[1..][i] == Field(key, Lookup(fields, key)) {
        assert fields[i + 1] == Field(key, Lookup(fields, key));
      }
    }
  }

  lemma {:induction false} LookupAt(fields: seq<Field>, i: nat)
    requires UniqueKeys(fields) && i < |fields|
    ensures Lookup(fields, fields[i].key) == fields[i].value
  {
    if i > 0 {
      LookupAt(fields[1..], i - 1);
    }
  }

  lemma {:induction false} LookupAbsent(fields: seq<Field>, key: string)
    requires forall i :: 0 <= i < |fields| ==> fields[i].key != key
    ensures Lookup(fields, key) == Undefined
  {
    if fields != [] {
      LookupAbsent(fields[1..], key);
    }
  }

  lemma LookupSmaller(fields: seq<Field>, key: string)
    requires Lookup(fields, key) != Undefined
    ensures Lookup(fields, key) < Obj(fields)
  {
    LookupIsField(fields, key);
    var i :| 0 <= i < |fields| && fields[i] == Field(key, Lookup(fields, key));
    assert fields[i].value < fields[i];
  }

  lemma LookupWellFormed(fields: seq<Field>, key: string)
    requires WellFormed(Obj(fields))
    ensures WellFormed(Lookup(fields, key))
  {
    var v := Lookup(fields, key);
    if v != Undefined {
      LookupIsField(fields, key);
      var i :| 0 <= i < |fields| && fields[i] == Field(key, v);
      assert WellFormed(fields[i].value);
    }
  }

  /** `record[key] = value`: overwrite in place, or append a new key. */
  function SetField(fields: seq<Field>, key: string, value: Json): seq<Field>
  {
    if fields == [] then [Field(key, value)]
    else if fields[0].key == key then [Field(key, value)] + fields[1..]
    else [fields[0]] + SetField(fields[1..], key, value)
  }

  /** The `@id` of a record when it is a string. */
  function EntityId(v: Json): Option<string>
  {
    if v.Obj? && Lookup(v.fields, "@id").Str? then Some(Lookup(v.fields, "@id").s) else None
  }

  function Or<T>(a: Option<T>, b: Option<T>): Option<T>
  {
    if a.Some? then a else b
  }
}
