/**
 * Lists are fingerprinted in the order of their owners (packages/calc-engine/src/warm.ts:132-159),
 * so a fingerprint tells which record has which value, not only which values there are.
 */
module Owners {
  import opened Strings
  import opened Json
  import opened Canonical
  import opened Fingerprints

  /** Every value belongs to a named record of its own. */
  ghost predicate OneEach(values: seq<PathValue>)
  {
    && (forall i :: 0 <= i < |values| ==> values[i].owner.Some? && values[i].owner.value != "")
    && forall i, j :: 0 <= i < j < |values| ==> values[i].owner != values[j].owner
  }

  ghost predicate SameOwners(a: seq<PathValue>, b: seq<PathValue>)
  {
    && (forall p :: p in a ==> exists q :: q in b && q.owner == p.owner)
    && (forall q :: q in b ==> exists p :: p in a && p.owner == q.owner)
  }

  // ----- sorted keys -----

  function Firsts(rows: seq<(string, string)>): (r: seq<string>)
    ensures |r| == |rows|
  {
    seq(|rows|, i requires 0 <= i < |rows| => rows[i].0)
  }

  function OwnerKey(pv: PathValue): string
  {
    "0:" + if pv.owner.Some? then pv.owner.value else ""
  }

  lemma KeyTellsOwner(p: PathValue, q: PathValue)
    requires p.owner.Some? && q.owner.Some? && OwnerKey(p) == OwnerKey(q)
    ensures p.owner == q.owner
  {
    assert OwnerKey(p)[2..] == p.owner.value && OwnerKey(q)[2..] == q.owner.value;
  }

  lemma OwnedRows(values: seq<PathValue>)
    requires OneEach(values)
    ensures forall i :: 0 <= i < |values| ==> Rows(values)[i] == (OwnerKey(values[i]), StableJson(values[i].value))
    ensures NoDuplicates(Firsts(Rows(values)))
  {
    var keys := Firsts(Rows(values));
    forall i, j | 0 <= i < j < |keys| ensures keys[i] != keys[j] {
      if keys[i] == keys[j] { KeyTellsOwner(values[i], values[j]); }
    }
  }

  lemma FirstsOfSorted(rows: seq<(string, string)>)
    ensures multiset(Firsts(Sort(PairLe, rows))) == multiset(Firsts(rows))
    ensures Sorted(LexLe, Firsts(Sort(PairLe, rows)))
  {
    var sorted := Sort(PairLe, rows);
    assert RowsAgree(sorted, Firsts(sorted), rows, Firsts(rows));
    Matching(sorted, Firsts(sorted), rows, Firsts(rows));
    PairOrder();
    SortSorted(PairLe, rows);
    forall i, j | 0 <= i < j < |sorted| ensures LexLe(Firsts(sorted)[i], Firsts(sorted)[j]) {
      assert PairLe(sorted[i], sorted[j]);
    }
  }

  /** The sorted keys of two lists of values with one set of owners are the same. */
  lemma SameSortedKeys(a: seq<PathValue>, b: seq<PathValue>)
    requires OneEach(a) && OneEach(b) && SameOwners(a, b)
    ensures Firsts(Sort(PairLe, Rows(a))) == Firsts(Sort(PairLe, Rows(b)))
  {
    OwnedRows(a);
    OwnedRows(b);
    var x, y := Firsts(Rows(a)), Firsts(Rows(b));
    forall key ensures key in x <==> key in y {
      KeyMoves(a, b, key);
      KeyMoves(b, a, key);
    }
    SameMembersSameBag(x, y);
    FirstsOfSorted(Rows(a));
    FirstsOfSorted(Rows(b));
    forall s, t | LexLe(s, t) && LexLe(t, s) ensures s == t { LexAntisymmetric(s, t); }
    SortedUnique(LexLe, Firsts(Sort(PairLe, Rows(a))), Firsts(Sort(PairLe, Rows(b))));
  }

  lemma KeyMoves(a: seq<PathValue>, b: seq<PathValue>, key: string)
    requires OneEach(a) && OneEach(b) && forall p :: p in a ==> exists q :: q in b && q.owner == p.owner
    ensures key in Firsts(Rows(a)) ==> key in Firsts(Rows(b))
  {
    OwnedRows(a);
    OwnedRows(b);
    if i :| 0 <= i < |a| && Firsts(Rows(a))[i] == key {
      assert a[i] in a;
      var q :| q in b && q.owner == a[i].owner;
      var j :| 0 <= j < |b| && b[j] == q;
      assert Firsts(Rows(b))[j] == key;
    }
  }

  /** The place of a value among the sorted rows. */
  lemma PlaceOf(values: seq<PathValue>, p: PathValue) returns (k: nat)
    requires OneEach(values) && p in values
    ensures k < |values| == |Sort(PairLe, Rows(values))|
    ensures Sort(PairLe, Rows(values))[k] == (OwnerKey(p), StableJson(p.value))
  {
    OwnedRows(values);
    var i :| 0 <= i < |values| && values[i] == p;
    var sorted := Sort(PairLe, Rows(values));
    SameMembers(sorted, Rows(values));
    SameLength(sorted, Rows(values));
    assert Rows(values)[i] in Rows(values);
    k :| 0 <= k < |sorted| && sorted[k] == Rows(values)[i];
  }

  // ----- what the fingerprint tells -----

  /**
   * Documents with one value for each of the same owners and with equal fingerprints have equal
   * values owner by owner.
   */
  lemma OwnersTell(d: Json, e: Json, path: seq<string>, p: PathValue, q: PathValue)
    requires WellFormed(d) && WellFormed(e) && SourceFingerprint(d, path) == SourceFingerprint(e, path)
    requires var a, b := Values(d, path, EntityId(d)), Values(e, path, EntityId(e));
      OneEach(a) && OneEach(b) && SameOwners(a, b) && p in a && q in b
    requires p.owner == q.owner
    ensures Normal(p.value) == Normal(q.value)
  {
    SourceFingerprintSplit(d, e, path, path);
    SameTexts(Values(d, path, EntityId(d)), Values(e, path, EntityId(e)), p, q);
    TerminalValue(d, path, EntityId(d), p);
    TerminalValue(e, path, EntityId(e), q);
    EqualTextsEqualValues(p.value, q.value);
  }

  /** The texts of one owner stand at one place. */
  lemma SameTexts(a: seq<PathValue>, b: seq<PathValue>, p: PathValue, q: PathValue)
    requires OneEach(a) && OneEach(b) && SameOwners(a, b) && p in a && q in b && p.owner == q.owner
    requires Seconds(Sort(PairLe, Rows(a))) == Seconds(Sort(PairLe, Rows(b)))
    ensures StableJson(p.value) == StableJson(q.value)
  {
    SameSortedKeys(a, b);
    var k := PlaceOf(a, p);
    var l := PlaceOf(b, q);
    SamePlace(a, b, k, l);
    assert Seconds(Sort(PairLe, Rows(a)))[k] == StableJson(p.value);
    assert Seconds(Sort(PairLe, Rows(b)))[l] == StableJson(q.value);
  }

  /** One key has one place. */
  lemma SamePlace(a: seq<PathValue>, b: seq<PathValue>, k: nat, l: nat)
    requires OneEach(a) && Firsts(Sort(PairLe, Rows(a))) == Firsts(Sort(PairLe, Rows(b)))
    requires k < |Sort(PairLe, Rows(a))| && l < |Sort(PairLe, Rows(b))|
    requires Sort(PairLe, Rows(a))[k].0 == Sort(PairLe, Rows(b))[l].0
    ensures k == l
  {
    var keys := Firsts(Sort(PairLe, Rows(a)));
    assert keys[l] == Firsts(Sort(PairLe, Rows(b)))[l];
    assert keys[k] == keys[l];
    OwnedRows(a);
    FirstsOfSorted(Rows(a));
    if k != l {
      KeyTwice(keys, if k < l then k else l, if k < l then l else k);
      CountOnce(Firsts(Rows(a)), keys[k]);
    }
  }

  lemma KeyTwice(keys: seq<string>, k: nat, l: nat)
    requires k < l < |keys| && keys[k] == keys[l]
    ensures multiset(keys)[keys[k]] >= 2
  {
    assert keys == keys[..l] + [keys[l]] + keys[l + 1..];
    assert keys[k] in keys[..l] by { assert keys[..l][k] == keys[k]; }
    assert multiset(keys[..l])[keys[k]] >= 1;
  }

  /** The texts of a list stand in the order of the owners' ids. */
  lemma TextsInOwnerOrder(d: Json, path: seq<string>, p: PathValue, q: PathValue) returns (k: nat, l: nat)
    requires var a := Values(d, path, EntityId(d)); OneEach(a) && p in a && q in a
    requires p.owner != q.owner && LexLe(p.owner.value, q.owner.value)
    ensures k < l < |OrderedTexts(d, path)|
    ensures OrderedTexts(d, path)[k] == StableJson(p.value) && OrderedTexts(d, path)[l] == StableJson(q.value)
  {
    var a := Values(d, path, EntityId(d));
    k := PlaceOf(a, p);
    l := PlaceOf(a, q);
    FirstsOfSorted(Rows(a));
    var keys := Firsts(Sort(PairLe, Rows(a)));
    assert keys[k] == OwnerKey(p) && keys[l] == OwnerKey(q);
    if k == l { KeyTellsOwner(p, q); }
    if l < k {
      assert LexLe(keys[l], keys[k]);
      assert OwnerKey(p)[1..][1..] == p.owner.value && OwnerKey(q)[1..][1..] == q.owner.value;
      assert OwnerKey(p)[..2] == "0:" == OwnerKey(q)[..2];
      LexAntisymmetric(p.owner.value, q.owner.value);
    }
  }

  // ----- exchanging two values -----

  /** A record with an id and one value. */
  function Item(name: string, row: (string, Json)): Json
  {
    Obj([Field("@id", Str(row.0)), Field(name, row.1)])
  }

  /** A document with a list of such records. */
  function Listing(over: string, name: string, rows: seq<(string, Json)>): Json
  {
    Obj([Field(over, Arr(seq(|rows|, i requires 0 <= i < |rows| => Item(name, rows[i]))))])
  }

  /** Distinct ids, and values that are no arrays. */
  ghost predicate ProperRows(rows: seq<(string, Json)>)
  {
    && (forall i :: 0 <= i < |rows| ==> rows[i].0 != "" && !rows[i].1.Arr? && WellFormed(rows[i].1))
    && forall i, j :: 0 <= i < j < |rows| ==> rows[i].0 != rows[j].0
  }

  function RowValues(rows: seq<(string, Json)>): (r: seq<PathValue>)
    ensures |r| == |rows|
  {
    seq(|rows|, i requires 0 <= i < |rows| => PathValue(rows[i].1, Some(rows[i].0)))
  }

  lemma OneRow(name: string, row: (string, Json), owner: Option<string>)
    requires !row.1.Arr? && name != "@id"
    ensures Values(Item(name, row), [name], Or(EntityId(Item(name, row)), owner)) == [PathValue(row.1, Some(row.0))]
  {
    var r := Item(name, row);
    assert r.fields[1..] == [Field(name, row.1)];
    assert Lookup(r.fields, name) == Lookup(r.fields[1..], name) == row.1;
    assert [name][1..] == [];
    assert EntityId(r) == Some(row.0);
  }

  lemma {:induction false} ConcatSingles(lists: seq<seq<PathValue>>, values: seq<PathValue>)
    requires |lists| == |values| && forall i :: 0 <= i < |lists| ==> lists[i] == [values[i]]
    ensures Concat(lists) == values
  {
    if lists != [] {
      ConcatSingles(lists[1..], values[1..]);
      assert values == [values[0]] + values[1..];
    }
  }

  lemma ListingValues(over: string, name: string, rows: seq<(string, Json)>)
    requires ProperRows(rows) && over != "@id" && name != "@id"
    ensures var doc := Listing(over, name, rows);
      EntityId(doc) == None && Values(doc, [over, name], None) == RowValues(rows)
  {
    var doc := Listing(over, name, rows);
    var items := doc.fields[0].value.items;
    assert doc.fields[1..] == [];
    assert Lookup(doc.fields, over) == Arr(items) && Lookup(doc.fields, "@id") == Undefined;
    assert [over, name][1..] == [name];
    var lists := seq(|items|, i requires 0 <= i < |items| => Values(items[i], [name], Or(EntityId(items[i]), None)));
    forall i | 0 <= i < |items| ensures lists[i] == [RowValues(rows)[i]] { OneRow(name, rows[i], None); }
    ConcatSingles(lists, RowValues(rows));
    assert Values(Arr(items), [name], None) == Concat(lists);
  }

  lemma ListingWellFormed(over: string, name: string, rows: seq<(string, Json)>)
    requires ProperRows(rows) && name != "@id"
    ensures WellFormed(Listing(over, name, rows))
  {
    forall i | 0 <= i < |rows| ensures WellFormed(Item(name, rows[i])) { }
  }

  /** Exchanging two different values between two records of a list changes the fingerprint. */
  lemma ExchangeTells(over: string, name: string, rows: seq<(string, Json)>, i: nat, j: nat)
    requires ProperRows(rows) && over != "@id" && name != "@id"
    requires i < j < |rows| && Normal(rows[i].1) != Normal(rows[j].1)
    ensures var exchanged := rows[i := (rows[i].0, rows[j].1)][j := (rows[j].0, rows[i].1)];
      SourceFingerprint(Listing(over, name, exchanged), [over, name]) != SourceFingerprint(Listing(over, name, rows), [over, name])
  {
    var exchanged := rows[i := (rows[i].0, rows[j].1)][j := (rows[j].0, rows[i].1)];
    var d, e := Listing(over, name, rows), Listing(over, name, exchanged);
    assert forall k :: 0 <= k < |rows| ==> exchanged[k].0 == rows[k].0;
    ListingValues(over, name, rows);
    ListingValues(over, name, exchanged);
    ListingWellFormed(over, name, rows);
    ListingWellFormed(over, name, exchanged);
    var a, b := RowValues(rows), RowValues(exchanged);
    SameRowOwners(rows, exchanged);
    if SourceFingerprint(d, [over, name]) == SourceFingerprint(e, [over, name]) {
      OwnersTell(d, e, [over, name], a[i], b[i]);
    }
  }

  lemma SameRowOwners(rows: seq<(string, Json)>, others: seq<(string, Json)>)
    requires ProperRows(rows) && ProperRows(others) && |rows| == |others|
    requires forall k :: 0 <= k < |rows| ==> others[k].0 == rows[k].0
    ensures OneEach(RowValues(rows)) && OneEach(RowValues(others)) && SameOwners(RowValues(rows), RowValues(others))
  {
    var a, b := RowValues(rows), RowValues(others);
    forall p | p in a ensures exists q :: q in b && q.owner == p.owner {
      var k :| 0 <= k < |a| && a[k] == p;
      assert b[k] in b && b[k].owner == p.owner;
    }
    forall q | q in b ensures exists p :: p in a && p.owner == q.owner {
      var k :| 0 <= k < |b| && b[k] == q;
      assert a[k] in a && a[k].owner == q.owner;
    }
  }
}
