/**
 * `stableJson` (packages/calc-engine/src/warm.ts:108-130) and what its text stands for:
 * two trees get the same text exactly when they denote the same value.
 */
module Canonical {
  import opened Strings
  import opened Json
  import opened JsonText

  /** `...$stmt` keys carry provenance, not data. */
  predicate IsSidecar(key: string)
  {
    |key| >= 5 && key[|key| - 5..] == "$stmt"
  }

  function Visible(fields: seq<Field>): (r: seq<Field>)
    ensures forall f :: f in r <==> f in fields && !IsSidecar(f.key)
    ensures UniqueKeys(fields) ==> UniqueKeys(r)
  {
    if fields == [] then []
    else
      assert fields == [fields[0]] + fields[1..];
      (if IsSidecar(fields[0].key) then [] else [fields[0]]) + Visible(fields[1..])
  }

  /** A record that stands for its id: `entityId` gives a non-empty string. */
  predicate Identified(v: Json)
  {
    EntityId(v).Some? && EntityId(v).value != ""
  }

  function StableJson(v: Json): string
  {
    match v
    case Undefined => "undefined"
    case Null => "null"
    case Bool(b) => if b then "true" else "false"
    case Num(n) => IntText(n)
    case Str(s) => Quote(s)
    case Arr(items) => "[" + Join(Sort(LexLe, Texts(v)), ",") + "]"
    case Obj(fields) =>
      if Identified(v) then Quote(EntityId(v).value)
      else "{" + Join(EntryTexts(Sort(KeyLe, Entries(v))), ",") + "}"
  }

  function Texts(v: Json): (r: seq<string>)
    requires v.Arr?
    ensures |r| == |v.items|
    decreases v, 0
  {
    seq(|v.items|, i requires 0 <= i < |v.items| => StableJson(v.items[i]))
  }

  /** Key and serialised value of every visible field, in field order. */
  function Entries(v: Json): (r: seq<(string, string)>)
    requires v.Obj?
    ensures |r| == |Visible(v.fields)|
    decreases v, 0
  {
    var fields := Visible(v.fields);
    seq(|fields|, i requires 0 <= i < |fields| =>
      assert fields[i] in v.fields;
      (fields[i].key, StableJson(fields[i].value)))
  }

  function EntryTexts(entries: seq<(string, string)>): (r: seq<string>)
    ensures |r| == |entries|
  {
    seq(|entries|, i requires 0 <= i < |entries| => Quote(entries[i].0) + ":" + entries[i].1)
  }

  /**
   * The value a tree denotes: arrays lose their order, records lose key order and
   * sidecars, and an identified record is its id string.
   */
  datatype Norm =
    | NUndefined
    | NNull
    | NBool(b: bool)
    | NNum(n: int)
    | NStr(s: string)
    | NArr(items: multiset<Norm>)
    | NObj(fields: map<string, Norm>)

  function Norms(v: Json): (r: seq<Norm>)
    requires v.Arr?
    ensures |r| == |v.items|
    decreases v, 0
  {
    seq(|v.items|, i requires 0 <= i < |v.items| => Normal(v.items[i]))
  }

  function Keys(fields: seq<Field>): set<string>
  {
    set f | f in fields :: f.key
  }

  function Normal(v: Json): Norm
  {
    match v
    case Undefined => NUndefined
    case Null => NNull
    case Bool(b) => NBool(b)
    case Num(n) => NNum(n)
    case Str(s) => NStr(s)
    case Arr(items) => NArr(multiset(Norms(v)))
    case Obj(fields) =>
      if Identified(v) then NStr(EntityId(v).value)
      else NObj(map key | key in Keys(Visible(fields)) :: NormAt(v, key))
  }

  function NormAt(v: Json, key: string): Norm
    requires v.Obj?
    decreases v, 0
  {
    var value := Lookup(v.fields, key);
    if value == Undefined then NUndefined
    else
      LookupSmaller(v.fields, key);
      Normal(value)
  }

  // ----- the text of a tree is one literal -----

  lemma {:induction false} TextIsToken(v: Json)
    ensures Token(StableJson(v))
  {
    match v
    case Undefined => PlainToken("undefined");
    case Null => PlainToken("null");
    case Bool(b) => PlainToken("true"); PlainToken("false");
    case Num(n) => PlainToken(IntText(n));
    case Str(s) => QuoteToken(s);
    case Arr(items) =>
      forall i | 0 <= i < |items| ensures Token(Texts(v)[i]) { TextIsToken(items[i]); }
      SortedTokens(Texts(v));
      BracketToken('[', Sort(LexLe, Texts(v)), ']');
    case Obj(fields) =>
      if Identified(v) {
        QuoteToken(EntityId(v).value);
      } else {
        forall i | 0 <= i < |Entries(v)| ensures Token(Entries(v)[i].1) {
          var f := Visible(fields)[i];
          assert f in fields;
          TextIsToken(f.value);
        }
        EntriesAreTokens(Entries(v));
        BracketToken('{', EntryTexts(Sort(KeyLe, Entries(v))), '}');
      }
  }

  lemma SortedTokens(texts: seq<string>)
    requires forall i :: 0 <= i < |texts| ==> Token(texts[i])
    ensures forall i :: 0 <= i < |Sort(LexLe, texts)| ==> Token(Sort(LexLe, texts)[i])
  {
    SameMembers(Sort(LexLe, texts), texts);
    forall i | 0 <= i < |Sort(LexLe, texts)| ensures Token(Sort(LexLe, texts)[i]) {
      assert Sort(LexLe, texts)[i] in texts;
    }
  }

  lemma EntriesAreTokens(entries: seq<(string, string)>)
    requires forall i :: 0 <= i < |entries| ==> Token(entries[i].1)
    ensures forall i :: 0 <= i < |Sort(KeyLe, entries)| ==> Token(EntryTexts(Sort(KeyLe, entries))[i])
  {
    var sorted := Sort(KeyLe, entries);
    SameMembers(sorted, entries);
    forall i | 0 <= i < |sorted| ensures Token(EntryTexts(sorted)[i]) {
      assert sorted[i] in sorted;
      EntryToken(sorted[i].0, sorted[i].1);
    }
  }

  // ----- equal texts denote equal values -----

  /** The first character tells the kinds of value apart. */
  lemma Head(v: Json)
    ensures StableJson(v) != "" && match v {
      case Undefined => StableJson(v)[0] == 'u'
      case Null => StableJson(v)[0] == 'n'
      case Bool(b) => StableJson(v)[0] == if b then 't' else 'f'
      case Num(n) => StableJson(v)[0] == '-' || '0' <= StableJson(v)[0] <= '9'
      case Str(s) => StableJson(v)[0] == '\"'
      case Arr(items) => StableJson(v)[0] == '['
      case Obj(fields) => StableJson(v)[0] == if Identified(v) then '\"' else '{'
    }
  {
  }

  lemma QuoteInjective(s: string, t: string)
    requires Quote(s) == Quote(t)
    ensures s == t
  {
    assert Quote(s) + "" == Quote(t) + "";
    QuoteSplit(s, t, "", "");
  }

  lemma EntryTextsInjective(a: seq<(string, string)>, b: seq<(string, string)>)
    requires EntryTexts(a) == EntryTexts(b)
    ensures a == b
  {
    assert |a| == |EntryTexts(a)| == |EntryTexts(b)| == |b|;
    forall i | 0 <= i < |a| ensures a[i] == b[i] {
      assert EntryTexts(a)[i] == EntryTexts(b)[i];
      Assoc(Quote(a[i].0), ":", a[i].1);
      Assoc(Quote(b[i].0), ":", b[i].1);
      QuoteSplit(a[i].0, b[i].0, ":" + a[i].1, ":" + b[i].1);
      Rest(":", a[i].1);
      Rest(":", b[i].1);
    }
  }

  lemma BracketSplit(open: string, a: seq<string>, b: seq<string>, close: char)
    requires |open| == 1 && (close == ']' || close == '}')
    requires forall i :: 0 <= i < |a| ==> Token(a[i])
    requires forall i :: 0 <= i < |b| ==> Token(b[i])
    requires open + Join(a, ",") + [close] == open + Join(b, ",") + [close]
    ensures a == b
  {
    Assoc(open, Join(a, ","), [close]);
    Assoc(open, Join(b, ","), [close]);
    Rest(open, Join(a, ",") + [close]);
    Rest(open, Join(b, ",") + [close]);
    assert [close] + "" == [close];
    JoinSplit(a, b, close, "", "");
  }

  lemma SortedEntriesSplit(v: Json, w: Json)
    requires v.Obj? && w.Obj? && !Identified(v) && !Identified(w)
    requires StableJson(v) == StableJson(w)
    ensures multiset(Entries(v)) == multiset(Entries(w))
  {
    var a, b := Sort(KeyLe, Entries(v)), Sort(KeyLe, Entries(w));
    TextsOfEntries(v);
    TextsOfEntries(w);
    BracketSplit("{", EntryTexts(a), EntryTexts(b), '}');
    EntryTextsInjective(a, b);
  }

  lemma TextsOfEntries(v: Json)
    requires v.Obj?
    ensures forall i :: 0 <= i < |Sort(KeyLe, Entries(v))| ==> Token(EntryTexts(Sort(KeyLe, Entries(v)))[i])
  {
    forall i | 0 <= i < |Entries(v)| ensures Token(Entries(v)[i].1) {
      TextIsToken(Visible(v.fields)[i].value);
    }
    EntriesAreTokens(Entries(v));
  }

  lemma SortedTextsSplit(v: Json, w: Json)
    requires v.Arr? && w.Arr? && StableJson(v) == StableJson(w)
    ensures multiset(Texts(v)) == multiset(Texts(w))
  {
    forall i | 0 <= i < |v.items| ensures Token(Texts(v)[i]) { TextIsToken(v.items[i]); }
    forall i | 0 <= i < |w.items| ensures Token(Texts(w)[i]) { TextIsToken(w.items[i]); }
    SortedTokens(Texts(v));
    SortedTokens(Texts(w));
    BracketSplit("[", Sort(LexLe, Texts(v)), Sort(LexLe, Texts(w)), ']');
  }

  /** Where the entry of a visible key is. */
  lemma EntryOf(v: Json, key: string) returns (i: nat)
    requires v.Obj? && WellFormed(v) && key in Keys(Visible(v.fields))
    ensures i < |Visible(v.fields)| && Visible(v.fields)[i] == Field(key, Lookup(v.fields, key))
    ensures Entries(v)[i] == (key, StableJson(Lookup(v.fields, key)))
  {
    var f :| f in Visible(v.fields) && f.key == key;
    i :| 0 <= i < |Visible(v.fields)| && Visible(v.fields)[i] == f;
    var j :| 0 <= j < |v.fields| && v.fields[j] == f;
    LookupAt(v.fields, j);
  }

  lemma EntryAt(v: Json, i: nat)
    requires v.Obj? && WellFormed(v) && i < |Entries(v)|
    ensures Entries(v)[i].0 in Keys(Visible(v.fields))
    ensures Entries(v)[i].1 == StableJson(Lookup(v.fields, Entries(v)[i].0))
  {
    var f := Visible(v.fields)[i];
    assert f in v.fields;
    var j :| 0 <= j < |v.fields| && v.fields[j] == f;
    LookupAt(v.fields, j);
  }

  /** Faithfulness: equal texts denote equal values. */
  lemma {:induction false} EqualTextsEqualValues(v: Json, w: Json)
    requires WellFormed(v) && WellFormed(w) && StableJson(v) == StableJson(w)
    ensures Normal(v) == Normal(w)
    decreases v, 2
  {
    Head(v);
    Head(w);
    if v.Num? {
      IntTextInjective(v.n, w.n);
    } else if v.Arr? {
      SortedTextsSplit(v, w);
      forall i, j | 0 <= i < |v.items| && 0 <= j < |w.items| && Texts(v)[i] == Texts(w)[j]
        ensures Norms(v)[i] == Norms(w)[j]
      {
        EqualTextsEqualValues(v.items[i], w.items[j]);
      }
      Matching(Texts(v), Norms(v), Texts(w), Norms(w));
    } else if v.Str? || (v.Obj? && Identified(v)) {
      QuoteInjective(if v.Str? then v.s else EntityId(v).value, if w.Str? then w.s else EntityId(w).value);
    } else if v.Obj? {
      RecordsFaithful(v, w);
    }
  }

  lemma {:induction false} RecordsFaithful(v: Json, w: Json)
    requires v.Obj? && w.Obj? && !Identified(v) && !Identified(w) && WellFormed(v) && WellFormed(w)
    requires StableJson(v) == StableJson(w)
    ensures Normal(v) == Normal(w)
    decreases v, 1
  {
    SortedEntriesSplit(v, w);
    forall key | key in Keys(Visible(v.fields))
      ensures key in Keys(Visible(w.fields)) && NormAt(v, key) == NormAt(w, key)
    {
      SharedEntry(v, w, key);
      FieldFaithful(v, w, key);
    }
    forall key | key in Keys(Visible(w.fields)) ensures key in Keys(Visible(v.fields)) {
      SharedEntry(w, v, key);
    }
    NormalFromFields(v, w);
  }

  lemma {:induction false} NormalFromFields(v: Json, w: Json)
    requires WellFormed(v) && WellFormed(w) && v.Obj? && w.Obj? && !Identified(v) && !Identified(w)
    requires Keys(Visible(v.fields)) == Keys(Visible(w.fields))
    requires forall key :: key in Keys(Visible(v.fields)) ==> NormAt(v, key) == NormAt(w, key)
    ensures Normal(v) == Normal(w)
  {
    NormalOfRecord(v);
    NormalOfRecord(w);
  }

  lemma NormalOfRecord(v: Json)
    requires v.Obj? && !Identified(v)
    ensures Normal(v).NObj? && Normal(v).fields.Keys == Keys(Visible(v.fields))
    ensures forall key :: key in Keys(Visible(v.fields)) ==> Normal(v).fields[key] == NormAt(v, key)
  {
  }

  lemma SharedEntry(v: Json, w: Json, key: string)
    requires v.Obj? && w.Obj? && WellFormed(v) && WellFormed(w)
    requires multiset(Entries(v)) == multiset(Entries(w)) && key in Keys(Visible(v.fields))
    ensures key in Keys(Visible(w.fields))
    ensures StableJson(Lookup(v.fields, key)) == StableJson(Lookup(w.fields, key))
  {
    var i := EntryOf(v, key);
    SameMembers(Entries(v), Entries(w));
    assert Entries(v)[i] in Entries(w);
    var j :| 0 <= j < |Entries(w)| && Entries(w)[j] == Entries(v)[i];
    EntryAt(w, j);
  }

  lemma {:induction false} FieldFaithful(v: Json, w: Json, key: string)
    requires v.Obj? && w.Obj? && WellFormed(v) && WellFormed(w)
    requires StableJson(Lookup(v.fields, key)) == StableJson(Lookup(w.fields, key))
    ensures NormAt(v, key) == NormAt(w, key)
    decreases v, 0
  {
    LookupWellFormed(v.fields, key);
    LookupWellFormed(w.fields, key);
    Head(Lookup(v.fields, key));
    Head(Lookup(w.fields, key));
    if Lookup(v.fields, key) != Undefined {
      LookupSmaller(v.fields, key);
      EqualTextsEqualValues(Lookup(v.fields, key), Lookup(w.fields, key));
    }
  }

  // ----- equal values get equal texts -----

  ghost predicate NoDuplicates<T>(s: seq<T>)
  {
    forall i, j :: 0 <= i < j < |s| ==> s[i] != s[j]
  }

  lemma {:induction false} SameMembersSameBag<T>(a: seq<T>, b: seq<T>)
    requires NoDuplicates(a) && NoDuplicates(b) && forall x :: x in a <==> x in b
    ensures multiset(a) == multiset(b)
  {
    forall x: T ensures multiset(a)[x] == multiset(b)[x] {
      CountOnce(a, x);
      CountOnce(b, x);
    }
  }

  lemma {:induction false} CountOnce<T>(s: seq<T>, x: T)
    requires NoDuplicates(s)
    ensures multiset(s)[x] == if x in s then 1 else 0
  {
    if s != [] {
      assert s == [s[0]] + s[1..];
      CountOnce(s[1..], x);
    }
  }

  lemma EntriesUnique(v: Json)
    requires v.Obj? && WellFormed(v)
    ensures forall i, j :: 0 <= i < j < |Entries(v)| ==> Entries(v)[i].0 != Entries(v)[j].0
    ensures NoDuplicates(Entries(v))
  {
    var fields := Visible(v.fields);
    forall i, j | 0 <= i < j < |Entries(v)| ensures Entries(v)[i].0 != Entries(v)[j].0 {
      assert fields[i].key != fields[j].key;
    }
  }

  lemma SortedEntriesCanonical(v: Json, w: Json)
    requires v.Obj? && w.Obj? && WellFormed(v) && WellFormed(w)
    requires forall e :: e in Entries(v) <==> e in Entries(w)
    ensures Sort(KeyLe, Entries(v)) == Sort(KeyLe, Entries(w))
  {
    EntriesUnique(v);
    EntriesUnique(w);
    SameMembersSameBag(Entries(v), Entries(w));
    KeyOrder();
    forall x, y | x in Entries(v) && y in Entries(v) && KeyLe(x, y) && KeyLe(y, x) ensures x == y {
      LexAntisymmetric(x.0, y.0);
    }
    SortCanonical(KeyLe, Entries(v), Entries(w));
  }

  /** Stability: the text depends on the denoted value only. */
  lemma {:induction false} EqualValuesEqualTexts(v: Json, w: Json)
    requires WellFormed(v) && WellFormed(w) && Normal(v) == Normal(w)
    ensures StableJson(v) == StableJson(w)
    decreases v
  {
    if v.Arr? {
      forall i, j | 0 <= i < |v.items| && 0 <= j < |w.items| && Norms(v)[i] == Norms(w)[j]
        ensures Texts(v)[i] == Texts(w)[j]
      {
        EqualValuesEqualTexts(v.items[i], w.items[j]);
      }
      Matching(Norms(v), Texts(v), Norms(w), Texts(w));
      LexOrder();
      forall x, y | x in Texts(v) && y in Texts(v) && LexLe(x, y) && LexLe(y, x) ensures x == y {
        LexAntisymmetric(x, y);
      }
      SortCanonical(LexLe, Texts(v), Texts(w));
    } else if v.Obj? && !Identified(v) {
      SameKeys(v, w);
      forall e | e in Entries(v) ensures e in Entries(w) {
        var i :| 0 <= i < |Entries(v)| && Entries(v)[i] == e;
        EntryAt(v, i);
        FieldStable(v, w, e.0);
        var j := EntryOf(w, e.0);
        assert Entries(w)[j] == e;
      }
      forall e | e in Entries(w) ensures e in Entries(v) {
        var i :| 0 <= i < |Entries(w)| && Entries(w)[i] == e;
        EntryAt(w, i);
        FieldStable(v, w, e.0);
        var j := EntryOf(v, e.0);
        assert Entries(v)[j] == e;
      }
      SortedEntriesCanonical(v, w);
    }
  }

  lemma SameKeys(v: Json, w: Json)
    requires v.Obj? && !Identified(v) && Normal(v) == Normal(w)
    ensures w.Obj? && !Identified(w) && Keys(Visible(v.fields)) == Keys(Visible(w.fields))
    ensures forall key :: key in Keys(Visible(v.fields)) ==> NormAt(v, key) == NormAt(w, key)
  {
    assert Keys(Visible(v.fields)) == Normal(v).fields.Keys;
    assert Keys(Visible(w.fields)) == Normal(w).fields.Keys;
    forall key | key in Keys(Visible(v.fields)) ensures NormAt(v, key) == NormAt(w, key) {
      assert Normal(v).fields[key] == Normal(w).fields[key];
    }
  }

  lemma {:induction false} FieldStable(v: Json, w: Json, key: string)
    requires v.Obj? && w.Obj? && WellFormed(v) && WellFormed(w)
    requires NormAt(v, key) == NormAt(w, key)
    ensures StableJson(Lookup(v.fields, key)) == StableJson(Lookup(w.fields, key))
    decreases v, 0
  {
    LookupWellFormed(v.fields, key);
    LookupWellFormed(w.fields, key);
    if Lookup(v.fields, key) != Undefined {
      LookupSmaller(v.fields, key);
      EqualValuesEqualTexts(Lookup(v.fields, key), Lookup(w.fields, key));
    }
  }

  /** `stableJson` decides equality of denoted values, and its texts can be read side by side. */
  lemma StableJsonDecides(v: Json, w: Json, x: string, y: string)
    requires WellFormed(v) && WellFormed(w) && Ends(x) && Ends(y)
    ensures StableJson(v) + x == StableJson(w) + y <==> Normal(v) == Normal(w) && x == y
  {
    if StableJson(v) + x == StableJson(w) + y {
      TextIsToken(v);
      TextIsToken(w);
      TokenSplit(StableJson(v), StableJson(w), x, y);
      EqualTextsEqualValues(v, w);
    }
    if Normal(v) == Normal(w) {
      EqualValuesEqualTexts(v, w);
    }
  }

  /** The record has a name. */
  ghost predicate IsNamed(fields: seq<Field>)
  {
    Lookup(fields, "@id").Str? && Lookup(fields, "@id").s != ""
  }

  lemma NormHas(fields: seq<Field>, key: string)
    requires !IsNamed(fields) && !IsSidecar(key)
    ensures Normal(Obj(fields)).NObj?
    ensures key in Normal(Obj(fields)).fields <==> HasKey(fields, key)
    ensures HasKey(fields, key) ==> Normal(Obj(fields)).fields[key] == Normal(Lookup(fields, key))
  {
    if i :| 0 <= i < |fields| && fields[i].key == key { assert fields[i] in Visible(fields); }
    if f :| f in Visible(fields) && f.key == key { var i :| 0 <= i < |fields| && fields[i] == f; }
  }

  /**
   * Records with a non-empty id are compared by id, and any others by their fields, all but those
   * whose names end with `$stmt`.
   */
  lemma RecordsCompared(a: seq<Field>, b: seq<Field>)
    requires WellFormed(Obj(a)) && WellFormed(Obj(b))
    ensures IsNamed(a) && IsNamed(b) ==>
      (StableJson(Obj(a)) == StableJson(Obj(b)) <==> Lookup(a, "@id") == Lookup(b, "@id"))
    ensures StableJson(Obj(a)) == StableJson(Obj(b)) ==> (IsNamed(a) <==> IsNamed(b))
    ensures !IsNamed(a) && !IsNamed(b) && StableJson(Obj(a)) == StableJson(Obj(b)) ==>
      forall key: string :: |key| < 5 || key[|key| - 5..] != "$stmt" ==>
        (HasKey(a, key) <==> HasKey(b, key)) && Normal(Lookup(a, key)) == Normal(Lookup(b, key))
  {
    if StableJson(Obj(a)) == StableJson(Obj(b)) { EqualTextsEqualValues(Obj(a), Obj(b)); }
    if IsNamed(a) && IsNamed(b) && Lookup(a, "@id") == Lookup(b, "@id") { EqualValuesEqualTexts(Obj(a), Obj(b)); }
    if !IsNamed(a) && !IsNamed(b) && StableJson(Obj(a)) == StableJson(Obj(b)) {
      forall key: string | |key| < 5 || key[|key| - 5..] != "$stmt"
        ensures (HasKey(a, key) <==> HasKey(b, key)) && Normal(Lookup(a, key)) == Normal(Lookup(b, key))
      {
        NormHas(a, key);
        NormHas(b, key);
        if !HasKey(a, key) {
          LookupAbsent(a, key);
          LookupAbsent(b, key);
        }
      }
    }
  }

  /** Values that are no records and no arrays have texts of their own. */
  lemma ScalarsCompared(v: Json, w: Json)
    requires !v.Obj? && !v.Arr? && !w.Obj? && !w.Arr?
    ensures StableJson(v) == StableJson(w) <==> v == w
  {
    if StableJson(v) == StableJson(w) { EqualTextsEqualValues(v, w); }
  }

  /** Arrays are compared by the texts of their items, each as often as it occurs. */
  lemma ArraysCompared(xs: seq<Json>, ys: seq<Json>)
    requires WellFormed(Arr(xs)) && WellFormed(Arr(ys))
    ensures StableJson(Arr(xs)) == StableJson(Arr(ys)) <==>
            multiset(seq(|xs|, i requires 0 <= i < |xs| => StableJson(xs[i]))) ==
            multiset(seq(|ys|, i requires 0 <= i < |ys| => StableJson(ys[i])))
  {
    var v, w := Arr(xs), Arr(ys);
    assert Texts(v) == seq(|xs|, i requires 0 <= i < |xs| => StableJson(xs[i]));
    assert Texts(w) == seq(|ys|, i requires 0 <= i < |ys| => StableJson(ys[i]));
    if StableJson(v) == StableJson(w) {
      SortedTextsSplit(v, w);
    }
    if multiset(Texts(v)) == multiset(Texts(w)) {
      LexOrder();
      forall x, y | x in Texts(v) && y in Texts(v) && LexLe(x, y) && LexLe(y, x) ensures x == y {
        LexAntisymmetric(x, y);
      }
      SortCanonical(LexLe, Texts(v), Texts(w));
    }
  }
}
