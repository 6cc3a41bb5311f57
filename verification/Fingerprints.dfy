/**
 * Input fingerprints (packages/calc-engine/src/warm.ts:54-174): what they ignore and
 * what they determine.
 */
module Fingerprints {
  import opened Strings
  import opened Json
  import opened JsonText
  import opened Canonical
  import opened Profiles

  datatype PathValue = PathValue(value: Json, owner: Option<string>)

  function Concat<T>(lists: seq<seq<T>>): seq<T>
  {
    if lists == [] then [] else lists[0] + Concat(lists[1..])
  }

  /** The values at the end of a path; arrays fan out, nearest named record is the owner. */
  function Values(v: Json, path: seq<string>, owner: Option<string>): seq<PathValue>
    decreases |path|, v
  {
    if v.Arr? then
      Concat(seq(|v.items|, i requires 0 <= i < |v.items| =>
        Values(v.items[i], path, Or(EntityId(v.items[i]), owner))))
    else if path == [] then [PathValue(v, owner)]
    else if v.Obj? then Values(Lookup(v.fields, path[0]), path[1..], Or(EntityId(v), owner))
    else [PathValue(Undefined, owner)]
  }

  /** An array was met on the way. */
  predicate ArrayDerived(v: Json, path: seq<string>)
    decreases |path|
  {
    v.Arr? || (path != [] && v.Obj? && ArrayDerived(Lookup(v.fields, path[0]), path[1..]))
  }

  /** The path leads to some defined value or to an empty array. */
  predicate SourcePresent(v: Json, path: seq<string>)
    decreases |path|, v
  {
    if v.Arr? then v.items == [] || exists i :: 0 <= i < |v.items| && SourcePresent(v.items[i], path)
    else if path == [] then v != Undefined
    else v.Obj? && SourcePresent(Lookup(v.fields, path[0]), path[1..])
  }

  /** The closure of `collectPathValues`: one visit sets the two flags as it goes. */
  class PathVisitor {
    var arrayDerived: bool
    var sourcePresent: bool

    constructor ()
      ensures !arrayDerived && !sourcePresent
    {
      arrayDerived, sourcePresent := false, false;
    }

    method Visit(v: Json, path: seq<string>, owner: Option<string>) returns (out: seq<PathValue>)
      modifies this
      ensures out == Values(v, path, owner)
      ensures arrayDerived == (old(arrayDerived) || ArrayDerived(v, path))
      ensures sourcePresent == (old(sourcePresent) || SourcePresent(v, path))
      decreases |path|, v
    {
      if v.Arr? {
        arrayDerived := true;
        if v.items == [] { sourcePresent := true; }
        ghost var lists := seq(|v.items|, i requires 0 <= i < |v.items| =>
          Values(v.items[i], path, Or(EntityId(v.items[i]), owner)));
        out := [];
        for k := 0 to |v.items|
          invariant out == Concat(lists[..k])
          invariant arrayDerived
          invariant sourcePresent == (old(sourcePresent) || v.items == []
                    || exists i :: 0 <= i < k && SourcePresent(v.items[i], path))
        {
          var values := Visit(v.items[k], path, Or(EntityId(v.items[k]), owner));
          ConcatSnoc(lists[..k], lists[k]);
          assert lists[..k] + [lists[k]] == lists[..k + 1];
          out := out + values;
        }
        assert lists[..|v.items|] == lists;
      } else if path == [] {
        if v != Undefined { sourcePresent := true; }
        out := [PathValue(v, owner)];
      } else if v.Obj? {
        out := Visit(Lookup(v.fields, path[0]), path[1..], Or(EntityId(v), owner));
      } else {
        out := [PathValue(Undefined, owner)];
      }
    }
  }

  lemma {:induction false} ConcatSnoc<T>(lists: seq<seq<T>>, last: seq<T>)
    ensures Concat(lists + [last]) == Concat(lists) + last
  {
    if lists == [] {
      assert [] + [last] == [last];
      assert Concat([last]) == last + Concat<T>([]);
    } else {
      assert (lists + [last])[1..] == lists[1..] + [last];
      ConcatSnoc(lists[1..], last);
      Assoc(lists[0], Concat(lists[1..]), last);
    }
  }

  method CollectPathValues(doc: Json, path: seq<string>)
    returns (values: seq<PathValue>, arrayDerived: bool, sourcePresent: bool)
    ensures values == Values(doc, path, EntityId(doc))
    ensures arrayDerived == ArrayDerived(doc, path) && sourcePresent == SourcePresent(doc, path)
  {
    var visitor := new PathVisitor();
    values := visitor.Visit(doc, path, EntityId(doc));
    arrayDerived, sourcePresent := visitor.arrayDerived, visitor.sourcePresent;
  }

  /** A value ready for sorting: its comparison key and its text. */
  function Row(pv: PathValue): (string, string)
  {
    var text := StableJson(pv.value);
    (if pv.owner.Some? && pv.owner.value != "" then "0:" + pv.owner.value else "1:" + text, text)
  }

  function Rows(values: seq<PathValue>): (r: seq<(string, string)>)
    ensures |r| == |values|
  {
    seq(|values|, i requires 0 <= i < |values| => Row(values[i]))
  }

  function Seconds(rows: seq<(string, string)>): (r: seq<string>)
    ensures |r| == |rows|
  {
    seq(|rows|, i requires 0 <= i < |rows| => rows[i].1)
  }

  /** The texts of a source path in owner order. */
  function OrderedTexts(doc: Json, path: seq<string>): seq<string>
  {
    Seconds(Sort(PairLe, Rows(Values(doc, path, EntityId(doc)))))
  }

  predicate ListForm(doc: Json, path: seq<string>)
  {
    ArrayDerived(doc, path) || |Values(doc, path, EntityId(doc))| != 1
  }

  /** `fingerprintSourceValue` */
  function SourceFingerprint(doc: Json, path: seq<string>): string
  {
    var texts := OrderedTexts(doc, path);
    SameLength(Sort(PairLe, Rows(Values(doc, path, EntityId(doc)))), Rows(Values(doc, path, EntityId(doc))));
    if ListForm(doc, path) then "[" + Join(texts, ",") + "]" else texts[0]
  }

  function Part(doc: Json, source: Source): string
  {
    source.text + "=" + SourceFingerprint(doc, source.path)
  }

  function Parts(doc: Json, sources: seq<Source>): (r: seq<string>)
    ensures |r| == |sources|
  {
    seq(|sources|, i requires 0 <= i < |sources| => Part(doc, sources[i]))
  }

  /** `fingerprintForEntity` */
  function Fingerprint(profile: Profile, typeName: string, doc: Json): string
  {
    Join(Sort(LexLe, Parts(doc, SourcesOf(SlotsOf(profile, typeName)))), "&")
  }

  lemma PartsSnoc(doc: Json, done: seq<Source>, sources: seq<Source>, j: nat)
    requires j < |sources|
    ensures Parts(doc, done + sources[..j + 1]) == Parts(doc, done + sources[..j]) + [Part(doc, sources[j])]
  {
    assert done + sources[..j + 1] == (done + sources[..j]) + [sources[j]];
  }

  lemma {:induction false} SourcesConcat(a: seq<Slot>, b: seq<Slot>)
    ensures SourcesOf(a + b) == SourcesOf(a) + SourcesOf(b)
  {
    if a == [] {
      assert a + b == b;
    } else {
      assert (a + b)[1..] == a[1..] + b;
      SourcesConcat(a[1..], b);
    }
  }

  lemma {:induction false} SlotsConcat(a: seq<Slot>, b: seq<Slot>, typeName: string)
    ensures SlotsOf(a + b, typeName) == SlotsOf(a, typeName) + SlotsOf(b, typeName)
  {
    if a == [] {
      assert a + b == b;
    } else {
      assert (a + b)[0] == a[0] && (a + b)[1..] == a[1..] + b;
      SlotsConcat(a[1..], b, typeName);
    }
  }

  lemma SlotsSnoc(slots: seq<Slot>, slot: Slot, typeName: string)
    ensures SourcesOf(SlotsOf(slots + [slot], typeName)) ==
            SourcesOf(SlotsOf(slots, typeName)) + (if Owns(slot, typeName) then slot.sources else [])
  {
    SlotsConcat(slots, [slot], typeName);
    assert [slot][1..] == [];
    assert SlotsOf([slot], typeName) == if Owns(slot, typeName) then [slot] else [];
    SourcesConcat(SlotsOf(slots, typeName), SlotsOf([slot], typeName));
    assert SourcesOf([slot]) == slot.sources + SourcesOf([]);
  }

  method FingerprintForEntity(profile: Profile, typeName: string, doc: Json) returns (r: string)
    ensures r == Fingerprint(profile, typeName, doc)
  {
    var parts: seq<string> := [];
    ghost var done: seq<Source> := [];
    for i := 0 to |profile|
      invariant done == SourcesOf(SlotsOf(profile[..i], typeName)) && parts == Parts(doc, done)
    {
      var slot := profile[i];
      assert profile[..i + 1] == profile[..i] + [slot];
      SlotsSnoc(profile[..i], slot, typeName);
      if !Owns(slot, typeName) { continue; }
      for j := 0 to |slot.sources|
        invariant parts == Parts(doc, done + slot.sources[..j])
      {
        PartsSnoc(doc, done, slot.sources, j);
        parts := parts + [Part(doc, slot.sources[j])];
      }
      assert slot.sources[..|slot.sources|] == slot.sources;
      done := done + slot.sources;
    }
    assert profile[..|profile|] == profile;
    r := Join(Sort(LexLe, parts), "&");
  }

  // ----- what a fingerprint determines -----

  /** The values a source path yields, as an unordered collection of denotations. */
  ghost function SourceValues(doc: Json, path: seq<string>): multiset<Norm>
  {
    multiset(Denotations(Values(doc, path, EntityId(doc))))
  }

  function Denotations(values: seq<PathValue>): (r: seq<Norm>)
    ensures |r| == |values|
  {
    seq(|values|, i requires 0 <= i < |values| => Normal(values[i].value))
  }

  lemma {:induction false} ConcatMember<T>(lists: seq<seq<T>>, x: T) returns (i: nat)
    requires x in Concat(lists)
    ensures i < |lists| && x in lists[i]
  {
    if x in lists[0] {
      i := 0;
    } else {
      i := ConcatMember(lists[1..], x);
      i := i + 1;
    }
  }

  lemma {:induction false} ConcatContains<T>(lists: seq<seq<T>>, d: nat, x: T)
    requires d < |lists| && x in lists[d]
    ensures x in Concat(lists)
  {
    if d > 0 {
      ConcatContains(lists[1..], d - 1, x);
    }
  }

  /** Terminal values are never arrays, and stay well formed. */
  lemma {:induction false} TerminalValue(v: Json, path: seq<string>, owner: Option<string>, pv: PathValue)
    requires WellFormed(v) && pv in Values(v, path, owner)
    ensures !pv.value.Arr? && WellFormed(pv.value)
    decreases |path|, v
  {
    if v.Arr? {
      var i := ConcatMember(seq(|v.items|, i requires 0 <= i < |v.items| =>
        Values(v.items[i], path, Or(EntityId(v.items[i]), owner))), pv);
      TerminalValue(v.items[i], path, Or(EntityId(v.items[i]), owner), pv);
    } else if path != [] && v.Obj? {
      LookupWellFormed(v.fields, path[0]);
      TerminalValue(Lookup(v.fields, path[0]), path[1..], Or(EntityId(v), owner), pv);
    }
  }

  /** Every text of a source path is the text of one of its values. */
  lemma {:induction false} TextOrigin(doc: Json, path: seq<string>, k: nat) returns (pv: PathValue)
    requires WellFormed(doc) && k < |OrderedTexts(doc, path)|
    ensures pv in Values(doc, path, EntityId(doc)) && OrderedTexts(doc, path)[k] == StableJson(pv.value)
    ensures !pv.value.Arr? && WellFormed(pv.value) && Token(OrderedTexts(doc, path)[k])
  {
    var values := Values(doc, path, EntityId(doc));
    var sorted := Sort(PairLe, Rows(values));
    SameMembers(sorted, Rows(values));
    assert sorted[k] in sorted;
    var i :| 0 <= i < |values| && Rows(values)[i] == sorted[k];
    pv := values[i];
    TerminalValue(doc, path, EntityId(doc), pv);
    TextIsToken(pv.value);
  }

  lemma AllTokens(doc: Json, path: seq<string>)
    requires WellFormed(doc)
    ensures forall k :: 0 <= k < |OrderedTexts(doc, path)| ==> Token(OrderedTexts(doc, path)[k])
    ensures ListForm(doc, path) || (|OrderedTexts(doc, path)| == 1 && OrderedTexts(doc, path)[0][0] != '[')
    ensures Token(SourceFingerprint(doc, path))
  {
    var texts := OrderedTexts(doc, path);
    forall k | 0 <= k < |texts| ensures Token(texts[k]) { var _ := TextOrigin(doc, path, k); }
    BracketToken('[', texts, ']');
    SameLength(Sort(PairLe, Rows(Values(doc, path, EntityId(doc)))), Rows(Values(doc, path, EntityId(doc))));
    if !ListForm(doc, path) {
      var pv := TextOrigin(doc, path, 0);
      Head(pv.value);
    }
  }

  /** One source: its fingerprint shows its texts and whether they form a list. */
  lemma SourceFingerprintSplit(d: Json, e: Json, path: seq<string>, other: seq<string>)
    requires WellFormed(d) && WellFormed(e) && SourceFingerprint(d, path) == SourceFingerprint(e, other)
    ensures OrderedTexts(d, path) == OrderedTexts(e, other) && ListForm(d, path) == ListForm(e, other)
  {
    AllTokens(d, path);
    AllTokens(e, other);
    var s, t := OrderedTexts(d, path), OrderedTexts(e, other);
    assert ListForm(d, path) ==> SourceFingerprint(d, path)[0] == '[';
    assert ListForm(e, other) ==> SourceFingerprint(e, other)[0] == '[';
    if ListForm(d, path) {
      BracketSplit("[", s, t, ']');
    }
  }

  /** Projecting sorted pairs keeps the bag of their second components. */
  lemma {:induction false} SecondsBag(a: seq<(string, string)>, b: seq<(string, string)>)
    requires multiset(a) == multiset(b)
    ensures multiset(Seconds(a)) == multiset(Seconds(b))
  {
    Matching(a, Seconds(a), b, Seconds(b));
  }

  lemma TextsToValues(d: Json, e: Json, path: seq<string>, other: seq<string>)
    requires WellFormed(d) && WellFormed(e) && OrderedTexts(d, path) == OrderedTexts(e, other)
    ensures SourceValues(d, path) == SourceValues(e, other)
  {
    var a, b := Values(d, path, EntityId(d)), Values(e, other, EntityId(e));
    SecondsBag(Sort(PairLe, Rows(a)), Rows(a));
    SecondsBag(Sort(PairLe, Rows(b)), Rows(b));
    forall i, j | 0 <= i < |a| && 0 <= j < |b| && Seconds(Rows(a))[i] == Seconds(Rows(b))[j]
      ensures Denotations(a)[i] == Denotations(b)[j]
    {
      TerminalValue(d, path, EntityId(d), a[i]);
      TerminalValue(e, other, EntityId(e), b[j]);
      EqualTextsEqualValues(a[i].value, b[j].value);
    }
    Matching(Seconds(Rows(a)), Denotations(a), Seconds(Rows(b)), Denotations(b));
  }

  /** `text=` followed by one literal. */
  ghost predicate IsPart(s: string, k: nat)
  {
    k < |s| && s[k] == '=' && (forall i :: 0 <= i < k ==> s[i] != '=') && Token(s[k + 1..])
  }

  ghost predicate HasPart(s: string)
  {
    exists k: nat :: IsPart(s, k)
  }

  lemma PartSplit(s: string, t: string, i: nat, j: nat, x: string, y: string)
    requires IsPart(s, i) && IsPart(t, j) && Ends(x) && Ends(y) && s + x == t + y
    ensures s == t && x == y
  {
    assert (s + x)[i] == '=' && (t + y)[j] == '=';
    assert i < |t| ==> (t + y)[i] == t[i];
    assert j < |s| ==> (s + x)[j] == s[j];
    assert i == j;
    assert s[i + 1..] + x == (s + x)[i + 1..] && t[i + 1..] + y == (t + y)[i + 1..];
    TokenSplit(s[i + 1..], t[i + 1..], x, y);
    assert |s| == |t|;
    assert s == (s + x)[..|s|] && t == (t + y)[..|t|];
  }

  lemma {:induction false} PartsSplit(a: seq<string>, b: seq<string>)
    requires |a| == |b| && Join(a, "&") == Join(b, "&")
    requires forall s :: s in a ==> HasPart(s)
    requires forall s :: s in b ==> HasPart(s)
    ensures a == b
  {
    if |a| == 0 {
    } else if |a| == 1 {
      assert a[0] == b[0];
    } else {
      var ra, rb := Join(a[1..], "&"), Join(b[1..], "&");
      Assoc(a[0], "&", ra);
      Assoc(b[0], "&", rb);
      assert HasPart(a[0]) && HasPart(b[0]);
      var i: nat :| IsPart(a[0], i);
      var j: nat :| IsPart(b[0], j);
      PartSplit(a[0], b[0], i, j, "&" + ra, "&" + rb);
      Rest("&", ra);
      Rest("&", rb);
      PartsSplit(a[1..], b[1..]);
      assert a == [a[0]] + a[1..] && b == [b[0]] + b[1..];
    }
  }

  lemma PartsAreParts(doc: Json, sources: seq<Source>)
    requires WellFormed(doc) && CleanSources(sources)
    ensures forall s :: s in Sort(LexLe, Parts(doc, sources)) ==> HasPart(s)
  {
    SameMembers(Sort(LexLe, Parts(doc, sources)), Parts(doc, sources));
    forall s | s in Sort(LexLe, Parts(doc, sources)) ensures HasPart(s) {
      var i :| 0 <= i < |sources| && Parts(doc, sources)[i] == s;
      assert sources[i] in sources;
      AllTokens(doc, sources[i].path);
      PartIsPart(sources[i].text, SourceFingerprint(doc, sources[i].path));
    }
  }

  lemma PartIsPart(text: string, t: string)
    requires '=' !in text && Token(t)
    ensures IsPart(text + "=" + t, |text|)
  {
    Rest(text + "=", t);
    assert (text + "=" + t)[..|text|] == text;
  }

  /** The first `=` ends the source text. */
  lemma {:induction false} SamePart(s: string, t: string, x: string, y: string)
    requires '=' !in s && '=' !in t && s + "=" + x == t + "=" + y
    ensures s == t && x == y
  {
    assert (s + "=" + x)[0] == if s == "" then '=' else s[0];
    assert (t + "=" + y)[0] == if t == "" then '=' else t[0];
    if s == "" {
      Rest(s + "=", x);
      Rest(t + "=", y);
    } else {
      assert (s + "=" + x)[1..] == s[1..] + "=" + x && (t + "=" + y)[1..] == t[1..] + "=" + y;
      SamePart(s[1..], t[1..], x, y);
      assert s == [s[0]] + s[1..] && t == [t[0]] + t[1..];
    }
  }

  lemma EqualJoinsEqualParts(d: Json, e: Json, sources: seq<Source>)
    requires WellFormed(d) && WellFormed(e) && CleanSources(sources)
    requires Join(Sort(LexLe, Parts(d, sources)), "&") == Join(Sort(LexLe, Parts(e, sources)), "&")
    ensures multiset(Parts(d, sources)) == multiset(Parts(e, sources))
  {
    SameLength(Sort(LexLe, Parts(d, sources)), Parts(d, sources));
    SameLength(Sort(LexLe, Parts(e, sources)), Parts(e, sources));
    PartsAreParts(d, sources);
    PartsAreParts(e, sources);
    PartsSplit(Sort(LexLe, Parts(d, sources)), Sort(LexLe, Parts(e, sources)));
  }

  lemma SourceShown(d: Json, e: Json, sources: seq<Source>, s: Source)
    requires CleanSources(sources) && s in sources
    requires multiset(Parts(d, sources)) == multiset(Parts(e, sources))
    ensures SourceFingerprint(d, s.path) == SourceFingerprint(e, s.path)
  {
    var a, b := Parts(d, sources), Parts(e, sources);
    SameMembers(a, b);
    var i :| 0 <= i < |sources| && sources[i] == s;
    assert a[i] in b;
    var j :| 0 <= j < |b| && b[j] == a[i];
    assert sources[j] in sources;
    SamePart(s.text, sources[j].text, SourceFingerprint(d, s.path), SourceFingerprint(e, sources[j].path));
  }

  /** Both levels of joining can be undone: equal fingerprints agree source by source. */
  lemma FingerprintDecides(profile: Profile, typeName: string, d: Json, e: Json)
    requires WellFormed(d) && WellFormed(e) && CleanSources(SourcesOf(SlotsOf(profile, typeName)))
    ensures Fingerprint(profile, typeName, d) == Fingerprint(profile, typeName, e) <==>
            forall s :: s in SourcesOf(SlotsOf(profile, typeName)) ==>
              SourceFingerprint(d, s.path) == SourceFingerprint(e, s.path)
  {
    var sources := SourcesOf(SlotsOf(profile, typeName));
    if Fingerprint(profile, typeName, d) == Fingerprint(profile, typeName, e) {
      EqualJoinsEqualParts(d, e, sources);
      forall s | s in sources ensures SourceFingerprint(d, s.path) == SourceFingerprint(e, s.path) {
        SourceShown(d, e, sources, s);
      }
    }
    if forall s :: s in sources ==> SourceFingerprint(d, s.path) == SourceFingerprint(e, s.path) {
      forall i | 0 <= i < |sources| ensures Parts(d, sources)[i] == Parts(e, sources)[i] {
        assert sources[i] in sources;
      }
      assert Parts(d, sources) == Parts(e, sources);
    }
  }

  /** Faithfulness: equal fingerprints mean equal bags of values on every source path. */
  lemma FingerprintFaithful(profile: Profile, typeName: string, d: Json, e: Json)
    requires WellFormed(d) && WellFormed(e) && CleanSources(SourcesOf(SlotsOf(profile, typeName)))
    requires Fingerprint(profile, typeName, d) == Fingerprint(profile, typeName, e)
    ensures forall s :: s in SourcesOf(SlotsOf(profile, typeName)) ==>
              SourceValues(d, s.path) == SourceValues(e, s.path) && ListForm(d, s.path) == ListForm(e, s.path)
  {
    FingerprintDecides(profile, typeName, d, e);
    forall s | s in SourcesOf(SlotsOf(profile, typeName))
      ensures SourceValues(d, s.path) == SourceValues(e, s.path) && ListForm(d, s.path) == ListForm(e, s.path)
    {
      SourceFingerprintSplit(d, e, s.path, s.path);
      TextsToValues(d, e, s.path, s.path);
    }
  }
}
