/** Compiled calc profiles (packages/formula-dependency/src/types.ts:41-63), as far as the engine reads them. */
module Profiles {
  import opened Json

  /** A binding path: its text and the segments lodash `toPath` splits it into. */
  datatype Source = Source(text: string, path: seq<string>)

  datatype AggregateKind = Sum | Count | Avg

  datatype Aggregate = Aggregate(kind: AggregateKind, over: seq<string>, field: Option<seq<string>>)

  /**
   * One computed property. `owner` is `definitionNameFromScope(entityScope)`, `path`
   * is `scopeToDotPath(scope)`, the key under which statements are written.
   */
  datatype Slot = Slot(
    scope: string,
    owner: Option<string>,
    propertyName: string,
    path: string,
    stratum: int,
    sources: seq<Source>,
    aggregate: Option<Aggregate>,
    serverOnly: bool,
    cost: nat)

  type Profile = seq<Slot>

  predicate Owns(slot: Slot, typeName: string)
  {
    slot.owner == Some(typeName)
  }

  /** The slots a type owns, in profile order. */
  function SlotsOf(profile: Profile, typeName: string): seq<Slot>
  {
    if profile == [] then []
    else (if Owns(profile[0], typeName) then [profile[0]] else []) + SlotsOf(profile[1..], typeName)
  }

  lemma {:induction false} SlotsOfMember(profile: Profile, typeName: string, slot: Slot)
    ensures slot in SlotsOf(profile, typeName) <==> slot in profile && Owns(slot, typeName)
  {
    if profile != [] {
      SlotsOfMember(profile[1..], typeName, slot);
      assert profile == [profile[0]] + profile[1..];
    }
  }

  function SourcesOf(slots: seq<Slot>): seq<Source>
  {
    if slots == [] then [] else slots[0].sources + SourcesOf(slots[1..])
  }

  lemma {:induction false} SourcesOfContains(slots: seq<Slot>, slot: Slot, source: Source)
    requires slot in slots && source in slot.sources
    ensures source in SourcesOf(slots)
  {
    if slots[0] != slot {
      SourcesOfContains(slots[1..], slot, source);
    }
  }

  /** Source texts carry no `=`, and one text has one meaning. */
  ghost predicate CleanSources(sources: seq<Source>)
  {
    && (forall s :: s in sources ==> '=' !in s.text)
    && (forall s, t :: s in sources && t in sources && s.text == t.text ==> s == t)
  }

  /** `CalcHostCapabilities`: where slots run and how costly they may be. */
  datatype Host = Host(browser: bool, maxLiveCost: nat)

  predicate LiveOn(slot: Slot, host: Host)
  {
    !(host.browser && slot.serverOnly) && slot.cost <= host.maxLiveCost
  }

  /** `selectLiveEvalSlots` (packages/formula-runtime/src/selectLiveEvalSlots.ts:48-61) */
  function LiveSlots(profile: Profile, host: Host): Profile
  {
    if profile == [] then []
    else (if LiveOn(profile[0], host) then [profile[0]] else []) + LiveSlots(profile[1..], host)
  }

  lemma {:induction false} AllSlotsLive(profile: Profile, host: Host)
    requires forall s :: s in profile ==> LiveOn(s, host)
    ensures LiveSlots(profile, host) == profile
  {
    if profile != [] {
      assert profile[0] in profile && profile == [profile[0]] + profile[1..];
      AllSlotsLive(profile[1..], host);
    }
  }
}
