/** The earlier revision of the tech JSON builder (scripts/create_tech_json_new.py):
    a count-only unlock summary, availability read from precomputed faction
    mappings, a looser per-faction tech count and the display list of numeric
    modifiers. Its `extract_alternate_names` and `humanize_modifier_key` are the
    same code as the later revision's and are modelled once, in module TechJson. */
module TechJsonOld {
  import opened Wrappers
  import opened Seqs
  import opened Text
  import opened Numbers
  import opened Techs
  import opened TechJson

  // ---------------------------------------------------------------------
  // Unlock summary

  /** The dictionary returned for an unlock list; an empty list gets no `other` key. */
  datatype OldUnlockDetails = OldUnlockDetails(
    technologies: seq<string>,
    components: seq<string>,
    buildings: seq<string>,
    other: Option<seq<string>>,
    description: string)

  /** `f"{len(xs)} noun"` when the class is non-empty; `tail` is the text after the count. */
  function CountPart(n: nat, tail: string): seq<string>
  {
    if n > 0 then [ShowNat(n) + tail] else []
  }

  /** The count phrases in the source's order: buildings, components, techs, other. */
  function SummaryParts(unlocks: seq<string>): seq<string>
  {
    CountPart(|OfCategory(unlocks, BuildingU)|, " building(s)")
    + CountPart(|OfCategory(unlocks, ComponentU)|, " component(s)")
    + CountPart(|OfCategory(unlocks, TechU)|, " follow-up tech(s)")
    + CountPart(|OfCategory(unlocks, OtherU)|, " other unlock(s)")
  }

  function SummaryDescription(unlocks: seq<string>): string
  {
    var parts := SummaryParts(unlocks);
    if |parts| > 0 then "Unlocks: " + Join(parts, ", ") else "No direct unlocks"
  }

  /** `extract_unlock_details(unlocks, loc_loader)` of the earlier revision. */
  function OldUnlockDetailsOf(unlocks: seq<string>): OldUnlockDetails
  {
    if |unlocks| == 0 then OldUnlockDetails([], [], [], None, "")
    else
      OldUnlockDetails(OfCategory(unlocks, TechU), OfCategory(unlocks, ComponentU),
                       OfCategory(unlocks, BuildingU), Some(OfCategory(unlocks, OtherU)),
                       SummaryDescription(unlocks))
  }

  method ExtractUnlockDetailsOld(unlocks: seq<string>) returns (d: OldUnlockDetails)
    ensures d == OldUnlockDetailsOf(unlocks)
  {
    if |unlocks| == 0 {
      return OldUnlockDetails([], [], [], None, "");
    }
    var technologies, buildings, components, other := CategoriseUnlocks(unlocks);
    var parts: seq<string> := [];
    if |buildings| > 0 {
      parts := parts + [ShowNat(|buildings|) + " building(s)"];
    }
    assert parts == CountPart(|buildings|, " building(s)");
    if |components| > 0 {
      parts := parts + [ShowNat(|components|) + " component(s)"];
    }
    assert parts == CountPart(|buildings|, " building(s)") + CountPart(|components|, " component(s)");
    if |technologies| > 0 {
      parts := parts + [ShowNat(|technologies|) + " follow-up tech(s)"];
    }
    assert parts == CountPart(|buildings|, " building(s)") + CountPart(|components|, " component(s)")
                    + CountPart(|technologies|, " follow-up tech(s)");
    if |other| > 0 {
      parts := parts + [ShowNat(|other|) + " other unlock(s)"];
    }
    assert parts == SummaryParts(unlocks);
    var description := if |parts| > 0 then "Unlocks: " + Join(parts, ", ") else "No direct unlocks";
    d := OldUnlockDetails(technologies, components, buildings, Some(other), description);
  }

  /** One phrase per non-empty class. */
  lemma SummaryPartsCount(unlocks: seq<string>)
    ensures |SummaryParts(unlocks)|
      == (if |OfCategory(unlocks, BuildingU)| > 0 then 1 else 0)
       + (if |OfCategory(unlocks, ComponentU)| > 0 then 1 else 0)
       + (if |OfCategory(unlocks, TechU)| > 0 then 1 else 0)
       + (if |OfCategory(unlocks, OtherU)| > 0 then 1 else 0)
  {
  }

  /** Every unlock lands in some class, so a non-empty list always gets a
      count summary and the "No direct unlocks" branch is never taken. */
  lemma SummaryNeverEmpty(unlocks: seq<string>)
    ensures |unlocks| > 0 <==> OldUnlockDetailsOf(unlocks).description != ""
    ensures |unlocks| > 0 ==> StartsWith(OldUnlockDetailsOf(unlocks).description, "Unlocks: ")
  {
    if |unlocks| > 0 {
      CategoriesPartition(unlocks);
      SummaryPartsCount(unlocks);
      var d := "Unlocks: " + Join(SummaryParts(unlocks), ", ");
      assert d[..|"Unlocks: "|] == "Unlocks: ";
    }
  }

  // ---------------------------------------------------------------------
  // Faction availability from precomputed mappings

  /** One entry of `faction_mappings`: its `factions` list and optional `condition`. */
  datatype FactionMapping = FactionMapping(factions: seq<string>, condition: Option<string>)

  /** `availability[f] = {'available': True, 'condition': cond}` for each listed faction. */
  function MarkAll(factions: seq<string>, cond: string): Assoc<Availability>
    decreases |factions|
  {
    if |factions| == 0 then []
    else Put(MarkAll(factions[..|factions| - 1], cond), factions[|factions| - 1], Availability(true, cond))
  }

  /** `determine_faction_availability(tech, faction_mappings)` of the earlier revision. */
  function OldFactionAvailability(techName: string, mappings: map<string, FactionMapping>): Assoc<Availability>
  {
    if techName in mappings then
      MarkAll(mappings[techName].factions, mappings[techName].condition.GetOr("detected"))
    else []
  }

  method DetermineFactionAvailabilityOld(techName: string, mappings: map<string, FactionMapping>)
    returns (availability: Assoc<Availability>)
    ensures availability == OldFactionAvailability(techName, mappings)
  {
    availability := [];
    if techName in mappings {
      var data := mappings[techName];
      var cond := data.condition.GetOr("detected");
      for i := 0 to |data.factions|
        invariant availability == MarkAll(data.factions[..i], cond)
      {
        assert data.factions[..i + 1][..i] == data.factions[..i];
        availability := Put(availability, data.factions[i], Availability(true, cond));
      }
      assert data.factions[..|data.factions|] == data.factions;
    }
  }

  /** Each listed faction is available under the mapping's condition, in
      first-listed order, and nothing else is present. */
  lemma {:induction false} MarkAllSpec(factions: seq<string>, cond: string, f: string)
    ensures Get(MarkAll(factions, cond), f) == if f in factions then Some(Availability(true, cond)) else None
    ensures Keys(MarkAll(factions, cond)) == Dedupe(factions)
    decreases |factions|
  {
    if |factions| > 0 {
      var init := factions[..|factions| - 1];
      var last := factions[|factions| - 1];
      MarkAllSpec(init, cond, f);
      assert factions == init + [last];
      if last != f {
        PutOther(MarkAll(init, cond), last, Availability(true, cond), f);
      }
    }
  }

  lemma OldAvailabilitySpec(techName: string, mappings: map<string, FactionMapping>, f: string)
    ensures Get(OldFactionAvailability(techName, mappings), f)
      == if techName in mappings && f in mappings[techName].factions
         then Some(Availability(true, mappings[techName].condition.GetOr("detected")))
         else None
  {
    if techName in mappings {
      MarkAllSpec(mappings[techName].factions, mappings[techName].condition.GetOr("detected"), f);
    }
  }

  // ---------------------------------------------------------------------
  // Faction metadata with the earlier count

  /** The earlier count: a tech with no availability entries, or with an entry
      naming the faction whatever its `available` flag. */
  predicate OldCounts(f: string, t: Tech)
  {
    |t.factionAvailability| == 0 || HasKey(t.factionAvailability, f)
  }

  function OldCountsFor(f: string): Tech -> bool
  {
    t => OldCounts(f, t)
  }

  function OldTechCount(f: string, techs: seq<Tech>): (r: nat)
    ensures r <= |techs|
  {
    |Filter(techs, OldCountsFor(f))|
  }

  lemma OldTechCountStep(f: string, techs: seq<Tech>, i: nat)
    requires i < |techs|
    ensures OldTechCount(f, techs[..i + 1]) == OldTechCount(f, techs[..i]) + if OldCounts(f, techs[i]) then 1 else 0
  {
    FilterAppend(techs[..i], [techs[i]], OldCountsFor(f));
    assert techs[..i + 1] == techs[..i] + [techs[i]];
  }

  /** The `sum(1 for tech in technologies if ...)`. */
  method CountTechsOld(f: string, techs: seq<Tech>) returns (count: nat)
    ensures count == OldTechCount(f, techs)
  {
    count := 0;
    for i := 0 to |techs|
      invariant count == OldTechCount(f, techs[..i])
    {
      var fa := techs[i].factionAvailability;
      if |fa| == 0 || HasKey(fa, f) {
        count := count + 1;
      }
      OldTechCountStep(f, techs, i);
    }
    assert techs[..|techs|] == techs;
  }

  function OldMetaWith(known: Assoc<FactionInfo>, f: string, techs: seq<Tech>): FactionMeta
  {
    var info := InfoOf(known, f);
    FactionMeta(ReplaceAll(Lower(f), " ", "_"), info.name, info.shortName, info.color, info.playable,
                OldTechCount(f, techs))
  }

  method BuildMetadataOld(known: Assoc<FactionInfo>, sorted: seq<string>, techs: seq<Tech>)
    returns (metadata: seq<FactionMeta>)
    ensures |metadata| == |sorted|
    ensures forall k :: 0 <= k < |metadata| ==> metadata[k] == OldMetaWith(known, sorted[k], techs)
  {
    metadata := [];
    for i := 0 to |sorted|
      invariant |metadata| == i
      invariant forall k :: 0 <= k < i ==> metadata[k] == OldMetaWith(known, sorted[k], techs)
    {
      var f := sorted[i];
      var count := CountTechsOld(f, techs);
      var info := InfoOf(known, f);
      metadata := metadata + [FactionMeta(ReplaceAll(Lower(f), " ", "_"), info.name, info.shortName,
                                          info.color, info.playable, count)];
    }
  }

  /** `generate_factions_metadata(factions, technologies)` of the earlier revision. */
  method GenerateFactionsMetadataOld(factions: seq<string>, techs: seq<Tech>) returns (metadata: seq<FactionMeta>)
    ensures |metadata| == |factions|
    ensures forall k :: 0 <= k < |metadata| ==> metadata[k] == OldMetaWith(KnownFactions, SortStrings(factions)[k], techs)
  {
    metadata := BuildMetadataOld(KnownFactions, SortStrings(factions), techs);
  }

  /** The revisions consult a faction's entry alike, except that the earlier one
      counts it whatever its flag; without an entry the earlier one counts only
      techs whose availability map is empty, the later one falls back to the
      required species. */
  lemma CountRevisions(f: string, speciesMap: map<string, string>, t: Tech)
    ensures HasKey(t.factionAvailability, f) ==>
      OldCounts(f, t) && (Counts(f, speciesMap, t) <==> Get(t.factionAvailability, f).value.available)
    ensures !HasKey(t.factionAvailability, f) ==>
      (OldCounts(f, t) <==> |t.factionAvailability| == 0)
      && (Counts(f, speciesMap, t) <==> |t.requiredSpecies| == 0 || SpeciesMatches(speciesMap, t.requiredSpecies, f))
  {
    if HasKey(t.factionAvailability, f) {
      assert |t.factionAvailability| > 0;
    }
  }

  /** Every tech the later count accepts through an available entry the earlier
      count accepts too, so on techs whose availability maps all name the
      faction the earlier count is never smaller. */
  lemma {:induction false} OldCountCoversEntries(f: string, speciesMap: map<string, string>, techs: seq<Tech>)
    requires forall i :: 0 <= i < |techs| ==> HasKey(techs[i].factionAvailability, f)
    ensures TechCount(f, speciesMap, techs) <= OldTechCount(f, techs)
  {
    if |techs| > 0 {
      OldCountCoversEntries(f, speciesMap, techs[1..]);
      CountRevisions(f, speciesMap, techs[0]);
    }
  }

  // ---------------------------------------------------------------------
  // Modifier display list

  /** A modifier value as the JSON loader gives it. Python's `bool` is an
      `int`, so it passes the numeric test. */
  datatype ModValue = IntValue(i: int) | FloatValue(x: real) | BoolValue(b: bool) | Nested

  /** The argument of `parse_modifiers_for_display`: a dictionary, or anything else. */
  datatype Modifiers = ModDict(entries: Assoc<ModValue>) | NotADict

  /** How `format_modifier_display` prints the number: a percentage for
      `_mult`, a signed integer for `_add`, two decimals otherwise. */
  datatype ValueStyle = Percent | Signed | TwoDecimals

  /** One `{'type': 'modifier', 'key', 'value', 'display'}` entry; the display
      string is its number style followed by the readable name. */
  datatype Effect = Effect(key: string, value: ModValue, style: ValueStyle, name: string)

  function StyleOf(key: string): ValueStyle
  {
    if EndsWith(key, "_mult") then Percent else if EndsWith(key, "_add") then Signed else TwoDecimals
  }

  predicate NumericEntry(e: (string, ModValue))
  {
    !e.1.Nested?
  }

  function EffectOf(e: (string, ModValue)): Effect
  {
    Effect(e.0, e.1, StyleOf(e.0), HumanizeModifierKey(e.0))
  }

  /** `parse_modifiers_for_display(modifiers)`: one effect per numeric entry, in order. */
  function DisplayEffects(m: Modifiers): seq<Effect>
  {
    match m
    case NotADict => []
    case ModDict(entries) => MapSeq(Filter(entries, NumericEntry), EffectOf)
  }

  lemma DisplayStep(entries: Assoc<ModValue>, i: nat)
    requires i < |entries|
    ensures MapSeq(Filter(entries[..i + 1], NumericEntry), EffectOf)
            == MapSeq(Filter(entries[..i], NumericEntry), EffectOf)
               + if NumericEntry(entries[i]) then [EffectOf(entries[i])] else []
  {
    FilterAppend(entries[..i], [entries[i]], NumericEntry);
    assert entries[..i + 1] == entries[..i] + [entries[i]];
  }

  method ParseModifiersForDisplay(m: Modifiers) returns (effects: seq<Effect>)
    ensures effects == DisplayEffects(m)
  {
    effects := [];
    if m.NotADict? || |m.entries| == 0 {
      return;
    }
    var entries := m.entries;
    for i := 0 to |entries|
      invariant effects == MapSeq(Filter(entries[..i], NumericEntry), EffectOf)
    {
      var (key, value) := entries[i];
      DisplayStep(entries, i);
      if value.Nested? {
        continue;
      }
      effects := effects + [Effect(key, value, StyleOf(key), HumanizeModifierKey(key))];
    }
    assert entries[..|entries|] == entries;
  }

  /** The effects list the numeric keys in dictionary order, each with its own
      value and a readable name without underscores. */
  lemma DisplayEffectsSpec(entries: Assoc<ModValue>)
    ensures var r := DisplayEffects(ModDict(entries));
      |r| <= |entries|
      && (forall k :: 0 <= k < |r| ==>
            (r[k].key, r[k].value) in entries && !r[k].value.Nested? && '_' !in r[k].name && r[k].style == StyleOf(r[k].key))
      && (forall e :: e in entries && NumericEntry(e) ==> EffectOf(e) in r)
  {
    var kept := Filter(entries, NumericEntry);
    var r := DisplayEffects(ModDict(entries));
    forall k | 0 <= k < |r|
      ensures (r[k].key, r[k].value) in entries && !r[k].value.Nested? && '_' !in r[k].name
    {
      assert kept[k] in kept;
      HumanizeNoUnderscore(kept[k].0);
    }
    forall e | e in entries && NumericEntry(e) ensures EffectOf(e) in r {
      var k :| 0 <= k < |kept| && kept[k] == e;
      assert r[k] == EffectOf(e);
    }
  }
}
