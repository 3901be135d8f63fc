/** The facet filters of js/filters.js: area, species, tier and connectivity,
    each a per-record test over the list it is given, and `filterTechs`, which
    applies them in a fixed order. */
module Filters {
  import opened Wrappers
  import opened Seqs
  import opened Numbers
  import opened Techs
  import opened Data

  /** A filter value that switches the filter off: `!value || value === 'all'`. */
  predicate IsOff(value: string)
  {
    value == "" || value == "all"
  }

  // ---------------------------------------------------------------------
  // Area

  function AreaIs(area: string): Tech -> bool
  {
    (t: Tech) => t.area == area
  }

  /** `filterTechsByArea`. */
  function FilterTechsByArea(techs: seq<Tech>, area: string): (r: seq<Tech>)
    ensures IsOff(area) ==> r == techs
    ensures !IsOff(area) ==> forall t :: t in r <==> t in techs && t.area == area
    ensures IsSubseq(r, techs)
  {
    if IsOff(area) then
      IsSubseqReflexive(techs);
      techs
    else
      FilterIsSubseq(techs, AreaIs(area));
      Filter(techs, AreaIs(area))
  }

  // ---------------------------------------------------------------------
  // Species

  /** The per-record test of `filterTechsBySpecies`: in exclusive mode the
      record must name the species; otherwise it may also name none. */
  predicate KeepsSpecies(t: Tech, species: string, isExclusive: bool)
  {
    var rs := t.requiredSpecies;
    if isExclusive then |rs| > 0 && species in rs else |rs| == 0 || species in rs
  }

  function SpeciesTest(species: string, isExclusive: bool): Tech -> bool
  {
    (t: Tech) => KeepsSpecies(t, species, isExclusive)
  }

  /** `filterTechsBySpecies`. */
  function FilterTechsBySpecies(techs: seq<Tech>, species: string, isExclusive: bool): (r: seq<Tech>)
    ensures IsOff(species) ==> r == techs
    ensures !IsOff(species) && isExclusive ==>
      forall t :: t in r <==> t in techs && |t.requiredSpecies| > 0 && species in t.requiredSpecies
    ensures !IsOff(species) && !isExclusive ==>
      forall t :: t in r <==> t in techs && (|t.requiredSpecies| == 0 || species in t.requiredSpecies)
    ensures IsSubseq(r, techs)
  {
    if IsOff(species) then
      IsSubseqReflexive(techs);
      techs
    else
      FilterIsSubseq(techs, SpeciesTest(species, isExclusive));
      Filter(techs, SpeciesTest(species, isExclusive))
  }

  /** What the exclusive filter keeps, the inclusive one keeps too, in the
      same order. */
  lemma ExclusiveWithinInclusive(techs: seq<Tech>, species: string)
    ensures IsSubseq(FilterTechsBySpecies(techs, species, true), FilterTechsBySpecies(techs, species, false))
  {
    if IsOff(species) {
      IsSubseqReflexive(techs);
    } else {
      FilterStronger(techs, SpeciesTest(species, true), SpeciesTest(species, false));
    }
  }

  // ---------------------------------------------------------------------
  // Tier

  /** The text `parseInt` sees for the `tier` field: a number is first turned
      into its decimal string, an absent field into "undefined". */
  function TierText(tier: TierField): string
  {
    match tier
    case TierNumber(n) => ShowInt(n)
    case TierText(text) => text
    case TierAbsent => "undefined"
  }

  /** `parseInt(t.tier, 10) || 0`. */
  function TierOf(t: Tech): (n: int)
    ensures t.tier.TierNumber? ==> n == t.tier.n
    ensures ParseIntJs(TierText(t.tier)).None? ==> n == 0
  {
    var n := ParseIntJs(TierText(t.tier)).GetOr(0);
    if t.tier.TierNumber? then ParseShowInt(t.tier.n); n else n
  }

  /** `{ startTier, endTier }`, both bounds inclusive. */
  datatype TierRange = TierRange(startTier: int, endTier: int)

  /** The default range: tiers 0 to 99. */
  const DefaultTierRange: TierRange := TierRange(0, 99)

  function TierIn(range: TierRange): Tech -> bool
  {
    (t: Tech) => range.startTier <= TierOf(t) <= range.endTier
  }

  /** `filterTechsByTier`. */
  function FilterTechsByTier(techs: seq<Tech>, range: TierRange): (r: seq<Tech>)
    ensures forall t :: t in r <==> t in techs && range.startTier <= TierOf(t) <= range.endTier
    ensures IsSubseq(r, techs)
  {
    FilterIsSubseq(techs, TierIn(range));
    Filter(techs, TierIn(range))
  }

  /** A record without a usable tier counts as tier 0, so the default range
      keeps it. */
  lemma UnparsableTierKept(t: Tech)
    requires ParseIntJs(TierText(t.tier)).None?
    ensures FilterTechsByTier([t], DefaultTierRange) == [t]
  {
  }

  // ---------------------------------------------------------------------
  // Connectivity

  /** What `filterConnected` keeps: with no active id the list itself,
      otherwise the records whose id is connected to the active one within
      this list. */
  ghost function ConnectedWithin(techs: seq<Tech>, activeTechId: string): seq<Tech>
  {
    if activeTechId == "" then techs else WithIds(techs, Connected(techs, activeTechId))
  }

  /** `filterConnected`: the connected set is computed over the list it is
      given, which is already filtered when `filterTechs` calls it. */
  method FilterConnected(techs: seq<Tech>, activeTechId: string) returns (r: seq<Tech>)
    ensures r == ConnectedWithin(techs, activeTechId)
    ensures IsSubseq(r, techs)
    ensures activeTechId != "" ==>
      forall t :: t in r <==> t in techs && t.id in Connected(techs, activeTechId)
  {
    if activeTechId == "" {
      IsSubseqReflexive(techs);
      return techs;
    }
    var connected := GetConnectedTechIds(activeTechId, techs);
    r := WithIds(techs, connected);
  }

  /** The active record itself survives the connectivity filter. */
  lemma ActiveKept(techs: seq<Tech>, activeTechId: string, t: Tech)
    requires activeTechId != "" && t in techs && t.id == activeTechId
    ensures t in ConnectedWithin(techs, activeTechId)
  {
  }

  // ---------------------------------------------------------------------
  // The combined filter

  /** What `filterTechs` computes: area, then species, then connectivity,
      then tier. */
  ghost function Filtered(techs: seq<Tech>, species: string, isExclusive: bool, area: string,
                          range: TierRange, activeTechId: string): seq<Tech>
  {
    FilterTechsByTier(
      ConnectedWithin(FilterTechsBySpecies(FilterTechsByArea(techs, area), species, isExclusive), activeTechId),
      range)
  }

  /** `filterTechs`; an absent `activeTechId` is "". */
  method FilterTechs(techs: seq<Tech>, species: string, isExclusive: bool, area: string,
                     range: TierRange, activeTechId: string) returns (r: seq<Tech>)
    ensures r == Filtered(techs, species, isExclusive, area, range, activeTechId)
    ensures IsSubseq(r, techs)
    ensures forall t :: t in r ==>
      (IsOff(area) || t.area == area) &&
      (IsOff(species) || KeepsSpecies(t, species, isExclusive)) &&
      range.startTier <= TierOf(t) <= range.endTier
  {
    var byArea := FilterTechsByArea(techs, area);
    var bySpecies := FilterTechsBySpecies(byArea, species, isExclusive);
    var byConnection := FilterConnected(bySpecies, activeTechId);
    r := FilterTechsByTier(byConnection, range);
    IsSubseqTransitive(byConnection, bySpecies, byArea);
    IsSubseqTransitive(r, byConnection, byArea);
    IsSubseqTransitive(r, byArea, techs);
  }

  // ---------------------------------------------------------------------
  // Algebra of the per-record filters

  lemma AreaIdempotent(techs: seq<Tech>, area: string)
    ensures FilterTechsByArea(FilterTechsByArea(techs, area), area) == FilterTechsByArea(techs, area)
  {
    if !IsOff(area) {
      FilterIdempotent(techs, AreaIs(area));
    }
  }

  lemma SpeciesIdempotent(techs: seq<Tech>, species: string, isExclusive: bool)
    ensures FilterTechsBySpecies(FilterTechsBySpecies(techs, species, isExclusive), species, isExclusive)
         == FilterTechsBySpecies(techs, species, isExclusive)
  {
    if !IsOff(species) {
      FilterIdempotent(techs, SpeciesTest(species, isExclusive));
    }
  }

  lemma TierIdempotent(techs: seq<Tech>, range: TierRange)
    ensures FilterTechsByTier(FilterTechsByTier(techs, range), range) == FilterTechsByTier(techs, range)
  {
    FilterIdempotent(techs, TierIn(range));
  }

  lemma AreaSpeciesCommute(techs: seq<Tech>, area: string, species: string, isExclusive: bool)
    ensures FilterTechsBySpecies(FilterTechsByArea(techs, area), species, isExclusive)
         == FilterTechsByArea(FilterTechsBySpecies(techs, species, isExclusive), area)
  {
    if !IsOff(area) && !IsOff(species) {
      FilterCommute(techs, AreaIs(area), SpeciesTest(species, isExclusive));
    }
  }

  lemma AreaTierCommute(techs: seq<Tech>, area: string, range: TierRange)
    ensures FilterTechsByTier(FilterTechsByArea(techs, area), range)
         == FilterTechsByArea(FilterTechsByTier(techs, range), area)
  {
    if !IsOff(area) {
      FilterCommute(techs, AreaIs(area), TierIn(range));
    }
  }

  lemma SpeciesTierCommute(techs: seq<Tech>, species: string, isExclusive: bool, range: TierRange)
    ensures FilterTechsByTier(FilterTechsBySpecies(techs, species, isExclusive), range)
         == FilterTechsBySpecies(FilterTechsByTier(techs, range), species, isExclusive)
  {
    if !IsOff(species) {
      FilterCommute(techs, SpeciesTest(species, isExclusive), TierIn(range));
    }
  }
}
