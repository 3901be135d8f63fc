/** update/create_tech_json_new.py: the per-technology fields the data
    pipeline derives (unlock details, faction availability, alternate names),
    the faction metadata and the area repair. */
module TechJson {
  import opened Wrappers
  import opened Seqs
  import opened Text
  import opened Scan
  import opened Unlocks
  import opened Techs

  // ---------------------------------------------------------------------
  // Unlock categories

  datatype UnlockCategory = TechU | BuildingU | ComponentU | OtherU

  /** The first test an unlock id passes: `tech_`, then `building_`, then
      `COMPONENT_` or all capitals, else other. */
  function CategoryOf(u: string): UnlockCategory
  {
    if StartsWith(u, "tech_") then TechU
    else if StartsWith(u, "building_") then BuildingU
    else if StartsWith(u, "COMPONENT_") || IsUpperPy(u) then ComponentU
    else OtherU
  }

  /** The elements `f` puts in class `c`. */
  function ClassIs<T>(f: T -> UnlockCategory, c: UnlockCategory): T -> bool
  {
    x => f(x) == c
  }

  /** The unlocks of one category, in input order. */
  function OfCategory(unlocks: seq<string>, c: UnlockCategory): seq<string>
  {
    Filter(unlocks, ClassIs(CategoryOf, c))
  }

  /** Every element lands in exactly one class of `f`: the four filters
      together hold each element as often as the input does. */
  lemma PartitionBy<T(!new)>(s: seq<T>, f: T -> UnlockCategory)
    ensures multiset(Filter(s, ClassIs(f, TechU))) + multiset(Filter(s, ClassIs(f, BuildingU)))
      + multiset(Filter(s, ClassIs(f, ComponentU))) + multiset(Filter(s, ClassIs(f, OtherU)))
      == multiset(s)
  {
    var a, b := Filter(s, ClassIs(f, TechU)), Filter(s, ClassIs(f, BuildingU));
    var c, d := Filter(s, ClassIs(f, ComponentU)), Filter(s, ClassIs(f, OtherU));
    forall x ensures (multiset(a) + multiset(b) + multiset(c) + multiset(d))[x] == multiset(s)[x] {
      FilterMultiset(s, ClassIs(f, TechU), x);
      FilterMultiset(s, ClassIs(f, BuildingU), x);
      FilterMultiset(s, ClassIs(f, ComponentU), x);
      FilterMultiset(s, ClassIs(f, OtherU), x);
    }
  }

  /** Every unlock lands in exactly one category: the four lists together
      hold each unlock as often as the input does. */
  lemma CategoriesPartition(unlocks: seq<string>)
    ensures multiset(OfCategory(unlocks, TechU)) + multiset(OfCategory(unlocks, BuildingU))
      + multiset(OfCategory(unlocks, ComponentU)) + multiset(OfCategory(unlocks, OtherU))
      == multiset(unlocks)
    ensures |OfCategory(unlocks, TechU)| + |OfCategory(unlocks, BuildingU)|
      + |OfCategory(unlocks, ComponentU)| + |OfCategory(unlocks, OtherU)| == |unlocks|
  {
    PartitionBy(unlocks, CategoryOf);
    var m := multiset(unlocks);
    assert |m| == |unlocks|;
  }

  /** The categorising loop of `extract_unlock_details`. */
  method CategoriseUnlocks(unlocks: seq<string>)
    returns (technologies: seq<string>, buildings: seq<string>, components: seq<string>, other: seq<string>)
    ensures technologies == OfCategory(unlocks, TechU)
    ensures buildings == OfCategory(unlocks, BuildingU)
    ensures components == OfCategory(unlocks, ComponentU)
    ensures other == OfCategory(unlocks, OtherU)
  {
    technologies, buildings, components, other := [], [], [], [];
    for i := 0 to |unlocks|
      invariant technologies == OfCategory(unlocks[..i], TechU)
      invariant buildings == OfCategory(unlocks[..i], BuildingU)
      invariant components == OfCategory(unlocks[..i], ComponentU)
      invariant other == OfCategory(unlocks[..i], OtherU)
    {
      var u := unlocks[i];
      assert unlocks[..i + 1] == unlocks[..i] + [u];
      CategoryStep(unlocks[..i], u);
      if StartsWith(u, "tech_") {
        technologies := technologies + [u];
      } else if StartsWith(u, "building_") {
        buildings := buildings + [u];
      } else if StartsWith(u, "COMPONENT_") || IsUpperPy(u) {
        components := components + [u];
      } else {
        other := other + [u];
      }
    }
    assert unlocks[..|unlocks|] == unlocks;
  }

  /** One more unlock joins the list of its own category only. */
  lemma CategoryStep(prefix: seq<string>, u: string)
    ensures forall c :: OfCategory(prefix + [u], c) == OfCategory(prefix, c) + if CategoryOf(u) == c then [u] else []
  {
    forall c ensures OfCategory(prefix + [u], c) == OfCategory(prefix, c) + if CategoryOf(u) == c then [u] else [] {
      FilterAppend(prefix, [u], ClassIs(CategoryOf, c));
    }
  }

  // ---------------------------------------------------------------------
  // Unlock details

  /** `loc_loader.get(k, k)`: the localised name, else the id. */
  function LocName(loc: map<string, string>): string -> string
  {
    k => if k in loc then loc[k] else k
  }

  /** The description part of one category: `"Label: n"` for one name,
      `"Plural: a, b"` for several. */
  function Labelled(singular: string, plural: string, names: seq<string>): string
  {
    if |names| == 1 then singular + ": " + names[0] else plural + ": " + Join(names, ", ")
  }

  /** `[label]` for a category with names, `[]` for an empty one. */
  function PartIf(singular: string, plural: string, names: seq<string>): seq<string>
  {
    if |names| > 0 then [Labelled(singular, plural, names)] else []
  }

  /** The names `unlocks_by_type` and the description use for one category. */
  function CategoryNames(unlocks: seq<string>, loc: map<string, string>, c: UnlockCategory): seq<string>
  {
    var ids := OfCategory(unlocks, c);
    if c == ComponentU then ids else MapSeq(ids, LocName(loc))
  }

  /** The description parts of the four categories, in the order buildings,
      components, technologies, other, each present when non-empty. */
  function PartsOf(b: seq<string>, c: seq<string>, t: seq<string>, o: seq<string>): seq<string>
  {
    PartIf("Building", "Buildings", b) + PartIf("Component", "Components", c)
    + PartIf("Technology", "Technologies", t) + PartIf("Other", "Other", o)
  }

  function OwnParts(unlocks: seq<string>, loc: map<string, string>): seq<string>
  {
    PartsOf(CategoryNames(unlocks, loc, BuildingU), CategoryNames(unlocks, loc, ComponentU),
      CategoryNames(unlocks, loc, TechU), CategoryNames(unlocks, loc, OtherU))
  }

  /** The description: the unlock-list parts, then the reverse groups in type
      order, joined with `" | "`. */
  function Description(unlocks: seq<string>, reverse: seq<UnlockEntry>, loc: map<string, string>): string
  {
    Join(OwnParts(unlocks, loc) + Parts(Grouped([], reverse)), " | ")
  }

  /** `d[k].extend(xs)` on a `defaultdict(list)`. */
  function ExtendAt(a: Assoc<seq<string>>, k: string, xs: seq<string>): (r: Assoc<seq<string>>)
    ensures Get(r, k) == Some(Get(a, k).GetOr([]) + xs)
    ensures forall k' :: k' != k ==> Get(r, k') == Get(a, k')
    ensures Keys(r) == if HasKey(a, k) then Keys(a) else Keys(a) + [k]
  {
    var r := Put(a, k, Get(a, k).GetOr([]) + xs);
    forall k' | k' != k ensures Get(r, k') == Get(a, k') {
      PutOther(a, k, Get(a, k).GetOr([]) + xs, k');
    }
    r
  }

  /** `d[k].extend(xs)` when `xs` is non-empty, nothing otherwise. */
  function ExtendIf(a: Assoc<seq<string>>, k: string, xs: seq<string>): Assoc<seq<string>>
  {
    if |xs| > 0 then ExtendAt(a, k, xs) else a
  }

  /** `unlocks_by_type` after extending the four categories' names. */
  function GroupsOf(b: seq<string>, c: seq<string>, t: seq<string>, o: seq<string>): Assoc<seq<string>>
  {
    var g0: Assoc<seq<string>> := [];
    var g1 := ExtendIf(g0, "Building", b);
    var g2 := ExtendIf(g1, "Component", c);
    var g3 := ExtendIf(g2, "Technology", t);
    ExtendIf(g3, "Other", o)
  }

  /** `unlocks_by_type` before the reverse entries. */
  function OwnGroups(unlocks: seq<string>, loc: map<string, string>): Assoc<seq<string>>
  {
    GroupsOf(CategoryNames(unlocks, loc, BuildingU), CategoryNames(unlocks, loc, ComponentU),
      CategoryNames(unlocks, loc, TechU), CategoryNames(unlocks, loc, OtherU))
  }

  /** `unlocks_by_type`: the category groups, then each reverse entry's name
      appended under its type. */
  function ByType(unlocks: seq<string>, reverse: seq<UnlockEntry>, loc: map<string, string>): Assoc<seq<string>>
  {
    Grouped(OwnGroups(unlocks, loc), reverse)
  }

  /** The dictionary `extract_unlock_details` returns, and the one
      `merge_unlock_details_with_reverse` receives. */
  datatype UnlockDetails = UnlockDetails(
    technologies: seq<string>,
    components: seq<string>,
    buildings: seq<string>,
    other: seq<string>,
    description: string,
    unlocksByType: Assoc<seq<string>>)

  /** `extract_unlock_details(unlocks, reverse_unlock_data, loc_loader)`, with
      a missing list given as `[]` and the localisation as a map. */
  method ExtractUnlockDetails(unlocks: seq<string>, reverse: seq<UnlockEntry>, loc: map<string, string>)
    returns (d: UnlockDetails)
    ensures d.technologies == OfCategory(unlocks, TechU)
    ensures d.buildings == OfCategory(unlocks, BuildingU)
    ensures d.components == OfCategory(unlocks, ComponentU)
    ensures d.other == OfCategory(unlocks, OtherU)
    ensures d.description == Description(unlocks, reverse, loc)
    ensures d.unlocksByType == ByType(unlocks, reverse, loc)
  {
    var technologies, buildings, components, other := CategoriseUnlocks(unlocks);
    var reverseParts: seq<string> := [];
    if |reverse| > 0 {
      var byType := GroupByType([], reverse);
      reverseParts := FormatParts(byType);
    }
    var buildingNames := MapSeq(buildings, LocName(loc));
    var techNames := MapSeq(technologies, LocName(loc));
    var otherNames := MapSeq(other, LocName(loc));
    var descriptionParts := PartIf("Building", "Buildings", buildingNames)
      + PartIf("Component", "Components", components)
      + PartIf("Technology", "Technologies", techNames)
      + PartIf("Other", "Other", otherNames);
    var allParts := descriptionParts + reverseParts;
    var description := if |allParts| > 0 then Join(allParts, " | ") else "";
    assert buildingNames == CategoryNames(unlocks, loc, BuildingU);
    assert components == CategoryNames(unlocks, loc, ComponentU);
    assert techNames == CategoryNames(unlocks, loc, TechU);
    assert otherNames == CategoryNames(unlocks, loc, OtherU);
    var byType: Assoc<seq<string>> := [];
    byType := ExtendIf(byType, "Building", buildingNames);
    byType := ExtendIf(byType, "Component", components);
    byType := ExtendIf(byType, "Technology", techNames);
    byType := ExtendIf(byType, "Other", otherNames);
    assert byType == OwnGroups(unlocks, loc);
    if |reverse| > 0 {
      byType := GroupByType(byType, reverse);
    }
    d := UnlockDetails(technologies, components, buildings, other, description, byType);
  }

  /** The category a `unlocks_by_type` key takes its names from. */
  function Pick(b: seq<string>, c: seq<string>, t: seq<string>, o: seq<string>, k: string): seq<string>
  {
    if k == "Building" then b
    else if k == "Component" then c
    else if k == "Technology" then t
    else if k == "Other" then o
    else []
  }

  function OwnNames(unlocks: seq<string>, loc: map<string, string>, k: string): seq<string>
  {
    Pick(CategoryNames(unlocks, loc, BuildingU), CategoryNames(unlocks, loc, ComponentU),
      CategoryNames(unlocks, loc, TechU), CategoryNames(unlocks, loc, OtherU), k)
  }

  /** The groups of the four categories are the type names of the non-empty
      ones, each holding that category's names. */
  lemma GroupsOfSpec(b: seq<string>, c: seq<string>, t: seq<string>, o: seq<string>)
    ensures NoDups(Keys(GroupsOf(b, c, t, o)))
    ensures forall k :: Get(GroupsOf(b, c, t, o), k) == (if |Pick(b, c, t, o, k)| > 0 then Some(Pick(b, c, t, o, k)) else None)
  {
    var g0: Assoc<seq<string>> := [];
    var g1 := ExtendIf(g0, "Building", b);
    var g2 := ExtendIf(g1, "Component", c);
    var g3 := ExtendIf(g2, "Technology", t);
    var g4 := ExtendIf(g3, "Other", o);
    assert Keys(g1) == if |b| > 0 then ["Building"] else [];
    ExtendFresh(g1, "Component", c);
    ExtendFresh(g2, "Technology", t);
    ExtendFresh(g3, "Other", o);
    forall k ensures Get(g4, k) == (if |Pick(b, c, t, o, k)| > 0 then Some(Pick(b, c, t, o, k)) else None) {
      GroupsOfGet(b, c, t, o, k);
    }
  }

  lemma GroupsOfGet(b: seq<string>, c: seq<string>, t: seq<string>, o: seq<string>, k: string)
    ensures Get(GroupsOf(b, c, t, o), k) == (if |Pick(b, c, t, o, k)| > 0 then Some(Pick(b, c, t, o, k)) else None)
  {
    var g0: Assoc<seq<string>> := [];
    var g1 := ExtendIf(g0, "Building", b);
    var g2 := ExtendIf(g1, "Component", c);
    var g3 := ExtendIf(g2, "Technology", t);
    var g4 := ExtendIf(g3, "Other", o);
    if k == "Building" {
      ExtendIfSame(g0, "Building", b);
      ExtendIfOther(g1, "Component", c, k);
      ExtendIfOther(g2, "Technology", t, k);
      ExtendIfOther(g3, "Other", o, k);
    } else {
      ExtendIfOther(g0, "Building", b, k);
      if k == "Component" {
        ExtendIfSame(g1, "Component", c);
        ExtendIfOther(g2, "Technology", t, k);
        ExtendIfOther(g3, "Other", o, k);
      } else {
        ExtendIfOther(g1, "Component", c, k);
        if k == "Technology" {
          ExtendIfSame(g2, "Technology", t);
          ExtendIfOther(g3, "Other", o, k);
        } else {
          ExtendIfOther(g2, "Technology", t, k);
          if k == "Other" {
            ExtendIfSame(g3, "Other", o);
          } else {
            ExtendIfOther(g3, "Other", o, k);
          }
        }
      }
    }
  }

  /** Extending a key that is not there yet stores the names, if any. */
  lemma ExtendIfSame(a: Assoc<seq<string>>, k: string, xs: seq<string>)
    requires Get(a, k).None?
    ensures |xs| > 0 ==> Get(ExtendIf(a, k, xs), k) == Some(xs)
    ensures |xs| == 0 ==> Get(ExtendIf(a, k, xs), k).None?
  {
    ExtendIfGet(a, k, xs, k);
    var empty: seq<string> := [];
    assert empty + xs == xs;
  }

  /** Extending one key leaves the others alone. */
  lemma ExtendIfOther(a: Assoc<seq<string>>, k: string, xs: seq<string>, k': string)
    requires k' != k
    ensures Get(ExtendIf(a, k, xs), k') == Get(a, k')
  {
    ExtendIfGet(a, k, xs, k');
  }

  lemma ExtendIfGet(a: Assoc<seq<string>>, k: string, xs: seq<string>, k': string)
    ensures Get(ExtendIf(a, k, xs), k') == if k' == k && |xs| > 0 then Some(Get(a, k).GetOr([]) + xs) else Get(a, k')
  {
  }

  /** The groups before the reverse entries: the type names of the non-empty
      categories, each holding that category's names. */
  lemma OwnGroupsSpec(unlocks: seq<string>, loc: map<string, string>)
    ensures NoDups(Keys(OwnGroups(unlocks, loc)))
    ensures forall k :: Get(OwnGroups(unlocks, loc), k)
                 == (if |OwnNames(unlocks, loc, k)| > 0 then Some(OwnNames(unlocks, loc, k)) else None)
  {
    GroupsOfSpec(CategoryNames(unlocks, loc, BuildingU), CategoryNames(unlocks, loc, ComponentU),
      CategoryNames(unlocks, loc, TechU), CategoryNames(unlocks, loc, OtherU));
  }

  /** Extending under a key not yet present keeps the keys distinct. */
  lemma ExtendFresh(a: Assoc<seq<string>>, k: string, xs: seq<string>)
    requires NoDups(Keys(a)) && !HasKey(a, k)
    ensures NoDups(Keys(ExtendIf(a, k, xs)))
  {
  }

  /** `unlocks_by_type` holds, under each type, first the unlock list's names
      of that category and then the reverse entries' names of that type, in
      order; a type with neither is absent, and no type is repeated. */
  lemma ByTypeSpec(unlocks: seq<string>, reverse: seq<UnlockEntry>, loc: map<string, string>)
    ensures NoDups(Keys(ByType(unlocks, reverse, loc)))
    ensures forall k :: Get(ByType(unlocks, reverse, loc), k)
                 == (var names := OwnNames(unlocks, loc, k) + NamesOfKind(reverse, k);
                     if |names| > 0 then Some(names) else None)
  {
    var init := OwnGroups(unlocks, loc);
    OwnGroupsSpec(unlocks, loc);
    GroupedSpec(init, reverse);
    forall k ensures Get(ByType(unlocks, reverse, loc), k)
      == var names := OwnNames(unlocks, loc, k) + NamesOfKind(reverse, k);
         if |names| > 0 then Some(names) else None
    {
      ByTypeGet(unlocks, reverse, loc, k);
    }
  }

  lemma ByTypeGet(unlocks: seq<string>, reverse: seq<UnlockEntry>, loc: map<string, string>, k: string)
    ensures Get(ByType(unlocks, reverse, loc), k)
      == var names := OwnNames(unlocks, loc, k) + NamesOfKind(reverse, k);
         if |names| > 0 then Some(names) else None
  {
    var init := OwnGroups(unlocks, loc);
    var own := OwnNames(unlocks, loc, k);
    var rev := NamesOfKind(reverse, k);
    OwnGroupsSpec(unlocks, loc);
    GroupedSpec(init, reverse);
    assert Get(init, k) == if |own| > 0 then Some(own) else None;
    assert Get(ByType(unlocks, reverse, loc), k) == GroupedValue(init, reverse, k);
    assert Get(init, k).GetOr([]) == own;
    if |rev| == 0 {
      assert own + rev == own;
    }
  }

  /** The category names come one per unlock of the category. */
  lemma CategoryNamesLength(unlocks: seq<string>, loc: map<string, string>, c: UnlockCategory)
    ensures |CategoryNames(unlocks, loc, c)| == |OfCategory(unlocks, c)|
  {
  }

  /** A join whose first part is not empty is empty exactly when there are no parts. */
  lemma JoinEmpty(parts: seq<string>, sep: string)
    requires |parts| > 0 ==> |parts[0]| > 0
    ensures Join(parts, sep) == "" <==> |parts| == 0
  {
  }

  /** The description is empty exactly when there is nothing to describe:
      no unlock and no reverse entry. */
  lemma DescriptionEmpty(unlocks: seq<string>, reverse: seq<UnlockEntry>, loc: map<string, string>)
    ensures Description(unlocks, reverse, loc) == "" <==> |unlocks| == 0 && |reverse| == 0
  {
    var own := OwnParts(unlocks, loc);
    var rev := Parts(Grouped([], reverse));
    OwnPartsEmpty(unlocks, loc);
    RevPartsEmpty(reverse);
    FirstOfConcat(own, rev);
    JoinEmpty(own + rev, " | ");
  }

  /** The first element of a concatenation, when the first non-empty piece starts with a non-empty string. */
  lemma FirstOfConcat(a: seq<string>, b: seq<string>)
    requires |a| > 0 ==> |a[0]| > 0
    requires |b| > 0 ==> |b[0]| > 0
    ensures |a + b| > 0 ==> |(a + b)[0]| > 0
    ensures |a + b| == 0 <==> |a| == 0 && |b| == 0
  {
  }

  /** The category parts are there exactly when some id is unlocked, and the
      first one is not empty. */
  lemma OwnPartsEmpty(unlocks: seq<string>, loc: map<string, string>)
    ensures |OwnParts(unlocks, loc)| > 0 <==> |unlocks| > 0
    ensures |OwnParts(unlocks, loc)| > 0 ==> |OwnParts(unlocks, loc)[0]| > 0
  {
    var b := CategoryNames(unlocks, loc, BuildingU);
    var c := CategoryNames(unlocks, loc, ComponentU);
    var t := CategoryNames(unlocks, loc, TechU);
    var o := CategoryNames(unlocks, loc, OtherU);
    CategoriesPartition(unlocks);
    CategoryNamesLength(unlocks, loc, BuildingU);
    CategoryNamesLength(unlocks, loc, ComponentU);
    CategoryNamesLength(unlocks, loc, TechU);
    CategoryNamesLength(unlocks, loc, OtherU);
    PartsOfNonEmpty(b, c, t, o);
    assert OwnParts(unlocks, loc) == PartsOf(b, c, t, o);
  }

  /** The reverse parts are there exactly when there is a reverse entry, and
      the first one is not empty. */
  lemma RevPartsEmpty(reverse: seq<UnlockEntry>)
    ensures |Parts(Grouped([], reverse))| > 0 <==> |reverse| > 0
    ensures |reverse| > 0 ==> |Parts(Grouped([], reverse))[0]| > 0
  {
    if |reverse| > 0 {
      GroupedNonEmpty([], reverse);
      ReversePartNonEmpty(Grouped([], reverse));
    }
  }

  /** There is a category part exactly when some category is non-empty, and
      the first part is not empty. */
  lemma PartsOfNonEmpty(b: seq<string>, c: seq<string>, t: seq<string>, o: seq<string>)
    ensures |PartsOf(b, c, t, o)| > 0 <==> |b| + |c| + |t| + |o| > 0
    ensures |PartsOf(b, c, t, o)| > 0 ==> |PartsOf(b, c, t, o)[0]| > 0
  {
  }

  /** Every formatted group starts with its type and `": "` or `"s: "`, so it is not empty. */
  lemma ReversePartNonEmpty(g: Assoc<seq<string>>)
    requires |g| > 0
    ensures |Parts(g)[0]| > 0
  {
  }

  // ---------------------------------------------------------------------
  // Merging reverse-lookup data

  /** `merge_unlock_details_with_reverse(unlock_details, reverse_unlock_data)`
      as a value: the caller keeps the returned dictionary. */
  function Merged(d: UnlockDetails, reverse: seq<UnlockEntry>): UnlockDetails
  {
    if |reverse| == 0 then d
    else
      var byType := Grouped([], reverse);
      var parts := Parts(byType);
      var description :=
        if d.description != "" then
          (if |parts| > 0 then d.description + " | " + Join(parts, " | ") else d.description)
        else if |parts| > 0 then Join(parts, " | ") else "";
      d.(description := description, unlocksByType := byType)
  }

  /** The merging steps: group, store the groups, format them in type order
      and extend the description. */
  method MergeUnlockDetailsWithReverse(d: UnlockDetails, reverse: seq<UnlockEntry>) returns (r: UnlockDetails)
    ensures r == Merged(d, reverse)
  {
    if |reverse| == 0 {
      return d;
    }
    var byType := GroupByType([], reverse);
    r := d.(unlocksByType := byType);
    var parts := FormatParts(byType);
    if r.description != "" {
      if |parts| > 0 {
        r := r.(description := r.description + " | " + Join(parts, " | "));
      }
    } else {
      r := r.(description := if |parts| > 0 then Join(parts, " | ") else "");
    }
  }

  /** Joining one more leading part puts it and the separator in front. */
  lemma JoinCons(a: string, parts: seq<string>, sep: string)
    requires |parts| > 0
    ensures Join([a] + parts, sep) == a + sep + Join(parts, sep)
  {
    assert ([a] + parts)[1..] == parts;
  }

  /** Without reverse data the details come back unchanged. With some, the
      grouped names replace `unlocks_by_type` (each type holding exactly its
      entries' names, in order), the formatted groups follow any existing
      description after `" | "`, and the category lists are untouched. */
  lemma MergedSpec(d: UnlockDetails, reverse: seq<UnlockEntry>)
    ensures |reverse| == 0 ==> Merged(d, reverse) == d
    ensures |reverse| > 0 ==>
      var r := Merged(d, reverse);
      && r.technologies == d.technologies && r.components == d.components
      && r.buildings == d.buildings && r.other == d.other
      && r.description == Join((if d.description != "" then [d.description] else []) + Parts(Grouped([], reverse)), " | ")
      && NoDups(Keys(r.unlocksByType))
      && forall k :: Get(r.unlocksByType, k) == (if |NamesOfKind(reverse, k)| > 0 then Some(NamesOfKind(reverse, k)) else None)
  {
    if |reverse| > 0 {
      MergedDescription(d, reverse);
      MergedGroups(reverse);
    }
  }

  lemma MergedDescription(d: UnlockDetails, reverse: seq<UnlockEntry>)
    requires |reverse| > 0
    ensures Merged(d, reverse).description ==
      Join((if d.description != "" then [d.description] else []) + Parts(Grouped([], reverse)), " | ")
  {
    GroupedNonEmpty([], reverse);
    var parts := Parts(Grouped([], reverse));
    if d.description != "" {
      JoinCons(d.description, parts, " | ");
    } else {
      assert [] + parts == parts;
    }
  }

  lemma MergedGroups(reverse: seq<UnlockEntry>)
    ensures NoDups(Keys(Grouped([], reverse)))
    ensures forall k ::
      Get(Grouped([], reverse), k) == (if |NamesOfKind(reverse, k)| > 0 then Some(NamesOfKind(reverse, k)) else None)
  {
    GroupedSpec([], reverse);
    forall k
      ensures Get(Grouped([], reverse), k) == (if |NamesOfKind(reverse, k)| > 0 then Some(NamesOfKind(reverse, k)) else None)
    {
      var empty: seq<string> := [];
      assert empty + NamesOfKind(reverse, k) == NamesOfKind(reverse, k);
    }
  }

  // ---------------------------------------------------------------------
  // Faction availability

  /** `has_country_flag\s*=\s*(\w+)` and `has_civic\s*=\s*(\w+)`. */
  const FlagPattern: Pattern := Assign("has_country_flag", Run(WordC))
  const CivicPattern: Pattern := Assign("has_civic", Run(WordC))

  /** The trigger names looked for anywhere in the potential block, in
      dictionary order, with the faction each one implies. */
  const UsesPatterns: seq<(string, string)> := [
    ("uses_cloak_klingons", "Klingon"),
    ("uses_cloak_romulans", "Romulan"),
    ("uses_cloak_federation", "Federation"),
    ("uses_cloak_cardassian", "Cardassian"),
    ("uses_torpedoes_klingon", "Klingon"),
    ("uses_torpedoes_romulan", "Romulan"),
    ("uses_torpedoes_federation", "Federation"),
    ("is_machine_empire", "Machine"),
    ("is_hive_empire", "Hive"),
    ("is_borg_empire", "Borg")]

  /** `availability[m[x]] = {'available': True, 'condition': cond}` for each
      match `x` that the table `m` maps. */
  function MarkMapped(acc: Assoc<Availability>, ids: seq<string>, m: map<string, string>, cond: string): Assoc<Availability>
    decreases |ids|
  {
    if |ids| == 0 then acc
    else
      var a := MarkMapped(acc, ids[..|ids| - 1], m, cond);
      var x := ids[|ids| - 1];
      if x in m then Put(a, m[x], Availability(true, cond)) else a
  }

  /** The same for each trigger of `triggers` that occurs in the block. */
  function MarkTriggers(acc: Assoc<Availability>, block: string, triggers: seq<(string, string)>): Assoc<Availability>
    decreases |triggers|
  {
    if |triggers| == 0 then acc
    else
      var a := MarkTriggers(acc, block, triggers[..|triggers| - 1]);
      var tr := triggers[|triggers| - 1];
      if Contains(block, tr.0) then Put(a, tr.1, Availability(true, "uses_trigger")) else a
  }

  /** `tech.get('potential_block', '') or tech.get('_potential_raw', '')`. */
  function PotentialOf(potentialBlock: string, potentialRaw: string): string
  {
    if potentialBlock != "" then potentialBlock else potentialRaw
  }

  /** `determine_faction_availability(tech, faction_mappings)`, given the two
      potential fields and the two mapping tables. */
  function FactionAvailability(potentialBlock: string, potentialRaw: string,
                               flagMap: map<string, string>, civicMap: map<string, string>): Assoc<Availability>
  {
    var p := PotentialOf(potentialBlock, potentialRaw);
    if p == "" || Strip(p) == "" then []
    else
      var byFlag := MarkMapped([], FindAll(p, FlagPattern), flagMap, "country_flag");
      var byCivic := MarkMapped(byFlag, FindAll(p, CivicPattern), civicMap, "civic");
      MarkUses(byCivic, p)
  }

  /** The trigger pass with the fixed trigger table. */
  function MarkUses(acc: Assoc<Availability>, block: string): Assoc<Availability>
  {
    MarkTriggers(acc, block, UsesPatterns)
  }

  /** The loop `for x in matches: if x in m: availability[m[x]] = ...`. */
  method MarkEach(acc: Assoc<Availability>, ids: seq<string>, m: map<string, string>, cond: string)
    returns (availability: Assoc<Availability>)
    ensures availability == MarkMapped(acc, ids, m, cond)
  {
    availability := acc;
    for i := 0 to |ids|
      invariant availability == MarkMapped(acc, ids[..i], m, cond)
    {
      assert ids[..i + 1][..i] == ids[..i];
      if ids[i] in m {
        availability := Put(availability, m[ids[i]], Availability(true, cond));
      }
    }
    assert ids[..|ids|] == ids;
  }

  /** The loop `for trigger, faction in uses_patterns.items(): if trigger in block: ...`. */
  method MarkEachTrigger(acc: Assoc<Availability>, block: string, triggers: seq<(string, string)>)
    returns (availability: Assoc<Availability>)
    ensures availability == MarkTriggers(acc, block, triggers)
  {
    availability := acc;
    for i := 0 to |triggers|
      invariant availability == MarkTriggers(acc, block, triggers[..i])
    {
      assert triggers[..i + 1][..i] == triggers[..i];
      var (trigger, faction) := triggers[i];
      if Contains(block, trigger) {
        availability := Put(availability, faction, Availability(true, "uses_trigger"));
      }
    }
    assert triggers[..|triggers|] == triggers;
  }

  method DetermineFactionAvailability(potentialBlock: string, potentialRaw: string,
                                      flagMap: map<string, string>, civicMap: map<string, string>)
    returns (availability: Assoc<Availability>)
    ensures availability == FactionAvailability(potentialBlock, potentialRaw, flagMap, civicMap)
  {
    var p := if potentialBlock != "" then potentialBlock else potentialRaw;
    assert p == PotentialOf(potentialBlock, potentialRaw);
    if p == "" || Strip(p) == "" {
      availability := [];
    } else {
      var flags := FindAll(p, FlagPattern);
      var civics := FindAll(p, CivicPattern);
      var byFlag := MarkEach([], flags, flagMap, "country_flag");
      var byCivic := MarkEach(byFlag, civics, civicMap, "civic");
      availability := MarkEachUse(byCivic, p);
    }
  }

  /** The trigger loop over the fixed trigger table. */
  method MarkEachUse(acc: Assoc<Availability>, block: string) returns (availability: Assoc<Availability>)
    ensures availability == MarkUses(acc, block)
  {
    availability := MarkEachTrigger(acc, block, UsesPatterns);
  }

  /** Some match is mapped to faction `f`. */
  predicate MapsTo(ids: seq<string>, m: map<string, string>, f: string)
  {
    exists i :: 0 <= i < |ids| && ids[i] in m && m[ids[i]] == f
  }

  /** Some trigger of faction `f` occurs in the block. */
  predicate Triggers(block: string, triggers: seq<(string, string)>, f: string)
  {
    exists i :: 0 <= i < |triggers| && triggers[i].1 == f && Contains(block, triggers[i].0)
  }

  lemma MapsToStep(ids: seq<string>, m: map<string, string>, f: string)
    requires |ids| > 0
    ensures MapsTo(ids, m, f)
            == (MapsTo(ids[..|ids| - 1], m, f) || (ids[|ids| - 1] in m && m[ids[|ids| - 1]] == f))
  {
    var init := ids[..|ids| - 1];
    if MapsTo(init, m, f) {
      var i :| 0 <= i < |init| && init[i] in m && m[init[i]] == f;
      assert ids[i] == init[i];
    }
    if MapsTo(ids, m, f) {
      var i :| 0 <= i < |ids| && ids[i] in m && m[ids[i]] == f;
      if i < |init| { assert init[i] == ids[i]; }
    }
  }

  lemma TriggersStep(block: string, triggers: seq<(string, string)>, f: string)
    requires |triggers| > 0
    ensures var tr := triggers[|triggers| - 1];
      Triggers(block, triggers, f)
      == (Triggers(block, triggers[..|triggers| - 1], f) || (tr.1 == f && Contains(block, tr.0)))
  {
    var init := triggers[..|triggers| - 1];
    if Triggers(block, init, f) {
      var i :| 0 <= i < |init| && init[i].1 == f && Contains(block, init[i].0);
      assert triggers[i] == init[i];
    }
    if Triggers(block, triggers, f) {
      var i :| 0 <= i < |triggers| && triggers[i].1 == f && Contains(block, triggers[i].0);
      if i < |init| { assert init[i] == triggers[i]; }
    }
  }

  lemma {:induction false} MarkMappedGet(acc: Assoc<Availability>, ids: seq<string>, m: map<string, string>, cond: string, f: string)
    ensures Get(MarkMapped(acc, ids, m, cond), f)
            == if MapsTo(ids, m, f) then Some(Availability(true, cond)) else Get(acc, f)
    decreases |ids|
  {
    if |ids| > 0 {
      var init := ids[..|ids| - 1];
      var x := ids[|ids| - 1];
      MarkMappedGet(acc, init, m, cond, f);
      MapsToStep(ids, m, f);
      if x in m && m[x] != f {
        PutOther(MarkMapped(acc, init, m, cond), m[x], Availability(true, cond), f);
      }
    }
  }

  lemma {:induction false} MarkTriggersGet(acc: Assoc<Availability>, block: string, triggers: seq<(string, string)>, f: string)
    ensures Get(MarkTriggers(acc, block, triggers), f)
            == if Triggers(block, triggers, f) then Some(Availability(true, "uses_trigger")) else Get(acc, f)
    decreases |triggers|
  {
    if |triggers| > 0 {
      var init := triggers[..|triggers| - 1];
      var tr := triggers[|triggers| - 1];
      MarkTriggersGet(acc, block, init, f);
      TriggersStep(block, triggers, f);
      if Contains(block, tr.0) && tr.1 != f {
        PutOther(MarkTriggers(acc, block, init), tr.1, Availability(true, "uses_trigger"), f);
      }
    }
  }

  /** A blank potential gives `{}`. Otherwise a faction is present exactly when
      a mapped flag, a mapped civic or one of its triggers hits, always as
      available, and the condition is that of the last kind that hits:
      `uses_trigger` over `civic` over `country_flag`. */
  lemma FactionAvailabilitySpec(potentialBlock: string, potentialRaw: string,
                                flagMap: map<string, string>, civicMap: map<string, string>, f: string)
    ensures var p := PotentialOf(potentialBlock, potentialRaw);
      Get(FactionAvailability(potentialBlock, potentialRaw, flagMap, civicMap), f)
      == if Strip(p) == "" then None
         else if Triggers(p, UsesPatterns, f) then Some(Availability(true, "uses_trigger"))
         else if MapsTo(FindAll(p, CivicPattern), civicMap, f) then Some(Availability(true, "civic"))
         else if MapsTo(FindAll(p, FlagPattern), flagMap, f) then Some(Availability(true, "country_flag"))
         else None
  {
    var p := PotentialOf(potentialBlock, potentialRaw);
    if p != "" && Strip(p) != "" {
      var flags := FindAll(p, FlagPattern);
      var civics := FindAll(p, CivicPattern);
      var byFlag := MarkMapped([], flags, flagMap, "country_flag");
      var byCivic := MarkMapped(byFlag, civics, civicMap, "civic");
      MarkMappedGet([], flags, flagMap, "country_flag", f);
      MarkMappedGet(byFlag, civics, civicMap, "civic", f);
      MarkTriggersGet(byCivic, p, UsesPatterns, f);
      assert MarkUses(byCivic, p) == MarkTriggers(byCivic, p, UsesPatterns);
    }
  }

  // ---------------------------------------------------------------------
  // Modifier names

  /** The common prefixes and suffixes removed, in order. */
  function StripAffixes(key: string): string
  {
    var byScope := ReplaceAll(ReplaceAll(ReplaceAll(key, "country_", ""), "planet_", ""), "pop_", "");
    var byUnit := ReplaceAll(ReplaceAll(ReplaceAll(byScope, "ship_", ""), "starbase_", ""), "army_", "");
    ReplaceAll(ReplaceAll(byUnit, "_mult", ""), "_add", "")
  }

  /** `humanize_modifier_key(key)`: drop the common prefixes and suffixes,
      rename resource income and upkeep, then turn `_` into spaces and title-case. */
  function HumanizeModifierKey(key: string): string
  {
    var stripped := StripAffixes(key);
    var n := if Contains(stripped, "resource_")
             then ReplaceAll(ReplaceAll(ReplaceAll(stripped, "resource_", ""), "_produces", " Income"), "_upkeep", " Upkeep")
             else stripped;
    Title(ReplaceAll(n, "_", " "))
  }

  /** A readable name never keeps an underscore. */
  lemma HumanizeNoUnderscore(key: string)
    ensures '_' !in HumanizeModifierKey(key)
  {
    var m := StripAffixes(key);
    var n := if Contains(m, "resource_")
             then ReplaceAll(ReplaceAll(ReplaceAll(m, "resource_", ""), "_produces", " Income"), "_upkeep", " Upkeep")
             else m;
    ReplaceCharRemoves(n, '_', ' ');
    TitleKeepsAbsent(ReplaceAll(n, "_", " "), false, '_');
  }

  /** Every removed affix holds an underscore, so a key without one is only title-cased. */
  lemma HumanizePlainKey(key: string)
    requires '_' !in key
    ensures HumanizeModifierKey(key) == Title(key)
  {
    var pats := ["country_", "planet_", "pop_", "ship_", "starbase_", "army_", "_mult", "_add", "resource_", "_"];
    forall k | 0 <= k < |pats| ensures !Contains(key, pats[k]) {
      assert '_' in pats[k];
      MissingCharNotContained(key, pats[k], '_');
    }
    assert !Contains(key, pats[0]) && !Contains(key, pats[1]) && !Contains(key, pats[2]);
    ReplaceAbsent(key, "country_", "");
    ReplaceAbsent(key, "planet_", "");
    ReplaceAbsent(key, "pop_", "");
    assert !Contains(key, pats[3]) && !Contains(key, pats[4]) && !Contains(key, pats[5]);
    ReplaceAbsent(key, "ship_", "");
    ReplaceAbsent(key, "starbase_", "");
    ReplaceAbsent(key, "army_", "");
    assert !Contains(key, pats[6]) && !Contains(key, pats[7]);
    ReplaceAbsent(key, "_mult", "");
    ReplaceAbsent(key, "_add", "");
    assert StripAffixes(key) == key;
    assert !Contains(key, pats[8]) && !Contains(key, pats[9]);
    ReplaceAbsent(key, "_", " ");
  }

  /** The code drops the `ship_` prefix too, so `ship_speed` reads "Speed",
      not "Ship Speed". */
  lemma HumanizeShipKey(w: string)
    requires '_' !in w
    ensures HumanizeModifierKey("ship_" + w) == Title(w)
  {
    var s := "ship_" + w;
    assert s[4] == '_';
    AbsentByAlignment(s, "country_", 7, 4);
    AbsentByAlignment(s, "planet_", 6, 4);
    assert s[1..5] == "hip_";
    AbsentByAlignment(s, "pop_", 3, 4);
    ReplaceAbsent(s, "country_", "");
    ReplaceAbsent(s, "planet_", "");
    ReplaceAbsent(s, "pop_", "");
    ReplaceLeading(w, "ship_", "");
    assert "" + w == w;
    HumanizePlainKey(w);
    MissingCharNotContained(w, "ship_", '_');
    ReplaceAbsent(w, "ship_", "");
    MissingCharNotContained(w, "country_", '_');
    ReplaceAbsent(w, "country_", "");
    MissingCharNotContained(w, "planet_", '_');
    ReplaceAbsent(w, "planet_", "");
    MissingCharNotContained(w, "pop_", '_');
    ReplaceAbsent(w, "pop_", "");
    assert StripAffixes(s) == StripAffixes(w);
  }

  // ---------------------------------------------------------------------
  // Alternate names

  /** The faction abbreviations used inside tech ids, in dictionary order. */
  const FactionPrefixes: seq<(string, string)> := [
    ("fed", "Federation"), ("kdf", "Klingon"), ("rom", "Romulan"),
    ("car", "Cardassian"), ("dom", "Dominion"), ("und", "Undine"),
    ("tho", "Tholian"), ("bre", "Breen"), ("fer", "Ferengi"),
    ("son", "Son'a"), ("hir", "Hirogen"), ("vot", "Voth"),
    ("kre", "Krenim"), ("vid", "Vidiian"), ("sul", "Suliban")]

  /** `f"_{prefix}_"`. */
  function Marker(prefix: string): (r: string)
    ensures |r| > 0
  {
    "_" + prefix + "_"
  }

  /** The index of the first prefix whose marker occurs in the id. */
  function FirstPrefix(techId: string, prefixes: seq<(string, string)>): (r: Option<nat>)
    ensures r.Some? ==> r.value < |prefixes| && Contains(techId, Marker(prefixes[r.value].0))
    ensures forall j :: 0 <= j < |prefixes| && (r.None? || j < r.value) ==> !Contains(techId, Marker(prefixes[j].0))
  {
    if |prefixes| == 0 then None
    else if Contains(techId, Marker(prefixes[0].0)) then Some(0)
    else match FirstPrefix(techId, prefixes[1..])
      case None => None
      case Some(i) => Some(i + 1)
  }

  /** `base_pattern`: the id with every occurrence of the first marker found
      turned into `_*_`, or the id itself. */
  function BasePattern(techId: string, prefixes: seq<(string, string)>): string
  {
    match FirstPrefix(techId, prefixes)
      case None => techId
      case Some(i) => ReplaceAll(techId, Marker(prefixes[i].0), "_*_")
  }

  /** The localised name of a variant id, or of the id with `_1` appended. */
  function VariantName(loc: map<string, string>, variantId: string): (r: Option<string>)
    ensures r.Some? ==> r.value != ""
  {
    var exact := if variantId in loc then loc[variantId] else "";
    var first := variantId + "_1";
    var numbered := if first in loc then loc[first] else "";
    if exact != "" then Some(exact)
    else if numbered != "" then Some(numbered)
    else None
  }

  /** The name found for the variant with prefix `prefix` of a base pattern. */
  function VariantOf(loc: map<string, string>, base: string, prefix: string): Option<string>
  {
    VariantName(loc, ReplaceAll(base, "_*_", Marker(prefix)))
  }

  /** `alternate_names[faction] = variant_name` for every prefix whose variant has a name. */
  function Variants(loc: map<string, string>, base: string, prefixes: seq<(string, string)>): Assoc<string>
    decreases |prefixes|
  {
    if |prefixes| == 0 then []
    else
      var a := Variants(loc, base, prefixes[..|prefixes| - 1]);
      var pf := prefixes[|prefixes| - 1];
      match VariantOf(loc, base, pf.0)
        case Some(name) => Put(a, pf.1, name)
        case None => a
  }

  /** `extract_alternate_names(tech_id, loc_loader)`, for a prefix table. */
  function AlternateNamesWith(techId: string, loc: map<string, string>, prefixes: seq<(string, string)>): Assoc<string>
  {
    var base := BasePattern(techId, prefixes);
    var alternates := if base != techId then Variants(loc, base, prefixes) else [];
    var techName := if techId in loc then loc[techId] else "";
    if |alternates| > 0 && techName != "" then
      match FirstPrefix(techId, prefixes)
        case Some(i) => Put(alternates, prefixes[i].1, techName)
        case None => alternates
    else alternates
  }

  function AlternateNames(techId: string, loc: map<string, string>): Assoc<string>
  {
    AlternateNamesWith(techId, loc, FactionPrefixes)
  }

  /** The loop with `break` that finds the first marker. */
  method FindPrefix(techId: string, prefixes: seq<(string, string)>) returns (found: Option<nat>)
    ensures found == FirstPrefix(techId, prefixes)
  {
    found := None;
    var i := 0;
    while i < |prefixes|
      invariant 0 <= i <= |prefixes|
      invariant forall j :: 0 <= j < i ==> !Contains(techId, Marker(prefixes[j].0))
      decreases |prefixes| - i
    {
      if Contains(techId, Marker(prefixes[i].0)) {
        found := Some(i);
        break;
      }
      i := i + 1;
    }
  }

  /** The loop over every prefix that looks a variant name up. */
  method CollectVariants(loc: map<string, string>, base: string, prefixes: seq<(string, string)>)
    returns (alternates: Assoc<string>)
    ensures alternates == Variants(loc, base, prefixes)
  {
    alternates := [];
    for i := 0 to |prefixes|
      invariant alternates == Variants(loc, base, prefixes[..i])
    {
      assert prefixes[..i + 1][..i] == prefixes[..i];
      var (prefix, faction) := prefixes[i];
      var variantId := ReplaceAll(base, "_*_", "_" + prefix + "_");
      var variantName := if variantId in loc then loc[variantId] else "";
      if variantName != "" {
        alternates := Put(alternates, faction, variantName);
      } else {
        var variantId1 := variantId + "_1";
        variantName := if variantId1 in loc then loc[variantId1] else "";
        if variantName != "" {
          alternates := Put(alternates, faction, variantName);
        }
      }
    }
    assert prefixes[..|prefixes|] == prefixes;
  }

  method ExtractAlternateNames(techId: string, loc: map<string, string>) returns (alternates: Assoc<string>)
    ensures alternates == AlternateNames(techId, loc)
  {
    var first := FindPrefix(techId, FactionPrefixes);
    var base := techId;
    if first.Some? {
      base := ReplaceAll(techId, "_" + FactionPrefixes[first.value].0 + "_", "_*_");
    }
    alternates := [];
    if base != techId {
      alternates := CollectVariants(loc, base, FactionPrefixes);
    }
    var techName := if techId in loc then loc[techId] else "";
    if |alternates| > 0 && techName != "" && first.Some? {
      alternates := Put(alternates, FactionPrefixes[first.value].1, techName);
    }
  }

  /** Every faction of the table is named once. */
  predicate DistinctFactions(prefixes: seq<(string, string)>)
  {
    forall j, k :: 0 <= j < k < |prefixes| ==> prefixes[j].1 != prefixes[k].1
  }

  lemma FactionPrefixesDistinct()
    ensures DistinctFactions(FactionPrefixes)
  {
  }

  /** Every stored alternate comes from a row of the table: it is that row's
      faction and that row's (non-empty) variant name. */
  lemma {:induction false} VariantsFrom(loc: map<string, string>, base: string, prefixes: seq<(string, string)>, f: string)
    ensures Get(Variants(loc, base, prefixes), f).Some? ==>
      exists j :: 0 <= j < |prefixes| && prefixes[j].1 == f
        && VariantOf(loc, base, prefixes[j].0) == Get(Variants(loc, base, prefixes), f)
    decreases |prefixes|
  {
    if |prefixes| > 0 {
      var init := prefixes[..|prefixes| - 1];
      var pf := prefixes[|prefixes| - 1];
      VariantsFrom(loc, base, init, f);
      var a := Variants(loc, base, init);
      match VariantOf(loc, base, pf.0)
      case Some(name) =>
        if pf.1 != f {
          PutOther(a, pf.1, name, f);
          if Get(a, f).Some? {
            var j :| 0 <= j < |init| && init[j].1 == f && VariantOf(loc, base, init[j].0) == Get(a, f);
            assert prefixes[j] == init[j];
          }
        } else {
          assert prefixes[|prefixes| - 1].1 == f;
        }
      case None =>
        if Get(a, f).Some? {
          var j :| 0 <= j < |init| && init[j].1 == f && VariantOf(loc, base, init[j].0) == Get(a, f);
          assert prefixes[j] == init[j];
        }
    }
  }

  /** One row more: its name, when found, replaces the faction's entry. */
  lemma VariantsStep(loc: map<string, string>, base: string, prefixes: seq<(string, string)>, f: string)
    requires |prefixes| > 0
    ensures var pf := prefixes[|prefixes| - 1];
      Get(Variants(loc, base, prefixes), f)
      == if pf.1 == f && VariantOf(loc, base, pf.0).Some? then VariantOf(loc, base, pf.0)
         else Get(Variants(loc, base, prefixes[..|prefixes| - 1]), f)
  {
    var pf := prefixes[|prefixes| - 1];
    match VariantOf(loc, base, pf.0)
    case Some(name) =>
      if pf.1 != f {
        PutOther(Variants(loc, base, prefixes[..|prefixes| - 1]), pf.1, name, f);
      }
    case None =>
  }

  /** With each faction named once, a faction's entry is exactly the name its
      variant has, if any. */
  lemma {:induction false} VariantsGet(loc: map<string, string>, base: string, prefixes: seq<(string, string)>, j: nat)
    requires DistinctFactions(prefixes) && j < |prefixes|
    ensures Get(Variants(loc, base, prefixes), prefixes[j].1) == VariantOf(loc, base, prefixes[j].0)
    decreases |prefixes|
  {
    var n := |prefixes| - 1;
    var init := prefixes[..n];
    var f := prefixes[j].1;
    if j < n {
      assert init[j] == prefixes[j];
      VariantsEarlier(loc, base, prefixes, f);
      DistinctInit(prefixes);
      VariantsGet(loc, base, init, j);
    } else {
      assert j == n;
      VariantsLast(loc, base, prefixes);
    }
  }

  lemma DistinctInit(prefixes: seq<(string, string)>)
    requires |prefixes| > 0 && DistinctFactions(prefixes)
    ensures DistinctFactions(prefixes[..|prefixes| - 1])
  {
  }

  /** A row for another faction leaves a faction's entry alone. */
  lemma VariantsEarlier(loc: map<string, string>, base: string, prefixes: seq<(string, string)>, f: string)
    requires |prefixes| > 0 && prefixes[|prefixes| - 1].1 != f
    ensures Get(Variants(loc, base, prefixes), f) == Get(Variants(loc, base, prefixes[..|prefixes| - 1]), f)
  {
    VariantsStep(loc, base, prefixes, f);
  }

  /** The only row of its faction decides the faction's entry. */
  lemma VariantsLast(loc: map<string, string>, base: string, prefixes: seq<(string, string)>)
    requires |prefixes| > 0
    requires forall k :: 0 <= k < |prefixes| - 1 ==> prefixes[k].1 != prefixes[|prefixes| - 1].1
    ensures Get(Variants(loc, base, prefixes), prefixes[|prefixes| - 1].1) ==
      VariantOf(loc, base, prefixes[|prefixes| - 1].0)
  {
    var n := |prefixes| - 1;
    var init := prefixes[..n];
    var f := prefixes[n].1;
    VariantsStep(loc, base, prefixes, f);
    forall k | 0 <= k < |init| ensures init[k].1 != f {
      assert init[k] == prefixes[k];
    }
    VariantsAbsent(loc, base, init, f);
  }

  /** A faction no row names gets no entry. */
  lemma VariantsAbsent(loc: map<string, string>, base: string, prefixes: seq<(string, string)>, f: string)
    requires forall k :: 0 <= k < |prefixes| ==> prefixes[k].1 != f
    ensures Get(Variants(loc, base, prefixes), f).None?
  {
    VariantsFrom(loc, base, prefixes, f);
  }

  /** An id with no faction marker has no alternate names. */
  lemma PlainIdNoAlternates(techId: string, loc: map<string, string>, prefixes: seq<(string, string)>)
    requires FirstPrefix(techId, prefixes).None?
    ensures AlternateNamesWith(techId, loc, prefixes) == []
  {
  }

  /** What `extract_alternate_names` returns for a faction `f`: under the id's
      own faction the generic name once some variant was found, otherwise the
      name of `f`'s own variant, and nothing for a faction outside the table. */
  lemma AlternateNamesGet(techId: string, loc: map<string, string>, prefixes: seq<(string, string)>, f: string)
    requires DistinctFactions(prefixes)
    ensures var r := Get(AlternateNamesWith(techId, loc, prefixes), f);
      (r.Some? ==> r.value != "" && exists j :: 0 <= j < |prefixes| && prefixes[j].1 == f)
      && (FirstPrefix(techId, prefixes).None? ==> r.None?)
    ensures forall j :: 0 <= j < |prefixes| && prefixes[j].1 == f && FirstPrefix(techId, prefixes).Some? ==>
      var base := BasePattern(techId, prefixes);
      var alternates := if base != techId then Variants(loc, base, prefixes) else [];
      var techName := if techId in loc then loc[techId] else "";
      Get(AlternateNamesWith(techId, loc, prefixes), f)
      == if j == FirstPrefix(techId, prefixes).value && |alternates| > 0 && techName != "" then Some(techName)
         else if base != techId then VariantOf(loc, base, prefixes[j].0)
         else None
  {
    var base := BasePattern(techId, prefixes);
    var alternates := if base != techId then Variants(loc, base, prefixes) else [];
    var techName := if techId in loc then loc[techId] else "";
    if base != techId {
      VariantsFrom(loc, base, prefixes, f);
    }
    match FirstPrefix(techId, prefixes)
    case None =>
    case Some(i) =>
      if |alternates| > 0 && techName != "" && prefixes[i].1 != f {
        PutOther(alternates, prefixes[i].1, techName, f);
      }
      if |alternates| > 0 && techName != "" && prefixes[i].1 == f {
        assert prefixes[i].1 == f;
      }
      forall j | 0 <= j < |prefixes| && prefixes[j].1 == f
        ensures Get(AlternateNamesWith(techId, loc, prefixes), f)
          == if j == i && |alternates| > 0 && techName != "" then Some(techName)
             else if base != techId then VariantOf(loc, base, prefixes[j].0)
             else None
      {
        if base != techId {
          VariantsGet(loc, base, prefixes, j);
        }
        if j != i {
          assert prefixes[i].1 != f;
        }
      }
  }

  // ---------------------------------------------------------------------
  // Faction metadata

  datatype FactionInfo = FactionInfo(name: string, shortName: string, color: string, playable: bool)

  /** `faction_info`: the factions with a display name of their own. */
  const KnownFactions: Assoc<FactionInfo> := [
    ("Federation", FactionInfo("United Federation of Planets", "UFP", "#0066cc", true)),
    ("Klingon", FactionInfo("Klingon Empire", "KDF", "#cc0000", true)),
    ("Romulan", FactionInfo("Romulan Star Empire", "RSE", "#00cc66", true)),
    ("Cardassian", FactionInfo("Cardassian Union", "CU", "#cc6600", true)),
    ("Dominion", FactionInfo("The Dominion", "DOM", "#9966cc", true)),
    ("Borg", FactionInfo("Borg Collective", "BC", "#00cc00", true)),
    ("Undine", FactionInfo("Undine", "UND", "#cc00cc", true))]

  /** `species_to_faction`, used when a tech has no availability entry for a faction. */
  const SpeciesToFaction: map<string, string> := map[
    "Federation" := "Federation", "Klingon" := "Klingon", "Romulan" := "Romulan",
    "Cardassian" := "Cardassian", "Dominion" := "Dominion", "Borg" := "Borg",
    "Undine" := "Undine", "Breen" := "Breen", "Ferengi" := "Ferengi",
    "Hirogen" := "Hirogen", "Vidiian" := "Vidiian", "Suliban" := "Romulan",
    "Tholian" := "Other", "Krenim" := "Other", "Voth" := "Other"]

  /** One entry of the returned metadata list. */
  datatype FactionMeta = FactionMeta(id: string, name: string, shortName: string, color: string,
                                     playable: bool, techCount: nat)

  /** A required species that the table maps to the faction. */
  predicate SpeciesMatches(speciesMap: map<string, string>, species: seq<string>, f: string)
  {
    exists s :: s in species && s in speciesMap && speciesMap[s] == f
  }

  /** Whether a tech adds to faction `f`'s count: its availability entry for
      `f` decides when there is one; otherwise an unrestricted tech counts, and
      a restricted one when a required species maps to `f`. */
  predicate Counts(f: string, speciesMap: map<string, string>, t: Tech)
  {
    var fa := t.factionAvailability;
    if |fa| > 0 && HasKey(fa, f) then Get(fa, f).value.available
    else |t.requiredSpecies| == 0 || SpeciesMatches(speciesMap, t.requiredSpecies, f)
  }

  function CountsFor(f: string, speciesMap: map<string, string>): Tech -> bool
  {
    t => Counts(f, speciesMap, t)
  }

  /** `tech_count` for faction `f`. */
  function TechCount(f: string, speciesMap: map<string, string>, techs: seq<Tech>): (r: nat)
    ensures r <= |techs|
  {
    |Filter(techs, CountsFor(f, speciesMap))|
  }

  lemma TechCountStep(f: string, speciesMap: map<string, string>, techs: seq<Tech>, i: nat)
    requires i < |techs|
    ensures TechCount(f, speciesMap, techs[..i + 1])
            == TechCount(f, speciesMap, techs[..i]) + if Counts(f, speciesMap, techs[i]) then 1 else 0
  {
    FilterAppend(techs[..i], [techs[i]], CountsFor(f, speciesMap));
    assert techs[..i + 1] == techs[..i] + [techs[i]];
  }

  /** The counting loop, with the inner `for species ...: break`. */
  method CountTechs(f: string, speciesMap: map<string, string>, techs: seq<Tech>) returns (count: nat)
    ensures count == TechCount(f, speciesMap, techs)
  {
    count := 0;
    for i := 0 to |techs|
      invariant count == TechCount(f, speciesMap, techs[..i])
    {
      var countsHere := CountsTech(f, speciesMap, techs[i]);
      if countsHere {
        count := count + 1;
      }
      TechCountStep(f, speciesMap, techs, i);
    }
    assert techs[..|techs|] == techs;
  }

  /** The body of the counting loop for one tech. */
  method CountsTech(f: string, speciesMap: map<string, string>, tech: Tech) returns (countsHere: bool)
    ensures countsHere == Counts(f, speciesMap, tech)
  {
    countsHere := false;
    var fa := tech.factionAvailability;
    if |fa| > 0 && HasKey(fa, f) {
      countsHere := Get(fa, f).value.available;
    } else {
      var species := tech.requiredSpecies;
      if |species| == 0 {
        countsHere := true;
      } else {
        var j := 0;
        while j < |species|
          invariant 0 <= j <= |species| && !countsHere
          invariant forall k :: 0 <= k < j ==> !(species[k] in speciesMap && speciesMap[species[k]] == f)
          decreases |species| - j
        {
          if species[j] in speciesMap && speciesMap[species[j]] == f {
            countsHere := true;
            break;
          }
          j := j + 1;
        }
      }
    }
  }

  /** The entry for faction `f`: its row of the info table, or the default. */
  function InfoOf(known: Assoc<FactionInfo>, f: string): FactionInfo
  {
    Get(known, f).GetOr(FactionInfo(Title(ReplaceAll(f, "_", " ")), Upper(Take(f, 3)), "#cccccc", false))
  }

  function MetaWith(known: Assoc<FactionInfo>, speciesMap: map<string, string>, f: string, techs: seq<Tech>): FactionMeta
  {
    var info := InfoOf(known, f);
    FactionMeta(ReplaceAll(Lower(f), " ", "_"), info.name, info.shortName, info.color, info.playable,
                TechCount(f, speciesMap, techs))
  }

  /** The metadata entry of faction `f` under the built-in tables. */
  function MetaFor(f: string, techs: seq<Tech>): FactionMeta
  {
    MetaWith(KnownFactions, SpeciesToFaction, f, techs)
  }

  /** The loop over the sorted factions, for given tables. */
  method BuildMetadata(known: Assoc<FactionInfo>, speciesMap: map<string, string>, sorted: seq<string>, techs: seq<Tech>)
    returns (metadata: seq<FactionMeta>)
    ensures |metadata| == |sorted|
    ensures forall k :: 0 <= k < |metadata| ==> metadata[k] == MetaWith(known, speciesMap, sorted[k], techs)
  {
    metadata := [];
    for i := 0 to |sorted|
      invariant |metadata| == i
      invariant forall k :: 0 <= k < i ==> metadata[k] == MetaWith(known, speciesMap, sorted[k], techs)
    {
      var f := sorted[i];
      var count := CountTechs(f, speciesMap, techs);
      var info := InfoOf(known, f);
      metadata := metadata + [FactionMeta(ReplaceAll(Lower(f), " ", "_"), info.name, info.shortName,
                                          info.color, info.playable, count)];
    }
  }

  /** `generate_factions_metadata(factions, technologies)`: one entry per
      faction, in sorted order, each with its tech count. */
  method GenerateFactionsMetadata(factions: seq<string>, techs: seq<Tech>) returns (metadata: seq<FactionMeta>)
    ensures |metadata| == |factions|
    ensures forall k :: 0 <= k < |metadata| ==> metadata[k] == MetaFor(SortStrings(factions)[k], techs)
  {
    metadata := BuildMetadata(KnownFactions, SpeciesToFaction, SortStrings(factions), techs);
  }

  /** The count adds up over a split list of techs. */
  lemma TechCountAppend(f: string, speciesMap: map<string, string>, a: seq<Tech>, b: seq<Tech>)
    ensures TechCount(f, speciesMap, a + b) == TechCount(f, speciesMap, a) + TechCount(f, speciesMap, b)
  {
    FilterAppend(a, b, CountsFor(f, speciesMap));
  }

  /** A tech with neither availability entries nor species restriction. */
  predicate Unrestricted(t: Tech)
  {
    |t.factionAvailability| == 0 && |t.requiredSpecies| == 0
  }

  /** Every faction's count includes every unrestricted tech. */
  lemma UnrestrictedCounted(f: string, speciesMap: map<string, string>, techs: seq<Tech>)
    ensures |Filter(techs, Unrestricted)| <= TechCount(f, speciesMap, techs)
  {
    FilterLengthMono(techs, Unrestricted, CountsFor(f, speciesMap));
  }

  /** An availability entry for the faction overrides the species fallback. */
  lemma AvailabilityOverridesSpecies(f: string, speciesMap: map<string, string>, t: Tech)
    requires HasKey(t.factionAvailability, f) && !Get(t.factionAvailability, f).value.available
    ensures !Counts(f, speciesMap, t)
  {
  }

  /** Every row of an info table is playable. */
  predicate AllPlayable(known: Assoc<FactionInfo>)
  {
    forall i :: 0 <= i < |known| ==> known[i].1.playable
  }

  lemma KnownFactionsPlayable()
    ensures AllPlayable(KnownFactions)
  {
  }

  /** With a table whose rows are all playable, exactly the factions of the
      table are marked playable. */
  lemma {:induction false} PlayableIffKnown(known: Assoc<FactionInfo>, speciesMap: map<string, string>, f: string, techs: seq<Tech>)
    requires AllPlayable(known)
    ensures MetaWith(known, speciesMap, f, techs).playable <==> HasKey(known, f)
  {
    if HasKey(known, f) {
      GetStored(known, f);
    }
  }
}
