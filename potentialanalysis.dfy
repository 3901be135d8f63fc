/** update/analyze_potentials.py: the report over the extracted potential
    blocks — how many blocks there are, how often each condition line
    occurs, and the distinct conditions of each keyword category. The list of
    blocks is a parameter (each as its optional `conditions` list); reading
    `potentials.json` and writing the report are not part of this model. */
module PotentialAnalysis {
  import opened Wrappers
  import opened Seqs
  import opened Text

  // ---------------------------------------------------------------------
  // Categories

  /** The keyword chain: the first keyword a condition contains names its
      category; `OR`, `NOR` and `AND` make a logical operator, anything else
      is `other`. */
  function CategoryOf(cond: string): string
  {
    if Contains(cond, "is_species_class") then "species_class"
    else if Contains(cond, "has_country_flag") then "country_flag"
    else if Contains(cond, "is_assimilator") then "assimilator"
    else if Contains(cond, "is_borg_empire") then "borg_empire"
    else if Contains(cond, "is_undine_empire") then "undine_empire"
    else if Contains(cond, "is_romulan_tech_empire") then "romulan_empire"
    else if Contains(cond, "is_earth_or_ufp_story_empire") then "ufp_empire"
    else if Contains(cond, "is_cardassia_story_empire") then "cardassian_empire"
    else if Contains(cond, "OR") || Contains(cond, "NOR") || Contains(cond, "AND") then "logical_operator"
    else "other"
  }

  /** A condition names one of the eight game concepts the chain tests first. */
  predicate NamesConcept(cond: string)
  {
    || Contains(cond, "is_species_class")
    || Contains(cond, "has_country_flag")
    || Contains(cond, "is_assimilator")
    || Contains(cond, "is_borg_empire")
    || Contains(cond, "is_undine_empire")
    || Contains(cond, "is_romulan_tech_empire")
    || Contains(cond, "is_earth_or_ufp_story_empire")
    || Contains(cond, "is_cardassia_story_empire")
  }

  /** `NOR` contains `OR`, so the chain's `NOR` test never decides anything. */
  lemma NorContainsOr(cond: string)
    requires Contains(cond, "NOR")
    ensures Contains(cond, "OR")
  {
    ContainsAt("NOR", "OR", 1);
    ContainsTransitive(cond, "NOR", "OR");
  }

  /** Every condition gets one of the ten categories; the logical operators
      are the conditions that name no concept and contain `OR` or `AND`, and
      `other` holds the conditions that contain none of the keywords. */
  lemma CategoryOfSpec(cond: string)
    ensures CategoryOf(cond) == "logical_operator" <==>
      !NamesConcept(cond) && (Contains(cond, "OR") || Contains(cond, "AND"))
    ensures CategoryOf(cond) == "other" <==>
      !NamesConcept(cond) && !Contains(cond, "OR") && !Contains(cond, "AND")
    ensures Contains(cond, "is_species_class") ==> CategoryOf(cond) == "species_class"
  {
    if Contains(cond, "NOR") {
      NorContainsOr(cond);
    }
  }

  // ---------------------------------------------------------------------
  // The report as a function of the blocks

  /** `item.get('conditions', [])`. */
  function ConditionsOf(item: Option<seq<string>>): seq<string>
  {
    item.GetOr([])
  }

  /** Every condition line of the blocks, in order. */
  function AllConditions(items: seq<Option<seq<string>>>): seq<string>
  {
    if |items| == 0 then []
    else AllConditions(items[..|items| - 1]) + ConditionsOf(items[|items| - 1])
  }

  /** `condition_counts[cond] += 1` on a `defaultdict(int)`. */
  function CountStep(counts: Assoc<int>, cond: string): Assoc<int>
  {
    Put(counts, cond, NextCount(counts, cond))
  }

  /** `condition_counts.get(condition, 0) + 1` */
  function NextCount(counts: Assoc<int>, cond: string): int
  {
    Get(counts, cond).GetOr(0) + 1
  }

  /** `condition_counts` after the given condition lines. */
  function Counts(conds: seq<string>): Assoc<int>
  {
    if |conds| == 0 then []
    else CountStep(Counts(conds[..|conds| - 1]), conds[|conds| - 1])
  }

  /** `categorized_conditions[category]`, appended to when the condition is
      not in it yet. */
  function CategorizeStep(cats: Assoc<seq<string>>, cond: string): Assoc<seq<string>>
  {
    var category := CategoryOf(cond);
    if cond in Get(cats, category).GetOr([]) then cats else AppendAt(cats, category, cond)
  }

  /** `categorized_conditions` after the given condition lines, before sorting. */
  function Categorized(conds: seq<string>): Assoc<seq<string>>
  {
    if |conds| == 0 then []
    else CategorizeStep(Categorized(conds[..|conds| - 1]), conds[|conds| - 1])
  }

  /** Each category's list sorted, the categories in their own order. */
  function SortLists(cats: Assoc<seq<string>>): Assoc<seq<string>>
  {
    MapSeq(cats, SortEntry)
  }

  function SortEntry(p: (string, seq<string>)): (string, seq<string>)
  {
    (p.0, SortStrings(p.1))
  }

  /** `key=lambda x: x[1], reverse=True`: higher counts first. */
  function CountGe(): ((string, int), (string, int)) -> bool
  {
    (a: (string, int), b: (string, int)) => a.1 >= b.1
  }

  datatype Report = Report(
    totalPotentialBlocks: nat,
    uniqueConditionsCount: nat,
    conditionCounts: seq<(string, int)>,
    categorizedConditions: Assoc<seq<string>>)

  function ReportOf(items: seq<Option<seq<string>>>): Report
  {
    var conds := AllConditions(items);
    Report(|items|, |Counts(conds)|, SortBy(Counts(conds), CountGe()), SortLists(Categorized(conds)))
  }

  // ---------------------------------------------------------------------
  // The loops

  lemma AllConditionsSnoc(items: seq<Option<seq<string>>>, i: nat)
    requires i < |items|
    ensures AllConditions(items[..i + 1]) == AllConditions(items[..i]) + ConditionsOf(items[i])
  {
    assert items[..i + 1][..i] == items[..i];
  }

  lemma CountsSnoc(seen: seq<string>, conditions: seq<string>, j: nat)
    requires j < |conditions|
    ensures Counts(seen + conditions[..j + 1]) == CountStep(Counts(seen + conditions[..j]), conditions[j])
    ensures Categorized(seen + conditions[..j + 1]) ==
      CategorizeStep(Categorized(seen + conditions[..j]), conditions[j])
  {
    AppendSliceSnoc(seen, conditions, j);
    var s := seen + conditions[..j + 1];
    assert s[..|s| - 1] == seen + conditions[..j];
  }

  /** The counting half of the inner loop's body. */
  method CountCondition(cond: string, counts: Assoc<int>) returns (counts': Assoc<int>)
    ensures counts' == CountStep(counts, cond)
  {
    var count := NextCount(counts, cond);
    counts' := Put(counts, cond, count);
  }

  /** The categorizing half of the inner loop's body. */
  method Categorize(cond: string, cats: Assoc<seq<string>>) returns (cats': Assoc<seq<string>>)
    ensures cats' == CategorizeStep(cats, cond)
  {
    var category := CategoryOf(cond);
    cats' := cats;
    var list := Get(cats', category).GetOr([]);
    if cond !in list {
      cats' := AppendAt(cats', category, cond);
    }
  }

  /** The inner loop: one block's conditions counted and categorized. */
  method AddConditions(conditions: seq<string>, counts: Assoc<int>, cats: Assoc<seq<string>>,
                       ghost seen: seq<string>)
    returns (counts': Assoc<int>, cats': Assoc<seq<string>>)
    requires counts == Counts(seen) && cats == Categorized(seen)
    ensures counts' == Counts(seen + conditions) && cats' == Categorized(seen + conditions)
  {
    counts', cats' := counts, cats;
    assert seen + conditions[..0] == seen;
    for j := 0 to |conditions|
      invariant counts' == Counts(seen + conditions[..j]) && cats' == Categorized(seen + conditions[..j])
    {
      CountsSnoc(seen, conditions, j);
      counts' := CountCondition(conditions[j], counts');
      cats' := Categorize(conditions[j], cats');
    }
    assert conditions[..|conditions|] == conditions;
  }

  /** The sorting loop: every category's list sorted in place. */
  method SortCategories(cats: Assoc<seq<string>>) returns (sorted: Assoc<seq<string>>)
    ensures sorted == SortLists(cats)
  {
    sorted := cats;
    for i := 0 to |cats|
      invariant |sorted| == |cats|
      invariant forall k :: 0 <= k < i ==> sorted[k] == SortEntry(cats[k])
      invariant forall k :: i <= k < |cats| ==> sorted[k] == cats[k]
    {
      sorted := sorted[i := (sorted[i].0, SortStrings(sorted[i].1))];
    }
  }

  /** `analyze_potentials` on the loaded list of blocks. */
  method AnalyzePotentials(potentials: seq<Option<seq<string>>>) returns (report: Report)
    ensures report == ReportOf(potentials)
  {
    var conditionCounts: Assoc<int> := [];
    var categorizedConditions: Assoc<seq<string>> := [];
    for i := 0 to |potentials|
      invariant conditionCounts == Counts(AllConditions(potentials[..i]))
      invariant categorizedConditions == Categorized(AllConditions(potentials[..i]))
    {
      AllConditionsSnoc(potentials, i);
      var conditions := ConditionsOf(potentials[i]);
      conditionCounts, categorizedConditions :=
        AddConditions(conditions, conditionCounts, categorizedConditions, AllConditions(potentials[..i]));
    }
    assert potentials[..|potentials|] == potentials;
    categorizedConditions := SortCategories(categorizedConditions);
    report := Report(|potentials|, |conditionCounts|, SortBy(conditionCounts, CountGe()), categorizedConditions);
  }

  // ---------------------------------------------------------------------
  // Properties

  /** The counted conditions are the conditions seen, in order of first
      occurrence, each once. */
  lemma {:induction false} CountsKeys(conds: seq<string>)
    ensures Keys(Counts(conds)) == Dedupe(conds)
  {
    if |conds| > 0 {
      var init := conds[..|conds| - 1];
      var c := conds[|conds| - 1];
      CountsKeys(init);
      assert HasKey(Counts(init), c) <==> c in init;
    }
  }

  /** One more occurrence: its count goes up by one, no other count moves. */
  lemma CountStepSpec(counts: Assoc<int>, c: string, x: string)
    ensures HasKey(CountStep(counts, c), x) <==> HasKey(counts, x) || x == c
    ensures x == c ==> Get(CountStep(counts, c), x).value == Get(counts, c).GetOr(0) + 1
    ensures x != c ==> Get(CountStep(counts, c), x) == Get(counts, x)
  {
    var n := Get(counts, c).GetOr(0) + 1;
    if x != c {
      PutOther(counts, c, n, x);
    }
  }

  /** How often `x` occurs in a list. */
  function Occurrences(conds: seq<string>, x: string): nat
  {
    multiset(conds)[x]
  }

  lemma OccurrencesSnoc(conds: seq<string>, x: string)
    requires |conds| > 0
    ensures var init, c := conds[..|conds| - 1], conds[|conds| - 1];
      && (x in conds <==> x in init || x == c)
      && Occurrences(conds, x) == Occurrences(init, x) + if x == c then 1 else 0
  {
    assert conds == conds[..|conds| - 1] + [conds[|conds| - 1]];
  }

  /** Exactly the conditions seen are counted, each once per occurrence. */
  lemma {:induction false} CountsValue(conds: seq<string>, x: string)
    ensures HasKey(Counts(conds), x) <==> x in conds
    ensures x in conds ==> Get(Counts(conds), x).value == Occurrences(conds, x)
  {
    if |conds| > 0 {
      var init := conds[..|conds| - 1];
      var c := conds[|conds| - 1];
      CountsValue(init, x);
      CountsValue(init, c);
      CountStepSpec(Counts(init), c, x);
      OccurrencesSnoc(conds, x);
    }
  }

  /** The unique count is the number of distinct condition lines. */
  lemma UniqueCount(items: seq<Option<seq<string>>>)
    ensures ReportOf(items).uniqueConditionsCount == |Elems(AllConditions(items))|
  {
    var conds := AllConditions(items);
    CountsKeys(conds);
    NoDupsCard(Dedupe(conds));
    assert Elems(Dedupe(conds)) == Elems(conds);
  }

  /** The count list holds exactly the counts, highest first. */
  lemma CountListSpec(items: seq<Option<seq<string>>>)
    ensures SortedBy(ReportOf(items).conditionCounts, CountGe())
    ensures multiset(ReportOf(items).conditionCounts) == multiset(Counts(AllConditions(items)))
  {
    assert TotalPreorder(CountGe());
    SortBySorted(Counts(AllConditions(items)), CountGe());
  }

  /** The conditions of one category, in order, repeats included. */
  function InCategory(conds: seq<string>, category: string): seq<string>
  {
    Filter(conds, (c: string) => CategoryOf(c) == category)
  }

  /** One more condition: its own category's list gains it unless it is there
      already; every other list stays. */
  lemma CategorizeStepSpec(cats: Assoc<seq<string>>, c: string, category: string)
    ensures Get(CategorizeStep(cats, c), category).GetOr([]) ==
      if category == CategoryOf(c) && c !in Get(cats, category).GetOr([])
      then Get(cats, category).GetOr([]) + [c] else Get(cats, category).GetOr([])
    ensures HasKey(CategorizeStep(cats, c), category) <==> HasKey(cats, category) || category == CategoryOf(c)
  {
  }

  /** A category has a list exactly when some condition falls in it, and its
      list is that category's conditions in order of first occurrence, each once. */
  lemma {:induction false} CategorizedSpec(conds: seq<string>, category: string)
    ensures HasKey(Categorized(conds), category) <==> InCategory(conds, category) != []
    ensures Get(Categorized(conds), category).GetOr([]) == Dedupe(InCategory(conds, category))
  {
    if |conds| > 0 {
      var init := conds[..|conds| - 1];
      var c := conds[|conds| - 1];
      var f := InCategory(init, category);
      var l := Get(Categorized(init), category).GetOr([]);
      CategorizedSpec(init, category);
      assert l == Dedupe(f);
      CategorizeStepSpec(Categorized(init), c, category);
      InCategorySnoc(conds, category);
      if category == CategoryOf(c) {
        DedupeSnoc(f, c);
        assert InCategory(conds, category) == f + [c];
        assert Get(Categorized(conds), category).GetOr([]) == if c in l then l else l + [c];
      } else {
        assert InCategory(conds, category) == f;
        assert Get(Categorized(conds), category).GetOr([]) == l;
      }
    }
  }

  lemma DedupeSnoc(s: seq<string>, x: string)
    ensures Dedupe(s + [x]) == if x in Dedupe(s) then Dedupe(s) else Dedupe(s) + [x]
    ensures x in Dedupe(s) <==> x in s
  {
    assert (s + [x])[..|s|] == s;
  }

  lemma InCategorySnoc(conds: seq<string>, category: string)
    requires |conds| > 0
    ensures var init, c := conds[..|conds| - 1], conds[|conds| - 1];
      && (CategoryOf(c) == category ==> InCategory(conds, category) == InCategory(init, category) + [c])
      && (CategoryOf(c) != category ==> InCategory(conds, category) == InCategory(init, category))
  {
    var n := |conds| - 1;
    FilterSnoc(conds, n, (c: string) => CategoryOf(c) == category);
    assert conds[..n + 1] == conds;
    if CategoryOf(conds[n]) != category {
      assert InCategory(conds[..n], category) + [] == InCategory(conds[..n], category);
    }
  }

  /** Sorting keeps each category and its position, and sorts its list. */
  lemma {:induction false} SortListsSpec(cats: Assoc<seq<string>>, category: string)
    ensures Keys(SortLists(cats)) == Keys(cats)
    ensures Get(SortLists(cats), category) ==
      if HasKey(cats, category) then Some(SortStrings(Get(cats, category).value)) else None
  {
    if |cats| > 0 {
      SortListsSpec(cats[1..], category);
      assert SortLists(cats)[1..] == SortLists(cats[1..]);
      assert Keys(cats) == [cats[0].0] + Keys(cats[1..]);
      assert Keys(SortLists(cats)) == [cats[0].0] + Keys(SortLists(cats[1..]));
    }
  }

  /** The report has a list for a category exactly when some condition line
      of the blocks falls in it. */
  lemma ReportCategories(items: seq<Option<seq<string>>>, category: string)
    ensures HasKey(ReportOf(items).categorizedConditions, category) <==>
      exists c :: c in AllConditions(items) && CategoryOf(c) == category
  {
    var conds := AllConditions(items);
    CategorizedSpec(conds, category);
    SortListsSpec(Categorized(conds), category);
    var f := InCategory(conds, category);
    if exists c :: c in conds && CategoryOf(c) == category {
      var c :| c in conds && CategoryOf(c) == category;
      assert c in f;
    }
    if f != [] {
      assert f[0] in f;
    }
  }

  /** The report's list for a category holds, sorted and each once, exactly
      the condition lines of the blocks that fall in it. */
  lemma ReportCategoryList(items: seq<Option<seq<string>>>, category: string, x: string)
    requires HasKey(ReportOf(items).categorizedConditions, category)
    ensures var list := Get(ReportOf(items).categorizedConditions, category).value;
      && SortedBy(list, StringLe()) && NoDups(list)
      && (x in list <==> x in AllConditions(items) && CategoryOf(x) == category)
  {
    var conds := AllConditions(items);
    var raw := Categorized(conds);
    CategorizedSpec(conds, category);
    SortListsSpec(raw, category);
    var d := Dedupe(InCategory(conds, category));
    var list := SortStrings(d);
    assert Get(ReportOf(items).categorizedConditions, category).value == list;
    NoDupsPermutation(d, list);
  }
}
