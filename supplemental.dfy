/** update/supplemental_tech_parser.py: the fallback parser that reads
    technology blocks straight from the game files. Its `_extract_block` is
    Scan.ExtractBlock. Each regular expression is the Scan pattern written
    beside it. */
module Supplemental {
  import opened Wrappers
  import opened Seqs
  import opened Text
  import opened Numbers
  import opened Scan

  // ---------------------------------------------------------------------
  // `_parse_prereqfor_desc`

  /** A `ship = { ... }` or `feature = { ... }` entry: `title_key`, and
      `desc_key` (empty when the entry has no description). */
  datatype TitledUnlock = TitledUnlock(titleKey: string, descKey: string)

  /** The `prereqfor_desc` dictionary; an absent key is None. */
  datatype PrereqforDesc = PrereqforDesc(
    ship: Option<TitledUnlock>,
    components: Option<seq<string>>,
    buildings: Option<seq<string>>,
    technologies: Option<seq<string>>,
    feature: Option<TitledUnlock>)

  const NoUnlocks: PrereqforDesc := PrereqforDesc(None, None, None, None, None)

  /** `kw\s*=\s*"([^"]+)"` */
  function KeyString(kw: string): Pattern
  {
    Assign(kw, Quoted(""))
  }

  /** The inside of the first `kw\s*=\s*\{([^}]+)\}`. */
  function EntryBody(block: string, kw: string): Option<string>
  {
    SearchValue(block, Assign(kw, Braced))
  }

  /** The first `kw = { ... }` entry with its title and description, when it has a title. */
  function TitledEntry(block: string, kw: string): Option<TitledUnlock>
  {
    match EntryBody(block, kw)
    case None => None
    case Some(inner) =>
      match SearchValue(inner, KeyString("title"))
      case None => None
      case Some(title) =>
        var desc := SearchValue(inner, KeyString("desc"));
        Some(TitledUnlock(title, if desc.Some? then desc.value else ""))
  }

  /** A `findall` result, stored only when it found something. */
  function IfAny(xs: seq<string>): Option<seq<string>>
  {
    if |xs| > 0 then Some(xs) else None
  }

  function PrereqforDescOf(block: string): PrereqforDesc
  {
    PrereqforDesc(TitledEntry(block, "ship"),
                  IfAny(FindAll(block, KeyString("component"))),
                  IfAny(FindAll(block, KeyString("building"))),
                  IfAny(FindAll(block, KeyString("technology"))),
                  TitledEntry(block, "feature"))
  }

  /** The `ship` and `feature` branches. */
  method ReadTitled(block: string, kw: string) returns (entry: Option<TitledUnlock>)
    ensures entry == TitledEntry(block, kw)
  {
    entry := None;
    var found := EntryBody(block, kw);
    if found.Some? {
      var inner := found.value;
      var titleMatch := SearchValue(inner, KeyString("title"));
      var descMatch := SearchValue(inner, KeyString("desc"));
      if titleMatch.Some? {
        entry := Some(TitledUnlock(titleMatch.value, if descMatch.Some? then descMatch.value else ""));
      }
    }
  }

  /** `_parse_prereqfor_desc`: the dictionary is filled key by key. */
  method ParsePrereqforDesc(block: string) returns (unlocks: PrereqforDesc)
    ensures unlocks == PrereqforDescOf(block)
  {
    unlocks := NoUnlocks;
    var ship := ReadTitled(block, "ship");
    if ship.Some? {
      unlocks := unlocks.(ship := ship);
    }
    var componentMatches := FindAll(block, KeyString("component"));
    if |componentMatches| > 0 {
      unlocks := unlocks.(components := Some(componentMatches));
    }
    var buildingMatches := FindAll(block, KeyString("building"));
    if |buildingMatches| > 0 {
      unlocks := unlocks.(buildings := Some(buildingMatches));
    }
    var techMatches := FindAll(block, KeyString("technology"));
    if |techMatches| > 0 {
      unlocks := unlocks.(technologies := Some(techMatches));
    }
    var feature := ReadTitled(block, "feature");
    if feature.Some? {
      unlocks := unlocks.(feature := feature);
    }
  }

  /** The keys a `findall` of `kw = "..."` stores: present only when
      something matched, each non-empty and without quotes. */
  predicate StoredKeys(r: Option<seq<string>>, block: string, kw: string)
  {
    (r.Some? ==> |r.value| > 0 && forall x :: x in r.value ==> x != "" && '"' !in x)
    && (!Contains(block, kw) ==> r.None?)
  }

  lemma {:induction false} StoredKeysOf(block: string, kw: string)
    ensures StoredKeys(IfAny(FindAll(block, KeyString(kw))), block, kw)
  {
    FindAllCaptures(block, KeyString(kw));
    if !Contains(block, kw) {
      AssignNeedsKeyword(block, kw, Quoted(""));
    }
  }

  /** A titled entry is there only when the block has a `kw = { ... }`
      with a title; both keys are free of quotes, the title is non-empty,
      and the description is empty exactly when none was found. */
  lemma TitledEntrySpec(block: string, kw: string)
    ensures !Contains(block, kw) ==> TitledEntry(block, kw).None?
    ensures TitledEntry(block, kw).Some? ==>
      EntryBody(block, kw).Some?
      && var e := TitledEntry(block, kw).value;
      && e.titleKey != "" && '"' !in e.titleKey && '"' !in e.descKey
      && (e.descKey == "" <==> SearchValue(EntryBody(block, kw).value, KeyString("desc")).None?)
  {
    if !Contains(block, kw) {
      AssignNeedsKeyword(block, kw, Braced);
    }
    if TitledEntry(block, kw).Some? {
      var inner := EntryBody(block, kw).value;
      SearchCaptures(inner, KeyString("title"));
      SearchCaptures(inner, KeyString("desc"));
    }
  }

  /** What `_parse_prereqfor_desc` promises: a key appears only when its
      matches exist, and `ship`/`feature` only with a title. */
  lemma PrereqforDescSpec(block: string)
    ensures var r := PrereqforDescOf(block);
      StoredKeys(r.components, block, "component")
      && StoredKeys(r.buildings, block, "building")
      && StoredKeys(r.technologies, block, "technology")
      && (!Contains(block, "ship") ==> r.ship.None?)
      && (!Contains(block, "feature") ==> r.feature.None?)
      && (r.ship.Some? ==> r.ship.value.titleKey != "")
      && (r.feature.Some? ==> r.feature.value.titleKey != "")
  {
    StoredKeysOf(block, "component");
    StoredKeysOf(block, "building");
    StoredKeysOf(block, "technology");
    TitledEntrySpec(block, "ship");
    TitledEntrySpec(block, "feature");
  }

  // ---------------------------------------------------------------------
  // `_parse_tech_block`

  /** The `weight` field: the integer default 1, or the matched text
      that `float()` is applied to. */
  datatype Weight = DefaultWeight | WeightLiteral(text: string)

  /** The dictionary `_parse_tech_block` returns (`unlocks` and
      `required_species` are always empty and are not kept; `file_path` is
      kept as the file name). */
  datatype SuppTech = SuppTech(
    name: string,
    sourceFile: string,
    prerequisites: seq<string>,
    area: string,
    tier: nat,
    cost: nat,
    weight: Weight,
    category: seq<string>,
    isRare: bool,
    isDangerous: bool,
    isReverseEngineerable: bool,
    startTech: bool,
    prereqforDesc: PrereqforDesc,
    hasUnlocks: bool,
    directModifiers: Assoc<string>)

  /** `area\s*=\s*(\w+)` if it matches, else from the id prefix. */
  function AreaOf(techId: string, block: string): string
  {
    match SearchValue(block, Assign("area", Run(WordC)))
    case Some(a) => a
    case None =>
      if StartsWith(techId, "tech_physics") then "physics"
      else if StartsWith(techId, "tech_engineering") then "engineering"
      else if StartsWith(techId, "tech_society") then "society"
      else "unknown"
  }

  /** `int(m.group(1))` of the first `kw\s*=\s*(\d+)`, or `default`. */
  function IntField(block: string, kw: string, default: nat): nat
  {
    match Search(block, Assign(kw, Run(DigitC)))
    case None => default
    case Some(h) =>
      HitCaptures(block, h.start, Assign(kw, Run(DigitC)));
      DigitsValue(h.value)
  }

  /** `weight\s*=\s*([\d.]+)`, or None when `float()` raises on the match. */
  function WeightOf(block: string): Option<Weight>
  {
    match SearchValue(block, Assign("weight", Run(NumberC)))
    case None => Some(DefaultWeight)
    case Some(w) => if FloatLiteral(w) then Some(WeightLiteral(w)) else None
  }

  /** The quoted tech ids inside `prerequisites\s*=\s*\{([^}]+)\}`. */
  function PrerequisitesOf(block: string): seq<string>
  {
    match EntryBody(block, "prerequisites")
    case None => []
    case Some(inner) => FindAll(inner, Bare(QuotedTech))
  }

  predicate NotConnective(c: string)
  {
    c != "OR" && c != "AND" && c != "NOT"
  }

  /** The words inside `category\s*=\s*\{([^}]+)\}` other than OR, AND and NOT. */
  function CategoryOf(block: string): seq<string>
  {
    match EntryBody(block, "category")
    case None => []
    case Some(inner) => Filter(FindAll(inner, Bare(Run(WordC))), NotConnective)
  }

  /** `'name' in block and 'name = yes' in block`. */
  predicate YesFlag(block: string, name: string)
  {
    Contains(block, name) && Contains(block, name + " = yes")
  }

  /** The first match of `prereqfor_desc\s*=\s*\{`. */
  function PrereqforHit(block: string): Option<Hit>
  {
    Search(block, Assign("prereqfor_desc", Open))
  }

  /** `prereqfor_desc\s*=\s*\{`, then the balanced block from its brace. */
  function PrereqforBlock(block: string): Option<string>
  {
    match PrereqforHit(block)
    case None => None
    case Some(h) => BlockAt(block, h.end - 1)
  }

  /** The `prereqfor_desc` dictionary and `has_unlocks`. */
  function UnlocksOf(block: string): (PrereqforDesc, bool)
  {
    match PrereqforBlock(block)
    case None => (NoUnlocks, false)
    case Some(b) => (PrereqforDescOf(b), true)
  }

  const ModifierKeyword: string := "modifier"

  /** `^\s+modifier\s*=\s*\{` (multi-line) at `i`: the position after the brace. */
  function ModifierOpenAt(s: string, i: nat): (r: Option<nat>)
    requires i <= |s|
    ensures r.Some? ==> i < r.value <= |s| && s[r.value - 1] == '{'
  {
    var j := RunEnd(s, i, IsSpace);
    if LineStart(s, i) && i < j && OccursAt(s, ModifierKeyword, j) then OpenEnd(s, j + |ModifierKeyword|)
    else None
  }

  /** The leftmost match from `i`. */
  function ModifierOpenFrom(s: string, i: nat): (r: Option<nat>)
    requires i <= |s|
    ensures r.Some? ==> 0 < r.value <= |s| && s[r.value - 1] == '{'
    decreases |s| - i
  {
    match ModifierOpenAt(s, i)
    case Some(e) => Some(e)
    case None => if i == |s| then None else ModifierOpenFrom(s, i + 1)
  }

  /** `d[key] = float(value)` for each pair in turn, a pair whose number
      `ok` rejects skipped. */
  function StoreNumbers(pairs: seq<(string, string)>, ok: string -> bool): Assoc<string>
    decreases |pairs|
  {
    if |pairs| == 0 then []
    else
      var rest := StoreNumbers(pairs[..|pairs| - 1], ok);
      var (k, n) := pairs[|pairs| - 1];
      if ok(n) then Put(rest, k, n) else rest
  }

  /** The pairs of the balanced block opened by the first indented `modifier = {`. */
  function ModifierBlock(block: string): Option<string>
  {
    match ModifierOpenFrom(block, 0)
    case None => None
    case Some(e) => BlockAt(block, e - 1)
  }

  function DirectModifiersOf(block: string): Assoc<string>
  {
    match ModifierBlock(block)
    case None => []
    case Some(mb) => StoreNumbers(KeyNumbersFrom(mb, 0, true), FloatLiteral)
  }

  /** `_parse_tech_block`, or None when the `float()` of the weight raises. */
  function TechBlockData(techId: string, block: string, sourceFile: string): Option<SuppTech>
  {
    match WeightOf(block)
    case None => None
    case Some(weight) =>
      var unlocks := UnlocksOf(block);
      Some(SuppTech(techId, sourceFile, PrerequisitesOf(block), AreaOf(techId, block),
                    IntField(block, "tier", 1), IntField(block, "cost", 0), weight, CategoryOf(block),
                    YesFlag(block, "is_rare"), YesFlag(block, "is_dangerous"),
                    !Contains(block, "is_reverse_engineerable = no"), YesFlag(block, "start_tech"),
                    unlocks.0, unlocks.1, DirectModifiersOf(block)))
  }

  /** A field missing from the block takes its default (tier 1, cost 0,
      weight 1), and only a weight that `float()` rejects makes the block fail. */
  lemma MissingFieldDefaults(techId: string, block: string, sourceFile: string)
    ensures !Contains(block, "weight") ==>
      TechBlockData(techId, block, sourceFile).Some? && TechBlockData(techId, block, sourceFile).value.weight == DefaultWeight
    ensures TechBlockData(techId, block, sourceFile).Some? ==>
      var t := TechBlockData(techId, block, sourceFile).value;
      t.name == techId && t.sourceFile == sourceFile
      && (!Contains(block, "tier") ==> t.tier == 1)
      && (!Contains(block, "cost") ==> t.cost == 0)
  {
    if !Contains(block, "weight") {
      AssignNeedsKeyword(block, "weight", Run(NumberC));
    }
    if !Contains(block, "tier") {
      AssignNeedsKeyword(block, "tier", Run(DigitC));
    }
    if !Contains(block, "cost") {
      AssignNeedsKeyword(block, "cost", Run(DigitC));
    }
  }

  /** A field written `kw = n` is read back as `n`. */
  lemma IntFieldShown(kw: string, n: nat, default: nat)
    ensures IntField(kw + " = " + ShowNat(n), kw, default) == n
  {
    var d := ShowNat(n);
    DigitsAssignHit(kw, d);
    ShowNatValue(n);
  }

  /** `kw = d` with `d` a run of digits matches the field pattern at its start. */
  lemma DigitsAssignHit(kw: string, d: string)
    requires |d| > 0 && forall m :: 0 <= m < |d| ==> InClass(d[m], DigitC)
    ensures HitAt(kw + " = " + d, 0, Assign(kw, Run(DigitC))) == Some(Hit(0, d, |kw| + 3 + |d|))
  {
    var s := kw + " = " + d;
    var b := |kw| + 3;
    assert s[..|kw|] == kw;
    assert s[|kw|] == ' ' && s[|kw| + 1] == '=' && s[|kw| + 2] == ' ' && s[b] == d[0];
    assert RunEnd(s, |kw|, IsSpace) == |kw| + 1;
    assert RunEnd(s, |kw| + 2, IsSpace) == b;
    assert AssignEnd(s, |kw|) == Some(b);
    forall m | b <= m < |s| ensures InClass(s[m], DigitC) {
      assert s[m] == d[m - b];
    }
    assert ClassEnd(s, b, DigitC) == |s|;
    assert s[b..|s|] == d;
    assert ValueAt(s, b, Run(DigitC)) == Some((d, |s| as nat));
    assert OccursAt(s, kw, 0);
  }

  /** The area is always a non-empty word: the `area` value when there is
      one, else decided by the id prefix. */
  lemma AreaSpec(techId: string, block: string)
    ensures var a := AreaOf(techId, block); a != "" && forall m :: 0 <= m < |a| ==> IsWordChar(a[m])
    ensures !Contains(block, "area") && StartsWith(techId, "tech_physics") ==> AreaOf(techId, block) == "physics"
    ensures !Contains(block, "area") && StartsWith(techId, "tech_engineering") ==> AreaOf(techId, block) == "engineering"
    ensures !Contains(block, "area") && StartsWith(techId, "tech_society") ==> AreaOf(techId, block) == "society"
    ensures (!Contains(block, "area") && !StartsWith(techId, "tech_physics")
             && !StartsWith(techId, "tech_engineering") && !StartsWith(techId, "tech_society"))
            ==> AreaOf(techId, block) == "unknown"
  {
    SearchCaptures(block, Assign("area", Run(WordC)));
    if !Contains(block, "area") {
      AssignNeedsKeyword(block, "area", Run(WordC));
    }
    if StartsWith(techId, "tech_engineering") {
      assert techId[5] == 'e';
    }
    if StartsWith(techId, "tech_society") {
      assert techId[5] == 's';
    }
  }

  /** Category tokens are words other than OR, AND and NOT; no category block, no categories. */
  lemma CategorySpec(block: string)
    ensures forall c :: c in CategoryOf(block) ==>
      NotConnective(c) && c != "" && forall m :: 0 <= m < |c| ==> IsWordChar(c[m])
    ensures !Contains(block, "category") ==> CategoryOf(block) == []
  {
    if !Contains(block, "category") {
      AssignNeedsKeyword(block, "category", Braced);
    }
    var inner := EntryBody(block, "category");
    if inner.Some? {
      FindAllCaptures(inner.value, Bare(Run(WordC)));
    }
  }

  /** Prerequisites are `tech_` ids; no prerequisites block, no prerequisites. */
  lemma PrerequisitesSpec(block: string)
    ensures forall p :: p in PrerequisitesOf(block) ==>
      |p| > 5 && StartsWith(p, "tech_") && forall m :: 0 <= m < |p| ==> IsWordChar(p[m])
    ensures !Contains(block, "prerequisites") ==> PrerequisitesOf(block) == []
  {
    if !Contains(block, "prerequisites") {
      AssignNeedsKeyword(block, "prerequisites", Braced);
    }
    var inner := EntryBody(block, "prerequisites");
    if inner.Some? {
      FindAllCaptures(inner.value, Bare(QuotedTech));
      forall p | p in PrerequisitesOf(block)
        ensures |p| > 5 && StartsWith(p, "tech_") && forall m :: 0 <= m < |p| ==> IsWordChar(p[m])
      {
        assert Captures(QuotedTech, p);
      }
    }
  }

  /** The first test of a flag is implied by the second. */
  lemma YesFlagSpec(block: string, name: string)
    ensures YesFlag(block, name) <==> Contains(block, name + " = yes")
  {
    if Contains(block, name + " = yes") {
      assert (name + " = yes")[..|name|] == name;
      ContainsAt(name + " = yes", name, 0);
      ContainsTransitive(block, name + " = yes", name);
    }
  }

  /** `has_unlocks` holds exactly when a balanced `prereqfor_desc` block was
      extracted; otherwise the dictionary stays empty. */
  lemma UnlocksSpec(block: string)
    ensures UnlocksOf(block).1 <==> PrereqforBlock(block).Some?
    ensures PrereqforBlock(block).Some? ==>
      var b := PrereqforBlock(block).value;
      |b| > 0 && b[0] == '{' && b[|b| - 1] == '}' && Net(b) == 0
    ensures !UnlocksOf(block).1 ==> UnlocksOf(block).0 == NoUnlocks
    ensures !Contains(block, "prereqfor_desc") ==> !UnlocksOf(block).1
  {
    if !Contains(block, "prereqfor_desc") {
      AssignNeedsKeyword(block, "prereqfor_desc", Open);
    }
    var h := Search(block, Assign("prereqfor_desc", Open));
    if h.Some? {
      OpenHitBrace(block, h.value.start, "prereqfor_desc");
    }
  }

  /** The last pair with key `k` whose number `ok` accepts is pair `i`. */
  predicate LastValid(pairs: seq<(string, string)>, ok: string -> bool, i: int, k: string, n: string)
  {
    0 <= i < |pairs| && pairs[i] == (k, n) && ok(n)
    && forall j :: i < j < |pairs| && pairs[j].0 == k ==> !ok(pairs[j].1)
  }

  /** The pairs that decide key `k`: those carrying it with an accepted number. */
  predicate Decides(pairs: seq<(string, string)>, ok: string -> bool, i: int, k: string)
  {
    0 <= i < |pairs| && pairs[i].0 == k && ok(pairs[i].1)
  }

  /** A pair that does not decide `k` leaves what is stored under `k` alone. */
  lemma StoreNumbersOther(pairs: seq<(string, string)>, ok: string -> bool, k: string)
    requires |pairs| > 0 && !Decides(pairs, ok, |pairs| - 1, k)
    ensures Get(StoreNumbers(pairs, ok), k) == Get(StoreNumbers(pairs[..|pairs| - 1], ok), k)
  {
    var last := pairs[|pairs| - 1];
    if ok(last.1) {
      PutOther(StoreNumbers(pairs[..|pairs| - 1], ok), last.0, last.1, k);
    }
  }

  /** A key is stored exactly when some pair carries it with an accepted number. */
  lemma {:induction false} StoreNumbersHas(pairs: seq<(string, string)>, ok: string -> bool, k: string)
    ensures Get(StoreNumbers(pairs, ok), k).Some? <==> exists i :: Decides(pairs, ok, i, k)
    decreases |pairs|
  {
    if |pairs| > 0 {
      var n := |pairs| - 1;
      var p := pairs[..n];
      StoreNumbersHas(p, ok, k);
      if Decides(pairs, ok, n, k) {
        assert Get(StoreNumbers(pairs, ok), k).Some?;
      } else {
        StoreNumbersOther(pairs, ok, k);
        DecidesPrefix(pairs, p, ok, k);
      }
    }
  }

  lemma DecidesPrefix(pairs: seq<(string, string)>, p: seq<(string, string)>, ok: string -> bool, k: string)
    requires |pairs| > 0 && p == pairs[..|pairs| - 1] && !Decides(pairs, ok, |pairs| - 1, k)
    ensures (exists i :: Decides(pairs, ok, i, k)) <==> (exists i :: Decides(p, ok, i, k))
  {
    if exists i :: Decides(pairs, ok, i, k) {
      var i :| Decides(pairs, ok, i, k);
      assert Decides(p, ok, i, k);
    }
    if exists i :: Decides(p, ok, i, k) {
      var i :| Decides(p, ok, i, k);
      assert Decides(pairs, ok, i, k);
    }
  }

  /** The value stored under a key is the number of the last pair that decides it. */
  lemma {:induction false} StoreNumbersLast(pairs: seq<(string, string)>, ok: string -> bool, k: string)
    requires Get(StoreNumbers(pairs, ok), k).Some?
    ensures exists i :: LastValid(pairs, ok, i, k, Get(StoreNumbers(pairs, ok), k).value)
    decreases |pairs|
  {
    assert |pairs| > 0;
    var n := |pairs| - 1;
    var p := pairs[..n];
    if Decides(pairs, ok, n, k) {
      StoreNumbersDecided(pairs, ok, k);
      assert LastValid(pairs, ok, n, k, pairs[n].1);
    } else {
      StoreNumbersOther(pairs, ok, k);
      StoreNumbersLast(p, ok, k);
      var v := Get(StoreNumbers(p, ok), k).value;
      var i :| LastValid(p, ok, i, k, v);
      LastValidSnoc(pairs, ok, i, k, v);
    }
  }

  /** A pair that decides `k` stores its number under `k`. */
  lemma StoreNumbersDecided(pairs: seq<(string, string)>, ok: string -> bool, k: string)
    requires |pairs| > 0 && Decides(pairs, ok, |pairs| - 1, k)
    ensures Get(StoreNumbers(pairs, ok), k) == Some(pairs[|pairs| - 1].1)
  {
  }

  /** The last deciding pair stays the last one after a pair that does not decide. */
  lemma LastValidSnoc(pairs: seq<(string, string)>, ok: string -> bool, i: int, k: string, v: string)
    requires |pairs| > 0 && !Decides(pairs, ok, |pairs| - 1, k)
    requires LastValid(pairs[..|pairs| - 1], ok, i, k, v)
    ensures LastValid(pairs, ok, i, k, v)
  {
  }

  /** The key/value loop over the modifier block, with its `continue` on a rejected number. */
  method CollectDirectModifiers(modBlock: string) returns (mods: Assoc<string>)
    ensures mods == StoreNumbers(KeyNumbersFrom(modBlock, 0, true), FloatLiteral)
  {
    var pairs := KeyNumbersFrom(modBlock, 0, true);
    mods := [];
    for i := 0 to |pairs|
      invariant mods == StoreNumbers(pairs[..i], FloatLiteral)
    {
      assert pairs[..i + 1][..i] == pairs[..i];
      var (modifierKey, text) := pairs[i];
      if !FloatLiteral(text) {
        continue;
      }
      mods := Put(mods, modifierKey, text);
    }
    assert pairs[..|pairs|] == pairs;
  }

  /** The `prereqfor_desc` branch of `_parse_tech_block`. */
  method ReadUnlocks(block: string) returns (desc: PrereqforDesc, hasUnlocks: bool)
    ensures (desc, hasUnlocks) == UnlocksOf(block)
  {
    desc, hasUnlocks := NoUnlocks, false;
    var prereqforMatch := PrereqforHit(block);
    if prereqforMatch.Some? {
      var prereqBlock := ExtractBlock(block, prereqforMatch.value.end - 1);
      assert prereqBlock == PrereqforBlock(block);
      if prereqBlock.Some? {
        desc := ParsePrereqforDesc(prereqBlock.value);
        hasUnlocks := true;
      }
    } else {
      assert PrereqforBlock(block).None?;
    }
  }

  /** The direct-modifier branch of `_parse_tech_block`. */
  method ReadDirectModifiers(block: string) returns (mods: Assoc<string>)
    ensures mods == DirectModifiersOf(block)
  {
    mods := [];
    var modifierMatch := ModifierOpenFrom(block, 0);
    if modifierMatch.Some? {
      var modBlock := ExtractBlock(block, modifierMatch.value - 1);
      if modBlock.Some? {
        mods := CollectDirectModifiers(modBlock.value);
      }
    }
  }

  /** `_parse_tech_block`: the dictionary is filled field by field. */
  method ParseTechBlock(techId: string, block: string, sourceFile: string) returns (data: Option<SuppTech>)
    ensures data == TechBlockData(techId, block, sourceFile)
  {
    var d := SuppTech(techId, sourceFile, [], "", 0, 0, DefaultWeight, [], false, false, false, false,
                      NoUnlocks, false, []);
    d := d.(area := AreaOf(techId, block));
    d := d.(tier := IntField(block, "tier", 1));
    d := d.(cost := IntField(block, "cost", 0));
    var weightMatch := SearchValue(block, Assign("weight", Run(NumberC)));
    if weightMatch.Some? {
      if !FloatLiteral(weightMatch.value) {
        return None;
      }
      d := d.(weight := WeightLiteral(weightMatch.value));
    }
    d := d.(prerequisites := PrerequisitesOf(block));
    d := d.(category := CategoryOf(block));
    d := d.(isRare := YesFlag(block, "is_rare"));
    d := d.(isDangerous := YesFlag(block, "is_dangerous"));
    d := d.(isReverseEngineerable := !Contains(block, "is_reverse_engineerable = no"));
    d := d.(startTech := YesFlag(block, "start_tech"));
    var desc, hasUnlocks := ReadUnlocks(block);
    d := d.(prereqforDesc := desc, hasUnlocks := hasUnlocks);
    var mods := ReadDirectModifiers(block);
    d := d.(directModifiers := mods);
    return Some(d);
  }

  // ---------------------------------------------------------------------
  // `_parse_tech_file`

  /** `^[\s]*(tech_[a-zA-Z0-9_]+)\s*=\s*\{` (multi-line). */
  const TechHeader: Pattern := Header(TechRun, true)

  predicate HitsEndAfterStart(hits: seq<Hit>)
  {
    forall k :: 0 <= k < |hits| ==> 0 < hits[k].end
  }

  /** The techs parsed from the header hits of `content`: a hit whose block
      never closes is skipped, and a block whose weight `float()` rejects
      ends the file (the exception is caught around the whole loop). */
  function TechsOfHits(content: string, hits: seq<Hit>, sourceFile: string): seq<SuppTech>
    requires HitsEndAfterStart(hits)
  {
    if |hits| == 0 then []
    else match BlockAt(content, hits[0].end - 1)
      case None => TechsOfHits(content, hits[1..], sourceFile)
      case Some(block) =>
        match TechBlockData(hits[0].value, block, sourceFile)
        case None => []
        case Some(t) => [t] + TechsOfHits(content, hits[1..], sourceFile)
  }

  function TechsOfFile(text: string, sourceFile: string): seq<SuppTech>
  {
    var content := StripComments(text);
    TechsOfHits(content, FindAllFrom(content, 0, TechHeader), sourceFile)
  }

  lemma TechsOfHitsSkip(content: string, hits: seq<Hit>, i: nat, sourceFile: string)
    requires HitsEndAfterStart(hits) && i < |hits|
    requires BlockAt(content, hits[i].end - 1).None?
    ensures TechsOfHits(content, hits[i..], sourceFile) == TechsOfHits(content, hits[i + 1..], sourceFile)
  {
    assert hits[i..][1..] == hits[i + 1..];
  }

  lemma TechsOfHitsTake(content: string, hits: seq<Hit>, i: nat, sourceFile: string, t: SuppTech)
    requires HitsEndAfterStart(hits) && i < |hits|
    requires BlockAt(content, hits[i].end - 1).Some?
    requires TechBlockData(hits[i].value, BlockAt(content, hits[i].end - 1).value, sourceFile) == Some(t)
    ensures TechsOfHits(content, hits[i..], sourceFile) == [t] + TechsOfHits(content, hits[i + 1..], sourceFile)
  {
    assert hits[i..][1..] == hits[i + 1..];
  }

  lemma TechsOfHitsStop(content: string, hits: seq<Hit>, i: nat, sourceFile: string)
    requires HitsEndAfterStart(hits) && i < |hits|
    requires BlockAt(content, hits[i].end - 1).Some?
    requires TechBlockData(hits[i].value, BlockAt(content, hits[i].end - 1).value, sourceFile).None?
    ensures TechsOfHits(content, hits[i..], sourceFile) == []
  {
  }

  /** Every tech of a file is named by its header's `tech_` id, records the
      file, and no header gives more than one tech. */
  lemma {:induction false} TechsOfHitsNames(content: string, hits: seq<Hit>, sourceFile: string)
    requires HitsEndAfterStart(hits)
    requires forall k :: 0 <= k < |hits| ==> Captures(TechRun, hits[k].value)
    ensures |TechsOfHits(content, hits, sourceFile)| <= |hits|
    ensures forall t :: t in TechsOfHits(content, hits, sourceFile) ==>
      StartsWith(t.name, "tech_") && t.sourceFile == sourceFile && exists k :: 0 <= k < |hits| && hits[k].value == t.name
  {
    if |hits| > 0 {
      TechsOfHitsNames(content, hits[1..], sourceFile);
      var r := TechsOfHits(content, hits, sourceFile);
      forall t | t in r
        ensures StartsWith(t.name, "tech_") && t.sourceFile == sourceFile && exists k :: 0 <= k < |hits| && hits[k].value == t.name
      {
        if t !in TechsOfHits(content, hits[1..], sourceFile) {
          var b := BlockAt(content, hits[0].end - 1).value;
          MissingFieldDefaults(hits[0].value, b, sourceFile);
          assert hits[0].value == t.name;
        } else {
          var k :| 0 <= k < |hits[1..]| && hits[1..][k].value == t.name;
          assert hits[k + 1].value == t.name;
        }
      }
    }
  }

  lemma TechsOfFileNames(text: string, sourceFile: string)
    ensures forall t :: t in TechsOfFile(text, sourceFile) ==>
      StartsWith(t.name, "tech_") && t.sourceFile == sourceFile
  {
    var content := StripComments(text);
    var hits := FindAllFrom(content, 0, TechHeader);
    forall k | 0 <= k < |hits| ensures Captures(TechRun, hits[k].value) {
      HeaderCaptures(content, hits[k].start, TechRun, true);
    }
    TechsOfHitsNames(content, hits, sourceFile);
  }

  /** `_parse_tech_file` on a file's text. */
  method ParseTechFile(text: string, sourceFile: string) returns (techs: seq<SuppTech>)
    ensures techs == TechsOfFile(text, sourceFile)
  {
    var content := StripComments(text);
    var hits := FindAllFrom(content, 0, TechHeader);
    techs := ParseHits(content, hits, sourceFile);
  }

  /** The loop over the header matches, inside the `try`. */
  method ParseHits(content: string, hits: seq<Hit>, sourceFile: string) returns (techs: seq<SuppTech>)
    requires HitsEndAfterStart(hits)
    ensures techs == TechsOfHits(content, hits, sourceFile)
  {
    techs := [];
    for i := 0 to |hits|
      invariant techs + TechsOfHits(content, hits[i..], sourceFile) == TechsOfHits(content, hits, sourceFile)
    {
      var stop, found := ParseHit(content, hits, i, sourceFile);
      if stop {
        assert techs == TechsOfHits(content, hits, sourceFile);
        return;
      }
      AppendAssoc(techs, found, TechsOfHits(content, hits[i + 1..], sourceFile));
      techs := techs + found;
    }
    assert hits[|hits|..] == [];
  }

  /** One turn of the loop: the hit's block is skipped when it never closes,
      ends the file when its weight is rejected, and otherwise gives one tech. */
  method ParseHit(content: string, hits: seq<Hit>, i: nat, sourceFile: string)
    returns (stop: bool, found: seq<SuppTech>)
    requires HitsEndAfterStart(hits) && i < |hits|
    ensures stop ==> TechsOfHits(content, hits[i..], sourceFile) == []
    ensures !stop ==> TechsOfHits(content, hits[i..], sourceFile) == found + TechsOfHits(content, hits[i + 1..], sourceFile)
    ensures |found| <= 1
  {
    var techBlock := ExtractBlock(content, hits[i].end - 1);
    if techBlock.None? {
      TechsOfHitsSkip(content, hits, i, sourceFile);
      return false, [];
    }
    var techData := ParseTechBlock(hits[i].value, techBlock.value, sourceFile);
    if techData.None? {
      TechsOfHitsStop(content, hits, i, sourceFile);
      return true, [];
    }
    TechsOfHitsTake(content, hits, i, sourceFile, techData.value);
    return false, [techData.value];
  }
}
