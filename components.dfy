/** update/component_parser.py: reads the ship component templates of the
    game files and links each component to the technologies that unlock it.
    Its `_extract_block` is Scan.ExtractBlock, and each regular expression
    is the Scan pattern written beside it. Numbers stay as the text that
    `float()` was given. */
module Components {
  import opened Wrappers
  import opened Seqs
  import opened Text
  import opened Scan
  import Supplemental

  // ---------------------------------------------------------------------
  // `_parse_component_block`

  /** The dictionary a component block gives; an absent optional key is None. */
  datatype Component = Component(
    componentType: string,
    key: string,
    size: Option<string>,
    power: Option<string>,
    prerequisites: seq<string>,
    modifiers: Assoc<string>,
    cost: Assoc<string>,
    upkeep: Assoc<string>,
    damage: Option<(string, string)>,
    windup: Option<string>,
    cooldown: Option<string>)

  /** What `_parse_component_block` does with a block: returns None (no
      key), raises (a `float()` rejects a number), or returns the data. */
  datatype BlockResult = NoKey | Raises | Parsed(component: Component)

  /** `key\s*=\s*"([^"]+)"` */
  const KeyPattern: Pattern := Assign("key", Quoted(""))

  /** `size\s*=\s*(\w+)` */
  function SizeOf(block: string): Option<string>
  {
    SearchValue(block, Assign("size", Run(WordC)))
  }

  /** `power\s*=\s*([-\d.]+)` */
  function PowerOf(block: string): Option<string>
  {
    SearchValue(block, Assign("power", Run(SignedC)))
  }

  predicate IsTechId(id: string)
  {
    StartsWith(id, "tech_")
  }

  /** The `tech_` ids among `"?([a-zA-Z_0-9]+)"?` inside
      `prerequisites\s*=\s*\{([^}]+)\}`. */
  function PrerequisitesOf(block: string): seq<string>
  {
    match SearchValue(block, Assign("prerequisites", Braced))
    case None => []
    case Some(inner) => Filter(FindAll(inner, Bare(OptQuoted(WordC))), IsTechId)
  }

  const ModifierKeyword: string := "modifier"

  /** `(?:^|\n)\s+modifier\s*=\s*\{` (multi-line) at `i`: the position after the brace. */
  function ModifierOpenAt(s: string, i: nat): (r: Option<nat>)
    requires i <= |s|
    ensures r.Some? ==> i < r.value <= |s| && s[r.value - 1] == '{'
  {
    if LineStart(s, i) || (i < |s| && s[i] == '\n') then
      var a := if LineStart(s, i) then i else i + 1;
      var j := RunEnd(s, a, IsSpace);
      if a < j && OccursAt(s, ModifierKeyword, j) then OpenEnd(s, j + |ModifierKeyword|) else None
    else None
  }

  /** The leftmost match from `i`. */
  function ModifierOpenFrom(s: string, i: nat): (r: Option<nat>)
    requires i <= |s|
    ensures r.Some? ==> 0 < r.value <= |s| && s[r.value - 1] == '{'
    decreases |s| - i
  {
    match ModifierOpenAt(s, i)
    case Some(e) => Some(e)
    case None => if i == |s| then None else ModifierOpenFrom(s, i + 1)
  }

  /** The `(\w+)\s*=\s*([-+]?[\d.]+)` pairs of the modifier block, in order. */
  function ModifierPairs(block: string): seq<(string, string)>
  {
    match ModifierOpenFrom(block, 0)
    case None => []
    case Some(e) =>
      match BlockAt(block, e - 1)
      case None => []
      case Some(mb) => KeyNumbersFrom(mb, 0, true)
  }

  /** The balanced block opened by `resources\s*=\s*\{`. */
  function ResourceBlock(block: string): Option<string>
  {
    match Search(block, Assign("resources", Open))
    case None => None
    case Some(h) => BlockAt(block, h.end - 1)
  }

  /** The `(\w+)\s*=\s*([\d.]+)` pairs inside `kw\s*=\s*\{([^}]+)\}` of the
      resources block. */
  function ResourcePairs(block: string, kw: string): seq<(string, string)>
  {
    match ResourceBlock(block)
    case None => []
    case Some(rb) =>
      match SearchValue(rb, Assign(kw, Braced))
      case None => []
      case Some(inner) => KeyNumbersFrom(inner, 0, false)
  }

  predicate NumberRun(t: string)
  {
    |t| > 0 && forall m :: 0 <= m < |t| ==> InClass(t[m], NumberC)
  }

  /** `damage\s*=\s*\{\s*min\s*=\s*([\d.]+)\s+max\s*=\s*([\d.]+)` at `i`: an
      opening assignment, then after optional space the `min` assignment,
      then after at least one space the `max` assignment. */
  function DamageAt(s: string, i: nat): (r: Option<(string, string)>)
    requires i <= |s|
    ensures r.Some? ==> NumberRun(r.value.0) && NumberRun(r.value.1)
  {
    match HitAt(s, i, Assign("damage", Open))
    case None => None
    case Some(d) =>
      var c := RunEnd(s, d.end, IsSpace);
      match HitAt(s, c, Assign("min", Run(NumberC)))
      case None => None
      case Some(lo) =>
        var f := RunEnd(s, lo.end, IsSpace);
        if lo.end < f then
          match HitAt(s, f, Assign("max", Run(NumberC)))
          case None => None
          case Some(hi) =>
            HitCaptures(s, c, Assign("min", Run(NumberC)));
            HitCaptures(s, f, Assign("max", Run(NumberC)));
            Some((lo.value, hi.value))
        else None
  }

  /** The leftmost match from `i`. */
  function DamageFrom(s: string, i: nat): (r: Option<(string, string)>)
    requires i <= |s|
    ensures r.Some? ==> NumberRun(r.value.0) && NumberRun(r.value.1)
    decreases |s| - i
  {
    match DamageAt(s, i)
    case Some(d) => Some(d)
    case None => if i == |s| then None else DamageFrom(s, i + 1)
  }

  /** `windup\s*=\s*([\d.]+)` */
  function WindupOf(block: string): Option<string>
  {
    SearchValue(block, Assign("windup", Run(NumberC)))
  }

  /** `cooldown\s*=\s*([\d.]+)` */
  function CooldownOf(block: string): Option<string>
  {
    SearchValue(block, Assign("cooldown", Run(NumberC)))
  }

  predicate OptFloat(t: Option<string>)
  {
    t.None? || FloatLiteral(t.value)
  }

  predicate PairsFloat(pairs: seq<(string, string)>)
  {
    forall i :: 0 <= i < |pairs| ==> FloatLiteral(pairs[i].1)
  }

  /** Every `float()` the block parser calls accepts its text. */
  predicate NumbersValid(block: string)
  {
    && OptFloat(PowerOf(block))
    && PairsFloat(ModifierPairs(block))
    && PairsFloat(ResourcePairs(block, "cost"))
    && PairsFloat(ResourcePairs(block, "upkeep"))
    && (DamageFrom(block, 0).None? || (FloatLiteral(DamageFrom(block, 0).value.0) && FloatLiteral(DamageFrom(block, 0).value.1)))
    && OptFloat(WindupOf(block))
    && OptFloat(CooldownOf(block))
  }

  /** A dictionary filled pair by pair, a later pair overwriting an earlier
      one with the same key. */
  function Dict(pairs: seq<(string, string)>): Assoc<string>
  {
    Supplemental.StoreNumbers(pairs, FloatLiteral)
  }

  /** The data of a block whose key is `key` and whose numbers are valid. */
  function ComponentData(block: string, componentType: string, key: string): Component
  {
    Component(componentType, key, SizeOf(block), PowerOf(block), PrerequisitesOf(block),
              Dict(ModifierPairs(block)), Dict(ResourcePairs(block, "cost")),
              Dict(ResourcePairs(block, "upkeep")), DamageFrom(block, 0),
              WindupOf(block), CooldownOf(block))
  }

  function ComponentBlockOf(block: string, componentType: string): BlockResult
  {
    match SearchValue(block, KeyPattern)
    case None => NoKey
    case Some(key) => if !NumbersValid(block) then Raises else Parsed(ComponentData(block, componentType, key))
  }

  /** A block without `key` is skipped, and a block with a key raises
      exactly when one of its numbers is malformed. */
  lemma ComponentBlockOutcome(block: string, componentType: string)
    ensures !Contains(block, "key") ==> ComponentBlockOf(block, componentType) == NoKey
    ensures ComponentBlockOf(block, componentType).Raises? <==> SearchValue(block, KeyPattern).Some? && !NumbersValid(block)
    ensures ComponentBlockOf(block, componentType).Parsed? <==> SearchValue(block, KeyPattern).Some? && NumbersValid(block)
  {
    if !Contains(block, "key") {
      AssignNeedsKeyword(block, "key", Quoted(""));
    }
  }

  /** A found key is non-empty and has no quote. */
  lemma KeySpec(block: string)
    requires SearchValue(block, KeyPattern).Some?
    ensures var key := SearchValue(block, KeyPattern).value;
      key != "" && forall m :: 0 <= m < |key| ==> key[m] != '"'
  {
    SearchCaptures(block, KeyPattern);
  }

  /** A parsed component carries its template type, a non-empty quote-free
      key and only `tech_` prerequisites. */
  lemma ComponentBlockSpec(block: string, componentType: string, c: Component)
    requires ComponentBlockOf(block, componentType) == Parsed(c)
    ensures c.componentType == componentType
    ensures c.key != "" && forall m :: 0 <= m < |c.key| ==> c.key[m] != '"'
    ensures forall p :: p in c.prerequisites ==> StartsWith(p, "tech_") && forall m :: 0 <= m < |p| ==> IsWordChar(p[m])
  {
    var key := SearchValue(block, KeyPattern).value;
    assert c == ComponentData(block, componentType, key);
    KeySpec(block);
    PrerequisitesSpec(block);
  }

  /** Prerequisites are the `tech_` words of the block; no block, none. */
  lemma PrerequisitesSpec(block: string)
    ensures forall p :: p in PrerequisitesOf(block) ==>
      StartsWith(p, "tech_") && forall m :: 0 <= m < |p| ==> IsWordChar(p[m])
    ensures !Contains(block, "prerequisites") ==> PrerequisitesOf(block) == []
  {
    if !Contains(block, "prerequisites") {
      AssignNeedsKeyword(block, "prerequisites", Braced);
    }
    var inner := SearchValue(block, Assign("prerequisites", Braced));
    if inner.Some? {
      FindAllCaptures(inner.value, Bare(OptQuoted(WordC)));
      forall p | p in PrerequisitesOf(block)
        ensures StartsWith(p, "tech_") && forall m :: 0 <= m < |p| ==> IsWordChar(p[m])
      {
        assert Captures(OptQuoted(WordC), p);
      }
    }
  }

  /** A dictionary holds a key exactly when some pair carries it, and then
      the number of the last such pair. */
  lemma DictSpec(pairs: seq<(string, string)>, k: string)
    requires PairsFloat(pairs)
    ensures Get(Dict(pairs), k).Some? <==> exists i :: 0 <= i < |pairs| && pairs[i].0 == k
    ensures Get(Dict(pairs), k).Some? ==>
      exists i :: 0 <= i < |pairs| && pairs[i] == (k, Get(Dict(pairs), k).value)
                  && forall j :: i < j < |pairs| ==> pairs[j].0 != k
  {
    Supplemental.StoreNumbersHas(pairs, FloatLiteral, k);
    if exists i :: 0 <= i < |pairs| && pairs[i].0 == k {
      var i :| 0 <= i < |pairs| && pairs[i].0 == k;
      assert Supplemental.Decides(pairs, FloatLiteral, i, k);
    }
    if Get(Dict(pairs), k).Some? {
      Supplemental.StoreNumbersLast(pairs, FloatLiteral, k);
      var i :| Supplemental.LastValid(pairs, FloatLiteral, i, k, Get(Dict(pairs), k).value);
      assert forall j :: i < j < |pairs| ==> pairs[j].0 != k;
    }
  }

  lemma PairsFloatSnoc(pairs: seq<(string, string)>, i: nat)
    requires i < |pairs| && PairsFloat(pairs[..i]) && FloatLiteral(pairs[i].1)
    ensures PairsFloat(pairs[..i + 1]) && pairs[..i + 1][..i] == pairs[..i]
  {
    assert forall j :: 0 <= j < i ==> pairs[..i][j] == pairs[j];
  }

  /** `float()` of each number of `pairs` in turn, stored under its key;
      `ok` is false when one raises. */
  method ReadNumbers(pairs: seq<(string, string)>) returns (d: Assoc<string>, ok: bool)
    ensures ok <==> PairsFloat(pairs)
    ensures ok ==> d == Dict(pairs)
  {
    d := [];
    for i := 0 to |pairs|
      invariant PairsFloat(pairs[..i])
      invariant d == Dict(pairs[..i])
    {
      var (k, n) := pairs[i];
      if !FloatLiteral(n) {
        assert !FloatLiteral(pairs[i].1);
        return d, false;
      }
      PairsFloatSnoc(pairs, i);
      d := Put(d, k, n);
    }
    assert pairs[..|pairs|] == pairs;
    ok := true;
  }

  /** `_parse_component_block`, its first failing `float()` reported as Raises. */
  method ParseComponentBlock(block: string, componentType: string) returns (r: BlockResult)
    ensures r == ComponentBlockOf(block, componentType)
  {
    var key := SearchValue(block, KeyPattern);
    if key.None? {
      return NoKey;
    }
    var power := PowerOf(block);
    if power.Some? && !FloatLiteral(power.value) {
      return Raises;
    }
    var modifiers, modifiersOk := ReadNumbers(ModifierPairs(block));
    if !modifiersOk {
      return Raises;
    }
    var cost, costOk := ReadNumbers(ResourcePairs(block, "cost"));
    if !costOk {
      return Raises;
    }
    var upkeep, upkeepOk := ReadNumbers(ResourcePairs(block, "upkeep"));
    if !upkeepOk {
      return Raises;
    }
    var damage := DamageFrom(block, 0);
    if damage.Some? && !(FloatLiteral(damage.value.0) && FloatLiteral(damage.value.1)) {
      return Raises;
    }
    var windup := WindupOf(block);
    var cooldown := CooldownOf(block);
    if !OptFloat(windup) || !OptFloat(cooldown) {
      return Raises;
    }
    r := Parsed(Component(componentType, key.value, SizeOf(block), power, PrerequisitesOf(block),
                          modifiers, cost, upkeep, damage, windup, cooldown));
  }

  // ---------------------------------------------------------------------
  // The parser's state: `components` and `tech_components`

  /** `components` (key to data), `tech_components` (tech id to component
      keys) and the count of components stored from the current file. */
  datatype Store = Store(components: Assoc<Component>, links: Assoc<seq<string>>, count: nat)

  /** `tech_components[tech].append(key)` for each tech in turn. */
  function LinkAll(links: Assoc<seq<string>>, techs: seq<string>, key: string): Assoc<seq<string>>
    decreases |techs|
  {
    if |techs| == 0 then links
    else AppendAt(LinkAll(links, techs[..|techs| - 1], key), techs[|techs| - 1], key)
  }

  /** `n` copies of `x`. */
  function Repeat<T>(x: T, n: nat): (r: seq<T>)
    ensures |r| == n && forall i :: 0 <= i < n ==> r[i] == x
  {
    if n == 0 then [] else Repeat(x, n - 1) + [x]
  }

  /** How often `x` occurs in `s`. */
  function Occurrences<T(==)>(s: seq<T>, x: T): nat
  {
    if |s| == 0 then 0 else Occurrences(s[..|s| - 1], x) + (if s[|s| - 1] == x then 1 else 0)
  }

  /** Each tech gains the key once for every time it is listed, at the end
      of its list, and a tech has a list exactly when it had one or is listed. */
  lemma {:induction false} LinkAllSpec(links: Assoc<seq<string>>, techs: seq<string>, key: string, t: string)
    ensures Get(LinkAll(links, techs, key), t).GetOr([]) == Get(links, t).GetOr([]) + Repeat(key, Occurrences(techs, t))
    ensures HasKey(LinkAll(links, techs, key), t) <==> HasKey(links, t) || t in techs
    decreases |techs|
  {
    var g := Get(links, t).GetOr([]);
    if |techs| == 0 {
      assert g + [] == g;
    } else {
      var n := |techs| - 1;
      var p := techs[..n];
      var before := LinkAll(links, p, key);
      LinkAllSpec(links, p, key, t);
      InLast(techs, t);
      if techs[n] == t {
        LinkAllSame(before, p, techs, key, t, g);
      } else {
        assert Get(LinkAll(links, techs, key), t) == Get(before, t);
        assert Occurrences(techs, t) == Occurrences(p, t);
      }
    }
  }

  lemma LinkAllSame(before: Assoc<seq<string>>, p: seq<string>, techs: seq<string>, key: string, t: string, g: seq<string>)
    requires |techs| > 0 && p == techs[..|techs| - 1] && techs[|techs| - 1] == t
    requires Get(before, t).GetOr([]) == g + Repeat(key, Occurrences(p, t))
    ensures Get(AppendAt(before, t, key), t).GetOr([]) == g + Repeat(key, Occurrences(techs, t))
  {
    var rp := Repeat(key, Occurrences(p, t));
    assert Occurrences(techs, t) == Occurrences(p, t) + 1;
    assert Repeat(key, Occurrences(techs, t)) == rp + [key];
    AppendAssoc(g, rp, [key]);
  }

  lemma InLast<T>(s: seq<T>, x: T)
    requires |s| > 0
    ensures x in s <==> x in s[..|s| - 1] || s[|s| - 1] == x
  {
    assert s == s[..|s| - 1] + [s[|s| - 1]];
  }


  lemma {:induction false} OccurrencesAbsent<T>(s: seq<T>, x: T)
    requires x !in s
    ensures Occurrences(s, x) == 0
    decreases |s|
  {
    if |s| > 0 {
      OccurrencesAbsent(s[..|s| - 1], x);
    }
  }

  /** `self.components[key] = data`, `count += 1` and the prerequisite links. */
  function StoreComponent(st: Store, c: Component): Store
  {
    Store(Put(st.components, c.key, c), LinkAll(st.links, c.prerequisites, c.key), st.count + 1)
  }

  /** Every component is stored under its own key, and every linked key
      names a stored component (so `get_components_for_tech` never misses). */
  ghost predicate Consistent(components: Assoc<Component>, links: Assoc<seq<string>>)
  {
    && (forall k :: HasKey(components, k) ==> Get(components, k).value.key == k)
    && (forall t, key :: HasKey(links, t) && key in Get(links, t).value ==> HasKey(components, key))
  }

  /** Storing a component keeps the state consistent. */
  lemma StoreConsistent(st: Store, c: Component)
    requires Consistent(st.components, st.links)
    ensures Consistent(StoreComponent(st, c).components, StoreComponent(st, c).links)
  {
    var st' := StoreComponent(st, c);
    forall k | HasKey(st'.components, k) ensures Get(st'.components, k).value.key == k {
      if k != c.key {
        PutOther(st.components, c.key, c, k);
      }
    }
    forall t, key | HasKey(st'.links, t) && key in Get(st'.links, t).value
      ensures HasKey(st'.components, key)
    {
      LinkAllSpec(st.links, c.prerequisites, c.key, t);
      if key != c.key {
        PutOther(st.components, c.key, c, key);
        var g := Get(st.links, t).GetOr([]);
        var added := Repeat(c.key, Occurrences(c.prerequisites, t));
        assert Get(st'.links, t).value == g + added;
        assert key in g;
        assert HasKey(st.links, t);
      }
    }
  }

  /** Whatever was stored stays stored, and each tech's list only grows at its end. */
  ghost predicate Grows(st: Store, st': Store)
  {
    && (forall k :: HasKey(st.components, k) ==> HasKey(st'.components, k))
    && (forall t :: HasKey(st.links, t) ==> HasKey(st'.links, t) && Get(st.links, t).value <= Get(st'.links, t).value)
    && st.count <= st'.count
  }

  lemma StoreGrows(st: Store, c: Component)
    ensures Grows(st, StoreComponent(st, c))
    ensures HasKey(StoreComponent(st, c).components, c.key)
    ensures forall t :: t in c.prerequisites ==>
      HasKey(StoreComponent(st, c).links, t) && c.key in Get(StoreComponent(st, c).links, t).value
  {
    var st' := StoreComponent(st, c);
    forall k | HasKey(st.components, k) ensures HasKey(st'.components, k) {
      if k != c.key {
        PutOther(st.components, c.key, c, k);
      }
    }
    forall t | HasKey(st.links, t) || t in c.prerequisites
      ensures HasKey(st'.links, t)
      ensures HasKey(st.links, t) ==> Get(st.links, t).value <= Get(st'.links, t).value
      ensures t in c.prerequisites ==> HasKey(st'.links, t) && c.key in Get(st'.links, t).value
    {
      LinkAllSpec(st.links, c.prerequisites, c.key, t);
      var added := Repeat(c.key, Occurrences(c.prerequisites, t));
      assert Get(st'.links, t).value == Get(st.links, t).GetOr([]) + added;
      if t in c.prerequisites {
        OccurrencesPresent(c.prerequisites, t);
        assert Get(st'.links, t).value[|Get(st.links, t).GetOr([])|] == c.key;
      }
    }
  }

  lemma {:induction false} OccurrencesPresent<T>(s: seq<T>, x: T)
    requires x in s
    ensures Occurrences(s, x) > 0
    decreases |s|
  {
    if s[|s| - 1] != x {
      assert x in s[..|s| - 1];
      OccurrencesPresent(s[..|s| - 1], x);
    }
  }

  lemma GrowsTransitive(a: Store, b: Store, c: Store)
    requires Grows(a, b) && Grows(b, c)
    ensures Grows(a, c)
  {
  }

  // ---------------------------------------------------------------------
  // `_parse_component_file`

  /** One template match from `st`: a block that never closes or has no
      key leaves the state alone, a parsed block is stored and counted, and
      a raising block gives None. */
  function HitStep(content: string, h: Hit, st: Store): Option<Store>
    requires 0 < h.end
  {
    match BlockAt(content, h.end - 1)
    case None => Some(st)
    case Some(block) =>
      match ComponentBlockOf(block, h.value)
      case NoKey => Some(st)
      case Raises => None
      case Parsed(c) => Some(StoreComponent(st, c))
  }

  /** The state after the template matches `hits` from `st`; a raising
      block ends the file (the exception is caught around the whole loop)
      keeping what was stored before it. */
  function AfterHits(content: string, hits: seq<Hit>, st: Store): Store
    requires Supplemental.HitsEndAfterStart(hits)
  {
    if |hits| == 0 then st
    else match HitStep(content, hits[0], st)
      case None => st
      case Some(next) => AfterHits(content, hits[1..], next)
  }

  /** The template matches of a file with its comments removed. */
  function TemplateHits(content: string): (r: seq<Hit>)
    ensures Supplemental.HitsEndAfterStart(r)
  {
    var r := FindAllFrom(content, 0, Template);
    assert forall k :: 0 <= k < |r| ==> HitAt(content, r[k].start, Template) == Some(r[k]);
    r
  }

  /** `_parse_component_file` on a file's text from the given state; the
      count starts at zero. */
  function FileStore(components: Assoc<Component>, links: Assoc<seq<string>>, text: string): Store
  {
    var content := StripComments(text);
    AfterHits(content, TemplateHits(content), Store(components, links, 0))
  }

  /** One step keeps what was stored, counts at most one component and
      keeps the state consistent. */
  lemma HitStepGrows(content: string, h: Hit, st: Store)
    requires 0 < h.end && HitStep(content, h, st).Some?
    ensures Grows(st, HitStep(content, h, st).value)
    ensures HitStep(content, h, st).value.count <= st.count + 1
    ensures Consistent(st.components, st.links) ==>
      Consistent(HitStep(content, h, st).value.components, HitStep(content, h, st).value.links)
  {
    var b := BlockAt(content, h.end - 1);
    if b.Some? && ComponentBlockOf(b.value, h.value).Parsed? {
      var c := ComponentBlockOf(b.value, h.value).component;
      StoreGrows(st, c);
      if Consistent(st.components, st.links) {
        StoreConsistent(st, c);
      }
    }
  }

  lemma {:induction false} AfterHitsGrows(content: string, hits: seq<Hit>, st: Store)
    requires Supplemental.HitsEndAfterStart(hits)
    ensures Grows(st, AfterHits(content, hits, st))
    ensures AfterHits(content, hits, st).count <= st.count + |hits|
    ensures Consistent(st.components, st.links) ==>
      Consistent(AfterHits(content, hits, st).components, AfterHits(content, hits, st).links)
    decreases |hits|
  {
    if |hits| > 0 && HitStep(content, hits[0], st).Some? {
      var next := HitStep(content, hits[0], st).value;
      HitStepGrows(content, hits[0], st);
      AfterHitsGrows(content, hits[1..], next);
      GrowsTransitive(st, next, AfterHits(content, hits, st));
    }
  }

  /** A file keeps what was stored before it, keeps the state consistent
      and counts at most one component per template match. */
  lemma FileStoreSpec(components: Assoc<Component>, links: Assoc<seq<string>>, text: string)
    ensures var content := StripComments(text);
      var f := FileStore(components, links, text);
      && Grows(Store(components, links, 0), f)
      && f.count <= |TemplateHits(content)|
      && (Consistent(components, links) ==> Consistent(f.components, f.links))
  {
    var content := StripComments(text);
    AfterHitsGrows(content, TemplateHits(content), Store(components, links, 0));
  }

  lemma AfterHitsStep(content: string, hits: seq<Hit>, i: nat, st: Store)
    requires Supplemental.HitsEndAfterStart(hits) && i < |hits|
    ensures AfterHits(content, hits[i..], st) ==
      match HitStep(content, hits[i], st)
      case None => st
      case Some(next) => AfterHits(content, hits[i + 1..], next)
  {
    assert hits[i..][0] == hits[i];
    assert hits[i..][1..] == hits[i + 1..];
  }

  /** `parse_all_components` over the files' texts in turn: each file
      starts from the state the previous one left, and `count` is the total. */
  function AfterFiles(st: Store, files: seq<string>): Store
    decreases |files|
  {
    if |files| == 0 then st else AfterFiles(FileStep(st, files[0]), files[1..])
  }

  /** One file, its count added to the total so far. */
  function FileStep(st: Store, text: string): Store
  {
    var f := FileStore(st.components, st.links, text);
    Store(f.components, f.links, st.count + f.count)
  }

  lemma AfterFilesStep(st: Store, files: seq<string>, i: nat)
    requires i < |files|
    ensures AfterFiles(st, files[i..]) == AfterFiles(FileStep(st, files[i]), files[i + 1..])
  {
    assert files[i..][0] == files[i];
    assert files[i..][1..] == files[i + 1..];
  }

  /** The components of the given keys, in order. */
  function ComponentsOf(components: Assoc<Component>, keys: seq<string>): (r: seq<Component>)
    requires forall k :: k in keys ==> HasKey(components, k)
    ensures |r| == |keys| && forall i :: 0 <= i < |r| ==> r[i] == Get(components, keys[i]).value
  {
    if |keys| == 0 then [] else [Get(components, keys[0]).value] + ComponentsOf(components, keys[1..])
  }

  // ---------------------------------------------------------------------
  // The parser object

  class ComponentParser {
    var components: Assoc<Component>
    var techComponents: Assoc<seq<string>>

    ghost predicate Valid()
      reads this
    {
      Consistent(components, techComponents)
    }

    /** Both dictionaries start empty. */
    constructor ()
      ensures components == [] && techComponents == []
      ensures Valid()
    {
      components := [];
      techComponents := [];
    }

    /** `self.tech_components[tech].append(key)` for each prerequisite. */
    method LinkTechs(techs: seq<string>, key: string)
      modifies this
      ensures techComponents == LinkAll(old(techComponents), techs, key)
      ensures components == old(components)
    {
      for i := 0 to |techs|
        invariant techComponents == LinkAll(old(techComponents), techs[..i], key)
        invariant components == old(components)
      {
        assert techs[..i + 1][..i] == techs[..i];
        techComponents := AppendAt(techComponents, techs[i], key);
      }
      assert techs[..|techs|] == techs;
    }

    /** Stores a parsed component under its key and links it to its prerequisites. */
    method StoreParsed(c: Component, count: nat) returns (newCount: nat)
      modifies this
      ensures Store(components, techComponents, newCount) == StoreComponent(Store(old(components), old(techComponents), count), c)
    {
      components := Put(components, c.key, c);
      LinkTechs(c.prerequisites, c.key);
      newCount := count + 1;
    }

    /** The body of the loop over the template matches for one match. */
    method ParseHit(content: string, h: Hit, count: nat) returns (newCount: nat, raised: bool)
      requires 0 < h.end
      modifies this
      ensures raised <==> HitStep(content, h, Store(old(components), old(techComponents), count)).None?
      ensures !raised ==> HitStep(content, h, Store(old(components), old(techComponents), count))
                          == Some(Store(components, techComponents, newCount))
      ensures raised ==> newCount == count
      ensures raised ==> unchanged(this)
    {
      newCount, raised := count, false;
      var block := ExtractBlock(content, h.end - 1);
      if block.None? {
        return;
      }
      var data := ParseComponentBlock(block.value, h.value);
      match data
      case NoKey =>
      case Raises =>
        raised := true;
      case Parsed(c) =>
        newCount := StoreParsed(c, count);
    }

    /** `_parse_component_file` on a file's text: the new state and the
        count are those of FileStore, and the state stays consistent. */
    method ParseComponentFile(text: string) returns (count: nat)
      requires Valid()
      modifies this
      ensures Store(components, techComponents, count) == FileStore(old(components), old(techComponents), text)
      ensures Valid()
      ensures Grows(Store(old(components), old(techComponents), 0), Store(components, techComponents, count))
    {
      var content := StripComments(text);
      var hits := TemplateHits(content);
      ghost var st0 := Store(components, techComponents, 0);
      AfterHitsGrows(content, hits, st0);
      count := 0;
      for i := 0 to |hits|
        invariant AfterHits(content, hits[i..], Store(components, techComponents, count)) == AfterHits(content, hits, st0)
      {
        AfterHitsStep(content, hits, i, Store(components, techComponents, count));
        var raised;
        count, raised := ParseHit(content, hits[i], count);
        if raised {
          return;
        }
      }
      assert hits[|hits|..] == [];
    }

    /** `parse_all_components` on the texts of the component files: the
        new state and the total are those of AfterFiles. */
    method ParseAllComponents(files: seq<string>) returns (total: nat)
      requires Valid()
      modifies this
      ensures Store(components, techComponents, total) == AfterFiles(Store(old(components), old(techComponents), 0), files)
      ensures Valid()
    {
      total := 0;
      for i := 0 to |files|
        invariant Valid()
        invariant AfterFiles(Store(components, techComponents, total), files[i..])
                  == AfterFiles(Store(old(components), old(techComponents), 0), files)
      {
        ghost var before := Store(components, techComponents, total);
        var count := ParseComponentFile(files[i]);
        AfterFilesStep(before, files, i);
        total := total + count;
        assert Store(components, techComponents, total) == FileStep(before, files[i]);
      }
      assert files[|files|..] == [];
    }

    /** `get_components_for_tech`: the components of the keys linked to the
        tech, in link order; an unknown tech gives none. */
    function ComponentsForTech(techId: string): (r: seq<Component>)
      reads this
      requires Valid()
      ensures |r| == |Get(techComponents, techId).GetOr([])|
      ensures forall i :: 0 <= i < |r| ==> r[i].key == Get(techComponents, techId).GetOr([])[i]
      ensures !HasKey(techComponents, techId) ==> r == []
    {
      var keys := Get(techComponents, techId).GetOr([]);
      ComponentsOf(components, keys)
    }
  }
}
