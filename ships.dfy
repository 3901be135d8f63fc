/** update/ship_name_parser.py: links technologies to the display names of
    the ship classes they unlock. Ship-size blocks and ship-upgrade component
    templates name a component set and the technology it needs; the
    localisation file names each component set. A Python `set` is a Dafny
    `set`, a `dict` an insertion-ordered association list. */
module Ships {
  import opened Wrappers
  import opened Seqs
  import opened Text
  import opened Scan
  import Supplemental

  // ---------------------------------------------------------------------
  // Technology -> component-set keys

  /** `{tech_id: set(component_keys)}`. */
  type ComponentSets = Assoc<set<string>>

  /** `if t not in d: d[t] = set()` followed by `d[t].update(xs)`. */
  function UnionAt(m: ComponentSets, t: string, xs: set<string>): (r: ComponentSets)
    ensures Get(r, t) == Some(Get(m, t).GetOr({}) + xs)
    ensures forall t' :: t' != t ==> Get(r, t') == Get(m, t')
    ensures Keys(r) == if HasKey(m, t) then Keys(m) else Keys(m) + [t]
  {
    var r := Put(m, t, Get(m, t).GetOr({}) + xs);
    forall t' | t' != t ensures Get(r, t') == Get(m, t') {
      PutOther(m, t, Get(m, t).GetOr({}) + xs, t');
    }
    r
  }

  const DataPrefix: string := "required_data_"

  /** A component-set key as the patterns capture it: `required_data_[^"]+`. */
  predicate IsDataKey(c: string)
  {
    Captures(Quoted(DataPrefix), c)
  }

  /** Every dictionary the parsers build: distinct technologies, each with a
      non-empty id and a non-empty set of component-set keys. */
  ghost predicate WellFormed(m: ComponentSets)
  {
    && NoDups(Keys(m))
    && forall t :: HasKey(m, t) ==>
         |t| > 0 && Get(m, t).value != {} && forall c :: c in Get(m, t).value ==> IsDataKey(c)
  }

  /** Adding keys to a technology keeps the dictionary well formed. */
  lemma UnionAtWellFormed(m: ComponentSets, t: string, xs: set<string>)
    requires WellFormed(m) && |t| > 0 && xs != {}
    requires forall c :: c in xs ==> IsDataKey(c)
    ensures WellFormed(UnionAt(m, t, xs))
  {
    var r := UnionAt(m, t, xs);
    if !HasKey(m, t) {
      assert Keys(r) == Keys(m) + [t];
      assert NoDups(Keys(r));
    }
    forall t' | HasKey(r, t')
      ensures |t'| > 0 && Get(r, t').value != {} && forall c :: c in Get(r, t').value ==> IsDataKey(c)
    {
      if t' != t {
        assert t' in Keys(m);
      }
    }
  }

  /** Every technology of `m` keeps at least its keys in `m'`. */
  ghost predicate Grows(m: ComponentSets, m': ComponentSets)
  {
    forall t :: HasKey(m, t) ==> HasKey(m', t) && Get(m, t).value <= Get(m', t).value
  }

  lemma UnionAtGrows(m: ComponentSets, t: string, xs: set<string>)
    ensures Grows(m, UnionAt(m, t, xs))
    ensures xs <= Get(UnionAt(m, t, xs), t).value
  {
  }

  // ---------------------------------------------------------------------
  // `parse_ship_sizes` and `parse_component_templates`: the cursor loops

  datatype Source =
    | ShipSizes   // common/ship_sizes/*.txt
    | Upgrades    // STH_unique_data_components.txt

  /** What each source's cursor loop searches for. */
  function BlockOpen(src: Source): Pattern
  {
    match src
    case ShipSizes => Header(Run(WordC), false)                  // ^(\w+)\s*=\s*\{  (multi-line)
    case Upgrades => Assign("utility_component_template", Open)   // utility_component_template\s*=\s*\{
  }

  /** What one block's body contributes: the technology and the component-set key. */
  function EntryOf(src: Source, body: string): (r: Option<(string, string)>)
    ensures r.Some? ==> |r.value.0| > 0 && IsDataKey(r.value.1)
  {
    match src
    case ShipSizes =>
      var tech := SearchValue(body, Assign("prerequisites", BracedQuoted));
      var sets := FindAll(body, Assign("required_component_set", Quoted(DataPrefix)));
      FindAllCaptures(body, Assign("required_component_set", Quoted(DataPrefix)));
      if tech.Some? && tech.value != "" && |sets| > 0 then
        assert sets[0] in sets;
        Some((tech.value, sets[0]))
      else None
    case Upgrades =>
      var key := SearchValue(body, Assign("key", Quoted(DataPrefix)));
      var tech := SearchValue(body, Assign("prerequisites", BracedWord));
      SearchCaptures(body, Assign("key", Quoted(DataPrefix)));
      SearchCaptures(body, Assign("prerequisites", BracedWord));
      if key.Some? && tech.Some? then Some((tech.value, key.value)) else None
  }

  /** A block records something only when it names a prerequisite and a
      component set; a ship-size block records the first set it names. */
  lemma EntryNeedsKeywords(src: Source, body: string)
    ensures !Contains(body, "prerequisites") ==> EntryOf(src, body).None?
    ensures src == ShipSizes && !Contains(body, "required_component_set") ==> EntryOf(src, body).None?
    ensures src == Upgrades && !Contains(body, "key") ==> EntryOf(src, body).None?
    ensures src == ShipSizes && EntryOf(src, body).Some? ==>
      EntryOf(src, body).value.1 == FindAll(body, Assign("required_component_set", Quoted(DataPrefix)))[0]
  {
    if !Contains(body, "prerequisites") {
      AssignNeedsKeyword(body, "prerequisites", BracedQuoted);
      AssignNeedsKeyword(body, "prerequisites", BracedWord);
    }
    if !Contains(body, "required_component_set") {
      AssignNeedsKeyword(body, "required_component_set", Quoted(DataPrefix));
    }
    if !Contains(body, "key") {
      AssignNeedsKeyword(body, "key", Quoted(DataPrefix));
    }
  }

  function AddEntry(m: ComponentSets, e: Option<(string, string)>): ComponentSets
  {
    match e
    case None => m
    case Some((t, c)) => UnionAt(m, t, {c})
  }

  lemma AddEntryWellFormed(m: ComponentSets, e: Option<(string, string)>)
    requires WellFormed(m)
    requires e.Some? ==> |e.value.0| > 0 && IsDataKey(e.value.1)
    ensures WellFormed(AddEntry(m, e)) && Grows(m, AddEntry(m, e))
  {
    if e.Some? {
      UnionAtWellFormed(m, e.value.0, {e.value.1});
      UnionAtGrows(m, e.value.0, {e.value.1});
    }
  }

  /** `current_pos + match.end()` for the next block opening in `content[current_pos:]`. */
  function NextOpen(src: Source, content: string, pos: nat): (r: Option<nat>)
    requires pos <= |content|
    ensures r.Some? ==> pos < r.value <= |content|
  {
    match Search(content[pos..], BlockOpen(src))
    case None => None
    case Some(h) => Some(pos + h.end)
  }

  /** The cursor loop from `pos`: the next block opening is searched for in
      `content[pos:]`, its body runs to the brace that closes it (or to the end
      of the text), and the search resumes after that body. */
  function CollectFrom(src: Source, content: string, pos: nat, m: ComponentSets): ComponentSets
    requires pos <= |content|
    decreases |content| - pos
  {
    match NextOpen(src, content, pos)
    case None => m
    case Some(start) =>
      var end := BlockEnd(content, start);
      CollectFrom(src, content, end, AddEntry(m, EntryOf(src, content[start..end])))
  }

  lemma {:induction false} CollectWellFormed(src: Source, content: string, pos: nat, m: ComponentSets)
    requires pos <= |content| && WellFormed(m)
    ensures WellFormed(CollectFrom(src, content, pos, m))
    ensures Grows(m, CollectFrom(src, content, pos, m))
    decreases |content| - pos
  {
    match NextOpen(src, content, pos)
    case None =>
    case Some(start) =>
      var end := BlockEnd(content, start);
      var e := EntryOf(src, content[start..end]);
      AddEntryWellFormed(m, e);
      CollectWellFormed(src, content, end, AddEntry(m, e));
  }

  /** The `while True` loop of either parser over one file's text. */
  method ScanBlocks(src: Source, content: string, m: ComponentSets) returns (r: ComponentSets)
    ensures r == CollectFrom(src, content, 0, m)
  {
    var pos := 0;
    r := m;
    while true
      invariant pos <= |content|
      invariant CollectFrom(src, content, pos, r) == CollectFrom(src, content, 0, m)
      decreases |content| - pos
    {
      var start := NextOpen(src, content, pos);
      if start.None? {
        return;
      }
      var end, _ := WalkToClose(content, start.value);
      r := AddEntry(r, EntryOf(src, content[start.value..end]));
      pos := end;
    }
  }

  /** `parse_ship_sizes`: the `.txt` files in listing order; an unreadable one is skipped. */
  function SizesOf(files: Listing, m: ComponentSets): ComponentSets
    decreases |files|
  {
    if |files| == 0 then m
    else
      var (name, text) := files[0];
      var m' := if EndsWith(name, ".txt") && text.Some? then CollectFrom(ShipSizes, text.value, 0, m) else m;
      SizesOf(files[1..], m')
  }

  function ParsedSizes(files: Listing): ComponentSets
  {
    SizesOf(files, [])
  }

  /** `parse_component_templates`: the one data-components file, or `{}` when
      it is missing or cannot be read. */
  function ParsedUpgrades(file: Option<string>): ComponentSets
  {
    match file
    case None => []
    case Some(content) => CollectFrom(Upgrades, content, 0, [])
  }

  lemma {:induction false} SizesWellFormed(files: Listing, m: ComponentSets)
    requires WellFormed(m)
    ensures WellFormed(SizesOf(files, m)) && Grows(m, SizesOf(files, m))
    decreases |files|
  {
    if |files| > 0 {
      var (name, text) := files[0];
      var m' := if EndsWith(name, ".txt") && text.Some? then CollectFrom(ShipSizes, text.value, 0, m) else m;
      if EndsWith(name, ".txt") && text.Some? {
        CollectWellFormed(ShipSizes, text.value, 0, m);
      }
      SizesWellFormed(files[1..], m');
    }
  }

  /** Both parsers return well-formed dictionaries. */
  lemma ParsedWellFormed(files: Listing, file: Option<string>)
    ensures WellFormed(ParsedSizes(files))
    ensures WellFormed(ParsedUpgrades(file))
  {
    SizesWellFormed(files, []);
    if file.Some? {
      CollectWellFormed(Upgrades, file.value, 0, []);
    }
  }

  method ParseShipSizes(files: Listing) returns (r: ComponentSets)
    ensures r == ParsedSizes(files)
  {
    r := [];
    var i := 0;
    while i < |files|
      invariant i <= |files|
      invariant SizesOf(files[i..], r) == ParsedSizes(files)
    {
      assert files[i..][1..] == files[i + 1..];
      var (name, text) := files[i];
      if EndsWith(name, ".txt") && text.Some? {
        r := ScanBlocks(ShipSizes, text.value, r);
      }
      i := i + 1;
    }
  }

  method ParseComponentTemplates(file: Option<string>) returns (r: ComponentSets)
    ensures r == ParsedUpgrades(file)
  {
    r := [];
    if file.Some? {
      r := ScanBlocks(Upgrades, file.value, r);
    }
  }

  // ---------------------------------------------------------------------
  // `parse_ship_localisation`

  /** `[^:_]+(?:_[^:_]+)*`: no colon, and each underscore between two other characters. */
  predicate KeyTail(w: string)
  {
    && |w| > 0 && w[0] != '_' && w[|w| - 1] != '_'
    && (forall m :: 0 <= m < |w| ==> w[m] != ':')
    && forall m :: 0 <= m < |w| - 1 ==> !(w[m] == '_' && w[m + 1] == '_')
  }

  predicate LocKey(k: string)
  {
    |k| >= |DataPrefix| && StartsWith(k, DataPrefix) && KeyTail(k[|DataPrefix|..])
  }

  predicate LocText(v: string)
  {
    |v| > 0 && forall m :: 0 <= m < |v| ==> v[m] != '"'
  }

  /** `(required_data_[^:_]+(?:_[^:_]+)*):0\s+"([^"]+)"` at `i`: the key, the
      name and the position after the match. The key group can only end at the
      first colon after the prefix, so it matches exactly when the text up to
      that colon has the shape of KeyTail. */
  function LocEntryAt(s: string, i: nat): (r: Option<(string, string, nat)>)
    requires i <= |s|
    ensures r.Some? ==> i < r.value.2 <= |s| && LocKey(r.value.0) && LocText(r.value.1)
  {
    if OccursAt(s, DataPrefix, i) then
      var b := i + |DataPrefix|;
      match IndexOf(s, ':', b)
      case None => None
      case Some(c) =>
        if KeyTail(s[b..c]) && c + 1 < |s| && s[c + 1] == '0' then
          var q := RunEnd(s, c + 2, IsSpace);
          if c + 2 < q < |s| && s[q] == '"' then
            var e := ClassEnd(s, q + 1, NotQuote);
            if q + 1 < e < |s| then
              assert s[i..c][..|DataPrefix|] == s[i..i + |DataPrefix|];
              assert s[i..c][|DataPrefix|..] == s[b..c];
              Some((s[i..c], s[q + 1..e], e + 1))
            else None
          else None
        else None
    else None
  }

  /** `re.findall` of the localisation pattern from `i`. */
  function LocEntriesFrom(s: string, i: nat): (r: seq<(string, string)>)
    requires i <= |s|
    ensures forall k :: 0 <= k < |r| ==> LocKey(r[k].0) && LocText(r[k].1)
    decreases |s| - i
  {
    if i == |s| then []
    else
      match LocEntryAt(s, i)
      case None => LocEntriesFrom(s, i + 1)
      case Some((k, v, e)) => [(k, v)] + LocEntriesFrom(s, e)
  }

  /** What the script compares against: the two bytes of a UTF-8 section
      sign read as TIS-620 characters. */
  const MisreadSectionSign: string := "\U{0E22}\U{0E07}"
  /** A backslash followed by `n`, as it stands in the localisation file. */
  const EscapedNewline: string := "\\n"

  predicate NotDescription(e: (string, string))
  {
    !Contains(e.0, "_DESC")
  }

  /** The filters on a name: a formatting code (`mark`) or an escaped line
      break marks a description, and a name that is only digits is no name. */
  predicate HasFormatting(value: string, mark: string)
  {
    Contains(value, mark) || Contains(value, EscapedNewline)
  }

  predicate IsNumberText(value: string)
  {
    IsDigits(Strip(value))
  }

  function Accepts(mark: string): string -> bool
  {
    v => !HasFormatting(v, mark) && !IsNumberText(v)
  }

  /** The loop over the matches: `loc_data[key] = value` for each pair that
      passes the filters. */
  function KeptNames(entries: seq<(string, string)>, mark: string): Assoc<string>
  {
    Supplemental.StoreNumbers(Filter(entries, NotDescription), Accepts(mark))
  }

  lemma KeptNamesSnoc(entries: seq<(string, string)>, i: nat, mark: string)
    requires i < |entries|
    ensures KeptNames(entries[..i + 1], mark) ==
      if NotDescription(entries[i]) && Accepts(mark)(entries[i].1)
      then Put(KeptNames(entries[..i], mark), entries[i].0, entries[i].1)
      else KeptNames(entries[..i], mark)
  {
    assert entries[..i + 1] == entries[..i] + [entries[i]];
    FilterAppend(entries[..i], [entries[i]], NotDescription);
    var f := Filter(entries[..i + 1], NotDescription);
    if NotDescription(entries[i]) {
      assert Filter([entries[i]], NotDescription) == [entries[i]];
      assert f[..|f| - 1] == Filter(entries[..i], NotDescription);
      assert f[|f| - 1] == entries[i];
    } else {
      assert Filter([entries[i]], NotDescription) == [];
      assert f == Filter(entries[..i], NotDescription);
    }
  }

  method KeepNames(entries: seq<(string, string)>, mark: string) returns (names: Assoc<string>)
    ensures names == KeptNames(entries, mark)
  {
    names := [];
    for i := 0 to |entries|
      invariant names == KeptNames(entries[..i], mark)
    {
      KeptNamesSnoc(entries, i, mark);
      var (key, value) := entries[i];
      if Contains(key, "_DESC") {
        continue;
      }
      if HasFormatting(value, mark) {
        continue;
      }
      if IsNumberText(value) {
        continue;
      }
      names := Put(names, key, value);
    }
    assert entries[..|entries|] == entries;
  }

  /** `parse_ship_localisation` with the formatting mark it tests for; a file
      that is missing or cannot be read gives `{}`. */
  function LocalisedNames(file: Option<string>, mark: string): Assoc<string>
  {
    match file
    case None => []
    case Some(content) => KeptNames(LocEntriesFrom(content, 0), mark)
  }

  /** The script as written: it tests for the misread section sign. */
  function ShipLocalisationAsWritten(file: Option<string>): Assoc<string>
  {
    LocalisedNames(file, MisreadSectionSign)
  }

  /** The script as intended, which the rest of the model uses. */
  function ShipLocalisation(file: Option<string>): Assoc<string>
  {
    LocalisedNames(file, SectionSign)
  }

  method ParseShipLocalisation(file: Option<string>) returns (names: Assoc<string>)
    ensures names == ShipLocalisation(file)
  {
    names := [];
    if file.Some? {
      var entries := LocEntriesFrom(file.value, 0);
      names := KeepNames(entries, SectionSign);
    }
  }

  /** A name is stored under a key exactly when some match with that key
      passes the filters, and it is the name of the last such match. */
  lemma {:induction false} KeptNamesSpec(entries: seq<(string, string)>, mark: string, k: string)
    ensures Get(KeptNames(entries, mark), k).Some? <==>
      exists e :: e in entries && e.0 == k && NotDescription(e) && Accepts(mark)(e.1)
    ensures Get(KeptNames(entries, mark), k).Some? ==>
      var v := Get(KeptNames(entries, mark), k).value;
      (k, v) in entries && !Contains(k, "_DESC") && !HasFormatting(v, mark) && !IsNumberText(v)
      && exists i :: Supplemental.LastValid(Filter(entries, NotDescription), Accepts(mark), i, k, v)
  {
    var f := Filter(entries, NotDescription);
    Supplemental.StoreNumbersHas(f, Accepts(mark), k);
    if exists e :: e in entries && e.0 == k && NotDescription(e) && Accepts(mark)(e.1) {
      var e :| e in entries && e.0 == k && NotDescription(e) && Accepts(mark)(e.1);
      var i :| 0 <= i < |f| && f[i] == e;
      assert Supplemental.Decides(f, Accepts(mark), i, k);
    }
    if Get(KeptNames(entries, mark), k).Some? {
      Supplemental.StoreNumbersLast(f, Accepts(mark), k);
      var v := Get(KeptNames(entries, mark), k).value;
      var i :| Supplemental.LastValid(f, Accepts(mark), i, k, v);
      assert f[i] in f;
    }
  }

  /** Every stored name comes from a matching line of the file, under a
      `required_data_` key that is not a description, and is a non-empty
      name free of formatting codes, escaped line breaks and bare numbers. */
  lemma ShipLocalisationSpec(file: Option<string>, k: string)
    requires Get(ShipLocalisation(file), k).Some?
    ensures var v := Get(ShipLocalisation(file), k).value;
      && file.Some? && (k, v) in LocEntriesFrom(file.value, 0)
      && LocKey(k) && !Contains(k, "_DESC")
      && LocText(v) && !Contains(v, SectionSign) && !Contains(v, EscapedNewline) && !IsNumberText(v)
  {
    var entries := LocEntriesFrom(file.value, 0);
    KeptNamesSpec(entries, SectionSign, k);
  }

  /** A colour-coded name is dropped as intended, but the test as written keeps it. */
  lemma SectionSignFinding(v: string)
    requires v == "\U{00A7}Y"
    ensures Accepts(MisreadSectionSign)(v) && !Accepts(SectionSign)(v)
  {
    MissingCharNotContained(v, MisreadSectionSign, '\U{0E22}');
    MissingCharNotContained(v, EscapedNewline, '\\');
    assert !HasFormatting(v, MisreadSectionSign);
    StripUntrimmed(v);
    assert !IsDigit(v[0]);
    assert !IsNumberText(v);
    assert OccursAt(v, SectionSign, 0);
    ContainsAt(v, SectionSign, 0);
  }

  // ---------------------------------------------------------------------
  // `build_tech_to_ships_mapping`

  /** The merge loop: each technology's keys are added to what `m` holds. */
  function MergeInto(m: ComponentSets, src: ComponentSets): ComponentSets
    decreases |src|
  {
    if |src| == 0 then m else MergeInto(UnionAt(m, src[0].0, src[0].1), src[1..])
  }

  /** Both sources merged: ship sizes first, then upgrades. */
  function MergedSources(sizes: ComponentSets, upgrades: ComponentSets): ComponentSets
  {
    MergeInto(MergeInto([], sizes), upgrades)
  }

  lemma {:induction false} MergeIntoSpec(m: ComponentSets, src: ComponentSets, t: string)
    requires NoDups(Keys(src))
    ensures Get(MergeInto(m, src), t).GetOr({}) == Get(m, t).GetOr({}) + Get(src, t).GetOr({})
    ensures HasKey(MergeInto(m, src), t) <==> HasKey(m, t) || HasKey(src, t)
    decreases |src|
  {
    if |src| > 0 {
      assert Keys(src[1..]) == Keys(src)[1..];
      assert HasKey(src, t) <==> t == src[0].0 || HasKey(src[1..], t);
      if t == src[0].0 {
        assert !HasKey(src[1..], t);
      }
      MergeIntoSpec(UnionAt(m, src[0].0, src[0].1), src[1..], t);
    }
  }

  lemma {:induction false} MergeIntoNoDups(m: ComponentSets, src: ComponentSets)
    requires NoDups(Keys(m))
    ensures NoDups(Keys(MergeInto(m, src)))
    decreases |src|
  {
    if |src| > 0 {
      var u := UnionAt(m, src[0].0, src[0].1);
      if !HasKey(m, src[0].0) {
        assert Keys(u) == Keys(m) + [src[0].0];
      }
      MergeIntoNoDups(u, src[1..]);
    }
  }

  /** A technology's merged keys are the union of its keys in the two sources. */
  lemma MergedSourcesSpec(sizes: ComponentSets, upgrades: ComponentSets, t: string)
    requires NoDups(Keys(sizes)) && NoDups(Keys(upgrades))
    ensures var m := MergedSources(sizes, upgrades);
      && NoDups(Keys(m))
      && (HasKey(m, t) <==> HasKey(sizes, t) || HasKey(upgrades, t))
      && Get(m, t).GetOr({}) == Get(sizes, t).GetOr({}) + Get(upgrades, t).GetOr({})
  {
    MergeIntoSpec([], sizes, t);
    MergeIntoSpec(MergeInto([], sizes), upgrades, t);
    MergeIntoNoDups([], sizes);
    MergeIntoNoDups(MergeInto([], sizes), upgrades);
  }

  /** The truthy display names of a set of component-set keys. */
  function NamesOf(comps: set<string>, loc: Assoc<string>): set<string>
  {
    set c | c in comps && HasKey(loc, c) && Get(loc, c).value != "" :: Get(loc, c).value
  }

  /** The technologies that get an entry: those with at least one name. */
  function Named(m: ComponentSets, loc: Assoc<string>): string -> bool
  {
    t => NamesOf(Get(m, t).GetOr({}), loc) != {}
  }

  /** `l` lists the elements of `s` in order, each once. */
  ghost predicate ListsSet(l: seq<string>, s: set<string>)
  {
    SortedBy(l, StringLe()) && NoDups(l) && forall x :: x in l <==> x in s
  }

  /** What `build_tech_to_ships_mapping` returns for the merged keys `m`: the
      technologies with a name, in their order in `m`, each with its names
      sorted and without repeats. */
  ghost predicate IsShipMapping(r: Assoc<seq<string>>, m: ComponentSets, loc: Assoc<string>)
  {
    && Keys(r) == Filter(Keys(m), Named(m, loc))
    && forall i :: 0 <= i < |r| ==> ListsSet(r[i].1, NamesOf(Get(m, r[i].0).GetOr({}), loc))
  }

  /** The inner loop over one technology's keys in set order, appending each
      display name not yet listed. */
  method NamesOfTech(comps: set<string>, loc: Assoc<string>) returns (names: seq<string>)
    ensures NoDups(names)
    ensures forall x :: x in names <==> x in NamesOf(comps, loc)
  {
    names := [];
    var rest := comps;
    while rest != {}
      invariant rest <= comps
      invariant NoDups(names)
      invariant forall x :: x in names <==> x in NamesOf(comps - rest, loc)
      decreases |rest|
    {
      var c :| c in rest;
      var display := Get(loc, c);
      if display.Some? && display.value != "" && display.value !in names {
        names := names + [display.value];
      }
      rest := rest - {c};
    }
    assert comps - rest == comps;
  }

  /** Each list holds its technology's display names, each once. */
  ghost predicate ListsNames(r: Assoc<seq<string>>, m: ComponentSets, loc: Assoc<string>)
  {
    forall j :: 0 <= j < |r| ==>
      NoDups(r[j].1) && forall x :: x in r[j].1 <==> x in NamesOf(Get(m, r[j].0).GetOr({}), loc)
  }

  method NameLists(m: ComponentSets, loc: Assoc<string>) returns (r: Assoc<seq<string>>)
    requires NoDups(Keys(m))
    ensures Keys(r) == Filter(Keys(m), Named(m, loc))
    ensures ListsNames(r, m, loc)
  {
    r := [];
    for i := 0 to |m|
      invariant Keys(r) == Filter(Keys(m[..i]), Named(m, loc))
      invariant ListsNames(r, m, loc)
    {
      var (t, comps) := m[i];
      GetAt(m, i);
      var names := NamesOfTech(comps, loc);
      NameListsStep(r, m, loc, i, names);
      if names != [] {
        r := r + [(t, names)];
      }
    }
    assert m[..|m|] == m;
  }

  lemma NameListsStep(r: Assoc<seq<string>>, m: ComponentSets, loc: Assoc<string>, i: nat, names: seq<string>)
    requires i < |m| && Get(m, m[i].0) == Some(m[i].1)
    requires Keys(r) == Filter(Keys(m[..i]), Named(m, loc)) && ListsNames(r, m, loc)
    requires NoDups(names) && forall x :: x in names <==> x in NamesOf(m[i].1, loc)
    ensures var r' := if names != [] then r + [(m[i].0, names)] else r;
      Keys(r') == Filter(Keys(m[..i + 1]), Named(m, loc)) && ListsNames(r', m, loc)
  {
    var t := m[i].0;
    KeysSnoc(m, i);
    FilterAppend(Keys(m[..i]), [t], Named(m, loc));
    if names != [] {
      NamedListed(r, m, loc, i, names);
    } else {
      assert forall x :: x !in NamesOf(m[i].1, loc);
    }
  }

  /** The step of `NameListsStep` for a type with names. */
  lemma NamedListed(r: Assoc<seq<string>>, m: ComponentSets, loc: Assoc<string>, i: nat, names: seq<string>)
    requires i < |m| && Get(m, m[i].0) == Some(m[i].1) && ListsNames(r, m, loc)
    requires |names| > 0 && NoDups(names) && forall x :: x in names <==> x in NamesOf(m[i].1, loc)
    ensures Named(m, loc)(m[i].0)
    ensures Keys(r + [(m[i].0, names)]) == Keys(r) + [m[i].0] && ListsNames(r + [(m[i].0, names)], m, loc)
  {
    assert names[0] in NamesOf(m[i].1, loc);
    KeysAppend(r, (m[i].0, names));
    ListsNamesSnoc(r, m, loc, m[i].0, names);
  }

  lemma ListsNamesSnoc(r: Assoc<seq<string>>, m: ComponentSets, loc: Assoc<string>, t: string, names: seq<string>)
    requires ListsNames(r, m, loc)
    requires NoDups(names) && forall x :: x in names <==> x in NamesOf(Get(m, t).GetOr({}), loc)
    ensures ListsNames(r + [(t, names)], m, loc)
  {
    var r' := r + [(t, names)];
    forall j | 0 <= j < |r'|
      ensures NoDups(r'[j].1) && forall x :: x in r'[j].1 <==> x in NamesOf(Get(m, r'[j].0).GetOr({}), loc)
    {
      if j < |r| {
        assert r'[j] == r[j];
      }
    }
  }

  lemma KeysAppend<V>(a: Assoc<V>, x: (string, V))
    ensures Keys(a + [x]) == Keys(a) + [x.0]
  {
  }

  lemma KeysSnoc<V>(m: Assoc<V>, i: nat)
    requires i < |m|
    ensures Keys(m[..i + 1]) == Keys(m[..i]) + [m[i].0]
  {
  }

  /** With distinct keys, each stored pair is what `Get` finds. */
  lemma {:induction false} GetAt<V>(a: Assoc<V>, i: nat)
    requires NoDups(Keys(a)) && i < |a|
    ensures Get(a, a[i].0) == Some(a[i].1)
  {
    if i > 0 {
      assert Keys(a[1..]) == Keys(a)[1..];
      assert Keys(a)[0] != Keys(a)[i];
      GetAt(a[1..], i - 1);
    }
  }

  /** The sorting loop: `tech_to_ships[tech_id].sort()` for each entry. */
  method SortLists(lists: Assoc<seq<string>>) returns (r: Assoc<seq<string>>)
    ensures Keys(r) == Keys(lists)
    ensures forall i :: 0 <= i < |r| ==>
      SortedBy(r[i].1, StringLe()) && multiset(r[i].1) == multiset(lists[i].1)
  {
    r := lists;
    for i := 0 to |r|
      invariant |r| == |lists|
      invariant forall j :: 0 <= j < |r| ==> r[j].0 == lists[j].0
      invariant forall j :: 0 <= j < i ==> SortedBy(r[j].1, StringLe()) && multiset(r[j].1) == multiset(lists[j].1)
      invariant forall j :: i <= j < |r| ==> r[j] == lists[j]
    {
      r := r[i := (r[i].0, SortStrings(r[i].1))];
    }
  }

  method BuildMapping(m: ComponentSets, loc: Assoc<string>) returns (r: Assoc<seq<string>>)
    requires NoDups(Keys(m))
    ensures IsShipMapping(r, m, loc)
  {
    var lists := NameLists(m, loc);
    r := SortLists(lists);
    forall i | 0 <= i < |r|
      ensures ListsSet(r[i].1, NamesOf(Get(m, r[i].0).GetOr({}), loc))
    {
      assert Keys(r)[i] == Keys(lists)[i];
      NoDupsPermutation(lists[i].1, r[i].1);
    }
  }

  /** `build_tech_to_ships_mapping`: the ship-size listing, the localisation
      file and the data-components file (None when no directory is given,
      or when the file is missing or unreadable). */
  method BuildTechToShipsMapping(sizeFiles: Listing, locFile: Option<string>, componentFile: Option<string>)
    returns (r: Assoc<seq<string>>)
    ensures IsShipMapping(r, MergedSources(ParsedSizes(sizeFiles), ParsedUpgrades(componentFile)), ShipLocalisation(locFile))
  {
    var sizes := ParseShipSizes(sizeFiles);
    var loc := ParseShipLocalisation(locFile);
    var upgrades := ParseComponentTemplates(componentFile);
    ParsedWellFormed(sizeFiles, componentFile);
    MergeIntoNoDups([], sizes);
    MergeIntoNoDups(MergeInto([], sizes), upgrades);
    var merged := MergeInto(MergeInto([], sizes), upgrades);
    r := BuildMapping(merged, loc);
  }

  /** Two results for the same keys and names are equal: the iteration order
      of the sets does not show through. */
  lemma {:induction false} ShipMappingDeterministic(r: Assoc<seq<string>>, r': Assoc<seq<string>>, m: ComponentSets, loc: Assoc<string>)
    requires IsShipMapping(r, m, loc) && IsShipMapping(r', m, loc)
    ensures r == r'
  {
    assert |r| == |Keys(r)| == |Keys(r')| == |r'|;
    forall i | 0 <= i < |r| ensures r[i] == r'[i] {
      assert Keys(r)[i] == Keys(r')[i];
      SortedUnique(r[i].1, r'[i].1);
    }
  }

  /** `get_ship_names_for_tech`. */
  function GetShipNamesForTech(techId: string, mapping: Assoc<seq<string>>): seq<string>
  {
    Get(mapping, techId).GetOr([])
  }

  lemma {:induction false} FilterNoDups(s: seq<string>, p: string -> bool)
    requires NoDups(s)
    ensures NoDups(Filter(s, p))
  {
    if |s| > 0 {
      FilterNoDups(s[1..], p);
      assert s[0] !in s[1..];
    }
  }

  /** The names looked up for any technology are its display names, sorted
      and each once; a technology without one gets the empty list. */
  lemma ShipNamesSpec(r: Assoc<seq<string>>, m: ComponentSets, loc: Assoc<string>, t: string)
    requires IsShipMapping(r, m, loc) && NoDups(Keys(m))
    ensures ListsSet(GetShipNamesForTech(t, r), NamesOf(Get(m, t).GetOr({}), loc))
  {
    FilterNoDups(Keys(m), Named(m, loc));
    if HasKey(r, t) {
      var i :| 0 <= i < |r| && Keys(r)[i] == t;
      GetAt(r, i);
    } else {
      assert !(t in Keys(m) && Named(m, loc)(t));
      if !HasKey(m, t) {
        assert Get(m, t).GetOr({}) == {};
      }
    }
  }
}
