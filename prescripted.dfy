/** update/prescripted_parser.py: the playable empires of the prescripted
    country files, with their quadrant, graphical culture and species class.
    The localisation loader is a map from name keys to names; a run without a
    loader behaves as one with the empty map. */
module Prescripted {
  import opened Wrappers
  import opened Seqs
  import opened Text
  import opened Scan

  // ---------------------------------------------------------------------
  // `extract_empire_data`

  /** The dictionary `extract_empire_data` returns. */
  datatype Empire = Empire(
    id: string,
    key: string,
    name: string,
    nameKey: Option<string>,
    quadrant: string,
    graphicalCulture: Option<string>,
    speciesClass: Option<string>,
    shipPrefix: Option<string>,
    playableCondition: Option<string>,
    isVariant: bool)

  /** `"?([^"\s\n]+)"?` */
  const Loose: Value := OptQuoted(LooseC)

  /** `species_class = X`, else `class = X` inside the first `species = { ... }`. */
  function SpeciesClassOf(block: string): Option<string>
  {
    match SearchValue(block, Assign("species_class", Loose))
    case Some(c) => Some(c)
    case None =>
      match SearchValue(block, Assign("species", Braced))
      case None => None
      case Some(inner) => SearchValue(inner, Assign("class", Loose))
  }

  /** The localised name of the name key when the loader has a non-empty one, else the country key. */
  function DisplayName(key: string, nameKey: Option<string>, loc: map<string, string>): string
  {
    if nameKey.Some? && nameKey.value != "" && nameKey.value in loc && loc[nameKey.value] != ""
    then loc[nameKey.value]
    else key
  }

  function EmpireData(key: string, block: string, quadrant: string, loc: map<string, string>): Empire
  {
    var nameKey := SearchValue(block, Assign("name", Quoted("")));
    Empire(
      id := Lower(key),
      key := key,
      name := DisplayName(key, nameKey, loc),
      nameKey := nameKey,
      quadrant := quadrant,
      graphicalCulture := SearchValue(block, Assign("graphical_culture", Loose)),
      speciesClass := SpeciesClassOf(block),
      shipPrefix := SearchValue(block, Assign("ship_prefix", Loose)),
      playableCondition := SearchValue(block, Assign("playable", Run(WordC))),
      isVariant := EndsWith(key, "_B"))
  }

  /** What each field of a country block's record holds. */
  lemma EmpireDataSpec(key: string, block: string, quadrant: string, loc: map<string, string>)
    ensures var e := EmpireData(key, block, quadrant, loc);
      && e.id == Lower(key) && e.key == key && e.quadrant == quadrant
      && (e.isVariant <==> EndsWith(key, "_B"))
      && (e.nameKey.Some? ==> Captures(Quoted(""), e.nameKey.value))
      && (!Contains(block, "name") ==> e.nameKey.None?)
      && (e.name == key || (e.nameKey.Some? && e.nameKey.value in loc && e.name == loc[e.nameKey.value] != ""))
      && (e.nameKey.Some? && e.nameKey.value in loc && loc[e.nameKey.value] != "" ==> e.name == loc[e.nameKey.value])
      && (e.graphicalCulture.Some? ==> Captures(Loose, e.graphicalCulture.value))
      && (e.shipPrefix.Some? ==> Captures(Loose, e.shipPrefix.value))
      && (e.playableCondition.Some? ==> Captures(Run(WordC), e.playableCondition.value))
  {
    SearchCaptures(block, Assign("name", Quoted("")));
    SearchCaptures(block, Assign("graphical_culture", Loose));
    SearchCaptures(block, Assign("ship_prefix", Loose));
    SearchCaptures(block, Assign("playable", Run(WordC)));
    if !Contains(block, "name") {
      AssignNeedsKeyword(block, "name", Quoted(""));
    }
    var nameKey := SearchValue(block, Assign("name", Quoted("")));
    if nameKey.Some? {
      assert nameKey.value != "";
    }
  }

  /** The `species_class =` form wins over the `species = { class = ... }` form,
      and a block that never says `species` has no species class. */
  lemma SpeciesClassSpec(block: string)
    ensures var sc := SearchValue(block, Assign("species_class", Loose));
      sc.Some? ==> SpeciesClassOf(block) == sc
    ensures SpeciesClassOf(block).Some? ==> Captures(Loose, SpeciesClassOf(block).value)
    ensures !Contains(block, "species") ==> SpeciesClassOf(block).None?
  {
    SearchCaptures(block, Assign("species_class", Loose));
    var inner := SearchValue(block, Assign("species", Braced));
    if inner.Some? {
      SearchCaptures(inner.value, Assign("class", Loose));
    }
    if !Contains(block, "species") {
      assert OccursAt("species_class", "species", 0);
      ContainsAt("species_class", "species", 0);
      if Contains(block, "species_class") {
        ContainsTransitive(block, "species_class", "species");
      }
      AssignNeedsKeyword(block, "species_class", Loose);
      AssignNeedsKeyword(block, "species", Braced);
    }
  }

  // ---------------------------------------------------------------------
  // `parse_country_blocks`: the cursor loop

  /** Keys whose blocks are not countries; the scan resumes just after their `{`. */
  predicate SkippedKey(key: string)
  {
    StartsWith(key, "#") || key == "empire_flag" || key == "ruler" || key == "species"
  }

  /** `^([A-Za-z_][A-Za-z0-9_]*)\s*=\s*\{` in `content[pos:]`: the key and
      `current_pos + match.end()`. */
  function HeaderFrom(content: string, pos: nat): (r: Option<(string, nat)>)
    requires pos <= |content|
    ensures r.Some? ==> pos < r.value.1 <= |content|
  {
    match Search(content[pos..], Header(Ident, false))
    case None => None
    case Some(h) => Some((h.value, pos + h.end))
  }

  /** The country blocks from `pos` on: each key with the body up to the
      brace that closes it (or the end of the text). */
  function BlocksFrom(content: string, pos: nat): seq<(string, string)>
    requires pos <= |content|
    decreases |content| - pos
  {
    match HeaderFrom(content, pos)
    case None => []
    case Some((key, start)) =>
      if SkippedKey(key) then BlocksFrom(content, start)
      else
        var end := BlockEnd(content, start);
        [(key, content[start..end])] + BlocksFrom(content, end)
  }

  /** `extract_empire_data` on each block. */
  function RecordsOf(blocks: seq<(string, string)>, quadrant: string, loc: map<string, string>): (r: seq<Empire>)
    ensures |r| == |blocks|
  {
    if blocks == [] then []
    else
      var b := blocks[|blocks| - 1];
      RecordsOf(blocks[..|blocks| - 1], quadrant, loc) + [EmpireData(b.0, b.1, quadrant, loc)]
  }

  lemma RecordsSnoc(blocks: seq<(string, string)>, b: (string, string), quadrant: string, loc: map<string, string>)
    ensures RecordsOf(blocks + [b], quadrant, loc) == RecordsOf(blocks, quadrant, loc) + [EmpireData(b.0, b.1, quadrant, loc)]
  {
    assert (blocks + [b])[..|blocks|] == blocks;
  }

  lemma RecordsAppend(blocks: seq<(string, string)>, key: string, body: string, quadrant: string, loc: map<string, string>,
                      records: seq<Empire>, e: Empire)
    requires records == RecordsOf(blocks, quadrant, loc) && e == EmpireData(key, body, quadrant, loc)
    ensures records + [e] == RecordsOf(blocks + [(key, body)], quadrant, loc)
  {
    RecordsSnoc(blocks, (key, body), quadrant, loc);
  }

  lemma {:induction false} RecordsAt(blocks: seq<(string, string)>, quadrant: string, loc: map<string, string>, i: nat)
    requires i < |blocks|
    ensures RecordsOf(blocks, quadrant, loc)[i] == EmpireData(blocks[i].0, blocks[i].1, quadrant, loc)
    decreases |blocks|
  {
    if i < |blocks| - 1 {
      RecordsAt(blocks[..|blocks| - 1], quadrant, loc, i);
    }
  }

  /** `parse_country_blocks`. */
  function CountriesFrom(content: string, quadrant: string, loc: map<string, string>): seq<Empire>
  {
    RecordsOf(BlocksFrom(content, 0), quadrant, loc)
  }

  method ParseCountryBlocks(content: string, quadrant: string, loc: map<string, string>) returns (empires: seq<Empire>)
    ensures empires == CountriesFrom(content, quadrant, loc)
  {
    empires := [];
    ghost var all := BlocksFrom(content, 0);
    ghost var blocks: seq<(string, string)> := [];
    assert blocks + all == all;
    var pos := 0;
    var more := true;
    while more
      invariant pos <= |content|
      invariant more ==> blocks + BlocksFrom(content, pos) == all
      invariant !more ==> blocks == all
      invariant empires == RecordsOf(blocks, quadrant, loc)
      decreases |content| - pos, more
    {
      more, pos, blocks, empires := ParseNextCountry(content, pos, quadrant, loc, all, blocks, empires);
    }
  }

  /** One turn of the scan in `parse_country_blocks`: the next header, and
      the record of its block unless the key is a skipped one. */
  method ParseNextCountry(content: string, pos: nat, quadrant: string, loc: map<string, string>,
                          ghost all: seq<(string, string)>, ghost blocks: seq<(string, string)>, empires: seq<Empire>)
    returns (more: bool, next: nat, ghost blocks': seq<(string, string)>, empires': seq<Empire>)
    requires pos <= |content| && blocks + BlocksFrom(content, pos) == all
    requires empires == RecordsOf(blocks, quadrant, loc)
    ensures empires' == RecordsOf(blocks', quadrant, loc)
    ensures more ==> pos < next <= |content| && blocks' + BlocksFrom(content, next) == all
    ensures !more ==> next == pos && blocks' == all
  {
    var header := HeaderFrom(content, pos);
    if header.None? {
      assert blocks == all;
      return false, pos, blocks, empires;
    }
    var (key, start) := header.value;
    BlocksStep(content, pos, blocks);
    if SkippedKey(key) {
      return true, start, blocks, empires;
    }
    var end, _ := WalkToClose(content, start);
    var body := content[start..end];
    var empire := ExtractEmpireData(key, body, quadrant, loc);
    RecordsAppend(blocks, key, body, quadrant, loc, empires, empire);
    return true, end, blocks + [(key, body)], empires + [empire];
  }

  /** One step of the scan: a skipped key's block is not a block, any other
      key's block comes first. */
  lemma BlocksStep(content: string, pos: nat, done: seq<(string, string)>)
    requires pos <= |content| && HeaderFrom(content, pos).Some?
    ensures var (key, start) := HeaderFrom(content, pos).value;
      var end := BlockEnd(content, start);
      && (SkippedKey(key) ==> done + BlocksFrom(content, pos) == done + BlocksFrom(content, start))
      && (!SkippedKey(key) ==> done + BlocksFrom(content, pos) == (done + [(key, content[start..end])]) + BlocksFrom(content, end))
  {
  }

  /** The call of `extract_empire_data` on one block. */
  method ExtractEmpireData(key: string, block: string, quadrant: string, loc: map<string, string>) returns (e: Empire)
    ensures e == EmpireData(key, block, quadrant, loc)
  {
    e := EmpireData(key, block, quadrant, loc);
  }

  /** No block is one of the skipped keys. */
  lemma {:induction false} BlocksSpec(content: string, pos: nat)
    requires pos <= |content|
    ensures forall b :: b in BlocksFrom(content, pos) ==> !SkippedKey(b.0)
    decreases |content| - pos
  {
    match HeaderFrom(content, pos)
    case None =>
    case Some((key, start)) =>
      if SkippedKey(key) {
        BlocksSpec(content, start);
      } else {
        BlocksSpec(content, BlockEnd(content, start));
      }
  }

  /** Every record is a country block's: its key is not a skipped one, its id
      is the key in lower case, and it carries the file's quadrant. */
  lemma CountriesSpec(content: string, quadrant: string, loc: map<string, string>)
    ensures forall e :: e in CountriesFrom(content, quadrant, loc) ==>
      !SkippedKey(e.key) && e.id == Lower(e.key) && e.quadrant == quadrant
  {
    var blocks := BlocksFrom(content, 0);
    BlocksSpec(content, 0);
    forall e | e in CountriesFrom(content, quadrant, loc)
      ensures !SkippedKey(e.key) && e.id == Lower(e.key) && e.quadrant == quadrant
    {
      var i :| 0 <= i < |blocks| && CountriesFrom(content, quadrant, loc)[i] == e;
      RecordsAt(blocks, quadrant, loc, i);
      assert blocks[i] in blocks;
    }
  }

  /** A block that never closes runs to the end of the text and is the last one. */
  lemma UnterminatedBlockLast(content: string, pos: nat)
    requires pos <= |content| && HeaderFrom(content, pos).Some?
    requires !SkippedKey(HeaderFrom(content, pos).value.0)
    requires CloseFrom(content, HeaderFrom(content, pos).value.1, 1, HeaderFrom(content, pos).value.1).None?
    ensures var (key, start) := HeaderFrom(content, pos).value;
      BlocksFrom(content, pos) == [(key, content[start..])]
  {
    var (key, start) := HeaderFrom(content, pos).value;
    assert BlockEnd(content, start) == |content|;
    assert content[start..|content|] == content[start..];
    assert BlocksFrom(content, |content|) == [];
  }

  // ---------------------------------------------------------------------
  // `parse_prescripted_countries`

  /** `FILENAME_TO_QUADRANT`. */
  const QuadrantFiles: Assoc<string> := [
    ("STH_00_major_powers.txt", "major"),
    ("STH_01_alpha_quadrant.txt", "alpha"),
    ("STH_02_beta_quadrant.txt", "beta"),
    ("STH_03_gamma_quadrant.txt", "gamma"),
    ("STH_04_delta_quadrant.txt", "delta"),
    ("STH_05_alt.txt", "alternate")]

  function QuadrantOf(filename: string): string
  {
    Get(QuadrantFiles, filename).GetOr("unknown")
  }

  predicate IsCountryFile(f: (string, Option<string>))
  {
    StartsWith(f.0, "STH_") && EndsWith(f.0, ".txt")
  }

  /** The `STH_*.txt` files of the listing, by name. */
  function CountryFiles(files: Listing): (r: Listing)
    ensures SortedBy(r, KeyLe<Option<string>>())
    ensures forall f :: f in r <==> f in files && IsCountryFile(f)
  {
    KeyLeTotalPreorder<Option<string>>();
    var chosen := Filter(files, IsCountryFile);
    SortBySorted(chosen, KeyLe<Option<string>>());
    var r := SortBy(chosen, KeyLe<Option<string>>());
    assert forall f :: f in r <==> f in multiset(r);
    assert forall f :: f in chosen <==> f in multiset(chosen);
    r
  }

  /** The records of the files in turn; an unreadable file is skipped. */
  function EmpiresOfFiles(files: Listing, loc: map<string, string>): seq<Empire>
    decreases |files|
  {
    if |files| == 0 then []
    else EmpiresOfFiles(files[..|files| - 1], loc) + FileEmpires(files[|files| - 1], loc)
  }

  /** The records of one file, none when it could not be read. */
  function FileEmpires(file: (string, Option<string>), loc: map<string, string>): seq<Empire>
  {
    match file.1 case None => [] case Some(c) => CountriesFrom(c, QuadrantOf(file.0), loc)
  }

  function ParsedEmpires(files: Listing, loc: map<string, string>): seq<Empire>
  {
    EmpiresOfFiles(CountryFiles(files), loc)
  }

  method ParsePrescriptedCountries(files: Listing, loc: map<string, string>) returns (empires: seq<Empire>)
    ensures empires == ParsedEmpires(files, loc)
  {
    var sorted := CountryFiles(files);
    empires := ParseFiles(sorted, loc);
  }

  /** The loop over the sorted country files. */
  method ParseFiles(sorted: Listing, loc: map<string, string>) returns (empires: seq<Empire>)
    ensures empires == EmpiresOfFiles(sorted, loc)
  {
    empires := [];
    for i := 0 to |sorted|
      invariant empires == EmpiresOfFiles(sorted[..i], loc)
    {
      EmpiresOfFilesSnoc(sorted, i, loc);
      var fileEmpires := ParseFile(sorted[i], loc);
      empires := empires + fileEmpires;
    }
    assert sorted[..|sorted|] == sorted;
  }

  lemma EmpiresOfFilesSnoc(files: Listing, i: nat, loc: map<string, string>)
    requires i < |files|
    ensures EmpiresOfFiles(files[..i + 1], loc) == EmpiresOfFiles(files[..i], loc) + FileEmpires(files[i], loc)
  {
    assert files[..i + 1][..i] == files[..i];
  }

  /** The body of the file loop: nothing for an unreadable file. */
  method ParseFile(file: (string, Option<string>), loc: map<string, string>) returns (fileEmpires: seq<Empire>)
    ensures fileEmpires == FileEmpires(file, loc)
  {
    var (name, text) := file;
    fileEmpires := [];
    if text.Some? {
      fileEmpires := ParseCountryBlocks(text.value, QuadrantOf(name), loc);
    }
  }

  /** Each record comes from a readable country file and carries that file's quadrant. */
  lemma {:induction false} EmpiresOfFilesSpec(files: Listing, loc: map<string, string>)
    ensures forall e :: e in EmpiresOfFiles(files, loc) ==>
      !SkippedKey(e.key) && e.id == Lower(e.key)
      && exists f :: f in files && f.1.Some? && e.quadrant == QuadrantOf(f.0)
    decreases |files|
  {
    if |files| > 0 {
      var n := |files| - 1;
      var (name, text) := files[n];
      EmpiresOfFilesSpec(files[..n], loc);
      forall e | e in EmpiresOfFiles(files, loc)
        ensures !SkippedKey(e.key) && e.id == Lower(e.key)
          && exists f :: f in files && f.1.Some? && e.quadrant == QuadrantOf(f.0)
      {
        if e in EmpiresOfFiles(files[..n], loc) {
          var f :| f in files[..n] && f.1.Some? && e.quadrant == QuadrantOf(f.0);
          assert f in files;
        } else {
          CountriesSpec(text.value, QuadrantOf(name), loc);
          assert files[n] in files;
        }
      }
    }
  }

  // ---------------------------------------------------------------------
  // `build_empires_list`

  /** An entry of `empires.json`. */
  datatype EmpireEntry = EmpireEntry(
    id: string,
    name: string,
    shortName: string,
    quadrant: string,
    graphicalCulture: Option<string>,
    hasUniqueShips: bool,
    playable: bool,
    playableCondition: Option<string>)

  /** `re.sub(r'§[A-Za-z!]', '', s)`. */
  function RemoveColourCodes(s: string): (r: string)
    ensures |r| <= |s|
    decreases |s|
  {
    if |s| == 0 then []
    else if |s| >= 2 && s[0] == '\U{00A7}' && (IsLetter(s[1]) || s[1] == '!') then RemoveColourCodes(s[2..])
    else [s[0]] + RemoveColourCodes(s[1..])
  }

  /** A name without a section sign has no colour code to remove. */
  lemma {:induction false} UncodedUnchanged(s: string)
    requires '\U{00A7}' !in s
    ensures RemoveColourCodes(s) == s
    decreases |s|
  {
    if |s| > 0 {
      UncodedUnchanged(s[1..]);
      assert s == [s[0]] + s[1..];
    }
  }

  /** A name with an unresolved localisation code. */
  predicate Unresolved(name: string)
  {
    Contains(name, "\U{00A3}") || Contains(name, SectionSign) || Contains(name, "$")
  }

  /** `bool(gc) and not gc.startswith('generic_')`. */
  predicate HasUniqueShips(gc: Option<string>)
  {
    gc.Some? && gc.value != "" && !StartsWith(gc.value, "generic_")
  }

  /** `species_class or key[:3].upper()`. */
  function ShortName(e: Empire): string
  {
    if e.speciesClass.Some? && e.speciesClass.value != "" then e.speciesClass.value else Upper(Take(e.key, 3))
  }

  /** The unresolved-code and empty-name tests and the entry that survives them. */
  function Cleaned(e: Empire): Option<EmpireEntry>
  {
    if Unresolved(e.name) then None
    else
      var clean := Strip(RemoveColourCodes(e.name));
      if clean == "" then None
      else Some(EmpireEntry(e.id, clean, ShortName(e), e.quadrant, e.graphicalCulture,
                            HasUniqueShips(e.graphicalCulture), true, e.playableCondition))
  }

  /** The message Python gives for `'2300' in None`. */
  const NoneNameKeyError: string := "argument of type 'NoneType' is not iterable"

  /** The loop body as written: `empire.get('name_key', '')` is None for a block
      without `name = "..."`, since the key is always present, and the
      membership test then raises. */
  function EntryAsWritten(e: Empire): Result<Option<EmpireEntry>>
  {
    if e.isVariant then Success(None)
    else if Contains(e.name, "2300s") then Success(None)
    else if e.nameKey.None? then Failure(NoneNameKeyError)
    else if Contains(e.nameKey.value, "2300") then Success(None)
    else Success(Cleaned(e))
  }

  /** The loop body as intended: a missing name key reads as "". */
  function EntryOf(e: Empire): Option<EmpireEntry>
  {
    if e.isVariant || Contains(e.name, "2300s") || Contains(e.nameKey.GetOr(""), "2300") then None
    else Cleaned(e)
  }

  lemma SectionSignIn(s: string)
    requires '\U{00A7}' in s
    ensures Contains(s, SectionSign)
  {
    var i :| 0 <= i < |s| && s[i] == '\U{00A7}';
    assert s[i..i + 1] == SectionSign;
    ContainsAt(s, SectionSign, i);
  }

  /** Which records give an entry, and what the entry holds: the filters in
      both directions, then the cleaned name, the fixed `playable`, the
      unique-ships rule and the short name. */
  lemma EntryOfSpec(e: Empire)
    ensures EntryOf(e).Some? <==>
      && !e.isVariant && !Contains(e.name, "2300s") && !Contains(e.nameKey.GetOr(""), "2300")
      && !Unresolved(e.name) && Strip(e.name) != ""
    ensures EntryOf(e).Some? ==>
      var x := EntryOf(e).value;
      && x.id == e.id && x.name == Strip(e.name) && x.name != "" && x.quadrant == e.quadrant && x.playable
      && (x.hasUniqueShips <==> e.graphicalCulture.Some? && e.graphicalCulture.value != ""
                                && !StartsWith(e.graphicalCulture.value, "generic_"))
      && (e.speciesClass.Some? && e.speciesClass.value != "" ==> x.shortName == e.speciesClass.value)
      && (e.speciesClass.None? || e.speciesClass.value == "" ==> x.shortName == Upper(Take(e.key, 3)))
  {
    if !Unresolved(e.name) {
      if '\U{00A7}' in e.name {
        SectionSignIn(e.name);
      }
      UncodedUnchanged(e.name);
    }
  }

  /** The written test agrees with the intended one except that it raises on
      a record without a name key that reaches it. */
  lemma EntryAsWrittenSpec(e: Empire)
    ensures EntryAsWritten(e).Failure? <==> !e.isVariant && !Contains(e.name, "2300s") && e.nameKey.None?
    ensures EntryAsWritten(e).Success? ==> EntryAsWritten(e).value == EntryOf(e)
  {
  }

  /** Any country block without `name = "..."` whose key neither ends in `_B`
      nor contains `2300s` makes the written loop raise; the intended one
      keeps it whenever its key is a usable name. */
  lemma NameKeyFinding(key: string, block: string, quadrant: string, loc: map<string, string>)
    requires !Contains(block, "name") && !EndsWith(key, "_B") && !Contains(key, "2300s")
    ensures EntryAsWritten(EmpireData(key, block, quadrant, loc)).Failure?
    ensures !Unresolved(key) && Strip(key) != "" ==> EntryOf(EmpireData(key, block, quadrant, loc)).Some?
  {
    EmpireDataSpec(key, block, quadrant, loc);
    EntryOfSpec(EmpireData(key, block, quadrant, loc));
    assert !Contains("", "2300");
  }

  function OptList<T>(o: Option<T>): seq<T>
  {
    match o
    case None => []
    case Some(x) => [x]
  }

  /** The entries of the records, in their order. */
  function Entries(empires: seq<Empire>): seq<EmpireEntry>
    decreases |empires|
  {
    if |empires| == 0 then []
    else Entries(empires[..|empires| - 1]) + OptList(EntryOf(empires[|empires| - 1]))
  }

  /** The written loop: the first record that raises ends the whole call. */
  function EntriesAsWritten(empires: seq<Empire>): Result<seq<EmpireEntry>>
    decreases |empires|
  {
    if |empires| == 0 then Success([])
    else
      match EntriesAsWritten(empires[..|empires| - 1])
      case Failure(m) => Failure(m)
      case Success(prefix) =>
        match EntryAsWritten(empires[|empires| - 1])
        case Failure(m) => Failure(m)
        case Success(o) => Success(prefix + OptList(o))
  }

  /** The written loop raises exactly when some record raises, and otherwise
      gives the intended entries. */
  lemma {:induction false} EntriesAsWrittenSpec(empires: seq<Empire>)
    ensures EntriesAsWritten(empires).Failure? <==> exists e :: e in empires && EntryAsWritten(e).Failure?
    ensures EntriesAsWritten(empires).Success? ==> EntriesAsWritten(empires).value == Entries(empires)
    decreases |empires|
  {
    if |empires| > 0 {
      var n := |empires| - 1;
      EntriesAsWrittenSpec(empires[..n]);
      EntryAsWrittenSpec(empires[n]);
      assert empires == empires[..n] + [empires[n]];
      assert forall e :: e in empires <==> e in empires[..n] || e == empires[n];
    }
  }

  /** Each entry is the entry of some record, and each record that gives one
      has it listed; every entry is playable with a non-empty name. */
  lemma {:induction false} EntriesSpec(empires: seq<Empire>)
    ensures forall x :: x in Entries(empires) ==> exists e :: e in empires && EntryOf(e) == Some(x)
    ensures forall e :: e in empires && EntryOf(e).Some? ==> EntryOf(e).value in Entries(empires)
    ensures forall x :: x in Entries(empires) ==> x.playable && x.name != ""
    decreases |empires|
  {
    if |empires| > 0 {
      var n := |empires| - 1;
      EntriesSpec(empires[..n]);
      EntryOfSpec(empires[n]);
      assert forall e :: e in empires <==> e in empires[..n] || e == empires[n];
      forall x | x in Entries(empires) ensures exists e :: e in empires && EntryOf(e) == Some(x) {
        if x in Entries(empires[..n]) {
          var e :| e in empires[..n] && EntryOf(e) == Some(x);
          assert e in empires;
        } else {
          assert empires[n] in empires;
        }
      }
    }
  }

  /** `result.sort(key=lambda x: x['name'])`. */
  function NameLe(): (EmpireEntry, EmpireEntry) -> bool
  {
    (a: EmpireEntry, b: EmpireEntry) => Below(a.name, b.name)
  }

  lemma NameLeTotalPreorder()
    ensures TotalPreorder(NameLe())
  {
    forall a: EmpireEntry, b: EmpireEntry ensures NameLe()(a, b) || NameLe()(b, a) {
      BelowTotal(a.name, b.name);
    }
    forall a: EmpireEntry, b: EmpireEntry, c: EmpireEntry | NameLe()(a, b) && NameLe()(b, c)
      ensures NameLe()(a, c)
    {
      BelowTransitive(a.name, b.name, c.name);
    }
  }

  function SortedByName(entries: seq<EmpireEntry>): (r: seq<EmpireEntry>)
    ensures SortedBy(r, NameLe()) && multiset(r) == multiset(entries)
  {
    NameLeTotalPreorder();
    SortBySorted(entries, NameLe());
    SortBy(entries, NameLe())
  }

  /** `build_empires_list` as intended. */
  function EmpiresList(files: Listing, loc: map<string, string>): seq<EmpireEntry>
  {
    SortedByName(Entries(ParsedEmpires(files, loc)))
  }

  /** `build_empires_list` as written. */
  function EmpiresListAsWritten(files: Listing, loc: map<string, string>): Result<seq<EmpireEntry>>
  {
    match EntriesAsWritten(ParsedEmpires(files, loc))
    case Failure(m) => Failure(m)
    case Success(entries) => Success(SortedByName(entries))
  }

  /** The enhancing loop over the records, with its `continue`s. */
  method EnhanceEmpires(empires: seq<Empire>) returns (result: seq<EmpireEntry>)
    ensures result == Entries(empires)
  {
    result := [];
    for i := 0 to |empires|
      invariant result == Entries(empires[..i])
    {
      assert empires[..i + 1][..i] == empires[..i];
      var empire := empires[i];
      if empire.isVariant {
        continue;
      }
      var name := empire.name;
      if Contains(name, "2300s") || Contains(empire.nameKey.GetOr(""), "2300") {
        continue;
      }
      if Unresolved(name) {
        continue;
      }
      var cleanName := Strip(RemoveColourCodes(name));
      if cleanName == "" {
        continue;
      }
      var gc := empire.graphicalCulture;
      var hasUniqueShips := gc.Some? && gc.value != "" && !StartsWith(gc.value, "generic_");
      var shortName := ShortName(empire);
      result := result + [EmpireEntry(empire.id, cleanName, shortName, empire.quadrant,
                                      empire.graphicalCulture, hasUniqueShips, true, empire.playableCondition)];
    }
    assert empires[..|empires|] == empires;
  }

  method BuildEmpiresList(files: Listing, loc: map<string, string>) returns (result: seq<EmpireEntry>)
    ensures result == EmpiresList(files, loc)
  {
    var empires := ParsePrescriptedCountries(files, loc);
    var entries := EnhanceEmpires(empires);
    result := SortedByName(entries);
  }

  /** The list is sorted by name, every entry is playable with a non-empty
      name, and it holds exactly the entries of the parsed records. */
  lemma EmpiresListSpec(files: Listing, loc: map<string, string>)
    ensures var r := EmpiresList(files, loc);
      && SortedBy(r, NameLe())
      && (forall x :: x in r ==> x.playable && x.name != "")
      && (forall x :: x in r <==> x in Entries(ParsedEmpires(files, loc)))
  {
    var entries := Entries(ParsedEmpires(files, loc));
    EntriesSpec(ParsedEmpires(files, loc));
    var r := EmpiresList(files, loc);
    forall x ensures x in r <==> x in entries {
      assert x in r <==> x in multiset(r);
      assert x in entries <==> x in multiset(entries);
    }
  }
}
