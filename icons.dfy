/** update/extract_icon_mappings.py: which icon each technology uses. A tech
    block names its icon with `icon = name`; a block without one uses the
    tech id. The technology directory is a listing of file names with their
    contents (None for a file that cannot be read). */
module Icons {
  import opened Wrappers
  import opened Seqs
  import opened Text
  import opened Scan

  // ---------------------------------------------------------------------
  // The icon of one block

  /** `icon\s*=\s*"?([a-zA-Z0-9_-]+)"?` */
  const IconPattern: Pattern := Assign("icon", OptQuoted(IconC))

  /** The mapping rule: the first `icon =` value of the block once its
      comments are cut, else the tech id. */
  function IconOf(b: Block): string
  {
    match SearchValue(StripComments(b.body), IconPattern)
    case Some(icon) => icon
    case None => b.id
  }

  /** The icon is the value of the leftmost `icon =` match in the
      comment-free block: a run of letters, digits, `_` and `-`. */
  lemma IconOfSpec(b: Block, m: nat)
    requires m <= |StripComments(b.body)| && HitAt(StripComments(b.body), m, IconPattern).Some?
    requires forall k :: 0 <= k < m ==> HitAt(StripComments(b.body), k, IconPattern).None?
    ensures IconOf(b) == HitAt(StripComments(b.body), m, IconPattern).value.value
    ensures Captures(OptQuoted(IconC), IconOf(b))
  {
    var c := StripComments(b.body);
    SearchFirst(c, IconPattern, m);
    SearchCaptures(c, IconPattern);
  }

  /** Without an `icon =` match the icon is the tech id. */
  lemma NoMatchUsesId(b: Block)
    requires forall m :: 0 <= m <= |StripComments(b.body)| ==> HitAt(StripComments(b.body), m, IconPattern).None?
    ensures IconOf(b) == b.id
  {
    var c := StripComments(b.body);
    SearchNone(c, IconPattern);
  }

  /** A block that never says `icon` outside a comment uses its id. */
  lemma NoIconUsesId(b: Block)
    requires !Contains(StripComments(b.body), "icon")
    ensures IconOf(b) == b.id
  {
    AssignNeedsKeyword(StripComments(b.body), "icon", OptQuoted(IconC));
  }

  /** A comment at the end of a block's text changes nothing, even one that
      mentions an icon. */
  lemma TrailingCommentIgnored(id: string, a: string, c: string)
    requires '#' !in a && '\n' !in c
    ensures IconOf(Block(id, a + "#" + c)) == IconOf(Block(id, a))
  {
    StripCommentsPrefix(a, "#" + c);
    StripCommentsRemovesHash(a);
    assert StripComments("#" + c) == "" by {
      var s := "#" + c;
      forall k | 0 <= k < |s| ensures NotNewline(s[k]) {
        if k > 0 { assert s[k] == c[k - 1]; }
      }
      assert RunEnd(s, 0, NotNewline) == |s|;
      assert s[|s|..] == "";
    }
    assert a + "#" + c == a + ("#" + c);
    assert a + "" == a;
  }

  // ---------------------------------------------------------------------
  // `extract_icon_mappings`

  /** Tech ids to icon names, in first-insertion order. */
  type IconMap = Assoc<string>

  /** The `(tech_id, icon)` pair each block stores. */
  function IconEntries(blocks: seq<Block>): (r: Assoc<string>)
    ensures |r| == |blocks|
    ensures forall i :: 0 <= i < |blocks| ==> r[i] == (blocks[i].id, IconOf(blocks[i]))
  {
    MapSeq(blocks, (b: Block) => (b.id, IconOf(b)))
  }

  lemma IconEntriesAppend(a: seq<Block>, b: seq<Block>)
    ensures IconEntries(a + b) == IconEntries(a) + IconEntries(b)
  {
  }

  /** A readable `.txt` file in the listing. */
  predicate Scanned(file: (string, Option<string>))
  {
    EndsWith(file.0, ".txt") && file.1.Some?
  }

  /** The tech blocks of one file: none unless it is scanned. */
  function FileBlocks(file: (string, Option<string>)): seq<Block>
  {
    if Scanned(file) then LineBlocks(file.1.value, true) else []
  }

  /** The tech blocks of the scanned files, file after file. */
  function TechBlocks(files: Listing): seq<Block>
    decreases |files|
  {
    if |files| == 0 then [] else TechBlocks(files[..|files| - 1]) + FileBlocks(files[|files| - 1])
  }

  /** The mapping a run of blocks builds from an empty one. */
  function MappingsOf(blocks: seq<Block>): IconMap
  {
    PutAll([], IconEntries(blocks))
  }

  /** `extract_icon_mappings` on a directory listing. */
  function IconMappings(files: Listing): IconMap
  {
    MappingsOf(TechBlocks(files))
  }

  method ExtractIconMappings(files: Listing) returns (iconMappings: IconMap)
    ensures iconMappings == IconMappings(files)
  {
    iconMappings := [];
    for i := 0 to |files|
      invariant iconMappings == MappingsOf(TechBlocks(files[..i]))
    {
      TechBlocksSnoc(files, i);
      var (name, content) := files[i];
      if !(EndsWith(name, ".txt") && content.Some?) {
        assert !Scanned(files[i]);
        assert TechBlocks(files[..i + 1]) == TechBlocks(files[..i]);
        continue;
      }
      assert Scanned(files[i]) && files[i].1.value == content.value;
      var blocks := ExtractTopLevelBlocks(content.value, true);
      iconMappings := AddBlocks(blocks, iconMappings, TechBlocks(files[..i]));
    }
    assert files[..|files|] == files;
  }

  /** The inner loop: the icon of each block of one file, in order. */
  method AddBlocks(blocks: seq<Block>, iconMappings: IconMap, ghost before: seq<Block>)
    returns (iconMappings': IconMap)
    requires iconMappings == MappingsOf(before)
    ensures iconMappings' == MappingsOf(before + blocks)
  {
    iconMappings' := iconMappings;
    assert before + blocks[..0] == before;
    for j := 0 to |blocks|
      invariant iconMappings' == MappingsOf(before + blocks[..j])
    {
      AddBlockStep(before, blocks, j);
      var techId := blocks[j].id;
      var iconName := IconOf(blocks[j]);
      iconMappings' := Put(iconMappings', techId, iconName);
    }
    assert blocks[..|blocks|] == blocks;
  }

  lemma AddBlockStep(before: seq<Block>, blocks: seq<Block>, j: nat)
    requires j < |blocks|
    ensures MappingsOf(before + blocks[..j + 1]) ==
      Put(MappingsOf(before + blocks[..j]), blocks[j].id, IconOf(blocks[j]))
  {
    var done := before + blocks[..j];
    AppendSliceSnoc(before, blocks, j);
    IconEntriesAppend(done, [blocks[j]]);
    assert IconEntries([blocks[j]]) == [(blocks[j].id, IconOf(blocks[j]))];
    PutAllSnoc([], IconEntries(done), blocks[j].id, IconOf(blocks[j]));
  }

  lemma TechBlocksSnoc(files: Listing, i: nat)
    requires i < |files|
    ensures TechBlocks(files[..i + 1]) == TechBlocks(files[..i]) + FileBlocks(files[i])
  {
    assert files[..i + 1][..i] == files[..i];
  }

  /** The ids of the blocks, in order. */
  function IdsOf(blocks: seq<Block>): (r: seq<string>)
    ensures |r| == |blocks| && forall i :: 0 <= i < |blocks| ==> r[i] == blocks[i].id
  {
    MapSeq(blocks, (b: Block) => b.id)
  }

  /** Exactly the extracted techs have a mapping. */
  lemma IconMappingsKeys(files: Listing, id: string)
    ensures HasKey(IconMappings(files), id) <==> id in IdsOf(TechBlocks(files))
  {
    var blocks := TechBlocks(files);
    var entries := IconEntries(blocks);
    var empty: IconMap := [];
    assert IconMappings(files) == PutAll(empty, entries);
    PutAllHas(empty, entries, id);
    assert !HasKey(empty, id);
    assert Keys(entries) == IdsOf(blocks);
  }

  /** A tech's icon is the one of its last block: a later block with the
      same id overwrites the earlier mapping. */
  lemma IconMappingsLastWins(files: Listing, i: nat)
    requires i < |TechBlocks(files)|
    requires forall l :: i < l < |TechBlocks(files)| ==> TechBlocks(files)[l].id != TechBlocks(files)[i].id
    ensures Get(IconMappings(files), TechBlocks(files)[i].id) == Some(IconOf(TechBlocks(files)[i]))
  {
    var blocks := TechBlocks(files);
    var entries := IconEntries(blocks);
    assert forall l :: i < l < |entries| ==> entries[l].0 != entries[i].0;
    PutAllLast([], entries, i);
  }

  /** Each tech id appears once. */
  lemma IconMappingsDistinct(files: Listing)
    ensures NoDups(Keys(IconMappings(files)))
  {
    var empty: IconMap := [];
    assert Keys(empty) == [];
    PutAllNoDups(empty, IconEntries(TechBlocks(files)));
  }

  /** Every block of a scanned file comes out of the scan. */
  lemma {:induction false} TechBlocksOfFiles(files: Listing, i: nat, b: Block)
    requires i < |files| && Scanned(files[i]) && b in LineBlocks(files[i].1.value, true)
    ensures b in TechBlocks(files)
  {
    assert b in FileBlocks(files[i]);
    FileBlocksIn(files, i, b);
  }

  lemma {:induction false} FileBlocksIn(files: Listing, i: nat, b: Block)
    requires i < |files| && b in FileBlocks(files[i])
    ensures b in TechBlocks(files)
    decreases |files|
  {
    var n := |files| - 1;
    assert TechBlocks(files) == TechBlocks(files[..n]) + FileBlocks(files[n]);
    if i < n {
      assert files[..n][i] == files[i];
      FileBlocksIn(files[..n], i, b);
    } else {
      assert i == n;
    }
  }

  /** Every block's id is a `tech_` word. */
  lemma {:induction false} TechBlockIds(files: Listing, b: Block)
    requires b in TechBlocks(files)
    ensures IdWellFormed(b.id, true)
    decreases |files|
  {
    var n := |files| - 1;
    if b in TechBlocks(files[..n]) {
      TechBlockIds(files[..n], b);
    } else {
      BlockIdsWellFormed(files[n].1.value, true, b);
    }
  }

  // ---------------------------------------------------------------------
  // `analyze_missing_icons`

  /** A listed tech with its mapped icon, defaulting to its id. */
  function Resolve(mappings: IconMap, techId: string): (string, string)
  {
    (techId, Get(mappings, techId).GetOr(techId))
  }

  function Resolved(mappings: IconMap, techs: seq<string>): (r: seq<(string, string)>)
    ensures |r| == |techs|
    ensures forall i :: 0 <= i < |techs| ==> r[i] == Resolve(mappings, techs[i])
  {
    MapSeq(techs, (t: string) => Resolve(mappings, t))
  }

  function IconExists(existing: set<string>): ((string, string)) -> bool
  {
    (p: (string, string)) => p.1 in existing
  }

  function IconMissing(existing: set<string>): ((string, string)) -> bool
  {
    (p: (string, string)) => p.1 !in existing
  }

  /** The listed techs: `text.strip().split('\n')`. */
  function MissingTechs(text: string): seq<string>
  {
    SplitOn(Strip(text), '\n')
  }

  /** The result dictionary. */
  datatype Analysis = Analysis(foundViaMapping: seq<(string, string)>, actuallyMissing: seq<(string, string)>, iconMappings: IconMap)

  /** `analyze_missing_icons`: None when the missing-icons list does not
      exist; `existing` is the set of `.dds` file stems. */
  function AnalyzeSpec(mappings: IconMap, missingFile: Option<string>, existing: set<string>): Option<Analysis>
  {
    match missingFile
    case None => None
    case Some(text) =>
      var r := Resolved(mappings, MissingTechs(text));
      Some(Analysis(Filter(r, IconExists(existing)), Filter(r, IconMissing(existing)), mappings))
  }

  method AnalyzeMissingIcons(mappings: IconMap, missingFile: Option<string>, existing: set<string>) returns (r: Option<Analysis>)
    ensures r == AnalyzeSpec(mappings, missingFile, existing)
  {
    if missingFile.None? {
      return None;
    }
    var missingTechs := MissingTechs(missingFile.value);
    ghost var all := Resolved(mappings, missingTechs);
    var actuallyMissing := [];
    var foundViaMapping := [];
    for i := 0 to |missingTechs|
      invariant foundViaMapping == Filter(all[..i], IconExists(existing))
      invariant actuallyMissing == Filter(all[..i], IconMissing(existing))
    {
      var techId := missingTechs[i];
      var iconName := Get(mappings, techId).GetOr(techId);
      assert all[i] == (techId, iconName);
      FilterSnoc(all, i, IconExists(existing));
      FilterSnoc(all, i, IconMissing(existing));
      if iconName in existing {
        foundViaMapping := foundViaMapping + [(techId, iconName)];
      } else {
        actuallyMissing := actuallyMissing + [(techId, iconName)];
      }
    }
    assert all[..|missingTechs|] == all;
    r := Some(Analysis(foundViaMapping, actuallyMissing, mappings));
  }

  /** Each listed tech lands in exactly one of the two lists. */
  lemma AnalysisPartition(mappings: IconMap, text: string, existing: set<string>)
    ensures var a := AnalyzeSpec(mappings, Some(text), existing).value;
      && multiset(a.foundViaMapping) + multiset(a.actuallyMissing) == multiset(Resolved(mappings, MissingTechs(text)))
      && |a.foundViaMapping| + |a.actuallyMissing| == |MissingTechs(text)|
  {
    FilterPartition(Resolved(mappings, MissingTechs(text)), IconExists(existing), IconMissing(existing));
  }

  /** A listed tech is paired with its mapped icon, in the found list iff
      that icon exists and in the missing list otherwise. */
  lemma AnalysisPlacement(mappings: IconMap, text: string, existing: set<string>, t: string)
    requires t in MissingTechs(text)
    ensures var a := AnalyzeSpec(mappings, Some(text), existing).value;
      var icon := Get(mappings, t).GetOr(t);
      && (icon in existing ==> (t, icon) in a.foundViaMapping && (t, icon) !in a.actuallyMissing)
      && (icon !in existing ==> (t, icon) in a.actuallyMissing && (t, icon) !in a.foundViaMapping)
  {
    var techs := MissingTechs(text);
    var all := Resolved(mappings, techs);
    var i :| 0 <= i < |techs| && techs[i] == t;
    assert all[i] in all;
  }
}
