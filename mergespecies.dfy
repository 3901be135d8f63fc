/** scripts/merge_required_species.py: the species each technology of the mod
    requires, read from the technology files with the first-generation
    parser's rules, and the merge of those lists into the technology JSON
    lists. The trigger map and the directory listing are parameters; reading
    and writing the JSON files is not part of this model. */
module MergeSpecies {
  import opened Wrappers
  import opened Seqs
  import opened Text
  import opened Scan
  import opened Species
  import opened Techs

  /** `"sth" in filename`: the mod's own technology files (the `.txt` test is
      part of `Species.Selected`). */
  function SthFiles(): Option<string -> bool>
  {
    Some((name: string) => Contains(name, "sth"))
  }

  /** The species a block requires once the excluded ones are removed. */
  function FinalOf(b: (string, string), tm: TriggerMap): set<string>
  {
    FinalSpecies(PotentialOf(b.1), tm)
  }

  /** `tech_species_map` for the kept blocks: an entry for exactly the blocks
      whose final species set is not empty, holding that set, each species once. */
  predicate StoresSpecies(m: map<string, seq<string>>, blocks: seq<(string, string)>, tm: TriggerMap)
  {
    && (forall id :: id in m ==> exists b :: b in blocks && b.0 == id)
    && (forall b :: b in blocks ==> (b.0 in m <==> FinalOf(b, tm) != {}))
    && (forall b :: b in blocks && b.0 in m ==> NoDups(m[b.0]) && Elems(m[b.0]) == FinalOf(b, tm))
  }

  /** One more kept block, whose id is new: stored exactly when its species
      list is not empty. */
  lemma StoresSnoc(m: map<string, seq<string>>, blocks: seq<(string, string)>, b: (string, string),
                   species: seq<string>, tm: TriggerMap)
    requires StoresSpecies(m, blocks, tm) && b.0 !in KeptIds(blocks)
    requires NoDups(species) && Elems(species) == FinalOf(b, tm)
    ensures StoresSpecies(if |species| > 0 then m[b.0 := species] else m, blocks + [b], tm)
  {
    assert b.0 !in m;
    if |species| > 0 {
      assert species[0] in Elems(species);
      StoresAdd(m, blocks, b, species, tm);
    } else {
      StoresSkip(m, blocks, b, tm);
    }
  }

  /** The case of `StoresSnoc` where the block's list is empty. */
  lemma StoresSkip(m: map<string, seq<string>>, blocks: seq<(string, string)>, b: (string, string),
                   tm: TriggerMap)
    requires StoresSpecies(m, blocks, tm) && b.0 !in KeptIds(blocks) && FinalOf(b, tm) == {}
    ensures StoresSpecies(m, blocks + [b], tm)
  {
    var all := blocks + [b];
    forall c | c in all ensures c.0 in m <==> FinalOf(c, tm) != {} {
      if c in blocks {
        assert c.0 in KeptIds(blocks);
      }
    }
    forall id | id in m ensures exists c :: c in all && c.0 == id {
      var c :| c in blocks && c.0 == id;
      assert c in all;
    }
  }

  /** The case of `StoresSnoc` where the block's list is stored. */
  lemma StoresAdd(m: map<string, seq<string>>, blocks: seq<(string, string)>, b: (string, string),
                  species: seq<string>, tm: TriggerMap)
    requires StoresSpecies(m, blocks, tm) && b.0 !in KeptIds(blocks) && b.0 !in m
    requires NoDups(species) && Elems(species) == FinalOf(b, tm) && FinalOf(b, tm) != {}
    ensures StoresSpecies(m[b.0 := species], blocks + [b], tm)
  {
    var all := blocks + [b];
    var m' := m[b.0 := species];
    forall c | c in all ensures c.0 in m' <==> FinalOf(c, tm) != {} {
      if c in blocks {
        assert c.0 in KeptIds(blocks);
      }
    }
    forall c | c in all && c.0 in m' ensures NoDups(m'[c.0]) && Elems(m'[c.0]) == FinalOf(c, tm) {
      if c in blocks {
        assert c.0 in KeptIds(blocks);
      }
    }
    forall id | id in m' ensures exists c :: c in all && c.0 == id {
      if id == b.0 {
        assert b in all;
      } else {
        var c :| c in blocks && c.0 == id;
        assert c in all;
      }
    }
  }

  /** The block body of one kept technology: its potential block, its
      required and excluded species, and the list stored when it is not empty
      (lines 104-124). */
  method StoreBlock(techId: string, block: string, tm: TriggerMap, m: map<string, seq<string>>,
                    ghost blocks: seq<(string, string)>)
    returns (m': map<string, seq<string>>)
    requires StoresSpecies(m, blocks, tm) && techId !in KeptIds(blocks)
    ensures StoresSpecies(m', blocks + [(techId, block)], tm)
  {
    var potential := ExtractPotential(block);
    var required, excluded := RequiredSpecies(potential, tm);
    var finalSpecies := ListOfSet(required - excluded);
    StoresSnoc(m, blocks, (techId, block), finalSpecies, tm);
    m' := m;
    if |finalSpecies| > 0 {
      m' := m'[techId := finalSpecies];
    }
  }

  /** What one turn of the cursor loop does with the block it found. */
  method KeepCandidate(ghost cand: Candidate, block: Option<(string, string)>, tm: TriggerMap,
                       m: map<string, seq<string>>, seen: set<string>, ghost cs: seq<Candidate>)
    returns (m': map<string, seq<string>>, seen': set<string>)
    requires seen == KeptIds(Kept(cs)) && StoresSpecies(m, Kept(cs), tm)
    requires block == Accept(cand, seen)
    ensures seen' == KeptIds(Kept(cs + [cand])) && StoresSpecies(m', Kept(cs + [cand]), tm)
  {
    KeptSnoc(cs, cand, seen, Kept(cs));
    m', seen' := m, seen;
    if block.Some? {
      m' := StoreBlock(block.value.0, block.value.1, tm, m, Kept(cs));
      seen' := seen + {block.value.0};
    }
  }

  /** The cursor loop over one file's text (lines 76-126). `cands` holds the
      candidates of the files before this one. */
  method ScanFile(content: string, tm: TriggerMap, m: map<string, seq<string>>, seen: set<string>,
                  ghost cands: seq<Candidate>)
    returns (m': map<string, seq<string>>, seen': set<string>, ghost cands': seq<Candidate>)
    requires seen == KeptIds(Kept(cands)) && StoresSpecies(m, Kept(cands), tm)
    ensures cands' == cands + CandidatesFrom(content, 0)
    ensures seen' == KeptIds(Kept(cands')) && StoresSpecies(m', Kept(cands'), tm)
  {
    m', seen' := m, seen;
    ghost var all := cands + CandidatesFrom(content, 0);
    cands' := cands;
    var cursor := 0;
    var more := true;
    while more
      invariant cursor <= |content|
      invariant more ==> cands' + CandidatesFrom(content, cursor) == all
      invariant !more ==> cands' == all
      invariant seen' == KeptIds(Kept(cands')) && StoresSpecies(m', Kept(cands'), tm)
      decreases |content| - cursor, more
    {
      var next, block;
      ghost var cand;
      more, next, block, cand := NextTechBlock(content, cursor, seen', all, cands');
      if more {
        m', seen' := KeepCandidate(cand, block, tm, m', seen', cands');
        cands' := cands' + [cand];
        cursor := next;
      }
    }
  }

  /** `extract_required_species_from_mod`: the species map over every kept
      block of the mod's technology files, comments removed. */
  method ExtractRequiredSpeciesFromMod(files: Files, tm: TriggerMap) returns (m: map<string, seq<string>>)
    ensures StoresSpecies(m, TechBlocks(files, SthFiles()), tm)
  {
    m := map[];
    var seen: set<string> := {};
    ghost var cands: seq<Candidate> := [];
    for i := 0 to |files|
      invariant cands == FileCandidates(files[..i], SthFiles())
      invariant seen == KeptIds(Kept(cands)) && StoresSpecies(m, Kept(cands), tm)
    {
      FileCandidatesSnoc(files, SthFiles(), i);
      var (filename, text) := files[i];
      if !(Contains(filename, "sth") && EndsWith(filename, ".txt")) {
        continue;
      }
      m, seen, cands := ScanFile(StripComments(text), tm, m, seen, cands);
    }
    assert files[..|files|] == files;
  }

  /** A stored list is not empty, holds each species once, and names exactly
      the species an include trigger of the block's potential names while no
      firing exclude trigger names them. */
  lemma StoredSpeciesSpec(m: map<string, seq<string>>, files: Files, tm: TriggerMap, b: (string, string), x: string)
    requires StoresSpecies(m, TechBlocks(files, SthFiles()), tm)
    requires b in TechBlocks(files, SthFiles()) && b.0 in m
    ensures |m[b.0]| > 0 && NoDups(m[b.0])
    ensures x in m[b.0] <==>
      (exists i, t :: 0 <= i < |tm| && t in tm[i].1 && Fires(PotentialOf(b.1), t, Include) && x in t.species) &&
      !(exists i, t :: 0 <= i < |tm| && t in tm[i].1 && Fires(PotentialOf(b.1), t, Exclude) && x in t.species)
  {
    FinalSpeciesSpec(PotentialOf(b.1), tm, x);
    assert x in m[b.0] <==> x in Elems(m[b.0]);
  }

  /** A file whose name lacks `sth` or does not end in `.txt` changes nothing. */
  lemma OtherFilesIgnored(files: Files, name: string, text: string)
    requires !(Contains(name, "sth") && EndsWith(name, ".txt"))
    ensures TechBlocks(files + [(name, text)], SthFiles()) == TechBlocks(files, SthFiles())
  {
    var all := files + [(name, text)];
    assert all[..|all| - 1] == files && all[|all| - 1] == (name, text);
    assert !Selected(SthFiles(), name);
    assert FileCandidates(all, SthFiles()) == FileCandidates(files, SthFiles());
  }

  // ---------------------------------------------------------------------
  // `merge_into_jsons`

  /** A tech whose id has an entry takes that entry's species list. */
  function Merged(t: Tech, m: map<string, seq<string>>): Tech
  {
    if t.id in m then t.(requiredSpecies := m[t.id]) else t
  }

  /** `updated_count` over a list of techs. */
  function UpdatedCount(s: seq<Tech>, m: map<string, seq<string>>): (r: nat)
    ensures r <= |s|
  {
    if |s| == 0 then 0 else UpdatedCount(s[..|s| - 1], m) + if s[|s| - 1].id in m then 1 else 0
  }

  lemma UpdatedCountStep(s: seq<Tech>, m: map<string, seq<string>>, i: nat)
    requires i < |s|
    ensures UpdatedCount(s[..i + 1], m) == UpdatedCount(s[..i], m) + if s[i].id in m then 1 else 0
  {
    assert s[..i + 1][..i] == s[..i];
  }

  /** The loop over one file's techs, which rewrites `required_species` in
      place and counts the techs it rewrote. */
  method MergeIntoFile(techs: array<Tech>, m: map<string, seq<string>>) returns (updatedCount: nat)
    modifies techs
    ensures forall i :: 0 <= i < techs.Length ==> techs[i] == Merged(old(techs[i]), m)
    ensures updatedCount == UpdatedCount(old(techs[..]), m)
  {
    updatedCount := 0;
    for i := 0 to techs.Length
      invariant forall k :: 0 <= k < i ==> techs[k] == Merged(old(techs[k]), m)
      invariant forall k :: i <= k < techs.Length ==> techs[k] == old(techs[k])
      invariant updatedCount == UpdatedCount(old(techs[..])[..i], m)
    {
      UpdatedCountStep(old(techs[..]), m, i);
      var techId := techs[i].id;
      if techId in m {
        techs[i] := techs[i].(requiredSpecies := m[techId]);
        updatedCount := updatedCount + 1;
      }
    }
    assert old(techs[..])[..techs.Length] == old(techs[..]);
  }

  /** The count is the number of techs whose id has an entry. */
  lemma {:induction false} UpdatedCountSpec(s: seq<Tech>, m: map<string, seq<string>>)
    ensures UpdatedCount(s, m) == |Filter(s, (t: Tech) => t.id in m)|
  {
    if |s| > 0 {
      var init := s[..|s| - 1];
      UpdatedCountSpec(init, m);
      assert s == init + [s[|s| - 1]];
      FilterAppend(init, [s[|s| - 1]], (t: Tech) => t.id in m);
    }
  }

  /** Merging changes only the species list, and only of techs with an entry;
      merging the same map twice is merging it once. */
  lemma MergedSpec(t: Tech, m: map<string, seq<string>>)
    ensures Merged(t, m).(requiredSpecies := t.requiredSpecies) == t
    ensures t.id !in m ==> Merged(t, m) == t
    ensures t.id in m ==> Merged(t, m).requiredSpecies == m[t.id]
    ensures Merged(Merged(t, m), m) == Merged(t, m)
  {
  }

  /** After the merge with the scanned map, a tech that names a kept block
      with required species lists exactly that block's final species, and a
      tech whose id was never scanned keeps its own list. */
  lemma MergedFromScan(m: map<string, seq<string>>, files: Files, tm: TriggerMap, t: Tech)
    requires StoresSpecies(m, TechBlocks(files, SthFiles()), tm)
    ensures t.id !in KeptIds(TechBlocks(files, SthFiles())) ==> Merged(t, m) == t
    ensures forall b :: b in TechBlocks(files, SthFiles()) && b.0 == t.id && FinalOf(b, tm) != {} ==>
      Elems(Merged(t, m).requiredSpecies) == FinalOf(b, tm)
  {
    if t.id in m {
      var b :| b in TechBlocks(files, SthFiles()) && b.0 == t.id;
      assert t.id in KeptIds(TechBlocks(files, SthFiles()));
    }
  }
}
