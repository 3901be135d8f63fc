/** The first-generation technology list of scripts/create_tech_json.py
    (`parse_stellaris_tech_files`): one record per technology block, with the
    fields read by the script's regular expressions and the species its
    potential block requires. */
module CreateTechJson {
  import opened Wrappers
  import opened Seqs
  import opened Text
  import opened Numbers
  import opened Scan
  import opened Species

  /** One entry of `technology.json`. */
  datatype TechData = TechData(
    id: string,
    name: string,
    area: Option<string>,
    tier: nat,
    cost: nat,
    prerequisites: seq<string>,
    weight: Option<string>,
    requiredSpecies: seq<string>)

  /** `area\s*=\s*(\w+)` */
  const AreaPattern: Pattern := Assign("area", Run(WordC))
  /** `prerequisites\s*=\s*\{([^}]+)\}` */
  const PrereqPattern: Pattern := Assign("prerequisites", Braced)
  /** `^\s*weight\s*=\s*@?[\w\.]+` in multi-line mode. */
  const WeightPattern: Pattern := LineAssign("weight", AtRun(DottedC))

  /** `loc_map.get(tech_id, tech_id)` */
  function NameOf(id: string, loc: map<string, string>): string
  {
    if id in loc then loc[id] else id
  }

  /** `kw\s*=\s*(\d+)` read as a number, 0 when absent (`tier`, `cost`). */
  function NumberOf(body: string, kw: string): nat
  {
    match SearchValue(body, Assign(kw, Run(DigitC)))
    case None => 0
    case Some(w) =>
      SearchCaptures(body, Assign(kw, Run(DigitC)));
      DigitsValue(w)
  }

  /** `p.strip().strip('"')` */
  function CleanPrereq(p: string): string
  {
    StripChar(Strip(p), '"')
  }

  /** The prerequisites group split on whitespace, quotes stripped; none
      without a group. */
  function PrerequisitesOf(body: string): seq<string>
  {
    match SearchValue(body, PrereqPattern)
    case None => []
    case Some(g) => MapSeq(Words(g), CleanPrereq)
  }

  /** `weight_match.group(0).split('=')[1].strip()` */
  function WeightOf(body: string): Option<string>
  {
    match Search(body, WeightPattern)
    case None => None
    case Some(h) =>
      var parts := SplitOn(body[h.start..h.end], '=');
      if |parts| > 1 then Some(Strip(parts[1])) else None
  }

  /** `t` is the record the script writes for the block `b`: the species list
      holds the final species once each, in an order the model leaves open. */
  predicate Realises(t: TechData, b: (string, string), tm: TriggerMap, loc: map<string, string>)
  {
    && t.id == b.0
    && t.name == NameOf(b.0, loc)
    && t.area == SearchValue(b.1, AreaPattern)
    && t.tier == NumberOf(b.1, "tier")
    && t.cost == NumberOf(b.1, "cost")
    && t.prerequisites == PrerequisitesOf(b.1)
    && t.weight == WeightOf(b.1)
    && NoDups(t.requiredSpecies)
    && Elems(t.requiredSpecies) == FinalSpecies(PotentialOf(b.1), tm)
  }

  /** The records, one per block, in order. */
  predicate Describes(ts: seq<TechData>, blocks: seq<(string, string)>, tm: TriggerMap, loc: map<string, string>)
  {
    |ts| == |blocks| && forall i :: 0 <= i < |ts| ==> Realises(ts[i], blocks[i], tm, loc)
  }

  /** The field extraction for one kept block (lines 126-172). */
  method BuildTechData(techId: string, block: string, tm: TriggerMap, loc: map<string, string>) returns (t: TechData)
    ensures Realises(t, (techId, block), tm, loc)
  {
    var potential := ExtractPotential(block);
    var required, excluded := RequiredSpecies(potential, tm);
    var finalSpecies := ListOfSet(required - excluded);
    t := TechData(techId, NameOf(techId, loc), SearchValue(block, AreaPattern),
                  NumberOf(block, "tier"), NumberOf(block, "cost"),
                  PrerequisitesOf(block), WeightOf(block), finalSpecies);
  }

  lemma DescribesSnoc(ts: seq<TechData>, blocks: seq<(string, string)>, t: TechData, b: (string, string),
                      tm: TriggerMap, loc: map<string, string>)
    requires Describes(ts, blocks, tm, loc) && Realises(t, b, tm, loc)
    ensures Describes(ts + [t], blocks + [b], tm, loc)
  {
  }

  /** What one turn of the cursor loop does with the block it found: a
      kept block gets its record. */
  method KeepCandidate(ghost cand: Candidate, block: Option<(string, string)>, tm: TriggerMap,
                       loc: map<string, string>, techs: seq<TechData>, techIds: set<string>,
                       ghost cs: seq<Candidate>)
    returns (techs': seq<TechData>, techIds': set<string>)
    requires techIds == KeptIds(Kept(cs)) && Describes(techs, Kept(cs), tm, loc)
    requires block == Accept(cand, techIds)
    ensures techIds' == KeptIds(Kept(cs + [cand])) && Describes(techs', Kept(cs + [cand]), tm, loc)
  {
    KeptSnoc(cs, cand, techIds, Kept(cs));
    techs', techIds' := techs, techIds;
    if block.Some? {
      var t := BuildTechData(block.value.0, block.value.1, tm, loc);
      DescribesSnoc(techs, Kept(cs), t, block.value, tm, loc);
      techs' := techs + [t];
      techIds' := techIds + {block.value.0};
    }
  }

  /** The cursor loop over one file's text (lines 98-174). `cands` holds the
      candidates of the files before this one. */
  method ParseFile(content: string, tm: TriggerMap, loc: map<string, string>,
                   techs: seq<TechData>, techIds: set<string>, ghost cands: seq<Candidate>)
    returns (techs': seq<TechData>, techIds': set<string>, ghost cands': seq<Candidate>)
    requires techIds == KeptIds(Kept(cands)) && Describes(techs, Kept(cands), tm, loc)
    ensures cands' == cands + CandidatesFrom(content, 0)
    ensures techIds' == KeptIds(Kept(cands')) && Describes(techs', Kept(cands'), tm, loc)
  {
    techs', techIds' := techs, techIds;
    ghost var all := cands + CandidatesFrom(content, 0);
    cands' := cands;
    var cursor := 0;
    var more := true;
    while more
      invariant cursor <= |content|
      invariant more ==> cands' + CandidatesFrom(content, cursor) == all
      invariant !more ==> cands' == all
      invariant techIds' == KeptIds(Kept(cands')) && Describes(techs', Kept(cands'), tm, loc)
      decreases |content| - cursor, more
    {
      var next, block;
      ghost var cand;
      more, next, block, cand := NextTechBlock(content, cursor, techIds', all, cands');
      if more {
        techs', techIds' := KeepCandidate(cand, block, tm, loc, techs', techIds', cands');
        cands' := cands' + [cand];
        cursor := next;
      }
    }
  }

  /** `parse_stellaris_tech_files`: nothing when the directory is missing,
      otherwise the records of every kept block of the selected files. */
  method ParseTechFiles(dir: Option<Files>, fileFilter: Option<string -> bool>, tm: TriggerMap, loc: map<string, string>)
    returns (r: Option<seq<TechData>>)
    ensures dir.None? ==> r.None?
    ensures dir.Some? ==> r.Some? && Describes(r.value, TechBlocks(dir.value, fileFilter), tm, loc)
  {
    if dir.None? {
      return None;
    }
    var files := dir.value;
    var allTechnologies: seq<TechData> := [];
    var techIds: set<string> := {};
    ghost var cands: seq<Candidate> := [];
    for i := 0 to |files|
      invariant cands == FileCandidates(files[..i], fileFilter)
      invariant techIds == KeptIds(Kept(cands)) && Describes(allTechnologies, Kept(cands), tm, loc)
    {
      FileCandidatesSnoc(files, fileFilter, i);
      var (filename, text) := files[i];
      if fileFilter.Some? && !fileFilter.value(filename) {
        continue;
      }
      if EndsWith(filename, ".txt") {
        allTechnologies, techIds, cands := ParseFile(StripComments(text), tm, loc, allTechnologies, techIds, cands);
      }
    }
    assert files[..|files|] == files;
    return Some(allTechnologies);
  }

  // ---------------------------------------------------------------------
  // Properties of the records

  /** No technology id is written twice. */
  lemma TechIdsDistinct(ts: seq<TechData>, files: Files, fileFilter: Option<string -> bool>, tm: TriggerMap, loc: map<string, string>)
    requires Describes(ts, TechBlocks(files, fileFilter), tm, loc)
    ensures forall i, j :: 0 <= i < j < |ts| ==> ts[i].id != ts[j].id
  {
    KeptDistinct(FileCandidates(files, fileFilter));
  }

  /** No species an exclude trigger names and fires for survives, and each
      one listed comes from a firing include trigger. */
  lemma SpeciesRequiredNotExcluded(t: TechData, b: (string, string), tm: TriggerMap, loc: map<string, string>, x: string)
    requires Realises(t, b, tm, loc) && x in t.requiredSpecies
    ensures x in Collected(PotentialOf(b.1), AllTriggers(tm), Include)
    ensures x !in Collected(PotentialOf(b.1), AllTriggers(tm), Exclude)
  {
    assert x in Elems(t.requiredSpecies);
  }

  /** Tier and cost are 0 when their keyword does not occur. */
  lemma NumberDefault(body: string, kw: string)
    requires !Contains(body, kw)
    ensures NumberOf(body, kw) == 0
  {
    AssignNeedsKeyword(body, kw, Run(DigitC));
  }

  /** A prerequisite as stored: no whitespace, and no quote at either end. */
  predicate CleanId(p: string)
  {
    (forall m :: 0 <= m < |p| ==> !IsSpace(p[m])) && (|p| > 0 ==> p[0] != '"' && p[|p| - 1] != '"')
  }

  /** The prerequisites are the whitespace-separated tokens of the group, each
      with its quotes stripped: none holds whitespace or starts or ends with a
      quote. */
  lemma PrerequisitesSpec(body: string)
    ensures SearchValue(body, PrereqPattern).None? ==> PrerequisitesOf(body) == []
    ensures SearchValue(body, PrereqPattern).Some? ==> |PrerequisitesOf(body)| == |Words(SearchValue(body, PrereqPattern).value)|
    ensures forall k :: 0 <= k < |PrerequisitesOf(body)| ==> CleanId(PrerequisitesOf(body)[k])
  {
    match SearchValue(body, PrereqPattern)
    case None =>
    case Some(g) =>
      var ws := Words(g);
      var ps := PrerequisitesOf(body);
      assert ps == MapSeq(ws, CleanPrereq);
      forall k | 0 <= k < |ps|
        ensures CleanId(ps[k])
      {
        assert ps[k] == CleanPrereq(ws[k]);
        TokenClean(ws[k]);
      }
  }

  lemma TokenClean(w: string)
    requires IsToken(w)
    ensures CleanId(CleanPrereq(w))
  {
    StripUntrimmed(w);
    StripCharToken(w, '"');
  }

  /** The weight the script stores is exactly the value the pattern matched:
      `@?[\w.]+`, with the keyword, the `=` and the spaces around them dropped. */
  lemma WeightSpec(body: string)
    ensures WeightOf(body) == SearchValue(body, WeightPattern)
    ensures WeightOf(body).Some? ==> Captures(AtRun(DottedC), WeightOf(body).value)
  {
    SearchCaptures(body, WeightPattern);
    match Search(body, WeightPattern)
    case None =>
    case Some(h) =>
      WeightSplit(body, h.start);
  }

  lemma WeightSplit(s: string, i: nat)
    requires i <= |s| && HitAt(s, i, WeightPattern).Some?
    ensures var h := HitAt(s, i, WeightPattern).value;
      var parts := SplitOn(s[i..h.end], '=');
      |parts| > 1 && Strip(parts[1]) == h.value
  {
    LineAssignSplit(s, i, "weight", DottedC);
  }

  /** The text of a match of `^\s*kw\s*=\s*(@?cls+)` is `spaces kw spaces =
      spaces value`; split at `=` and stripped, its second part is the value. */
  lemma LineAssignSplit(s: string, i: nat, kw: string, k: CharClass)
    requires i <= |s| && HitAt(s, i, LineAssign(kw, AtRun(k))).Some?
    requires '=' !in kw && forall c :: InClass(c, k) ==> c != '=' && !IsSpace(c)
    ensures var h := HitAt(s, i, LineAssign(kw, AtRun(k))).value;
      var parts := SplitOn(s[i..h.end], '=');
      |parts| > 1 && Strip(parts[1]) == h.value
  {
    var h := HitAt(s, i, LineAssign(kw, AtRun(k))).value;
    var j := RunEnd(s, i, IsSpace);
    var g := AssignHit(s, j, kw, AtRun(k)).value;
    assert h.value == g.value && h.end == g.end;
    var a, b := AssignHitParts(s, j, kw, k);
    LineAssignSplitAt(s, i, j, a, b, kw, k, g.value, g.end);
  }

  /** The parts of a `kw\s*=\s*(@?cls+)` match at `j`: the keyword, the
      spaces around `=` and the value. */
  lemma AssignHitParts(s: string, j: nat, kw: string, k: CharClass) returns (a: nat, b: nat)
    requires j <= |s| && AssignHit(s, j, kw, AtRun(k)).Some?
    ensures OccursAt(s, kw, j) && j + |kw| <= a < b <= |s| && s[a] == '='
    ensures forall m :: j + |kw| <= m < a ==> IsSpace(s[m])
    ensures forall m :: a + 1 <= m < b ==> IsSpace(s[m])
    ensures AtRunValue(s, b, k) ==
      Some((AssignHit(s, j, kw, AtRun(k)).value.value, AssignHit(s, j, kw, AtRun(k)).value.end))
  {
    a := RunEnd(s, j + |kw|, IsSpace);
    assert AssignEnd(s, j + |kw|).Some?;
    b := RunEnd(s, a + 1, IsSpace);
  }

  /** The same, with the positions of the parts given. */
  lemma LineAssignSplitAt(s: string, i: nat, j: nat, a: nat, b: nat, kw: string, k: CharClass, w: string, e: nat)
    requires i <= j && OccursAt(s, kw, j) && j + |kw| <= a < b <= |s| && s[a] == '='
    requires forall m :: i <= m < j ==> IsSpace(s[m])
    requires forall m :: j + |kw| <= m < a ==> IsSpace(s[m])
    requires forall m :: a + 1 <= m < b ==> IsSpace(s[m])
    requires AtRunValue(s, b, k) == Some((w, e))
    requires '=' !in kw && forall c :: InClass(c, k) ==> c != '=' && !IsSpace(c)
    ensures var parts := SplitOn(s[i..e], '=');
      |parts| > 1 && Strip(parts[1]) == w
  {
    assert w == s[b..e];
    AtRunCaptures(s, b, k);
    forall m | i <= m < a ensures s[m] != '=' {
      if j <= m < j + |kw| {
        assert s[m] == s[j..j + |kw|][m - j] == kw[m - j];
      }
    }
    forall m | a + 1 <= m < e ensures s[m] != '=' {
      if b <= m {
        assert s[m] == w[m - b];
      }
    }
    assert !IsSpace(w[|w| - 1]) by {
      assert |w| == 1 ==> w[0] != '@';
    }
    SplitValue(s, i, a, b, e);
  }

  /** A stretch of text with one `=`, followed by spaces and a value that
      neither starts nor ends with a space: its second part, stripped, is the
      value. */
  lemma SplitValue(s: string, i: nat, a: nat, b: nat, e: nat)
    requires i <= a < b < e <= |s| && s[a] == '='
    requires forall m :: i <= m < e && m != a ==> s[m] != '='
    requires forall m :: a + 1 <= m < b ==> IsSpace(s[m])
    requires !IsSpace(s[b]) && !IsSpace(s[e - 1])
    ensures var parts := SplitOn(s[i..e], '=');
      |parts| > 1 && Strip(parts[1]) == s[b..e]
  {
    var x := s[i..e];
    SplitAtEquals(x, a - i);
    assert x[a - i + 1..] == s[a + 1..b] + s[b..e];
    StripAfterSpaces(s[a + 1..b], s[b..e]);
  }

  lemma NoEquals(x: string)
    requires AllSpace(x)
    ensures '=' !in x
  {
  }
}
