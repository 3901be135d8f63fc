/** What scripts/create_tech_json.py and scripts/merge_required_species.py
    share: the species a potential block requires (`get_required_species_recursive`),
    the potential block itself, and the cursor loop that walks a technology
    file header by header, keeping the first balanced definition of each id. */
module Species {
  import opened Wrappers
  import opened Seqs
  import opened Text
  import opened Scan

  // ---------------------------------------------------------------------
  // Triggers

  /** One entry of `trigger_map.json`: a condition keyword, the species it
      names, and whether it includes or excludes them. */
  datatype Trigger = Trigger(condition: string, species: seq<string>, kind: string)

  /** `trigger_map.json`: trigger lists by category, in file order. */
  type TriggerMap = Assoc<seq<Trigger>>

  const Include: string := "include"
  const Exclude: string := "exclude"

  /** The categories' trigger lists, one after the other. */
  function AllTriggers(m: TriggerMap): seq<Trigger>
  {
    if m == [] then [] else AllTriggers(m[..|m| - 1]) + m[|m| - 1].1
  }

  /** A trigger is in the flattened list exactly when some category holds it. */
  lemma {:induction false} AllTriggersSpec(m: TriggerMap, t: Trigger)
    ensures t in AllTriggers(m) <==> exists i :: 0 <= i < |m| && t in m[i].1
  {
    if m != [] {
      var init := m[..|m| - 1];
      AllTriggersSpec(init, t);
      assert forall i :: 0 <= i < |init| ==> init[i] == m[i];
      if t in m[|m| - 1].1 {
        assert t in m[|m| - 1].1;
      }
    }
  }

  /** The `for category in trigger_map.values(): all_triggers.extend(category)` loop. */
  method FlattenTriggers(m: TriggerMap) returns (all: seq<Trigger>)
    ensures all == AllTriggers(m)
  {
    all := [];
    for i := 0 to |m|
      invariant all == AllTriggers(m[..i])
    {
      assert m[..i + 1][..i] == m[..i];
      all := all + m[i].1;
    }
    assert m[..|m|] == m;
  }

  /** A trigger of `kind` whose condition occurs in `block` as a whole word
      (`re.search(r'\b' + re.escape(condition) + r'\b', block)`). */
  predicate Fires(block: string, t: Trigger, kind: string)
  {
    t.kind == kind && ContainsWord(block, t.condition)
  }

  /** The species of the triggers of `kind` that fire on `block`. */
  function Collected(block: string, triggers: seq<Trigger>, kind: string): set<string>
  {
    if triggers == [] then {}
    else
      var t := triggers[|triggers| - 1];
      Collected(block, triggers[..|triggers| - 1], kind) + (if Fires(block, t, kind) then Elems(t.species) else {})
  }

  /** A species is collected exactly when a firing trigger of the kind names it. */
  lemma {:induction false} CollectedSpec(block: string, triggers: seq<Trigger>, kind: string, x: string)
    ensures x in Collected(block, triggers, kind) <==> exists t :: t in triggers && Fires(block, t, kind) && x in t.species
  {
    if triggers != [] {
      var init := triggers[..|triggers| - 1];
      var t := triggers[|triggers| - 1];
      CollectedSpec(block, init, kind, x);
      assert triggers == init + [t];
    }
  }

  /** `get_required_species_recursive`: the species of the include triggers and
      of the exclude triggers that fire on the block. */
  method RequiredSpecies(block: string, m: TriggerMap) returns (required: set<string>, excluded: set<string>)
    ensures required == Collected(block, AllTriggers(m), Include)
    ensures excluded == Collected(block, AllTriggers(m), Exclude)
  {
    var all := FlattenTriggers(m);
    required, excluded := {}, {};
    for i := 0 to |all|
      invariant required == Collected(block, all[..i], Include)
      invariant excluded == Collected(block, all[..i], Exclude)
    {
      CollectedSnoc(block, all, i, Include);
      CollectedSnoc(block, all, i, Exclude);
      var t := all[i];
      if ContainsWord(block, t.condition) {
        if t.kind == Include {
          assert Include[0] != Exclude[0];
          required := required + Elems(t.species);
        } else if t.kind == Exclude {
          excluded := excluded + Elems(t.species);
        }
      }
    }
    assert all[..|all|] == all;
  }

  lemma CollectedSnoc(block: string, triggers: seq<Trigger>, i: nat, kind: string)
    requires i < |triggers|
    ensures Collected(block, triggers[..i + 1], kind) ==
      Collected(block, triggers[..i], kind) + (if Fires(block, triggers[i], kind) then Elems(triggers[i].species) else {})
  {
    assert triggers[..i + 1][..i] == triggers[..i];
  }

  /** `required - excluded`. */
  function FinalSpecies(block: string, m: TriggerMap): set<string>
  {
    Collected(block, AllTriggers(m), Include) - Collected(block, AllTriggers(m), Exclude)
  }

  /** A species is required exactly when an include trigger of some category
      names it and fires, and no exclude trigger that names it fires. */
  lemma FinalSpeciesSpec(block: string, m: TriggerMap, x: string)
    ensures x in FinalSpecies(block, m) <==>
      (exists i, t :: 0 <= i < |m| && t in m[i].1 && Fires(block, t, Include) && x in t.species) &&
      !(exists i, t :: 0 <= i < |m| && t in m[i].1 && Fires(block, t, Exclude) && x in t.species)
  {
    CollectedSpec(block, AllTriggers(m), Include, x);
    CollectedSpec(block, AllTriggers(m), Exclude, x);
    forall t ensures t in AllTriggers(m) <==> exists i :: 0 <= i < |m| && t in m[i].1 {
      AllTriggersSpec(m, t);
    }
  }

  // ---------------------------------------------------------------------
  // The potential block

  /** `potential\s*=\s*{` */
  const PotentialOpen: Pattern := Assign("potential", Open)

  /** The text between `potential = {` and the `}` that balances it, or ""
      when there is no such header or its braces never balance. */
  function PotentialOf(block: string): string
  {
    match Search(block, PotentialOpen)
    case None => ""
    case Some(h) =>
      match CloseFrom(block, h.end, 1, h.end)
      case None => ""
      case Some(c) => block[h.end..c]
  }

  /** The potential block follows the opening brace and ends at the first
      `}` that balances it, with as many `{` as `}` in between. */
  lemma PotentialSpec(block: string)
    ensures Search(block, PotentialOpen).None? ==> PotentialOf(block) == ""
    ensures Search(block, PotentialOpen).Some? ==>
      var e := Search(block, PotentialOpen).value.end;
      && block[e - 1] == '{'
      && (CloseFrom(block, e, 1, e).None? ==> PotentialOf(block) == "")
      && (CloseFrom(block, e, 1, e).Some? ==>
            var c := CloseFrom(block, e, 1, e).value;
            PotentialOf(block) == block[e..c] && block[c] == '}' && Net(PotentialOf(block)) == 0)
  {
    match Search(block, PotentialOpen)
    case None =>
    case Some(h) =>
      OpenHitBrace(block, h.start, "potential");
      var e := h.end;
      match CloseFrom(block, e, 1, e)
      case None =>
      case Some(c) =>
        DepthNet(block, e, 1, c + 1);
        NetSnoc(block, e, c);
  }

  /** No `}` inside the potential block closes it early. */
  lemma PotentialShortest(block: string)
    ensures var r := PotentialOf(block);
      forall j :: 0 <= j < |r| && r[j] == '}' ==> Net(r[..j + 1]) != -1
  {
    match Search(block, PotentialOpen)
    case None =>
    case Some(h) =>
      var e := h.end;
      match CloseFrom(block, e, 1, e)
      case None =>
      case Some(c) =>
        var r := block[e..c];
        forall j | 0 <= j < |r| && r[j] == '}' ensures Net(r[..j + 1]) != -1 {
          assert r[..j + 1] == block[e..e + j + 1];
          DepthNet(block, e, 1, e + j + 1);
        }
  }

  /** The `potential` search and the brace loop after it. */
  method ExtractPotential(block: string) returns (content: string)
    ensures content == PotentialOf(block)
  {
    content := "";
    var m := Search(block, PotentialOpen);
    if m.Some? {
      content := BalancedFrom(block, m.value.end);
    }
  }

  /** The `for i, char in enumerate(block_content[start:])` loop: the text
      from `start` up to the `}` that balances an already open brace, or ""
      when none does. */
  method BalancedFrom(block: string, start: nat) returns (content: string)
    requires start <= |block|
    ensures content == match CloseFrom(block, start, 1, start) case None => "" case Some(c) => block[start..c]
  {
    content := "";
    var braces := 1;
    var i := 0;
    while start + i < |block|
      invariant start + i <= |block|
      invariant braces > 0 && braces == Depth(block, start, 1, start + i)
      invariant CloseFrom(block, start, 1, start + i) == CloseFrom(block, start, 1, start)
    {
      var ch := block[start + i];
      if ch == '{' {
        braces := braces + 1;
      } else if ch == '}' {
        braces := braces - 1;
      }
      if braces == 0 {
        content := block[start..start + i];
        return;
      }
      i := i + 1;
    }
  }

  // ---------------------------------------------------------------------
  // The cursor loop over one file

  /** `^\s*([\w\._-]+)\s*=\s*\{` in multi-line mode. */
  const TechStart: Pattern := Header(Run(ScriptC), true)

  /** What the cursor loop finds at one header: the id, and the body up to
      the brace that balances it, or None when the braces never balance. */
  datatype Candidate = Candidate(id: string, body: Option<string>)

  /** `tech_start_re.search(content, cursor)`: the id and the position after its `{`. */
  function NextHeader(content: string, cursor: nat): (r: Option<(string, nat)>)
    requires cursor <= |content|
    ensures r.Some? ==> cursor < r.value.1 <= |content| && content[r.value.1 - 1] == '{'
  {
    match SearchFrom(content, cursor, TechStart)
    case None => None
    case Some(h) => Some((h.value, h.end))
  }

  /** The body of a block opened just before `start`: the text up to the
      closing brace, or None when the braces never balance. */
  function BodyOf(content: string, start: nat): Option<string>
    requires start <= |content|
  {
    match CloseFrom(content, start, 1, start)
    case None => None
    case Some(c) => Some(content[start..c])
  }

  /** Every header the cursor loop meets from `cursor`, in order; the loop
      resumes after each block's closing brace (or stops at the end of the
      text when it never closes). */
  function CandidatesFrom(content: string, cursor: nat): seq<Candidate>
    requires cursor <= |content|
    decreases |content| - cursor
  {
    if cursor == |content| then []
    else match NextHeader(content, cursor)
      case None => []
      case Some((id, start)) =>
        [Candidate(id, BodyOf(content, start))] + CandidatesFrom(content, BlockEnd(content, start))
  }

  const KeywordBlocklist: seq<string> := [
    "if", "else", "limit", "modifier", "weight_modifier", "potential",
    "trigger", "OR", "AND", "NOT", "NOR", "weight_groups",
    "mod_weight_if_group_picked", "feature_flags", "category",
    "prereqfor_desc", "diplo_action", "ship", "custom",
    "has_trait_in_council", "prerequisites", "ai_weight"]

  /** A balanced block whose id is not a script keyword. */
  predicate Eligible(c: Candidate)
  {
    c.body.Some? && c.id !in KeywordBlocklist
  }

  /** What the loop does with one candidate given the ids seen so far: an
      eligible candidate with a new id is kept. */
  function Accept(c: Candidate, seen: set<string>): (r: Option<(string, string)>)
    ensures r.Some? <==> Eligible(c) && c.id !in seen
    ensures r.Some? ==> r.value == (c.id, c.body.value)
  {
    if Eligible(c) && c.id !in seen then Some((c.id, c.body.value)) else None
  }

  function KeptIds(kept: seq<(string, string)>): set<string>
  {
    set b | b in kept :: b.0
  }

  /** The blocks the loop keeps from a run of candidates, in order. */
  function Kept(cs: seq<Candidate>): seq<(string, string)>
  {
    if cs == [] then []
    else
      var k := Kept(cs[..|cs| - 1]);
      match Accept(cs[|cs| - 1], KeptIds(k))
      case None => k
      case Some(b) => k + [b]
  }

  /** One more candidate: kept exactly when `Accept` keeps it. */
  lemma KeptSnoc(cs: seq<Candidate>, c: Candidate, seen: set<string>, kept: seq<(string, string)>)
    requires kept == Kept(cs) && seen == KeptIds(kept)
    ensures Kept(cs + [c]) == kept + (match Accept(c, seen) case None => [] case Some(b) => [b])
    ensures KeptIds(Kept(cs + [c])) == seen + (match Accept(c, seen) case None => {} case Some(b) => {b.0})
  {
    assert (cs + [c])[..|cs|] == cs;
  }

  /** The candidate that first defines an eligible id. */
  predicate FirstEligible(cs: seq<Candidate>, i: int)
  {
    0 <= i < |cs| && Eligible(cs[i]) && forall j :: 0 <= j < i ==> !(Eligible(cs[j]) && cs[j].id == cs[i].id)
  }

  /** The kept ids: those of the eligible candidates. */
  lemma {:induction false} KeptIdsSpec(cs: seq<Candidate>, id: string)
    ensures id in KeptIds(Kept(cs)) <==> exists i :: 0 <= i < |cs| && Eligible(cs[i]) && cs[i].id == id
  {
    if cs != [] {
      var init := cs[..|cs| - 1];
      KeptIdsSpec(init, id);
      KeptSnoc(init, cs[|cs| - 1], KeptIds(Kept(init)), Kept(init));
      assert cs == init + [cs[|cs| - 1]];
      assert forall i :: 0 <= i < |init| ==> init[i] == cs[i];
    }
  }

  /** Each eligible id is kept once. */
  lemma {:induction false} KeptDistinct(cs: seq<Candidate>)
    ensures forall i, j :: 0 <= i < j < |Kept(cs)| ==> Kept(cs)[i].0 != Kept(cs)[j].0
  {
    if cs != [] {
      var init := cs[..|cs| - 1];
      KeptDistinct(init);
      KeptSnoc(init, cs[|cs| - 1], KeptIds(Kept(init)), Kept(init));
      assert cs == init + [cs[|cs| - 1]];
      var k := Kept(init);
      assert forall i :: 0 <= i < |k| ==> k[i].0 in KeptIds(k);
    }
  }

  /** The first definition wins: the kept blocks are exactly the bodies of
      the candidates that first define an eligible id. */
  lemma {:induction false} KeptSpec(cs: seq<Candidate>, b: (string, string))
    ensures b in Kept(cs) <==> exists i :: FirstEligible(cs, i) && b == (cs[i].id, cs[i].body.value)
  {
    if cs != [] {
      var init := cs[..|cs| - 1];
      var c := cs[|cs| - 1];
      KeptSpec(init, b);
      KeptIdsSpec(init, c.id);
      KeptSnoc(init, c, KeptIds(Kept(init)), Kept(init));
      assert cs == init + [c];
      FirstEligibleSnoc(init, c);
    }
  }

  /** A candidate put last leaves the earlier first definitions as they were,
      and is itself one exactly when no earlier eligible candidate has its id. */
  lemma FirstEligibleSnoc(init: seq<Candidate>, c: Candidate)
    ensures forall i :: 0 <= i < |init| ==> (FirstEligible(init + [c], i) <==> FirstEligible(init, i))
    ensures FirstEligible(init + [c], |init|) <==>
      Eligible(c) && !exists j :: 0 <= j < |init| && Eligible(init[j]) && init[j].id == c.id
  {
    var cs := init + [c];
    assert forall i :: 0 <= i < |init| ==> cs[i] == init[i];
  }

  /** One turn of the cursor loop: search the next header, walk its braces,
      and keep the block when it is balanced, not a keyword, and new. `done`
      holds the candidates met so far, `all` those of the whole file. */
  method NextTechBlock(content: string, cursor: nat, techIds: set<string>,
                       ghost all: seq<Candidate>, ghost done: seq<Candidate>)
    returns (more: bool, next: nat, block: Option<(string, string)>, ghost cand: Candidate)
    requires cursor <= |content| && done + CandidatesFrom(content, cursor) == all
    ensures more ==> cursor < next <= |content| && (done + [cand]) + CandidatesFrom(content, next) == all
    ensures more ==> block == Accept(cand, techIds)
    ensures !more ==> done == all && block.None?
  {
    if cursor == |content| {
      CandidatesEnd(content, cursor, done, all);
      return false, cursor, None, Candidate("", None);
    }
    var header := NextHeader(content, cursor);
    if header.None? {
      CandidatesEnd(content, cursor, done, all);
      return false, cursor, None, Candidate("", None);
    }
    var techId, blockStart := header.value.0, header.value.1;
    CandidatesStep(content, cursor, done, all);
    cand := Candidate(techId, BodyOf(content, blockStart));
    more := true;
    next, block := TakeBlock(content, blockStart, techId, techIds);
  }

  /** The brace walk of one header and the test that keeps its block. */
  method TakeBlock(content: string, blockStart: nat, techId: string, techIds: set<string>)
    returns (blockEnd: nat, block: Option<(string, string)>)
    requires blockStart <= |content|
    ensures blockEnd == BlockEnd(content, blockStart)
    ensures block == Accept(Candidate(techId, BodyOf(content, blockStart)), techIds)
  {
    var closed;
    blockEnd, closed := WalkToClose(content, blockStart);
    BodyAtEnd(content, blockStart);
    if !closed || techId in KeywordBlocklist || techId in techIds {
      return blockEnd, None;
    }
    return blockEnd, Some((techId, content[blockStart..blockEnd - 1]));
  }

  /** One header met by the cursor loop: its candidate, then those after
      the block. */
  lemma CandidatesStep(content: string, cursor: nat, done: seq<Candidate>, all: seq<Candidate>)
    requires cursor < |content| && NextHeader(content, cursor).Some?
    requires done + CandidatesFrom(content, cursor) == all
    ensures var (id, start) := NextHeader(content, cursor).value;
      && cursor < BlockEnd(content, start)
      && (done + [Candidate(id, BodyOf(content, start))]) + CandidatesFrom(content, BlockEnd(content, start)) == all
  {
    var (id, start) := NextHeader(content, cursor).value;
    var rest := CandidatesFrom(content, BlockEnd(content, start));
    assert CandidatesFrom(content, cursor) == [Candidate(id, BodyOf(content, start))] + rest;
    assert done + ([Candidate(id, BodyOf(content, start))] + rest) ==
      (done + [Candidate(id, BodyOf(content, start))]) + rest;
  }

  /** The cursor loop stops at the end of the text or when no header follows. */
  lemma CandidatesEnd(content: string, cursor: nat, done: seq<Candidate>, all: seq<Candidate>)
    requires cursor <= |content| && (cursor == |content| || NextHeader(content, cursor).None?)
    requires done + CandidatesFrom(content, cursor) == all
    ensures done == all
  {
    assert CandidatesFrom(content, cursor) == [];
    assert done + [] == done;
  }

  /** A block that closes ends just after its body's closing brace. */
  lemma BodyAtEnd(content: string, start: nat)
    requires start <= |content|
    ensures BodyOf(content, start).Some? <==> CloseFrom(content, start, 1, start).Some?
    ensures BodyOf(content, start).Some? ==>
      start < BlockEnd(content, start) && BodyOf(content, start).value == content[start..BlockEnd(content, start) - 1]
  {
  }

  // ---------------------------------------------------------------------
  // All files of the technology directory

  /** A directory listing with each file's text. */
  type Files = seq<(string, string)>

  /** The `TECH_FILE_FILTER` test (when there is one) and the `.txt` test. */
  predicate Selected(fileFilter: Option<string -> bool>, name: string)
  {
    (fileFilter.None? || fileFilter.value(name)) && EndsWith(name, ".txt")
  }

  /** The candidates of every selected file, comments removed, file after file. */
  function FileCandidates(files: Files, fileFilter: Option<string -> bool>): seq<Candidate>
  {
    if files == [] then []
    else
      var (name, text) := files[|files| - 1];
      FileCandidates(files[..|files| - 1], fileFilter) +
      (if Selected(fileFilter, name) then CandidatesFrom(StripComments(text), 0) else [])
  }

  /** The technology blocks both scripts process: the first balanced,
      non-keyword definition of each id across all selected files. */
  function TechBlocks(files: Files, fileFilter: Option<string -> bool>): seq<(string, string)>
  {
    Kept(FileCandidates(files, fileFilter))
  }

  lemma FileCandidatesSnoc(files: Files, fileFilter: Option<string -> bool>, i: nat)
    requires i < |files|
    ensures FileCandidates(files[..i + 1], fileFilter) == FileCandidates(files[..i], fileFilter) +
      (if Selected(fileFilter, files[i].0) then CandidatesFrom(StripComments(files[i].1), 0) else [])
  {
    assert files[..i + 1][..i] == files[..i];
  }
}
