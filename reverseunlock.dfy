/** scripts/reverse_unlock_parser.py: the scan of game-script files for the
    technologies each item requires, kept as a reverse map from technology
    to the items it unlocks. */
module ReverseUnlock {
  import opened Wrappers
  import opened Seqs
  import opened Text
  import opened Scan
  import opened Unlocks

  // ---------------------------------------------------------------------
  // Prerequisites of one block

  /** `"(tech_\w+)"` inside the first `prerequisites\s*=\s*\{([^}]+)\}`. */
  function ListedTechs(block: string): seq<string>
  {
    match SearchValue(block, Assign("prerequisites", Braced))
    case None => []
    case Some(inner) => FindAll(inner, Bare(QuotedTech))
  }

  /** `required_technology\s*=\s*(tech_\w+)`, every match. */
  function RequiredTechs(block: string): seq<string>
  {
    FindAll(block, Assign("required_technology", TechRun))
  }

  const HasTechPattern: Pattern := Assign("has_technology", TechRun)

  /** The 50 characters before `start` (fewer at the start of the text). */
  function ContextBefore(block: string, start: nat): (ctx: string)
    requires start <= |block|
    ensures |ctx| == if start >= 50 then 50 else start
    ensures ctx == block[start - |ctx|..start]
  {
    block[(if start >= 50 then start - 50 else 0)..start]
  }

  /** A `has_technology` match counts as negated when both `NOT` and `=`
      occur in the 50 characters before it. */
  predicate Negated(block: string, start: nat)
  {
    start <= |block| &&
    var ctx := ContextBefore(block, start);
    Contains(ctx, "NOT") && Contains(ctx, "=")
  }

  /** The test a `has_technology` match must pass. */
  function KeepHit(block: string): Hit -> bool
  {
    (h: Hit) => !Negated(block, h.start)
  }

  /** The `has_technology` matches that are kept. */
  function KeptHasTechHits(block: string): seq<Hit>
  {
    Filter(FindAllFrom(block, 0, HasTechPattern), KeepHit(block))
  }

  function HasTechs(block: string): seq<string>
  {
    Values(KeptHasTechHits(block))
  }

  /** A technology is taken from a `has_technology` match exactly when some
      match names it and is not negated. */
  lemma HasTechsKept(block: string, t: string)
    ensures t in HasTechs(block) <==>
      exists h :: h in FindAllFrom(block, 0, HasTechPattern) && h.value == t && !Negated(block, h.start)
  {
    var kept := KeptHasTechHits(block);
    if t in HasTechs(block) {
      var k :| 0 <= k < |kept| && Values(kept)[k] == t;
      assert kept[k] in kept;
    }
    if exists h :: h in FindAllFrom(block, 0, HasTechPattern) && h.value == t && !Negated(block, h.start) {
      var h :| h in FindAllFrom(block, 0, HasTechPattern) && h.value == t && !Negated(block, h.start);
      assert h in kept;
      var k :| 0 <= k < |kept| && kept[k] == h;
      assert Values(kept)[k] == t;
    }
  }

  /** All three sources in the order they are collected, repeats included. */
  function Candidates(block: string): seq<string>
  {
    ListedTechs(block) + RequiredTechs(block) + HasTechs(block)
  }

  /** The `finditer` loop over the `has_technology` matches. */
  method CollectHasTechs(block: string) returns (ids: seq<string>)
    ensures ids == HasTechs(block)
  {
    var hits := FindAllFrom(block, 0, HasTechPattern);
    var keep := KeepHit(block);
    ids := [];
    for i := 0 to |hits|
      invariant ids == Values(Filter(hits[..i], keep))
    {
      KeepStep(hits, i, keep);
      if !Negated(block, hits[i].start) {
        ids := ids + [hits[i].value];
      }
    }
    assert hits[..|hits|] == hits;
  }

  lemma KeepStep(hits: seq<Hit>, i: nat, keep: Hit -> bool)
    requires i < |hits|
    ensures Values(Filter(hits[..i + 1], keep)) ==
      Values(Filter(hits[..i], keep)) + (if keep(hits[i]) then [hits[i].value] else [])
  {
    assert hits[..i + 1] == hits[..i] + [hits[i]];
    FilterAppend(hits[..i], [hits[i]], keep);
    assert Filter([hits[i]], keep) == if keep(hits[i]) then [hits[i]] else [];
    var a := Filter(hits[..i], keep);
    var b := Filter([hits[i]], keep);
    assert Values(a + b) == Values(a) + Values(b);
  }

  /** `list(set(ids))`: each element once, in an order the model does not fix. */
  method Distinct(ids: seq<string>) returns (r: seq<string>)
    ensures NoDups(r)
    ensures forall t :: t in r <==> t in ids
  {
    var rest := set t | t in ids;
    r := [];
    while rest != {}
      invariant NoDups(r)
      invariant forall t :: t in ids <==> t in r || t in rest
      invariant forall t :: t in r ==> t !in rest
      decreases rest
    {
      var t :| t in rest;
      r := r + [t];
      rest := rest - {t};
    }
  }

  /** `_extract_prerequisites`: the technologies of the three patterns, each once. */
  method ExtractPrerequisites(block: string) returns (techIds: seq<string>)
    ensures NoDups(techIds)
    ensures forall t :: t in techIds <==> t in ListedTechs(block) || t in RequiredTechs(block) || t in HasTechs(block)
  {
    var ids := ListedTechs(block);
    ids := ids + RequiredTechs(block);
    var has := CollectHasTechs(block);
    ids := ids + has;
    techIds := Distinct(ids);
  }

  // ---------------------------------------------------------------------
  // Names

  /** A non-empty segment. */
  predicate NonEmpty(w: string) { w != "" }

  /** The id fallback of `_extract_name`: without its first `_` segment,
      the non-empty segments capitalised and joined by spaces; an id without
      `_` capitalised as a whole. */
  function PrettyId(id: string): string
  {
    var parts := SplitOn(id, '_');
    if |parts| > 1 then Join(MapSeq(Filter(parts[1..], NonEmpty), Capitalize), " ")
    else Capitalize(id)
  }

  /** `_extract_name`: the first `name\s*=\s*"([^"]+)"` of the block, else
      the prettified id. */
  function ExtractName(id: string, block: string): (r: string)
    ensures SearchValue(block, Assign("name", Quoted(""))).Some? ==>
      r == SearchValue(block, Assign("name", Quoted(""))).value
  {
    match SearchValue(block, Assign("name", Quoted("")))
    case Some(name) => name
    case None => PrettyId(id)
  }

  /** Joining by a string without the character keeps the character out. */
  lemma {:induction false} JoinWithout(parts: seq<string>, sep: string, c: char)
    requires c !in sep && forall i :: 0 <= i < |parts| ==> c !in parts[i]
    ensures c !in Join(parts, sep)
  {
    if |parts| > 1 {
      JoinWithout(parts[1..], sep, c);
    }
  }

  lemma {:induction false} LowerKeeps(s: string, c: char)
    requires c !in s && !IsLetter(c)
    ensures c !in Lower(s)
  {
    if |s| > 0 {
      LowerKeeps(s[1..], c);
      assert Lower(s) == [LowerChar(s[0])] + Lower(s[1..]);
    }
  }

  /** A prettified id with an underscore has none left. */
  lemma PrettyIdNoUnderscore(id: string)
    requires '_' in id
    ensures '_' !in PrettyId(id)
  {
    var parts := SplitOn(id, '_');
    SplitOnSeveral(id, '_');
    var words := Filter(parts[1..], NonEmpty);
    var caps := MapSeq(words, Capitalize);
    forall i | 0 <= i < |caps| ensures '_' !in caps[i] {
      assert words[i] in words;
      assert words[i] in parts[1..];
      if |words[i]| > 0 {
        LowerKeeps(words[i][1..], '_');
      }
    }
    JoinWithout(caps, " ", '_');
  }

  /** A string holding the separator splits into several segments. */
  lemma {:induction false} SplitOnSeveral(s: string, c: char)
    requires c in s
    ensures |SplitOn(s, c)| > 1
  {
    if s[0] != c {
      SplitOnSeveral(s[1..], c);
    }
  }

  /** An id made of several `_`-free segments is prettified by dropping the
      first segment and capitalising the non-empty others. */
  lemma PrettyIdSegments(parts: seq<string>)
    requires |parts| > 1 && forall i :: 0 <= i < |parts| ==> '_' !in parts[i]
    ensures PrettyId(Join(parts, "_")) == Join(MapSeq(Filter(parts[1..], NonEmpty), Capitalize), " ")
  {
    SplitOnJoin(parts, '_');
  }

  /** A block without text has no name field. */
  lemma ExtractNameEmptyBody(id: string)
    ensures ExtractName(id, "") == PrettyId(id)
  {
    assert HitAt("", 0, Assign("name", Quoted(""))).None?;
  }

  /** An id without an underscore is capitalised as a whole: its first
      character upper-cased, the rest lower-cased. */
  lemma PrettyIdSingleSegment(id: string)
    requires '_' !in id
    ensures |id| > 0 ==> PrettyId(id) == [UpperChar(id[0])] + Lower(id[1..])
    ensures |id| == 0 ==> PrettyId(id) == ""
  {
    SplitOnAbsent(id, '_');
  }

  // ---------------------------------------------------------------------
  // The reverse map

  /** The ids `_parse_file` skips. */
  const MetaIds: seq<string> := ["inline_script", "has_global_flag", "set_global_flag", "if", "else", "limit"]

  /** What `_parse_file` takes from one block: its id, whether it is a meta
      block, the technologies it requires and its name. */
  datatype ParsedBlock = ParsedBlock(id: string, meta: bool, techs: set<string>, name: string)

  function Parsed(b: Block): ParsedBlock
  {
    ParsedBlock(b.id, b.id in MetaIds, (set t | t in Candidates(b.body)), ExtractName(b.id, b.body))
  }

  /** The blocks of a file, each summarised. */
  function ParsedAll(blocks: seq<Block>): (r: seq<ParsedBlock>)
    ensures |r| == |blocks|
  {
    if |blocks| == 0 then [] else ParsedAll(blocks[..|blocks| - 1]) + [Parsed(blocks[|blocks| - 1])]
  }

  lemma {:induction false} ParsedAllAt(blocks: seq<Block>, i: nat)
    requires i < |blocks|
    ensures ParsedAll(blocks)[i] == Parsed(blocks[i])
  {
    if i < |blocks| - 1 {
      ParsedAllAt(blocks[..|blocks| - 1], i);
    }
  }

  lemma ParsedAllSnoc(blocks: seq<Block>, i: nat)
    requires i < |blocks|
    ensures ParsedAll(blocks[..i + 1]) == ParsedAll(blocks[..i]) + [Parsed(blocks[i])]
  {
    assert blocks[..i + 1][..i] == blocks[..i];
  }

  /** The entries one block adds under technology `t`: one, unless it is a
      meta block or does not require `t`. */
  function Contribution(p: ParsedBlock, kind: string, t: string): (r: seq<UnlockEntry>)
    ensures |r| <= 1
  {
    if !p.meta && t in p.techs then [UnlockEntry(kind, p.id, p.name)] else []
  }

  /** The number of technologies a block that is not a meta block requires. */
  function LinkCount(p: ParsedBlock): nat
  {
    if p.meta then 0 else |p.techs|
  }

  /** The entries that the blocks of one file add under technology `t`, in
      block order. */
  function EntriesFor(ps: seq<ParsedBlock>, kind: string, t: string): (r: seq<UnlockEntry>)
    ensures |r| <= |ps|
  {
    if |ps| == 0 then [] else EntriesFor(ps[..|ps| - 1], kind, t) + Contribution(ps[|ps| - 1], kind, t)
  }

  /** The number of (block, technology) pairs of the file. */
  function Added(ps: seq<ParsedBlock>): nat
  {
    if |ps| == 0 then 0 else Added(ps[..|ps| - 1]) + LinkCount(ps[|ps| - 1])
  }

  lemma EntriesForSnoc(ps: seq<ParsedBlock>, p: ParsedBlock, kind: string)
    ensures forall t :: EntriesFor(ps + [p], kind, t) == EntriesFor(ps, kind, t) + Contribution(p, kind, t)
    ensures Added(ps + [p]) == Added(ps) + LinkCount(p)
  {
    assert (ps + [p])[..|ps|] == ps;
  }

  /** A technology no block requires gets no entry. */
  lemma {:induction false} EntriesForAbsent(ps: seq<ParsedBlock>, kind: string, t: string)
    requires forall i :: 0 <= i < |ps| ==> t !in ps[i].techs
    ensures EntriesFor(ps, kind, t) == []
  {
    if |ps| > 0 {
      EntriesForAbsent(ps[..|ps| - 1], kind, t);
    }
  }

  /** `e` is the entry of block `p`, which requires `t`. */
  predicate FromBlock(p: ParsedBlock, kind: string, t: string, e: UnlockEntry)
  {
    !p.meta && t in p.techs && e == UnlockEntry(kind, p.id, p.name)
  }

  /** Each entry under `t` comes from a block that is not a meta block and
      requires `t`; it carries the file's type, the block's id and its name. */
  lemma {:induction false} EntriesForSound(ps: seq<ParsedBlock>, kind: string, t: string, e: UnlockEntry)
    requires e in EntriesFor(ps, kind, t)
    ensures exists i :: 0 <= i < |ps| && FromBlock(ps[i], kind, t, e)
  {
    var init := ps[..|ps| - 1];
    if e in EntriesFor(init, kind, t) {
      EntriesForSound(init, kind, t, e);
      var i :| 0 <= i < |init| && FromBlock(init[i], kind, t, e);
      assert ps[i] == init[i];
    } else {
      assert FromBlock(ps[|ps| - 1], kind, t, e);
    }
  }

  /** Each block that requires `t` gives an entry under `t`. */
  lemma {:induction false} EntriesForComplete(ps: seq<ParsedBlock>, kind: string, t: string, i: nat)
    requires i < |ps| && !ps[i].meta && t in ps[i].techs
    ensures UnlockEntry(kind, ps[i].id, ps[i].name) in EntriesFor(ps, kind, t)
  {
    if i < |ps| - 1 {
      EntriesForComplete(ps[..|ps| - 1], kind, t, i);
    }
  }

  /** The duplicate-free technologies of a block give its summary's
      technologies and its count. */
  lemma BlockStep(b: Block, techIds: seq<string>)
    requires NoDups(techIds)
    requires forall t :: t in techIds <==> t in ListedTechs(b.body) || t in RequiredTechs(b.body) || t in HasTechs(b.body)
    ensures (set t | t in techIds) == Parsed(b).techs
    ensures |Parsed(b).techs| == |techIds|
  {
    var c := Candidates(b.body);
    assert (set t | t in techIds) == (set t | t in c);
    NoDupsCard(techIds);
  }

  /** A meta block adds nothing. */
  lemma MetaBlock(b: Block, kind: string)
    requires b.id in MetaIds
    ensures LinkCount(Parsed(b)) == 0
    ensures forall t :: Contribution(Parsed(b), kind, t) == []
  {
  }

  /** Any other block adds its entry under each technology it requires. */
  lemma PlainBlock(b: Block, kind: string, techIds: seq<string>)
    requires b.id !in MetaIds && (set t | t in techIds) == Parsed(b).techs
    ensures forall t :: t !in techIds ==> Contribution(Parsed(b), kind, t) == []
    ensures forall t :: t in techIds ==>
      Contribution(Parsed(b), kind, t) == [UnlockEntry(kind, b.id, ExtractName(b.id, b.body))]
  {
    forall t ensures t in Parsed(b).techs <==> t in techIds {
      assert t in techIds <==> t in (set t | t in techIds);
    }
  }

  /** A block that adds nothing leaves every list as it was. */
  lemma NoContribution(m: map<string, seq<UnlockEntry>>, b: Block, kind: string)
    requires forall t :: Contribution(Parsed(b), kind, t) == []
    ensures forall t :: Lookup(m, t) == Lookup(m, t) + Contribution(Parsed(b), kind, t)
  {
    forall t ensures Lookup(m, t) == Lookup(m, t) + Contribution(Parsed(b), kind, t) {
      assert Lookup(m, t) + [] == Lookup(m, t);
    }
  }

  /** Appending the block's entry under each technology it requires is its
      contribution. */
  lemma BlockContribution(m0: map<string, seq<UnlockEntry>>, m1: map<string, seq<UnlockEntry>>,
                          b: Block, kind: string, techIds: seq<string>)
    requires b.id !in MetaIds && (set t | t in techIds) == Parsed(b).techs
    requires forall t :: (Lookup(m1, t) ==
      Lookup(m0, t) + (if t in techIds then [UnlockEntry(kind, b.id, ExtractName(b.id, b.body))] else []))
    ensures forall t :: Lookup(m1, t) == Lookup(m0, t) + Contribution(Parsed(b), kind, t)
  {
    PlainBlock(b, kind, techIds);
    forall t ensures Lookup(m1, t) == Lookup(m0, t) + Contribution(Parsed(b), kind, t) {
      if t !in techIds {
        assert Lookup(m0, t) + [] == Lookup(m0, t);
      }
    }
  }

  /** `unlocks[t]` of a `defaultdict(list)`: `[]` for a technology without entries. */
  function Lookup(m: map<string, seq<UnlockEntry>>, t: string): seq<UnlockEntry>
  {
    if t in m then m[t] else []
  }

  /** The reverse map after one more block of the file. */
  lemma MapStep(m0: map<string, seq<UnlockEntry>>, m1: map<string, seq<UnlockEntry>>, m2: map<string, seq<UnlockEntry>>,
                ps: seq<ParsedBlock>, p: ParsedBlock, kind: string)
    requires forall t :: Lookup(m1, t) == Lookup(m0, t) + EntriesFor(ps, kind, t)
    requires forall t :: Lookup(m2, t) == Lookup(m1, t) + Contribution(p, kind, t)
    ensures forall t :: Lookup(m2, t) == Lookup(m0, t) + EntriesFor(ps + [p], kind, t)
    ensures Added(ps + [p]) == Added(ps) + LinkCount(p)
  {
    EntriesForSnoc(ps, p, kind);
    forall t ensures Lookup(m2, t) == Lookup(m0, t) + EntriesFor(ps + [p], kind, t) {
      MapStepAt(Lookup(m0, t), Lookup(m1, t), Lookup(m2, t), ps, p, kind, t);
    }
  }

  /** `MapStep` under one technology. */
  lemma MapStepAt(l0: seq<UnlockEntry>, l1: seq<UnlockEntry>, l2: seq<UnlockEntry>,
                  ps: seq<ParsedBlock>, p: ParsedBlock, kind: string, t: string)
    requires l1 == l0 + EntriesFor(ps, kind, t) && l2 == l1 + Contribution(p, kind, t)
    ensures l2 == l0 + EntriesFor(ps + [p], kind, t)
  {
    EntriesForSnoc(ps, p, kind);
    var b, c := EntriesFor(ps, kind, t), Contribution(p, kind, t);
    assert l0 + b + c == l0 + (b + c);
  }

  /** The parser's reverse map. */
  class ReverseUnlockParser {
    var unlocks: map<string, seq<UnlockEntry>>

    /** A technology is a key only once an entry was appended under it. */
    ghost predicate Valid()
      reads this
    {
      forall t :: t in unlocks ==> |unlocks[t]| > 0
    }

    constructor ()
      ensures Valid() && unlocks == map[]
    {
      unlocks := map[];
    }

    /** Appends one entry under each technology of `techIds`. */
    method AddEntries(techIds: seq<string>, entry: UnlockEntry)
      requires Valid() && NoDups(techIds)
      modifies this
      ensures Valid()
      ensures forall t :: Lookup(unlocks, t) == Lookup(old(unlocks), t) + (if t in techIds then [entry] else [])
    {
      for j := 0 to |techIds|
        invariant Valid()
        invariant forall t :: Lookup(unlocks, t) == Lookup(old(unlocks), t) + (if t in techIds[..j] then [entry] else [])
      {
        var techId := techIds[j];
        assert techId !in techIds[..j];
        unlocks := unlocks[techId := Lookup(unlocks, techId) + [entry]];
        assert forall t :: t in techIds[..j + 1] <==> t in techIds[..j] || t == techId;
      }
      assert techIds[..|techIds|] == techIds;
    }

    /** `_parse_file` on a file's content; None is a file that could not be read. */
    method ParseFile(content: Option<string>, kind: string) returns (prereqsFound: nat)
      requires Valid()
      modifies this
      ensures Valid()
      ensures content.None? ==> unlocks == old(unlocks) && prereqsFound == 0
      ensures content.Some? ==>
        var ps := ParsedAll(LineBlocks(content.value, false));
        && prereqsFound == Added(ps)
        && forall t :: Lookup(unlocks, t) == Lookup(old(unlocks), t) + EntriesFor(ps, kind, t)
    {
      if content.None? {
        return 0;
      }
      var blocks := ExtractTopLevelBlocks(content.value, false);
      prereqsFound := ParseBlocks(blocks, kind);
    }

    /** The loop of `_parse_file` over the blocks of one file. */
    method ParseBlocks(blocks: seq<Block>, kind: string) returns (prereqsFound: nat)
      requires Valid()
      modifies this
      ensures Valid()
      ensures prereqsFound == Added(ParsedAll(blocks))
      ensures forall t :: Lookup(unlocks, t) == Lookup(old(unlocks), t) + EntriesFor(ParsedAll(blocks), kind, t)
    {
      prereqsFound := 0;
      ghost var ps: seq<ParsedBlock> := [];
      for i := 0 to |blocks|
        invariant Valid()
        invariant ps == ParsedAll(blocks[..i])
        invariant prereqsFound == Added(ps)
        invariant forall t :: Lookup(unlocks, t) == Lookup(old(unlocks), t) + EntriesFor(ps, kind, t)
      {
        ghost var p := Parsed(blocks[i]);
        ghost var before := unlocks;
        ParsedAllSnoc(blocks, i);
        var n := ParseBlock(blocks[i], kind);
        MapStep(old(unlocks), before, unlocks, ps, p, kind);
        prereqsFound := prereqsFound + n;
        ps := ps + [p];
      }
      assert blocks[..|blocks|] == blocks;
    }

    /** One pass of the loop of `_parse_file`: a meta block is skipped;
        otherwise the block's entry is appended under each of its technologies. */
    method ParseBlock(b: Block, kind: string) returns (n: nat)
      requires Valid()
      modifies this
      ensures Valid()
      ensures n == LinkCount(Parsed(b))
      ensures forall t :: Lookup(unlocks, t) == Lookup(old(unlocks), t) + Contribution(Parsed(b), kind, t)
    {
      if b.id in MetaIds {
        MetaBlock(b, kind);
        NoContribution(unlocks, b, kind);
        return 0;
      }
      var techPrereqs := ExtractPrerequisites(b.body);
      BlockStep(b, techPrereqs);
      if |techPrereqs| > 0 {
        var itemName := ExtractName(b.id, b.body);
        ghost var before := unlocks;
        AddEntries(techPrereqs, UnlockEntry(kind, b.id, itemName));
        BlockContribution(before, unlocks, b, kind, techPrereqs);
      } else {
        PlainBlock(b, kind, techPrereqs);
        NoContribution(unlocks, b, kind);
      }
      n := |techPrereqs|;
    }

    /** `format_unlocks_for_tech`. */
    method FormatUnlocksForTech(techId: string) returns (r: Option<string>)
      ensures techId !in unlocks ==> r.None?
      ensures techId in unlocks ==> r == Some(Join(Parts(Grouped([], unlocks[techId])), " | "))
    {
      if techId !in unlocks {
        return None;
      }
      var byType := GroupByType([], unlocks[techId]);
      var parts := FormatParts(byType);
      r := Some(Join(parts, " | "));
    }
  }
}
