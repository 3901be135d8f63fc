/** update/extract_potentials.py: every `potential = { ... }` block of the
    technology files, as the list of its condition lines. The directory
    listing is a parameter (each file as its name and its decoded text);
    writing `potentials.json` is not part of this model. */
module Potentials {
  import opened Wrappers
  import opened Seqs
  import opened Text
  import opened Scan
  import Species

  /** `\bpotential\s*=\s*{` */
  const PotentialHeader: Pattern := BoundedAssign("potential", Open)

  /** One element of `all_potentials`. */
  datatype PotentialEntry = PotentialEntry(file: string, conditions: seq<string>)

  /** A condition line: not empty once stripped and not a comment. */
  predicate IsCondition(line: string)
  {
    line != "" && !StartsWith(line, "#")
  }

  /** The lines of the stripped block. */
  function BlockLines(block: string): seq<string>
  {
    SplitOn(Strip(block), '\n')
  }

  /** The comprehension over the stripped block's lines: each line stripped,
      the empty ones and the comments dropped. */
  function Conditions(block: string): seq<string>
  {
    Filter(MapSeq(BlockLines(block), Strip), IsCondition)
  }

  /** Every hit of the header ends inside the text. */
  predicate HitsIn(hits: seq<Hit>, content: string)
  {
    forall k :: 0 <= k < |hits| ==> hits[k].end <= |content|
  }

  /** The entry one header match gives: none when its braces never balance,
      otherwise the conditions of the text strictly between the opening
      brace and the `}` that balances it. */
  function HitEntry(name: string, content: string, h: Hit): seq<PotentialEntry>
    requires h.end <= |content|
  {
    match CloseFrom(content, h.end, 1, h.end)
    case None => []
    case Some(c) => [PotentialEntry(name, Conditions(content[h.end..c]))]
  }

  function HitEntries(name: string, content: string, hits: seq<Hit>): seq<PotentialEntry>
    requires HitsIn(hits, content)
  {
    if |hits| == 0 then []
    else HitEntries(name, content, hits[..|hits| - 1]) + HitEntry(name, content, hits[|hits| - 1])
  }

  /** The header matches of a text, as `re.finditer` yields them. */
  function HeaderHits(content: string): (r: seq<Hit>)
    ensures HitsIn(r, content)
  {
    var r := FindAllFrom(content, 0, PotentialHeader);
    assert forall k :: 0 <= k < |r| ==> HitAt(content, r[k].start, PotentialHeader) == Some(r[k]);
    r
  }

  /** The entries one file contributes: those of its header matches when its
      name ends in `.txt`, none otherwise. */
  function FileEntries(file: (string, string)): seq<PotentialEntry>
  {
    if EndsWith(file.0, ".txt") then HitEntries(file.0, file.1, HeaderHits(file.1)) else []
  }

  /** `find_potential_blocks` over a directory listing. */
  function PotentialsOf(files: Species.Files): seq<PotentialEntry>
  {
    if |files| == 0 then []
    else PotentialsOf(files[..|files| - 1]) + FileEntries(files[|files| - 1])
  }

  // ---------------------------------------------------------------------
  // The loops

  /** The `for i in range(start_index, len(content))` brace counter: the index
      of the `}` that balances the opening brace, or -1. */
  method MatchingBrace(content: string, start: nat) returns (endIndex: int)
    requires start <= |content|
    ensures endIndex == match CloseFrom(content, start, 1, start) case None => -1 case Some(c) => c
  {
    var braceCount := 1;
    endIndex := -1;
    for i := start to |content|
      invariant braceCount > 0 && braceCount == Depth(content, start, 1, i)
      invariant CloseFrom(content, start, 1, i) == CloseFrom(content, start, 1, start)
    {
      if content[i] == '{' {
        braceCount := braceCount + 1;
      } else if content[i] == '}' {
        braceCount := braceCount - 1;
      }
      if braceCount == 0 {
        endIndex := i;
        break;
      }
    }
  }

  lemma HitEntriesSnoc(name: string, content: string, hits: seq<Hit>, k: nat)
    requires HitsIn(hits, content) && k < |hits|
    ensures HitsIn(hits[..k], content) && HitsIn(hits[..k + 1], content)
    ensures HitEntries(name, content, hits[..k + 1]) ==
      HitEntries(name, content, hits[..k]) + HitEntry(name, content, hits[k])
  {
    assert hits[..k + 1][..k] == hits[..k];
  }

  lemma PotentialsSnoc(files: Species.Files, i: nat)
    requires i < |files|
    ensures PotentialsOf(files[..i + 1]) == PotentialsOf(files[..i]) + FileEntries(files[i])
  {
    assert files[..i + 1][..i] == files[..i];
  }

  /** What the brace counter's answer means for the entry of a match. */
  lemma HitEntryOfIndex(name: string, content: string, h: Hit, endIndex: int)
    requires h.end <= |content|
    requires endIndex == match CloseFrom(content, h.end, 1, h.end) case None => -1 case Some(c) => c
    ensures endIndex == -1 ==> HitEntry(name, content, h) == []
    ensures endIndex != -1 ==>
      && h.end <= endIndex <= |content|
      && HitEntry(name, content, h) ==
         [PotentialEntry(name, Filter(MapSeq(SplitOn(Strip(content[h.end..endIndex]), '\n'), Strip), IsCondition))]
  {
  }

  /** The body of the `re.finditer` loop: the entry of one header match. */
  method ScanHit(filename: string, content: string, h: Hit, all: seq<PotentialEntry>)
    returns (all': seq<PotentialEntry>)
    requires h.end <= |content|
    ensures all' == all + HitEntry(filename, content, h)
  {
    var startIndex := h.end;
    var endIndex := MatchingBrace(content, startIndex);
    HitEntryOfIndex(filename, content, h, endIndex);
    all' := all;
    if endIndex != -1 {
      var blockContent := Strip(content[startIndex..endIndex]);
      var conditions := Filter(MapSeq(SplitOn(blockContent, '\n'), Strip), IsCondition);
      all' := all' + [PotentialEntry(filename, conditions)];
    } else {
      assert all + [] == all;
    }
  }

  /** The `re.finditer` loop over one file's header matches. */
  method ScanFile(filename: string, content: string, hits: seq<Hit>, all: seq<PotentialEntry>)
    returns (all': seq<PotentialEntry>)
    requires HitsIn(hits, content)
    ensures all' == all + HitEntries(filename, content, hits)
  {
    all' := all;
    assert hits[..0] == [];
    for k := 0 to |hits|
      invariant all' == all + HitEntries(filename, content, hits[..k])
    {
      HitEntriesSnoc(filename, content, hits, k);
      ghost var done := HitEntries(filename, content, hits[..k]);
      all' := ScanHit(filename, content, hits[k], all');
      assert (all + done) + HitEntry(filename, content, hits[k]) ==
        all + (done + HitEntry(filename, content, hits[k]));
    }
    assert hits[..|hits|] == hits;
  }

  /** `find_potential_blocks`. */
  method FindPotentialBlocks(files: Species.Files) returns (allPotentials: seq<PotentialEntry>)
    ensures allPotentials == PotentialsOf(files)
  {
    allPotentials := [];
    for i := 0 to |files|
      invariant allPotentials == PotentialsOf(files[..i])
    {
      PotentialsSnoc(files, i);
      var filename, content := files[i].0, files[i].1;
      if EndsWith(filename, ".txt") {
        var matches := HeaderHits(content);
        allPotentials := ScanFile(filename, content, matches, allPotentials);
      } else {
        assert FileEntries(files[i]) == [];
      }
    }
    assert files[..|files|] == files;
  }

  // ---------------------------------------------------------------------
  // Properties

  /** A condition is a stripped, non-empty, non-comment line of the block,
      and every such line is a condition. */
  lemma ConditionsSpec(block: string, c: string)
    ensures c in Conditions(block) <==>
      IsCondition(c) && exists k :: 0 <= k < |BlockLines(block)| && Strip(BlockLines(block)[k]) == c
  {
    var stripped := MapSeq(BlockLines(block), Strip);
    assert c in Conditions(block) <==> c in stripped && IsCondition(c);
    if exists k :: 0 <= k < |BlockLines(block)| && Strip(BlockLines(block)[k]) == c {
      var k :| 0 <= k < |BlockLines(block)| && Strip(BlockLines(block)[k]) == c;
      assert stripped[k] == c;
    }
  }

  /** Every condition is stripped already: not empty, not a comment, and
      without surrounding whitespace. */
  lemma ConditionStripped(block: string, c: string)
    requires c in Conditions(block)
    ensures c != "" && !StartsWith(c, "#") && Strip(c) == c
  {
    var stripped := MapSeq(BlockLines(block), Strip);
    assert c in stripped;
    var k :| 0 <= k < |stripped| && stripped[k] == c;
    StripIdempotent(BlockLines(block)[k]);
  }

  /** A header match gives an entry exactly when its braces balance; the
      entry's conditions come from the text strictly between the opening
      brace and the first `}` that brings the depth back to 0, a text with
      as many `{` as `}`. */
  lemma HitEntrySpec(name: string, content: string, h: Hit)
    requires h.start <= h.end <= |content| && HitAt(content, h.start, PotentialHeader) == Some(h)
    ensures |HitEntry(name, content, h)| == 1 <==> CloseFrom(content, h.end, 1, h.end).Some?
    ensures CloseFrom(content, h.end, 1, h.end).None? ==> HitEntry(name, content, h) == []
    ensures CloseFrom(content, h.end, 1, h.end).Some? ==>
      var c := CloseFrom(content, h.end, 1, h.end).value;
      && content[h.end - 1] == '{' && content[c] == '}' && Net(content[h.end..c]) == 0
      && HitEntry(name, content, h) == [PotentialEntry(name, Conditions(content[h.end..c]))]
  {
    HeaderOpens(content, h);
    match CloseFrom(content, h.end, 1, h.end)
    case None =>
    case Some(c) =>
      DepthNet(content, h.end, 1, c + 1);
      NetSnoc(content, h.end, c);
  }

  /** A header match ends just after its `{`. */
  lemma HeaderOpens(content: string, h: Hit)
    requires h.start <= |content| && HitAt(content, h.start, PotentialHeader) == Some(h)
    ensures 0 < h.end <= |content| && content[h.end - 1] == '{'
  {
    var b := AssignEnd(content, h.start + |"potential"|).value;
    assert ValueAt(content, b, Open).Some?;
  }

  /** Each header match gives at most one entry, so a file gives at most as
      many entries as it has matches. */
  lemma {:induction false} HitEntriesCount(name: string, content: string, hits: seq<Hit>)
    requires HitsIn(hits, content)
    ensures |HitEntries(name, content, hits)| <= |hits|
    ensures forall e :: e in HitEntries(name, content, hits) ==> e.file == name
  {
    if |hits| > 0 {
      HitEntriesCount(name, content, hits[..|hits| - 1]);
    }
  }

  /** A file whose name does not end in `.txt` adds nothing. */
  lemma OtherFilesIgnored(files: Species.Files, name: string, content: string)
    requires !EndsWith(name, ".txt")
    ensures PotentialsOf(files + [(name, content)]) == PotentialsOf(files)
  {
    var all := files + [(name, content)];
    assert all[..|all| - 1] == files && all[|all| - 1] == (name, content);
    assert FileEntries((name, content)) == [];
    assert PotentialsOf(files) + [] == PotentialsOf(files);
  }

  /** Every entry names a `.txt` file of the listing. */
  lemma {:induction false} EntriesFromTextFiles(files: Species.Files)
    ensures forall e :: e in PotentialsOf(files) ==>
      EndsWith(e.file, ".txt") && exists content :: (e.file, content) in files
  {
    if |files| > 0 {
      var init := files[..|files| - 1];
      var last := files[|files| - 1];
      EntriesFromTextFiles(init);
      forall e | e in PotentialsOf(files)
        ensures EndsWith(e.file, ".txt") && exists content :: (e.file, content) in files
      {
        if e in PotentialsOf(init) {
          var content :| (e.file, content) in init;
          assert (e.file, content) in files;
        } else {
          assert e in FileEntries(last);
          assert EndsWith(last.0, ".txt");
          HitEntriesCount(last.0, last.1, HeaderHits(last.1));
          assert (e.file, last.1) == last;
        }
      }
    }
  }
}
