# stnh_techtree_interactive, modelled in Dafny

The repository is a browser explorer for a technology prerequisite graph,
together with Python scripts that build the graph's JSON from game-script
files. This project models the logic under the drawing code and proves
properties of it. It covers three groups:

- **The graph query engine** (`js/data.js`, the non-drawing half of
  `js/ui/path-highlight.js`):
  - indexing and prerequisite links;
  - the ancestor, descendant and connected closures, as work-list searches
    specified against path reachability;
  - the all-paths subgraph;
  - the bidirectional breadth-first shortest path;
  - the faction filter, the tech name lookup and the exclusivity test.
- **The facet filters and UI state** (`js/filters.js`,
  `js/ui/filter-highlight.js`, `js/search.js`, `js/ui/selection.js`):
  - filters as order-preserving subsequences;
  - the filter-highlight state as a class;
  - the search matcher and its result links;
  - the three-state node selection.
- **The offline data generation** (Python under `update/` and `scripts/`):
  - brace-depth block scanners and the cursor loops over game-script text;
  - unlock categorisation and the grouped description;
  - faction availability and per-faction tech counts;
  - the species include/exclude sets;
  - localisation line parsing;
  - ship-name merging;
  - the prescripted empire list;
  - icon mappings;
  - potential-block extraction and analysis;
  - the unlock-type list;
  - the update session logger, as a class.

One Dafny module per source concern, each in its own file:

| file | module | models |
|---|---|---|
| wrappers.dfy | Wrappers | `Option`, `Result` |
| text.dfy | Text | ASCII character classes, case, strip, split, join, replace, string order |
| seqs.dfy | Seqs | filter, subsequence, dedupe, insertion-ordered dictionaries (`Assoc`), stable insertion sort |
| numbers.dfy | Numbers | `parseInt` and the decimal text of a number |
| scan.dfy | Scan | regular-expression matches as token scanners, brace matching, comment stripping, line-block scanning |
| techs.dfy | Techs | the tech record, `indexTechs`, `buildLinksFromPrereqs` |
| graph.dfy | Graph | reachability and the work-list search shared by every closure |
| data.dfy | Data | `js/data.js` closures, all paths, faction filter, names, exclusivity |
| shortest.dfy | Shortest | `calculateShortestPath` |
| filters.dfy | Filters | `js/filters.js` |
| pathhighlight.dfy | PathHighlight | `js/ui/path-highlight.js` state, `calculatePath`, `calculateHighlight` |
| filterhighlight.dfy | FilterHighlight | `js/ui/filter-highlight.js` |
| search.dfy | Search | `js/search.js` |
| selection.dfy | Selection | `js/ui/selection.js` |
| techjson.dfy | TechJson | `update/create_tech_json_new.py` |
| areas.dfy | Areas | the area clean-up loop of `update/create_tech_json_new.py` |
| techjsonold.dfy | TechJsonOld | `scripts/create_tech_json_new.py` |
| unlocks.dfy | Unlocks | grouped unlock formatting shared by the reverse parser and the merge |
| reverseunlock.dfy | ReverseUnlock | `scripts/reverse_unlock_parser.py` |
| supplemental.dfy | Supplemental | `update/supplemental_tech_parser.py` |
| components.dfy | Components | `update/component_parser.py` |
| logger.dfy | UpdateLog | `update/update_logger.py` |
| ships.dfy | Ships | `update/ship_name_parser.py` |
| prescripted.dfy | Prescripted | `update/prescripted_parser.py` |
| icons.dfy | Icons | `update/extract_icon_mappings.py` |
| species.dfy | Species | `scripts/create_tech_json.py` species and block scanning |
| createtechjson.dfy | CreateTechJson | `scripts/create_tech_json.py` tech records |
| mergespecies.dfy | MergeSpecies | `scripts/merge_required_species.py` |
| localisation.dfy | Localisation | `update/parse_localisation.py`, `scripts/parse_localisation.py` |
| potentials.dfy | Potentials | `update/extract_potentials.py` |
| potentialanalysis.dfy | PotentialAnalysis | `update/analyze_potentials.py` |
| unlocktypes.dfy | UnlockTypes | `update/generate_unlock_types.py` |

Imperative source code is modelled as methods with loops, proved against
specification functions. Module state (`path-highlight.js`,
`filter-highlight.js`, the selection handler, `UpdateLogger`, the component
and reverse-unlock parsers) becomes a class. The area clean-up works on an
`array`. Directory listings, file contents and the localisation loader are
parameters: a listing is a sequence of (name, text) pairs in listing order.

Behaviour of the source that the model states as written:

- `humanize_modifier_key` also strips `ship_`, so its doc examples do not
  match the code (`TechJson.HumanizeShipKey`).
- The `NOR` test of `analyze_potentials` is implied by its `OR` test
  (`PotentialAnalysis.NorContainsOr`), and the first flag test of
  `_parse_tech_block` by the second (`Supplemental.YesFlagSpec`).
- The guard before the localisation pattern drops no line the pattern would
  match (`Localisation.GuardRedundant`).
- `getConnectedTechIds` seeds the dependent search with the ancestor set, so
  on cyclic data a dependent reached only through an ancestor is left out
  (`Data.ConnectedMissesDescendantBehindAncestor`).
- The reverse-unlock and icon block splitters count the header line's `{`
  but not the rest of that line, so a one-line block `a = { }` takes the next
  block into its body (`Scan.OneLineBlockSwallowsNext`).
- `isFactionExclusive` and `filterTechsByFaction` can read different keys
  when two availability keys differ only in case
  (`Data.ExclusiveImpliesAvailable` assumes they do not).

## Model

| member | source | states |
|---|---|---|
| Techs.TechMap | js/data.js:76-80 | The map's keys are exactly the ids of the list, and each id maps to a record of the list with that id. |
| Techs.TechMapLastWins | js/data.js:76-80 | A record that no later record shares an id with is the one the map holds, so a later duplicate replaces an earlier one. |
| Techs.IndexTechs | js/data.js:76-80 | The loop that fills the map one record at a time builds exactly `TechMap`. |
| Techs.FindById | js/data.js:104 | `list.find`: none exactly when no record has the id, otherwise the first record with that id. |
| Techs.WithIds | js/data.js:169 | The records whose id is in the set, as an order-preserving subsequence of the list. |
| Techs.LinksIntoMembership | js/data.js:93-95 | A link into a record exists exactly when its source is one of the record's prerequisites and an id of the set. |
| Techs.InducedLinksMembership | js/data.js:88-98 | A link is built exactly when some record lists the source as a prerequisite, the source is in the id set and the record is the target. |
| Techs.InducedLinksEnds | js/data.js:88-98 | Both ends of every link are ids of the list, so a prerequisite naming an absent id gives no link. |
| Techs.CollectLinksInto | js/data.js:93-95 | The inner loop pushes one link per prerequisite in the id set, in order. |
| Techs.CollectLinks | js/data.js:171-177 | The nested loops build the induced links of the nodes, in node order. |
| Techs.BuildLinksFromPrereqs | js/data.js:88-98 | `buildLinksFromPrereqs` returns the induced links of the whole list. |
| Graph.DependentIdsMembership | js/data.js:112-113 | An id is a dependent of `x` exactly when some record with that id lists `x` as a prerequisite. |
| Graph.NextClosedInNodes | js/data.js:103-118 | Every neighbour, in either direction, is an id of the list or a prerequisite it names, so the searches stay inside a finite set. |
| Graph.AddNeighbours | js/data.js:106-107 | Every neighbour not yet seen is marked seen and queued, once each, and the queue grows by exactly the new ids. |
| Graph.Explore | js/data.js:129-134 | The work-list search ends, on cycles too, with the avoided set, the start if wanted, and exactly the ids reachable from the start by a path that avoids the avoided set. |
| Graph.ExploreDone | js/data.js:129-134 | With the work list empty, the seen set is the initial set plus exactly what is reachable. |
| Graph.StepsClosed | js/data.js:129-134 | The reachable set is closed under taking a neighbour. |
| Graph.StepsTransitive | js/data.js:129-134 | Reachability is transitive. |
| Graph.StepsFromSink | js/data.js:129-134 | An id with no neighbours reaches nothing. |
| Graph.StepsAvoidMonotone | js/data.js:103-118 | Avoiding ids never makes more ids reachable. |
| Data.GetPrerequisites | js/data.js:125-136 | `getPrerequisites` returns the start and exactly the ids reachable from it through `techMap.get(id).prerequisites`. |
| Data.GetDescendants | js/data.js:155-162 | The descendant search returns the start and exactly the ids that reach it through prerequisites. |
| Data.AncestorsClosed | js/data.js:129-134 | The prerequisites of each member that names a record are members. |
| Data.AncestorsLeast | js/data.js:129-134 | The closure is the least set that holds the start and is closed under prerequisites. |
| Data.AncestorsOfUnknown | js/data.js:129-134 | With the start absent from the list the result is exactly the start. |
| Data.DescendantsClosed | js/data.js:156-161 | Every record requiring a member of the descendant closure is a member. |
| Data.GetConnectedTechIds | js/data.js:100-123 | `getConnectedTechIds` is the ancestor search seeded with the start, then the descendant search over the same growing set; the result holds the start and only ids of the list or its prerequisites. |
| Data.ConnectedIsolated | js/data.js:100-123 | A start that names no record and that nothing requires gives exactly the start. |
| Data.Bare | js/data.js:100-123 | A record with the given id and prerequisites and nothing else, used to build the examples below. |
| Data.Cycle3Ancestors | js/data.js:103-110 | On the cycle A, B, C the ancestor search from A reaches all three ids. |
| Data.ConnectedCycle3 | js/data.js:100-123 | On the 3-cycle the search terminates and the connected set is exactly {A, B, C}. |
| Data.CyclicDescendant | js/data.js:156-161 | In the cyclic example, Q descends from S. |
| Data.CyclicAncestors | js/data.js:103-110 | In the cyclic example, the ancestor search from S reaches exactly S and P. |
| Data.ConnectedMissesDescendantBehindAncestor | js/data.js:111-121 | The descendant phase starts with the ancestors already marked, so a descendant reached only through an ancestor (Q, via P) is missed although it descends from the start. |
| Graph.StepsFromSinkAvoiding | js/data.js:111-118 | When every neighbour of an id is already marked, the search from it adds nothing. |
| Data.Induced | js/data.js:169-177 | The nodes are the records with an id in the set, as an order-preserving subsequence of the list. |
| Data.InducedLinksExact | js/data.js:169-177 | A link exists exactly when both ends are in the id set and the target's record lists the source as a prerequisite. |
| Data.CalculateAllPaths | js/data.js:138-180 | `calculateAllPaths` returns the subgraph induced by the ancestors of the end intersected with the descendants of the start, with both ends added. |
| Data.EdgeInverse | js/data.js:156-161 | With distinct ids, a dependent edge is a prerequisite edge turned around. |
| Data.ReverseWitness | js/data.js:156-161 | A route along dependents, read backwards, is a route along prerequisites. |
| Data.ReverseWitnessBack | js/data.js:144-151 | A route along prerequisites, read backwards, is a route along dependents. |
| Data.DescendantsAncestorsDual | js/data.js:143-162 | With distinct ids, `y` descends from `x` exactly when `x` is an ancestor of `y`. |
| Data.PathIdsBetween | js/data.js:165-167 | An id is on the all-paths set exactly when it is an end, or it lies below the start and above the end. |
| Data.AnySpeciesMapsTo | js/data.js:288-291 | True exactly when some required species maps to the faction, ignoring case; an unmapped species never matches. |
| Data.FindKeyIgnoringCase | js/data.js:295-297 | None exactly when no key equals the faction up to case, otherwise the first such key with its entry. |
| Data.FilterTechsByFaction | js/data.js:252-303 | `'all'` or an empty faction returns the list itself; otherwise exactly the records available to the faction, in order. |
| Data.FactionPolicy | js/data.js:255-302 | The fallback policy: an empty availability map and no species keeps the record; an empty map with only unmapped species drops it; a non-empty map keeps it exactly when its first key equal to the faction up to case says available. |
| Data.GetTechName | js/data.js:312-334 | No record gives `''`; the default name for every faction; otherwise the default name or an alternate name; the result is empty only when the default name is. |
| Data.AvailableKeys | js/data.js:393-395 | The keys whose entry says available, in key order. |
| Data.IsFactionExclusive | js/data.js:354-400 | Never exclusive for every faction (`'all'` or empty); an exclusive record with no availability entries has exactly one required species, one of the mapped ones, and an exclusive record with entries has an entry for the faction, up to case, that says available. |
| Data.ExclusiveToOneFaction | js/data.js:354-400 | Exclusive means available to exactly one faction: every faction that differs from it up to case is refused the record by the faction filter, and the record is not exclusive to that faction either. |
| Data.FederationOnlyExclusive | js/data.js:360-389 | A record whose only required species is `Federation`, with no availability entries, is exclusive to `federation` and neither exclusive nor available to any faction that differs from it up to case. |
| Data.ExclusiveImpliesAvailable | js/data.js:354-400 | With keys distinct up to case, a record exclusive to a faction is also kept by the faction filter. |
| Data.UnrestrictedNotExclusive | js/data.js:360-364 | A record with no availability entries and no species is never exclusive, and every faction keeps it. |
| Shortest.AdjOfMembership | js/data.js:185-191 | The ids stored under `p` in `adj` are exactly the ids of records requiring `p`. |
| Shortest.BuildAdjacency | js/data.js:185-191 | The loops build `adj` with a key exactly for the ids some record requires, each holding those records' ids in list order. |
| Shortest.ForwardMembership | js/data.js:203-210 | A neighbour is a record requiring the id or a prerequisite of the record the map finds for it, the same set on both sides. |
| Shortest.NeighboursClosed | js/data.js:198-224 | Every neighbour lies in the list's ids and prerequisites, so each side visits a finite set. |
| Shortest.AddPaths | js/data.js:204 | Each unseen neighbour is stored with the current path extended by itself and queued; stored paths never change. |
| Shortest.SideStep | js/data.js:200-223 | Expanding the head of a queue keeps that side's invariant: every stored path is a simple path from the root along edges of expanded ids. |
| Shortest.ExpandHead | js/data.js:200-210 | One expansion keeps the side's invariant, keeps old paths and strictly decreases the unseen ids plus the queue length, so the loop terminates. |
| Shortest.RootPath | js/data.js:195 | The root's stored path is the root alone. |
| Shortest.JoinPath | js/data.js:201 | The forward path to the meeting id followed by the backward path to it, reversed and without its repeated first id, runs from start to end. |
| Shortest.ExhaustedSide | js/data.js:198 | A side whose queue ran out has expanded everything reachable from its root. |
| Shortest.Meet | js/data.js:201 | The joined path is a chain from start to end, and with equal ends it is the single id. |
| Shortest.SideInit | js/data.js:194-195 | Each side starts with its root queued and stored with the path of itself. |
| Shortest.ForwardTurn | js/data.js:199-210 | The forward step either meets the backward side and gives a chain, or expands its head, keeping the invariant and decreasing the measure. |
| Shortest.BackwardTurn | js/data.js:212-223 | The backward step, the same from the end's side. |
| Shortest.Search | js/data.js:198-224 | The loop ends; a found path is a chain from start to end; equal ends give `[start]`; no path means one side exhausted what it can reach without meeting the other. |
| Shortest.ChainShape | js/data.js:201 | A chain begins with the start, ends with the end, has distinct ids and joins consecutive ids by a prerequisite edge in either direction. |
| Shortest.CalculateShortestPath | js/data.js:182-233 | `calculateShortestPath`: a found path has that shape; equal ends give the single-id path; no path gives empty nodes and links; the subgraph is induced by the path's ids, so it can hold edges between non-consecutive path ids. |
| Filters.FilterTechsByArea | js/filters.js:4-7 | An empty area or `'all'` returns the list itself; otherwise exactly the records with that area, in order. |
| Filters.FilterTechsBySpecies | js/filters.js:9-15 | Inclusive mode keeps records with no species or with the species; exclusive mode keeps only non-empty lists containing it. |
| Filters.ExclusiveWithinInclusive | js/filters.js:9-15 | The exclusive result is a subsequence of the inclusive one. |
| Filters.TierOf | js/filters.js:19 | A numeric tier is its number; a tier `parseInt` cannot read counts as 0. |
| Filters.FilterTechsByTier | js/filters.js:17-22 | Exactly the records whose tier lies within the inclusive bounds, in order. |
| Filters.UnparsableTierKept | js/filters.js:17-22 | With the default range 0 to 99, a record with an unreadable tier is kept. |
| Filters.FilterConnected | js/filters.js:24-29 | No active id returns the list; otherwise the records connected to it, with connectivity computed over the list received. |
| Filters.ActiveKept | js/filters.js:24-29 | The active record itself survives the connectivity filter. |
| Filters.FilterTechs | js/filters.js:31-38 | The filters apply in the order area, species, connected, tier; the result is a subsequence of the input and every record meets the area, species and tier conditions. |
| Filters.AreaIdempotent | js/filters.js:4-7 | Filtering by area twice is filtering once. |
| Filters.SpeciesIdempotent | js/filters.js:9-15 | Filtering by species twice is filtering once. |
| Filters.TierIdempotent | js/filters.js:17-22 | Filtering by tier twice is filtering once. |
| Filters.AreaSpeciesCommute | js/filters.js:4-15 | The area and species filters commute. |
| Filters.AreaTierCommute | js/filters.js:4-22 | The area and tier filters commute. |
| Filters.SpeciesTierCommute | js/filters.js:9-22 | The species and tier filters commute. |
| PathHighlight.LinksAmong | js/ui/path-highlight.js:159-169 | The links loop gives exactly the prerequisite edges whose two ends are both in the id set. |
| PathHighlight.MissingAmong | js/ui/path-highlight.js:172-181 | The ghost loop gives exactly the records of the set's ids that are in the map but not rendered. |
| PathHighlight.RenderedIds | js/ui/path-highlight.js:172 | The ids of the rendered nodes. |
| PathHighlight.PathSymmetric | js/ui/path-highlight.js:124-137 | When at most one id requires the other, swapping the hovered and active ids gives the same nodes. |
| PathHighlight.PathNodesBetween | js/ui/path-highlight.js:141-156 | Both ends are on a non-empty path, and every other id lies below one end and above the other. |
| PathHighlight.PathHighlighter.constructor | js/ui/path-highlight.js:9-12 | The initial module state: no techs, no rendered nodes, no active id, direction `'prerequisites'`. |
| PathHighlight.PathHighlighter.SetHighlightDirection | js/ui/path-highlight.js:18-20 | Sets the direction and nothing else. |
| PathHighlight.PathHighlighter.InitPathHighlight | js/ui/path-highlight.js:34-36 | Sets the tech list and nothing else. |
| PathHighlight.PathHighlighter.SetRenderedNodes | js/ui/path-highlight.js:42-44 | Sets the rendered nodes and nothing else. |
| PathHighlight.PathHighlighter.SetActiveTechId | js/ui/path-highlight.js:50-52 | Sets the active id and nothing else. |
| PathHighlight.PathHighlighter.Complete | js/ui/path-highlight.js:159-183 | The links and ghosts that go with a node set. |
| PathHighlight.PathHighlighter.CalculatePath | js/ui/path-highlight.js:105-184 | Empty for a missing id, equal ids, an id not in the map or two unrelated ids; otherwise the id that is a prerequisite of the other is the start and the nodes are the end's ancestors that descend from the start, plus both ends; links are the edges inside; ghosts are the unrendered records. |
| PathHighlight.PathHighlighter.CalculateHighlight | js/ui/path-highlight.js:192-238 | Empty for a missing or unknown id; the ancestor closure for `'prerequisites'`, the descendant closure for any other direction; links and ghosts as above. |
| FilterHighlight.Normalise | js/ui/filter-highlight.js:48-49 | A selector becomes null exactly when it is empty or `'all'`, and is kept otherwise. |
| FilterHighlight.NothingSelectedMatchesAll | js/ui/filter-highlight.js:57-74 | With no active selector every record matches. |
| FilterHighlight.MatchesBoth | js/ui/filter-highlight.js:57-74 | The match is the AND of the category test and the unlock-type test. |
| FilterHighlight.FilterHighlighter.constructor | js/ui/filter-highlight.js:5-8 | The initial state: off, no selectors, no techs. |
| FilterHighlight.FilterHighlighter.InitFilterHighlight | js/ui/filter-highlight.js:14-16 | Sets the tech list and nothing else. |
| FilterHighlight.FilterHighlighter.SetFilterHighlightState | js/ui/filter-highlight.js:46-50 | Stores the toggle and the normalised selectors; the highlight is active exactly when the toggle is on and some selector is neither empty nor `'all'`. |
| FilterHighlight.FilterHighlighter.ClearFilterHighlight | js/ui/filter-highlight.js:124-133 | Afterwards the toggle is off, both selectors are null, the highlight is inactive and every record matches. |
| FilterHighlight.FilterHighlighter.UpdateTechs | js/ui/filter-highlight.js:139-149 | Replaces the list and nothing else, and asks for a re-apply exactly when the highlight is active. |
| Search.FindMatchingTechs | js/search.js:127-131 | A blank term gives `[]`; otherwise exactly the records whose name or id contains the trimmed, lower-cased term, as a subsequence of the list. |
| Search.NarrowerQuery | js/search.js:127-131 | A query that contains another matches a subsequence of what the shorter one matches. |
| Search.RunSearch | js/search.js:22-78 | A blank term gives nothing; one match activates it when visible and loads its branch otherwise; none reports no results; two or more give the grid with the links among the matches. |
| Search.GridWithinScope | js/search.js:73-78 | Every grid link joins two matched records. |
| Selection.Step | js/ui/selection.js:12-18 | No start, or both set: the click gives (id, none); a start and no end: (start, id), even when the id is the start. |
| Selection.ThreeClicks | js/ui/selection.js:12-18 | Two clicks select a pair, and a third starts a new selection holding only itself. |
| Selection.StartAlwaysSet | js/ui/selection.js:12-20 | After a click there is always a start, and the end is set exactly when the click completed a pair. |
| Selection.Stroke | js/ui/selection.js:26-31 | The outline is lime for the start, red for the end, yellow for the active record, in that priority. |
| Selection.ButtonLabel | js/ui/selection.js:34-41 | No button without a start; the label is 'Show Research Path' exactly when an end is set. |
| Selection.SelectionState.constructor | js/ui/selection.js:7-10 | Nothing selected. |
| Selection.SelectionState.HandleNodeSelection | js/ui/selection.js:6-43 | The stored selection moves by `Step`, and the caption is that of the new selection. |
| Scan.CloseFrom | update/supplemental_tech_parser.py:89-96 | The first `}` at or after the cursor where the brace depth returns to 0; no earlier `}` balances; None when no `}` balances. |
| Scan.ScanClose | update/supplemental_tech_parser.py:89-96 | The character loop finds exactly the balancing `}` that `CloseFrom` names. |
| Scan.BlockAt | update/supplemental_tech_parser.py:84-98 | A returned block is a prefix of the text from the start position, ends in `}` and has balanced braces; None exactly when the start is past the end or no `}` balances. |
| Scan.ExtractBlock | update/component_parser.py:99-113 | The loop returns the block `BlockAt` describes. |
| Scan.BlockShortest | update/supplemental_tech_parser.py:91-95 | The block is the shortest balanced one: no shorter prefix ending in `}` balances. |
| Scan.BlockBalanced | update/supplemental_tech_parser.py:91-95 | A block opened by `{` stays open, with a positive depth, until its last character. |
| Scan.BlockEnd | scripts/create_tech_json.py:106-117 | The walk from depth 1 stops one past the `}` that closes the block, where the net count of the block is -1, or at the end of the text when the block never closes. |
| Scan.WalkToClose | update/prescripted_parser.py:97 | The brace walk of the cursor loops stops at `BlockEnd`, and it reports the block closed exactly when some `}` brings the depth back to 0. |
| Scan.StripCommentsRemovesHash | update/component_parser.py:63 | No `#` survives comment removal, and a text without one is unchanged. |
| Scan.StripCommentsPrefix | update/component_parser.py:63 | Text before the first `#` is kept as it is. |
| Scan.CommentLineDropped | update/component_parser.py:63 | A commented-out line leaves only its line break. |
| Scan.RemoveQuotedBounds | scripts/reverse_unlock_parser.py:177 | Removing strings never makes the text longer, and a text without quotes is unchanged. |
| Scan.QuotedDropped | scripts/reverse_unlock_parser.py:177 | A quoted string is removed entirely, whatever it holds. |
| Scan.CommentBracesIgnored | scripts/reverse_unlock_parser.py:176-180 | Braces after a `#` do not count towards the depth. |
| Scan.SearchFrom | update/supplemental_tech_parser.py:117 | `re.search`: the hit at the leftmost position that holds one, or None when no position does. |
| Scan.FindAllFrom | update/supplemental_tech_parser.py:65 | `re.finditer`: every element is a hit at its own position, and the hits do not overlap and come in order. |
| Scan.AssignNeedsKeyword | update/supplemental_tech_parser.py:117 | A text without the keyword has no hit of an assignment pattern. |
| Scan.HitCaptures | update/component_parser.py:126-143 | The value an assignment or bare-value hit captures has the shape of its value pattern (`\w+`, `"[^"]+"`, `\{[^}]+\}`, ...). |
| Scan.SearchFirst | update/supplemental_tech_parser.py:117 | When the first hit is at position m, the search returns that hit. |
| Scan.SearchNone | update/supplemental_tech_parser.py:117 | With no hit at any position, the search and its captured value are None. |
| Scan.SearchCaptures | update/component_parser.py:126-143 | A value captured by the search has the shape of the value pattern. |
| Scan.FindAllCaptures | scripts/reverse_unlock_parser.py:202-214 | Every value `re.findall` captures has the shape of the value pattern. |
| Scan.WordAtFrom | scripts/create_tech_json.py:29 | `\bword\b` matches exactly when the word occurs at some position with a word boundary on both sides. |
| Scan.ContainsWordContains | scripts/create_tech_json.py:29 | A whole-word match is an occurrence of the word. |
| Scan.BodyEndSpec | scripts/reverse_unlock_parser.py:171-182 | Every body line before the end leaves the depth positive; the body stops on the first line that brings the depth to 0 or below, or at the last line. |
| Scan.ReadBody | scripts/reverse_unlock_parser.py:167-182 | The body loop stops at `BodyEnd` and gathers the text after the header brace followed by the body lines. |
| Scan.ReadBlock | scripts/reverse_unlock_parser.py:154-185 | The step at a line gives the block `NextBlock` defines. |
| Scan.ReadStep | scripts/reverse_unlock_parser.py:153-187 | Each step moves forward, and the blocks found so far followed by the blocks from the new line are still all the blocks. |
| Scan.BlocksOfLines | scripts/reverse_unlock_parser.py:149-189 | The loop over the lines returns exactly `BlocksFrom` from the first line. |
| Scan.ExtractTopLevelBlocks | update/extract_icon_mappings.py:60-107 | The loop returns the line-based blocks of the text (any identifier, or `tech_` identifiers only for the icon variant). |
| Scan.BlockIdsWellFormed | scripts/reverse_unlock_parser.py:162-164 | Every block id is a header id: a word, starting with `tech_` in the icon variant. |
| Scan.PlainLineNet | scripts/reverse_unlock_parser.py:179-180 | A line without comments or strings counts its braces as they stand. |
| Scan.OneLineBlockSwallowsNext | scripts/reverse_unlock_parser.py:167-171 | The brace on the header line is counted once but its closing `}` on the same line is not, so `a = { }` takes the next top-level block into its body. |
| TechJson.CategoriesPartition | update/create_tech_json_new.py:565-574 | Every unlock lands in exactly one of the four categories: the lists together are a permutation of the input, and their lengths add up to its length. |
| TechJson.CategoriseUnlocks | update/create_tech_json_new.py:560-574 | The loop puts each unlock, in input order, in the first category whose test it passes: `tech_`, then `building_`, then `COMPONENT_` or all upper case, then other. |
| TechJson.CategoryStep | update/create_tech_json_new.py:565-574 | One more unlock joins the list of its own category and no other. |
| TechJson.ExtractUnlockDetails | update/create_tech_json_new.py:541-667 | The four lists are the categories of the unlocks, the description is the joined category and reverse parts, and the groups are those `ByTypeSpec` states. |
| TechJson.ByTypeSpec | update/create_tech_json_new.py:636-666 | `unlocks_by_type` has each type at most once; a type holds its own category's localised names followed by the names of the reverse entries of that type, and a type with neither is absent. |
| TechJson.OwnGroupsSpec | update/create_tech_json_new.py:640-653 | Before the reverse entries, only the non-empty categories have a key, each holding that category's names. |
| TechJson.CategoryNamesLength | update/create_tech_json_new.py:598-624 | One name per unlock of the category. |
| TechJson.DescriptionEmpty | update/create_tech_json_new.py:627-633 | The description is empty exactly when there is no unlock and no reverse entry. |
| TechJson.ExtendAt | update/create_tech_json_new.py:582-583 | `defaultdict(list)` extension: the key gets its old list (or `[]`) followed by the new names, other keys are untouched, and a new key goes last. |
| TechJson.MergeUnlockDetailsWithReverse | update/create_tech_json_new.py:189-228 | The merging steps compute `Merged`. |
| TechJson.MergedSpec | update/create_tech_json_new.py:200-226 | Without reverse data the details come back unchanged; otherwise the category lists are untouched, `unlocks_by_type` holds exactly the reverse names grouped by type, and the sorted reverse parts are appended to the description after `" \| "`, or form it when it was empty. |
| TechJson.MergedDescription | update/create_tech_json_new.py:214-226 | The description half of `MergedSpec`. |
| TechJson.MergedGroups | update/create_tech_json_new.py:205-210 | The grouping half of `MergedSpec`: distinct types, each with the names of its entries. |
| TechJson.DetermineFactionAvailability | update/create_tech_json_new.py:670-741 | The three loops compute `FactionAvailability`. |
| TechJson.FactionAvailabilitySpec | update/create_tech_json_new.py:693-741 | A blank potential gives `{}`; otherwise a faction's entry is `uses_trigger` when a trigger of its own occurs in the block, else `civic` when a `has_civic` value maps to it, else `country_flag` when a `has_country_flag` value maps to it, and it is absent otherwise. |
| TechJson.MarkEach | update/create_tech_json_new.py:706-717 | The flag and civic loops mark exactly the factions the matched values map to. |
| TechJson.MarkEachTrigger | update/create_tech_json_new.py:733-735 | The trigger loop marks exactly the factions whose trigger occurs in the block. |
| TechJson.MarkEachUse | update/create_tech_json_new.py:720-735 | The trigger loop over the fixed table of ten triggers. |
| TechJson.MarkMappedGet | update/create_tech_json_new.py:707-710 | After the loop a faction has the loop's entry exactly when some match maps to it; other entries are kept. |
| TechJson.MarkTriggersGet | update/create_tech_json_new.py:733-735 | After the trigger loop a faction has `uses_trigger` exactly when one of its triggers occurs; other entries are kept. |
| TechJson.HumanizeNoUnderscore | update/create_tech_json_new.py:515-538 | A readable name never keeps an underscore. |
| TechJson.HumanizePlainKey | update/create_tech_json_new.py:525-536 | Every removed affix holds an underscore, so a key without one is only title-cased. |
| TechJson.HumanizeShipKey | update/create_tech_json_new.py:526 | `ship_` is removed too, so `ship_speed` reads "Speed" (not the "Ship Speed" of the doc comment). |
| TechJson.FirstPrefix | update/create_tech_json_new.py:394-399 | The first table row whose `_prefix_` marker occurs in the id, and no earlier row's marker occurs; None when no marker occurs. |
| TechJson.VariantName | update/create_tech_json_new.py:407-415 | A found variant name is never empty (`loc_loader.get(..., "")` followed by a truth test). |
| TechJson.FindPrefix | update/create_tech_json_new.py:394-399 | The loop with `break` finds `FirstPrefix`. |
| TechJson.CollectVariants | update/create_tech_json_new.py:403-415 | The loop over the table computes `Variants`. |
| TechJson.ExtractAlternateNames | update/create_tech_json_new.py:351-428 | The function computes `AlternateNames`. |
| TechJson.FactionPrefixesDistinct | update/create_tech_json_new.py:373-389 | Each faction is named by one row of the prefix table. |
| TechJson.VariantsFrom | update/create_tech_json_new.py:403-415 | Every stored alternate is some row's faction with that row's variant name. |
| TechJson.VariantsGet | update/create_tech_json_new.py:403-415 | With each faction named once, a faction's entry is exactly the name of its own variant, if any. |
| TechJson.VariantsAbsent | update/create_tech_json_new.py:403-415 | A faction no row names gets no entry. |
| TechJson.PlainIdNoAlternates | update/create_tech_json_new.py:402 | An id with no faction marker has no alternate names. |
| TechJson.AlternateNamesGet | update/create_tech_json_new.py:393-428 | A stored name is non-empty and belongs to a faction of the table; the first matching faction gets the tech's own name when there are alternates and the name is non-empty, every other faction gets its variant's name. |
| TechJson.TechCount | update/create_tech_json_new.py:996-1019 | A count is at most the number of techs. |
| TechJson.CountTechs | update/create_tech_json_new.py:998-1019 | The counting loop, with its inner `break`, computes `TechCount`. |
| TechJson.CountsTech | update/create_tech_json_new.py:1000-1019 | A tech counts when its availability names the faction as available, or, with no entry for the faction, when it has no species restriction or some species maps to the faction. |
| TechJson.BuildMetadata | update/create_tech_json_new.py:994-1036 | One entry per faction, in the given order, each with its info row (or the default) and its count. |
| TechJson.GenerateFactionsMetadata | update/create_tech_json_new.py:916-1038 | One entry per faction, in sorted order, each `MetaFor` that faction. |
| TechJson.TechCountAppend | update/create_tech_json_new.py:998-1019 | The count adds up over a split list of techs. |
| TechJson.UnrestrictedCounted | update/create_tech_json_new.py:1008-1012 | Every tech with no availability entries and no required species counts for every faction. |
| TechJson.AvailabilityOverridesSpecies | update/create_tech_json_new.py:1002-1005 | An entry marking the faction unavailable stops the tech counting, whatever its species. |
| TechJson.PlayableIffKnown | update/create_tech_json_new.py:1022-1034 | With an all-playable table, a faction is playable exactly when it is in the table. |
| Areas.MalformedCount | update/create_tech_json_new.py:851-867 | The number of fixed values is at most the number of techs. |
| Areas.FixArea | update/create_tech_json_new.py:853-867 | An area starting with `engineering`, `physics` or `society` (checked in that order) becomes that word, anything else is kept; the step reports a change exactly when the value was not already the word. |
| Areas.NormaliseAreas | update/create_tech_json_new.py:851-867 | The loop rewrites every tech's area in place to its normalised value and returns how many values it changed. |
| Areas.FixAt | update/create_tech_json_new.py:852-867 | One turn: only the tech at the cursor changes, to its normalised value, and the count grows by one exactly when it was malformed. |
| Areas.NormalAreaIdempotent | update/create_tech_json_new.py:856-867 | Normalising twice is normalising once. |
| Areas.NormalAreaChanges | update/create_tech_json_new.py:856-867 | A changed area becomes one of the three area words, and it started with that word. |
| Areas.SecondPassFixesNothing | update/create_tech_json_new.py:851-867 | A second pass over normalised techs fixes nothing. |
| TechJsonOld.ExtractUnlockDetailsOld | scripts/create_tech_json_new.py:279-345 | Empty input gives three empty lists, no `other` key and an empty description; otherwise the four categories (first match wins, as in the later revision) and the count summary. |
| TechJsonOld.SummaryPartsCount | scripts/create_tech_json_new.py:322-335 | One count phrase per non-empty category. |
| TechJsonOld.SummaryNeverEmpty | scripts/create_tech_json_new.py:296-337 | The description is non-empty exactly when there are unlocks, and then it starts with `"Unlocks: "`: every unlock lands in some category, so `"No direct unlocks"` is never produced. |
| TechJsonOld.DetermineFactionAvailabilityOld | scripts/create_tech_json_new.py:348-386 | The loop builds the availability `OldAvailabilitySpec` describes. |
| TechJsonOld.MarkAllSpec | scripts/create_tech_json_new.py:376-380 | Each listed faction is available under the condition, keys in first-listed order without repeats, nothing else present. |
| TechJsonOld.OldAvailabilitySpec | scripts/create_tech_json_new.py:367-386 | A tech named in the mappings gives each of its factions `available` with the mapping's condition (default `'detected'`); any other tech gives `{}`. |
| TechJsonOld.OldTechCount | scripts/create_tech_json_new.py:551-555 | A count is at most the number of techs. |
| TechJsonOld.CountTechsOld | scripts/create_tech_json_new.py:551-555 | The generator sum counts techs with no availability entries or with the faction as a key. |
| TechJsonOld.BuildMetadataOld | scripts/create_tech_json_new.py:549-573 | One entry per faction, in the given order, with its info row and the earlier count. |
| TechJsonOld.GenerateFactionsMetadataOld | scripts/create_tech_json_new.py:490-575 | One entry per faction in sorted order. |
| TechJsonOld.CountRevisions | scripts/create_tech_json_new.py:551-555 | With an entry for the faction the earlier revision always counts the tech, the later one only when the entry says available; without one, the earlier counts only techs with no entries at all, the later falls back to the required species. |
| TechJsonOld.OldCountCoversEntries | scripts/create_tech_json_new.py:551-555 | When every tech has an entry for the faction, the earlier count is never smaller than the later one. |
| TechJsonOld.ParseModifiersForDisplay | scripts/create_tech_json_new.py:186-212 | The loop builds `DisplayEffects`: nothing for a non-dictionary, one effect per numeric entry otherwise. |
| TechJsonOld.DisplayEffectsSpec | scripts/create_tech_json_new.py:192-207 | Every effect is a numeric entry of the dictionary with its own value, the number style its suffix selects and a readable name without underscores; every numeric entry has its effect. |
| Unlocks.NamesOfKind | scripts/reverse_unlock_parser.py:254-256 | A type has at most as many names as there are entries. |
| Unlocks.NamesOfKindPresent | scripts/reverse_unlock_parser.py:254-256 | A type that some entry has has names. |
| Unlocks.GroupedNonEmpty | update/create_tech_json_new.py:205-207 | Grouping at least one entry gives at least one group. |
| Unlocks.GroupedSpec | update/create_tech_json_new.py:205-207 | Grouping appends, under each type, the names of that type's entries in order; a type without entries keeps what it had; no key is repeated. |
| Unlocks.GroupByType | scripts/reverse_unlock_parser.py:254-256 | The `defaultdict(list)` loop builds `Grouped`. |
| Unlocks.KindLeTotalPreorder | scripts/reverse_unlock_parser.py:260 | The order `sorted` uses on the items (by type) is a total preorder. |
| Unlocks.SortedGroups | scripts/reverse_unlock_parser.py:260 | `sorted(by_type.items())` is sorted by type and is a permutation of the items. |
| Unlocks.Parts | scripts/reverse_unlock_parser.py:260-265 | One formatted part per group. |
| Unlocks.FormatParts | scripts/reverse_unlock_parser.py:259-265 | The formatting loop gives one part per sorted group: `"Type: name"` for one name, `"Types: a, b"` for several. |
| Unlocks.SortedGroupsOf | scripts/reverse_unlock_parser.py:260 | The sorted items are stored pairs, in strictly increasing type order, one for each type. |
| Unlocks.EntriesFormatted | scripts/reverse_unlock_parser.py:253-267 | The parts are the entries' types in strictly increasing order, one per type the entries use, each formatted with all that type's names in entry order. |
| ReverseUnlock.ContextBefore | scripts/reverse_unlock_parser.py:217-218 | The window is the up-to-50 characters just before the match. |
| ReverseUnlock.HasTechsKept | scripts/reverse_unlock_parser.py:214-221 | A technology is taken from a `has_technology` match exactly when some match names it and its window does not hold both `NOT` and `=`. |
| ReverseUnlock.CollectHasTechs | scripts/reverse_unlock_parser.py:214-221 | The `finditer` loop keeps the non-negated matches in order. |
| ReverseUnlock.Distinct | scripts/reverse_unlock_parser.py:224 | `list(set(...))`: no repeats and the same elements. |
| ReverseUnlock.ExtractPrerequisites | scripts/reverse_unlock_parser.py:191-224 | Each technology once, and exactly those quoted in the first `prerequisites` block, named by `required_technology`, or named by a non-negated `has_technology`. |
| ReverseUnlock.ExtractName | scripts/reverse_unlock_parser.py:226-233 | The first quoted `name` field wins when there is one. |
| ReverseUnlock.PrettyIdNoUnderscore | scripts/reverse_unlock_parser.py:238-241 | A prettified id with an underscore keeps none. |
| ReverseUnlock.PrettyIdSegments | scripts/reverse_unlock_parser.py:238-241 | An id of several segments drops the first and capitalises and space-joins the non-empty others. |
| ReverseUnlock.PrettyIdSingleSegment | scripts/reverse_unlock_parser.py:242-244 | An id without an underscore is capitalised as a whole. |
| ReverseUnlock.ExtractNameEmptyBody | scripts/reverse_unlock_parser.py:235-244 | A block without text falls back to the prettified id. |
| ReverseUnlock.ParsedAll | scripts/reverse_unlock_parser.py:124-130 | One summary per block. |
| ReverseUnlock.Contribution | scripts/reverse_unlock_parser.py:124-143 | A block adds at most one entry under a technology. |
| ReverseUnlock.EntriesFor | scripts/reverse_unlock_parser.py:124-143 | A technology gets at most one entry per block. |
| ReverseUnlock.EntriesForAbsent | scripts/reverse_unlock_parser.py:132-143 | A technology no block requires gets no entry. |
| ReverseUnlock.EntriesForSound | scripts/reverse_unlock_parser.py:124-143 | Each entry under a technology comes from a non-meta block that requires it and carries the file's type, the block's id and its name. |
| ReverseUnlock.EntriesForComplete | scripts/reverse_unlock_parser.py:124-143 | Each non-meta block that requires a technology gives an entry under it. |
| ReverseUnlock.MetaBlock | scripts/reverse_unlock_parser.py:126-127 | The six meta block ids add nothing. |
| ReverseUnlock.ReverseUnlockParser.constructor | scripts/reverse_unlock_parser.py:15-17 | The reverse map starts empty. |
| ReverseUnlock.ReverseUnlockParser.AddEntries | scripts/reverse_unlock_parser.py:137-143 | The entry is appended under each listed technology and no other list changes. |
| ReverseUnlock.ReverseUnlockParser.ParseFile | scripts/reverse_unlock_parser.py:112-145 | An unreadable file changes nothing and counts 0; otherwise each technology's list grows by the entries of the file's blocks, in block order, and the count is the number of entries added. |
| ReverseUnlock.ReverseUnlockParser.ParseBlocks | scripts/reverse_unlock_parser.py:124-145 | The loop over the blocks appends exactly `EntriesFor` under each technology and counts them. |
| ReverseUnlock.ReverseUnlockParser.ParseBlock | scripts/reverse_unlock_parser.py:125-143 | A meta block changes nothing; any other block appends its entry under each of its technologies. |
| ReverseUnlock.ReverseUnlockParser.FormatUnlocksForTech | scripts/reverse_unlock_parser.py:246-267 | None for a technology without entries; otherwise the sorted, formatted groups of its entries joined by `" \| "`. |
| Supplemental.ReadTitled | update/supplemental_tech_parser.py:224-234 | The `ship` and `feature` branches give the entry `TitledEntry` describes. |
| Supplemental.ParsePrereqforDesc | update/supplemental_tech_parser.py:208-264 | The dictionary is filled key by key as `PrereqforDescOf` describes. |
| Supplemental.TitledEntrySpec | update/supplemental_tech_parser.py:224-262 | No entry without the keyword; an entry needs a `{...}` body and a non-empty quoted title, and its description is empty exactly when the body has no quoted `desc`. |
| Supplemental.PrereqforDescSpec | update/supplemental_tech_parser.py:221-264 | The component, building and technology keys are present exactly when their matches exist and hold those matches; `ship` and `feature` appear only with a title, and never when the block lacks the word. |
| Supplemental.MissingFieldDefaults | update/supplemental_tech_parser.py:106-150 | A missing tier, cost or weight takes its default (1, 0, 1); the name and source file are recorded; a block without `weight` never fails. |
| Supplemental.IntFieldShown | update/supplemental_tech_parser.py:132-143 | A field written `kw = n` is read back as `n`. |
| Supplemental.AreaSpec | update/supplemental_tech_parser.py:116-129 | The area is a non-empty word: the `area` value when present, else `physics`, `engineering` or `society` by the id prefix, else `unknown`. |
| Supplemental.CategorySpec | update/supplemental_tech_parser.py:160-167 | Categories are non-empty words other than OR, AND and NOT; no category block gives `[]`. |
| Supplemental.PrerequisitesSpec | update/supplemental_tech_parser.py:152-158 | Prerequisites are quoted `tech_` ids; no prerequisites block gives `[]`. |
| Supplemental.YesFlagSpec | update/supplemental_tech_parser.py:170-173 | The flag test is true exactly when `name = yes` occurs (the first test is redundant). |
| Supplemental.UnlocksSpec | update/supplemental_tech_parser.py:175-187 | `has_unlocks` holds exactly when a balanced `prereqfor_desc` block was extracted; otherwise the dictionary stays empty. |
| Supplemental.ModifierOpenAt | update/supplemental_tech_parser.py:190 | A match ends just after a `{`. |
| Supplemental.StoreNumbersHas | update/supplemental_tech_parser.py:198-204 | A modifier key is stored exactly when some pair carries it with a number `float()` accepts. |
| Supplemental.StoreNumbersLast | update/supplemental_tech_parser.py:198-204 | The value stored under a key is the number of the last pair that carries it with an accepted number. |
| Supplemental.CollectDirectModifiers | update/supplemental_tech_parser.py:197-204 | The key/value loop, with `continue` on a rejected number, computes `StoreNumbers` over the matches. |
| Supplemental.ReadUnlocks | update/supplemental_tech_parser.py:176-187 | The `prereqfor_desc` branch computes `UnlocksOf`. |
| Supplemental.ReadDirectModifiers | update/supplemental_tech_parser.py:189-204 | The direct-modifier branch computes `DirectModifiersOf`. |
| Supplemental.ParseTechBlock | update/supplemental_tech_parser.py:100-206 | The dictionary is filled field by field as `TechBlockData` describes; None when `float()` rejects the weight. |
| Supplemental.TechsOfHitsSkip | update/supplemental_tech_parser.py:70-72 | A header whose block never balances is skipped. |
| Supplemental.TechsOfHitsTake | update/supplemental_tech_parser.py:75-77 | A parsed block adds its tech and the scan goes on. |
| Supplemental.TechsOfHitsStop | update/supplemental_tech_parser.py:55-82 | A block whose parse raises ends the file: the techs before it are kept and no later one is read. |
| Supplemental.TechsOfHitsNames | update/supplemental_tech_parser.py:63-77 | Every tech of a file is named by its header's `tech_` id and records the file; no header gives more than one tech. |
| Supplemental.TechsOfFileNames | update/supplemental_tech_parser.py:51-82 | Every tech of a file starts with `tech_` and records the file. |
| Supplemental.ParseTechFile | update/supplemental_tech_parser.py:51-82 | The file's techs are those `TechsOfFile` describes. |
| Supplemental.ParseHits | update/supplemental_tech_parser.py:65-77 | The loop over the header matches computes `TechsOfHits`. |
| Supplemental.ParseHit | update/supplemental_tech_parser.py:66-77 | One match: a block that never closes is skipped, a block whose weight is rejected ends the file, and any other block gives one tech. |
| Components.ModifierOpenAt | update/component_parser.py:151 | A match of the multi-line modifier pattern ends just after a `{`. |
| Components.DamageAt | update/component_parser.py:187 | The two captured damage numbers are runs of digits and dots. |
| Components.ComponentBlockOutcome | update/component_parser.py:115-201 | A block without a quoted `key` is skipped (never without the word `key`); a keyed block raises exactly when one of its numbers is rejected by `float()`, and is parsed otherwise. |
| Components.KeySpec | update/component_parser.py:126-128 | A found key is non-empty and holds no quote. |
| Components.ComponentBlockSpec | update/component_parser.py:117-148 | A parsed component carries its template type, a non-empty quote-free key and only `tech_` prerequisites. |
| Components.PrerequisitesSpec | update/component_parser.py:143-148 | Prerequisites are the `tech_` words of the first prerequisites block; no block, none. |
| Components.DictSpec | update/component_parser.py:176-177 | `{k: float(v) for k, v in pairs}` holds a key exactly when some pair carries it, with the number of the last such pair. |
| Components.ReadNumbers | update/component_parser.py:160-163 | The loop succeeds exactly when every number is accepted, and then builds that dictionary. |
| Components.ParseComponentBlock | update/component_parser.py:115-201 | The block is parsed as `ComponentBlockOf` describes, its first failing `float()` reported as raising. |
| Components.LinkAllSpec | update/component_parser.py:90-92 | Each tech gains the key once per time it is listed, at the end of its list, and a tech has a list exactly when it had one or is listed. |
| Components.StoreConsistent | update/component_parser.py:83-92 | Storing a component keeps every linked key a stored component. |
| Components.StoreGrows | update/component_parser.py:85-92 | Storing a component keeps every earlier key and link, stores the new key and links it under each of its prerequisites. |
| Components.HitStepGrows | update/component_parser.py:70-92 | One match keeps what was stored, counts at most one component and keeps the state consistent. |
| Components.FileStoreSpec | update/component_parser.py:54-97 | A file keeps what was stored before it, keeps the state consistent and counts at most one component per template match. |
| Components.ComponentsOf | update/component_parser.py:205 | The components of the given keys, in order. |
| Components.ComponentParser.constructor | update/component_parser.py:27-30 | Both dictionaries start empty. |
| Components.ComponentParser.LinkTechs | update/component_parser.py:91-92 | The key is appended under each prerequisite and the components are untouched. |
| Components.ComponentParser.StoreParsed | update/component_parser.py:85-92 | The component is stored under its key and linked, as `StoreComponent` describes, and the count grows by one. |
| Components.ComponentParser.ParseHit | update/component_parser.py:71-92 | One match: the state moves as `HitStep` says; when the block raises, nothing changes and the file ends. |
| Components.ComponentParser.ParseComponentFile | update/component_parser.py:54-97 | The new state and the count are `FileStore`'s; everything stored before is kept and the state stays consistent. |
| Components.ComponentParser.ParseAllComponents | update/component_parser.py:32-52 | The files are parsed in turn and the total is the sum of their counts. |
| Components.ComponentParser.ComponentsForTech | update/component_parser.py:203-205 | The components of the keys linked to the tech, in link order; an unknown tech gives none. |
| UpdateLog.Closed | update/update_logger.py:139-157 | The stored phase keeps its name and steps and always has an outcome: the explicit one when given, else whether every step succeeded (true for no steps). |
| UpdateLog.StepError | update/update_logger.py:135-137 | A step adds a session error, `"script: message"`, exactly when its status is `"error"` and its message is non-empty. |
| UpdateLog.FailedStepFailsPhase | update/update_logger.py:150-153 | A step that did not succeed makes its phase fail by default. |
| UpdateLog.ErrorFailsSession | update/update_logger.py:190-194 | Once an error is recorded the session fails by default, whatever its phases did. |
| UpdateLog.FailedPhaseFailsSession | update/update_logger.py:191-193 | A failed phase makes the session fail by default. |
| UpdateLog.UpdateLogger.constructor | update/update_logger.py:41-58 | Everything empty, no session, no open phase, not started. |
| UpdateLog.UpdateLogger.StartSession | update/update_logger.py:60-85 | A fresh session with no end and no outcome, the given environment, every list and dictionary reset, and the started flag set. |
| UpdateLog.UpdateLogger.SetEnvironment | update/update_logger.py:91-93 | The environment is updated with the arguments (later keys replace earlier ones) and nothing else changes. |
| UpdateLog.UpdateLogger.StartPhase | update/update_logger.py:95-111 | Raises, changing nothing, before `start_session`; otherwise closes an open phase with its default outcome and opens an empty one. |
| UpdateLog.UpdateLogger.LogStep | update/update_logger.py:113-137 | Raises, changing nothing, without an open phase; otherwise appends the step to the open phase and the session error `StepError` gives, and nothing else changes. |
| UpdateLog.UpdateLogger.EndPhase | update/update_logger.py:139-157 | Nothing without an open phase; otherwise the phase is appended with its outcome (`Closed`) and no phase is open. |
| UpdateLog.UpdateLogger.SetStatistics | update/update_logger.py:159-161 | The statistics are updated with the arguments and nothing else changes. |
| UpdateLog.UpdateLogger.AddManualStep | update/update_logger.py:163-165 | The step is appended and nothing else changes. |
| UpdateLog.UpdateLogger.AddWarning | update/update_logger.py:167-169 | The warning is appended and nothing else changes. |
| UpdateLog.UpdateLogger.AddError | update/update_logger.py:171-173 | The error is appended and nothing else changes. |
| UpdateLog.UpdateLogger.EndSession | update/update_logger.py:175-196 | Nothing before `start_session`; otherwise an open phase is closed, the session ends and its outcome is the explicit one, else every phase succeeded and no error was recorded. |
| UpdateLog.UpdateLogger.GetLogData | update/update_logger.py:198-208 | The log data is the logger's state, field by field. |
| Ships.UnionAt | update/ship_name_parser.py:74-76 | `if t not in d: d[t] = set()` then adding keys: the technology's set grows by the new keys, other entries are untouched, and a new technology goes last. |
| Ships.UnionAtWellFormed | update/ship_name_parser.py:72-76 | Adding `required_data_` keys under a non-empty technology keeps the dictionary well formed (distinct technologies, non-empty sets of data keys). |
| Ships.UnionAtGrows | update/ship_name_parser.py:74-76 | Adding keeps every earlier key and stores the new ones. |
| Ships.EntryOf | update/ship_name_parser.py:66-76 | A recorded entry has a non-empty technology and a `required_data_` key. |
| Ships.EntryNeedsKeywords | update/ship_name_parser.py:66-73 | A block records something only when it names a prerequisite and a component set (a `key`, for upgrades); a ship-size block records the first set it names. |
| Ships.NextOpen | update/ship_name_parser.py:47-51 | The next block opening is after the cursor. |
| Ships.CollectWellFormed | update/ship_name_parser.py:45-78 | Scanning a file keeps the dictionary well formed and keeps everything it held. |
| Ships.ScanBlocks | update/ship_name_parser.py:116-149 | The `while True` loop of either parser over a file computes `CollectFrom`. |
| Ships.ParsedWellFormed | update/ship_name_parser.py:21-152 | Both parsers return well-formed dictionaries. |
| Ships.ParseShipSizes | update/ship_name_parser.py:21-82 | The `.txt` files are scanned in listing order, unreadable ones skipped, as `ParsedSizes` describes. |
| Ships.ParseComponentTemplates | update/ship_name_parser.py:85-152 | A missing or unreadable file gives `{}`; otherwise the upgrade blocks of the file, as `ParsedUpgrades` describes. |
| Ships.LocEntryAt | update/ship_name_parser.py:180 | A match has a `required_data_` key without colons and a non-empty quote-free text. |
| Ships.LocEntriesFrom | update/ship_name_parser.py:180 | Every `re.findall` pair has that shape. |
| Ships.KeepNames | update/ship_name_parser.py:182-193 | The filtering loop computes `KeptNames`. |
| Ships.ParseShipLocalisation | update/ship_name_parser.py:155-196 | A missing or unreadable file gives `{}`; otherwise the matches that pass the filters, with the colour-code test applied to `§` as intended rather than to the `ยง` written at line 187 (see "## Findings"). |
| Ships.KeptNamesSpec | update/ship_name_parser.py:182-193 | A key is stored exactly when some match with it is not a `_DESC` key and passes the text filters; the stored name is that of the last such match. |
| Ships.ShipLocalisationSpec | update/ship_name_parser.py:155-196 | Every stored name comes from the file under a non-`_DESC` key and holds no `§` formatting code, no escaped line break and is not a bare number (with the `§` test as intended). |
| Ships.SectionSignFinding | update/ship_name_parser.py:187 | `"§Y"` is kept by the test as written (which looks for the two characters `ยง`) but dropped by the test as intended. |
| Ships.MergeIntoSpec | update/ship_name_parser.py:220-229 | After merging, a technology's set is the union of its sets in both, and it is present exactly when present in either. |
| Ships.MergedSourcesSpec | update/ship_name_parser.py:220-229 | A technology's merged keys are the union of its ship-size and upgrade keys, and no technology is repeated. |
| Ships.NamesOfTech | update/ship_name_parser.py:236-247 | The inner loop lists each display name of the technology's keys once. |
| Ships.NameLists | update/ship_name_parser.py:235-247 | Exactly the technologies with at least one display name get a list, in dictionary order, each listing its display names once. |
| Ships.SortLists | update/ship_name_parser.py:250-251 | Each list is sorted in place: same keys, each list a sorted permutation of the old one. |
| Ships.BuildMapping | update/ship_name_parser.py:232-251 | The result is a ship mapping: per technology with names, its display names sorted and each once. |
| Ships.BuildTechToShipsMapping | update/ship_name_parser.py:199-260 | The mapping of the merged sources and the filtered localisation, whose colour-code test is the intended `§` one, not the `ยง` written at line 187 (see "## Findings"). |
| Ships.ShipMappingDeterministic | update/ship_name_parser.py:235-251 | Two mappings for the same keys and names are equal: the iteration order of the sets does not show through the sort. |
| Ships.ShipNamesSpec | update/ship_name_parser.py:263-274 | The names looked up for any technology are its display names, sorted and each once; a technology without one gets `[]`. |
| Prescripted.EmpireDataSpec | update/prescripted_parser.py:116-185 | The id is the key in lower case, the quadrant is the file's, the variant flag is the `_B` suffix; each optional field is absent or has its pattern's shape; the name is the localised name of the name key when that is non-empty, and the key otherwise. |
| Prescripted.SpeciesClassSpec | update/prescripted_parser.py:139-150 | `species_class =` wins over `species = { class = ... }`; a block that never says `species` has no species class. |
| Prescripted.HeaderFrom | update/prescripted_parser.py:82-87 | The next header ends after the cursor. |
| Prescripted.RecordsOf | update/prescripted_parser.py:107-109 | One record per block. |
| Prescripted.ParseCountryBlocks | update/prescripted_parser.py:67-113 | The scan returns the records of the country blocks, as `CountriesFrom` describes. |
| Prescripted.ParseNextCountry | update/prescripted_parser.py:80-111 | One turn moves the cursor forward, adds the record of a non-skipped block and keeps the blocks seen plus those still to come equal to all the blocks. |
| Prescripted.BlocksStep | update/prescripted_parser.py:90-111 | A skipped key (`empire_flag`, `ruler`, `species`) resumes the scan inside its block; any other key's block, up to its balancing brace, comes next. |
| Prescripted.ExtractEmpireData | update/prescripted_parser.py:116-185 | The record `EmpireData` describes. |
| Prescripted.BlocksSpec | update/prescripted_parser.py:90-92 | No block has a skipped key. |
| Prescripted.CountriesSpec | update/prescripted_parser.py:67-113 | Every record has a non-skipped key, its lower-cased key as id and the file's quadrant. |
| Prescripted.UnterminatedBlockLast | update/prescripted_parser.py:95-111 | A block that never closes runs to the end of the text and is the last one. |
| Prescripted.CountryFiles | update/prescripted_parser.py:45-48 | The `STH_*.txt` files of the listing, sorted by name. |
| Prescripted.ParsePrescriptedCountries | update/prescripted_parser.py:32-64 | The country files in name order, unreadable ones skipped, each parsed with its quadrant (`'unknown'` for a name outside the table). |
| Prescripted.ParseFiles | update/prescripted_parser.py:49-61 | The file loop concatenates the records of the files in turn. |
| Prescripted.ParseFile | update/prescripted_parser.py:49-61 | An unreadable file adds nothing; a readable one adds its country records. |
| Prescripted.EmpiresOfFilesSpec | update/prescripted_parser.py:48-61 | Each record comes from a readable file and carries that file's quadrant. |
| Prescripted.RemoveColourCodes | update/prescripted_parser.py:252 | Removing colour codes never makes the name longer. |
| Prescripted.UncodedUnchanged | update/prescripted_parser.py:252 | A name without `§` is unchanged. |
| Prescripted.EntryOfSpec | update/prescripted_parser.py:232-279 | A record gives an entry exactly when it is not a variant, its name does not contain `2300s` and its name key does not contain `2300` (a name holding only `2300`, with a name key without it, is kept), its name has no `£`, `§` or `$` and is not blank; the entry has the stripped name, the quadrant, `playable`, unique ships exactly for a non-generic graphical culture, and the species class or the upper-cased first three letters of the key as short name. |
| Prescripted.EntryAsWrittenSpec | update/prescripted_parser.py:241 | As written, a non-variant record without `2300s` in its name and without a name key raises; otherwise it gives the intended entry. |
| Prescripted.NameKeyFinding | update/prescripted_parser.py:241 | A block without a `name` field, whose key is a usable name, makes the written loop raise although the intended test keeps it. |
| Prescripted.EntriesAsWrittenSpec | update/prescripted_parser.py:232-279 | The written loop raises exactly when some record raises, and otherwise gives the intended entries. |
| Prescripted.EntriesSpec | update/prescripted_parser.py:232-279 | Each entry is the entry of some record, each record that gives one has it listed, and every entry is playable with a non-empty name. |
| Prescripted.NameLeTotalPreorder | update/prescripted_parser.py:285 | Ordering entries by name is a total preorder. |
| Prescripted.SortedByName | update/prescripted_parser.py:285 | The sort by name is sorted and a permutation. |
| Prescripted.EnhanceEmpires | update/prescripted_parser.py:230-279 | The loop with its `continue`s computes the intended entries. |
| Prescripted.BuildEmpiresList | update/prescripted_parser.py:188-287 | The parsed, filtered and sorted list, as `EmpiresList` describes. |
| Prescripted.EmpiresListSpec | update/prescripted_parser.py:188-287 | The list is sorted by name, every entry is playable with a non-empty name, and it holds exactly the entries of the parsed records. |
| Icons.IconOfSpec | update/extract_icon_mappings.py:39-47 | The icon is the value of the leftmost `icon =` match in the comment-free block, a run of letters, digits, `_` and `-`. |
| Icons.NoMatchUsesId | update/extract_icon_mappings.py:48-50 | Without an `icon =` match the icon is the tech id. |
| Icons.NoIconUsesId | update/extract_icon_mappings.py:43-50 | A block that never says `icon` outside a comment uses its id. |
| Icons.TrailingCommentIgnored | update/extract_icon_mappings.py:39 | A comment at the end of a block's text changes nothing, even one that mentions an icon. |
| Icons.IconEntries | update/extract_icon_mappings.py:36-50 | One `(tech_id, icon)` pair per block, in order. |
| Icons.ExtractIconMappings | update/extract_icon_mappings.py:15-57 | The loops over the files and their blocks compute `IconMappings`. |
| Icons.AddBlocks | update/extract_icon_mappings.py:36-50 | The inner loop stores the icon of each block of one file, in order. |
| Icons.IconMappingsKeys | update/extract_icon_mappings.py:29-50 | Exactly the extracted techs have a mapping. |
| Icons.IconMappingsLastWins | update/extract_icon_mappings.py:47-50 | A tech's icon is that of its last block: a later block with the same id overwrites the earlier mapping. |
| Icons.IconMappingsDistinct | update/extract_icon_mappings.py:25-50 | Each tech id appears once. |
| Icons.TechBlocksOfFiles | update/extract_icon_mappings.py:29-34 | Every block of a scanned file comes out of the scan. |
| Icons.TechBlockIds | update/extract_icon_mappings.py:80-82 | Every block's id is a `tech_` word. |
| Icons.Resolved | update/extract_icon_mappings.py:137-139 | Each listed tech paired with its mapped icon, or itself. |
| Icons.AnalyzeMissingIcons | update/extract_icon_mappings.py:110-145 | Nothing when the list file is missing; otherwise the two lists `AnalyzeSpec` describes. |
| Icons.AnalysisPartition | update/extract_icon_mappings.py:134-145 | Each listed tech lands in exactly one of the two lists. |
| Icons.AnalysisPlacement | update/extract_icon_mappings.py:137-145 | A listed tech is paired with its mapped icon, in the found list exactly when that icon exists and in the missing list otherwise. |
| Species.AllTriggersSpec | scripts/create_tech_json.py:19-22 | The flattened list holds exactly the triggers of the categories. |
| Species.FlattenTriggers | scripts/create_tech_json.py:19-22 | The loop appends every category's triggers in order. |
| Species.CollectedSpec | scripts/create_tech_json.py:24-33 | A species is collected for a kind exactly when a trigger of that kind naming it fires on the block, its condition standing as a whole word. |
| Species.RequiredSpecies | scripts/create_tech_json.py:12-35 | The required and excluded sets are the species of the firing include and exclude triggers. |
| Species.FinalSpeciesSpec | scripts/create_tech_json.py:157-158 | A species is listed exactly when a firing include trigger names it and no firing exclude trigger does. |
| Species.PotentialSpec | scripts/create_tech_json.py:143-155 | The potential block is empty without a `potential = {` match or without a balancing `}`; otherwise it is the text up to the first balancing `}`, with as many `{` as `}`. |
| Species.PotentialShortest | scripts/create_tech_json.py:148-155 | No `}` inside the potential block balances its opening brace. |
| Species.ExtractPotential | scripts/create_tech_json.py:143-155 | The search and the brace-counting loop compute the potential block. |
| Species.BalancedFrom | scripts/create_tech_json.py:146-155 | The loop returns the text up to the `}` that balances the open brace, or "" when none does. |
| Species.NextHeader | scripts/create_tech_json.py:100-105 | A header found from the cursor ends after it, at a `{`, inside the text. |
| Species.Accept | scripts/create_tech_json.py:119-124 | A block is kept exactly when it closes, its id is not a keyword and the id is new. |
| Species.KeptIdsSpec | scripts/create_tech_json.py:98-124 | The ids kept from a file are exactly those of its eligible blocks. |
| Species.KeptDistinct | scripts/create_tech_json.py:119-124 | No id is kept twice. |
| Species.KeptSpec | scripts/create_tech_json.py:98-124 | The kept blocks are exactly the first eligible definition of each id, with its body. |
| Species.NextTechBlock | scripts/create_tech_json.py:99-121 | One turn of the cursor loop moves the cursor forward past one candidate and keeps it as `Accept` says, or stops after the last one. |
| Species.TakeBlock | scripts/create_tech_json.py:104-123 | The brace walk ends where the block ends, and the block is kept as `Accept` says. |
| Species.BodyAtEnd | scripts/create_tech_json.py:109-123 | A block has a body exactly when its braces balance, and the body ends just before the brace that closes it. |
| CreateTechJson.BuildTechData | scripts/create_tech_json.py:126-171 | The record holds the id, the localised name, the area, tier, cost, prerequisites and weight the patterns match, and the final species of the potential block. |
| CreateTechJson.KeepCandidate | scripts/create_tech_json.py:119-174 | A kept block gets its record and its id is remembered; other blocks change nothing. |
| CreateTechJson.ParseFile | scripts/create_tech_json.py:94-174 | The cursor loop over one file's comment-free text records every kept block in order. |
| CreateTechJson.ParseTechFiles | scripts/create_tech_json.py:37-174 | Nothing when the directory is missing; otherwise one record per kept block of the selected `.txt` files, in order. |
| CreateTechJson.TechIdsDistinct | scripts/create_tech_json.py:119-124 | No technology id is written twice. |
| CreateTechJson.SpeciesRequiredNotExcluded | scripts/create_tech_json.py:157-158 | A listed species comes from a firing include trigger and no firing exclude trigger names it. |
| CreateTechJson.NumberDefault | scripts/create_tech_json.py:128-131 | Tier and cost are 0 when their keyword does not occur. |
| CreateTechJson.PrerequisitesSpec | scripts/create_tech_json.py:132-136 | No prerequisites without a `prerequisites = { … }` match; otherwise one per word of it, each free of quotes and spaces at its ends. |
| CreateTechJson.TokenClean | scripts/create_tech_json.py:136 | Stripping spaces then quotes from a word leaves no quote or space at its ends. |
| CreateTechJson.WeightSpec | scripts/create_tech_json.py:137-141 | The stored weight is exactly the `@?[\w.]+` value of the first `weight =` line. |
| CreateTechJson.WeightSplit | scripts/create_tech_json.py:140 | Splitting the match at `=` and stripping its second part gives that value. |
| MergeSpecies.StoresSnoc | scripts/merge_required_species.py:119-124 | A new kept block adds its species list to the map exactly when the list is not empty. |
| MergeSpecies.StoreBlock | scripts/merge_required_species.py:104-124 | The block's final species are stored under its id when there are any. |
| MergeSpecies.KeepCandidate | scripts/merge_required_species.py:97-126 | A kept block is stored and its id remembered; other blocks change nothing. |
| MergeSpecies.ScanFile | scripts/merge_required_species.py:72-126 | The cursor loop over one file stores every kept block. |
| MergeSpecies.ExtractRequiredSpeciesFromMod | scripts/merge_required_species.py:42-129 | The map stores the species of every kept block of the `sth…txt` files. |
| MergeSpecies.StoredSpeciesSpec | scripts/merge_required_species.py:119-124 | A stored list is not empty, has no duplicate and holds exactly the species a firing include trigger names and no firing exclude trigger does. |
| MergeSpecies.OtherFilesIgnored | scripts/merge_required_species.py:65-67 | A file whose name lacks `sth` or the `.txt` ending contributes nothing. |
| MergeSpecies.UpdatedCount | scripts/merge_required_species.py:147-152 | The count is at most the number of techs. |
| MergeSpecies.MergeIntoFile | scripts/merge_required_species.py:147-152 | The loop rewrites each tech as `Merged` says, in place, and counts the techs it rewrote. |
| MergeSpecies.UpdatedCountSpec | scripts/merge_required_species.py:147-152 | The count is the number of techs whose id has an entry. |
| MergeSpecies.MergedSpec | scripts/merge_required_species.py:148-151 | Merging changes only the species list, and only of a tech with an entry, to that entry; merging twice is merging once. |
| MergeSpecies.MergedFromScan | scripts/merge_required_species.py:120-151 | A tech no scanned block defines keeps its list; a tech whose block has final species gets exactly those. |
| Localisation.AfterColon | update/parse_localisation.py:44 | The pattern's `:\d?` ends after the colon and at most one digit. |
| Localisation.QuotedTailSpec | update/parse_localisation.py:44 | The captured value has no line break and, with its closing quote, ends the line up to trailing whitespace. |
| Localisation.ParseLine | update/parse_localisation.py:42-47 | One line gives the entry `LineEntry` describes. |
| Localisation.ParseLines | update/parse_localisation.py:41-48 | The line loop stores every entry of the file in order, a later one overriding an earlier one. |
| Localisation.ParseLocalisationFiles | update/parse_localisation.py:12-48 | Nothing when the directory is missing; otherwise the map over every `_l_english.yml` file, each cut into lines as `str.splitlines` cuts it. |
| Text.SplitJoinLines | update/parse_localisation.py:40-41 | Lines without line breaks, each written with `\n` after it, are given back by the line cut the file loop uses. |
| Text.SplitLinesAtBreak | update/parse_localisation.py:40-41 | Any of `str.splitlines`' break characters (`\n`, `\r`, `\v`, `\f`, `\x1c`–`\x1e`, `\x85`, U+2028, U+2029) between two break-free texts ends a line, so a carriage return inside a quoted value cuts the entry in two. |
| Localisation.EntryShape | update/parse_localisation.py:44-47 | A matching line is indentation, a run of key characters, a colon and a quoted tail, and the key is that run. |
| Localisation.EntrySpec | update/parse_localisation.py:44-47 | A matching line's key is a non-empty run of `[\w._-]` followed by a colon at the start of the stripped line, and its value, without line breaks, is quoted at the line's end. |
| Localisation.GuardRedundant | update/parse_localisation.py:43-45 | The guard before the pattern drops no line the pattern would match: a line gives exactly what the pattern finds in its strip. |
| Localisation.EntryRoundTrip | scripts/parse_localisation.py:28-34 | Writing a key, an optional digit and a quoted value as one line and parsing it gives back the key and the value. |
| Localisation.LocalisationMapSpec | update/parse_localisation.py:36-48 | A key is in the map exactly when a line of an English file gives it, with the value of the last such line. |
| Localisation.OtherFilesIgnored | update/parse_localisation.py:37 | A file that is not an English localisation file changes nothing. |
| Localisation.LaterLineWins | scripts/parse_localisation.py:22-34 | A later English file's entry overrides whatever earlier files stored under its key. |
| Potentials.HeaderHits | update/extract_potentials.py:14 | The `potential = {` matches lie inside the text, in order, without overlapping. |
| Potentials.MatchingBrace | update/extract_potentials.py:15-25 | The brace counter returns the index of the `}` that balances the opening brace, or -1 when none does. |
| Potentials.ScanHit | update/extract_potentials.py:15-36 | One match appends its entry, if its block closes. |
| Potentials.ScanFile | update/extract_potentials.py:14-36 | The loop over a file's matches appends their entries in order. |
| Potentials.FindPotentialBlocks | update/extract_potentials.py:5-38 | The entries of every `.txt` file of the listing, in order. |
| Potentials.ConditionsSpec | update/extract_potentials.py:28-30 | A condition is exactly a stripped line of the block that is neither empty nor a comment. |
| Potentials.ConditionStripped | update/extract_potentials.py:30 | Every condition is non-empty, not a comment and already stripped. |
| Potentials.HitEntrySpec | update/extract_potentials.py:15-36 | A match gives an entry exactly when its block closes; the entry's conditions come from the text up to the first balancing `}`, which has as many `{` as `}`. |
| Potentials.HeaderOpens | update/extract_potentials.py:14-15 | A match ends just after its `{`. |
| Potentials.HitEntriesCount | update/extract_potentials.py:14-36 | A file gives at most one entry per match, each naming that file. |
| Potentials.OtherFilesIgnored | update/extract_potentials.py:8 | A file not ending in `.txt` adds nothing. |
| Potentials.EntriesFromTextFiles | update/extract_potentials.py:7-36 | Every entry names a `.txt` file of the listing. |
| PotentialAnalysis.NorContainsOr | update/analyze_potentials.py:31 | Every condition containing `NOR` also contains `OR`, so the `NOR` test never decides the category. |
| PotentialAnalysis.CategoryOfSpec | update/analyze_potentials.py:14-34 | A condition is a logical operator exactly when it names none of the keyword concepts and contains `OR` or `AND`, and `other` exactly when it contains none of them; `is_species_class` always wins. |
| PotentialAnalysis.CountCondition | update/analyze_potentials.py:36 | The condition's count goes up by one. |
| PotentialAnalysis.Categorize | update/analyze_potentials.py:14-38 | The condition joins its category's list unless it is there already. |
| PotentialAnalysis.AddConditions | update/analyze_potentials.py:13-38 | The inner loop counts and categorizes one block's conditions in order. |
| PotentialAnalysis.SortCategories | update/analyze_potentials.py:41-42 | Every category's list is sorted. |
| PotentialAnalysis.AnalyzePotentials | update/analyze_potentials.py:4-50 | The loops compute the report `ReportOf` describes. |
| PotentialAnalysis.CountsKeys | update/analyze_potentials.py:8-36 | The counted conditions are those seen, in order of first occurrence, each once. |
| PotentialAnalysis.CountStepSpec | update/analyze_potentials.py:36 | One more occurrence raises its own count by one, from 0 when new, and moves no other count. |
| PotentialAnalysis.CountsValue | update/analyze_potentials.py:11-36 | Exactly the conditions seen are counted, each by its number of occurrences. |
| PotentialAnalysis.UniqueCount | update/analyze_potentials.py:47 | The unique count is the number of distinct conditions. |
| PotentialAnalysis.CountListSpec | update/analyze_potentials.py:48 | The count list is the counts, highest first. |
| PotentialAnalysis.CategorizeStepSpec | update/analyze_potentials.py:37-38 | One condition extends only its own category's list, and only when it is not there yet. |
| PotentialAnalysis.CategorizedSpec | update/analyze_potentials.py:11-38 | A category has a list exactly when some condition falls in it; the list is its conditions in order of first occurrence, each once. |
| PotentialAnalysis.SortListsSpec | update/analyze_potentials.py:41-42 | Sorting keeps every category and sorts each list. |
| PotentialAnalysis.ReportCategories | update/analyze_potentials.py:9-49 | The report has a list for a category exactly when some condition falls in it. |
| PotentialAnalysis.ReportCategoryList | update/analyze_potentials.py:37-49 | A category's list is sorted, free of duplicates, and holds exactly the conditions that fall in it. |
| UnlockTypes.FirstMalformed | update/generate_unlock_types.py:47-51 | Every value before the returned index can be read, and the value at it raises. |
| UnlockTypes.AddFileTypes | update/generate_unlock_types.py:47-49 | The loop over one file's values adds the types of its values up to the first that raises. |
| UnlockTypes.ExtractUnlockTypes | update/generate_unlock_types.py:30-54 | The loop over the directory collects `TypesOf` the listing. |
| UnlockTypes.SortedList | update/generate_unlock_types.py:79 | The list is sorted, free of duplicates, and holds exactly the set. |
| UnlockTypes.GenerateUnlockTypes | update/generate_unlock_types.py:57-94 | Exit code 1 and nothing written when the directory is missing or no type is found; otherwise exit code 0 and the sorted list of all types written. |
| UnlockTypes.TypesOfSpec | update/generate_unlock_types.py:40-54 | A type is found exactly when some matching readable file contributes it. |
| UnlockTypes.FileTypesSpec | update/generate_unlock_types.py:43-51 | A file contributes a type exactly when a value before its first bad one has it as a key. |
| UnlockTypes.KeysUnionSpec | update/generate_unlock_types.py:47-49 | The union holds exactly the keys of the values. |
| UnlockTypes.SkippedFile | update/generate_unlock_types.py:42-52 | A file that cannot be read or does not match the glob adds nothing. |
| UnlockTypes.TypesOfAppend | update/generate_unlock_types.py:40-54 | The result is a union, so the order of the directory listing does not matter. |
| UnlockTypes.WrittenListUnique | update/generate_unlock_types.py:79-89 | Any two sorted, duplicate-free lists of the types are the same list. |
| Numbers.ParseIntJs | js/filters.js:19 | `parseInt` gives no number exactly when, after leading whitespace and an optional sign, no digit follows. |
| Numbers.ParseShowInt | js/filters.js:19 | Reading back the decimal text of a number gives the number. |

## Left out

- Drawing: d3/SVG/DOM rendering, layouts, zoom, popups, tabs, history, the
  ghost-node drawing of `js/ui/path-highlight.js` and `applyFilterHighlight`.
  `js/ui/category-highlight.js`, `js/state.js`, `js/ui/tiers.js`,
  `showcase.js` and `app.js` are not part of this model.
- Loading: the `fetch` loaders of `js/data.js`; their defaults (missing lists
  read as `[]`) are built into the record type.
- Files and processes: directory listings, file reading, decoding
  (`utf-8-sig`, `errors='ignore'`), JSON reading and writing, `os.makedirs`,
  exit codes other than those `main` returns, and the orchestration scripts
  (`UPDATE_TECHTREE*.py`, `config.py`, `generate_complete_tech_data`,
  `write_json_file`). A listing is a parameter in listing order; a JSON file
  is the value it holds. A file read in text mode (`open`, `read_text`)
  has its `\r\n` and `\r` line ends turned into `\n` by Python's universal
  newlines, and the model's text is the text after that translation. The
  localisation files are read through `codecs`, which translates nothing;
  their lines are cut as `str.splitlines` cuts them (`Text.SplitLines`).
- Printing and logging output. The `UpdateLogger` timestamps, durations,
  `save_to_file`, `print_summary` and `create_logger` are not modelled: the
  session records only the data the methods keep.
- Regular expressions: each pattern is a hand-written scanner for that
  pattern, not a model of Python's `re`. Character classes (`\w`, `\s`,
  `\d`, case mapping, `str.title`, `str.capitalize`) are the ASCII ones.
- Floating point: costs, damage, weights and percentages stay as the text
  the scripts read. Modifier values in the display list are exact `real`s
  (`ModValue.FloatValue`), not binary floats. Of `format_modifier_display`
  (both revisions) only the choice of number style (`StyleOf`: a percentage
  for `_mult`, a signed integer for `_add`, two decimals otherwise) and the
  readable name are modelled; the digits it prints (`:+.0f`, `:+d`,
  `:.2f` rounding) and its `key: value` fallback for a value `float()`
  refuses are not.
- Foreign code: the localisation loader is a map, `BalanceCenterBridge` is
  not part of this model, and `ComponentParser` appears only as its own
  class.
- The order of JavaScript `Set`s and of the `Set` iteration in
  `path-highlight.js`: closures are sets, and lists built from them are
  stated by membership.
- Scripts that only glob, copy or report (`extract_tech_icons.py`,
  `verify_all_icons.py`, `find_missing_icons.py`, `find_vanilla_icons.py`,
  `fix_missing_icons.py`, `analyze_tech_references.py`,
  `create_trigger_map.py`).
- The older revision's `extract_alternate_names` and `humanize_modifier_key`
  are the same code as the later revision's. They are modelled once, in
  `TechJson`.
- ReverseUnlock.Distinct: `list(set(...))` is stated by membership and
  absence of repeats only, because Python's set order is not specified.
- PotentialAnalysis.CountListSpec: states that the list is sorted by count
  and holds the counts, not that equal counts keep their first-seen order.
  The model's `ReportOf` uses a stable sort and so keeps that order.

## Findings

| source | as written | input that shows it | evidently intended | confidence | as-written member | corrected member |
|---|---|---|---|---|---|---|
| update/ship_name_parser.py:187 | The colour-code test looks for `ยง`, the UTF-8 bytes of `§` read as TIS-620, instead of `§`. | The localisation value `§Y` is kept as a ship name. | Values holding a `§` formatting code are skipped as descriptions. | not executed | Ships.SectionSignFinding | Ships.ShipLocalisationSpec |
| update/prescripted_parser.py:241 | `'2300' in empire.get('name_key', '')` raises a TypeError when the name key is None, which `extract_empire_data` stores for a block without a name. | A country block without a `name = "..."` field, whose key neither ends in `_B` nor contains `2300s`. | A missing name key counts as the empty string, and the empire is kept or dropped by the other tests. | not executed | Prescripted.NameKeyFinding | Prescripted.EntryOfSpec |
