/** The search of js/search.js: which records a search term matches, and
    what `runSearch` does with the matches. */
module Search {
  import opened Wrappers
  import opened Seqs
  import opened Text
  import opened Techs

  /** The query `findMatchingTechs` looks for: the trimmed, lower-cased term. */
  function Query(term: string): string
  {
    Lower(Strip(term))
  }

  /** A record matches a non-empty query when its name or its id, lower-cased,
      contains it; an empty name or id never matches. */
  predicate NameOrIdMatches(q: string, t: Tech)
  {
    (t.name != "" && Contains(Lower(t.name), q)) || (t.id != "" && Contains(Lower(t.id), q))
  }

  function MatchesQuery(q: string): Tech -> bool
  {
    (t: Tech) => NameOrIdMatches(q, t)
  }

  /** `findMatchingTechs`; a missing list is []. */
  function FindMatchingTechs(techs: seq<Tech>, term: string): (r: seq<Tech>)
    ensures Strip(term) == "" ==> r == []
    ensures Strip(term) != "" ==> forall t :: t in r <==> t in techs && NameOrIdMatches(Query(term), t)
    ensures IsSubseq(r, techs)
  {
    var q := Query(term);
    if q == "" then
      []
    else
      FilterIsSubseq(techs, MatchesQuery(q));
      Filter(techs, MatchesQuery(q))
  }

  /** Narrowing the query narrows the results: a query that contains another
      matches a subsequence of what the shorter one matches. */
  lemma NarrowerQuery(techs: seq<Tech>, term: string, longer: string)
    requires Strip(term) != ""
    requires Contains(Query(longer), Query(term))
    ensures IsSubseq(FindMatchingTechs(techs, longer), FindMatchingTechs(techs, term))
  {
    var q, q' := Query(term), Query(longer);
    assert |q| > 0;
    assert q' != "";
    forall t | NameOrIdMatches(q', t)
      ensures NameOrIdMatches(q, t)
    {
      if t.name != "" && Contains(Lower(t.name), q') {
        ContainsTransitive(Lower(t.name), q', q);
      } else {
        ContainsTransitive(Lower(t.id), q', q);
      }
    }
    FilterStronger(techs, MatchesQuery(q'), MatchesQuery(q));
  }

  /** What `runSearch` ends in. Only a grid returns data; the other outcomes
      return null after their side effect. */
  datatype Outcome =
    | Blank                                   // empty term: nothing happens
    | Activate(id: string)                    // one match already on screen
    | LoadBranch(id: string)                  // one match not on screen
    | NoResults                               // the "No results" alert
    | Grid(nodes: seq<Tech>, links: seq<Link>)

  /** `runSearch`, without the drawing: the scope is the whole list or the
      nodes on screen; the grid links join matched records only. */
  method RunSearch(searchTerm: string, searchAll: bool, allTechs: seq<Tech>, currentNodes: seq<Tech>)
    returns (o: Outcome)
    ensures var matched := FindMatchingTechs(if searchAll then allTechs else currentNodes, searchTerm);
      && (Strip(searchTerm) == "" ==> o == Blank)
      && (Strip(searchTerm) != "" && |matched| == 1 && matched[0].id in Ids(currentNodes) ==> o == Activate(matched[0].id))
      && (Strip(searchTerm) != "" && |matched| == 1 && matched[0].id !in Ids(currentNodes) ==> o == LoadBranch(matched[0].id))
      && (Strip(searchTerm) != "" && |matched| == 0 ==> o == NoResults)
      && (|matched| >= 2 ==> o == Grid(matched, InducedLinks(matched, Ids(matched))))
  {
    var term := Strip(searchTerm);
    if term == "" {
      return Blank;
    }
    var scope := if searchAll then allTechs else currentNodes;
    var matched := FindMatchingTechs(scope, term);
    assert matched == FindMatchingTechs(scope, searchTerm) by {
      StripIdempotent(searchTerm);
    }
    if |matched| == 1 {
      var single := matched[0];
      if single.id in Ids(currentNodes) {
        return Activate(single.id);
      }
      return LoadBranch(single.id);
    }
    if |matched| == 0 {
      return NoResults;
    }
    var links := CollectLinks(matched, Ids(matched));
    o := Grid(matched, links);
  }

  /** Every grid link joins two matched records, and the grid holds only
      records of the scope. */
  lemma GridWithinScope(searchTerm: string, searchAll: bool, allTechs: seq<Tech>, currentNodes: seq<Tech>, l: Link)
    requires var matched := FindMatchingTechs(if searchAll then allTechs else currentNodes, searchTerm);
      l in InducedLinks(matched, Ids(matched))
    ensures var matched := FindMatchingTechs(if searchAll then allTechs else currentNodes, searchTerm);
      l.source in Ids(matched) && l.target in Ids(matched)
  {
    var matched := FindMatchingTechs(if searchAll then allTechs else currentNodes, searchTerm);
    InducedLinksEnds(matched, Ids(matched), l);
  }
}
