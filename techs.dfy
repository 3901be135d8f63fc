/** The technology record written by the data pipeline to the JSON files under assets and
    read by the browser, with the id-keyed lookups the browser builds over a
    list of them (js/data.js). */
module Techs {
  import opened Wrappers
  import opened Seqs
  import Text

  /** One faction's entry in `faction_availability`. */
  datatype Availability = Availability(available: bool, condition: string)

  /** The `tier` field as it may appear in the JSON: a number, a string or absent. */
  datatype TierField = TierNumber(n: int) | TierText(text: string) | TierAbsent

  /** A technology record. Absent string fields are "", absent lists are []. */
  datatype Tech = Tech(
    id: string,
    name: string,
    area: string,
    tier: TierField,
    prerequisites: seq<string>,
    requiredSpecies: seq<string>,
    factionAvailability: Assoc<Availability>,
    alternateNames: Assoc<string>,
    category: seq<string>,
    unlocksByType: Assoc<seq<string>>)

  /** A graph edge from a prerequisite to the technology that requires it. */
  datatype Link = Link(source: string, target: string)

  function Ids(techs: seq<Tech>): set<string>
  {
    set t | t in techs :: t.id
  }

  /** Every id mentioned by the list: its own ids and every prerequisite. */
  function Nodes(techs: seq<Tech>): set<string>
  {
    Ids(techs) + set t, p | t in techs && p in t.prerequisites :: p
  }

  /** `new Map(techs.map(t => [t.id, t]))`: a later record with the same id
      replaces an earlier one. */
  function TechMap(techs: seq<Tech>): (m: map<string, Tech>)
    ensures m.Keys == Ids(techs)
    ensures forall id :: id in m ==> m[id] in techs && m[id].id == id
  {
    if |techs| == 0 then map[]
    else
      var init := techs[..|techs| - 1];
      var last := techs[|techs| - 1];
      assert techs == init + [last];
      TechMap(init)[last.id := last]
  }

  /** The record a map lookup finds is the last one with that id. */
  lemma {:induction false} TechMapLastWins(techs: seq<Tech>, i: nat)
    requires i < |techs|
    requires forall j :: i < j < |techs| ==> techs[j].id != techs[i].id
    ensures TechMap(techs)[techs[i].id] == techs[i]
  {
    if i < |techs| - 1 {
      TechMapLastWins(techs[..|techs| - 1], i);
    }
  }

  /** `indexTechs`: fills a map from id to record, one record at a time. */
  method IndexTechs(techs: seq<Tech>) returns (m: map<string, Tech>)
    ensures m == TechMap(techs)
  {
    m := map[];
    for i := 0 to |techs|
      invariant m == TechMap(techs[..i])
    {
      assert techs[..i + 1][..i] == techs[..i];
      m := m[techs[i].id := techs[i]];
    }
    assert techs[..|techs|] == techs;
  }

  /** `techs.find(t => t.id === id)`: the first record with that id. */
  function FindById(techs: seq<Tech>, id: string): (r: Option<Tech>)
    ensures r.None? <==> id !in Ids(techs)
    ensures r.Some? ==> r.value.id == id && exists i :: 0 <= i < |techs| && techs[i] == r.value && forall j :: 0 <= j < i ==> techs[j].id != id
  {
    if |techs| == 0 then None
    else if techs[0].id == id then Some(techs[0])
    else
      var r := FindById(techs[1..], id);
      assert Ids(techs) == {techs[0].id} + Ids(techs[1..]) by {
        assert forall t :: t in techs <==> t == techs[0] || t in techs[1..];
      }
      if r.Some? then
        var i :| 0 <= i < |techs[1..]| && techs[1..][i] == r.value && forall j :: 0 <= j < i ==> techs[1..][j].id != id;
        assert techs[i + 1] == r.value;
        assert forall j :: 0 <= j < i + 1 ==> techs[j].id != id by {
          forall j | 0 <= j < i + 1 ensures techs[j].id != id {
            if j > 0 { assert techs[j] == techs[1..][j - 1]; }
          }
        }
        r
      else r
  }

  /** The records kept by `techs.filter(t => ids.has(t.id))`. */
  function WithIds(techs: seq<Tech>, ids: set<string>): (r: seq<Tech>)
    ensures forall t :: t in r <==> t in techs && t.id in ids
    ensures IsSubseq(r, techs)
  {
    FilterIsSubseq(techs, (t: Tech) => t.id in ids);
    Filter(techs, (t: Tech) => t.id in ids)
  }

  /** No two records of the list share an id. */
  predicate UniqueIds(techs: seq<Tech>)
  {
    forall i, j :: 0 <= i < j < |techs| ==> techs[i].id != techs[j].id
  }

  /** The links the browser draws among `nodes`: for each node, in order, one
      link from each of its prerequisites whose id is in `ids`. */
  function InducedLinks(nodes: seq<Tech>, ids: set<string>): seq<Link>
  {
    if |nodes| == 0 then []
    else LinksInto(nodes[0].prerequisites, nodes[0].id, ids) + InducedLinks(nodes[1..], ids)
  }

  /** The links into `target` from those of `prereqs` that are in `ids`. */
  function LinksInto(prereqs: seq<string>, target: string, ids: set<string>): seq<Link>
  {
    if |prereqs| == 0 then []
    else (if prereqs[0] in ids then [Link(prereqs[0], target)] else []) + LinksInto(prereqs[1..], target, ids)
  }

  lemma {:induction false} LinksIntoMembership(prereqs: seq<string>, target: string, ids: set<string>, l: Link)
    ensures l in LinksInto(prereqs, target, ids) <==> l.target == target && l.source in prereqs && l.source in ids
  {
    if |prereqs| > 0 {
      LinksIntoMembership(prereqs[1..], target, ids, l);
      assert l.source in prereqs <==> l.source == prereqs[0] || l.source in prereqs[1..];
    }
  }

  /** A link is drawn exactly when some node has a prerequisite in `ids`
      with that source, and the node is the target. */
  lemma {:induction false} InducedLinksMembership(nodes: seq<Tech>, ids: set<string>, l: Link)
    ensures l in InducedLinks(nodes, ids) <==>
      exists t :: t in nodes && l.target == t.id && l.source in t.prerequisites && l.source in ids
  {
    if |nodes| > 0 {
      InducedLinksMembership(nodes[1..], ids, l);
      LinksIntoMembership(nodes[0].prerequisites, nodes[0].id, ids, l);
      assert forall t :: t in nodes <==> t == nodes[0] || t in nodes[1..];
    }
  }

  /** Both ends of every induced link are ids of the set, and its target is a node. */
  lemma InducedLinksEnds(nodes: seq<Tech>, ids: set<string>, l: Link)
    requires l in InducedLinks(nodes, ids)
    ensures l.source in ids && l.target in Ids(nodes)
  {
    InducedLinksMembership(nodes, ids, l);
  }

  /** The inner loop: one link into `target` per prerequisite in `ids`. */
  method CollectLinksInto(prereqs: seq<string>, target: string, ids: set<string>) returns (links: seq<Link>)
    ensures links == LinksInto(prereqs, target, ids)
  {
    links := [];
    var j := |prereqs|;
    while j > 0
      invariant 0 <= j <= |prereqs|
      invariant links == LinksInto(prereqs[j..], target, ids)
    {
      j := j - 1;
      assert prereqs[j..][1..] == prereqs[j + 1..];
      if prereqs[j] in ids {
        links := [Link(prereqs[j], target)] + links;
      }
    }
  }

  /** The nested loops that build links: for each node in order, one link
      from each of its prerequisites in `ids`. */
  method CollectLinks(nodes: seq<Tech>, ids: set<string>) returns (links: seq<Link>)
    ensures links == InducedLinks(nodes, ids)
  {
    links := [];
    var i := 0;
    while i < |nodes|
      invariant 0 <= i <= |nodes|
      invariant links + InducedLinks(nodes[i..], ids) == InducedLinks(nodes, ids)
    {
      assert nodes[i..][1..] == nodes[i + 1..];
      var into := CollectLinksInto(nodes[i].prerequisites, nodes[i].id, ids);
      links := links + into;
      i := i + 1;
    }
  }

  /** `buildLinksFromPrereqs`: one link per prerequisite that names a record of
      the list, for each record in order. */
  method BuildLinksFromPrereqs(techs: seq<Tech>) returns (links: seq<Link>)
    ensures links == InducedLinks(techs, Ids(techs))
  {
    links := CollectLinks(techs, Ids(techs));
  }
}
