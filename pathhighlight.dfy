/** The state and the set computations of js/ui/path-highlight.js: the ids on
    all prerequisite paths between a hovered and an active record, the whole
    prerequisite or dependent closure of a hovered record, the links among
    those ids, and the records among them that are not on screen ("ghosts"). */
module PathHighlight {
  import opened Wrappers
  import opened Seqs
  import opened Techs
  import opened Graph
  import opened Data

  /** `{ nodes, links, missingNodes }`. The links and ghosts are built by
      iterating a `Set`; their order is not modelled. */
  datatype Highlight = Highlight(nodes: set<string>, links: set<Link>, missingNodes: set<Tech>)

  const Empty: Highlight := Highlight({}, {}, {})

  /** A prerequisite edge inside `ids`, read from the record the map holds for
      its target. */
  ghost predicate LinkAmong(tm: map<string, Tech>, ids: set<string>, l: Link)
  {
    l.target in ids && l.target in tm && l.source in tm[l.target].prerequisites && l.source in ids
  }

  /** A record of the map whose id is in `ids` but not rendered. */
  ghost predicate Ghost(tm: map<string, Tech>, ids: set<string>, rendered: set<string>, t: Tech)
  {
    t.id in ids && t.id !in rendered && t.id in tm && tm[t.id] == t
  }

  /** The links loop: for each id of the set, one link from each of its
      prerequisites that is also in the set. */
  method LinksAmong(tm: map<string, Tech>, ids: set<string>) returns (links: set<Link>)
    ensures forall l :: l in links <==> LinkAmong(tm, ids, l)
  {
    links := {};
    var rest := ids;
    while rest != {}
      invariant rest <= ids
      invariant forall l :: l in links <==> LinkAmong(tm, ids, l) && l.target !in rest
      decreases |rest|
    {
      var id :| id in rest;
      if id in tm {
        var prereqs := tm[id].prerequisites;
        for j := 0 to |prereqs|
          invariant forall l :: l in links <==>
            (LinkAmong(tm, ids, l) && l.target !in rest) ||
            (l.target == id && l.source in prereqs[..j] && l.source in ids)
        {
          assert prereqs[..j + 1] == prereqs[..j] + [prereqs[j]];
          if prereqs[j] in ids {
            links := links + {Link(prereqs[j], id)};
          }
        }
        assert prereqs[..|prereqs|] == prereqs;
      }
      rest := rest - {id};
    }
  }

  /** The ghost loop: each id of the set that is not rendered and names a
      record of the map contributes that record. */
  method MissingAmong(tm: map<string, Tech>, ids: set<string>, rendered: set<string>) returns (missing: set<Tech>)
    requires forall id :: id in tm ==> tm[id].id == id
    ensures forall t :: t in missing <==> Ghost(tm, ids, rendered, t)
  {
    missing := {};
    var rest := ids;
    while rest != {}
      invariant rest <= ids
      invariant forall t :: t in missing <==> Ghost(tm, ids, rendered, t) && t.id !in rest
      decreases |rest|
    {
      var id :| id in rest;
      if id !in rendered && id in tm {
        missing := missing + {tm[id]};
      }
      rest := rest - {id};
    }
  }

  /** `new Set(nodes.map(n => n.id))`. */
  function RenderedIds(nodes: seq<Tech>): (r: set<string>)
    ensures forall id :: id in r <==> exists n :: n in nodes && n.id == id
  {
    set n | n in nodes :: n.id
  }

  /** The start and end `calculatePath` picks: the id that the other one
      requires, directly or not, is the start. */
  ghost function Orient(techs: seq<Tech>, hoveredId: string, activeId: string): Option<(string, string)>
  {
    if activeId in Ancestors(techs, hoveredId) then Some((activeId, hoveredId))
    else if hoveredId in Ancestors(techs, activeId) then Some((hoveredId, activeId))
    else None
  }

  /** The ids `calculatePath` highlights: the ids that are both required by
      the end and dependent on the start, and the two ends. */
  ghost function PathNodes(techs: seq<Tech>, hoveredId: string, activeId: string): set<string>
  {
    if hoveredId == "" || activeId == "" || hoveredId == activeId then {}
    else if hoveredId !in Ids(techs) || activeId !in Ids(techs) then {}
    else match Orient(techs, hoveredId, activeId)
      case None => {}
      case Some((s, e)) => (Ancestors(techs, e) * Descendants(techs, s)) + {s, e}
  }

  /** The ids `calculateHighlight` highlights. */
  ghost function HighlightNodes(techs: seq<Tech>, direction: string, hoveredId: string): set<string>
  {
    if hoveredId == "" || hoveredId !in Ids(techs) then {}
    else if direction == "prerequisites" then Ancestors(techs, hoveredId)
    else Descendants(techs, hoveredId)
  }

  /** On an id pair where at most one requires the other, swapping the hovered
      and the active id gives the same path. */
  lemma PathSymmetric(techs: seq<Tech>, a: string, b: string)
    requires !(a in Ancestors(techs, b) && b in Ancestors(techs, a))
    ensures PathNodes(techs, a, b) == PathNodes(techs, b, a)
  {
  }

  /** The two ends are always on a non-empty path, and every other id on it
      lies between them. */
  lemma PathNodesBetween(techs: seq<Tech>, hoveredId: string, activeId: string, x: string)
    requires x in PathNodes(techs, hoveredId, activeId)
    ensures hoveredId in PathNodes(techs, hoveredId, activeId) && activeId in PathNodes(techs, hoveredId, activeId)
    ensures x == hoveredId || x == activeId ||
      (x in Ancestors(techs, hoveredId) && x in Descendants(techs, activeId)) ||
      (x in Ancestors(techs, activeId) && x in Descendants(techs, hoveredId))
  {
  }

  /** The module state: the full list, the rendered nodes, the active id ("" for
      none) and the highlight direction. */
  class PathHighlighter {
    var allTechs: seq<Tech>
    var renderedNodes: seq<Tech>
    var activeTechId: string
    var highlightDirection: string

    /** The initial module state. */
    constructor ()
      ensures allTechs == [] && renderedNodes == [] && activeTechId == ""
      ensures highlightDirection == "prerequisites"
    {
      allTechs := [];
      renderedNodes := [];
      activeTechId := "";
      highlightDirection := "prerequisites";
    }

    /** `setHighlightDirection`. */
    method SetHighlightDirection(direction: string)
      modifies this
      ensures highlightDirection == direction
      ensures allTechs == old(allTechs) && renderedNodes == old(renderedNodes) && activeTechId == old(activeTechId)
    {
      highlightDirection := direction;
    }

    /** `initPathHighlight`; a missing list is []. */
    method InitPathHighlight(techs: seq<Tech>)
      modifies this
      ensures allTechs == techs
      ensures renderedNodes == old(renderedNodes) && activeTechId == old(activeTechId)
      ensures highlightDirection == old(highlightDirection)
    {
      allTechs := techs;
    }

    /** `setRenderedNodes`; a missing list is []. */
    method SetRenderedNodes(nodes: seq<Tech>)
      modifies this
      ensures renderedNodes == nodes
      ensures allTechs == old(allTechs) && activeTechId == old(activeTechId)
      ensures highlightDirection == old(highlightDirection)
    {
      renderedNodes := nodes;
    }

    /** `setActiveTechId`; null is "". */
    method SetActiveTechId(techId: string)
      modifies this
      ensures activeTechId == techId
      ensures allTechs == old(allTechs) && renderedNodes == old(renderedNodes)
      ensures highlightDirection == old(highlightDirection)
    {
      activeTechId := techId;
    }

    /** The links and ghosts that go with a set of highlighted ids. */
    method Complete(tm: map<string, Tech>, ids: set<string>) returns (h: Highlight)
      requires tm == TechMap(allTechs)
      ensures h.nodes == ids
      ensures forall l :: l in h.links <==> LinkAmong(tm, ids, l)
      ensures forall t :: t in h.missingNodes <==> Ghost(tm, ids, RenderedIds(renderedNodes), t)
    {
      var links := LinksAmong(tm, ids);
      var missing := MissingAmong(tm, ids, RenderedIds(renderedNodes));
      h := Highlight(ids, links, missing);
    }

    /** `calculatePath`. */
    method CalculatePath(hoveredId: string, activeId: string) returns (h: Highlight)
      ensures h.nodes == PathNodes(allTechs, hoveredId, activeId)
      ensures forall l :: l in h.links <==> LinkAmong(TechMap(allTechs), h.nodes, l)
      ensures forall t :: t in h.missingNodes <==> Ghost(TechMap(allTechs), h.nodes, RenderedIds(renderedNodes), t)
    {
      if hoveredId == "" || activeId == "" || hoveredId == activeId {
        return Empty;
      }
      var techMap := IndexTechs(allTechs);
      if hoveredId !in techMap || activeId !in techMap {
        return Empty;
      }
      var hoveredPrereqs := GetPrerequisites(hoveredId, allTechs);
      var activePrereqs := GetPrerequisites(activeId, allTechs);
      var startId, endId;
      if activeId in hoveredPrereqs {
        startId, endId := activeId, hoveredId;
      } else if hoveredId in activePrereqs {
        startId, endId := hoveredId, activeId;
      } else {
        return Empty;
      }
      var endPrereqs := GetPrerequisites(endId, allTechs);
      var startDescendants := GetDescendants(startId, allTechs);
      var pathNodes := set id | id in endPrereqs && id in startDescendants;
      pathNodes := pathNodes + {startId} + {endId};
      assert pathNodes == PathNodes(allTechs, hoveredId, activeId);
      h := Complete(techMap, pathNodes);
    }

    /** `calculateHighlight`. */
    method CalculateHighlight(hoveredId: string) returns (h: Highlight)
      ensures h.nodes == HighlightNodes(allTechs, highlightDirection, hoveredId)
      ensures forall l :: l in h.links <==> LinkAmong(TechMap(allTechs), h.nodes, l)
      ensures forall t :: t in h.missingNodes <==> Ghost(TechMap(allTechs), h.nodes, RenderedIds(renderedNodes), t)
    {
      if hoveredId == "" {
        return Empty;
      }
      var techMap := IndexTechs(allTechs);
      if hoveredId !in techMap {
        return Empty;
      }
      var nodes;
      if highlightDirection == "prerequisites" {
        nodes := GetPrerequisites(hoveredId, allTechs);
      } else {
        nodes := GetDescendants(hoveredId, allTechs);
      }
      h := Complete(techMap, nodes);
    }
  }
}
