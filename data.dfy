/** The graph queries and faction helpers of js/data.js: prerequisite and
    dependent closures, the connected set, all paths between two ids, and the
    faction-aware filter, name and exclusivity rules. */
module Data {
  import opened Wrappers
  import opened Seqs
  import opened Text
  import opened Techs
  import opened Graph

  // ---------------------------------------------------------------------
  // Closures

  /** The id with everything it requires, directly or not, following the
      records a `new Map` over the list finds. */
  ghost function Ancestors(techs: seq<Tech>, a: string): set<string>
  {
    {a} + Reach(techs, PrereqsByMap, a, {})
  }

  /** The id with every id that requires it, directly or not. */
  ghost function Descendants(techs: seq<Tech>, a: string): set<string>
  {
    {a} + Reach(techs, Dependents, a, {})
  }

  /** `getPrerequisites`: the start and every id reachable from it through
      `techMap.get(id).prerequisites`. */
  method GetPrerequisites(startId: string, techs: seq<Tech>) returns (r: set<string>)
    ensures r == Ancestors(techs, startId)
  {
    NextClosedInNodes(techs, PrereqsByMap);
    r := Explore(Next(techs, PrereqsByMap), Nodes(techs), startId, {}, true);
  }

  /** The descendant closure, as `findDescendants` in `calculateAllPaths`
      computes it. */
  method GetDescendants(startId: string, techs: seq<Tech>) returns (r: set<string>)
    ensures r == Descendants(techs, startId)
  {
    NextClosedInNodes(techs, Dependents);
    r := Explore(Next(techs, Dependents), Nodes(techs), startId, {}, true);
  }

  /** The prerequisites of every member of a closure are members, when the
      member is the id of a record. */
  lemma AncestorsClosed(techs: seq<Tech>, a: string, x: string, y: string)
    requires x in Ancestors(techs, a) && x in TechMap(techs)
    requires y in TechMap(techs)[x].prerequisites
    ensures y in Ancestors(techs, a)
  {
    NextClosedInNodes(techs, PrereqsByMap);
    assert y in Next(techs, PrereqsByMap)(x);
    StepsClosed(Next(techs, PrereqsByMap), Nodes(techs), a, x, y);
  }

  /** The closure is the least set that holds the start and is closed under
      prerequisites. */
  lemma AncestorsLeast(techs: seq<Tech>, a: string, s: set<string>)
    requires a in s
    requires forall x, y :: x in s && x in TechMap(techs) && y in TechMap(techs)[x].prerequisites ==> y in s
    ensures Ancestors(techs, a) <= s
  {
    var next := Next(techs, PrereqsByMap);
    forall x | x in s ensures forall y :: y in next(x) ==> y in s {
      forall y | y in next(x) ensures y in s {
        assert x in TechMap(techs);
      }
    }
    StepsWithin(next, Nodes(techs), a, {}, s, s);
  }

  /** An id that names no record has no prerequisites to follow. */
  lemma AncestorsOfUnknown(techs: seq<Tech>, a: string)
    requires a !in Ids(techs)
    ensures Ancestors(techs, a) == {a}
  {
    StepsFromSink(Next(techs, PrereqsByMap), Nodes(techs), a, {});
  }

  /** Every dependent of a member of the descendant closure is a member. */
  lemma DescendantsClosed(techs: seq<Tech>, a: string, x: string, t: Tech)
    requires x in Descendants(techs, a)
    requires t in techs && x in t.prerequisites
    ensures t.id in Descendants(techs, a)
  {
    NextClosedInNodes(techs, Dependents);
    DependentIdsMembership(techs, x, t.id);
    assert t.id in Next(techs, Dependents)(x);
    StepsClosed(Next(techs, Dependents), Nodes(techs), a, x, t.id);
  }

  // ---------------------------------------------------------------------
  // The connected set

  /** What `getConnectedTechIds` returns: the start, its ancestors through
      `list.find`, and the descendants that the second search reaches without
      passing through an id the first one already added. */
  ghost function Connected(techs: seq<Tech>, a: string): set<string>
  {
    var anc := {a} + Reach(techs, PrereqsByFind, a, {});
    anc + Reach(techs, Dependents, a, anc)
  }

  /** `getConnectedTechIds`: an ancestor search seeded with the start, then a
      descendant search over the same growing set. */
  method GetConnectedTechIds(startId: string, techs: seq<Tech>) returns (r: set<string>)
    ensures r == Connected(techs, startId)
    ensures startId in r && r <= {startId} + Nodes(techs)
  {
    NextClosedInNodes(techs, PrereqsByFind);
    NextClosedInNodes(techs, Dependents);
    var anc := Explore(Next(techs, PrereqsByFind), Nodes(techs), startId, {}, true);
    assert anc == {startId} + Reach(techs, PrereqsByFind, startId, {});
    r := Explore(Next(techs, Dependents), Nodes(techs), startId, anc, true);
    assert anc + {startId} == anc;
  }

  /** With the start absent and required by nothing, the set is the start alone. */
  lemma ConnectedIsolated(techs: seq<Tech>, a: string)
    requires a !in Ids(techs)
    requires forall t :: t in techs ==> a !in t.prerequisites
    ensures Connected(techs, a) == {a}
  {
    StepsFromSink(Next(techs, PrereqsByFind), Nodes(techs), a, {});
    assert Next(techs, Dependents)(a) == [] by {
      var ds := DependentIds(techs, a);
      if |ds| > 0 {
        DependentIdsMembership(techs, a, ds[0]);
      }
    }
    assert {a} + Reach(techs, PrereqsByFind, a, {}) == {a};
    StepsFromSink(Next(techs, Dependents), Nodes(techs), a, {a});
  }

  /** A record with the given id and prerequisites, every other field empty. */
  function Bare(id: string, prerequisites: seq<string>): (t: Tech)
    ensures t.id == id && t.prerequisites == prerequisites
  {
    Tech(id, "", "", TierAbsent, prerequisites, [], [], [], [], [])
  }

  /** Three technologies in a cycle: A requires C, B requires A, C requires B. */
  function Cycle3(): seq<Tech>
  {
    [Bare("A", ["C"]), Bare("B", ["A"]), Bare("C", ["B"])]
  }

  lemma Cycle3Nodes()
    ensures Nodes(Cycle3()) == {"A", "B", "C"}
  {
    var techs := Cycle3();
    assert techs[0] in techs && techs[1] in techs && techs[2] in techs;
  }

  lemma Cycle3Next()
    ensures Next(Cycle3(), PrereqsByFind)("A") == ["C"]
    ensures Next(Cycle3(), PrereqsByFind)("C") == ["B"]
  {
  }

  /** The ancestor search on the cycle reaches all three ids. */
  lemma Cycle3Ancestors()
    ensures {"A"} + Reach(Cycle3(), PrereqsByFind, "A", {}) == {"A", "B", "C"}
  {
    var techs := Cycle3();
    var reached := Reach(techs, PrereqsByFind, "A", {});
    Cycle3Nodes();
    assert reached <= {"A", "B", "C"};
    Cycle3Path(["A", "C"]);
    Cycle3Path(["A", "C", "B"]);
  }

  /** A path of the ancestor search on the cycle ends at a reached id. */
  lemma Cycle3Path(p: seq<string>)
    requires p == ["A", "C"] || p == ["A", "C", "B"]
    ensures p[|p| - 1] in Reach(Cycle3(), PrereqsByFind, "A", {})
  {
    var techs := Cycle3();
    var next := Next(techs, PrereqsByFind);
    Cycle3Nodes();
    Cycle3Next();
    NextClosedInNodes(techs, PrereqsByFind);
    Extend(next, "A", {}, ["A"], "C");
    if |p| == 3 {
      Extend(next, "A", {}, ["A", "C"], "B");
    }
    WitnessInSteps(next, Nodes(techs), "A", p[|p| - 1], {}, p);
  }

  /** On the cycle the searches stop, and the set is the three ids. */
  lemma ConnectedCycle3()
    ensures Connected(Cycle3(), "A") == {"A", "B", "C"}
  {
    var techs := Cycle3();
    Cycle3Nodes();
    Cycle3Ancestors();
    assert Reach(techs, Dependents, "A", {"A", "B", "C"}) <= Nodes(techs);
  }

  /** The second search does not pass through ancestors, so on cyclic data a
      descendant reached only through an ancestor is missing: here S and P
      require each other and Q requires P. */
  function Cyclic(): seq<Tech>
  {
    [Bare("S", ["P"]), Bare("P", ["S"]), Bare("Q", ["P"])]
  }

  lemma CyclicDependents()
    ensures Next(Cyclic(), Dependents)("S") == ["P"]
    ensures Next(Cyclic(), Dependents)("P") == ["S", "Q"]
  {
  }

  lemma CyclicDescendant()
    ensures "Q" in Descendants(Cyclic(), "S")
  {
    var techs := Cyclic();
    var deps := Next(techs, Dependents);
    NextClosedInNodes(techs, Dependents);
    CyclicDependents();
    Extend(deps, "S", {}, ["S"], "P");
    Extend(deps, "S", {}, ["S", "P"], "Q");
    WitnessInSteps(deps, Nodes(techs), "S", "Q", {}, ["S", "P", "Q"]);
  }

  lemma CyclicPrereqs()
    ensures Nodes(Cyclic()) == {"S", "P", "Q"}
    ensures Next(Cyclic(), PrereqsByFind)("S") == ["P"]
    ensures Next(Cyclic(), PrereqsByFind)("P") == ["S"]
  {
    var techs := Cyclic();
    assert techs[0] in techs && techs[1] in techs && techs[2] in techs;
  }

  lemma CyclicAncestors()
    ensures {"S"} + Reach(Cyclic(), PrereqsByFind, "S", {}) == {"S", "P"}
  {
    var techs := Cyclic();
    var byFind := Next(techs, PrereqsByFind);
    NextClosedInNodes(techs, PrereqsByFind);
    CyclicPrereqs();
    Extend(byFind, "S", {}, ["S"], "P");
    WitnessInSteps(byFind, Nodes(techs), "S", "P", {}, ["S", "P"]);
    StepsWithin(byFind, Nodes(techs), "S", {}, {"S", "P"}, {"S", "P"});
  }

  lemma ConnectedMissesDescendantBehindAncestor()
    ensures "Q" in Descendants(Cyclic(), "S")
    ensures "Q" !in Connected(Cyclic(), "S")
  {
    var techs := Cyclic();
    CyclicDescendant();
    CyclicAncestors();
    assert Next(techs, Dependents)("S") == ["P"];
    StepsFromSinkAvoiding(Next(techs, Dependents), Nodes(techs), "S", {"S", "P"});
  }

  // ---------------------------------------------------------------------
  // All paths

  /** Nodes and links handed to the renderer. */
  datatype Subgraph = Subgraph(nodes: seq<Tech>, links: seq<Link>)

  /** The records of `techs` whose id is in `ids`, in list order, with the
      prerequisite links among them. */
  function Induced(techs: seq<Tech>, ids: set<string>): (g: Subgraph)
    ensures IsSubseq(g.nodes, techs)
    ensures forall t :: t in g.nodes <==> t in techs && t.id in ids
  {
    var nodes := WithIds(techs, ids);
    Subgraph(nodes, InducedLinks(nodes, ids))
  }

  /** A link of the induced graph joins two ids of the set along a
      prerequisite of a record of the list, and every such edge is a link. */
  lemma InducedLinksExact(techs: seq<Tech>, ids: set<string>, l: Link)
    ensures l in Induced(techs, ids).links <==>
      l.source in ids && l.target in ids &&
      exists t :: t in techs && t.id == l.target && l.source in t.prerequisites
  {
    InducedLinksMembership(WithIds(techs, ids), ids, l);
  }

  /** The ids kept by `calculateAllPaths`. */
  ghost function PathIds(techs: seq<Tech>, s: string, e: string): set<string>
  {
    (Ancestors(techs, e) * Descendants(techs, s)) + {s, e}
  }

  /** `calculateAllPaths`: the ancestors of the end, the descendants of the
      start, their intersection with both ends added, and the induced graph. */
  method CalculateAllPaths(startId: string, endId: string, techs: seq<Tech>) returns (g: Subgraph)
    ensures g == Induced(techs, PathIds(techs, startId, endId))
  {
    var endPrereqs := GetPrerequisites(endId, techs);
    var startDescendants := GetDescendants(startId, techs);
    var ids := (set id | id in endPrereqs && id in startDescendants) + {startId, endId};
    assert ids == PathIds(techs, startId, endId);
    var nodes := WithIds(techs, ids);
    var links := CollectLinks(nodes, ids);
    g := Subgraph(nodes, links);
  }

  /** With distinct ids, the dependent edge is the prerequisite edge turned
      around. */
  lemma EdgeInverse(techs: seq<Tech>, x: string, y: string)
    requires UniqueIds(techs)
    ensures y in Succ(techs, Dependents, x) <==> x in Succ(techs, PrereqsByMap, y)
  {
    DependentIdsMembership(techs, x, y);
    var m := TechMap(techs);
    if t :| t in techs && t.id == y && x in t.prerequisites {
      var i :| 0 <= i < |techs| && techs[i] == t;
      var j :| 0 <= j < |techs| && techs[j] == m[y];
      assert i == j;
    }
    if y in m && x in m[y].prerequisites {
      assert m[y] in techs;
    }
  }

  /** A route along dependents, read backwards, is a route along prerequisites. */
  lemma ReverseWitness(techs: seq<Tech>, a: string, b: string, p: seq<string>)
    requires UniqueIds(techs)
    requires Witness(Next(techs, Dependents), a, b, {}, p)
    ensures Witness(Next(techs, PrereqsByMap), b, a, {}, Reversed(p))
  {
    var q := Reversed(p);
    forall i | 0 <= i < |q| - 1 ensures q[i + 1] in Next(techs, PrereqsByMap)(q[i]) {
      var k := |p| - 2 - i;
      assert p[k + 1] in Next(techs, Dependents)(p[k]);
      EdgeInverse(techs, p[k], p[k + 1]);
    }
  }

  lemma ReverseWitnessBack(techs: seq<Tech>, a: string, b: string, p: seq<string>)
    requires UniqueIds(techs)
    requires Witness(Next(techs, PrereqsByMap), a, b, {}, p)
    ensures Witness(Next(techs, Dependents), b, a, {}, Reversed(p))
  {
    var q := Reversed(p);
    forall i | 0 <= i < |q| - 1 ensures q[i + 1] in Next(techs, Dependents)(q[i]) {
      var k := |p| - 2 - i;
      assert p[k + 1] in Next(techs, PrereqsByMap)(p[k]);
      EdgeInverse(techs, p[k + 1], p[k]);
    }
  }

  /** With distinct ids, `y` descends from `x` exactly when `x` is among the
      prerequisites of `y`. */
  lemma DescendantsAncestorsDual(techs: seq<Tech>, x: string, y: string)
    requires UniqueIds(techs)
    ensures y in Descendants(techs, x) <==> x in Ancestors(techs, y)
  {
    NextClosedInNodes(techs, Dependents);
    NextClosedInNodes(techs, PrereqsByMap);
    if x != y {
      if y in Reach(techs, Dependents, x, {}) {
        var p :| Witness(Next(techs, Dependents), x, y, {}, p);
        ReverseWitness(techs, x, y, p);
        WitnessInSteps(Next(techs, PrereqsByMap), Nodes(techs), y, x, {}, Reversed(p));
      }
      if x in Reach(techs, PrereqsByMap, y, {}) {
        var p :| Witness(Next(techs, PrereqsByMap), y, x, {}, p);
        ReverseWitnessBack(techs, y, x, p);
        WitnessInSteps(Next(techs, Dependents), Nodes(techs), x, y, {}, Reversed(p));
      }
    }
  }

  /** With distinct ids, the kept ids are the two ends and every id that
      lies between them: one that requires the start and is required by the
      end. */
  lemma PathIdsBetween(techs: seq<Tech>, s: string, e: string, x: string)
    requires UniqueIds(techs)
    ensures x in PathIds(techs, s, e) <==> x == s || x == e || (s in Ancestors(techs, x) && x in Ancestors(techs, e))
  {
    DescendantsAncestorsDual(techs, s, x);
  }

  // ---------------------------------------------------------------------
  // Factions

  /** The species-to-faction table of the fallback rule. */
  const SpeciesFactions: map<string, string> := map[
    "Federation" := "federation", "Klingon" := "klingon", "Romulan" := "romulan",
    "Cardassian" := "cardassian", "Dominion" := "dominion", "Borg" := "borg",
    "Undine" := "undine", "Breen" := "breen", "Ferengi" := "ferengi",
    "Son'a" := "sona", "Hirogen" := "hirogen", "Voth" := "voth",
    "Krenim" := "krenim", "Vidiian" := "vidiian", "Suliban" := "suliban"]

  /** `factionId === 'all' || !factionId`. */
  predicate IsAllFactions(f: string)
  {
    f == "all" || f == ""
  }

  /** One required species maps to the faction, compared case-insensitively. */
  predicate SpeciesMapsTo(species: string, f: string)
  {
    species in SpeciesFactions && Lower(SpeciesFactions[species]) == Lower(f)
  }

  /** `requiredSpecies.some(...)` over the species list. */
  function AnySpeciesMapsTo(rs: seq<string>, f: string): (r: bool)
    ensures r <==> exists i :: 0 <= i < |rs| && SpeciesMapsTo(rs[i], f)
  {
    if |rs| == 0 then false
    else if SpeciesMapsTo(rs[0], f) then true
    else
      var r := AnySpeciesMapsTo(rs[1..], f);
      assert forall i :: 1 <= i < |rs| ==> rs[i] == rs[1..][i - 1];
      assert r ==> exists i :: 0 <= i < |rs| && SpeciesMapsTo(rs[i], f) by {
        if r {
          var i :| 0 <= i < |rs[1..]| && SpeciesMapsTo(rs[1..][i], f);
          assert rs[i + 1] == rs[1..][i];
        }
      }
      r
  }

  /** `Object.keys(o).find(key => key.toLowerCase() === f.toLowerCase())`,
      with the entry it names: the first key equal to `f` up to case. */
  function FindKeyIgnoringCase<V(==)>(a: Assoc<V>, f: string): (r: Option<(string, V)>)
    ensures r.None? <==> forall i :: 0 <= i < |a| ==> Lower(a[i].0) != Lower(f)
    ensures r.Some? ==> exists i :: 0 <= i < |a| && a[i] == r.value && Lower(a[i].0) == Lower(f) &&
                                      forall j :: 0 <= j < i ==> Lower(a[j].0) != Lower(f)
  {
    if |a| == 0 then None
    else if Lower(a[0].0) == Lower(f) then Some(a[0])
    else
      var r := FindKeyIgnoringCase(a[1..], f);
      assert forall i :: 1 <= i < |a| ==> a[i] == a[1..][i - 1];
      if r.Some? then
        var i :| 0 <= i < |a[1..]| && a[1..][i] == r.value && Lower(a[1..][i].0) == Lower(f) &&
                 forall j :: 0 <= j < i ==> Lower(a[1..][j].0) != Lower(f);
        assert a[i + 1] == a[1..][i];
        assert forall j :: 0 <= j < i + 1 ==> Lower(a[j].0) != Lower(f) by {
          forall j | 0 <= j < i + 1 ensures Lower(a[j].0) != Lower(f) {
            if j > 0 { assert a[j] == a[1..][j - 1]; }
          }
        }
        r
      else r
  }

  /** The per-record test of `filterTechsByFaction`. */
  predicate AvailableToFaction(t: Tech, f: string)
  {
    if |t.factionAvailability| == 0 then
      |t.requiredSpecies| == 0 || AnySpeciesMapsTo(t.requiredSpecies, f)
    else
      match FindKeyIgnoringCase(t.factionAvailability, f)
      case None => false
      case Some(entry) => entry.1.available
  }

  /** `filterTechsByFaction`: the list itself for every faction, otherwise the
      records available to the faction, in order. */
  function FilterTechsByFaction(techs: seq<Tech>, f: string): (r: seq<Tech>)
    ensures IsAllFactions(f) ==> r == techs
    ensures !IsAllFactions(f) ==> forall t :: t in r <==> t in techs && AvailableToFaction(t, f)
    ensures IsSubseq(r, techs)
  {
    if IsAllFactions(f) then
      IsSubseqReflexive(techs);
      techs
    else
      FilterIsSubseq(techs, (t: Tech) => AvailableToFaction(t, f));
      Filter(techs, (t: Tech) => AvailableToFaction(t, f))
  }

  /** The fallback policy written out against the record: with no
      availability entries, a record without species is kept and one with
      species is kept only when one of them maps to the faction; with
      entries, it is kept exactly when the first key equal to the faction up
      to case exists and says available. */
  lemma FactionPolicy(t: Tech, f: string)
    ensures |t.factionAvailability| == 0 && |t.requiredSpecies| == 0 ==> AvailableToFaction(t, f)
    ensures |t.factionAvailability| == 0 && (forall s :: s in t.requiredSpecies ==> s !in SpeciesFactions) ==>
              (AvailableToFaction(t, f) <==> |t.requiredSpecies| == 0)
    ensures |t.factionAvailability| > 0 ==>
              (AvailableToFaction(t, f) <==>
                 exists i :: 0 <= i < |t.factionAvailability| &&
                   Lower(t.factionAvailability[i].0) == Lower(f) && t.factionAvailability[i].1.available &&
                   forall j :: 0 <= j < i ==> Lower(t.factionAvailability[j].0) != Lower(f))
  {
    var fa := t.factionAvailability;
    var r := FindKeyIgnoringCase(fa, f);
    if |fa| > 0 && r.Some? {
      var i :| 0 <= i < |fa| && fa[i] == r.value && Lower(fa[i].0) == Lower(f) &&
               forall j :: 0 <= j < i ==> Lower(fa[j].0) != Lower(f);
      forall i' | 0 <= i' < |fa| && Lower(fa[i'].0) == Lower(f) &&
                  forall j :: 0 <= j < i' ==> Lower(fa[j].0) != Lower(f)
        ensures i' == i
      {
        assert Lower(fa[i'].0) == Lower(f) && Lower(fa[i].0) == Lower(f);
      }
    }
  }

  /** `getTechName` falls back to `tech.name || tech.id || ''`. */
  function DefaultName(t: Tech): string
  {
    if t.name != "" then t.name else t.id
  }

  /** `getTechName`: no record gives ""; otherwise the alternate name stored
      under the first key equal to the faction up to case, when it is not
      empty, else the default name. */
  function GetTechName(tech: Option<Tech>, f: string): (r: string)
    ensures tech.None? ==> r == ""
    ensures tech.Some? ==> r == DefaultName(tech.value) || exists i :: 0 <= i < |tech.value.alternateNames| && r == tech.value.alternateNames[i].1
    ensures tech.Some? && IsAllFactions(f) ==> r == DefaultName(tech.value)
    ensures r == "" ==> tech.None? || DefaultName(tech.value) == ""
    ensures tech.Some? && DefaultName(tech.value) != "" ==> r != ""
  {
    match tech
    case None => ""
    case Some(t) =>
      if IsAllFactions(f) then DefaultName(t)
      else
        match FindKeyIgnoringCase(t.alternateNames, f)
        case Some(entry) => if entry.1 != "" then entry.1 else DefaultName(t)
        case None => DefaultName(t)
  }

  /** The keys whose entry says available, in key order. */
  function AvailableKeys(fa: Assoc<Availability>): (r: seq<string>)
    ensures forall k :: k in r <==> exists i :: 0 <= i < |fa| && fa[i].0 == k && fa[i].1.available
  {
    if |fa| == 0 then []
    else
      var rest := AvailableKeys(fa[1..]);
      assert forall i :: 1 <= i < |fa| ==> fa[i] == fa[1..][i - 1];
      assert forall k :: k in rest ==> exists i :: 0 <= i < |fa| && fa[i].0 == k && fa[i].1.available by {
        forall k | k in rest ensures exists i :: 0 <= i < |fa| && fa[i].0 == k && fa[i].1.available {
          var i :| 0 <= i < |fa[1..]| && fa[1..][i].0 == k && fa[1..][i].1.available;
          assert fa[i + 1] == fa[1..][i];
        }
      }
      (if fa[0].1.available then [fa[0].0] else []) + rest
  }

  /** `isFactionExclusive`: never for every faction; otherwise the single
      required species maps to the faction (no availability entries), or the
      only key that says available is the faction's, up to case. */
  function IsFactionExclusive(t: Tech, f: string): (r: bool)
    ensures r ==> !IsAllFactions(f)
    ensures r && |t.factionAvailability| == 0 ==> |t.requiredSpecies| == 1 && t.requiredSpecies[0] in SpeciesFactions
    ensures r && |t.factionAvailability| > 0 ==>
      exists i :: 0 <= i < |t.factionAvailability| &&
        Lower(t.factionAvailability[i].0) == Lower(f) && t.factionAvailability[i].1.available
  {
    if IsAllFactions(f) then false
    else if |t.factionAvailability| == 0 then
      |t.requiredSpecies| == 1 && SpeciesMapsTo(t.requiredSpecies[0], f)
    else
      var availableTo := AvailableKeys(t.factionAvailability);
      assert |availableTo| == 1 ==> availableTo[0] in availableTo;
      |availableTo| == 1 && Lower(availableTo[0]) == Lower(f)
  }

  /** An exclusive record is one the faction filter keeps, provided no two
      availability keys differ only in case (otherwise the filter may look at
      a different key than the exclusivity test). */
  lemma ExclusiveImpliesAvailable(t: Tech, f: string)
    requires IsFactionExclusive(t, f)
    requires forall i, j :: 0 <= i < j < |t.factionAvailability| ==>
               Lower(t.factionAvailability[i].0) != Lower(t.factionAvailability[j].0)
    ensures !IsAllFactions(f) && AvailableToFaction(t, f)
  {
    var fa := t.factionAvailability;
    if |fa| == 0 {
      assert SpeciesMapsTo(t.requiredSpecies[0], f);
    } else {
      var k := AvailableKeys(fa)[0];
      assert k in AvailableKeys(fa);
      var i :| 0 <= i < |fa| && fa[i].0 == k && fa[i].1.available;
      var r := FindKeyIgnoringCase(fa, f);
      assert Lower(fa[i].0) == Lower(f);
      var i' :| 0 <= i' < |fa| && fa[i'] == r.value && Lower(fa[i'].0) == Lower(f) &&
                forall j :: 0 <= j < i' ==> Lower(fa[j].0) != Lower(f);
      assert Lower(fa[i'].0) == Lower(fa[i].0);
      assert i' == i;
    }
  }

  /** Exclusive means available to one faction only: every faction that
      differs from it up to case is refused the record by the faction filter,
      and the record is not exclusive to it either. */
  lemma ExclusiveToOneFaction(t: Tech, f: string, g: string)
    requires IsFactionExclusive(t, f) && Lower(g) != Lower(f)
    ensures !AvailableToFaction(t, g) && !IsFactionExclusive(t, g)
  {
    var fa := t.factionAvailability;
    if |fa| == 0 {
      var s := t.requiredSpecies[0];
      assert SpeciesMapsTo(s, f) && !SpeciesMapsTo(s, g);
      assert !AnySpeciesMapsTo(t.requiredSpecies, g) by {
        forall i | 0 <= i < |t.requiredSpecies| ensures !SpeciesMapsTo(t.requiredSpecies[i], g) {
          assert t.requiredSpecies[i] == s;
        }
      }
    } else {
      var keys := AvailableKeys(fa);
      match FindKeyIgnoringCase(fa, g)
      case None =>
      case Some(entry) =>
        var i :| 0 <= i < |fa| && fa[i] == entry && Lower(fa[i].0) == Lower(g) &&
                 forall j :: 0 <= j < i ==> Lower(fa[j].0) != Lower(g);
        assert |keys| == 1 && Lower(keys[0]) == Lower(f);
        assert Lower(entry.0) != Lower(keys[0]);
        assert entry.0 !in keys;
    }
  }

  /** A record whose one required species is the Federation, with no
      availability entries, is exclusive to the Federation and to no other
      faction. */
  lemma FederationOnlyExclusive(t: Tech, g: string)
    requires t.requiredSpecies == ["Federation"] && t.factionAvailability == []
    ensures IsFactionExclusive(t, "federation")
    ensures Lower(g) != "federation" ==> !IsFactionExclusive(t, g) && !AvailableToFaction(t, g)
  {
    assert Lower("federation") == "federation";
    if Lower(g) != "federation" {
      ExclusiveToOneFaction(t, "federation", g);
    }
  }

  /** Exclusivity needs a record limited to one faction, so a record with no
      species and no availability entries is never exclusive. */
  lemma UnrestrictedNotExclusive(t: Tech, f: string)
    requires |t.factionAvailability| == 0 && |t.requiredSpecies| == 0
    ensures !IsFactionExclusive(t, f) && AvailableToFaction(t, f)
  {
  }
}
