/** Reachability over the prerequisite graph. The browser grows JavaScript
    `Set`s through recursive helpers that skip ids already seen; here the
    same traversal is an explicit work list over a visited set, and its result
    is specified as the set of ids reachable by a path. */
module Graph {
  import opened Wrappers
  import opened Seqs
  import opened Techs

  /** Which neighbours a traversal follows from an id. */
  datatype Direction =
    | PrereqsByMap   // the prerequisites of `techMap.get(id)`: the last record with that id
    | PrereqsByFind  // the prerequisites of `techs.find(t => t.id === id)`: the first record
    | Dependents     // the ids of all records whose prerequisites include the id

  /** `techs.filter(t => t.prerequisites.includes(x)).map(t => t.id)`. */
  function DependentIds(techs: seq<Tech>, x: string): seq<string>
  {
    if |techs| == 0 then []
    else (if x in techs[0].prerequisites then [techs[0].id] else []) + DependentIds(techs[1..], x)
  }

  /** An id requires `x` exactly when some record with that id lists `x`. */
  predicate IsDependent(techs: seq<Tech>, x: string, y: string)
  {
    exists t :: t in techs && t.id == y && x in t.prerequisites
  }

  lemma {:induction false} DependentIdsMembership(techs: seq<Tech>, x: string, y: string)
    ensures y in DependentIds(techs, x) <==> IsDependent(techs, x, y)
  {
    if |techs| > 0 {
      DependentIdsMembership(techs[1..], x, y);
      assert forall t :: t in techs <==> t == techs[0] || t in techs[1..];
    }
  }

  /** The neighbours of `x`, in the order the traversal visits them. */
  function Succ(techs: seq<Tech>, dir: Direction, x: string): seq<string>
  {
    match dir
    case PrereqsByMap =>
      var m := TechMap(techs);
      if x in m then m[x].prerequisites else []
    case PrereqsByFind =>
      (match FindById(techs, x)
       case None => []
       case Some(t) => t.prerequisites)
    case Dependents => DependentIds(techs, x)
  }

  lemma SuccInNodes(techs: seq<Tech>, dir: Direction, x: string, y: string)
    requires y in Succ(techs, dir, x)
    ensures y in Nodes(techs)
  {
    match dir
    case PrereqsByMap =>
      var t := TechMap(techs)[x];
      assert t in techs && y in t.prerequisites;
    case PrereqsByFind =>
      var t := FindById(techs, x).value;
      assert t in techs && y in t.prerequisites;
    case Dependents =>
      DependentIdsMembership(techs, x, y);
  }

  /** The neighbour function of a traversal over `techs`. */
  function Next(techs: seq<Tech>, dir: Direction): string -> seq<string>
  {
    (x: string) => Succ(techs, dir, x)
  }

  /** Every neighbour of every id lies in `u`. */
  ghost predicate ClosedIn(next: string -> seq<string>, u: set<string>)
  {
    forall x, y :: y in next(x) ==> y in u
  }

  lemma NextClosedInNodes(techs: seq<Tech>, dir: Direction)
    ensures ClosedIn(Next(techs, dir), Nodes(techs))
  {
    forall x, y | y in Next(techs, dir)(x) ensures y in Nodes(techs) {
      SuccInNodes(techs, dir, x, y);
    }
  }

  /** Consecutive ids of `p` are neighbours. */
  ghost predicate IsPath(next: string -> seq<string>, p: seq<string>)
  {
    |p| > 0 && forall i :: 0 <= i < |p| - 1 ==> p[i + 1] in next(p[i])
  }

  /** No id after the first is in `avoid`. */
  ghost predicate Avoids(p: seq<string>, avoid: set<string>)
  {
    forall i :: 1 <= i < |p| ==> p[i] !in avoid
  }

  /** `p` is a path of at least one step from `a` to `b` that avoids `avoid`. */
  ghost predicate Witness(next: string -> seq<string>, a: string, b: string, avoid: set<string>, p: seq<string>)
  {
    |p| >= 2 && IsPath(next, p) && p[0] == a && p[|p| - 1] == b && Avoids(p, avoid)
  }

  ghost predicate StepsTo(next: string -> seq<string>, a: string, b: string, avoid: set<string>)
  {
    exists p :: Witness(next, a, b, avoid, p)
  }

  /** The ids of `u` reachable from `a` in one or more steps without passing
      through `avoid` (the first id may itself be in `avoid`). */
  ghost function Steps(next: string -> seq<string>, u: set<string>, a: string, avoid: set<string>): set<string>
  {
    set y | y in u && StepsTo(next, a, y, avoid)
  }

  /** The same set for a traversal over `techs`: every id it mentions. */
  ghost function Reach(techs: seq<Tech>, dir: Direction, a: string, avoid: set<string>): set<string>
  {
    Steps(Next(techs, dir), Nodes(techs), a, avoid)
  }

  lemma WitnessInSteps(next: string -> seq<string>, u: set<string>, a: string, b: string, avoid: set<string>, p: seq<string>)
    requires ClosedIn(next, u)
    requires Witness(next, a, b, avoid, p)
    ensures b in Steps(next, u, a, avoid)
  {
    assert p[|p| - 1] in next(p[|p| - 2]);
  }

  /** A path that starts at `a` and avoids `avoid`, extended by one neighbour. */
  lemma Extend(next: string -> seq<string>, a: string, avoid: set<string>, p: seq<string>, y: string)
    requires |p| >= 1 && IsPath(next, p) && p[0] == a && Avoids(p, avoid)
    requires y in next(p[|p| - 1]) && y !in avoid
    ensures Witness(next, a, y, avoid, p + [y])
  {
    var q := p + [y];
    forall i | 0 <= i < |q| - 1 ensures q[i + 1] in next(q[i]) {
      if i < |p| - 1 {
        assert q[i] == p[i] && q[i + 1] == p[i + 1];
      }
    }
  }

  /** Following a path from `a` inside a set that is closed under neighbours
      everywhere outside `avoid` never leaves the set. */
  lemma {:induction false} PathWithin(next: string -> seq<string>, a: string, avoid: set<string>,
                                      vis: set<string>, done: set<string>, p: seq<string>, k: nat)
    requires a in done
    requires forall x :: x in done ==> forall y :: y in next(x) ==> y in vis
    requires forall y :: y in vis && y !in avoid ==> y in done
    requires IsPath(next, p) && p[0] == a && Avoids(p, avoid)
    requires 1 <= k < |p|
    ensures p[k] in vis
  {
    if k > 1 {
      PathWithin(next, a, avoid, vis, done, p, k - 1);
      assert p[k - 1] !in avoid;
      assert p[k] in next(p[k - 1]);
    } else {
      assert p[1] in next(p[0]);
    }
  }

  lemma StepsWithin(next: string -> seq<string>, u: set<string>, a: string, avoid: set<string>,
                    vis: set<string>, done: set<string>)
    requires a in done
    requires forall x :: x in done ==> forall y :: y in next(x) ==> y in vis
    requires forall y :: y in vis && y !in avoid ==> y in done
    ensures Steps(next, u, a, avoid) <= vis
  {
    forall y | y in Steps(next, u, a, avoid) ensures y in vis {
      var p :| Witness(next, a, y, avoid, p);
      PathWithin(next, a, avoid, vis, done, p, |p| - 1);
    }
  }

  lemma CardDiff(u: set<string>, a: set<string>, b: set<string>)
    requires a <= b <= u
    ensures |u - b| == |u - a| - |b - a|
  {
    assert u - a == (u - b) + (b - a);
    assert (u - b) * (b - a) == {};
  }

  /** The inner loop of one expansion: every neighbour not yet seen is
      marked seen and queued, in order; `added` is what was queued. */
  method AddNeighbours(succ: seq<string>, visited: set<string>)
    returns (visited': set<string>, added: seq<string>)
    ensures forall y :: y in visited' <==> y in visited || y in succ
    ensures forall y :: y in added <==> y in succ && y !in visited
    ensures |added| == |visited' - visited|
  {
    visited', added := visited, [];
    for i := 0 to |succ|
      invariant forall y :: y in visited' <==> y in visited || y in succ[..i]
      invariant forall y :: y in added <==> y in succ[..i] && y !in visited
      invariant |added| == |visited' - visited|
    {
      var y := succ[i];
      assert succ[..i + 1] == succ[..i] + [y];
      if y !in visited' {
        assert (visited' + {y}) - visited == (visited' - visited) + {y};
        visited' := visited' + {y};
        added := added + [y];
      }
    }
    assert succ[..|succ|] == succ;
  }

  /** One expansion keeps the work list and the seen set in step: everything
      queued has been seen (or is the start), and everything seen is expanded
      or still queued. */
  lemma WorkStep(start: string, init: set<string>, visited: set<string>, work: seq<string>, done: set<string>,
                 succ: seq<string>, visited': set<string>, added: seq<string>)
    requires |work| > 0 && init <= visited
    requires forall y :: y in work ==> y == start || y in visited - init
    requires forall y :: y in visited - init ==> y in done || y in work
    requires forall y :: y in visited' <==> y in visited || y in succ
    requires forall y :: y in added <==> y in succ && y !in visited
    ensures forall y :: y in work[1..] + added ==> y == start || y in visited' - init
    ensures forall y :: y in visited' - init ==> y in done + {work[0]} || y in work[1..] + added
  {
    var rest := work[1..];
    forall y | y in rest + added ensures y == start || y in visited' - init {
      if y in rest {
        var k :| 0 <= k < |rest| && rest[k] == y;
        assert work[k + 1] == y;
        assert y == start || y in visited - init;
        assert visited <= visited';
      } else {
        assert y in succ && y !in visited;
        assert y in visited';
      }
    }
    forall y | y in visited' - init ensures y in done + {work[0]} || y in rest + added {
      if y !in visited {
        assert y in added;
      } else if y != work[0] && y !in done {
        assert y in work;
        var k :| 0 <= k < |work| && work[k] == y;
        assert rest[k - 1] == y;
      }
    }
  }

  /** One expansion of `x` keeps every seen id (outside the initial set)
      reachable from the start. */
  lemma PathStep(next: string -> seq<string>, start: string, avoid: set<string>, init: set<string>,
                 visited: set<string>, x: string, visited': set<string>)
    requires avoid <= init <= visited
    requires x == start || x in visited - init
    requires forall y :: y in visited - init ==> StepsTo(next, start, y, avoid)
    requires forall y :: y in visited' <==> y in visited || y in next(x)
    ensures forall y :: y in visited' - init ==> StepsTo(next, start, y, avoid)
  {
    var px: seq<string> := [start];
    if x in visited - init {
      px :| Witness(next, start, x, avoid, px);
    }
    forall y | y in visited' - visited ensures StepsTo(next, start, y, avoid) {
      Extend(next, start, avoid, px, y);
    }
  }

  /** With the work list empty, the seen set is the initial set plus
      exactly what is reachable. */
  lemma ExploreDone(next: string -> seq<string>, u: set<string>, start: string, avoid: set<string>,
                    init: set<string>, visited: set<string>, done: set<string>)
    requires ClosedIn(next, u)
    requires avoid <= init <= visited && init - avoid <= {start} && start in done
    requires forall y :: y in visited - init ==> y in done
    requires forall x :: x in done ==> forall y :: y in next(x) ==> y in visited
    requires forall y :: y in visited - init ==> StepsTo(next, start, y, avoid)
    ensures visited == init + Steps(next, u, start, avoid)
  {
    forall y | y in visited && y !in avoid ensures y in done {
      if y in init {
        assert y in init - avoid;
      }
    }
    StepsWithin(next, u, start, avoid, visited, done);
    forall y | y in visited - init ensures y in Steps(next, u, start, avoid) {
      var p :| Witness(next, start, y, avoid, p);
      WitnessInSteps(next, u, start, y, avoid, p);
    }
  }

  /** The traversal: starts from `start` with `avoid` (and `start` itself when
      `includeStart`) already seen, and adds every unseen neighbour of each id
      it takes from the work list. All neighbours lie in `u`. */
  method Explore(next: string -> seq<string>, ghost u: set<string>, start: string, avoid: set<string>, includeStart: bool)
    returns (visited: set<string>)
    requires ClosedIn(next, u)
    ensures visited == avoid + (if includeStart then {start} else {}) + Steps(next, u, start, avoid)
  {
    var init := avoid + (if includeStart then {start} else {});
    ghost var universe := u + init + {start};
    visited := init;
    var work := [start];
    ghost var done: set<string> := {};
    while |work| > 0
      invariant init <= visited <= universe
      invariant forall y :: y in work ==> y == start || y in visited - init
      invariant start in done || start in work
      invariant forall y :: y in visited - init ==> y in done || y in work
      invariant forall x :: x in done ==> forall y :: y in next(x) ==> y in visited
      invariant forall y :: y in visited - init ==> StepsTo(next, start, y, avoid)
      decreases |universe - visited| + |work|
    {
      var x := work[0];
      var succ := next(x);
      var visited', added := AddNeighbours(succ, visited);
      CardDiff(universe, visited, visited');
      WorkStep(start, init, visited, work, done, succ, visited', added);
      PathStep(next, start, avoid, init, visited, x, visited');
      done := done + {x};
      visited, work := visited', work[1..] + added;
    }
    ExploreDone(next, u, start, avoid, init, visited, done);
  }

  // ---------------------------------------------------------------------
  // Properties of the reachable sets.

  /** Reachability is closed under taking a neighbour. */
  lemma StepsClosed(next: string -> seq<string>, u: set<string>, a: string, x: string, y: string)
    requires ClosedIn(next, u)
    requires x == a || x in Steps(next, u, a, {})
    requires y in next(x)
    ensures y in Steps(next, u, a, {})
  {
    if x == a {
      Extend(next, a, {}, [a], y);
      WitnessInSteps(next, u, a, y, {}, [a, y]);
    } else {
      var p :| Witness(next, a, x, {}, p);
      Extend(next, a, {}, p, y);
      WitnessInSteps(next, u, a, y, {}, p + [y]);
    }
  }

  /** Reachability is transitive. */
  lemma {:induction false} StepsTransitive(next: string -> seq<string>, u: set<string>, a: string, b: string, c: string)
    requires ClosedIn(next, u)
    requires b in Steps(next, u, a, {}) && c in Steps(next, u, b, {})
    ensures c in Steps(next, u, a, {})
  {
    var q :| Witness(next, b, c, {}, q);
    StepsAlong(next, u, a, b, q, |q| - 1);
  }

  lemma {:induction false} StepsAlong(next: string -> seq<string>, u: set<string>, a: string, b: string, q: seq<string>, k: nat)
    requires ClosedIn(next, u)
    requires b in Steps(next, u, a, {})
    requires IsPath(next, q) && q[0] == b
    requires 1 <= k < |q|
    ensures q[k] in Steps(next, u, a, {})
    decreases k
  {
    if k == 1 {
      StepsClosed(next, u, a, b, q[1]);
    } else {
      StepsAlong(next, u, a, b, q, k - 1);
      StepsClosed(next, u, a, q[k - 1], q[k]);
    }
  }

  /** An id with no neighbours reaches nothing. */
  lemma StepsFromSink(next: string -> seq<string>, u: set<string>, a: string, avoid: set<string>)
    requires next(a) == []
    ensures Steps(next, u, a, avoid) == {}
  {
    StepsFromSinkAvoiding(next, u, a, avoid);
  }

  /** When every neighbour of `a` is avoided, nothing is reachable. */
  lemma StepsFromSinkAvoiding(next: string -> seq<string>, u: set<string>, a: string, avoid: set<string>)
    requires forall y :: y in next(a) ==> y in avoid
    ensures Steps(next, u, a, avoid) == {}
  {
    forall y ensures y !in Steps(next, u, a, avoid) {
      forall p ensures !Witness(next, a, y, avoid, p) {
        NoWitnessFromSink(next, a, y, avoid, p);
      }
    }
  }

  /** A path out of `a` first steps to a neighbour of `a`, which is avoided. */
  lemma NoWitnessFromSink(next: string -> seq<string>, a: string, b: string, avoid: set<string>, p: seq<string>)
    requires forall y :: y in next(a) ==> y in avoid
    ensures !Witness(next, a, b, avoid, p)
  {
    if |p| >= 2 && IsPath(next, p) && p[0] == a {
      assert p[1] in next(p[0]);
    }
  }

  /** Avoiding more ids reaches no more. */
  lemma StepsAvoidMonotone(next: string -> seq<string>, u: set<string>, a: string, avoid: set<string>)
    ensures Steps(next, u, a, avoid) <= Steps(next, u, a, {})
  {
    forall y | y in Steps(next, u, a, avoid) ensures y in Steps(next, u, a, {}) {
      var p :| Witness(next, a, y, avoid, p);
      assert Witness(next, a, y, {}, p);
    }
  }
}
