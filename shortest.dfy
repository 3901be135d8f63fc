/** `calculateShortestPath` of js/data.js: a breadth-first search from both
    ends at once over prerequisite links taken in either direction, each side
    keeping one path per id it has seen. */
module Shortest {
  import opened Wrappers
  import opened Seqs
  import opened Techs
  import opened Graph
  import opened Data

  // ---------------------------------------------------------------------
  // The adjacency map

  /** One copy of `id` per occurrence of `p` in `prereqs`. */
  function IdPerOccurrence(prereqs: seq<string>, p: string, id: string): seq<string>
  {
    if |prereqs| == 0 then []
    else IdPerOccurrence(prereqs[..|prereqs| - 1], p, id) + (if prereqs[|prereqs| - 1] == p then [id] else [])
  }

  /** What `adj.get(p)` holds once the list has been scanned: the id of each
      record, in list order, once per time it lists `p` as a prerequisite. */
  function AdjOf(techs: seq<Tech>, p: string): seq<string>
  {
    if |techs| == 0 then []
    else
      var last := techs[|techs| - 1];
      AdjOf(techs[..|techs| - 1], p) + IdPerOccurrence(last.prerequisites, p, last.id)
  }

  lemma {:induction false} IdPerOccurrenceMembership(prereqs: seq<string>, p: string, id: string, y: string)
    ensures y in IdPerOccurrence(prereqs, p, id) <==> y == id && p in prereqs
  {
    if |prereqs| > 0 {
      var init := prereqs[..|prereqs| - 1];
      IdPerOccurrenceMembership(init, p, id, y);
      assert prereqs == init + [prereqs[|prereqs| - 1]];
    }
  }

  /** The ids stored under `p` are exactly the ids of records requiring `p`. */
  lemma {:induction false} AdjOfMembership(techs: seq<Tech>, p: string, y: string)
    ensures y in AdjOf(techs, p) <==> IsDependent(techs, p, y)
  {
    if |techs| > 0 {
      var init := techs[..|techs| - 1];
      var last := techs[|techs| - 1];
      AdjOfMembership(init, p, y);
      IdPerOccurrenceMembership(last.prerequisites, p, last.id, y);
      assert techs == init + [last];
      assert forall t :: t in techs <==> t in init || t == last;
    }
  }

  /** The map once the first `n` records have been scanned. */
  ghost predicate AdjAfter(adj: map<string, seq<string>>, techs: seq<Tech>, n: nat)
    requires n <= |techs|
  {
    forall p :: (p in adj <==> AdjOf(techs[..n], p) != []) &&
                (p in adj ==> adj[p] == AdjOf(techs[..n], p))
  }

  /** The map part-way through the prerequisites of record `i`. */
  ghost predicate AdjUpTo(adj: map<string, seq<string>>, techs: seq<Tech>, i: nat, j: nat)
    requires i < |techs| && j <= |techs[i].prerequisites|
  {
    forall p :: (p in adj <==> AdjOf(techs[..i], p) + IdPerOccurrence(techs[i].prerequisites[..j], p, techs[i].id) != []) &&
                (p in adj ==> adj[p] == AdjOf(techs[..i], p) + IdPerOccurrence(techs[i].prerequisites[..j], p, techs[i].id))
  }

  lemma AdjStart(adj: map<string, seq<string>>, techs: seq<Tech>, i: nat)
    requires i < |techs| && AdjAfter(adj, techs, i)
    ensures AdjUpTo(adj, techs, i, 0)
  {
  }

  lemma AdjFinish(adj: map<string, seq<string>>, techs: seq<Tech>, i: nat)
    requires i < |techs| && AdjUpTo(adj, techs, i, |techs[i].prerequisites|)
    ensures AdjAfter(adj, techs, i + 1)
  {
    assert techs[..i + 1][..i] == techs[..i];
    assert techs[i].prerequisites[..|techs[i].prerequisites|] == techs[i].prerequisites;
  }

  lemma AdjPush(adj: map<string, seq<string>>, techs: seq<Tech>, i: nat, j: nat)
    requires i < |techs| && j < |techs[i].prerequisites| && AdjUpTo(adj, techs, i, j)
    ensures var p := techs[i].prerequisites[j];
            AdjUpTo(adj[p := (if p in adj then adj[p] else []) + [techs[i].id]], techs, i, j + 1)
  {
    var t := techs[i];
    assert t.prerequisites[..j + 1][..j] == t.prerequisites[..j];
  }

  /** The adjacency map of `calculateShortestPath`: for each record and each
      of its prerequisites `p`, the record's id is pushed onto `adj[p]`. */
  method BuildAdjacency(techs: seq<Tech>) returns (adj: map<string, seq<string>>)
    ensures forall p :: p in adj <==> AdjOf(techs, p) != []
    ensures forall p :: p in adj ==> adj[p] == AdjOf(techs, p)
  {
    adj := map[];
    for i := 0 to |techs|
      invariant AdjAfter(adj, techs, i)
    {
      var t := techs[i];
      AdjStart(adj, techs, i);
      for j := 0 to |t.prerequisites|
        invariant AdjUpTo(adj, techs, i, j)
      {
        var p := t.prerequisites[j];
        AdjPush(adj, techs, i, j);
        var old' := if p in adj then adj[p] else [];
        adj := adj[p := old' + [t.id]];
      }
      AdjFinish(adj, techs, i);
    }
    assert techs[..|techs|] == techs;
  }

  // ---------------------------------------------------------------------
  // Neighbours

  /** The forward side's neighbours: `adj.get(id)`, then the prerequisites of
      `techMap.get(id)`. */
  function Forward(techs: seq<Tech>): string -> seq<string>
  {
    (x: string) => AdjOf(techs, x) + Succ(techs, PrereqsByMap, x)
  }

  /** The backward side's neighbours: the same ids with the prerequisites first. */
  function Backward(techs: seq<Tech>): string -> seq<string>
  {
    (x: string) => Succ(techs, PrereqsByMap, x) + AdjOf(techs, x)
  }

  /** Two ids joined by a prerequisite link, in either direction. */
  ghost predicate Linked(techs: seq<Tech>, a: string, b: string)
  {
    b in Forward(techs)(a) || a in Forward(techs)(b)
  }

  /** A neighbour is a record requiring the id or a prerequisite of the
      record the map finds for it. */
  lemma ForwardMembership(techs: seq<Tech>, x: string, y: string)
    ensures y in Forward(techs)(x) <==>
      IsDependent(techs, x, y) || (x in TechMap(techs) && y in TechMap(techs)[x].prerequisites)
    ensures y in Backward(techs)(x) <==> y in Forward(techs)(x)
  {
    AdjOfMembership(techs, x, y);
  }

  lemma NeighboursClosed(techs: seq<Tech>, u: set<string>)
    requires Nodes(techs) <= u
    ensures ClosedIn(Forward(techs), u) && ClosedIn(Backward(techs), u)
  {
    forall x, y | y in Forward(techs)(x) ensures y in u {
      ForwardMembership(techs, x, y);
      if y !in AdjOf(techs, x) {
        SuccInNodes(techs, PrereqsByMap, x, y);
      }
    }
    forall x, y | y in Backward(techs)(x) ensures y in u {
      ForwardMembership(techs, x, y);
      if y !in AdjOf(techs, x) {
        SuccInNodes(techs, PrereqsByMap, x, y);
      }
    }
  }

  // ---------------------------------------------------------------------
  // One side of the search

  /** `p` is the stored path of `k`: it runs from the root to `k` along
      neighbours, repeats no id, and every id but the last has been expanded. */
  ghost predicate TreePath(next: string -> seq<string>, root: string, k: string, p: seq<string>, expanded: set<string>)
  {
    |p| >= 1 && p[0] == root && p[|p| - 1] == k && IsPath(next, p) && NoDups(p) &&
    forall i :: 0 <= i < |p| - 1 ==> p[i] in expanded
  }

  /** The state one side keeps: every seen id has a stored path, is expanded
      or still queued, and expanded ids have all their neighbours seen. */
  ghost predicate SideOk(next: string -> seq<string>, root: string, u: set<string>,
                         vis: map<string, seq<string>>, q: seq<string>, expanded: set<string>)
  {
    && root in vis
    && vis.Keys <= u
    && expanded <= vis.Keys
    && (forall y :: y in q ==> y in vis)
    && (forall k :: k in vis ==> k in expanded || k in q)
    && (forall x :: x in expanded ==> forall y :: y in next(x) ==> y in vis)
    && (forall k :: k in vis ==> TreePath(next, root, k, vis[k], expanded))
  }

  /** What the loop over neighbours keeps after the first `i` of them: the
      ids seen and queued ... */
  ghost predicate KeysUpTo(nbrs: seq<string>, i: nat, vis: set<string>, keys: set<string>, added: seq<string>)
    requires i <= |nbrs|
  {
    && (forall y :: y in keys <==> y in vis || y in nbrs[..i])
    && (forall y :: y in added <==> y in nbrs[..i] && y !in vis)
    && |added| == |keys - vis|
  }

  /** ... and the paths stored: old ids keep theirs, new ones get `base`
      extended by themselves. */
  ghost predicate PathsKept(vis: map<string, seq<string>>, base: seq<string>, vis': map<string, seq<string>>)
  {
    && vis.Keys <= vis'.Keys
    && (forall k :: k in vis ==> vis'[k] == vis[k])
    && (forall k :: k in vis' && k !in vis ==> vis'[k] == base + [k])
  }

  lemma PathsStep(vis: map<string, seq<string>>, base: seq<string>, vis': map<string, seq<string>>, n: string)
    requires PathsKept(vis, base, vis') && n !in vis'
    ensures PathsKept(vis, base, vis'[n := base + [n]])
  {
  }

  lemma KeysSeen(nbrs: seq<string>, i: nat, vis: set<string>, keys: set<string>, added: seq<string>)
    requires i < |nbrs| && KeysUpTo(nbrs, i, vis, keys, added)
    requires nbrs[i] in keys
    ensures KeysUpTo(nbrs, i + 1, vis, keys, added)
  {
    assert nbrs[..i + 1] == nbrs[..i] + [nbrs[i]];
  }

  lemma KeysUnseen(nbrs: seq<string>, i: nat, vis: set<string>, keys: set<string>, added: seq<string>)
    requires i < |nbrs| && KeysUpTo(nbrs, i, vis, keys, added)
    requires nbrs[i] !in keys
    ensures KeysUpTo(nbrs, i + 1, vis, keys + {nbrs[i]}, added + [nbrs[i]])
  {
    var n := nbrs[i];
    assert nbrs[..i + 1] == nbrs[..i] + [n];
    assert (keys + {n}) - vis == (keys - vis) + {n};
  }

  /** The loop over neighbours of one expansion: each unseen neighbour gets
      the current path extended by itself and is queued. */
  method AddPaths(nbrs: seq<string>, vis: map<string, seq<string>>, base: seq<string>)
    returns (vis': map<string, seq<string>>, added: seq<string>)
    ensures forall y :: y in vis' <==> y in vis || y in nbrs
    ensures forall k :: k in vis ==> vis'[k] == vis[k]
    ensures forall k :: k in vis' && k !in vis ==> vis'[k] == base + [k]
    ensures forall y :: y in added <==> y in nbrs && y !in vis
    ensures |added| == |vis'.Keys - vis.Keys|
  {
    vis', added := vis, [];
    for i := 0 to |nbrs|
      invariant KeysUpTo(nbrs, i, vis.Keys, vis'.Keys, added)
      invariant PathsKept(vis, base, vis')
    {
      vis', added := AddPath(nbrs, i, vis, base, vis', added);
    }
    assert nbrs[..|nbrs|] == nbrs;
  }

  /** One neighbour of the loop: stored with `base + [n]` unless already seen. */
  method AddPath(nbrs: seq<string>, i: nat, vis: map<string, seq<string>>, base: seq<string>,
                 vis': map<string, seq<string>>, added: seq<string>)
    returns (vis'': map<string, seq<string>>, added': seq<string>)
    requires i < |nbrs| && KeysUpTo(nbrs, i, vis.Keys, vis'.Keys, added) && PathsKept(vis, base, vis')
    ensures KeysUpTo(nbrs, i + 1, vis.Keys, vis''.Keys, added') && PathsKept(vis, base, vis'')
  {
    var n := nbrs[i];
    if n !in vis' {
      AddUnseen(nbrs, i, vis, base, vis', added);
      vis'', added' := vis'[n := base + [n]], added + [n];
    } else {
      KeysSeen(nbrs, i, vis.Keys, vis'.Keys, added);
      vis'', added' := vis', added;
    }
  }

  lemma AddUnseen(nbrs: seq<string>, i: nat, vis: map<string, seq<string>>, base: seq<string>,
                  m: map<string, seq<string>>, added: seq<string>)
    requires i < |nbrs| && KeysUpTo(nbrs, i, vis.Keys, m.Keys, added) && PathsKept(vis, base, m)
    requires nbrs[i] !in m
    ensures var m' := m[nbrs[i] := base + [nbrs[i]]];
      KeysUpTo(nbrs, i + 1, vis.Keys, m'.Keys, added + [nbrs[i]]) && PathsKept(vis, base, m')
  {
    var n := nbrs[i];
    KeysUnseen(nbrs, i, vis.Keys, m.Keys, added);
    PathsStep(vis, base, m, n);
    assert m[n := base + [n]].Keys == m.Keys + {n};
  }

  /** A stored path stays a stored path when more ids are expanded. */
  lemma TreePathGrow(next: string -> seq<string>, root: string, k: string, p: seq<string>, e: set<string>, e': set<string>)
    requires TreePath(next, root, k, p, e) && e <= e'
    ensures TreePath(next, root, k, p, e')
  {
  }

  /** The path of a newly seen neighbour `n` of `curr`. */
  lemma TreePathExtend(next: string -> seq<string>, root: string, curr: string, p: seq<string>,
                       e: set<string>, keys: set<string>, n: string)
    requires TreePath(next, root, curr, p, e)
    requires e <= keys && curr in keys && n !in keys
    requires n in next(curr)
    ensures TreePath(next, root, n, p + [n], e + {curr})
  {
    var q := p + [n];
    forall i | 0 <= i < |q| - 1 ensures q[i + 1] in next(q[i]) {
      if i < |p| - 1 {
        assert q[i] == p[i] && q[i + 1] == p[i + 1];
      }
    }
    forall i, j | 0 <= i < j < |q| ensures q[i] != q[j] {
      if j == |q| - 1 {
        assert q[i] == p[i];
        if i < |p| - 1 { assert p[i] in e; }
      }
    }
  }

  /** Expanding the head of the queue keeps the side's state. */
  lemma SideStep(next: string -> seq<string>, root: string, u: set<string>,
                 vis: map<string, seq<string>>, q: seq<string>, e: set<string>,
                 vis': map<string, seq<string>>, added: seq<string>)
    requires ClosedIn(next, u)
    requires |q| > 0 && SideOk(next, root, u, vis, q, e)
    requires forall y :: y in vis' <==> y in vis || y in next(q[0])
    requires forall k :: k in vis ==> vis'[k] == vis[k]
    requires forall k :: k in vis' && k !in vis ==> vis'[k] == vis[q[0]] + [k]
    requires forall y :: y in added <==> y in next(q[0]) && y !in vis
    ensures SideOk(next, root, u, vis', q[1..] + added, e + {q[0]})
  {
    var curr := q[0];
    var e' := e + {curr};
    var q' := q[1..] + added;
    forall y | y in q' ensures y in vis' {
      if y in q[1..] {
        var k :| 0 <= k < |q[1..]| && q[1..][k] == y;
        assert q[k + 1] == y;
      }
    }
    forall k | k in vis' ensures k in e' || k in q' {
      if k in vis && k != curr && k !in e {
        assert k in q;
        var m :| 0 <= m < |q| && q[m] == k;
        assert q[1..][m - 1] == k;
      }
    }
    forall k | k in vis' ensures TreePath(next, root, k, vis'[k], e') {
      if k in vis {
        TreePathGrow(next, root, k, vis[k], e, e');
      } else {
        TreePathExtend(next, root, curr, vis[curr], e, vis.Keys, k);
      }
    }
  }

  /** One expansion on one side: the head of the queue is taken off, and its
      unseen neighbours `nbrs` are stored with their paths and queued. */
  method ExpandHead(ghost next: string -> seq<string>, ghost root: string, ghost u: set<string>,
                    vis: map<string, seq<string>>, q: seq<string>, ghost e: set<string>, nbrs: seq<string>)
    returns (vis': map<string, seq<string>>, q': seq<string>)
    requires ClosedIn(next, u) && |q| > 0 && SideOk(next, root, u, vis, q, e)
    requires nbrs == next(q[0])
    ensures SideOk(next, root, u, vis', q', e + {q[0]})
    ensures forall k :: k in vis ==> k in vis' && vis'[k] == vis[k]
    ensures |u - vis'.Keys| + |q'| < |u - vis.Keys| + |q|
  {
    var added;
    vis', added := AddPaths(nbrs, vis, vis[q[0]]);
    SideStep(next, root, u, vis, q, e, vis', added);
    CardDiff(u, vis.Keys, vis'.Keys);
    q' := q[1..] + added;
  }

  /** A stored path of the root is the root alone. */
  lemma RootPath(next: string -> seq<string>, root: string, p: seq<string>, e: set<string>)
    requires TreePath(next, root, root, p, e)
    ensures p == [root]
  {
  }

  // ---------------------------------------------------------------------
  // Joining the two sides

  /** A path found by joining the two sides: it begins at `s`, ends at `e`,
      repeats no id, and each step is a forward neighbour or the reverse of a
      backward one. */
  ghost predicate Chain(fwd: string -> seq<string>, bwd: string -> seq<string>, s: string, e: string, p: seq<string>)
  {
    |p| > 0 && p[0] == s && p[|p| - 1] == e && NoDups(p) &&
    forall i :: 0 <= i < |p| - 1 ==> p[i + 1] in fwd(p[i]) || p[i] in bwd(p[i + 1])
  }

  /** The shape of a found path over the records: each consecutive pair is
      linked. */
  ghost predicate PathShape(techs: seq<Tech>, s: string, e: string, p: seq<string>)
  {
    |p| > 0 && p[0] == s && p[|p| - 1] == e && NoDups(p) &&
    forall i :: 0 <= i < |p| - 1 ==> Linked(techs, p[i], p[i + 1])
  }

  lemma ChainShape(techs: seq<Tech>, s: string, e: string, p: seq<string>)
    requires Chain(Forward(techs), Backward(techs), s, e, p)
    ensures PathShape(techs, s, e, p)
  {
    forall i | 0 <= i < |p| - 1 ensures Linked(techs, p[i], p[i + 1]) {
      ForwardMembership(techs, p[i + 1], p[i]);
    }
  }

  /** The forward path to the meeting id followed by the backward path to it,
      reversed and without its repeated first id. */
  lemma JoinPath(fwd: string -> seq<string>, bwd: string -> seq<string>, s: string, e: string, c: string,
                 f: seq<string>, ef: set<string>, b: seq<string>, eb: set<string>)
    requires TreePath(fwd, s, c, f, ef)
    requires TreePath(bwd, e, c, b, eb)
    requires forall x :: x in ef ==> x !in eb
    ensures Chain(fwd, bwd, s, e, f + Reversed(b)[1..])
  {
    var r := Reversed(b)[1..];
    var p := f + r;
    assert |r| == |b| - 1;
    assert forall i :: 0 <= i < |r| ==> r[i] == b[|b| - 2 - i];
    if |r| == 0 {
      assert b[0] == c;
    } else {
      assert p[|p| - 1] == b[0];
    }
    forall i | 0 <= i < |p| - 1 ensures p[i + 1] in fwd(p[i]) || p[i] in bwd(p[i + 1]) {
      if i < |f| - 1 {
        assert p[i] == f[i] && p[i + 1] == f[i + 1];
        assert f[i + 1] in fwd(f[i]);
      } else {
        var m := |b| - 2 - (i - |f| + 1);
        assert p[i + 1] == b[m];
        assert p[i] == b[m + 1];
        assert b[m + 1] in bwd(b[m]);
      }
    }
    forall i, j | 0 <= i < j < |p| ensures p[i] != p[j] {
      if j >= |f| && i < |f| {
        var m := |b| - 2 - (j - |f|);
        assert p[j] == b[m] && b[m] in eb;
        assert p[i] == f[i];
        if i < |f| - 1 {
          assert f[i] in ef;
        } else {
          assert f[i] == b[|b| - 1];
          assert b[m] != b[|b| - 1];
        }
      } else if i >= |f| {
        var mi, mj := |b| - 2 - (i - |f|), |b| - 2 - (j - |f|);
        assert p[i] == b[mi] && p[j] == b[mj];
        assert b[mj] != b[mi];
      } else {
        assert p[i] == f[i] && p[j] == f[j];
      }
    }
  }

  /** A side whose queue ran out has seen everything reachable from its root. */
  lemma ExhaustedSide(next: string -> seq<string>, root: string, u: set<string>,
                      vis: map<string, seq<string>>, e: set<string>)
    requires SideOk(next, root, u, vis, [], e)
    ensures Steps(next, u, root, {}) <= e
  {
    StepsWithin(next, u, root, {}, vis.Keys, e);
  }

  // ---------------------------------------------------------------------
  // The search

  /** The neighbours the forward side reads from the two maps: `adj.get(id)`,
      then the prerequisites of `techMap.get(id)`. */
  function ForwardIn(adj: map<string, seq<string>>, techMap: map<string, Tech>, x: string): seq<string>
  {
    (if x in adj then adj[x] else []) + (if x in techMap then techMap[x].prerequisites else [])
  }

  /** The backward side reads the same maps the other way round. */
  function BackwardIn(adj: map<string, seq<string>>, techMap: map<string, Tech>, x: string): seq<string>
  {
    (if x in techMap then techMap[x].prerequisites else []) + (if x in adj then adj[x] else [])
  }

  lemma Stored(next: string -> seq<string>, root: string, u: set<string>,
                vis: map<string, seq<string>>, q: seq<string>, e: set<string>, k: string)
    requires SideOk(next, root, u, vis, q, e) && k in vis
    ensures TreePath(next, root, k, vis[k], e) && |vis[k]| >= 1
  {
  }

  /** The two sides meet at `c`: the forward path to it, then the backward
      path to it reversed, without repeating `c`. */
  method Meet(ghost fwd: string -> seq<string>, ghost bwd: string -> seq<string>, ghost u: set<string>,
              startId: string, endId: string,
              visF: map<string, seq<string>>, ghost qF: seq<string>, ghost expF: set<string>,
              visB: map<string, seq<string>>, ghost qB: seq<string>, ghost expB: set<string>, c: string)
    returns (path: seq<string>)
    requires SideOk(fwd, startId, u, visF, qF, expF) && SideOk(bwd, endId, u, visB, qB, expB)
    requires forall x :: x in expF ==> x !in expB
    requires c in visF && c in visB
    ensures Chain(fwd, bwd, startId, endId, path)
    ensures c == startId && visB[c] == [c] ==> path == [c]
  {
    Stored(fwd, startId, u, visF, qF, expF, c);
    Stored(bwd, endId, u, visB, qB, expB, c);
    path := visF[c] + Reversed(visB[c])[1..];
    JoinPath(fwd, bwd, startId, endId, c, visF[c], expF, visB[c], expB);
    if c == startId {
      RootPath(fwd, startId, visF[c], expF);
    }
  }

  lemma SideInit(next: string -> seq<string>, root: string, u: set<string>)
    requires root in u
    ensures SideOk(next, root, u, map[root := [root]], [root], {})
  {
  }

  /** The state both sides keep between turns; the two sides never expand
      the same id, and neither expands the other's root. */
  ghost predicate SearchOk(fwd: string -> seq<string>, bwd: string -> seq<string>, u: set<string>,
                           startId: string, endId: string,
                           visF: map<string, seq<string>>, qF: seq<string>, expF: set<string>,
                           visB: map<string, seq<string>>, qB: seq<string>, expB: set<string>)
  {
    && SideOk(fwd, startId, u, visF, qF, expF)
    && SideOk(bwd, endId, u, visB, qB, expB)
    && (forall x :: x in expF ==> x !in expB)
    && endId !in expF && startId !in expB
  }

  /** The forward step: the head of the forward queue either has been seen
      from the end, and the paths are joined, or is expanded. */
  method ForwardTurn(ghost fwd: string -> seq<string>, ghost bwd: string -> seq<string>, ghost u: set<string>,
                     adj: map<string, seq<string>>, techMap: map<string, Tech>, startId: string, endId: string,
                     visF: map<string, seq<string>>, qF: seq<string>, ghost expF: set<string>,
                     visB: map<string, seq<string>>, ghost qB: seq<string>, ghost expB: set<string>)
    returns (path: seq<string>, visF': map<string, seq<string>>, qF': seq<string>, ghost expF': set<string>)
    requires |qF| > 0 && ClosedIn(fwd, u)
    requires forall x :: ForwardIn(adj, techMap, x) == fwd(x)
    requires SearchOk(fwd, bwd, u, startId, endId, visF, qF, expF, visB, qB, expB)
    ensures path != [] ==> Chain(fwd, bwd, startId, endId, path)
    ensures startId == endId && qF == [startId] && visB == map[endId := [endId]] ==> path == [startId]
    ensures path == [] ==> SearchOk(fwd, bwd, u, startId, endId, visF', qF', expF', visB, qB, expB)
    ensures path == [] ==> |u - visF'.Keys| + |qF'| < |u - visF.Keys| + |qF|
  {
    var currF := qF[0];
    if currF in visB {
      path := Meet(fwd, bwd, u, startId, endId, visF, qF, expF, visB, qB, expB, currF);
      visF', qF', expF' := visF, qF, expF;
      return;
    }
    path := [];
    visF', qF' := ExpandHead(fwd, startId, u, visF, qF, expF, ForwardIn(adj, techMap, currF));
    expF' := expF + {currF};
  }

  /** The backward step: the same from the end's side. */
  method BackwardTurn(ghost fwd: string -> seq<string>, ghost bwd: string -> seq<string>, ghost u: set<string>,
                      adj: map<string, seq<string>>, techMap: map<string, Tech>, startId: string, endId: string,
                      visF: map<string, seq<string>>, ghost qF: seq<string>, ghost expF: set<string>,
                      visB: map<string, seq<string>>, qB: seq<string>, ghost expB: set<string>)
    returns (path: seq<string>, visB': map<string, seq<string>>, qB': seq<string>, ghost expB': set<string>)
    requires |qB| > 0 && ClosedIn(bwd, u)
    requires forall x :: BackwardIn(adj, techMap, x) == bwd(x)
    requires SearchOk(fwd, bwd, u, startId, endId, visF, qF, expF, visB, qB, expB)
    ensures path != [] ==> Chain(fwd, bwd, startId, endId, path)
    ensures path == [] ==> SearchOk(fwd, bwd, u, startId, endId, visF, qF, expF, visB', qB', expB')
    ensures path == [] ==> |u - visB'.Keys| + |qB'| < |u - visB.Keys| + |qB|
  {
    var currB := qB[0];
    if currB in visF {
      path := Meet(fwd, bwd, u, startId, endId, visF, qF, expF, visB, qB, expB, currB);
      visB', qB', expB' := visB, qB, expB;
      return;
    }
    path := [];
    visB', qB' := ExpandHead(bwd, endId, u, visB, qB, expB, BackwardIn(adj, techMap, currB));
    expB' := expB + {currB};
  }

  /** The loop of `calculateShortestPath`: the two sides take turns until
      they meet or one of them runs out of ids to expand. */
  method Search(ghost fwd: string -> seq<string>, ghost bwd: string -> seq<string>, ghost u: set<string>,
                adj: map<string, seq<string>>, techMap: map<string, Tech>, startId: string, endId: string)
    returns (path: seq<string>)
    requires startId in u && endId in u
    requires ClosedIn(fwd, u) && ClosedIn(bwd, u)
    requires forall x :: ForwardIn(adj, techMap, x) == fwd(x)
    requires forall x :: BackwardIn(adj, techMap, x) == bwd(x)
    ensures path != [] ==> Chain(fwd, bwd, startId, endId, path)
    ensures startId == endId ==> path == [startId]
    ensures path == [] ==> endId !in Steps(fwd, u, startId, {}) || startId !in Steps(bwd, u, endId, {})
  {
    var qF, qB := [startId], [endId];
    var visF: map<string, seq<string>> := map[startId := [startId]];
    var visB: map<string, seq<string>> := map[endId := [endId]];
    ghost var expF: set<string> := {};
    ghost var expB: set<string> := {};
    SideInit(fwd, startId, u);
    SideInit(bwd, endId, u);
    path := [];
    while |qF| > 0 && |qB| > 0
      invariant path == []
      invariant SearchOk(fwd, bwd, u, startId, endId, visF, qF, expF, visB, qB, expB)
      invariant startId == endId ==> qF == [startId] && visB == map[endId := [endId]]
      decreases |u - visF.Keys| + |u - visB.Keys| + |qF| + |qB|
    {
      path, visF, qF, expF := ForwardTurn(fwd, bwd, u, adj, techMap, startId, endId, visF, qF, expF, visB, qB, expB);
      if path != [] {
        break;
      }
      path, visB, qB, expB := BackwardTurn(fwd, bwd, u, adj, techMap, startId, endId, visF, qF, expF, visB, qB, expB);
      if path != [] {
        break;
      }
    }
    if path == [] {
      if |qF| == 0 {
        ExhaustedSide(fwd, startId, u, visF, expF);
      } else {
        ExhaustedSide(bwd, endId, u, visB, expB);
      }
    }
  }

  /** `calculateShortestPath`; the path it finds is returned beside the
      nodes and links. */
  method CalculateShortestPath(startId: string, endId: string, techs: seq<Tech>)
    returns (path: seq<string>, g: Subgraph)
    ensures g == Induced(techs, set x | x in path)
    ensures path != [] ==> PathShape(techs, startId, endId, path)
    ensures startId == endId ==> path == [startId]
    ensures path == [] ==> g.nodes == [] && g.links == []
    ensures path == [] ==>
      endId !in Steps(Forward(techs), Nodes(techs) + {startId, endId}, startId, {}) ||
      startId !in Steps(Backward(techs), Nodes(techs) + {startId, endId}, endId, {})
  {
    var techMap := IndexTechs(techs);
    var adj := BuildAdjacency(techs);
    ghost var u := Nodes(techs) + {startId, endId};
    NeighboursClosed(techs, u);
    assert forall x :: ForwardIn(adj, techMap, x) == Forward(techs)(x);
    assert forall x :: BackwardIn(adj, techMap, x) == Backward(techs)(x);
    path := Search(Forward(techs), Backward(techs), u, adj, techMap, startId, endId);
    if path != [] {
      ChainShape(techs, startId, endId, path);
    }
    var ids := set x | x in path;
    var nodes := WithIds(techs, ids);
    var links := CollectLinks(nodes, ids);
    g := Subgraph(nodes, links);
  }
}
