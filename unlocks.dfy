/** The reverse-unlock entries and the "group by type, sort, format" step
    that scripts/reverse_unlock_parser.py (`format_unlocks_for_tech`) and
    update/create_tech_json_new.py (`extract_unlock_details`,
    `merge_unlock_details_with_reverse`) share. */
module Unlocks {
  import opened Wrappers
  import opened Seqs
  import opened Text

  /** One reverse-unlock entry `{'type': ..., 'id': ..., 'name': ...}`. */
  datatype UnlockEntry = UnlockEntry(kind: string, id: string, name: string)

  /** The names of the entries of one type, in entry order. */
  function NamesOfKind(entries: seq<UnlockEntry>, kind: string): (r: seq<string>)
    ensures |r| <= |entries|
  {
    if |entries| == 0 then []
    else
      var last := entries[|entries| - 1];
      NamesOfKind(entries[..|entries| - 1], kind) + (if last.kind == kind then [last.name] else [])
  }

  /** A type that some entry has has names. */
  lemma {:induction false} NamesOfKindPresent(entries: seq<UnlockEntry>, i: nat)
    requires i < |entries|
    ensures |NamesOfKind(entries, entries[i].kind)| > 0
  {
    if i < |entries| - 1 {
      NamesOfKindPresent(entries[..|entries| - 1], i);
    }
  }

  /** A `defaultdict(list)` that starts as `init` after
      `by_type[e['type']].append(e['name'])` for each entry. */
  function Grouped(init: Assoc<seq<string>>, entries: seq<UnlockEntry>): Assoc<seq<string>>
  {
    if |entries| == 0 then init
    else
      var last := entries[|entries| - 1];
      AppendAt(Grouped(init, entries[..|entries| - 1]), last.kind, last.name)
  }

  /** Grouping at least one entry gives at least one group. */
  lemma GroupedNonEmpty(init: Assoc<seq<string>>, entries: seq<UnlockEntry>)
    requires |entries| > 0
    ensures |Grouped(init, entries)| > 0
  {
    var last := entries[|entries| - 1];
    assert Get(Grouped(init, entries), last.kind).Some?;
  }

  /** Appending under a key keeps the keys distinct. */
  lemma AppendAtNoDups(a: Assoc<seq<string>>, k: string, x: string)
    requires NoDups(Keys(a))
    ensures NoDups(Keys(AppendAt(a, k, x)))
  {
    var r := AppendAt(a, k, x);
    if !HasKey(a, k) {
      forall i, j | 0 <= i < j < |Keys(r)| ensures Keys(r)[i] != Keys(r)[j] {
        if j == |Keys(a)| {
          assert Keys(r)[i] == Keys(a)[i];
        }
      }
    }
  }

  /** Grouping appends, under each type, the names of that type's entries in
      order; a type without entries keeps what it had; no key is repeated. */
  lemma {:induction false} GroupedSpec(init: Assoc<seq<string>>, entries: seq<UnlockEntry>)
    requires NoDups(Keys(init))
    ensures NoDups(Keys(Grouped(init, entries)))
    ensures forall k :: Get(Grouped(init, entries), k) == GroupedValue(init, entries, k)
  {
    if |entries| > 0 {
      var init' := entries[..|entries| - 1];
      var last := entries[|entries| - 1];
      GroupedSpec(init, init');
      AppendAtNoDups(Grouped(init, init'), last.kind, last.name);
      forall k ensures Get(Grouped(init, entries), k) == GroupedValue(init, entries, k) {
        GroupedStep(init, entries, k);
      }
    }
  }

  /** What grouping stores under `k`. */
  function GroupedValue(init: Assoc<seq<string>>, entries: seq<UnlockEntry>, k: string): Option<seq<string>>
  {
    if |NamesOfKind(entries, k)| == 0 then Get(init, k)
    else Some(Get(init, k).GetOr([]) + NamesOfKind(entries, k))
  }

  lemma GroupedStep(init: Assoc<seq<string>>, entries: seq<UnlockEntry>, k: string)
    requires |entries| > 0
    requires Get(Grouped(init, entries[..|entries| - 1]), k) == GroupedValue(init, entries[..|entries| - 1], k)
    ensures Get(Grouped(init, entries), k) == GroupedValue(init, entries, k)
  {
    var init' := entries[..|entries| - 1];
    var last := entries[|entries| - 1];
    assert Grouped(init, entries) == AppendAt(Grouped(init, init'), last.kind, last.name);
    if k == last.kind {
      GroupedStepSame(init, entries, Grouped(init, init'), k);
    } else {
      assert NamesOfKind(entries, k) == NamesOfKind(init', k);
    }
  }

  lemma GroupedStepSame(init: Assoc<seq<string>>, entries: seq<UnlockEntry>, g: Assoc<seq<string>>, k: string)
    requires |entries| > 0 && k == entries[|entries| - 1].kind
    requires Get(g, k) == GroupedValue(init, entries[..|entries| - 1], k)
    ensures Get(AppendAt(g, k, entries[|entries| - 1].name), k) == GroupedValue(init, entries, k)
  {
    var last := entries[|entries| - 1];
    var names := NamesOfKind(entries[..|entries| - 1], k);
    var base := Get(init, k).GetOr([]);
    assert NamesOfKind(entries, k) == names + [last.name];
    if |names| == 0 {
      assert base + names == base;
    }
    assert Get(g, k).GetOr([]) == base + names;
    assert base + names + [last.name] == base + (names + [last.name]);
  }

  /** The grouping loop. */
  method GroupByType(init: Assoc<seq<string>>, entries: seq<UnlockEntry>) returns (byType: Assoc<seq<string>>)
    ensures byType == Grouped(init, entries)
  {
    byType := init;
    for i := 0 to |entries|
      invariant byType == Grouped(init, entries[..i])
    {
      assert entries[..i + 1][..i] == entries[..i];
      byType := AppendAt(byType, entries[i].kind, entries[i].name);
    }
    assert entries[..|entries|] == entries;
  }

  /** One formatted group: `"T: n"` for one name, `"Ts: a, b"` for several. */
  function Part(kind: string, names: seq<string>): string
  {
    if |names| == 1 then kind + ": " + names[0] else kind + "s: " + Join(names, ", ")
  }

  /** The order of `sorted(by_type.items())`: by type, which is unique per item. */
  function KindLe(): ((string, seq<string>), (string, seq<string>)) -> bool
  {
    (a: (string, seq<string>), b: (string, seq<string>)) => Below(a.0, b.0)
  }

  lemma KindLeTotalPreorder()
    ensures TotalPreorder(KindLe())
  {
    forall a: (string, seq<string>), b: (string, seq<string>) ensures KindLe()(a, b) || KindLe()(b, a) {
      BelowTotal(a.0, b.0);
    }
    forall a: (string, seq<string>), b: (string, seq<string>), c: (string, seq<string>)
      | KindLe()(a, b) && KindLe()(b, c)
      ensures KindLe()(a, c)
    {
      BelowTransitive(a.0, b.0, c.0);
    }
  }

  /** `sorted(by_type.items())`. */
  function SortedGroups(g: Assoc<seq<string>>): (r: Assoc<seq<string>>)
    ensures SortedBy(r, KindLe()) && multiset(r) == multiset(g)
  {
    KindLeTotalPreorder();
    SortBySorted(g, KindLe());
    SortBy(g, KindLe())
  }

  /** The formatted groups in type order. */
  function Parts(g: Assoc<seq<string>>): (r: seq<string>)
    ensures |r| == |g|
  {
    var s := SortedGroups(g);
    assert |s| == |multiset(s)| == |multiset(g)| == |g|;
    MapSeq(s, (p: (string, seq<string>)) => Part(p.0, p.1))
  }

  /** The formatting loop over the sorted groups. */
  method FormatParts(g: Assoc<seq<string>>) returns (parts: seq<string>)
    ensures parts == Parts(g)
  {
    var items := SortedGroups(g);
    parts := [];
    for i := 0 to |items|
      invariant parts == MapSeq(items[..i], (p: (string, seq<string>)) => Part(p.0, p.1))
    {
      parts := parts + [Part(items[i].0, items[i].1)];
    }
    assert items[..|items|] == items;
  }

  /** In a dictionary without repeated keys, a stored pair is what lookup finds. */
  lemma {:induction false} GetStoredPair<V>(a: Assoc<V>, k: string, v: V)
    requires NoDups(Keys(a)) && (k, v) in a
    ensures Get(a, k) == Some(v)
  {
    if a[0] != (k, v) {
      assert (k, v) in a[1..];
      var i :| 0 <= i < |a[1..]| && a[1..][i] == (k, v);
      assert Keys(a)[0] != Keys(a)[i + 1];
      assert Keys(a[1..]) == Keys(a)[1..];
      GetStoredPair(a[1..], k, v);
    }
  }

  /** The sorted items of a dictionary without repeated keys: each one a
      stored pair, in strictly increasing key order, one for each key. */
  lemma SortedGroupsOf(g: Assoc<seq<string>>)
    requires NoDups(Keys(g))
    ensures var s := SortedGroups(g);
      && (forall i :: 0 <= i < |s| ==> Get(g, s[i].0) == Some(s[i].1))
      && (forall i, j :: 0 <= i < j < |s| ==> Below(s[i].0, s[j].0) && s[i].0 != s[j].0)
      && (forall k :: HasKey(g, k) ==> exists i :: 0 <= i < |s| && s[i].0 == k)
  {
    var s := SortedGroups(g);
    SortedGroupsStored(g, s);
    SortedGroupsOrdered(g, s);
    SortedGroupsComplete(g, s);
  }

  lemma SortedGroupsStored(g: Assoc<seq<string>>, s: Assoc<seq<string>>)
    requires NoDups(Keys(g)) && multiset(s) == multiset(g)
    ensures forall i :: 0 <= i < |s| ==> Get(g, s[i].0) == Some(s[i].1)
  {
    forall i | 0 <= i < |s| ensures Get(g, s[i].0) == Some(s[i].1) {
      assert s[i] in multiset(s);
      GetStoredPair(g, s[i].0, s[i].1);
    }
  }

  lemma SortedGroupsOrdered(g: Assoc<seq<string>>, s: Assoc<seq<string>>)
    requires NoDups(Keys(g)) && multiset(s) == multiset(g) && SortedBy(s, KindLe())
    ensures forall i, j :: 0 <= i < j < |s| ==> Below(s[i].0, s[j].0) && s[i].0 != s[j].0
  {
    forall i, j | 0 <= i < j < |s| ensures Below(s[i].0, s[j].0) && s[i].0 != s[j].0 {
      assert KindLe()(s[i], s[j]);
      SortedDistinct(g, s, i, j);
    }
  }

  lemma SortedGroupsComplete(g: Assoc<seq<string>>, s: Assoc<seq<string>>)
    requires multiset(s) == multiset(g)
    ensures forall k :: HasKey(g, k) ==> exists i :: 0 <= i < |s| && s[i].0 == k
  {
    forall k | HasKey(g, k) ensures exists i :: 0 <= i < |s| && s[i].0 == k {
      var ki :| 0 <= ki < |Keys(g)| && Keys(g)[ki] == k;
      assert g[ki] in multiset(g);
      assert g[ki] in multiset(s);
      var i :| 0 <= i < |s| && s[i] == g[ki];
    }
  }

  lemma SortedDistinct(g: Assoc<seq<string>>, s: Assoc<seq<string>>, i: nat, j: nat)
    requires NoDups(Keys(g)) && multiset(s) == multiset(g)
    requires i < j < |s|
    ensures s[i].0 != s[j].0
  {
    assert s[i] in multiset(s) && s[j] in multiset(s);
    GetStoredPair(g, s[i].0, s[i].1);
    GetStoredPair(g, s[j].0, s[j].1);
    NoDupsCount(g, s[i]);
    SingleAtOnePosition(s, i, j);
  }

  /** An element counted once sits at one position only. */
  lemma SingleAtOnePosition<T>(s: seq<T>, i: nat, j: nat)
    requires i < j < |s| && multiset(s)[s[i]] <= 1
    ensures s[i] != s[j]
  {
    assert s == s[..j] + [s[j]] + s[j + 1..];
    assert s[..j][i] == s[i];
    assert multiset(s[..j])[s[i]] >= 1;
    assert multiset(s)[s[i]] == multiset(s[..j])[s[i]] + multiset([s[j]])[s[i]] + multiset(s[j + 1..])[s[i]];
  }

  /** The formatted description of a list of entries: its groups in strictly
      increasing type order, each holding exactly that type's names in entry
      order, and one group for each type the entries use. */
  lemma EntriesFormatted(entries: seq<UnlockEntry>)
    ensures var s := SortedGroups(Grouped([], entries));
      && |Parts(Grouped([], entries))| == |s|
      && (forall i :: 0 <= i < |s| ==> Parts(Grouped([], entries))[i] == Part(s[i].0, NamesOfKind(entries, s[i].0)))
      && (forall i :: 0 <= i < |s| ==> |NamesOfKind(entries, s[i].0)| > 0)
      && (forall i, j :: 0 <= i < j < |s| ==> Below(s[i].0, s[j].0) && s[i].0 != s[j].0)
      && (forall e :: e in entries ==> exists i :: 0 <= i < |s| && s[i].0 == e.kind)
  {
    var g := Grouped([], entries);
    var s := SortedGroups(g);
    GroupedSpec([], entries);
    SortedGroupsOf(g);
    GroupsNames(entries, g, s);
    GroupsComplete(entries, g, s);
    PartsOf(g, s);
  }

  /** Each sorted group holds exactly its type's names, and there are some. */
  lemma GroupsNames(entries: seq<UnlockEntry>, g: Assoc<seq<string>>, s: Assoc<seq<string>>)
    requires forall k :: Get(g, k) == GroupedValue([], entries, k)
    requires forall i :: 0 <= i < |s| ==> Get(g, s[i].0) == Some(s[i].1)
    ensures forall i :: 0 <= i < |s| ==> s[i].1 == NamesOfKind(entries, s[i].0) && |NamesOfKind(entries, s[i].0)| > 0
  {
    forall i | 0 <= i < |s| ensures s[i].1 == NamesOfKind(entries, s[i].0) && |NamesOfKind(entries, s[i].0)| > 0 {
      var names := NamesOfKind(entries, s[i].0);
      assert Get(g, s[i].0) == GroupedValue([], entries, s[i].0);
      assert [] + names == names;
    }
  }

  /** Every entry's type has a sorted group. */
  lemma GroupsComplete(entries: seq<UnlockEntry>, g: Assoc<seq<string>>, s: Assoc<seq<string>>)
    requires forall k :: Get(g, k) == GroupedValue([], entries, k)
    requires forall k :: HasKey(g, k) ==> exists i :: 0 <= i < |s| && s[i].0 == k
    ensures forall e :: e in entries ==> exists i :: 0 <= i < |s| && s[i].0 == e.kind
  {
    forall e | e in entries ensures exists i :: 0 <= i < |s| && s[i].0 == e.kind {
      var k :| 0 <= k < |entries| && entries[k] == e;
      NamesOfKindPresent(entries, k);
      assert Get(g, e.kind) == GroupedValue([], entries, e.kind);
      assert HasKey(g, e.kind);
    }
  }

  /** The parts are the sorted groups, formatted one by one. */
  lemma PartsOf(g: Assoc<seq<string>>, s: Assoc<seq<string>>)
    requires s == SortedGroups(g)
    ensures |Parts(g)| == |s|
    ensures forall i :: 0 <= i < |s| ==> Parts(g)[i] == Part(s[i].0, s[i].1)
  {
  }

  /** A dictionary without repeated keys holds each pair at most once. */
  lemma {:induction false} NoDupsCount<V>(a: Assoc<V>, p: (string, V))
    requires NoDups(Keys(a))
    ensures multiset(a)[p] <= 1
  {
    if |a| > 0 {
      assert a == [a[0]] + a[1..];
      assert Keys(a[1..]) == Keys(a)[1..];
      NoDupsCount(a[1..], p);
      if a[0] == p {
        forall i | 0 <= i < |a[1..]| ensures a[1..][i] != p {
          assert Keys(a)[0] != Keys(a)[i + 1];
        }
      }
    }
  }
}
