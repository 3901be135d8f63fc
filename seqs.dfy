/** Sequence utilities: filtering (`Array.prototype.filter`, list
    comprehensions), subsequences, de-duplication, insertion-ordered
    dictionaries (Python `dict` and JavaScript objects are association lists
    whose keys keep their first insertion position) and a stable sort (Python's
    `sorted` / `list.sort`). */
module Seqs {
  import opened Wrappers
  import Text

  /** `s.filter(p)`: the elements satisfying `p`, in their original order. */
  function Filter<T(!new)>(s: seq<T>, p: T -> bool): (r: seq<T>)
    ensures |r| <= |s|
    ensures forall x :: x in r <==> x in s && p(x)
  {
    if |s| == 0 then [] else (if p(s[0]) then [s[0]] else []) + Filter(s[1..], p)
  }

  lemma {:induction false} FilterAppend<T(!new)>(a: seq<T>, b: seq<T>, p: T -> bool)
    ensures Filter(a + b, p) == Filter(a, p) + Filter(b, p)
  {
    if |a| == 0 {
      assert a + b == b;
    } else {
      assert (a + b)[1..] == a[1..] + b;
      FilterAppend(a[1..], b, p);
    }
  }

  /** Extending a prefix of `s` by its next element. */
  lemma AppendSliceSnoc<T>(pre: seq<T>, s: seq<T>, j: nat)
    requires j < |s|
    ensures pre + s[..j + 1] == (pre + s[..j]) + [s[j]]
  {
    assert s[..j + 1] == s[..j] + [s[j]];
  }

  /** Filtering one more element of a prefix. */
  lemma FilterSnoc<T(!new)>(s: seq<T>, i: nat, p: T -> bool)
    requires i < |s|
    ensures Filter(s[..i + 1], p) == Filter(s[..i], p) + (if p(s[i]) then [s[i]] else [])
  {
    assert s[..i + 1] == s[..i] + [s[i]];
    FilterAppend(s[..i], [s[i]], p);
    assert Filter([s[i]], p) == (if p(s[i]) then [s[i]] else []) + Filter([s[i]][1..], p);
  }

  /** `a` is obtained from `b` by deleting elements. */
  predicate IsSubseq<T(==)>(a: seq<T>, b: seq<T>)
    decreases |b|
  {
    |a| == 0 || (|b| > 0 && ((a[0] == b[0] && IsSubseq(a[1..], b[1..])) || IsSubseq(a, b[1..])))
  }

  lemma {:induction false} IsSubseqReflexive<T>(s: seq<T>)
    ensures IsSubseq(s, s)
  {
    if |s| > 0 {
      IsSubseqReflexive(s[1..]);
    }
  }

  lemma {:induction false} IsSubseqTransitive<T>(a: seq<T>, b: seq<T>, c: seq<T>)
    requires IsSubseq(a, b) && IsSubseq(b, c)
    ensures IsSubseq(a, c)
    decreases |a| + |b| + |c|
  {
    if |a| > 0 {
      if IsSubseq(b, c[1..]) {
        IsSubseqTransitive(a, b, c[1..]);
      } else if a[0] == b[0] && IsSubseq(a[1..], b[1..]) {
        IsSubseqTransitive(a[1..], b[1..], c[1..]);
      } else {
        IsSubseqTransitive(a, b[1..], c[1..]);
      }
    }
  }

  /** `s` backwards (`[...s].reverse()`). */
  function Reversed<T>(s: seq<T>): (r: seq<T>)
    ensures |r| == |s| && forall i :: 0 <= i < |s| ==> r[i] == s[|s| - 1 - i]
  {
    seq(|s|, i requires 0 <= i < |s| => s[|s| - 1 - i])
  }

  /** A filter keeps the input order: its result is a subsequence of the input. */
  lemma {:induction false} FilterIsSubseq<T(!new)>(s: seq<T>, p: T -> bool)
    ensures IsSubseq(Filter(s, p), s)
  {
    if |s| > 0 {
      FilterIsSubseq(s[1..], p);
      if p(s[0]) {
        assert Filter(s, p) == [s[0]] + Filter(s[1..], p);
        assert Filter(s, p)[1..] == Filter(s[1..], p);
      } else {
        assert Filter(s, p) == Filter(s[1..], p);
      }
    }
  }

  /** Two filters in a row are one filter by the conjunction. */
  lemma {:induction false} FilterFuse<T(!new)>(s: seq<T>, p: T -> bool, q: T -> bool)
    ensures Filter(Filter(s, p), q) == Filter(s, x => p(x) && q(x))
  {
    if |s| > 0 {
      FilterFuse(s[1..], p, q);
      var head := if p(s[0]) then [s[0]] else [];
      FilterAppend(head, Filter(s[1..], p), q);
    }
  }

  /** Filters by predicates that agree everywhere agree. */
  lemma {:induction false} FilterExt<T(!new)>(s: seq<T>, p: T -> bool, q: T -> bool)
    requires forall x :: p(x) == q(x)
    ensures Filter(s, p) == Filter(s, q)
  {
    if |s| > 0 {
      FilterExt(s[1..], p, q);
    }
  }

  /** The order of two filters does not matter. */
  lemma FilterCommute<T(!new)>(s: seq<T>, p: T -> bool, q: T -> bool)
    ensures Filter(Filter(s, p), q) == Filter(Filter(s, q), p)
  {
    FilterFuse(s, p, q);
    FilterFuse(s, q, p);
    FilterExt(s, x => p(x) && q(x), x => q(x) && p(x));
  }

  /** Filtering twice by the same predicate is filtering once. */
  lemma FilterIdempotent<T(!new)>(s: seq<T>, p: T -> bool)
    ensures Filter(Filter(s, p), p) == Filter(s, p)
  {
    FilterFuse(s, p, p);
    FilterExt(s, x => p(x) && p(x), p);
  }

  /** Filtering by a stronger predicate keeps a subsequence of what the
      weaker one keeps. */
  lemma FilterStronger<T(!new)>(s: seq<T>, p: T -> bool, q: T -> bool)
    requires forall x :: p(x) ==> q(x)
    ensures IsSubseq(Filter(s, p), Filter(s, q))
  {
    FilterFuse(s, q, p);
    FilterExt(s, x => q(x) && p(x), p);
    FilterIsSubseq(Filter(s, q), p);
  }

  /** A stronger predicate keeps no more elements. */
  lemma {:induction false} FilterLengthMono<T(!new)>(s: seq<T>, p: T -> bool, q: T -> bool)
    requires forall x :: p(x) ==> q(x)
    ensures |Filter(s, p)| <= |Filter(s, q)|
  {
    if |s| > 0 {
      FilterLengthMono(s[1..], p, q);
    }
  }

  /** A filter keeps every copy of an element that passes and none of one that fails. */
  lemma {:induction false} FilterMultiset<T(!new)>(s: seq<T>, p: T -> bool, x: T)
    ensures multiset(Filter(s, p))[x] == if p(x) then multiset(s)[x] else 0
  {
    if |s| > 0 {
      FilterMultiset(s[1..], p, x);
      assert s == [s[0]] + s[1..];
    }
  }

  /** A filter and its complement split the sequence: every element goes to
      exactly one side. */
  lemma FilterPartition<T(!new)>(s: seq<T>, p: T -> bool, q: T -> bool)
    requires forall x :: q(x) == !p(x)
    ensures multiset(Filter(s, p)) + multiset(Filter(s, q)) == multiset(s)
    ensures |Filter(s, p)| + |Filter(s, q)| == |s|
  {
    forall x ensures multiset(Filter(s, p))[x] + multiset(Filter(s, q))[x] == multiset(s)[x] {
      FilterMultiset(s, p, x);
      FilterMultiset(s, q, x);
    }
    assert multiset(Filter(s, p)) + multiset(Filter(s, q)) == multiset(s);
    assert |multiset(Filter(s, p)) + multiset(Filter(s, q))| == |multiset(s)|;
  }

  /** A filter that every element passes is the identity. */
  lemma {:induction false} FilterAll<T(!new)>(s: seq<T>, p: T -> bool)
    requires forall i :: 0 <= i < |s| ==> p(s[i])
    ensures Filter(s, p) == s
  {
    if |s| > 0 {
      FilterAll(s[1..], p);
    }
  }

  /** `s.map(f)`. */
  function MapSeq<T, U>(s: seq<T>, f: T -> U): (r: seq<U>)
    ensures |r| == |s| && forall i :: 0 <= i < |s| ==> r[i] == f(s[i])
  {
    seq(|s|, i requires 0 <= i < |s| => f(s[i]))
  }

  predicate NoDups<T(==)>(s: seq<T>)
  {
    forall i, j :: 0 <= i < j < |s| ==> s[i] != s[j]
  }

  /** The elements of a sequence, as a set. */
  function Elems<T>(s: seq<T>): set<T>
  {
    set x | x in s
  }

  /** `list(s)` of a set: each element once, in an order the model leaves open
      (Python's set iteration order depends on hashing). */
  method ListOfSet<T(==)>(s: set<T>) returns (r: seq<T>)
    ensures NoDups(r) && Elems(r) == s
  {
    r := [];
    var rest := s;
    while rest != {}
      invariant NoDups(r) && Elems(r) + rest == s && Elems(r) !! rest
      decreases |rest|
    {
      var x :| x in rest;
      r := r + [x];
      rest := rest - {x};
    }
  }

  /** A list has no repeats exactly when it holds each element at most once. */
  lemma {:induction false} NoDupsMultiset(s: seq<string>)
    ensures NoDups(s) <==> forall x :: multiset(s)[x] <= 1
  {
    if |s| > 0 {
      var t := s[1..];
      NoDupsMultiset(t);
      assert s == [s[0]] + t;
      assert multiset(s) == multiset{s[0]} + multiset(t);
      assert NoDups(s) <==> s[0] !in t && NoDups(t) by {
        if NoDups(s) {
          forall i, j | 0 <= i < j < |t| ensures t[i] != t[j] {
            assert t[i] == s[i + 1] && t[j] == s[j + 1];
          }
        }
        if s[0] !in t && NoDups(t) {
          forall i, j | 0 <= i < j < |s| ensures s[i] != s[j] {
            if i > 0 {
              assert s[i] == t[i - 1] && s[j] == t[j - 1];
            } else {
              assert s[j] == t[j - 1];
            }
          }
        }
      }
      assert s[0] in t <==> multiset(t)[s[0]] > 0;
      if forall x :: multiset(s)[x] <= 1 {
        assert multiset(s)[s[0]] == multiset(t)[s[0]] + 1;
        forall x ensures multiset(t)[x] <= 1 {
          assert multiset(s)[x] >= multiset(t)[x];
        }
      }
    }
  }

  /** A reordering of a list without repeats has none either and the same elements. */
  lemma NoDupsPermutation(a: seq<string>, b: seq<string>)
    requires NoDups(a) && multiset(a) == multiset(b)
    ensures NoDups(b) && forall x :: x in a <==> x in b
  {
    forall x ensures x in a <==> x in b {
      assert x in a <==> x in multiset(a);
    }
    NoDupsMultiset(a);
    NoDupsMultiset(b);
  }

  /** A list without repeats has as many elements as its set of elements. */
  lemma {:induction false} NoDupsCard(a: seq<string>)
    requires NoDups(a)
    ensures |set t | t in a| == |a|
  {
    if |a| > 0 {
      var init := a[..|a| - 1];
      NoDupsCard(init);
      assert (set t | t in a) == (set t | t in init) + {a[|a| - 1]};
      assert a[|a| - 1] !in init;
    }
  }

  /** The elements of `s` in first-occurrence order, each once (the
      `if x not in out: out.append(x)` idiom). */
  function Dedupe<T(==, !new)>(s: seq<T>): (r: seq<T>)
    ensures NoDups(r)
    ensures forall x :: x in r <==> x in s
  {
    if |s| == 0 then []
    else
      var d := Dedupe(s[..|s| - 1]);
      assert forall x :: x in s <==> x in s[..|s| - 1] || x == s[|s| - 1];
      if s[|s| - 1] in d then d else d + [s[|s| - 1]]
  }

  /** An insertion-ordered dictionary from strings. */
  type Assoc<V> = seq<(string, V)>

  function Keys<V>(a: Assoc<V>): (r: seq<string>)
    ensures |r| == |a| && forall i :: 0 <= i < |a| ==> r[i] == a[i].0
  {
    if |a| == 0 then [] else [a[0].0] + Keys(a[1..])
  }

  predicate HasKey<V>(a: Assoc<V>, k: string)
  {
    k in Keys(a)
  }

  /** `d.get(k)`: the value stored under `k`. */
  function Get<V>(a: Assoc<V>, k: string): (r: Option<V>)
    ensures r.Some? <==> HasKey(a, k)
  {
    if |a| == 0 then None
    else if a[0].0 == k then Some(a[0].1)
    else Get(a[1..], k)
  }

  /** A value found under `k` is one of the stored pairs. */
  lemma {:induction false} GetStored<V>(a: Assoc<V>, k: string)
    requires HasKey(a, k)
    ensures (k, Get(a, k).value) in a
  {
    if a[0].0 != k {
      GetStored(a[1..], k);
    }
  }

  /** A pair put in front of a dictionary: its tail and its keys. */
  lemma ConsPair<V>(x: (string, V), rest: Assoc<V>)
    ensures ([x] + rest)[1..] == rest
    ensures Keys([x] + rest) == [x.0] + Keys(rest)
  {
    assert ([x] + rest)[1..] == rest;
  }

  /** `d[k] = v`: an existing key keeps its position, a new key goes last. */
  function Put<V>(a: Assoc<V>, k: string, v: V): (r: Assoc<V>)
    ensures Get(r, k) == Some(v)
    ensures Keys(r) == if HasKey(a, k) then Keys(a) else Keys(a) + [k]
  {
    if |a| == 0 then [(k, v)]
    else if a[0].0 == k then
      ConsPair((k, v), a[1..]);
      [(k, v)] + a[1..]
    else
      var rest := Put(a[1..], k, v);
      ConsPair(a[0], rest);
      assert HasKey(a, k) == HasKey(a[1..], k);
      [a[0]] + rest
  }

  /** Storing under one key leaves every other key's value alone. */
  lemma {:induction false} PutOther<V>(a: Assoc<V>, k: string, v: V, k': string)
    requires k' != k
    ensures Get(Put(a, k, v), k') == Get(a, k')
  {
    if |a| > 0 && a[0].0 != k {
      PutOther(a[1..], k, v, k');
      assert Put(a, k, v)[1..] == Put(a[1..], k, v);
    } else if |a| > 0 {
      assert Put(a, k, v)[1..] == a[1..];
    }
  }

  /** `d.update(kw)` with keyword arguments, whose keys are distinct: each
      given key takes its given value, every other key keeps its own. */
  function Update<V>(a: Assoc<V>, kw: Assoc<V>): (r: Assoc<V>)
    requires NoDups(Keys(kw))
    ensures forall k :: Get(r, k) == if HasKey(kw, k) then Get(kw, k) else Get(a, k)
    decreases |kw|
  {
    if |kw| == 0 then a
    else
      assert Keys(kw[1..]) == Keys(kw)[1..];
      var p := Put(a, kw[0].0, kw[0].1);
      var r := Update(p, kw[1..]);
      forall k | true
        ensures Get(r, k) == if HasKey(kw, k) then Get(kw, k) else Get(a, k)
      {
        UpdateStep(a, kw, k, Get(r, k));
      }
      r
  }

  /** One key after the first pair of `kw` is stored and the rest are given. */
  lemma UpdateStep<V>(a: Assoc<V>, kw: Assoc<V>, k: string, got: Option<V>)
    requires |kw| > 0 && NoDups(Keys(kw))
    requires got == if HasKey(kw[1..], k) then Get(kw[1..], k) else Get(Put(a, kw[0].0, kw[0].1), k)
    ensures got == if HasKey(kw, k) then Get(kw, k) else Get(a, k)
  {
    assert Keys(kw) == [kw[0].0] + Keys(kw[1..]);
    if k != kw[0].0 {
      PutOther(a, kw[0].0, kw[0].1, k);
    } else {
      assert !HasKey(kw[1..], k);
    }
  }

  lemma AppendAssoc<T>(a: seq<T>, b: seq<T>, c: seq<T>)
    ensures (a + b) + c == a + (b + c)
  {
  }

  /** `for k, v in kvs: d[k] = v`. */
  function PutAll<V>(a: Assoc<V>, kvs: seq<(string, V)>): Assoc<V>
    decreases |kvs|
  {
    if |kvs| == 0 then a
    else
      var n := |kvs| - 1;
      Put(PutAll(a, kvs[..n]), kvs[n].0, kvs[n].1)
  }

  lemma PutAllSnoc<V>(a: Assoc<V>, kvs: seq<(string, V)>, k: string, v: V)
    ensures PutAll(a, kvs + [(k, v)]) == Put(PutAll(a, kvs), k, v)
  {
    assert (kvs + [(k, v)])[..|kvs|] == kvs;
  }

  /** Storing two runs of pairs one after the other is storing their concatenation. */
  lemma {:induction false} PutAllAppend<V>(a: Assoc<V>, x: seq<(string, V)>, y: seq<(string, V)>)
    ensures PutAll(PutAll(a, x), y) == PutAll(a, x + y)
    decreases |y|
  {
    if |y| > 0 {
      var n := |y| - 1;
      var k, v := y[n].0, y[n].1;
      assert y == y[..n] + [(k, v)] by {
        AppendSliceSnoc([], y, n);
      }
      assert x + y == (x + y[..n]) + [(k, v)] by {
        AppendSliceSnoc(x, y, n);
      }
      calc {
        PutAll(PutAll(a, x), y);
      == { PutAllSnoc(PutAll(a, x), y[..n], k, v); }
        Put(PutAll(PutAll(a, x), y[..n]), k, v);
      == { PutAllAppend(a, x, y[..n]); }
        Put(PutAll(a, x + y[..n]), k, v);
      == { PutAllSnoc(a, x + y[..n], k, v); }
        PutAll(a, x + y);
      }
    } else {
      assert x + y == x;
    }
  }

  /** After storing the pairs, a key is present iff it was present or was stored. */
  lemma {:induction false} PutAllHas<V>(a: Assoc<V>, kvs: seq<(string, V)>, k: string)
    ensures HasKey(PutAll(a, kvs), k) <==> HasKey(a, k) || k in Keys(kvs)
    decreases |kvs|
  {
    if |kvs| > 0 {
      var n := |kvs| - 1;
      PutAllUnfold(a, kvs);
      KeysLast(kvs);
      PutAllHas(a, kvs[..n], k);
    }
  }

  lemma KeysLast<V>(kvs: seq<(string, V)>)
    requires |kvs| > 0
    ensures Keys(kvs) == Keys(kvs[..|kvs| - 1]) + [kvs[|kvs| - 1].0]
  {
    var n := |kvs| - 1;
    var init := kvs[..n];
    var r := Keys(init) + [kvs[n].0];
    forall i | 0 <= i < |kvs| ensures r[i] == kvs[i].0 {
      if i < n { assert init[i] == kvs[i]; }
    }
    KeysOf(kvs, r);
  }

  /** The keys are the first components, in order. */
  lemma KeysOf<V>(a: Assoc<V>, r: seq<string>)
    requires |r| == |a| && forall i :: 0 <= i < |a| ==> r[i] == a[i].0
    ensures Keys(a) == r
  {
  }

  /** The last pair stored under a key gives its value. */
  lemma {:induction false} PutAllLast<V>(a: Assoc<V>, kvs: seq<(string, V)>, j: nat)
    requires j < |kvs| && forall l :: j < l < |kvs| ==> kvs[l].0 != kvs[j].0
    ensures Get(PutAll(a, kvs), kvs[j].0) == Some(kvs[j].1)
    decreases |kvs|
  {
    var n := |kvs| - 1;
    PutAllUnfold(a, kvs);
    if j < n {
      LastInPrefix(kvs, j, n);
      PutAllLast(a, kvs[..n], j);
      PutOther(PutAll(a, kvs[..n]), kvs[n].0, kvs[n].1, kvs[j].0);
    }
  }

  lemma PutAllUnfold<V>(a: Assoc<V>, kvs: seq<(string, V)>)
    requires |kvs| > 0
    ensures PutAll(a, kvs) == Put(PutAll(a, kvs[..|kvs| - 1]), kvs[|kvs| - 1].0, kvs[|kvs| - 1].1)
  {
  }

  /** A pair last for its key in `kvs` is last in any prefix holding it. */
  lemma LastInPrefix<V>(kvs: seq<(string, V)>, j: nat, n: nat)
    requires j < n <= |kvs| && forall l :: j < l < |kvs| ==> kvs[l].0 != kvs[j].0
    ensures |kvs[..n]| == n && kvs[..n][j] == kvs[j]
    ensures forall l :: j < l < n ==> kvs[..n][l].0 != kvs[..n][j].0
  {
  }

  /** A key never stored keeps its own value. */
  lemma {:induction false} PutAllUnstored<V>(a: Assoc<V>, kvs: seq<(string, V)>, k: string)
    requires k !in Keys(kvs)
    ensures Get(PutAll(a, kvs), k) == Get(a, k)
    decreases |kvs|
  {
    if |kvs| > 0 {
      var n := |kvs| - 1;
      PutAllUnfold(a, kvs);
      KeysLast(kvs);
      PutAllUnstored(a, kvs[..n], k);
      PutOther(PutAll(a, kvs[..n]), kvs[n].0, kvs[n].1, k);
    }
  }

  /** Storing keeps the keys distinct. */
  lemma PutNoDups<V>(a: Assoc<V>, k: string, v: V)
    requires NoDups(Keys(a))
    ensures NoDups(Keys(Put(a, k, v)))
  {
  }

  lemma {:induction false} PutAllNoDups<V>(a: Assoc<V>, kvs: seq<(string, V)>)
    requires NoDups(Keys(a))
    ensures NoDups(Keys(PutAll(a, kvs)))
    decreases |kvs|
  {
    if |kvs| > 0 {
      var n := |kvs| - 1;
      PutAllNoDups(a, kvs[..n]);
      PutNoDups(PutAll(a, kvs[..n]), kvs[n].0, kvs[n].1);
    }
  }

  /** `d[k].append(x)` on a `defaultdict(list)`. */
  function AppendAt<T>(a: Assoc<seq<T>>, k: string, x: T): (r: Assoc<seq<T>>)
    ensures Get(r, k) == Some(Get(a, k).GetOr([]) + [x])
    ensures forall k' :: k' != k ==> Get(r, k') == Get(a, k')
    ensures Keys(r) == if HasKey(a, k) then Keys(a) else Keys(a) + [k]
  {
    var r := Put(a, k, Get(a, k).GetOr([]) + [x]);
    forall k' | k' != k ensures Get(r, k') == Get(a, k') {
      PutOther(a, k, Get(a, k).GetOr([]) + [x], k');
    }
    r
  }

  /** Every pair of positions is in order. */
  predicate SortedBy<T>(s: seq<T>, le: (T, T) -> bool)
  {
    forall i, j :: 0 <= i < j < |s| ==> le(s[i], s[j])
  }

  ghost predicate TotalPreorder<T(!new)>(le: (T, T) -> bool)
  {
    && (forall a, b :: le(a, b) || le(b, a))
    && (forall a, b, c :: le(a, b) && le(b, c) ==> le(a, c))
  }

  /** Places `x` after the last element of `t` that is not above it. */
  function InsertSorted<T>(t: seq<T>, x: T, le: (T, T) -> bool): (r: seq<T>)
    ensures multiset(r) == multiset(t) + multiset{x}
  {
    if |t| == 0 then [x]
    else if le(t[|t| - 1], x) then t + [x]
    else
      assert t == t[..|t| - 1] + [t[|t| - 1]];
      InsertSorted(t[..|t| - 1], x, le) + [t[|t| - 1]]
  }

  /** A stable insertion sort: equal elements keep their relative order. */
  function SortBy<T>(s: seq<T>, le: (T, T) -> bool): (r: seq<T>)
    ensures multiset(r) == multiset(s)
  {
    if |s| == 0 then []
    else
      assert s == s[..|s| - 1] + [s[|s| - 1]];
      InsertSorted(SortBy(s[..|s| - 1], le), s[|s| - 1], le)
  }

  lemma {:induction false} InsertSortedSorted<T(!new)>(t: seq<T>, x: T, le: (T, T) -> bool)
    requires TotalPreorder(le) && SortedBy(t, le)
    ensures SortedBy(InsertSorted(t, x, le), le)
  {
    if |t| > 0 {
      var last := t[|t| - 1];
      if le(last, x) {
        forall i | 0 <= i < |t| ensures le(t[i], x) {
          if i < |t| - 1 {
            assert le(t[i], last);
          }
        }
        SortedSnoc(t, x, le);
      } else {
        var init := t[..|t| - 1];
        assert SortedBy(init, le);
        assert forall k :: 0 <= k < |init| ==> le(init[k], last) by {
          forall k | 0 <= k < |init| ensures le(init[k], last) {
            assert init[k] == t[k];
          }
        }
        InsertSortedSorted(init, x, le);
        InsertedBelow(init, x, last, le);
        SortedSnoc(InsertSorted(init, x, le), last, le);
      }
    }
  }

  /** A sorted sequence stays sorted with an element above all of it appended. */
  lemma SortedSnoc<T>(u: seq<T>, y: T, le: (T, T) -> bool)
    requires SortedBy(u, le) && forall i :: 0 <= i < |u| ==> le(u[i], y)
    ensures SortedBy(u + [y], le)
  {
    var v := u + [y];
    forall i, j | 0 <= i < j < |v| ensures le(v[i], v[j]) {
      assert v[i] == u[i];
      if j < |u| {
        assert v[j] == u[j];
      }
    }
  }

  /** Inserting an element below `last` into elements below `last` keeps
      them all below it. */
  lemma InsertedBelow<T(!new)>(init: seq<T>, x: T, last: T, le: (T, T) -> bool)
    requires TotalPreorder(le) && !le(last, x)
    requires forall k :: 0 <= k < |init| ==> le(init[k], last)
    ensures forall i :: 0 <= i < |InsertSorted(init, x, le)| ==> le(InsertSorted(init, x, le)[i], last)
  {
    var u := InsertSorted(init, x, le);
    forall i | 0 <= i < |u| ensures le(u[i], last) {
      assert u[i] in multiset(u);
      if u[i] != x {
        assert u[i] in multiset(init);
        var k :| 0 <= k < |init| && init[k] == u[i];
      }
    }
  }

  /** The sort orders its result and keeps its elements. */
  lemma {:induction false} SortBySorted<T(!new)>(s: seq<T>, le: (T, T) -> bool)
    requires TotalPreorder(le)
    ensures SortedBy(SortBy(s, le), le)
  {
    if |s| > 0 {
      SortBySorted(s[..|s| - 1], le);
      InsertSortedSorted(SortBy(s[..|s| - 1], le), s[|s| - 1], le);
    }
  }

  /** Python's string order on strings and on the keys of pairs. */
  function StringLe(): (string, string) -> bool
  {
    (a: string, b: string) => Text.Below(a, b)
  }

  lemma StringLeTotalPreorder()
    ensures TotalPreorder(StringLe())
  {
    forall a: string, b: string ensures StringLe()(a, b) || StringLe()(b, a) {
      Text.BelowTotal(a, b);
    }
    forall a: string, b: string, c: string | StringLe()(a, b) && StringLe()(b, c)
      ensures StringLe()(a, c)
    {
      Text.BelowTransitive(a, b, c);
    }
  }

  /** Pairs in the order of their keys (`sorted(d.items())`, or sorting file
      entries by name). */
  function KeyLe<V>(): ((string, V), (string, V)) -> bool
  {
    (a: (string, V), b: (string, V)) => Text.Below(a.0, b.0)
  }

  lemma KeyLeTotalPreorder<V(!new)>()
    ensures TotalPreorder(KeyLe<V>())
  {
    forall a: (string, V), b: (string, V) ensures KeyLe<V>()(a, b) || KeyLe<V>()(b, a) {
      Text.BelowTotal(a.0, b.0);
    }
    forall a: (string, V), b: (string, V), c: (string, V) | KeyLe<V>()(a, b) && KeyLe<V>()(b, c)
      ensures KeyLe<V>()(a, c)
    {
      Text.BelowTransitive(a.0, b.0, c.0);
    }
  }

  /** `sorted(strings)`. */
  function SortStrings(s: seq<string>): (r: seq<string>)
    ensures SortedBy(r, StringLe()) && multiset(r) == multiset(s)
    ensures |r| == |s|
  {
    StringLeTotalPreorder();
    SortBySorted(s, StringLe());
    var r := SortBy(s, StringLe());
    assert |r| == |multiset(r)| == |multiset(s)| == |s|;
    r
  }

  /** Sorting a collection without repeats gives a result that depends only on
      its elements, not on the order they came in (so sorting a Python `set`
      is deterministic). */
  lemma {:induction false} SortedUnique(a: seq<string>, b: seq<string>)
    requires SortedBy(a, StringLe()) && SortedBy(b, StringLe())
    requires NoDups(a) && NoDups(b)
    requires forall x :: x in a <==> x in b
    ensures a == b
  {
    if |a| > 0 {
      assert a[0] in b;
    }
    if |b| > 0 {
      assert b[0] in a;
    }
    if |a| > 0 {
      var i :| 0 <= i < |b| && b[i] == a[0];
      var j :| 0 <= j < |a| && a[j] == b[0];
      assert Text.Below(b[0], a[0]) by {
        if i > 0 { assert StringLe()(b[0], b[i]); } else { Text.BelowReflexive(a[0]); }
      }
      assert Text.Below(a[0], b[0]) by {
        if j > 0 { assert StringLe()(a[0], a[j]); } else { Text.BelowReflexive(a[0]); }
      }
      Text.BelowAntisymmetric(a[0], b[0]);
      forall x ensures x in a[1..] <==> x in b[1..] {
        if x in a[1..] {
          var k :| 0 <= k < |a[1..]| && a[1..][k] == x;
          assert a[k + 1] == x && x != a[0];
          assert x in a && x in b;
          var m :| 0 <= m < |b| && b[m] == x;
          assert m != 0;
          assert b[1..][m - 1] == x;
        }
        if x in b[1..] {
          var k :| 0 <= k < |b[1..]| && b[1..][k] == x;
          assert b[k + 1] == x && x != b[0];
          assert x in b && x in a;
          var m :| 0 <= m < |a| && a[m] == x;
          assert m != 0;
          assert a[1..][m - 1] == x;
        }
      }
      SortedUnique(a[1..], b[1..]);
      assert a == [a[0]] + a[1..] && b == [b[0]] + b[1..];
    }
  }
}
