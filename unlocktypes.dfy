/** update/generate_unlock_types.py: the unlock types named by the
    `unlock_details.unlocks_by_type` objects of the technology JSON files,
    and the sorted list `main` writes. The assets directory is a parameter
    (whether it exists, and each file as its name and what reading it gives);
    printing and writing `unlock_types.json` are not part of this model. */
module UnlockTypes {
  import opened Wrappers
  import opened Seqs
  import opened Text

  /** One element of a technology file's list: the keys of its
      `unlocks_by_type` object (none when either object is missing), or a
      value on which `.get` raises. */
  datatype TechValue = TechUnlocks(types: seq<string>) | Malformed

  /** What reading one file gives: an error (unreadable, not JSON), or the
      values of its top-level list. */
  datatype TechFile = Unreadable | Parsed(techs: seq<TechValue>)

  /** `glob('technology_*.json')`. */
  predicate MatchesGlob(name: string)
  {
    |name| >= |"technology_"| + |".json"| && StartsWith(name, "technology_") && EndsWith(name, ".json")
  }

  /** The index of the first value that raises, or the length. */
  function FirstMalformed(techs: seq<TechValue>): (r: nat)
    ensures r <= |techs|
    ensures forall j :: 0 <= j < r ==> techs[j].TechUnlocks?
    ensures r < |techs| ==> techs[r].Malformed?
  {
    if |techs| == 0 || techs[0].Malformed? then 0 else 1 + FirstMalformed(techs[1..])
  }

  /** The keys of a run of values, as one set. */
  function KeysUnion(techs: seq<TechValue>): set<string>
  {
    if |techs| == 0 then {}
    else
      KeysUnion(techs[..|techs| - 1]) +
      match techs[|techs| - 1] case TechUnlocks(types) => Elems(types) case Malformed => {}
  }

  /** What one file adds: the keys of its values up to the first one that
      raises, whose exception abandons the rest of the file. */
  function FileTypes(techs: seq<TechValue>): set<string>
  {
    KeysUnion(techs[..FirstMalformed(techs)])
  }

  function Contribution(file: (string, TechFile)): set<string>
  {
    if MatchesGlob(file.0) && file.1.Parsed? then FileTypes(file.1.techs) else {}
  }

  /** `extract_unlock_types` over a directory listing. */
  function TypesOf(files: seq<(string, TechFile)>): set<string>
  {
    if |files| == 0 then {}
    else TypesOf(files[..|files| - 1]) + Contribution(files[|files| - 1])
  }

  // ---------------------------------------------------------------------
  // The loops

  lemma KeysUnionSnoc(techs: seq<TechValue>, i: nat)
    requires i < |techs| && techs[i].TechUnlocks?
    ensures KeysUnion(techs[..i + 1]) == KeysUnion(techs[..i]) + Elems(techs[i].types)
  {
    assert techs[..i + 1][..i] == techs[..i];
  }

  lemma TypesOfSnoc(files: seq<(string, TechFile)>, i: nat)
    requires i < |files|
    ensures TypesOf(files[..i + 1]) == TypesOf(files[..i]) + Contribution(files[i])
  {
    assert files[..i + 1][..i] == files[..i];
  }

  /** The `for tech in techs` loop of one file, up to the value that raises. */
  method AddFileTypes(techs: seq<TechValue>, unlockTypes: set<string>) returns (unlockTypes': set<string>)
    ensures unlockTypes' == unlockTypes + FileTypes(techs)
  {
    unlockTypes' := unlockTypes;
    var i := 0;
    while i < |techs| && techs[i].TechUnlocks?
      invariant i <= |techs| && forall j :: 0 <= j < i ==> techs[j].TechUnlocks?
      invariant unlockTypes' == unlockTypes + KeysUnion(techs[..i])
    {
      KeysUnionSnoc(techs, i);
      unlockTypes' := unlockTypes' + Elems(techs[i].types);
      i := i + 1;
    }
    assert i == FirstMalformed(techs);
  }

  /** `extract_unlock_types`. */
  method ExtractUnlockTypes(files: seq<(string, TechFile)>) returns (unlockTypes: set<string>)
    ensures unlockTypes == TypesOf(files)
  {
    unlockTypes := {};
    for i := 0 to |files|
      invariant unlockTypes == TypesOf(files[..i])
    {
      TypesOfSnoc(files, i);
      var name, file := files[i].0, files[i].1;
      if MatchesGlob(name) {
        match file
        case Unreadable =>
        case Parsed(techs) =>
          unlockTypes := AddFileTypes(techs, unlockTypes);
      }
    }
    assert files[..|files|] == files;
  }

  /** `sorted(s)` of a set of strings. */
  method SortedList(s: set<string>) returns (r: seq<string>)
    ensures SortedBy(r, StringLe()) && NoDups(r) && Elems(r) == s
  {
    var items := ListOfSet(s);
    r := SortStrings(items);
    NoDupsPermutation(items, r);
  }

  /** `main`: exit code 1 and nothing written when the directory is missing
      or no type was found, otherwise exit code 0 and the sorted list of the
      types written. */
  method GenerateUnlockTypes(assetsDirExists: bool, files: seq<(string, TechFile)>) returns (code: int, written: Option<seq<string>>)
    ensures code == 0 <==> assetsDirExists && TypesOf(files) != {}
    ensures code == 0 || code == 1
    ensures code == 1 <==> written.None?
    ensures written.Some? ==>
      SortedBy(written.value, StringLe()) && NoDups(written.value) && Elems(written.value) == TypesOf(files)
  {
    if !assetsDirExists {
      return 1, None;
    }
    var unlockTypes := ExtractUnlockTypes(files);
    if unlockTypes == {} {
      return 1, None;
    }
    var sortedTypes := SortedList(unlockTypes);
    return 0, Some(sortedTypes);
  }

  // ---------------------------------------------------------------------
  // Properties

  /** A type is found exactly when some matching, readable file has it among
      the keys of a value that comes before the file's first bad value. */
  lemma {:induction false} TypesOfSpec(files: seq<(string, TechFile)>, x: string)
    ensures x in TypesOf(files) <==>
      exists i :: 0 <= i < |files| && x in Contribution(files[i])
  {
    if |files| > 0 {
      var n := |files| - 1;
      TypesOfSpec(files[..n], x);
      if exists i :: 0 <= i < n && x in Contribution(files[..n][i]) {
        var i :| 0 <= i < n && x in Contribution(files[..n][i]);
        assert files[i] == files[..n][i];
      }
      if exists i :: 0 <= i < |files| && x in Contribution(files[i]) {
        var i :| 0 <= i < |files| && x in Contribution(files[i]);
        if i < n {
          assert files[..n][i] == files[i];
        }
      }
    }
  }

  /** Within a file, a type counts exactly when some value before the first
      bad one has it as a key. */
  lemma FileTypesSpec(techs: seq<TechValue>, x: string)
    ensures x in FileTypes(techs) <==>
      exists k :: 0 <= k < FirstMalformed(techs) && x in techs[k].types
  {
    var r := FirstMalformed(techs);
    KeysUnionSpec(techs[..r], x);
    if exists k :: 0 <= k < r && x in techs[k].types {
      var k :| 0 <= k < r && x in techs[k].types;
      assert techs[..r][k] == techs[k];
    }
  }

  lemma {:induction false} KeysUnionSpec(techs: seq<TechValue>, x: string)
    requires forall j :: 0 <= j < |techs| ==> techs[j].TechUnlocks?
    ensures x in KeysUnion(techs) <==> exists k :: 0 <= k < |techs| && x in techs[k].types
  {
    if |techs| > 0 {
      var n := |techs| - 1;
      var init := techs[..n];
      KeysUnionSpec(init, x);
      assert x in Elems(techs[n].types) <==> x in techs[n].types;
      if exists k :: 0 <= k < n && x in init[k].types {
        var k :| 0 <= k < n && x in init[k].types;
        assert init[k] == techs[k];
      }
      if exists k :: 0 <= k < |techs| && x in techs[k].types {
        var k :| 0 <= k < |techs| && x in techs[k].types;
        if k < n {
          assert init[k] == techs[k];
        }
      }
    }
  }

  /** A file that cannot be read, or whose name does not match, adds nothing;
      the scan goes on with the next file. */
  lemma SkippedFile(files: seq<(string, TechFile)>, name: string, file: TechFile)
    requires file.Unreadable? || !MatchesGlob(name)
    ensures TypesOf(files + [(name, file)]) == TypesOf(files)
  {
    var all := files + [(name, file)];
    assert all[..|all| - 1] == files;
  }

  /** The result is a union, so the order the directory lists its files in
      does not matter. */
  lemma {:induction false} TypesOfAppend(a: seq<(string, TechFile)>, b: seq<(string, TechFile)>)
    ensures TypesOf(a + b) == TypesOf(a) + TypesOf(b)
  {
    if |b| > 0 {
      var n := |b| - 1;
      TypesOfAppend(a, b[..n]);
      assert (a + b)[..|a + b| - 1] == a + b[..n];
      assert (a + b)[|a + b| - 1] == b[n];
    } else {
      assert a + b == a;
    }
  }

  /** The written list depends only on the set of types: any two sorted,
      duplicate-free lists of it are the same list. */
  lemma WrittenListUnique(a: seq<string>, b: seq<string>, files: seq<(string, TechFile)>)
    requires SortedBy(a, StringLe()) && NoDups(a) && Elems(a) == TypesOf(files)
    requires SortedBy(b, StringLe()) && NoDups(b) && Elems(b) == TypesOf(files)
    ensures a == b
  {
    forall x ensures x in a <==> x in b {
      assert x in a <==> x in Elems(a);
      assert x in b <==> x in Elems(b);
    }
    SortedUnique(a, b);
  }
}
