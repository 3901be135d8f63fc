/** The localisation map both revisions of `parse_localisation_files` build
    (update/parse_localisation.py and scripts/parse_localisation.py, which
    differ only in their directory paths): every `key:0 "value"` line of the
    English localisation files, a later line overriding an earlier one with
    the same key. The directory listing is a parameter; writing the JSON file
    is not part of this model. */
module Localisation {
  import opened Wrappers
  import opened Seqs
  import opened Text
  import Species

  /** `[\w\._-]` */
  predicate IsKeyChar(c: char)
  {
    IsWordChar(c) || c == '.' || c == '-'
  }

  predicate NoNewline(s: string)
  {
    '\n' !in s
  }

  /** The position after the colon at `c` and the optional digit after it. */
  function AfterColon(line: string, c: nat): (d: nat)
    requires c < |line|
    ensures c + 1 <= d <= |line|
  {
    if c + 1 < |line| && IsDigit(line[c + 1]) then c + 2 else c + 1
  }

  /** `"(.*)"\s*$` from `q`: the text between the quote at `q` and the last
      non-space character, which must be a second quote; `.` takes no line
      break. */
  function QuotedTail(line: string, q: nat): (r: Option<string>)
    requires q <= |line|
  {
    var l := |StripRight(line)|;
    if q + 1 < l && line[q] == '"' && line[l - 1] == '"' && NoNewline(line[q + 1..l - 1])
    then Some(line[q + 1..l - 1])
    else None
  }

  /** The tail is the quoted value and nothing but whitespace follows it. */
  lemma QuotedTailSpec(line: string, q: nat)
    requires q <= |line| && QuotedTail(line, q).Some?
    ensures var v := QuotedTail(line, q).value;
      NoNewline(v) && EndsWith(StripRight(line), v + "\"")
  {
    var l := |StripRight(line)|;
    EndsWithSlice(line, StripRight(line), q + 1, l - 1);
  }

  /** `re.match(r'^\s*([\w\._-]+):\d?\s*"(.*)"\s*$', line)`: the key and the
      value. The key is the whole run of key characters (`:` is not one of
      them, so backtracking cannot shorten it); the optional digit and the
      spaces after the colon lead to the opening quote. */
  function EntryOf(line: string): Option<(string, string)>
  {
    var i := RunEnd(line, 0, IsSpace);
    var c := RunEnd(line, i, IsKeyChar);
    if c == i || c == |line| || line[c] != ':' then None
    else
      match QuotedTail(line, RunEnd(line, AfterColon(line, c), IsSpace))
      case None => None
      case Some(v) => Some((line[i..c], v))
  }

  /** The guard of the loop on a stripped line: not empty, not a comment,
      and holding a colon. */
  predicate Candidate(line: string)
  {
    line != "" && !StartsWith(line, "#") && ':' in line
  }

  /** What one line of a file contributes. */
  function LineEntry(raw: string): Option<(string, string)>
  {
    var line := Strip(raw);
    if Candidate(line) then EntryOf(line) else None
  }

  function AsList<T>(o: Option<T>): seq<T>
  {
    match o
    case None => []
    case Some(x) => [x]
  }

  /** The entries of a run of lines, in order. */
  function LineEntries(lines: seq<string>): seq<(string, string)>
  {
    if |lines| == 0 then []
    else
      LineEntries(lines[..|lines| - 1]) + AsList(LineEntry(lines[|lines| - 1]))
  }

  /** The files the loop reads. */
  predicate IsEnglishFile(name: string)
  {
    EndsWith(name, "_l_english.yml")
  }

  /** The entries of every English file, file after file; a file's lines are
      its text cut at line ends as `str.splitlines` cuts it. */
  function FileEntries(files: Species.Files): seq<(string, string)>
  {
    if |files| == 0 then []
    else
      FileEntries(files[..|files| - 1]) + FileLines(files[|files| - 1])
  }

  /** The entries of one file of the listing. */
  function FileLines(file: (string, string)): seq<(string, string)>
  {
    if IsEnglishFile(file.0) then LineEntries(SplitLines(file.1)) else []
  }

  /** `localisation_map`: the entries stored one after the other. */
  function LocalisationMap(files: Species.Files): Assoc<string>
  {
    PutAll([], FileEntries(files))
  }

  lemma LineEntriesSnoc(lines: seq<string>, j: nat)
    requires j < |lines|
    ensures LineEntries(lines[..j + 1]) ==
      LineEntries(lines[..j]) + AsList(LineEntry(lines[j]))
  {
    assert lines[..j + 1][..j] == lines[..j];
  }

  lemma FileEntriesSnoc(files: Species.Files, i: nat)
    requires i < |files|
    ensures FileEntries(files[..i + 1]) ==
      FileEntries(files[..i]) + FileLines(files[i])
  {
    assert files[..i + 1][..i] == files[..i];
  }

  /** Storing the entry a line gives, if any. */
  lemma StoreStep(a: Assoc<string>, done: seq<(string, string)>, o: Option<(string, string)>)
    ensures PutAll(a, done + AsList(o)) ==
      match o
      case None => PutAll(a, done)
      case Some(e) => Put(PutAll(a, done), e.0, e.1)
  {
    match o
    case None =>
      assert done + [] == done;
    case Some(e) =>
      PutAllSnoc(a, done, e.0, e.1);
  }

  /** One line of a file: stripped, skipped when empty, a comment or without
      a colon, and otherwise matched against the entry pattern (lines 42-47). */
  method ParseLine(raw: string) returns (m: Option<(string, string)>)
    ensures m == LineEntry(raw)
  {
    var line := Strip(raw);
    m := None;
    if line != "" && !StartsWith(line, "#") && ':' in line {
      m := EntryOf(line);
    }
  }

  /** The line loop of one file (lines 41-48). */
  method ParseLines(lines: seq<string>, loc: Assoc<string>) returns (loc': Assoc<string>)
    ensures loc' == PutAll(loc, LineEntries(lines))
  {
    loc' := loc;
    assert LineEntries(lines[..0]) == [];
    for j := 0 to |lines|
      invariant loc' == PutAll(loc, LineEntries(lines[..j]))
    {
      LineEntriesSnoc(lines, j);
      StoreStep(loc, LineEntries(lines[..j]), LineEntry(lines[j]));
      var m := ParseLine(lines[j]);
      if m.Some? {
        var key, value := m.value.0, m.value.1;
        loc' := Put(loc', key, value);
      }
    }
    assert lines[..|lines|] == lines;
  }

  /** `parse_localisation_files`: nothing when the directory does not exist,
      otherwise the map over every English file of the listing. */
  method ParseLocalisationFiles(dir: Option<Species.Files>) returns (r: Option<Assoc<string>>)
    ensures dir.None? ==> r.None?
    ensures dir.Some? ==> r == Some(LocalisationMap(dir.value))
  {
    if dir.None? {
      return None;
    }
    var files := dir.value;
    var loc: Assoc<string> := [];
    for i := 0 to |files|
      invariant loc == PutAll([], FileEntries(files[..i]))
    {
      FileEntriesSnoc(files, i);
      var filename, text := files[i].0, files[i].1;
      if EndsWith(filename, "_l_english.yml") {
        assert FileLines(files[i]) == LineEntries(SplitLines(text));
        PutAllAppend([], FileEntries(files[..i]), FileLines(files[i]));
        loc := ParseLines(SplitLines(text), loc);
      } else {
        assert FileLines(files[i]) == [];
        assert FileEntries(files[..i]) + [] == FileEntries(files[..i]);
      }
    }
    assert files[..|files|] == files;
    return Some(loc);
  }

  // ---------------------------------------------------------------------
  // Properties

  /** What a match consists of: the key is the run of key characters after
      the leading spaces and stops at a colon, and the value is what the
      quoted tail after the colon holds. */
  lemma EntryShape(line: string)
    requires EntryOf(line).Some?
    ensures var i := RunEnd(line, 0, IsSpace);
      var c := RunEnd(line, i, IsKeyChar);
      && i < c < |line| && line[c] == ':' && EntryOf(line).value.0 == line[i..c]
      && QuotedTail(line, RunEnd(line, AfterColon(line, c), IsSpace)) == Some(EntryOf(line).value.1)
  {
  }

  /** A matched line is `key:` at its start (after spaces) and `"value"` at its
      end (before spaces); the key is a non-empty run of key characters and
      the value holds no line break. */
  lemma EntrySpec(line: string)
    requires EntryOf(line).Some?
    ensures var k, v := EntryOf(line).value.0, EntryOf(line).value.1;
      && |k| > 0 && (forall m :: 0 <= m < |k| ==> IsKeyChar(k[m])) && NoNewline(v)
      && StartsWith(StripLeft(line), k + ":") && EndsWith(StripRight(line), v + "\"")
  {
    EntryShape(line);
    StripLeftRun(line);
    var i := RunEnd(line, 0, IsSpace);
    var c := RunEnd(line, i, IsKeyChar);
    KeyPrefix(line, i, c);
    QuotedTailSpec(line, RunEnd(line, AfterColon(line, c), IsSpace));
  }

  /** The key characters between `i` and the colon at `c`, followed by the colon. */
  lemma KeyPrefix(line: string, i: nat, c: nat)
    requires i < c < |line| && line[c] == ':' && forall m :: i <= m < c ==> IsKeyChar(line[m])
    ensures var k := line[i..c];
      (forall m :: 0 <= m < |k| ==> IsKeyChar(k[m])) && StartsWith(line[i..], k + ":")
  {
    var k := line[i..c];
    assert forall m :: 0 <= m < |k| ==> k[m] == line[i + m];
    assert line[i..][..|k| + 1] == line[i..c + 1];
    assert line[i..c + 1] == k + [line[c]];
  }

  /** Whatever the guard on the stripped line drops, the pattern would not
      match either: a line gives exactly what the pattern finds in its strip. */
  lemma GuardRedundant(raw: string)
    ensures LineEntry(raw) == EntryOf(Strip(raw))
  {
    var line := Strip(raw);
    if EntryOf(line).Some? {
      EntryShape(line);
      var i := RunEnd(line, 0, IsSpace);
      var c := RunEnd(line, i, IsKeyChar);
      assert ':' in line by {
        assert line[c] == ':';
      }
      assert Candidate(line);
    }
  }

  /** The line `key:D "value"` (with an optional digit `D`), indented, gives
      back its key and value, whatever quotes the value holds, for a key of key
      characters and a value without line breaks. */
  lemma EntryRoundTrip(k: string, digit: string, v: string)
    requires |k| > 0 && forall m :: 0 <= m < |k| ==> IsKeyChar(k[m])
    requires digit == "" || (|digit| == 1 && IsDigit(digit[0]))
    requires NoNewline(v)
    ensures LineEntry(" " + k + ":" + digit + " \"" + v + "\"") == Some((k, v))
  {
    var line := k + ":" + digit + " \"" + v + "\"";
    assert " " + k + ":" + digit + " \"" + v + "\"" == " " + line;
    EntryOfLine(k, digit, v, line);
    assert Strip(" " + line) == line by {
      assert line[0] == k[0];
      StripAfterSpaces(" ", line);
    }
    GuardRedundant(" " + line);
  }

  /** The pattern on the unindented line. */
  lemma EntryOfLine(k: string, digit: string, v: string, line: string)
    requires |k| > 0 && forall m :: 0 <= m < |k| ==> IsKeyChar(k[m])
    requires digit == "" || (|digit| == 1 && IsDigit(digit[0]))
    requires NoNewline(v)
    requires line == k + ":" + digit + " \"" + v + "\""
    ensures EntryOf(line) == Some((k, v))
  {
    EntryLineKey(k, digit, v, line);
    EntryLineColon(k, digit, v, line);
    EntryLineValue(k, digit, v, line);
  }

  /** The key part of such a line: the key and its colon. */
  lemma EntryLineKey(k: string, digit: string, v: string, line: string)
    requires |k| > 0 && forall m :: 0 <= m < |k| ==> IsKeyChar(k[m])
    requires line == k + ":" + digit + " \"" + v + "\""
    ensures |k| < |line| && line[|k|] == ':' && line[0..|k|] == k
    ensures RunEnd(line, 0, IsSpace) == 0 && RunEnd(line, 0, IsKeyChar) == |k|
  {
    assert line[..|k|] == k && line[|k|] == ':';
    assert forall m :: 0 <= m < |k| ==> line[m] == k[m];
    RunEndAt(line, 0, 0, IsSpace);
    RunEndAt(line, 0, |k|, IsKeyChar);
    assert line[0..|k|] == k;
  }

  /** After the colon: the optional digit, then the single space before the quote. */
  lemma EntryLineColon(k: string, digit: string, v: string, line: string)
    requires digit == "" || (|digit| == 1 && IsDigit(digit[0]))
    requires line == k + ":" + digit + " \"" + v + "\""
    ensures AfterColon(line, |k|) == |k| + 1 + |digit|
    ensures RunEnd(line, |k| + 1 + |digit|, IsSpace) == |k| + 2 + |digit|
  {
    var d := |k| + 1 + |digit|;
    assert digit != "" ==> line[|k| + 1] == digit[0];
    assert digit == "" ==> line[|k| + 1] == ' ';
    assert line[d] == ' ' && line[d + 1] == '"';
    RunEndAt(line, d, d + 1, IsSpace);
  }

  /** The quoted part of such a line: the value, with nothing after its
      closing quote. */
  lemma EntryLineValue(k: string, digit: string, v: string, line: string)
    requires NoNewline(v)
    requires line == k + ":" + digit + " \"" + v + "\""
    ensures QuotedTail(line, |k| + 2 + |digit|) == Some(v)
  {
    var d := |k| + 1 + |digit|;
    assert |line| == d + 3 + |v|;
    assert line[d + 1] == '"' && line[|line| - 1] == '"';
    assert line[d + 2..|line| - 1] == v;
    assert StripRight(line) == line;
  }

  /** A key is in the map exactly when some line of an English file gives it,
      and its value is the one the last such line gives. */
  lemma LocalisationMapSpec(files: Species.Files, k: string)
    ensures HasKey(LocalisationMap(files), k) <==> k in Keys(FileEntries(files))
    ensures forall j :: 0 <= j < |FileEntries(files)| && FileEntries(files)[j].0 == k &&
                        (forall l :: j < l < |FileEntries(files)| ==> FileEntries(files)[l].0 != k) ==>
                          Get(LocalisationMap(files), k) == Some(FileEntries(files)[j].1)
  {
    PutAllHas([], FileEntries(files), k);
    forall j | 0 <= j < |FileEntries(files)| && FileEntries(files)[j].0 == k &&
      (forall l :: j < l < |FileEntries(files)| ==> FileEntries(files)[l].0 != k)
      ensures Get(LocalisationMap(files), k) == Some(FileEntries(files)[j].1)
    {
      PutAllLast([], FileEntries(files), j);
    }
  }

  /** A file that is not an English localisation file changes nothing. */
  lemma OtherFilesIgnored(files: Species.Files, name: string, text: string)
    requires !IsEnglishFile(name)
    ensures LocalisationMap(files + [(name, text)]) == LocalisationMap(files)
  {
    var all := files + [(name, text)];
    assert all[..|all| - 1] == files && all[|all| - 1] == (name, text);
    assert FileLines((name, text)) == [];
    assert FileEntries(all) == FileEntries(files) + [];
    assert FileEntries(files) + [] == FileEntries(files);
  }

  /** A later English file of one matching line overrides whatever the
      earlier files stored under its key. */
  lemma LaterLineWins(files: Species.Files, name: string, line: string)
    requires IsEnglishFile(name) && NoLineBreak(line) && LineEntry(line).Some?
    ensures Get(LocalisationMap(files + [(name, line)]), LineEntry(line).value.0) == Some(LineEntry(line).value.1)
  {
    var all := files + [(name, line)];
    assert all[..|all| - 1] == files && all[|all| - 1] == (name, line);
    assert line != "" by {
      assert Strip("") == "";
    }
    SplitLinesOne(line);
    var e := LineEntry(line).value;
    assert LineEntries([line]) == [e] by {
      assert [line][..0] == [];
    }
    assert FileEntries(all) == FileEntries(files) + [e];
    PutAllSnoc([], FileEntries(files), e.0, e.1);
  }
}
