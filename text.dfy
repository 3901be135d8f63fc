/** Character classes and string operations shared by the browser code and the
    data pipeline (Python `str` methods, JavaScript `String` methods). Case
    mapping and the whitespace and word classes are the ASCII ones. */
module Text {
  import opened Wrappers

  /** Whitespace as `str.isspace`, `String.prototype.trim` and the regex class
      `\s` treat it, restricted to ASCII. */
  predicate IsSpace(c: char)
  {
    c == ' ' || c == '\t' || c == '\n' || c == '\r' || c == '\U{B}' || c == '\U{C}'
  }

  /** The section sign that starts a colour code in a localised text. */
  const SectionSign: string := "\U{00A7}"

  predicate IsDigit(c: char) { '0' <= c <= '9' }
  predicate IsUpperChar(c: char) { 'A' <= c <= 'Z' }
  predicate IsLowerChar(c: char) { 'a' <= c <= 'z' }
  predicate IsLetter(c: char) { IsUpperChar(c) || IsLowerChar(c) }

  /** The regex class `\w`. */
  predicate IsWordChar(c: char) { IsLetter(c) || IsDigit(c) || c == '_' }

  function LowerChar(c: char): char
  {
    if IsUpperChar(c) then (c as int + 32) as char else c
  }

  function UpperChar(c: char): char
  {
    if IsLowerChar(c) then (c as int - 32) as char else c
  }

  /** `toLowerCase()` / `lower()`. */
  function Lower(s: string): string
  {
    seq(|s|, i requires 0 <= i < |s| => LowerChar(s[i]))
  }

  /** `upper()`. */
  function Upper(s: string): string
  {
    seq(|s|, i requires 0 <= i < |s| => UpperChar(s[i]))
  }

  lemma LowerIdempotent(s: string)
    ensures Lower(Lower(s)) == Lower(s)
  {
  }

  /** `s[:n]`. */
  function Take(s: string, n: nat): (r: string)
    ensures |r| == if |s| <= n then |s| else n
    ensures r <= s
  {
    if |s| <= n then s else s[..n]
  }

  predicate StartsWith(s: string, p: string) { |p| <= |s| && s[..|p|] == p }
  predicate EndsWith(s: string, p: string) { |p| <= |s| && s[|s| - |p|..] == p }

  predicate OccursAt(s: string, sub: string, i: nat)
  {
    i + |sub| <= |s| && s[i..i + |sub|] == sub
  }

  /** The first occurrence of `sub` in `s` at or after `i` (`str.find`). */
  function FindFrom(s: string, sub: string, i: nat): (r: Option<nat>)
    ensures r.Some? ==> i <= r.value && OccursAt(s, sub, r.value)
    ensures r.Some? ==> forall j :: i <= j < r.value ==> !OccursAt(s, sub, j)
    ensures r.None? ==> forall j :: i <= j ==> !OccursAt(s, sub, j)
    decreases |s| - i
  {
    if i + |sub| > |s| then None
    else if OccursAt(s, sub, i) then Some(i)
    else FindFrom(s, sub, i + 1)
  }

  /** `sub in s` / `s.includes(sub)`. */
  predicate Contains(s: string, sub: string)
  {
    FindFrom(s, sub, 0).Some?
  }

  lemma ContainsAt(s: string, sub: string, i: nat)
    requires OccursAt(s, sub, i)
    ensures Contains(s, sub)
  {
  }

  lemma ContainsTransitive(s: string, m: string, sub: string)
    requires Contains(s, m) && Contains(m, sub)
    ensures Contains(s, sub)
  {
    var i := FindFrom(s, m, 0).value;
    var j := FindFrom(m, sub, 0).value;
    assert OccursAt(s, m, i) && OccursAt(m, sub, j);
    forall k | i + j <= k < i + j + |sub|
      ensures s[k] == sub[k - i - j]
    {
      assert s[k] == s[i..i + |m|][k - i];
      assert m[k - i] == m[j..j + |sub|][k - i - j];
    }
    assert s[i + j..i + j + |sub|] == sub;
    ContainsAt(s, sub, i + j);
  }

  lemma ContainsAppend(a: string, b: string, sub: string)
    requires Contains(a, sub) || Contains(b, sub)
    ensures Contains(a + b, sub)
  {
    if Contains(a, sub) {
      var i := FindFrom(a, sub, 0).value;
      assert (a + b)[i..i + |sub|] == a[i..i + |sub|];
      ContainsAt(a + b, sub, i);
    } else {
      var i := FindFrom(b, sub, 0).value;
      assert (a + b)[|a| + i..|a| + i + |sub|] == b[i..i + |sub|];
      ContainsAt(a + b, sub, |a| + i);
    }
  }

  /** `lstrip()` with no argument. */
  function StripLeft(s: string): (r: string)
    ensures |r| <= |s| && r == s[|s| - |r|..]
    ensures |r| > 0 ==> !IsSpace(r[0])
    ensures forall i :: 0 <= i < |s| - |r| ==> IsSpace(s[i])
  {
    if |s| > 0 && IsSpace(s[0]) then StripLeft(s[1..]) else s
  }

  /** `rstrip()` with no argument. */
  function StripRight(s: string): (r: string)
    ensures |r| <= |s| && r == s[..|r|]
    ensures |r| > 0 ==> !IsSpace(r[|r| - 1])
    ensures forall i :: |r| <= i < |s| ==> IsSpace(s[i])
  {
    if |s| > 0 && IsSpace(s[|s| - 1]) then StripRight(s[..|s| - 1]) else s
  }

  /** `strip()` with no argument, or JavaScript's `trim()`. */
  function Strip(s: string): string
  {
    StripRight(StripLeft(s))
  }

  /** `lstrip(c)` for one character. */
  function StripCharLeft(s: string, c: char): (r: string)
    ensures |r| <= |s| && r == s[|s| - |r|..]
    ensures |r| > 0 ==> r[0] != c
    ensures forall i :: 0 <= i < |s| - |r| ==> s[i] == c
  {
    if |s| > 0 && s[0] == c then StripCharLeft(s[1..], c) else s
  }

  /** `rstrip(c)` for one character. */
  function StripCharRight(s: string, c: char): (r: string)
    ensures |r| <= |s| && r == s[..|r|]
    ensures |r| > 0 ==> r[|r| - 1] != c
    ensures forall i :: |r| <= i < |s| ==> s[i] == c
  {
    if |s| > 0 && s[|s| - 1] == c then StripCharRight(s[..|s| - 1], c) else s
  }

  /** `strip(c)` for one character. */
  function StripChar(s: string, c: char): string
  {
    StripCharRight(StripCharLeft(s, c), c)
  }

  /** `strip(c)` keeps a middle part of the text that neither starts nor ends with `c`. */
  lemma StripCharSpec(s: string, c: char)
    ensures var r := StripChar(s, c);
      (|r| > 0 ==> r[0] != c && r[|r| - 1] != c) && forall m :: 0 <= m < |r| ==> r[m] in s
  {
    var l := StripCharLeft(s, c);
    var r := StripCharRight(l, c);
    if |r| > 0 {
      assert r[0] == l[0];
    }
    forall m | 0 <= m < |r| ensures r[m] in s {
      assert r[m] == l[m] == s[|s| - |l| + m];
    }
  }

  /** Stripping a character from a run of non-whitespace leaves non-whitespace
      that neither starts nor ends with that character. */
  lemma StripCharToken(w: string, c: char)
    requires IsToken(w)
    ensures var r := StripChar(w, c);
      (forall m :: 0 <= m < |r| ==> !IsSpace(r[m])) && (|r| > 0 ==> r[0] != c && r[|r| - 1] != c)
  {
    var l := StripCharLeft(w, c);
    var r := StripCharRight(l, c);
    forall m | 0 <= m < |r| ensures !IsSpace(r[m]) {
      assert r[m] == l[m] == w[|w| - |l| + m];
    }
  }

  /** A text that neither starts nor ends with whitespace is its own strip. */
  lemma StripUntrimmed(s: string)
    requires |s| > 0 ==> !IsSpace(s[0]) && !IsSpace(s[|s| - 1])
    ensures Strip(s) == s
  {
    assert StripLeft(s) == s;
    assert StripRight(s) == s;
  }

  lemma StripIdempotent(s: string)
    ensures Strip(Strip(s)) == Strip(s)
  {
    var l := StripLeft(s);
    var r := StripRight(l);
    if |r| > 0 {
      assert r == l[..|r|];
      assert r[0] == l[0];
    }
    StripUntrimmed(r);
  }

  predicate AllSpace(s: string)
  {
    forall i :: 0 <= i < |s| ==> IsSpace(s[i])
  }

  lemma StripEmptyIffBlank(s: string)
    ensures Strip(s) == "" <==> AllSpace(s)
  {
    var l := StripLeft(s);
    if Strip(s) == "" {
      assert |l| == 0;
    } else {
      var r := Strip(s);
      assert r[0] == l[0] == s[|s| - |l|];
    }
  }

  /** The length of the longest prefix of `s[i..]` whose characters satisfy the
      class `p` (a greedy `[...]*` in a regex). */
  function RunEnd(s: string, i: nat, p: char -> bool): (j: nat)
    requires i <= |s|
    ensures i <= j <= |s|
    ensures forall k :: i <= k < j ==> p(s[k])
    ensures j < |s| ==> !p(s[j])
    decreases |s| - i
  {
    if i < |s| && p(s[i]) then RunEnd(s, i + 1, p) else i
  }

  /** A run of class characters up to one outside the class, or up to the
      end, ends there. */
  lemma {:induction false} RunEndAt(s: string, i: nat, j: nat, p: char -> bool)
    requires i <= j <= |s| && (j < |s| ==> !p(s[j])) && forall m :: i <= m < j ==> p(s[m])
    ensures RunEnd(s, i, p) == j
    decreases j - i
  {
    if i < j {
      RunEndAt(s, i + 1, j, p);
    }
  }

  /** `lstrip()` drops exactly the leading run of whitespace. */
  lemma StripLeftRun(s: string)
    ensures StripLeft(s) == s[RunEnd(s, 0, IsSpace)..]
  {
    var r := StripLeft(s);
    var m := |s| - |r|;
    assert |r| > 0 ==> r[0] == s[m];
    RunEndAt(s, 0, m, IsSpace);
  }

  /** A prefix of `s` that runs to the end of a slice and one character more
      ends with them. */
  lemma EndsWithSlice(s: string, r: string, a: nat, b: nat)
    requires a <= b < |s| && r == s[..b + 1]
    ensures EndsWith(r, s[a..b] + [s[b]])
  {
    assert r[a..] == s[a..b + 1];
  }

  /** A non-empty run of non-whitespace characters. */
  predicate IsToken(w: string)
  {
    |w| > 0 && forall j :: 0 <= j < |w| ==> !IsSpace(w[j])
  }

  /** The end of the run of non-whitespace characters starting at `i`. */
  function TokenEnd(s: string, i: nat): (j: nat)
    requires i <= |s|
    ensures i <= j <= |s|
    ensures forall k :: i <= k < j ==> !IsSpace(s[k])
    ensures j < |s| ==> IsSpace(s[j])
    decreases |s| - i
  {
    if i < |s| && !IsSpace(s[i]) then TokenEnd(s, i + 1) else i
  }

  /** `str.split()` with no argument: the maximal runs of non-whitespace. */
  function Words(s: string): (r: seq<string>)
    ensures forall i :: 0 <= i < |r| ==> IsToken(r[i])
    decreases |s|
  {
    var t := StripLeft(s);
    if |t| == 0 then []
    else
      var n := TokenEnd(t, 0);
      FirstToken(t);
      var rest := Words(t[n..]);
      TokensCons(t[..n], rest);
      [t[..n]] + rest
  }

  /** A text that starts with a non-space starts with a token. */
  lemma FirstToken(t: string)
    requires |t| > 0 && !IsSpace(t[0])
    ensures TokenEnd(t, 0) > 0 && IsToken(t[..TokenEnd(t, 0)])
  {
  }

  lemma TokensCons(w: string, rest: seq<string>)
    requires IsToken(w) && forall i :: 0 <= i < |rest| ==> IsToken(rest[i])
    ensures forall i :: 0 <= i < |[w] + rest| ==> IsToken(([w] + rest)[i])
  {
    forall i | 0 <= i < |[w] + rest| ensures IsToken(([w] + rest)[i]) {
      if i > 0 {
        assert ([w] + rest)[i] == rest[i - 1];
      }
    }
  }

  /** The characters at which `str.splitlines` ends a line. */
  predicate IsLineBreak(c: char)
  {
    c == '\n' || c == '\r' || c == '\U{B}' || c == '\U{C}' || c == '\U{1C}' || c == '\U{1D}' ||
    c == '\U{1E}' || c == '\U{85}' || c == '\U{2028}' || c == '\U{2029}'
  }

  predicate NotLineBreak(c: char)
  {
    !IsLineBreak(c)
  }

  predicate NoLineBreak(s: string)
  {
    forall k :: 0 <= k < |s| ==> !IsLineBreak(s[k])
  }

  /** The line end at `i`: `\r\n` is one, any other break character is one
      by itself. */
  function LineEndAfter(s: string, i: nat): (j: nat)
    requires i < |s|
    ensures i < j <= |s|
  {
    if s[i] == '\r' && i + 1 < |s| && s[i + 1] == '\n' then i + 2 else i + 1
  }

  /** `str.splitlines()`, which is also how iterating over a text file read
      through `codecs` cuts it: the lines without their line ends, where a
      final line end starts no further line. */
  function SplitLines(s: string): (r: seq<string>)
    ensures forall i :: 0 <= i < |r| ==> NoLineBreak(r[i])
    decreases |s|
  {
    if |s| == 0 then []
    else
      var i := RunEnd(s, 0, NotLineBreak);
      if i == |s| then [s]
      else [s[..i]] + SplitLines(s[LineEndAfter(s, i)..])
  }

  /** Each line followed by `\n`, as a file that ends its last line. */
  function JoinLines(lines: seq<string>): string
  {
    if |lines| == 0 then "" else lines[0] + "\n" + JoinLines(lines[1..])
  }

  /** A text of one line without a line end is that line. */
  lemma SplitLinesOne(s: string)
    requires s != "" && NoLineBreak(s)
    ensures SplitLines(s) == [s]
  {
    assert RunEnd(s, 0, NotLineBreak) == |s| by {
      RunEndAt(s, 0, |s|, NotLineBreak);
    }
  }

  /** Any line break between two texts without one cuts them into two lines,
      `\r` included unless `\n` follows it. */
  lemma SplitLinesAtBreak(a: string, c: char, b: string)
    requires NoLineBreak(a) && IsLineBreak(c) && b != "" && NoLineBreak(b)
    ensures SplitLines(a + [c] + b) == [a, b]
  {
    var s := a + [c] + b;
    assert s[|a|] == c && s[|a| + 1] == b[0];
    assert RunEnd(s, 0, NotLineBreak) == |a| by {
      forall k | 0 <= k < |a| ensures NotLineBreak(s[k]) { assert s[k] == a[k]; }
      RunEndAt(s, 0, |a|, NotLineBreak);
    }
    assert LineEndAfter(s, |a|) == |a| + 1;
    assert s[..|a|] == a && s[|a| + 1..] == b;
    SplitLinesOne(b);
  }

  /** Writing lines with `\n` after each and cutting the text at line ends
      gives the lines back. */
  lemma {:induction false} SplitJoinLines(lines: seq<string>)
    requires forall i :: 0 <= i < |lines| ==> NoLineBreak(lines[i])
    ensures SplitLines(JoinLines(lines)) == lines
  {
    if |lines| > 0 {
      var a, rest := lines[0], JoinLines(lines[1..]);
      var s := a + "\n" + rest;
      assert s[|a|] == '\n';
      assert RunEnd(s, 0, NotLineBreak) == |a| by {
        forall k | 0 <= k < |a| ensures NotLineBreak(s[k]) { assert s[k] == a[k]; }
        RunEndAt(s, 0, |a|, NotLineBreak);
      }
      assert LineEndAfter(s, |a|) == |a| + 1;
      assert s[..|a|] == a && s[|a| + 1..] == rest;
      SplitJoinLines(lines[1..]);
      assert lines == [a] + lines[1..];
    }
  }

  /** `str.split(c)` for a one-character separator. */
  function SplitOn(s: string, c: char): (r: seq<string>)
    ensures |r| >= 1
    ensures forall i :: 0 <= i < |r| ==> c !in r[i]
  {
    if |s| == 0 then [""]
    else
      var rest := SplitOn(s[1..], c);
      if s[0] == c then [""] + rest else [[s[0]] + rest[0]] + rest[1..]
  }

  /** `sep.join(parts)`. */
  function Join(parts: seq<string>, sep: string): string
  {
    if |parts| == 0 then ""
    else if |parts| == 1 then parts[0]
    else parts[0] + sep + Join(parts[1..], sep)
  }

  /** Without the separator, `split` gives the whole text. */
  lemma {:induction false} SplitOnAbsent(s: string, c: char)
    requires c !in s
    ensures SplitOn(s, c) == [s]
  {
    if |s| > 0 {
      SplitOnAbsent(s[1..], c);
      assert [s[0]] + s[1..] == s;
    }
  }

  /** The first part of `split` is the text before the first separator. */
  lemma {:induction false} SplitOnFirst(a: string, b: string, c: char)
    requires c !in a
    ensures SplitOn(a + [c] + b, c) == [a] + SplitOn(b, c)
  {
    var s := a + [c] + b;
    if |a| > 0 {
      SplitOnFirst(a[1..], b, c);
      assert s[1..] == a[1..] + [c] + b;
      assert [a[0]] + a[1..] == a;
    } else {
      assert s[1..] == b;
    }
  }

  /** Splitting on a character and joining on it again gives back the
      parts, when none of them holds the character. */
  lemma {:induction false} SplitOnJoin(parts: seq<string>, c: char)
    requires |parts| > 0 && forall i :: 0 <= i < |parts| ==> c !in parts[i]
    ensures SplitOn(Join(parts, [c]), c) == parts
  {
    if |parts| == 1 {
      SplitOnAbsent(parts[0], c);
    } else {
      SplitOnJoin(parts[1..], c);
      SplitOnFirst(parts[0], Join(parts[1..], [c]), c);
      assert Join(parts, [c]) == parts[0] + [c] + Join(parts[1..], [c]);
      assert [parts[0]] + parts[1..] == parts;
    }
  }

  /** A text with exactly one `=` splits into the parts before and after it. */
  lemma SplitAtEquals(x: string, a: nat)
    requires a < |x| && x[a] == '='
    requires forall m :: 0 <= m < |x| && m != a ==> x[m] != '='
    ensures SplitOn(x, '=') == [x[..a], x[a + 1..]]
  {
    assert x == x[..a] + ['='] + x[a + 1..];
    assert '=' !in x[..a] by {
      assert forall m :: 0 <= m < a ==> x[..a][m] == x[m];
    }
    assert '=' !in x[a + 1..] by {
      var y := x[a + 1..];
      assert forall m :: 0 <= m < |y| ==> y[m] == x[a + 1 + m];
    }
    SplitOnFirst(x[..a], x[a + 1..], '=');
    SplitOnAbsent(x[a + 1..], '=');
  }

  /** Leading whitespace before a text that starts with none is stripped away,
      and nothing else is. */
  lemma StripAfterSpaces(sp: string, w: string)
    requires AllSpace(sp) && |w| > 0 && !IsSpace(w[0]) && !IsSpace(w[|w| - 1])
    ensures Strip(sp + w) == w
  {
    var s := sp + w;
    var l := StripLeft(s);
    assert !IsSpace(s[|sp|]);
    assert forall i :: 0 <= i < |sp| ==> IsSpace(s[i]);
    assert l == w;
    assert StripRight(w) == w;
  }

  lemma {:induction false} JoinSplitOn(s: string, c: char)
    ensures Join(SplitOn(s, c), [c]) == s
  {
    if |s| > 0 {
      var rest := SplitOn(s[1..], c);
      JoinSplitOn(s[1..], c);
      if s[0] == c {
        assert SplitOn(s, c) == [""] + rest;
        assert ([""] + rest)[1..] == rest;
        assert Join([""] + rest, [c]) == "" + [c] + Join(rest, [c]);
      } else {
        var parts := [[s[0]] + rest[0]] + rest[1..];
        assert SplitOn(s, c) == parts;
        if |rest| == 1 {
          assert Join(parts, [c]) == [s[0]] + rest[0];
        } else {
          assert parts[1..] == rest[1..];
          assert Join(rest, [c]) == rest[0] + [c] + Join(rest[1..], [c]);
          assert Join(parts, [c]) == [s[0]] + rest[0] + [c] + Join(rest[1..], [c]);
        }
      }
    }
  }

  /** `s.replace(pat, rep)`: every non-overlapping occurrence, scanning left to right. */
  function ReplaceAll(s: string, pat: string, rep: string): string
    requires |pat| > 0
    decreases |s|
  {
    if |s| < |pat| then s
    else if s[..|pat|] == pat then rep + ReplaceAll(s[|pat|..], pat, rep)
    else [s[0]] + ReplaceAll(s[1..], pat, rep)
  }

  /** Replacing a character by another one leaves no occurrence of it. */
  lemma {:induction false} ReplaceCharRemoves(s: string, c: char, d: char)
    requires c != d
    ensures c !in ReplaceAll(s, [c], [d])
  {
    if |s| >= 1 {
      ReplaceCharRemoves(s[1..], c, d);
      if s[..1] == [c] {
        assert s[1..] == s[|[c]|..];
      }
    }
  }

  /** A replacement whose pattern does not occur changes nothing. */
  lemma {:induction false} ReplaceAbsent(s: string, pat: string, rep: string)
    requires |pat| > 0 && !Contains(s, pat)
    ensures ReplaceAll(s, pat, rep) == s
  {
    if |s| >= |pat| {
      assert !OccursAt(s, pat, 0);
      assert s[..|pat|] != pat;
      forall j | 0 <= j ensures !OccursAt(s[1..], pat, j) {
        if OccursAt(s[1..], pat, j) {
          assert s[j + 1..j + 1 + |pat|] == s[1..][j..j + |pat|];
          ContainsAt(s, pat, j + 1);
        }
      }
      ReplaceAbsent(s[1..], pat, rep);
    }
  }

  /** A pattern with a character the text lacks does not occur in it. */
  lemma MissingCharNotContained(s: string, sub: string, c: char)
    requires c in sub && c !in s
    ensures !Contains(s, sub)
  {
  }

  /** When the pattern's `k`-th character occurs in the text only at `j`, the
      pattern can only occur at `j - k`. */
  lemma AbsentByAlignment(s: string, sub: string, k: nat, j: nat)
    requires k < |sub| && j < |s| && s[j] == sub[k]
    requires forall i :: 0 <= i < |s| && s[i] == sub[k] ==> i == j
    requires j < k || !OccursAt(s, sub, j - k)
    ensures !Contains(s, sub)
  {
  }

  /** A leading occurrence is replaced and the scan goes on after it. */
  lemma ReplaceLeading(s: string, pat: string, rep: string)
    requires |pat| > 0
    ensures ReplaceAll(pat + s, pat, rep) == rep + ReplaceAll(s, pat, rep)
  {
    assert (pat + s)[..|pat|] == pat;
    assert (pat + s)[|pat|..] == s;
  }

  /** Python's `capitalize()`: first character upper case, the rest lower case. */
  function Capitalize(s: string): (r: string)
    ensures |r| == |s|
  {
    if |s| == 0 then "" else [UpperChar(s[0])] + Lower(s[1..])
  }

  /** Python's `title()`: a letter is upper-cased when the previous character
      is not a letter and lower-cased when it is. */
  function Title(s: string): string
  {
    TitleAfter(s, false)
  }

  function TitleAfter(s: string, afterLetter: bool): (r: string)
    ensures |r| == |s|
  {
    if |s| == 0 then ""
    else
      var c := if afterLetter then LowerChar(s[0]) else UpperChar(s[0]);
      [c] + TitleAfter(s[1..], IsLetter(s[0]))
  }

  /** Title case keeps every non-letter in place and only changes the case of letters. */
  lemma {:induction false} TitleKeepsNonLetters(s: string, afterLetter: bool)
    ensures forall i :: 0 <= i < |s| && !IsLetter(s[i]) ==> TitleAfter(s, afterLetter)[i] == s[i]
  {
    if |s| > 0 {
      TitleKeepsNonLetters(s[1..], IsLetter(s[0]));
      var r := TitleAfter(s, afterLetter);
      forall i | 0 <= i < |s| && !IsLetter(s[i]) ensures r[i] == s[i] {
        if i > 0 {
          assert r[i] == TitleAfter(s[1..], IsLetter(s[0]))[i - 1];
        }
      }
    }
  }

  /** Title case neither creates nor removes a non-letter. */
  lemma {:induction false} TitleKeepsAbsent(s: string, afterLetter: bool, c: char)
    requires !IsLetter(c) && c !in s
    ensures c !in TitleAfter(s, afterLetter)
  {
    if |s| > 0 {
      TitleKeepsAbsent(s[1..], IsLetter(s[0]), c);
    }
  }

  /** Python's `isdigit()` on ASCII: non-empty and all digits. */
  predicate IsDigits(s: string)
  {
    |s| > 0 && forall i :: 0 <= i < |s| ==> IsDigit(s[i])
  }

  /** Python's `isupper()` on ASCII: some upper-case letter and no lower-case one. */
  predicate IsUpperPy(s: string)
  {
    (exists i :: 0 <= i < |s| && IsUpperChar(s[i])) && forall i :: 0 <= i < |s| ==> !IsLowerChar(s[i])
  }

  /** Python's ordering of strings: lexicographic by code point, a prefix first. */
  predicate Below(a: string, b: string)
    decreases |a|
  {
    |a| == 0 || (|b| > 0 && (a[0] < b[0] || (a[0] == b[0] && Below(a[1..], b[1..]))))
  }

  lemma {:induction false} BelowReflexive(a: string)
    ensures Below(a, a)
    decreases |a|
  {
    if |a| > 0 {
      BelowReflexive(a[1..]);
    }
  }

  lemma {:induction false} BelowTotal(a: string, b: string)
    ensures Below(a, b) || Below(b, a)
    decreases |a|
  {
    if |a| > 0 && |b| > 0 && a[0] == b[0] {
      BelowTotal(a[1..], b[1..]);
    }
  }

  lemma {:induction false} BelowTransitive(a: string, b: string, c: string)
    requires Below(a, b) && Below(b, c)
    ensures Below(a, c)
    decreases |a|
  {
    if |a| > 0 && a[0] == b[0] && b[0] == c[0] {
      BelowTransitive(a[1..], b[1..], c[1..]);
    }
  }

  lemma {:induction false} BelowAntisymmetric(a: string, b: string)
    requires Below(a, b) && Below(b, a)
    ensures a == b
    decreases |a|
  {
    if |a| > 0 {
      BelowAntisymmetric(a[1..], b[1..]);
      assert a == [a[0]] + a[1..] && b == [b[0]] + b[1..];
    }
  }
}
