/** The text scanners the Python scripts use on game-script files: brace
    matching, comment and string removal, the fixed regular expressions they
    search with (each one written out as the deterministic scanner it
    amounts to), and the line-by-line block splitter of
    scripts/reverse_unlock_parser.py and update/extract_icon_mappings.py.
    Character classes are ASCII. */
module Scan {
  import opened Wrappers
  import opened Seqs
  import opened Text

  /** A directory listing as the scripts read it: each file's name and its
      text, or None when it cannot be read. */
  type Listing = seq<(string, Option<string>)>

  // ---------------------------------------------------------------------
  // Counting braces

  /** `s.count(c)` for one character. */
  function Count(s: string, c: char): nat
  {
    if |s| == 0 then 0 else Count(s[..|s| - 1], c) + (if s[|s| - 1] == c then 1 else 0)
  }

  /** A character is counted at most once per position, and not at all
      exactly when it does not occur. */
  lemma {:induction false} CountBounds(s: string, c: char)
    ensures Count(s, c) <= |s|
    ensures Count(s, c) == 0 <==> c !in s
  {
    if |s| > 0 {
      CountBounds(s[..|s| - 1], c);
      assert s == s[..|s| - 1] + [s[|s| - 1]];
    }
  }

  /** How a character changes the brace depth. */
  function Delta(c: char): int
  {
    if c == '{' then 1 else if c == '}' then -1 else 0
  }

  /** Opening minus closing braces. */
  function Net(s: string): int
  {
    Count(s, '{') as int - Count(s, '}') as int
  }

  lemma NetSnoc(s: string, i: nat, k: nat)
    requires i <= k < |s|
    ensures Net(s[i..k + 1]) == Net(s[i..k]) + Delta(s[k])
  {
    assert s[i..k + 1][..k - i] == s[i..k];
  }

  /** The brace depth after `s[start..k]`, starting from `d`. */
  function Depth(s: string, start: nat, d: int, k: nat): int
    requires start <= k <= |s|
    decreases k
  {
    if k == start then d else Depth(s, start, d, k - 1) + Delta(s[k - 1])
  }

  lemma {:induction false} DepthNet(s: string, start: nat, d: int, k: nat)
    requires start <= k <= |s|
    ensures Depth(s, start, d, k) == d + Net(s[start..k])
    decreases k
  {
    if k > start {
      DepthNet(s, start, d, k - 1);
      NetSnoc(s, start, k - 1);
    } else {
      assert s[start..k] == [];
    }
  }

  /** The first `}` at or after `pos` at which the depth, counted from
      `start` with initial depth `d`, is back to 0. */
  function CloseFrom(s: string, start: nat, d: int, pos: nat): (r: Option<nat>)
    requires start <= pos <= |s|
    ensures r.Some? ==> pos <= r.value < |s| && s[r.value] == '}' && Depth(s, start, d, r.value + 1) == 0
    ensures r.Some? ==> forall m :: pos <= m < r.value && s[m] == '}' ==> Depth(s, start, d, m + 1) != 0
    ensures r.None? ==> forall m :: pos <= m < |s| && s[m] == '}' ==> Depth(s, start, d, m + 1) != 0
    decreases |s| - pos
  {
    if pos == |s| then None
    else if s[pos] == '}' && Depth(s, start, d, pos + 1) == 0 then Some(pos)
    else CloseFrom(s, start, d, pos + 1)
  }

  /** The brace loop every scanner shares: walk from `start` with depth `d`,
      one up for `{`, one down for `}`, and stop at the `}` that brings the
      depth to 0. */
  method ScanClose(s: string, start: nat, d: int) returns (r: Option<nat>)
    requires start <= |s|
    ensures r == CloseFrom(s, start, d, start)
  {
    var depth := d;
    var pos := start;
    while pos < |s|
      invariant start <= pos <= |s|
      invariant depth == Depth(s, start, d, pos)
      invariant CloseFrom(s, start, d, pos) == CloseFrom(s, start, d, start)
    {
      if s[pos] == '{' {
        depth := depth + 1;
      } else if s[pos] == '}' {
        depth := depth - 1;
        if depth == 0 {
          return Some(pos);
        }
      }
      pos := pos + 1;
    }
    return None;
  }

  /** What `_extract_block` returns: the text from `start` through the first
      `}` that balances the braces counted from `start`, or None. */
  function BlockAt(s: string, start: nat): (r: Option<string>)
    ensures r.Some? ==> start < |s| && r.value <= s[start..]
    ensures r.Some? ==> |r.value| > 0 && r.value[|r.value| - 1] == '}' && Net(r.value) == 0
    ensures r.None? <==> start >= |s| || CloseFrom(s, start, 0, start).None?
  {
    if start >= |s| then None
    else match CloseFrom(s, start, 0, start)
      case None => None
      case Some(k) => DepthNet(s, start, 0, k + 1); Some(s[start..k + 1])
  }

  /** `_extract_block` (update/supplemental_tech_parser.py and
      update/component_parser.py). */
  method ExtractBlock(content: string, start: nat) returns (r: Option<string>)
    ensures r == BlockAt(content, start)
  {
    if start >= |content| {
      return None;
    }
    var close := ScanClose(content, start, 0);
    match close {
      case None => r := None;
      case Some(k) => r := Some(content[start..k + 1]);
    }
  }

  /** The block is the shortest one: no shorter prefix ending in `}` balances. */
  lemma BlockShortest(s: string, start: nat, j: nat)
    requires BlockAt(s, start).Some?
    requires 0 < j < |BlockAt(s, start).value| && BlockAt(s, start).value[j - 1] == '}'
    ensures Net(BlockAt(s, start).value[..j]) != 0
  {
    var b := BlockAt(s, start).value;
    assert b[..j] == s[start..start + j];
    assert s[start + j - 1] == '}';
    DepthNet(s, start, 0, start + j);
  }

  lemma {:induction false} DepthPositive(s: string, start: nat, k: nat)
    requires start < |s| && s[start] == '{'
    requires CloseFrom(s, start, 0, start).Some?
    requires start < k <= CloseFrom(s, start, 0, start).value
    ensures Depth(s, start, 0, k) > 0
    decreases k
  {
    if k > start + 1 {
      DepthPositive(s, start, k - 1);
      if s[k - 1] == '}' {
        assert Depth(s, start, 0, k) != 0;
      }
    }
  }

  /** Opened by `{`, the block stays open (depth above 0) until its last character. */
  lemma BlockBalanced(s: string, start: nat, j: nat)
    requires start < |s| && s[start] == '{'
    requires BlockAt(s, start).Some?
    requires 0 < j < |BlockAt(s, start).value|
    ensures Net(BlockAt(s, start).value[..j]) > 0
  {
    var b := BlockAt(s, start).value;
    assert b[..j] == s[start..start + j];
    DepthPositive(s, start, start + j);
    DepthNet(s, start, 0, start + j);
  }

  /** Where the cursor loops stop: one past the `}` that closes a block
      opened just before `start`, or the end of the text when it never closes. */
  function BlockEnd(s: string, start: nat): (e: nat)
    requires start <= |s|
    ensures start <= e <= |s|
    ensures CloseFrom(s, start, 1, start).Some? ==> start < e && s[e - 1] == '}' && Net(s[start..e]) == -1
    ensures CloseFrom(s, start, 1, start).None? ==> e == |s|
  {
    match CloseFrom(s, start, 1, start)
    case Some(k) => DepthNet(s, start, 1, k + 1); k + 1
    case None => |s|
  }

  /** The cursor loops' brace walk (`while brace_count > 0 and block_end < len(content)`):
      from depth 1 at `start`; the end and whether the depth came back to 0. */
  method WalkToClose(s: string, start: nat) returns (end: nat, closed: bool)
    requires start <= |s|
    ensures end == BlockEnd(s, start)
    ensures closed <==> CloseFrom(s, start, 1, start).Some?
  {
    var k := ScanClose(s, start, 1);
    match k {
      case Some(c) => end, closed := c + 1, true;
      case None => end, closed := |s|, false;
    }
  }

  // ---------------------------------------------------------------------
  // Comments and strings

  predicate NotNewline(c: char) { c != '\n' }

  /** `re.sub(r'#.*', '', s)` (and its `#.*?$` / `#.*$` multi-line forms):
      every `#` and the rest of its line go; the line break stays. */
  function StripComments(s: string): string
    decreases |s|
  {
    if |s| == 0 then ""
    else if s[0] == '#' then StripComments(s[RunEnd(s, 0, NotNewline)..])
    else [s[0]] + StripComments(s[1..])
  }

  /** No `#` survives, and a text without one is unchanged. */
  lemma {:induction false} StripCommentsRemovesHash(s: string)
    ensures '#' !in StripComments(s)
    ensures '#' !in s ==> StripComments(s) == s
    decreases |s|
  {
    if |s| > 0 {
      if s[0] == '#' {
        StripCommentsRemovesHash(s[RunEnd(s, 0, NotNewline)..]);
      } else {
        StripCommentsRemovesHash(s[1..]);
        assert s == [s[0]] + s[1..];
      }
    }
  }

  /** Text before the first `#` is kept as it is. */
  lemma {:induction false} StripCommentsPrefix(a: string, b: string)
    requires '#' !in a
    ensures StripComments(a + b) == a + StripComments(b)
  {
    if |a| > 0 {
      assert (a + b)[1..] == a[1..] + b;
      StripCommentsPrefix(a[1..], b);
    } else {
      assert a + b == b;
    }
  }

  /** A commented-out line, whatever it says, leaves only its line break. */
  lemma CommentLineDropped(c: string, b: string)
    requires '\n' !in c
    ensures StripComments("#" + c + "\n" + b) == "\n" + StripComments(b)
  {
    var s := "#" + c + "\n" + b;
    var e := RunEnd(s, 0, NotNewline);
    assert s[|c| + 1] == '\n';
    forall k | 0 <= k < |c| + 1 ensures NotNewline(s[k]) {
      if k > 0 { assert s[k] == c[k - 1]; }
    }
    assert e == |c| + 1;
    assert s[e..] == "\n" + b;
    assert ("\n" + b)[1..] == b;
  }

  /** The first index at or after `i` holding `c` (`str.find` for one character). */
  function IndexOf(s: string, c: char, i: nat): (r: Option<nat>)
    ensures r.Some? ==> i <= r.value < |s| && s[r.value] == c
    ensures r.Some? ==> forall k :: i <= k < r.value ==> s[k] != c
    ensures r.None? ==> forall k :: i <= k < |s| ==> s[k] != c
    decreases |s| - i
  {
    if i >= |s| then None else if s[i] == c then Some(i) else IndexOf(s, c, i + 1)
  }

  /** `re.sub(r'"[^"]*"', '', s)`: each pair of quotes and what lies between
      them goes, left to right; an unmatched quote stays. */
  function RemoveQuoted(s: string): string
    decreases |s|
  {
    match IndexOf(s, '"', 0)
    case None => s
    case Some(i) =>
      match IndexOf(s, '"', i + 1)
      case None => s
      case Some(j) => s[..i] + RemoveQuoted(s[j + 1..])
  }

  /** Removing strings never lengthens the text, and a text without quotes
      is unchanged. */
  lemma {:induction false} RemoveQuotedBounds(s: string)
    ensures |RemoveQuoted(s)| <= |s|
    ensures '"' !in s ==> RemoveQuoted(s) == s
    decreases |s|
  {
    match IndexOf(s, '"', 0)
    case None =>
    case Some(i) =>
      assert s[i] in s;
      match IndexOf(s, '"', i + 1)
      case None =>
      case Some(j) =>
        var rest := s[j + 1..];
        RemoveQuotedBounds(rest);
        assert RemoveQuoted(s) == s[..i] + RemoveQuoted(rest);
  }

  /** A quoted string, whatever it holds, is removed entirely. */
  lemma QuotedDropped(a: string, x: string, b: string)
    requires '"' !in a && '"' !in x
    ensures RemoveQuoted(a + "\"" + x + "\"" + b) == a + RemoveQuoted(b)
  {
    var s := a + "\"" + x + "\"" + b;
    assert s[|a|] == '"' && s[|a| + 1 + |x|] == '"';
    forall k | 0 <= k < |a| ensures s[k] != '"' { assert s[k] == a[k]; }
    forall k | |a| < k < |a| + 1 + |x| ensures s[k] != '"' { assert s[k] == x[k - |a| - 1]; }
    assert IndexOf(s, '"', 0) == Some(|a|);
    assert IndexOf(s, '"', |a| + 1) == Some(|a| + 1 + |x|);
    assert s[..|a|] == a;
    assert s[|a| + 2 + |x|..] == b;
  }

  /** A line as the line scanner counts its braces: comment cut, strings removed. */
  function CleanLine(line: string): string
  {
    RemoveQuoted(StripComments(line))
  }

  /** The depth change of one line. */
  function LineNet(line: string): int
  {
    Net(CleanLine(line))
  }

  /** Braces after a `#` do not count. */
  lemma CommentBracesIgnored(a: string, c: string)
    requires '#' !in a && '\n' !in c
    ensures CleanLine(a + "#" + c) == RemoveQuoted(a)
  {
    StripCommentsPrefix(a, "#" + c);
    assert StripComments("#" + c) == "" by {
      var s := "#" + c;
      forall k | 0 <= k < |s| ensures NotNewline(s[k]) {
        if k > 0 { assert s[k] == c[k - 1]; }
      }
      assert RunEnd(s, 0, NotNewline) == |s|;
      assert s[|s|..] == "";
    }
    assert a + "#" + c == a + ("#" + c);
    assert a + "" == a;
  }

  // ---------------------------------------------------------------------
  // Fixed regular expressions

  /** The character classes the patterns use. */
  datatype CharClass =
    | WordC     // \w  (ASCII letters, digits, _)
    | DigitC    // \d
    | ScriptC   // [\w._-]
    | IconC     // [a-zA-Z0-9_-]
    | LooseC    // [^"\s]
    | NotQuote  // [^"]
    | NotBrace  // [^}]
    | NumberC   // [\d.]
    | SignedC   // [-\d.]
    | DottedC   // [\w.]

  predicate InClass(c: char, k: CharClass)
  {
    match k
    case WordC => IsWordChar(c)
    case DigitC => IsDigit(c)
    case ScriptC => IsWordChar(c) || c == '.' || c == '-'
    case IconC => IsWordChar(c) || c == '-'
    case LooseC => c != '"' && !IsSpace(c)
    case NotQuote => c != '"'
    case NotBrace => c != '}'
    case NumberC => IsDigit(c) || c == '.'
    case SignedC => IsDigit(c) || c == '.' || c == '-'
    case DottedC => IsWordChar(c) || c == '.'
  }

  /** The end of the longest run of class `k` starting at `i`. */
  function ClassEnd(s: string, i: nat, k: CharClass): (j: nat)
    requires i <= |s|
    ensures i <= j <= |s|
    ensures forall m :: i <= m < j ==> InClass(s[m], k)
    ensures j < |s| ==> !InClass(s[j], k)
    decreases |s| - i
  {
    if i < |s| && InClass(s[i], k) then ClassEnd(s, i + 1, k) else i
  }

  /** The captured value patterns, each at a fixed position. */
  datatype Value =
    | Run(k: CharClass)         // (cls+)
    | Ident                     // ([A-Za-z_][A-Za-z0-9_]*)
    | TechRun                   // (tech_\w+)
    | Quoted(prefix: string)    // "(prefix[^"]+)"
    | QuotedTech                // "(tech_\w+)"
    | Braced                    // \{([^}]+)\}
    | Open                      // \{
    | BracedQuoted              // \{\s*"([^"]+)"
    | BracedWord                // \{\s*(\w+)\s*\}
    | OptQuoted(k: CharClass)   // "?(cls+)"?  for a class without '"'
    | AtRun(k: CharClass)       // (@?cls+)  for a class without '@'

  /** The end of `tech_\w+` at `j`. */
  function TechRunEnd(s: string, j: nat): (r: Option<nat>)
    requires j <= |s|
    ensures r.Some? ==> j + 5 < r.value <= |s|
  {
    var e := ClassEnd(s, j, WordC);
    if e - j > 5 && StartsWith(s[j..e], "tech_") then Some(e) else None
  }

  /** A capture and the position after the match. */
  type Capture = Option<(string, nat)>

  /** The value captured at `j` and the position after the match. */
  function ValueAt(s: string, j: nat, v: Value): (r: Capture)
    requires j <= |s|
    ensures r.Some? ==> j < r.value.1 <= |s|
  {
    match v
    case Run(k) => RunValue(s, j, k)
    case Ident => IdentValue(s, j)
    case TechRun =>
      (match TechRunEnd(s, j)
       case None => None
       case Some(e) => Some((s[j..e], e)))
    case Quoted(prefix) => QuotedValue(s, j, prefix)
    case QuotedTech => QuotedTechValue(s, j)
    case Braced => BracedValue(s, j)
    case Open => if j < |s| && s[j] == '{' then Some(("", j + 1)) else None
    case BracedQuoted => BracedQuotedValue(s, j)
    case BracedWord => BracedWordValue(s, j)
    case OptQuoted(k) => OptQuotedValue(s, j, k)
    case AtRun(k) => AtRunValue(s, j, k)
  }

  /** `(cls+)` */
  function RunValue(s: string, j: nat, k: CharClass): (r: Capture)
    requires j <= |s|
    ensures r.Some? ==> j < r.value.1 <= |s|
  {
    var e := ClassEnd(s, j, k);
    if e > j then Some((s[j..e], e)) else None
  }

  /** `([A-Za-z_][A-Za-z0-9_]*)` */
  function IdentValue(s: string, j: nat): (r: Capture)
    requires j <= |s|
    ensures r.Some? ==> j < r.value.1 <= |s|
  {
    var e := ClassEnd(s, j, WordC);
    if e > j && !IsDigit(s[j]) then Some((s[j..e], e)) else None
  }

  /** `"(prefix[^"]+)"` */
  function QuotedValue(s: string, j: nat, prefix: string): (r: Capture)
    requires j <= |s|
    ensures r.Some? ==> j < r.value.1 <= |s|
  {
    if j < |s| && s[j] == '"' && StartsWith(s[j + 1..], prefix) then
      var b := j + 1 + |prefix|;
      var e := ClassEnd(s, b, NotQuote);
      if b < e < |s| then Some((s[j + 1..e], e + 1)) else None
    else None
  }

  /** `"(tech_\w+)"` */
  function QuotedTechValue(s: string, j: nat): (r: Capture)
    requires j <= |s|
    ensures r.Some? ==> j < r.value.1 <= |s|
  {
    if j < |s| && s[j] == '"' then
      match TechRunEnd(s, j + 1)
      case None => None
      case Some(e) => if e < |s| && s[e] == '"' then Some((s[j + 1..e], e + 1)) else None
    else None
  }

  /** `\{([^}]+)\}` */
  function BracedValue(s: string, j: nat): (r: Capture)
    requires j <= |s|
    ensures r.Some? ==> j < r.value.1 <= |s|
  {
    if j < |s| && s[j] == '{' then
      var e := ClassEnd(s, j + 1, NotBrace);
      if j + 1 < e < |s| then Some((s[j + 1..e], e + 1)) else None
    else None
  }

  /** `\{\s*"([^"]+)"` */
  function BracedQuotedValue(s: string, j: nat): (r: Capture)
    requires j <= |s|
    ensures r.Some? ==> j < r.value.1 <= |s|
  {
    if j < |s| && s[j] == '{' then
      var q := RunEnd(s, j + 1, IsSpace);
      if q < |s| && s[q] == '"' then
        var e := ClassEnd(s, q + 1, NotQuote);
        if q + 1 < e < |s| then Some((s[q + 1..e], e + 1)) else None
      else None
    else None
  }

  /** `\{\s*(\w+)\s*\}` */
  function BracedWordValue(s: string, j: nat): (r: Capture)
    requires j <= |s|
    ensures r.Some? ==> j < r.value.1 <= |s|
  {
    if j < |s| && s[j] == '{' then
      var a := RunEnd(s, j + 1, IsSpace);
      var e := ClassEnd(s, a, WordC);
      var b := RunEnd(s, e, IsSpace);
      if a < e && b < |s| && s[b] == '}' then Some((s[a..e], b + 1)) else None
    else None
  }

  /** `"?(cls+)"?`: the opening quote is taken only when the run follows it. */
  function OptQuotedValue(s: string, j: nat, k: CharClass): (r: Capture)
    requires j <= |s|
    ensures r.Some? ==> j < r.value.1 <= |s|
  {
    var a := if j + 1 < |s| && s[j] == '"' && InClass(s[j + 1], k) then j + 1 else j;
    var e := ClassEnd(s, a, k);
    if a < e then Some((s[a..e], if e < |s| && s[e] == '"' then e + 1 else e)) else None
  }

  /** `(@?cls+)` */
  function AtRunValue(s: string, j: nat, k: CharClass): (r: Capture)
    requires j <= |s|
    ensures r.Some? ==> j < r.value.1 <= |s|
  {
    var a := if j < |s| && s[j] == '@' then j + 1 else j;
    var e := ClassEnd(s, a, k);
    if a < e then Some((s[j..e], e)) else None
  }

  /** `\s*=\s*` at `i`: the position after it. */
  function AssignEnd(s: string, i: nat): (r: Option<nat>)
    requires i <= |s|
    ensures r.Some? ==> i < r.value <= |s|
  {
    var a := RunEnd(s, i, IsSpace);
    if a < |s| && s[a] == '=' then Some(RunEnd(s, a + 1, IsSpace)) else None
  }

  /** `\s*=\s*\{` at `i`: the position after the brace. */
  function OpenEnd(s: string, i: nat): (r: Option<nat>)
    requires i <= |s|
    ensures r.Some? ==> i < r.value <= |s| && s[r.value - 1] == '{'
  {
    match AssignEnd(s, i)
    case None => None
    case Some(b) => if b < |s| && s[b] == '{' then Some(b + 1) else None
  }

  /** `^` in multi-line mode: the start of the text or just after a line break. */
  predicate LineStart(s: string, i: nat)
  {
    i == 0 || (0 < i <= |s| && s[i - 1] == '\n')
  }

  /** The patterns the scripts search with. */
  datatype Pattern =
    | Assign(kw: string, v: Value)          // kw\s*=\s*V
    | BoundedAssign(kw: string, v: Value)   // \bkw\s*=\s*V, for a kw that starts with a word character
    | Bare(v: Value)                        // V
    | Header(id: Value, indent: bool)       // ^\s*(ID)\s*=\s*\{ when indented, else ^(ID)\s*=\s*\{
    | Template                              // (\w+_component_template)\s*=\s*\{
    | LineAssign(kw: string, v: Value)      // ^\s*kw\s*=\s*V

  const TemplateSuffix: string := "_component_template"

  /** A match found by `p` at `i`: where it starts, what its group captures, and where it ends. */
  datatype Hit = Hit(start: nat, value: string, end: nat)

  function HitAt(s: string, i: nat, p: Pattern): (r: Option<Hit>)
    requires i <= |s|
    ensures r.Some? ==> r.value.start == i && i < r.value.end <= |s|
  {
    match p
    case Assign(kw, v) => AssignHit(s, i, kw, v)
    case BoundedAssign(kw, v) =>
      if i == 0 || !IsWordChar(s[i - 1]) then AssignHit(s, i, kw, v) else None
    case Bare(v) => BareHit(s, i, v)
    case Header(id, indent) => HeaderHit(s, i, id, indent)
    case Template => TemplateHit(s, i)
    case LineAssign(kw, v) =>
      if LineStart(s, i) then
        var j := RunEnd(s, i, IsSpace);
        match AssignHit(s, j, kw, v)
        case None => None
        case Some(h) => Some(Hit(i, h.value, h.end))
      else None
  }

  function BareHit(s: string, i: nat, v: Value): (r: Option<Hit>)
    requires i <= |s|
    ensures r.Some? ==> r.value.start == i && i < r.value.end <= |s|
  {
    match ValueAt(s, i, v)
    case None => None
    case Some((w, e)) => Some(Hit(i, w, e))
  }

  function HeaderHit(s: string, i: nat, id: Value, indent: bool): (r: Option<Hit>)
    requires i <= |s|
    ensures r.Some? ==> r.value.start == i && i < r.value.end <= |s|
  {
    if LineStart(s, i) then
      var j := if indent then RunEnd(s, i, IsSpace) else i;
      match ValueAt(s, j, id)
      case None => None
      case Some((w, e)) =>
        match OpenEnd(s, e)
        case None => None
        case Some(b) => Some(Hit(i, w, b))
    else None
  }

  function TemplateHit(s: string, i: nat): (r: Option<Hit>)
    requires i <= |s|
    ensures r.Some? ==> r.value.start == i && i < r.value.end <= |s|
  {
    var e := ClassEnd(s, i, WordC);
    if e - i > |TemplateSuffix| && EndsWith(s[i..e], TemplateSuffix) then
      match OpenEnd(s, e)
      case None => None
      case Some(b) => Some(Hit(i, s[i..e], b))
    else None
  }

  function AssignHit(s: string, i: nat, kw: string, v: Value): (r: Option<Hit>)
    requires i <= |s|
    ensures r.Some? ==> r.value.start == i && i < r.value.end <= |s|
  {
    if OccursAt(s, kw, i) then
      match AssignEnd(s, i + |kw|)
      case None => None
      case Some(b) =>
        (match ValueAt(s, b, v)
         case None => None
         case Some((w, e)) => Some(Hit(i, w, e)))
    else None
  }

  /** `re.search` from `i`: the leftmost hit. */
  function SearchFrom(s: string, i: nat, p: Pattern): (r: Option<Hit>)
    requires i <= |s|
    ensures r.Some? ==> i <= r.value.start <= |s| && HitAt(s, r.value.start, p) == Some(r.value)
    ensures r.Some? ==> forall m :: i <= m < r.value.start ==> HitAt(s, m, p).None?
    ensures r.None? ==> forall m :: i <= m <= |s| ==> HitAt(s, m, p).None?
    decreases |s| - i
  {
    var h := HitAt(s, i, p);
    if h.Some? then h
    else if i == |s| then None
    else
      var r := SearchFrom(s, i + 1, p);
      NoHitBefore(s, i, p, r);
      r
  }

  /** No hit at `i` and none from `i + 1` up to the next hit: none from `i`. */
  lemma NoHitBefore(s: string, i: nat, p: Pattern, r: Option<Hit>)
    requires i < |s| && HitAt(s, i, p).None?
    requires r.Some? ==> r.value.start <= |s| && forall m :: i + 1 <= m < r.value.start ==> HitAt(s, m, p).None?
    requires r.None? ==> forall m :: i + 1 <= m <= |s| ==> HitAt(s, m, p).None?
    ensures r.Some? ==> forall m :: i <= m < r.value.start ==> HitAt(s, m, p).None?
    ensures r.None? ==> forall m :: i <= m <= |s| ==> HitAt(s, m, p).None?
  {
  }

  /** `re.search(p, s)`. */
  function Search(s: string, p: Pattern): Option<Hit>
  {
    SearchFrom(s, 0, p)
  }

  /** The captured value of `re.search`, or None. */
  function SearchValue(s: string, p: Pattern): Option<string>
  {
    match Search(s, p)
    case None => None
    case Some(h) => Some(h.value)
  }

  /** `re.finditer` from `i`: leftmost hits, each search resuming where the
      previous hit ended. */
  function FindAllFrom(s: string, i: nat, p: Pattern): (r: seq<Hit>)
    requires i <= |s|
    ensures forall k :: 0 <= k < |r| ==> i <= r[k].start <= |s| && HitAt(s, r[k].start, p) == Some(r[k])
    ensures forall k :: 0 <= k < |r| - 1 ==> r[k].end <= r[k + 1].start
    decreases |s| - i
  {
    match SearchFrom(s, i, p)
    case None => []
    case Some(h) =>
      var rest := FindAllFrom(s, h.end, p);
      HitsCons(s, i, p, h, rest);
      [h] + rest
  }

  /** A hit followed by the hits after it keeps the hits in order. */
  lemma HitsCons(s: string, i: nat, p: Pattern, h: Hit, rest: seq<Hit>)
    requires i <= h.start < h.end <= |s| && HitAt(s, h.start, p) == Some(h)
    requires forall k :: 0 <= k < |rest| ==> h.end <= rest[k].start <= |s| && HitAt(s, rest[k].start, p) == Some(rest[k])
    requires forall k :: 0 <= k < |rest| - 1 ==> rest[k].end <= rest[k + 1].start
    ensures var r := [h] + rest;
      && (forall k :: 0 <= k < |r| ==> i <= r[k].start <= |s| && HitAt(s, r[k].start, p) == Some(r[k]))
      && (forall k :: 0 <= k < |r| - 1 ==> r[k].end <= r[k + 1].start)
  {
    var r := [h] + rest;
    forall k | 0 <= k < |r| ensures i <= r[k].start <= |s| && HitAt(s, r[k].start, p) == Some(r[k]) {
      if k > 0 {
        HitsConsAt(h, rest, k);
      }
    }
    forall k | 0 <= k < |r| - 1 ensures r[k].end <= r[k + 1].start {
      if k > 0 {
        HitsConsAt(h, rest, k);
        HitsConsAt(h, rest, k + 1);
      }
    }
  }

  lemma HitsConsAt(h: Hit, rest: seq<Hit>, k: nat)
    requires 0 < k <= |rest|
    ensures ([h] + rest)[k] == rest[k - 1]
  {
  }

  /** `re.findall(p, s)` for a pattern with one group: the captured values. */
  function FindAll(s: string, p: Pattern): (r: seq<string>)
  {
    Values(FindAllFrom(s, 0, p))
  }

  function Values(hits: seq<Hit>): (r: seq<string>)
    ensures |r| == |hits| && forall k :: 0 <= k < |hits| ==> r[k] == hits[k].value
  {
    MapSeq(hits, (h: Hit) => h.value)
  }

  /** A text without the keyword has no hit of an assignment pattern on it. */
  lemma {:induction false} AssignNeedsKeyword(s: string, kw: string, v: Value)
    requires !Contains(s, kw)
    ensures Search(s, Assign(kw, v)).None?
  {
    forall m | 0 <= m <= |s| ensures HitAt(s, m, Assign(kw, v)).None? {
      if OccursAt(s, kw, m) {
        ContainsAt(s, kw, m);
      }
    }
  }

  /** What a value pattern captures, whatever the text around it. */
  predicate Captures(v: Value, w: string)
  {
    match v
    case Run(k) => |w| > 0 && forall m :: 0 <= m < |w| ==> InClass(w[m], k)
    case TechRun => |w| > 5 && StartsWith(w, "tech_") && forall m :: 0 <= m < |w| ==> IsWordChar(w[m])
    case QuotedTech => |w| > 5 && StartsWith(w, "tech_") && forall m :: 0 <= m < |w| ==> IsWordChar(w[m])
    case Quoted(prefix) => |w| > |prefix| && StartsWith(w, prefix) && forall m :: |prefix| <= m < |w| ==> w[m] != '"'
    case Braced => |w| > 0 && forall m :: 0 <= m < |w| ==> w[m] != '}'
    case OptQuoted(k) => |w| > 0 && forall m :: 0 <= m < |w| ==> InClass(w[m], k)
    case AtRun(k) => |w| > 0 && w != "@" && forall m :: 0 <= m < |w| ==> InClass(w[m], k) || (m == 0 && w[m] == '@')
    case BracedQuoted => |w| > 0 && forall m :: 0 <= m < |w| ==> w[m] != '"'
    case BracedWord => |w| > 0 && forall m :: 0 <= m < |w| ==> IsWordChar(w[m])
    case _ => true
  }

  lemma ValueCaptures(s: string, j: nat, v: Value)
    requires j <= |s| && ValueAt(s, j, v).Some?
    ensures Captures(v, ValueAt(s, j, v).value.0)
  {
    match v
    case Run(k) => RunCaptures(s, j, k);
    case Ident =>
    case TechRun => TechRunCaptures(s, j);
    case Quoted(prefix) => QuotedCaptures(s, j, prefix);
    case QuotedTech => QuotedTechCaptures(s, j);
    case Braced => BracedCaptures(s, j);
    case Open =>
    case BracedQuoted => BracedQuotedCaptures(s, j);
    case BracedWord => BracedWordCaptures(s, j);
    case OptQuoted(k) => OptQuotedCaptures(s, j, k);
    case AtRun(k) => AtRunCaptures(s, j, k);
  }

  lemma RunCaptures(s: string, j: nat, k: CharClass)
    requires j <= |s| && RunValue(s, j, k).Some?
    ensures Captures(Run(k), RunValue(s, j, k).value.0)
  {
  }

  lemma TechRunCaptures(s: string, j: nat)
    requires j <= |s| && ValueAt(s, j, TechRun).Some?
    ensures Captures(TechRun, ValueAt(s, j, TechRun).value.0)
  {
  }

  lemma QuotedTechCaptures(s: string, j: nat)
    requires j <= |s| && QuotedTechValue(s, j).Some?
    ensures Captures(QuotedTech, QuotedTechValue(s, j).value.0)
  {
    var e := TechRunEnd(s, j + 1).value;
    assert s[j + 1..e] == s[j + 1..e][..];
  }

  lemma BracedCaptures(s: string, j: nat)
    requires j <= |s| && BracedValue(s, j).Some?
    ensures Captures(Braced, BracedValue(s, j).value.0)
  {
  }

  lemma BracedQuotedCaptures(s: string, j: nat)
    requires j <= |s| && BracedQuotedValue(s, j).Some?
    ensures Captures(BracedQuoted, BracedQuotedValue(s, j).value.0)
  {
  }

  lemma BracedWordCaptures(s: string, j: nat)
    requires j <= |s| && BracedWordValue(s, j).Some?
    ensures Captures(BracedWord, BracedWordValue(s, j).value.0)
  {
  }

  lemma OptQuotedCaptures(s: string, j: nat, k: CharClass)
    requires j <= |s| && OptQuotedValue(s, j, k).Some?
    ensures Captures(OptQuoted(k), OptQuotedValue(s, j, k).value.0)
  {
  }

  lemma AtRunCaptures(s: string, j: nat, k: CharClass)
    requires j <= |s| && AtRunValue(s, j, k).Some?
    ensures Captures(AtRun(k), AtRunValue(s, j, k).value.0)
  {
    var a := if j < |s| && s[j] == '@' then j + 1 else j;
    var e := ClassEnd(s, a, k);
    var w := s[j..e];
    forall m | 0 <= m < |w| ensures InClass(w[m], k) || (m == 0 && w[m] == '@') {
      assert w[m] == s[j + m];
    }
    assert |w| > a - j;
  }

  lemma QuotedCaptures(s: string, j: nat, prefix: string)
    requires j <= |s| && QuotedValue(s, j, prefix).Some?
    ensures Captures(Quoted(prefix), QuotedValue(s, j, prefix).value.0)
  {
    var b := j + 1 + |prefix|;
    var e := ClassEnd(s, b, NotQuote);
    var w := s[j + 1..e];
    assert w == QuotedValue(s, j, prefix).value.0;
    assert w[..|prefix|] == s[j + 1..][..|prefix|];
    forall m | |prefix| <= m < |w| ensures w[m] != '"' {
      assert w[m] == s[j + 1 + m];
    }
  }

  /** The value an assignment or bare-value hit captures has the shape of its value pattern. */
  lemma HitCaptures(s: string, i: nat, p: Pattern)
    requires i <= |s| && HitAt(s, i, p).Some?
    requires p.Assign? || p.BoundedAssign? || p.Bare? || p.LineAssign?
    ensures Captures(p.v, HitAt(s, i, p).value.value)
    decreases if p.LineAssign? then 1 else 0
  {
    if p.Bare? {
      ValueCaptures(s, i, p.v);
    } else if p.LineAssign? {
      var j := RunEnd(s, i, IsSpace);
      HitCaptures(s, j, Assign(p.kw, p.v));
    } else {
      var b := AssignEnd(s, i + |p.kw|).value;
      ValueCaptures(s, b, p.v);
    }
  }

  /** A header hit's id has the shape of its id pattern. */
  lemma HeaderCaptures(s: string, i: nat, id: Value, indent: bool)
    requires i <= |s| && HitAt(s, i, Header(id, indent)).Some?
    ensures Captures(id, HitAt(s, i, Header(id, indent)).value.value)
  {
    ValueCaptures(s, if indent then RunEnd(s, i, IsSpace) else i, id);
  }

  /** An assignment ending in `\{` ends just after the brace. */
  lemma OpenHitBrace(s: string, i: nat, kw: string)
    requires i <= |s| && HitAt(s, i, Assign(kw, Open)).Some?
    ensures s[HitAt(s, i, Assign(kw, Open)).value.end - 1] == '{'
  {
  }

  /** `re.search` finds nothing iff no position holds a hit, and otherwise
      the hit at the first position that holds one. */
  lemma SearchFirst(s: string, p: Pattern, m: nat)
    requires m <= |s| && HitAt(s, m, p).Some? && forall k :: 0 <= k < m ==> HitAt(s, k, p).None?
    ensures Search(s, p) == HitAt(s, m, p)
  {
    var h := Search(s, p);
    assert h.Some?;
    assert h.value.start <= m;
    assert HitAt(s, h.value.start, p).Some?;
  }

  lemma SearchNone(s: string, p: Pattern)
    requires forall m :: 0 <= m <= |s| ==> HitAt(s, m, p).None?
    ensures Search(s, p).None? && SearchValue(s, p).None?
  {
    assert Search(s, p) == SearchFrom(s, 0, p);
  }

  lemma SearchCaptures(s: string, p: Pattern)
    requires p.Assign? || p.BoundedAssign? || p.Bare? || p.LineAssign?
    ensures SearchValue(s, p).Some? ==> Captures(p.v, SearchValue(s, p).value)
  {
    var h := Search(s, p);
    if h.Some? {
      HitCaptures(s, h.value.start, p);
    }
  }

  lemma FindAllCaptures(s: string, p: Pattern)
    requires p.Assign? || p.BoundedAssign? || p.Bare? || p.LineAssign?
    ensures forall w :: w in FindAll(s, p) ==> Captures(p.v, w)
  {
    var hits := FindAllFrom(s, 0, p);
    forall w | w in FindAll(s, p) ensures Captures(p.v, w) {
      var k :| 0 <= k < |hits| && hits[k].value == w;
      HitCaptures(s, hits[k].start, p);
    }
  }

  // ---------------------------------------------------------------------
  // Numbers

  /** Whether Python's `float()` accepts a text of signs, digits and points:
      an optional sign, then digits with at most one point among them and
      at least one digit. */
  predicate FloatLiteral(t: string)
  {
    var u := if |t| > 0 && (t[0] == '-' || t[0] == '+') then t[1..] else t;
    (forall m :: 0 <= m < |u| ==> InClass(u[m], NumberC)) && Count(u, '.') <= 1 && Count(u, '.') < |u|
  }

  /** `(\w+)\s*=\s*([-+]?[\d.]+)` when `signed`, else `(\w+)\s*=\s*([\d.]+)`,
      at `i`: the key, the number text and the end of the match. */
  function KeyNumberAt(s: string, i: nat, signed: bool): (r: Option<(string, string, nat)>)
    requires i <= |s|
    ensures r.Some? ==> i < r.value.2 <= |s|
  {
    var e := ClassEnd(s, i, WordC);
    if e == i then None
    else match AssignEnd(s, e)
      case None => None
      case Some(b) =>
        var a := if signed && b < |s| && (s[b] == '-' || s[b] == '+') then b + 1 else b;
        var f := ClassEnd(s, a, NumberC);
        if a < f then Some((s[i..e], s[b..f], f)) else None
  }

  /** `re.finditer` / `re.findall` of that pattern from `i`: the (key, number) pairs in order. */
  function KeyNumbersFrom(s: string, i: nat, signed: bool): seq<(string, string)>
    requires i <= |s|
    decreases |s| - i
  {
    if i == |s| then []
    else match KeyNumberAt(s, i, signed)
      case Some((k, n, e)) => [(k, n)] + KeyNumbersFrom(s, e, signed)
      case None => KeyNumbersFrom(s, i + 1, signed)
  }

  /** `\b` at position `p`: a word character on exactly one side. */
  predicate BoundaryAt(s: string, p: nat)
    requires p <= |s|
  {
    (p > 0 && IsWordChar(s[p - 1])) != (p < |s| && IsWordChar(s[p]))
  }

  /** `re.search(r'\b' + re.escape(w) + r'\b', s)` from position `i`. */
  function WordAtFrom(s: string, w: string, i: nat): (b: bool)
    ensures b <==> exists m :: i <= m && OccursAt(s, w, m) && BoundaryAt(s, m) && BoundaryAt(s, m + |w|)
    decreases |s| - i
  {
    if i + |w| > |s| then false
    else if OccursAt(s, w, i) && BoundaryAt(s, i) && BoundaryAt(s, i + |w|) then true
    else WordAtFrom(s, w, i + 1)
  }

  predicate ContainsWord(s: string, w: string)
  {
    WordAtFrom(s, w, 0)
  }

  /** A whole-word occurrence is an occurrence. */
  lemma ContainsWordContains(s: string, w: string)
    requires ContainsWord(s, w)
    ensures Contains(s, w)
  {
    var m :| 0 <= m && OccursAt(s, w, m) && BoundaryAt(s, m) && BoundaryAt(s, m + |w|);
    ContainsAt(s, w, m);
  }

  // ---------------------------------------------------------------------
  // The line-by-line block splitter

  /** One `(id, content)` pair of `_extract_top_level_blocks` / `_extract_tech_blocks`. */
  datatype Block = Block(id: string, body: string)

  /** The header `re.match` of a stripped line: `^(\w+)\s*=\s*\{`, or
      `^(tech_\w+)\s*=\s*\{` for the technology variant. */
  function HeaderOf(line: string, techOnly: bool): (r: Option<Hit>)
    ensures r.Some? ==> r.value.end <= |line|
  {
    HitAt(line, 0, Header(if techOnly then TechRun else Run(WordC), false))
  }

  /** The depth after lines `j` up to `k`, starting from `depth`. */
  function DepthAfter(lines: seq<string>, j: nat, k: nat, depth: int): int
    requires j <= k <= |lines|
    decreases k - j
  {
    if k == j then depth else DepthAfter(lines, j, k - 1, depth) + LineNet(lines[k - 1])
  }

  /** One past the last line of a block body that starts at line `j` with
      `depth` open braces: lines are consumed while the depth is positive. */
  function BodyEnd(lines: seq<string>, j: nat, depth: int): (k: nat)
    requires j <= |lines|
    ensures j <= k <= |lines|
    ensures depth > 0 && j < |lines| ==> j < k
    decreases |lines| - j
  {
    if j < |lines| && depth > 0 then BodyEnd(lines, j + 1, depth + LineNet(lines[j])) else j
  }

  lemma {:induction false} DepthAfterShift(lines: seq<string>, j: nat, k: nat, depth: int)
    requires j < k <= |lines|
    ensures DepthAfter(lines, j, k, depth) == DepthAfter(lines, j + 1, k, depth + LineNet(lines[j]))
    decreases k - j
  {
    if k > j + 1 {
      DepthAfterShift(lines, j, k - 1, depth);
    }
  }

  /** The body ends on the first line that brings the depth to 0 or below;
      a body that never closes runs to the last line. */
  lemma {:induction false} BodyEndSpec(lines: seq<string>, j: nat, depth: int)
    requires j <= |lines|
    ensures forall m :: j <= m < BodyEnd(lines, j, depth) ==> DepthAfter(lines, j, m, depth) > 0
    ensures BodyEnd(lines, j, depth) == |lines| || DepthAfter(lines, j, BodyEnd(lines, j, depth), depth) <= 0
    decreases |lines| - j
  {
    var k := BodyEnd(lines, j, depth);
    if j < |lines| && depth > 0 {
      var d' := depth + LineNet(lines[j]);
      BodyEndSpec(lines, j + 1, d');
      forall m | j <= m < k ensures DepthAfter(lines, j, m, depth) > 0 {
        if m > j {
          DepthAfterShift(lines, j, m, depth);
        }
      }
      if k < |lines| {
        DepthAfterShift(lines, j, k, depth);
      }
    }
  }

  /** A header line's id and the rest of the line after `{`. */
  type HeaderTest = string -> Option<(string, string)>

  /** The header test as a value: which header pattern a stripped line is matched with. */
  function HeaderSplit(techOnly: bool): HeaderTest
  {
    (l: string) =>
      match HeaderOf(l, techOnly)
      case None => None
      case Some(h) => Some((h.value, l[h.end..]))
  }

  /** The header a line opens, if any: comment lines and blank lines open none. */
  function LineHeader(line: string, header: HeaderTest): Option<(string, string)>
  {
    var l := Strip(line);
    if StartsWith(l, "#") || l == "" then None else header(l)
  }

  /** The block that starts at line `i`, with the line to resume from, or
      None when the line opens no block. Its text is the rest of the header
      line, then the body lines, joined by line breaks. */
  function NextBlock(lines: seq<string>, i: nat, header: HeaderTest): (r: Option<(Block, nat)>)
    requires i < |lines|
    ensures r.Some? ==> i < r.value.1 <= |lines|
  {
    match LineHeader(lines[i], header)
    case None => None
    case Some((id, rest)) =>
      var k := BodyEnd(lines, i + 1, 1);
      Some((Block(id, Join([rest] + lines[i + 1..k], "\n")), k))
  }

  /** The blocks found from line `i` on. */
  function BlocksFrom(lines: seq<string>, i: nat, header: HeaderTest): (r: seq<Block>)
    requires i <= |lines|
    ensures |r| <= |lines| - i
    decreases |lines| - i
  {
    if i == |lines| then []
    else match NextBlock(lines, i, header)
      case None => BlocksFrom(lines, i + 1, header)
      case Some((b, k)) => [b] + BlocksFrom(lines, k, header)
  }

  /** The blocks of a text split into lines. */
  function LineBlocks(content: string, techOnly: bool): seq<Block>
  {
    BlocksFrom(SplitOn(content, '\n'), 0, HeaderSplit(techOnly))
  }

  /** The depth change of one line, as the loop computes it. */
  method LineDelta(line: string) returns (delta: int)
    ensures delta == LineNet(line)
  {
    var cleanLine := RemoveQuoted(StripComments(line));
    delta := Count(cleanLine, '{') - Count(cleanLine, '}');
  }

  /** The body loop: lines are added while braces remain open, each line
      counted after its comment and strings are removed. */
  method ReadBody(lines: seq<string>, j: nat, first: string) returns (k: nat, blockLines: seq<string>)
    requires j <= |lines|
    ensures k == BodyEnd(lines, j, 1)
    ensures blockLines == [first] + lines[j..k]
  {
    var braceCount := 1;
    blockLines := [first];
    k := j;
    while k < |lines| && braceCount > 0
      invariant j <= k <= |lines|
      invariant BodyEnd(lines, k, braceCount) == BodyEnd(lines, j, 1)
      invariant blockLines == [first] + lines[j..k]
      decreases |lines| - k
    {
      var currentLine := lines[k];
      blockLines := blockLines + [currentLine];
      var delta := LineDelta(currentLine);
      braceCount := braceCount + delta;
      assert lines[j..k + 1] == lines[j..k] + [currentLine];
      k := k + 1;
    }
  }

  /** The step at line `i`: the header test on the stripped line and, on a
      header, the body. */
  method ReadBlock(lines: seq<string>, i: nat, header: HeaderTest) returns (r: Option<(Block, nat)>)
    requires i < |lines|
    ensures r == NextBlock(lines, i, header)
  {
    var m := LineHeader(lines[i], header);
    if m.None? {
      return None;
    }
    var k, blockLines := ReadBody(lines, i + 1, m.value.1);
    r := Some((Block(m.value.0, Join(blockLines, "\n")), k));
  }

  /** One line of the loop: a header line adds its block and skips its body,
      any other line is passed over. */
  method ReadStep(lines: seq<string>, i: nat, header: HeaderTest, blocks: seq<Block>, ghost all: seq<Block>)
    returns (blocks': seq<Block>, i': nat)
    requires i < |lines| && blocks + BlocksFrom(lines, i, header) == all
    ensures i < i' <= |lines| && blocks' + BlocksFrom(lines, i', header) == all
  {
    var step := ReadBlock(lines, i, header);
    if step.None? {
      BlocksFromSkip(lines, i, header);
      blocks', i' := blocks, i + 1;
    } else {
      BlocksFromTake(lines, i, header);
      blocks', i' := AppendBlock(blocks, step.value.0, BlocksFrom(lines, step.value.1, header)), step.value.1;
    }
  }

  /** `blocks.append(b)`, stated so that the rest of the blocks still follows. */
  function AppendBlock(blocks: seq<Block>, b: Block, ghost rest: seq<Block>): (r: seq<Block>)
    ensures r + rest == blocks + ([b] + rest)
  {
    blocks + [b]
  }

  lemma BlocksFromSkip(lines: seq<string>, i: nat, header: HeaderTest)
    requires i < |lines| && NextBlock(lines, i, header).None?
    ensures BlocksFrom(lines, i, header) == BlocksFrom(lines, i + 1, header)
  {
  }

  lemma BlocksFromTake(lines: seq<string>, i: nat, header: HeaderTest)
    requires i < |lines| && NextBlock(lines, i, header).Some?
    ensures BlocksFrom(lines, i, header) ==
      [NextBlock(lines, i, header).value.0] + BlocksFrom(lines, NextBlock(lines, i, header).value.1, header)
  {
  }

  /** The loop over the lines. */
  method BlocksOfLines(lines: seq<string>, header: HeaderTest) returns (blocks: seq<Block>)
    ensures blocks == BlocksFrom(lines, 0, header)
  {
    blocks := [];
    ghost var all := BlocksFrom(lines, 0, header);
    var i := 0;
    while i < |lines|
      invariant 0 <= i <= |lines|
      invariant blocks + BlocksFrom(lines, i, header) == all
      decreases |lines| - i
    {
      blocks, i := ReadStep(lines, i, header, blocks, all);
    }
  }

  /** `_extract_top_level_blocks` (scripts/reverse_unlock_parser.py) when
      `techOnly` is false, `_extract_tech_blocks`
      (update/extract_icon_mappings.py) when it is true. */
  method ExtractTopLevelBlocks(content: string, techOnly: bool) returns (blocks: seq<Block>)
    ensures blocks == LineBlocks(content, techOnly)
  {
    var lines := SplitOn(content, '\n');
    blocks := BlocksOfLines(lines, HeaderSplit(techOnly));
  }

  /** What a header id looks like: a non-empty run of word characters,
      starting with `tech_` in the technology variant. */
  predicate IdWellFormed(id: string, techOnly: bool)
  {
    |id| > 0 && (forall c :: c in id ==> IsWordChar(c)) && (techOnly ==> StartsWith(id, "tech_"))
  }

  lemma HeaderIdWellFormed(line: string, techOnly: bool)
    requires HeaderOf(line, techOnly).Some?
    ensures IdWellFormed(HeaderOf(line, techOnly).value.value, techOnly)
  {
    var e := ClassEnd(line, 0, WordC);
    assert HeaderOf(line, techOnly).value.value == line[..e];
  }

  /** The blocks from line `i` on all have well-formed ids. */
  ghost predicate IdsFrom(lines: seq<string>, i: nat, techOnly: bool)
    requires i <= |lines|
  {
    forall b :: b in BlocksFrom(lines, i, HeaderSplit(techOnly)) ==> IdWellFormed(b.id, techOnly)
  }

  lemma IdsSkip(lines: seq<string>, i: nat, techOnly: bool)
    requires i < |lines| && NextBlock(lines, i, HeaderSplit(techOnly)).None?
    requires IdsFrom(lines, i + 1, techOnly)
    ensures IdsFrom(lines, i, techOnly)
  {
    var header := HeaderSplit(techOnly);
    assert BlocksFrom(lines, i, header) == BlocksFrom(lines, i + 1, header);
  }

  /** A block's id is a header id. */
  lemma NextBlockId(lines: seq<string>, i: nat, techOnly: bool)
    requires i < |lines| && NextBlock(lines, i, HeaderSplit(techOnly)).Some?
    ensures IdWellFormed(NextBlock(lines, i, HeaderSplit(techOnly)).value.0.id, techOnly)
  {
    HeaderIdWellFormed(Strip(lines[i]), techOnly);
  }

  lemma IdsTake(lines: seq<string>, i: nat, techOnly: bool)
    requires i < |lines| && NextBlock(lines, i, HeaderSplit(techOnly)).Some?
    requires IdsFrom(lines, NextBlock(lines, i, HeaderSplit(techOnly)).value.1, techOnly)
    ensures IdsFrom(lines, i, techOnly)
  {
    var header := HeaderSplit(techOnly);
    var nb := NextBlock(lines, i, header).value;
    assert BlocksFrom(lines, i, header) == [nb.0] + BlocksFrom(lines, nb.1, header);
    NextBlockId(lines, i, techOnly);
  }

  /** Where the scan goes on after line `i`. */
  function NextStart(lines: seq<string>, i: nat, techOnly: bool): (j: nat)
    requires i < |lines|
    ensures i < j <= |lines|
  {
    match NextBlock(lines, i, HeaderSplit(techOnly))
    case None => i + 1
    case Some(nb) => nb.1
  }

  lemma IdsStep(lines: seq<string>, i: nat, techOnly: bool)
    requires i < |lines| && IdsFrom(lines, NextStart(lines, i, techOnly), techOnly)
    ensures IdsFrom(lines, i, techOnly)
  {
    if NextBlock(lines, i, HeaderSplit(techOnly)).None? {
      IdsSkip(lines, i, techOnly);
    } else {
      IdsTake(lines, i, techOnly);
    }
  }

  lemma {:induction false} BlockIdsFrom(lines: seq<string>, i: nat, techOnly: bool)
    requires i <= |lines|
    ensures IdsFrom(lines, i, techOnly)
    decreases |lines| - i
  {
    if i < |lines| {
      BlockIdsFrom(lines, NextStart(lines, i, techOnly), techOnly);
      IdsStep(lines, i, techOnly);
    }
  }

  /** Every block id is a header id. */
  lemma BlockIdsWellFormed(content: string, techOnly: bool, b: Block)
    requires b in LineBlocks(content, techOnly)
    ensures IdWellFormed(b.id, techOnly)
  {
    BlockIdsFrom(SplitOn(content, '\n'), 0, techOnly);
  }

  // A one-line block: the brace that closes it on the header line is not
  // counted, so the block runs on over the next one.

  lemma {:induction false} CountAppend(a: string, b: string, c: char)
    ensures Count(a + b, c) == Count(a, c) + Count(b, c)
    decreases |b|
  {
    if |b| == 0 {
      assert a + b == a;
    } else {
      assert (a + b)[..|a + b| - 1] == a + b[..|b| - 1];
      CountAppend(a, b[..|b| - 1], c);
    }
  }

  /** A line without comments or strings counts its braces as they stand. */
  lemma PlainLineNet(line: string, pre: string, post: string)
    requires '#' !in line && '"' !in line
    requires line == pre + "{" + post || line == pre + "}" + post
    requires '{' !in pre && '}' !in pre && '{' !in post && '}' !in post
    ensures LineNet(line) == (if line == pre + "{" + post then 1 else -1)
  {
    StripCommentsRemovesHash(line);
    RemoveQuotedBounds(line);
    var mid := if line == pre + "{" + post then "{" else "}";
    assert line == pre + mid + post;
    CountAppend(pre + mid, post, '{');
    CountAppend(pre + mid, post, '}');
    CountAppend(pre, mid, '{');
    CountAppend(pre, mid, '}');
    CountBounds(pre, '{');
    CountBounds(pre, '}');
    CountBounds(post, '{');
    CountBounds(post, '}');
    assert Count(mid, '{') == (if mid == "{" then 1 else 0);
    assert Count(mid, '}') == (if mid == "}" then 1 else 0);
  }

  lemma OneLineOpenEnd()
    ensures OpenEnd("a = { }", 1) == Some(5)
  {
    var l := "a = { }";
    assert RunEnd(l, 2, IsSpace) == 2;
    assert RunEnd(l, 1, IsSpace) == 2;
    assert RunEnd(l, 4, IsSpace) == 4;
    assert RunEnd(l, 3, IsSpace) == 4;
    assert AssignEnd(l, 1) == Some(4);
  }

  lemma OneLineValue()
    ensures ValueAt("a = { }", 0, Run(WordC)) == Some(("a", 1))
  {
    var l := "a = { }";
    assert ClassEnd(l, 1, WordC) == 1;
    assert ClassEnd(l, 0, WordC) == 1;
    assert l[0..1] == "a";
    assert RunValue(l, 0, WordC) == Some(("a", 1));
  }

  lemma OneLineHit()
    ensures HeaderOf("a = { }", false) == Some(Hit(0, "a", 5))
  {
    OneLineValue();
    OneLineOpenEnd();
    assert HeaderHit("a = { }", 0, Run(WordC), false) == Some(Hit(0, "a", 5));
  }

  lemma OneLineSplit()
    ensures HeaderSplit(false)("a = { }") == Some(("a", " }"))
  {
    var l := "a = { }";
    OneLineHit();
    assert l[5..] == " }";
  }

  /** A stripped line that is neither blank nor a comment goes to the header test as it is. */
  lemma LineHeaderPlain(line: string, header: HeaderTest)
    requires Strip(line) == line && line != "" && line[0] != '#'
    ensures LineHeader(line, header) == header(line)
  {
  }

  lemma OneLineStrip()
    ensures Strip("a = { }") == "a = { }"
  {
    StripUntrimmed("a = { }");
  }

  lemma OneLineHeader()
    ensures LineHeader("a = { }", HeaderSplit(false)) == Some(("a", " }"))
  {
    OneLineStrip();
    LineHeaderPlain("a = { }", HeaderSplit(false));
    OneLineSplit();
  }

  lemma OneLineBody()
    ensures BodyEnd(["a = { }", "b = {", "}"], 1, 1) == 3
  {
    var lines := ["a = { }", "b = {", "}"];
    PlainLineNet(lines[1], "b = ", "");
    PlainLineNet(lines[2], "", "");
    assert BodyEnd(lines, 3, 1) == 3;
    assert BodyEnd(lines, 2, 2) == 3;
  }

  /** A header line followed by its body make one block. */
  lemma NextBlockOf(lines: seq<string>, i: nat, header: HeaderTest, id: string, rest: string)
    requires i < |lines| && LineHeader(lines[i], header) == Some((id, rest))
    ensures NextBlock(lines, i, header) ==
      Some((Block(id, Join([rest] + lines[i + 1..BodyEnd(lines, i + 1, 1)], "\n")), BodyEnd(lines, i + 1, 1)))
  {
  }

  lemma OneLineJoin()
    ensures Join([" }"] + ["a = { }", "b = {", "}"][1..3], "\n") == " }\nb = {\n}"
  {
    assert [" }"] + ["a = { }", "b = {", "}"][1..3] == [" }", "b = {", "}"];
    assert Join([" }", "b = {", "}"], "\n") == " }\nb = {\n}";
  }

  lemma OneLineNext()
    ensures NextBlock(["a = { }", "b = {", "}"], 0, HeaderSplit(false)) == Some((Block("a", " }\nb = {\n}"), 3))
  {
    var lines := ["a = { }", "b = {", "}"];
    OneLineHeader();
    NextBlockOf(lines, 0, HeaderSplit(false), "a", " }");
    OneLineBody();
    OneLineJoin();
  }

  /** The block opened by `a = { }` takes in the whole of `b = { ... }`. */
  lemma OneLineBlockSwallowsNext()
    ensures BlocksFrom(["a = { }", "b = {", "}"], 0, HeaderSplit(false)) == [Block("a", " }\nb = {\n}")]
  {
    OneLineNext();
  }
}
