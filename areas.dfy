/** The area clean-up step of the pipeline's main script
    (update/create_tech_json_new.py): an `area` value that starts with one of
    the three area words is cut back to that word. */
module Areas {
  import opened Text
  import opened Techs

  /** An area that starts with one of the three area words becomes that word. */
  function NormalArea(area: string): string
  {
    if StartsWith(area, "engineering") then "engineering"
    else if StartsWith(area, "physics") then "physics"
    else if StartsWith(area, "society") then "society"
    else area
  }

  function Normalised(t: Tech): Tech
  {
    t.(area := NormalArea(t.area))
  }

  /** A tech whose area the normalisation changes. */
  predicate Malformed(t: Tech)
  {
    Normalised(t) != t
  }

  /** `fixed_count` over a list of techs. */
  function MalformedCount(s: seq<Tech>): (r: nat)
    ensures r <= |s|
  {
    if |s| == 0 then 0 else MalformedCount(s[..|s| - 1]) + if Malformed(s[|s| - 1]) then 1 else 0
  }

  lemma MalformedCountStep(s: seq<Tech>, i: nat)
    requires i < |s|
    ensures MalformedCount(s[..i + 1]) == MalformedCount(s[..i]) + if Malformed(s[i]) then 1 else 0
  {
    assert s[..i + 1][..i] == s[..i];
  }

  /** One step of the loop: the branches on the area's first word. */
  method FixArea(tech: Tech) returns (fixed: Tech, changed: bool)
    ensures fixed == Normalised(tech) && changed == Malformed(tech)
  {
    var area := tech.area;
    var newArea := area;
    changed := false;
    if StartsWith(area, "engineering") {
      newArea := "engineering";
      changed := area != "engineering";
    } else if StartsWith(area, "physics") {
      newArea := "physics";
      changed := area != "physics";
    } else if StartsWith(area, "society") {
      newArea := "society";
      changed := area != "society";
    }
    fixed := tech.(area := newArea);
  }

  /** The loop over `techs_enhanced` that rewrites `tech['area']` in place and
      counts the values it changed. */
  method NormaliseAreas(techs: array<Tech>) returns (fixedCount: nat)
    modifies techs
    ensures forall i :: 0 <= i < techs.Length ==> techs[i] == Normalised(old(techs[i]))
    ensures fixedCount == MalformedCount(old(techs[..]))
  {
    ghost var s := techs[..];
    fixedCount := 0;
    for i := 0 to techs.Length
      invariant forall k :: 0 <= k < i ==> techs[k] == Normalised(s[k])
      invariant forall k :: i <= k < techs.Length ==> techs[k] == s[k]
      invariant fixedCount == MalformedCount(s[..i])
    {
      fixedCount := FixAt(techs, i, s, fixedCount);
    }
    assert s[..techs.Length] == s;
  }

  /** One turn of the loop: the tech at `i` normalised in place and counted. */
  method FixAt(techs: array<Tech>, i: nat, ghost s: seq<Tech>, fixedCount: nat) returns (fixedCount': nat)
    modifies techs
    requires i < techs.Length == |s|
    requires forall k :: i <= k < techs.Length ==> techs[k] == s[k]
    requires fixedCount == MalformedCount(s[..i])
    ensures forall k :: 0 <= k < techs.Length && k != i ==> techs[k] == old(techs[k])
    ensures techs[i] == Normalised(s[i])
    ensures fixedCount' == MalformedCount(s[..i + 1])
  {
    var fixed, changed := FixArea(techs[i]);
    MalformedCountStep(s, i);
    fixedCount' := fixedCount + if changed then 1 else 0;
    techs[i] := fixed;
  }

  /** Normalising twice is normalising once. */
  lemma NormalAreaIdempotent(area: string)
    ensures NormalArea(NormalArea(area)) == NormalArea(area)
  {
  }

  /** A changed area started with the word it became, and only the three area
      words come out of a change. */
  lemma NormalAreaChanges(area: string)
    ensures NormalArea(area) != area ==>
      NormalArea(area) in ["engineering", "physics", "society"] && StartsWith(area, NormalArea(area))
  {
  }

  /** A second pass over normalised techs fixes nothing. */
  lemma {:induction false} SecondPassFixesNothing(s: seq<Tech>)
    requires forall i :: 0 <= i < |s| ==> s[i].area == NormalArea(s[i].area)
    ensures MalformedCount(s) == 0
  {
    if |s| > 0 {
      SecondPassFixesNothing(s[..|s| - 1]);
    }
  }
}
