/** Which tiers an API key may be served by (`tier_permitted` in main.rs). */
module Permissions {
  import opened Basics
  import opened Tiers

  datatype ApiKey = ApiKey(id: string, allowedTiers: seq<string>)

  function Lower(c: char): char
  {
    if 'A' <= c <= 'Z' then c + ' ' else c
  }

  predicate SameIgnoringCase(a: string, b: string)
  {
    |a| == |b| && forall i :: 0 <= i < |a| ==> Lower(a[i]) == Lower(b[i])
  }

  /** No key, or a key with an empty allowlist, may use every tier. */
  predicate IsPermitted(key: Option<ApiKey>, tier: string)
  {
    key.None? || key.value.allowedTiers == [] || exists name <- key.value.allowedTiers :: SameIgnoringCase(name, tier)
  }

  method TierPermitted(key: Option<ApiKey>, tier: string) returns (permitted: bool)
    ensures permitted == IsPermitted(key, tier)
  {
    if key.None? || key.value.allowedTiers == [] {
      return true;
    }
    var names := key.value.allowedTiers;
    for i := 0 to |names|
      invariant forall j :: 0 <= j < i ==> !SameIgnoringCase(names[j], tier)
    {
      if SameIgnoringCase(names[i], tier) {
        return true;
      }
    }
    return false;
  }

  /** An allowlist name stands for one tier only, however it is spelled: two tiers never share a name. */
  lemma NameStandsForOneTier(name: string, a: Tier, b: Tier)
    requires SameIgnoringCase(name, FormatTier(a)) && SameIgnoringCase(name, FormatTier(b))
    ensures a == b
  {
    var x, y := FormatTier(a), FormatTier(b);
    assert |x| == |y|;
    assert Lower(x[0]) == Lower(y[0]) && Lower(x[1]) == Lower(y[1]);
  }

  /** A text in lower case, as far as ASCII goes. */
  function Lowered(s: string): (lower: string)
    ensures |lower| == |s| && forall i :: 0 <= i < |s| ==> lower[i] == Lower(s[i])
  {
    if s == "" then "" else [Lower(s[0])] + Lowered(s[1..])
  }

  lemma LetterCase(c: char)
    ensures Lower(Lower(c)) == Lower(c)
    ensures 'a' <= c <= 'z' || c == '-' ==> Lower(c) == c
    ensures 'A' <= c <= 'Z' ==> Lower(c) as int == c as int + 32
  {
  }

  /** A key with an allowlist may use a tier if and only if some name on the list is, in lower case, the tier's own name;
      a key without one, and no key, may use all. */
  lemma PermittedByName(key: Option<ApiKey>, tier: Tier)
    ensures IsPermitted(key, FormatTier(tier)) <==>
      (key.Some? && key.value.allowedTiers != [] ==>
        exists name <- key.value.allowedTiers :: Lowered(name) == FormatTier(tier))
  {
    forall name: string
      ensures SameIgnoringCase(name, FormatTier(tier)) <==> Lowered(name) == FormatTier(tier)
    {
      NameInLowerCase(name, tier);
    }
    hide FormatTier;
    hide Lowered;
    hide SameIgnoringCase;
  }

  lemma NameInLowerCase(name: string, tier: Tier)
    ensures SameIgnoringCase(name, FormatTier(tier)) <==> Lowered(name) == FormatTier(tier)
  {
    var t := FormatTier(tier);
    assert forall i :: 0 <= i < |t| ==> Lower(t[i]) == t[i];
    hide FormatTier;
    hide Lower;
  }
}
