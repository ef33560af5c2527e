/** The member directory's search: a case-insensitive substring match on
    name or email, combined with a tier selector in which "all" imposes no
    restriction (src/pages/Members.tsx). */
module Directory {
  import opened Data

  /** The tier selector value that lifts the tier restriction. */
  const AllTiers := "all"

  /** Lower-casing of one character, for the ASCII letters. */
  function Lower(c: char): (d: char)
    ensures 'A' <= c <= 'Z' ==> d != c && 'a' <= d <= 'z'
    ensures !('A' <= c <= 'Z') ==> d == c
  {
    if 'A' <= c <= 'Z' then (c as int + 32) as char else c
  }

  function LowerCase(s: string): (r: string)
  {
    seq(|s|, i requires 0 <= i < |s| => Lower(s[i]))
  }

  /** Lower-casing is a projection: applying it twice changes nothing more. */
  lemma LowerCaseIdempotent(s: string)
    ensures LowerCase(LowerCase(s)) == LowerCase(s)
    ensures forall i :: 0 <= i < |s| ==> !('A' <= LowerCase(s)[i] <= 'Z')
  {
  }

  /** `s` begins with `prefix`. */
  predicate StartsWith(s: string, prefix: string)
  {
    |prefix| <= |s| && s[..|prefix|] == prefix
  }

  /** `hay` contains `needle` as a contiguous piece, searched from the left. */
  predicate Includes(hay: string, needle: string)
    decreases |hay|
  {
    StartsWith(hay, needle) || (hay != [] && Includes(hay[1..], needle))
  }

  /** The reference meaning of Includes: some offset holds `needle`. */
  ghost predicate OccursAt(hay: string, needle: string, i: int)
  {
    0 <= i && i + |needle| <= |hay| && hay[i..i + |needle|] == needle
  }

  /** A successful search yields an offset that holds `needle`. */
  lemma {:induction false} IncludesHasOffset(hay: string, needle: string) returns (i: int)
    requires Includes(hay, needle)
    ensures OccursAt(hay, needle, i)
    decreases |hay|
  {
    if StartsWith(hay, needle) {
      i := 0;
    } else {
      var j := IncludesHasOffset(hay[1..], needle);
      assert hay[j + 1..j + 1 + |needle|] == hay[1..][j..j + |needle|];
      i := j + 1;
    }
  }

  /** Any offset that holds `needle` is found by the search. */
  lemma {:induction false} OffsetIncluded(hay: string, needle: string, i: int)
    requires OccursAt(hay, needle, i)
    ensures Includes(hay, needle)
    decreases i
  {
    if i > 0 {
      assert hay[1..][i - 1..i - 1 + |needle|] == hay[i..i + |needle|];
      OffsetIncluded(hay[1..], needle, i - 1);
    }
  }

  /** The left-to-right search agrees with the offset definition, both ways. */
  lemma IncludesIffOccurs(hay: string, needle: string)
    ensures Includes(hay, needle) <==> exists i :: OccursAt(hay, needle, i)
  {
    if Includes(hay, needle) {
      var i := IncludesHasOffset(hay, needle);
    }
    forall i | OccursAt(hay, needle, i)
      ensures Includes(hay, needle)
    {
      OffsetIncluded(hay, needle, i);
    }
  }

  /** The empty search string is contained in every string. */
  lemma IncludesEmpty(hay: string)
    ensures Includes(hay, "")
  {
  }

  /** matchesSearch: the lower-cased name or email contains the lower-cased search. */
  predicate MatchesSearch(m: Member, search: string)
  {
    Includes(LowerCase(m.name), LowerCase(search)) || Includes(LowerCase(m.email), LowerCase(search))
  }

  /** matchesTier: the selector is "all" or spells the member's tier. */
  predicate MatchesTier(m: Member, tierFilter: string)
  {
    tierFilter == AllTiers || TierName(m.tier) == tierFilter
  }

  predicate Matches(m: Member, search: string, tierFilter: string)
  {
    MatchesSearch(m, search) && MatchesTier(m, tierFilter)
  }

  /** The members shown for a search text and a tier selector, in roster order. */
  function Filtered(ms: seq<Member>, search: string, tierFilter: string): (r: seq<Member>)
    ensures |r| <= |ms|
    ensures forall k :: 0 <= k < |r| ==> r[k] in ms && Matches(r[k], search, tierFilter)
  {
    if ms == [] then []
    else if Matches(ms[0], search, tierFilter) then [ms[0]] + Filtered(ms[1..], search, tierFilter)
    else Filtered(ms[1..], search, tierFilter)
  }

  /** The same list filtered by the search predicate alone. */
  function SearchOnly(ms: seq<Member>, search: string): (r: seq<Member>)
    ensures forall k :: 0 <= k < |r| ==> r[k] in ms && MatchesSearch(r[k], search)
  {
    if ms == [] then []
    else if MatchesSearch(ms[0], search) then [ms[0]] + SearchOnly(ms[1..], search)
    else SearchOnly(ms[1..], search)
  }

  /** `sub` can be obtained from `s` by deleting elements, keeping the order. */
  predicate IsSubsequence<T(==)>(sub: seq<T>, s: seq<T>)
    decreases |s|
  {
    if sub == [] then true
    else if s == [] then false
    else (sub[0] == s[0] && IsSubsequence(sub[1..], s[1..])) || IsSubsequence(sub, s[1..])
  }

  /** The shown list keeps the roster's order. */
  lemma {:induction false} FilteredIsSubsequence(ms: seq<Member>, search: string, tierFilter: string)
    ensures IsSubsequence(Filtered(ms, search, tierFilter), ms)
  {
    if ms != [] {
      FilteredIsSubsequence(ms[1..], search, tierFilter);
      var rest := Filtered(ms[1..], search, tierFilter);
      if Matches(ms[0], search, tierFilter) {
        assert ([ms[0]] + rest)[1..] == rest;
      }
    }
  }

  /** A member is shown exactly when it is on the roster and passes both tests. */
  lemma {:induction false} FilteredMembership(ms: seq<Member>, search: string, tierFilter: string, m: Member)
    ensures m in Filtered(ms, search, tierFilter) <==> m in ms && Matches(m, search, tierFilter)
  {
    if ms != [] {
      FilteredMembership(ms[1..], search, tierFilter, m);
      assert ms == [ms[0]] + ms[1..];
    }
  }

  /** An empty search with the "all" selector shows the whole roster. */
  lemma {:induction false} FilteredEverything(ms: seq<Member>)
    ensures Filtered(ms, "", AllTiers) == ms
  {
    if ms != [] {
      IncludesEmpty(LowerCase(ms[0].name));
      FilteredEverything(ms[1..]);
    }
  }

  /** With a tier other than "all" selected, every shown member has that tier. */
  lemma FilteredTierExact(ms: seq<Member>, search: string, tierFilter: string)
    requires tierFilter != AllTiers
    ensures forall k :: 0 <= k < |Filtered(ms, search, tierFilter)| ==>
      TierName(Filtered(ms, search, tierFilter)[k].tier) == tierFilter
  {
  }

  /** With the "all" selector, the tier test drops out. */
  lemma {:induction false} FilteredAllIsSearchOnly(ms: seq<Member>, search: string)
    ensures Filtered(ms, search, AllTiers) == SearchOnly(ms, search)
  {
    if ms != [] {
      FilteredAllIsSearchOnly(ms[1..], search);
    }
  }

  /** Searches that lower-case to the same text show the same members. */
  lemma {:induction false} FilteredCaseInsensitive(ms: seq<Member>, s1: string, s2: string, tierFilter: string)
    requires LowerCase(s1) == LowerCase(s2)
    ensures Filtered(ms, s1, tierFilter) == Filtered(ms, s2, tierFilter)
  {
    if ms != [] {
      FilteredCaseInsensitive(ms[1..], s1, s2, tierFilter);
    }
  }

  /** The directory page filters the seed roster. */
  function DirectoryView(search: string, tierFilter: string): (r: seq<Member>)
    ensures IsSubsequence(r, MockMembers)
    ensures forall k :: 0 <= k < |r| ==> Matches(r[k], search, tierFilter)
  {
    FilteredIsSubsequence(MockMembers, search, tierFilter);
    Filtered(MockMembers, search, tierFilter)
  }
}
