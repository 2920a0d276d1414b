/** `splitHeadline` of src/hooks/heroFormHooks/useHeroHeadline.ts (and the
    same destructuring in the hero form), which cuts the hero subheadline
    around the current city's name so that the name can be highlighted. */
module HeroHeadline {
  import opened Wrappers
  import opened Text

  /** The pieces; `None` is `undefined`, what destructuring a missing array
      element gives. */
  datatype HeadlineSplit = HeadlineSplit(isCityMentioned: bool, beforeCity: Option<string>, afterCity: Option<string>)

  /** The pieces of `s[from..]` between the occurrences of `sep` found left
      to right, as `String.prototype.split` cuts them. */
  function SplitFrom(s: string, sep: string, from: nat): (r: seq<string>)
    requires sep != "" && from <= |s|
    ensures |r| >= 1
    decreases |s| - from
  {
    match IndexOfFrom(s, sep, from)
    case None => [s[from..]]
    case Some(j) => [s[from..j]] + SplitFrom(s, sep, j + |sep|)
  }

  /** `s.split(sep)`: an empty separator splits into single characters. */
  function JsSplit(s: string, sep: string): seq<string> {
    if sep == "" then seq(|s|, i requires 0 <= i < |s| => [s[i]]) else SplitFrom(s, sep, 0)
  }

  function At(parts: seq<string>, i: nat): Option<string> {
    if i < |parts| then Some(parts[i]) else None
  }

  /** `splitHeadline` */
  function SplitHeadline(headline: string, cityName: string): HeadlineSplit {
    if !Includes(headline, cityName) then HeadlineSplit(false, Some(headline), Some(""))
    else
      var parts := JsSplit(headline, cityName);
      HeadlineSplit(true, At(parts, 0), At(parts, 1))
  }

  // ---------------------------------------------------------------------
  // Properties

  /** A headline that does not name the city is kept whole. */
  lemma NotMentioned(headline: string, cityName: string)
    requires forall j :: 0 <= j <= |headline| ==> !OccursAt(headline, cityName, j)
    ensures SplitHeadline(headline, cityName) == HeadlineSplit(false, Some(headline), Some(""))
  {
  }

  /** Where the piece starting at `from` ends: the next occurrence of
      `sep`, or the end of `s`. */
  function PieceEnd(s: string, sep: string, from: nat): (e: nat)
    requires from <= |s|
    ensures from <= e <= |s|
  {
    match IndexOfFrom(s, sep, from)
    case None => |s|
    case Some(k) => k
  }

  /** The first piece of a split from `from` runs to the next occurrence of
      the separator, or to the end; after an occurrence the next piece
      starts past it. */
  lemma SplitFromHead(s: string, sep: string, from: nat)
    requires sep != "" && from <= |s|
    ensures SplitFrom(s, sep, from)[0] == s[from..PieceEnd(s, sep, from)]
    ensures IndexOfFrom(s, sep, from).Some? ==>
      |SplitFrom(s, sep, from)| >= 2 && SplitFrom(s, sep, from)[1] == SplitFrom(s, sep, PieceEnd(s, sep, from) + |sep|)[0]
  {
  }

  /** A headline that names the city: `beforeCity` is the text before the
      first occurrence and `afterCity` the text from its end up to the
      next occurrence, or to the end. */
  lemma Mentioned(headline: string, cityName: string, j: nat)
    requires cityName != "" && OccursAt(headline, cityName, j)
    requires forall l :: 0 <= l < j ==> !OccursAt(headline, cityName, l)
    ensures SplitHeadline(headline, cityName) ==
      HeadlineSplit(true, Some(headline[..j]), Some(headline[j + |cityName|..PieceEnd(headline, cityName, j + |cityName|)]))
  {
    FirstOccurrence(headline, cityName, j);
    OccursIncludes(headline, cityName, j);
    var rest := j + |cityName|;
    var parts := SplitFrom(headline, cityName, 0);
    SplitFromHead(headline, cityName, 0);
    assert PieceEnd(headline, cityName, 0) == j;
    assert parts[0] == headline[..j];
    var tail := SplitFrom(headline, cityName, rest);
    assert parts[1] == tail[0];
    SplitFromHead(headline, cityName, rest);
  }

  /** The first place the name occurs is where `indexOf` finds it. */
  lemma FirstOccurrence(s: string, t: string, j: nat)
    requires OccursAt(s, t, j) && forall l :: 0 <= l < j ==> !OccursAt(s, t, l)
    ensures IndexOfFrom(s, t, 0) == Some(j)
  {
    var first := IndexOfFrom(s, t, 0);
    assert first.Some?;
  }

  /** The pieces and the name between them spell the headline's start. */
  lemma PiecesArePrefix(headline: string, cityName: string)
    requires cityName != "" && Includes(headline, cityName)
    ensures var r := SplitHeadline(headline, cityName);
      r.beforeCity.Some? && r.afterCity.Some?
      && StartsWith(headline, r.beforeCity.value + cityName + r.afterCity.value)
  {
    var j := IndexOfFrom(headline, cityName, 0).value;
    var rest := j + |cityName|;
    var stop := PieceEnd(headline, cityName, rest);
    var before, city, after := headline[..j], headline[j..rest], headline[rest..stop];
    assert SplitHeadline(headline, cityName) == HeadlineSplit(true, Some(before), Some(after)) by {
      Mentioned(headline, cityName, j);
    }
    assert city == cityName;
    PrefixJoin(headline, j, rest, stop);
  }

  /** Three adjacent slices from the start make up a prefix. */
  lemma PrefixJoin(s: string, j: nat, rest: nat, stop: nat)
    requires j <= rest <= stop <= |s|
    ensures StartsWith(s, s[..j] + s[j..rest] + s[rest..stop])
  {
    assert s[..j] + s[j..rest] + s[rest..stop] == s[..stop];
  }

  /** An empty name is "included" in every headline, and the split then
      gives single characters: the first two, or `undefined` where the
      headline is shorter. */
  lemma EmptyCityName(headline: string)
    ensures var r := SplitHeadline(headline, "");
      && r.isCityMentioned
      && r.beforeCity == (if |headline| >= 1 then Some(headline[..1]) else None)
      && r.afterCity == (if |headline| >= 2 then Some(headline[1..2]) else None)
  {
    assert OccursAt(headline, "", 0);
    OccursIncludes(headline, "", 0);
    var parts := JsSplit(headline, "");
    if |headline| >= 1 {
      assert parts[0] == [headline[0]] == headline[..1];
    }
    if |headline| >= 2 {
      assert parts[1] == [headline[1]] == headline[1..2];
    }
  }
}
