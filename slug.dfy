/** URL slugs: `slugifySegment` (scripts/seo/generate-sitemaps.mjs), the
    definition the app's `./slug` import shares. */
module Slug {
  import opened Text

  predicate IsHyphen(c: char) { c == '-' }

  /** The characters the first `replace` keeps: `[a-z0-9\s-]`. */
  predicate IsSlugInput(c: char) {
    IsLower(c) || IsDigit(c) || IsSpace(c) || c == '-'
  }

  /** The alphabet of a slug: `a-z`, `0-9` and `-`. */
  predicate IsSlugChar(c: char) {
    IsLower(c) || IsDigit(c) || c == '-'
  }

  /** A well-formed slug: slug alphabet only, no `--`, no hyphen at either end. */
  predicate IsSlug(s: string) {
    && (forall i :: 0 <= i < |s| ==> IsSlugChar(s[i]))
    && NoRepeat(s, IsHyphen)
    && (s != [] ==> s[0] != '-' && s[|s| - 1] != '-')
  }

  /** Trims, lowercases, drops everything outside `[a-z0-9\s-]`, turns each
      whitespace run into `-`, collapses hyphen runs, strips edge hyphens. */
  function Slugify(value: string): string {
    var kept := Filter(Lower(Trim(value)), IsSlugInput);
    var dashed := ReplaceRuns(kept, IsSpace, '-');
    var collapsed := ReplaceRuns(dashed, IsHyphen, '-');
    DropWhileEnd(DropWhile(collapsed, IsHyphen), IsHyphen)
  }

  /** The string `Slugify` hands to its last step: slug alphabet, no `--`. */
  lemma CollapsedShape(value: string)
    ensures var collapsed := ReplaceRuns(ReplaceRuns(Filter(Lower(Trim(value)), IsSlugInput), IsSpace, '-'), IsHyphen, '-');
      (forall i :: 0 <= i < |collapsed| ==> IsSlugChar(collapsed[i])) && NoRepeat(collapsed, IsHyphen)
  {
    var kept := Filter(Lower(Trim(value)), IsSlugInput);
    var dashed := ReplaceRuns(kept, IsSpace, '-');
    ReplaceRunsKeeps(kept, IsSpace, '-', IsSlugChar);
    ReplaceRunsKeeps(dashed, IsHyphen, '-', IsSlugChar);
  }

  /** Stripping edge hyphens from a string in the slug alphabet without `--`
      leaves a well-formed slug. */
  lemma StripEdgesShape(collapsed: string)
    requires forall i :: 0 <= i < |collapsed| ==> IsSlugChar(collapsed[i])
    requires NoRepeat(collapsed, IsHyphen)
    ensures IsSlug(DropWhileEnd(DropWhile(collapsed, IsHyphen), IsHyphen))
  {
    var front := DropWhile(collapsed, IsHyphen);
    var a := |collapsed| - |front|;
    SliceShape(collapsed, a, |collapsed|);
    assert front == collapsed[a..|collapsed|];
    var r := DropWhileEnd(front, IsHyphen);
    SliceShape(front, 0, |r|);
    assert r == front[0..|r|];
    if r != [] {
      assert r[0] == front[0];
    }
  }

  lemma SliceShape(s: string, a: nat, b: nat)
    requires forall i :: 0 <= i < |s| ==> IsSlugChar(s[i])
    requires NoRepeat(s, IsHyphen)
    requires a <= b <= |s|
    ensures forall i :: 0 <= i < b - a ==> IsSlugChar(s[a..b][i])
    ensures NoRepeat(s[a..b], IsHyphen)
  {
    NoRepeatSlice(s, IsHyphen, a, b);
  }

  /** Every output of `Slugify` is a well-formed slug. */
  lemma SlugifyIsSlug(value: string)
    ensures IsSlug(Slugify(value))
  {
    CollapsedShape(value);
    StripEdgesShape(ReplaceRuns(ReplaceRuns(Filter(Lower(Trim(value)), IsSlugInput), IsSpace, '-'), IsHyphen, '-'));
  }

  lemma TrimOfSlug(s: string)
    requires IsSlug(s)
    ensures Trim(s) == s
  {
    assert NoEdgeSpace(s);
    TrimOfTrimmed(s);
  }

  lemma LowerOfSlug(s: string)
    requires IsSlug(s)
    ensures Lower(s) == s
  {
    LowerOfLower(s);
  }

  lemma StagesOfSlug(s: string)
    requires IsSlug(s)
    ensures Filter(s, IsSlugInput) == s
    ensures ReplaceRuns(s, IsSpace, '-') == s
    ensures DropWhile(s, IsHyphen) == s
    ensures DropWhileEnd(s, IsHyphen) == s
  {
  }

  lemma CollapseOfSlug(s: string)
    requires IsSlug(s)
    ensures ReplaceRuns(s, IsHyphen, '-') == s
  {
    ReplaceRunsOfSingles(s, IsHyphen, '-');
  }

  /** A well-formed slug is a fixed point of `Slugify`. */
  lemma SlugifyOfSlug(s: string)
    requires IsSlug(s)
    ensures Slugify(s) == s
  {
    TrimOfSlug(s);
    LowerOfSlug(s);
    StagesOfSlug(s);
    CollapseOfSlug(s);
  }

  /** Slugifying twice changes nothing. */
  lemma SlugifyIdempotent(value: string)
    ensures Slugify(Slugify(value)) == Slugify(value)
  {
    SlugifyIsSlug(value);
    SlugifyOfSlug(Slugify(value));
  }
}
