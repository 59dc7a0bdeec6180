/**
 * Slug de-duplication, shared by the `pre("save")` hooks of both schemas.
 *
 * The hook turns the name into a base slug (the `slugs` library, which the
 * model takes as a parameter `slugify`), counts the stored slugs that the
 * regular expression `^(base)((-[0-9]*$)?)` with flag `i` matches, and keeps
 * the base when that count N is 0 and otherwise appends `-` and N + 1.
 */
module Slugs {
  import opened Seqs
  import opened Text

  /** Case folding of the regular-expression flag `i`, for ASCII letters. */
  function Fold(c: char): char {
    if 'a' <= c <= 'z' then (c as int - 32) as char else c
  }

  /** `p` is a prefix of `s`, letters compared without regard to case. */
  predicate PrefixIgnoringCase(p: string, s: string) {
    |p| <= |s| && forall i :: 0 <= i < |p| ==> Fold(p[i]) == Fold(s[i])
  }

  /** The group `-[0-9]*$`: a dash, then only digits up to the end of the text. */
  predicate DashDigitsToEnd(t: string) {
    |t| >= 1 && t[0] == '-' && forall i :: 1 <= i < |t| ==> IsDigit(t[i])
  }

  /**
   * Whether the hook's pattern `^(base)((-[0-9]*$)?)`, flag `i`, finds a match
   * in the stored slug `s`, for a base without regular-expression
   * metacharacters.  Only the start is anchored.  After the base, the optional
   * group either matches `-digits` to the end of `s` or is skipped, matching
   * the empty text at that position.
   */
  predicate SlugPatternMatches(base: string, s: string) {
    PrefixIgnoringCase(base, s) && (DashDigitsToEnd(s[|base|..]) || s[|base|..|base|] == [])
  }

  /**
   * The fully anchored pattern the hook evidently intends, `^base(-[0-9]*)?$`:
   * the base itself or the base with a numeric suffix, and nothing longer.
   */
  predicate AnchoredPatternMatches(base: string, s: string) {
    PrefixIgnoringCase(base, s) && (|s| == |base| || DashDigitsToEnd(s[|base|..]))
  }

  /** The number of stored slugs the hook's query returns. */
  function MatchCount(base: string, existing: seq<string>): nat {
    Count(existing, s => SlugPatternMatches(base, s))
  }

  /** The slug the hook saves for base slug `base` when `existing` are the stored slugs. */
  function UniqueSlug(base: string, existing: seq<string>): (r: string)
    ensures StartsWith(r, base)
    ensures r == base <==> forall i :: 0 <= i < |existing| ==> !PrefixIgnoringCase(base, existing[i])
  {
    var n := MatchCount(base, existing);
    if n > 0 then base + "-" + Decimal(n + 1) else base
  }

  /**
   * The optional group can always be skipped, so the hook's query returns
   * every stored slug that starts with the base, ignoring case: `foo-barbaz`
   * is counted for `foo-bar`.
   */
  lemma SlugPatternIsPrefix(base: string, s: string)
    ensures SlugPatternMatches(base, s) <==> PrefixIgnoringCase(base, s)
  {
  }

  /** The anchored pattern matches fewer slugs than the hook's pattern, and strictly fewer. */
  lemma AnchoredPatternIsNarrower()
    ensures forall base, s :: AnchoredPatternMatches(base, s) ==> SlugPatternMatches(base, s)
    ensures SlugPatternMatches("foo-bar", "foo-barbaz") && !AnchoredPatternMatches("foo-bar", "foo-barbaz")
  {
    assert "foo-barbaz"[7..] == "baz";
  }

  /** Any stored slug with the base as a prefix (ignoring case) forces a numeric suffix. */
  lemma {:induction false} SuffixIsCountPlusOne(base: string, existing: seq<string>)
    requires exists i :: 0 <= i < |existing| && PrefixIgnoringCase(base, existing[i])
    ensures var r := UniqueSlug(base, existing);
            |r| >= |base| + 2 && r[..|base|] == base && DashDigitsToEnd(r[|base|..]) &&
            DecimalValue(r[|base| + 1..]) == MatchCount(base, existing) + 1
  {
    var n := MatchCount(base, existing);
    var r := UniqueSlug(base, existing);
    assert n > 0;
    assert r == base + "-" + Decimal(n + 1);
    assert r[|base| + 1..] == Decimal(n + 1);
    DecimalRoundTrip(n + 1);
  }

  /** The saved slug matches the pattern of its own base, so later saves of that name count it. */
  lemma SavedSlugMatches(base: string, existing: seq<string>)
    ensures SlugPatternMatches(base, UniqueSlug(base, existing))
  {
    var r := UniqueSlug(base, existing);
    assert r[..|base|] == base;
    assert forall i :: 0 <= i < |base| ==> r[i] == base[i];
  }

  /**
   * Saving the same name again after a save adds one to the suffix: with
   * N matching slugs stored, the first save gives base or base-(N+1) and the
   * next one gives base-(N+2).
   */
  lemma {:induction false} CollisionGrowth(base: string, existing: seq<string>)
    ensures UniqueSlug(base, existing + [UniqueSlug(base, existing)]) ==
            base + "-" + Decimal(MatchCount(base, existing) + 2)
  {
    var r := UniqueSlug(base, existing);
    SavedSlugMatches(base, existing);
    CountConcat(existing, [r], s => SlugPatternMatches(base, s));
    assert MatchCount(base, existing + [r]) == MatchCount(base, existing) + 1;
  }

  /** The slug depends only on the base and the multiset of stored slugs, not on their order. */
  lemma {:induction false} UniqueSlugDeterministic(base: string, a: seq<string>, b: seq<string>)
    requires multiset(a) == multiset(b)
    ensures UniqueSlug(base, a) == UniqueSlug(base, b)
  {
    CountPermutation(a, b, s => SlugPatternMatches(base, s));
  }

  /** Worked examples: the first and second save of the same name. */
  lemma UniqueSlugExamples()
    ensures UniqueSlug("foo-bar", []) == "foo-bar"
    ensures UniqueSlug("foo-bar", ["foo-bar"]) == "foo-bar-2"
  {
    assert Decimal(2) == "2";
    assert SlugPatternMatches("foo-bar", "foo-bar");
    assert MatchCount("foo-bar", ["foo-bar"]) == 1;
  }

  /** The third save of the same name. */
  lemma UniqueSlugThirdSave()
    ensures UniqueSlug("foo-bar", ["foo-bar", "foo-bar-2"]) == "foo-bar-3"
  {
    assert Decimal(3) == "3";
    assert SlugPatternMatches("foo-bar", "foo-bar");
    assert SlugPatternMatches("foo-bar", "foo-bar-2");
    assert MatchCount("foo-bar", ["foo-bar", "foo-bar-2"]) == 2;
  }

  /** A stored slug that differs only in letter case counts. */
  lemma UniqueSlugIgnoresCase()
    ensures UniqueSlug("foo-bar", ["FOO-BAR"]) == "foo-bar-2"
  {
    assert Decimal(2) == "2";
    assert SlugPatternMatches("foo-bar", "FOO-BAR");
    assert MatchCount("foo-bar", ["FOO-BAR"]) == 1;
  }

  /** A longer slug that merely starts with the base counts too. */
  lemma UniqueSlugCountsLongerSlugs()
    ensures UniqueSlug("foo-bar", ["foo-barbaz"]) == "foo-bar-2"
  {
    assert Decimal(2) == "2";
    assert SlugPatternMatches("foo-bar", "foo-barbaz");
    assert MatchCount("foo-bar", ["foo-barbaz"]) == 1;
  }

  /**
   * The suffix comes from a count, not from a search for a free number: once
   * `foo-bar` is gone and only `foo-bar-2` is stored, the next save of the
   * name is given `foo-bar-2` again.
   */
  lemma CountedSuffixCanRepeat()
    ensures var existing := ["foo-bar-2"];
            UniqueSlug("foo-bar", existing) in existing
  {
    assert Decimal(2) == "2";
    assert SlugPatternMatches("foo-bar", "foo-bar-2");
    assert MatchCount("foo-bar", ["foo-bar-2"]) == 1;
    assert UniqueSlug("foo-bar", ["foo-bar-2"]) == "foo-bar-2";
  }
}
