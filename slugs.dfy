/** How `onCreateNode` chooses a document's URL slug and normalises its
    trailing slash. */
module Slugs {
  import opened Wrappers
  import opened Content

  /** The URL path separator. */
  const Sep: char := '/'

  predicate EndsWithSep(s: string)
  {
    |s| > 0 && s[|s| - 1] == Sep
  }

  /** Every character of `s` from index `i` on is a separator: the trailing
      slash-run pattern of the normalisation can match `s` starting at `i`. */
  ghost predicate SepRunFrom(s: string, i: nat)
    requires i <= |s|
  {
    forall k :: i <= k < |s| ==> s[k] == Sep
  }

  /** A string that ends in exactly one separator. */
  ghost predicate EndsWithOneSep(s: string)
  {
    EndsWithSep(s) && !EndsWithSep(s[..|s| - 1])
  }

  /** `n` separators. */
  function Seps(n: nat): (r: string)
    ensures |r| == n && forall k :: 0 <= k < n ==> r[k] == Sep
  {
    if n == 0 then [] else Seps(n - 1) + [Sep]
  }

  /** `s` without its trailing run of separators. */
  function StripTrailingSeps(s: string): (r: string)
    ensures |r| <= |s| && r == s[..|r|]
    ensures !EndsWithSep(r)
    ensures SepRunFrom(s, |r|)
    decreases |s|
  {
    if EndsWithSep(s) then StripTrailingSeps(s[..|s| - 1]) else s
  }

  /** gatsby-node.js:181: the trailing run of separators (possibly empty) is
      replaced by exactly one separator; everything before it is kept. */
  function NormalizeTrailingSlash(s: string): (r: string)
    ensures EndsWithOneSep(r)
    ensures |r| - 1 <= |s| && r[..|r| - 1] == s[..|r| - 1]
    ensures SepRunFrom(s, |r| - 1)
  {
    var r := StripTrailingSeps(s) + [Sep];
    assert r[..|r| - 1] == StripTrailingSeps(s);
    r
  }

  /** The non-global regular-expression replace substitutes the LEFTMOST
      match of the trailing slash-run pattern: no earlier position starts a
      run of separators reaching the end of `s`, so the result is
      `s[..i] + "/"` for the least such `i`. */
  lemma NormalizeReplacesLeftmostMatch(s: string)
    ensures var r := NormalizeTrailingSlash(s);
      forall i :: 0 <= i < |r| - 1 ==> !SepRunFrom(s, i)
  {
  }

  /** A prefix that does not end in a separator, followed by any number of
      separators, normalises to that prefix plus one separator. */
  lemma {:induction false} NormalizeSepRun(p: string, n: nat)
    requires !EndsWithSep(p)
    ensures NormalizeTrailingSlash(p + Seps(n)) == p + [Sep]
  {
    if n == 0 {
      assert p + Seps(0) == p;
    } else {
      var s := p + Seps(n);
      assert s[..|s| - 1] == p + Seps(n - 1);
      NormalizeSepRun(p, n - 1);
    }
  }

  /** A string with no trailing separator gets one appended; `""` becomes `"/"`. */
  lemma NormalizeAppendsWhenMissing(s: string)
    requires !EndsWithSep(s)
    ensures NormalizeTrailingSlash(s) == s + [Sep]
  {
  }

  /** The empty slug becomes the root `"/"`. */
  lemma NormalizeEmptySlug()
    ensures NormalizeTrailingSlash("") == [Sep]
  {
    NormalizeAppendsWhenMissing("");
  }

  /** Normalising twice gives the same slug as normalising once. */
  lemma NormalizeIdempotent(s: string)
    ensures NormalizeTrailingSlash(NormalizeTrailingSlash(s)) == NormalizeTrailingSlash(s)
  {
  }

  /** A normalised slug is a fixed point: normalisation changes a slug only
      when its trailing run is not exactly one separator. */
  lemma NormalizeFixedPoint(s: string)
    ensures NormalizeTrailingSlash(s) == s <==> EndsWithOneSep(s)
  {
  }

  /** path.isAbsolute on a POSIX path: it starts with the separator. */
  predicate IsAbsolute(p: string)
  {
    |p| > 0 && p[0] == Sep
  }

  /** An absolute slug stays absolute once its trailing slash is normalised,
      even when it consists of separators only. */
  lemma NormalizeKeepsAbsolute(p: string)
    requires IsAbsolute(p)
    ensures IsAbsolute(NormalizeTrailingSlash(p))
  {
  }

  /** gatsby-node.js:161-179: the slug before normalisation. A truthy
      frontmatter slug wins over the file path; an absolute one is used as
      written, a relative one is resolved against `basePath`. */
  function SelectSlug(fm: Frontmatter, file: FileNode, opts: Options, fw: Framework): (slug: string)
    ensures IsTruthyString(fm.slug) && IsAbsolute(fm.slug.value) ==> slug == fm.slug.value
    ensures IsTruthyString(fm.slug) && !IsAbsolute(fm.slug.value) ==>
      slug == fw.urlResolve(opts.basePath, fm.slug.value)
    ensures !IsTruthyString(fm.slug) ==>
      slug == fw.urlResolve(opts.basePath, fw.createFilePath(file, opts.coursePath))
  {
    if IsTruthyString(fm.slug) then
      if IsAbsolute(fm.slug.value) then fm.slug.value
      else fw.urlResolve(opts.basePath, fm.slug.value)
    else
      fw.urlResolve(opts.basePath, fw.createFilePath(file, opts.coursePath))
  }

  /** gatsby-node.js:161-181: the slug a Module or Lesson node carries. */
  function DocumentSlug(fm: Frontmatter, file: FileNode, opts: Options, fw: Framework): (slug: string)
    ensures EndsWithOneSep(slug)
  {
    NormalizeTrailingSlash(SelectSlug(fm, file, opts, fw))
  }

  /** An absolute frontmatter slug depends neither on the options nor on the
      framework helpers nor on the file; if it already ends in exactly one
      separator it is the slug verbatim. */
  lemma AbsoluteSlugIsVerbatim(fm: Frontmatter, f1: FileNode, o1: Options, w1: Framework,
                               f2: FileNode, o2: Options, w2: Framework)
    requires IsTruthyString(fm.slug) && IsAbsolute(fm.slug.value)
    ensures DocumentSlug(fm, f1, o1, w1) == DocumentSlug(fm, f2, o2, w2)
    ensures EndsWithOneSep(fm.slug.value) ==> DocumentSlug(fm, f1, o1, w1) == fm.slug.value
  {
  }

  /** The file path is consulted only when the frontmatter has no truthy slug:
      a truthy slug gives the same result whatever the file and whatever
      `createFilePath` does. */
  lemma FilePathOnlyAsFallback(fm: Frontmatter, f1: FileNode, f2: FileNode, opts: Options,
                               w1: Framework, w2: Framework)
    requires IsTruthyString(fm.slug) && w1.urlResolve == w2.urlResolve
    ensures DocumentSlug(fm, f1, opts, w1) == DocumentSlug(fm, f2, opts, w2)
  {
  }
}
