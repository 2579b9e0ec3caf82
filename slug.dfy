/**
 * `createSlug`, the URL-slug normaliser (lib/videos.ts; pages/AddVideoPage.tsx
 * carries a character-for-character copy): lower-case, `&` spelled "and",
 * punctuation dropped, runs of whitespace, `_` and `-` collapsed to one `-`,
 * and hyphens stripped from both ends.
 */
module Slug {
  import opened Text

  /** The regular-expression class `\w`. */
  predicate IsWordChar(c: char) {
    IsAsciiUpper(c) || IsAsciiLower(c) || IsDigit(c) || c == '_'
  }

  /** The regular-expression class `[\s_-]`. */
  predicate IsSeparator(c: char) {
    IsSpace(c) || c == '_' || c == '-'
  }

  predicate IsSlugChar(c: char) {
    IsAsciiLower(c) || IsDigit(c) || c == '-'
  }

  predicate NoDoubleHyphen(s: String) {
    forall i :: 0 < i < |s| ==> !(s[i - 1] == '-' && s[i] == '-')
  }

  /** What a slug looks like: `a`-`z`, `0`-`9` and single inner hyphens. */
  predicate IsSlug(s: String) {
    && (forall i :: 0 <= i < |s| ==> IsSlugChar(s[i]))
    && NoDoubleHyphen(s)
    && (s != [] ==> s[0] != '-' && s[|s| - 1] != '-')
  }

  predicate NoUpper(s: String) {
    forall i :: 0 <= i < |s| ==> !IsAsciiUpper(s[i])
  }

  /** `.replace(/&/g, 'and')` */
  function ReplaceAmpersands(s: String): (r: String)
    ensures NoUpper(s) ==> NoUpper(r)
  {
    if s == [] then []
    else (if s[0] == '&' then "and" else [s[0]]) + ReplaceAmpersands(s[1..])
  }

  /** `.replace(/[^\w\s-]/g, '')` */
  function DropPunctuation(s: String): (r: String)
    ensures NoUpper(s) ==> forall i :: 0 <= i < |r| ==> IsSlugChar(r[i]) || IsSeparator(r[i])
  {
    if s == [] then []
    else
      (if IsWordChar(s[0]) || IsSpace(s[0]) || s[0] == '-' then [s[0]] else [])
      + DropPunctuation(s[1..])
  }

  /** `.replace(/[\s_-]+/g, '-')`; `inRun` says the previous character was a separator. */
  function CollapseSeparators(s: String, inRun: bool): (r: String)
    ensures NoDoubleHyphen(r)
    ensures inRun ==> r == [] || r[0] != '-'
    ensures (forall i :: 0 <= i < |s| ==> IsSlugChar(s[i]) || IsSeparator(s[i]))
            ==> forall i :: 0 <= i < |r| ==> IsSlugChar(r[i])
  {
    if s == [] then []
    else if IsSeparator(s[0]) then
      var rest := CollapseSeparators(s[1..], true);
      (if inRun then [] else "-") + rest
    else
      [s[0]] + CollapseSeparators(s[1..], false)
  }

  /** `.replace(/^-+/, '')` */
  function TrimLeadingHyphens(s: String): (r: String)
    ensures |r| <= |s| && r == s[|s| - |r|..]
    ensures r == [] || r[0] != '-'
  {
    if s != [] && s[0] == '-' then TrimLeadingHyphens(s[1..]) else s
  }

  /** `.replace(/-+$/, '')` */
  function TrimTrailingHyphens(s: String): (r: String)
    ensures |r| <= |s| && r == s[..|r|]
    ensures r == [] || r[|r| - 1] != '-'
  {
    if s != [] && s[|s| - 1] == '-' then TrimTrailingHyphens(s[..|s| - 1]) else s
  }

  /** Trimming hyphens from both ends of a hyphen-free-start string leaves a slug. */
  lemma TrimmedIsSlug(collapsed: String)
    requires NoDoubleHyphen(collapsed)
    requires forall i :: 0 <= i < |collapsed| ==> IsSlugChar(collapsed[i])
    ensures IsSlug(TrimTrailingHyphens(TrimLeadingHyphens(collapsed)))
  {
    var leading := TrimLeadingHyphens(collapsed);
    var r := TrimTrailingHyphens(leading);
    assert r != [] ==> r[0] == leading[0];
  }

  /** `createSlug(title)`. */
  function CreateSlug(title: String): (r: String)
    ensures title == [] ==> r == []
    ensures IsSlug(r)
  {
    if title == [] then []
    else
      TrimmedIsSlug(CollapseSeparators(DropPunctuation(ReplaceAmpersands(ToLower(title))), false));
      TrimTrailingHyphens(TrimLeadingHyphens(CollapseSeparators(DropPunctuation(ReplaceAmpersands(ToLower(title))), false)))
  }

  lemma {:induction false} ReplaceAmpersandsNoop(s: String)
    requires '&' !in s
    ensures ReplaceAmpersands(s) == s
  {
    if s != [] {
      ReplaceAmpersandsNoop(s[1..]);
      assert [s[0]] + s[1..] == s;
    }
  }

  lemma {:induction false} DropPunctuationNoop(s: String)
    requires forall i :: 0 <= i < |s| ==> IsSlugChar(s[i])
    ensures DropPunctuation(s) == s
  {
    if s != [] {
      DropPunctuationNoop(s[1..]);
      assert [s[0]] + s[1..] == s;
    }
  }

  lemma {:induction false} CollapseSeparatorsNoop(s: String, inRun: bool)
    requires forall i :: 0 <= i < |s| ==> IsSlugChar(s[i])
    requires NoDoubleHyphen(s)
    requires inRun ==> s == [] || s[0] != '-'
    ensures CollapseSeparators(s, inRun) == s
  {
    if s != [] {
      assert NoDoubleHyphen(s[1..]) by {
        forall i | 0 < i < |s[1..]| ensures !(s[1..][i - 1] == '-' && s[1..][i] == '-') {
          assert s[1..][i - 1] == s[i] && s[1..][i] == s[i + 1];
        }
      }
      if s[0] == '-' {
        assert |s| > 1 ==> s[1] != '-';
        CollapseSeparatorsNoop(s[1..], true);
      } else {
        CollapseSeparatorsNoop(s[1..], false);
      }
      assert [s[0]] + s[1..] == s;
    }
  }

  /** A slug is its own slug. */
  lemma SlugIsFixpoint(s: String)
    requires IsSlug(s)
    ensures CreateSlug(s) == s
  {
    if s != [] {
      var lower := ToLower(s);
      assert lower == s;
      ReplaceAmpersandsNoop(s);
      DropPunctuationNoop(s);
      CollapseSeparatorsNoop(s, false);
    }
  }

  /** `createSlug` is idempotent. */
  lemma CreateSlugIdempotent(title: String)
    ensures CreateSlug(CreateSlug(title)) == CreateSlug(title)
  {
    SlugIsFixpoint(CreateSlug(title));
  }
}
