/** The folder name of a new article: `to_kebab_case(title)[:50]` in
    scripts/process_inbox.py. */
module Slug {
  import opened Text

  /** Entry `k` of the substitution table of `to_kebab_case`, in the order of its dict
      literal: the Russian alphabet, then the punctuation. */
  function TranslitEntry(k: int): (char, string)
    requires 0 <= k < 53
  {
    match k
      case 0 => ('а', "a")
      case 1 => ('б', "b")
      case 2 => ('в', "v")
      case 3 => ('г', "g")
      case 4 => ('д', "d")
      case 5 => ('е', "e")
      case 6 => ('ё', "yo")
      case 7 => ('ж', "zh")
      case 8 => ('з', "z")
      case 9 => ('и', "i")
      case 10 => ('й', "y")
      case 11 => ('к', "k")
      case 12 => ('л', "l")
      case 13 => ('м', "m")
      case 14 => ('н', "n")
      case 15 => ('о', "o")
      case 16 => ('п', "p")
      case 17 => ('р', "r")
      case 18 => ('с', "s")
      case 19 => ('т', "t")
      case 20 => ('у', "u")
      case 21 => ('ф', "f")
      case 22 => ('х', "h")
      case 23 => ('ц', "ts")
      case 24 => ('ч', "ch")
      case 25 => ('ш', "sh")
      case 26 => ('щ', "sch")
      case 27 => ('ъ', "")
      case 28 => ('ы', "y")
      case 29 => ('ь', "")
      case 30 => ('э', "e")
      case 31 => ('ю', "yu")
      case 32 => ('я', "ya")
      case 33 => ('_', "-")
      case 34 => (' ', "-")
      case 35 => ('(', "")
      case 36 => (')', "")
      case 37 => ('[', "")
      case 38 => (']', "")
      case 39 => ('{', "")
      case 40 => ('}', "")
      case 41 => ('.', "")
      case 42 => (',', "")
      case 43 => ('!', "")
      case 44 => ('?', "")
      case 45 => (':', "")
      case 46 => (';', "")
      case 47 => ('"', "")
      case 48 => ('\'', "")
      case 49 => ('/', "-")
      case 50 => ('\\', "-")
      case 51 => ('—', "-")
      case _ => ('–', "-")
  }

  /** The substitution table of `to_kebab_case`. */
  function Translit(): seq<(char, string)> {
    seq(53, TranslitEntry)
  }

  /** The maximal length of an article's folder name. */
  const MaxSlugLength: nat := 50

  /** The slug used when nothing of the title survives. */
  const DefaultSlug: string := "article"

  /** Every `result = result.replace(cyr, lat)` of the table, in order. */
  function ApplyTable(tbl: seq<(char, string)>, s: string): string
    decreases |tbl|
  {
    if tbl == [] then s else ApplyTable(tbl[1..], Replace(s, [tbl[0].0], tbl[0].1))
  }

  /** The characters that `re.sub(r'[^a-z0-9-]', '', ...)` keeps. */
  predicate IsSlugChar(c: char) {
    ('a' <= c <= 'z') || ('0' <= c <= '9') || c == '-'
  }

  predicate AllSlugChars(s: string) {
    forall i :: 0 <= i < |s| ==> IsSlugChar(s[i])
  }

  predicate NoDoubleHyphen(s: string) {
    forall i :: 0 <= i < |s| - 1 ==> !(s[i] == '-' && s[i + 1] == '-')
  }

  /** Non-empty, only `[a-z0-9-]`, no `--`, and no `-` at either end. */
  predicate IsKebab(s: string) {
    |s| > 0 && AllSlugChars(s) && s[0] != '-' && s[|s| - 1] != '-' && NoDoubleHyphen(s)
  }

  /** `re.sub(r'[^a-z0-9-]', '', s)` */
  function KeepSlugChars(s: string): (r: string)
    ensures AllSlugChars(r)
    decreases |s|
  {
    if s == [] then []
    else (if IsSlugChar(s[0]) then [s[0]] else []) + KeepSlugChars(s[1..])
  }

  /** `re.sub(r'-+', '-', s)`: every run of hyphens becomes one hyphen. */
  function CollapseHyphens(s: string): (r: string)
    ensures |r| <= |s|
    ensures s != [] ==> r != [] && r[0] == s[0] && r[|r| - 1] == s[|s| - 1]
    ensures AllSlugChars(s) ==> AllSlugChars(r)
    ensures NoDoubleHyphen(r)
    decreases |s|
  {
    if |s| < 2 then s
    else if s[0] == '-' && s[1] == '-' then CollapseHyphens(s[1..])
    else [s[0]] + CollapseHyphens(s[1..])
  }

  /** The cleaning of `to_kebab_case` for a given substitution table: transliterate the
      lower-cased text, drop what is not `[a-z0-9-]`, collapse runs of hyphens, strip hyphens
      at both ends, and fall back to `"article"`. */
  function KebabWith(tbl: seq<(char, string)>, text: string): string {
    var cleaned := StripChar(CollapseHyphens(KeepSlugChars(ApplyTable(tbl, Lower(text)))), '-');
    if cleaned == [] then DefaultSlug else cleaned
  }

  /** The specification of `to_kebab_case`. */
  function KebabOf(text: string): string {
    KebabWith(Translit(), text)
  }

  /** `to_kebab_case`: the loop rewrites the text once per table entry, then cleans it. */
  method ToKebabCase(text: string) returns (slug: string)
    ensures slug == KebabOf(text)
    ensures IsKebab(slug)
  {
    var tbl := Translit();
    var result := Lower(text);
    for i := 0 to |tbl|
      invariant ApplyTable(tbl[i..], result) == ApplyTable(tbl, Lower(text))
    {
      assert tbl[i..][1..] == tbl[i + 1..];
      result := Replace(result, [tbl[i].0], tbl[i].1);
    }
    assert tbl[|tbl|..] == [];
    result := KeepSlugChars(result);
    result := CollapseHyphens(result);
    result := StripChar(result, '-');
    slug := if result == [] then DefaultSlug else result;
    KebabWithIsKebab(tbl, text);
  }

  /** The article folder: the slug cut to 50 characters, after the fallback. */
  function ArticleSlug(title: string): string {
    Take(KebabOf(title), MaxSlugLength)
  }

  // ---------------------------------------------------------------------------
  // Properties
  // ---------------------------------------------------------------------------

  lemma StripHyphensShape(s: string)
    requires AllSlugChars(s) && NoDoubleHyphen(s)
    ensures var r := StripChar(s, '-');
      AllSlugChars(r) && NoDoubleHyphen(r) && (r == [] || (r[0] != '-' && r[|r| - 1] != '-'))
  {
    var l := LStripChar(s, '-');
    var r := RStripChar(l, '-');
    LStripCharShape(s, '-');
    RStripCharShape(l, '-');
    assert l == s[|s| - |l|..];
    assert r == l[..|r|];
    assert forall i :: 0 <= i < |r| ==> r[i] == s[|s| - |l| + i];
  }

  /** Whatever the table and the title, the result is non-empty kebab-case ASCII. */
  lemma KebabWithIsKebab(tbl: seq<(char, string)>, text: string)
    ensures IsKebab(KebabWith(tbl, text))
  {
    var kept := KeepSlugChars(ApplyTable(tbl, Lower(text)));
    StripHyphensShape(CollapseHyphens(kept));
  }

  /** Whatever the title, the slug is non-empty kebab-case ASCII. */
  lemma KebabOfIsKebab(text: string)
    ensures IsKebab(KebabOf(text))
  {
    KebabWithIsKebab(Translit(), text);
  }

  lemma {:induction false} KeepSlugCharsIdentity(s: string)
    requires AllSlugChars(s)
    ensures KeepSlugChars(s) == s
    decreases |s|
  {
    if s != [] {
      KeepSlugCharsIdentity(s[1..]);
      assert s == [s[0]] + s[1..];
    }
  }

  lemma {:induction false} CollapseHyphensIdentity(s: string)
    requires NoDoubleHyphen(s)
    ensures CollapseHyphens(s) == s
    decreases |s|
  {
    if |s| >= 2 {
      CollapseHyphensIdentity(s[1..]);
      assert s == [s[0]] + s[1..];
    }
  }

  lemma {:induction false} ApplyTableNoKeys(tbl: seq<(char, string)>, s: string)
    requires forall k :: 0 <= k < |tbl| ==> tbl[k].0 !in s
    ensures ApplyTable(tbl, s) == s
    decreases |tbl|
  {
    if tbl != [] {
      ReplaceAbsentChar(s, tbl[0].0, tbl[0].1);
      ApplyTableNoKeys(tbl[1..], s);
    }
  }

  /** No key of the table is a character a slug may contain. */
  predicate NoSlugKey(tbl: seq<(char, string)>) {
    forall k :: 0 <= k < |tbl| ==> !IsSlugChar(tbl[k].0)
  }

  lemma NoSlugKeyAt(tbl: seq<(char, string)>, s: string)
    requires NoSlugKey(tbl) && AllSlugChars(s)
    ensures forall k :: 0 <= k < |tbl| ==> tbl[k].0 !in s
  {
  }

  /** A table whose keys are no slug characters leaves a slug as it is. */
  lemma KebabWithIdempotent(tbl: seq<(char, string)>, text: string)
    requires NoSlugKey(tbl)
    ensures KebabWith(tbl, KebabWith(tbl, text)) == KebabWith(tbl, text)
  {
    var y := KebabWith(tbl, text);
    KebabWithIsKebab(tbl, text);
    assert Lower(y) == y;
    NoSlugKeyAt(tbl, y);
    ApplyTableNoKeys(tbl, y);
    KeepSlugCharsIdentity(y);
    CollapseHyphensIdentity(y);
    StripCharNone(y, '-');
  }

  /** A slug is its own slug: `to_kebab_case` is idempotent. */
  lemma KebabOfIdempotent(text: string)
    ensures KebabOf(KebabOf(text)) == KebabOf(text)
  {
    assert NoSlugKey(Translit());
    KebabWithIdempotent(Translit(), text);
  }

  /** The folder name keeps the slug's alphabet, has no `--` and does not start with `-`,
      and is kebab-case when the slug is at most 50 characters long. */
  lemma ArticleSlugShape(title: string)
    ensures var r := ArticleSlug(title);
      0 < |r| <= MaxSlugLength && AllSlugChars(r) && NoDoubleHyphen(r) && r[0] != '-'
    ensures |KebabOf(title)| <= MaxSlugLength ==> IsKebab(ArticleSlug(title))
  {
    KebabOfIsKebab(title);
  }

  /** A title that is already lower-case kebab text, with no table key in it, is its own
      slug. */
  lemma KebabOfPlain(title: string)
    requires AllSlugChars(title) && NoDoubleHyphen(title) && Lower(title) == title
    requires title != [] && title[0] != '-' && title[|title| - 1] != '-'
    ensures KebabOf(title) == title
  {
    assert NoSlugKey(Translit());
    NoSlugKeyAt(Translit(), title);
    ApplyTableNoKeys(Translit(), title);
    KeepSlugCharsIdentity(title);
    CollapseHyphensIdentity(title);
    StripCharNone(title, '-');
  }

  /** The cut at 50 characters can leave a `-` at the end: a title of 49 letters, a hyphen
      and one more letter. */
  lemma TruncatedSlugMayEndWithHyphen()
    ensures var title := seq(49, _ => 'a') + "-b";
      ArticleSlug(title) == seq(49, _ => 'a') + "-" && !IsKebab(ArticleSlug(title))
  {
    var title := seq(49, _ => 'a') + "-b";
    assert AllSlugChars(title) && NoDoubleHyphen(title);
    assert Lower(title) == title;
    KebabOfPlain(title);
    assert title[..50] == seq(49, _ => 'a') + "-";
  }
}
