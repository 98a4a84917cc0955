/** `classify_topic` in scripts/process_inbox.py: an ordered chain of keyword tests over the
    lower-cased title and the first 1000 characters of the lower-cased body. */
module Classifier {
  import opened Text
  import Slug

  const BearingKeywords: seq<string> := [
    "подшипник", "bearing", "шариковый", "роликовый", "радиальный",
    "упорный", "конический", "цилиндрический", "сферический",
    "skf", "fag", "nsk", "koyo", "timken", "гост", "iso", "маркировка",
    "обозначение", "аналог", "эквивалент", "ступиц", "нагрузк"
  ]

  const LubricationKeywords: seq<string> := ["смазк", "масл", "консистент", "сальник", "манжет", "уплотнени"]

  const DriveKeywords: seq<string> := ["ремень", "цепь", "звездочк", "привод", "шкив"]

  const StandardsKeywords: seq<string> := ["гост", "стандарт", "iso", "din", "термин", "определени", "classification"]

  const MaintenanceKeywords: seq<string> := ["монтаж", "демонтаж", "установк", "ревизи", "обслуживан", "ремонт"]

  /** How much of the body the classifier looks at. */
  const BodyWindow: nat := 1000

  /** The nine topic labels the classifier can return. */
  const Labels: seq<string> := [
    "podshipniki-standards", "podshipniki-maintenance", "podshipniki-equivalents",
    "podshipniki-designation", "podshipniki", "lubrication-seals", "drive-systems",
    "standards", "general"
  ]

  /** `any(kw in s for kw in kws)` */
  predicate AnyIn(kws: seq<string>, s: string) {
    exists k :: 0 <= k < |kws| && Contains(s, kws[k])
  }

  /** `title_lower + " " + text_lower[:1000]` */
  function Combined(text: string, title: string): string {
    Lower(title) + " " + Take(Lower(text), BodyWindow)
  }

  /** The chain of `classify_topic` over the combined text. */
  function ClassifyCombined(c: string): (r: string)
    ensures r in Labels
  {
    if AnyIn(BearingKeywords, c) then
      if AnyIn(StandardsKeywords, c) then "podshipniki-standards"
      else if AnyIn(MaintenanceKeywords, c) then "podshipniki-maintenance"
      else if Contains(c, "аналог") || Contains(c, "эквивалент") || Contains(c, "equivalent") then
        "podshipniki-equivalents"
      else if Contains(c, "маркировка") || Contains(c, "обозначение") || Contains(c, "designation") then
        "podshipniki-designation"
      else "podshipniki"
    else if AnyIn(LubricationKeywords, c) then "lubrication-seals"
    else if AnyIn(DriveKeywords, c) then "drive-systems"
    else if AnyIn(StandardsKeywords, c) then "standards"
    else "general"
  }

  /** `classify_topic(text, title)` */
  function ClassifyTopic(text: string, title: string): (r: string)
    ensures r in Labels
  {
    ClassifyCombined(Combined(text, title))
  }

  // ---------------------------------------------------------------------------
  // Properties
  // ---------------------------------------------------------------------------

  /** Every label is a valid kebab-case slug, so every topic folder is. */
  lemma LabelsAreKebab(text: string, title: string)
    ensures Slug.IsKebab(ClassifyTopic(text, title))
  {
    LabelIsKebab(ClassifyTopic(text, title));
  }

  lemma LabelIsKebab(r: string)
    requires r in Labels
    ensures Slug.IsKebab(r)
  {
    LabelSlugChars(r);
    LabelNoDoubleHyphen(r);
    LabelEnds(r);
  }

  lemma LabelSlugChars(r: string)
    requires r in Labels
    ensures Slug.AllSlugChars(r)
  {
  }

  lemma LabelNoDoubleHyphen(r: string)
    requires r in Labels
    ensures Slug.NoDoubleHyphen(r)
  {
  }

  lemma LabelEnds(r: string)
    requires r in Labels
    ensures |r| > 0 && r[0] != '-' && r[|r| - 1] != '-'
  {
  }

  lemma LowerTake(s: string, n: nat)
    ensures Take(Lower(s), n) == Lower(Take(s, n))
  {
  }

  /** Beyond the first 1000 characters, the body does not affect the topic. */
  lemma ClassifyReadsOnlyWindow(text1: string, text2: string, title: string)
    requires Take(text1, BodyWindow) == Take(text2, BodyWindow)
    ensures ClassifyTopic(text1, title) == ClassifyTopic(text2, title)
  {
    LowerTake(text1, BodyWindow);
    LowerTake(text2, BodyWindow);
  }

  lemma AnyInAt(kws: seq<string>, k: nat, s: string)
    requires k < |kws| && Contains(s, kws[k])
    ensures AnyIn(kws, s)
  {
  }

  /** "гост" and "iso" are both bearing and standards keywords: either one decides the topic. */
  lemma GostOrIsoMeansStandards(text: string, title: string)
    requires Contains(Combined(text, title), "гост") || Contains(Combined(text, title), "iso")
    ensures ClassifyTopic(text, title) == "podshipniki-standards"
  {
    var c := Combined(text, title);
    if Contains(c, "гост") {
      AnyInAt(BearingKeywords, 14, c);
      AnyInAt(StandardsKeywords, 0, c);
    } else {
      AnyInAt(BearingKeywords, 15, c);
      AnyInAt(StandardsKeywords, 2, c);
    }
  }

  /** The bearing family is tried first: a bearing keyword yields a `podshipniki` topic, and
      only a bearing keyword does. */
  lemma BearingFamilyFirst(text: string, title: string)
    ensures StartsWith(ClassifyTopic(text, title), "podshipniki")
        <==> AnyIn(BearingKeywords, Combined(text, title))
  {
    assert "lubrication-seals"[..11][0] == 'l';
    assert "drive-systems"[..11][0] == 'd';
    assert "general"[0] == 'g' && |"general"| < 11 && |"standards"| < 11;
  }

  /** `general` is the topic exactly when no keyword of any family occurs. */
  lemma GeneralIffNoKeyword(text: string, title: string)
    ensures ClassifyTopic(text, title) == "general" <==>
      var c := Combined(text, title);
      !AnyIn(BearingKeywords, c) && !AnyIn(LubricationKeywords, c) &&
      !AnyIn(DriveKeywords, c) && !AnyIn(StandardsKeywords, c)
  {
  }
}
