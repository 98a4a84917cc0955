/** The text of a new article and of its topic page, as scripts/process_inbox.py writes them:
    `extract_title_from_content`, `create_article_from_content` and the page text of
    `update_topic_readme`. */
module Article {
  import opened Text
  import opened Results

  // ---------------------------------------------------------------------------
  // extract_title_from_content
  // ---------------------------------------------------------------------------

  /** A line whose stripped form starts with `# `. */
  predicate IsHeadingLine(line: string) {
    StartsWith(Strip(line), "# ")
  }

  /** What follows `# ` on a heading line, stripped. */
  function HeadingText(line: string): string
    requires IsHeadingLine(line)
  {
    Strip(Strip(line)[2..])
  }

  /** The index of the first line that satisfies `p`, if any. */
  function FirstWhere(lines: seq<string>, p: string -> bool): (r: Option<nat>)
    ensures r.Some? ==> r.value < |lines| && p(lines[r.value])
    ensures r.Some? ==> forall j :: 0 <= j < r.value ==> !p(lines[j])
    ensures r.None? ==> forall j :: 0 <= j < |lines| ==> !p(lines[j])
    decreases |lines|
  {
    if lines == [] then None
    else if p(lines[0]) then Some(0)
    else match FirstWhere(lines[1..], p)
      case None => None
      case Some(k) => Some(k + 1)
  }

  /** The file name with `_` and `-` turned into spaces and a trailing `.md` removed. */
  function TitleFromFilename(filename: string): (r: string)
    ensures '_' !in r && '-' !in r
    ensures |r| == if EndsWith(Replace(Replace(filename, "_", " "), "-", " "), ".md")
                   then |filename| - 3 else |filename|
  {
    var spaced := Replace(Replace(filename, "_", " "), "-", " ");
    ReplaceChar(filename, '_', " ");
    ReplaceChar(Replace(filename, "_", " "), '-', " ");
    ReplaceAbsentChar(Replace(filename, "_", " "), '_', " ");
    ReplaceCharKeeps(Replace(filename, "_", " "), '-', " ", '_');
    if EndsWith(spaced, ".md") then spaced[..|spaced| - 3] else spaced
  }

  /** Replacing `c` introduces only the characters of the replacement. */
  lemma {:induction false} ReplaceCharKeeps(s: string, c: char, rep: string, d: char)
    requires d !in s && d !in rep
    ensures d !in Replace(s, [c], rep)
    decreases |s|
  {
    if |s| >= 1 {
      ReplaceCharKeeps(s[1..], c, rep, d);
      assert s[..1] == [s[0]];
    }
  }

  /** `extract_title_from_content(text, filename)` */
  function ExtractTitle(text: string, filename: string): string {
    var lines := Split(text, '\n');
    match FirstWhere(lines, IsHeadingLine)
      case Some(i) => HeadingText(lines[i])
      case None => TitleFromFilename(filename)
  }

  /** `FirstWhere` finds the first line that satisfies `p`. */
  lemma FirstWhereFinds(lines: seq<string>, p: string -> bool, i: nat)
    requires i < |lines| && p(lines[i])
    requires forall j :: 0 <= j < i ==> !p(lines[j])
    ensures FirstWhere(lines, p) == Some(i)
  {
  }

  /** The title is the text of the first heading line of the body. */
  lemma ExtractTitleFirstHeading(text: string, filename: string, i: nat)
    requires var lines := Split(text, '\n');
      i < |lines| && IsHeadingLine(lines[i]) &&
      forall j :: 0 <= j < i ==> !IsHeadingLine(lines[j])
    ensures ExtractTitle(text, filename) == HeadingText(Split(text, '\n')[i])
  {
    FirstWhereFinds(Split(text, '\n'), IsHeadingLine, i);
  }

  /** Without a heading line, the title comes from the file name. */
  lemma ExtractTitleFromFilename(text: string, filename: string)
    requires var lines := Split(text, '\n');
      forall j :: 0 <= j < |lines| ==> !IsHeadingLine(lines[j])
    ensures ExtractTitle(text, filename) == TitleFromFilename(filename)
  {
    var r := FirstWhere(Split(text, '\n'), IsHeadingLine);
    if r.Some? {
      assert IsHeadingLine(Split(text, '\n')[r.value]);
    }
  }

  // ---------------------------------------------------------------------------
  // create_article_from_content
  // ---------------------------------------------------------------------------

  const ImportedTag: string := "imported-from-inbox"

  /** The order in which `create_article_from_content` appends the tags; 4 for any other
      string. */
  function TagRank(t: string): nat {
    if t == ImportedTag then 0
    else if t == "bearings" then 1
    else if t == "standards" then 2
    else if t == "designation" then 3
    else 4
  }

  /** The tags of a new article: always `imported-from-inbox`, then `bearings`, `standards`
      and `designation` by substring tests on the topic. No other tag occurs, none occurs
      twice, and they come in the order they are appended. */
  function Tags(topic: string): (r: seq<string>)
    ensures |r| >= 1 && r[0] == ImportedTag
    ensures forall t :: t in r ==> t in {ImportedTag, "bearings", "standards", "designation"}
    ensures forall i, j :: 0 <= i < j < |r| ==> r[i] != r[j]
    ensures forall i, j :: 0 <= i < j < |r| ==> TagRank(r[i]) < TagRank(r[j])
    ensures "bearings" in r <==> Contains(topic, "podshipniki") || Contains(topic, "bearing")
    ensures "standards" in r <==> Contains(topic, "standards") || Contains(Lower(topic), "гост")
    ensures "designation" in r <==> Contains(topic, "designation") || Contains(Lower(topic), "маркировка")
  {
    [ImportedTag]
    + (if Contains(topic, "podshipniki") || Contains(topic, "bearing") then ["bearings"] else [])
    + (if Contains(topic, "standards") || Contains(Lower(topic), "гост") then ["standards"] else [])
    + (if Contains(topic, "designation") || Contains(Lower(topic), "маркировка") then ["designation"] else [])
  }

  /** `json.dumps` of a list of strings that need no escaping: `["a", "b"]`. */
  function JsonList(items: seq<string>): string {
    "[" + Join(seq(|items|, i requires 0 <= i < |items| => "\"" + items[i] + "\""), ", ") + "]"
  }

  /** `key: value` lines, one per field, in order. */
  function FieldLines(fields: seq<(string, string)>): string
    decreases |fields|
  {
    if fields == [] then "" else fields[0].0 + ": " + fields[0].1 + "\n" + FieldLines(fields[1..])
  }

  /** The fields of a new article's front matter, in the order they are written. */
  function ArticleFields(articleId: string, title: string, topic: string, sourceFile: string,
                         today: string): seq<(string, string)>
  {
    [("id", articleId), ("title", title), ("topic", topic), ("tags", JsonList(Tags(topic))),
     ("status", "draft"), ("source", "inbox/" + sourceFile), ("created", today), ("updated", today)]
  }

  /** The front matter block, with the blank line after its closing `---`. */
  function FrontMatter(articleId: string, title: string, topic: string, sourceFile: string,
                       today: string): string
  {
    "---\n" + FieldLines(ArticleFields(articleId, title, topic, sourceFile, today)) + "---\n\n"
  }

  /** The body: leading newlines removed, and `# <title>` added when it does not start with
      a heading. */
  function ArticleBody(content: string, title: string): (r: string)
    ensures StartsWith(r, "# ")
    ensures EndsWith(r, LStripChar(content, '\n'))
  {
    var c := LStripChar(content, '\n');
    if StartsWith(c, "# ") then c else "# " + title + "\n\n" + c
  }

  /** `create_article_from_content(content, title, topic, source_file, article_id)` on the
      day `today`. */
  function CreateArticle(content: string, title: string, topic: string, sourceFile: string,
                         articleId: string, today: string): string
  {
    FrontMatter(articleId, title, topic, sourceFile, today) + ArticleBody(content, title)
  }

  // ---------------------------------------------------------------------------
  // update_topic_readme: the text of the topic page
  // ---------------------------------------------------------------------------

  const SectionTitle: string := "## Статьи"
  const SectionLine: string := SectionTitle + "\n"

  /** The list entry pointing at an article folder. */
  function LinkLine(title: string, slug: string): string {
    "- [" + title + "](./" + slug + "/README.md)"
  }

  /** `topic.replace("-", " ").title()` */
  function TopicTitle(topic: string): string {
    Title(Replace(topic, "-", " "))
  }

  /** The fields of an auto-created topic page; its `id` is the placeholder `TBD`. */
  function TopicPageFields(topic: string, today: string): seq<(string, string)> {
    [("id", "TBD"), ("title", TopicTitle(topic)), ("topic", topic), ("tags", "[\"topic-index\"]"),
     ("status", "draft"), ("source", "auto-generated"), ("created", today), ("updated", today)]
  }

  /** The page written when the topic has none yet. */
  function NewTopicPage(topic: string, title: string, slug: string, today: string): string {
    "---\n" + FieldLines(TopicPageFields(topic, today)) + "---\n\n"
    + "# " + TopicTitle(topic) + "\n\n" + SectionLine + "\n" + LinkLine(title, slug) + "\n\n"
  }

  /** The page after adding a link: under every `## Статьи` line when the heading occurs, or
      as a new section at the end. */
  function UpdatedTopicPage(content: string, title: string, slug: string): string {
    if Contains(content, SectionTitle) then
      Replace(content, SectionLine, SectionLine + "\n" + LinkLine(title, slug) + "\n")
    else
      content + NewSection(title, slug)
  }

  /** The section appended to a page that has none. */
  function NewSection(title: string, slug: string): string {
    "\n" + SectionLine + "\n" + LinkLine(title, slug) + "\n"
  }

  // ---------------------------------------------------------------------------
  // Properties
  // ---------------------------------------------------------------------------

  /** A page with one `## Статьи` line gets the link right under it, and nothing else
      changes. */
  lemma InsertUnderSection(a: string, b: string, title: string, slug: string)
    requires forall i: nat :: i < |a| ==> !OccursAt(a + SectionLine + b, SectionLine, i)
    requires !Contains(b, SectionLine)
    ensures UpdatedTopicPage(a + SectionLine + b, title, slug)
         == a + SectionLine + "\n" + LinkLine(title, slug) + "\n" + b
  {
    ContainsMiddle(a, SectionLine, b);
    ConcatEnds(SectionTitle, "\n");
    ContainsAt(SectionLine, SectionTitle, 0);
    ContainsTrans(a + SectionLine + b, SectionLine, SectionTitle);
    ReplaceOnce(a, SectionLine, b, SectionLine + "\n" + LinkLine(title, slug) + "\n");
  }

  /** `str.replace` rewrites every `## Статьи` line: a page with two such lines gets the link
      twice. */
  lemma EverySectionGetsTheLink(title: string, slug: string)
    ensures var link := SectionLine + "\n" + LinkLine(title, slug) + "\n";
      UpdatedTopicPage(SectionLine + SectionLine, title, slug) == link + link
  {
    var rep := SectionLine + "\n" + LinkLine(title, slug) + "\n";
    ConcatEnds(SectionTitle, "\n");
    ConcatEnds(SectionLine, SectionLine);
    ContainsAt(SectionLine + SectionLine, SectionTitle, 0);
    ReplaceAtStart(SectionLine, SectionLine, rep);
    ReplaceAtStart(SectionLine, [], rep);
    assert SectionLine + [] == SectionLine;
  }

  /** A `## Статьи` heading that is not followed by a newline (the last line of the page)
      stops the section from being appended, and no link is inserted: the page is unchanged. */
  lemma SectionWithoutNewlineDropsLink(content: string, title: string, slug: string)
    requires Contains(content, SectionTitle) && !Contains(content, SectionLine)
    ensures UpdatedTopicPage(content, title, slug) == content
  {
    ReplaceAbsent(content, SectionLine, SectionLine + "\n" + LinkLine(title, slug) + "\n");
  }

  /** A page without the heading keeps its text and gains the section at its end. */
  lemma AppendSection(content: string, title: string, slug: string)
    requires !Contains(content, SectionTitle)
    ensures StartsWith(UpdatedTopicPage(content, title, slug), content)
    ensures EndsWith(UpdatedTopicPage(content, title, slug), NewSection(title, slug))
  {
    ConcatEnds(content, NewSection(title, slug));
  }

  /** Unless the heading ends the page without a newline, the updated page lists the
      article. */
  lemma UpdatedPageListsArticle(content: string, title: string, slug: string)
    requires Contains(content, SectionLine) || !Contains(content, SectionTitle)
    ensures Contains(UpdatedTopicPage(content, title, slug), LinkLine(title, slug))
  {
    var link := LinkLine(title, slug);
    if Contains(content, SectionTitle) {
      var rep := SectionLine + "\n" + link + "\n";
      ReplaceIntroduces(content, SectionLine, rep);
      ContainsMiddle(SectionLine + "\n", link, "\n");
      ContainsTrans(UpdatedTopicPage(content, title, slug), rep, link);
    } else {
      ContainsMiddle("\n" + SectionLine + "\n", link, "\n");
      ContainsInSuffix(content, NewSection(title, slug), link);
    }
  }

  /** A new topic page lists the article it was created for. */
  lemma NewPageListsArticle(topic: string, title: string, slug: string, today: string)
    ensures Contains(NewTopicPage(topic, title, slug, today), LinkLine(title, slug))
  {
    var head := "---\n" + FieldLines(TopicPageFields(topic, today)) + "---\n\n"
      + "# " + TopicTitle(topic) + "\n\n" + SectionLine + "\n";
    ContainsMiddle(head, LinkLine(title, slug), "\n\n");
  }
}
