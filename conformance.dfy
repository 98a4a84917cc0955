/** How the inbox processor's output meets the quality gate: the front matter it writes is
    read back by scripts/kb_quality_gate.py with every required key, its topics and folder
    names pass the gate's patterns, and the placeholder id of auto-created topic pages is
    reported as a duplicate once a second such page exists. */
module Conformance {
  import opened Text
  import opened Results
  import QualityGate
  import Article
  import Slug
  import Classifier
  import Inbox

  // ---------------------------------------------------------------------------
  // Reading back `key: value` lines
  // ---------------------------------------------------------------------------

  /** A key that `YAML_KV` reads whole: one or more of `[A-Za-z0-9_]`. */
  predicate IsKeyName(k: string) {
    k != [] && forall i :: 0 <= i < |k| ==> QualityGate.IsKeyChar(k[i])
  }

  /** Fields that are written one per line: key names, and values without line breaks. */
  predicate WellFormed(fs: seq<(string, string)>) {
    forall i :: 0 <= i < |fs| ==> IsKeyName(fs[i].0) && NoLineBreaks(fs[i].1)
  }

  /** The line written for one field. */
  function FieldLine(f: (string, string)): string {
    f.0 + ": " + f.1
  }

  /** The lines written for the fields, in order. */
  function FieldLineSeq(fs: seq<(string, string)>): (r: seq<string>)
    ensures |r| == |fs| && forall i :: 0 <= i < |fs| ==> r[i] == FieldLine(fs[i])
    decreases |fs|
  {
    if fs == [] then [] else [FieldLine(fs[0])] + FieldLineSeq(fs[1..])
  }

  lemma {:induction false} KeyLengthOf(k: string, rest: string)
    requires forall i :: 0 <= i < |k| ==> QualityGate.IsKeyChar(k[i])
    requires rest != [] && !QualityGate.IsKeyChar(rest[0])
    ensures QualityGate.KeyLength(k + rest) == |k|
    decreases |k|
  {
    if k != [] {
      assert (k + rest)[1..] == k[1..] + rest;
      KeyLengthOf(k[1..], rest);
    }
  }

  /** A written field is read back as its key and its stripped value. */
  lemma KeyValueOfField(k: string, v: string)
    requires IsKeyName(k)
    ensures QualityGate.KeyValue(k + ": " + v) == Some((k, Strip(" " + v)))
  {
    var line := k + ": " + v;
    assert line == k + (": " + v);
    KeyLengthOf(k, ": " + v);
    assert line[|k|] == ':';
    assert SpaceEnd(line, |k|) == |k|;
    assert line[..|k|] == k;
    assert line[|k| + 1..] == " " + v;
  }

  lemma FieldLineNoBreaks(f: (string, string))
    requires IsKeyName(f.0) && NoLineBreaks(f.1)
    ensures NoLineBreaks(FieldLine(f))
  {
    var line := FieldLine(f);
    forall j | 0 <= j < |line|
      ensures !IsLineBreak(line[j])
    {
      if j < |f.0| {
        assert line[j] == f.0[j];
      } else if j >= |f.0| + 2 {
        assert line[j] == f.1[j - |f.0| - 2];
      }
    }
  }

  /** The field lines come back from `splitlines()` one by one. */
  lemma {:induction false} FieldLinesSplit(fs: seq<(string, string)>, rest: string)
    requires WellFormed(fs)
    ensures SplitLines(Article.FieldLines(fs) + rest) == FieldLineSeq(fs) + SplitLines(rest)
    decreases |fs|
  {
    if fs != [] {
      var line := FieldLine(fs[0]);
      var tail := Article.FieldLines(fs[1..]) + rest;
      assert Article.FieldLines(fs) + rest == line + "\n" + tail;
      FieldLineNoBreaks(fs[0]);
      SplitLinesCons(line, tail);
      assert WellFormed(fs[1..]) by {
        forall i | 0 <= i < |fs[1..]| ensures IsKeyName(fs[1..][i].0) && NoLineBreaks(fs[1..][i].1) {
          assert fs[1..][i] == fs[i + 1];
        }
      }
      FieldLinesSplit(fs[1..], rest);
    } else {
      assert Article.FieldLines(fs) + rest == rest;
    }
  }

  lemma BlockRegroup(f: string, body: string)
    ensures "---\n" + f + "---\n\n" + body == "---" + "\n" + (f + ("---" + "\n" + ("\n" + body)))
  {
  }

  /** The field lines and the closing line, then the rest. */
  lemma FieldsThenClose(fs: seq<(string, string)>, rest: string)
    requires WellFormed(fs)
    ensures SplitLines(Article.FieldLines(fs) + ("---" + "\n" + rest))
         == FieldLineSeq(fs) + (["---"] + SplitLines(rest))
  {
    FieldLinesSplit(fs, "---" + "\n" + rest);
    SplitLinesCons("---", rest);
  }

  lemma OpenThenFields(f: string, body: string, ls: seq<string>)
    requires SplitLines(f + ("---" + "\n" + ("\n" + body))) == ls + (["---"] + SplitLines("\n" + body))
    ensures SplitLines("---\n" + f + "---\n\n" + body) == ["---"] + ls + ["---"] + SplitLines("\n" + body)
  {
    BlockRegroup(f, body);
    SplitLinesCons("---", f + ("---" + "\n" + ("\n" + body)));
    var rest := SplitLines("\n" + body);
    assert ["---"] + (ls + (["---"] + rest)) == ["---"] + ls + ["---"] + rest;
  }

  /** The front matter block splits into its opening line, the field lines and the
      closing line; the blank line after it starts the rest. */
  lemma BlockLines(fs: seq<(string, string)>, body: string)
    requires WellFormed(fs)
    ensures SplitLines("---\n" + Article.FieldLines(fs) + "---\n\n" + body)
         == ["---"] + FieldLineSeq(fs) + ["---"] + SplitLines("\n" + body)
  {
    FieldsThenClose(fs, "\n" + body);
    OpenThenFields(Article.FieldLines(fs), body, FieldLineSeq(fs));
  }

  /** The closing line is the first `---` line from `from` on. */
  lemma {:induction false} ClosingLineAt(lines: seq<string>, from: nat, end: nat)
    requires 1 <= from <= end < |lines| && end < QualityGate.ScanLimit
    requires QualityGate.IsYamlStart(lines[end])
    requires forall j :: from <= j < end ==> !QualityGate.IsYamlStart(lines[j])
    ensures QualityGate.ClosingLine(lines, from) == Some(end)
    decreases end - from
  {
    if from < end {
      ClosingLineAt(lines, from + 1, end);
    }
  }

  /** Eight fields written under the eight required keys, in order. */
  predicate RequiredFields(fs: seq<(string, string)>) {
    |fs| == |QualityGate.RequiredKeys| &&
    (forall i :: 0 <= i < |fs| ==> fs[i].0 == QualityGate.RequiredKeys[i] && NoLineBreaks(fs[i].1))
  }

  lemma RequiredKeysNames()
    ensures forall i :: 0 <= i < |QualityGate.RequiredKeys| ==> IsKeyName(QualityGate.RequiredKeys[i])
    ensures forall i, j :: 0 <= i < j < |QualityGate.RequiredKeys| ==>
      QualityGate.RequiredKeys[i] != QualityGate.RequiredKeys[j]
  {
  }

  /** A field line is not a `---` line. */
  lemma FieldLineNotDelimiter(l: string)
    requires l != [] && QualityGate.IsKeyChar(l[0])
    ensures !QualityGate.IsYamlStart(l)
  {
  }

  /** Lines that open with `---`, hold key lines, and close with `---` give the fields that
      the key lines carry. */
  lemma FieldsFromLines(text: string, ls: seq<string>, rest: seq<string>)
    requires SplitLines(text) == ["---"] + ls + ["---"] + rest
    requires |ls| + 1 < QualityGate.ScanLimit
    requires forall j :: 0 <= j < |ls| ==> ls[j] != [] && QualityGate.IsKeyChar(ls[j][0])
    ensures QualityGate.FrontMatterOf(text).fields == QualityGate.FoldFields(ls)
  {
    var lines := SplitLines(text);
    var n := |ls|;
    assert lines[0] == "---" && lines[n + 1] == "---";
    assert QualityGate.IsYamlStart("---");
    forall j | 1 <= j < n + 1
      ensures !QualityGate.IsYamlStart(lines[j])
    {
      assert lines[j] == ls[j - 1];
      FieldLineNotDelimiter(ls[j - 1]);
    }
    ClosingLineAt(lines, 1, n + 1);
    assert lines[1..n + 1] == ls;
  }

  /** `parse_front_matter` reads the fields from the written field lines. */
  lemma ReadBack(fs: seq<(string, string)>, body: string, text: string)
    requires RequiredFields(fs) && text == "---\n" + Article.FieldLines(fs) + "---\n\n" + body
    ensures QualityGate.FrontMatterOf(text).fields == QualityGate.FoldFields(FieldLineSeq(fs))
  {
    RequiredKeysNames();
    BlockLines(fs, body);
    var ls := FieldLineSeq(fs);
    forall j | 0 <= j < |fs|
      ensures ls[j] != [] && QualityGate.IsKeyChar(ls[j][0])
    {
      assert ls[j][0] == fs[j].0[0];
    }
    FieldsFromLines(text, ls, SplitLines("\n" + body));
  }

  /** Each written field is read back under its key, stripped. */
  lemma FieldAt(fs: seq<(string, string)>, i: nat)
    requires RequiredFields(fs) && i < |fs|
    ensures var fields := QualityGate.FoldFields(FieldLineSeq(fs));
      fs[i].0 in fields && fields[fs[i].0] == Strip(" " + fs[i].1)
  {
    RequiredKeysNames();
    var ls := FieldLineSeq(fs);
    KeyValueOfField(fs[i].0, fs[i].1);
    forall j | i < j < |fs|
      ensures !QualityGate.HasKey(QualityGate.KeyValue, ls[j], fs[i].0)
    {
      KeyValueOfField(fs[j].0, fs[j].1);
    }
    QualityGate.FoldFieldsLastWins(ls, fs[i].0, i);
  }

  lemma FieldsHaveKeys(fs: seq<(string, string)>)
    requires RequiredFields(fs)
    ensures forall i :: 0 <= i < |fs| ==> fs[i].0 in QualityGate.FoldFields(FieldLineSeq(fs))
  {
    forall i | 0 <= i < |fs| ensures fs[i].0 in QualityGate.FoldFields(FieldLineSeq(fs)) {
      FieldAt(fs, i);
    }
  }

  lemma {:induction false} MissingNone(keys: seq<string>, fields: map<string, string>)
    requires forall i :: 0 <= i < |keys| ==> keys[i] in fields
    ensures QualityGate.MissingKeysOf(keys, fields) == []
    decreases |keys|
  {
    if keys != [] {
      MissingNone(keys[1..], fields);
    }
  }

  /** Every required key is read back. */
  lemma NoneMissing(fs: seq<(string, string)>, fields: map<string, string>)
    requires RequiredFields(fs)
    requires forall i :: 0 <= i < |fs| ==> fs[i].0 in fields
    ensures QualityGate.MissingKeysOf(QualityGate.RequiredKeys, fields) == [] && fields != map[]
  {
    MissingNone(QualityGate.RequiredKeys, fields);
    assert fs[0].0 in fields;
  }

  /** What the gate reads from a draft with a plain id and a kebab-case topic: the status
      `draft`, and the id and topic as written. */
  lemma DraftRead(fields: map<string, string>, id: string, topic: string)
    requires Plain(id) && Slug.IsKebab(topic)
    requires "id" in fields && fields["id"] == Strip(" " + id)
    requires "topic" in fields && fields["topic"] == Strip(" " + topic)
    requires "status" in fields && fields["status"] == Strip(" draft")
    ensures Strip(fields["status"]) == "draft" && QualityGate.Unquote(fields["id"]) == id &&
      QualityGate.Unquote(fields["topic"]) == topic
  {
    KebabIsPlain(topic);
    assert " draft" == " " + "draft";
    ValueRead(fields, "id", id);
    ValueRead(fields, "topic", topic);
    ValueRead(fields, "status", "draft");
  }

  /** A plain value written after `key: ` is read back, stripped and unquoted, as written. */
  lemma ValueRead(fields: map<string, string>, key: string, v: string)
    requires key in fields && fields[key] == Strip(" " + v) && Plain(v)
    ensures Strip(fields[key]) == v && QualityGate.Unquote(fields[key]) == v
  {
    PlainReadsBack(v);
  }

  /** The fields of a written front matter block, as `parse_front_matter` reads them. */
  lemma BlockFields(fs: seq<(string, string)>, body: string, text: string)
    requires RequiredFields(fs) && text == "---\n" + Article.FieldLines(fs) + "---\n\n" + body
    ensures var fields := QualityGate.FrontMatterOf(text).fields;
      (forall i :: 0 <= i < |fs| ==> fs[i].0 in fields) &&
      "id" in fields && fields["id"] == Strip(" " + fs[0].1) &&
      "topic" in fields && fields["topic"] == Strip(" " + fs[2].1) &&
      "status" in fields && fields["status"] == Strip(" " + fs[4].1)
  {
    ReadBack(fs, body, text);
    FieldsHaveKeys(fs);
    RequiredKeyAt(fs, 0, "id");
    RequiredKeyAt(fs, 2, "topic");
    RequiredKeyAt(fs, 4, "status");
    FieldAt(fs, 0);
    FieldAt(fs, 2);
    FieldAt(fs, 4);
  }

  lemma RequiredKeyAt(fs: seq<(string, string)>, i: nat, key: string)
    requires RequiredFields(fs) && i < |fs| && QualityGate.RequiredKeys[i] == key
    ensures fs[i].0 == key
  {
  }

  /** A front matter block written with the required keys is missing none of them. */
  lemma BlockKeys(fs: seq<(string, string)>, body: string, text: string)
    requires RequiredFields(fs) && text == "---\n" + Article.FieldLines(fs) + "---\n\n" + body
    ensures QualityGate.MissingKeysOf(QualityGate.RequiredKeys, QualityGate.FrontMatterOf(text).fields) == []
  {
    BlockFields(fs, body, text);
    NoneMissing(fs, QualityGate.FrontMatterOf(text).fields);
  }

  /** What the gate reads from a draft with a plain id and a kebab-case topic, written as the
      inbox processor writes front matter: the status `draft`, and the id and topic as
      written. */
  lemma BlockRead(fs: seq<(string, string)>, body: string, text: string)
    requires RequiredFields(fs) && text == "---\n" + Article.FieldLines(fs) + "---\n\n" + body
    requires fs[4].1 == "draft" && Plain(fs[0].1) && Slug.IsKebab(fs[2].1)
    ensures var fields := QualityGate.FrontMatterOf(text).fields;
      "status" in fields && "id" in fields && "topic" in fields &&
      Strip(fields["status"]) == "draft" && QualityGate.Unquote(fields["id"]) == fs[0].1 &&
      QualityGate.Unquote(fields["topic"]) == fs[2].1
  {
    BlockFields(fs, body, text);
    DraftRead(QualityGate.FrontMatterOf(text).fields, fs[0].1, fs[2].1);
  }

  /** The value checks on a draft with a kebab-case topic: only a recorded id stops it. */
  lemma DraftValuesChecked(path: seq<string>, id: string, topic: string, body: string, text: string,
                           ids: map<string, seq<string>>)
    requires id != [] && Slug.IsKebab(topic)
    ensures QualityGate.CheckValues(path, "draft", id, topic, body, text, ids) ==
      if id in ids && ids[id] != path then Err(QualityGate.DuplicateId(path, id, ids[id]))
      else Ok(ids[id := path])
  {
    QualityGate.AsciiKebabIsKebab(topic);
  }

  /** A draft with a plain id and a kebab-case topic, written as the inbox processor writes
      front matter, passes the gate unless its id is recorded at another path. */
  lemma BlockChecked(path: seq<string>, fs: seq<(string, string)>, body: string, text: string,
                     ids: map<string, seq<string>>)
    requires RequiredFields(fs) && text == "---\n" + Article.FieldLines(fs) + "---\n\n" + body
    requires fs[4].1 == "draft" && Plain(fs[0].1) && Slug.IsKebab(fs[2].1)
    ensures QualityGate.CheckArticle(path, text, ids) ==
      if fs[0].1 in ids && ids[fs[0].1] != path then Err(QualityGate.DuplicateId(path, fs[0].1, ids[fs[0].1]))
      else Ok(ids[fs[0].1 := path])
  {
    BlockKeys(fs, body, text);
    BlockRead(fs, body, text);
    var parsed := QualityGate.FrontMatterOf(text);
    DraftValuesChecked(path, fs[0].1, fs[2].1, parsed.body, text, ids);
  }

  // ---------------------------------------------------------------------------
  // Values the gate reads unchanged
  // ---------------------------------------------------------------------------

  predicate IsQuote(c: char) {
    c == '"' || c == '\''
  }

  /** A value that `strip()` and `strip('"').strip("'")` leave as it is. */
  predicate Plain(v: string) {
    v != [] && !IsSpace(v[0]) && !IsSpace(v[|v| - 1]) && !IsQuote(v[0]) && !IsQuote(v[|v| - 1])
  }

  lemma PlainReadsBack(v: string)
    requires Plain(v)
    ensures Strip(" " + v) == v && Strip(v) == v && QualityGate.Unquote(v) == v
  {
    assert (" " + v)[1..] == v;
    assert LStrip(" " + v) == LStrip(v);
    StripNoSpace(v);
    StripCharNone(v, '"');
    StripCharNone(v, '\'');
  }

  /** A kebab-case slug is a plain value. */
  lemma KebabIsPlain(s: string)
    requires Slug.IsKebab(s)
    ensures Plain(s)
  {
    assert Slug.IsSlugChar(s[0]) && Slug.IsSlugChar(s[|s| - 1]);
  }

  lemma JoinNoBreaks(parts: seq<string>, sep: string)
    requires NoLineBreaks(sep) && forall i :: 0 <= i < |parts| ==> NoLineBreaks(parts[i])
    ensures NoLineBreaks(Join(parts, sep))
    decreases |parts|
  {
    if |parts| > 1 {
      JoinNoBreaks(parts[1..], sep);
      var rest := Join(parts[1..], sep);
      var s := parts[0] + sep + rest;
      forall j | 0 <= j < |s| ensures !IsLineBreak(s[j]) {
        if j < |parts[0]| {
          assert s[j] == parts[0][j];
        } else if j < |parts[0]| + |sep| {
          assert s[j] == sep[j - |parts[0]|];
        } else {
          assert s[j] == rest[j - |parts[0]| - |sep|];
        }
      }
    }
  }

  /** The tag list of a new article is written on one line. */
  lemma TagListOneLine(topic: string)
    ensures NoLineBreaks(Article.JsonList(Article.Tags(topic)))
  {
    var tags := Article.Tags(topic);
    var quoted := seq(|tags|, i requires 0 <= i < |tags| => "\"" + tags[i] + "\"");
    forall i | 0 <= i < |tags| ensures NoLineBreaks(quoted[i]) {
      assert tags[i] in ["imported-from-inbox", "bearings", "standards", "designation"];
      assert NoLineBreaks(tags[i]);
      assert quoted[i] == "\"" + tags[i] + "\"";
      forall j | 0 <= j < |quoted[i]| ensures !IsLineBreak(quoted[i][j]) {
        if 0 < j < |quoted[i]| - 1 {
          assert quoted[i][j] == tags[i][j - 1];
        }
      }
    }
    JoinNoBreaks(quoted, ", ");
    var s := Article.JsonList(tags);
    var inner := Join(quoted, ", ");
    assert s == "[" + inner + "]";
    forall j | 0 <= j < |s| ensures !IsLineBreak(s[j]) {
      if 0 < j < |s| - 1 {
        assert s[j] == inner[j - 1];
      }
    }
  }

  lemma ConcatNoBreaks(a: string, b: string)
    requires NoLineBreaks(a) && NoLineBreaks(b)
    ensures NoLineBreaks(a + b)
  {
    forall j | 0 <= j < |a + b| ensures !IsLineBreak((a + b)[j]) {
      if j >= |a| {
        assert (a + b)[j] == b[j - |a|];
      }
    }
  }

  // ---------------------------------------------------------------------------
  // New articles pass the gate
  // ---------------------------------------------------------------------------

  /** What a new article needs for its front matter to be read back: one-line title, file
      name and date, and an id that reads back unchanged. */
  predicate ArticleInputs(title: string, sourceFile: string, articleId: string, today: string) {
    NoLineBreaks(title) && NoLineBreaks(sourceFile) && NoLineBreaks(today) &&
    NoLineBreaks(articleId) && Plain(articleId)
  }

  lemma ArticleFieldsRequired(articleId: string, title: string, topic: string, sourceFile: string, today: string)
    requires ArticleInputs(title, sourceFile, articleId, today) && Slug.IsKebab(topic)
    ensures RequiredFields(Article.ArticleFields(articleId, title, topic, sourceFile, today))
  {
    TagListOneLine(topic);
    assert NoLineBreaks("inbox/");
    ConcatNoBreaks("inbox/", sourceFile);
    assert forall i :: 0 <= i < |topic| ==> Slug.IsSlugChar(topic[i]);
    assert NoLineBreaks("draft");
  }

  lemma CreateArticleBlock(content: string, title: string, topic: string, sourceFile: string,
                            articleId: string, today: string)
    ensures Article.CreateArticle(content, title, topic, sourceFile, articleId, today)
         == "---\n" + Article.FieldLines(Article.ArticleFields(articleId, title, topic, sourceFile, today))
            + "---\n\n" + Article.ArticleBody(content, title)
  {
  }

  /** An article written by the inbox processor carries the eight required keys, with
      status `draft`, its id and its topic. */
  lemma CreatedArticleFields(content: string, title: string, topic: string, sourceFile: string,
                             articleId: string, today: string, text: string)
    requires ArticleInputs(title, sourceFile, articleId, today) && Slug.IsKebab(topic)
    requires text == Article.CreateArticle(content, title, topic, sourceFile, articleId, today)
    ensures var fields := QualityGate.FrontMatterOf(text).fields;
      QualityGate.MissingKeysOf(QualityGate.RequiredKeys, fields) == [] &&
      "status" in fields && "id" in fields && "topic" in fields &&
      Strip(fields["status"]) == "draft" && QualityGate.Unquote(fields["id"]) == articleId &&
      QualityGate.Unquote(fields["topic"]) == topic
  {
    var fs := Article.ArticleFields(articleId, title, topic, sourceFile, today);
    ArticleFieldsRequired(articleId, title, topic, sourceFile, today);
    CreateArticleBlock(content, title, topic, sourceFile, articleId, today);
    BlockKeys(fs, Article.ArticleBody(content, title), text);
    BlockRead(fs, Article.ArticleBody(content, title), text);
  }

  /** The gate accepts a new article whose id is free, and records it at its path. */
  lemma CreatedArticlePasses(path: seq<string>, content: string, title: string, topic: string, sourceFile: string,
                             articleId: string, today: string, ids: map<string, seq<string>>)
    requires ArticleInputs(title, sourceFile, articleId, today) && Slug.IsKebab(topic)
    requires articleId !in ids || ids[articleId] == path
    ensures QualityGate.CheckArticle(path, Article.CreateArticle(content, title, topic, sourceFile, articleId, today), ids)
         == Ok(ids[articleId := path])
  {
    var fs := Article.ArticleFields(articleId, title, topic, sourceFile, today);
    ArticleFieldsRequired(articleId, title, topic, sourceFile, today);
    CreateArticleBlock(content, title, topic, sourceFile, articleId, today);
    BlockChecked(path, fs, Article.ArticleBody(content, title),
                 Article.CreateArticle(content, title, topic, sourceFile, articleId, today), ids);
  }

  /** The topic the classifier picks is always one the gate accepts. */
  lemma ClassifiedArticlePasses(path: seq<string>, content: string, title: string, sourceFile: string,
                                articleId: string, today: string, ids: map<string, seq<string>>)
    requires ArticleInputs(title, sourceFile, articleId, today)
    requires articleId !in ids || ids[articleId] == path
    ensures var topic := Classifier.ClassifyTopic(content, title);
      QualityGate.CheckArticle(path, Article.CreateArticle(content, title, topic, sourceFile, articleId, today), ids)
        == Ok(ids[articleId := path])
  {
    Classifier.LabelsAreKebab(content, title);
    CreatedArticlePasses(path, content, title, Classifier.ClassifyTopic(content, title), sourceFile, articleId, today, ids);
  }

  // ---------------------------------------------------------------------------
  // Auto-created topic pages share the id TBD
  // ---------------------------------------------------------------------------

  lemma {:induction false} TitleFromNoBreaks(s: string, afterCased: bool)
    requires NoLineBreaks(s)
    ensures NoLineBreaks(TitleFrom(s, afterCased))
    decreases |s|
  {
    if s != [] {
      TitleFromNoBreaks(s[1..], IsUpperLetter(s[0]) || IsLowerLetter(s[0]));
    }
  }

  lemma {:induction false} ReplaceNoBreaks(s: string, pat: string, rep: string)
    requires |pat| > 0 && NoLineBreaks(s) && NoLineBreaks(rep)
    ensures NoLineBreaks(Replace(s, pat, rep))
    decreases |s|
  {
    if |s| >= |pat| {
      if s[..|pat|] == pat {
        ReplaceNoBreaks(s[|pat|..], pat, rep);
        ConcatNoBreaks(rep, Replace(s[|pat|..], pat, rep));
      } else {
        ReplaceNoBreaks(s[1..], pat, rep);
        ConcatNoBreaks([s[0]], Replace(s[1..], pat, rep));
      }
    }
  }

  lemma TopicPageFieldsRequired(topic: string, today: string)
    requires Slug.IsKebab(topic) && NoLineBreaks(today)
    ensures RequiredFields(Article.TopicPageFields(topic, today))
  {
    assert forall i :: 0 <= i < |topic| ==> Slug.IsSlugChar(topic[i]);
    ReplaceNoBreaks(topic, "-", " ");
    TitleFromNoBreaks(Replace(topic, "-", " "), false);
    assert NoLineBreaks("TBD") && NoLineBreaks("draft") && NoLineBreaks("auto-generated");
    assert NoLineBreaks("[\"topic-index\"]");
  }

  /** The text after the front matter of a new topic page. */
  function TopicPageBody(topic: string, title: string, slug: string): string {
    "# " + Article.TopicTitle(topic) + "\n\n" + Article.SectionLine + "\n" + Article.LinkLine(title, slug) + "\n\n"
  }

  /** A new topic page has the id `TBD`: it passes while `TBD` is free or its own, and is a
      duplicate once another page holds it. */
  lemma TopicPageChecked(path: seq<string>, topic: string, title: string, slug: string, today: string,
                         ids: map<string, seq<string>>)
    requires Slug.IsKebab(topic) && NoLineBreaks(today)
    ensures QualityGate.CheckArticle(path, Article.NewTopicPage(topic, title, slug, today), ids) ==
      if "TBD" in ids && ids["TBD"] != path then Err(QualityGate.DuplicateId(path, "TBD", ids["TBD"]))
      else Ok(ids["TBD" := path])
  {
    var fs := Article.TopicPageFields(topic, today);
    TopicPageFieldsRequired(topic, today);
    var body := TopicPageBody(topic, title, slug);
    var text := Article.NewTopicPage(topic, title, slug, today);
    assert text == "---\n" + Article.FieldLines(fs) + "---\n\n" + body;
    BlockChecked(path, fs, body, text, ids);
  }

  /** Two topics created by the inbox processor: the second topic page repeats the id `TBD`
      at another path, and the gate stops with a duplicate-id error. */
  lemma TwoTopicPagesClash(path1: seq<string>, path2: seq<string>, topic1: string, topic2: string,
                           title1: string, slug1: string, title2: string, slug2: string, today: string)
    requires path1 != path2
    requires Slug.IsKebab(topic1) && Slug.IsKebab(topic2) && NoLineBreaks(today)
    ensures QualityGate.CheckArticle(path1, Article.NewTopicPage(topic1, title1, slug1, today), map[])
         == Ok(map["TBD" := path1])
    ensures QualityGate.CheckArticle(path2, Article.NewTopicPage(topic2, title2, slug2, today), map["TBD" := path1])
         == Err(QualityGate.DuplicateId(path2, "TBD", path1))
  {
    TopicPageChecked(path1, topic1, title1, slug1, today, map[]);
    TopicPageChecked(path2, topic2, title2, slug2, today, map["TBD" := path1]);
  }

  // ---------------------------------------------------------------------------
  // Topics, slugs and article folders against the gate's patterns
  // ---------------------------------------------------------------------------

  /** Every classifier label matches `ASCII_KEBAB`. */
  lemma TopicsMatchAsciiKebab(text: string, title: string)
    ensures QualityGate.MatchesAsciiKebab(Classifier.ClassifyTopic(text, title))
  {
    Classifier.LabelsAreKebab(text, title);
    QualityGate.AsciiKebabIsKebab(Classifier.ClassifyTopic(text, title));
  }

  /** Every `to_kebab_case` result matches `ASCII_KEBAB`, and so does the folder name when
      the cut at 50 characters leaves it whole. */
  lemma SlugsMatchAsciiKebab(title: string)
    ensures QualityGate.MatchesAsciiKebab(Slug.KebabOf(title))
    ensures |Slug.KebabOf(title)| <= Slug.MaxSlugLength ==> QualityGate.MatchesAsciiKebab(Slug.ArticleSlug(title))
  {
    Slug.KebabOfIsKebab(title);
    QualityGate.AsciiKebabIsKebab(Slug.KebabOf(title));
    Slug.ArticleSlugShape(title);
    QualityGate.AsciiKebabIsKebab(Slug.ArticleSlug(title));
  }

  /** The path parts of a new article's `README.md`. */
  function ArticleParts(topic: string, slug: string): seq<string> {
    ["kb", "ru", topic, slug, "README.md"]
  }

  lemma SlugCharsPassPath(s: string)
    requires Slug.AllSlugChars(s)
    ensures ' ' !in s && QualityGate.AllAscii(s) && '/' !in s
  {
    assert forall i :: 0 <= i < |s| ==> Slug.IsSlugChar(s[i]);
  }

  lemma ArticlePartsJoin(topic: string, slug: string)
    ensures Join(ArticleParts(topic, slug), "/") == Inbox.ArticlePath(topic, slug)
  {
    var parts := ArticleParts(topic, slug);
    var j3 := slug + "/" + "README.md";
    var j2 := topic + "/" + j3;
    var j1 := "ru" + "/" + j2;
    assert [slug, "README.md"][1..] == ["README.md"];
    assert Join([slug, "README.md"], "/") == j3;
    assert [topic, slug, "README.md"][1..] == [slug, "README.md"];
    assert Join([topic, slug, "README.md"], "/") == j2;
    assert ["ru", topic, slug, "README.md"][1..] == [topic, slug, "README.md"];
    assert Join(["ru", topic, slug, "README.md"], "/") == j1;
    assert parts[1..] == ["ru", topic, slug, "README.md"];
    assert Join(parts, "/") == "kb" + "/" + j1;
  }

  /** The folders of an article path made of slug characters pass `validate_paths`. */
  lemma ArticlePartsPass(topic: string, slug: string)
    requires Slug.AllSlugChars(topic) && Slug.AllSlugChars(slug)
    ensures QualityGate.PathError(ArticleParts(topic, slug)) == None
  {
    var parts := ArticleParts(topic, slug);
    SlugCharsPassPath(topic);
    SlugCharsPassPath(slug);
    assert QualityGate.IndexOfPart(parts, "kb") == 0;
    assert QualityGate.CheckedSegments(parts) == ["ru", topic, slug];
    assert QualityGate.AllAscii("ru");
    assert ["ru", topic, slug][1..] == [topic, slug];
    assert [topic, slug][1..] == [slug];
    assert [slug][1..] == [];
    assert QualityGate.SegmentsError(parts, [slug]) == None;
    assert QualityGate.SegmentsError(parts, [topic, slug]) == None;
  }

  /** A new article's path splits into `kb`, `ru`, its topic, its folder and `README.md`,
      and `validate_paths` accepts it. */
  lemma ArticlePathPasses(text: string, title: string)
    ensures var topic := Classifier.ClassifyTopic(text, title);
      var slug := Slug.ArticleSlug(title);
      Split(Inbox.ArticlePath(topic, slug), '/') == ArticleParts(topic, slug) &&
      QualityGate.PathError(ArticleParts(topic, slug)) == None
  {
    var topic := Classifier.ClassifyTopic(text, title);
    var slug := Slug.ArticleSlug(title);
    Classifier.LabelsAreKebab(text, title);
    Slug.ArticleSlugShape(title);
    SlugCharsPassPath(topic);
    SlugCharsPassPath(slug);
    ArticlePartsJoin(topic, slug);
    assert "/" == ['/'];
    assert '/' !in "kb" && '/' !in "ru" && '/' !in "README.md";
    SplitJoin(ArticleParts(topic, slug), '/');
    ArticlePartsPass(topic, slug);
  }
}
