# Knowledge-base scripts, modelled in Dafny

This project models the Python scripts that maintain a Russian-language engineering knowledge
base. The base is Markdown articles under `kb/ru/`, each with a YAML-like front matter. Four
scripts are modelled:

- **Inbox processor** (`scripts/process_inbox.py`). It takes each file dropped into `inbox/`,
  reads it with universal newlines and strips any front matter from its text. When the text's digest is already in the dedup
  index, it logs and archives the file. Otherwise it:
  - takes a title from the first `# ` heading or the file name;
  - classifies the topic by keywords;
  - allocates an id of the form `KB-RU-000202`;
  - writes `kb/ru/<topic>/<slug>/README.md` with a front matter;
  - indexes the text's digest;
  - links the article from the topic page under `## Статьи`;
  - moves the file into `inbox/processed/<YYYY-MM>/`, renaming on collision.
- **Quality gate** (`scripts/kb_quality_gate.py`). It checks folder names and every article's
  front matter, and stops at the first failure. The checks are:
  - the eight required keys;
  - the allowed status;
  - a non-empty id that is unique across the whole base;
  - a kebab-case topic;
  - no `[[TBD]]` in a verified article.
- **Bearing-card validator** (`scripts/validate_bearing_cards.py`). It is a small YAML-value and
  front-matter reader with list continuation lines, plus the field checks of a bearing card.
- **Bearing-card generator** (`scripts/generate_bearing_cards.py`). It contains:
  - the designation helpers (bore code, size bucket, folder name, full designation);
  - the equivalents lookup and table;
  - the tag list;
  - the loop of `main`, which skips existing cards and numbers new ones consecutively.

## How the model is organised

Each module is one file:

- `text.dfy`, `numerals.dfy` and `results.dfy`: the Python string and number operations the
  scripts use, and `Option`/`Result`. This covers `strip`, `lower`, `title`, `replace`, `split`,
  `splitlines`, `in`, `str(int)`, `zfill` and `int()`.
- `slug.dfy`: `to_kebab_case`, with its loop over the transliteration table, and the 50-character
  cut.
- `classifier.dfy`: `classify_topic`.
- `fingerprint.dfy`: `extract_text_from_md`.
  - The file is read as `read_text` reads it: every `\r\n` and lone `\r` becomes `\n`
    (`Text.ReadText`). Topic pages are read the same way before the link goes in.
  - It models the substitution of the `YAML_FRONTMATTER` pattern exactly. The pattern is
    MULTILINE and DOTALL with a lazy `.*?`; the model follows its backtracking order and the
    left-to-right, non-overlapping scan of `re.sub`.
  - `strip` follows the substitution.
- `article.dfy`: the text that `extract_title_from_content`, `create_article_from_content` and
  `update_topic_readme` compute.
- `workspace.dfy` (module `Inbox`): the persistent state and the imperative part of the processor.
  - A `Disk` value says what each file holds: registry, dedup index, dedup log, articles, topic
    pages, inbox and monthly archive.
  - The class `Workspace` holds those files as fields, and its methods change them the way
    `allocate_id`, `log_duplicate`, `move_to_processed`, `update_topic_readme`, `process_file`
    and `main` do.
  - Each method is proved against a function on `Disk`; the lemmas about those functions state
    the dispositions of `process_file`.
- `gate.dfy` (module `QualityGate`), `cardcheck.dfy` (module `CardValidator`) and `cardgen.dfy`
  (module `CardGenerator`): the other three scripts. Their loops are methods proved equal to
  recursive functions; a first failure is an `Err`.
- `conformance.dfy`: lemmas that connect the processor's output to the quality gate.

Side effects outside the modelled state become parameters:

- The SHA-256 digest is a function parameter `fingerprint`.
- `date.today()` is a parameter: `today` for the ISO date, `month` for the `YYYY-MM` folder.

Observed behaviour of the code as written, each stated by a lemma:

- Two topic pages that the processor creates both carry `id: TBD`, so the quality gate refuses
  the second one as a duplicate id (`Conformance.TwoTopicPagesClash`).
- The slug is cut to 50 characters after the `"article"` fallback, so a folder name can end in
  `-` (`Slug.TruncatedSlugMayEndWithHyphen`).
- `update_topic_readme` uses `str.replace`:
  - every `## Статьи` line receives the link (`Article.EverySectionGetsTheLink`);
  - a `## Статьи` heading on the last line with no newline makes the page come back unchanged,
    without the link (`Article.SectionWithoutNewlineDropsLink`).
- In dry-run mode an id is still allocated and written, and a duplicate is still logged
  (`Inbox.DryRunTouchesRegistryAndLog`).

## Model

| member | source | states |
|---|---|---|
| Slug.ToKebabCase | scripts/process_inbox.py:126-154 | The loop applies every transliteration pair in turn to the lower-cased text, and the result is the slug function's value. It is kebab-case ASCII: non-empty, only `a-z`, `0-9` and `-`, no leading, trailing or doubled hyphen. |
| Slug.KebabOf | scripts/process_inbox.py:126-154 | The slug function: the transliteration table, then the clean-up; its kebab shape and idempotence are proved in Slug.KebabOfIsKebab and Slug.KebabOfIdempotent. |
| Slug.KebabOfIsKebab | scripts/process_inbox.py:126-154 | Every text, including one where nothing survives (fallback `article`), gives a kebab-case slug. |
| Slug.KebabWithIsKebab | scripts/process_inbox.py:143-154 | Whatever replacement table is used, filtering, hyphen collapsing, trimming and the fallback give a kebab-case slug. |
| Slug.KebabOfIdempotent | scripts/process_inbox.py:126-154 | Slugifying a slug gives the same slug. |
| Slug.KebabWithIdempotent | scripts/process_inbox.py:143-154 | Idempotence holds for any table whose keys are not slug characters. |
| Slug.KebabOfPlain | scripts/process_inbox.py:126-154 | A title that is already lower-case kebab text is its own slug. |
| Slug.KeepSlugChars | scripts/process_inbox.py:148 | Removing every character outside `[a-z0-9-]` leaves only slug characters. |
| Slug.KeepSlugCharsIdentity | scripts/process_inbox.py:148 | A string of slug characters passes the filter unchanged. |
| Slug.CollapseHyphens | scripts/process_inbox.py:150 | Collapsing runs of `-` leaves no doubled hyphen, keeps the first and last character, never lengthens and keeps slug characters. |
| Slug.CollapseHyphensIdentity | scripts/process_inbox.py:150 | A string without doubled hyphens is unchanged by the collapse. |
| Slug.StripHyphensShape | scripts/process_inbox.py:152 | Trimming `-` from a filtered, collapsed string gives an empty string or one that neither starts nor ends with `-`. |
| Slug.ApplyTableNoKeys | scripts/process_inbox.py:144-145 | The replacements leave a text without any table key unchanged. |
| Slug.ArticleSlug | scripts/process_inbox.py:412 | The folder name: the slug cut to 50 characters (Slug.ArticleSlugShape). |
| Slug.ArticleSlugShape | scripts/process_inbox.py:412 | The folder name is 1 to 50 slug characters with no doubled or leading hyphen; it is kebab-case whenever the slug fits in 50. |
| Slug.TruncatedSlugMayEndWithHyphen | scripts/process_inbox.py:412 | 49 letters, a hyphen and a letter give a folder name ending in `-`, which is not kebab-case. |
| Classifier.ClassifyTopic | scripts/process_inbox.py:178-232 | The classifier is total and always returns one of its fixed labels. |
| Classifier.ClassifyCombined | scripts/process_inbox.py:209-232 | The keyword chain on the combined text always picks one of the labels. |
| Classifier.LabelsAreKebab | scripts/process_inbox.py:178-232 | Every topic the classifier returns is a kebab-case slug. |
| Classifier.LabelIsKebab | scripts/process_inbox.py:212-232 | Each label is a kebab-case slug. |
| Classifier.ClassifyReadsOnlyWindow | scripts/process_inbox.py:207 | Two texts that agree on their first 1000 characters get the same topic. |
| Classifier.LowerTake | scripts/process_inbox.py:207 | Cutting the lower-cased text is the same as lower-casing the cut text. |
| Classifier.GostOrIsoMeansStandards | scripts/process_inbox.py:188-212 | `гост` or `iso` in the combined text always gives `podshipniki-standards`, because both are bearing and standards keywords. |
| Classifier.BearingFamilyFirst | scripts/process_inbox.py:209-220 | The topic starts with `podshipniki` exactly when a bearing keyword occurs. |
| Classifier.GeneralIffNoKeyword | scripts/process_inbox.py:222-232 | The topic is `general` exactly when no bearing, lubrication, drive or standards keyword occurs. |
| Article.FirstWhere | scripts/process_inbox.py:239-241 | The search returns the first line that satisfies the test, and `None` only when no line does. |
| Article.FirstWhereFinds | scripts/process_inbox.py:239-241 | A satisfying line with none before it is the one found. |
| Article.ExtractTitle | scripts/process_inbox.py:235-248 | The title: the first `# ` line's text, else the file-name title (Article.ExtractTitleFirstHeading, Article.ExtractTitleFromFilename). |
| Article.ExtractTitleFirstHeading | scripts/process_inbox.py:235-241 | With a heading line and none before it, the title is that line stripped, without `# `, stripped again. |
| Article.ExtractTitleFromFilename | scripts/process_inbox.py:243-248 | Without a heading line, the title comes from the file name. |
| Article.TitleFromFilename | scripts/process_inbox.py:244-246 | The file-name title has no `_` or `-` and is 3 shorter exactly when the name ends in `.md`. |
| Article.ReplaceCharKeeps | scripts/process_inbox.py:244 | Replacing a character never introduces a character absent from the text and the replacement. |
| Article.FrontMatter | scripts/process_inbox.py:273-284 | The front-matter block of a new article: `---`, one line per field, `---` and a blank line (Conformance.CreateArticleBlock). |
| Article.CreateArticle | scripts/process_inbox.py:251-293 | The text of a new article: its block, then the body (Article.ArticleBody, Conformance.CreatedArticlePasses). |
| Article.Tags | scripts/process_inbox.py:262-268 | The tags start with `imported-from-inbox` and hold `bearings`, `standards` and `designation` exactly under their substring conditions on the topic. No other tag occurs, none occurs twice, and they come in the order of the appends. |
| Article.ArticleBody | scripts/process_inbox.py:286-291 | The body starts with `# ` and ends with the content minus its leading newlines. |
| Article.UpdatedTopicPage | scripts/process_inbox.py:349-366 | The page after the update: the link under every `## Статьи` line, or a new section at the end (Article.InsertUnderSection, Article.AppendSection). |
| Article.InsertUnderSection | scripts/process_inbox.py:354-360 | On a page with one `## Статьи` line, the link is inserted right after it and the text before and after is kept. |
| Article.EverySectionGetsTheLink | scripts/process_inbox.py:357-360 | A page with two `## Статьи` lines gets the link under each of them. |
| Article.SectionWithoutNewlineDropsLink | scripts/process_inbox.py:354-360 | A heading that is not followed by a newline leaves the page unchanged. |
| Article.AppendSection | scripts/process_inbox.py:361-364 | A page without the heading keeps its text, and a new section with the link is appended. |
| Article.UpdatedPageListsArticle | scripts/process_inbox.py:349-366 | An updated page with a proper heading, or with none, contains the link. |
| Article.NewTopicPage | scripts/process_inbox.py:327-348 | A new topic page: its block, its title, the `## Статьи` section and the link (Article.NewPageListsArticle, Conformance.TopicPageChecked). |
| Article.NewPageListsArticle | scripts/process_inbox.py:327-348 | A new topic page contains the link to the article. |
| Fingerprint.ExtractText | scripts/process_inbox.py:161-162 | Strips the result of the substitution on the text as read; a front-matter block in front is removed (Fingerprint.ExtractTextIgnoresFrontMatter) and text without `---` is only stripped (Fingerprint.ExtractTextNoDashes). |
| Fingerprint.CrlfCopySameText | scripts/process_inbox.py:157-162 | A file saved with Windows line ends gives the same extracted text as its `\n` copy, so both get the same digest. |
| Text.ReadText | scripts/process_inbox.py:159 | Reading with universal newlines leaves no `\r` and never lengthens the text. |
| Text.ReadTextPlain | scripts/process_inbox.py:159 | A text without `\r` is read as it is. |
| Text.ReadTextIdempotent | scripts/process_inbox.py:159 | Reading a read text again changes nothing. |
| Text.ReadTextCrlf | scripts/process_inbox.py:159 | A text with every `\n` written as `\r\n` is read back as the `\n` text. |
| Text.ReadTextLoneCr | scripts/process_inbox.py:159 | A lone `\r` is read as `\n`. |
| Fingerprint.ExtractTextIgnoresFrontMatter | scripts/process_inbox.py:157-162 | A file made of a front-matter block (`---`, content that is not all white space and has no `\n---`, `---`) followed by any text gives the same extracted text as that text alone, blank lines after the block included. |
| Fingerprint.ExtractTextNoDashes | scripts/process_inbox.py:157-162 | A file without `---` is only stripped. |
| Fingerprint.FrontMatterMatch | scripts/process_inbox.py:36 | The pattern matches at the start of such a file; the match is the whole block plus the white space lines that open the text, and ends right after the closing line when the text does not start with white space. |
| Fingerprint.MiddleSkipsFrontMatter | scripts/process_inbox.py:36 | From any newline inside the block, the lazy `.*?` runs to the closing `\n---` line. |
| Fingerprint.ClosingLine | scripts/process_inbox.py:36 | The closing `---` line of a block, with the `\s*\n` after it, completes the pattern. |
| Fingerprint.BlankBlockRunsOn | scripts/process_inbox.py:36 | A block with no content is not removed as a block: the opening `\s*` takes the closing line's newline, and the match runs on to the next `---` line of the text. |
| Fingerprint.MatchAt | scripts/process_inbox.py:36 | A match found at a position ends after it, within the text. |
| Fingerprint.MatchAtShift | scripts/process_inbox.py:36 | Matching at a line boundary depends only on the text that follows it. |
| Fingerprint.SubFromShift | scripts/process_inbox.py:161 | The substitution over a suffix that starts a line equals the substitution over that suffix alone. |
| Fingerprint.SubFromNoDashes | scripts/process_inbox.py:161 | Without `---` nothing is removed. |
| QualityGate.FrontMatterOf | scripts/kb_quality_gate.py:30-53 | The fields and the body of `parse_front_matter` (QualityGate.ParseFrontMatter, QualityGate.FoldFieldsLastWins). |
| QualityGate.ParseFrontMatter | scripts/kb_quality_gate.py:30-53 | The dict filled line by line and the body equal the parser's value. |
| QualityGate.ClosingLine | scripts/kb_quality_gate.py:35-39 | The closing line is the first `---` line among lines 1 to 199, and `None` means none exists. |
| QualityGate.KeyLength | scripts/kb_quality_gate.py:15 | The key is the longest prefix of `[A-Za-z0-9_]` characters. |
| QualityGate.NoFrontMatterUnlessDelimited | scripts/kb_quality_gate.py:31-41 | Without an opening line, or without a closing line among lines 1 to 199, there are no fields and the body is the whole text. |
| QualityGate.FoldWithKeys | scripts/kb_quality_gate.py:46-52 | A key is in the dict exactly when some front-matter line carries it. |
| QualityGate.FoldFieldsLastWins | scripts/kb_quality_gate.py:46-52 | The last line that carries a key gives its value. |
| QualityGate.IndexOfPart | scripts/kb_quality_gate.py:69 | The path lookup finds the first `kb` part, or reports that there is none. |
| QualityGate.ValidatePaths | scripts/kb_quality_gate.py:62-79 | The loop stops at the first bad folder, with the same result as the path verdict. |
| QualityGate.PathsVerdictOk | scripts/kb_quality_gate.py:62-79 | The paths pass exactly when every folder between `kb` and `README.md` has no space and is ASCII. |
| QualityGate.SegmentsErrorNone | scripts/kb_quality_gate.py:73-79 | A list of folders passes exactly when each has no space and is ASCII. |
| QualityGate.MissingKeysOf | scripts/kb_quality_gate.py:89 | The missing list holds exactly the required keys absent from the front matter. |
| QualityGate.ValidateArticles | scripts/kb_quality_gate.py:139-141 | The loop over articles threads one id map and stops at the first failure, with the same result as the article verdict. |
| QualityGate.CheckArticle | scripts/kb_quality_gate.py:80-110 | One article's verdict: parse, then the field checks. |
| QualityGate.CheckFields | scripts/kb_quality_gate.py:84-110 | No front matter or missing keys fail first, then the value checks (QualityGate.MissingKeyIsError, QualityGate.PassRecordsId). |
| QualityGate.CheckValues | scripts/kb_quality_gate.py:91-110 | The status, id, topic and verified-TBD checks in order, recording the id (QualityGate.ValuesPassIff). |
| QualityGate.MissingKeyIsError | scripts/kb_quality_gate.py:89-91 | A missing required key makes the check fail with a list that names it. |
| QualityGate.PassRecordsId | scripts/kb_quality_gate.py:86-102 | A passing article has all eight keys, an allowed status and a non-empty id that is free or already at this path, and the map records it at this path. |
| QualityGate.ValuesPass | scripts/kb_quality_gate.py:93-102 | Passing value checks mean an allowed status and a usable id, and the result records the id. |
| QualityGate.ValuesPassIff | scripts/kb_quality_gate.py:93-110 | The value checks pass exactly when all of these hold: allowed status, a non-empty, unused id, a topic that is empty, `[[TBD]]` or matched by `ASCII_KEBAB` (a slug, or a slug and one final newline), and no `[[TBD]]` in a verified article. |
| QualityGate.VerifiedTbdNeverPasses | scripts/kb_quality_gate.py:108-110 | A verified article whose text holds `[[TBD]]` always fails. |
| QualityGate.DuplicateIdIsError | scripts/kb_quality_gate.py:100-101 | An article that would pass alone fails with a duplicate-id error when its id is recorded at another path. |
| QualityGate.AsciiKebabIsKebab | scripts/kb_quality_gate.py:16 | The body of `ASCII_KEBAB`, over the whole string, accepts exactly the kebab-case slugs of the slug builder. |
| QualityGate.MatchesAsciiKebabIff | scripts/kb_quality_gate.py:16 | `ASCII_KEBAB.match` accepts exactly the kebab-case slugs and the kebab-case slugs followed by one `\n`, since `$` also matches before a final newline. |
| QualityGate.MatchesWithoutNewline | scripts/kb_quality_gate.py:103-105 | On a topic without a newline, as a value of one front-matter line is, the match accepts exactly the kebab-case slugs. |
| QualityGate.TrailingNewlineMatches | scripts/kb_quality_gate.py:16 | `abc\n` matches, though it is not a slug. |
| QualityGate.KebabSplitAtHyphen | scripts/kb_quality_gate.py:16 | A kebab string is an alphanumeric piece, `-`, and a kebab rest. |
| CardValidator.ValueOf | scripts/validate_bearing_cards.py:24-53 | `parse_yaml_value` on one value (CardValidator.ListRoundTrip, CardValidator.IntRoundTrip, CardValidator.DoubleQuoted and the rows after them). |
| CardValidator.ParseValue | scripts/validate_bearing_cards.py:24-53 | The branching value parser, with its list loop, gives the value function's result. |
| CardValidator.EmptyList | scripts/validate_bearing_cards.py:29-32 | Brackets around white space give the empty list. |
| CardValidator.ListRoundTrip | scripts/validate_bearing_cards.py:29-38 | A bracketed comma list of plain items reads back as those items. |
| CardValidator.PlainItems | scripts/validate_bearing_cards.py:35-37 | Plain items are kept as strings, in order. |
| CardValidator.BraceVerbatim | scripts/validate_bearing_cards.py:41-42 | A `{...}` value is returned verbatim as a string. |
| CardValidator.DoubleQuoted | scripts/validate_bearing_cards.py:52-53 | A double-quoted value reads back without its quotes. |
| CardValidator.SingleQuoted | scripts/validate_bearing_cards.py:52-53 | A single-quoted value reads back without its quotes. |
| CardValidator.NotFloatOrInt | scripts/validate_bearing_cards.py:44-50 | A quoted value is neither a float nor an int literal. |
| CardValidator.IntRoundTrip | scripts/validate_bearing_cards.py:44-48 | The decimal form of an integer reads back as that integer. |
| CardValidator.ParseFrontMatter | scripts/validate_bearing_cards.py:56-102 | The loop with its current key gives the front-matter function's value, including the failure on an append to a scalar. |
| CardValidator.ScanLine | scripts/validate_bearing_cards.py:74-100 | One line of the loop changes the dict and the current key as the step function says. |
| CardValidator.Step | scripts/validate_bearing_cards.py:74-100 | A step keeps every non-empty current key present in the dict. |
| CardValidator.ErrorSticks | scripts/validate_bearing_cards.py:94-100 | After a failed append the later lines do not matter. |
| CardValidator.NoDelimitersNoFields | scripts/validate_bearing_cards.py:58-68 | Without an opening line, or without a closing line among lines 1 to 199, the dict is empty. |
| CardValidator.KeyLineSets | scripts/validate_bearing_cards.py:80-89 | A top-level key line sets its key and keeps every other key. |
| CardValidator.BlockList | scripts/validate_bearing_cards.py:74-100 | A `key:` line with nothing after the colon followed by n indented `- a_i` lines gives the key the list of the n elements in order (`None` when n is 0); the other keys keep their values and the key stays current. |
| CardValidator.ItemUnderScalarRaises | scripts/validate_bearing_cards.py:91-100 | An item line under a key whose inline value is a scalar raises, whatever lines follow. |
| CardValidator.BraceItemRaw | scripts/validate_bearing_cards.py:96-98 | A `{` list item is appended as raw text, not parsed. |
| CardValidator.NestedLineIgnored | scripts/validate_bearing_cards.py:91-92 | An indented line that is not a list item changes nothing. |
| CardValidator.Issues | scripts/validate_bearing_cards.py:112-151 | The findings for a parsed front matter, in the order reported (the Iff lemmas below). |
| CardValidator.CardVerdict | scripts/validate_bearing_cards.py:105-151 | Parse, then the findings; the parser's exception propagates. |
| CardValidator.ValidateBearingCard | scripts/validate_bearing_cards.py:105-151 | The checks appended in order give the card verdict. |
| CardValidator.NoFrontMatterOneIssue | scripts/validate_bearing_cards.py:112-113 | No front matter gives exactly one finding. |
| CardValidator.NotACardNoIssues | scripts/validate_bearing_cards.py:116 | Front matter whose topic is not `bearings-card` gives no findings. |
| CardValidator.DesignationIssuesIff | scripts/validate_bearing_cards.py:117-123 | A card is flagged for its designation exactly when it is missing or a string. |
| CardValidator.DimsIssuesIff | scripts/validate_bearing_cards.py:125-133 | A card is flagged for its dims exactly when they are missing, or are a brace string lacking `d:`, `D:` or `B:`. |
| CardValidator.LoadIssueIff | scripts/validate_bearing_cards.py:135-141 | A brace load capacity is flagged exactly when it holds no `C_kN`. `dynamic_C_kN` contains it, so the first test adds nothing. |
| CardValidator.EquivalentsIssuesIff | scripts/validate_bearing_cards.py:143-149 | Equivalents are flagged exactly when they are present and not a list, or an empty list. |
| CardValidator.AtMostFourIssues | scripts/validate_bearing_cards.py:105-151 | A card gets at most four findings. |
| CardGenerator.BoreCode | scripts/generate_bearing_cards.py:217-224 | The bore code of a diameter (CardGenerator.BoreCodeReadsBack, CardGenerator.SmallBoreCodes). |
| CardGenerator.BoreCodeReadsBack | scripts/generate_bearing_cards.py:217-224 | At 20 mm and above the code is at least two digits and reads back as `d // 5` (times 5 it gives `d` for multiples of 5). From 0 to 9 it is the single digit. |
| CardGenerator.BoreCodeInjective | scripts/generate_bearing_cards.py:224 | Different multiples of 5 from 20 up get different codes. |
| CardGenerator.SmallBoreCodes | scripts/generate_bearing_cards.py:221-223 | From 10 to 19 the code has two characters and is `00`-`03` exactly for 10, 12, 15, 17. |
| CardGenerator.SizeBucket | scripts/generate_bearing_cards.py:235-240 | The size bucket of a diameter (CardGenerator.SizeBucketBounds). |
| CardGenerator.SizeBucketBounds | scripts/generate_bearing_cards.py:235-240 | The bucket is `small` exactly up to 17, `medium` exactly for 18 to 30 and `large` above. |
| CardGenerator.SizeBucketMonotone | scripts/generate_bearing_cards.py:235-240 | A larger diameter never gets a smaller bucket. |
| CardGenerator.FolderName | scripts/generate_bearing_cards.py:247-252 | The appending loop gives the folder-name function's value. |
| CardGenerator.FolderNameNoSuffix | scripts/generate_bearing_cards.py:247-252 | With no suffixes the folder is the lower-cased base. |
| CardGenerator.FolderNameSplits | scripts/generate_bearing_cards.py:247-252 | Splitting the folder name at `-` gives back the lower-cased base and suffixes, when none holds `-`. |
| CardGenerator.FullDesignation | scripts/generate_bearing_cards.py:255-268 | The `+=` loop gives the full-designation function's value. |
| CardGenerator.FullDesignationShape | scripts/generate_bearing_cards.py:255-268 | The designation is the base, the first separator and the suffixes joined by spaces. |
| CardGenerator.FullDesignationDash | scripts/generate_bearing_cards.py:260-265 | The character after the base is `-` exactly when the first suffix is `2RS`, `2Z` or `B`. |
| CardGenerator.FullDesignationExample | scripts/generate_bearing_cards.py:256 | `6205` with `2RS`, `C3` gives `6205-2RS C3`. |
| CardGenerator.GetEquivRow | scripts/generate_bearing_cards.py:271-278 | The equivalents row of the full designation, else of the base (CardGenerator.EquivRowPreference). |
| CardGenerator.EquivRowPreference | scripts/generate_bearing_cards.py:271-278 | A row is found exactly when the full or the base designation has one, the full one is preferred, and with no suffixes only the base is looked up. |
| CardGenerator.TableRows | scripts/generate_bearing_cards.py:281-310 | The equivalents table of a row (CardGenerator.TableRowsShape). |
| CardGenerator.EquivTableRows | scripts/generate_bearing_cards.py:281-310 | The appending loop gives the table function's value. |
| CardGenerator.TableRowsShape | scripts/generate_bearing_cards.py:281-310 | No row gives an empty table. Otherwise the table has at most 5 rows, all with non-empty codes, in manufacturer order; a manufacturer appears exactly when its code is non-empty. |
| CardGenerator.RowsUpToShape | scripts/generate_bearing_cards.py:298-310 | After the first k manufacturers, the table holds those with a code, in order. |
| CardGenerator.NotesPriority | scripts/generate_bearing_cards.py:288-296 | Sealed notes win over angular ones, and those over the base notes; each map has a ГОСТ note. |
| CardGenerator.TagsOf | scripts/generate_bearing_cards.py:340-346 | The tag list of a known type (CardGenerator.SuffixTagsContents). |
| CardGenerator.CardTags | scripts/generate_bearing_cards.py:335-347 | An unknown type has no tag list, because `TYPE_INFO` has no entry for it. Otherwise the tags are `bearing`, `ball`, the type extras, the series and the suffix tags. |
| CardGenerator.SuffixTagsContents | scripts/generate_bearing_cards.py:343-346 | `sealed` is a tag exactly when `2RS` is a suffix, and `c3` exactly when `C3` is; there are never more suffix tags than suffixes. |
| CardGenerator.SuffixTagsAppend | scripts/generate_bearing_cards.py:343-346 | The suffix tags of two lists in sequence are their tags in sequence. |
| CardGenerator.BAddsNoTag | scripts/generate_bearing_cards.py:91-93 | Suffix `B` adds no tag wherever it stands. |
| CardGenerator.SuffixList | scripts/generate_bearing_cards.py:917 | The parsed suffix list has no empty entry. |
| CardGenerator.NonBlank | scripts/generate_bearing_cards.py:917 | Dropping blanks never lengthens the list and leaves no empty entry. |
| CardGenerator.GenStep | scripts/generate_bearing_cards.py:927-962 | One row: skip an existing folder, raise on an unknown type, or number and record the card (CardGenerator.StepCounts). |
| CardGenerator.GenerateOne | scripts/generate_bearing_cards.py:927-962 | One pass of the loop body is the step function. |
| CardGenerator.RunGenerator | scripts/generate_bearing_cards.py:917-962 | The run over the catalog from `id_start` (CardGenerator.RunIds, CardGenerator.RerunSkipsAll). |
| CardGenerator.GenerateCards | scripts/generate_bearing_cards.py:917-962 | The loop over the catalog gives the run function's value: the final state, or the unknown type with the state reached before that row. |
| CardGenerator.StepCounts | scripts/generate_bearing_cards.py:937-962 | An existing folder is only recorded as skipped. A new one is recorded as generated and, outside dry-run, holds a card with the next id. |
| CardGenerator.CardIdInjective | scripts/generate_bearing_cards.py:950 | Different numbers give different `KB-RU-` ids. |
| CardGenerator.StepKeepsIds | scripts/generate_bearing_cards.py:949-951 | One step keeps all card ids distinct and drawn from the numbers handed out so far. |
| CardGenerator.GeneratedInvariant | scripts/generate_bearing_cards.py:925-962 | Every row is generated or skipped. The id counter advances once per generated card, and the ids stay distinct and in range. |
| CardGenerator.RunIds | scripts/generate_bearing_cards.py:925-962 | After a run, generated plus skipped equals the catalog size, and the cards carry distinct ids `id_start .. id_start + generated - 1`. |
| CardGenerator.GenErrorSticks | scripts/generate_bearing_cards.py:335 | A row of unknown type stops the run: later rows do not change the outcome. |
| CardGenerator.WrittenFoldersExist | scripts/generate_bearing_cards.py:942-959 | After a run that writes, every row's folder holds a card and no existing folder is lost. |
| CardGenerator.FailedRunKeepsWritten | scripts/generate_bearing_cards.py:942-959 | A run that writes and meets a row of unknown type stops at that row; the error holds the state after the rows before it, in whose folders the cards are written. |
| CardGenerator.AllSkipped | scripts/generate_bearing_cards.py:942-944 | When every folder already exists, every row is skipped, no id is used and nothing is written. |
| CardGenerator.RerunSkipsAll | scripts/generate_bearing_cards.py:925-962 | Running again after a run that wrote generates nothing and uses no id. |
| CardGenerator.AngularDefaultsToB | scripts/generate_bearing_cards.py:932-935 | An angular row with no suffixes gets `B`: folder `<base>-b`, designation `<base>-B`, and tags without a suffix tag. |
| CardGenerator.FolderNameB | scripts/generate_bearing_cards.py:247-252 | Suffix `B` gives the folder `<base>-b`. |
| CardGenerator.FullDesignationB | scripts/generate_bearing_cards.py:255-268 | Suffix `B` gives the designation `<base>-B`. |
| CardGenerator.TagsB | scripts/generate_bearing_cards.py:340-346 | Suffix `B` adds no tag to an angular card. |
| Numerals.ZeroPadRoundTrip | scripts/process_inbox.py:95 | A zero-filled number is an integer literal that reads back as the number. |
| Numerals.ZeroPadInjective | scripts/process_inbox.py:95 | Different numbers zero-filled to the same width differ. |
| Numerals.ZeroPadLength | scripts/process_inbox.py:95 | A zero-filled number is at least the width long. |
| Inbox.Workspace.EnsureMetaFiles | scripts/process_inbox.py:55-73 | Only the missing meta files are created, with their initial content. |
| Inbox.Workspace.AllocateId | scripts/process_inbox.py:88-99 | The id comes from the registry as read (the default when it is missing). The registry is written back with the number advanced by one and prefix and width kept. |
| Inbox.IdRoundTrip | scripts/process_inbox.py:95 | The id is the prefix followed by digits that read back as the registry's number. |
| Inbox.IdsDistinct | scripts/process_inbox.py:88-99 | Ids allocated from different numbers of one registry differ. |
| Inbox.Workspace.LogDuplicate | scripts/process_inbox.py:119-123 | One dated line is appended to the dedup log and nothing else changes. |
| Inbox.FreeName | scripts/process_inbox.py:305-311 | The renaming loop returns the archive name, which is not in the bucket. |
| Inbox.ArchiveName | scripts/process_inbox.py:305-311 | The archive name in a bucket (Inbox.ArchiveNameIsFirstFree). |
| Inbox.ArchiveNameIsFirstFree | scripts/process_inbox.py:305-311 | The archive name is never taken. It is the original name when that is free, otherwise `stem_k` plus the suffix for the smallest free k from 1. |
| Inbox.FreeCandidateIsFirstFree | scripts/process_inbox.py:307-311 | Counting up from k finds a free candidate, and every candidate skipped on the way is taken. |
| Inbox.StemSuffix | scripts/process_inbox.py:308-309 | Stem and suffix put together give the file name back. |
| Inbox.Workspace.MoveToProcessed | scripts/process_inbox.py:296-316 | The file leaves the inbox and lands in the month's bucket under the archive name. In dry-run nothing changes and the plain name is reported. |
| Inbox.ArchiveKeepsBucket | scripts/process_inbox.py:296-316 | Archiving adds exactly one new name to the month's bucket, with the file's content. Other months are untouched, and the inbox loses only that file. |
| Inbox.Workspace.UpdateTopicReadme | scripts/process_inbox.py:319-366 | The topic page is created, or read with universal newlines and updated with the link, and nothing else changes. |
| Inbox.Workspace.ProcessFile | scripts/process_inbox.py:369-443 | One file is read with universal newlines and handled as the process function says: skipped, a duplicate, or a new article. |
| Inbox.Workspace.HandleText | scripts/process_inbox.py:385-443 | A known digest is handled as a duplicate, any other as a new article. |
| Inbox.Workspace.Store | scripts/process_inbox.py:421-435 | Outside dry-run, the article, the index entry and the topic link are written and the file is archived. |
| Inbox.Workspace.Run | scripts/process_inbox.py:446-478 | The run reports the number of inbox files and the created articles in order, and leaves the files as the run function says. |
| Inbox.DescribeArticle | scripts/process_inbox.py:399-414 | The title, topic and path of a new article, and its folder as the slug cut to 50 characters. |
| Inbox.GetUnprocessedFiles | scripts/process_inbox.py:165-175 | The filtering loop gives the unprocessed-files function's value. |
| Inbox.UnprocessedKeeps | scripts/process_inbox.py:165-175 | Exactly the files other than `README.md` are processed. |
| Inbox.Process | scripts/process_inbox.py:369-443 | One file: skip, duplicate or new article, with the disk after it (Inbox.SkipLeavesDisk and the rows after it). |
| Inbox.SkipLeavesDisk | scripts/process_inbox.py:379-383 | A file whose suffix is not `.md`, in any case, changes nothing and uses no id. |
| Inbox.DuplicateUsesNoId | scripts/process_inbox.py:389-397 | A known digest is logged and, outside dry-run, archived. It creates no article or page and uses no id. |
| Inbox.DryRunTouchesRegistryAndLog | scripts/process_inbox.py:369-443 | In dry-run only the registry and the log can change, and a new text still uses up an id. |
| Inbox.StoredIndexesArticle | scripts/process_inbox.py:421-431 | Storing adds exactly the text's digest to the index, pointing to the article written there, and links the article from its topic page. Registry and log are untouched. |
| Inbox.NewArticleIndexed | scripts/process_inbox.py:399-431 | A new text outside dry-run gets the next id and the path of its topic and slug. It is indexed, written and linked from its topic page, and the registry advances by one. |
| Inbox.NewBodyHandled | scripts/process_inbox.py:399-431 | A new text outside dry-run: reported with the next id; the registry advances by one, the index gains its digest, one article path is added, the log is kept, and the file moves to a free name of the month's bucket. |
| Inbox.StoredFiles | scripts/process_inbox.py:421-431 | Storing outside dry-run keeps the registry and the log, adds one article path and the digest, and archives the file under a free name. |
| Inbox.DuplicateArchived | scripts/process_inbox.py:389-397 | A duplicate outside dry-run keeps the registry, index and articles, appends exactly one log line naming the canonical path, and archives the file under a free name. |
| Inbox.SameContentTwiceOneArticle | scripts/process_inbox.py:369-443 | Two Markdown files with the same text, one after the other outside dry-run: one article with the next id and one indexed digest, the registry advanced by one, one log line for the second file naming the first's article, and both files archived under two distinct new names. |
| Inbox.CrlfPageTakesLinks | scripts/process_inbox.py:351-366 | A topic page saved with Windows line ends takes the link exactly when its `\n` copy does. |
| Inbox.ProcessRegistry | scripts/process_inbox.py:407-409 | The registry advances by one exactly when an article is reported, and the article carries the allocated id. |
| Inbox.ProcessAll | scripts/process_inbox.py:474-478 | The files in order, each on the disk the previous one left (Inbox.ProcessAllIds). |
| Inbox.ProcessKeepsIndexSound | scripts/process_inbox.py:389-428 | If every indexed digest points to an existing article, that stays true after one file. |
| Inbox.ProcessAllKeepsIndexSound | scripts/process_inbox.py:474-478 | The same holds after any sequence of files. |
| Inbox.ProcessAllIds | scripts/process_inbox.py:474-478 | The created articles carry consecutive ids from the registry's number, and the registry ends advanced by their count. |
| Inbox.RunIdsDistinct | scripts/process_inbox.py:446-478 | The articles created by one run have pairwise distinct ids. |
| Conformance.CreatedArticleFields | scripts/process_inbox.py:273-284 | The quality gate reads from a created article all eight required keys and status `draft`, and the article's own id and topic. |
| Conformance.CreatedArticlePasses | scripts/process_inbox.py:251-293 | The quality gate accepts a created article whose id is free and records its id at its path. |
| Conformance.ClassifiedArticlePasses | scripts/process_inbox.py:400-419 | The same holds for the topic the classifier picks. |
| Conformance.CreateArticleBlock | scripts/process_inbox.py:273-293 | A created article is `---`, one line per field, `---`, a blank line and the body. |
| Conformance.ArticleFieldsRequired | scripts/process_inbox.py:273-282 | The created fields are the eight required keys in order, each on one line. |
| Conformance.TagListOneLine | scripts/process_inbox.py:262-270 | The JSON tag list fits on one line. |
| Conformance.ReadBack | scripts/kb_quality_gate.py:30-53 | The quality gate reads a field block back line by line. |
| Conformance.BlockChecked | scripts/kb_quality_gate.py:82-110 | A draft block with a plain id and a kebab topic passes, unless its id is recorded at another path. |
| Conformance.DraftValuesChecked | scripts/kb_quality_gate.py:93-106 | A draft with a non-empty id and a kebab topic fails only on a duplicate id. |
| Conformance.KeyValueOfField | scripts/kb_quality_gate.py:15 | A written `key: value` line reads back as that key and the stripped value. |
| Conformance.TopicPageFieldsRequired | scripts/process_inbox.py:330-338 | A new topic page's fields are the eight required keys in order. |
| Conformance.TopicPageChecked | scripts/process_inbox.py:329-339 | The quality gate reads a new topic page as a draft with id `TBD`: it fails only when `TBD` is recorded at another path. |
| Conformance.TwoTopicPagesClash | scripts/process_inbox.py:330-331 | The first of two created topic pages passes and records `TBD`; the second fails with a duplicate-id error. |
| Conformance.TopicsMatchAsciiKebab | scripts/process_inbox.py:178-232 | Every classifier label matches `ASCII_KEBAB`. |
| Conformance.SlugsMatchAsciiKebab | scripts/process_inbox.py:126-154 | Every slug matches `ASCII_KEBAB`, and so does the folder name when the cut leaves it whole. |
| Conformance.ArticlePathPasses | scripts/process_inbox.py:412-414 | A new article's path splits into `kb`, `ru`, topic, folder and `README.md`, and the quality gate's path check accepts it. |
| Conformance.ArticlePartsPass | scripts/kb_quality_gate.py:62-79 | Folders made of slug characters pass the path check. |

## Left out

- File-system effects, JSON and CSV reading and writing, argparse, logging and `sys.exit` are
  not modelled. The files are the fields of `Workspace` / `Disk`.
- JSON decoding of the registry and dedup files is not modelled, so a corrupt file's crash is
  not modelled; a missing file is.
- SHA-256 is the function parameter `fingerprint`, not modelled.
- `date.today()` is the parameters `today` and `month`.
- `errors="replace"` decoding is not modelled; texts are sequences of characters.
- `str.lower` and `str.title` cover ASCII and the Cyrillic alphabet (А-Я, Ё) only; other letters
  keep their case.
- `int()` accepts only an optional sign and ASCII digits: no underscores, no other Unicode digits.
- CardValidator.ValueOf: a value with a `.` is a float when both sides of one dot are digits.
  Python's `float` also accepts exponents, underscores, `inf` and `nan`, which this model reads
  as strings. Float values are kept as their text.
- Floating-point arithmetic of the bearing-card generator is not modelled: kN to kgf,
  the L10/L10h life figures, speed ratings.
- The prose template of `generate_card` is not modelled: aliases, applications, the Russian body
  text and the rendered front matter. Only the tag list and the `TYPE_INFO` lookup that can fail
  are modelled. So the model never raises the exceptions inside the template:
  - the `IndexError` of `base[0]` and `base[1]` (scripts/generate_bearing_cards.py:378, 382, 443,
    450) for a designation shorter than two characters, where CardGenerator.NewCard returns a
    card;
  - a `KeyError` for a `TYPE_INFO` entry that lacks one of the keys the template reads.
- The CSV number fields that `generate_card` converts before its `TYPE_INFO` lookup are not
  modelled, so their conversion errors are not either.
- `validate_bearing_cards.py`'s `main` (directory walk and printing) is not modelled.
- `kb_quality_gate.py`'s checks for `kb/ru/INDEX.md` and the article template are not modelled:
  they only test that files exist.
- `tests/check_kb_links.py` is not part of this model.
- Conformance.CreatedArticleFields, Conformance.ArticleFieldsRequired,
  Conformance.CreatedArticlePasses, Conformance.ClassifiedArticlePasses: these need a one-line
  title, file name and date, and an id that reads back unchanged (no surrounding spaces or
  quotes), the `ArticleInputs` condition. The processor places no such limit, and with other
  inputs the read-back can differ.
- Fingerprint.ExtractTextIgnoresFrontMatter: stated for a block whose content has a character
  that is not white space. A blank block is not removed as a block
  (Fingerprint.BlankBlockRunsOn shows a case).
- QualityGate.CheckArticle, QualityGate.ValidateArticles, CardValidator.CardVerdict: take a
  file's text as `read_text` returns it, line ends already translated. The inbox processor
  applies Text.ReadText itself because its files are stored raw.
- `write_text` writes `\n` as the platform's line separator; the model writes `\n`, as on
  POSIX.
- Fingerprint.LastNewline: states where the newline it finds lies. That it is the last newline
  in the range is not stated.
- Inbox.Workspace.Run: the printed summary is not modelled; the run returns the file count and
  the created articles.
