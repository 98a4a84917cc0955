/** The persistent side of scripts/process_inbox.py: the id registry, the dedup index and log,
    the articles, the topic pages, the inbox and its monthly archive. The files are abstract
    state: a `Disk` value says what every file holds, and the class `Workspace` changes it the
    way the script's functions do. The SHA-256 digest and today's date are parameters. */
module Inbox {
  import opened Text
  import opened Results
  import Numerals
  import Fingerprint
  import Slug
  import Classifier
  import Article

  /** An item of `inbox/`, as `iterdir` lists it. */
  datatype Entry = Entry(name: string, isFile: bool, content: string)

  /** `_meta/id_registry.json` */
  datatype Registry = Registry(nextId: nat, prefix: string, pad: nat)

  /** The registry that is used and written when the file is missing. */
  const DefaultRegistry: Registry := Registry(202, "KB-RU-", 6)

  const DedupLogHeader: string :=
    "# Dedup log\n\nФормат:\n- YYYY-MM-DD: inbox/<file> -> <canonical-article-path> (reason: sha256 match)\n\n"

  /** Everything the script reads and writes. A missing file is `None`. */
  datatype Disk = Disk(
    registry: Option<Registry>,
    /** `_meta/dedup_index.json`: digest of the body to the article's path */
    dedup: Option<map<string, string>>,
    /** `_meta/dedup_log.md` */
    log: Option<string>,
    /** `_meta/topics.json` */
    topics: Option<string>,
    /** `inbox/`, in listing order */
    inbox: seq<Entry>,
    /** `kb/ru/<topic>/<slug>/README.md` by path */
    articles: map<string, string>,
    /** `kb/ru/<topic>/README.md` by topic */
    pages: map<string, string>,
    /** `inbox/processed/<YYYY-MM>/` by month: file name to content */
    archive: map<string, map<string, string>>)

  /** What `process_file` reports about a created article. */
  datatype ArticleInfo = ArticleInfo(id: string, title: string, topic: string, path: string, source: string)

  // ---------------------------------------------------------------------------
  // The meta files
  // ---------------------------------------------------------------------------

  /** `ensure_meta_files`: each missing meta file is created with its default. */
  function EnsureMeta(d: Disk): Disk {
    d.(registry := if d.registry.None? then Some(DefaultRegistry) else d.registry,
       dedup := if d.dedup.None? then Some(map[]) else d.dedup,
       log := if d.log.None? then Some(DedupLogHeader) else d.log,
       topics := if d.topics.None? then Some("{}") else d.topics)
  }

  /** `load_id_registry` */
  function LoadRegistry(d: Disk): Registry {
    if d.registry.None? then DefaultRegistry else d.registry.value
  }

  /** `f"{prefix}{str(next_id).zfill(pad)}"` */
  function IdOf(r: Registry): string {
    r.prefix + Numerals.ZeroPad(r.nextId, r.pad)
  }

  /** The registry after `n` more allocations. */
  function Advance(r: Registry, n: nat): Registry {
    r.(nextId := r.nextId + n)
  }

  /** The disk after `allocate_id`: the registry is written back with the next number. */
  function Allocated(d: Disk): Disk {
    d.(registry := Some(Advance(LoadRegistry(d), 1)))
  }

  /** `load_dedup_index` */
  function LoadDedup(d: Disk): map<string, string> {
    if d.dedup.None? then map[] else d.dedup.value
  }

  /** One line of `_meta/dedup_log.md`. */
  function LogEntry(today: string, inboxFile: string, canonical: string, reason: string): string {
    "- " + today + ": " + inboxFile + " -> " + canonical + " (" + reason + ")\n"
  }

  /** The disk after `log_duplicate`: the file is opened for appending, so it is created when
      missing. */
  function Logged(d: Disk, entry: string): Disk {
    d.(log := Some((if d.log.None? then "" else d.log.value) + entry))
  }

  // ---------------------------------------------------------------------------
  // File names and the archive
  // ---------------------------------------------------------------------------

  /** `name.rfind(c)`: the last index of `c`, or -1. */
  function RFind(s: string, c: char): (r: int)
    ensures -1 <= r < |s|
    ensures r >= 0 ==> s[r] == c
    ensures forall j :: r < j < |s| ==> s[j] != c
    decreases |s|
  {
    if s == [] then -1 else if s[|s| - 1] == c then |s| - 1 else RFind(s[..|s| - 1], c)
  }

  /** `Path.suffix`: from the last dot, unless the dot is the first or the last character. */
  function Suffix(name: string): string {
    var i := RFind(name, '.');
    if 0 < i < |name| - 1 then name[i..] else ""
  }

  /** `Path.stem`: the name without its suffix. */
  function Stem(name: string): string {
    var i := RFind(name, '.');
    if 0 < i < |name| - 1 then name[..i] else name
  }

  /** `f"{stem}_{counter}{suffix}"` */
  function Candidate(name: string, k: nat): string {
    Stem(name) + "_" + Numerals.NatToString(k) + Suffix(name)
  }

  function Pow10(m: nat): (r: nat)
    ensures r >= 1
  {
    if m == 0 then 1 else 10 * Pow10(m - 1)
  }

  /** The length of the longest name in `names`. */
  ghost function MaxLength(names: set<string>): (r: nat)
    ensures forall x :: x in names ==> |x| <= r
    decreases names
  {
    if names == {} then 0
    else
      var x :| x in names;
      var rest := MaxLength(names - {x});
      if |x| > rest then |x| else rest
  }

  /** The first free candidate from `k` on. */
  function FreeCandidate(taken: set<string>, name: string, k: nat): (r: string)
    requires k >= 1
    decreases Pow10(MaxLength(taken)) - k
  {
    if Candidate(name, k) !in taken then Candidate(name, k)
    else
      LongCandidateFree(taken, name, k);
      FreeCandidate(taken, name, k + 1)
  }

  /** The name `move_to_processed` gives a file in a bucket holding `taken`. */
  function ArchiveName(taken: set<string>, name: string): string {
    if name !in taken then name else FreeCandidate(taken, name, 1)
  }

  function Bucket(d: Disk, month: string): map<string, string> {
    if month in d.archive then d.archive[month] else map[]
  }

  function ArchivePath(month: string, name: string): string {
    "inbox/processed/" + month + "/" + name
  }

  /** The entries of `es` not called `name`. */
  function Without(es: seq<Entry>, name: string): (r: seq<Entry>)
    ensures forall e :: e in r <==> e in es && e.name != name
    decreases |es|
  {
    if es == [] then []
    else (if es[0].name == name then [] else [es[0]]) + Without(es[1..], name)
  }

  /** The disk after `shutil.move` of an inbox file into the bucket of `month`. */
  function Archived(d: Disk, e: Entry, month: string): Disk {
    var b := Bucket(d, month);
    d.(archive := d.archive[month := b[ArchiveName(b.Keys, e.name) := e.content]],
       inbox := Without(d.inbox, e.name))
  }

  // ---------------------------------------------------------------------------
  // Pages, files and runs
  // ---------------------------------------------------------------------------

  /** The disk after `update_topic_readme` outside dry-run: an existing page is read with
      universal newlines before the link goes in. */
  function TopicUpdated(d: Disk, topic: string, slug: string, title: string, today: string): Disk {
    d.(pages := d.pages[topic :=
      if topic in d.pages then Article.UpdatedTopicPage(ReadText(d.pages[topic]), title, slug)
      else Article.NewTopicPage(topic, title, slug, today)])
  }

  /** `KB_ROOT / topic / slug / "README.md"` */
  function ArticlePath(topic: string, slug: string): string {
    "kb/ru/" + topic + "/" + slug + "/README.md"
  }

  /** `file_path.suffix.lower() == ".md"` */
  predicate IsMarkdown(name: string) {
    Lower(Suffix(name)) == ".md"
  }

  /** The report of `process_file` on a new body: the id is the registry's next one, and the
      path is under the topic and the cut slug of the title. */
  function NewInfo(id: string, e: Entry, text: string): ArticleInfo {
    var title := Article.ExtractTitle(text, e.name);
    var topic := Classifier.ClassifyTopic(text, title);
    ArticleInfo(id, title, topic, ArticlePath(topic, Slug.ArticleSlug(title)), e.name)
  }

  /** The disk after the article `content` is written at `info.path` and its digest indexed. */
  function Written(d: Disk, info: ArticleInfo, content: string, h: string): Disk {
    d.(articles := d.articles[info.path := content],
       dedup := Some(LoadDedup(d)[h := info.path]))
  }

  /** The disk after a new article is stored: written, indexed, listed on its topic page and
      its inbox file archived; nothing of that in a dry run. */
  function Stored(d: Disk, e: Entry, info: ArticleInfo, content: string, slug: string, h: string,
                  dryRun: bool, today: string, month: string): Disk
  {
    if dryRun then d
    else Archived(TopicUpdated(Written(d, info, content, h), info.topic, slug, info.title, today), e, month)
  }

  /** `process_file` on a body whose digest is already indexed. */
  function ProcessDuplicate(d: Disk, e: Entry, h: string, dryRun: bool, today: string, month: string): Disk
    requires h in LoadDedup(d)
  {
    var logged := Logged(d, LogEntry(today, e.name, LoadDedup(d)[h], "sha256=" + Take(h, 8) + "..."));
    if dryRun then logged else Archived(logged, e, month)
  }

  /** `process_file` on a new body. */
  function ProcessNew(d: Disk, e: Entry, text: string, h: string, dryRun: bool, today: string, month: string): Disk {
    var info := NewInfo(IdOf(LoadRegistry(d)), e, text);
    Stored(Allocated(d), e, info, Article.CreateArticle(text, info.title, info.topic, info.source, info.id, today),
           Slug.ArticleSlug(info.title), h, dryRun, today, month)
  }

  /** `process_file` once the body `text` of a Markdown file and its digest `h` are known. */
  function Handle(d: Disk, e: Entry, text: string, h: string, dryRun: bool, today: string, month: string)
    : (Option<ArticleInfo>, Disk)
  {
    if h in LoadDedup(d) then (None, ProcessDuplicate(d, e, h, dryRun, today, month))
    else (Some(NewInfo(IdOf(LoadRegistry(d)), e, text)), ProcessNew(d, e, text, h, dryRun, today, month))
  }

  /** `process_file`: what it reports and the disk it leaves. */
  function Process(d: Disk, e: Entry, dryRun: bool, today: string, month: string,
                   fingerprint: string -> string): (Option<ArticleInfo>, Disk)
  {
    if !IsMarkdown(e.name) then (None, d)
    else
      var text := Fingerprint.ExtractFromFile(e.content);
      Handle(d, e, text, fingerprint(text), dryRun, today, month)
  }

  /** `get_unprocessed_files`: the files of the inbox other than `README.md`. */
  function Unprocessed(es: seq<Entry>): (r: seq<Entry>)
    decreases |es|
  {
    if es == [] then []
    else (if es[0].isFile && es[0].name != "README.md" then [es[0]] else []) + Unprocessed(es[1..])
  }

  /** The files processed in order; the reports of created articles are collected. */
  function ProcessAll(d: Disk, files: seq<Entry>, dryRun: bool, today: string, month: string,
                      fingerprint: string -> string): (seq<ArticleInfo>, Disk)
    decreases |files|
  {
    if files == [] then ([], d)
    else
      var (r, d1) := Process(d, files[0], dryRun, today, month, fingerprint);
      var (rest, d2) := ProcessAll(d1, files[1..], dryRun, today, month, fingerprint);
      ((if r.Some? then [r.value] else []) + rest, d2)
  }

  /** `main`: the meta files are ensured even in dry-run, then the listed files are processed. */
  function RunAll(d: Disk, dryRun: bool, today: string, month: string, fingerprint: string -> string)
    : (seq<ArticleInfo>, Disk)
  {
    var d1 := EnsureMeta(d);
    ProcessAll(d1, Unprocessed(d1.inbox), dryRun, today, month, fingerprint)
  }

  /** One step of `ProcessAll` at position `i`. */
  lemma ProcessAllStep(d: Disk, files: seq<Entry>, i: nat, dryRun: bool, today: string, month: string,
                       fingerprint: string -> string)
    requires i < |files|
    ensures var p := Process(d, files[i], dryRun, today, month, fingerprint);
      var rest := ProcessAll(p.1, files[i + 1..], dryRun, today, month, fingerprint);
      ProcessAll(d, files[i..], dryRun, today, month, fingerprint)
        == ((if p.0.Some? then [p.0.value] else []) + rest.0, rest.1)
  {
    assert files[i..][0] == files[i] && files[i..][1..] == files[i + 1..];
  }

  lemma ConcatStep<T>(whole: seq<T>, done: seq<T>, mid: seq<T>, out: seq<T>, rest: seq<T>, done2: seq<T>)
    requires whole == done + mid && mid == out + rest && done2 == done + out
    ensures whole == done2 + rest
  {
  }

  /** The loop of `main` keeps its invariant across one processed file. */
  lemma RunStep(start: Disk, before: Disk, after: Disk, r: Option<ArticleInfo>,
                created0: seq<ArticleInfo>, created: seq<ArticleInfo>, files: seq<Entry>, i: nat,
                dryRun: bool, today: string, month: string, fingerprint: string -> string)
    requires i < |files|
    requires ProcessAll(start, files, dryRun, today, month, fingerprint).0 ==
      created0 + ProcessAll(before, files[i..], dryRun, today, month, fingerprint).0
    requires ProcessAll(start, files, dryRun, today, month, fingerprint).1 ==
      ProcessAll(before, files[i..], dryRun, today, month, fingerprint).1
    requires (r, after) == Process(before, files[i], dryRun, today, month, fingerprint)
    requires created == created0 + (if r.Some? then [r.value] else [])
    ensures ProcessAll(start, files, dryRun, today, month, fingerprint).0 ==
      created + ProcessAll(after, files[i + 1..], dryRun, today, month, fingerprint).0
    ensures ProcessAll(start, files, dryRun, today, month, fingerprint).1 ==
      ProcessAll(after, files[i + 1..], dryRun, today, month, fingerprint).1
  {
    ProcessAllStep(before, files, i, dryRun, today, month, fingerprint);
    var rest := ProcessAll(after, files[i + 1..], dryRun, today, month, fingerprint);
    var out := if r.Some? then [r.value] else [];
    var mid := ProcessAll(before, files[i..], dryRun, today, month, fingerprint);
    assert mid == (out + rest.0, rest.1);
    ConcatStep(ProcessAll(start, files, dryRun, today, month, fingerprint).0, created0, mid.0, out, rest.0, created);
  }

  /** At the end of the loop of `main` the reports are all collected. */
  lemma RunEnd(start: Disk, d: Disk, created: seq<ArticleInfo>, files: seq<Entry>,
               dryRun: bool, today: string, month: string, fingerprint: string -> string)
    requires ProcessAll(start, files, dryRun, today, month, fingerprint).0 ==
      created + ProcessAll(d, files[|files|..], dryRun, today, month, fingerprint).0
    requires ProcessAll(start, files, dryRun, today, month, fingerprint).1 ==
      ProcessAll(d, files[|files|..], dryRun, today, month, fingerprint).1
    ensures ProcessAll(start, files, dryRun, today, month, fingerprint) == (created, d)
  {
    assert files[|files|..] == [];
    assert created + [] == created;
  }

  // ---------------------------------------------------------------------------
  // The workspace
  // ---------------------------------------------------------------------------

  /** The renaming loop of `move_to_processed`: the original name when it is free,
      otherwise `stem_1`, `stem_2`, ... until one is free. */
  method FreeName(taken: set<string>, original: string) returns (name: string)
    ensures name == ArchiveName(taken, original)
    ensures name !in taken
  {
    name := original;
    var counter: nat := 1;
    while name in taken
      invariant counter >= 1
      invariant name == if counter == 1 then original else Candidate(original, counter - 1)
      invariant counter > 1 ==> original in taken && FreeCandidate(taken, original, counter - 1) == ArchiveName(taken, original)
      decreases Pow10(MaxLength(taken)) + 1 - counter
    {
      if counter > 1 {
        LongCandidateFree(taken, original, counter - 1);
      }
      name := Candidate(original, counter);
      counter := counter + 1;
    }
  }

  class Workspace {
    var registry: Option<Registry>
    var dedup: Option<map<string, string>>
    var log: Option<string>
    var topics: Option<string>
    var inbox: seq<Entry>
    var articles: map<string, string>
    var pages: map<string, string>
    var archive: map<string, map<string, string>>

    function State(): Disk
      reads this
    {
      Disk(registry, dedup, log, topics, inbox, articles, pages, archive)
    }

    constructor (d: Disk)
      ensures State() == d
    {
      registry := d.registry;
      dedup := d.dedup;
      log := d.log;
      topics := d.topics;
      inbox := d.inbox;
      articles := d.articles;
      pages := d.pages;
      archive := d.archive;
    }

    /** `ensure_meta_files` */
    method EnsureMetaFiles()
      modifies this
      ensures State() == EnsureMeta(old(State()))
    {
      if registry.None? {
        registry := Some(DefaultRegistry);
      }
      if dedup.None? {
        dedup := Some(map[]);
      }
      if log.None? {
        log := Some(DedupLogHeader);
      }
      if topics.None? {
        topics := Some("{}");
      }
    }

    /** `allocate_id`: read the registry, format the id, write back the next number. */
    method AllocateId() returns (id: string)
      modifies this
      ensures id == IdOf(LoadRegistry(old(State())))
      ensures State() == Allocated(old(State()))
    {
      var r := if registry.None? then DefaultRegistry else registry.value;
      id := r.prefix + Numerals.ZFill(Numerals.IntToString(r.nextId), r.pad);
      r := r.(nextId := r.nextId + 1);
      registry := Some(r);
    }

    /** `log_duplicate` */
    method LogDuplicate(inboxFile: string, canonical: string, reason: string, today: string)
      modifies this
      ensures State() == Logged(old(State()), LogEntry(today, inboxFile, canonical, reason))
    {
      var text := if log.None? then "" else log.value;
      log := Some(text + LogEntry(today, inboxFile, canonical, reason));
    }

    /** `move_to_processed`: outside dry-run the file goes to the first free name of the
        bucket, trying `stem_1`, `stem_2`, ... after the original name. */
    method MoveToProcessed(e: Entry, month: string, dryRun: bool) returns (target: string)
      modifies this
      ensures target == ArchivePath(month,
        if dryRun then e.name else ArchiveName(Bucket(old(State()), month).Keys, e.name))
      ensures State() == if dryRun then old(State()) else Archived(old(State()), e, month)
    {
      if dryRun {
        return ArchivePath(month, e.name);
      }
      ghost var d0 := State();
      var bucket := if month in archive then archive[month] else map[];
      assert bucket == Bucket(d0, month);
      var name := FreeName(bucket.Keys, e.name);
      archive := archive[month := bucket[name := e.content]];
      inbox := Without(inbox, e.name);
      target := ArchivePath(month, name);
    }

    /** `update_topic_readme`: create the topic page, or add the link to it. */
    method UpdateTopicReadme(topic: string, slug: string, title: string, today: string, dryRun: bool)
      modifies this
      ensures State() == if dryRun then old(State()) else TopicUpdated(old(State()), topic, slug, title, today)
    {
      if !dryRun {
        if topic !in pages {
          pages := pages[topic := Article.NewTopicPage(topic, title, slug, today)];
        } else {
          var content := ReadText(pages[topic]);
          pages := pages[topic := Article.UpdatedTopicPage(content, title, slug)];
        }
      }
    }

    /** `process_file` */
    method ProcessFile(e: Entry, dryRun: bool, today: string, month: string, fingerprint: string -> string)
      returns (r: Option<ArticleInfo>)
      modifies this
      ensures (r, State()) == Process(old(State()), e, dryRun, today, month, fingerprint)
    {
      if !IsMarkdown(e.name) {
        return None;
      }
      var text := Fingerprint.ExtractFromFile(e.content);
      var h := fingerprint(text);
      r := HandleText(e, text, h, dryRun, today, month);
    }

    /** The rest of `process_file`: the duplicate check on the digest, then either the log
        entry and the archiving, or the new article, its index entry and its topic page. */
    method HandleText(e: Entry, text: string, h: string, dryRun: bool, today: string, month: string)
      returns (r: Option<ArticleInfo>)
      modifies this
      ensures (r, State()) == Handle(old(State()), e, text, h, dryRun, today, month)
    {
      ghost var d0 := State();
      var index := if dedup.None? then map[] else dedup.value;
      if h in index {
        var canonical := index[h];
        LogDuplicate(e.name, canonical, "sha256=" + Take(h, 8) + "...", today);
        if !dryRun {
          var _ := MoveToProcessed(e, month, false);
        }
        assert State() == ProcessDuplicate(d0, e, h, dryRun, today, month);
        return None;
      }
      var id := AllocateId();
      var info, slug := DescribeArticle(id, e, text);
      var content := Article.CreateArticle(text, info.title, info.topic, info.source, info.id, today);
      Store(e, info, content, slug, h, dryRun, today, month);
      assert State() == ProcessNew(d0, e, text, h, dryRun, today, month);
      return Some(info);
    }

    /** The writing half of `process_file` for a new body. */
    method Store(e: Entry, info: ArticleInfo, content: string, slug: string, h: string,
                 dryRun: bool, today: string, month: string)
      modifies this
      ensures State() == Stored(old(State()), e, info, content, slug, h, dryRun, today, month)
    {
      if !dryRun {
        var index := if dedup.None? then map[] else dedup.value;
        articles := articles[info.path := content];
        dedup := Some(index[h := info.path]);
        UpdateTopicReadme(info.topic, slug, info.title, today, false);
        var _ := MoveToProcessed(e, month, false);
      }
    }

    /** `main`: ensure the meta files, list the inbox once, process each file and collect
        the reports. Returns the number of listed files and the created articles. */
    method Run(dryRun: bool, today: string, month: string, fingerprint: string -> string)
      returns (fileCount: nat, created: seq<ArticleInfo>)
      modifies this
      ensures fileCount == |Unprocessed(EnsureMeta(old(State())).inbox)|
      ensures (created, State()) == RunAll(old(State()), dryRun, today, month, fingerprint)
    {
      EnsureMetaFiles();
      var files := GetUnprocessedFiles(inbox);
      fileCount := |files|;
      created := [];
      ghost var start := State();
      assert files[0..] == files;
      assert ProcessAll(start, files[0..], dryRun, today, month, fingerprint).0
          == created + ProcessAll(start, files[0..], dryRun, today, month, fingerprint).0;
      for i := 0 to |files|
        invariant ProcessAll(start, files, dryRun, today, month, fingerprint).0 ==
          created + ProcessAll(State(), files[i..], dryRun, today, month, fingerprint).0
        invariant ProcessAll(start, files, dryRun, today, month, fingerprint).1 ==
          ProcessAll(State(), files[i..], dryRun, today, month, fingerprint).1
      {
        ghost var before := State();
        ghost var created0 := created;
        var r := ProcessFile(files[i], dryRun, today, month, fingerprint);
        if r.Some? {
          created := created + [r.value];
        }
        RunStep(start, before, State(), r, created0, created, files, i, dryRun, today, month, fingerprint);
      }
      RunEnd(start, State(), created, files, dryRun, today, month, fingerprint);
    }
  }

  /** The part of `process_file` that names a new article: its title, its topic and its path
      under the cut slug. */
  method DescribeArticle(id: string, e: Entry, text: string) returns (info: ArticleInfo, slug: string)
    ensures info == NewInfo(id, e, text)
    ensures slug == Slug.ArticleSlug(info.title)
  {
    var title := Article.ExtractTitle(text, e.name);
    var topic := Classifier.ClassifyTopic(text, title);
    var kebab := Slug.ToKebabCase(title);
    slug := Take(kebab, Slug.MaxSlugLength);
    info := ArticleInfo(id, title, topic, ArticlePath(topic, slug), e.name);
  }

  /** `get_unprocessed_files`: the loop over the listing. */
  method GetUnprocessedFiles(es: seq<Entry>) returns (files: seq<Entry>)
    ensures files == Unprocessed(es)
  {
    files := [];
    for i := 0 to |es|
      invariant files + Unprocessed(es[i..]) == Unprocessed(es)
    {
      assert es[i..][1..] == es[i + 1..];
      if es[i].isFile && es[i].name != "README.md" {
        files := files + [es[i]];
      }
    }
    assert es[|es|..] == [];
  }

  // ---------------------------------------------------------------------------
  // Properties
  // ---------------------------------------------------------------------------

  lemma {:induction false} NatToStringLength(k: nat, m: nat)
    requires k >= Pow10(m)
    ensures |Numerals.NatToString(k)| > m
    decreases m
  {
    if m > 0 {
      assert k / 10 >= Pow10(m - 1);
      NatToStringLength(k / 10, m - 1);
    }
  }

  /** A candidate longer than every taken name is free, so the search for a free name ends. */
  lemma LongCandidateFree(taken: set<string>, name: string, k: nat)
    requires Candidate(name, k) in taken
    ensures k < Pow10(MaxLength(taken))
  {
    if k >= Pow10(MaxLength(taken)) {
      NatToStringLength(k, MaxLength(taken));
    }
  }

  /** `stem + suffix` gives the name back. */
  lemma StemSuffix(name: string)
    ensures Stem(name) + Suffix(name) == name
  {
  }

  lemma {:induction false} FreeCandidateIsFirstFree(taken: set<string>, name: string, k: nat)
    requires k >= 1
    ensures FreeCandidate(taken, name, k) !in taken
    ensures exists n :: n >= k && FreeCandidate(taken, name, k) == Candidate(name, n) &&
                        (forall j :: k <= j < n ==> Candidate(name, j) in taken)
    decreases Pow10(MaxLength(taken)) - k
  {
    if Candidate(name, k) in taken {
      LongCandidateFree(taken, name, k);
      FreeCandidateIsFirstFree(taken, name, k + 1);
      var n :| n >= k + 1 && FreeCandidate(taken, name, k + 1) == Candidate(name, n) &&
        forall j :: k + 1 <= j < n ==> Candidate(name, j) in taken;
      assert forall j :: k <= j < n ==> Candidate(name, j) in taken;
    } else {
      assert FreeCandidate(taken, name, k) == Candidate(name, k);
    }
  }

  /** `move_to_processed` never picks a taken name: it keeps the name when it is free, and
      otherwise takes `stem_k` for the smallest `k` whose name is free. */
  lemma ArchiveNameIsFirstFree(taken: set<string>, name: string)
    ensures ArchiveName(taken, name) !in taken
    ensures name !in taken ==> ArchiveName(taken, name) == name
    ensures name in taken ==>
      exists k :: k >= 1 && ArchiveName(taken, name) == Candidate(name, k) &&
                  (forall j :: 1 <= j < k ==> Candidate(name, j) in taken)
  {
    if name in taken {
      FreeCandidateIsFirstFree(taken, name, 1);
    }
  }

  /** Archiving never overwrites a file of the bucket: the bucket gains one new name. */
  lemma ArchiveKeepsBucket(d: Disk, e: Entry, month: string)
    ensures var b := Bucket(d, month);
      var b2 := Bucket(Archived(d, e, month), month);
      var chosen := ArchiveName(b.Keys, e.name);
      chosen !in b && b2 == b[chosen := e.content] && b2.Keys == b.Keys + {chosen}
    ensures forall m :: m != month ==> Bucket(Archived(d, e, month), m) == Bucket(d, m)
    ensures forall x :: x in Archived(d, e, month).inbox <==> x in d.inbox && x.name != e.name
  {
    ArchiveNameIsFirstFree(Bucket(d, month).Keys, e.name);
  }

  /** The id is the prefix followed by the number, which can be read back. */
  lemma IdRoundTrip(r: Registry)
    ensures StartsWith(IdOf(r), r.prefix)
    ensures var digits := IdOf(r)[|r.prefix|..];
      Numerals.IsIntLiteral(digits) && Numerals.IntValue(digits) == r.nextId
  {
    Numerals.ZeroPadRoundTrip(r.nextId, r.pad);
    assert IdOf(r)[|r.prefix|..] == Numerals.ZeroPad(r.nextId, r.pad);
  }

  /** Different numbers under the same prefix and width give different ids. */
  lemma IdsDistinct(r: Registry, i: nat, j: nat)
    requires i != j
    ensures IdOf(Advance(r, i)) != IdOf(Advance(r, j))
  {
    var a := IdOf(Advance(r, i));
    var b := IdOf(Advance(r, j));
    if a == b {
      assert a[|r.prefix|..] == Numerals.ZeroPad(r.nextId + i, r.pad);
      assert b[|r.prefix|..] == Numerals.ZeroPad(r.nextId + j, r.pad);
      Numerals.ZeroPadInjective(r.nextId + i, r.nextId + j, r.pad);
    }
  }

  /** `get_unprocessed_files` keeps exactly the files other than `README.md`, in order. */
  lemma {:induction false} UnprocessedKeeps(es: seq<Entry>)
    ensures forall e :: e in Unprocessed(es) <==> e in es && e.isFile && e.name != "README.md"
    decreases |es|
  {
    if es != [] {
      UnprocessedKeeps(es[1..]);
      assert es == [es[0]] + es[1..];
    }
  }

  /** A file without the `.md` suffix (in any case) is skipped: nothing changes and no id is
      used. */
  lemma SkipLeavesDisk(d: Disk, e: Entry, dryRun: bool, today: string, month: string, fingerprint: string -> string)
    requires !IsMarkdown(e.name)
    ensures Process(d, e, dryRun, today, month, fingerprint) == (None, d)
  {
  }

  /** A body already indexed is logged and archived (archived only outside dry-run); no id is
      allocated and no article or page is written. */
  lemma DuplicateUsesNoId(d: Disk, e: Entry, dryRun: bool, today: string, month: string,
                          fingerprint: string -> string)
    requires IsMarkdown(e.name)
    requires fingerprint(Fingerprint.ExtractFromFile(e.content)) in LoadDedup(d)
    ensures var (r, d2) := Process(d, e, dryRun, today, month, fingerprint);
      var h := fingerprint(Fingerprint.ExtractFromFile(e.content));
      var logged := Logged(d, LogEntry(today, e.name, LoadDedup(d)[h], "sha256=" + Take(h, 8) + "..."));
      r.None? && d2.registry == d.registry && d2.dedup == d.dedup && d2.articles == d.articles &&
      d2.pages == d.pages && d2.log == logged.log &&
      d2 == (if dryRun then logged else Archived(logged, e, month))
  {
  }

  /** In dry-run, a new body still uses up an id and a duplicate is still logged: the
      registry and the log are the only files that change. */
  lemma DryRunTouchesRegistryAndLog(d: Disk, e: Entry, today: string, month: string, fingerprint: string -> string)
    ensures var d2 := Process(d, e, true, today, month, fingerprint).1;
      d2 == d.(registry := d2.registry, log := d2.log)
    ensures var (r, d2) := Process(d, e, true, today, month, fingerprint);
      r.Some? ==> d2.registry == Some(Advance(LoadRegistry(d), 1)) && r.value.id == IdOf(LoadRegistry(d))
  {
  }

  /** The topic has no page yet, or its page, as read, has a `## Статьи` line ending in a
      newline, or no such heading at all: a link added to it shows up. */
  predicate PageTakesLinks(d: Disk, topic: string) {
    topic in d.pages ==>
      var page := ReadText(d.pages[topic]);
      Contains(page, Article.SectionLine) || !Contains(page, Article.SectionTitle)
  }

  /** Storing a new article outside dry-run: the index gains exactly its digest, pointing to
      the article, which is written there, and its topic page links to it; the registry and
      the log are left alone. */
  lemma StoredIndexesArticle(d: Disk, e: Entry, info: ArticleInfo, content: string, slug: string, h: string,
                             today: string, month: string)
    requires PageTakesLinks(d, info.topic)
    ensures var d2 := Stored(d, e, info, content, slug, h, false, today, month);
      d2.dedup == Some(LoadDedup(d)[h := info.path]) &&
      info.path in d2.articles && d2.articles[info.path] == content && info.topic in d2.pages &&
      Contains(d2.pages[info.topic], Article.LinkLine(info.title, slug)) &&
      d2.registry == d.registry && d2.log == d.log
  {
    if info.topic in d.pages {
      Article.UpdatedPageListsArticle(ReadText(d.pages[info.topic]), info.title, slug);
    } else {
      Article.NewPageListsArticle(info.topic, info.title, slug, today);
    }
  }

  /** A new body outside dry-run: the report names the new id and the article's path under
      the cut slug of its title, the index gains exactly its digest, the article is written
      there and its topic page links to it. */
  lemma NewArticleIndexed(d: Disk, e: Entry, text: string, h: string, today: string, month: string)
    requires h !in LoadDedup(d)
    requires PageTakesLinks(d, NewInfo(IdOf(LoadRegistry(d)), e, text).topic)
    ensures var p := Handle(d, e, text, h, false, today, month);
      p.0.Some? && p.0.value.id == IdOf(LoadRegistry(d)) &&
      p.0.value.path == ArticlePath(p.0.value.topic, Slug.ArticleSlug(p.0.value.title)) &&
      p.1.dedup == Some(LoadDedup(d)[h := p.0.value.path]) &&
      p.0.value.path in p.1.articles && p.0.value.topic in p.1.pages &&
      Contains(p.1.pages[p.0.value.topic], Article.LinkLine(p.0.value.title, Slug.ArticleSlug(p.0.value.title))) &&
      p.1.registry == Some(Advance(LoadRegistry(d), 1)) && p.1.log == d.log
  {
    var info := NewInfo(IdOf(LoadRegistry(d)), e, text);
    var content := Article.CreateArticle(text, info.title, info.topic, info.source, info.id, today);
    StoredIndexesArticle(Allocated(d), e, info, content, Slug.ArticleSlug(info.title), h, today, month);
  }

  /** Every digest in the index points to an article that exists. */
  predicate IndexSound(d: Disk) {
    forall h :: h in LoadDedup(d) ==> LoadDedup(d)[h] in d.articles
  }

  /** How `process_file` changes the registry: one number per created article. */
  lemma ProcessRegistry(d: Disk, e: Entry, dryRun: bool, today: string, month: string, fingerprint: string -> string)
    ensures var p := Process(d, e, dryRun, today, month, fingerprint);
      (p.0.Some? ==> p.0.value.id == IdOf(LoadRegistry(d)) && LoadRegistry(p.1) == Advance(LoadRegistry(d), 1)) &&
      (p.0.None? ==> LoadRegistry(p.1) == LoadRegistry(d))
  {
  }

  lemma ProcessKeepsIndexSound(d: Disk, e: Entry, dryRun: bool, today: string, month: string,
                               fingerprint: string -> string)
    requires IndexSound(d)
    ensures IndexSound(Process(d, e, dryRun, today, month, fingerprint).1)
  {
  }

  /** The id bookkeeping of `ProcessAll` across one file followed by the rest. */
  lemma IdsCons(reg0: Registry, r: Option<ArticleInfo>, reg1: Registry, rest: seq<ArticleInfo>, reg2: Registry)
    requires r.Some? ==> r.value.id == IdOf(reg0) && reg1 == Advance(reg0, 1)
    requires r.None? ==> reg1 == reg0
    requires reg2 == Advance(reg1, |rest|)
    requires forall i :: 0 <= i < |rest| ==> rest[i].id == IdOf(Advance(reg1, i))
    ensures var all := (if r.Some? then [r.value] else []) + rest;
      reg2 == Advance(reg0, |all|) && forall i :: 0 <= i < |all| ==> all[i].id == IdOf(Advance(reg0, i))
  {
    var all := (if r.Some? then [r.value] else []) + rest;
    if r.Some? {
      forall i | 0 <= i < |all|
        ensures all[i].id == IdOf(Advance(reg0, i))
      {
        if i > 0 {
          assert all[i] == rest[i - 1];
          assert Advance(reg1, i - 1) == Advance(reg0, i);
        }
      }
    } else {
      assert all == rest;
    }
  }

  /** The reports of a run carry consecutive ids from the registry's number, and the registry
      ends up advanced by the number of created articles, dry-run or not. */
  lemma {:induction false} ProcessAllIds(d: Disk, files: seq<Entry>, dryRun: bool, today: string, month: string,
                                         fingerprint: string -> string)
    ensures var run := ProcessAll(d, files, dryRun, today, month, fingerprint);
      LoadRegistry(run.1) == Advance(LoadRegistry(d), |run.0|) &&
      forall i :: 0 <= i < |run.0| ==> run.0[i].id == IdOf(Advance(LoadRegistry(d), i))
    decreases |files|
  {
    if files != [] {
      ProcessRegistry(d, files[0], dryRun, today, month, fingerprint);
      var p := Process(d, files[0], dryRun, today, month, fingerprint);
      ProcessAllIds(p.1, files[1..], dryRun, today, month, fingerprint);
      var q := ProcessAll(p.1, files[1..], dryRun, today, month, fingerprint);
      IdsCons(LoadRegistry(d), p.0, LoadRegistry(p.1), q.0, LoadRegistry(q.1));
      assert ProcessAll(d, files, dryRun, today, month, fingerprint) == ((if p.0.Some? then [p.0.value] else []) + q.0, q.1);
    }
  }

  /** The articles created by one run have pairwise distinct ids. */
  lemma RunIdsDistinct(d: Disk, dryRun: bool, today: string, month: string, fingerprint: string -> string)
    ensures var created := RunAll(d, dryRun, today, month, fingerprint).0;
      forall i, j :: 0 <= i < j < |created| ==> created[i].id != created[j].id
  {
    var d1 := EnsureMeta(d);
    ProcessAllIds(d1, Unprocessed(d1.inbox), dryRun, today, month, fingerprint);
    forall i, j | 0 <= i < j < |RunAll(d, dryRun, today, month, fingerprint).0| {
      IdsDistinct(LoadRegistry(d1), i, j);
    }
  }

  /** A run keeps every indexed digest pointing to an existing article. */
  lemma {:induction false} ProcessAllKeepsIndexSound(d: Disk, files: seq<Entry>, dryRun: bool, today: string,
                                                     month: string, fingerprint: string -> string)
    requires IndexSound(d)
    ensures IndexSound(ProcessAll(d, files, dryRun, today, month, fingerprint).1)
    decreases |files|
  {
    if files != [] {
      ProcessKeepsIndexSound(d, files[0], dryRun, today, month, fingerprint);
      ProcessAllKeepsIndexSound(Process(d, files[0], dryRun, today, month, fingerprint).1, files[1..],
                                dryRun, today, month, fingerprint);
    }
  }

  /** A page saved with Windows line ends takes a link exactly when the same page with `\n`
      line ends does. */
  lemma CrlfPageTakesLinks(d: Disk, topic: string, page: string)
    requires '\r' !in page
    ensures PageTakesLinks(d.(pages := d.pages[topic := Crlf(page)]), topic) <==>
            PageTakesLinks(d.(pages := d.pages[topic := page]), topic)
  {
    ReadTextCrlf(page);
    ReadTextPlain(page);
  }

  /** What storing a new body outside dry-run does to the files the dedup check reads. */
  lemma NewBodyHandled(d: Disk, e: Entry, text: string, h: string, today: string, month: string)
    requires h !in LoadDedup(d)
    ensures var p := Handle(d, e, text, h, false, today, month);
      var b := Bucket(d, month);
      p.0 == Some(NewInfo(IdOf(LoadRegistry(d)), e, text)) &&
      p.1.registry == Some(Advance(LoadRegistry(d), 1)) &&
      p.1.dedup == Some(LoadDedup(d)[h := p.0.value.path]) &&
      p.1.articles.Keys == d.articles.Keys + {p.0.value.path} && p.1.log == d.log &&
      Bucket(p.1, month) == b[ArchiveName(b.Keys, e.name) := e.content] &&
      (forall x :: x in p.1.inbox <==> x in d.inbox && x.name != e.name)
  {
    var info := NewInfo(IdOf(LoadRegistry(d)), e, text);
    var content := Article.CreateArticle(text, info.title, info.topic, info.source, info.id, today);
    StoredFiles(Allocated(d), e, info, content, Slug.ArticleSlug(info.title), h, today, month);
  }

  /** Storing outside dry-run, seen from the files the dedup check reads. */
  lemma StoredFiles(d: Disk, e: Entry, info: ArticleInfo, content: string, slug: string, h: string,
                    today: string, month: string)
    ensures var d2 := Stored(d, e, info, content, slug, h, false, today, month);
      var b := Bucket(d, month);
      d2.registry == d.registry && d2.dedup == Some(LoadDedup(d)[h := info.path]) &&
      d2.articles.Keys == d.articles.Keys + {info.path} && d2.log == d.log &&
      Bucket(d2, month) == b[ArchiveName(b.Keys, e.name) := e.content] &&
      (forall x :: x in d2.inbox <==> x in d.inbox && x.name != e.name)
  {
    var w := TopicUpdated(Written(d, info, content, h), info.topic, slug, info.title, today);
    assert Bucket(w, month) == Bucket(d, month) && w.inbox == d.inbox;
    ArchiveKeepsBucket(w, e, month);
  }

  /** A new Markdown body outside dry-run, as `NewBodyHandled` states it. */
  lemma NewBodyStored(d: Disk, e: Entry, today: string, month: string, fingerprint: string -> string)
      returns (text: string, h: string)
    requires IsMarkdown(e.name)
    requires fingerprint(Fingerprint.ExtractFromFile(e.content)) !in LoadDedup(d)
    ensures text == Fingerprint.ExtractFromFile(e.content) && h == fingerprint(text)
    ensures Process(d, e, false, today, month, fingerprint) == Handle(d, e, text, h, false, today, month)
  {
    text := Fingerprint.ExtractFromFile(e.content);
    h := fingerprint(text);
  }

  /** What a Markdown duplicate outside dry-run does: one log line, the file archived, nothing
      else. */
  lemma DuplicateArchived(d: Disk, e: Entry, today: string, month: string, fingerprint: string -> string)
    requires IsMarkdown(e.name)
    requires fingerprint(Fingerprint.ExtractFromFile(e.content)) in LoadDedup(d)
    ensures var p := Process(d, e, false, today, month, fingerprint);
      var h := fingerprint(Fingerprint.ExtractFromFile(e.content));
      var b := Bucket(d, month);
      p.0.None? && p.1.registry == d.registry && p.1.dedup == d.dedup && p.1.articles == d.articles &&
      p.1.log == Some((if d.log.None? then "" else d.log.value) +
                      LogEntry(today, e.name, LoadDedup(d)[h], "sha256=" + Take(h, 8) + "...")) &&
      Bucket(p.1, month) == b[ArchiveName(b.Keys, e.name) := e.content] &&
      (forall x :: x in p.1.inbox <==> x in d.inbox && x.name != e.name)
  {
    var h := fingerprint(Fingerprint.ExtractFromFile(e.content));
    var logged := Logged(d, LogEntry(today, e.name, LoadDedup(d)[h], "sha256=" + Take(h, 8) + "..."));
    assert Bucket(logged, month) == Bucket(d, month) && logged.inbox == d.inbox;
    ArchiveKeepsBucket(logged, e, month);
  }

  /** `ProcessAll` over two files. */
  lemma ProcessTwo(d: Disk, e1: Entry, e2: Entry, dryRun: bool, today: string, month: string,
                   fingerprint: string -> string)
    ensures var p1 := Process(d, e1, dryRun, today, month, fingerprint);
      var p2 := Process(p1.1, e2, dryRun, today, month, fingerprint);
      ProcessAll(d, [e1, e2], dryRun, today, month, fingerprint) ==
        ((if p1.0.Some? then [p1.0.value] else []) + (if p2.0.Some? then [p2.0.value] else []), p2.1)
  {
    var p1 := Process(d, e1, dryRun, today, month, fingerprint);
    var p2 := Process(p1.1, e2, dryRun, today, month, fingerprint);
    assert [e1, e2][0] == e1 && [e1, e2][1..] == [e2] && [e2][0] == e2 && [e2][1..] == [];
    var o2 := if p2.0.Some? then [p2.0.value] else [];
    assert ProcessAll(p1.1, [e2], dryRun, today, month, fingerprint) == (o2 + [], p2.1);
    assert o2 + [] == o2;
  }

  /** The dedup promise: two Markdown files with the same text, processed one after the other
      outside dry-run, give one article with one id; the second is logged once as a duplicate
      of the first, and both leave the inbox for two distinct names of the month's bucket. */
  lemma SameContentTwiceOneArticle(d: Disk, e1: Entry, e2: Entry, today: string, month: string,
                                   fingerprint: string -> string)
    requires IsMarkdown(e1.name) && IsMarkdown(e2.name)
    requires Fingerprint.ExtractFromFile(e1.content) == Fingerprint.ExtractFromFile(e2.content)
    requires fingerprint(Fingerprint.ExtractFromFile(e1.content)) !in LoadDedup(d)
    ensures var run := ProcessAll(d, [e1, e2], false, today, month, fingerprint);
      var h := fingerprint(Fingerprint.ExtractFromFile(e1.content));
      |run.0| == 1 && run.0[0].id == IdOf(LoadRegistry(d)) && run.0[0].source == e1.name &&
      LoadRegistry(run.1) == Advance(LoadRegistry(d), 1) &&
      run.1.dedup == Some(LoadDedup(d)[h := run.0[0].path]) &&
      run.1.articles.Keys == d.articles.Keys + {run.0[0].path} &&
      run.1.log == Some((if d.log.None? then "" else d.log.value) +
                        LogEntry(today, e2.name, run.0[0].path, "sha256=" + Take(h, 8) + "...")) &&
      (forall x :: x in run.1.inbox <==> x in d.inbox && x.name != e1.name && x.name != e2.name)
    ensures var run := ProcessAll(d, [e1, e2], false, today, month, fingerprint);
      var b := Bucket(d, month);
      var n1 := ArchiveName(b.Keys, e1.name);
      var n2 := ArchiveName(b.Keys + {n1}, e2.name);
      n1 !in b && n2 !in b && n1 != n2 && Bucket(run.1, month) == b[n1 := e1.content][n2 := e2.content]
  {
    var text, h := NewBodyStored(d, e1, today, month, fingerprint);
    NewBodyHandled(d, e1, text, h, today, month);
    var p1 := Process(d, e1, false, today, month, fingerprint);
    var p2 := Process(p1.1, e2, false, today, month, fingerprint);
    DuplicateArchived(p1.1, e2, today, month, fingerprint);
    ProcessTwo(d, e1, e2, false, today, month, fingerprint);
    TwoCopies(d, p1.1, p2.1, p1.0.value, e1, e2, h, today, month);
  }

  /** The disks of `SameContentTwiceOneArticle`: `d1` after the first copy, `d2` after the
      second. */
  lemma TwoCopies(d: Disk, d1: Disk, d2: Disk, info: ArticleInfo, e1: Entry, e2: Entry, h: string,
                  today: string, month: string)
    requires d1.registry == Some(Advance(LoadRegistry(d), 1))
    requires d1.dedup == Some(LoadDedup(d)[h := info.path])
    requires d1.articles.Keys == d.articles.Keys + {info.path} && d1.log == d.log
    requires Bucket(d1, month) == Bucket(d, month)[ArchiveName(Bucket(d, month).Keys, e1.name) := e1.content]
    requires forall x :: x in d1.inbox <==> x in d.inbox && x.name != e1.name
    requires d2.registry == d1.registry && d2.dedup == d1.dedup && d2.articles == d1.articles
    requires d2.log == Some((if d1.log.None? then "" else d1.log.value) +
                            LogEntry(today, e2.name, LoadDedup(d1)[h], "sha256=" + Take(h, 8) + "..."))
    requires Bucket(d2, month) == Bucket(d1, month)[ArchiveName(Bucket(d1, month).Keys, e2.name) := e2.content]
    requires forall x :: x in d2.inbox <==> x in d1.inbox && x.name != e2.name
    ensures LoadRegistry(d2) == Advance(LoadRegistry(d), 1)
    ensures d2.dedup == Some(LoadDedup(d)[h := info.path])
    ensures d2.articles.Keys == d.articles.Keys + {info.path}
    ensures d2.log == Some((if d.log.None? then "" else d.log.value) +
                           LogEntry(today, e2.name, info.path, "sha256=" + Take(h, 8) + "..."))
    ensures forall x :: x in d2.inbox <==> x in d.inbox && x.name != e1.name && x.name != e2.name
    ensures var b := Bucket(d, month);
      var n1 := ArchiveName(b.Keys, e1.name);
      var n2 := ArchiveName(b.Keys + {n1}, e2.name);
      n1 !in b && n2 !in b && n1 != n2 && Bucket(d2, month) == b[n1 := e1.content][n2 := e2.content]
  {
    var b := Bucket(d, month);
    var n1 := ArchiveName(b.Keys, e1.name);
    ArchiveNameIsFirstFree(b.Keys, e1.name);
    assert Bucket(d1, month).Keys == b.Keys + {n1};
    ArchiveNameIsFirstFree(b.Keys + {n1}, e2.name);
  }
}
