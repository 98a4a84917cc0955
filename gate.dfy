/** scripts/kb_quality_gate.py: the front-matter parser, the folder-name check and the article
    check, which stops at the first failure and shares one id map across all articles. */
module QualityGate {
  import opened Text
  import opened Results
  import Slug

  const AllowedStatus: set<string> := {"draft", "verified", "deprecated"}

  const RequiredKeys: seq<string> := ["id", "title", "topic", "tags", "status", "source", "created", "updated"]

  /** The closing `---` is looked for on lines 1 to 199. */
  const ScanLimit: nat := 200

  const TbdMarker: string := "[[TBD]]"

  /** Why the gate stops. Paths are the file's path parts. */
  datatype GateError =
    | SpaceInPath(path: seq<string>)
    | NonAsciiFolder(path: seq<string>, segment: string)
    | MissingFrontMatter(path: seq<string>)
    | MissingKeys(path: seq<string>, keys: seq<string>)
    | InvalidStatus(path: seq<string>, status: string)
    | EmptyId(path: seq<string>)
    | DuplicateId(path: seq<string>, id: string, other: seq<string>)
    | TopicNotKebab(path: seq<string>, topic: string)
    | VerifiedWithTbd(path: seq<string>)

  // ---------------------------------------------------------------------------
  // The patterns
  // ---------------------------------------------------------------------------

  /** `YAML_START.match(line)` on a line of `splitlines()`: `---` and then only white space. */
  predicate IsYamlStart(line: string) {
    StartsWith(line, "---") && SpaceEnd(line, 3) == |line|
  }

  predicate IsKeyChar(c: char) {
    ('A' <= c <= 'Z') || ('a' <= c <= 'z') || ('0' <= c <= '9') || c == '_'
  }

  /** The length of the run of key characters at the start of `s`. */
  function KeyLength(s: string): (n: nat)
    ensures n <= |s| && (n == |s| || !IsKeyChar(s[n]))
    ensures forall i :: 0 <= i < n ==> IsKeyChar(s[i])
    decreases |s|
  {
    if s != [] && IsKeyChar(s[0]) then 1 + KeyLength(s[1..]) else 0
  }

  /** `YAML_KV.match(line)` on a line without line breaks, as the pair of the key and the
      stripped value. The key run cannot give back characters to `\s*:`, so it is maximal. */
  function KeyValue(line: string): Option<(string, string)> {
    var k := KeyLength(line);
    var colon := SpaceEnd(line, k);
    if k > 0 && colon < |line| && line[colon] == ':' then Some((line[..k], Strip(line[colon + 1..])))
    else None
  }

  /** The body `[a-z0-9]+(?:-[a-z0-9]+)*` of `ASCII_KEBAB` over the whole of `s`: a piece of
      `[a-z0-9]+`, then optionally a hyphen and more of the same. */
  predicate IsAsciiKebab(s: string)
    decreases |s|
  {
    var i := IndexOf(s, '-');
    IsAlnumPiece(s[..i]) && (i == |s| || IsAsciiKebab(s[i + 1..]))
  }

  /** `ASCII_KEBAB.match(s)`: `$` also matches just before a final `\n`, so one trailing
      newline is accepted. */
  predicate MatchesAsciiKebab(s: string) {
    IsAsciiKebab(s) || (|s| > 0 && s[|s| - 1] == '\n' && IsAsciiKebab(s[..|s| - 1]))
  }

  predicate IsAlnumPiece(p: string) {
    p != [] && forall i :: 0 <= i < |p| ==> ('a' <= p[i] <= 'z') || ('0' <= p[i] <= '9')
  }

  // ---------------------------------------------------------------------------
  // parse_front_matter
  // ---------------------------------------------------------------------------

  /** The fields read from `lines` by `kv`, one line after the other: a later key replaces an
      earlier one. */
  function FoldWith(kv: string -> Option<(string, string)>, lines: seq<string>): map<string, string>
    decreases |lines|
  {
    if lines == [] then map[]
    else
      var m := FoldWith(kv, lines[..|lines| - 1]);
      match kv(lines[|lines| - 1])
        case None => m
        case Some(pair) => m[pair.0 := pair.1]
  }

  /** The dict that the loop of `parse_front_matter` fills. */
  function FoldFields(lines: seq<string>): map<string, string> {
    FoldWith(KeyValue, lines)
  }

  /** The index of the closing `---` line among lines 1 to 199, if any. */
  function ClosingLine(lines: seq<string>, from: nat): (r: Option<nat>)
    requires 1 <= from
    ensures r.Some? ==> from <= r.value < |lines| && r.value < ScanLimit && IsYamlStart(lines[r.value])
    ensures r.Some? ==> forall j :: from <= j < r.value ==> !IsYamlStart(lines[j])
    ensures r.None? ==> forall j :: from <= j < |lines| && j < ScanLimit ==> !IsYamlStart(lines[j])
    decreases |lines| - from
  {
    if from >= |lines| || from >= ScanLimit then None
    else if IsYamlStart(lines[from]) then Some(from)
    else ClosingLine(lines, from + 1)
  }

  datatype Parsed = Parsed(fields: map<string, string>, body: string)

  /** `parse_front_matter(text)` */
  function FrontMatterOf(text: string): Parsed {
    var lines := SplitLines(text);
    if lines == [] || !IsYamlStart(lines[0]) then Parsed(map[], text)
    else match ClosingLine(lines, 1)
      case None => Parsed(map[], text)
      case Some(end) =>
        Parsed(FoldFields(lines[1..end]), LStripChar(Join(lines[end + 1..], "\n"), '\n'))
  }

  /** `parse_front_matter`: find the closing line, then fill the dict line by line. */
  method ParseFrontMatter(text: string) returns (fm: map<string, string>, body: string)
    ensures Parsed(fm, body) == FrontMatterOf(text)
  {
    var lines := SplitLines(text);
    if lines == [] || !IsYamlStart(lines[0]) {
      return map[], text;
    }
    var end := 1;
    while end < |lines| && end < ScanLimit && !IsYamlStart(lines[end])
      invariant 1 <= end
      invariant ClosingLine(lines, 1) == ClosingLine(lines, end)
      decreases |lines| - end
    {
      end := end + 1;
    }
    if end >= |lines| || end >= ScanLimit {
      return map[], text;
    }
    var fmLines := lines[1..end];
    body := LStripChar(Join(lines[end + 1..], "\n"), '\n');
    fm := map[];
    for j := 0 to |fmLines|
      invariant fm == FoldFields(fmLines[..j])
    {
      assert fmLines[..j + 1][..j] == fmLines[..j];
      match KeyValue(fmLines[j]) {
        case None =>
        case Some(kv) => fm := fm[kv.0 := kv.1];
      }
    }
    assert fmLines[..|fmLines|] == fmLines;
  }

  // ---------------------------------------------------------------------------
  // validate_paths
  // ---------------------------------------------------------------------------

  /** Index of the first `x` in `parts`, or `|parts|`. */
  function IndexOfPart(parts: seq<string>, x: string): (i: nat)
    ensures i <= |parts| && (i < |parts| ==> parts[i] == x)
    ensures forall j :: 0 <= j < i ==> parts[j] != x
    decreases |parts|
  {
    if parts == [] then 0 else if parts[0] == x then 0 else 1 + IndexOfPart(parts[1..], x)
  }

  predicate AllAscii(s: string) {
    forall i :: 0 <= i < |s| ==> IsAscii(s[i])
  }

  /** The folders the gate looks at: those strictly between `kb` and the file name of a
      `README.md`. */
  function CheckedSegments(path: seq<string>): seq<string> {
    if |path| == 0 || path[|path| - 1] != "README.md" then []
    else
      var kb := IndexOfPart(path, "kb");
      if kb == |path| then [] else path[kb + 1..|path| - 1]
  }

  /** The first offending folder of one path: a space is reported before non-ASCII. */
  function SegmentsError(path: seq<string>, segments: seq<string>): Option<GateError>
    decreases |segments|
  {
    if segments == [] then None
    else if ' ' in segments[0] then Some(SpaceInPath(path))
    else if !AllAscii(segments[0]) then Some(NonAsciiFolder(path, segments[0]))
    else SegmentsError(path, segments[1..])
  }

  function PathError(path: seq<string>): Option<GateError> {
    SegmentsError(path, CheckedSegments(path))
  }

  /** The verdict of `validate_paths` over all files: the first error, in file order. */
  function PathsVerdict(files: seq<seq<string>>): Result<(), GateError>
    decreases |files|
  {
    if files == [] then Ok(())
    else match PathError(files[0])
      case Some(e) => Err(e)
      case None => PathsVerdict(files[1..])
  }

  /** `validate_paths(files)` */
  method ValidatePaths(files: seq<seq<string>>) returns (r: Result<(), GateError>)
    ensures r == PathsVerdict(files)
  {
    for f := 0 to |files|
      invariant PathsVerdict(files) == PathsVerdict(files[f..])
    {
      assert files[f..][1..] == files[f + 1..];
      var path := files[f];
      var segments := CheckedSegments(path);
      for s := 0 to |segments|
        invariant SegmentsError(path, segments) == SegmentsError(path, segments[s..])
      {
        assert segments[s..][1..] == segments[s + 1..];
        if ' ' in segments[s] {
          return Err(SpaceInPath(path));
        }
        if !AllAscii(segments[s]) {
          return Err(NonAsciiFolder(path, segments[s]));
        }
      }
    }
    return Ok(());
  }

  // ---------------------------------------------------------------------------
  // validate_article_front_matter
  // ---------------------------------------------------------------------------

  /** `[key for key in REQUIRED_KEYS if key not in fm]` */
  function MissingKeysOf(keys: seq<string>, fm: map<string, string>): (r: seq<string>)
    ensures forall k :: k in r <==> k in keys && k !in fm
    decreases |keys|
  {
    if keys == [] then []
    else (if keys[0] in fm then [] else [keys[0]]) + MissingKeysOf(keys[1..], fm)
  }

  /** `value.strip().strip('"').strip("'")` */
  function Unquote(value: string): string {
    StripChar(StripChar(Strip(value), '"'), '\'')
  }

  /** `validate_article_front_matter` on the parsed front matter of `text`: the new id map, or
      the first failure. */
  function CheckFields(path: seq<string>, parsed: Parsed, text: string, ids: map<string, seq<string>>)
    : Result<map<string, seq<string>>, GateError>
  {
    var fm := parsed.fields;
    var missing := MissingKeysOf(RequiredKeys, fm);
    if fm == map[] then Err(MissingFrontMatter(path))
    else if missing != [] then Err(MissingKeys(path, missing))
    else
      assert "status" in RequiredKeys && "id" in RequiredKeys && "topic" in RequiredKeys;
      CheckValues(path, Strip(fm["status"]), Unquote(fm["id"]), Unquote(fm["topic"]), parsed.body, text, ids)
  }

  /** The checks of `validate_article_front_matter` once every required key is present. */
  function CheckValues(path: seq<string>, status: string, id: string, topic: string, body: string, text: string,
                       ids: map<string, seq<string>>): Result<map<string, seq<string>>, GateError>
  {
    if status !in AllowedStatus then Err(InvalidStatus(path, status))
    else if id == [] then Err(EmptyId(path))
    else if id in ids && ids[id] != path then Err(DuplicateId(path, id, ids[id]))
    else if topic != [] && topic != TbdMarker && !MatchesAsciiKebab(topic) then Err(TopicNotKebab(path, topic))
    else if status == "verified" && (Contains(body, TbdMarker) || Contains(text, TbdMarker)) then
      Err(VerifiedWithTbd(path))
    else Ok(ids[id := path])
  }

  /** `validate_article_front_matter(path, ids)` */
  function CheckArticle(path: seq<string>, text: string, ids: map<string, seq<string>>)
    : Result<map<string, seq<string>>, GateError>
  {
    CheckFields(path, FrontMatterOf(text), text, ids)
  }

  /** The articles checked in order with one shared id map. */
  function ArticlesVerdict(files: seq<(seq<string>, string)>, ids: map<string, seq<string>>)
    : Result<map<string, seq<string>>, GateError>
    decreases |files|
  {
    if files == [] then Ok(ids)
    else match CheckArticle(files[0].0, files[0].1, ids)
      case Err(e) => Err(e)
      case Ok(next) => ArticlesVerdict(files[1..], next)
  }

  /** The loop of `main` over all `README.md` files, after the path check. */
  method ValidateArticles(files: seq<(seq<string>, string)>) returns (r: Result<map<string, seq<string>>, GateError>)
    ensures r == ArticlesVerdict(files, map[])
  {
    var ids: map<string, seq<string>> := map[];
    for f := 0 to |files|
      invariant ArticlesVerdict(files, map[]) == ArticlesVerdict(files[f..], ids)
    {
      assert files[f..][1..] == files[f + 1..];
      var checked := CheckArticle(files[f].0, files[f].1, ids);
      if checked.Err? {
        return Err(checked.error);
      }
      ids := checked.value;
    }
    return Ok(ids);
  }

  // ---------------------------------------------------------------------------
  // Properties
  // ---------------------------------------------------------------------------

  /** Without an opening line, or without a closing line among lines 1 to 199, there are no
      fields and the body is the whole text. */
  lemma NoFrontMatterUnlessDelimited(text: string)
    requires var lines := SplitLines(text);
      lines == [] || !IsYamlStart(lines[0]) ||
      forall j :: 1 <= j < |lines| && j < ScanLimit ==> !IsYamlStart(lines[j])
    ensures FrontMatterOf(text) == Parsed(map[], text)
  {
  }

  predicate HasKey(kv: string -> Option<(string, string)>, line: string, key: string) {
    kv(line).Some? && kv(line).value.0 == key
  }

  /** A key is read exactly when some line carries it. */
  lemma {:induction false} FoldWithKeys(kv: string -> Option<(string, string)>, lines: seq<string>, key: string)
    ensures key in FoldWith(kv, lines) <==> exists i :: 0 <= i < |lines| && HasKey(kv, lines[i], key)
    decreases |lines|
  {
    if lines != [] {
      var init := lines[..|lines| - 1];
      FoldWithKeys(kv, init, key);
      assert forall i :: 0 <= i < |init| ==> init[i] == lines[i];
      if key in FoldWith(kv, lines) && !HasKey(kv, lines[|lines| - 1], key) {
        assert key in FoldWith(kv, init);
      }
    }
  }

  /** The value of a key is the one on the last line that carries it. */
  lemma {:induction false} FoldWithLastWins(kv: string -> Option<(string, string)>, lines: seq<string>, key: string, i: nat)
    requires i < |lines| && HasKey(kv, lines[i], key)
    requires forall j :: i < j < |lines| ==> !HasKey(kv, lines[j], key)
    ensures key in FoldWith(kv, lines) && FoldWith(kv, lines)[key] == kv(lines[i]).value.1
    decreases |lines|
  {
    var init := lines[..|lines| - 1];
    if i < |lines| - 1 {
      assert init[i] == lines[i];
      assert forall j :: i < j < |init| ==> init[j] == lines[j];
      FoldWithLastWins(kv, init, key, i);
    }
  }

  /** `parse_front_matter` keeps, for each key, the value on its last line. */
  lemma FoldFieldsLastWins(lines: seq<string>, key: string, i: nat)
    requires i < |lines| && HasKey(KeyValue, lines[i], key)
    requires forall j :: i < j < |lines| ==> !HasKey(KeyValue, lines[j], key)
    ensures key in FoldFields(lines) && FoldFields(lines)[key] == KeyValue(lines[i]).value.1
  {
    FoldWithLastWins(KeyValue, lines, key, i);
  }

  /** `validate_paths` passes exactly when no checked folder has a space or a non-ASCII
      character. */
  lemma {:induction false} PathsVerdictOk(files: seq<seq<string>>)
    ensures PathsVerdict(files).Ok? <==>
      forall f, s :: 0 <= f < |files| && 0 <= s < |CheckedSegments(files[f])| ==>
        ' ' !in CheckedSegments(files[f])[s] && AllAscii(CheckedSegments(files[f])[s])
    decreases |files|
  {
    if files != [] {
      PathsVerdictOk(files[1..]);
      SegmentsErrorNone(files[0], CheckedSegments(files[0]));
      assert forall f :: 1 <= f < |files| ==> files[f] == files[1..][f - 1];
    }
  }

  lemma {:induction false} SegmentsErrorNone(path: seq<string>, segments: seq<string>)
    ensures SegmentsError(path, segments).None? <==>
      forall s :: 0 <= s < |segments| ==> ' ' !in segments[s] && AllAscii(segments[s])
    decreases |segments|
  {
    if segments != [] {
      SegmentsErrorNone(path, segments[1..]);
      assert forall s :: 1 <= s < |segments| ==> segments[s] == segments[1..][s - 1];
    }
  }

  /** A missing required key is reported, with the list of all missing keys. */
  lemma MissingKeyIsError(path: seq<string>, parsed: Parsed, text: string, ids: map<string, seq<string>>, key: string)
    requires parsed.fields != map[]
    requires key in RequiredKeys && key !in parsed.fields
    ensures CheckFields(path, parsed, text, ids).Err?
    ensures CheckFields(path, parsed, text, ids).error.MissingKeys?
    ensures key in CheckFields(path, parsed, text, ids).error.keys
  {
  }

  /** An article that passes has every required key and a valid status, and records its
      non-empty id at its path; the id was free or already its own. */
  lemma PassRecordsId(path: seq<string>, parsed: Parsed, text: string, ids: map<string, seq<string>>)
    requires CheckFields(path, parsed, text, ids).Ok?
    ensures forall k :: k in RequiredKeys ==> k in parsed.fields
    ensures Strip(parsed.fields["status"]) in AllowedStatus
    ensures var id := Unquote(parsed.fields["id"]);
      id != [] && (id !in ids || ids[id] == path) &&
      CheckFields(path, parsed, text, ids).value == ids[id := path]
  {
    var fm := parsed.fields;
    assert MissingKeysOf(RequiredKeys, fm) == [];
    assert "status" in RequiredKeys && "id" in RequiredKeys && "topic" in RequiredKeys;
    ValuesPass(path, Strip(fm["status"]), Unquote(fm["id"]), Unquote(fm["topic"]), parsed.body, text, ids);
  }

  lemma ValuesPass(path: seq<string>, status: string, id: string, topic: string, body: string, text: string,
                   ids: map<string, seq<string>>)
    requires CheckValues(path, status, id, topic, body, text, ids).Ok?
    ensures status in AllowedStatus && id != [] && (id !in ids || ids[id] == path)
    ensures CheckValues(path, status, id, topic, body, text, ids).value == ids[id := path]
  {
  }

  /** The value checks pass exactly when the status is allowed, the id is non-empty and not
      taken by another path, the topic is empty, `[[TBD]]` or kebab-case, and a verified
      article holds no `[[TBD]]`. */
  lemma ValuesPassIff(path: seq<string>, status: string, id: string, topic: string, body: string, text: string,
                      ids: map<string, seq<string>>)
    ensures CheckValues(path, status, id, topic, body, text, ids).Ok? <==>
      status in AllowedStatus && id != [] && (id !in ids || ids[id] == path) &&
      (topic == [] || topic == TbdMarker || MatchesAsciiKebab(topic)) &&
      !(status == "verified" && (Contains(body, TbdMarker) || Contains(text, TbdMarker)))
  {
  }

  /** A verified article whose text holds `[[TBD]]` never passes, whatever else it holds. */
  lemma VerifiedTbdNeverPasses(path: seq<string>, parsed: Parsed, text: string, ids: map<string, seq<string>>)
    requires "status" in parsed.fields && Strip(parsed.fields["status"]) == "verified"
    requires Contains(text, TbdMarker)
    ensures CheckFields(path, parsed, text, ids).Err?
  {
    if CheckFields(path, parsed, text, ids).Ok? {
      var fm := parsed.fields;
      assert MissingKeysOf(RequiredKeys, fm) == [];
      assert "id" in RequiredKeys && "topic" in RequiredKeys;
      ValuesPassIff(path, Strip(fm["status"]), Unquote(fm["id"]), Unquote(fm["topic"]), parsed.body, text, ids);
    }
  }

  /** Once an id is recorded at one path, the same id at another path stops the gate. */
  lemma DuplicateIdIsError(path: seq<string>, parsed: Parsed, text: string, ids: map<string, seq<string>>)
    requires CheckFields(path, parsed, text, map[]).Ok?
    requires Unquote(parsed.fields["id"]) in ids && ids[Unquote(parsed.fields["id"])] != path
    ensures CheckFields(path, parsed, text, ids) ==
      Err(DuplicateId(path, Unquote(parsed.fields["id"]), ids[Unquote(parsed.fields["id"])]))
  {
    PassRecordsId(path, parsed, text, map[]);
  }

  /** The body of `ASCII_KEBAB` accepts exactly the kebab-case slugs. */
  lemma {:induction false} AsciiKebabIsKebab(s: string)
    ensures IsAsciiKebab(s) <==> Slug.IsKebab(s)
    decreases |s|
  {
    var i := IndexOf(s, '-');
    if i == |s| {
      assert s[..i] == s;
      KebabWithoutHyphen(s);
    } else {
      AsciiKebabIsKebab(s[i + 1..]);
      KebabSplitAtHyphen(s, i);
    }
  }

  /** `ASCII_KEBAB.match` accepts exactly the kebab-case slugs, each also with one trailing
      newline. */
  lemma MatchesAsciiKebabIff(s: string)
    ensures MatchesAsciiKebab(s) <==>
      Slug.IsKebab(s) || (|s| > 0 && s[|s| - 1] == '\n' && Slug.IsKebab(s[..|s| - 1]))
  {
    AsciiKebabIsKebab(s);
    if |s| > 0 {
      AsciiKebabIsKebab(s[..|s| - 1]);
    }
  }

  /** On a string without a newline, such as a value read from one front-matter line,
      `ASCII_KEBAB.match` accepts exactly the kebab-case slugs. */
  lemma MatchesWithoutNewline(s: string)
    requires '\n' !in s
    ensures MatchesAsciiKebab(s) <==> Slug.IsKebab(s)
  {
    MatchesAsciiKebabIff(s);
    if |s| > 0 {
      assert s[|s| - 1] in s;
    }
  }

  /** A slug followed by a newline matches, though it is not a slug. */
  lemma TrailingNewlineMatches()
    ensures MatchesAsciiKebab("abc\n") && !Slug.IsKebab("abc\n")
  {
    var s := "abc\n";
    assert s[..|s| - 1] == "abc";
    AsciiKebabIsKebab("abc");
    assert Slug.IsKebab("abc") by {
      assert forall i :: 0 <= i < 3 ==> Slug.IsSlugChar("abc"[i]);
    }
    assert !Slug.IsSlugChar(s[3]);
  }

  /** Without a hyphen, a slug is a piece of letters and digits. */
  lemma KebabWithoutHyphen(s: string)
    requires '-' !in s
    ensures Slug.IsKebab(s) <==> IsAlnumPiece(s)
  {
  }

  /** A slug with its first hyphen at `i` is a piece of letters and digits, the hyphen, and a
      slug. */
  lemma KebabSplitAtHyphen(s: string, i: nat)
    requires i < |s| && s[i] == '-' && forall j :: 0 <= j < i ==> s[j] != '-'
    ensures Slug.IsKebab(s) <==> IsAlnumPiece(s[..i]) && Slug.IsKebab(s[i + 1..])
  {
    var head := s[..i];
    var rest := s[i + 1..];
    assert s == head + "-" + rest;
    if Slug.IsKebab(s) {
      assert i > 0 && i + 1 < |s|;
      assert !(s[i] == '-' && s[i + 1] == '-');
      assert forall j :: 0 <= j < |rest| ==> rest[j] == s[i + 1 + j];
    }
    if IsAlnumPiece(head) && Slug.IsKebab(rest) {
      KebabJoin(head, rest);
    }
  }

  lemma KebabJoin(head: string, rest: string)
    requires IsAlnumPiece(head) && Slug.IsKebab(rest)
    ensures Slug.IsKebab(head + "-" + rest)
  {
    var s := head + "-" + rest;
    var i := |head|;
    assert forall j :: 0 <= j < i ==> s[j] == head[j];
    assert forall j :: i < j < |s| ==> s[j] == rest[j - i - 1];
    assert Slug.NoDoubleHyphen(s) by {
      forall j | 0 <= j < |s| - 1 ensures !(s[j] == '-' && s[j + 1] == '-') {
        if j < i {
          assert s[j] == head[j];
        } else if j > i {
          assert s[j] == rest[j - i - 1] && s[j + 1] == rest[j - i];
        }
      }
    }
  }
}
