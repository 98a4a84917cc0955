/** scripts/validate_bearing_cards.py: a small YAML-like value parser, a front-matter reader
    that lets indented `- item` lines extend the list of the key above them, and the checks
    run on bearing cards. */
module CardValidator {
  import opened Text
  import opened Results
  import Numerals
  import QualityGate

  /** What `parse_yaml_value` returns: `None`, an `int`, a `float` (kept as its literal), a
      `str` or a `list`. A `{...}` value is a `str`. */
  datatype Value = Null | Int(i: int) | Float(literal: string) | Str(s: string) | List(items: seq<Value>)

  /** Appending a list item under a key whose value is a scalar raises `AttributeError`. */
  datatype ParseError = AppendToScalar(key: string)

  /** The findings of `validate_bearing_card`, in the order it reports them. */
  datatype Issue =
    | MissingFrontMatter
    | MissingDesignation
    | DesignationNotMapping
    | MissingDims
    | DimsIncomplete
    | LoadWithoutDynamic
    | EquivalentsNotList
    | EquivalentsEmpty

  // ---------------------------------------------------------------------------
  // parse_yaml_value
  // ---------------------------------------------------------------------------

  /** `s.strip('"').strip("'")` */
  function Dequote(s: string): string {
    StripChar(StripChar(s, '"'), '\'')
  }

  /** One item of an inline list: `item.strip().strip('"').strip("'")`. */
  function Item(part: string): Value {
    Str(Dequote(Strip(part)))
  }

  function ItemsOf(parts: seq<string>): (r: seq<Value>)
    ensures |r| == |parts|
  {
    seq(|parts|, i requires 0 <= i < |parts| => Item(parts[i]))
  }

  predicate AllDigits(s: string) {
    Numerals.AllDigits(s)
  }

  /** The literals `float(s)` is taken to accept here: an optional sign, then digits around
      one decimal point, with at least one digit. */
  predicate IsFloatLiteral(v: string) {
    var body := if |v| > 0 && (v[0] == '+' || v[0] == '-') then v[1..] else v;
    var dot := IndexOf(body, '.');
    |body| >= 2 && dot < |body| && AllDigits(body[..dot]) && AllDigits(body[dot + 1..])
  }

  /** `v.startswith(open) and v.endswith(close)` for two different characters, which cannot
      both be the one character of a one-character string. */
  predicate Enclosed(v: string, open: char, close: char) {
    |v| >= 2 && v[0] == open && v[|v| - 1] == close
  }

  /** `parse_yaml_value(value)` */
  function ValueOf(value: string): Value {
    var v := Strip(value);
    if Enclosed(v, '[', ']') then
      var content := Strip(v[1..|v| - 1]);
      if content == [] then List([]) else List(ItemsOf(Split(content, ',')))
    else if Enclosed(v, '{', '}') then Str(v)
    else if '.' in v then (if IsFloatLiteral(v) then Float(v) else Str(Dequote(v)))
    else if Numerals.IsIntLiteral(v) then Int(Numerals.IntValue(v))
    else Str(Dequote(v))
  }

  /** `parse_yaml_value`, with its loop over the comma-separated items of a list. */
  method ParseValue(value: string) returns (r: Value)
    ensures r == ValueOf(value)
  {
    var v := Strip(value);
    if Enclosed(v, '[', ']') {
      var content := Strip(v[1..|v| - 1]);
      if content == [] {
        return List([]);
      }
      var parts := Split(content, ',');
      var items: seq<Value> := [];
      for k := 0 to |parts|
        invariant |items| == k
        invariant forall j :: 0 <= j < k ==> items[j] == Item(parts[j])
      {
        items := items + [Str(Dequote(Strip(parts[k])))];
      }
      return List(items);
    }
    if Enclosed(v, '{', '}') {
      return Str(v);
    }
    if '.' in v {
      if IsFloatLiteral(v) {
        return Float(v);
      }
    } else if Numerals.IsIntLiteral(v) {
      return Int(Numerals.IntValue(v));
    }
    return Str(Dequote(v));
  }

  // ---------------------------------------------------------------------------
  // parse_front_matter
  // ---------------------------------------------------------------------------

  /** The dict built so far and `current_key`; the empty key stands for `None` too, since
      the script only tests the key for truth. */
  datatype Scan = Scan(fm: map<string, Value>, current: string)

  /** Every non-empty current key has an entry. */
  predicate Tracked(st: Scan) {
    st.current == [] || st.current in st.fm
  }

  /** A line that the loop skips: blank or a `#` comment. */
  predicate IsSkipped(ln: string) {
    Strip(ln) == [] || StartsWith(Strip(ln), "#")
  }

  /** A top-level `key: value` line. */
  predicate IsKeyLine(ln: string) {
    ':' in ln && !StartsWith(ln, " ")
  }

  /** The key of a key line: the stripped text before the first `:`. */
  function KeyOf(ln: string): string {
    Strip(ln[..IndexOf(ln, ':')])
  }

  /** The stripped text after the first `:`. */
  function RawValueOf(ln: string): string {
    var c := IndexOf(ln, ':');
    if c < |ln| then Strip(ln[c + 1..]) else []
  }

  /** An element appended by a `- item` line: a brace item raw, anything else parsed. */
  function ElementOf(t: string): Value
    requires t != []
  {
    var item := Strip(t[1..]);
    if StartsWith(item, "{") then Str(item) else ValueOf(item)
  }

  /** One pass of the loop over the front-matter lines. */
  function Step(st: Scan, ln: string): (r: Result<Scan, ParseError>)
    requires Tracked(st)
    ensures r.Ok? ==> Tracked(r.value)
  {
    var t := Strip(ln);
    if IsSkipped(ln) then Ok(st)
    else if IsKeyLine(ln) then
      var value := RawValueOf(ln);
      Ok(Scan(st.fm[KeyOf(ln) := if value == [] then Null else ValueOf(value)], KeyOf(ln)))
    else if StartsWith(ln, " ") && st.current != [] && StartsWith(t, "-") then
      var elem := ElementOf(t);
      match st.fm[st.current]
      case Null => Ok(st.(fm := st.fm[st.current := List([elem])]))
      case List(xs) => Ok(st.(fm := st.fm[st.current := List(xs + [elem])]))
      case _ => Err(AppendToScalar(st.current))
    else Ok(st)
  }

  /** The loop over the given front-matter lines, stopping at the first exception. */
  function Scanned(lines: seq<string>): (r: Result<Scan, ParseError>)
    ensures r.Ok? ==> Tracked(r.value)
    decreases |lines|
  {
    if lines == [] then Ok(Scan(map[], []))
    else match Scanned(lines[..|lines| - 1])
      case Err(e) => Err(e)
      case Ok(st) => Step(st, lines[|lines| - 1])
  }

  lemma ScannedSnoc(lines: seq<string>, i: nat)
    requires i < |lines| && Scanned(lines[..i]).Ok?
    ensures Scanned(lines[..i + 1]) == Step(Scanned(lines[..i]).value, lines[i])
  {
    assert lines[..i + 1][..i] == lines[..i];
    assert lines[..i + 1][i] == lines[i];
  }

  /** Once a line raises, the rest of the lines are not looked at. */
  lemma {:induction false} ErrorSticks(lines: seq<string>, n: nat)
    requires n <= |lines| && Scanned(lines[..n]).Err?
    ensures Scanned(lines) == Scanned(lines[..n])
    decreases |lines| - n
  {
    if n < |lines| {
      assert lines[..n + 1][..n] == lines[..n];
      ErrorSticks(lines, n + 1);
    } else {
      assert lines[..n] == lines;
    }
  }

  /** `parse_front_matter(text)`: empty without an opening `---` line or a closing one among
      the lines 1 to 199. */
  function FrontMatter(text: string): Result<map<string, Value>, ParseError> {
    var lines := SplitLines(text);
    if lines == [] || !QualityGate.IsYamlStart(lines[0]) then Ok(map[])
    else match QualityGate.ClosingLine(lines, 1)
      case None => Ok(map[])
      case Some(end) =>
        match Scanned(lines[1..end])
        case Err(e) => Err(e)
        case Ok(st) => Ok(st.fm)
  }

  /** `parse_front_matter`: find the closing line, then walk the lines with `current_key`. */
  method ParseFrontMatter(text: string) returns (r: Result<map<string, Value>, ParseError>)
    ensures r == FrontMatter(text)
  {
    var lines := SplitLines(text);
    if lines == [] || !QualityGate.IsYamlStart(lines[0]) {
      return Ok(map[]);
    }
    var end := 1;
    while end < |lines| && end < QualityGate.ScanLimit && !QualityGate.IsYamlStart(lines[end])
      invariant 1 <= end <= |lines| && end <= QualityGate.ScanLimit
      invariant QualityGate.ClosingLine(lines, 1) == QualityGate.ClosingLine(lines, end)
      decreases |lines| - end
    {
      end := end + 1;
    }
    if end == |lines| || end == QualityGate.ScanLimit {
      return Ok(map[]);
    }
    assert QualityGate.ClosingLine(lines, 1) == Some(end);
    var fmLines := lines[1..end];
    var fm: map<string, Value> := map[];
    var current: string := [];
    for i := 0 to |fmLines|
      invariant Scanned(fmLines[..i]) == Ok(Scan(fm, current))
    {
      var next := ScanLine(fm, current, fmLines[i]);
      ScannedSnoc(fmLines, i);
      if next.Err? {
        ErrorSticks(fmLines, i + 1);
        return Err(next.error);
      }
      fm, current := next.value.fm, next.value.current;
    }
    assert fmLines[..|fmLines|] == fmLines;
    return Ok(fm);
  }

  /** The body of the loop of `parse_front_matter` for one line. */
  method ScanLine(fm: map<string, Value>, current: string, ln: string) returns (r: Result<Scan, ParseError>)
    requires Tracked(Scan(fm, current))
    ensures r == Step(Scan(fm, current), ln)
  {
    var t := Strip(ln);
    if t == [] || StartsWith(t, "#") {
      return Ok(Scan(fm, current));
    }
    if ':' in ln && !StartsWith(ln, " ") {
      var c := IndexOf(ln, ':');
      var key := Strip(ln[..c]);
      var value := Strip(ln[c + 1..]);
      if value != [] {
        var v := ParseValue(value);
        return Ok(Scan(fm[key := v], key));
      }
      return Ok(Scan(fm[key := Null], key));
    }
    if StartsWith(ln, " ") && current != [] && StartsWith(t, "-") {
      var item := Strip(t[1..]);
      var elem: Value;
      if StartsWith(item, "{") {
        elem := Str(item);
      } else {
        elem := ParseValue(item);
      }
      var cur := fm[current];
      if cur.Null? {
        return Ok(Scan(fm[current := List([elem])], current));
      } else if cur.List? {
        return Ok(Scan(fm[current := List(cur.items + [elem])], current));
      }
      return Err(AppendToScalar(current));
    }
    return Ok(Scan(fm, current));
  }

  // ---------------------------------------------------------------------------
  // validate_bearing_card
  // ---------------------------------------------------------------------------

  /** `fm.get("topic") == "bearings-card"` */
  predicate IsCard(fm: map<string, Value>) {
    "topic" in fm && fm["topic"] == Str("bearings-card")
  }

  function DesignationIssues(fm: map<string, Value>): seq<Issue> {
    if "designation" !in fm then [MissingDesignation]
    else if fm["designation"].Str? then [DesignationNotMapping]
    else []
  }

  /** A `{...}` string for `dims` must mention `d:`, `D:` and `B:`. */
  function DimsIssues(fm: map<string, Value>): seq<Issue> {
    if "dims" !in fm then [MissingDims]
    else
      var dims := fm["dims"];
      if dims.Str? && Contains(dims.s, "{")
        && (!Contains(dims.s, "d:") || !Contains(dims.s, "D:") || !Contains(dims.s, "B:"))
      then [DimsIncomplete]
      else []
  }

  /** A `{...}` string for `load_capacity` must mention `dynamic_C_kN` or `C_kN`. */
  function LoadIssues(fm: map<string, Value>): seq<Issue> {
    if "load_capacity" in fm && fm["load_capacity"].Str? && Contains(fm["load_capacity"].s, "{")
      && !Contains(fm["load_capacity"].s, "dynamic_C_kN") && !Contains(fm["load_capacity"].s, "C_kN")
    then [LoadWithoutDynamic]
    else []
  }

  function EquivalentsIssues(fm: map<string, Value>): seq<Issue> {
    if "equivalents" !in fm then []
    else if !fm["equivalents"].List? then [EquivalentsNotList]
    else if fm["equivalents"].items == [] then [EquivalentsEmpty]
    else []
  }

  /** The findings for a parsed front matter. */
  function Issues(fm: map<string, Value>): seq<Issue> {
    if fm == map[] then [MissingFrontMatter]
    else if IsCard(fm) then DesignationIssues(fm) + DimsIssues(fm) + LoadIssues(fm) + EquivalentsIssues(fm)
    else []
  }

  /** `validate_bearing_card` on the text of a card; the exception of the parser propagates. */
  function CardVerdict(text: string): Result<seq<Issue>, ParseError> {
    match FrontMatter(text)
    case Err(e) => Err(e)
    case Ok(fm) => Ok(Issues(fm))
  }

  /** `validate_bearing_card`: collect the findings one check at a time. */
  method ValidateBearingCard(text: string) returns (r: Result<seq<Issue>, ParseError>)
    ensures r == CardVerdict(text)
  {
    var parsed := ParseFrontMatter(text);
    if parsed.Err? {
      return Err(parsed.error);
    }
    var fm := parsed.value;
    if fm == map[] {
      return Ok([MissingFrontMatter]);
    }
    var errors: seq<Issue> := [];
    if "topic" in fm && fm["topic"] == Str("bearings-card") {
      if "designation" !in fm {
        errors := errors + [MissingDesignation];
      } else if fm["designation"].Str? {
        errors := errors + [DesignationNotMapping];
      }
      assert errors == DesignationIssues(fm);
      if "dims" !in fm {
        errors := errors + [MissingDims];
      } else {
        var dims := fm["dims"];
        if dims.Str? && Contains(dims.s, "{") {
          if !Contains(dims.s, "d:") || !Contains(dims.s, "D:") || !Contains(dims.s, "B:") {
            errors := errors + [DimsIncomplete];
          }
        }
      }
      assert errors == DesignationIssues(fm) + DimsIssues(fm);
      if "load_capacity" in fm {
        var lc := fm["load_capacity"];
        if lc.Str? && Contains(lc.s, "{") {
          if !Contains(lc.s, "dynamic_C_kN") && !Contains(lc.s, "C_kN") {
            errors := errors + [LoadWithoutDynamic];
          }
        }
      }
      assert errors == DesignationIssues(fm) + DimsIssues(fm) + LoadIssues(fm);
      if "equivalents" in fm {
        var equivs := fm["equivalents"];
        if !equivs.List? {
          errors := errors + [EquivalentsNotList];
        } else if |equivs.items| == 0 {
          errors := errors + [EquivalentsEmpty];
        }
      }
      assert errors == DesignationIssues(fm) + DimsIssues(fm) + LoadIssues(fm) + EquivalentsIssues(fm);
    }
    return Ok(errors);
  }

  // ---------------------------------------------------------------------------
  // Properties of parse_yaml_value
  // ---------------------------------------------------------------------------

  /** Brackets around nothing but white space give the empty list. */
  lemma EmptyList(w: string)
    requires forall i :: 0 <= i < |w| ==> IsSpace(w[i])
    ensures ValueOf("[" + w + "]") == List([])
  {
    var v := "[" + w + "]";
    StripNoSpace(v);
    assert v[1..|v| - 1] == w;
    AllSpaceStrips(w);
  }

  lemma {:induction false} AllSpaceStrips(w: string)
    requires forall i :: 0 <= i < |w| ==> IsSpace(w[i])
    ensures LStrip(w) == []
    decreases |w|
  {
    if w != [] {
      AllSpaceStrips(w[1..]);
    }
  }

  /** A plain item: not empty, no comma, and no white space or quote at either end. */
  predicate IsPlainItem(s: string) {
    s != [] && ',' !in s
    && !IsSpace(s[0]) && !IsSpace(s[|s| - 1])
    && s[0] != '"' && s[|s| - 1] != '"' && s[0] != '\'' && s[|s| - 1] != '\''
  }

  /** An inline list of plain items reads back as those items, as strings. */
  lemma ListRoundTrip(items: seq<string>)
    requires |items| >= 1
    requires forall k :: 0 <= k < |items| ==> IsPlainItem(items[k])
    ensures ValueOf("[" + Join(items, ",") + "]") == List(seq(|items|, k requires 0 <= k < |items| => Str(items[k])))
  {
    var joined := Join(items, ",");
    JoinEnds(items);
    Bracketed(joined);
    SplitJoin(items, ',');
    PlainItems(items);
  }

  /** Brackets around a text with no white space at either end give the list of its
      comma-separated items. */
  lemma Bracketed(content: string)
    requires content != [] && !IsSpace(content[0]) && !IsSpace(content[|content| - 1])
    ensures ValueOf("[" + content + "]") == List(ItemsOf(Split(content, ',')))
  {
    var v := "[" + content + "]";
    assert v[0] == '[' && v[|v| - 1] == ']';
    StripNoSpace(v);
    assert Enclosed(Strip(v), '[', ']');
    assert v[1..|v| - 1] == content;
    StripNoSpace(content);
    assert Strip(Strip(v)[1..|Strip(v)| - 1]) == content;
  }

  lemma PlainItems(items: seq<string>)
    requires forall k :: 0 <= k < |items| ==> IsPlainItem(items[k])
    ensures ItemsOf(items) == seq(|items|, k requires 0 <= k < |items| => Str(items[k]))
  {
    forall k | 0 <= k < |items|
      ensures Item(items[k]) == Str(items[k])
    {
      StripNoSpace(items[k]);
      StripCharNone(items[k], '"');
      StripCharNone(items[k], '\'');
    }
  }

  /** The joined text of plain items has no white space at either end. */
  lemma {:induction false} JoinEnds(items: seq<string>)
    requires |items| >= 1
    requires forall k :: 0 <= k < |items| ==> IsPlainItem(items[k])
    ensures var j := Join(items, ",");
      j != [] && !IsSpace(j[0]) && !IsSpace(j[|j| - 1])
    decreases |items|
  {
    assert IsPlainItem(items[0]);
    if |items| > 1 {
      JoinEnds(items[1..]);
      var rest := Join(items[1..], ",");
      assert Join(items, ",") == items[0] + ("," + rest);
    }
  }

  /** A `{...}` value comes back verbatim, commas and quotes included. */
  lemma BraceVerbatim(inner: string)
    ensures ValueOf("{" + inner + "}") == Str("{" + inner + "}")
  {
    StripNoSpace("{" + inner + "}");
  }

  /** The text of a string wrapped in double quotes comes back without them. */
  lemma DoubleQuoted(s: string)
    requires s == [] || (s[0] != '"' && s[|s| - 1] != '"' && s[0] != '\'' && s[|s| - 1] != '\'')
    ensures ValueOf("\"" + s + "\"") == Str(s)
  {
    var v := "\"" + s + "\"";
    StripNoSpace(v);
    assert v[1..|v| - 1] == s;
    NotFloatOrInt(v);
    UnwrapQuotes(s, '"');
    StripCharNone(s, '\'');
  }

  /** The text of a string wrapped in single quotes comes back without them. */
  lemma SingleQuoted(s: string)
    requires s == [] || (s[0] != '\'' && s[|s| - 1] != '\'')
    ensures ValueOf("'" + s + "'") == Str(s)
  {
    var v := "'" + s + "'";
    StripNoSpace(v);
    NotFloatOrInt(v);
    StripCharNone(v, '"');
    UnwrapQuotes(s, '\'');
    assert v == ['\''] + s + ['\''];
    assert !Enclosed(v, '[', ']') && !Enclosed(v, '{', '}');
    assert Dequote(v) == s;
  }

  lemma NotFloatOrInt(v: string)
    requires |v| >= 2 && (v[0] == '"' || v[0] == '\'')
    ensures !IsFloatLiteral(v) && !Numerals.IsIntLiteral(v)
  {
    assert !IsDigit(v[0]);
    var dot := IndexOf(v, '.');
    if dot < |v| {
      assert v[..dot][0] == v[0];
    }
  }

  lemma UnwrapQuotes(s: string, q: char)
    requires s == [] || (s[0] != q && s[|s| - 1] != q)
    ensures StripChar([q] + s + [q], q) == s
  {
    var w := [q] + s + [q];
    assert w[1..] == s + [q];
    var t := s + [q];
    assert t[..|t| - 1] == s;
    assert LStripChar(w, q) == LStripChar(t, q);
    if s == [] {
      assert LStripChar(t, q) == LStripChar([], q);
    } else {
      assert t[0] == s[0];
      assert LStripChar(t, q) == t;
      assert RStripChar(t, q) == RStripChar(s, q) == s;
    }
  }

  /** `str(n)` reads back as the integer `n`. */
  lemma IntRoundTrip(n: int)
    ensures ValueOf(Numerals.IntToString(n)) == Int(n)
  {
    var v := Numerals.IntToString(n);
    Numerals.ZeroPadRoundTrip(n, 0);
    assert Numerals.ZeroPad(n, 0) == v;
    assert v[0] == '-' || IsDigit(v[0]);
    assert IsDigit(v[|v| - 1]);
    StripNoSpace(v);
    assert '.' !in v by {
      if v[0] == '-' {
        assert forall i :: 1 <= i < |v| ==> v[i] == v[1..][i - 1];
      }
    }
  }

  // ---------------------------------------------------------------------------
  // Properties of parse_front_matter
  // ---------------------------------------------------------------------------

  /** Without an opening line, or without a closing one among the lines 1 to 199, there are
      no fields. */
  lemma NoDelimitersNoFields(text: string)
    requires var lines := SplitLines(text);
      lines == [] || !QualityGate.IsYamlStart(lines[0]) || QualityGate.ClosingLine(lines, 1).None?
    ensures FrontMatter(text) == Ok(map[])
  {
  }

  /** A key line records the key as current and maps it to the parsed value, or to `None`
      when nothing follows the colon; the other keys are untouched. */
  lemma KeyLineSets(st: Scan, ln: string)
    requires Tracked(st) && !IsSkipped(ln) && IsKeyLine(ln)
    ensures Step(st, ln).Ok?
    ensures var st2 := Step(st, ln).value;
      st2.current == KeyOf(ln) &&
      st2.fm[KeyOf(ln)] == (if RawValueOf(ln) == [] then Null else ValueOf(RawValueOf(ln))) &&
      forall k :: k in st.fm && k != KeyOf(ln) ==> k in st2.fm && st2.fm[k] == st.fm[k]
  {
  }

  /** An indented `- item` line, which continues the list of the current key. */
  predicate IsItemLine(ln: string) {
    StartsWith(ln, " ") && StartsWith(Strip(ln), "-")
  }

  /** The elements that a run of item lines appends, in order. */
  function Items(lines: seq<string>): (r: seq<Value>)
    requires forall i :: 0 <= i < |lines| ==> IsItemLine(lines[i])
    ensures |r| == |lines|
    decreases |lines|
  {
    if lines == [] then []
    else
      var last := lines[|lines| - 1];
      assert IsItemLine(last);
      Items(lines[..|lines| - 1]) + [ElementOf(Strip(last))]
  }

  /** The value of a `key:` line with nothing after the colon once `k` item lines follow. */
  function BlockValue(items: seq<string>, k: nat): Value
    requires k <= |items|
    requires forall i :: 0 <= i < |items| ==> IsItemLine(items[i])
  {
    if k == 0 then Null else List(Items(items[..k]))
  }

  /** A block list: a `key:` line with nothing after the colon, followed by indented `- a`
      lines, gives the key the list of those items in order; the other keys keep what the
      earlier lines gave them, and the key stays current. */
  lemma BlockList(pre: seq<string>, keyLine: string, items: seq<string>)
    requires Scanned(pre).Ok?
    requires IsKeyLine(keyLine) && !IsSkipped(keyLine) && KeyOf(keyLine) != [] && RawValueOf(keyLine) == []
    requires forall i :: 0 <= i < |items| ==> IsItemLine(items[i])
    ensures Scanned(pre + [keyLine] + items)
      == Ok(Scan(Scanned(pre).value.fm[KeyOf(keyLine) := BlockValue(items, |items|)], KeyOf(keyLine)))
  {
    BlockListUpTo(pre, keyLine, items, |items|);
    assert items[..|items|] == items;
  }

  lemma {:induction false} BlockListUpTo(pre: seq<string>, keyLine: string, items: seq<string>, k: nat)
    requires Scanned(pre).Ok?
    requires IsKeyLine(keyLine) && !IsSkipped(keyLine) && KeyOf(keyLine) != [] && RawValueOf(keyLine) == []
    requires forall i :: 0 <= i < |items| ==> IsItemLine(items[i])
    requires k <= |items|
    ensures Scanned(pre + [keyLine] + items[..k])
      == Ok(Scan(Scanned(pre).value.fm[KeyOf(keyLine) := BlockValue(items, k)], KeyOf(keyLine)))
    decreases k
  {
    var key := KeyOf(keyLine);
    var fm0 := Scanned(pre).value.fm;
    if k == 0 {
      assert pre + [keyLine] + items[..k] == pre + [keyLine];
      ScannedLast(pre + [keyLine], pre, keyLine);
      KeyStep(Scanned(pre).value, keyLine);
    } else {
      var init := pre + [keyLine] + items[..k - 1];
      assert pre + [keyLine] + items[..k] == init + [items[k - 1]];
      BlockListUpTo(pre, keyLine, items, k - 1);
      BlockStep(init, fm0, key, BlockValue(items, k - 1), items[k - 1]);
      BlockValueNext(items, k);
    }
  }

  /** One more item line after a block list's key line and earlier items. */
  lemma BlockStep(init: seq<string>, fm0: map<string, Value>, key: string, v: Value, ln: string)
    requires key != [] && (v.Null? || v.List?) && IsItemLine(ln)
    requires Scanned(init) == Ok(Scan(fm0[key := v], key))
    ensures Scanned(init + [ln]) == Ok(Scan(fm0[key := List(ValueList(v) + [ElementOf(Strip(ln))])], key))
  {
    var st := Scan(fm0[key := v], key);
    ScannedLast(init + [ln], init, ln);
    ItemStep(st, ln);
    assert st.fm[key := List(ValueList(v) + [ElementOf(Strip(ln))])]
        == fm0[key := List(ValueList(v) + [ElementOf(Strip(ln))])];
  }

  /** A `key:` line with nothing after the colon maps the key to `None` and makes it current. */
  lemma KeyStep(st: Scan, keyLine: string)
    requires Tracked(st) && IsKeyLine(keyLine) && !IsSkipped(keyLine) && RawValueOf(keyLine) == []
    ensures Step(st, keyLine) == Ok(Scan(st.fm[KeyOf(keyLine) := Null], KeyOf(keyLine)))
  {
  }

  /** A list item under a key whose inline value is a scalar raises, and the lines after it
      are not looked at. */
  lemma ItemUnderScalarRaises(pre: seq<string>, keyLine: string, item: string, rest: seq<string>)
    requires Scanned(pre).Ok?
    requires IsKeyLine(keyLine) && !IsSkipped(keyLine) && KeyOf(keyLine) != []
    requires RawValueOf(keyLine) != [] && !ValueOf(RawValueOf(keyLine)).List?
    requires IsItemLine(item)
    ensures Scanned(pre + [keyLine, item] + rest) == Err(AppendToScalar(KeyOf(keyLine)))
  {
    var lines := pre + [keyLine, item] + rest;
    var n := |pre| + 2;
    assert lines[..n] == (pre + [keyLine]) + [item];
    ScannedLast(pre + [keyLine], pre, keyLine);
    ScannedLast(lines[..n], pre + [keyLine], item);
    assert !IsKeyLine(item) && Strip(item)[0] == '-' && !IsSkipped(item);
    ErrorSticks(lines, n);
  }

  lemma ScannedLast(lines: seq<string>, init: seq<string>, last: string)
    requires lines == init + [last]
    ensures Scanned(lines) == match Scanned(init) case Err(e) => Err(e) case Ok(st) => Step(st, last)
  {
    assert lines[..|lines| - 1] == init;
  }

  /** One more item line appends its element to the block's value. */
  lemma BlockValueNext(items: seq<string>, k: nat)
    requires 0 < k <= |items|
    requires forall i :: 0 <= i < |items| ==> IsItemLine(items[i])
    ensures BlockValue(items, k) == List(ValueList(BlockValue(items, k - 1)) + [ElementOf(Strip(items[k - 1]))])
  {
    assert items[..k][..k - 1] == items[..k - 1];
  }

  /** The elements held by `None` or a list. */
  function ValueList(v: Value): seq<Value> {
    if v.List? then v.items else []
  }

  /** An item line under a current key holding `None` or a list appends to that list. */
  lemma ItemStep(st: Scan, ln: string)
    requires Tracked(st) && IsItemLine(ln) && st.current != []
    requires st.fm[st.current].Null? || st.fm[st.current].List?
    ensures Step(st, ln)
      == Ok(Scan(st.fm[st.current := List(ValueList(st.fm[st.current]) + [ElementOf(Strip(ln))])], st.current))
  {
    assert !IsKeyLine(ln);
    assert Strip(ln)[0] == '-';
    assert !IsSkipped(ln);
    assert [] + [ElementOf(Strip(ln))] == [ElementOf(Strip(ln))];
  }

  /** A brace item is kept as raw text, not parsed. */
  lemma BraceItemRaw(inner: string)
    requires inner == [] || !IsSpace(inner[|inner| - 1])
    ensures ElementOf("- {" + inner) == Str("{" + inner)
  {
    var t := "- {" + inner;
    var b := "{" + inner;
    assert t[1..] == " " + b;
    assert (" " + b)[1..] == b;
    assert LStrip(" " + b) == LStrip(b) == b;
    StripNoSpace(b);
  }

  /** Indented lines that are not list items, such as the lines of a nested mapping, change
      nothing: such a key keeps `None`. */
  lemma NestedLineIgnored(st: Scan, ln: string)
    requires Tracked(st) && !IsSkipped(ln) && StartsWith(ln, " ") && !StartsWith(Strip(ln), "-")
    ensures Step(st, ln) == Ok(st)
  {
  }

  // ---------------------------------------------------------------------------
  // Properties of validate_bearing_card
  // ---------------------------------------------------------------------------

  /** Without front matter there is exactly one finding. */
  lemma NoFrontMatterOneIssue(text: string)
    requires FrontMatter(text) == Ok(map[])
    ensures CardVerdict(text) == Ok([MissingFrontMatter])
  {
  }

  /** A page that is not a bearing card has no findings. */
  lemma NotACardNoIssues(fm: map<string, Value>)
    requires fm != map[] && !IsCard(fm)
    ensures Issues(fm) == []
  {
  }

  /** A card is missing its designation, or has it as a plain string, exactly when the
      corresponding finding is reported. */
  lemma DesignationIssuesIff(fm: map<string, Value>)
    requires IsCard(fm)
    ensures MissingDesignation in Issues(fm) <==> "designation" !in fm
    ensures DesignationNotMapping in Issues(fm) <==> "designation" in fm && fm["designation"].Str?
  {
  }

  /** A card is missing its dimensions, or has an inline mapping without `d`, `D` or `B`,
      exactly when the corresponding finding is reported. */
  lemma DimsIssuesIff(fm: map<string, Value>)
    requires IsCard(fm)
    ensures MissingDims in Issues(fm) <==> "dims" !in fm
    ensures DimsIncomplete in Issues(fm) <==>
      "dims" in fm && fm["dims"].Str? && Contains(fm["dims"].s, "{") &&
      (!Contains(fm["dims"].s, "d:") || !Contains(fm["dims"].s, "D:") || !Contains(fm["dims"].s, "B:"))
  {
  }

  /** A non-list `equivalents` and an empty one are each reported, and only then. */
  lemma EquivalentsIssuesIff(fm: map<string, Value>)
    requires IsCard(fm)
    ensures EquivalentsNotList in Issues(fm) <==> "equivalents" in fm && !fm["equivalents"].List?
    ensures EquivalentsEmpty in Issues(fm) <==> "equivalents" in fm && fm["equivalents"] == List([])
  {
  }

  /** `dynamic_C_kN` contains `C_kN`, so the load check only asks for `C_kN`. */
  lemma LoadIssueIff(fm: map<string, Value>)
    requires IsCard(fm)
    ensures LoadWithoutDynamic in Issues(fm) <==>
      "load_capacity" in fm && fm["load_capacity"].Str? && Contains(fm["load_capacity"].s, "{") &&
      !Contains(fm["load_capacity"].s, "C_kN")
  {
    if "load_capacity" in fm && fm["load_capacity"].Str? && Contains(fm["load_capacity"].s, "dynamic_C_kN") {
      ContainsAt("dynamic_C_kN", "C_kN", 8);
      ContainsTrans(fm["load_capacity"].s, "dynamic_C_kN", "C_kN");
    }
  }

  /** A card gets at most one finding per field, so at most four. */
  lemma AtMostFourIssues(fm: map<string, Value>)
    ensures |Issues(fm)| <= 4
  {
  }
}
