/** scripts/generate_bearing_cards.py: the naming helpers of the card generator (bore code,
    size bucket, folder name, full designation), the equivalents lookup and table, the tag
    list of a card, and the loop of `main` that numbers new cards and skips existing ones. */
module CardGenerator {
  import opened Text
  import opened Results
  import Numerals

  // ---------------------------------------------------------------------------
  // Bore code and size bucket
  // ---------------------------------------------------------------------------

  /** `bore_code(d_mm)`: `str(d)` below 10, the codes 00 to 03 for 10, 12, 15 and 17, and
      `d // 5` on two digits from 20 on. */
  function BoreCode(d: int): string {
    if d < 10 then Numerals.IntToString(d)
    else if d < 20 then
      if d == 10 then "00" else if d == 12 then "01" else if d == 15 then "02" else if d == 17 then "03"
      else Numerals.IntToString(d)
    else Numerals.ZeroPad(d / 5, 2)
  }

  /** `size_bucket(d_mm)` */
  function SizeBucket(d: int): string {
    if d <= 17 then "small" else if d <= 30 then "medium" else "large"
  }

  /** The order of the buckets, smallest first. */
  function BucketRank(b: string): nat {
    if b == "small" then 0 else if b == "medium" then 1 else 2
  }

  // ---------------------------------------------------------------------------
  // Folder name and full designation
  // ---------------------------------------------------------------------------

  /** The lower-cased suffixes, in order. */
  function LowerEach(ss: seq<string>): (r: seq<string>)
    ensures |r| == |ss| && forall i :: 0 <= i < |ss| ==> r[i] == Lower(ss[i])
    decreases |ss|
  {
    if ss == [] then [] else LowerEach(ss[..|ss| - 1]) + [Lower(ss[|ss| - 1])]
  }

  /** `folder_name(base, suffixes)` */
  function FolderNameOf(base: string, ss: seq<string>): string {
    Join([Lower(base)] + LowerEach(ss), "-")
  }

  /** `folder_name`: collect the lower-cased parts, then join them with `-`. */
  method FolderName(base: string, ss: seq<string>) returns (name: string)
    ensures name == FolderNameOf(base, ss)
  {
    var parts := [Lower(base)];
    for i := 0 to |ss|
      invariant parts == [Lower(base)] + LowerEach(ss[..i])
    {
      assert ss[..i + 1][..i] == ss[..i];
      parts := parts + [Lower(ss[i])];
    }
    assert ss[..|ss|] == ss;
    name := Join(parts, "-");
  }

  /** The suffixes that follow the base after a hyphen when they come first. */
  const DashSuffixes: seq<string> := ["2RS", "2Z", "B"]

  /** The separator in front of the first suffix. */
  function FirstSeparator(s: string): string {
    if s in DashSuffixes then "-" else " "
  }

  /** What the loop of `full_designation` appends, suffix by suffix. */
  function Pieces(ss: seq<string>): string
    decreases |ss|
  {
    if ss == [] then []
    else
      var i := |ss| - 1;
      Pieces(ss[..i]) + (if i == 0 then FirstSeparator(ss[0]) else " ") + ss[i]
  }

  /** `full_designation(base, suffixes)` */
  function FullDesignationOf(base: string, ss: seq<string>): string {
    if ss == [] then base else base + Pieces(ss)
  }

  /** `full_designation`: the base, then each suffix with its separator. */
  method FullDesignation(base: string, ss: seq<string>) returns (result: string)
    ensures result == FullDesignationOf(base, ss)
  {
    if ss == [] {
      return base;
    }
    result := base;
    for i := 0 to |ss|
      invariant result == base + Pieces(ss[..i])
    {
      assert ss[..i + 1][..i] == ss[..i];
      if i == 0 {
        if ss[i] in DashSuffixes {
          result := result + ("-" + ss[i]);
        } else {
          result := result + (" " + ss[i]);
        }
      } else {
        result := result + (" " + ss[i]);
      }
    }
    assert ss[..|ss|] == ss;
  }

  // ---------------------------------------------------------------------------
  // Equivalents
  // ---------------------------------------------------------------------------

  /** A CSV row of the equivalents file, by column. */
  type Row = map<string, string>

  /** `row.get(key, "")` */
  function Get(m: map<string, string>, key: string): string {
    if key in m then m[key] else ""
  }

  /** `get_equiv_row`: the row of the full designation, else the row of the base. */
  function GetEquivRow(equivalents: map<string, Row>, base: string, ss: seq<string>): Option<Row> {
    var full := FullDesignationOf(base, ss);
    if full in equivalents then Some(equivalents[full])
    else if base in equivalents then Some(equivalents[base])
    else None
  }

  /** The manufacturers of the table, in order: the CSV column and the name shown. */
  function Manufacturer(k: nat): (string, string)
    requires k < 5
  {
    if k == 0 then ("SKF", "SKF")
    else if k == 1 then ("FAG", "FAG")
    else if k == 2 then ("NTN", "NTN")
    else if k == 3 then ("NSK", "NSK")
    else ("GOST", "ГОСТ")
  }

  /** The position of a shown manufacturer name in the table order. */
  function Rank(display: string): nat {
    if display == "SKF" then 0
    else if display == "FAG" then 1
    else if display == "NTN" then 2
    else if display == "NSK" then 3
    else 4
  }

  const SealedNotes: map<string, string> := map[
    "SKF" := "Премиум качество, Heavy duty уплотнение",
    "FAG" := "Премиум, точка вместо дефиса",
    "NTN" := "LLU = низкое трение уплотнения",
    "NSK" := "DDU = двойное уплотнение",
    "ГОСТ" := "Отечественный, код \"18\" = двухстороннее уплотнение"]

  const AngularNotes: map<string, string> := map[
    "SKF" := "BEP = полиамидный сепаратор, 40° контакт",
    "FAG" := "B = 40°, XL = усиленный, TVP = полиамидный сепаратор",
    "NTN" := "B = 40° угол контакта",
    "NSK" := "B = 40° угол контакта",
    "ГОСТ" := "Отечественный, код \"46\" = радиально-упорный"]

  const BaseNotes: map<string, string> := map[
    "SKF" := "", "FAG" := "", "NTN" := "", "NSK" := "", "ГОСТ" := "Отечественный аналог"]

  /** `any(s in ("2RS", "2Z") for s in suffixes)` */
  predicate HasSeal(ss: seq<string>) {
    "2RS" in ss || "2Z" in ss
  }

  /** The notes used for the table: sealed before angular before plain. */
  function NotesFor(btype: string, ss: seq<string>): map<string, string> {
    if HasSeal(ss) then SealedNotes
    else if btype == "ball_angular" then AngularNotes
    else BaseNotes
  }

  /** The table row of the `k`-th manufacturer. */
  function RowFor(row: Row, notes: map<string, string>, k: nat): (string, string, string)
    requires k < 5
  {
    (Manufacturer(k).1, Get(row, Manufacturer(k).0), Get(notes, Manufacturer(k).1))
  }

  /** The rows of the first `k` manufacturers that have a code. */
  function RowsUpTo(row: Row, notes: map<string, string>, k: nat): seq<(string, string, string)>
    requires k <= 5
  {
    if k == 0 then []
    else RowsUpTo(row, notes, k - 1) + (if Get(row, Manufacturer(k - 1).0) != "" then [RowFor(row, notes, k - 1)] else [])
  }

  /** `_equiv_table_rows(equiv_row, bearing_type, suffixes)` */
  function TableRows(equivRow: Option<Row>, btype: string, ss: seq<string>): seq<(string, string, string)> {
    match equivRow
    case None => []
    case Some(row) => RowsUpTo(row, NotesFor(btype, ss), 5)
  }

  /** `_equiv_table_rows`: one row per manufacturer with a code, in table order. */
  method EquivTableRows(equivRow: Option<Row>, btype: string, ss: seq<string>)
    returns (rows: seq<(string, string, string)>)
    ensures rows == TableRows(equivRow, btype, ss)
  {
    if equivRow.None? {
      return [];
    }
    var notes := NotesFor(btype, ss);
    rows := [];
    for k := 0 to 5
      invariant rows == RowsUpTo(equivRow.value, notes, k)
    {
      var (csv, display) := Manufacturer(k);
      var code := Get(equivRow.value, csv);
      if code != "" {
        rows := rows + [(display, code, Get(notes, display))];
      }
    }
  }

  // ---------------------------------------------------------------------------
  // Tags
  // ---------------------------------------------------------------------------

  /** `TYPE_INFO[btype]["tags_extra"]`; an unknown type raises `KeyError`. */
  function TypeTags(btype: string): Option<seq<string>> {
    if btype == "ball_radial" then Some(["radial", "deep-groove"])
    else if btype == "ball_angular" then Some(["angular-contact"])
    else None
  }

  /** The tag of a suffix in `SUFFIX_INFO`; `B` has none, and unknown suffixes have no entry. */
  function SuffixTag(s: string): Option<string> {
    if s == "2RS" then Some("sealed") else if s == "C3" then Some("c3") else None
  }

  /** The tags the suffixes add, in order. */
  function SuffixTags(ss: seq<string>): seq<string>
    decreases |ss|
  {
    if ss == [] then []
    else
      var t := SuffixTag(ss[|ss| - 1]);
      SuffixTags(ss[..|ss| - 1]) + (if t.Some? then [t.value] else [])
  }

  /** The tag list of a card. */
  function TagsOf(extra: seq<string>, series: string, ss: seq<string>): seq<string> {
    ["bearing", "ball"] + extra + [series] + SuffixTags(ss)
  }

  /** The tag list built in `generate_card`. */
  method CardTags(btype: string, series: string, ss: seq<string>) returns (r: Option<seq<string>>)
    ensures r == if TypeTags(btype).None? then None else Some(TagsOf(TypeTags(btype).value, series, ss))
  {
    var info := TypeTags(btype);
    if info.None? {
      return None;
    }
    var tags := ["bearing", "ball"] + info.value + [series];
    for i := 0 to |ss|
      invariant tags == TagsOf(info.value, series, ss[..i])
    {
      assert ss[..i + 1][..i] == ss[..i];
      var t := SuffixTag(ss[i]);
      if t.Some? {
        tags := tags + [t.value];
      }
    }
    assert ss[..|ss|] == ss;
    return Some(tags);
  }

  // ---------------------------------------------------------------------------
  // The loop of main
  // ---------------------------------------------------------------------------

  /** The columns of a catalog row that naming and numbering use. */
  datatype CatalogRow = CatalogRow(designation: string, btype: string, series: string)

  /** What the model keeps of a written card: its id and the parts computed above. */
  datatype Card = Card(id: string, designation: string, fullDesignation: string, suffixes: seq<string>,
                       tags: seq<string>, table: seq<(string, string, string)>)

  /** The state of the loop: the folder names generated and skipped, `current_id`, the folders
      that hold a `README.md`, and the cards written in this run. */
  datatype Batch = Batch(generated: seq<string>, skipped: seq<string>, currentId: int,
                         existing: set<string>, cards: map<string, Card>)

  /** A row whose type has no `TYPE_INFO` entry raises `KeyError`; `done` is the state of
      the loop when it raised, whose cards are already on disk. */
  datatype GenError = UnknownType(btype: string, done: Batch)

  /** `f"KB-RU-{current_id:06d}"` */
  function CardId(n: int): string {
    "KB-RU-" + Numerals.ZeroPad(n, 6)
  }

  /** `[s.strip() for s in args.suffixes.split(",") if s.strip()] if args.suffixes else []` */
  function SuffixList(arg: string): (r: seq<string>)
    ensures forall i :: 0 <= i < |r| ==> r[i] != []
  {
    if arg == [] then [] else NonBlank(Split(arg, ','))
  }

  function NonBlank(parts: seq<string>): (r: seq<string>)
    ensures |r| <= |parts| && forall i :: 0 <= i < |r| ==> r[i] != []
    decreases |parts|
  {
    if parts == [] then []
    else
      var p := Strip(parts[|parts| - 1]);
      NonBlank(parts[..|parts| - 1]) + (if p != [] then [p] else [])
  }

  /** An angular-contact row with no suffixes gets `B`. */
  function CardSuffixes(row: CatalogRow, ss: seq<string>): seq<string> {
    if row.btype == "ball_angular" && ss == [] then ["B"] else ss
  }

  /** The card written for a row, or the `KeyError` of an unknown type. */
  function NewCard(row: CatalogRow, cs: seq<string>, equivalents: map<string, Row>, id: string): Option<Card> {
    match TypeTags(row.btype)
    case None => None
    case Some(extra) =>
      Some(Card(id, row.designation, FullDesignationOf(row.designation, cs), cs,
                TagsOf(extra, row.series, cs),
                TableRows(GetEquivRow(equivalents, row.designation, cs), row.btype, cs)))
  }

  /** One pass of the loop of `main`. */
  function GenStep(b: Batch, row: CatalogRow, ss: seq<string>, equivalents: map<string, Row>, dryRun: bool)
    : Result<Batch, GenError>
  {
    var cs := CardSuffixes(row, ss);
    var fname := FolderNameOf(row.designation, cs);
    if fname in b.existing then Ok(b.(skipped := b.skipped + [fname]))
    else
      match NewCard(row, cs, equivalents, CardId(b.currentId))
      case None => Err(UnknownType(row.btype, b))
      case Some(card) =>
        Ok(Batch(b.generated + [fname], b.skipped, b.currentId + 1,
                 if dryRun then b.existing else b.existing + {fname},
                 if dryRun then b.cards else b.cards[fname := card]))
  }

  /** The loop over the catalog rows, stopping at the first exception. */
  function Generated(b0: Batch, rows: seq<CatalogRow>, ss: seq<string>, equivalents: map<string, Row>, dryRun: bool)
    : Result<Batch, GenError>
    decreases |rows|
  {
    if rows == [] then Ok(b0)
    else match Generated(b0, rows[..|rows| - 1], ss, equivalents, dryRun)
      case Err(e) => Err(e)
      case Ok(b) => GenStep(b, rows[|rows| - 1], ss, equivalents, dryRun)
  }

  /** `main` on the parsed arguments and the folders that already hold a card. */
  function RunGenerator(catalog: seq<CatalogRow>, suffixArg: string, equivalents: map<string, Row>,
                        existing: set<string>, idStart: int, dryRun: bool): Result<Batch, GenError>
  {
    Generated(Batch([], [], idStart, existing, map[]), catalog, SuffixList(suffixArg), equivalents, dryRun)
  }

  /** The body of the loop of `main` for one catalog row. */
  method GenerateOne(b: Batch, row: CatalogRow, ss: seq<string>, equivalents: map<string, Row>, dryRun: bool)
    returns (r: Result<Batch, GenError>)
    ensures r == GenStep(b, row, ss, equivalents, dryRun)
  {
    var cs := CardSuffixes(row, ss);
    var fname := FolderName(row.designation, cs);
    if fname in b.existing {
      return Ok(b.(skipped := b.skipped + [fname]));
    }
    var equivRow := GetEquivRow(equivalents, row.designation, cs);
    var id := CardId(b.currentId);
    var tags := CardTags(row.btype, row.series, cs);
    if tags.None? {
      return Err(UnknownType(row.btype, b));
    }
    var full := FullDesignation(row.designation, cs);
    var table := EquivTableRows(equivRow, row.btype, cs);
    var card := Card(id, row.designation, full, cs, tags.value, table);
    var existing := if dryRun then b.existing else b.existing + {fname};
    var cards := if dryRun then b.cards else b.cards[fname := card];
    return Ok(Batch(b.generated + [fname], b.skipped, b.currentId + 1, existing, cards));
  }

  /** `main`: number the new cards from `idStart`, skip the folders that hold one already. */
  method GenerateCards(catalog: seq<CatalogRow>, suffixArg: string, equivalents: map<string, Row>,
                       existing: set<string>, idStart: int, dryRun: bool) returns (r: Result<Batch, GenError>)
    ensures r == RunGenerator(catalog, suffixArg, equivalents, existing, idStart, dryRun)
  {
    var ss := SuffixList(suffixArg);
    var b := Batch([], [], idStart, existing, map[]);
    for i := 0 to |catalog|
      invariant Generated(Batch([], [], idStart, existing, map[]), catalog[..i], ss, equivalents, dryRun) == Ok(b)
    {
      var next := GenerateOne(b, catalog[i], ss, equivalents, dryRun);
      GeneratedSnoc(Batch([], [], idStart, existing, map[]), catalog, i, ss, equivalents, dryRun);
      if next.Err? {
        GenErrorSticks(Batch([], [], idStart, existing, map[]), catalog, i + 1, ss, equivalents, dryRun);
        return next;
      }
      b := next.value;
    }
    assert catalog[..|catalog|] == catalog;
    return Ok(b);
  }

  lemma GeneratedSnoc(b0: Batch, rows: seq<CatalogRow>, i: nat, ss: seq<string>, equivalents: map<string, Row>,
                      dryRun: bool)
    requires i < |rows| && Generated(b0, rows[..i], ss, equivalents, dryRun).Ok?
    ensures Generated(b0, rows[..i + 1], ss, equivalents, dryRun)
         == GenStep(Generated(b0, rows[..i], ss, equivalents, dryRun).value, rows[i], ss, equivalents, dryRun)
  {
    assert rows[..i + 1][..i] == rows[..i];
    assert rows[..i + 1][i] == rows[i];
  }

  /** Once a row raises, the rest of the catalog is not looked at. */
  lemma {:induction false} GenErrorSticks(b0: Batch, rows: seq<CatalogRow>, n: nat, ss: seq<string>,
                                          equivalents: map<string, Row>, dryRun: bool)
    requires n <= |rows| && Generated(b0, rows[..n], ss, equivalents, dryRun).Err?
    ensures Generated(b0, rows, ss, equivalents, dryRun) == Generated(b0, rows[..n], ss, equivalents, dryRun)
    decreases |rows| - n
  {
    if n < |rows| {
      assert rows[..n + 1][..n] == rows[..n];
      GenErrorSticks(b0, rows, n + 1, ss, equivalents, dryRun);
    } else {
      assert rows[..n] == rows;
    }
  }

  // ---------------------------------------------------------------------------
  // Properties of the naming helpers
  // ---------------------------------------------------------------------------

  /** From 20 mm on, the code is the bore divided by five, on at least two digits; below
      10 mm it is the bore itself. */
  lemma BoreCodeReadsBack(d: int)
    ensures d >= 20 ==> |BoreCode(d)| >= 2 && Numerals.IsIntLiteral(BoreCode(d))
                        && Numerals.IntValue(BoreCode(d)) == d / 5
    ensures d >= 20 && d % 5 == 0 ==> Numerals.IntValue(BoreCode(d)) * 5 == d
    ensures 0 <= d < 10 ==> BoreCode(d) == [Numerals.DigitChar(d)]
  {
    if d >= 20 {
      Numerals.ZeroPadRoundTrip(d / 5, 2);
      Numerals.ZeroPadLength(d / 5, 2);
    }
  }

  /** Bores from 20 mm that are multiples of five have distinct codes. */
  lemma BoreCodeInjective(d1: int, d2: int)
    requires d1 >= 20 && d2 >= 20 && d1 % 5 == 0 && d2 % 5 == 0
    requires BoreCode(d1) == BoreCode(d2)
    ensures d1 == d2
  {
    BoreCodeReadsBack(d1);
    BoreCodeReadsBack(d2);
  }

  /** Between 10 and 19 mm the code has two characters, and it is one of 00 to 03 exactly
      for the standard bores 10, 12, 15 and 17. */
  lemma SmallBoreCodes(d: int)
    requires 10 <= d < 20
    ensures |BoreCode(d)| == 2
    ensures BoreCode(d) in ["00", "01", "02", "03"] <==> d in [10, 12, 15, 17]
  {
    if d !in [10, 12, 15, 17] {
      assert Numerals.IntToString(d) == Numerals.NatToString(d / 10) + [Numerals.DigitChar(d % 10)];
      assert Numerals.NatToString(d / 10) == "1";
      assert BoreCode(d)[0] == '1';
    }
  }

  /** The buckets follow the bore: a larger bore never falls in a smaller bucket. */
  lemma SizeBucketMonotone(d1: int, d2: int)
    requires d1 <= d2
    ensures BucketRank(SizeBucket(d1)) <= BucketRank(SizeBucket(d2))
  {
  }

  /** The bucket boundaries: small up to 17 mm, medium up to 30 mm, large above. */
  lemma SizeBucketBounds(d: int)
    ensures SizeBucket(d) == "small" <==> d <= 17
    ensures SizeBucket(d) == "medium" <==> 17 < d <= 30
    ensures SizeBucket(d) == "large" <==> 30 < d
  {
  }

  /** Without suffixes the folder is the lower-cased base. */
  lemma FolderNameNoSuffix(base: string)
    ensures FolderNameOf(base, []) == Lower(base)
  {
    assert [Lower(base)] + LowerEach([]) == [Lower(base)];
  }

  /** The parts of a folder name hold no hyphen when the base and suffixes hold none. */
  lemma FolderPartsNoHyphen(base: string, ss: seq<string>)
    requires '-' !in Lower(base)
    requires forall i :: 0 <= i < |ss| ==> '-' !in Lower(ss[i])
    ensures forall k :: 0 <= k < |[Lower(base)] + LowerEach(ss)| ==> '-' !in ([Lower(base)] + LowerEach(ss))[k]
  {
    var parts := [Lower(base)] + LowerEach(ss);
    forall k | 0 <= k < |parts|
      ensures '-' !in parts[k]
    {
      if k == 0 {
        assert parts[0] == Lower(base);
      } else {
        assert parts[k] == LowerEach(ss)[k - 1];
      }
    }
  }

  /** The folder name splits back at its hyphens into the lower-cased base and suffixes,
      when none of them holds a hyphen. */
  lemma FolderNameSplits(base: string, ss: seq<string>)
    requires '-' !in Lower(base)
    requires forall i :: 0 <= i < |ss| ==> '-' !in Lower(ss[i])
    ensures Split(FolderNameOf(base, ss), '-') == [Lower(base)] + LowerEach(ss)
  {
    FolderPartsNoHyphen(base, ss);
    assert "-" == ['-'];
    SplitJoin([Lower(base)] + LowerEach(ss), '-');
  }

  /** `sep.join` with one more part at the end. */
  lemma {:induction false} JoinSnoc(parts: seq<string>, x: string, sep: string)
    requires |parts| >= 1
    ensures Join(parts + [x], sep) == Join(parts, sep) + sep + x
    decreases |parts|
  {
    if |parts| == 1 {
      assert (parts + [x])[1..] == [x];
    } else {
      assert (parts + [x])[1..] == parts[1..] + [x];
      JoinSnoc(parts[1..], x, sep);
    }
  }

  /** The suffixes are appended as in `" ".join`, after the separator of the first one. */
  lemma {:induction false} PiecesJoin(ss: seq<string>)
    requires |ss| >= 1
    ensures Pieces(ss) == FirstSeparator(ss[0]) + Join(ss, " ")
    decreases |ss|
  {
    if |ss| == 1 {
      assert ss[..0] == [];
    } else {
      var i := |ss| - 1;
      PiecesJoin(ss[..i]);
      assert ss[..i][0] == ss[0];
      JoinSnoc(ss[..i], ss[i], " ");
      assert ss[..i] + [ss[i]] == ss;
    }
  }

  /** The full designation is the base, a hyphen for 2RS, 2Z or B (a space otherwise), and
      the suffixes separated by spaces. */
  lemma FullDesignationShape(base: string, ss: seq<string>)
    requires ss != []
    ensures FullDesignationOf(base, ss) == base + FirstSeparator(ss[0]) + Join(ss, " ")
  {
    PiecesJoin(ss);
    AppendAssoc(base, FirstSeparator(ss[0]), Join(ss, " "));
  }

  lemma AppendAssoc(a: string, b: string, c: string)
    ensures a + (b + c) == a + b + c
  {
  }

  /** The character after the base is a hyphen exactly when the first suffix is 2RS, 2Z or B. */
  lemma FullDesignationDash(base: string, ss: seq<string>)
    requires ss != []
    ensures FullDesignationOf(base, ss)[|base|] == '-' <==> ss[0] in DashSuffixes
  {
    FullDesignationShape(base, ss);
    SeparatorChar(ss[0]);
    FirstCharAfter(FullDesignationOf(base, ss), base, FirstSeparator(ss[0]), Join(ss, " "));
  }

  /** The separator is one character, a hyphen exactly for 2RS, 2Z and B. */
  lemma SeparatorChar(s: string)
    ensures |FirstSeparator(s)| == 1 && (FirstSeparator(s)[0] == '-' <==> s in DashSuffixes)
  {
    if s in DashSuffixes {
      assert FirstSeparator(s) == "-";
    } else {
      assert FirstSeparator(s) == " ";
    }
  }

  lemma FirstCharAfter(full: string, base: string, sep: string, rest: string)
    requires full == base + sep + rest && |sep| == 1
    ensures |base| < |full| && full[|base|] == sep[0]
  {
  }

  /** The example of the docstring. */
  lemma FullDesignationExample()
    ensures FullDesignationOf("6205", ["2RS", "C3"]) == "6205-2RS C3"
  {
    FullDesignationShape("6205", ["2RS", "C3"]);
  }

  /** The equivalents row is found exactly when the full designation or the base is a key,
      and the full designation wins. */
  lemma EquivRowPreference(equivalents: map<string, Row>, base: string, ss: seq<string>)
    ensures GetEquivRow(equivalents, base, ss).Some? <==>
      FullDesignationOf(base, ss) in equivalents || base in equivalents
    ensures FullDesignationOf(base, ss) in equivalents ==>
      GetEquivRow(equivalents, base, ss) == Some(equivalents[FullDesignationOf(base, ss)])
    ensures ss == [] ==> GetEquivRow(equivalents, base, ss) == (if base in equivalents then Some(equivalents[base]) else None)
  {
  }

  // ---------------------------------------------------------------------------
  // Properties of the equivalents table
  // ---------------------------------------------------------------------------

  lemma RankOfManufacturer(k: nat)
    requires k < 5
    ensures Rank(Manufacturer(k).1) == k
  {
  }

  /** The rows of the first `k` manufacturers: each is the row of one of them with a
      non-empty code, a manufacturer has a row exactly when its code is non-empty, and the
      rows follow the table order. */
  lemma {:induction false} RowsUpToShape(row: Row, notes: map<string, string>, k: nat)
    requires k <= 5
    ensures var rows := RowsUpTo(row, notes, k);
      |rows| <= k &&
      (forall i :: 0 <= i < |rows| ==>
        Rank(rows[i].0) < k && rows[i] == RowFor(row, notes, Rank(rows[i].0)) && rows[i].1 != "") &&
      (forall j :: 0 <= j < k ==> (RowFor(row, notes, j) in rows <==> Get(row, Manufacturer(j).0) != "")) &&
      (forall i, i2 :: 0 <= i < i2 < |rows| ==> Rank(rows[i].0) < Rank(rows[i2].0))
    decreases k
  {
    if k > 0 {
      RowsUpToShape(row, notes, k - 1);
      RankOfManufacturer(k - 1);
      var prev := RowsUpTo(row, notes, k - 1);
      forall j | 0 <= j < k - 1
        ensures RowFor(row, notes, j) != RowFor(row, notes, k - 1)
      {
        RankOfManufacturer(j);
      }
      if Get(row, Manufacturer(k - 1).0) != "" {
        assert RowFor(row, notes, k - 1) !in prev;
      }
    }
  }

  /** At most five rows, in the order SKF, FAG, NTN, NSK, ГОСТ, one for each manufacturer
      with a code and none for one without; no row without an equivalents row. */
  lemma TableRowsShape(equivRow: Option<Row>, btype: string, ss: seq<string>)
    ensures equivRow.None? ==> TableRows(equivRow, btype, ss) == []
    ensures var rows := TableRows(equivRow, btype, ss);
      |rows| <= 5 &&
      (forall i :: 0 <= i < |rows| ==> rows[i].1 != "") &&
      (forall i, i2 :: 0 <= i < i2 < |rows| ==> Rank(rows[i].0) < Rank(rows[i2].0))
    ensures equivRow.Some? ==> forall j :: 0 <= j < 5 ==>
      var present := RowFor(equivRow.value, NotesFor(btype, ss), j) in TableRows(equivRow, btype, ss);
      present <==> Get(equivRow.value, Manufacturer(j).0) != ""
  {
    if equivRow.Some? {
      RowsUpToShape(equivRow.value, NotesFor(btype, ss), 5);
    }
  }

  /** A sealed suffix decides the notes whatever the type; otherwise angular contact does. */
  lemma NotesPriority(btype: string, ss: seq<string>)
    ensures HasSeal(ss) ==> NotesFor(btype, ss) == SealedNotes
    ensures !HasSeal(ss) && btype == "ball_angular" ==> NotesFor(btype, ss) == AngularNotes
    ensures !HasSeal(ss) && btype != "ball_angular" ==> NotesFor(btype, ss) == BaseNotes
    ensures NotesFor(btype, ss)["ГОСТ"] != ""
  {
  }

  // ---------------------------------------------------------------------------
  // Properties of the tag list
  // ---------------------------------------------------------------------------

  /** The tags of two runs of suffixes are the tags of each, in order. */
  lemma {:induction false} SuffixTagsAppend(a: seq<string>, b: seq<string>)
    ensures SuffixTags(a + b) == SuffixTags(a) + SuffixTags(b)
    decreases |b|
  {
    if b != [] {
      var n := |b| - 1;
      assert (a + b)[..|a + b| - 1] == a + b[..n];
      assert (a + b)[|a + b| - 1] == b[n];
      SuffixTagsAppend(a, b[..n]);
    } else {
      assert a + b == a;
    }
  }

  /** `B` adds no tag, wherever it stands. */
  lemma BAddsNoTag(a: seq<string>, b: seq<string>)
    ensures SuffixTags(a + ["B"] + b) == SuffixTags(a + b)
  {
    SuffixTagsAppend(a + ["B"], b);
    SuffixTagsAppend(a, ["B"]);
    SuffixTagsAppend(a, b);
    assert ["B"][..0] == [];
  }

  /** `sealed` is added exactly for 2RS and `c3` exactly for C3, one tag at most per suffix. */
  lemma {:induction false} SuffixTagsContents(ss: seq<string>)
    ensures "sealed" in SuffixTags(ss) <==> "2RS" in ss
    ensures "c3" in SuffixTags(ss) <==> "C3" in ss
    ensures |SuffixTags(ss)| <= |ss|
    decreases |ss|
  {
    if ss != [] {
      var n := |ss| - 1;
      SuffixTagsContents(ss[..n]);
      assert ss == ss[..n] + [ss[n]];
    }
  }

  // ---------------------------------------------------------------------------
  // Properties of the loop of main
  // ---------------------------------------------------------------------------

  /** Every card written so far has an id numbered from `start` below `currentId`, the ids
      are pairwise distinct, and every written folder now holds a card. */
  predicate IdsFrom(b: Batch, start: int) {
    (forall f :: f in b.cards ==> exists n :: start <= n < b.currentId && b.cards[f].id == CardId(n)) &&
    (forall f, g :: f in b.cards && g in b.cards && f != g ==> b.cards[f].id != b.cards[g].id) &&
    b.cards.Keys <= b.existing
  }

  lemma CardIdInjective(m: int, n: int)
    requires CardId(m) == CardId(n)
    ensures m == n
  {
    assert CardId(m)[6..] == Numerals.ZeroPad(m, 6);
    assert CardId(n)[6..] == Numerals.ZeroPad(n, 6);
    Numerals.ZeroPadInjective(m, n, 6);
  }

  /** One row: a skipped folder uses no id; a generated one uses `currentId` and moves it on. */
  lemma StepCounts(b: Batch, row: CatalogRow, ss: seq<string>, equivalents: map<string, Row>, dryRun: bool)
    requires GenStep(b, row, ss, equivalents, dryRun).Ok?
    ensures var b2 := GenStep(b, row, ss, equivalents, dryRun).value;
      var fname := FolderNameOf(row.designation, CardSuffixes(row, ss));
      (fname in b.existing ==> b2 == b.(skipped := b.skipped + [fname])) &&
      (fname !in b.existing ==> b2.generated == b.generated + [fname] && b2.skipped == b.skipped &&
                                b2.currentId == b.currentId + 1 &&
                                (!dryRun ==> fname in b2.cards && b2.cards[fname].id == CardId(b.currentId)))
  {
  }

  lemma StepKeepsIds(b: Batch, start: int, row: CatalogRow, ss: seq<string>, equivalents: map<string, Row>,
                     dryRun: bool)
    requires IdsFrom(b, start) && start <= b.currentId
    requires GenStep(b, row, ss, equivalents, dryRun).Ok?
    ensures var b2 := GenStep(b, row, ss, equivalents, dryRun).value;
      IdsFrom(b2, start) && start <= b2.currentId
  {
    var b2 := GenStep(b, row, ss, equivalents, dryRun).value;
    var fname := FolderNameOf(row.designation, CardSuffixes(row, ss));
    if fname !in b.existing && !dryRun {
      forall f | f in b2.cards
        ensures exists n :: start <= n < b2.currentId && b2.cards[f].id == CardId(n)
      {
        if f == fname {
          assert b2.cards[f].id == CardId(b.currentId);
        } else {
          var n :| start <= n < b.currentId && b.cards[f].id == CardId(n);
          assert b2.cards[f].id == CardId(n);
        }
      }
      forall f, g | f in b2.cards && g in b2.cards && f != g
        ensures b2.cards[f].id != b2.cards[g].id
      {
        if f == fname || g == fname {
          var other := if f == fname then g else f;
          var n :| start <= n < b.currentId && b.cards[other].id == CardId(n);
          if b2.cards[f].id == b2.cards[g].id {
            assert CardId(n) == CardId(b.currentId);
            CardIdInjective(n, b.currentId);
          }
        }
      }
    }
  }

  /** Over any prefix of the catalog: the rows are counted once each as generated or
      skipped, `current_id` moved by the generated ones, and the ids stay distinct. */
  lemma {:induction false} GeneratedInvariant(b0: Batch, rows: seq<CatalogRow>, ss: seq<string>,
                                              equivalents: map<string, Row>, dryRun: bool)
    requires IdsFrom(b0, b0.currentId)
    requires Generated(b0, rows, ss, equivalents, dryRun).Ok?
    ensures var b := Generated(b0, rows, ss, equivalents, dryRun).value;
      |b.generated| + |b.skipped| == |b0.generated| + |b0.skipped| + |rows| &&
      |b0.generated| <= |b.generated| && b.currentId == b0.currentId + |b.generated| - |b0.generated| &&
      IdsFrom(b, b0.currentId)
    decreases |rows|
  {
    if rows != [] {
      var n := |rows| - 1;
      GeneratedInvariant(b0, rows[..n], ss, equivalents, dryRun);
      var b := Generated(b0, rows[..n], ss, equivalents, dryRun).value;
      assert Generated(b0, rows, ss, equivalents, dryRun) == GenStep(b, rows[n], ss, equivalents, dryRun);
      StepCounts(b, rows[n], ss, equivalents, dryRun);
      StepKeepsIds(b, b0.currentId, rows[n], ss, equivalents, dryRun);
    }
  }

  /** A run numbers its cards `KB-RU-` plus `idStart`, `idStart + 1`, ...: every row is
      generated or skipped, the next id is `idStart` plus the number generated, and the
      written cards have distinct ids in that range. */
  lemma RunIds(catalog: seq<CatalogRow>, suffixArg: string, equivalents: map<string, Row>,
               existing: set<string>, idStart: int, dryRun: bool)
    requires RunGenerator(catalog, suffixArg, equivalents, existing, idStart, dryRun).Ok?
    ensures var b := RunGenerator(catalog, suffixArg, equivalents, existing, idStart, dryRun).value;
      |b.generated| + |b.skipped| == |catalog| &&
      b.currentId == idStart + |b.generated| &&
      (forall f :: f in b.cards ==> exists n :: idStart <= n < idStart + |b.generated| && b.cards[f].id == CardId(n)) &&
      (forall f, g :: f in b.cards && g in b.cards && f != g ==> b.cards[f].id != b.cards[g].id)
  {
    GeneratedInvariant(Batch([], [], idStart, existing, map[]), catalog, SuffixList(suffixArg), equivalents, dryRun);
  }

  /** The folder of a catalog row. */
  function FolderOf(row: CatalogRow, ss: seq<string>): string {
    FolderNameOf(row.designation, CardSuffixes(row, ss))
  }

  /** The folders of the catalog rows. */
  function FolderSet(rows: seq<CatalogRow>, ss: seq<string>): (r: set<string>)
    decreases |rows|
  {
    if rows == [] then {} else FolderSet(rows[..|rows| - 1], ss) + {FolderOf(rows[|rows| - 1], ss)}
  }

  /** The folder of every row is in the set. */
  lemma {:induction false} FolderInSet(rows: seq<CatalogRow>, ss: seq<string>, i: nat)
    requires i < |rows|
    ensures FolderOf(rows[i], ss) in FolderSet(rows, ss)
    decreases |rows|
  {
    var n := |rows| - 1;
    if i < n {
      FolderInSet(rows[..n], ss, i);
      assert rows[..n][i] == rows[i];
    }
  }

  /** Nothing but the folders of the rows is in the set. */
  lemma {:induction false} SetHoldsFolders(rows: seq<CatalogRow>, ss: seq<string>, f: string)
    requires f in FolderSet(rows, ss)
    ensures exists i :: 0 <= i < |rows| && FolderOf(rows[i], ss) == f
    decreases |rows|
  {
    var n := |rows| - 1;
    if f == FolderOf(rows[n], ss) {
      assert 0 <= n < |rows| && FolderOf(rows[n], ss) == f;
    } else {
      SetHoldsFolders(rows[..n], ss, f);
      var i :| 0 <= i < n && FolderOf(rows[..n][i], ss) == f;
      assert rows[..n][i] == rows[i];
    }
  }

  /** A step that writes leaves the folder of its row holding a card. */
  lemma StepAddsFolder(b: Batch, row: CatalogRow, ss: seq<string>, equivalents: map<string, Row>)
    requires GenStep(b, row, ss, equivalents, false).Ok?
    ensures var b2 := GenStep(b, row, ss, equivalents, false).value;
      b.existing <= b2.existing && FolderOf(row, ss) in b2.existing
  {
  }

  /** After a run that writes, the folder of every row holds a card. */
  lemma {:induction false} WrittenFoldersExist(b0: Batch, rows: seq<CatalogRow>, ss: seq<string>,
                                               equivalents: map<string, Row>)
    requires Generated(b0, rows, ss, equivalents, false).Ok?
    ensures var b := Generated(b0, rows, ss, equivalents, false).value;
      b0.existing <= b.existing && FolderSet(rows, ss) <= b.existing
    decreases |rows|
  {
    if rows != [] {
      var n := |rows| - 1;
      WrittenFoldersExist(b0, rows[..n], ss, equivalents);
      var b := Generated(b0, rows[..n], ss, equivalents, false).value;
      assert Generated(b0, rows, ss, equivalents, false) == GenStep(b, rows[n], ss, equivalents, false);
      StepAddsFolder(b, rows[n], ss, equivalents);
    }
  }

  /** A run that writes and then meets a row of unknown type stops at that row; the cards
      of the rows before it stay written, the folder of each of those rows holding one. */
  lemma {:induction false} FailedRunKeepsWritten(b0: Batch, rows: seq<CatalogRow>, ss: seq<string>,
                                                 equivalents: map<string, Row>)
    requires Generated(b0, rows, ss, equivalents, false).Err?
    ensures var e := Generated(b0, rows, ss, equivalents, false).error;
      exists n :: 0 <= n < |rows| && e.btype == rows[n].btype && TypeTags(rows[n].btype).None? &&
        Generated(b0, rows[..n], ss, equivalents, false) == Ok(e.done) &&
        b0.existing <= e.done.existing && FolderSet(rows[..n], ss) <= e.done.existing
    decreases |rows|
  {
    var m := |rows| - 1;
    var e := Generated(b0, rows, ss, equivalents, false).error;
    match Generated(b0, rows[..m], ss, equivalents, false)
    case Err(_) =>
      FailedRunKeepsWritten(b0, rows[..m], ss, equivalents);
      assert Generated(b0, rows, ss, equivalents, false) == Generated(b0, rows[..m], ss, equivalents, false);
      var n :| 0 <= n < m && e.btype == rows[..m][n].btype && TypeTags(rows[..m][n].btype).None? &&
        Generated(b0, rows[..m][..n], ss, equivalents, false) == Ok(e.done) &&
        b0.existing <= e.done.existing && FolderSet(rows[..m][..n], ss) <= e.done.existing;
      assert rows[..m][..n] == rows[..n] && rows[..m][n] == rows[n];
    case Ok(b) =>
      WrittenFoldersExist(b0, rows[..m], ss, equivalents);
      assert Generated(b0, rows, ss, equivalents, false) == GenStep(b, rows[m], ss, equivalents, false);
      assert e.done == b && TypeTags(rows[m].btype).None?;
  }

  /** When every row's folder holds a card, every row is skipped and no id is used. */
  lemma {:induction false} AllSkipped(b0: Batch, rows: seq<CatalogRow>, ss: seq<string>,
                                      equivalents: map<string, Row>, dryRun: bool)
    requires FolderSet(rows, ss) <= b0.existing
    ensures Generated(b0, rows, ss, equivalents, dryRun).Ok?
    ensures var b := Generated(b0, rows, ss, equivalents, dryRun).value;
      b.generated == b0.generated && b.currentId == b0.currentId && b.existing == b0.existing &&
      b.cards == b0.cards && |b.skipped| == |b0.skipped| + |rows|
    decreases |rows|
  {
    if rows != [] {
      var n := |rows| - 1;
      AllSkipped(b0, rows[..n], ss, equivalents, dryRun);
    }
  }

  /** Running again after a run that wrote its cards generates nothing and uses no id. */
  lemma RerunSkipsAll(catalog: seq<CatalogRow>, suffixArg: string, equivalents: map<string, Row>,
                      existing: set<string>, idStart: int, idStart2: int, dryRun2: bool)
    requires RunGenerator(catalog, suffixArg, equivalents, existing, idStart, false).Ok?
    ensures var b := RunGenerator(catalog, suffixArg, equivalents, existing, idStart, false).value;
      var again := RunGenerator(catalog, suffixArg, equivalents, b.existing, idStart2, dryRun2);
      again.Ok? && again.value.generated == [] && again.value.currentId == idStart2 &&
      |again.value.skipped| == |catalog| && again.value.cards == map[]
  {
    var ss := SuffixList(suffixArg);
    WrittenFoldersExist(Batch([], [], idStart, existing, map[]), catalog, ss, equivalents);
    var b := RunGenerator(catalog, suffixArg, equivalents, existing, idStart, false).value;
    AllSkipped(Batch([], [], idStart2, b.existing, map[]), catalog, ss, equivalents, dryRun2);
  }

  /** An angular-contact bearing listed without suffixes becomes a `B` card: folder
      `<base>-b`, designation `<base>-B`, and the tags of its type and series only. */
  lemma AngularDefaultsToB(row: CatalogRow)
    requires row.btype == "ball_angular"
    ensures CardSuffixes(row, []) == ["B"]
    ensures FolderNameOf(row.designation, ["B"]) == Lower(row.designation) + "-b"
    ensures FullDesignationOf(row.designation, ["B"]) == row.designation + "-B"
    ensures TagsOf(TypeTags(row.btype).value, row.series, ["B"]) == ["bearing", "ball", "angular-contact", row.series]
  {
    FolderNameB(row.designation);
    FullDesignationB(row.designation);
    TagsB(row.series);
  }

  lemma FolderNameB(base: string)
    ensures FolderNameOf(base, ["B"]) == Lower(base) + "-b"
  {
    assert LowerChar('B') == 'b';
    assert Lower("B") == "b";
    assert LowerEach(["B"]) == ["b"];
    var parts := [Lower(base)] + ["b"];
    assert parts[1..] == ["b"];
    assert Join(parts, "-") == Lower(base) + "-" + "b";
  }

  lemma FullDesignationB(base: string)
    ensures FullDesignationOf(base, ["B"]) == base + "-B"
  {
    assert ["B"][..0] == [];
    assert "B" in DashSuffixes;
    assert Pieces(["B"]) == "-B";
  }

  lemma TagsB(series: string)
    ensures TagsOf(["angular-contact"], series, ["B"]) == ["bearing", "ball", "angular-contact", series]
  {
    assert ["B"][..0] == [];
    assert SuffixTags(["B"]) == [];
  }

}
