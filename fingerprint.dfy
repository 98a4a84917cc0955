/** The text that the inbox fingerprints: `extract_text_from_md` reads the file with
    universal newlines, removes every match of the pattern `^---\s*\n.*?\n---\s*\n` (flags MULTILINE and DOTALL) with `re.sub`, then
    strips white space at both ends.

    The match is modelled in the order in which Python's backtracking engine tries the
    alternatives: the first `\s*` longest first, then `.*?` shortest first, then the second
    `\s*` longest first. Positions are indices into the whole text `s`. */
module Fingerprint {
  import opened Text
  import opened Results

  /** The last `\n` at an index in `[lo, hi)`, searching downward. */
  function LastNewline(s: string, lo: nat, hi: nat): (r: Option<nat>)
    requires hi <= |s|
    ensures r.Some? ==> lo <= r.value < hi && s[r.value] == '\n'
    decreases hi
  {
    if hi <= lo then None
    else if s[hi - 1] == '\n' then Some(hi - 1)
    else LastNewline(s, lo, hi - 1)
  }

  /** The closing `\s*\n` from `i`, the last part of the pattern: the greedy `\s*`
      gives back characters until a `\n` follows; the result is the end of the match. */
  function Close(s: string, i: nat): (r: Option<nat>)
    requires i <= |s|
    ensures r.Some? ==> i < r.value <= |s| && s[r.value - 1] == '\n'
  {
    match LastNewline(s, i, SpaceEnd(s, i))
    case Some(k) => Some(k + 1)
    case None => None
  }

  /** `\n---` starts at index `b`. */
  predicate DashLineAt(s: string, b: nat) {
    b + 4 <= |s| && s[b] == '\n' && s[b + 1] == '-' && s[b + 2] == '-' && s[b + 3] == '-'
  }

  /** The lazy `.*?` followed by `\n---\s*\n`: the first `b >= lo` at which `\n---` and a
      closing `\s*\n` follow. */
  function Middle(s: string, b: nat): (r: Option<nat>)
    requires b <= |s|
    ensures r.Some? ==> b + 4 < r.value <= |s|
    decreases |s| - b
  {
    if b + 4 > |s| then None
    else if DashLineAt(s, b) && Close(s, b + 4).Some? then Close(s, b + 4)
    else Middle(s, b + 1)
  }

  /** The opening `\s*\n` followed by the rest of the pattern: the newline candidates at
      indices below `k` and at least `lo` are tried from the last one down. */
  function Open(s: string, lo: nat, k: nat): (r: Option<nat>)
    requires k <= |s|
    ensures r.Some? ==> lo < r.value <= |s|
    decreases k
  {
    if k <= lo then None
    else if s[k - 1] == '\n' && Middle(s, k).Some? then Middle(s, k)
    else Open(s, lo, k - 1)
  }

  /** `^` in MULTILINE mode: the start of the text or just after a `\n`. */
  predicate LineStart(s: string, p: nat)
    requires p <= |s|
  {
    p == 0 || s[p - 1] == '\n'
  }

  /** The end of the match of the whole pattern at `p`, when there is one. */
  function MatchAt(s: string, p: nat): (r: Option<nat>)
    requires p <= |s|
    ensures r.Some? ==> p < r.value <= |s|
  {
    if LineStart(s, p) && p + 3 <= |s| && s[p] == '-' && s[p + 1] == '-' && s[p + 2] == '-'
    then Open(s, p + 3, SpaceEnd(s, p + 3))
    else None
  }

  /** `re.sub(pattern, "", s[p..])` continued from position `p`. */
  function SubFrom(s: string, p: nat): string
    requires p <= |s|
    decreases |s| - p
  {
    if p == |s| then []
    else
      match MatchAt(s, p)
      case Some(e) => SubFrom(s, e)
      case None => [s[p]] + SubFrom(s, p + 1)
  }

  /** The substitution and the strip of `extract_text_from_md`, on the text as read. */
  function ExtractText(raw: string): string {
    Strip(SubFrom(raw, 0))
  }

  /** `extract_text_from_md` on the content of a file: read with universal newlines, then
      extracted. */
  function ExtractFromFile(content: string): string {
    ExtractText(ReadText(content))
  }

  function Shift(r: Option<nat>, d: nat): Option<nat> {
    match r
    case Some(v) => Some(v + d)
    case None => None
  }

  // ---------------------------------------------------------------------------
  // Matching after a line boundary does not depend on what came before it.
  // ---------------------------------------------------------------------------

  /** `t` is the text of `s` from index `d` on. */
  predicate SuffixAt(s: string, t: string, d: nat) {
    |s| == d + |t| && AgreesFrom(s, t, d, 0)
  }

  /** `s` and `t` agree at `d + j` and `j` for every `j >= k`; written as a recursion so
      that the agreement is used one index at a time. */
  predicate AgreesFrom(s: string, t: string, d: nat, k: nat)
    requires |s| == d + |t|
    decreases |t| - k
  {
    k >= |t| || (s[d + k] == t[k] && AgreesFrom(s, t, d, k + 1))
  }

  lemma {:induction false} AgreesAt(s: string, t: string, d: nat, k: nat, j: nat)
    requires |s| == d + |t| && AgreesFrom(s, t, d, k) && k <= j < |t|
    ensures s[d + j] == t[j]
    decreases j - k
  {
    if k < j {
      AgreesAt(s, t, d, k + 1, j);
    }
  }

  lemma SuffixChar(s: string, t: string, d: nat, j: nat)
    requires SuffixAt(s, t, d) && j < |t|
    ensures s[d + j] == t[j]
  {
    AgreesAt(s, t, d, 0, j);
  }

  lemma {:induction false} ConcatAgrees(pre: string, t: string, k: nat)
    ensures AgreesFrom(pre + t, t, |pre|, k)
    decreases |t| - k
  {
    if k < |t| {
      ConcatAgrees(pre, t, k + 1);
    }
  }

  lemma {:induction false} SpaceEndShift(s: string, t: string, d: nat, i: nat)
    requires SuffixAt(s, t, d) && i <= |t|
    ensures SpaceEnd(s, d + i) == d + SpaceEnd(t, i)
    decreases |t| - i
  {
    if i < |t| {
      SuffixChar(s, t, d, i);
      SpaceEndShift(s, t, d, i + 1);
    }
  }

  lemma {:induction false} LastNewlineShift(s: string, t: string, d: nat, lo: nat, hi: nat)
    requires SuffixAt(s, t, d) && hi <= |t|
    ensures LastNewline(s, d + lo, d + hi) == Shift(LastNewline(t, lo, hi), d)
    decreases hi
  {
    if hi > lo {
      SuffixChar(s, t, d, hi - 1);
      LastNewlineShift(s, t, d, lo, hi - 1);
    }
  }

  lemma CloseShift(s: string, t: string, d: nat, i: nat)
    requires SuffixAt(s, t, d) && i <= |t|
    ensures Close(s, d + i) == Shift(Close(t, i), d)
  {
    SpaceEndShift(s, t, d, i);
    LastNewlineShift(s, t, d, i, SpaceEnd(t, i));
  }

  lemma DashLineShift(s: string, t: string, d: nat, b: nat)
    requires SuffixAt(s, t, d) && b + 4 <= |t|
    ensures DashLineAt(s, d + b) == DashLineAt(t, b)
  {
    SuffixChar(s, t, d, b);
    SuffixChar(s, t, d, b + 1);
    SuffixChar(s, t, d, b + 2);
    SuffixChar(s, t, d, b + 3);
  }

  lemma {:induction false} MiddleShift(s: string, t: string, d: nat, b: nat)
    requires SuffixAt(s, t, d) && b <= |t|
    ensures Middle(s, d + b) == Shift(Middle(t, b), d)
    decreases |t| - b
  {
    if b + 4 <= |t| {
      DashLineShift(s, t, d, b);
      CloseShift(s, t, d, b + 4);
      MiddleShift(s, t, d, b + 1);
    }
  }

  lemma {:induction false} OpenShift(s: string, t: string, d: nat, lo: nat, k: nat)
    requires SuffixAt(s, t, d) && k <= |t|
    ensures Open(s, d + lo, d + k) == Shift(Open(t, lo, k), d)
    decreases k
  {
    if k > lo {
      SuffixChar(s, t, d, k - 1);
      MiddleShift(s, t, d, k);
      OpenShift(s, t, d, lo, k - 1);
    }
  }

  /** `t` starts on a new line of `s`. */
  predicate Boundary(s: string, d: nat) {
    d == 0 || (d <= |s| && s[d - 1] == '\n')
  }

  lemma LineStartShift(s: string, t: string, d: nat, p: nat)
    requires SuffixAt(s, t, d) && Boundary(s, d) && p <= |t|
    ensures LineStart(s, d + p) == LineStart(t, p)
  {
    if p > 0 {
      SuffixChar(s, t, d, p - 1);
    }
  }

  lemma MatchAtShift(s: string, t: string, d: nat, p: nat)
    requires SuffixAt(s, t, d) && Boundary(s, d) && p <= |t|
    ensures MatchAt(s, d + p) == Shift(MatchAt(t, p), d)
  {
    LineStartShift(s, t, d, p);
    if p + 3 <= |t| {
      SuffixChar(s, t, d, p);
      SuffixChar(s, t, d, p + 1);
      SuffixChar(s, t, d, p + 2);
      SpaceEndShift(s, t, d, p + 3);
      OpenShift(s, t, d, p + 3, SpaceEnd(t, p + 3));
    }
  }

  /** A match is dropped by `re.sub`. */
  lemma SubFromDrop(s: string, p: nat, e: nat)
    requires p < |s| && MatchAt(s, p) == Some(e)
    ensures SubFrom(s, p) == SubFrom(s, e)
  {
  }

  /** Where nothing matches, `re.sub` keeps one character. */
  lemma SubFromKeep(s: string, p: nat)
    requires p < |s| && MatchAt(s, p) == None
    ensures SubFrom(s, p) == [s[p]] + SubFrom(s, p + 1)
  {
  }

  /** One step of `re.sub` after a line boundary does the same in `s` and in `t`: it skips
      to `next`, keeping `kept`. */
  lemma SubFromShiftStep(s: string, t: string, d: nat, p: nat) returns (next: nat, kept: string)
    requires SuffixAt(s, t, d) && Boundary(s, d) && p < |t|
    ensures p < next <= |t|
    ensures SubFrom(s, d + p) == kept + SubFrom(s, d + next)
    ensures SubFrom(t, p) == kept + SubFrom(t, next)
  {
    if MatchAt(t, p).Some? {
      var e := MatchAt(t, p).value;
      ShiftDrop(s, t, d, p, e);
      next, kept := e, [];
      assert kept + SubFrom(s, d + next) == SubFrom(s, d + next);
      assert kept + SubFrom(t, next) == SubFrom(t, next);
    } else {
      ShiftKeep(s, t, d, p);
      next, kept := p + 1, [t[p]];
    }
  }

  lemma ShiftDrop(s: string, t: string, d: nat, p: nat, e: nat)
    requires SuffixAt(s, t, d) && Boundary(s, d) && p < |t| && MatchAt(t, p) == Some(e)
    ensures SubFrom(s, d + p) == SubFrom(s, d + e) && SubFrom(t, p) == SubFrom(t, e)
  {
    MatchAtShift(s, t, d, p);
    SubFromDrop(s, d + p, d + e);
    SubFromDrop(t, p, e);
  }

  lemma ShiftKeep(s: string, t: string, d: nat, p: nat)
    requires SuffixAt(s, t, d) && Boundary(s, d) && p < |t| && MatchAt(t, p) == None
    ensures SubFrom(s, d + p) == [t[p]] + SubFrom(s, d + p + 1) && SubFrom(t, p) == [t[p]] + SubFrom(t, p + 1)
  {
    MatchAtShift(s, t, d, p);
    SubFromKeep(s, d + p);
    SubFromKeep(t, p);
    SuffixChar(s, t, d, p);
  }

  /** After a line boundary, `re.sub` goes on as it would on the rest of the text alone. */
  lemma {:induction false} SubFromShift(s: string, t: string, d: nat, p: nat)
    requires SuffixAt(s, t, d) && Boundary(s, d) && p <= |t|
    ensures SubFrom(s, d + p) == SubFrom(t, p)
    decreases |t| - p
  {
    if p < |t| {
      var next, kept := SubFromShiftStep(s, t, d, p);
      SubFromShift(s, t, d, next);
    }
  }

  // ---------------------------------------------------------------------------
  // What the fingerprint ignores, and what it keeps.
  // ---------------------------------------------------------------------------

  /** A metadata block in the usual form: an opening `---` line, lines that do not start
      with `---`, a closing `---` line. */
  function WithFrontMatter(fm: string, body: string): string {
    "---\n" + fm + "\n---\n" + body
  }

  /** Some character of the block's content is not white space. */
  predicate NotBlank(fm: string) {
    exists i :: 0 <= i < |fm| && !IsSpace(fm[i])
  }

  /** The first `j` characters of `body` are white space lines: white space only, and
      ending with a `\n` when there is any. */
  predicate SpaceLines(body: string, j: nat) {
    j <= |body| && (forall q :: 0 <= q < j ==> IsSpace(body[q])) && (j == 0 || body[j - 1] == '\n')
  }

  /** The block in front of the body is removed entirely, whatever its content, so two
      files that differ only in their metadata block have the same fingerprint. The body
      may start with blank lines, as it does in the articles the processor writes. */
  lemma ExtractTextIgnoresFrontMatter(fm: string, body: string)
    requires NotBlank(fm) && !Contains(fm, "\n---")
    ensures ExtractText(WithFrontMatter(fm, body)) == ExtractText(body)
  {
    var j := DropBlock(fm, body);
    SubFromTail(body, j);
    SubFromSpaces(body, j, 0);
    StripSpacePrefix(body[..j], SubFrom(body[j..], 0));
  }

  /** `re.sub` removes the block and the white space lines after it, then goes on over the
      rest of the body as over a text of its own. */
  lemma DropBlock(fm: string, body: string) returns (j: nat)
    requires NotBlank(fm) && !Contains(fm, "\n---")
    ensures SpaceLines(body, j)
    ensures SubFrom(WithFrontMatter(fm, body), 0) == SubFrom(body[j..], 0)
  {
    var s := WithFrontMatter(fm, body);
    var e := FrontMatterMatch(fm, body);
    j := e - 9 - |fm|;
    BlockTail(fm, body, j);
    assert s[e..] == body[j..];
    DropFirstMatch(s, e);
  }

  /** The first match is the whole block, with the closing line's trailing white space up
      to its last `\n`: nothing of the body but white space lines. It ends right after the
      closing line when the body does not start with white space. */
  lemma FrontMatterMatch(fm: string, body: string) returns (e: nat)
    requires NotBlank(fm) && !Contains(fm, "\n---")
    ensures 0 < |WithFrontMatter(fm, body)| && MatchAt(WithFrontMatter(fm, body), 0) == Some(e)
    ensures 9 + |fm| <= e && SpaceLines(body, e - 9 - |fm|)
    ensures body == [] || !IsSpace(body[0]) ==> e == 9 + |fm|
  {
    MatchIsClose(fm, body);
    ClosingSpace(fm, body);
    e := Close(WithFrontMatter(fm, body), 8 + |fm|).value;
    if e - 9 - |fm| > 0 {
      assert IsSpace(body[0]);
    }
  }

  /** A match at the start that ends on a line boundary is dropped, and `re.sub` goes on
      over the rest. */
  lemma DropFirstMatch(s: string, e: nat)
    requires 0 < |s| && MatchAt(s, 0) == Some(e) && Boundary(s, e)
    ensures SubFrom(s, 0) == SubFrom(s[e..], 0)
  {
    SubFromDrop(s, 0, e);
    SubFromTail(s, e);
  }

  /** After the block and `j` characters of the body, the rest of the file is the rest of
      the body, on a line of its own. */
  lemma BlockTail(fm: string, body: string, j: nat)
    requires SpaceLines(body, j)
    ensures WithFrontMatter(fm, body)[9 + |fm| + j..] == body[j..]
    ensures Boundary(WithFrontMatter(fm, body), 9 + |fm| + j)
  {
    var s := WithFrontMatter(fm, body);
    var pre := "---\n" + fm + "\n---\n";
    assert s == pre + body;
    if j > 0 {
      assert s[|pre| + j - 1] == body[j - 1];
    } else {
      assert s[|pre| - 1] == '\n';
    }
  }

  /** Where a line starts, `re.sub` goes on as over the rest of the text alone. */
  lemma SubFromTail(s: string, e: nat)
    requires e <= |s| && Boundary(s, e)
    ensures SubFrom(s, e) == SubFrom(s[e..], 0)
  {
    var t := s[e..];
    assert s == s[..e] + t;
    ConcatAgrees(s[..e], t, 0);
    SubFromShift(s, t, e, 0);
  }

  /** White space lines at the start of a text are kept by `re.sub`, since no match can
      start on white space. */
  lemma {:induction false} SubFromSpaces(body: string, j: nat, p: nat)
    requires SpaceLines(body, j) && p <= j
    ensures SubFrom(body, p) == body[p..j] + SubFrom(body, j)
    decreases j - p
  {
    if p < j {
      assert MatchAt(body, p) == None by {
        assert IsSpace(body[p]);
      }
      SubFromKeep(body, p);
      SubFromSpaces(body, j, p + 1);
      assert body[p..j] == [body[p]] + body[p + 1..j];
    }
  }

  lemma MatchIsClose(fm: string, body: string)
    requires NotBlank(fm) && !Contains(fm, "\n---")
    ensures Close(WithFrontMatter(fm, body), 8 + |fm|).Some?
    ensures MatchAt(WithFrontMatter(fm, body), 0) == Close(WithFrontMatter(fm, body), 8 + |fm|)
  {
    var s := WithFrontMatter(fm, body);
    ClosingLine(fm, body);
    OpeningSpace(fm, body);
    OpenFindsClose(fm, body, SpaceEnd(s, 3));
    assert s[0] == '-' && s[1] == '-' && s[2] == '-';
  }

  /** The opening `\s*` stops inside the content of a block that is not blank. */
  lemma OpeningSpace(fm: string, body: string)
    requires NotBlank(fm)
    ensures WithFrontMatter(fm, body)[3] == '\n'
    ensures 4 <= SpaceEnd(WithFrontMatter(fm, body), 3) <= 4 + |fm|
  {
    var s := WithFrontMatter(fm, body);
    var i :| 0 <= i < |fm| && !IsSpace(fm[i]);
    assert s[4 + i] == fm[i];
    SpaceEndSpaces(s, 3);
    assert s[3] == '\n';
  }

  /** The match ends after a run of white space lines of the body. */
  lemma ClosingSpace(fm: string, body: string)
    requires Close(WithFrontMatter(fm, body), 8 + |fm|).Some?
    ensures SpaceLines(body, Close(WithFrontMatter(fm, body), 8 + |fm|).value - 9 - |fm|)
  {
    var s := WithFrontMatter(fm, body);
    var n := |fm|;
    var e := Close(s, 8 + n).value;
    var j := e - 9 - n;
    assert e - 1 < SpaceEnd(s, 8 + n);
    SpaceEndSpaces(s, 8 + n);
    forall q | 0 <= q < j
      ensures IsSpace(body[q])
    {
      assert s[9 + n + q] == body[q];
    }
    if j > 0 {
      assert s[e - 1] == body[j - 1];
    }
  }

  /** The opening `\s*\n` may end at any `\n` in front of the content; each one leads to
      the same closing line. */
  lemma {:induction false} OpenFindsClose(fm: string, body: string, k: nat)
    requires !Contains(fm, "\n---")
    requires 4 <= k <= 4 + |fm|
    requires WithFrontMatter(fm, body)[3] == '\n'
    requires Close(WithFrontMatter(fm, body), 8 + |fm|).Some?
    ensures Open(WithFrontMatter(fm, body), 3, k) == Close(WithFrontMatter(fm, body), 8 + |fm|)
    decreases k
  {
    var s := WithFrontMatter(fm, body);
    MiddleSkipsFrontMatter(fm, body, k);
    if !(s[k - 1] == '\n' && Middle(s, k).Some?) {
      OpenFindsClose(fm, body, k - 1);
    }
  }

  lemma ClosingLine(fm: string, body: string)
    ensures DashLineAt(WithFrontMatter(fm, body), 4 + |fm|)
    ensures Close(WithFrontMatter(fm, body), 8 + |fm|).Some?
  {
    var s := WithFrontMatter(fm, body);
    var n := |fm|;
    assert s[4 + n] == '\n' && s[5 + n] == '-' && s[6 + n] == '-' && s[7 + n] == '-';
    assert s[8 + n] == '\n';
    assert SpaceEnd(s, 8 + n) > 8 + n;
    LastNewlineFinds(s, 8 + n, SpaceEnd(s, 8 + n), 8 + n);
  }

  /** A `\n` in the range is found. */
  lemma {:induction false} LastNewlineFinds(s: string, lo: nat, hi: nat, k: nat)
    requires hi <= |s| && lo <= k < hi && s[k] == '\n'
    ensures LastNewline(s, lo, hi).Some?
    decreases hi
  {
    if s[hi - 1] != '\n' {
      LastNewlineFinds(s, lo, hi - 1, k);
    }
  }

  lemma {:induction false} MiddleSkipsFrontMatter(fm: string, body: string, b: nat)
    requires !Contains(fm, "\n---")
    requires 4 <= b <= 4 + |fm|
    ensures Middle(WithFrontMatter(fm, body), b) == Close(WithFrontMatter(fm, body), 8 + |fm|)
    decreases 4 + |fm| - b
  {
    var s := WithFrontMatter(fm, body);
    var n := |fm|;
    ClosingLine(fm, body);
    if b < 4 + n {
      assert !DashLineAt(s, b) by {
        if DashLineAt(s, b) {
          if b + 4 <= 4 + n {
            assert fm[b - 4..b] == s[b..b + 4];
            assert fm[b - 4..b] == "\n---";
            ContainsAt(fm, "\n---", b - 4);
          }
        }
      }
      MiddleSkipsFrontMatter(fm, body, b + 1);
    }
  }

  /** A blank block is not removed as a block: the opening `\s*` runs over the closing
      line's `\n`, and the match goes on to the next `---` line of the body. */
  lemma BlankBlockRunsOn()
    ensures ExtractText(WithFrontMatter("", "x\n---\ny")) == "y"
    ensures ExtractText("x\n---\ny") == "x\n---\ny"
  {
    BlankBlockMatch();
    var s := WithFrontMatter("", "x\n---\ny");
    assert MatchAt(s, 15) == None;
    assert SubFrom(s, 15) == "y";
    SubFromDrop(s, 0, 15);
    DashedBodyKept();
  }

  lemma BlankBlockMatch()
    ensures MatchAt(WithFrontMatter("", "x\n---\ny"), 0) == Some(15)
  {
    var s := WithFrontMatter("", "x\n---\ny");
    assert s == "---\n\n---\nx\n---\ny";
    assert SpaceEnd(s, 15) == 15 && SpaceEnd(s, 14) == 15;
    assert LastNewline(s, 14, 15) == Some(14);
    assert Close(s, 14) == Some(15);
    assert DashLineAt(s, 10);
    assert Middle(s, 10) == Some(15);
    assert Middle(s, 9) == Some(15);
    assert Middle(s, 8) == Some(15);
    assert Middle(s, 7) == Some(15);
    assert Middle(s, 6) == Some(15);
    assert Middle(s, 5) == Some(15);
    assert SpaceEnd(s, 5) == 5 && SpaceEnd(s, 4) == 5 && SpaceEnd(s, 3) == 5;
    assert Open(s, 3, 5) == Some(15);
  }

  lemma DashedBodyKept()
    ensures ExtractText("x\n---\ny") == "x\n---\ny"
  {
    var b := "x\n---\ny";
    assert SpaceEnd(b, 6) == 6 && SpaceEnd(b, 5) == 6;
    assert Middle(b, 6) == None && Open(b, 5, 5) == None;
    assert MatchAt(b, 2) == None;
    assert SubFrom(b, 6) == "y";
    assert SubFrom(b, 5) == "\ny";
    assert SubFrom(b, 4) == "-\ny";
    assert SubFrom(b, 3) == "--\ny";
    assert SubFrom(b, 2) == "---\ny";
    assert SubFrom(b, 1) == "\n---\ny";
    assert SubFrom(b, 0) == b;
  }

  /** Text without a `---` anywhere is only stripped. */
  lemma {:induction false} SubFromNoDashes(s: string, p: nat)
    requires p <= |s| && !Contains(s, "---")
    ensures SubFrom(s, p) == s[p..]
    decreases |s| - p
  {
    if p < |s| {
      NoMatchWithoutDashes(s, p);
      SubFromKeep(s, p);
      SubFromNoDashes(s, p + 1);
      assert s[p..] == [s[p]] + s[p + 1..];
    }
  }

  /** No match starts where no `---` does. */
  lemma NoMatchWithoutDashes(s: string, p: nat)
    requires p < |s| && !Contains(s, "---")
    ensures MatchAt(s, p) == None
  {
    if p + 3 <= |s| && s[p] == '-' && s[p + 1] == '-' && s[p + 2] == '-' {
      assert s[p..p + 3] == "---";
      ContainsAt(s, "---", p);
    }
  }

  lemma ExtractTextNoDashes(raw: string)
    requires !Contains(raw, "---")
    ensures ExtractText(raw) == Strip(raw)
  {
    SubFromNoDashes(raw, 0);
  }

  /** A copy of a file saved with Windows line ends gives the same text, so it gets the same
      digest. */
  lemma CrlfCopySameText(content: string)
    requires '\r' !in content
    ensures ExtractFromFile(Crlf(content)) == ExtractFromFile(content) == ExtractText(content)
  {
    ReadTextCrlf(content);
    ReadTextPlain(content);
  }
}
