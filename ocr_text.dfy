/** `core/utils/ocr_text.py`: OCR line normalisation, line splitting, the
    next-non-empty-line reader, regex value extraction and the helpers for the
    machine readable zone (MRZ) of TD1 identity cards (ICAO Doc 9303 Part 5;
    check digits as in ICAO Doc 9303 Part 3, section 4.9). */
module OcrText {
  import opened Base
  import opened Chars
  import opened PyStr
  import opened Calendar
  import opened Regex

  // ---------------------------------------------------------------------
  // Line normalisation
  // ---------------------------------------------------------------------

  /** The markdown decoration characters `[*_`#>]`. */
  predicate IsDecor(c: char)
  {
    c == '*' || c == '_' || c == '`' || c == '#' || c == '>'
  }

  predicate NotDecor(c: char)
  {
    !IsDecor(c)
  }

  predicate NoDecor(s: string)
  {
    forall i | 0 <= i < |s| :: !IsDecor(s[i])
  }

  /** A line as `split_lines` returns it: non-empty, collapsed, undecorated. */
  predicate CleanLine(s: string)
  {
    s != "" && Collapsed(s) && NoDecor(s)
  }

  /** `normalize_ocr_line`: decoration removed, then `" ".join(s.strip().split())`. */
  function NormalizeOcrLine(s: string): (r: string)
    ensures Collapsed(r) && NoDecor(r)
    ensures r == "" <==> Blank(Filter(s, NotDecor))
  {
    var f := Filter(s, NotDecor);
    CollapseShape(f);
    CollapseKeep(f, NotDecor);
    Collapse(f)
  }

  /** Normalising a normalised line changes nothing. */
  lemma NormalizeOcrLineIdempotent(s: string)
    ensures NormalizeOcrLine(NormalizeOcrLine(s)) == NormalizeOcrLine(s)
  {
    var r := NormalizeOcrLine(s);
    FilterAll(r, NotDecor);
    CollapsedFixpoint(r);
  }

  /** A clean line is its own normal form, and its own strip. */
  lemma CleanLineFixed(s: string)
    requires CleanLine(s)
    ensures NormalizeOcrLine(s) == s && Strip(s) == s
  {
    FilterAll(s, NotDecor);
    CollapsedFixpoint(s);
    StripOfCollapsed(s);
  }

  /** `x or None` for a string. */
  function OrNone(s: string): (r: Option<string>)
    ensures r.Some? <==> s != ""
    ensures r.Some? ==> r.value == s
  {
    if s == "" then None else Some(s)
  }

  /** The non-empty normalised forms of some raw lines, in order. */
  function KeptLines(ls: seq<string>): (r: seq<string>)
    ensures |r| <= |ls|
    ensures forall i | 0 <= i < |r| :: CleanLine(r[i])
  {
    if |ls| == 0 then []
    else
      var n := NormalizeOcrLine(ls[|ls| - 1]);
      KeptLines(ls[..|ls| - 1]) + (if n != "" then [n] else [])
  }

  /** What `split_lines(text)` returns. */
  function SplitLinesOf(text: string): (r: seq<string>)
    ensures forall i | 0 <= i < |r| :: CleanLine(r[i])
    ensures text == "" ==> r == []
  {
    if text == "" then [] else KeptLines(RawLines(text))
  }

  /** A text without line breaks is one line. */
  lemma SplitOneLine(text: string)
    requires text != "" && forall i | 0 <= i < |text| :: !IsLineBreak(text[i])
    ensures SplitLinesOf(text) == (if NormalizeOcrLine(text) == "" then [] else [NormalizeOcrLine(text)])
  {
    assert LineLen(text) == |text|;
    assert RawLines(text) == [text];
    assert KeptLines(RawLines(text)) == KeptLines([]) + (if NormalizeOcrLine(text) != "" then [NormalizeOcrLine(text)] else []);
  }

  /** `split_lines`: every line of the text, normalised, empty ones dropped. */
  method SplitLines(text: string) returns (out: seq<string>)
    ensures out == SplitLinesOf(text)
  {
    if text == "" {
      return [];
    }
    var raw := RawLines(text);
    out := [];
    for k := 0 to |raw|
      invariant out == KeptLines(raw[..k])
    {
      assert raw[..k + 1][..k] == raw[..k];
      var ln2 := NormalizeOcrLine(raw[k]);
      if ln2 != "" {
        out := out + [ln2];
      }
    }
    assert raw[..|raw|] == raw;
  }

  // ---------------------------------------------------------------------
  // next_non_empty
  // ---------------------------------------------------------------------

  /** The first index at or after `from` whose line is not blank. */
  function FirstNonBlank(lines: seq<string>, from: nat): (r: Option<nat>)
    ensures r.Some? ==> from <= r.value < |lines| && !Blank(lines[r.value])
    ensures r.Some? ==> forall j | from <= j < r.value :: Blank(lines[j])
    ensures r.None? ==> forall j | from <= j < |lines| :: Blank(lines[j])
    decreases |lines| - from
  {
    if from >= |lines| then None
    else if !Blank(lines[from]) then Some(from)
    else FirstNonBlank(lines, from + 1)
  }

  /** What `next_non_empty(lines, start_idx)` returns: the first non-blank
      line after `start_idx`, stripped. */
  function NextNonEmptyOf(lines: seq<string>, startIdx: nat): (r: Option<string>)
    ensures r.Some? ==> r.value != "" && Trimmed(r.value)
  {
    match FirstNonBlank(lines, startIdx + 1)
    case Some(i) => StripEmptyIffBlank(lines[i]); Some(Strip(lines[i]))
    case None => None
  }

  /** `next_non_empty`. */
  method NextNonEmpty(lines: seq<string>, startIdx: nat) returns (r: Option<string>)
    ensures r == NextNonEmptyOf(lines, startIdx)
  {
    if startIdx + 1 >= |lines| {
      return None;
    }
    for i := startIdx + 1 to |lines|
      invariant FirstNonBlank(lines, startIdx + 1) == FirstNonBlank(lines, i)
    {
      var v := Strip(lines[i]);
      StripEmptyIffBlank(lines[i]);
      if v != "" {
        return Some(v);
      }
    }
    return None;
  }

  // ---------------------------------------------------------------------
  // match_value
  // ---------------------------------------------------------------------

  /** `match_value`: the named group `value` when the pattern has one, else the
      last group that took part; normalised, "" read as None. */
  function MatchValue(m: Option<Hit>): (r: Option<string>)
    ensures m.None? ==> r == None
    ensures m.Some? && m.value.valueGroup.None? && LastIndex(m.value).None? ==> r == None
    ensures m.Some? && m.value.valueGroup.Some? ==>
      r == OrNone(NormalizeOcrLine(Group(m.value, m.value.valueGroup.value).OrElse("")))
    ensures r.Some? ==> r.value != "" && Collapsed(r.value)
  {
    match m
    case None => None
    case Some(h) =>
      if h.valueGroup.Some? then OrNone(NormalizeOcrLine(Group(h, h.valueGroup.value).OrElse("")))
      else match LastIndex(h)
        case Some(k) => OrNone(NormalizeOcrLine(Group(h, k).OrElse("")))
        case None => None
  }

  /** `search_value`: `match_value` of the pattern's first match in the text. */
  function SearchValue(text: string, pat: Matcher): (r: Option<string>)
    ensures pat(text).None? ==> r == None
    ensures r.Some? ==> r.value != "" && Collapsed(r.value) && !Blank(r.value)
  {
    MatchValue(pat(text))
  }

  // ---------------------------------------------------------------------
  // MRZ
  // ---------------------------------------------------------------------

  /** The MRZ alphabet `[A-Z0-9<]`. */
  predicate IsMrzChar(c: char)
  {
    ('A' <= c <= 'Z') || ('0' <= c <= '9') || c == '<'
  }

  /** `_mrz_clean` after `html.unescape`: upper case, spaces removed, the
      guillemets « ‹ › read as filler, everything outside `[A-Z0-9<]` dropped. */
  function MrzNormalize(s: string): (r: string)
    ensures forall i | 0 <= i < |r| :: IsMrzChar(r[i])
    ensures |r| <= |s|
  {
    var u := Filter(UpperStr(s), NotSpaceChar);
    var g := ReplaceChar(ReplaceChar(ReplaceChar(u, '«', '<'), '‹', '<'), '›', '<');
    Filter(g, IsMrzChar)
  }

  /** `_mrz_clean(line)`; `html.unescape` is a parameter of the model. */
  function MrzClean(unescape: string -> string, line: string): (r: string)
    ensures forall i | 0 <= i < |r| :: IsMrzChar(r[i])
  {
    MrzNormalize(unescape(line))
  }

  /** Text already in the MRZ alphabet comes through the cleaning unchanged. */
  lemma MrzNormalizeKeepsClean(s: string)
    requires forall i | 0 <= i < |s| :: IsMrzChar(s[i])
    ensures MrzNormalize(s) == s
  {
    UpperStrKeepsMrz(s);
    FilterAll(s, NotSpaceChar);
    ReplaceCharAbsent(s, '«', '<');
    ReplaceCharAbsent(s, '‹', '<');
    ReplaceCharAbsent(s, '›', '<');
    FilterAll(s, IsMrzChar);
  }

  lemma UpperStrKeepsMrz(s: string)
    requires forall i | 0 <= i < |s| :: IsMrzChar(s[i])
    ensures UpperStr(s) == s
  {
    forall i | 0 <= i < |s| ensures UpperStr(s)[i] == s[i] {
      MrzCharNotLower(s[i]);
    }
  }

  lemma MrzCharNotLower(c: char)
    requires IsMrzChar(c)
    ensures !IsLower(c)
  {
  }

  lemma ReplaceCharAbsent(s: string, a: char, b: char)
    requires forall i | 0 <= i < |s| :: s[i] != a
    ensures ReplaceChar(s, a, b) == s
  {
  }

  /** Cleaning is idempotent. */
  lemma MrzNormalizeIdempotent(s: string)
    ensures MrzNormalize(MrzNormalize(s)) == MrzNormalize(s)
  {
    MrzNormalizeKeepsClean(MrzNormalize(s));
  }

  /** `_is_mrzish`. */
  predicate IsMrzish(s: string)
  {
    s != "" && 20 <= |s| <= 40
  }

  /** `_pad_or_trim_30`: the first 30 characters, padded with '<'. */
  function PadOrTrim30(s: string): (r: string)
    ensures |r| == 30
    ensures forall i | 0 <= i < 30 :: r[i] == (if i < |s| then s[i] else '<')
  {
    if |s| >= 30 then s[..30] else s + seq(30 - |s|, _ => '<')
  }

  /** `_mrz_value`: the ICAO character values. */
  function MrzValue(c: char): (v: nat)
    ensures v <= 35
    ensures '0' <= c <= '9' ==> v == c as int - '0' as int
    ensures 'A' <= c <= 'Z' ==> v == c as int - 'A' as int + 10
    ensures !('0' <= c <= '9') && !('A' <= c <= 'Z') ==> v == 0
  {
    if '0' <= c <= '9' then c as int - '0' as int
    else if 'A' <= c <= 'Z' then c as int - 'A' as int + 10
    else if c == '<' then 0
    else 0
  }

  /** Digits and letters have distinct values. */
  lemma MrzValueInjective(a: char, b: char)
    requires ('0' <= a <= '9') || ('A' <= a <= 'Z')
    requires ('0' <= b <= '9') || ('A' <= b <= 'Z')
    requires MrzValue(a) == MrzValue(b)
    ensures a == b
  {
  }

  /** The repeating weights 7, 3, 1. */
  function Weight(i: nat): (w: nat)
    ensures w == 7 || w == 3 || w == 1
  {
    [7, 3, 1][i % 3]
  }

  /** The weighted sum of the first `n` characters. */
  function WeightedSum(f: string, n: nat): nat
    requires n <= |f|
  {
    if n == 0 then 0 else WeightedSum(f, n - 1) + MrzValue(f[n - 1]) * Weight(n - 1)
  }

  /** What `mrz_check_digit(field)` returns. */
  function CheckDigitOf(f: string): (r: string)
    ensures |r| == 1 && IsDigit(r[0])
  {
    [DigitChar(WeightedSum(f, |f|) % 10)]
  }

  /** `mrz_check_digit`. */
  method MrzCheckDigit(field: string) returns (r: string)
    ensures r == CheckDigitOf(field)
  {
    var total := 0;
    for i := 0 to |field|
      invariant total == WeightedSum(field, i)
    {
      total := total + MrzValue(field[i]) * Weight(i);
    }
    r := [DigitChar(total % 10)];
  }

  /** The weighted sum of a prefix does not see what follows it. */
  lemma {:induction false} WeightedSumPrefix(a: string, b: string, n: nat)
    requires n <= |a|
    ensures WeightedSum(a + b, n) == WeightedSum(a, n)
  {
    if n > 0 {
      WeightedSumPrefix(a, b, n - 1);
      assert (a + b)[n - 1] == a[n - 1];
    }
  }

  /** A trailing filler character does not change the check digit. */
  lemma CheckDigitFiller(f: string)
    ensures CheckDigitOf(f + "<") == CheckDigitOf(f)
  {
    WeightedSumPrefix(f, "<", |f|);
    assert (f + "<")[|f|] == '<';
  }

  /** The worked birth-date example: "990101" has check digit "8". */
  lemma CheckDigitExample()
    ensures CheckDigitOf("990101") == "8"
  {
    assert WeightedSum("990101", 6) == 98;
  }

  /** |len(s) - 30|. */
  function Penalty(s: string): nat
  {
    if |s| >= 30 then |s| - 30 else 30 - |s|
  }

  /** 5 when the padded second line starts with a six-digit birth date
      followed by its correct check digit, else 0. */
  function DobBonus(raw2: string): (b: nat)
    ensures b == 0 || b == 5
  {
    var l2 := PadOrTrim30(raw2);
    var dob := l2[0..6];
    var cd := l2[6..7];
    if IsDigits(dob) && IsDigit(cd[0]) && CheckDigitOf(dob) == cd then 5 else 0
  }

  /** Three MRZ-ish cleaned lines start at `i`. */
  predicate TripleAt(c: seq<string>, i: nat)
  {
    i + 2 < |c| && IsMrzish(c[i]) && IsMrzish(c[i + 1]) && IsMrzish(c[i + 2])
  }

  /** The score of three cleaned lines `a`, `b`, `d`. */
  function ScoreOf(a: string, b: string, d: string): (sc: int)
    ensures sc <= 5
  {
    DobBonus(b) - Penalty(a) - Penalty(b) - Penalty(d)
  }

  /** The score of the triple at `i`. */
  function Score(c: seq<string>, i: nat): (sc: int)
    requires i + 2 < |c|
    ensures sc <= 5
  {
    ScoreOf(c[i], c[i + 1], c[i + 2])
  }

  /** The score computation of `find_mrz_td1_block` for one triple. */
  method TripleScore(a: string, b: string, d: string) returns (score: int)
    ensures score == ScoreOf(a, b, d)
  {
    var l2 := PadOrTrim30(b);
    score := 0;
    score := score - Penalty(a);
    score := score - Penalty(b);
    score := score - Penalty(d);
    var dob := l2[0..6];
    var dobCd := l2[6..7];
    if IsDigits(dob) && IsDigit(dobCd[0]) {
      var cd := MrzCheckDigit(dob);
      if cd == dobCd {
        score := score + 5;
      }
    }
  }

  function Td1Lines(c: seq<string>, i: nat): (t: (string, string, string))
    requires i + 2 < |c|
    ensures |t.0| == 30 && |t.1| == 30 && |t.2| == 30
  {
    (PadOrTrim30(c[i]), PadOrTrim30(c[i + 1]), PadOrTrim30(c[i + 2]))
  }

  /** The first index below `n` holding the highest value: `best` is
      replaced only by a strictly greater score. */
  function FirstBest(xs: seq<Option<int>>, n: nat): (r: Option<nat>)
    requires n <= |xs|
    ensures r.Some? ==> r.value < n && xs[r.value].Some?
    ensures r.None? <==> forall i | 0 <= i < n :: xs[i].None?
    ensures r.Some? ==> forall i | 0 <= i < n && xs[i].Some? :: xs[i].value <= xs[r.value].value
    ensures r.Some? ==> forall i | 0 <= i < r.value && xs[i].Some? :: xs[i].value < xs[r.value].value
  {
    if n == 0 then None
    else
      var b := FirstBest(xs, n - 1);
      if xs[n - 1].Some? && (b.None? || xs[n - 1].value > xs[b.value].value) then Some(n - 1) else b
  }

  /** The number of triple start positions `find_mrz_td1_block` tries. */
  function Starts(c: seq<string>): (n: nat)
    ensures forall i | n <= i :: !TripleAt(c, i)
  {
    if |c| >= 2 then |c| - 2 else 0
  }

  /** The score of every triple start, None where the three lines are not
      all MRZ-ish. */
  function TripleScores(c: seq<string>): (xs: seq<Option<int>>)
    ensures |xs| == Starts(c)
    ensures forall i | 0 <= i < |xs| :: xs[i].Some? <==> TripleAt(c, i)
    ensures forall i | 0 <= i < |xs| :: xs[i].Some? ==> xs[i].value == Score(c, i)
  {
    seq(Starts(c), i requires 0 <= i < Starts(c) => if TripleAt(c, i) then Some(Score(c, i)) else None)
  }

  /** The start of the chosen triple. */
  function BestTriple(c: seq<string>): (r: Option<nat>)
    ensures r.Some? ==> TripleAt(c, r.value)
  {
    FirstBest(TripleScores(c), Starts(c))
  }

  /** The chosen triple has the highest score, is the earliest of those that
      have it, and there is none only when no three consecutive lines are
      MRZ-ish. */
  lemma BestTripleIsBest(c: seq<string>)
    ensures BestTriple(c).None? <==> forall i | 0 <= i < |c| :: !TripleAt(c, i)
    ensures BestTriple(c).Some? ==> var k := BestTriple(c).value;
      forall i | 0 <= i < |c| && TripleAt(c, i) :: Score(c, i) <= Score(c, k)
    ensures BestTriple(c).Some? ==> var k := BestTriple(c).value;
      forall i | 0 <= i < k && TripleAt(c, i) :: Score(c, i) < Score(c, k)
  {
    var xs := TripleScores(c);
    var r := BestTriple(c);
    if r.None? {
      forall i | 0 <= i < |c| ensures !TripleAt(c, i) {
        if i < |xs| { assert xs[i].None?; }
      }
    } else {
      var k := r.value;
      forall i | 0 <= i < |c| && TripleAt(c, i) ensures Score(c, i) <= Score(c, k) {
        assert xs[i].Some?;
      }
      forall i | 0 <= i < k && TripleAt(c, i) ensures Score(c, i) < Score(c, k) {
        assert xs[i].Some?;
      }
    }
  }

  /** The cleaned lines. */
  function CleanedLines(unescape: string -> string, lines: seq<string>): (c: seq<string>)
    ensures |c| == |lines|
    ensures forall i | 0 <= i < |c| :: c[i] == MrzClean(unescape, lines[i])
  {
    seq(|lines|, i requires 0 <= i < |lines| => MrzClean(unescape, lines[i]))
  }

  /** What `find_mrz_td1_block(lines)` returns: the best triple, each line
      padded or cut to 30 characters. */
  function Td1Block(unescape: string -> string, lines: seq<string>): (r: Option<(string, string, string)>)
    ensures r.Some? ==> |r.value.0| == 30 && |r.value.1| == 30 && |r.value.2| == 30
  {
    var c := CleanedLines(unescape, lines);
    match BestTriple(c)
    case Some(k) => Some(Td1Lines(c, k))
    case None => None
  }

  /** `find_mrz_td1_block`: scores every triple of consecutive MRZ-ish lines
      and keeps the first one with the best score. */
  method FindMrzTd1Block(unescape: string -> string, lines: seq<string>)
    returns (r: Option<(string, string, string)>)
    ensures r == Td1Block(unescape, lines)
  {
    ghost var c := CleanedLines(unescape, lines);
    ghost var xs := TripleScores(c);
    var candByIdx := map i | 0 <= i < |lines| && IsMrzish(MrzClean(unescape, lines[i])) :: MrzClean(unescape, lines[i]);
    assert forall i :: i in candByIdx <==> 0 <= i < |c| && IsMrzish(c[i]);
    var best: Option<(int, (string, string, string))> := None;
    var n := if |lines| >= 2 then |lines| - 2 else 0;
    for i := 0 to n
      invariant best.None? <==> FirstBest(xs, i).None?
      invariant best.Some? ==> best.value == (xs[FirstBest(xs, i).value].value, Td1Lines(c, FirstBest(xs, i).value))
    {
      if i !in candByIdx || i + 1 !in candByIdx || i + 2 !in candByIdx {
        assert xs[i].None?;
        continue;
      }
      assert xs[i] == Some(Score(c, i));
      var score := TripleScore(candByIdx[i], candByIdx[i + 1], candByIdx[i + 2]);
      if best.None? || score > best.value.0 {
        best := Some((score, (PadOrTrim30(candByIdx[i]), PadOrTrim30(candByIdx[i + 1]), PadOrTrim30(candByIdx[i + 2]))));
      }
    }
    r := if best.Some? then Some(best.value.1) else None;
  }

  // ---------------------------------------------------------------------
  // parse_mrz_birth_date_yyMMdd
  // ---------------------------------------------------------------------

  /** `1900 + yy if yy > pivot else 2000 + yy`. */
  function MrzCentury(yy: nat, pivot: nat): (y: nat)
    requires yy < 100
    ensures y % 100 == yy
    ensures yy > pivot ==> 1900 <= y < 2000
    ensures yy <= pivot ==> 2000 <= y < 2100
  {
    if yy > pivot then 1900 + yy else 2000 + yy
  }

  /** `parse_mrz_birth_date_yyMMdd(token, today=...)`; `today.year` is a
      parameter of the model. */
  function ParseMrzBirthDate(token: string, todayYear: nat): (r: Option<string>)
    ensures r.Some? ==> |token| == 6 && IsDigits(token)
    ensures r.Some? ==> IsIsoDate(r.value)
  {
    if token == "" || !(|token| == 6 && IsDigits(token)) then None
    else
      var yy := DigitsValue(token[0..2]);
      var mm := DigitsValue(token[2..4]);
      var dd := DigitsValue(token[4..6]);
      match SafeDate(MrzCentury(yy, todayYear % 100), mm, dd)
      case Some(d) => Some(IsoOf(d))
      case None => None
  }

  /** The two-digit fields of a six-digit token, written back at width
      two, are the token's own characters. */
  lemma MrzTokenFields(token: string)
    requires |token| == 6 && IsDigits(token)
    ensures Digits(DigitsValue(token[0..2]), 2) == token[0..2]
    ensures Digits(DigitsValue(token[2..4]), 2) == token[2..4]
    ensures Digits(DigitsValue(token[4..6]), 2) == token[4..6]
  {
    assert forall i | 0 <= i < 2 :: token[0..2][i] == token[i] && token[2..4][i] == token[2 + i] && token[4..6][i] == token[4 + i];
    DigitsOfValue(token[0..2]);
    DigitsOfValue(token[2..4]);
    DigitsOfValue(token[4..6]);
  }

  /** The date `ParseMrzBirthDate` writes out, when it writes one. */
  lemma ParsedDate(token: string, todayYear: nat, d: Date)
    requires ParseMrzBirthDate(token, todayYear).Some?
    requires d == Date(MrzCentury(DigitsValue(token[0..2]), todayYear % 100), DigitsValue(token[2..4]), DigitsValue(token[4..6]))
    ensures |token| == 6 && IsDigits(token) && IsValid(d)
    ensures ParseMrzBirthDate(token, todayYear).value == IsoOf(d)
  {
  }

  /** A parsed birth date carries the token's digits: YY, MM and DD reappear
      in the ISO string, and the century follows the pivot year. */
  lemma ParseMrzBirthDateDigits(token: string, todayYear: nat)
    requires ParseMrzBirthDate(token, todayYear).Some?
    ensures var r := ParseMrzBirthDate(token, todayYear).value;
      r[2..4] == token[0..2] && r[5..7] == token[2..4] && r[8..10] == token[4..6]
    ensures var y := IsoFields(ParseMrzBirthDate(token, todayYear).value).year;
      y == MrzCentury(DigitsValue(token[0..2]), todayYear % 100)
  {
    var d := Date(MrzCentury(DigitsValue(token[0..2]), todayYear % 100), DigitsValue(token[2..4]), DigitsValue(token[4..6]));
    ParsedDate(token, todayYear, d);
    IsoSlices(d);
    MrzTokenFields(token);
    IsoRoundTrip(d);
  }
}
