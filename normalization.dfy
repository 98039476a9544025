/** `core/utils/normalization.py`, the earlier generation of the date parser
    and of the sex canonicaliser, together with the month table and the
    month-name date shape it reads from `core/utils/patterns.py`.

    The two numeric date shapes of patterns.py are written exactly as those
    of `core/utils/rules.py` and are taken from `DateRules`;
    `ddmmyy_from_iso` and `normalize_id_number` are written exactly as
    `Normalize.DdMmYyFromIso` and `IdNumber.NormalizeIdNumberOf`. */
module Normalization {
  import opened Base
  import opened Chars
  import opened PyStr
  import opened Pattern
  import opened Calendar
  import DateRules
  import Normalize

  // ---------------------------------------------------------------------
  // MONTH_MAP of patterns.py
  // ---------------------------------------------------------------------

  /** `MONTH_MAP` of patterns.py: the keys of `MONTH_MAP[k]` map to month
      `k + 1`, grouped by month as the dictionary is written. Unlike the
      later table it keeps the accented Hungarian spellings. */
  const MONTH_MAP: seq<seq<string>> := [
    ["jan", "jan.", "január", "januar"],
    ["feb", "feb.", "február", "februar"],
    ["márc", "márc.", "marc", "marc.", "mar", "mar.", "március", "marcius"],
    ["ápr", "ápr.", "apr", "apr.", "április", "aprilis"],
    ["máj", "máj.", "maj", "maj.", "may", "may."],
    ["jún", "jún.", "jun", "jun.", "június", "junius", "june"],
    ["júl", "júl.", "jul", "jul.", "július", "julius", "july"],
    ["aug", "aug.", "augusztus", "august"],
    ["szept", "szept.", "sep", "sep.", "sept", "sept.", "szeptember", "september"],
    ["okt", "okt.", "oct", "oct.", "október", "oktober", "october"],
    ["nov", "nov.", "november"],
    ["dec", "dec.", "dez", "dez.", "december"]]

  /** `MONTH_MAP.get(key)`. */
  function MonthGet(key: string): (r: Option<nat>)
    ensures r.Some? ==> 1 <= r.value <= 12 && DateRules.Listed(key, MONTH_MAP[r.value - 1])
    ensures r.None? ==> forall k | 0 <= k < 12 :: !DateRules.Listed(key, MONTH_MAP[k])
  {
    MonthFrom(key, 0)
  }

  function MonthFrom(key: string, k: nat): (r: Option<nat>)
    requires k <= 12
    ensures r.Some? ==> k < r.value <= 12 && DateRules.Listed(key, MONTH_MAP[r.value - 1])
    ensures r.None? ==> forall j | k <= j < 12 :: !DateRules.Listed(key, MONTH_MAP[j])
    decreases 12 - k
  {
    if k == 12 then None
    else if DateRules.Listed(key, MONTH_MAP[k]) then Some(k + 1)
    else MonthFrom(key, k + 1)
  }

  /** The abbreviations of each month, as the dictionary lists them. */
  const ABBREVIATIONS: seq<seq<string>> := [
    ["jan"], ["feb"], ["márc", "marc", "mar"], ["ápr", "apr"], ["máj", "maj", "may"],
    ["jún", "jun"], ["júl", "jul"], ["aug"], ["szept", "sep", "sept"], ["okt", "oct"],
    ["nov"], ["dec", "dez"]]

  /** Each abbreviation has a dotted twin with the same month. */
  lemma MonthMapTwins()
    ensures forall k | 0 <= k < 12 :: DateRules.Twinned(ABBREVIATIONS[k], MONTH_MAP[k])
  {
    forall k | 0 <= k < 12 ensures DateRules.Twinned(ABBREVIATIONS[k], MONTH_MAP[k]) {
      if k < 6 { RowTwinnedLow(k); } else { RowTwinnedHigh(k); }
    }
  }

  lemma RowTwinnedLow(k: nat)
    requires k < 6
    ensures DateRules.Twinned(ABBREVIATIONS[k], MONTH_MAP[k])
  {
    if k == 0 {
      assert MONTH_MAP[0][0] == ABBREVIATIONS[0][0] && MONTH_MAP[0][1] == ABBREVIATIONS[0][0] + ".";
    } else if k == 1 {
      assert MONTH_MAP[1][0] == ABBREVIATIONS[1][0] && MONTH_MAP[1][1] == ABBREVIATIONS[1][0] + ".";
    } else if k == 2 {
      assert MONTH_MAP[2][0] == ABBREVIATIONS[2][0] && MONTH_MAP[2][1] == ABBREVIATIONS[2][0] + "." && MONTH_MAP[2][2] == ABBREVIATIONS[2][1] && MONTH_MAP[2][3] == ABBREVIATIONS[2][1] + "." && MONTH_MAP[2][4] == ABBREVIATIONS[2][2] && MONTH_MAP[2][5] == ABBREVIATIONS[2][2] + ".";
    } else if k == 3 {
      assert MONTH_MAP[3][0] == ABBREVIATIONS[3][0] && MONTH_MAP[3][1] == ABBREVIATIONS[3][0] + "." && MONTH_MAP[3][2] == ABBREVIATIONS[3][1] && MONTH_MAP[3][3] == ABBREVIATIONS[3][1] + ".";
    } else if k == 4 {
      assert MONTH_MAP[4][0] == ABBREVIATIONS[4][0] && MONTH_MAP[4][1] == ABBREVIATIONS[4][0] + "." && MONTH_MAP[4][2] == ABBREVIATIONS[4][1] && MONTH_MAP[4][3] == ABBREVIATIONS[4][1] + "." && MONTH_MAP[4][4] == ABBREVIATIONS[4][2] && MONTH_MAP[4][5] == ABBREVIATIONS[4][2] + ".";
    } else if k == 5 {
      assert MONTH_MAP[5][0] == ABBREVIATIONS[5][0] && MONTH_MAP[5][1] == ABBREVIATIONS[5][0] + "." && MONTH_MAP[5][2] == ABBREVIATIONS[5][1] && MONTH_MAP[5][3] == ABBREVIATIONS[5][1] + ".";
    }
  }

  lemma RowTwinnedHigh(k: nat)
    requires 6 <= k < 12
    ensures DateRules.Twinned(ABBREVIATIONS[k], MONTH_MAP[k])
  {
    if k == 6 {
      assert MONTH_MAP[6][0] == ABBREVIATIONS[6][0] && MONTH_MAP[6][1] == ABBREVIATIONS[6][0] + "." && MONTH_MAP[6][2] == ABBREVIATIONS[6][1] && MONTH_MAP[6][3] == ABBREVIATIONS[6][1] + ".";
    } else if k == 7 {
      assert MONTH_MAP[7][0] == ABBREVIATIONS[7][0] && MONTH_MAP[7][1] == ABBREVIATIONS[7][0] + ".";
    } else if k == 8 {
      assert MONTH_MAP[8][0] == ABBREVIATIONS[8][0] && MONTH_MAP[8][1] == ABBREVIATIONS[8][0] + "." && MONTH_MAP[8][2] == ABBREVIATIONS[8][1] && MONTH_MAP[8][3] == ABBREVIATIONS[8][1] + "." && MONTH_MAP[8][4] == ABBREVIATIONS[8][2] && MONTH_MAP[8][5] == ABBREVIATIONS[8][2] + ".";
    } else if k == 9 {
      assert MONTH_MAP[9][0] == ABBREVIATIONS[9][0] && MONTH_MAP[9][1] == ABBREVIATIONS[9][0] + "." && MONTH_MAP[9][2] == ABBREVIATIONS[9][1] && MONTH_MAP[9][3] == ABBREVIATIONS[9][1] + ".";
    } else if k == 10 {
      assert MONTH_MAP[10][0] == ABBREVIATIONS[10][0] && MONTH_MAP[10][1] == ABBREVIATIONS[10][0] + ".";
    } else if k == 11 {
      assert MONTH_MAP[11][0] == ABBREVIATIONS[11][0] && MONTH_MAP[11][1] == ABBREVIATIONS[11][0] + "." && MONTH_MAP[11][2] == ABBREVIATIONS[11][1] && MONTH_MAP[11][3] == ABBREVIATIONS[11][1] + ".";
    }
  }

  /** A key made of ASCII characters only. */
  predicate IsAsciiKey(s: string)
  {
    forall i | 0 <= i < |s| :: s[i] < '\U{0080}'
  }

  /** On an ASCII key a row of this table and the same row of the later
      table agree: the later table is this one without the accented keys. */
  lemma RowAgreesLow(k: nat, key: string)
    requires k < 6 && IsAsciiKey(key)
    ensures key in MONTH_MAP[k] <==> key in DateRules.MONTH_MAP[k]
  {
    if k == 0 {
      assert MONTH_MAP[0][0] == DateRules.MONTH_MAP[0][0] && MONTH_MAP[0][1] == DateRules.MONTH_MAP[0][1] && MONTH_MAP[0][3] == DateRules.MONTH_MAP[0][2];
      assert MONTH_MAP[0][2][4] == 'á';
    } else if k == 1 {
      assert MONTH_MAP[1][0] == DateRules.MONTH_MAP[1][0] && MONTH_MAP[1][1] == DateRules.MONTH_MAP[1][1] && MONTH_MAP[1][3] == DateRules.MONTH_MAP[1][2];
      assert MONTH_MAP[1][2][5] == 'á';
    } else if k == 2 {
      assert MONTH_MAP[2][2] == DateRules.MONTH_MAP[2][0] && MONTH_MAP[2][3] == DateRules.MONTH_MAP[2][1] && MONTH_MAP[2][4] == DateRules.MONTH_MAP[2][2] && MONTH_MAP[2][5] == DateRules.MONTH_MAP[2][3] && MONTH_MAP[2][7] == DateRules.MONTH_MAP[2][4];
      assert MONTH_MAP[2][0][1] == 'á' && MONTH_MAP[2][1][1] == 'á' && MONTH_MAP[2][6][1] == 'á';
    } else if k == 3 {
      assert MONTH_MAP[3][2] == DateRules.MONTH_MAP[3][0] && MONTH_MAP[3][3] == DateRules.MONTH_MAP[3][1] && MONTH_MAP[3][5] == DateRules.MONTH_MAP[3][2];
      assert MONTH_MAP[3][0][0] == 'á' && MONTH_MAP[3][1][0] == 'á' && MONTH_MAP[3][4][0] == 'á';
    } else if k == 4 {
      assert MONTH_MAP[4][2] == DateRules.MONTH_MAP[4][0] && MONTH_MAP[4][3] == DateRules.MONTH_MAP[4][1] && MONTH_MAP[4][4] == DateRules.MONTH_MAP[4][2] && MONTH_MAP[4][5] == DateRules.MONTH_MAP[4][3];
      assert MONTH_MAP[4][0][1] == 'á' && MONTH_MAP[4][1][1] == 'á';
    } else if k == 5 {
      assert MONTH_MAP[5][2] == DateRules.MONTH_MAP[5][0] && MONTH_MAP[5][3] == DateRules.MONTH_MAP[5][1] && MONTH_MAP[5][5] == DateRules.MONTH_MAP[5][2] && MONTH_MAP[5][6] == DateRules.MONTH_MAP[5][3];
      assert MONTH_MAP[5][0][1] == 'ú' && MONTH_MAP[5][1][1] == 'ú' && MONTH_MAP[5][4][1] == 'ú';
    }
  }

  lemma RowAgreesHigh(k: nat, key: string)
    requires 6 <= k < 12 && IsAsciiKey(key)
    ensures key in MONTH_MAP[k] <==> key in DateRules.MONTH_MAP[k]
  {
    if k == 6 {
      assert MONTH_MAP[6][2] == DateRules.MONTH_MAP[6][0] && MONTH_MAP[6][3] == DateRules.MONTH_MAP[6][1] && MONTH_MAP[6][5] == DateRules.MONTH_MAP[6][2] && MONTH_MAP[6][6] == DateRules.MONTH_MAP[6][3];
      assert MONTH_MAP[6][0][1] == 'ú' && MONTH_MAP[6][1][1] == 'ú' && MONTH_MAP[6][4][1] == 'ú';
    } else if k == 7 {
      assert MONTH_MAP[7][0] == DateRules.MONTH_MAP[7][0] && MONTH_MAP[7][1] == DateRules.MONTH_MAP[7][1] && MONTH_MAP[7][2] == DateRules.MONTH_MAP[7][2] && MONTH_MAP[7][3] == DateRules.MONTH_MAP[7][3];
    } else if k == 8 {
      assert MONTH_MAP[8][0] == DateRules.MONTH_MAP[8][0] && MONTH_MAP[8][1] == DateRules.MONTH_MAP[8][1] && MONTH_MAP[8][2] == DateRules.MONTH_MAP[8][2] && MONTH_MAP[8][3] == DateRules.MONTH_MAP[8][3] && MONTH_MAP[8][4] == DateRules.MONTH_MAP[8][4] && MONTH_MAP[8][5] == DateRules.MONTH_MAP[8][5] && MONTH_MAP[8][6] == DateRules.MONTH_MAP[8][6] && MONTH_MAP[8][7] == DateRules.MONTH_MAP[8][7];
    } else if k == 9 {
      assert MONTH_MAP[9][0] == DateRules.MONTH_MAP[9][0] && MONTH_MAP[9][1] == DateRules.MONTH_MAP[9][1] && MONTH_MAP[9][2] == DateRules.MONTH_MAP[9][2] && MONTH_MAP[9][3] == DateRules.MONTH_MAP[9][3] && MONTH_MAP[9][5] == DateRules.MONTH_MAP[9][4] && MONTH_MAP[9][6] == DateRules.MONTH_MAP[9][5];
      assert MONTH_MAP[9][4][3] == 'ó';
    } else if k == 10 {
      assert MONTH_MAP[10][0] == DateRules.MONTH_MAP[10][0] && MONTH_MAP[10][1] == DateRules.MONTH_MAP[10][1] && MONTH_MAP[10][2] == DateRules.MONTH_MAP[10][2];
    } else if k == 11 {
      assert MONTH_MAP[11][0] == DateRules.MONTH_MAP[11][0] && MONTH_MAP[11][1] == DateRules.MONTH_MAP[11][1] && MONTH_MAP[11][2] == DateRules.MONTH_MAP[11][2] && MONTH_MAP[11][3] == DateRules.MONTH_MAP[11][3] && MONTH_MAP[11][4] == DateRules.MONTH_MAP[11][4];
    }
  }

  /** Looking up an ASCII key gives the same month in both tables. */
  lemma {:induction false} MonthFromAgrees(key: string, k: nat)
    requires k <= 12 && IsAsciiKey(key)
    ensures MonthFrom(key, k) == DateRules.MonthFrom(key, k)
    decreases 12 - k
  {
    if k < 12 {
      if k < 6 { RowAgreesLow(k, key); } else { RowAgreesHigh(k, key); }
      MonthFromAgrees(key, k + 1);
    }
  }

  // ---------------------------------------------------------------------
  // _month_token_to_num
  // ---------------------------------------------------------------------

  /** `_month_token_to_num`: the token stripped, lower-cased and without one
      trailing dot, looked up as it is and then with a dot put back. */
  function MonthTokenToNum(token: string): (r: Option<nat>)
    ensures r.Some? ==> 1 <= r.value <= 12
  {
    var t := Normalize.MonthKey(token);
    match MonthGet(t)
    case Some(n) => Some(n)
    case None => MonthGet(t + ".")
  }

  /** A token and the same token followed by a dot name the same month. */
  lemma MonthTokenDot(token: string)
    requires Trimmed(token) && !Normalize.EndsWithDot(token)
    ensures MonthTokenToNum(token + ".") == MonthTokenToNum(token)
  {
    Normalize.MonthKeyDot(token);
  }

  lemma AsciiDotted(t: string)
    requires IsAsciiKey(t)
    ensures IsAsciiKey(t + ".")
  {
    assert forall i | 0 <= i < |t| :: (t + ".")[i] == t[i];
  }

  /** A token whose lookup key is ASCII names the same month in both
      generations. */
  lemma MonthTokenAgrees(token: string)
    requires IsAsciiKey(Normalize.MonthKey(token))
    ensures MonthTokenToNum(token) == Normalize.MonthTokenToNum(token)
  {
    var t := Normalize.MonthKey(token);
    AsciiDotted(t);
    MonthFromAgrees(t, 0);
    MonthFromAgrees(t + ".", 0);
  }

  /** The month of a month group such as "Júl/Jul": the first of its
      non-blank '/'-parts that names a month. */
  function SlashMonth(tok: string): (r: Option<nat>)
    ensures r.Some? ==> 1 <= r.value <= 12
  {
    var ps := Normalize.SlashParts(tok);
    var r := Normalize.FirstSome(MonthTokenToNum, ps);
    assert r.Some? ==> 1 <= r.value <= 12 by {
      if r.Some? { Normalize.FirstSomeFrom(MonthTokenToNum, ps); }
    }
    r
  }

  // ---------------------------------------------------------------------
  // extract_dates
  // ---------------------------------------------------------------------

  /** `DATE_YYYY_MON_DD` of patterns.py:
      `\b(\d{4})\s+([letters]{3,}(?:/[letters]{3,})?)\s+(\d{2})\b`, whose
      letters are `A-Za-z` and the Hungarian accented letters, which is
      `IsAlpha` on the alphabet of this model.
      Groups: year = part 1, month = parts 3..4, day = part 6. */
  const DATE_YYYY_MON_DD: seq<Part> := [
    P(Boundary), P(Rep(Digit, 4, 4)), P(Many(Space, 1)), P(Many(Alpha, 3)),
    Optional([Rep(Chars("/"), 1, 1), Many(Alpha, 3)]),
    P(Many(Space, 1)), P(Rep(Digit, 2, 2)), P(Boundary)]

  /** The three date shapes, in the order `extract_dates` runs them. */
  datatype Shape = DayMonthYear | YearMonthDay | YearMonDay

  function ShapeParts(sh: Shape): seq<Part>
  {
    match sh
    case DayMonthYear => DateRules.DATE_DDMMYYYY
    case YearMonthDay => DateRules.DATE_YYYYMMDD
    case YearMonDay => DATE_YYYY_MON_DD
  }

  /** The valid date one match of a shape denotes, if its month resolves. */
  function MatchDate(sh: Shape, s: string, f: Found): (r: Option<Date>)
    ensures r.Some? ==> IsValid(r.value)
  {
    match sh
    case DayMonthYear =>
      (match (Normalize.NatOf(Group(s, f, 1, 2)), Normalize.NatOf(Group(s, f, 3, 4)), Normalize.NatOf(Group(s, f, 5, 6)))
       case (Some(d), Some(mo), Some(y)) => SafeDate(y, mo, d)
       case _ => None)
    case YearMonthDay =>
      (match (Normalize.NatOf(Group(s, f, 1, 2)), Normalize.NatOf(Group(s, f, 3, 4)), Normalize.NatOf(Group(s, f, 5, 6)))
       case (Some(y), Some(mo), Some(d)) => SafeDate(y, mo, d)
       case _ => None)
    case YearMonDay =>
      (match (Normalize.NatOf(Group(s, f, 1, 2)), SlashMonth(Group(s, f, 3, 5)), Normalize.NatOf(Group(s, f, 6, 7)))
       case (Some(y), Some(mo), Some(d)) => SafeDate(y, mo, d)
       case _ => None)
  }

  /** The dates of some matches of a shape, in match order. */
  function MatchDates(sh: Shape, s: string, fs: seq<Found>): (ds: seq<Date>)
    ensures forall i | 0 <= i < |ds| :: IsValid(ds[i])
  {
    if |fs| == 0 then []
    else
      var last := match MatchDate(sh, s, fs[|fs| - 1]) case Some(d) => [d] case None => [];
      MatchDates(sh, s, fs[..|fs| - 1]) + last
  }

  /** The dates one `finditer` loop adds. */
  function ShapeDates(sh: Shape, text: string): (ds: seq<Date>)
    ensures forall i | 0 <= i < |ds| :: IsValid(ds[i])
  {
    MatchDates(sh, text, FindAll(ShapeParts(sh), text))
  }

  /** The order of the three loops. */
  const SHAPES: seq<Shape> := [DayMonthYear, YearMonthDay, YearMonDay]

  /** What the first loops find, in order. */
  function ShapesDates(shs: seq<Shape>, text: string): (ds: seq<Date>)
    ensures forall i | 0 <= i < |ds| :: IsValid(ds[i])
  {
    if |shs| == 0 then [] else ShapesDates(shs[..|shs| - 1], text) + ShapeDates(shs[|shs| - 1], text)
  }

  /** Everything the three loops find, in order. */
  function Candidates(text: string): (ds: seq<Date>)
    ensures forall i | 0 <= i < |ds| :: IsValid(ds[i])
  {
    ShapesDates(SHAPES, text)
  }

  /** What `extract_dates` returns: the distinct valid dates of the text as
      ISO strings in ascending order, and nothing for empty text. */
  function ExtractDatesOf(text: string): (r: seq<string>)
    ensures text == "" ==> r == []
    ensures StrictlyAscending(r)
    ensures forall i | 0 <= i < |r| :: IsIsoDate(r[i])
  {
    if text == "" then [] else SortedIsos(Candidates(text))
  }

  /** A date is reported exactly when one of the three shapes finds it. */
  lemma ExtractDatesMembers(text: string, d: Date)
    requires text != ""
    ensures IsValid(d) && IsoOf(d) in ExtractDatesOf(text) <==> d in Candidates(text)
  {
  }

  /** `MatchDates` of one more match adds that match's date, if any. */
  lemma MatchDatesSnoc(sh: Shape, s: string, fs: seq<Found>, i: nat)
    requires i < |fs|
    ensures forall d :: d in MatchDates(sh, s, fs[..i + 1]) <==>
      d in MatchDates(sh, s, fs[..i]) || MatchDate(sh, s, fs[i]) == Some(d)
  {
    assert fs[..i + 1][..i] == fs[..i];
  }

  /** The body of one `for m in SHAPE.finditer(text)` loop over the matches
      `ms`: adds the valid dates of the matches to `found`. */
  method AddMatchDates(found: set<Date>, sh: Shape, text: string, ms: seq<Found>) returns (found': set<Date>)
    ensures forall d :: d in found' <==> d in found || d in MatchDates(sh, text, ms)
  {
    found' := found;
    var i := 0;
    while i < |ms|
      invariant 0 <= i <= |ms|
      invariant forall d :: d in found' <==> d in found || d in MatchDates(sh, text, ms[..i])
    {
      MatchDatesSnoc(sh, text, ms, i);
      match MatchDate(sh, text, ms[i]) {
        case Some(d) => found' := found' + {d};
        case None =>
      }
      i := i + 1;
    }
    assert ms[..i] == ms;
  }

  /** One `for m in SHAPE.finditer(text)` loop. */
  method AddShapeDates(found: set<Date>, sh: Shape, text: string) returns (found': set<Date>)
    ensures forall d :: d in found' <==> d in found || d in ShapeDates(sh, text)
  {
    var ms := FindAll(ShapeParts(sh), text);
    found' := AddMatchDates(found, sh, text, ms);
  }

  /** `extract_dates`: the three `finditer` loops, one per shape in `SHAPES`
      order, add to the set `found`, which is then sorted and written out in
      ISO form. */
  method ExtractDates(text: string) returns (r: seq<string>)
    ensures r == ExtractDatesOf(text)
  {
    if text == "" {
      return [];
    }
    var found: set<Date> := {};
    for k := 0 to |SHAPES|
      invariant forall d :: d in found <==> d in ShapesDates(SHAPES[..k], text)
    {
      assert SHAPES[..k + 1][..k] == SHAPES[..k];
      found := AddShapeDates(found, SHAPES[k], text);
    }
    assert SHAPES[..|SHAPES|] == SHAPES;
    ghost var cands := Candidates(text);
    var sorted := SortSet(found);
    SortedIsosOf(cands, sorted);
    r := Isos(sorted);
  }

  // ---------------------------------------------------------------------
  // The numeric shapes in both generations
  // ---------------------------------------------------------------------

  /** The shape of the later parser with the same pattern. */
  function LaterShape(sh: Shape): Normalize.Shape
    requires sh != YearMonDay
  {
    if sh == DayMonthYear then Normalize.DayMonthYear else Normalize.YearMonthDay
  }

  lemma MatchDateAgrees(sh: Shape, s: string, f: Found)
    requires sh != YearMonDay
    ensures MatchDate(sh, s, f) == Normalize.MatchDate(LaterShape(sh), s, f)
  {
  }

  lemma {:induction false} MatchDatesAgree(sh: Shape, s: string, fs: seq<Found>)
    requires sh != YearMonDay
    ensures MatchDates(sh, s, fs) == Normalize.MatchDates(LaterShape(sh), s, fs)
    decreases |fs|
  {
    if |fs| > 0 {
      MatchDatesAgree(sh, s, fs[..|fs| - 1]);
      MatchDateAgrees(sh, s, fs[|fs| - 1]);
    }
  }

  /** A shape's dates are among the dates of any list of shapes holding it. */
  lemma {:induction false} InShapesDates(shs: seq<Normalize.Shape>, i: nat, text: string, d: Date)
    requires i < |shs| && d in Normalize.ShapeDates(shs[i], text)
    ensures d in Normalize.ShapesDates(shs, text)
    decreases |shs|
  {
    if i < |shs| - 1 {
      InShapesDates(shs[..|shs| - 1], i, text, d);
    }
  }

  /** A numeric shape finds the same dates in both generations. */
  lemma NumericShapeAgrees(sh: Shape, text: string)
    requires sh != YearMonDay
    ensures ShapeDates(sh, text) == Normalize.ShapeDates(LaterShape(sh), text)
  {
    MatchDatesAgree(sh, text, FindAll(ShapeParts(sh), text));
  }

  /** Every date found by a numeric shape here is also found by the later
      parser's shapes. */
  lemma NumericInCandidates(text: string, sh: Shape, d: Date)
    requires sh != YearMonDay && d in ShapeDates(sh, text)
    ensures d in Normalize.Candidates(text)
  {
    NumericShapeAgrees(sh, text);
    var i := if sh == DayMonthYear then 0 else 1;
    assert Normalize.SHAPES[i] == LaterShape(sh);
    InShapesDates(Normalize.SHAPES, i, text, d);
  }

  /** No match in the empty text has a digit group. */
  lemma MatchDateOfEmpty(sh: Shape, f: Found)
    ensures MatchDate(sh, "", f) == None
  {
    assert Group("", f, 1, 2) == "" && Group("", f, 5, 6) == "" && Group("", f, 6, 7) == "";
  }

  /** No shape finds a date in the empty text. */
  lemma {:induction false} MatchDatesOfEmpty(sh: Shape, fs: seq<Found>)
    ensures MatchDates(sh, "", fs) == []
  {
    if |fs| > 0 {
      MatchDatesOfEmpty(sh, fs[..|fs| - 1]);
      MatchDateOfEmpty(sh, fs[|fs| - 1]);
    }
  }

  lemma FoundInNonEmpty(sh: Shape, text: string, d: Date)
    requires d in ShapeDates(sh, text)
    ensures text != ""
  {
    if text == "" {
      MatchDatesOfEmpty(sh, FindAll(ShapeParts(sh), text));
      assert false;
    }
  }

  /** Every date found by a numeric shape here is also reported by the
      later `parse_dates_iso`. */
  lemma NumericDatesKept(text: string, sh: Shape, d: Date)
    requires sh != YearMonDay && d in ShapeDates(sh, text)
    ensures IsValid(d) && IsoOf(d) in Normalize.DatesIso(text)
  {
    NumericInCandidates(text, sh, d);
    FoundInNonEmpty(sh, text, d);
    Normalize.DatesIsoMembers(text, d);
  }

  // ---------------------------------------------------------------------
  // normalize_sex
  // ---------------------------------------------------------------------

  /** `t in f" {u} "`. */
  predicate PaddedHas(u: string, t: string)
  {
    Contains(" " + u + " ", t)
  }

  /** The female indicators, on the upper-cased text. */
  predicate FemaleMark(u: string)
  {
    Contains(u, "N/F") || Contains(u, "NŐ") || PaddedHas(u, " NO") || PaddedHas(u, " N ")
  }

  /** The male indicators as written. */
  predicate MaleMarkAsWritten(u: string)
  {
    Contains(u, "FÉRFI") || Contains(u, "FERFI") || PaddedHas(u, " M ") || PaddedHas(u, " F ")
  }

  /** The male indicators with the documented token "F/M" among them. */
  predicate MaleMark(u: string)
  {
    MaleMarkAsWritten(u) || Contains(u, "F/M")
  }

  /** `normalize_sex` as written: substring tests on `raw.upper()`, the
      female ones first. */
  function NormalizeSexAsWritten(raw: string): (r: Option<string>)
    ensures r == None || r == Some("NŐ") || r == Some("FÉRFI")
    ensures r == Some("NŐ") <==> raw != "" && FemaleMark(UpperStr(raw))
    ensures r == Some("FÉRFI") <==> raw != "" && !FemaleMark(UpperStr(raw)) && MaleMarkAsWritten(UpperStr(raw))
  {
    Normalize.SexDecision(raw, UpperStr, FemaleMark, MaleMarkAsWritten)
  }

  /** `normalize_sex` accepting every token its documentation lists. */
  function NormalizeSex(raw: string): (r: Option<string>)
    ensures r == None || r == Some("NŐ") || r == Some("FÉRFI")
    ensures r == Some("NŐ") <==> raw != "" && FemaleMark(UpperStr(raw))
    ensures r == Some("FÉRFI") <==> raw != "" && !FemaleMark(UpperStr(raw)) && MaleMark(UpperStr(raw))
  {
    Normalize.SexDecision(raw, UpperStr, FemaleMark, MaleMark)
  }

  /** The two agree except where the text holds "F/M". */
  lemma NormalizeSexDiffers(raw: string)
    ensures NormalizeSexAsWritten(raw) != NormalizeSex(raw) ==>
      NormalizeSexAsWritten(raw) == None && NormalizeSex(raw) == Some("FÉRFI") && Contains(UpperStr(raw), "F/M")
    ensures !Contains(UpperStr(raw), "F/M") ==> NormalizeSexAsWritten(raw) == NormalizeSex(raw)
  {
  }

  /** A text starting with "NO" holds " NO" once padded. */
  lemma PaddedNo(u: string)
    requires |u| >= 2 && u[0] == 'N' && u[1] == 'O'
    ensures PaddedHas(u, " NO")
  {
    var p := " " + u + " ";
    assert p[..3] == " NO" by {
      assert p[0] == ' ' && p[1] == u[0] && p[2] == u[1];
    }
    ContainsAt(p, " NO", 0);
  }

  /** A text starting with "NO" carries a female indicator. */
  lemma FemaleOfNo(u: string)
    requires StartsWith(u, "NO")
    ensures FemaleMark(u)
  {
    assert u[0] == 'N' && u[1] == 'O' by { assert u[..2] == "NO"; }
    PaddedNo(u);
  }

  /** Any text that starts with "NO" reads as female, "November" included:
      the test is `" NO" in f" {u} "`. */
  lemma StartingNoIsFemale(raw: string)
    requires StartsWith(UpperStr(raw), "NO")
    ensures NormalizeSexAsWritten(raw) == Some("NŐ") && NormalizeSex(raw) == Some("NŐ")
  {
    FemaleOfNo(UpperStr(raw));
  }

  /** A standalone "M" or "F" word reads as male unless a female indicator
      is present. */
  lemma LoneLetterIsMale(raw: string, i: nat, c: char)
    requires raw != "" && (c == 'M' || c == 'F')
    requires OccursAt(" " + UpperStr(raw) + " ", [' ', c, ' '], i)
    requires !FemaleMark(UpperStr(raw))
    ensures NormalizeSexAsWritten(raw) == Some("FÉRFI") && NormalizeSex(raw) == Some("FÉRFI")
  {
    var p := " " + UpperStr(raw) + " ";
    ContainsAt(p, [' ', c, ' '], i);
    if c == 'M' { assert [' ', c, ' '] == " M "; } else { assert [' ', c, ' '] == " F "; }
  }

  /** A character of `q` that `s` lacks keeps `q` out of `s`. */
  lemma AbsentChar(s: string, q: string, c: char)
    requires c in q && c !in s
    ensures !Contains(s, q)
  {
  }

  /** `q` occurs in `s` at none of the positions where it fits, each shown
      by one differing character. */
  lemma AbsentAt(s: string, q: string, js: seq<nat>)
    requires |js| == |s| - |q| + 1 && |q| <= |s|
    requires forall i | 0 <= i < |js| :: js[i] < |q| && s[i + js[i]] != q[js[i]]
    ensures !Contains(s, q)
  {
    forall i | 0 <= i < |js|
      ensures !OccursAt(s, q, i)
    {
      var j := js[i];
      assert i + j < |s| && s[i + j] != q[j];
      assert i + |q| <= |s| ==> s[i..i + |q|][j] == s[i + j];
    }
  }

  lemma UpperFM()
    ensures UpperStr("F/M") == "F/M"
  {
  }

  lemma FMHasNoFemaleMark()
    ensures !FemaleMark("F/M")
  {
    AbsentChar("F/M", "N/F", 'N');
    AbsentChar("F/M", "NŐ", 'N');
    assert " " + "F/M" + " " == " F/M ";
    AbsentChar(" F/M ", " NO", 'N');
    AbsentChar(" F/M ", " N ", 'N');
  }

  lemma FMHasNoMaleMarkAsWritten()
    ensures !MaleMarkAsWritten("F/M")
  {
    AbsentChar("F/M", "FÉRFI", 'É');
    AbsentChar("F/M", "FERFI", 'E');
    assert " " + "F/M" + " " == " F/M ";
    AbsentAt(" F/M ", " M ", [1, 0, 0]);
    AbsentAt(" F/M ", " F ", [2, 0, 0]);
  }

  /** The documented token "F/M" is not recognised as written, and is male
      once "F/M" is among the male indicators. */
  lemma SexFMUnrecognised()
    ensures NormalizeSexAsWritten("F/M") == None
    ensures NormalizeSex("F/M") == Some("FÉRFI")
  {
    UpperFM();
    FMHasNoFemaleMark();
    FMHasNoMaleMarkAsWritten();
    assert OccursAt("F/M", "F/M", 0);
    ContainsAt("F/M", "F/M", 0);
  }
}
