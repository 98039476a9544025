/** `core/utils/normalize.py`: the document-agnostic date parser, the
    ISO-to-DDMMYY conversion and the sex canonicaliser. */
module Normalize {
  import opened Base
  import opened Chars
  import opened PyStr
  import opened Pattern
  import opened Calendar
  import opened DateRules

  // ---------------------------------------------------------------------
  // Month tokens
  // ---------------------------------------------------------------------

  /** `t.endswith(".")`. */
  predicate EndsWithDot(t: string)
  {
    |t| > 0 && t[|t| - 1] == '.'
  }

  /** `t[:-1] if t.endswith(".") else t`. */
  function DropDot(t: string): (r: string)
    ensures EndsWithDot(t) ==> r + "." == t
    ensures !EndsWithDot(t) ==> r == t
  {
    if EndsWithDot(t) then t[..|t| - 1] else t
  }

  /** The lookup key of a month token: stripped, lower-cased and with one
      trailing dot dropped. */
  function MonthKey(token: string): string
  {
    DropDot(LowerStr(Strip(token)))
  }

  /** The key as it is, else the key with a dot put back. */
  function MonthOfKey(t: string): (r: Option<nat>)
    ensures r.Some? ==> 1 <= r.value <= 12
  {
    match MonthGet(t)
    case Some(n) => Some(n)
    case None => MonthGet(t + ".")
  }

  /** `_month_token_to_num`. */
  function MonthTokenToNum(token: string): (r: Option<nat>)
    ensures r.Some? ==> 1 <= r.value <= 12
  {
    MonthOfKey(MonthKey(token))
  }


  lemma LowerDotted(token: string)
    requires !EndsWithDot(token)
    ensures LowerStr(token + ".") == LowerStr(token) + "."
    ensures !EndsWithDot(LowerStr(token))
  {
    LowerStrConcat(token, ".");
  }

  lemma DropDotted(l: string)
    requires !EndsWithDot(l)
    ensures DropDot(l + ".") == l == DropDot(l)
  {
    assert (l + ".")[..|l|] == l;
  }

  /** A token without surrounding whitespace or a final dot has the same key
      as the token followed by a dot. */
  lemma MonthKeyDot(token: string)
    requires Trimmed(token) && !EndsWithDot(token)
    ensures MonthKey(token + ".") == MonthKey(token)
  {
    var t := token + ".";
    assert t[|t| - 1] == '.';
    assert token != "" ==> t[0] == token[0];
    StripUnchanged(t);
    StripUnchanged(token);
    LowerDotted(token);
    DropDotted(LowerStr(token));
  }

  /** A token and the same token with a dot after it name the same month. */
  lemma MonthTokenDot(token: string)
    requires Trimmed(token) && !EndsWithDot(token)
    ensures MonthTokenToNum(token + ".") == MonthTokenToNum(token)
  {
    MonthKeyDot(token);
  }

  /** The parts of `tok.split("/")` that are not blank, stripped. */
  function SlashParts(tok: string): (ps: seq<string>)
    ensures forall i | 0 <= i < |ps| :: ps[i] != ""
  {
    NonBlank(SplitOn(tok, '/'))
  }

  function NonBlank(ps: seq<string>): (r: seq<string>)
    ensures forall i | 0 <= i < |r| :: r[i] != ""
  {
    if |ps| == 0 then []
    else
      var s := Strip(ps[0]);
      (if s != "" then [s] else []) + NonBlank(ps[1..])
  }

  /** The value of the first element `f` gives one for. */
  function FirstSome(f: string -> Option<nat>, ps: seq<string>): Option<nat>
  {
    if |ps| == 0 then None
    else match f(ps[0])
      case Some(n) => Some(n)
      case None => FirstSome(f, ps[1..])
  }

  /** `FirstSome` is the value of the first element that has one, and None
      when none has. */
  lemma {:induction false} FirstSomeIsFirst(f: string -> Option<nat>, ps: seq<string>)
    ensures FirstSome(f, ps).None? <==> forall i | 0 <= i < |ps| :: f(ps[i]).None?
    ensures FirstSome(f, ps).Some? ==>
      (exists i | 0 <= i < |ps| :: f(ps[i]) == FirstSome(f, ps) && forall j | 0 <= j < i :: f(ps[j]).None?)
  {
    if |ps| > 0 && f(ps[0]).None? {
      var t := ps[1..];
      FirstSomeIsFirst(f, t);
      assert forall i | 1 <= i < |ps| :: ps[i] == t[i - 1];
      if FirstSome(f, t).Some? {
        var i :| 0 <= i < |t| && f(t[i]) == FirstSome(f, t) && forall j | 0 <= j < i :: f(t[j]).None?;
        assert f(ps[i + 1]) == FirstSome(f, ps);
      }
    }
  }

  /** A value `FirstSome` returns is one `f` gives. */
  lemma {:induction false} FirstSomeFrom(f: string -> Option<nat>, ps: seq<string>)
    requires FirstSome(f, ps).Some?
    ensures exists i | 0 <= i < |ps| :: f(ps[i]) == FirstSome(f, ps)
  {
    FirstSomeIsFirst(f, ps);
  }

  /** The month of a month group such as "Jul" or "Júl/Jul". */
  function SlashMonth(tok: string): (r: Option<nat>)
    ensures r.Some? ==> 1 <= r.value <= 12
  {
    var r := FirstSome(MonthTokenToNum, SlashParts(tok));
    assert r.Some? ==> 1 <= r.value <= 12 by {
      if r.Some? { FirstSomeFrom(MonthTokenToNum, SlashParts(tok)); }
    }
    r
  }

  /** `2000 + yy if yy <= 49 else 1900 + yy`. */
  function CenturyYear(yy: nat): (y: nat)
    requires yy < 100
    ensures 1950 <= y <= 2049 && y % 100 == yy
  {
    if yy <= 49 then 2000 + yy else 1900 + yy
  }

  // ---------------------------------------------------------------------
  // parse_dates_iso
  // ---------------------------------------------------------------------

  /** The five date shapes, in the order the parser runs them. */
  datatype Shape = DayMonthYear | YearMonthDay | YearMonDay | YearHuMonDay | DayMonYear

  function ShapeParts(sh: Shape): seq<Part>
  {
    match sh
    case DayMonthYear => DATE_DDMMYYYY
    case YearMonthDay => DATE_YYYYMMDD
    case YearMonDay => DATE_YYYY_MON_DD
    case YearHuMonDay => DATE_YYYY_HU_MON_DD
    case DayMonYear => DATE_DD_MON_YY
  }

  /** `int(g)` for a group of decimal digits. */
  function NatOf(g: string): (r: Option<nat>)
    ensures r.Some? ==> IsDigits(g) && r.value == DigitsValue(g)
  {
    if IsDigits(g) then Some(DigitsValue(g)) else None
  }

  /** The valid date one match of a shape denotes, if its month resolves. */
  function MatchDate(sh: Shape, s: string, f: Found): (r: Option<Date>)
    ensures r.Some? ==> IsValid(r.value)
  {
    match sh
    case DayMonthYear =>
      (match (NatOf(Group(s, f, 1, 2)), NatOf(Group(s, f, 3, 4)), NatOf(Group(s, f, 5, 6)))
       case (Some(d), Some(mo), Some(y)) => SafeDate(y, mo, d)
       case _ => None)
    case YearMonthDay =>
      (match (NatOf(Group(s, f, 1, 2)), NatOf(Group(s, f, 3, 4)), NatOf(Group(s, f, 5, 6)))
       case (Some(y), Some(mo), Some(d)) => SafeDate(y, mo, d)
       case _ => None)
    case YearMonDay =>
      (match (NatOf(Group(s, f, 1, 2)), SlashMonth(Group(s, f, 3, 5)), NatOf(Group(s, f, 6, 7)))
       case (Some(y), Some(mo), Some(d)) => SafeDate(y, mo, d)
       case _ => None)
    case YearHuMonDay =>
      (match (NatOf(Group(s, f, 1, 2)), MonthTokenToNum(Group(s, f, 3, 4)), NatOf(Group(s, f, 5, 6)))
       case (Some(y), Some(mo), Some(d)) => SafeDate(y, mo, d)
       case _ => None)
    case DayMonYear =>
      (match (NatOf(Group(s, f, 1, 2)), SlashMonth(Group(s, f, 3, 5)), NatOf(Group(s, f, 6, 7)))
       case (Some(d), Some(mo), Some(yy)) => if yy < 100 then SafeDate(CenturyYear(yy), mo, d) else None
       case _ => None)
  }

  /** The dates of some matches of a shape, in match order. */
  function MatchDates(sh: Shape, s: string, fs: seq<Found>): (ds: seq<Date>)
    ensures forall i | 0 <= i < |ds| :: IsValid(ds[i])
  {
    if |fs| == 0 then []
    else
      var last := match MatchDate(sh, s, fs[|fs| - 1]) case Some(d) => [d] case None => [];
      MatchDates(sh, s, fs[..|fs| - 1]) + last
  }

  /** The dates one `finditer` loop of the parser adds. */
  function ShapeDates(sh: Shape, text: string): (ds: seq<Date>)
    ensures forall i | 0 <= i < |ds| :: IsValid(ds[i])
  {
    MatchDates(sh, text, FindAll(ShapeParts(sh), text))
  }

  /** The order of the five loops. */
  const SHAPES: seq<Shape> := [DayMonthYear, YearMonthDay, YearMonDay, YearHuMonDay, DayMonYear]

  /** What the first loops find, in order. */
  function ShapesDates(shs: seq<Shape>, text: string): (ds: seq<Date>)
    ensures forall i | 0 <= i < |ds| :: IsValid(ds[i])
  {
    if |shs| == 0 then [] else ShapesDates(shs[..|shs| - 1], text) + ShapeDates(shs[|shs| - 1], text)
  }

  /** Everything the five loops find, in order. */
  function Candidates(text: string): (ds: seq<Date>)
    ensures forall i | 0 <= i < |ds| :: IsValid(ds[i])
  {
    ShapesDates(SHAPES, text)
  }

  /** What `parse_dates_iso` returns: the distinct valid dates of the text as
      ISO strings in ascending order, and nothing for empty text. */
  function DatesIso(text: string): (r: seq<string>)
    ensures text == "" ==> r == []
    ensures StrictlyAscending(r)
    ensures forall i | 0 <= i < |r| :: IsIsoDate(r[i])
  {
    if text == "" then [] else SortedIsos(Candidates(text))
  }

  /** A date is reported exactly when one of the shapes finds it. */
  lemma DatesIsoMembers(text: string, d: Date)
    requires text != ""
    ensures IsValid(d) && IsoOf(d) in DatesIso(text) <==> d in Candidates(text)
  {
  }

  /** `MatchDates` of one more match adds that match's date, if any. */
  lemma MatchDatesSnoc(sh: Shape, s: string, fs: seq<Found>, i: nat)
    requires i < |fs|
    ensures forall d :: d in MatchDates(sh, s, fs[..i + 1]) <==>
      d in MatchDates(sh, s, fs[..i]) || MatchDate(sh, s, fs[i]) == Some(d)
  {
    assert fs[..i + 1][..i] == fs[..i];
  }

  /** The body of one `for m in SHAPE.finditer(text)` loop over the matches
      `ms`: adds the valid dates of the matches to `found`. */
  method AddMatchDates(found: set<Date>, sh: Shape, text: string, ms: seq<Found>) returns (found': set<Date>)
    ensures forall d :: d in found' <==> d in found || d in MatchDates(sh, text, ms)
  {
    found' := found;
    var i := 0;
    while i < |ms|
      invariant 0 <= i <= |ms|
      invariant forall d :: d in found' <==> d in found || d in MatchDates(sh, text, ms[..i])
    {
      MatchDatesSnoc(sh, text, ms, i);
      match MatchDate(sh, text, ms[i]) {
        case Some(d) => found' := found' + {d};
        case None =>
      }
      i := i + 1;
    }
    assert ms[..i] == ms;
  }

  /** One `for m in SHAPE.finditer(text)` loop: adds the valid dates of the
      shape's matches to `found`. */
  method AddShapeDates(found: set<Date>, sh: Shape, text: string) returns (found': set<Date>)
    ensures forall d :: d in found' <==> d in found || d in ShapeDates(sh, text)
  {
    var ms := FindAll(ShapeParts(sh), text);
    found' := AddMatchDates(found, sh, text, ms);
  }

  /** `parse_dates_iso`: the five `finditer` loops, one per shape in
      `SHAPES` order, add to the set `found`, which is then sorted and written
      out in ISO form. */
  method ParseDatesIso(text: string) returns (r: seq<string>)
    ensures r == DatesIso(text)
  {
    if text == "" {
      return [];
    }
    var found: set<Date> := {};
    for k := 0 to |SHAPES|
      invariant forall d :: d in found <==> d in ShapesDates(SHAPES[..k], text)
    {
      assert SHAPES[..k + 1][..k] == SHAPES[..k];
      found := AddShapeDates(found, SHAPES[k], text);
    }
    assert SHAPES[..|SHAPES|] == SHAPES;
    ghost var cands := Candidates(text);
    var sorted := SortSet(found);
    SortedIsosOf(cands, sorted);
    r := Isos(sorted);
  }

  // ---------------------------------------------------------------------
  // Spellings of an ISO date
  // ---------------------------------------------------------------------

  /** `d.replace("-", ".")`. */
  function Dotted(d: string): (r: string)
    ensures |r| == |d|
    ensures ' ' !in d ==> ' ' !in r
  {
    var r := ReplaceChar(d, '-', '.');
    assert forall i | 0 <= i < |r| :: r[i] == ' ' ==> d[i] == ' ';
    r
  }

  /** Every string of `ds` is non-empty and holds no space. */
  predicate Tokens(ds: seq<string>)
  {
    forall k | 0 <= k < |ds| :: |ds[k]| > 0 && ' ' !in ds[k]
  }

  /** An ISO date has ten characters and no space. */
  lemma IsoDateTokens(ds: seq<string>)
    requires forall k | 0 <= k < |ds| :: IsIsoDate(ds[k])
    ensures Tokens(ds)
  {
    forall k | 0 <= k < |ds| ensures |ds[k]| > 0 && ' ' !in ds[k] {
      var d :| IsValid(d) && IsoOf(d) == ds[k];
      assert forall i | 0 <= i < 10 :: ds[k][i] != ' ';
    }
  }

  // ---------------------------------------------------------------------
  // Empty-to-None normalisation of stored values
  // ---------------------------------------------------------------------

  /** `norm_ws(v)`: whitespace runs become one space, none at the ends; a
      missing value reads as "". The function is imported from this module
      by the post-processors but not defined in it; this is its documented
      behaviour ("whitespace-normalize"). */
  function NormWs(v: Option<string>): (r: string)
    ensures Collapsed(r)
    ensures v.None? ==> r == ""
  {
    var s := v.OrElse("");
    CollapseShape(s);
    Collapse(s)
  }

  /** `empty_to_none(v)`: the whitespace-normalised value, None when that is
      empty. Like `norm_ws`, imported but not defined; this is its documented
      behaviour ("empty -> None"). */
  function EmptyToNone(v: Option<string>): (r: Option<string>)
    ensures r.Some? ==> r.value != "" && Collapsed(r.value)
    ensures v.None? ==> r == None
  {
    var s := NormWs(v);
    if s == "" then None else Some(s)
  }

  /** Normalising a normalised value changes nothing. */
  lemma EmptyToNoneIdempotent(v: Option<string>)
    ensures EmptyToNone(EmptyToNone(v)) == EmptyToNone(v)
  {
    if EmptyToNone(v).Some? {
      CollapsedFixpoint(EmptyToNone(v).value);
    }
  }

  // ---------------------------------------------------------------------
  // ddmmyy_from_iso
  // ---------------------------------------------------------------------

  /** `s[-2:]`. */
  function LastTwo(s: string): (r: string)
    ensures |s| >= 2 ==> r == s[|s| - 2..]
    ensures |s| < 2 ==> r == s
  {
    if |s| >= 2 then s[|s| - 2..] else s
  }

  /** `ddmmyy_from_iso`: the three '-'-parts reordered as day, month and the
      year's last two characters; None for empty input and for input that
      does not have exactly three parts (the unpacking raises, and the
      exception is caught). */
  function DdMmYyFromIso(iso: string): (r: Option<string>)
    ensures iso == "" ==> r == None
    ensures r.Some? <==> iso != "" && |SplitOn(iso, '-')| == 3
  {
    if iso == "" then None
    else
      var parts := SplitOn(iso, '-');
      if |parts| == 3 then Some(parts[2] + parts[1] + LastTwo(parts[0])) else None
  }

  /** A ten-character string with dashes exactly at 4 and 7 splits into
      its year, month and day fields. */
  lemma SplitIsoShape(s: string)
    requires |s| == 10 && s[4] == '-' && s[7] == '-'
    requires forall i | 0 <= i < 10 && i != 4 && i != 7 :: s[i] != '-'
    ensures SplitOn(s, '-') == [s[..4], s[5..7], s[8..]]
  {
    var y, m, dd := s[..4], s[5..7], s[8..];
    assert s == y + ['-'] + (m + ['-'] + dd);
    assert '-' !in y && '-' !in m && '-' !in dd by {
      assert forall i | 0 <= i < 4 :: y[i] == s[i];
      assert forall i | 0 <= i < 2 :: m[i] == s[5 + i] && dd[i] == s[8 + i];
    }
    SplitOnConcat(y, m + ['-'] + dd, '-');
    SplitOnConcat(m, dd, '-');
  }

  /** On an ISO date it gives DD ++ MM ++ YY. */
  lemma DdMmYyOfIso(d: Date)
    requires IsValid(d)
    ensures var s := IsoOf(d); DdMmYyFromIso(s) == Some(s[8..10] + s[5..7] + s[2..4])
  {
    var s := IsoOf(d);
    SplitIsoShape(s);
    assert s[8..] == s[8..10] && LastTwo(s[..4]) == s[2..4];
  }

  /** Day, month and the year's last two digits, each as two digits. */
  function DdMmYy(d: Date): (r: string)
    requires IsValid(d)
    ensures |r| == 6
  {
    Digits(d.day, 2) + Digits(d.month, 2) + Digits(d.year % 100, 2)
  }

  /** On the ISO form of a valid date, `ddmmyy_from_iso` gives that date's
      day, month and two-digit year. */
  lemma DdMmYyOfDate(d: Date)
    requires IsValid(d)
    ensures DdMmYyFromIso(IsoOf(d)) == Some(DdMmYy(d))
  {
    DdMmYyOfIso(d);
    var s := IsoOf(d);
    assert s[8..10] == Digits(d.day, 2);
    assert s[5..7] == Digits(d.month, 2);
    assert s[..4] == Digits(d.year, 4);
    assert s[2..4] == Digits(d.year, 4)[2..];
    DigitsLastTwo(d.year);
  }

  // ---------------------------------------------------------------------
  // normalize_sex
  // ---------------------------------------------------------------------

  /** `[A-ZÓŐ]`, case-sensitive. */
  const SEX_LETTER: Cls := Chars("ABCDEFGHIJKLMNOPQRSTUVWXYZÓŐ")

  /** `raw.upper().strip()` with Ő read as Ó. */
  function SexText(raw: string): string
  {
    ReplaceChar(Strip(UpperStr(raw)), 'Ő', 'Ó')
  }

  /** `re.findall(r"[A-ZÓŐ]+", u)`. */
  function SexTokens(u: string): seq<string>
  {
    Texts([P(Many(SEX_LETTER, 1))], u)
  }

  predicate HasToken(ts: seq<string>, words: set<string>)
  {
    exists i | 0 <= i < |ts| :: ts[i] in words
  }

  predicate FemaleMark(u: string)
  {
    HasToken(SexTokens(u), {"NŐ", "NÓ", "NO"}) || Contains(u, "N/F")
  }

  predicate MaleMark(u: string)
  {
    HasToken(SexTokens(u), {"FÉRFI", "FERFI", "F", "M"}) || Contains(u, "F/M")
  }

  /** The decision `normalize_sex` makes on the prepared text `u`: female
      indicators first, then male ones. */
  function SexDecision(raw: string, prep: string -> string, female: string -> bool, male: string -> bool): (r: Option<string>)
    ensures r == None || r == Some("NŐ") || r == Some("FÉRFI")
    ensures r == Some("NŐ") <==> raw != "" && female(prep(raw))
    ensures r == Some("FÉRFI") <==> raw != "" && !female(prep(raw)) && male(prep(raw))
  {
    if raw == "" then None
    else
      var u := prep(raw);
      if female(u) then Some("NŐ")
      else if male(u) then Some("FÉRFI")
      else None
  }

  /** `normalize_sex`: "NŐ", "FÉRFI" or None; whole tokens are compared, and
      the female indicators are looked for first. */
  function NormalizeSex(raw: string): (r: Option<string>)
    ensures r == None || r == Some("NŐ") || r == Some("FÉRFI")
    ensures r == Some("NŐ") <==> raw != "" && FemaleMark(SexText(raw))
    ensures r == Some("FÉRFI") <==> raw != "" && !FemaleMark(SexText(raw)) && MaleMark(SexText(raw))
  {
    SexDecision(raw, SexText, FemaleMark, MaleMark)
  }
}
