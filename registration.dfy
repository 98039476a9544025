/** `documents/registration/extract.py`: the field extractors of the vehicle
    registration certificate. The lines are cut at the first line of the C
    block (the holder's data), every field is read with `extract_from_label`
    against `STOP_LABELS`, the document number is the first token printed
    twice, and the towing block is summarised from its sub-labels. */
module Registration {
  import opened Base
  import opened Chars
  import opened PyStr
  import opened Regex
  import opened Calendar
  import opened Normalize
  import opened OcrText
  import opened LabelScan
  import opened RegistrationRules

  // ---------------------------------------------------------------------
  // The C block and the truncated lines
  // ---------------------------------------------------------------------

  /** `_looks_like_c_label_line`: after leading whitespace the line starts
      with C or c, standing alone or followed by a dot, a digit or
      whitespace (C.1, C1, "C 4", "C"). */
  predicate LooksLikeCLabelLine(line: string)
  {
    var s := LStrip(line);
    s != "" && Upper(s[0]) == 'C' && (|s| == 1 || s[1] == '.' || IsDigit(s[1]) || IsSpace(s[1]))
  }

  /** Stripping whitespace in front of a non-whitespace character leaves the
      rest of the line. */
  lemma {:induction false} LStripBlankPrefix(w: string, t: string)
    requires Blank(w) && (t == "" || !IsSpace(t[0]))
    ensures LStrip(w + t) == t
    decreases |w|
  {
    if |w| > 0 {
      assert (w + t)[1..] == w[1..] + t;
      assert IsSpace(w[0]);
      LStripBlankPrefix(w[1..], t);
    }
  }

  /** A line is a C-block line exactly when, after any whitespace, its first
      character is C or c and what follows is nothing, a dot, a digit or
      whitespace. A line such as "CSAK" or "cm3" is not one. */
  lemma CLabelLineIff(w: string, c: char, t: string)
    requires Blank(w) && !IsSpace(c)
    ensures LooksLikeCLabelLine(w + [c] + t) <==>
      (c == 'C' || c == 'c') && (t == "" || t[0] == '.' || IsDigit(t[0]) || IsSpace(t[0]))
  {
    assert w + [c] + t == w + ([c] + t);
    LStripBlankPrefix(w, [c] + t);
    var s := [c] + t;
    assert s[0] == c && s[1..] == t;
  }

  /** A blank line is never a C-block line. */
  lemma BlankNotCLabelLine(line: string)
    requires Blank(line)
    ensures !LooksLikeCLabelLine(line)
  {
    assert line + "" == line;
    LStripBlankPrefix(line, "");
  }

  /** The lines up to, not including, the first C-block line. */
  function CPrefix(ls: seq<string>): (r: seq<string>)
    ensures |r| <= |ls| && r == ls[..|r|]
    ensures forall i | 0 <= i < |r| :: !LooksLikeCLabelLine(r[i])
    ensures |r| < |ls| ==> LooksLikeCLabelLine(ls[|r|])
  {
    if |ls| == 0 || LooksLikeCLabelLine(ls[0]) then []
    else [ls[0]] + CPrefix(ls[1..])
  }

  /** A prefix free of C-block lines that ends at the end or at a C-block
      line is the truncation. */
  lemma {:induction false} CPrefixUnique(ls: seq<string>, k: nat)
    requires k <= |ls|
    requires forall i | 0 <= i < k :: !LooksLikeCLabelLine(ls[i])
    requires k < |ls| ==> LooksLikeCLabelLine(ls[k])
    ensures CPrefix(ls) == ls[..k]
    decreases k
  {
    if k > 0 {
      assert !LooksLikeCLabelLine(ls[0]);
      assert forall i | 0 <= i < k - 1 :: ls[1..][i] == ls[i + 1];
      CPrefixUnique(ls[1..], k - 1);
      assert ls[..k] == [ls[0]] + ls[1..][..k - 1];
    }
  }

  /** `_reg_lines(text)`: the normalised lines, cut at the first C-block
      line. */
  function RegLinesOf(text: string): (r: seq<string>)
    ensures |r| <= |NormLinesOf(text)| && r == NormLinesOf(text)[..|r|]
  {
    CPrefix(NormLinesOf(text))
  }

  /** The truncated lines are clean normalised lines, none of them a C-block
      line. */
  lemma RegLinesClean(text: string)
    ensures forall i | 0 <= i < |RegLinesOf(text)| ::
      CleanLine(RegLinesOf(text)[i]) && !LooksLikeCLabelLine(RegLinesOf(text)[i])
  {
    var ls := NormLinesOf(text);
    var r := CPrefix(ls);
    forall i | 0 <= i < |r| ensures CleanLine(r[i]) {
      assert r[i] == ls[i];
    }
  }

  /** The loop of `_reg_lines`: copy lines until the first C-block line. */
  method TakeUntilCLine(ls: seq<string>) returns (out: seq<string>)
    ensures out == CPrefix(ls)
  {
    out := [];
    var i := 0;
    while i < |ls|
      invariant 0 <= i <= |ls|
      invariant out + CPrefix(ls[i..]) == CPrefix(ls)
    {
      if LooksLikeCLabelLine(ls[i]) {
        break;
      }
      assert ls[i..][1..] == ls[i + 1..];
      out := out + [ls[i]];
      i := i + 1;
    }
  }

  /** `_reg_lines`. */
  method RegLines(text: string) returns (out: seq<string>)
    ensures out == RegLinesOf(text)
  {
    var ls := NormLines(text);
    out := TakeUntilCLine(ls);
  }

  // ---------------------------------------------------------------------
  // _x: extract_from_label over the truncated lines
  // ---------------------------------------------------------------------

  /** The query `_x` builds: the registration stop labels, no skip
      predicate, and the raw text for the fallback only when there is a
      fallback pattern. */
  function RegQuery(text: string, lb: Labels, labelRe: Matcher, valueRe: Option<Matcher>,
                    fallbackRe: Option<Matcher>, validator: Option<string -> bool>): LabelQuery
  {
    LabelQuery(labelRe, StopLabels(lb), valueRe, validator, fallbackRe,
               if fallbackRe.Some? then Some(text) else None, None)
  }

  /** What `_x` reads from the truncated lines alone: a non-empty value
      that passes the validator and contains the value pattern. */
  function LinesValue(text: string, lb: Labels, labelRe: Matcher, valueRe: Option<Matcher>,
                      validator: Option<string -> bool>): (r: Option<string>)
    ensures r.Some? ==> r.value != ""
    ensures r.Some? ==> validator.None? || validator.value(r.value)
    ensures r.Some? ==> valueRe.None? || valueRe.value(r.value).Some?
    ensures FirstLabel(RegLinesOf(text), labelRe, 0).None? ==> r == None
  {
    FromLines(RegLinesOf(text), RegQuery(text, lb, labelRe, valueRe, None, validator))
  }

  /** `_x`: the value from the truncated lines; the fallback pattern, when
      there is one, comes in exactly when the lines give nothing, and it
      searches the whole text, C block included. */
  function X(text: string, lb: Labels, labelRe: Matcher, valueRe: Option<Matcher>,
             fallbackRe: Option<Matcher>, validator: Option<string -> bool>): (r: Option<string>)
    ensures LinesValue(text, lb, labelRe, valueRe, validator).Some? ==>
      r == LinesValue(text, lb, labelRe, valueRe, validator)
    ensures LinesValue(text, lb, labelRe, valueRe, validator).None? ==>
      r == if fallbackRe.Some? then FallbackValue(text, fallbackRe.value) else None
  {
    var q0 := RegQuery(text, lb, labelRe, valueRe, None, validator);
    var q := RegQuery(text, lb, labelRe, valueRe, fallbackRe, validator);
    FromLinesIgnoresFallback(RegLinesOf(text), q0, q.fallbackRe, q.fullText);
    assert q0.(fallbackRe := q.fallbackRe, fullText := q.fullText) == q;
    ExtractFromLabel(RegLinesOf(text), q)
  }

  // ---------------------------------------------------------------------
  // Validators
  // ---------------------------------------------------------------------

  /** `lambda s: bool(parse_dates_iso(s))`. */
  predicate HasDate(s: string)
  {
    DatesIso(s) != []
  }

  /** `_to_first_iso_date`: the earliest date of the text. */
  function FirstIsoDate(s: string): (r: Option<string>)
    ensures r.Some? <==> HasDate(s)
    ensures r.Some? ==> IsIsoDate(r.value)
    ensures r.Some? ==> forall d | d in DatesIso(s) :: d == r.value || StrLess(r.value, d)
  {
    var ds := DatesIso(s);
    if |ds| == 0 then None
    else
      AscendingFirst(ds);
      Some(ds[0])
  }

  /** The first entry of a strictly ascending list is below every other. */
  lemma AscendingFirst(ds: seq<string>)
    requires StrictlyAscending(ds) && |ds| > 0
    ensures forall d | d in ds :: d == ds[0] || StrLess(ds[0], d)
  {
    forall d | d in ds ensures d == ds[0] || StrLess(ds[0], d) {
      var k :| 0 <= k < |ds| && ds[k] == d;
      if k > 0 { assert StrLess(ds[0], ds[k]); }
    }
  }

  /** `_is_plain_int_no_leading_zero`: the stripped value is all digits and
      does not start with 0. */
  predicate IsPlainInt(s: string)
  {
    var t := Strip(s);
    IsDigits(t) && t[0] != '0'
  }

  /** A digit string that does not start with 0 has no leading zeros: its
      value needs all of its digits. */
  lemma {:induction false} NoLeadingZeroValue(t: string)
    requires IsDigits(t) && t[0] != '0'
    ensures Pow10(|t| - 1) <= DigitsValue(t)
    decreases |t|
  {
    if |t| > 1 {
      var u := t[..|t| - 1];
      assert u[0] == t[0];
      NoLeadingZeroValue(u);
    }
  }

  /** An accepted seat count is a positive number written without leading
      zeros. */
  lemma PlainIntPositive(s: string)
    requires IsPlainInt(s)
    ensures 1 <= Pow10(|Strip(s)| - 1) <= DigitsValue(Strip(s))
  {
    NoLeadingZeroValue(Strip(s));
  }

  /** `is_category` of `extract_J`: some letter and some digit. */
  predicate IsCategory(s: string)
  {
    (exists i | 0 <= i < |s| :: IsAlpha(s[i])) && (exists i | 0 <= i < |s| :: IsDigit(s[i]))
  }

  /** `is_kw_or_kg` of `extract_Q`. */
  predicate IsKwOrKg(s: string)
  {
    KwValue(s).Some? || KgValue(s).Some?
  }

  // ---------------------------------------------------------------------
  // extract_document_number
  // ---------------------------------------------------------------------

  /** The first index whose token was already seen before it. */
  function FirstRepeatFrom(ts: seq<string>, i: nat): (r: Option<nat>)
    ensures r.Some? ==> i <= r.value < |ts| && ts[r.value] in ts[..r.value]
    ensures r.Some? ==> forall j | i <= j < r.value :: ts[j] !in ts[..j]
    ensures r.None? ==> forall j | i <= j < |ts| :: ts[j] !in ts[..j]
    decreases |ts| - i
  {
    if i >= |ts| then None
    else if ts[i] in ts[..i] then Some(i)
    else FirstRepeatFrom(ts, i + 1)
  }

  /** `extract_document_number`: of the upper-cased `DOCUMENT_NUMBER_VALUE`
      tokens, the first one met for the second time; None for empty text. */
  function DocumentNumberOf(text: string): (r: Option<string>)
    ensures text == "" ==> r == None
    ensures r.Some? ==> IsRegDocnoToken(r.value)
    ensures r.Some? ==> multiset(RegDocnoTokens(text))[r.value] >= 2
  {
    var ts := RegDocnoTokens(text);
    if text == "" then None
    else
      match FirstRepeatFrom(ts, 0)
      case None => None
      case Some(i) =>
        TwiceCounted(ts, i);
        Some(ts[i])
  }

  /** A token seen again occurs at least twice. */
  lemma TwiceCounted(ts: seq<string>, i: nat)
    requires i < |ts| && ts[i] in ts[..i]
    ensures multiset(ts)[ts[i]] >= 2
  {
    var j :| 0 <= j < i && ts[j] == ts[i];
    assert ts == ts[..j] + [ts[j]] + ts[j + 1..i] + [ts[i]] + ts[i + 1..];
  }

  /** A token that occurs twice is seen again at its second occurrence. */
  lemma SecondOccurrenceSeen(ts: seq<string>, t: string)
    requires multiset(ts)[t] >= 2
    ensures exists i | 0 <= i < |ts| :: ts[i] in ts[..i]
  {
    var j :| 0 <= j < |ts| && ts[j] == t;
    var rest := ts[..j] + ts[j + 1..];
    assert ts == ts[..j] + [ts[j]] + ts[j + 1..];
    assert multiset(rest)[t] >= 1;
    var k :| 0 <= k < |rest| && rest[k] == t;
    if k < j {
      assert ts[k] == t && ts[j] in ts[..j];
    } else {
      assert ts[k + 1] == t && ts[j] == ts[..k + 1][j];
    }
  }

  /** The number is found exactly when some token occurs twice, and it is
      the token whose second occurrence comes first. */
  lemma DocumentNumberIff(text: string)
    requires text != ""
    ensures var ts := RegDocnoTokens(text);
      DocumentNumberOf(text).None? <==> forall t :: multiset(ts)[t] <= 1
    ensures var ts := RegDocnoTokens(text);
      DocumentNumberOf(text).Some? ==> exists i | 0 <= i < |ts| ::
        ts[i] == DocumentNumberOf(text).value && ts[i] in ts[..i] && forall j | 0 <= j < i :: ts[j] !in ts[..j]
  {
    var ts := RegDocnoTokens(text);
    match FirstRepeatFrom(ts, 0)
    case None =>
      forall t ensures multiset(ts)[t] <= 1 {
        if multiset(ts)[t] >= 2 { SecondOccurrenceSeen(ts, t); }
      }
    case Some(i) =>
      TwiceCounted(ts, i);
  }

  /** The loop of `extract_document_number` with its `seen` set. */
  method ExtractDocumentNumber(text: string) returns (r: Option<string>)
    ensures r == DocumentNumberOf(text)
  {
    if text == "" {
      return None;
    }
    var hits := RegDocnoTokens(text);
    var seen: set<string> := {};
    var i := 0;
    while i < |hits|
      invariant 0 <= i <= |hits|
      invariant seen == set j | 0 <= j < i :: hits[j]
      invariant FirstRepeatFrom(hits, 0) == FirstRepeatFrom(hits, i)
    {
      var tok := hits[i];
      assert tok in seen <==> tok in hits[..i] by {
        assert forall x :: x in hits[..i] <==> exists j | 0 <= j < i :: hits[j] == x;
      }
      if tok in seen {
        return Some(tok);
      }
      seen := seen + {tok};
      i := i + 1;
    }
    return None;
  }

  // ---------------------------------------------------------------------
  // The field extractors
  // ---------------------------------------------------------------------

  /** The text `fallback_value` searches: the normalised text, or the raw
      text when normalising leaves nothing. */
  function FallbackSubject(text: string): string
  {
    if NormalizeOcrLine(text) != "" then NormalizeOcrLine(text) else text
  }

  /** When group 1 of the fallback match took part and carries no
      surrounding whitespace, the fallback returns exactly that group. */
  lemma FallbackGroupOne(text: string, re: Matcher)
    requires re(FallbackSubject(text)).Some?
    requires var g := Group(re(FallbackSubject(text)).value, 1); g.Some? && g.value != "" && Trimmed(g.value)
    ensures FallbackValue(text, re) == Group(re(FallbackSubject(text)).value, 1)
  {
    var m := re(FallbackSubject(text)).value;
    assert m.groups[1].Some?;
    StripUnchanged(Group(m, 1).value);
  }

  /** A field read from the labelled lines only (`extract_D1`, `D2`, `D3`,
      `H`, `K`, `P5` and `R`): a non-empty value, and nothing at all when
      the truncated lines hold no label line. */
  function PlainField(text: string, lb: Labels, labelRe: Matcher): (r: Option<string>)
    ensures r.Some? ==> r.value != ""
    ensures FirstLabel(RegLinesOf(text), labelRe, 0).None? ==> r == None
  {
    X(text, lb, labelRe, None, None, None)
  }

  /** `PLATE_VALUE` with its groups folded into the whole match: the
      fallback `extract_A` evidently means, returning the whole plate. */
  function PlateWhole(s: string): (r: Option<Hit>)
    ensures r.Some? <==> PlateValue(s).Some?
    ensures r.Some? ==> LastIndex(r.value).None? && Group(r.value, 0) == Group(PlateValue(s).value, 0)
  {
    match PlateValue(s)
    case None => None
    case Some(h) => Some(Hit(h.start, h.end, [Group(h, 0)], None))
  }

  /** `extract_A` as written: the label value must contain a plate, and
      the global fallback is `PLATE_VALUE` itself, whose group 1 is what
      `fallback_value` returns. */
  function ExtractAAsWritten(text: string, lb: Labels): (r: Option<string>)
    ensures LinesValue(text, lb, lb.A, Some(PlateValue), None).Some? ==> r.Some? && PlateValue(r.value).Some?
    ensures LinesValue(text, lb, lb.A, Some(PlateValue), None).None? ==> r == FallbackValue(text, PlateValue)
  {
    X(text, lb, lb.A, Some(PlateValue), Some(PlateValue), None)
  }

  /** When the fallback match has no group that took part and its whole
      match carries no surrounding whitespace, the fallback returns the
      whole match. */
  lemma FallbackWhole(text: string, re: Matcher)
    requires re(FallbackSubject(text)).Some?
    requires var m := re(FallbackSubject(text)).value;
      LastIndex(m).None? && Group(m, 0).Some? && Group(m, 0).value != "" && Trimmed(Group(m, 0).value)
    ensures FallbackValue(text, re) == Group(re(FallbackSubject(text)).value, 0)
  {
    StripUnchanged(Group(re(FallbackSubject(text)).value, 0).value);
  }

  /** As written, the fallback of `extract_A` returns only the letter zone
      of the first plate in the text: three or four characters, which are
      not a plate. */
  lemma AFallbackLettersOnly(text: string, lb: Labels, h: Hit)
    requires LinesValue(text, lb, lb.A, Some(PlateValue), None).None?
    requires PlateValue(FallbackSubject(text)) == Some(h)
    ensures ExtractAAsWritten(text, lb) == Group(h, 1)
    ensures Group(h, 1).Some? && 3 <= |Group(h, 1).value| <= 4 && PlateValue(Group(h, 1).value).None?
  {
    PlateGroupOneTooShort(FallbackSubject(text));
    PlateGroupsTrimmed(FallbackSubject(text), h);
    FallbackGroupOne(text, PlateValue);
  }

  /** The corrected fallback returns the whole first plate of the text. */
  lemma AFallbackPlate(text: string)
    ensures PlateValue(FallbackSubject(text)).Some? ==>
      FallbackValue(text, PlateWhole).Some? && PlateValue(FallbackValue(text, PlateWhole).value).Some?
    ensures PlateValue(FallbackSubject(text)).None? ==> FallbackValue(text, PlateWhole).None?
  {
    var s := FallbackSubject(text);
    if PlateValue(s).Some? {
      PlateGroupsTrimmed(s, PlateValue(s).value);
      FallbackWhole(text, PlateWhole);
      PlateOfWholeMatch(s);
    }
  }

  /** `extract_A` with the whole plate as its fallback: whichever way the
      value is found, it contains a plate. */
  function ExtractA(text: string, lb: Labels): (r: Option<string>)
    ensures LinesValue(text, lb, lb.A, Some(PlateValue), None).Some? ==>
      r == LinesValue(text, lb, lb.A, Some(PlateValue), None)
    ensures LinesValue(text, lb, lb.A, Some(PlateValue), None).None? ==>
      (r.Some? <==> PlateValue(FallbackSubject(text)).Some?)
  {
    AFallbackPlate(text);
    X(text, lb, lb.A, Some(PlateValue), Some(PlateWhole), None)
  }

  /** Whichever way `extract_A` finds its value, the value contains a
      plate. */
  lemma ExtractAIsPlate(text: string, lb: Labels)
    ensures ExtractA(text, lb).Some? ==> PlateValue(ExtractA(text, lb).value).Some?
  {
    AFallbackPlate(text);
  }

  /** `_to_first_iso_date(raw) if raw else None`: the earliest date of a
      non-empty raw value. */
  function DateOf(raw: Option<string>): (r: Option<string>)
    ensures r.Some? <==> raw.Some? && raw.value != "" && HasDate(raw.value)
    ensures r.Some? ==> IsIsoDate(r.value) && r == FirstIsoDate(raw.value)
  {
    if raw.Some? && raw.value != "" then FirstIsoDate(raw.value) else None
  }

  /** `extract_B`: the earliest date of the first line value that holds a
      date, and nothing when no line value near the label does. */
  function ExtractB(text: string, lb: Labels): (r: Option<string>)
    ensures r.Some? <==> LinesValue(text, lb, lb.B, None, Some(HasDate)).Some?
    ensures r.Some? ==> IsIsoDate(r.value) && r == FirstIsoDate(LinesValue(text, lb, lb.B, None, Some(HasDate)).value)
  {
    DateOf(X(text, lb, lb.B, None, None, Some(HasDate)))
  }

  /** `extract_I`: the date under the I label, else under its alias. */
  function ExtractI(text: string, lb: Labels): (r: Option<string>)
    ensures r.Some? ==> IsIsoDate(r.value)
    ensures LinesValue(text, lb, lb.I, None, Some(HasDate)).Some? ==>
      r == FirstIsoDate(LinesValue(text, lb, lb.I, None, Some(HasDate)).value) && r.Some?
    ensures LinesValue(text, lb, lb.I, None, Some(HasDate)).None? ==>
      r == DateOf(LinesValue(text, lb, lb.IAlias1, None, Some(HasDate)))
    ensures r.Some? <==>
      LinesValue(text, lb, lb.I, None, Some(HasDate)).Some? || LinesValue(text, lb, lb.IAlias1, None, Some(HasDate)).Some?
  {
    var raw := X(text, lb, lb.I, None, None, Some(HasDate));
    var raw' := if raw.Some? && raw.value != "" then raw else X(text, lb, lb.IAlias1, None, None, Some(HasDate));
    DateOf(raw')
  }

  /** `extract_E`: a label value holding a VIN, else the first VIN of the
      whole text. */
  function ExtractE(text: string, lb: Labels): (r: Option<string>)
    ensures LinesValue(text, lb, lb.E, Some(VinValue), None).Some? ==>
      r == LinesValue(text, lb, lb.E, Some(VinValue), None)
    ensures LinesValue(text, lb, lb.E, Some(VinValue), None).None? ==>
      r == FallbackValue(text, VinValue)
  {
    X(text, lb, lb.E, Some(VinValue), Some(VinValue), None)
  }

  /** The VIN fallback returns the seventeen characters of the first VIN of
      the text. */
  lemma VinFallback(text: string, h: Hit)
    requires VinValue(FallbackSubject(text)) == Some(h)
    ensures FallbackValue(text, VinValue) == Group(h, 1)
    ensures Group(h, 1).Some? && |Group(h, 1).value| == 17
  {
    VinGroupOne(FallbackSubject(text), h);
    FallbackGroupOne(text, VinValue);
  }

  /** Whichever way `extract_E` finds its value, the value contains a VIN;
      it is found exactly when the label gives one or the text holds one. */
  lemma ExtractEIsVin(text: string, lb: Labels)
    ensures ExtractE(text, lb).Some? ==> VinValue(ExtractE(text, lb).value).Some?
    ensures ExtractE(text, lb).Some? <==>
      LinesValue(text, lb, lb.E, Some(VinValue), None).Some? || VinValue(FallbackSubject(text)).Some?
  {
    if VinValue(FallbackSubject(text)).Some? {
      VinGroupOne(FallbackSubject(text), VinValue(FallbackSubject(text)).value);
      VinFallback(text, VinValue(FallbackSubject(text)).value);
    }
  }

  /** `extract_F1` and `extract_G`: a label value holding a weight in kg,
      with no global fallback. */
  function WeightField(text: string, lb: Labels, labelRe: Matcher): (r: Option<string>)
    ensures r.Some? ==> KgValue(r.value).Some?
    ensures r == LinesValue(text, lb, labelRe, Some(KgValue), None)
  {
    X(text, lb, labelRe, Some(KgValue), None, None)
  }

  /** `extract_J`: a category code (some letter and some digit) under the J
      label, else under its alias. */
  function ExtractJ(text: string, lb: Labels): (r: Option<string>)
    ensures r.Some? ==> IsCategory(r.value)
    ensures LinesValue(text, lb, lb.J, None, Some(IsCategory)).Some? ==>
      r == LinesValue(text, lb, lb.J, None, Some(IsCategory))
    ensures LinesValue(text, lb, lb.J, None, Some(IsCategory)).None? ==>
      r == LinesValue(text, lb, lb.JAlias1, None, Some(IsCategory))
  {
    var v := X(text, lb, lb.J, None, None, Some(IsCategory));
    if v.Some? && v.value != "" then v else X(text, lb, lb.JAlias1, None, None, Some(IsCategory))
  }

  /** `extract_P1`: a label value holding a displacement in cm3, else the
      number of the first displacement in the text. */
  function ExtractP1(text: string, lb: Labels): (r: Option<string>)
    ensures LinesValue(text, lb, lb.P1, Some(Cm3Value), None).Some? ==>
      r == LinesValue(text, lb, lb.P1, Some(Cm3Value), None)
    ensures LinesValue(text, lb, lb.P1, Some(Cm3Value), None).None? ==>
      r == FallbackValue(text, Cm3Value)
  {
    X(text, lb, lb.P1, Some(Cm3Value), Some(Cm3Value), None)
  }

  /** The displacement is the label value with its unit, or from the
      fallback the bare number of two to five digits. */
  lemma ExtractP1Shape(text: string, lb: Labels)
    ensures var r := ExtractP1(text, lb);
      r.Some? ==> Cm3Value(r.value).Some? || (IsDigits(r.value) && 2 <= |r.value| <= 5)
    ensures ExtractP1(text, lb).Some? <==>
      LinesValue(text, lb, lb.P1, Some(Cm3Value), None).Some? || Cm3Value(FallbackSubject(text)).Some?
  {
    var s := FallbackSubject(text);
    if Cm3Value(s).Some? {
      UnitGroupTrimmed(s, 2, 5, "CM3", Cm3Value(s).value);
      FallbackGroupOne(text, Cm3Value);
    }
  }

  /** `extract_P2`: a label value holding a power in kW, else the number of
      the first power in the text. */
  function ExtractP2(text: string, lb: Labels): (r: Option<string>)
    ensures LinesValue(text, lb, lb.P2, Some(KwValue), None).Some? ==>
      r == LinesValue(text, lb, lb.P2, Some(KwValue), None)
    ensures LinesValue(text, lb, lb.P2, Some(KwValue), None).None? ==>
      r == FallbackValue(text, KwValue)
  {
    X(text, lb, lb.P2, Some(KwValue), Some(KwValue), None)
  }

  /** The power is the label value with its unit, or from the fallback the
      bare number of one to four digits. */
  lemma ExtractP2Shape(text: string, lb: Labels)
    ensures var r := ExtractP2(text, lb);
      r.Some? ==> KwValue(r.value).Some? || (IsDigits(r.value) && 1 <= |r.value| <= 4)
    ensures ExtractP2(text, lb).Some? <==>
      LinesValue(text, lb, lb.P2, Some(KwValue), None).Some? || KwValue(FallbackSubject(text)).Some?
  {
    var s := FallbackSubject(text);
    if KwValue(s).Some? {
      UnitGroupTrimmed(s, 1, 4, "KW", KwValue(s).value);
      FallbackGroupOne(text, KwValue);
    }
  }

  /** `extract_P3`: a label value naming a fuel, else the first fuel word
      of the text. */
  function ExtractP3(text: string, lb: Labels): (r: Option<string>)
    ensures LinesValue(text, lb, lb.P3, Some(FuelValue), None).Some? ==>
      r == LinesValue(text, lb, lb.P3, Some(FuelValue), None)
    ensures LinesValue(text, lb, lb.P3, Some(FuelValue), None).None? ==>
      r == FallbackValue(text, FuelValue)
  {
    X(text, lb, lb.P3, Some(FuelValue), Some(FuelValue), None)
  }

  /** Whichever way `extract_P3` finds its value, the value names a fuel. */
  lemma ExtractP3IsFuel(text: string, lb: Labels)
    ensures ExtractP3(text, lb).Some? ==> FuelValue(ExtractP3(text, lb).value).Some?
    ensures ExtractP3(text, lb).Some? <==>
      LinesValue(text, lb, lb.P3, Some(FuelValue), None).Some? || FuelValue(FallbackSubject(text)).Some?
  {
    var s := FallbackSubject(text);
    if FuelValue(s).Some? {
      FuelGroupOne(s, FuelValue(s).value);
      FallbackGroupOne(text, FuelValue);
    }
  }

  /** `extract_Q`: a label value holding a power in kW or a weight in kg,
      with no global fallback. */
  function ExtractQ(text: string, lb: Labels): (r: Option<string>)
    ensures r.Some? ==> KwValue(r.value).Some? || KgValue(r.value).Some?
    ensures r == LinesValue(text, lb, lb.Q, None, Some(IsKwOrKg))
  {
    X(text, lb, lb.Q, None, None, Some(IsKwOrKg))
  }

  /** `extract_S1` and `extract_S2`: a seat count written as a plain number
      without leading zeros. */
  function SeatField(text: string, lb: Labels, labelRe: Matcher): (r: Option<string>)
    ensures r.Some? ==> IsPlainInt(r.value)
    ensures r == LinesValue(text, lb, labelRe, None, Some(IsPlainInt))
  {
    X(text, lb, labelRe, None, None, Some(IsPlainInt))
  }

  /** `extract_V9` and `extract_gearbox_type`: a label value holding a
      number of one to three digits. */
  function SmallNumberField(text: string, lb: Labels, labelRe: Matcher): (r: Option<string>)
    ensures r.Some? ==> SmallNumberValue(r.value).Some?
    ensures r == LinesValue(text, lb, labelRe, Some(SmallNumberValue), None)
  {
    X(text, lb, labelRe, Some(SmallNumberValue), None, None)
  }

  /** `extract_manufacture_year`: a label value holding a year from 1900 to
      2099. */
  function ExtractManufactureYear(text: string, lb: Labels): (r: Option<string>)
    ensures r.Some? ==> YearValue(r.value).Some?
    ensures r == LinesValue(text, lb, lb.ManufactureYear, Some(YearValue), None)
  {
    X(text, lb, lb.ManufactureYear, Some(YearValue), None, None)
  }
}
