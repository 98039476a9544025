/** The passport extractor (`documents/passport/extract.py`) and its
    processor (`documents/passport/processor.py`): label values with
    value-first fallbacks, a positional name scan after the type line, and the
    min / second / max date policy. */
module Passport {
  import opened Base
  import opened Chars
  import opened PyStr
  import opened Regex
  import opened Calendar
  import opened OcrText
  import opened LabelScan
  import opened Normalize
  import opened Fields

  /** The compiled label patterns of the passport rules, as matchers, and the
      sex value pattern. The two other value patterns are concrete below. */
  datatype Rules = Rules(
    countryCodeLabel: Matcher,
    documentNumberLabel: Matcher,
    surnameLabel: Matcher,
    givenNamesLabel: Matcher,
    birthNameLabel: Matcher,
    sexLabel: Matcher,
    birthDateLabel: Matcher,
    birthPlaceLabel: Matcher,
    nationalityLabel: Matcher,
    issueDateLabel: Matcher,
    expiryDateLabel: Matcher,
    issuingAuthorityLabel: Matcher,
    sexRawValue: Matcher)

  /** `STOP_LABELS`: all twelve label patterns. */
  function Stops(rules: Rules): (s: seq<Matcher>)
    ensures |s| == 12
  {
    [rules.countryCodeLabel, rules.documentNumberLabel, rules.surnameLabel, rules.givenNamesLabel,
     rules.birthNameLabel, rules.sexLabel, rules.birthDateLabel, rules.birthPlaceLabel,
     rules.nationalityLabel, rules.issueDateLabel, rules.expiryDateLabel, rules.issuingAuthorityLabel]
  }

  /** `_stop_pred`. */
  predicate IsStop(line: string, rules: Rules)
  {
    IsStopLabel(line, Stops(rules))
  }

  // ---------------------------------------------------------------------
  // Value patterns
  // ---------------------------------------------------------------------

  /** Three upper-case ASCII letters. */
  predicate IsCountryCode(v: string)
  {
    |v| == 3 && IsAsciiUpper(v[0]) && IsAsciiUpper(v[1]) && IsAsciiUpper(v[2])
  }

  /** `\b[A-Z]{3}\b` matches at `p` (case-sensitive). */
  predicate CountryAt(s: string, p: nat)
  {
    p + 3 <= |s| && IsCountryCode(s[p..p + 3])
    && (p == 0 || !IsWordChar(s[p - 1])) && (p + 3 == |s| || !IsWordChar(s[p + 3]))
  }

  /** The leftmost match position at or after `p`. */
  function CountryFrom(s: string, p: nat): (r: Option<nat>)
    ensures r.Some? ==> p <= r.value && CountryAt(s, r.value)
    ensures r.Some? ==> forall q | p <= q < r.value :: !CountryAt(s, q)
    ensures r.None? <==> forall q | p <= q <= |s| :: !CountryAt(s, q)
    decreases |s| - p
  {
    if p + 3 > |s| then None else if CountryAt(s, p) then Some(p) else CountryFrom(s, p + 1)
  }

  /** `COUNTRY_CODE_VALUE.search(s)`; group 1 is the named group `value`. */
  function CountryCodeValue(s: string): (r: Option<Hit>)
    ensures r.None? <==> forall q | 0 <= q <= |s| :: !CountryAt(s, q)
    ensures r.Some? ==> r.value.valueGroup == Some(1) && Group(r.value, 1).Some?
    ensures r.Some? ==> IsCountryCode(Group(r.value, 1).value)
  {
    match CountryFrom(s, 0)
    case None => None
    case Some(p) => Some(Hit(p, p + 3, [Some(s[p..p + 3]), Some(s[p..p + 3])], Some(1)))
  }

  /** A non-empty run of ASCII letters and digits is a clean line: it
      normalises to itself. */
  lemma AlnumClean(v: string)
    requires v != "" && forall i | 0 <= i < |v| :: IsAsciiAlnum(v[i])
    ensures NormalizeOcrLine(v) == v
  {
    assert CleanLine(v);
    CleanLineFixed(v);
  }

  /** Length of the run of ASCII letters and digits starting at `p`. */
  function AlnumRun(s: string, p: nat): (n: nat)
    ensures p + n <= |s| || n == 0
    ensures forall i | p <= i < p + n :: IsAsciiAlnum(s[i])
    ensures p + n >= |s| || !IsAsciiAlnum(s[p + n])
    decreases |s| - p
  {
    if p >= |s| || !IsAsciiAlnum(s[p]) then 0 else 1 + AlnumRun(s, p + 1)
  }

  /** Some character at or after `p` is a digit: `(?=.*\d)` at `p`. */
  predicate DigitAfter(s: string, p: nat)
  {
    exists i | p <= i < |s| :: IsDigit(s[i])
  }

  /** `DOCUMENT_NUMBER_VALUE` (case-insensitive) matches at `p`: a word
      boundary, a run of 5 to 12 letters and digits ending at a word
      boundary, and a digit somewhere further on the line. */
  predicate DocumentNumberAt(s: string, p: nat)
  {
    p < |s| && (p == 0 || !IsWordChar(s[p - 1]))
    && 5 <= AlnumRun(s, p) <= 12
    && (p + AlnumRun(s, p) == |s| || !IsWordChar(s[p + AlnumRun(s, p)]))
    && DigitAfter(s, p)
  }

  function DocumentNumberFrom(s: string, p: nat): (r: Option<nat>)
    ensures r.Some? ==> p <= r.value && DocumentNumberAt(s, r.value)
    ensures r.None? <==> forall q | p <= q <= |s| :: !DocumentNumberAt(s, q)
    decreases |s| - p
  {
    if p >= |s| then None else if DocumentNumberAt(s, p) then Some(p) else DocumentNumberFrom(s, p + 1)
  }

  /** `DOCUMENT_NUMBER_VALUE.search(s)`: the value is the whole run. */
  function DocumentNumberValue(s: string): (r: Option<Hit>)
    ensures r.None? <==> forall q | 0 <= q <= |s| :: !DocumentNumberAt(s, q)
    ensures r.Some? ==> r.value.valueGroup == Some(1) && Group(r.value, 1).Some?
  {
    match DocumentNumberFrom(s, 0)
    case None => None
    case Some(p) =>
      var v := s[p..p + AlnumRun(s, p)];
      Some(Hit(p, p + |v|, [Some(v), Some(v)], Some(1)))
  }

  /** `DOCUMENT_NUMBER_VALUE.fullmatch(ln)`: the whole line is 5 to 12 ASCII
      letters and digits, at least one of them a digit. */
  predicate DocumentNumberShape(ln: string)
  {
    5 <= |ln| <= 12 && (forall i | 0 <= i < |ln| :: IsAsciiAlnum(ln[i])) && DigitAfter(ln, 0)
  }

  /** A line the full match accepts is also what the search finds at 0. */
  lemma FullMatchIsSearch(ln: string)
    requires DocumentNumberShape(ln)
    ensures DocumentNumberValue(ln).Some? && Group(DocumentNumberValue(ln).value, 1) == Some(ln)
  {
    assert AlnumRun(ln, 0) == |ln|;
    assert DocumentNumberAt(ln, 0);
    assert ln[0..|ln|] == ln;
  }

  // ---------------------------------------------------------------------
  // _strip_dates_from_text
  // ---------------------------------------------------------------------

  /** The loop body of `_strip_dates_from_text`, for each date in turn: the
      ISO form and its dotted form are each replaced by a space. */
  function RemoveDates(t: string, ds: seq<string>): string
    requires Tokens(ds)
    decreases |ds|
  {
    if ds == [] then t else RemoveDates(ReplaceAll(ReplaceAll(t, ds[0], " "), Dotted(ds[0]), " "), ds[1..])
  }

  /** The dates of `s` replaced by spaces (before the final normalisation). */
  function DatesRemoved(s: string): string
  {
    var ds := DatesIso(s);
    IsoDateTokens(ds);
    RemoveDates(s, ds)
  }

  /** What `_strip_dates_from_text` returns. */
  function StripDatesOf(s: string): (r: string)
    ensures Collapsed(r) && NoDecor(r)
  {
    if s == "" then "" else NormalizeOcrLine(DatesRemoved(s))
  }

  /** `_strip_dates_from_text`. */
  method StripDatesFromText(s: string) returns (r: string)
    ensures r == StripDatesOf(s)
  {
    if s == "" {
      return "";
    }
    var ds := ParseDatesIso(s);
    IsoDateTokens(ds);
    var tmp := ReplaceDates(s, ds);
    r := NormalizeOcrLine(tmp);
  }

  /** The `for d in ...` loop of `_strip_dates_from_text`. */
  method ReplaceDates(s: string, ds: seq<string>) returns (tmp: string)
    requires Tokens(ds)
    ensures tmp == RemoveDates(s, ds)
  {
    tmp := s;
    for i := 0 to |ds|
      invariant RemoveDates(tmp, ds[i..]) == RemoveDates(s, ds)
    {
      assert ds[i..][1..] == ds[i + 1..];
      tmp := ReplaceAll(tmp, ds[i], " ");
      tmp := ReplaceAll(tmp, Dotted(ds[i]), " ");
    }
    assert ds[|ds|..] == [];
  }

  /** Replacing space-free strings by spaces never creates an occurrence of
      another space-free string. */
  lemma {:induction false} RemoveDatesKeepsFree(t: string, ds: seq<string>, q: string)
    requires Tokens(ds) && ' ' !in q && Free(t, q)
    ensures Free(RemoveDates(t, ds), q)
    decreases |ds|
  {
    if ds != [] {
      var t1 := ReplaceAll(t, ds[0], " ");
      ReplaceSpaceFree(t, ds[0], q);
      ReplaceSpaceFree(t1, Dotted(ds[0]), q);
      RemoveDatesKeepsFree(ReplaceAll(t1, Dotted(ds[0]), " "), ds[1..], q);
    }
  }

  /** After the loop no date is left, in either spelling. */
  lemma {:induction false} RemoveDatesFree(t: string, ds: seq<string>)
    requires Tokens(ds)
    ensures forall k | 0 <= k < |ds| :: Free(RemoveDates(t, ds), ds[k]) && Free(RemoveDates(t, ds), Dotted(ds[k]))
    decreases |ds|
  {
    if ds != [] {
      var d := ds[0];
      var t1 := ReplaceAll(t, d, " ");
      var t2 := ReplaceAll(t1, Dotted(d), " ");
      ReplaceSpaceFree(t, d, d);
      ReplaceSpaceFree(t1, Dotted(d), d);
      ReplaceSpaceFree(t1, Dotted(d), Dotted(d));
      RemoveDatesKeepsFree(t2, ds[1..], d);
      RemoveDatesKeepsFree(t2, ds[1..], Dotted(d));
      RemoveDatesFree(t2, ds[1..]);
      assert RemoveDates(t, ds) == RemoveDates(t2, ds[1..]);
      forall k | 1 <= k < |ds|
        ensures Free(RemoveDates(t, ds), ds[k]) && Free(RemoveDates(t, ds), Dotted(ds[k]))
      {
        assert ds[k] == ds[1..][k - 1];
      }
    }
  }

  /** None of the dates found in the text survives in the text the
      normalisation is applied to, neither as `YYYY-MM-DD` nor as
      `YYYY.MM.DD`. */
  lemma DatesRemovedFree(s: string)
    ensures var ds := DatesIso(s);
      forall k | 0 <= k < |ds| :: Free(DatesRemoved(s), ds[k]) && Free(DatesRemoved(s), Dotted(ds[k]))
  {
    IsoDateTokens(DatesIso(s));
    RemoveDatesFree(s, DatesIso(s));
  }

  // ---------------------------------------------------------------------
  // _extract_label_value
  // ---------------------------------------------------------------------

  /** `mv.groupdict().get("value") or (mv.group(mv.lastindex) if mv.lastindex else "")`. */
  function HitValue(h: Hit): string
  {
    var named := if h.valueGroup.Some? then Group(h, h.valueGroup.value).OrElse("") else "";
    if named != "" then named
    else match LastIndex(h)
      case Some(k) => Group(h, k).OrElse("")
      case None => ""
  }

  /** Searching a value pattern in `s`: its value, normalised, "" read as None. */
  function Picked(s: string, valueRe: Matcher): (r: Option<string>)
    ensures r.Some? ==> CleanLine(r.value)
  {
    match valueRe(s)
    case None => None
    case Some(mv) => OrNone(NormalizeOcrLine(HitValue(mv)))
  }

  /** The same-line read: the text after a ':' at or after the label's end,
      on a label line without '/'. */
  function SameLineValue(line: string, m: Hit, valueRe: Option<Matcher>): (r: Option<string>)
    ensures r.Some? ==> CleanLine(r.value)
    ensures r.Some? ==> FindFrom(line, ":", m.end) >= 0 && '/' !in line
  {
    var same := ValueAfterColon(line, m.end);
    if same.None? || '/' in line then None
    else if valueRe.None? then same
    else Picked(same.value, valueRe.value)
  }

  /** The next-line read: the next non-empty line, unless a stop label
      matches it. */
  function NextLineValue(lines: seq<string>, idx: nat, valueRe: Option<Matcher>, rules: Rules): (r: Option<string>)
    ensures r.Some? ==> CleanLine(r.value)
    ensures r.Some? ==> NextNonEmptyOf(lines, idx).Some? && !IsStop(NextNonEmptyOf(lines, idx).value, rules)
  {
    var nxt := NextNonEmptyOf(lines, idx);
    if nxt.None? || IsStop(nxt.value, rules) then None
    else if valueRe.None? then OrNone(NormalizeOcrLine(nxt.value))
    else Picked(nxt.value, valueRe.value)
  }

  /** The read of `_extract_label_value(lines, pat, value_re=valueRe)`
      before any date stripping: the label line's same-line value, else the
      next-line value. */
  function LabelRead(lines: seq<string>, pat: Matcher, valueRe: Option<Matcher>, rules: Rules): (r: Option<string>)
    ensures r.Some? ==> CleanLine(r.value)
  {
    match FirstLabel(lines, pat, 0)
    case None => None
    case Some(hit) =>
      var same := SameLineValue(lines[hit.0], hit.1, valueRe);
      if same.Some? then same else NextLineValue(lines, hit.0, valueRe, rules)
  }

  /** What `_extract_label_value(lines, pat, value_re=valueRe,
      strip_dates=stripDates)` returns. */
  function LabelValue(lines: seq<string>, pat: Matcher, valueRe: Option<Matcher>, stripDates: bool, rules: Rules): (r: Option<string>)
    ensures r.Some? ==> CleanLine(r.value)
  {
    var v := LabelRead(lines, pat, valueRe, rules);
    if v.None? then None
    else if stripDates then OrNone(StripDatesOf(v.value))
    else v
  }

  /** Without date stripping the value is the read itself. */
  lemma LabelValueUnstripped(lines: seq<string>, pat: Matcher, valueRe: Option<Matcher>, rules: Rules)
    ensures LabelValue(lines, pat, valueRe, false, rules) == LabelRead(lines, pat, valueRe, rules)
  {
  }

  /** Where a label value comes from: nothing without a label line; the
      same-line read when it succeeds; otherwise the next-line read, which a
      stop label refuses. A label line with '/' is a header row and always
      reads the next line. */
  lemma LabelValueSources(lines: seq<string>, pat: Matcher, valueRe: Option<Matcher>, rules: Rules)
    ensures FirstLabel(lines, pat, 0).None? ==> LabelRead(lines, pat, valueRe, rules).None?
    ensures var hit := FirstLabel(lines, pat, 0); var r := LabelRead(lines, pat, valueRe, rules);
      hit.Some? ==>
        (SameLineValue(lines[hit.value.0], hit.value.1, valueRe).Some? ==>
           r == SameLineValue(lines[hit.value.0], hit.value.1, valueRe)) &&
        (SameLineValue(lines[hit.value.0], hit.value.1, valueRe).None? ==>
           r == NextLineValue(lines, hit.value.0, valueRe, rules)) &&
        ('/' in lines[hit.value.0] ==> r == NextLineValue(lines, hit.value.0, valueRe, rules)) &&
        (r.Some? ==>
           (FindFrom(lines[hit.value.0], ":", hit.value.1.end) >= 0 && '/' !in lines[hit.value.0]) ||
           (NextNonEmptyOf(lines, hit.value.0).Some? && !IsStop(NextNonEmptyOf(lines, hit.value.0).value, rules)))
  {
  }

  /** A property that every value `Picked` can return has holds of the label
      value too (without date stripping). */
  lemma LabelValueKeeps(lines: seq<string>, pat: Matcher, vr: Matcher, rules: Rules, P: string -> bool)
    requires forall s :: Picked(s, vr).Some? ==> P(Picked(s, vr).value)
    ensures LabelRead(lines, pat, Some(vr), rules).Some? ==> P(LabelRead(lines, pat, Some(vr), rules).value)
  {
  }

  /** With date stripping the value is the stripped read, and None when
      nothing is left. */
  lemma LabelValueStripped(lines: seq<string>, pat: Matcher, valueRe: Option<Matcher>, rules: Rules)
    ensures var v := LabelRead(lines, pat, valueRe, rules);
      LabelValue(lines, pat, valueRe, true, rules) == (if v.None? then None else OrNone(StripDatesOf(v.value)))
  {
  }

  // ---------------------------------------------------------------------
  // Value-first fallbacks
  // ---------------------------------------------------------------------

  /** `lines[:n]`. */
  function Head(lines: seq<string>, n: nat): (h: seq<string>)
    ensures |h| <= n && |h| <= |lines| && h == lines[..|h|]
    ensures |lines| <= n ==> h == lines
  {
    if |lines| <= n then lines else lines[..n]
  }

  /** The first index at or after `from` whose line satisfies `ok`. */
  function FirstLine(lines: seq<string>, ok: string -> bool, from: nat): (r: Option<nat>)
    ensures r.Some? ==> from <= r.value < |lines| && ok(lines[r.value])
    ensures r.Some? ==> forall j | from <= j < r.value :: !ok(lines[j])
    ensures r.None? <==> forall j | from <= j < |lines| :: !ok(lines[j])
    decreases |lines| - from
  {
    if from >= |lines| then None else if ok(lines[from]) then Some(from) else FirstLine(lines, ok, from + 1)
  }

  /** What `_find_first_country_code` returns: the value of the first of the
      first thirty lines in which a country code is found. */
  function FirstCountryCode(lines: seq<string>): (r: Option<string>)
  {
    match FirstLabelFrom(Head(lines, 30), CountryCodeValue, 0)
    case None => None
    case Some(h) => OrNone(NormalizeOcrLine(Group(h.1, 1).OrElse("")))
  }

  /** The fallback finds a country code exactly when one of the first thirty
      lines holds one, and it is that line's first one. */
  lemma FirstCountryCodeSpec(lines: seq<string>)
    ensures FirstCountryCode(lines).None? <==>
      forall j | 0 <= j < |Head(lines, 30)| :: CountryCodeValue(Head(lines, 30)[j]).None?
    ensures FirstCountryCode(lines).Some? ==> IsCountryCode(FirstCountryCode(lines).value)
  {
    match FirstLabelFrom(Head(lines, 30), CountryCodeValue, 0)
    case None =>
    case Some(h) =>
      assert CountryCodeValue(Head(lines, 30)[h.0]) == Some(h.1);
      AlnumClean(Group(h.1, 1).value);
  }

  /** `_find_first_country_code`. */
  method FindFirstCountryCode(lines: seq<string>) returns (r: Option<string>)
    ensures r == FirstCountryCode(lines)
  {
    var head := Head(lines, 30);
    for i := 0 to |head|
      invariant FirstLabelFrom(head, CountryCodeValue, i) == FirstLabelFrom(head, CountryCodeValue, 0)
    {
      var m := CountryCodeValue(head[i]);
      if m.Some? {
        return OrNone(NormalizeOcrLine(Group(m.value, 1).OrElse("")));
      }
    }
    return None;
  }

  /** The machine readable zone lines the value scan skips. */
  predicate MrzLike(ln: string)
  {
    Contains(ln, "<<") || StartsWith(ln, "P<")
  }

  /** A line `_find_document_number_by_value` accepts. */
  predicate DocumentNumberLine(ln: string)
  {
    !MrzLike(ln) && DocumentNumberShape(ln)
  }

  /** What `_find_document_number_by_value` returns. */
  function DocumentNumberByValue(lines: seq<string>): (r: Option<string>)
  {
    match FirstLine(lines, DocumentNumberLine, 0)
    case None => None
    case Some(i) => OrNone(NormalizeOcrLine(lines[i]))
  }

  /** The value scan returns the first whole line that has the document
      number shape and is not an MRZ line, unchanged; None when there is none. */
  lemma DocumentNumberByValueSpec(lines: seq<string>)
    ensures DocumentNumberByValue(lines).None? <==> forall j | 0 <= j < |lines| :: !DocumentNumberLine(lines[j])
    ensures DocumentNumberByValue(lines).Some? ==>
      var i := FirstLine(lines, DocumentNumberLine, 0).value;
      DocumentNumberByValue(lines) == Some(lines[i]) && DocumentNumberLine(lines[i])
      && forall j | 0 <= j < i :: !DocumentNumberLine(lines[j])
  {
    match FirstLine(lines, DocumentNumberLine, 0)
    case None =>
    case Some(i) => AlnumClean(lines[i]);
  }

  /** `_find_document_number_by_value`. */
  method FindDocumentNumberByValue(lines: seq<string>) returns (r: Option<string>)
    ensures r == DocumentNumberByValue(lines)
  {
    for i := 0 to |lines|
      invariant FirstLine(lines, DocumentNumberLine, i) == FirstLine(lines, DocumentNumberLine, 0)
    {
      var ln := lines[i];
      if Contains(ln, "<<") || StartsWith(ln, "P<") {
        continue;
      }
      if DocumentNumberShape(ln) {
        return OrNone(NormalizeOcrLine(ln));
      }
    }
    return None;
  }

  /** What `_find_type_line_idx` returns: the first of the first forty lines
      holding a country code, else 0. */
  function TypeLineIdx(lines: seq<string>): (i: nat)
    ensures i == 0 || i < |lines|
  {
    match FirstLabelFrom(Head(lines, 40), CountryCodeValue, 0)
    case Some(h) => h.0
    case None => 0
  }

  /** The type line is the first of the first forty lines holding a country
      code; 0 when none of them does. */
  lemma TypeLineSpec(lines: seq<string>)
    ensures var i := TypeLineIdx(lines);
      (i > 0 ==> i < 40 && CountryCodeValue(lines[i]).Some?)
      && (forall j | 0 <= j < i :: CountryCodeValue(lines[j]).None?)
      && ((forall j | 0 <= j < |lines| && j < 40 :: CountryCodeValue(lines[j]).None?) ==> i == 0)
  {
    var h := Head(lines, 40);
    assert forall j | 0 <= j < |h| :: h[j] == lines[j];
  }

  /** `_find_type_line_idx`. */
  method FindTypeLineIdx(lines: seq<string>) returns (idx: nat)
    ensures idx == TypeLineIdx(lines)
  {
    var head := Head(lines, 40);
    for i := 0 to |head|
      invariant FirstLabelFrom(head, CountryCodeValue, i) == FirstLabelFrom(head, CountryCodeValue, 0)
    {
      if CountryCodeValue(head[i]).Some? {
        return i;
      }
    }
    return 0;
  }

  // ---------------------------------------------------------------------
  // _find_name_by_order
  // ---------------------------------------------------------------------

  /** `bool(x)` for an optional string. */
  predicate Truthy(x: Option<string>)
  {
    x.Some? && x.value != ""
  }

  /** `_letters_only`: without its spaces the line is a non-empty run of
      letters. */
  predicate LettersOnly(s: string)
  {
    var t := Strip(Filter(s, NotSpaceChar));
    t != "" && forall i | 0 <= i < |t| :: IsAlpha(t[i])
  }

  /** `"HUNGARIAN" in up or up.startswith("MAGYAR/")`. */
  predicate HungarianMark(up: string)
  {
    Contains(up, "HUNGARIAN") || StartsWith(up, "MAGYAR/")
  }

  /** `normalize_ocr_line(ln.lstrip("#").strip())`. */
  function NationalityCandidate(ln: string): (r: string)
    ensures Collapsed(r) && NoDecor(r)
  {
    NormalizeOcrLine(Strip(LStripChars(ln, "#")))
  }

  /** The four values the positional scan collects. */
  datatype Order = Order(surname: Option<string>, given: Option<string>, birthName: Option<string>, nationality: Option<string>)

  /** The line tests the scan applies: letters only, the Hungarian mark on
      the upper-cased line, and the nationality text of a line. They are
      parameters so that the scan's lemmas hold whatever the tests are. */
  datatype LineTests = LineTests(letters: string -> bool, mark: string -> bool, candidate: string -> string)

  /** The tests `_find_name_by_order` uses. */
  function Tests(): LineTests
  {
    LineTests(LettersOnly, (ln: string) => HungarianMark(UpperStr(ln)), NationalityCandidate)
  }

  /** One iteration of the scan loop. */
  function OrderStep(t: LineTests, o: Order, ln: string): Order
  {
    if o.nationality.None? && t.mark(ln) && '/' in ln then
      o.(nationality := OrNone(t.candidate(ln)))
    else if o.surname.None? && t.letters(ln) && ' ' !in ln then o.(surname := Some(ln))
    else if Truthy(o.surname) && o.given.None? && t.letters(ln) then o.(given := Some(ln))
    else if Truthy(o.surname) && Truthy(o.given) && o.birthName.None? && t.letters(ln) then
      (if '/' !in ln then o.(birthName := Some(ln)) else o)
    else o
  }

  /** The scan state after the lines `ls`. */
  function OrderOf(t: LineTests, ls: seq<string>): Order
  {
    if ls == [] then Order(None, None, None, None)
    else OrderStep(t, OrderOf(t, ls[..|ls| - 1]), ls[|ls| - 1])
  }

  /** The lines scanned: from the type line, at most thirty of them. */
  function Window(lines: seq<string>): (w: seq<string>)
    ensures |w| <= 30 && TypeLineIdx(lines) + |w| <= |lines|
    ensures forall k | 0 <= k < |w| :: w[k] == lines[TypeLineIdx(lines) + k]
  {
    var s := TypeLineIdx(lines);
    var e := if |lines| < s + 30 then |lines| else s + 30;
    lines[s..e]
  }

  /** What `_find_name_by_order` returns. */
  function NameByOrder(lines: seq<string>): Order
  {
    OrderOf(Tests(), Window(lines))
  }

  /** `_find_name_by_order`. */
  method FindNameByOrder(lines: seq<string>)
    returns (surname: Option<string>, given: Option<string>, birthName: Option<string>, nationality: Option<string>)
    ensures Order(surname, given, birthName, nationality) == NameByOrder(lines)
  {
    var start := FindTypeLineIdx(lines);
    var end := if |lines| < start + 30 then |lines| else start + 30;
    WindowIs(lines, start, end);
    surname, given, birthName, nationality := ScanByOrder(Tests(), lines[start..end]);
  }

  /** The slice `FindNameByOrder` scans is the window. */
  lemma WindowIs(lines: seq<string>, start: nat, end: nat)
    requires start == TypeLineIdx(lines)
    requires end == if |lines| < start + 30 then |lines| else start + 30
    ensures start <= end <= |lines| && lines[start..end] == Window(lines)
  {
  }

  /** The scan loop of `_find_name_by_order` over the window, with the line
      tests as parameters (`_letters_only` is a local helper of the source). */
  method ScanByOrder(t: LineTests, window: seq<string>)
    returns (surname: Option<string>, given: Option<string>, birthName: Option<string>, nationality: Option<string>)
    ensures Order(surname, given, birthName, nationality) == OrderOf(t, window)
  {
    surname, given, birthName, nationality := None, None, None, None;
    for i := 0 to |window|
      invariant Order(surname, given, birthName, nationality) == OrderOf(t, window[..i])
    {
      var ln := window[i];
      assert window[..i + 1][..i] == window[..i];
      var lettersOnly := t.letters(ln);
      if nationality.None? && t.mark(ln) && '/' in ln {
        nationality := OrNone(t.candidate(ln));
        continue;
      }
      if surname.None? && lettersOnly && ' ' !in ln {
        surname := Some(ln);
        continue;
      }
      if Truthy(surname) && given.None? && lettersOnly {
        given := Some(ln);
        continue;
      }
      if Truthy(surname) && Truthy(given) && birthName.None? && lettersOnly {
        if '/' !in ln {
          birthName := Some(ln);
        }
        continue;
      }
    }
    assert window[..|window|] == window;
  }

  /** The scan's invariant: the surname is a one-word letters-only line, the
      given names a letters-only line found once a surname was, the birth name
      a letters-only line without '/' found once both were; these three are
      scanned lines, and a nationality is never empty. */
  predicate OrderShape(t: LineTests, o: Order, ls: seq<string>)
  {
    (o.surname.Some? ==> t.letters(o.surname.value) && ' ' !in o.surname.value && o.surname.value in ls)
    && (o.given.Some? ==> t.letters(o.given.value) && o.given.value in ls && Truthy(o.surname))
    && (o.birthName.Some? ==>
          t.letters(o.birthName.value) && '/' !in o.birthName.value && o.birthName.value in ls && Truthy(o.given))
    && (o.nationality.Some? ==> o.nationality.value != "")
  }

  lemma {:induction false} OrderSpec(t: LineTests, ls: seq<string>)
    ensures OrderShape(t, OrderOf(t, ls), ls)
    decreases |ls|
  {
    if ls != [] {
      var init := ls[..|ls| - 1];
      OrderSpec(t, init);
      assert forall x | x in init :: x in ls;
    }
  }

  /** The first value found for each of the four is kept: scanning more lines
      never changes a value already found (a nationality that normalised to
      nothing counts as not found). */
  lemma {:induction false} OrderKeeps(t: LineTests, ls: seq<string>, k: nat)
    requires k <= |ls|
    ensures var a := OrderOf(t, ls[..k]); var b := OrderOf(t, ls);
      (a.surname.Some? ==> b.surname == a.surname) && (a.given.Some? ==> b.given == a.given)
      && (a.birthName.Some? ==> b.birthName == a.birthName)
      && (a.nationality.Some? ==> b.nationality == a.nationality)
    decreases |ls| - k
  {
    if k < |ls| {
      assert ls[..|ls| - 1][..k] == ls[..k];
      OrderKeeps(t, ls[..|ls| - 1], k);
    } else {
      assert ls[..k] == ls;
    }
  }

  // ---------------------------------------------------------------------
  // _find_sex_and_birth_place
  // ---------------------------------------------------------------------

  /** `m.group("value") or ""`. */
  function ValueGroupText(m: Hit): string
  {
    if m.valueGroup.Some? then Group(m, m.valueGroup.value).OrElse("") else ""
  }

  /** The place text as written: `ln.replace(m.group(0), " ", 1)`, which
      replaces the FIRST occurrence of the matched text in the line, not
      necessarily the one the match found. */
  function PlaceRestAsWritten(ln: string, m: Hit): string
  {
    Strip(NormalizeOcrLine(ReplaceFirst(ln, Whole(m), " ")))
  }

  /** Replacing the first occurrence alters the line before the match when
      the matched text also occurs earlier: that earlier occurrence becomes a
      space and the sex token itself stays in the place text. */
  lemma PlaceRestAsWrittenHitsEarlier(ln: string, m: Hit)
    requires Whole(m) != "" && Whole(m)[0] != ' '
    requires 0 <= FindFrom(ln, Whole(m), 0) < m.start
    ensures var i := FindFrom(ln, Whole(m), 0);
      ReplaceFirst(ln, Whole(m), " ")[i] == ' ' && ln[i] != ' '
  {
  }

  /** An example: in "MISKOLC M" the sex pattern matches the final "M" (the
      first one is inside a word), yet the replacement blanks the first "M". */
  lemma PlaceRestMiskolc()
    ensures var ln := "MISKOLC M"; var m := Hit(8, 9, [Some("M"), Some("M")], Some(1));
      ln[m.start..m.end] == Whole(m) && FindFrom(ln, Whole(m), 0) == 0
      && ReplaceFirst(ln, Whole(m), " ") == " ISKOLC M"
  {
    var ln := "MISKOLC M";
    assert ln[0..1] == "M";
    assert ReplaceFirst(ln, "M", " ") == " " + ln[1..];
  }

  /** The line with exactly the matched span replaced by a space, as the
      replacement evidently means. */
  function Spliced(ln: string, m: Hit): string
  {
    Slice(ln, 0, m.start) + " " + Tail(ln, m.end)
  }

  /** The splice keeps everything before and after the match. */
  lemma SplicedKeepsContext(ln: string, m: Hit)
    requires m.start <= m.end <= |ln|
    ensures var r := Spliced(ln, m);
      |r| == |ln| - (m.end - m.start) + 1 && r[..m.start] == ln[..m.start] && r[m.start] == ' '
      && r[m.start + 1..] == ln[m.end..]
  {
  }

  /** The place text with the splice: the intended reading of the
      replacement. */
  function PlaceRest(ln: string, m: Hit): string
  {
    Strip(NormalizeOcrLine(Spliced(ln, m)))
  }

  /** Where the matched text does not occur before the match, the code's
      replacement is the splice. */
  lemma PlaceRestAgrees(ln: string, m: Hit)
    requires m.start <= m.end <= |ln| && ln[m.start..m.end] == Whole(m)
    requires FindFrom(ln, Whole(m), 0) == m.start
    ensures PlaceRestAsWritten(ln, m) == PlaceRest(ln, m)
  {
    ReplaceAtMatch(ln, Whole(m), m.start, m.end);
  }

  /** Replacing the first occurrence, when it is the one at `[a, b)`, is the
      splice of `[a, b)`. */
  lemma ReplaceAtMatch(ln: string, w: string, a: nat, b: nat)
    requires a <= b <= |ln| && ln[a..b] == w && FindFrom(ln, w, 0) == a
    ensures ReplaceFirst(ln, w, " ") == Slice(ln, 0, a) + " " + Tail(ln, b)
  {
  }

  /** What `_find_sex_and_birth_place` returns: on the first line where the
      sex pattern matches, the normalised sex and the rest of the line after
      the first occurrence of the matched text is blanked. */
  function SexAndPlace(lines: seq<string>, rules: Rules): (r: (Option<string>, Option<string>))
    ensures r.0 == None || r.0 == Some("NŐ") || r.0 == Some("FÉRFI")
  {
    match FirstLabelFrom(lines, rules.sexRawValue, 0)
    case None => (None, None)
    case Some(h) => (NormalizeSex(NormalizeOcrLine(ValueGroupText(h.1))), OrNone(PlaceRestAsWritten(lines[h.0], h.1)))
  }

  /** `_find_sex_and_birth_place`. */
  method FindSexAndBirthPlace(lines: seq<string>, rules: Rules) returns (sex: Option<string>, place: Option<string>)
    ensures (sex, place) == SexAndPlace(lines, rules)
  {
    for i := 0 to |lines|
      invariant FirstLabelFrom(lines, rules.sexRawValue, i) == FirstLabelFrom(lines, rules.sexRawValue, 0)
    {
      var m := rules.sexRawValue(lines[i]);
      if m.None? {
        continue;
      }
      var raw := NormalizeOcrLine(ValueGroupText(m.value));
      sex := NormalizeSex(raw);
      var rest := Strip(NormalizeOcrLine(ReplaceFirst(lines[i], Whole(m.value), " ")));
      return sex, OrNone(rest);
    }
    return None, None;
  }

  // ---------------------------------------------------------------------
  // _fallback_passport_dates
  // ---------------------------------------------------------------------

  /** The date policy on the parsed dates: birth, issue, expiry. */
  function PassportDates(ds: seq<string>): (r: (Option<string>, Option<string>, Option<string>))
  {
    if |ds| == 0 then (None, None, None)
    else if |ds| == 1 then (Some(ds[0]), None, Some(ds[0]))
    else if |ds| == 2 then (Some(ds[0]), Some(ds[1]), Some(ds[1]))
    else (Some(ds[0]), Some(ds[1]), Some(ds[|ds| - 1]))
  }

  /** `_fallback_passport_dates(text)`. */
  function FallbackDates(text: string): (Option<string>, Option<string>, Option<string>)
  {
    PassportDates(DatesIso(text))
  }

  /** On ascending distinct dates the birth date is the smallest, the issue
      date the second smallest and the expiry date the largest; birth and
      expiry are None only without dates, issue only with fewer than two; and
      birth < issue <= expiry. */
  lemma DatePolicy(ds: seq<string>)
    requires StrictlyAscending(ds)
    ensures var r := PassportDates(ds);
      (r.0.None? <==> ds == []) && (r.2.None? <==> ds == []) && (r.1.None? <==> |ds| < 2)
      && (r.0.Some? ==> r.0.value in ds && forall k | 0 <= k < |ds| :: ds[k] == r.0.value || StrLess(r.0.value, ds[k]))
      && (r.2.Some? ==> r.2.value in ds && forall k | 0 <= k < |ds| :: ds[k] == r.2.value || StrLess(ds[k], r.2.value))
      && (r.1.Some? ==>
            (r.1.value in ds && StrLess(r.0.value, r.1.value)
             && (r.1.value == r.2.value || StrLess(r.1.value, r.2.value))
             && forall k | 0 <= k < |ds| && ds[k] != r.0.value :: ds[k] == r.1.value || StrLess(r.1.value, ds[k])))
  {
  }

  // ---------------------------------------------------------------------
  // Field extractors
  // ---------------------------------------------------------------------

  /** `extract_country_code`. */
  function ExtractCountryCode(lines: seq<string>, rules: Rules): (r: Option<string>)
  {
    var v := LabelRead(lines, rules.countryCodeLabel, Some(CountryCodeValue), rules);
    if v.Some? then v else FirstCountryCode(lines)
  }

  /** Every value the country-code pattern yields is a country code. */
  lemma PickedCountryCode(s: string)
    ensures Picked(s, CountryCodeValue).Some? ==> IsCountryCode(Picked(s, CountryCodeValue).value)
  {
    match CountryCodeValue(s)
    case None =>
    case Some(mv) => AlnumClean(Group(mv, 1).value);
  }

  /** The country code is three upper-case letters, from the label when the
      label pattern yields one and from the first thirty lines otherwise. */
  lemma CountryCodeSpec(lines: seq<string>, rules: Rules)
    ensures var r := ExtractCountryCode(lines, rules); r.Some? ==> IsCountryCode(r.value)
    ensures LabelRead(lines, rules.countryCodeLabel, Some(CountryCodeValue), rules).None? ==>
      ExtractCountryCode(lines, rules) == FirstCountryCode(lines)
  {
    forall s ensures Picked(s, CountryCodeValue).Some? ==> IsCountryCode(Picked(s, CountryCodeValue).value) {
      PickedCountryCode(s);
    }
    LabelValueKeeps(lines, rules.countryCodeLabel, CountryCodeValue, rules, IsCountryCode);
    FirstCountryCodeSpec(lines);
  }

  /** 5 to 12 ASCII letters and digits. */
  predicate DocumentNumberToken(v: string)
  {
    5 <= |v| <= 12 && forall i | 0 <= i < |v| :: IsAsciiAlnum(v[i])
  }

  /** Every value the document-number pattern yields is such a run. */
  lemma PickedDocumentNumber(s: string)
    ensures Picked(s, DocumentNumberValue).Some? ==> DocumentNumberToken(Picked(s, DocumentNumberValue).value)
  {
    match DocumentNumberFrom(s, 0)
    case None =>
    case Some(p) =>
      var v := s[p..p + AlnumRun(s, p)];
      RunToken(s, p);
      AlnumClean(v);
      assert HitValue(DocumentNumberValue(s).value) == v;
  }

  /** A match's run is 5 to 12 letters and digits. */
  lemma RunToken(s: string, p: nat)
    requires DocumentNumberAt(s, p)
    ensures DocumentNumberToken(s[p..p + AlnumRun(s, p)])
  {
    var v := s[p..p + AlnumRun(s, p)];
    assert forall i | 0 <= i < |v| :: v[i] == s[p + i];
  }

  /** `extract_document_number`. */
  function ExtractDocumentNumber(lines: seq<string>, rules: Rules): (r: Option<string>)
  {
    var v := LabelRead(lines, rules.documentNumberLabel, Some(DocumentNumberValue), rules);
    if v.Some? then v else DocumentNumberByValue(lines)
  }

  /** The document number is always 5 to 12 letters and digits; without a
      label value it is a whole line with a digit that is not an MRZ line. */
  lemma DocumentNumberSpec(lines: seq<string>, rules: Rules)
    ensures var r := ExtractDocumentNumber(lines, rules); r.Some? ==> DocumentNumberToken(r.value)
    ensures LabelRead(lines, rules.documentNumberLabel, Some(DocumentNumberValue), rules).None? ==>
      var r := ExtractDocumentNumber(lines, rules);
      r == DocumentNumberByValue(lines) && (r.Some? ==> DocumentNumberLine(r.value))
  {
    forall s ensures Picked(s, DocumentNumberValue).Some? ==> DocumentNumberToken(Picked(s, DocumentNumberValue).value) {
      PickedDocumentNumber(s);
    }
    LabelValueKeeps(lines, rules.documentNumberLabel, DocumentNumberValue, rules, DocumentNumberToken);
    DocumentNumberByValueSpec(lines);
  }

  /** `extract_surname`. */
  function ExtractSurname(lines: seq<string>, rules: Rules): (r: Option<string>)
  {
    var v := LabelRead(lines, rules.surnameLabel, None, rules);
    if v.Some? then v else NameByOrder(lines).surname
  }

  /** `extract_given_names`. */
  function ExtractGivenNames(lines: seq<string>, rules: Rules): (r: Option<string>)
  {
    var v := LabelRead(lines, rules.givenNamesLabel, None, rules);
    if v.Some? then v else NameByOrder(lines).given
  }

  /** The join of `extract_full_name`: surname and given names, one space
      apart and normalised, when both are non-empty; else whichever is. */
  function JoinNames(s: Option<string>, g: Option<string>): Option<string>
  {
    if Truthy(s) && Truthy(g) then OrNone(NormalizeOcrLine(s.value + " " + g.value))
    else if Truthy(s) then s else g
  }

  /** `extract_full_name`. */
  function ExtractFullName(lines: seq<string>, rules: Rules): (r: Option<string>)
  {
    JoinNames(ExtractSurname(lines, rules), ExtractGivenNames(lines, rules))
  }

  /** Two clean lines joined by one space make a clean line. */
  lemma CleanJoin(a: string, b: string)
    requires CleanLine(a) && CleanLine(b)
    ensures CleanLine(a + " " + b)
  {
    var r := a + " " + b;
    assert forall i | 0 <= i < |a| :: r[i] == a[i];
    assert forall i | |a| < i < |r| :: r[i] == b[i - |a| - 1];
  }

  /** The positional scan's names on normalised lines are clean lines. */
  lemma OrderNamesClean(lines: seq<string>)
    requires forall x | x in lines :: CleanLine(x)
    ensures var o := NameByOrder(lines);
      (o.surname.Some? ==> CleanLine(o.surname.value)) && (o.given.Some? ==> CleanLine(o.given.value))
  {
    var w := Window(lines);
    OrderSpec(Tests(), w);
    assert forall x | x in w :: x in lines;
  }

  /** Two clean names join to surname, one space, given names; a missing
      one leaves the other. */
  lemma JoinNamesClean(s: Option<string>, g: Option<string>)
    requires s.Some? ==> CleanLine(s.value)
    requires g.Some? ==> CleanLine(g.value)
    ensures var r := JoinNames(s, g);
      (s.Some? && g.Some? ==> r == Some(s.value + " " + g.value))
      && (s.None? ==> r == g) && (g.None? ==> r == s)
  {
    if s.Some? && g.Some? {
      CleanJoin(s.value, g.value);
      CleanLineFixed(s.value + " " + g.value);
    }
  }

  /** On normalised lines the full name is surname, one space, given names
      when both are found, and whichever is found otherwise. */
  lemma FullNameJoin(lines: seq<string>, rules: Rules)
    requires forall x | x in lines :: CleanLine(x)
    ensures var s := ExtractSurname(lines, rules); var g := ExtractGivenNames(lines, rules);
      var r := ExtractFullName(lines, rules);
      (s.Some? && g.Some? ==> r == Some(s.value + " " + g.value))
      && (s.None? ==> r == g) && (g.None? ==> r == s)
  {
    OrderNamesClean(lines);
    JoinNamesClean(ExtractSurname(lines, rules), ExtractGivenNames(lines, rules));
  }

  /** `extract_birth_name`. */
  function ExtractBirthName(lines: seq<string>, rules: Rules): (r: Option<string>)
  {
    var v := LabelRead(lines, rules.birthNameLabel, None, rules);
    if v.Some? then v
    else if LabelIdx(lines, rules.surnameLabel, 0).Some? then None
    else if LabelIdx(lines, rules.givenNamesLabel, 0).Some? then None
    else NameByOrder(lines).birthName
  }

  /** Without a birth-name label value, a birth name comes only from the
      positional scan and only when neither the surname nor the given-names
      label occurs anywhere; it is then a letters-only line without '/'. */
  lemma BirthNameFallback(lines: seq<string>, rules: Rules)
    ensures var r := ExtractBirthName(lines, rules);
      LabelRead(lines, rules.birthNameLabel, None, rules).None? && r.Some? ==>
        r == NameByOrder(lines).birthName && Tests().letters(r.value) && '/' !in r.value
        && (forall j | 0 <= j < |lines| :: rules.surnameLabel(lines[j]).None?)
        && (forall j | 0 <= j < |lines| :: rules.givenNamesLabel(lines[j]).None?)
  {
    var r := ExtractBirthName(lines, rules);
    if LabelRead(lines, rules.birthNameLabel, None, rules).None? && r.Some? {
      assert LabelIdx(lines, rules.surnameLabel, 0).None?;
      assert LabelIdx(lines, rules.givenNamesLabel, 0).None?;
      assert r == NameByOrder(lines).birthName;
      OrderSpec(Tests(), Window(lines));
    }
  }

  /** A label value that mentions '/' or "HUNGARIAN". */
  predicate Plausible(v: string)
  {
    '/' in v || Contains(UpperStr(v), "HUNGARIAN")
  }

  /** A line whose candidate holds '/' and a Hungarian mark. */
  predicate NationalityLine(ln: string)
  {
    var c := NationalityCandidate(ln);
    '/' in c && HungarianMark(UpperStr(c))
  }

  /** What `extract_nationality` returns. */
  function ExtractNationalityOf(lines: seq<string>, rules: Rules): (r: Option<string>)
  {
    var v := LabelRead(lines, rules.nationalityLabel, None, rules);
    if v.Some? && Plausible(v.value) then v
    else match FirstLine(lines, NationalityLine, 0)
      case Some(i) => OrNone(NationalityCandidate(lines[i]))
      case None =>
        var found := NameByOrder(lines).nationality;
        if Truthy(found) then found else if v.Some? && '/' in v.value then v else None
  }

  /** The nationality is a plausible label value, else the first line with
      '/' and a Hungarian mark, else the positional scan's value. The final
      alternative of the source (the label value when it holds '/') never
      applies, because such a value was already returned. */
  lemma NationalitySpec(lines: seq<string>, rules: Rules)
    ensures var v := LabelRead(lines, rules.nationalityLabel, None, rules);
      var r := ExtractNationalityOf(lines, rules);
      (v.Some? && Plausible(v.value) ==> r == v)
      && (!(v.Some? && Plausible(v.value)) && FirstLine(lines, NationalityLine, 0).Some? ==>
            r.Some? && '/' in r.value && HungarianMark(UpperStr(r.value)))
      && (!(v.Some? && Plausible(v.value)) && FirstLine(lines, NationalityLine, 0).None? ==>
            r == (if Truthy(NameByOrder(lines).nationality) then NameByOrder(lines).nationality else None))
  {
  }

  /** The `for ln in lines` loop of `extract_nationality`: whether some
      line qualifies, and the value the first one gives. */
  method ScanNationalityLines(lines: seq<string>) returns (found: bool, r: Option<string>)
    ensures found <==> FirstLine(lines, NationalityLine, 0).Some?
    ensures found ==> r == OrNone(NationalityCandidate(lines[FirstLine(lines, NationalityLine, 0).value]))
  {
    for i := 0 to |lines|
      invariant FirstLine(lines, NationalityLine, i) == FirstLine(lines, NationalityLine, 0)
    {
      var ln2 := NationalityCandidate(lines[i]);
      if '/' in ln2 && HungarianMark(UpperStr(ln2)) {
        return true, OrNone(ln2);
      }
    }
    return false, None;
  }

  /** `extract_nationality`. The source's last alternative (the label value
      when it holds '/') is left out: `NationalitySpec` shows it never
      applies. */
  method ExtractNationality(lines: seq<string>, rules: Rules) returns (r: Option<string>)
    ensures r == ExtractNationalityOf(lines, rules)
  {
    var v := LabelRead(lines, rules.nationalityLabel, None, rules);
    if v.Some? && Plausible(v.value) {
      return v;
    }
    var found, scanned := ScanNationalityLines(lines);
    if found {
      return scanned;
    }
    var surname, given, birthName, nation := FindNameByOrder(lines);
    if Truthy(nation) {
      return nation;
    }
    return None;
  }

  /** `extract_sex`. */
  function ExtractSex(lines: seq<string>, rules: Rules): (r: Option<string>)
    ensures r == None || r == Some("NŐ") || r == Some("FÉRFI")
  {
    var raw := LabelRead(lines, rules.sexLabel, Some(rules.sexRawValue), rules);
    if raw.Some? then NormalizeSex(raw.value) else SexAndPlace(lines, rules).0
  }

  /** The sex tokens a birth-place value may start with. */
  const SEX_WORDS: set<string> := {"N/F", "F/M", "F", "M", "NO", "NŐ", "NÓ", "FERFI", "FÉRFI"}

  /** A value whose first word, upper-cased, is a sex token. */
  predicate LeadingSexWord(v: string)
  {
    var parts := Words(v);
    |parts| > 0 && UpperStr(parts[0]) in SEX_WORDS
  }

  /** The label branch of `extract_birth_place` before its final
      normalisation: a leading sex token is dropped. */
  function DropSexWord(v: string): string
  {
    if LeadingSexWord(v) then Strip(JoinSpace(Words(v)[1..])) else v
  }

  /** `extract_birth_place`. */
  function ExtractBirthPlace(lines: seq<string>, rules: Rules): (r: Option<string>)
  {
    var v := LabelValue(lines, rules.birthPlaceLabel, None, true, rules);
    if v.Some? then OrNone(NormalizeOcrLine(DropSexWord(v.value)))
    else
      var place := SexAndPlace(lines, rules).1;
      if place.Some? && place.value != "" then OrNone(NormalizeOcrLine(place.value)) else None
  }

  /** Words joined by single spaces normalise to themselves when none of
      them holds a decoration character. */
  lemma JoinSpaceNormal(ws: seq<string>)
    requires forall i | 0 <= i < |ws| :: IsToken(ws[i])
    requires forall k, j | 0 <= k < |ws| && 0 <= j < |ws[k]| :: NotDecor(ws[k][j])
    ensures NormalizeOcrLine(JoinSpace(ws)) == JoinSpace(ws) && Strip(JoinSpace(ws)) == JoinSpace(ws)
  {
    JoinSpaceCollapsed(ws);
    JoinSpaceKeep(ws, NotDecor);
    FilterAll(JoinSpace(ws), NotDecor);
    CollapsedFixpoint(JoinSpace(ws));
    StripOfCollapsed(JoinSpace(ws));
  }

  /** A clean value loses a leading sex token and keeps its other words in
      order, single-spaced, and None when no word is left; without a sex
      token it is kept as it is. */
  lemma DropSexWordNormal(v: string)
    requires CleanLine(v)
    ensures LeadingSexWord(v) ==> OrNone(NormalizeOcrLine(DropSexWord(v))) == OrNone(JoinSpace(Words(v)[1..]))
    ensures !LeadingSexWord(v) ==> OrNone(NormalizeOcrLine(DropSexWord(v))) == Some(v)
  {
    var ws := Words(v);
    CleanLineFixed(v);
    if LeadingSexWord(v) {
      WordsKeep(v, NotDecor);
      var rest := ws[1..];
      assert forall k, j | 0 <= k < |rest| && 0 <= j < |rest[k]| :: NotDecor(rest[k][j]) by {
        forall k, j | 0 <= k < |rest| && 0 <= j < |rest[k]| ensures NotDecor(rest[k][j]) {
          assert rest[k] == ws[k + 1];
        }
      }
      JoinSpaceNormal(rest);
    }
  }

  /** A label birth place loses a leading sex token and keeps its other
      words in order, single-spaced; None when no word is left. */
  lemma BirthPlaceWords(lines: seq<string>, rules: Rules)
    ensures var v := LabelValue(lines, rules.birthPlaceLabel, None, true, rules);
      var r := ExtractBirthPlace(lines, rules);
      v.Some? ==>
        (LeadingSexWord(v.value) ==> r == OrNone(JoinSpace(Words(v.value)[1..])))
        && (!LeadingSexWord(v.value) ==> r == v)
  {
    var v := LabelValue(lines, rules.birthPlaceLabel, None, true, rules);
    if v.Some? {
      DropSexWordNormal(v.value);
    }
  }

  /** `extract_issuing_authority`. */
  function ExtractIssuingAuthority(lines: seq<string>, rules: Rules): (r: Option<string>)
  {
    LabelRead(lines, rules.issuingAuthorityLabel, None, rules)
  }

  // ---------------------------------------------------------------------
  // Processor
  // ---------------------------------------------------------------------

  /** `schema.FIELDS` of the passport. */
  const FIELDS: seq<Key> :=
    [DOCUMENT_NUMBER, COUNTRY_CODE, FULL_NAME, BIRTH_NAME, NATIONALITY, BIRTH_DATE, SEX,
     BIRTH_PLACE, ISSUE_DATE, ISSUING_AUTHORITY, EXPIRY_DATE]

  /** The values the eleven extractors find. */
  datatype Extracted = Extracted(
    countryCode: Option<string>, documentNumber: Option<string>, fullName: Option<string>,
    birthName: Option<string>, nationality: Option<string>, birthDate: Option<string>,
    sex: Option<string>, birthPlace: Option<string>, issueDate: Option<string>,
    authority: Option<string>, expiryDate: Option<string>)

  /** The extractor calls of `extract_fields`: the dates come from the text,
      every other field from its normalised lines. */
  function ExtractAll(text: string, rules: Rules): Extracted
  {
    var lines := NormLinesOf(text);
    var dates := FallbackDates(text);
    Extracted(
      ExtractCountryCode(lines, rules), ExtractDocumentNumber(lines, rules), ExtractFullName(lines, rules),
      ExtractBirthName(lines, rules), ExtractNationalityOf(lines, rules), dates.0,
      ExtractSex(lines, rules), ExtractBirthPlace(lines, rules), dates.1,
      ExtractIssuingAuthority(lines, rules), dates.2)
  }

  /** `schema.empty()` filled and projected onto FIELDS: every schema key is
      assigned. */
  function Fill(x: Extracted): (r: Record)
    ensures forall k :: k in r <==> k in FIELDS
  {
    map[COUNTRY_CODE := x.countryCode, DOCUMENT_NUMBER := x.documentNumber, FULL_NAME := x.fullName,
        BIRTH_NAME := x.birthName, NATIONALITY := x.nationality, BIRTH_DATE := x.birthDate,
        SEX := x.sex, BIRTH_PLACE := x.birthPlace, ISSUE_DATE := x.issueDate,
        ISSUING_AUTHORITY := x.authority, EXPIRY_DATE := x.expiryDate]
  }

  /** The identity fields hold their extractors' values. */
  lemma FillIdentity(x: Extracted)
    ensures var r := Fill(x);
      COUNTRY_CODE in r && r[COUNTRY_CODE] == x.countryCode
      && DOCUMENT_NUMBER in r && r[DOCUMENT_NUMBER] == x.documentNumber
      && NATIONALITY in r && r[NATIONALITY] == x.nationality
      && SEX in r && r[SEX] == x.sex
  {
  }

  /** The name, place and authority fields hold their extractors' values. */
  lemma FillNames(x: Extracted)
    ensures var r := Fill(x);
      FULL_NAME in r && r[FULL_NAME] == x.fullName
      && BIRTH_NAME in r && r[BIRTH_NAME] == x.birthName
      && BIRTH_PLACE in r && r[BIRTH_PLACE] == x.birthPlace
      && ISSUING_AUTHORITY in r && r[ISSUING_AUTHORITY] == x.authority
  {
  }

  /** The date fields hold the fallback dates. */
  lemma FillDates(x: Extracted)
    ensures var r := Fill(x);
      BIRTH_DATE in r && r[BIRTH_DATE] == x.birthDate
      && ISSUE_DATE in r && r[ISSUE_DATE] == x.issueDate
      && EXPIRY_DATE in r && r[EXPIRY_DATE] == x.expiryDate
  {
  }

  /** `PassportProcessor.extract_fields` on `ocr.text or ""`: exactly the
      eleven schema keys. */
  function PassportFields(text: string, rules: Rules): (r: Record)
    ensures forall k :: k in r <==> k in FIELDS
  {
    Fill(ExtractAll(text, rules))
  }

  /** The stored dates follow the policy on the text's dates: each is None or
      an ISO date, birth < issue <= expiry, and empty text stores none. */
  lemma StoredDates(text: string, rules: Rules)
    ensures var r := PassportFields(text, rules);
      BIRTH_DATE in r && ISSUE_DATE in r && EXPIRY_DATE in r
      && var b := r[BIRTH_DATE]; var i := r[ISSUE_DATE]; var e := r[EXPIRY_DATE];
        (b, i, e) == FallbackDates(text)
        && (b.Some? ==> IsIsoDate(b.value)) && (i.Some? ==> IsIsoDate(i.value)) && (e.Some? ==> IsIsoDate(e.value))
        && (b.None? <==> DatesIso(text) == []) && (e.None? <==> DatesIso(text) == [])
        && (i.Some? ==> StrLess(b.value, i.value) && (i.value == e.value || StrLess(i.value, e.value)))
        && (text == "" ==> b.None? && i.None? && e.None?)
  {
    FillDates(ExtractAll(text, rules));
    DatePolicy(DatesIso(text));
  }

  /** The stored country code, document number and sex have their shapes. */
  lemma StoredShapes(text: string, rules: Rules)
    ensures var r := PassportFields(text, rules);
      COUNTRY_CODE in r && DOCUMENT_NUMBER in r && SEX in r
      && (r[COUNTRY_CODE].Some? ==> IsCountryCode(r[COUNTRY_CODE].value))
      && (r[DOCUMENT_NUMBER].Some? ==> DocumentNumberToken(r[DOCUMENT_NUMBER].value))
      && (r[SEX] == None || r[SEX] == Some("NŐ") || r[SEX] == Some("FÉRFI"))
  {
    FillIdentity(ExtractAll(text, rules));
    CountryCodeSpec(NormLinesOf(text), rules);
    DocumentNumberSpec(NormLinesOf(text), rules);
  }
}
