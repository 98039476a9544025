/** `documents/address_card/extract.py`: the field extractors of the address
    card. Every extractor works on the normalised lines of the OCR text and
    anchors on a label; the eight field labels double as stop labels. */
module AddressCard {
  import opened Base
  import opened Chars
  import opened PyStr
  import opened Regex
  import opened Calendar
  import opened Normalize
  import opened OcrText
  import opened LabelScan
  import opened AddressRules

  // ---------------------------------------------------------------------
  // Small helpers
  // ---------------------------------------------------------------------

  /** `_stop_pred`: the line is one of the eight field labels. */
  function StopPred(r: Labels): string -> bool
  {
    line => IsStopLabel(line, StopLabels(r))
  }

  /** `_has_date`: the text mentions at least one date. */
  predicate HasDate(s: string)
  {
    DatesIso(s) != []
  }

  /** `_has_date` as the scan's accept predicate. */
  const HAS_DATE: string -> bool := s => HasDate(s)

  /** `lambda s: True`. */
  const ACCEPT_ANY: string -> bool := s => true

  /** `_first_iso_date_in`: the earliest of the dates the text mentions, as
      an ISO date, or None when it mentions none. */
  function FirstIsoDateIn(s: string): (d: Option<string>)
    ensures d.None? <==> !HasDate(s)
    ensures d.Some? ==> IsIsoDate(d.value) && d.value in DatesIso(s)
    ensures d.Some? ==> forall k | 0 <= k < |DatesIso(s)| && DatesIso(s)[k] != d.value :: StrLess(d.value, DatesIso(s)[k])
  {
    var ds := DatesIso(s);
    if ds == [] then None else Some(ds[0])
  }

  /** The date of a value read by one of the line readers, `_first_iso_date_in(v) if v else None`. */
  function DateOfValue(v: Option<string>): (d: Option<string>)
    ensures d.Some? ==> v.Some? && d == FirstIsoDateIn(v.value)
    ensures v.Some? && v.value != "" ==> d == FirstIsoDateIn(v.value)
    ensures v.None? ==> d == None
  {
    if v.Some? && v.value != "" then FirstIsoDateIn(v.value) else None
  }

  // ---------------------------------------------------------------------
  // _remove_dates
  // ---------------------------------------------------------------------

  /** `f"{y}. {m}. {dd}"` for `y, m, dd = d.split("-")`, the spaced-dot
      spelling; None where the split does not give three parts and the
      `except` branch skips the replacement. */
  function SpacedDots(d: string): (r: Option<string>)
    ensures r.Some? ==> |r.value| > 0
  {
    var ps := SplitOn(d, '-');
    if |ps| == 3 then Some(ps[0] + ". " + ps[1] + ". " + ps[2]) else None
  }

  /** One round of the loop of `_remove_dates` for the date `d`: its ISO,
      dotted and spaced-dot spellings are each replaced by a space. */
  function ScrubOne(t: string, d: string): string
    requires |d| > 0
  {
    var t1 := ReplaceAll(t, d, " ");
    var t2 := ReplaceAll(t1, Dotted(d), " ");
    match SpacedDots(d)
    case Some(sp) => ReplaceAll(t2, sp, " ")
    case None => t2
  }

  /** The whole loop of `_remove_dates`, over the dates in order. */
  function Scrub(t: string, ds: seq<string>): string
    requires Tokens(ds)
    decreases |ds|
  {
    if ds == [] then t else Scrub(ScrubOne(t, ds[0]), ds[1..])
  }

  /** What `_remove_dates` returns: None for empty input; otherwise the
      dates found in the input are removed, the whitespace is collapsed, and
      "" becomes None. */
  function RemoveDatesOf(s: string): (r: Option<string>)
    ensures s == "" ==> r == None
    ensures r.Some? ==> r.value != "" && Collapsed(r.value)
  {
    if s == "" then None
    else
      var ds := DatesIso(s);
      IsoDateTokens(ds);
      var c := Collapse(Scrub(s, ds));
      CollapseShape(Scrub(s, ds));
      StripOfCollapsed(c);
      OrNone(Strip(c))
  }

  /** The `for d in parse_dates_iso(tmp)` loop of `_remove_dates`. */
  method ScrubDates(s: string, ds: seq<string>) returns (tmp: string)
    requires Tokens(ds)
    ensures tmp == Scrub(s, ds)
  {
    tmp := s;
    var n := |ds|;
    for i := 0 to n
      invariant Scrub(tmp, ds[i..]) == Scrub(s, ds)
    {
      assert ds[i..][1..] == ds[i + 1..];
      var d := ds[i];
      tmp := ReplaceAll(tmp, d, " ");
      tmp := ReplaceAll(tmp, Dotted(d), " ");
      var ps := SplitOn(d, '-');
      if |ps| == 3 {
        tmp := ReplaceAll(tmp, ps[0] + ". " + ps[1] + ". " + ps[2], " ");
      }
    }
    assert ds[n..] == [];
  }

  /** `_remove_dates`. */
  method RemoveDates(s: string) returns (r: Option<string>)
    ensures r == RemoveDatesOf(s)
  {
    if s == "" {
      return None;
    }
    var ds := ParseDatesIso(s);
    IsoDateTokens(ds);
    var tmp := ScrubDates(s, ds);
    var cleaned := Strip(Collapse(tmp));
    r := if cleaned == "" then None else Some(cleaned);
  }

  /** Text that mentions no date is only re-spaced. */
  lemma RemoveDatesNoDates(s: string)
    requires !HasDate(s)
    ensures RemoveDatesOf(s) == OrNone(Collapse(s))
  {
    if s != "" {
      CollapseShape(s);
      StripOfCollapsed(Collapse(s));
    }
  }

  /** Replacing pieces by spaces never creates an occurrence of a string
      that contains no space. */
  lemma {:induction false} ScrubKeepsFree(t: string, ds: seq<string>, q: string)
    requires Tokens(ds) && ' ' !in q && Free(t, q)
    ensures Free(Scrub(t, ds), q)
    decreases |ds|
  {
    if ds != [] {
      ScrubOneKeepsFree(t, ds[0], q);
      ScrubKeepsFree(ScrubOne(t, ds[0]), ds[1..], q);
    }
  }

  /** One round keeps a space-free string absent, and removes the date's
      own ISO and dotted spellings. */
  lemma ScrubOneKeepsFree(t: string, d: string, q: string)
    requires |d| > 0 && ' ' !in q && (q == d || q == Dotted(d) || Free(t, q))
    ensures Free(ScrubOne(t, d), q)
  {
    var t1 := ReplaceAll(t, d, " ");
    if q == d || Free(t, q) {
      ReplaceSpaceFree(t, d, q);
    }
    var t2 := ReplaceAll(t1, Dotted(d), " ");
    ReplaceSpaceFree(t1, Dotted(d), q);
    match SpacedDots(d)
    case Some(sp) => ReplaceSpaceFree(t2, sp, q);
    case None =>
  }

  /** After the loop no date is left, neither in its ISO spelling nor in its
      dotted spelling. */
  lemma {:induction false} ScrubFree(t: string, ds: seq<string>)
    requires Tokens(ds)
    ensures forall k | 0 <= k < |ds| :: Free(Scrub(t, ds), ds[k]) && Free(Scrub(t, ds), Dotted(ds[k]))
    decreases |ds|
  {
    if ds != [] {
      var d := ds[0];
      var t1 := ScrubOne(t, d);
      ScrubOneKeepsFree(t, d, d);
      ScrubOneKeepsFree(t, d, Dotted(d));
      ScrubKeepsFree(t1, ds[1..], d);
      ScrubKeepsFree(t1, ds[1..], Dotted(d));
      ScrubFree(t1, ds[1..]);
      forall k | 1 <= k < |ds|
        ensures Free(Scrub(t, ds), ds[k]) && Free(Scrub(t, ds), Dotted(ds[k]))
      {
        assert ds[k] == ds[1..][k - 1];
      }
    }
  }

  /** The result of `_remove_dates` contains none of the dates found in its
      input, in ISO or dotted spelling. */
  lemma RemoveDatesFree(s: string)
    ensures RemoveDatesOf(s).Some? ==> var ds := DatesIso(s);
      forall k | 0 <= k < |ds| :: Free(RemoveDatesOf(s).value, ds[k]) && Free(RemoveDatesOf(s).value, Dotted(ds[k]))
  {
    if RemoveDatesOf(s).Some? {
      var ds := DatesIso(s);
      IsoDateTokens(ds);
      var t := Scrub(s, ds);
      ScrubFree(s, ds);
      var c := Collapse(t);
      CollapseShape(t);
      StripOfCollapsed(c);
      forall k | 0 <= k < |ds| ensures Free(c, ds[k]) && Free(c, Dotted(ds[k])) {
        CollapseFree(t, ds[k]);
        CollapseFree(t, Dotted(ds[k]));
      }
    }
  }

  // ---------------------------------------------------------------------
  // _extract_value_line and _extract_value_2lines
  // ---------------------------------------------------------------------

  /** The same-line value after a label, cut at the next stop label. */
  function Tail(line: string, m: Hit, r: Labels): string
  {
    SameLineCandidate(line, m, StopLabels(r))
  }

  /** `_extract_value_line`: the value after the first label line when the
      line has one, else the next non-blank line unless a stop label comes
      first. */
  function ValueLine(lines: seq<string>, pat: Matcher, r: Labels): (v: Option<string>)
    ensures FirstLabel(lines, pat, 0).None? ==> v == None
    ensures v.Some? ==> v.value != "" && Trimmed(v.value)
  {
    match FirstLabel(lines, pat, 0)
    case None => None
    case Some(hit) =>
      if ValueAfterMatchOf(lines[hit.0], hit.1, PREFIX_CHARS) != "" then
        OrNone(Strip(Tail(lines[hit.0], hit.1, r)))
      else
        match ScanForwardOf(lines, hit.0, StopPred(r), None, None, None)
        case Some(nxt) => OrNone(Strip(nxt))
        case None => None
  }

  /** On normalised lines the scan is a plain look at the next line: the
      line after `i`, unless there is none or it is a stop label. */
  function NextLine(lines: seq<string>, i: nat, r: Labels): Option<string>
  {
    if i + 1 < |lines| && !IsStopLabel(lines[i + 1], StopLabels(r)) then Some(lines[i + 1]) else None
  }

  /** The scan that takes the first non-blank line, with any accept
      predicate that takes every line, settles on the next line of a list of
      normalised lines. */
  lemma ScanNextOfClean(lines: seq<string>, i: nat, r: Labels, accept: Option<string -> bool>, maxLines: Option<nat>)
    requires forall x | x in lines :: CleanLine(x)
    requires accept.None? || forall x :: accept.value(x)
    requires maxLines.None? || maxLines.value >= 1
    ensures ScanForwardOf(lines, i, StopPred(r), None, accept, maxLines) == NextLine(lines, i, r)
  {
    var end := ScanEnd(|lines|, i, maxLines);
    if i + 1 < |lines| {
      assert lines[i + 1] in lines;
      CleanLineFixed(lines[i + 1]);
      assert end > i + 1;
    }
  }

  /** The same-line value is never blank and has no surrounding whitespace. */
  lemma TailTrimmed(line: string, m: Hit, r: Labels)
    requires ValueAfterMatchOf(line, m, PREFIX_CHARS) != ""
    ensures Tail(line, m, r) != "" && Strip(Tail(line, m, r)) == Tail(line, m, r)
  {
    var cut := CutAtNextLabelOf(ValueAfterMatchOf(line, m, PREFIX_CHARS), StopLabels(r));
    if cut != "" {
      StripUnchanged(cut);
    } else {
      StripUnchanged(ValueAfterMatchOf(line, m, PREFIX_CHARS));
    }
  }

  /** On normalised lines `_extract_value_line` gives the same-line value
      when the label line has one, and otherwise the next line unless that
      is a stop label. */
  lemma ValueLineOfClean(lines: seq<string>, pat: Matcher, r: Labels)
    requires forall x | x in lines :: CleanLine(x)
    ensures FirstLabel(lines, pat, 0).Some? ==>
      var hit := FirstLabel(lines, pat, 0).value;
      ValueLine(lines, pat, r) ==
        if ValueAfterMatchOf(lines[hit.0], hit.1, PREFIX_CHARS) != "" then Some(Tail(lines[hit.0], hit.1, r))
        else NextLine(lines, hit.0, r)
  {
    if FirstLabel(lines, pat, 0).Some? {
      var hit := FirstLabel(lines, pat, 0).value;
      if ValueAfterMatchOf(lines[hit.0], hit.1, PREFIX_CHARS) != "" {
        TailTrimmed(lines[hit.0], hit.1, r);
      } else {
        ScanNextOfClean(lines, hit.0, r, None, None);
        if hit.0 + 1 < |lines| {
          assert lines[hit.0 + 1] in lines;
          CleanLineFixed(lines[hit.0 + 1]);
        }
      }
    }
  }

  /** The continuation of `_extract_value_2lines`: one more line within the
      next two, unless a stop label comes first. */
  function Continued(lines: seq<string>, firstIdx: nat, first: string, r: Labels): string
  {
    var nxt := ScanForwardOf(lines, firstIdx, StopPred(r), None, Some(ACCEPT_ANY), Some(2));
    if nxt.Some? && nxt.value != "" && !StopPred(r)(nxt.value) then
      var combined := Strip(first + " " + nxt.value);
      if combined != "" then combined else first
    else first
  }

  /** `_extract_value_2lines`: the value of `_extract_value_line`, with one
      continuation line appended. */
  function ValueTwoLines(lines: seq<string>, pat: Matcher, r: Labels): (v: Option<string>)
    ensures FirstLabel(lines, pat, 0).None? ==> v == None
  {
    match FirstLabel(lines, pat, 0)
    case None => None
    case Some(hit) =>
      var i := hit.0;
      var (first, firstIdx) :=
        if ValueAfterMatchOf(lines[i], hit.1, PREFIX_CHARS) != "" then (Some(Strip(Tail(lines[i], hit.1, r))), i)
        else
          var f := ScanForwardOf(lines, i, StopPred(r), None, None, None);
          (f, if f.None? then i else i + 1);
      if first.None? || first.value == "" then None
      else Some(Continued(lines, firstIdx, first.value, r))
  }

  /** A value followed by the next line, unless there is none or it is a
      stop label. */
  function WithNextLine(lines: seq<string>, k: nat, first: string, r: Labels): string
  {
    match NextLine(lines, k, r)
    case Some(l) => first + " " + l
    case None => first
  }

  /** On normalised lines the continuation is the next line, unless it is a
      stop label. */
  lemma ContinuedOfClean(lines: seq<string>, k: nat, first: string, r: Labels)
    requires forall x | x in lines :: CleanLine(x)
    requires first != "" && Trimmed(first)
    ensures Continued(lines, k, first, r) == WithNextLine(lines, k, first, r)
  {
    ScanNextOfClean(lines, k, r, Some(ACCEPT_ANY), Some(2));
    if NextLine(lines, k, r).Some? {
      var l := lines[k + 1];
      assert l in lines;
      var c := first + " " + l;
      assert c[0] == first[0] && c[|c| - 1] == l[|l| - 1];
      StripUnchanged(c);
    }
  }

  /** On normalised lines `_extract_value_2lines` gives the same-line value
      followed by the next line, or, without a same-line value, the next
      line followed by the one after it, a stop label ending the value. */
  lemma ValueTwoLinesOfClean(lines: seq<string>, pat: Matcher, r: Labels)
    requires forall x | x in lines :: CleanLine(x)
    ensures FirstLabel(lines, pat, 0).Some? ==>
      var hit := FirstLabel(lines, pat, 0).value;
      var i := hit.0;
      ValueTwoLines(lines, pat, r) ==
        if ValueAfterMatchOf(lines[i], hit.1, PREFIX_CHARS) != "" then Some(WithNextLine(lines, i, Tail(lines[i], hit.1, r), r))
        else if NextLine(lines, i, r).Some? then Some(WithNextLine(lines, i + 1, lines[i + 1], r))
        else None
  {
    if FirstLabel(lines, pat, 0).Some? {
      var hit := FirstLabel(lines, pat, 0).value;
      var i := hit.0;
      if ValueAfterMatchOf(lines[i], hit.1, PREFIX_CHARS) != "" {
        TailTrimmed(lines[i], hit.1, r);
        ContinuedOfClean(lines, i, Tail(lines[i], hit.1, r), r);
      } else {
        ScanNextOfClean(lines, i, r, None, None);
        if NextLine(lines, i, r).Some? {
          assert lines[i + 1] in lines;
          StripOfCollapsed(lines[i + 1]);
          ContinuedOfClean(lines, i + 1, lines[i + 1], r);
        }
      }
    }
  }

  /** Lines that are normalised are their own strip. */
  lemma CleanLinesFixed(lines: seq<string>)
    requires forall x | x in lines :: CleanLine(x)
    ensures forall i | 0 <= i < |lines| :: Strip(lines[i]) == lines[i] && lines[i] != ""
  {
    forall i | 0 <= i < |lines| ensures Strip(lines[i]) == lines[i] && lines[i] != "" {
      assert lines[i] in lines;
      CleanLineFixed(lines[i]);
    }
  }

  // ---------------------------------------------------------------------
  // _first_date_after_idx
  // ---------------------------------------------------------------------

  /** `_first_date_after_idx`: the earliest date of the first line within
      `maxLines` lines after `start` that mentions a date, unless a stop
      label is met first. */
  function FirstDateAfter(lines: seq<string>, start: nat, maxLines: nat, r: Labels): (d: Option<string>)
    ensures d.Some? ==> IsIsoDate(d.value)
  {
    match ScanForwardOf(lines, start, StopPred(r), None, Some(HAS_DATE), Some(maxLines))
    case Some(ln) => if ln != "" then FirstIsoDateIn(ln) else None
    case None => None
  }

  /** On normalised lines the date found is that of the first line of the
      window that mentions a date, no stop label standing before it. */
  lemma FirstDateAfterOfClean(lines: seq<string>, start: nat, maxLines: nat, r: Labels)
    requires forall x | x in lines :: CleanLine(x)
    ensures var d := FirstDateAfter(lines, start, maxLines, r);
      d.Some? ==> exists k | start < k < |lines| && k <= start + maxLines ::
        d == FirstIsoDateIn(lines[k]) && HasDate(lines[k]) && !IsStopLabel(lines[k], StopLabels(r)) &&
        forall j | start < j < k :: !IsStopLabel(lines[j], StopLabels(r)) && !HasDate(lines[j])
  {
    CleanLinesFixed(lines);
    ScanAcceptOfClean(lines, start, maxLines, StopPred(r), HAS_DATE);
  }

  /** On normalised lines a line of the window that mentions a date, with no
      stop label up to it, always yields a date. */
  lemma FirstDateAfterReaches(lines: seq<string>, start: nat, maxLines: nat, r: Labels, k: nat)
    requires forall x | x in lines :: CleanLine(x)
    requires start < k < |lines| && k <= start + maxLines && HasDate(lines[k])
    requires forall j | start < j <= k :: !IsStopLabel(lines[j], StopLabels(r))
    ensures FirstDateAfter(lines, start, maxLines, r).Some?
  {
    CleanLinesFixed(lines);
    ScanAcceptReaches(lines, start, maxLines, StopPred(r), HAS_DATE, k);
    var v := ScanForwardOf(lines, start, StopPred(r), None, Some(HAS_DATE), Some(maxLines));
    assert HAS_DATE(v.value);
  }

  /** The date of a label line: the line's own earliest date, else the
      first date within the six lines after it. */
  function LabelLineDate(lines: seq<string>, idx: nat, r: Labels): (d: Option<string>)
    requires idx < |lines|
    ensures d.Some? ==> IsIsoDate(d.value)
    ensures HasDate(lines[idx]) ==> d == FirstIsoDateIn(lines[idx])
    ensures !HasDate(lines[idx]) ==> d == FirstDateAfter(lines, idx, 6, r)
  {
    var d := FirstIsoDateIn(lines[idx]);
    if d.Some? then d else FirstDateAfter(lines, idx, 6, r)
  }

  // ---------------------------------------------------------------------
  // extract_document_number
  // ---------------------------------------------------------------------

  /** The shape of a number read from a match: six digit-zone characters, a
      space and two letter-zone characters, none of them lower case. */
  predicate IsDocnoShape(t: string)
  {
    |t| == 9 && t[6] == ' ' && NoLower(t) &&
    (forall i | 0 <= i < 6 :: DocnoDigit(t[i])) && DocnoLetter(t[7]) && DocnoLetter(t[8])
  }

  lemma UpperDocno(c: char)
    ensures DocnoDigit(c) ==> DocnoDigit(Upper(c))
    ensures DocnoLetter(c) ==> DocnoLetter(Upper(c))
  {
    UpperIdempotent(c);
  }

  /** The two groups of a match, joined by a space and upper-cased. */
  function DocnoOfMatch(m: Hit): string
  {
    UpperStr(Group(m, 1).OrElse("") + " " + Group(m, 2).OrElse(""))
  }

  /** Upper-casing keeps the digit zone in the digit class and the letter
      zone in the letter class. */
  lemma UpperZones(g1: string, g2: string)
    requires |g1| == 6 && (forall i | 0 <= i < 6 :: DocnoDigit(g1[i]))
    requires |g2| == 2 && DocnoLetter(g2[0]) && DocnoLetter(g2[1])
    ensures IsDocnoShape(UpperStr(g1 + " " + g2))
  {
    var u := g1 + " " + g2;
    var t := UpperStr(u);
    forall i | 0 <= i < 6 ensures DocnoDigit(t[i]) {
      assert u[i] == g1[i];
      UpperDocno(g1[i]);
    }
    assert u[6] == ' ' && u[7] == g2[0] && u[8] == g2[1];
    UpperDocno(g2[0]);
    UpperDocno(g2[1]);
  }

  lemma DocnoOfMatchShape(s: string)
    requires DocnoValue(s).Some?
    ensures IsDocnoShape(DocnoOfMatch(DocnoValue(s).value))
  {
    var m := DocnoValue(s).value;
    DocnoGroups(s);
    UpperZones(Group(m, 1).value, Group(m, 2).value);
  }

  /** `f"{m.group(1)} {m.group(2)}".upper()` for the first `DOCNO_VALUE`
      match in the extracted value, None without one. */
  function DocnoOfValue(v: Option<string>): (d: Option<string>)
    ensures d.Some? <==> v.Some? && v.value != "" && DocnoValue(v.value).Some?
    ensures d.Some? ==> IsDocnoShape(d.value)
  {
    if v.None? || v.value == "" then None
    else
      match DocnoValue(v.value)
      case None => None
      case Some(m) =>
        DocnoOfMatchShape(v.value);
        Some(DocnoOfMatch(m))
  }

  /** The query `extract_document_number` hands to `extract_from_label`: the
      title label, the stop labels, `DOCNO_VALUE` as value pattern, `fallback`
      as fallback pattern, over the raw text. */
  function DocnoQuery(text: string, r: Labels, fallback: Matcher): LabelQuery
  {
    LabelQuery(r.title, StopLabels(r), Some(DocnoValue), None, Some(fallback), Some(text), None)
  }

  /** `extract_document_number` as written: `DOCNO_VALUE` is also the
      fallback pattern, and the fallback keeps only its group 1. */
  function ExtractDocumentNumberAsWritten(lines: seq<string>, text: string, r: Labels): (d: Option<string>)
    ensures d.Some? ==> IsDocnoShape(d.value)
  {
    DocnoOfValue(ExtractFromLabel(lines, DocnoQuery(text, r, DocnoValue)))
  }

  /** `DOCNO_VALUE` with its groups made non-capturing: the same matches,
      with only the whole match to report. */
  function DocnoWhole(s: string): (h: Option<Hit>)
    ensures h.Some? <==> DocnoValue(s).Some?
    ensures h.Some? ==> h.value.groups == [DocnoValue(s).value.groups[0]]
  {
    match DocnoValue(s)
    case None => None
    case Some(m) => Some(Hit(m.start, m.end, [m.groups[0]], None))
  }

  /** `extract_document_number` with the fallback reading the whole match. */
  function ExtractDocumentNumber(lines: seq<string>, text: string, r: Labels): (d: Option<string>)
    ensures d.Some? ==> IsDocnoShape(d.value)
  {
    DocnoOfValue(ExtractFromLabel(lines, DocnoQuery(text, r, DocnoWhole)))
  }

  /** Group 1 of a match has six characters; `DOCNO_VALUE` needs at least
      eight, so it never matches what the fallback returns. */
  lemma DocnoNotInGroupOne(s: string)
    requires DocnoValue(s).Some?
    ensures var g := OrNone(Strip(Group(DocnoValue(s).value, 1).OrElse("")));
      g.None? || DocnoValue(g.value).None?
  {
    DocnoGroups(s);
    var g := Strip(Group(DocnoValue(s).value, 1).OrElse(""));
    assert |g| <= 6;
  }

  /** As written, the document number is lost whenever the title label does
      not yield it: the fallback's value has six characters, too short for
      the second `DOCNO_VALUE` search. */
  lemma DocumentNumberFallbackLost(lines: seq<string>, text: string, r: Labels)
    requires FromLines(lines, DocnoQuery(text, r, DocnoValue)).None?
    ensures ExtractDocumentNumberAsWritten(lines, text, r) == None
  {
    var q := DocnoQuery(text, r, DocnoValue);
    var s := if NormalizeOcrLine(text) != "" then NormalizeOcrLine(text) else text;
    if DocnoValue(s).Some? {
      DocnoGroups(s);
      DocnoNotInGroupOne(s);
    }
  }

  /** A match read on its own matches at its start, with the same zones. */
  lemma DocnoAtOwnMatch(s: string, p: nat)
    requires DocnoAt(s, p)
    ensures var q := LetterStart(s, p); var w := s[p..q + 2];
      DocnoAt(w, 0) && LetterStart(w, 0) == q - p && |w| == q + 2 - p
  {
    var q := LetterStart(s, p);
    var w := s[p..q + 2];
    assert forall i | 0 <= i < |w| :: w[i] == s[p + i];
    assert LetterStart(w, 0) == q - p;
  }

  /** A text that matches at its start is found there, the groups being its
      two zones. */
  lemma DocnoValueAtStart(w: string)
    requires DocnoAt(w, 0)
    ensures DocnoValue(w).Some? && DocnoValue(w).value.start == 0
    ensures Group(DocnoValue(w).value, 1) == Some(w[0..6])
    ensures Group(DocnoValue(w).value, 2) == Some(w[LetterStart(w, 0)..LetterStart(w, 0) + 2])
  {
    assert DocnoFrom(w, 0) == Some(0);
  }

  /** The groups of the match `DOCNO_VALUE.search` reports. */
  lemma DocnoValueGroups(s: string)
    requires DocnoValue(s).Some?
    ensures var m := DocnoValue(s).value; var p := m.start; var q := LetterStart(s, p);
      q + 2 <= |s| && Group(m, 0) == Some(s[p..q + 2]) && Group(m, 1) == Some(s[p..p + 6]) && Group(m, 2) == Some(s[q..q + 2])
  {
  }

  /** A match, read on its own, is a match spanning all of it with the same
      two groups. */
  lemma DocnoOfWholeMatch(s: string)
    requires DocnoValue(s).Some?
    ensures var m := DocnoValue(s).value; var w := Group(m, 0).value;
      Strip(w) == w && w != "" &&
      DocnoValue(w).Some? && Group(DocnoValue(w).value, 1) == Group(m, 1) && Group(DocnoValue(w).value, 2) == Group(m, 2)
  {
    var m := DocnoValue(s).value;
    var p := m.start;
    var q := LetterStart(s, p);
    DocnoValueGroups(s);
    var w := s[p..q + 2];
    DocnoAtOwnMatch(s, p);
    DocnoWholeTrimmed(s, p);
    DocnoValueAtStart(w);
    SliceOfSlice(s, p, q + 2, 0, 6);
    SliceOfSlice(s, p, q + 2, q - p, q - p + 2);
  }

  /** A piece of a piece is a piece. */
  lemma SliceOfSlice(s: string, a: nat, b: nat, c: nat, d: nat)
    requires a <= b <= |s| && c <= d <= b - a
    ensures s[a..b][c..d] == s[a + c..a + d]
  {
    assert forall i | 0 <= i < d - c :: s[a..b][c..d][i] == s[a + c + i];
  }

  /** A match begins and ends with a character that is not whitespace. */
  lemma DocnoWholeTrimmed(s: string, p: nat)
    requires DocnoAt(s, p)
    ensures var q := LetterStart(s, p); Strip(s[p..q + 2]) == s[p..q + 2]
  {
    var q := LetterStart(s, p);
    var w := s[p..q + 2];
    assert w[0] == s[p] && w[|w| - 1] == s[q + 1];
    assert DocnoDigit(s[p]) && DocnoLetter(s[q + 1]);
    StripUnchanged(w);
  }

  /** With the correction, when the title label does not yield the number
      the fallback finds it: the first `DOCNO_VALUE` match in the normalised
      text (the raw text when that normalises to nothing) becomes the
      document number. */
  lemma DocumentNumberFallback(lines: seq<string>, text: string, r: Labels)
    requires FromLines(lines, DocnoQuery(text, r, DocnoWhole)).None?
    ensures var s := if NormalizeOcrLine(text) != "" then NormalizeOcrLine(text) else text;
      ExtractDocumentNumber(lines, text, r) ==
        if DocnoValue(s).None? then None
        else Some(UpperStr(Group(DocnoValue(s).value, 1).OrElse("") + " " + Group(DocnoValue(s).value, 2).OrElse("")))
  {
    var s := if NormalizeOcrLine(text) != "" then NormalizeOcrLine(text) else text;
    if DocnoValue(s).Some? {
      var h := DocnoWhole(s).value;
      assert LastIndex(h) == None;
      DocnoOfWholeMatch(s);
    }
  }

  /** A value the title label yields is read the same way with and without
      the correction. */
  lemma DocumentNumberFromLabelAgrees(lines: seq<string>, text: string, r: Labels)
    requires FromLines(lines, DocnoQuery(text, r, DocnoValue)).Some?
    ensures ExtractDocumentNumber(lines, text, r) == ExtractDocumentNumberAsWritten(lines, text, r)
  {
    FromLinesIgnoresFallback(lines, DocnoQuery(text, r, DocnoValue), Some(DocnoWhole), DocnoQuery(text, r, DocnoValue).fullText);
    assert DocnoQuery(text, r, DocnoValue).(fallbackRe := Some(DocnoWhole)) == DocnoQuery(text, r, DocnoWhole);
  }

  // ---------------------------------------------------------------------
  // extract_birth_place_and_date
  // ---------------------------------------------------------------------

  /** The birth place as the label gives it: the value of
      `_extract_value_line` with its dates removed. */
  function PlaceValue(lines: seq<string>, r: Labels): (p: Option<string>)
    ensures p.Some? ==> p.value != "" && Collapsed(p.value)
  {
    var bp := ValueLine(lines, r.birthPlaceDate, r);
    if bp.Some? && bp.value != "" then RemoveDatesOf(bp.value) else None
  }

  /** `" ".join(f"{birth_place}, {nxt_clean}".split()).strip() or birth_place`. */
  function JoinPlace(place: string, more: string): string
  {
    var joined := Strip(Collapse(place + ", " + more));
    if joined != "" then joined else place
  }

  /** The continuation step: the first non-blank line within three lines
      after `anchor`, unless a stop label comes first, is appended after a
      comma once its dates are removed. */
  function PlaceContinued(lines: seq<string>, anchor: nat, place: string, r: Labels): string
  {
    var nxt := ScanForwardOf(lines, anchor, StopPred(r), None, Some(ACCEPT_ANY), Some(3));
    if nxt.Some? && nxt.value != "" && !StopPred(r)(nxt.value) then
      match RemoveDatesOf(nxt.value)
      case Some(clean) => JoinPlace(place, clean)
      case None => place
    else place
  }

  /** The birth place with its continuation looked for after `anchor`. */
  function PlaceWithContinuation(lines: seq<string>, anchor: nat, r: Labels): Option<string>
  {
    match PlaceValue(lines, r)
    case Some(place) => Some(PlaceContinued(lines, anchor, place, r))
    case None => None
  }

  /** The birth place as written: the continuation scan starts at the label
      line in both branches, also when the place was read from the next
      line. */
  function BirthPlaceAsWritten(lines: seq<string>, r: Labels): Option<string>
  {
    match FirstLabel(lines, r.birthPlaceDate, 0)
    case None => None
    case Some(hit) => PlaceWithContinuation(lines, hit.0, r)
  }

  /** The line the place was read from: the label line when it carries a
      value, else the line after it (the convention of
      `_extract_value_2lines`). */
  function PlaceLine(lines: seq<string>, hit: (nat, Hit)): nat
    requires hit.0 < |lines|
  {
    if ValueAfterMatchOf(lines[hit.0], hit.1, PREFIX_CHARS) != "" then hit.0 else hit.0 + 1
  }

  /** The birth place with the continuation scan starting after the line the
      place was read from. */
  function BirthPlace(lines: seq<string>, r: Labels): Option<string>
  {
    match FirstLabel(lines, r.birthPlaceDate, 0)
    case None => None
    case Some(hit) => PlaceWithContinuation(lines, PlaceLine(lines, hit), r)
  }

  /** The birth date: the earliest date on the label line, else the first
      date within the six lines after it. */
  function BirthDate(lines: seq<string>, r: Labels): (d: Option<string>)
    ensures d.Some? ==> IsIsoDate(d.value)
    ensures LabelIdx(lines, r.birthPlaceDate, 0).None? ==> d == None
    ensures LabelIdx(lines, r.birthPlaceDate, 0).Some? ==> d == LabelLineDate(lines, LabelIdx(lines, r.birthPlaceDate, 0).value, r)
  {
    match LabelIdx(lines, r.birthPlaceDate, 0)
    case None => None
    case Some(idx) => LabelLineDate(lines, idx, r)
  }

  /** On normalised lines: the continuation of a place read from line `j`. */
  function ContinuationOf(lines: seq<string>, j: nat, place: string, r: Labels): string
  {
    match NextLine(lines, j, r)
    case Some(l) =>
      (match RemoveDatesOf(l)
       case Some(clean) => JoinPlace(place, clean)
       case None => place)
    case None => place
  }

  /** On normalised lines the continuation is the line right after the
      anchor, unless that is a stop label or nothing is left of it once its
      dates are removed. */
  lemma PlaceContinuedOfClean(lines: seq<string>, anchor: nat, place: string, r: Labels)
    requires forall x | x in lines :: CleanLine(x)
    ensures PlaceContinued(lines, anchor, place, r) == ContinuationOf(lines, anchor, place, r)
  {
    ScanNextOfClean(lines, anchor, r, Some(ACCEPT_ANY), Some(3));
  }

  /** Two collapsed non-empty texts joined by ", " form a collapsed text. */
  lemma CollapsedComma(a: string, b: string)
    requires Collapsed(a) && a != "" && Collapsed(b) && b != ""
    ensures Collapsed(a + ", " + b)
  {
    var c := a + ", " + b;
    assert forall i | 0 <= i < |a| :: c[i] == a[i];
    assert c[|a|] == ',' && c[|a| + 1] == ' ';
    assert forall i | |a| + 2 <= i < |c| :: c[i] == b[i - |a| - 2];
  }

  /** Joining collapsed texts needs no re-spacing. */
  lemma JoinPlaceCollapsed(a: string, b: string)
    requires Collapsed(a) && a != "" && Collapsed(b) && b != ""
    ensures JoinPlace(a, b) == a + ", " + b
  {
    CollapsedComma(a, b);
    CollapsedFixpoint(a + ", " + b);
    StripOfCollapsed(a + ", " + b);
  }

  /** As written, a place read from the line after a bare label line is
      appended to itself: the continuation scan, started at the label line,
      finds the place line again. */
  lemma BirthPlaceRepeats(lines: seq<string>, r: Labels)
    requires forall x | x in lines :: CleanLine(x)
    requires FirstLabel(lines, r.birthPlaceDate, 0).Some?
    requires var hit := FirstLabel(lines, r.birthPlaceDate, 0).value;
      ValueAfterMatchOf(lines[hit.0], hit.1, PREFIX_CHARS) == "" &&
      NextLine(lines, hit.0, r).Some? && RemoveDatesOf(lines[hit.0 + 1]).Some?
    ensures var p := RemoveDatesOf(lines[FirstLabel(lines, r.birthPlaceDate, 0).value.0 + 1]).value;
      BirthPlaceAsWritten(lines, r) == Some(p + ", " + p)
  {
    var hit := FirstLabel(lines, r.birthPlaceDate, 0).value;
    var p := RemoveDatesOf(lines[hit.0 + 1]).value;
    ValueLineOfClean(lines, r.birthPlaceDate, r);
    assert lines[hit.0 + 1] in lines;
    assert PlaceValue(lines, r) == Some(p);
    PlaceContinuedOfClean(lines, hit.0, p, r);
    JoinPlaceCollapsed(p, p);
  }

  /** With the correction the continuation is the line after the line the
      place was read from, and the place is read as `_extract_value_line`
      reads it. */
  lemma BirthPlaceOfClean(lines: seq<string>, r: Labels)
    requires forall x | x in lines :: CleanLine(x)
    ensures FirstLabel(lines, r.birthPlaceDate, 0).Some? ==>
      var hit := FirstLabel(lines, r.birthPlaceDate, 0).value;
      var j := PlaceLine(lines, hit);
      BirthPlace(lines, r) ==
        match PlaceValue(lines, r)
        case Some(place) => Some(ContinuationOf(lines, j, place, r))
        case None => None
  {
    if FirstLabel(lines, r.birthPlaceDate, 0).Some? {
      var hit := FirstLabel(lines, r.birthPlaceDate, 0).value;
      if PlaceValue(lines, r).Some? {
        PlaceContinuedOfClean(lines, PlaceLine(lines, hit), PlaceValue(lines, r).value, r);
      }
    }
  }

  /** In the case the written version gets wrong, the corrected one looks
      for the continuation after the place line, not on it. */
  lemma BirthPlaceNoRepeat(lines: seq<string>, r: Labels, hit: (nat, Hit), p: string)
    requires forall x | x in lines :: CleanLine(x)
    requires FirstLabel(lines, r.birthPlaceDate, 0) == Some(hit)
    requires ValueAfterMatchOf(lines[hit.0], hit.1, PREFIX_CHARS) == ""
    requires PlaceValue(lines, r) == Some(p)
    ensures BirthPlace(lines, r) == Some(ContinuationOf(lines, hit.0 + 1, p, r))
  {
    assert PlaceLine(lines, hit) == hit.0 + 1;
    assert BirthPlace(lines, r) == PlaceWithContinuation(lines, hit.0 + 1, r);
    assert PlaceWithContinuation(lines, hit.0 + 1, r) == Some(PlaceContinued(lines, hit.0 + 1, p, r));
    PlaceContinuedOfClean(lines, hit.0 + 1, p, r);
  }

  // ---------------------------------------------------------------------
  // Reporting times, validity, authority and issue date
  // ---------------------------------------------------------------------

  /** The first index from `from` on, below `hi`, of a line `pat` matches. */
  function FirstMatchBetween(lines: seq<string>, pat: Matcher, from: nat, hi: nat): (k: Option<nat>)
    requires hi <= |lines|
    ensures k.Some? ==> from <= k.value < hi && pat(lines[k.value]).Some?
    ensures k.Some? ==> forall j | from <= j < k.value :: pat(lines[j]).None?
    ensures k.None? ==> forall j | from <= j < hi :: pat(lines[j]).None?
    decreases hi - from
  {
    if from >= hi then None
    else if pat(lines[from]).Some? then Some(from)
    else FirstMatchBetween(lines, pat, from + 1, hi)
  }

  /** `min(end, len(lines))`, `len(lines)` standing in for a missing end. */
  function EndOf(n: nat, end: Option<nat>): (e: nat)
    ensures e <= n
    ensures end.Some? ==> e <= end.value
  {
    match end
    case None => n
    case Some(b) => if b < n then b else n
  }

  /** What `_find_reporting_time_idx_between` returns: the first
      reporting-time label strictly after `start` and before the end. */
  function ReportingTimeIdxBetween(lines: seq<string>, start: nat, end: Option<nat>, r: Labels): (k: Option<nat>)
    ensures k.Some? ==> start < k.value < EndOf(|lines|, end) && r.reportingTime(lines[k.value]).Some?
    ensures k.Some? ==> forall j | start < j < k.value :: r.reportingTime(lines[j]).None?
    ensures k.None? ==> forall j | start < j < EndOf(|lines|, end) :: r.reportingTime(lines[j]).None?
  {
    FirstMatchBetween(lines, r.reportingTime, start + 1, EndOf(|lines|, end))
  }

  /** `_find_reporting_time_idx_between`. */
  method FindReportingTimeIdxBetween(lines: seq<string>, start: nat, end: Option<nat>, r: Labels) returns (k: Option<nat>)
    ensures k == ReportingTimeIdxBetween(lines, start, end, r)
  {
    var hi := EndOf(|lines|, end);
    if start + 1 >= hi {
      return None;
    }
    for i := start + 1 to hi
      invariant FirstMatchBetween(lines, r.reportingTime, i, hi) == FirstMatchBetween(lines, r.reportingTime, start + 1, hi)
    {
      if r.reportingTime(lines[i]).Some? {
        return Some(i);
      }
    }
    return None;
  }

  /** The reporting-time label that admits a permanent reporting time: the
      first one after the permanent address label and before the next
      temporary address label (the end of the document without one). */
  function PermanentBlockLabel(lines: seq<string>, r: Labels): (k: Option<nat>)
    ensures k.Some? ==> LabelIdx(lines, r.permanentAddress, 0).Some?
    ensures k.Some? ==>
      var perm := LabelIdx(lines, r.permanentAddress, 0).value;
      perm < k.value < EndOf(|lines|, LabelIdx(lines, r.temporaryAddress, perm + 1)) &&
      r.reportingTime(lines[k.value]).Some?
    ensures k.None? && LabelIdx(lines, r.permanentAddress, 0).Some? ==>
      var perm := LabelIdx(lines, r.permanentAddress, 0).value;
      forall j | perm < j < EndOf(|lines|, LabelIdx(lines, r.temporaryAddress, perm + 1)) ::
        r.reportingTime(lines[j]).None?
  {
    match LabelIdx(lines, r.permanentAddress, 0)
    case None => None
    case Some(perm) => ReportingTimeIdxBetween(lines, perm, LabelIdx(lines, r.temporaryAddress, perm + 1), r)
  }

  /** `extract_permanent_reporting_time`: a reporting-time label must lie
      between the permanent address label and the next temporary address
      label; the date is then read from the value of the document's first
      reporting-time label. */
  function PermanentReportingTime(lines: seq<string>, r: Labels): (d: Option<string>)
    ensures d.Some? ==> IsIsoDate(d.value) && PermanentBlockLabel(lines, r).Some?
  {
    if PermanentBlockLabel(lines, r).None? then None
    else DateOfValue(ValueLine(lines, r.reportingTime, r))
  }

  /** When no reporting-time label comes before the permanent address, the
      value is read at the first reporting-time label inside its block. */
  lemma PermanentReportingTimeAtBlock(lines: seq<string>, r: Labels, perm: nat, k: nat)
    requires LabelIdx(lines, r.permanentAddress, 0) == Some(perm)
    requires forall j | 0 <= j <= perm :: r.reportingTime(lines[j]).None?
    requires ReportingTimeIdxBetween(lines, perm, LabelIdx(lines, r.temporaryAddress, perm + 1), r) == Some(k)
    ensures LabelIdx(lines, r.reportingTime, 0) == Some(k)
    ensures PermanentReportingTime(lines, r) == DateOfValue(ValueLine(lines, r.reportingTime, r))
  {
    assert PermanentBlockLabel(lines, r) == Some(k);
    assert r.reportingTime(lines[k]).Some?;
    var i := LabelIdx(lines, r.reportingTime, 0).value;
    assert i <= k;
    assert i > perm;
  }

  /** `min` over the bounds that are present, None when none is. */
  function MinPresent(bs: seq<Option<nat>>): (e: Option<nat>)
    ensures e.None? <==> forall i | 0 <= i < |bs| :: bs[i].None?
    ensures e.Some? ==> e in bs
    ensures e.Some? ==> forall i | 0 <= i < |bs| && bs[i].Some? :: e.value <= bs[i].value
    decreases |bs|
  {
    if |bs| == 0 then None
    else
      var e := MinPresent(bs[..|bs| - 1]);
      var b := bs[|bs| - 1];
      assert forall x | x in bs[..|bs| - 1] :: x in bs;
      if b.None? then e
      else if e.None? then b
      else Some(if b.value < e.value then b.value else e.value)
  }

  /** The `for b in (val_idx, auth_idx)` loop of
      `extract_temporary_reporting_time`. */
  method EndBound(bs: seq<Option<nat>>) returns (e: Option<nat>)
    ensures e == MinPresent(bs)
  {
    e := None;
    var n := |bs|;
    for i := 0 to n
      invariant e == MinPresent(bs[..i])
    {
      assert bs[..i + 1][..i] == bs[..i];
      var b := bs[i];
      if b.Some? {
        e := if e.None? then b else Some(if e.value < b.value then e.value else b.value);
      }
    }
    assert bs[..n] == bs;
  }

  /** The date at a located reporting-time label: the earliest date of the
      same-line value when it has one, else the first date within the six
      lines after the label. */
  function ReportingDateAt(lines: seq<string>, i: nat, m: Hit, r: Labels): (d: Option<string>)
    requires i < |lines|
    ensures d.Some? ==> IsIsoDate(d.value)
  {
    var iso := if ValueAfterMatchOf(lines[i], m, PREFIX_CHARS) != "" then FirstIsoDateIn(Tail(lines[i], m, r)) else None;
    if iso.Some? then iso else FirstDateAfter(lines, i, 6, r)
  }

  /** The end of the temporary address block: the nearer of the next
      validity label and the next issuing-authority label. */
  function TemporaryBlockEnd(lines: seq<string>, temp: nat, r: Labels): Option<nat>
  {
    MinPresent([LabelIdx(lines, r.validity, temp + 1), LabelIdx(lines, r.issuingAuthority, temp + 1)])
  }

  /** `extract_temporary_reporting_time`. */
  function TemporaryReportingTime(lines: seq<string>, r: Labels): (d: Option<string>)
    ensures d.Some? ==> IsIsoDate(d.value)
  {
    match LabelIdx(lines, r.temporaryAddress, 0)
    case None => None
    case Some(temp) =>
      match ReportingTimeIdxBetween(lines, temp, TemporaryBlockEnd(lines, temp, r), r)
      case None => None
      case Some(k) =>
        match FirstLabel(lines, r.reportingTime, k)
        case None => None
        case Some(hit) => ReportingDateAt(lines, hit.0, hit.1, r)
  }

  /** The temporary reporting time is read at the first reporting-time
      label inside the temporary address block, which ends at the nearer of
      the next validity and issuing-authority labels. */
  lemma TemporaryReportingTimeAnchored(lines: seq<string>, r: Labels)
    ensures TemporaryReportingTime(lines, r).Some? ==>
      var temp := LabelIdx(lines, r.temporaryAddress, 0);
      temp.Some? &&
      var end := TemporaryBlockEnd(lines, temp.value, r);
      var k := ReportingTimeIdxBetween(lines, temp.value, end, r);
      k.Some? && temp.value < k.value < EndOf(|lines|, end) &&
      (forall j | temp.value < j < k.value :: r.reportingTime(lines[j]).None?) &&
      TemporaryReportingTime(lines, r) == ReportingDateAt(lines, k.value, r.reportingTime(lines[k.value]).value, r)
    ensures var temp := LabelIdx(lines, r.temporaryAddress, 0);
      temp.Some? ==> var end := TemporaryBlockEnd(lines, temp.value, r);
        (end.None? <==> LabelIdx(lines, r.validity, temp.value + 1).None? && LabelIdx(lines, r.issuingAuthority, temp.value + 1).None?)
  {
    var temp := LabelIdx(lines, r.temporaryAddress, 0);
    if temp.Some? {
      var bs := [LabelIdx(lines, r.validity, temp.value + 1), LabelIdx(lines, r.issuingAuthority, temp.value + 1)];
      assert bs[0] == LabelIdx(lines, r.validity, temp.value + 1) && bs[1] == LabelIdx(lines, r.issuingAuthority, temp.value + 1);
    }
  }

  /** `extract_temporary_validity`. */
  function TemporaryValidity(lines: seq<string>, r: Labels): (d: Option<string>)
    ensures d.Some? ==> IsIsoDate(d.value)
    ensures FirstLabel(lines, r.validity, 0).None? ==> d == None
  {
    DateOfValue(ValueLine(lines, r.validity, r))
  }

  /** `extract_issuing_authority_and_issue_date`: the authority as
      `_extract_value_line` reads it, and the issue date as the birth date
      is read, both None without the label. */
  function AuthorityAndIssueDate(lines: seq<string>, r: Labels): (v: (Option<string>, Option<string>))
    ensures LabelIdx(lines, r.issuingAuthority, 0).None? ==> v == (None, None)
    ensures v.0 == ValueLine(lines, r.issuingAuthority, r)
    ensures v.1.Some? ==> IsIsoDate(v.1.value)
    ensures LabelIdx(lines, r.issuingAuthority, 0).Some? ==>
      v.1 == LabelLineDate(lines, LabelIdx(lines, r.issuingAuthority, 0).value, r)
  {
    match LabelIdx(lines, r.issuingAuthority, 0)
    case None => (None, None)
    case Some(idx) => (ValueLine(lines, r.issuingAuthority, r), LabelLineDate(lines, idx, r))
  }
}
