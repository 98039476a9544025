/** `core/utils/text.py`: the earlier generation of the line helpers, the one
    the processors under `documents/processors/` use. Each helper is tied by a
    lemma to its later counterpart in `core/utils/ocr_text.py`,
    `core/utils/extract.py` or the driving-licence extractor. */
module Text {
  import opened Base
  import opened Chars
  import opened PyStr
  import opened Regex
  import OcrText
  import LabelScan
  import DrivingLicense

  // ---------------------------------------------------------------------
  // normalize_whitespace
  // ---------------------------------------------------------------------

  /** Trailing whitespace does not change the words. */
  lemma {:induction false} WordsBlankSuffix(x: string, b: string)
    requires Blank(b)
    ensures Words(x + b) == Words(x)
    decreases |x|
  {
    if |x| == 0 {
      assert x + b == b;
    } else if IsSpace(x[0]) {
      assert (x + b)[1..] == x[1..] + b;
      WordsBlankSuffix(x[1..], b);
    } else {
      var n := TokenLen(x);
      var w, t := x[..n], x[n..] + b;
      assert x + b == w + t;
      WordsOfTokenThen(w, t);
      WordsBlankSuffix(x[n..], b);
      assert Words(x) == [w] + Words(x[n..]);
    }
  }

  /** Stripping first does not change the words. */
  lemma WordsOfStrip(s: string)
    ensures Words(Strip(s)) == Words(s)
  {
    var l := LStrip(s);
    LStripSuffix(s);
    var k := |s| - |l|;
    assert s == s[..k] + l;
    WordsBlankPrefix(s[..k], l);
    var r := RStrip(l);
    RStripPrefix(l);
    assert l == r + l[|r|..];
    WordsBlankSuffix(r, l[|r|..]);
  }

  /** `normalize_whitespace`: `" ".join(s.strip().split())`. The strip is
      redundant: the result is the collapsed text, and empty exactly when the
      text is blank. */
  function NormalizeWhitespace(s: string): (r: string)
    ensures r == Collapse(s)
    ensures Collapsed(r)
    ensures r == "" <==> Blank(s)
  {
    WordsOfStrip(s);
    CollapseShape(s);
    Collapse(Strip(s))
  }

  lemma NormalizeWhitespaceIdempotent(s: string)
    ensures NormalizeWhitespace(NormalizeWhitespace(s)) == NormalizeWhitespace(s)
  {
    CollapseIdempotent(s);
  }

  // ---------------------------------------------------------------------
  // strip_markdown
  // ---------------------------------------------------------------------

  /** `s` is its leading whitespace, its strip and its trailing whitespace. */
  lemma StripParts(s: string) returns (pre: string, post: string)
    ensures s == pre + Strip(s) + post && Blank(pre) && Blank(post)
  {
    var l: string;
    pre, l := LStripParts(s);
    var r: string;
    r, post := RStripParts(l);
    assert s == pre + r + post;
  }

  lemma LStripParts(s: string) returns (pre: string, l: string)
    ensures l == LStrip(s) && s == pre + l && Blank(pre)
  {
    l := LStrip(s);
    LStripSuffix(s);
    pre := s[..|s| - |l|];
  }

  lemma RStripParts(l: string) returns (r: string, post: string)
    ensures r == RStrip(l) && l == r + post && Blank(post)
  {
    r := RStrip(l);
    RStripPrefix(l);
    post := l[|r|..];
  }

  /** Whitespace around a text does not change its words. */
  lemma WordsBetweenBlanks(pre: string, x: string, post: string)
    requires Blank(pre) && Blank(post)
    ensures Words(pre + x + post) == Words(x)
  {
    assert pre + x + post == pre + (x + post);
    WordsBlankPrefix(pre, x + post);
    WordsBlankSuffix(x, post);
  }

  /** Filtering out decoration keeps whitespace around a text. */
  lemma FilterBetweenBlanks(pre: string, x: string, post: string)
    requires Blank(pre) && Blank(post)
    ensures Filter(pre + x + post, OcrText.NotDecor) == pre + Filter(x, OcrText.NotDecor) + post
  {
    FilterAll(pre, OcrText.NotDecor);
    FilterAll(post, OcrText.NotDecor);
    FilterConcat(pre + x, post, OcrText.NotDecor);
    FilterConcat(pre, x, OcrText.NotDecor);
  }

  /** Removing the decoration before or after the strip gives the same words:
      the stripped ends are whitespace, which the filter keeps and the
      collapse drops. */
  lemma StripFilter(s: string)
    ensures Collapse(Filter(Strip(s), OcrText.NotDecor)) == Collapse(Filter(s, OcrText.NotDecor))
  {
    var pre, post := StripParts(s);
    FilterBetweenBlanks(pre, Strip(s), post);
    WordsBetweenBlanks(pre, Filter(Strip(s), OcrText.NotDecor), post);
  }

  /** `strip_markdown`: "" stays ""; otherwise the text is stripped, the
      characters `*_`#>` are removed and the whitespace collapsed. This is
      `normalize_ocr_line` of the later generation, on every input. */
  function StripMarkdown(s: string): (r: string)
    ensures r == OcrText.NormalizeOcrLine(s)
    ensures s == "" ==> r == ""
  {
    if s == "" then s
    else
      StripFilter(s);
      NormalizeWhitespace(Filter(Strip(s), OcrText.NotDecor))
  }

  // ---------------------------------------------------------------------
  // normalize_dl_label
  // ---------------------------------------------------------------------

  /** The characters a normalised label keeps: no whitespace, no parenthesis. */
  predicate LabelKept(c: char)
  {
    !IsSpace(c) && c != '(' && c != ')'
  }

  /** The one predicate `p` and `q` agree on for every character of `s`. */
  lemma {:induction false} FilterSame(s: string, p: char -> bool, q: char -> bool)
    requires forall i | 0 <= i < |s| :: p(s[i]) == q(s[i])
    ensures Filter(s, p) == Filter(s, q)
    decreases |s|
  {
    if |s| > 0 {
      FilterSame(s[1..], p, q);
    }
  }

  /** Removing ' ' and then the parentheses from a collapsed text keeps the
      text's characters other than whitespace and parentheses. */
  lemma LabelFilters(lab: string)
    ensures Filter(Filter(Collapse(lab), DrivingLicense.NotParen), NotSpaceChar) == Filter(lab, LabelKept)
  {
    var c := Collapse(lab);
    CollapseShape(lab);
    var pq := (ch: char) => DrivingLicense.NotParen(ch) && NotSpaceChar(ch);
    FilterFilter(c, DrivingLicense.NotParen, NotSpaceChar, pq);
    FilterSame(c, pq, LabelKept);
    FilterFilter(c, NotSpace, DrivingLicense.NotParen, LabelKept);
    FilterFilter(lab, NotSpace, DrivingLicense.NotParen, LabelKept);
    ConcatWords(c);
    ConcatWords(lab);
    WordsOfJoin(Words(lab));
  }

  /** `normalize_dl_label`: "" stays ""; otherwise whitespace is collapsed,
      the parentheses and then the spaces removed, and the rest lower-cased.
      The result is the label's characters other than whitespace and
      parentheses, lower-cased. */
  function NormalizeDlLabel(lab: string): (r: string)
    ensures r == LowerStr(Filter(lab, LabelKept))
  {
    if lab == "" then lab
    else
      var s := NormalizeWhitespace(lab);
      var p := Filter(Filter(s, DrivingLicense.NotParen), NotSpaceChar);
      LabelFilters(lab);
      LowerStr(p)
  }

  /** Lower-casing keeps a character kept, and keeps one dropped. */
  lemma LowerKept(c: char)
    ensures LabelKept(Lower(c)) == LabelKept(c) && !IsUpper(Lower(c))
  {
  }

  /** A normalised label is lower case, without whitespace or parentheses. */
  lemma NormalizeDlLabelShape(lab: string)
    ensures var r := NormalizeDlLabel(lab);
      forall i | 0 <= i < |r| :: LabelKept(r[i]) && !IsUpper(r[i])
  {
    var f := Filter(lab, LabelKept);
    forall i | 0 <= i < |f| ensures LabelKept(LowerStr(f)[i]) && !IsUpper(LowerStr(f)[i]) {
      LowerKept(f[i]);
    }
  }

  /** The characters each docstring label keeps. */
  lemma KeptOfSpaced()
    ensures Filter("4 (a)", LabelKept) == "4a"
  {
    assert Filter("a)", LabelKept) == "a";
  }

  lemma KeptOfParens()
    ensures Filter("4(a)", LabelKept) == "4a"
  {
    assert Filter("a)", LabelKept) == "a";
  }

  lemma KeptOfCapital()
    ensures Filter("4A", LabelKept) == "4A"
  {
  }

  lemma LowerOfLabels()
    ensures LowerStr("4a") == "4a" && LowerStr("4A") == "4a"
  {
  }

  lemma NormalizeDlLabelOfLabels()
    ensures NormalizeDlLabel("4 (a)") == LowerStr(Filter("4 (a)", LabelKept))
    ensures NormalizeDlLabel("4(a)") == LowerStr(Filter("4(a)", LabelKept))
    ensures NormalizeDlLabel("4A") == LowerStr(Filter("4A", LabelKept))
  {
  }

  /** The label tokens of the docstring: "4 (a)", "4(a)" and "4A" are "4a". */
  lemma NormalizeDlLabelExamples()
    ensures NormalizeDlLabel("4 (a)") == "4a"
    ensures NormalizeDlLabel("4(a)") == "4a"
    ensures NormalizeDlLabel("4A") == "4a"
  {
    NormalizeDlLabelOfLabels();
    KeptOfSpaced();
    KeptOfParens();
    KeptOfCapital();
    LowerOfLabels();
  }

  lemma NormalizeDlLabelIdempotent(lab: string)
    ensures NormalizeDlLabel(NormalizeDlLabel(lab)) == NormalizeDlLabel(lab)
  {
    var r := NormalizeDlLabel(lab);
    NormalizeDlLabelShape(lab);
    FilterAll(r, LabelKept);
    DrivingLicense.LowerStrFixed(r);
  }

  /** Lower-casing before or after the filter is the same: a letter and its
      lower-case form are both kept. */
  lemma {:induction false} LowerFilterKept(s: string)
    ensures LowerStr(Filter(s, LabelKept)) == Filter(LowerStr(s), LabelKept)
    decreases |s|
  {
    if |s| > 0 {
      LowerFilterKept(s[1..]);
      var h := if LabelKept(s[0]) then [s[0]] else "";
      LowerStrConcat(h, Filter(s[1..], LabelKept));
      LowerKept(s[0]);
      LowerStrCons(s);
    }
  }

  lemma LowerStrCons(s: string)
    requires |s| > 0
    ensures LowerStr(s)[0] == Lower(s[0]) && LowerStr(s)[1..] == LowerStr(s[1..])
  {
  }

  /** On a label without dots the earlier normaliser and the driving-licence
      one (which also removes dots) agree. */
  lemma NormalizeDlLabelGenerations(lab: string)
    requires '.' !in lab
    ensures NormalizeDlLabel(lab) == DrivingLicense.NormalizeDlLabel(lab)
  {
    DrivingLicense.NormalizeDlLabelIsFilter(lab);
    LowerFilterKept(lab);
    KeptIsNotJunk(LowerStr(lab));
  }

  /** Without dots, keeping `LabelKept` characters drops exactly the label
      junk. */
  lemma KeptIsNotJunk(l: string)
    requires '.' !in l
    ensures Filter(l, LabelKept) == Filter(l, DrivingLicense.NotLabelJunk)
  {
    forall i | 0 <= i < |l| ensures LabelKept(l[i]) == DrivingLicense.NotLabelJunk(l[i]) {
      assert l[i] != '.';
    }
    FilterSame(l, LabelKept, DrivingLicense.NotLabelJunk);
  }

  // ---------------------------------------------------------------------
  // split_lines
  // ---------------------------------------------------------------------

  /** The non-empty whitespace-normalised forms of some raw lines, in order. */
  function WsLines(ls: seq<string>): (r: seq<string>)
    ensures |r| <= |ls|
    ensures forall i | 0 <= i < |r| :: r[i] != "" && Collapsed(r[i])
  {
    if |ls| == 0 then []
    else
      var n := NormalizeWhitespace(ls[|ls| - 1]);
      WsLines(ls[..|ls| - 1]) + (if n != "" then [n] else [])
  }

  /** What `split_lines(text)` returns; unlike the later `split_lines`, the
      markdown decoration stays in the lines. */
  function SplitLinesOf(text: string): (r: seq<string>)
    ensures forall i | 0 <= i < |r| :: r[i] != "" && Collapsed(r[i])
    ensures text == "" ==> r == []
  {
    if text == "" then [] else WsLines(RawLines(text))
  }

  /** On lines without decoration both generations keep the same lines. */
  lemma {:induction false} WsLinesUndecorated(ls: seq<string>)
    requires forall i | 0 <= i < |ls| :: OcrText.NoDecor(ls[i])
    ensures WsLines(ls) == OcrText.KeptLines(ls)
    decreases |ls|
  {
    if |ls| > 0 {
      var init := ls[..|ls| - 1];
      assert forall i | 0 <= i < |init| :: init[i] == ls[i];
      WsLinesUndecorated(init);
      FilterAll(ls[|ls| - 1], OcrText.NotDecor);
    }
  }

  /** A line `split_lines` returns is its own normal form. */
  lemma SplitLinesFixed(text: string, i: nat)
    requires i < |SplitLinesOf(text)|
    ensures NormalizeWhitespace(SplitLinesOf(text)[i]) == SplitLinesOf(text)[i]
  {
    CollapsedFixpoint(SplitLinesOf(text)[i]);
  }

  /** `split_lines`. */
  method SplitLines(text: string) returns (out: seq<string>)
    ensures out == SplitLinesOf(text)
  {
    if text == "" {
      return [];
    }
    var raw := RawLines(text);
    out := [];
    for k := 0 to |raw|
      invariant out == WsLines(raw[..k])
    {
      assert raw[..k + 1][..k] == raw[..k];
      var ln2 := NormalizeWhitespace(raw[k]);
      if ln2 != "" {
        out := out + [ln2];
      }
    }
    assert raw[..|raw|] == raw;
  }

  // ---------------------------------------------------------------------
  // next_non_empty
  // ---------------------------------------------------------------------

  /** What `next_non_empty(lines, start_idx)` returns: the first non-blank
      line after `start_idx`, as it is. The later version returns the same
      line stripped. */
  function NextNonEmptyOf(lines: seq<string>, startIdx: nat): (r: Option<string>)
    ensures r.Some? ==> exists j | startIdx < j < |lines| :: r.value == lines[j] && !Blank(lines[j])
    ensures r.None? <==> OcrText.NextNonEmptyOf(lines, startIdx).None?
    ensures r.Some? ==> OcrText.NextNonEmptyOf(lines, startIdx) == Some(Strip(r.value))
  {
    match OcrText.FirstNonBlank(lines, startIdx + 1)
    case Some(i) => Some(lines[i])
    case None => None
  }

  /** `next_non_empty`. */
  method NextNonEmpty(lines: seq<string>, startIdx: nat) returns (r: Option<string>)
    ensures r == NextNonEmptyOf(lines, startIdx)
  {
    if startIdx + 1 >= |lines| {
      return None;
    }
    for i := startIdx + 1 to |lines|
      invariant OcrText.FirstNonBlank(lines, startIdx + 1) == OcrText.FirstNonBlank(lines, i)
    {
      StripEmptyIffBlank(lines[i]);
      if Strip(lines[i]) != "" {
        return Some(lines[i]);
      }
    }
    return None;
  }

  // ---------------------------------------------------------------------
  // Values of matches
  // ---------------------------------------------------------------------

  /** `strip_markdown(v) if isinstance(v, str) else None`, then `v if v else None`. */
  function GroupValue(g: Option<string>): (r: Option<string>)
    ensures r == OcrText.OrNone(OcrText.NormalizeOcrLine(g.OrElse("")))
  {
    match g
    case None => None
    case Some(v) => var w := StripMarkdown(v); if w == "" then None else Some(w)
  }

  /** `_extract_value_from_match`: the named group `value` when the pattern
      has one, else the last group that took part; it reads every match as
      the later `match_value` does. */
  function ExtractValueFromMatch(m: Option<Hit>): (r: Option<string>)
    ensures r == OcrText.MatchValue(m)
  {
    match m
    case None => None
    case Some(h) =>
      if h.valueGroup.Some? then GroupValue(Group(h, h.valueGroup.value))
      else match LastIndex(h)
        case Some(k) => GroupValue(Group(h, k))
        case None => None
  }

  /** `extract_inline_value`: the value of the pattern's first match in the
      text, as the later `search_value` reads it. */
  function ExtractInlineValue(text: string, pat: Matcher): (r: Option<string>)
    ensures r == OcrText.SearchValue(text, pat)
    ensures r.Some? ==> r.value != "" && Collapsed(r.value)
  {
    ExtractValueFromMatch(pat(text))
  }

  /** The value of one line, as a list of at most one element. */
  function ValueOfLine(ln: string, pat: Matcher): (vs: seq<string>)
  {
    match ExtractInlineValue(ln, pat)
    case Some(v) => [v]
    case None => []
  }

  /** The values the pattern gives line by line, in line order. */
  function LineValues(lines: seq<string>, pat: Matcher): (vs: seq<string>)
    ensures |vs| <= |lines|
    ensures forall i | 0 <= i < |vs| :: vs[i] != ""
  {
    if |lines| == 0 then [] else ValueOfLine(lines[0], pat) + LineValues(lines[1..], pat)
  }

  lemma {:induction false} LineValuesConcat(a: seq<string>, b: seq<string>, pat: Matcher)
    ensures LineValues(a + b, pat) == LineValues(a, pat) + LineValues(b, pat)
    decreases |a|
  {
    if |a| == 0 {
      assert a + b == b;
    } else {
      assert (a + b)[1..] == a[1..] + b;
      LineValuesConcat(a[1..], b, pat);
    }
  }

  /** A value is found exactly when some line gives it. */
  lemma {:induction false} LineValuesMembers(lines: seq<string>, pat: Matcher, v: string)
    ensures v in LineValues(lines, pat) <==> exists i | 0 <= i < |lines| :: ExtractInlineValue(lines[i], pat) == Some(v)
    decreases |lines|
  {
    if |lines| > 0 {
      LineValuesMembers(lines[1..], pat, v);
      assert forall i | 1 <= i < |lines| :: lines[1..][i - 1] == lines[i];
      if (exists i | 0 <= i < |lines| :: ExtractInlineValue(lines[i], pat) == Some(v)) && ExtractInlineValue(lines[0], pat) != Some(v) {
        var i :| 0 <= i < |lines| && ExtractInlineValue(lines[i], pat) == Some(v);
        assert lines[1..][i - 1] == lines[i];
      }
    }
  }

  lemma LineValuesOne(ln: string, pat: Matcher)
    ensures LineValues([ln], pat) == ValueOfLine(ln, pat)
  {
    assert [ln][1..] == [];
  }

  lemma LineValuesSnoc(lines: seq<string>, i: nat, pat: Matcher)
    requires i < |lines|
    ensures LineValues(lines[..i + 1], pat) == LineValues(lines[..i], pat) + ValueOfLine(lines[i], pat)
  {
    var a, b := lines[..i], [lines[i]];
    assert lines[..i + 1] == a + b;
    LineValuesConcat(a, b, pat);
    assert LineValues(lines[..i + 1], pat) == LineValues(a, pat) + LineValues(b, pat);
    LineValuesOne(lines[i], pat);
  }

  /** `extract_inline_separate_values`: every line's value, in order. */
  method ExtractInlineSeparateValues(lines: seq<string>, pat: Matcher) returns (out: seq<string>)
    ensures out == LineValues(lines, pat)
  {
    out := [];
    for i := 0 to |lines|
      invariant out == LineValues(lines[..i], pat)
    {
      LineValuesSnoc(lines, i, pat);
      var v := ExtractInlineValue(lines[i], pat);
      if v.Some? {
        out := out + [v.value];
      }
    }
    assert lines[..|lines|] == lines;
  }

  /** The value of the first line that gives one. */
  function FirstLineValue(lines: seq<string>, pat: Matcher): (r: Option<string>)
    ensures r.None? <==> forall i | 0 <= i < |lines| :: ExtractInlineValue(lines[i], pat).None?
  {
    if |lines| == 0 then None
    else match ExtractInlineValue(lines[0], pat)
      case Some(v) => Some(v)
      case None =>
        assert forall i | 1 <= i < |lines| :: lines[1..][i - 1] == lines[i];
        FirstLineValue(lines[1..], pat)
  }

  /** The line-by-line search returns the first of the separate values. */
  lemma {:induction false} FirstLineValueIsFirst(lines: seq<string>, pat: Matcher)
    ensures FirstLineValue(lines, pat) ==
      (if LineValues(lines, pat) == [] then None else Some(LineValues(lines, pat)[0]))
    decreases |lines|
  {
    if |lines| > 0 && ExtractInlineValue(lines[0], pat).None? {
      FirstLineValueIsFirst(lines[1..], pat);
    }
  }

  /** `extract_inline_value_from_lines`. */
  method ExtractInlineValueFromLines(lines: seq<string>, pat: Matcher) returns (r: Option<string>)
    ensures r == FirstLineValue(lines, pat)
  {
    for i := 0 to |lines|
      invariant FirstLineValue(lines[i..], pat) == FirstLineValue(lines, pat)
    {
      assert lines[i..][1..] == lines[i + 1..];
      var v := ExtractInlineValue(lines[i], pat);
      if v.Some? {
        return v;
      }
    }
    return None;
  }

  // ---------------------------------------------------------------------
  // Next-line values
  // ---------------------------------------------------------------------

  /** What `extract_nextline_value(lines, label_pattern)` returns: the first
      label line's next non-empty line, markdown stripped. This is the later
      `nextline_value` normalised; it can be "" for a line made of decoration
      alone, which the later version returns as it is. */
  function ExtractNextlineValueOf(lines: seq<string>, pat: Matcher): (r: Option<string>)
    ensures LabelScan.FirstLabel(lines, pat, 0).None? ==> r == None
    ensures r == (match LabelScan.NextlineValue(lines, pat)
      case Some(v) => Some(OcrText.NormalizeOcrLine(v))
      case None => None)
  {
    match LabelScan.FirstLabel(lines, pat, 0)
    case None => None
    case Some(hit) =>
      match NextNonEmptyOf(lines, hit.0)
      case None => None
      case Some(v) => StripFilter(v); Some(StripMarkdown(v))
  }

  /** `extract_nextline_value`. */
  method ExtractNextlineValue(lines: seq<string>, pat: Matcher) returns (r: Option<string>)
    ensures r == ExtractNextlineValueOf(lines, pat)
  {
    for i := 0 to |lines|
      invariant LabelScan.FirstLabelFrom(lines, pat, i) == LabelScan.FirstLabel(lines, pat, 0)
    {
      if pat(lines[i]).Some? {
        var v := NextNonEmpty(lines, i);
        if v.Some? {
          return Some(StripMarkdown(v.value));
        }
        return None;
      }
    }
    return None;
  }

  /** What `extract_nextline_value_guarded` returns. Only the first label
      line is looked at: its next-line value, unless some stop pattern
      matches it. */
  function ExtractNextlineValueGuardedOf(lines: seq<string>, pat: Matcher, stops: seq<Matcher>): (r: Option<string>)
    ensures r.Some? ==> !AnyMatches(stops, r.value)
    ensures var u := ExtractNextlineValueOf(lines, pat);
      r == (if u.Some? && !AnyMatches(stops, u.value) then u else None)
  {
    match LabelScan.FirstLabel(lines, pat, 0)
    case None => None
    case Some(hit) =>
      match NextNonEmptyOf(lines, hit.0)
      case None => None
      case Some(v) =>
        var w := StripMarkdown(v);
        if AnyMatches(stops, w) then None else Some(w)
  }

  /** A blocking stop pattern is final: a later label line with an
      acceptable next line is not tried. */
  lemma GuardedFirstLabelOnly(lines: seq<string>, pat: Matcher, stops: seq<Matcher>, i: nat)
    requires LabelScan.FirstLabel(lines, pat, 0).Some? && LabelScan.FirstLabel(lines, pat, 0).value.0 == i
    requires NextNonEmptyOf(lines, i).Some? && AnyMatches(stops, StripMarkdown(NextNonEmptyOf(lines, i).value))
    ensures ExtractNextlineValueGuardedOf(lines, pat, stops) == None
  {
  }

  /** The `for p in stop_label_patterns` loop: does some stop pattern match? */
  method AnyStopMatches(stops: seq<Matcher>, w: string) returns (b: bool)
    ensures b == AnyMatches(stops, w)
  {
    for k := 0 to |stops|
      invariant forall j | 0 <= j < k :: stops[j](w).None?
    {
      if stops[k](w).Some? {
        return true;
      }
    }
    return false;
  }

  /** `extract_nextline_value_guarded`. */
  method ExtractNextlineValueGuarded(lines: seq<string>, pat: Matcher, stops: seq<Matcher>) returns (r: Option<string>)
    ensures r == ExtractNextlineValueGuardedOf(lines, pat, stops)
  {
    for i := 0 to |lines|
      invariant LabelScan.FirstLabelFrom(lines, pat, i) == LabelScan.FirstLabel(lines, pat, 0)
    {
      if pat(lines[i]).Some? {
        var v := NextNonEmpty(lines, i);
        if v.None? {
          return None;
        }
        var w := StripMarkdown(v.value);
        var stopped := AnyStopMatches(stops, w);
        if stopped {
          return None;
        }
        return Some(w);
      }
    }
    return None;
  }

  // ---------------------------------------------------------------------
  // Key-value pairs
  // ---------------------------------------------------------------------

  /** `choose(existing, new)` under the merge policy `prefer`: a missing or
      empty value is always replaced; "last" overwrites, "longest" keeps the
      strictly longer value, and any other policy keeps the first. */
  function Choose(prefer: string, existing: Option<string>, incoming: string): (r: string)
    ensures r == incoming || (existing.Some? && r == existing.value)
    ensures existing.None? || existing.value == "" ==> r == incoming
    ensures prefer == "longest" ==> |r| >= |incoming|
  {
    if existing.None? || existing.value == "" then incoming
    else if prefer == "last" then incoming
    else if prefer == "longest" then (if |incoming| > |existing.value| then incoming else existing.value)
    else existing.value
  }

  /** The value a key ends up with after the values `vs` were seen for it,
      in order. */
  function Merge(prefer: string, vs: seq<string>): (r: Option<string>)
    ensures r.None? <==> vs == []
  {
    if |vs| == 0 then None else Some(Choose(prefer, Merge(prefer, vs[..|vs| - 1]), vs[|vs| - 1]))
  }

  /** Non-empty values only, as the pairs of a line are. */
  predicate NonEmptyValues(vs: seq<string>)
  {
    forall i | 0 <= i < |vs| :: vs[i] != ""
  }

  /** The default policy keeps the first value. */
  lemma {:induction false} MergeFirst(prefer: string, vs: seq<string>)
    requires prefer != "last" && prefer != "longest"
    requires |vs| > 0 && NonEmptyValues(vs)
    ensures Merge(prefer, vs) == Some(vs[0])
  {
    if |vs| > 1 {
      var init := vs[..|vs| - 1];
      MergeFirst(prefer, init);
    }
  }

  /** "last" keeps the last value. */
  lemma MergeLast(vs: seq<string>)
    requires |vs| > 0
    ensures Merge("last", vs) == Some(vs[|vs| - 1])
  {
  }

  /** `vs[i]` is a longest value and no earlier value is as long. */
  predicate LongestAt(vs: seq<string>, i: nat)
    requires i < |vs|
  {
    (forall j | 0 <= j < |vs| :: |vs[j]| <= |vs[i]|) && (forall j | 0 <= j < i :: |vs[j]| < |vs[i]|)
  }

  /** "longest" keeps the earliest of the longest values. */
  lemma {:induction false} MergeLongest(vs: seq<string>)
    requires |vs| > 0 && NonEmptyValues(vs)
    ensures exists i | 0 <= i < |vs| :: LongestAt(vs, i) && Merge("longest", vs) == Some(vs[i])
  {
    if |vs| == 1 {
      assert Merge("longest", vs) == Some(vs[0]);
    } else {
      var init := vs[..|vs| - 1];
      MergeLongest(init);
      var i :| 0 <= i < |init| && LongestAt(init, i) && Merge("longest", init) == Some(init[i]);
      var last := |vs| - 1;
      if |vs[last]| > |vs[i]| {
        assert LongestAt(vs, last) && Merge("longest", vs) == Some(vs[last]);
      } else {
        assert LongestAt(vs, i) && Merge("longest", vs) == Some(vs[i]);
      }
    }
  }

  /** `normalize_line_for_kv`, which `extract_kv_pairs_from_line` and
      `split_birth_date_and_place` call, is defined nowhere. */
  const UNDEFINED_KV: PyError := NameError("normalize_line_for_kv")

  /** `extract_kv_pairs_from_line`: its first statement calls the undefined
      `normalize_line_for_kv`, so every call raises NameError. */
  function ExtractKvPairsFromLine(line: string, anchor: Matcher): (r: Result<seq<(string, string)>>)
    ensures r == Raise(UNDEFINED_KV)
  {
    Raise(UNDEFINED_KV)
  }

  /** `extract_kv_pairs_from_lines`: the merge loop calls
      `extract_kv_pairs_from_line` on each line in turn, so it returns the
      empty dictionary for no lines and raises on the first line otherwise. */
  function ExtractKvPairsFromLines(lines: seq<string>, anchor: Matcher, prefer: string): (r: Result<map<string, string>>)
    ensures r.Ok? <==> lines == []
    ensures r.Ok? ==> r.value == map[]
    ensures r.Raise? ==> r.error == UNDEFINED_KV
  {
    if |lines| == 0 then Ok(map[])
    else Raise(ExtractKvPairsFromLine(lines[0], anchor).error)
  }

  /** `split_birth_date_and_place`: (None, None) for a missing or empty value;
      any other value reaches the undefined `normalize_line_for_kv` and
      raises NameError. */
  function SplitBirthDateAndPlace(raw3: Option<string>): (r: Result<(Option<string>, Option<string>)>)
    ensures r.Ok? <==> raw3.None? || raw3.value == ""
    ensures r.Ok? ==> r.value == (None, None)
    ensures r.Raise? ==> r.error == UNDEFINED_KV
  {
    if raw3.None? || raw3.value == "" then Ok((None, None))
    else Raise(UNDEFINED_KV)
  }
}
