/** `core/utils/extract.py`: the document-agnostic label-scanning primitives
    every extractor is built from, and the extraction strategy
    `extract_from_label` (same-line value, then forward scan, then a
    whole-text fallback). Compiled patterns are `Matcher`s. */
module LabelScan {
  import opened Base
  import opened Chars
  import opened PyStr
  import opened Regex
  import opened OcrText

  // ---------------------------------------------------------------------
  // norm_lines
  // ---------------------------------------------------------------------

  /** The non-empty images of some lines under `f`, in order. */
  function KeepNonEmpty(ls: seq<string>, f: string -> string): seq<string>
  {
    if |ls| == 0 then []
    else KeepNonEmpty(ls[..|ls| - 1], f) + (if f(ls[|ls| - 1]) != "" then [f(ls[|ls| - 1])] else [])
  }

  /** Non-empty lines that `f` leaves alone are all kept, unchanged. */
  lemma {:induction false} KeepNonEmptyFixed(ls: seq<string>, f: string -> string)
    requires forall i | 0 <= i < |ls| :: ls[i] != "" && f(ls[i]) == ls[i]
    ensures KeepNonEmpty(ls, f) == ls
    decreases |ls|
  {
    if |ls| > 0 {
      var init := ls[..|ls| - 1];
      assert forall i | 0 <= i < |init| :: init[i] == ls[i];
      KeepNonEmptyFixed(init, f);
      assert ls == init + [ls[|ls| - 1]];
    }
  }

  /** One line of `norm_lines`: normalised, then stripped unless empty. */
  function NormOne(ln: string): string
  {
    var n := NormalizeOcrLine(ln);
    if n == "" then "" else Strip(n)
  }

  /** Lines that are already clean pass through unchanged. */
  lemma NormKeptOfClean(ls: seq<string>)
    requires forall i | 0 <= i < |ls| :: CleanLine(ls[i])
    ensures KeepNonEmpty(ls, NormOne) == ls
  {
    forall i | 0 <= i < |ls| ensures ls[i] != "" && NormOne(ls[i]) == ls[i] {
      CleanLineFixed(ls[i]);
    }
    KeepNonEmptyFixed(ls, NormOne);
  }

  /** What `norm_lines(text)` returns: it adds nothing to `split_lines`, its
      lines are exactly the split lines, in the same order. */
  function NormLinesOf(text: string): (r: seq<string>)
    ensures r == SplitLinesOf(text)
    ensures forall i | 0 <= i < |r| :: CleanLine(r[i])
  {
    NormKeptOfClean(SplitLinesOf(text));
    KeepNonEmpty(SplitLinesOf(text), NormOne)
  }

  /** The lines of a text followed by a line break and more text are the lines
      of the first part followed by those of the rest: order is kept. */
  lemma {:induction false} KeptLinesConcat(a: seq<string>, b: seq<string>)
    ensures KeptLines(a + b) == KeptLines(a) + KeptLines(b)
    decreases |b|
  {
    if |b| > 0 {
      assert (a + b)[..|a + b| - 1] == a + b[..|b| - 1];
      KeptLinesConcat(a, b[..|b| - 1]);
    } else {
      assert a + b == a;
    }
  }

  /** The loop of `norm_lines` over the split lines. */
  method NormEach(split: seq<string>) returns (out: seq<string>)
    ensures out == KeepNonEmpty(split, NormOne)
  {
    out := [];
    for k := 0 to |split|
      invariant out == KeepNonEmpty(split[..k], NormOne)
    {
      assert split[..k + 1][..k] == split[..k];
      var ln2 := NormalizeOcrLine(split[k]);
      if ln2 == "" {
        continue;
      }
      ln2 := Strip(ln2);
      if ln2 != "" {
        out := out + [ln2];
      }
    }
    assert split[..|split|] == split;
  }

  /** `norm_lines`. */
  method NormLines(text: string) returns (out: seq<string>)
    ensures out == NormLinesOf(text)
  {
    var split := SplitLines(text);
    out := NormEach(split);
  }

  // ---------------------------------------------------------------------
  // Label finding
  // ---------------------------------------------------------------------

  function Max0(start: int): nat
  {
    if start < 0 then 0 else start
  }

  /** The first line at or after `from` that `label` matches, with its match. */
  function FirstLabelFrom(lines: seq<string>, pat: Matcher, from: nat): (r: Option<(nat, Hit)>)
    ensures r.Some? ==> from <= r.value.0 < |lines| && pat(lines[r.value.0]) == Some(r.value.1)
    ensures r.Some? ==> forall j | from <= j < r.value.0 :: pat(lines[j]).None?
    ensures r.None? <==> forall j | from <= j < |lines| :: pat(lines[j]).None?
    decreases |lines| - from
  {
    if from >= |lines| then None
    else match pat(lines[from])
      case Some(m) => Some((from, m))
      case None => FirstLabelFrom(lines, pat, from + 1)
  }

  /** What `find_first_label(lines, label_re, start)` returns: the least index
      `i >= max(0, start)` whose line matches, and the match. */
  function FirstLabel(lines: seq<string>, pat: Matcher, start: int): (r: Option<(nat, Hit)>)
    ensures r.Some? ==> Max0(start) <= r.value.0 < |lines| && pat(lines[r.value.0]) == Some(r.value.1)
    ensures r.Some? ==> forall j | Max0(start) <= j < r.value.0 :: pat(lines[j]).None?
    ensures r.None? <==> forall j | Max0(start) <= j < |lines| :: pat(lines[j]).None?
  {
    FirstLabelFrom(lines, pat, Max0(start))
  }

  /** `find_first_label`. */
  method FindFirstLabel(lines: seq<string>, pat: Matcher, start: int) returns (r: Option<(nat, Hit)>)
    ensures r == FirstLabel(lines, pat, start)
  {
    if Max0(start) >= |lines| {
      return None;
    }
    for i := Max0(start) to |lines|
      invariant FirstLabelFrom(lines, pat, Max0(start)) == FirstLabelFrom(lines, pat, i)
    {
      var m := pat(lines[i]);
      if m.Some? {
        return Some((i, m.value));
      }
    }
    return None;
  }

  /** `find_label_idx`: the index of the first matching line at or after
      `max(0, start)`. */
  function LabelIdx(lines: seq<string>, pat: Matcher, start: int): (r: Option<nat>)
    ensures r.Some? ==> Max0(start) <= r.value < |lines| && pat(lines[r.value]).Some?
    ensures r.Some? ==> forall j | Max0(start) <= j < r.value :: pat(lines[j]).None?
    ensures r.None? <==> forall j | Max0(start) <= j < |lines| :: pat(lines[j]).None?
  {
    match FirstLabel(lines, pat, start)
    case Some(hit) => Some(hit.0)
    case None => None
  }

  // ---------------------------------------------------------------------
  // Value slicing
  // ---------------------------------------------------------------------

  /** The separators `value_after_match` trims by default. */
  const PREFIX_CHARS: string := ":. "

  /** `r` occurs in `t` at position `a`. */
  predicate InfixAt(r: string, t: string, a: nat)
  {
    a + |r| <= |t| && forall i | 0 <= i < |r| :: t[a + i] == r[i]
  }

  lemma InfixTrans(r: string, t: string, u: string, a: nat, b: nat)
    requires InfixAt(r, t, a) && InfixAt(t, u, b)
    ensures InfixAt(r, u, b + a)
  {
    forall i | 0 <= i < |r| ensures u[b + a + i] == r[i] {
      assert r[i] == t[a + i] == u[b + (a + i)];
    }
  }

  /** `strip()` leaves a piece of its input. */
  lemma StripInfix(s: string)
    ensures InfixAt(Strip(s), s, |s| - |LStrip(s)|)
  {
    var l := LStrip(s);
    LStripSuffix(s);
    RStripPrefix(l);
    assert InfixAt(l, s, |s| - |l|);
    assert InfixAt(Strip(s), l, 0);
    InfixTrans(Strip(s), l, s, 0, |s| - |l|);
  }

  /** The loop of `value_after_match`: while the text starts with a separator,
      drop it and the whitespace after it. */
  function DropSeps(t: string, chars: string): (r: string)
    ensures |r| <= |t|
    ensures r == "" || r[0] !in chars
    decreases |t|
  {
    if t != "" && t[0] in chars then DropSeps(LStrip(t[1..]), chars) else t
  }

  /** Dropping the first character and the whitespace after it leaves a
      suffix. */
  lemma LStripTailInfix(t: string)
    requires t != ""
    ensures InfixAt(LStrip(t[1..]), t, |t| - |LStrip(t[1..])|)
  {
    var l := LStrip(t[1..]);
    LStripSuffix(t[1..]);
    assert InfixAt(l, t[1..], |t| - 1 - |l|);
    assert InfixAt(t[1..], t, 1);
    InfixTrans(l, t[1..], t, |t| - 1 - |l|, 1);
  }

  /** `DropSeps` only cuts a prefix. */
  lemma {:induction false} DropSepsSuffix(t: string, chars: string)
    ensures InfixAt(DropSeps(t, chars), t, |t| - |DropSeps(t, chars)|)
    decreases |t|
  {
    if t != "" && t[0] in chars {
      var l := LStrip(t[1..]);
      DropSepsSuffix(l, chars);
      LStripTailInfix(t);
      InfixTrans(DropSeps(l, chars), l, t, |l| - |DropSeps(l, chars)|, |t| - |l|);
    } else {
      assert forall i | 0 <= i < |t| :: t[0 + i] == t[i];
    }
  }

  /** Stripping and dropping the separators leaves a piece of the text. */
  lemma DropInfix(t: string, chars: string)
    ensures InfixAt(DropSeps(Strip(t), chars), t, (|t| - |LStrip(t)|) + (|Strip(t)| - |DropSeps(Strip(t), chars)|))
  {
    var t1 := Strip(t);
    StripInfix(t);
    DropSepsSuffix(t1, chars);
    InfixTrans(DropSeps(t1, chars), t1, t, |t1| - |DropSeps(t1, chars)|, |t| - |LStrip(t)|);
  }

  /** The value `value_after_match` returns is a piece of the text after the
      match. */
  lemma ValueInfix(t: string, chars: string)
    ensures exists a :: InfixAt(Strip(DropSeps(Strip(t), chars)), t, a)
  {
    var t2 := DropSeps(Strip(t), chars);
    var o := (|t| - |LStrip(t)|) + (|Strip(t)| - |t2|);
    var a2 := |t2| - |LStrip(t2)|;
    DropInfix(t, chars);
    assert InfixAt(t2, t, o);
    StripInfix(t2);
    InfixTrans(Strip(t2), t2, t, a2, o);
    assert InfixAt(Strip(t2), t, o + a2);
  }

  /** What `value_after_match(line, m, strip_prefix_chars=chars)` returns. */
  function ValueAfterMatchOf(line: string, m: Hit, chars: string): (r: string)
    ensures Trimmed(r)
    ensures exists a :: InfixAt(r, Tail(line, m.end), a)
  {
    ValueInfix(Tail(line, m.end), chars);
    Strip(DropSeps(Strip(Tail(line, m.end)), chars))
  }

  /** Stripping text that starts with no whitespace keeps its first character. */
  lemma StripKeepsHead(t: string)
    requires t != "" && !IsSpace(t[0]) && Strip(t) != ""
    ensures Strip(t)[0] == t[0]
  {
    LStripNoLead(t);
    RStripPrefix(t);
  }

  /** With the default separators the value starts with neither ':', '.' nor
      whitespace. */
  lemma ValueAfterMatchStart(line: string, m: Hit)
    ensures var r := ValueAfterMatchOf(line, m, PREFIX_CHARS);
      r == "" || (r[0] != ':' && r[0] != '.' && !IsSpace(r[0]))
  {
    var t1 := Strip(Tail(line, m.end));
    var t2 := DropSeps(t1, PREFIX_CHARS);
    DropSepsLead(t1, PREFIX_CHARS);
    if Strip(t2) != "" {
      StripKeepsHead(t2);
    }
  }

  /** What `DropSeps` leaves of a text with no leading whitespace starts with
      no whitespace either. */
  lemma {:induction false} DropSepsLead(t: string, chars: string)
    requires t == "" || !IsSpace(t[0])
    ensures var r := DropSeps(t, chars); r == "" || !IsSpace(r[0])
    decreases |t|
  {
    if t != "" && t[0] in chars {
      DropSepsLead(LStrip(t[1..]), chars);
    }
  }

  /** `value_after_match`. */
  method ValueAfterMatch(line: string, m: Hit, chars: string) returns (r: string)
    ensures r == ValueAfterMatchOf(line, m, chars)
  {
    var tail := Strip(Tail(line, m.end));
    while tail != "" && tail[0] in chars
      invariant DropSeps(tail, chars) == DropSeps(Strip(Tail(line, m.end)), chars)
      decreases |tail|
    {
      tail := LStrip(tail[1..]);
    }
    r := Strip(tail);
  }

  /** What `value_after_colon(line, start_pos=start)` returns: the normalised
      text after the first ':' at or after `start`, None when there is none or
      it is empty. */
  function ValueAfterColon(line: string, start: nat): (r: Option<string>)
    ensures line == "" || FindFrom(line, ":", start) == -1 ==> r == None
    ensures r.Some? ==> r.value != "" && Collapsed(r.value)
    ensures r.Some? ==> r.value == NormalizeOcrLine(line[FindFrom(line, ":", start) + 1..])
  {
    if line == "" then None
    else
      var pos := FindFrom(line, ":", start);
      if pos == -1 then None
      else
        var v := NormalizeOcrLine(line[pos + 1..]);
        StripOfCollapsed(v);
        var v' := if v != "" then Strip(v) else "";
        OrNone(v')
  }

  /** The earliest start of a match of any of `pats`, or `cut` when it is
      smaller; `cut_at_next_label` starts with `cut = len(remainder)`. */
  function MinStart(pats: seq<Matcher>, s: string, cut: nat): (c: nat)
    ensures c <= cut
    ensures forall k | 0 <= k < |pats| && pats[k](s).Some? :: c <= pats[k](s).value.start
    ensures c == cut || exists k | 0 <= k < |pats| :: pats[k](s).Some? && c == pats[k](s).value.start
    decreases |pats|
  {
    if |pats| == 0 then cut
    else
      var last := pats[|pats| - 1];
      var c0 := MinStart(pats[..|pats| - 1], s, cut);
      assert forall k | 0 <= k < |pats| - 1 :: pats[..|pats| - 1][k] == pats[k];
      match last(s)
      case Some(ms) => if ms.start < c0 then ms.start else c0
      case None => c0
  }

  /** What `cut_at_next_label(remainder, stop_label_pats)` returns. */
  function CutAtNextLabelOf(remainder: string, stops: seq<Matcher>): string
  {
    if remainder == "" then "" else Strip(remainder[..MinStart(stops, remainder, |remainder|)])
  }

  /** The cut is at the earliest start of any stop-label match, and without
      one the result is the stripped remainder. */
  lemma CutAtNextLabelSpec(remainder: string, stops: seq<Matcher>)
    ensures remainder == "" ==> CutAtNextLabelOf(remainder, stops) == ""
    ensures remainder != "" ==> exists c | 0 <= c <= |remainder| ::
      CutAtNextLabelOf(remainder, stops) == Strip(remainder[..c]) &&
      (forall k | 0 <= k < |stops| && stops[k](remainder).Some? :: c <= stops[k](remainder).value.start) &&
      (c == |remainder| || exists k | 0 <= k < |stops| :: stops[k](remainder).Some? && c == stops[k](remainder).value.start)
    ensures (forall k | 0 <= k < |stops| :: stops[k](remainder).None?) ==>
      CutAtNextLabelOf(remainder, stops) == Strip(remainder)
  {
    if remainder != "" {
      var c := MinStart(stops, remainder, |remainder|);
      assert CutAtNextLabelOf(remainder, stops) == Strip(remainder[..c]);
      if forall k | 0 <= k < |stops| :: stops[k](remainder).None? {
        assert c == |remainder|;
        assert remainder[..c] == remainder;
      }
    }
  }

  /** `cut_at_next_label`. */
  method CutAtNextLabel(remainder: string, stops: seq<Matcher>) returns (r: string)
    ensures r == CutAtNextLabelOf(remainder, stops)
  {
    if remainder == "" {
      return "";
    }
    var cut := |remainder|;
    for k := 0 to |stops|
      invariant cut == MinStart(stops[..k], remainder, |remainder|)
    {
      assert stops[..k + 1][..k] == stops[..k];
      var ms := stops[k](remainder);
      if ms.Some? {
        cut := if cut < ms.value.start then cut else ms.value.start;
      }
    }
    assert stops[..|stops|] == stops;
    r := Strip(remainder[..cut]);
  }

  // ---------------------------------------------------------------------
  // Stop labels, next-line reads and the forward scan
  // ---------------------------------------------------------------------

  /** `is_stop_label`: some stop pattern matches the line. */
  predicate IsStopLabel(line: string, stops: seq<Matcher>)
  {
    AnyMatches(stops, line)
  }

  /** `nextline_value`: the first non-blank line after the first label line. */
  function NextlineValue(lines: seq<string>, pat: Matcher): (r: Option<string>)
    ensures FirstLabel(lines, pat, 0).None? ==> r == None
    ensures r.Some? ==> var i := FirstLabel(lines, pat, 0).value.0;
      FirstNonBlank(lines, i + 1).Some? && r.value == Strip(lines[FirstNonBlank(lines, i + 1).value])
    ensures r.Some? ==> r.value != "" && Trimmed(r.value)
  {
    match FirstLabel(lines, pat, 0)
    case None => None
    case Some(hit) => NextNonEmptyOf(lines, hit.0)
  }

  /** The line right after the label line, if there is one. */
  function LineAfter(lines: seq<string>, hit: Option<(nat, Hit)>): (r: Option<string>)
  {
    match hit
    case None => None
    case Some(h) => if h.0 + 1 < |lines| then Some(lines[h.0 + 1]) else None
  }

  /** On normalised lines (none blank, each its own strip) the next
      non-empty line after the label is simply the following line. */
  lemma NextlineOfClean(lines: seq<string>, pat: Matcher)
    requires forall i | 0 <= i < |lines| :: CleanLine(lines[i])
    ensures NextlineValue(lines, pat) == LineAfter(lines, FirstLabel(lines, pat, 0))
  {
    match FirstLabel(lines, pat, 0)
    case None =>
    case Some(h) =>
      if h.0 + 1 < |lines| {
        var k := h.0 + 1;
        CleanLineFixed(lines[k]);
        assert !IsSpace(lines[k][0]);
        assert FirstNonBlank(lines, k) == Some(k);
      }
  }

  /** `GuardedNextlineResult`. */
  datatype Guarded = Guarded(value: Option<string>, foundLabel: bool, blockedByStop: bool)

  /** `nextline_value_guarded`: like `nextline_value`, but a next line that
      is itself a stop label is refused, and the result says why a value is
      missing. */
  function NextlineValueGuarded(lines: seq<string>, pat: Matcher, stops: seq<Matcher>): (g: Guarded)
    ensures g.value.Some? ==> g.foundLabel && !g.blockedByStop && !IsStopLabel(g.value.value, stops)
    ensures !g.foundLabel ==> g.value == None && !g.blockedByStop
    ensures g.blockedByStop ==> g.foundLabel && g.value == None
    ensures g.foundLabel <==> FirstLabel(lines, pat, 0).Some?
    ensures g.value.Some? ==> Some(g.value.value) == NextlineValue(lines, pat)
    ensures g.foundLabel && !g.blockedByStop ==> g.value == NextlineValue(lines, pat)
  {
    match FirstLabel(lines, pat, 0)
    case None => Guarded(None, false, false)
    case Some(hit) =>
      var v := NextNonEmptyOf(lines, hit.0);
      if v.None? || v.value == "" then Guarded(None, true, false)
      else if IsStopLabel(v.value, stops) then Guarded(None, true, true)
      else Guarded(v, true, false)
  }

  /** The end of the `scan_forward` window. */
  function ScanEnd(n: nat, startIdx: nat, maxLines: Option<nat>): (e: nat)
    ensures e <= n
  {
    match maxLines
    case None => n
    case Some(k) => if n < startIdx + 1 + k then n else startIdx + 1 + k
  }

  /** The line the loop of `scan_forward` settles on from position `j` on:
      blank lines are passed over, a stop line ends the scan with None, a
      skipped line is passed over, and the first accepted line is the result. */
  function ScanFrom(lines: seq<string>, j: nat, end: nat, stop: string -> bool,
                    skip: Option<string -> bool>, accept: Option<string -> bool>): (r: Option<nat>)
    requires end <= |lines|
    ensures r.Some? ==> j <= r.value < end
    decreases end - j
  {
    if j >= end then None
    else
      var cur := Strip(lines[j]);
      if cur == "" then ScanFrom(lines, j + 1, end, stop, skip, accept)
      else if stop(cur) then None
      else if skip.Some? && skip.value(cur) then ScanFrom(lines, j + 1, end, stop, skip, accept)
      else if accept.None? || accept.value(cur) then Some(j)
      else ScanFrom(lines, j + 1, end, stop, skip, accept)
  }

  /** The line the scan settles on is non-blank, not a stop line, not skipped
      and accepted. */
  lemma {:induction false} ScanFromAccepted(lines: seq<string>, j: nat, end: nat, stop: string -> bool,
                                            skip: Option<string -> bool>, accept: Option<string -> bool>)
    requires end <= |lines|
    ensures var r := ScanFrom(lines, j, end, stop, skip, accept);
      r.Some? ==> var cur := Strip(lines[r.value]);
        cur != "" && !stop(cur) && (skip.None? || !skip.value(cur)) && (accept.None? || accept.value(cur))
    decreases end - j
  {
    if j < end {
      ScanFromAccepted(lines, j + 1, end, stop, skip, accept);
    }
  }

  /** What `scan_forward(lines, start_idx, ...)` returns: a line of the window
      `[start_idx + 1, min(len(lines), start_idx + 1 + max_lines))`, stripped,
      non-blank, not a stop line, not skipped and accepted. */
  function ScanForwardOf(lines: seq<string>, startIdx: nat, stop: string -> bool,
                         skip: Option<string -> bool>, accept: Option<string -> bool>,
                         maxLines: Option<nat>): (r: Option<string>)
    ensures r.Some? ==> r.value != "" && !stop(r.value)
    ensures r.Some? ==> (skip.None? || !skip.value(r.value)) && (accept.None? || accept.value(r.value))
  {
    ScanFromAccepted(lines, startIdx + 1, ScanEnd(|lines|, startIdx, maxLines), stop, skip, accept);
    match ScanFrom(lines, startIdx + 1, ScanEnd(|lines|, startIdx, maxLines), stop, skip, accept)
    case Some(k) => Some(Strip(lines[k]))
    case None => None
  }

  /** The scanned line lies strictly after `start_idx` and inside the window. */
  lemma ScanForwardWindow(lines: seq<string>, startIdx: nat, stop: string -> bool,
                          skip: Option<string -> bool>, accept: Option<string -> bool>,
                          maxLines: Option<nat>)
    ensures var k := ScanFrom(lines, startIdx + 1, ScanEnd(|lines|, startIdx, maxLines), stop, skip, accept);
      k.Some? ==> (startIdx < k.value < |lines| && (maxLines.Some? ==> k.value <= startIdx + maxLines.value) &&
        ScanForwardOf(lines, startIdx, stop, skip, accept, maxLines) == Some(Strip(lines[k.value])))
  {
  }

  /** Every line the scan passes over before the line it settles on is
      blank, or is no stop line and is skipped or not accepted. */
  lemma {:induction false} ScanFromPassed(lines: seq<string>, j: nat, end: nat, stop: string -> bool,
                                          skip: Option<string -> bool>, accept: Option<string -> bool>)
    requires end <= |lines|
    ensures var r := ScanFrom(lines, j, end, stop, skip, accept);
      r.Some? ==> forall i | j <= i < r.value ::
        Strip(lines[i]) == "" ||
        (!stop(Strip(lines[i])) && ((skip.Some? && skip.value(Strip(lines[i]))) || (accept.Some? && !accept.value(Strip(lines[i])))))
    decreases end - j
  {
    if j < end {
      ScanFromPassed(lines, j + 1, end, stop, skip, accept);
    }
  }

  /** A line the scan could settle on, with no stop line before it, is
      reached: the scan settles on it or on an earlier line. */
  lemma {:induction false} ScanFromReaches(lines: seq<string>, j: nat, end: nat, k: nat, stop: string -> bool,
                                           skip: Option<string -> bool>, accept: Option<string -> bool>)
    requires end <= |lines| && j <= k < end
    requires Strip(lines[k]) != "" && !stop(Strip(lines[k]))
    requires (skip.None? || !skip.value(Strip(lines[k]))) && (accept.None? || accept.value(Strip(lines[k])))
    requires forall i | j <= i < k :: Strip(lines[i]) == "" || !stop(Strip(lines[i]))
    ensures ScanFrom(lines, j, end, stop, skip, accept).Some?
    ensures ScanFrom(lines, j, end, stop, skip, accept).value <= k
    decreases k - j
  {
    if j < k {
      ScanFromReaches(lines, j + 1, end, k, stop, skip, accept);
    }
  }

  /** The scan depends on its predicates only through their values. */
  lemma {:induction false} ScanFromCongruent(lines: seq<string>, j: nat, end: nat, stop: string -> bool, stop': string -> bool,
                                             skip: Option<string -> bool>, accept: Option<string -> bool>, accept': Option<string -> bool>)
    requires end <= |lines|
    requires forall x :: stop(x) == stop'(x)
    requires accept.Some? == accept'.Some? && (accept.Some? ==> forall x :: accept.value(x) == accept'.value(x))
    ensures ScanFrom(lines, j, end, stop, skip, accept) == ScanFrom(lines, j, end, stop', skip, accept')
    decreases end - j
  {
    if j < end {
      ScanFromCongruent(lines, j + 1, end, stop, stop', skip, accept, accept');
    }
  }

  /** On lines that are never blank and are their own strip, a scan with an
      accept predicate settles on the first accepted line of its window, no
      stop line standing before it. */
  lemma ScanAcceptOfClean(lines: seq<string>, start: nat, maxLines: nat, stop: string -> bool, accept: string -> bool)
    requires forall i | 0 <= i < |lines| :: Strip(lines[i]) == lines[i] && lines[i] != ""
    ensures var v := ScanForwardOf(lines, start, stop, None, Some(accept), Some(maxLines));
      v.Some? ==> exists k | start < k < |lines| && k <= start + maxLines ::
        v.value == lines[k] && accept(lines[k]) && !stop(lines[k]) &&
        forall j | start < j < k :: !stop(lines[j]) && !accept(lines[j])
  {
    var end := ScanEnd(|lines|, start, Some(maxLines));
    ScanFromAccepted(lines, start + 1, end, stop, None, Some(accept));
    ScanFromPassed(lines, start + 1, end, stop, None, Some(accept));
    ScanForwardWindow(lines, start, stop, None, Some(accept), Some(maxLines));
  }

  /** On such lines an accepted line of the window with no stop line up to
      it is always found. */
  lemma ScanAcceptReaches(lines: seq<string>, start: nat, maxLines: nat, stop: string -> bool, accept: string -> bool, k: nat)
    requires forall i | 0 <= i < |lines| :: Strip(lines[i]) == lines[i] && lines[i] != ""
    requires start < k < |lines| && k <= start + maxLines && accept(lines[k])
    requires forall j | start < j <= k :: !stop(lines[j])
    ensures ScanForwardOf(lines, start, stop, None, Some(accept), Some(maxLines)).Some?
  {
    var end := ScanEnd(|lines|, start, Some(maxLines));
    ScanFromReaches(lines, start + 1, end, k, stop, None, Some(accept));
  }

  /** `scan_forward`. */
  method ScanForward(lines: seq<string>, startIdx: nat, stop: string -> bool,
                     skip: Option<string -> bool>, accept: Option<string -> bool>,
                     maxLines: Option<nat>) returns (r: Option<string>)
    ensures r == ScanForwardOf(lines, startIdx, stop, skip, accept, maxLines)
  {
    var end := ScanEnd(|lines|, startIdx, maxLines);
    var j := startIdx + 1;
    while j < end
      invariant ScanFrom(lines, j, end, stop, skip, accept) == ScanFrom(lines, startIdx + 1, end, stop, skip, accept)
      decreases end - j
    {
      var cur := Strip(lines[j]);
      if cur == "" {
        j := j + 1;
        continue;
      }
      if stop(cur) {
        return None;
      }
      if skip.Some? && skip.value(cur) {
        j := j + 1;
        continue;
      }
      if accept.None? || accept.value(cur) {
        return Some(cur);
      }
      j := j + 1;
    }
    return None;
  }

  /** Only the lines of the window are read: lines past its end do not
      change the result. */
  lemma {:induction false} ScanFromWindow(lines: seq<string>, j: nat, end: nat, stop: string -> bool,
                                          skip: Option<string -> bool>, accept: Option<string -> bool>)
    requires end <= |lines|
    ensures ScanFrom(lines, j, end, stop, skip, accept) == ScanFrom(lines[..end], j, end, stop, skip, accept)
    decreases end - j
  {
    if j < end {
      assert lines[..end][j] == lines[j];
      ScanFromWindow(lines, j + 1, end, stop, skip, accept);
    }
  }

  /** A stop line reached before any accepted line ends the scan with None:
      if every non-blank line before `k` in the window is neither a stop line
      nor accepted (unskipped), and line `k` is a non-blank stop line, the
      result is None. */
  lemma {:induction false} ScanStopsFirst(lines: seq<string>, j: nat, end: nat, k: nat, stop: string -> bool,
                                          skip: Option<string -> bool>, accept: Option<string -> bool>)
    requires end <= |lines| && j <= k < end
    requires Strip(lines[k]) != "" && stop(Strip(lines[k]))
    requires forall i | j <= i < k && Strip(lines[i]) != "" :: (!stop(Strip(lines[i])) &&
      ((skip.Some? && skip.value(Strip(lines[i]))) || (accept.Some? && !accept.value(Strip(lines[i])))))
    ensures ScanFrom(lines, j, end, stop, skip, accept) == None
    decreases k - j
  {
    if j < k {
      ScanStopsFirst(lines, j + 1, end, k, stop, skip, accept);
    }
  }

  // ---------------------------------------------------------------------
  // Fallback and extract_from_label
  // ---------------------------------------------------------------------

  /** What `fallback_value(text, value_re)` returns: a search over the
      normalised text (the raw text when that is empty), giving group 1 when
      any group took part and the whole match otherwise, stripped, "" as None. */
  function FallbackValue(text: string, valueRe: Matcher): (r: Option<string>)
    ensures r.Some? ==> r.value != "" && Trimmed(r.value)
    ensures var s := if NormalizeOcrLine(text) != "" then NormalizeOcrLine(text) else text;
      valueRe(s).None? ==> r == None
    ensures var s := if NormalizeOcrLine(text) != "" then NormalizeOcrLine(text) else text;
      valueRe(s).Some? && LastIndex(valueRe(s).value).Some? ==> r == OrNone(Strip(Group(valueRe(s).value, 1).OrElse("")))
  {
    var s := if NormalizeOcrLine(text) != "" then NormalizeOcrLine(text) else text;
    match valueRe(s)
    case None => None
    case Some(m) =>
      if LastIndex(m).Some? then OrNone(Strip(Group(m, 1).OrElse("")))
      else OrNone(Strip(Group(m, 0).OrElse("")))
  }

  /** The keyword arguments of `extract_from_label`. */
  datatype LabelQuery = LabelQuery(
    labelRe: Matcher,
    stops: seq<Matcher>,
    valueRe: Option<Matcher>,
    validator: Option<string -> bool>,
    fallbackRe: Option<Matcher>,
    fullText: Option<string>,
    skip: Option<string -> bool>)

  /** `ok(s)` of `extract_from_label`. */
  predicate Accepted(q: LabelQuery, s: string)
  {
    s != "" && (q.validator.None? || q.validator.value(s)) && (q.valueRe.None? || q.valueRe.value(s).Some?)
  }

  /** What `extract_from_label` reads from the lines does not depend on the
      fallback pattern or the full text. */
  lemma FromLinesIgnoresFallback(lines: seq<string>, q: LabelQuery, fb: Option<Matcher>, ft: Option<string>)
    ensures FromLines(lines, q.(fallbackRe := fb, fullText := ft)) == FromLines(lines, q)
  {
    var q' := q.(fallbackRe := fb, fullText := ft);
    match FirstLabel(lines, q.labelRe, 0)
    case None =>
    case Some(hit) =>
      var stop, stop' := s => IsStopLabel(s, q.stops), s => IsStopLabel(s, q'.stops);
      var acc, acc' := s => Accepted(q, s), s => Accepted(q', s);
      var end := ScanEnd(|lines|, hit.0, None);
      assert q'.stops == q.stops && q'.skip == q.skip && q'.labelRe == q.labelRe;
      assert forall x :: Accepted(q, x) == Accepted(q', x);
      ScanFromCongruent(lines, hit.0 + 1, end, stop, stop', q.skip, Some(acc), Some(acc'));
      assert ScanForwardOf(lines, hit.0, stop, q.skip, Some(acc), None) == ScanForwardOf(lines, hit.0, stop', q'.skip, Some(acc'), None);
  }

  /** The global fallback, when it was asked for. */
  function Fallback(q: LabelQuery): (r: Option<string>)
    ensures q.fallbackRe.None? || q.fullText.None? ==> r == None
    ensures q.fallbackRe.Some? && q.fullText.Some? ==> r == FallbackValue(q.fullText.value, q.fallbackRe.value)
  {
    if q.fallbackRe.Some? && q.fullText.Some? then FallbackValue(q.fullText.value, q.fallbackRe.value) else None
  }

  /** The same-line candidate: the value after the label, cut at the next
      stop label, or the uncut value when the cut leaves nothing. */
  function SameLineCandidate(line: string, m: Hit, stops: seq<Matcher>): string
  {
    var remainder := ValueAfterMatchOf(line, m, PREFIX_CHARS);
    var cut := CutAtNextLabelOf(remainder, stops);
    if cut != "" then cut else remainder
  }

  /** The value read from the lines alone: the same-line candidate when it is
      accepted, else the first accepted line of the forward scan. */
  function FromLines(lines: seq<string>, q: LabelQuery): (r: Option<string>)
    ensures r.Some? ==> Accepted(q, r.value)
    ensures FirstLabel(lines, q.labelRe, 0).None? ==> r == None
  {
    match FirstLabel(lines, q.labelRe, 0)
    case None => None
    case Some(hit) =>
      var cand := SameLineCandidate(lines[hit.0], hit.1, q.stops);
      if ValueAfterMatchOf(lines[hit.0], hit.1, PREFIX_CHARS) != "" && Accepted(q, cand) then Some(cand)
      else ScanForwardOf(lines, hit.0, s => IsStopLabel(s, q.stops), q.skip, Some(s => Accepted(q, s)), None)
  }

  /** `extract_from_label`: the value from the lines, else the fallback. */
  function ExtractFromLabel(lines: seq<string>, q: LabelQuery): (r: Option<string>)
    ensures FromLines(lines, q).Some? ==> r == FromLines(lines, q) && Accepted(q, r.value)
    ensures FromLines(lines, q).None? ==> r == Fallback(q)
    ensures r.Some? && r != Fallback(q) ==> Accepted(q, r.value)
  {
    match FromLines(lines, q)
    case Some(v) => Some(v)
    case None => Fallback(q)
  }

  /** The precedence of `extract_from_label`. Without a label line the result
      is the fallback. An accepted same-line candidate wins over everything
      else. Otherwise the first accepted line of the scan wins, and only when
      there is none does the fallback come in. */
  lemma ExtractFromLabelPrecedence(lines: seq<string>, q: LabelQuery)
    ensures FirstLabel(lines, q.labelRe, 0).None? ==> ExtractFromLabel(lines, q) == Fallback(q)
    ensures FirstLabel(lines, q.labelRe, 0).Some? ==>
      var hit := FirstLabel(lines, q.labelRe, 0).value;
      var cand := SameLineCandidate(lines[hit.0], hit.1, q.stops);
      var scan := ScanForwardOf(lines, hit.0, s => IsStopLabel(s, q.stops), q.skip, Some(s => Accepted(q, s)), None);
      ExtractFromLabel(lines, q) ==
        if ValueAfterMatchOf(lines[hit.0], hit.1, PREFIX_CHARS) != "" && Accepted(q, cand) then Some(cand)
        else if scan.Some? then scan
        else Fallback(q)
  {
  }

  /** A scanned value is never a stop-label line, and lies after the label. */
  lemma ScannedValueNotStop(lines: seq<string>, q: LabelQuery)
    requires FirstLabel(lines, q.labelRe, 0).Some?
    ensures var hit := FirstLabel(lines, q.labelRe, 0).value;
      var scan := ScanForwardOf(lines, hit.0, s => IsStopLabel(s, q.stops), q.skip, Some(s => Accepted(q, s)), None);
      scan.Some? ==> !IsStopLabel(scan.value, q.stops) && exists k | hit.0 < k < |lines| :: scan.value == Strip(lines[k])
  {
    var hit := FirstLabel(lines, q.labelRe, 0).value;
    ScanForwardWindow(lines, hit.0, s => IsStopLabel(s, q.stops), q.skip, Some(s => Accepted(q, s)), None);
  }
}
