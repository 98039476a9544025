/** `documents/registration/rules.py`: the labels of the vehicle registration
    certificate (the codes A to V.9 of Council Directive 1999/37/EC, Annex I,
    with the Hungarian textual labels for the year of manufacture and the
    gearbox type), the stop-label lists, and the value shapes: the document
    number, the VIN, the plate and the unit, fuel, year and small-number
    shapes. The labels are matchers; the value shapes are written out. */
module RegistrationRules {
  import opened Base
  import opened Chars
  import opened PyStr
  import opened Regex
  import opened LabelScan

  /** The compiled label patterns: one per field code, the O-block
      sub-labels and the two aliases for a "1" read in place of I or J. */
  datatype Labels = Labels(
    A: Matcher, B: Matcher, D1: Matcher, D2: Matcher, D3: Matcher, E: Matcher,
    F1: Matcher, G: Matcher, H: Matcher, I: Matcher, J: Matcher, K: Matcher,
    O: Matcher, P1: Matcher, P2: Matcher, P3: Matcher, P5: Matcher, Q: Matcher,
    R: Matcher, S1: Matcher, S2: Matcher, V9: Matcher,
    ManufactureYear: Matcher, GearboxType: Matcher,
    O1: Matcher, O2: Matcher, Paren0: Matcher, Paren1: Matcher, Paren2: Matcher, Paren3: Matcher,
    IAlias1: Matcher, JAlias1: Matcher)

  /** `STOP_LABELS`: every field label, in the order of the certificate. The
      O-block sub-labels and the aliases are not among them. */
  function StopLabels(lb: Labels): (s: seq<Matcher>)
    ensures |s| == 24
  {
    [lb.A, lb.B, lb.D1, lb.D2, lb.D3, lb.E, lb.F1, lb.G, lb.H, lb.I, lb.J, lb.K,
     lb.O, lb.P1, lb.P2, lb.P3, lb.P5, lb.Q, lb.R, lb.S1, lb.S2, lb.V9,
     lb.ManufactureYear, lb.GearboxType]
  }

  /** `STOP_O_BLOCK_END`: the labels that close the towing block. */
  function StopOBlockEnd(lb: Labels): (s: seq<Matcher>)
    ensures |s| == 8
  {
    [lb.Q, lb.G, lb.R, lb.S1, lb.S2, lb.V9, lb.ManufactureYear, lb.GearboxType]
  }

  /** Every label that closes the towing block is a stop label, so a line
      that ends the block also stops a forward scan. */
  lemma OBlockEndIsStop(lb: Labels, line: string)
    ensures IsStopLabel(line, StopOBlockEnd(lb)) ==> IsStopLabel(line, StopLabels(lb))
  {
    var ends, stops := StopOBlockEnd(lb), StopLabels(lb);
    if IsStopLabel(line, ends) {
      var k :| 0 <= k < 8 && ends[k](line).Some?;
      var at := [17, 7, 18, 19, 20, 21, 22, 23];
      assert ends[k] == stops[at[k]];
      assert stops[at[k]](line).Some?;
    }
  }

  // ---------------------------------------------------------------------
  // Searching
  // ---------------------------------------------------------------------

  /** `\b` before a match whose first character is a word character. */
  predicate WordStart(s: string, p: nat)
  {
    p == 0 || p > |s| || !IsWordChar(s[p - 1])
  }

  /** `\b` after a match whose last character is a word character. */
  predicate WordEnd(s: string, e: nat)
  {
    e >= |s| || !IsWordChar(s[e])
  }

  /** `(?<![A-Z0-9])` under IGNORECASE. */
  predicate NotAfterAlnum(s: string, p: nat)
  {
    p == 0 || p > |s| || !IsAsciiAlnum(s[p - 1])
  }

  /** `(?![A-Z0-9])` under IGNORECASE. */
  predicate NotBeforeAlnum(s: string, e: nat)
  {
    e >= |s| || !IsAsciiAlnum(s[e])
  }

  // ---------------------------------------------------------------------
  // DOCUMENT_NUMBER_VALUE
  // ---------------------------------------------------------------------

  /** `[A-Z10]` under IGNORECASE: the prefix zone, where 1 and 0 stand for
      I and O. */
  predicate PrefixChar(c: char)
  {
    IsAsciiLetter(c) || c == '1' || c == '0'
  }

  /** `[0-9OIJ]` under IGNORECASE: the digit zone, where O, I and J stand for
      0 and 1. */
  predicate SerialChar(c: char)
  {
    IsDigit(c) || Upper(c) in "OIJ"
  }

  /** `\b([A-Z10]{2})([0-9OIJ]{5})\b` (case-insensitive) matches at `p`. The
      match has a fixed length of seven characters, all word characters. */
  predicate RegDocnoAt(s: string, p: nat)
  {
    p + 7 <= |s| && WordStart(s, p) && WordEnd(s, p + 7) &&
    PrefixChar(s[p]) && PrefixChar(s[p + 1]) &&
    forall i | p + 2 <= i < p + 7 :: SerialChar(s[i])
  }

  /** The shape of `f"{a}{b}".upper()` for a match `(a, b)`: two upper-case
      prefix characters followed by five upper-case digit-zone characters. */
  predicate IsRegDocnoToken(t: string)
  {
    |t| == 7 && PrefixChar(t[0]) && PrefixChar(t[1]) && NoLower(t) &&
    forall i | 2 <= i < 7 :: SerialChar(t[i])
  }

  lemma UpperToken(s: string, p: nat)
    requires RegDocnoAt(s, p)
    ensures IsRegDocnoToken(UpperStr(s[p..p + 7]))
  {
    var t := UpperStr(s[p..p + 7]);
    forall i | 0 <= i < 7 ensures t[i] == Upper(s[p + i]) && !IsLower(t[i]) {
    }
    forall i | 0 <= i < 7 ensures IsAsciiLetter(s[p + i]) ==> IsAsciiLetter(t[i]) {
    }
    forall i | 2 <= i < 7 ensures SerialChar(t[i]) {
      assert SerialChar(s[p + i]);
      UpperIdempotent(s[p + i]);
    }
  }

  /** The upper-cased tokens of `DOCUMENT_NUMBER_VALUE.findall(s)` from
      position `p` on: each search resumes where the previous match ended. */
  function RegDocnoTokensFrom(s: string, p: nat): (ts: seq<string>)
    ensures forall i | 0 <= i < |ts| :: IsRegDocnoToken(ts[i])
    decreases |s| - p
  {
    if p + 7 > |s| then []
    else if RegDocnoAt(s, p) then
      UpperToken(s, p);
      [UpperStr(s[p..p + 7])] + RegDocnoTokensFrom(s, p + 7)
    else RegDocnoTokensFrom(s, p + 1)
  }

  function RegDocnoTokens(s: string): seq<string>
  {
    RegDocnoTokensFrom(s, 0)
  }

  /** Two matches never overlap: inside a match every character is a word
      character, so no other match can start there. That is why resuming the
      search at the end of a match loses none. */
  lemma RegDocnoNoOverlap(s: string, p: nat, q: nat)
    requires RegDocnoAt(s, p) && p < q < p + 7
    ensures !RegDocnoAt(s, q)
  {
    assert IsWordChar(s[q - 1]) by {
      if q - 1 < p + 2 { assert PrefixChar(s[q - 1]); } else { assert SerialChar(s[q - 1]); }
    }
  }

  /** Every match of the text yields a token: the tokens are those of all
      positions where the pattern matches, read left to right. */
  lemma {:induction false} RegDocnoTokensComplete(s: string, p: nat, q: nat)
    requires p <= q && RegDocnoAt(s, q)
    requires forall x | p <= x < q :: RegDocnoAt(s, x) ==> x + 7 <= q
    ensures UpperStr(s[q..q + 7]) in RegDocnoTokensFrom(s, p)
    decreases q - p
  {
    if p == q {
    } else if RegDocnoAt(s, p) {
      RegDocnoTokensComplete(s, p + 7, q);
    } else {
      RegDocnoTokensComplete(s, p + 1, q);
    }
  }

  /** The least position from `p` on where `DOCUMENT_NUMBER_VALUE` matches. */
  function RegDocnoFrom(s: string, p: nat): (r: Option<nat>)
    ensures r.Some? ==> p <= r.value && RegDocnoAt(s, r.value)
    ensures r.Some? ==> forall q: nat | p <= q < r.value :: !RegDocnoAt(s, q)
    ensures r.None? ==> forall q: nat | p <= q :: !RegDocnoAt(s, q)
    decreases |s| - p
  {
    if p + 7 > |s| then None
    else if RegDocnoAt(s, p) then Some(p)
    else RegDocnoFrom(s, p + 1)
  }

  /** `DOCUMENT_NUMBER_VALUE.search(s)`: the leftmost match, with the
      two-character prefix as group 1 and the five-character serial as
      group 2. */
  function RegDocnoValue(s: string): (r: Option<Hit>)
    ensures r.Some? ==> RegDocnoAt(s, r.value.start) && r.value.end == r.value.start + 7
    ensures r.Some? ==> forall p: nat | p < r.value.start :: !RegDocnoAt(s, p)
    ensures r.None? ==> forall p: nat :: !RegDocnoAt(s, p)
    ensures r.Some? ==> (r.value.groups ==
      [Some(s[r.value.start..r.value.start + 7]), Some(s[r.value.start..r.value.start + 2]),
       Some(s[r.value.start + 2..r.value.start + 7])])
  {
    match RegDocnoFrom(s, 0)
    case None => None
    case Some(p) => Some(Hit(p, p + 7, [Some(s[p..p + 7]), Some(s[p..p + 2]), Some(s[p + 2..p + 7])], None))
  }

  // ---------------------------------------------------------------------
  // VIN_VALUE
  // ---------------------------------------------------------------------

  /** `(?<![A-Z0-9])([A-Z0-9]{17})(?![A-Z0-9])` (case-insensitive) matches
      at `p`: a run of exactly seventeen ASCII letters and digits. */
  predicate VinAt(s: string, p: nat)
  {
    p + 17 <= |s| && NotAfterAlnum(s, p) && NotBeforeAlnum(s, p + 17) &&
    forall i | p <= i < p + 17 :: IsAsciiAlnum(s[i])
  }

  /** The least position from `p` on where `VIN_VALUE` matches. */
  function VinFrom(s: string, p: nat): (r: Option<nat>)
    ensures r.Some? ==> p <= r.value && VinAt(s, r.value)
    ensures r.Some? ==> forall q: nat | p <= q < r.value :: !VinAt(s, q)
    ensures r.None? ==> forall q: nat | p <= q :: !VinAt(s, q)
    decreases |s| - p
  {
    if p + 17 > |s| then None
    else if VinAt(s, p) then Some(p)
    else VinFrom(s, p + 1)
  }

  /** `VIN_VALUE.search(s)`: group 1 is the whole seventeen-character match. */
  function VinValue(s: string): (r: Option<Hit>)
    ensures r.Some? ==> VinAt(s, r.value.start) && r.value.end == r.value.start + 17
    ensures r.Some? ==> forall p: nat | p < r.value.start :: !VinAt(s, p)
    ensures r.None? ==> forall p: nat :: !VinAt(s, p)
    ensures r.Some? ==> var w := s[r.value.start..r.value.start + 17]; r.value.groups == [Some(w), Some(w)]
  {
    match VinFrom(s, 0)
    case None => None
    case Some(p) => Some(Hit(p, p + 17, [Some(s[p..p + 17]), Some(s[p..p + 17])], None))
  }

  /** Seventeen letters and digits on their own are a match at position 0. */
  lemma VinOfToken(w: string)
    requires |w| == 17 && forall i | 0 <= i < 17 :: IsAsciiAlnum(w[i])
    ensures VinValue(w).Some? && VinValue(w).value.start == 0
    ensures Group(VinValue(w).value, 1) == Some(w)
  {
    assert VinAt(w, 0);
    assert w[0..17] == w;
  }

  /** Group 1 of a VIN match is seventeen letters and digits with no
      surrounding whitespace, and is a VIN match on its own. */
  lemma VinGroupOne(s: string, h: Hit)
    requires VinValue(s) == Some(h)
    ensures Group(h, 1).Some? && Group(h, 1).value != "" && Trimmed(Group(h, 1).value)
    ensures VinValue(Group(h, 1).value).Some?
  {
    var w := s[h.start..h.start + 17];
    assert forall i | 0 <= i < 17 :: w[i] == s[h.start + i];
    VinOfToken(w);
  }

  // ---------------------------------------------------------------------
  // PLATE_VALUE
  // ---------------------------------------------------------------------

  /** `[A-Z01]` under IGNORECASE: the letter zone of a plate. */
  predicate PlateLetter(c: char)
  {
    IsAsciiLetter(c) || c == '0' || c == '1'
  }

  /** `[0-9OIJLl]` under IGNORECASE: the digit zone of a plate. */
  predicate PlateDigit(c: char)
  {
    IsDigit(c) || Upper(c) in "OIJL"
  }

  /** The pattern matches at `p` with a letter zone of `n` characters. */
  predicate PlateWith(s: string, p: nat, n: nat)
  {
    p + n + 3 <= |s| && NotAfterAlnum(s, p) && NotBeforeAlnum(s, p + n + 3) &&
    (forall i | p <= i < p + n :: PlateLetter(s[i])) &&
    forall i | p + n <= i < p + n + 3 :: PlateDigit(s[i])
  }

  /** The length of the letter zone the engine settles on at `p`. The zone
      `[A-Z01]{3,4}` is greedy, and the two zones share characters (0, 1, I,
      J, L, O), so four letters are tried first and three after. */
  function PlateLetters(s: string, p: nat): (n: Option<nat>)
    ensures n.Some? ==> (n.value == 3 || n.value == 4) && PlateWith(s, p, n.value)
    ensures n.None? <==> !PlateWith(s, p, 4) && !PlateWith(s, p, 3)
    ensures n == Some(3) ==> !PlateWith(s, p, 4)
  {
    if PlateWith(s, p, 4) then Some(4) else if PlateWith(s, p, 3) then Some(3) else None
  }

  /** The pattern matches at `p`. */
  predicate PlateAt(s: string, p: nat)
  {
    PlateLetters(s, p).Some?
  }

  /** The least position from `p` on where `PLATE_VALUE` matches. */
  function PlateFrom(s: string, p: nat): (r: Option<nat>)
    ensures r.Some? ==> p <= r.value && PlateAt(s, r.value)
    ensures r.Some? ==> forall q: nat | p <= q < r.value :: !PlateAt(s, q)
    ensures r.None? ==> forall q: nat | p <= q :: !PlateAt(s, q)
    decreases |s| - p
  {
    if p + 6 > |s| then None
    else if PlateAt(s, p) then Some(p)
    else PlateFrom(s, p + 1)
  }

  /** `PLATE_VALUE.search(s)`: group 1 is the letter zone and group 2 the
      three-character digit zone. */
  function PlateValue(s: string): (r: Option<Hit>)
    ensures r.Some? ==> PlateAt(s, r.value.start)
    ensures r.Some? ==> forall p: nat | p < r.value.start :: !PlateAt(s, p)
    ensures r.None? ==> forall p: nat :: !PlateAt(s, p)
    ensures r.Some? ==> var p, n := r.value.start, PlateLetters(s, r.value.start).value;
      r.value.end == p + n + 3 &&
      r.value.groups == [Some(s[p..p + n + 3]), Some(s[p..p + n]), Some(s[p + n..p + n + 3])]
  {
    match PlateFrom(s, 0)
    case None => None
    case Some(p) =>
      var n := PlateLetters(s, p).value;
      Some(Hit(p, p + n + 3, [Some(s[p..p + n + 3]), Some(s[p..p + n]), Some(s[p + n..p + n + 3])], None))
  }

  /** A plate read on its own is a match at position 0, over all of it. */
  lemma PlateOfWholeMatch(s: string)
    requires PlateValue(s).Some?
    ensures var w := Group(PlateValue(s).value, 0).value;
      PlateValue(w).Some? && PlateValue(w).value.start == 0 && |w| == PlateValue(w).value.end
  {
    var h := PlateValue(s).value;
    var p, n := h.start, PlateLetters(s, h.start).value;
    var w := s[p..p + n + 3];
    assert forall i | 0 <= i < |w| :: w[i] == s[p + i];
    assert PlateWith(w, 0, n);
    assert PlateAt(w, 0);
    var m := PlateLetters(w, 0).value;
    assert m == n;
  }

  /** Group 1 has three or four characters, while a match needs at least six:
      the letter zone alone is never a plate. */
  lemma PlateGroupOneTooShort(s: string)
    requires PlateValue(s).Some?
    ensures var g := Group(PlateValue(s).value, 1).value; 3 <= |g| <= 4 && PlateValue(g).None?
  {
    var g := Group(PlateValue(s).value, 1).value;
    forall p: nat ensures !PlateAt(g, p) {
    }
  }

  /** No character of a plate zone is whitespace. */
  lemma PlateCharNotSpace(c: char)
    ensures PlateLetter(c) ==> !IsSpace(c)
    ensures PlateDigit(c) ==> !IsSpace(c)
  {
    if PlateDigit(c) && !IsDigit(c) {
      assert !IsSpace(Upper(c));
    }
  }

  /** Both the whole match and group 1 start with a letter-zone character
      and end with a non-space: neither has surrounding whitespace. */
  lemma PlateGroupsTrimmed(s: string, h: Hit)
    requires PlateValue(s) == Some(h)
    ensures Group(h, 0).Some? && Group(h, 0).value != "" && Trimmed(Group(h, 0).value)
    ensures Group(h, 1).Some? && Group(h, 1).value != "" && Trimmed(Group(h, 1).value)
  {
    var p, n := h.start, PlateLetters(s, h.start).value;
    assert Group(h, 0).value == s[p..p + n + 3] && Group(h, 1).value == s[p..p + n];
    PlateCharNotSpace(s[p]);
    PlateCharNotSpace(s[p + n - 1]);
    PlateCharNotSpace(s[p + n + 2]);
  }

  // ---------------------------------------------------------------------
  // KG_VALUE, CM3_VALUE, KW_VALUE
  // ---------------------------------------------------------------------

  /** The length of the run of decimal digits at `p`. */
  function DigitRun(s: string, p: nat): (n: nat)
    ensures p <= |s| ==> p + n <= |s|
    decreases |s| - p
  {
    if p >= |s| || !IsDigit(s[p]) then 0 else 1 + DigitRun(s, p + 1)
  }

  /** The run is made of digits. */
  lemma {:induction false} DigitRunDigits(s: string, p: nat)
    requires p <= |s|
    ensures forall i | p <= i < p + DigitRun(s, p) :: IsDigit(s[i])
    decreases |s| - p
  {
    if p < |s| && IsDigit(s[p]) {
      DigitRunDigits(s, p + 1);
    }
  }

  /** The length of the run of whitespace at `p`. */
  function SpaceRun(s: string, p: nat): (n: nat)
    ensures p <= |s| ==> p + n <= |s|
    decreases |s| - p
  {
    if p >= |s| || !IsSpace(s[p]) then 0 else 1 + SpaceRun(s, p + 1)
  }

  /** The literal `w`, written in upper case, occurs at `q` ignoring case. */
  predicate LitAt(s: string, q: nat, w: string)
  {
    q + |w| <= |s| && forall i | 0 <= i < |w| :: Upper(s[q + i]) == w[i]
  }

  /** Where `\b(\d{lo,hi})\s*UNIT\b` (case-insensitive) ends when it matches at
      `p`. The digit run is greedy and what follows it is not a digit, so the
      whole run must fit the bounds; the whitespace run is greedy and the unit
      does not start with whitespace. */
  function UnitEnd(s: string, p: nat, lo: nat, hi: nat, unit: string): (e: Option<nat>)
    ensures e.Some? ==> p + DigitRun(s, p) <= e.value <= |s|
  {
    var n := DigitRun(s, p);
    var q := p + n + SpaceRun(s, p + n);
    if p < |s| && WordStart(s, p) && lo <= n <= hi && LitAt(s, q, unit) && WordEnd(s, q + |unit|)
    then Some(q + |unit|) else None
  }

  /** The least position from `p` on where the unit pattern matches. */
  function UnitFrom(s: string, p: nat, lo: nat, hi: nat, unit: string): (r: Option<nat>)
    ensures r.Some? ==> p <= r.value < |s| && UnitEnd(s, r.value, lo, hi, unit).Some?
    ensures r.Some? ==> forall q: nat | p <= q < r.value :: UnitEnd(s, q, lo, hi, unit).None?
    ensures r.None? ==> forall q: nat | p <= q :: UnitEnd(s, q, lo, hi, unit).None?
    decreases |s| - p
  {
    if p >= |s| then None
    else if UnitEnd(s, p, lo, hi, unit).Some? then Some(p)
    else UnitFrom(s, p + 1, lo, hi, unit)
  }

  /** A search for `\b(\d{lo,hi})\s*UNIT\b`: group 1 is the number. */
  function UnitValue(s: string, lo: nat, hi: nat, unit: string): (r: Option<Hit>)
    ensures r.Some? ==> UnitFrom(s, 0, lo, hi, unit) == Some(r.value.start)
    ensures r.None? <==> UnitFrom(s, 0, lo, hi, unit).None?
    ensures r.Some? ==> UnitEnd(s, r.value.start, lo, hi, unit) == Some(r.value.end)
    ensures r.Some? ==> (r.value.groups ==
      [Some(s[r.value.start..r.value.end]), Some(s[r.value.start..r.value.start + DigitRun(s, r.value.start)])])
  {
    match UnitFrom(s, 0, lo, hi, unit)
    case None => None
    case Some(p) =>
      var e := UnitEnd(s, p, lo, hi, unit).value;
      Some(Hit(p, e, [Some(s[p..e]), Some(s[p..p + DigitRun(s, p)])], None))
  }

  /** Group 1 of a unit match is a number of `lo` to `hi` digits. */
  lemma UnitGroupDigits(s: string, lo: nat, hi: nat, unit: string)
    requires UnitValue(s, lo, hi, unit).Some?
    ensures var g := Group(UnitValue(s, lo, hi, unit).value, 1).value;
      lo <= |g| <= hi && forall i | 0 <= i < |g| :: IsDigit(g[i])
  {
    var h := UnitValue(s, lo, hi, unit).value;
    var g := s[h.start..h.start + DigitRun(s, h.start)];
    DigitRunDigits(s, h.start);
    assert forall i | 0 <= i < |g| :: g[i] == s[h.start + i];
  }

  /** Group 1 of a unit match, for a unit needing at least one digit, is a
      non-empty number with no surrounding whitespace. */
  lemma UnitGroupTrimmed(s: string, lo: nat, hi: nat, unit: string, h: Hit)
    requires 1 <= lo && UnitValue(s, lo, hi, unit) == Some(h)
    ensures Group(h, 1).Some? && Group(h, 1).value != "" && Trimmed(Group(h, 1).value)
    ensures IsDigits(Group(h, 1).value) && lo <= |Group(h, 1).value| <= hi
  {
    UnitGroupDigits(s, lo, hi, unit);
  }

  /** The whole unit match, for a unit needing at least one digit, starts
      with a digit, so stripping it leaves something. */
  lemma UnitWholeNonBlank(s: string, lo: nat, hi: nat, unit: string, h: Hit)
    requires 1 <= lo && UnitValue(s, lo, hi, unit) == Some(h)
    ensures Strip(Whole(h)) != ""
  {
    DigitRunDigits(s, h.start);
    var w := Whole(h);
    assert w[0] == s[h.start] && IsDigit(w[0]);
    StripEmptyIffBlank(w);
  }

  /** `KG_VALUE`: `\b(\d{2,6})\s*KG\b`. */
  function KgValue(s: string): Option<Hit>
  {
    UnitValue(s, 2, 6, "KG")
  }

  /** `CM3_VALUE`: `\b(\d{2,5})\s*CM3\b`. */
  function Cm3Value(s: string): Option<Hit>
  {
    UnitValue(s, 2, 5, "CM3")
  }

  /** `KW_VALUE`: `\b(\d{1,4})\s*KW\b`. */
  function KwValue(s: string): Option<Hit>
  {
    UnitValue(s, 1, 4, "KW")
  }

  // ---------------------------------------------------------------------
  // FUEL_VALUE, YEAR_VALUE, GEARBOX_CODE_VALUE, V9_VALUE
  // ---------------------------------------------------------------------

  /** The alternatives of `FUEL_VALUE`, in order. */
  const FUELS: seq<string> := ["BENZIN", "DÍZEL", "DIESEL", "ELEKTROMOS", "HIBRID", "GÁZ", "LPG", "CNG"]

  /** The first alternative that matches at `p` and is followed by `\b`. A
      failing `\b` sends the engine on to the next alternative. */
  function FuelFrom(s: string, p: nat, k: nat): (w: Option<nat>)
    requires k <= |FUELS|
    ensures w.Some? ==> k <= w.value < |FUELS| && LitAt(s, p, FUELS[w.value]) && WordEnd(s, p + |FUELS[w.value]|)
    decreases |FUELS| - k
  {
    if k == |FUELS| then None
    else if LitAt(s, p, FUELS[k]) && WordEnd(s, p + |FUELS[k]|) then Some(k)
    else FuelFrom(s, p, k + 1)
  }

  /** An alternative that matches from `k` on is found. */
  lemma {:induction false} FuelFromFinds(s: string, p: nat, k: nat, k0: nat)
    requires k <= k0 < |FUELS| && LitAt(s, p, FUELS[k0]) && WordEnd(s, p + |FUELS[k0]|)
    ensures FuelFrom(s, p, k).Some?
    decreases k0 - k
  {
    if k < k0 && !(LitAt(s, p, FUELS[k]) && WordEnd(s, p + |FUELS[k]|)) {
      FuelFromFinds(s, p, k + 1, k0);
    }
  }

  /** `\b(BENZIN|DÍZEL|...|CNG)\b` (case-insensitive) at `p`: the alternative
      taken. */
  function FuelAt(s: string, p: nat): Option<nat>
  {
    if WordStart(s, p) then FuelFrom(s, p, 0) else None
  }

  /** The least position from `p` on where a fuel word matches. */
  function FuelSearchFrom(s: string, p: nat): (r: Option<nat>)
    ensures r.Some? ==> p <= r.value <= |s| && FuelAt(s, r.value).Some?
    ensures r.None? ==> forall q: nat | p <= q <= |s| :: FuelAt(s, q).None?
    decreases |s| - p
  {
    if p > |s| then None
    else if FuelAt(s, p).Some? then Some(p)
    else FuelSearchFrom(s, p + 1)
  }

  /** `FUEL_VALUE.search(s)`: group 1 is the fuel word as written. */
  function FuelValue(s: string): (r: Option<Hit>)
    ensures r.Some? ==> FuelSearchFrom(s, 0) == Some(r.value.start)
    ensures r.None? <==> FuelSearchFrom(s, 0).None?
  {
    match FuelSearchFrom(s, 0)
    case None => None
    case Some(p) =>
      var w := FUELS[FuelAt(s, p).value];
      Some(Hit(p, p + |w|, [Some(s[p..p + |w|]), Some(s[p..p + |w|])], None))
  }

  /** `YEAR_VALUE`, `\b(19\d{2}|20\d{2})\b`, matches at `p`. */
  predicate YearAt(s: string, p: nat)
  {
    p + 4 <= |s| && WordStart(s, p) && WordEnd(s, p + 4) &&
    ((s[p] == '1' && s[p + 1] == '9') || (s[p] == '2' && s[p + 1] == '0')) &&
    IsDigit(s[p + 2]) && IsDigit(s[p + 3])
  }

  /** The least position from `p` on where `YEAR_VALUE` matches. */
  function YearFrom(s: string, p: nat): (r: Option<nat>)
    ensures r.Some? ==> p <= r.value && YearAt(s, r.value)
    ensures r.Some? ==> forall q: nat | p <= q < r.value :: !YearAt(s, q)
    ensures r.None? ==> forall q: nat | p <= q :: !YearAt(s, q)
    decreases |s| - p
  {
    if p + 4 > |s| then None
    else if YearAt(s, p) then Some(p)
    else YearFrom(s, p + 1)
  }

  /** `YEAR_VALUE.search(s)`: a four-digit year from 1900 to 2099. */
  function YearValue(s: string): (r: Option<Hit>)
    ensures r.Some? ==> YearAt(s, r.value.start) && r.value.end == r.value.start + 4
    ensures r.None? ==> forall p: nat :: !YearAt(s, p)
    ensures r.Some? ==> var y := s[r.value.start..r.value.start + 4];
      r.value.groups == [Some(y), Some(y)] && (y[..2] == "19" || y[..2] == "20") && IsDigit(y[2]) && IsDigit(y[3])
  {
    match YearFrom(s, 0)
    case None => None
    case Some(p) =>
      var y := s[p..p + 4];
      assert y[..2] == [s[p], s[p + 1]];
      assert y[..2] == "19" || y[..2] == "20" by {
        if s[p] == '1' { assert [s[p], s[p + 1]] == "19"; } else { assert [s[p], s[p + 1]] == "20"; }
      }
      Some(Hit(p, p + 4, [Some(y), Some(y)], None))
  }

  /** `\b(\d{1,3})\b` matches at `p` (GEARBOX_CODE_VALUE; V9_VALUE spells
      the class `[0-9]`, the same on this alphabet): a run of one to three
      digits standing alone. */
  predicate SmallNumberAt(s: string, p: nat)
  {
    var n := DigitRun(s, p);
    p < |s| && WordStart(s, p) && 1 <= n <= 3 && WordEnd(s, p + n)
  }

  /** The least position from `p` on where a small number matches. */
  function SmallNumberFrom(s: string, p: nat): (r: Option<nat>)
    ensures r.Some? ==> p <= r.value && SmallNumberAt(s, r.value)
    ensures r.Some? ==> forall q: nat | p <= q < r.value :: !SmallNumberAt(s, q)
    ensures r.None? ==> forall q: nat | p <= q :: !SmallNumberAt(s, q)
    decreases |s| - p
  {
    if p + 1 > |s| then None
    else if SmallNumberAt(s, p) then Some(p)
    else SmallNumberFrom(s, p + 1)
  }

  /** The search for a small number: group 1 is the number. */
  function SmallNumberValue(s: string): (r: Option<Hit>)
    ensures r.Some? ==> SmallNumberAt(s, r.value.start)
    ensures r.None? ==> forall p: nat :: !SmallNumberAt(s, p)
    ensures r.Some? ==> r.value.start < r.value.end == r.value.start + DigitRun(s, r.value.start) <= |s|
    ensures r.Some? ==> var g := s[r.value.start..r.value.end];
      1 <= |g| <= 3 && (forall i | 0 <= i < |g| :: IsDigit(g[i])) && r.value.groups == [Some(g), Some(g)]
  {
    match SmallNumberFrom(s, 0)
    case None => None
    case Some(p) =>
      var e := p + DigitRun(s, p);
      var g := s[p..e];
      DigitRunDigits(s, p);
      assert forall i | 0 <= i < |g| :: g[i] == s[p + i];
      Some(Hit(p, e, [Some(g), Some(g)], None))
  }

  /** A literal found at `p` is found at 0 in the slice it covers. */
  lemma LitAtSlice(s: string, p: nat, f: string)
    requires LitAt(s, p, f)
    ensures LitAt(s[p..p + |f|], 0, f)
  {
    var w := s[p..p + |f|];
    assert forall i | 0 <= i < |f| :: w[i] == s[p + i];
  }

  /** A word that spells a fuel alternative, in any case, is non-empty,
      has no surrounding whitespace and is a fuel match on its own. */
  lemma FuelWordMatches(w: string, k: nat)
    requires k < |FUELS| && |w| == |FUELS[k]| && LitAt(w, 0, FUELS[k])
    ensures w != "" && Trimmed(w) && FuelValue(w).Some?
  {
    var f := FUELS[k];
    assert Upper(w[0]) == f[0] && Upper(w[|w| - 1]) == f[|f| - 1];
    assert !IsSpace(f[0]) && !IsSpace(f[|f| - 1]);
    FuelFromFinds(w, 0, 0, k);
    assert FuelAt(w, 0).Some?;
  }

  /** Group 1 of a fuel match is the fuel word as written: non-empty, no
      surrounding whitespace, and a fuel match on its own. */
  lemma FuelGroupOne(s: string, h: Hit)
    requires FuelValue(s) == Some(h)
    ensures Group(h, 1).Some? && Group(h, 1).value != "" && Trimmed(Group(h, 1).value)
    ensures FuelValue(Group(h, 1).value).Some?
  {
    var p := h.start;
    var k := FuelAt(s, p).value;
    var f := FUELS[k];
    var w := s[p..p + |f|];
    LitAtSlice(s, p, f);
    FuelWordMatches(w, k);
  }
}
