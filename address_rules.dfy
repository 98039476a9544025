/** `documents/address_card/rules.py`: the eight field labels, which are also
    the stop labels, the title label, and the value patterns of the address
    card: the document number, its canonical form, the foreign-address marker
    and the word "Magyarország". The label patterns are matchers; the value
    patterns are written out as predicates on the text. */
module AddressRules {
  import opened Base
  import opened Chars
  import opened PyStr
  import opened Regex
  import opened LabelScan

  /** The compiled label patterns of the address card. */
  datatype Labels = Labels(
    fullName: Matcher,
    birthPlaceDate: Matcher,
    mothersName: Matcher,
    permanentAddress: Matcher,
    temporaryAddress: Matcher,
    reportingTime: Matcher,
    validity: Matcher,
    issuingAuthority: Matcher,
    title: Matcher)

  /** `STOP_LABELS`: the eight field labels in order. The title label is not
      one of them. */
  function StopLabels(r: Labels): (s: seq<Matcher>)
    ensures |s| == 8
  {
    [r.fullName, r.birthPlaceDate, r.mothersName, r.permanentAddress,
     r.temporaryAddress, r.reportingTime, r.validity, r.issuingAuthority]
  }

  /** A line is a stop label exactly when one of the eight field labels
      matches it; whether the title label matches plays no part. */
  lemma StopLabelIff(r: Labels, line: string)
    ensures IsStopLabel(line, StopLabels(r)) <==>
      r.fullName(line).Some? || r.birthPlaceDate(line).Some? || r.mothersName(line).Some? ||
      r.permanentAddress(line).Some? || r.temporaryAddress(line).Some? ||
      r.reportingTime(line).Some? || r.validity(line).Some? || r.issuingAuthority(line).Some?
  {
    var s := StopLabels(r);
    assert s[0] == r.fullName && s[1] == r.birthPlaceDate && s[2] == r.mothersName && s[3] == r.permanentAddress;
    assert s[4] == r.temporaryAddress && s[5] == r.reportingTime && s[6] == r.validity && s[7] == r.issuingAuthority;
  }

  // ---------------------------------------------------------------------
  // DOCNO_VALUE and DOCNO_CANON
  // ---------------------------------------------------------------------

  /** `[0-9OIJLl]` under IGNORECASE: a digit, or a letter OCR confuses with
      0 or 1. */
  predicate DocnoDigit(c: char)
  {
    IsDigit(c) || Upper(c) in "OIJL"
  }

  /** `[A-Z01]` under IGNORECASE: an ASCII letter, or 0 or 1. */
  predicate DocnoLetter(c: char)
  {
    IsAsciiLetter(c) || c == '0' || c == '1'
  }

  /** Where the letter zone of a match at `p` starts: `\s?` takes the
      whitespace character after the six-character zone when there is one.
      Giving it back could not help, since a letter-zone character is never
      whitespace. */
  function LetterStart(s: string, p: nat): (q: nat)
    ensures p + 6 <= q <= p + 7
  {
    if p + 6 < |s| && IsSpace(s[p + 6]) then p + 7 else p + 6
  }

  /** `\b([0-9OIJLl]{6})\s?([A-Z01]{2})\b` (case-insensitive) matches at `p`. */
  predicate DocnoAt(s: string, p: nat)
  {
    var q := LetterStart(s, p);
    q + 2 <= |s| &&
    (p == 0 || !IsWordChar(s[p - 1])) &&
    (forall i | p <= i < p + 6 :: DocnoDigit(s[i])) &&
    DocnoLetter(s[q]) && DocnoLetter(s[q + 1]) &&
    (q + 2 == |s| || !IsWordChar(s[q + 2]))
  }

  /** The least position at or after `p` where `DOCNO_VALUE` matches. */
  function DocnoFrom(s: string, p: nat): (r: Option<nat>)
    ensures r.Some? ==> p <= r.value && DocnoAt(s, r.value)
    ensures r.Some? ==> forall q | p <= q < r.value :: !DocnoAt(s, q)
    ensures r.None? ==> forall q: nat | p <= q && q + 8 <= |s| :: !DocnoAt(s, q)
    decreases |s| - p
  {
    if p + 8 > |s| then None
    else if DocnoAt(s, p) then Some(p)
    else DocnoFrom(s, p + 1)
  }

  /** `DOCNO_VALUE.search(s)`. Group 1 is the six-character zone and group 2
      the two-character zone; the match covers eight or nine characters. */
  function DocnoValue(s: string): (r: Option<Hit>)
    ensures r.Some? ==> DocnoAt(s, r.value.start) && r.value.end == LetterStart(s, r.value.start) + 2
    ensures r.Some? ==> r.value.start + 8 <= r.value.end <= |s|
    ensures r.Some? ==> |r.value.groups| == 3 && r.value.valueGroup == None
  {
    match DocnoFrom(s, 0)
    case None => None
    case Some(p) =>
      var q := LetterStart(s, p);
      Some(Hit(p, q + 2, [Some(s[p..q + 2]), Some(s[p..p + 6]), Some(s[q..q + 2])], None))
  }

  /** The search finds the leftmost match, and nothing only when the
      pattern matches nowhere. */
  lemma DocnoValueLeast(s: string)
    ensures DocnoValue(s).None? <==> forall q: nat :: !DocnoAt(s, q)
    ensures DocnoValue(s).Some? ==> forall q: nat | q < DocnoValue(s).value.start :: !DocnoAt(s, q)
  {
    forall q: nat | DocnoAt(s, q) ensures q + 8 <= |s| {
    }
  }

  /** The two groups of a match: six digit-zone characters and two
      letter-zone characters, nothing in between but at most one whitespace
      character. */
  lemma DocnoGroups(s: string)
    requires DocnoValue(s).Some?
    ensures var h := DocnoValue(s).value;
      Group(h, 1).Some? && Group(h, 2).Some? && Group(h, 0).Some? &&
      var g1 := Group(h, 1).value; var g2 := Group(h, 2).value; var w := Group(h, 0).value;
      |g1| == 6 && (forall i | 0 <= i < 6 :: DocnoDigit(g1[i])) &&
      |g2| == 2 && DocnoLetter(g2[0]) && DocnoLetter(g2[1]) &&
      (w == g1 + g2 || (|w| == 9 && w == g1 + [w[6]] + g2 && IsSpace(w[6])))
  {
    var h := DocnoValue(s).value;
    var p := h.start;
    var q := LetterStart(s, p);
    var w := s[p..q + 2];
    if q == p + 6 {
      assert w == s[p..p + 6] + s[q..q + 2];
    } else {
      assert w == s[p..p + 6] + [w[6]] + s[q..q + 2];
    }
  }

  /** `DOCNO_CANON.fullmatch(t)`: `^\d{6}\s[A-Z]{2}$`, six decimal digits,
      one whitespace character and two upper-case letters A to Z. */
  predicate IsCanonDocno(t: string)
  {
    |t| == 9 && (forall i | 0 <= i < 6 :: IsDigit(t[i])) && IsSpace(t[6]) && IsAsciiUpper(t[7]) && IsAsciiUpper(t[8])
  }

  /** A canonical number is itself a match of `DOCNO_VALUE`, spanning the
      whole text, with the digits as group 1 and the letters as group 2. */
  lemma CanonIsDocno(t: string)
    requires IsCanonDocno(t)
    ensures DocnoValue(t).Some? && DocnoValue(t).value.start == 0 && DocnoValue(t).value.end == 9
    ensures Group(DocnoValue(t).value, 1) == Some(t[..6]) && Group(DocnoValue(t).value, 2) == Some(t[7..])
  {
    assert LetterStart(t, 0) == 7;
    assert DocnoAt(t, 0);
    assert DocnoFrom(t, 0) == Some(0);
    assert t[7..9] == t[7..];
  }

  // ---------------------------------------------------------------------
  // FOREIGN_ADDRESS_VALUE and HUNGARY_WORD
  // ---------------------------------------------------------------------

  /** `c` matches the class `cs`, written in upper case, under IGNORECASE. */
  predicate CiIn(c: char, cs: string)
  {
    Upper(c) in cs
  }

  /** `w` is spelled by the classes `cls`, one character per class. */
  predicate Spelled(w: string, cls: seq<string>)
  {
    |w| == |cls| && forall i | 0 <= i < |w| :: CiIn(w[i], cls[i])
  }

  /** `K[ÜU]LF[ÖO]LDI`. */
  const KULFOLDI: seq<string> := ["K", "ÜU", "L", "F", "ÖO", "L", "D", "I"]

  /** `C[ÍI]M`. */
  const CIM: seq<string> := ["C", "ÍI", "M"]

  /** `MAGYARORSZ[AÁ]G`. */
  const MAGYARORSZAG: seq<string> := ["M", "A", "G", "Y", "A", "R", "O", "R", "S", "Z", "AÁ", "G"]

  /** `FOREIGN_ADDRESS_VALUE.fullmatch(s)`, that is
      `^\s*K[ÜU]LF[ÖO]LDI\s+C[ÍI]M\s*$` case-insensitively over the whole
      value: the value is made of exactly two whitespace-separated words,
      "Külföldi" and "cím" in any case, with or without their accents. */
  predicate IsForeignAddress(s: string)
  {
    var ws := Words(s);
    |ws| == 2 && Spelled(ws[0], KULFOLDI) && Spelled(ws[1], CIM)
  }

  /** The marker does not depend on the spacing: surrounding and repeated
      whitespace make no difference. */
  lemma ForeignAddressSpacing(s: string)
    ensures IsForeignAddress(Collapse(s)) <==> IsForeignAddress(s)
  {
    WordsOfJoin(Words(s));
  }

  /** A character of a class written in upper case is not whitespace. */
  lemma SpelledToken(w: string, cls: seq<string>)
    requires Spelled(w, cls) && |cls| > 0
    requires forall k | 0 <= k < |cls| :: forall j | 0 <= j < |cls[k]| :: !IsSpace(cls[k][j])
    ensures IsToken(w)
  {
    forall i | 0 <= i < |w| ensures !IsSpace(w[i]) {
      assert Upper(w[i]) in cls[i];
    }
  }

  /** Every spelling of the two words, joined by a space, is the marker:
      "Külföldi cím", "KULFOLDI CIM", "külföldi cim" and so on. */
  lemma ForeignAddressSpellings(w1: string, w2: string)
    requires Spelled(w1, KULFOLDI) && Spelled(w2, CIM)
    ensures IsForeignAddress(w1 + " " + w2)
  {
    SpelledToken(w1, KULFOLDI);
    SpelledToken(w2, CIM);
    assert JoinSpace([w1, w2]) == w1 + " " + w2;
    WordsOfJoin([w1, w2]);
  }

  /** `\bMAGYARORSZ[AÁ]G\b` (case-insensitive) matches at `p`. */
  predicate HungaryAt(s: string, p: nat)
  {
    p + 12 <= |s| && (p == 0 || !IsWordChar(s[p - 1])) &&
    Spelled(s[p..p + 12], MAGYARORSZAG) &&
    (p + 12 == |s| || !IsWordChar(s[p + 12]))
  }

  /** `HUNGARY_WORD.search(s)` finds a match. */
  predicate HasHungaryWord(s: string)
  {
    exists p | 0 <= p <= |s| :: HungaryAt(s, p)
  }

  /** The word, in any spelling, standing between two non-word characters
      (or the ends of the text) is found. */
  lemma HungaryWordFound(a: string, w: string, b: string)
    requires Spelled(w, MAGYARORSZAG)
    requires a == "" || !IsWordChar(a[|a| - 1])
    requires b == "" || !IsWordChar(b[0])
    ensures HasHungaryWord(a + w + b)
  {
    var s := a + w + b;
    assert s[|a|..|a| + 12] == w;
    assert HungaryAt(s, |a|);
  }
}
