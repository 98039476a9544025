/** The date token shapes and the month-name table of `core/utils/rules.py`.

    The month-letter class of the three month-name shapes is written in
    rules.py as `A-Za-z` followed by mis-encoded accented letters (Hangul
    syllables produced by a wrong decoding). On the alphabet of this model,
    which contains no Hangul, that class is `A-Za-z`. For the same reason only
    the ASCII keys of the month table are kept. */
module DateRules {
  import opened Base
  import opened Chars
  import opened PyStr
  import opened Pattern

  /** `[.\-/ ]`, the separators of the numeric shapes. */
  const SEPS: string := ".-/ "

  const MonthLetter: Cls := AsciiLetter

  /** `\b(\d{1,2})\s*[.\-/ ]\s*(\d{1,2})\s*[.\-/ ]\s*(\d{4})\b\.?`
      Groups: day = part 1, month = part 3, year = part 5. */
  const DATE_DDMMYYYY: seq<Part> := [
    P(Boundary), P(Rep(Digit, 1, 2)), P(Gap(SEPS, true)), P(Rep(Digit, 1, 2)),
    P(Gap(SEPS, true)), P(Rep(Digit, 4, 4)), P(Boundary), P(Rep(Chars("."), 0, 1))]

  /** `\b(\d{4})\s*[.\-/ ]\s*(\d{1,2})\s*[.\-/ ]\s*(\d{1,2})\b\.?`
      Groups: year = part 1, month = part 3, day = part 5. */
  const DATE_YYYYMMDD: seq<Part> := [
    P(Boundary), P(Rep(Digit, 4, 4)), P(Gap(SEPS, true)), P(Rep(Digit, 1, 2)),
    P(Gap(SEPS, true)), P(Rep(Digit, 1, 2)), P(Boundary), P(Rep(Chars("."), 0, 1))]

  /** `\b(\d{4})\s+([letters]{3,}(?:/[letters]{3,})?)\s+(\d{2})\b`
      Groups: year = part 1, month = parts 3..4, day = part 6. */
  const DATE_YYYY_MON_DD: seq<Part> := [
    P(Boundary), P(Rep(Digit, 4, 4)), P(Many(Space, 1)), P(Many(MonthLetter, 3)),
    Optional([Rep(Chars("/"), 1, 1), Many(MonthLetter, 3)]),
    P(Many(Space, 1)), P(Rep(Digit, 2, 2)), P(Boundary)]

  /** `\b(\d{4})\s*\.?\s*([letters]+)\s+(\d{1,2})\s*\.?\b` (verbose)
      Groups: year = part 1, month = part 3, day = part 5. */
  const DATE_YYYY_HU_MON_DD: seq<Part> := [
    P(Boundary), P(Rep(Digit, 4, 4)), P(Gap(".", false)), P(Many(MonthLetter, 1)),
    P(Many(Space, 1)), P(Rep(Digit, 1, 2)), P(SpacesDotBoundary)]

  /** `\b(\d{1,2})\s*[.\-/ ]\s*([letters]{3,}(?:/[letters]{3,})?)\s*[.\-/ ]\s*(\d{2})\b\.?`
      under `re.IGNORECASE` (which leaves these classes as they are).
      Groups: day = part 1, month = parts 3..4, year = part 6. */
  const DATE_DD_MON_YY: seq<Part> := [
    P(Boundary), P(Rep(Digit, 1, 2)), P(Gap(SEPS, true)), P(Many(MonthLetter, 3)),
    Optional([Rep(Chars("/"), 1, 1), Many(MonthLetter, 3)]),
    P(Gap(SEPS, true)), P(Rep(Digit, 2, 2)), P(Boundary), P(Rep(Chars("."), 0, 1))]

  /** `MONTH_MAP`: Hungarian, English and German month names and
      abbreviations in lower case, each abbreviation also with its trailing
      dot, grouped by month as the dictionary is written; the keys of
      `MONTH_MAP[k]` map to month `k + 1`. */
  const MONTH_MAP: seq<seq<string>> := [
    ["jan", "jan.", "januar"],
    ["feb", "feb.", "februar"],
    ["marc", "marc.", "mar", "mar.", "marcius"],
    ["apr", "apr.", "aprilis"],
    ["maj", "maj.", "may", "may."],
    ["jun", "jun.", "junius", "june"],
    ["jul", "jul.", "julius", "july"],
    ["aug", "aug.", "augusztus", "august"],
    ["szept", "szept.", "sep", "sep.", "sept", "sept.", "szeptember", "september"],
    ["okt", "okt.", "oct", "oct.", "oktober", "october"],
    ["nov", "nov.", "november"],
    ["dec", "dec.", "dez", "dez.", "december"]]

  /** The abbreviations of each month, as the dictionary lists them. */
  const ABBREVIATIONS: seq<seq<string>> := [
    ["jan"], ["feb"], ["marc", "mar"], ["apr"], ["maj", "may"], ["jun"], ["jul"], ["aug"],
    ["szept", "sep", "sept"], ["okt", "oct"], ["nov"], ["dec", "dez"]]

  /** Every abbreviation of a month is listed in that month's row with and
      without its trailing dot. */
  predicate Twinned(abbrevs: seq<string>, row: seq<string>)
  {
    forall i | 0 <= i < |abbrevs| :: abbrevs[i] in row && abbrevs[i] + "." in row
  }

  /** Each abbreviation has a dotted twin with the same month. */
  lemma MonthMapTwins()
    ensures forall k | 0 <= k < 12 :: Twinned(ABBREVIATIONS[k], MONTH_MAP[k])
  {
    forall k | 0 <= k < 12 ensures Twinned(ABBREVIATIONS[k], MONTH_MAP[k]) {
      if k < 6 { RowTwinnedLow(k); } else { RowTwinnedHigh(k); }
    }
  }

  lemma RowTwinnedLow(k: nat)
    requires k < 6
    ensures Twinned(ABBREVIATIONS[k], MONTH_MAP[k])
  {
    if k == 0 {
      assert MONTH_MAP[0][0] == ABBREVIATIONS[0][0] && MONTH_MAP[0][1] == ABBREVIATIONS[0][0] + ".";
    } else if k == 1 {
      assert MONTH_MAP[1][0] == ABBREVIATIONS[1][0] && MONTH_MAP[1][1] == ABBREVIATIONS[1][0] + ".";
    } else if k == 2 {
      assert MONTH_MAP[2][0] == ABBREVIATIONS[2][0] && MONTH_MAP[2][1] == ABBREVIATIONS[2][0] + "." && MONTH_MAP[2][2] == ABBREVIATIONS[2][1] && MONTH_MAP[2][3] == ABBREVIATIONS[2][1] + ".";
    } else if k == 3 {
      assert MONTH_MAP[3][0] == ABBREVIATIONS[3][0] && MONTH_MAP[3][1] == ABBREVIATIONS[3][0] + ".";
    } else if k == 4 {
      assert MONTH_MAP[4][0] == ABBREVIATIONS[4][0] && MONTH_MAP[4][1] == ABBREVIATIONS[4][0] + "." && MONTH_MAP[4][2] == ABBREVIATIONS[4][1] && MONTH_MAP[4][3] == ABBREVIATIONS[4][1] + ".";
    } else if k == 5 {
      assert MONTH_MAP[5][0] == ABBREVIATIONS[5][0] && MONTH_MAP[5][1] == ABBREVIATIONS[5][0] + ".";
    }
  }

  lemma RowTwinnedHigh(k: nat)
    requires 6 <= k < 12
    ensures Twinned(ABBREVIATIONS[k], MONTH_MAP[k])
  {
    if k == 6 {
      assert MONTH_MAP[6][0] == ABBREVIATIONS[6][0] && MONTH_MAP[6][1] == ABBREVIATIONS[6][0] + ".";
    } else if k == 7 {
      assert MONTH_MAP[7][0] == ABBREVIATIONS[7][0] && MONTH_MAP[7][1] == ABBREVIATIONS[7][0] + ".";
    } else if k == 8 {
      assert MONTH_MAP[8][0] == ABBREVIATIONS[8][0] && MONTH_MAP[8][1] == ABBREVIATIONS[8][0] + "." && MONTH_MAP[8][2] == ABBREVIATIONS[8][1] && MONTH_MAP[8][3] == ABBREVIATIONS[8][1] + "." && MONTH_MAP[8][4] == ABBREVIATIONS[8][2] && MONTH_MAP[8][5] == ABBREVIATIONS[8][2] + ".";
    } else if k == 9 {
      assert MONTH_MAP[9][0] == ABBREVIATIONS[9][0] && MONTH_MAP[9][1] == ABBREVIATIONS[9][0] + "." && MONTH_MAP[9][2] == ABBREVIATIONS[9][1] && MONTH_MAP[9][3] == ABBREVIATIONS[9][1] + ".";
    } else if k == 10 {
      assert MONTH_MAP[10][0] == ABBREVIATIONS[10][0] && MONTH_MAP[10][1] == ABBREVIATIONS[10][0] + ".";
    } else if k == 11 {
      assert MONTH_MAP[11][0] == ABBREVIATIONS[11][0] && MONTH_MAP[11][1] == ABBREVIATIONS[11][0] + "." && MONTH_MAP[11][2] == ABBREVIATIONS[11][1] && MONTH_MAP[11][3] == ABBREVIATIONS[11][1] + ".";
    }
  }

  /** `key` and its dotted form are absent from the rows before row `k`. */
  predicate EarlierAbsent(k: nat, key: string)
    requires k <= 12
  {
    forall j | 0 <= j < k :: key !in MONTH_MAP[j] && key + "." !in MONTH_MAP[j]
  }

  /** Looking a key up from row `j` finds the first row at or after `j` that
      lists it. */
  lemma {:induction false} MonthFromFirst(key: string, j: nat, k: nat)
    requires j <= k < 12 && key in MONTH_MAP[k]
    requires forall i | j <= i < k :: key !in MONTH_MAP[i]
    ensures MonthFrom(key, j) == Some(k + 1)
    decreases k - j
  {
    if j < k {
      assert !Listed(key, MONTH_MAP[j]);
      MonthFromFirst(key, j + 1, k);
    } else {
      assert Listed(key, MONTH_MAP[k]);
    }
  }

  /** Each abbreviation and its dotted twin both map to their own month. */
  lemma AbbreviationMonths()
    ensures forall k, i | 0 <= k < 12 && 0 <= i < |ABBREVIATIONS[k]| ::
      MonthGet(ABBREVIATIONS[k][i]) == Some(k + 1) && MonthGet(ABBREVIATIONS[k][i] + ".") == Some(k + 1)
  {
    MonthMapTwins();
    forall k, i | 0 <= k < 12 && 0 <= i < |ABBREVIATIONS[k]|
      ensures MonthGet(ABBREVIATIONS[k][i]) == Some(k + 1) && MonthGet(ABBREVIATIONS[k][i] + ".") == Some(k + 1)
    {
      if k == 1 { EarlierAbsentFeb(i); }
      else if k == 2 { EarlierAbsentMar(i); }
      else if k == 3 { EarlierAbsentApr(i); }
      else if k == 4 { EarlierAbsentMay(i); }
      else if k == 5 { EarlierAbsentJun(i); }
      else if k == 6 { EarlierAbsentJul(i); }
      else if k == 7 { EarlierAbsentAug(i); }
      else if k == 8 { EarlierAbsentSep(i); }
      else if k == 9 { EarlierAbsentOct(i); }
      else if k == 10 { EarlierAbsentNov(i); }
      else if k == 11 { EarlierAbsentDec(i); }
      MonthFromFirst(ABBREVIATIONS[k][i], 0, k);
      MonthFromFirst(ABBREVIATIONS[k][i] + ".", 0, k);
    }
  }

  lemma EarlierAbsentFeb(i: nat)
    requires i < |ABBREVIATIONS[1]|
    ensures EarlierAbsent(1, ABBREVIATIONS[1][i])
  {
    assert ABBREVIATIONS[1][0] == "feb" && "feb" + "." == "feb.";
    assert forall j | 0 <= j < 1 :: "feb" !in MONTH_MAP[j] && "feb." !in MONTH_MAP[j];
  }

  lemma EarlierAbsentMar(i: nat)
    requires i < |ABBREVIATIONS[2]|
    ensures EarlierAbsent(2, ABBREVIATIONS[2][i])
  {
    if i == 0 {
      assert ABBREVIATIONS[2][0] == "marc" && "marc" + "." == "marc.";
      assert forall j | 0 <= j < 2 :: "marc" !in MONTH_MAP[j] && "marc." !in MONTH_MAP[j];
    } else if i == 1 {
      assert ABBREVIATIONS[2][1] == "mar" && "mar" + "." == "mar.";
      assert forall j | 0 <= j < 2 :: "mar" !in MONTH_MAP[j] && "mar." !in MONTH_MAP[j];
    }
  }

  lemma EarlierAbsentApr(i: nat)
    requires i < |ABBREVIATIONS[3]|
    ensures EarlierAbsent(3, ABBREVIATIONS[3][i])
  {
    assert ABBREVIATIONS[3][0] == "apr" && "apr" + "." == "apr.";
    assert forall j | 0 <= j < 3 :: "apr" !in MONTH_MAP[j] && "apr." !in MONTH_MAP[j];
  }

  lemma EarlierAbsentMay(i: nat)
    requires i < |ABBREVIATIONS[4]|
    ensures EarlierAbsent(4, ABBREVIATIONS[4][i])
  {
    if i == 0 {
      assert ABBREVIATIONS[4][0] == "maj" && "maj" + "." == "maj.";
      assert forall j | 0 <= j < 4 :: "maj" !in MONTH_MAP[j] && "maj." !in MONTH_MAP[j];
    } else if i == 1 {
      assert ABBREVIATIONS[4][1] == "may" && "may" + "." == "may.";
      assert forall j | 0 <= j < 4 :: "may" !in MONTH_MAP[j] && "may." !in MONTH_MAP[j];
    }
  }

  lemma EarlierAbsentJun(i: nat)
    requires i < |ABBREVIATIONS[5]|
    ensures EarlierAbsent(5, ABBREVIATIONS[5][i])
  {
    assert ABBREVIATIONS[5][0] == "jun" && "jun" + "." == "jun.";
    assert forall j | 0 <= j < 5 :: "jun" !in MONTH_MAP[j] && "jun." !in MONTH_MAP[j];
  }

  lemma EarlierAbsentJul(i: nat)
    requires i < |ABBREVIATIONS[6]|
    ensures EarlierAbsent(6, ABBREVIATIONS[6][i])
  {
    assert ABBREVIATIONS[6][0] == "jul" && "jul" + "." == "jul.";
    assert forall j | 0 <= j < 6 :: "jul" !in MONTH_MAP[j] && "jul." !in MONTH_MAP[j];
  }

  lemma EarlierAbsentAug(i: nat)
    requires i < |ABBREVIATIONS[7]|
    ensures EarlierAbsent(7, ABBREVIATIONS[7][i])
  {
    assert ABBREVIATIONS[7][0] == "aug" && "aug" + "." == "aug.";
    assert forall j | 0 <= j < 7 :: "aug" !in MONTH_MAP[j] && "aug." !in MONTH_MAP[j];
  }

  lemma EarlierAbsentSep(i: nat)
    requires i < |ABBREVIATIONS[8]|
    ensures EarlierAbsent(8, ABBREVIATIONS[8][i])
  {
    if i == 0 {
      assert ABBREVIATIONS[8][0] == "szept" && "szept" + "." == "szept.";
      assert forall j | 0 <= j < 8 :: "szept" !in MONTH_MAP[j] && "szept." !in MONTH_MAP[j];
    } else if i == 1 {
      assert ABBREVIATIONS[8][1] == "sep" && "sep" + "." == "sep.";
      assert forall j | 0 <= j < 8 :: "sep" !in MONTH_MAP[j] && "sep." !in MONTH_MAP[j];
    } else if i == 2 {
      assert ABBREVIATIONS[8][2] == "sept" && "sept" + "." == "sept.";
      assert forall j | 0 <= j < 8 :: "sept" !in MONTH_MAP[j] && "sept." !in MONTH_MAP[j];
    }
  }

  lemma EarlierAbsentOct(i: nat)
    requires i < |ABBREVIATIONS[9]|
    ensures EarlierAbsent(9, ABBREVIATIONS[9][i])
  {
    if i == 0 {
      assert ABBREVIATIONS[9][0] == "okt" && "okt" + "." == "okt.";
      assert forall j | 0 <= j < 9 :: "okt" !in MONTH_MAP[j] && "okt." !in MONTH_MAP[j];
    } else if i == 1 {
      assert ABBREVIATIONS[9][1] == "oct" && "oct" + "." == "oct.";
      assert forall j | 0 <= j < 9 :: "oct" !in MONTH_MAP[j] && "oct." !in MONTH_MAP[j];
    }
  }

  lemma EarlierAbsentNov(i: nat)
    requires i < |ABBREVIATIONS[10]|
    ensures EarlierAbsent(10, ABBREVIATIONS[10][i])
  {
    assert ABBREVIATIONS[10][0] == "nov" && "nov" + "." == "nov.";
    assert forall j | 0 <= j < 10 :: "nov" !in MONTH_MAP[j] && "nov." !in MONTH_MAP[j];
  }

  lemma EarlierAbsentDec(i: nat)
    requires i < |ABBREVIATIONS[11]|
    ensures EarlierAbsent(11, ABBREVIATIONS[11][i])
  {
    if i == 0 {
      assert ABBREVIATIONS[11][0] == "dec" && "dec" + "." == "dec.";
      assert forall j | 0 <= j < 11 :: "dec" !in MONTH_MAP[j] && "dec." !in MONTH_MAP[j];
    } else if i == 1 {
      assert ABBREVIATIONS[11][1] == "dez" && "dez" + "." == "dez.";
      assert forall j | 0 <= j < 11 :: "dez" !in MONTH_MAP[j] && "dez." !in MONTH_MAP[j];
    }
  }

  /** `key in keys`, one key at a time. */
  predicate Listed(key: string, keys: seq<string>)
    ensures Listed(key, keys) <==> key in keys
  {
    |keys| > 0 && (key == keys[0] || Listed(key, keys[1..]))
  }

  /** `MONTH_MAP.get(key)`. */
  function MonthGet(key: string): (r: Option<nat>)
    ensures r.Some? ==> 1 <= r.value <= 12 && Listed(key, MONTH_MAP[r.value - 1])
    ensures r.None? ==> forall k | 0 <= k < 12 :: !Listed(key, MONTH_MAP[k])
  {
    MonthFrom(key, 0)
  }

  function MonthFrom(key: string, k: nat): (r: Option<nat>)
    requires k <= 12
    ensures r.Some? ==> k < r.value <= 12 && Listed(key, MONTH_MAP[r.value - 1])
    ensures r.None? ==> forall j | k <= j < 12 :: !Listed(key, MONTH_MAP[j])
    decreases 12 - k
  {
    if k == 12 then None
    else if Listed(key, MONTH_MAP[k]) then Some(k + 1)
    else MonthFrom(key, k + 1)
  }

  /** What a match of a numeric shape holds: a 1-2 digit day and month, a
      4-digit year, and separators of `.`, `-`, `/` or space. */
  lemma DayMonthYearGroups(s: string, f: Found)
    requires f.start <= |s| && MatchAt(DATE_DDMMYYYY, s, f.start) == Some(f.ends)
    ensures 1 <= |Group(s, f, 1, 2)| <= 2 && IsDigits(Group(s, f, 1, 2))
    ensures 1 <= |Group(s, f, 3, 4)| <= 2 && IsDigits(Group(s, f, 3, 4))
    ensures |Group(s, f, 5, 6)| == 4 && IsDigits(Group(s, f, 5, 6))
    ensures GapOk(Group(s, f, 2, 3), SEPS, true) && GapOk(Group(s, f, 4, 5), SEPS, true)
  {
    RepGroupOfMatch(DATE_DDMMYYYY, s, f, 1);
    RepGroupOfMatch(DATE_DDMMYYYY, s, f, 3);
    RepGroupOfMatch(DATE_DDMMYYYY, s, f, 5);
    GapGroupOfMatch(DATE_DDMMYYYY, s, f, 2);
    GapGroupOfMatch(DATE_DDMMYYYY, s, f, 4);
  }

  lemma YearMonthDayGroups(s: string, f: Found)
    requires f.start <= |s| && MatchAt(DATE_YYYYMMDD, s, f.start) == Some(f.ends)
    ensures |Group(s, f, 1, 2)| == 4 && IsDigits(Group(s, f, 1, 2))
    ensures 1 <= |Group(s, f, 3, 4)| <= 2 && IsDigits(Group(s, f, 3, 4))
    ensures 1 <= |Group(s, f, 5, 6)| <= 2 && IsDigits(Group(s, f, 5, 6))
    ensures GapOk(Group(s, f, 2, 3), SEPS, true) && GapOk(Group(s, f, 4, 5), SEPS, true)
  {
    RepGroupOfMatch(DATE_YYYYMMDD, s, f, 1);
    RepGroupOfMatch(DATE_YYYYMMDD, s, f, 3);
    RepGroupOfMatch(DATE_YYYYMMDD, s, f, 5);
    GapGroupOfMatch(DATE_YYYYMMDD, s, f, 2);
    GapGroupOfMatch(DATE_YYYYMMDD, s, f, 4);
  }

  /** What a match of the day-month-name-year shape holds: exactly two year
      digits and a month word of at least three letters. */
  lemma DayMonYearGroups(s: string, f: Found)
    requires f.start <= |s| && MatchAt(DATE_DD_MON_YY, s, f.start) == Some(f.ends)
    ensures 1 <= |Group(s, f, 1, 2)| <= 2 && IsDigits(Group(s, f, 1, 2))
    ensures |Group(s, f, 3, 4)| >= 3 && IsAlphas(Group(s, f, 3, 4))
    ensures |Group(s, f, 6, 7)| == 2 && IsDigits(Group(s, f, 6, 7))
  {
    RepGroupOfMatch(DATE_DD_MON_YY, s, f, 1);
    RepGroupOfMatch(DATE_DD_MON_YY, s, f, 3);
    RepGroupOfMatch(DATE_DD_MON_YY, s, f, 6);
  }
}
