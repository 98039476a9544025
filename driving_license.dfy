/** The EU driving-licence extractor and its processor: the numbered field
    anchors of the card ("1.", "4a.", "4(b):", "5.") are found on every OCR
    line, the first value seen for each label is kept, and the fields are
    read from that label table. */
module DrivingLicense {
  import opened Base
  import opened Chars
  import opened PyStr
  import opened Regex
  import opened Calendar
  import opened OcrText
  import opened Normalize
  import opened Fields

  // ---------------------------------------------------------------------
  // Labels
  // ---------------------------------------------------------------------

  predicate NotParen(c: char) { c != '(' && c != ')' }

  predicate NotDot(c: char) { c != '.' }

  /** What a normalised label never holds: parentheses, dots, whitespace. */
  predicate IsLabelJunk(c: char)
  {
    c == '(' || c == ')' || c == '.' || IsSpace(c)
  }

  predicate NotLabelJunk(c: char) { !IsLabelJunk(c) }

  /** A normalised label: lower case and free of label junk. */
  predicate IsDlLabel(s: string)
  {
    forall i | 0 <= i < |s| :: !IsLabelJunk(s[i]) && !IsUpper(s[i])
  }

  /** `_normalize_dl_label`: lower-cased, parentheses and dots removed, then
      every whitespace character dropped by `"".join(s.split())`. */
  function NormalizeDlLabel(raw: string): (r: string)
  {
    Concat(Words(Filter(Filter(LowerStr(raw), NotParen), NotDot)))
  }

  /** The four passes are one pass: lower-case, then keep what is not label
      junk. */
  lemma NormalizeDlLabelIsFilter(raw: string)
    ensures NormalizeDlLabel(raw) == Filter(LowerStr(raw), NotLabelJunk)
  {
    var l := LowerStr(raw);
    var f := Filter(Filter(l, NotParen), NotDot);
    ConcatWords(f);
    var pd := (c: char) => NotParen(c) && NotDot(c);
    FilterFilter(l, NotParen, NotDot, pd);
    FilterFilter(l, pd, NotSpace, NotLabelJunk);
  }

  lemma {:induction false} LowerStrNoUpper(s: string)
    ensures forall i | 0 <= i < |LowerStr(s)| :: !IsUpper(LowerStr(s)[i])
  {
  }

  lemma {:induction false} FilterKeepsNoUpper(s: string, keep: char -> bool)
    requires forall i | 0 <= i < |s| :: !IsUpper(s[i])
    ensures forall i | 0 <= i < |Filter(s, keep)| :: !IsUpper(Filter(s, keep)[i])
    decreases |s|
  {
    if |s| > 0 {
      FilterKeepsNoUpper(s[1..], keep);
      assert Filter(s, keep) == (if keep(s[0]) then [s[0]] else "") + Filter(s[1..], keep);
    }
  }

  /** A normalised label is lower case and free of parentheses, dots and
      whitespace. */
  lemma NormalizeDlLabelShape(raw: string)
    ensures IsDlLabel(NormalizeDlLabel(raw))
  {
    NormalizeDlLabelIsFilter(raw);
    LowerStrNoUpper(raw);
    FilterKeepsNoUpper(LowerStr(raw), NotLabelJunk);
  }

  lemma {:induction false} LowerStrFixed(s: string)
    requires forall i | 0 <= i < |s| :: !IsUpper(s[i])
    ensures LowerStr(s) == s
  {
    assert forall i | 0 <= i < |s| :: LowerStr(s)[i] == s[i];
  }

  /** Normalising a normalised label changes nothing. */
  lemma NormalizeDlLabelIdempotent(raw: string)
    ensures NormalizeDlLabel(NormalizeDlLabel(raw)) == NormalizeDlLabel(raw)
  {
    var r := NormalizeDlLabel(raw);
    NormalizeDlLabelShape(raw);
    NormalizeDlLabelIsFilter(r);
    LowerStrFixed(r);
    FilterAll(r, NotLabelJunk);
  }

  lemma FilterDrops(x: string, c: char, y: string, keep: char -> bool)
    requires !keep(c)
    ensures Filter(x + [c] + y, keep) == Filter(x + y, keep)
  {
    FilterConcat(x + [c], y, keep);
    FilterConcat(x, [c], keep);
    FilterConcat(x, y, keep);
    assert Filter([c], keep) == "";
    assert Filter(x + [c], keep) == Filter(x, keep);
  }

  lemma LowerStrAround(a: string, c: char, b: string)
    requires !IsUpper(c)
    ensures LowerStr(a + [c] + b) == LowerStr(a) + [c] + LowerStr(b)
  {
    LowerStrConcat(a + [c], b);
    LowerStrConcat(a, [c]);
  }

  lemma LabelKeyIgnoresJunk(a: string, c: char, b: string)
    requires IsLabelJunk(c)
    ensures Filter(LowerStr(a + [c] + b), NotLabelJunk) == Filter(LowerStr(a + b), NotLabelJunk)
  {
    LowerStrAround(a, c, b);
    LowerStrConcat(a, b);
    FilterDrops(LowerStr(a), c, LowerStr(b), NotLabelJunk);
  }

  /** A parenthesis, dot or whitespace character anywhere in a label does not
      change it: "4(a)", "4. a" and "4a" are one label, and "1." is "1". */
  lemma NormalizeDlLabelIgnoresJunk(a: string, c: char, b: string)
    requires IsLabelJunk(c)
    ensures NormalizeDlLabel(a + [c] + b) == NormalizeDlLabel(a + b)
  {
    NormalizeDlLabelIsFilter(a + [c] + b);
    NormalizeDlLabelIsFilter(a + b);
    LabelKeyIgnoresJunk(a, c, b);
  }

  /** Case does not matter: "4A" is "4a". */
  lemma NormalizeDlLabelIgnoresCase(a: string, b: string)
    requires LowerStr(a) == LowerStr(b)
    ensures NormalizeDlLabel(a) == NormalizeDlLabel(b)
  {
    NormalizeDlLabelIsFilter(a);
    NormalizeDlLabelIsFilter(b);
  }

  // ---------------------------------------------------------------------
  // Anchor pairs of one line
  // ---------------------------------------------------------------------

  /** The index of the `label` group of the anchor pattern (group 1 is
      `prefix`). */
  const LABEL_GROUP: nat := 2

  /** The separator noise `value.strip(" .:-–—·|")` trims. */
  const VALUE_NOISE: string := " .:-\U{2013}\U{2014}\U{00B7}|"

  /** The compiled anchor pattern `DL_EU_ANCHOR_ANYWHERE`, through its
      `finditer` matches. */
  datatype Rules = Rules(anchors: string -> seq<Hit>)

  /** A value as the pairs hold it: non-empty and whitespace-collapsed. */
  predicate Tidy(v: string)
  {
    v != "" && Collapsed(v)
  }

  /** The normalised label of match `m`. */
  function PairLabel(m: Hit): string
  {
    NormalizeDlLabel(Group(m, LABEL_GROUP).OrElse(""))
  }

  /** The text between the end of match `i` and the start of the next match
      (or the end of the line), stripped, cleared of separator noise at both
      ends and whitespace-collapsed. */
  function PairValue(s: string, ms: seq<Hit>, i: nat): string
    requires i < |ms|
  {
    var end := if i + 1 < |ms| then ms[i + 1].start else |s|;
    Collapse(StripChars(Strip(Slice(s, ms[i].end, end)), VALUE_NOISE))
  }

  /** One candidate pair per match, in match order. */
  function Candidates(s: string, ms: seq<Hit>): (r: seq<(string, string)>)
    ensures |r| == |ms|
  {
    seq(|ms|, i requires 0 <= i < |ms| => (PairLabel(ms[i]), PairValue(s, ms, i)))
  }

  /** Candidate labels are normalised and candidate values collapsed. */
  lemma CandidatesShape(s: string, ms: seq<Hit>)
    ensures forall i | 0 <= i < |ms| :: IsDlLabel(Candidates(s, ms)[i].0) && Collapsed(Candidates(s, ms)[i].1)
  {
    var cs := Candidates(s, ms);
    forall i | 0 <= i < |ms| ensures IsDlLabel(cs[i].0) && Collapsed(cs[i].1) {
      NormalizeDlLabelShape(Group(ms[i], LABEL_GROUP).OrElse(""));
      var end := if i + 1 < |ms| then ms[i + 1].start else |s|;
      CollapseShape(StripChars(Strip(Slice(s, ms[i].end, end)), VALUE_NOISE));
    }
  }

  /** The first `n` pairs of `ps` whose value is not empty, in order. */
  function Valued(ps: seq<(string, string)>, n: nat): (r: seq<(string, string)>)
    requires n <= |ps|
    ensures |r| <= n
    ensures forall i | 0 <= i < |r| :: r[i].1 != ""
  {
    if n == 0 then []
    else
      var p := ps[n - 1];
      Valued(ps, n - 1) + (if p.1 != "" then [p] else [])
  }

  /** Nothing but the empty values is dropped: a pair is kept exactly when
      it is one of the first `n` with a non-empty value. */
  lemma {:induction false} ValuedMembers(ps: seq<(string, string)>, n: nat)
    requires n <= |ps|
    ensures forall p :: p in Valued(ps, n) <==> p in ps[..n] && p.1 != ""
  {
    if n > 0 {
      ValuedMembers(ps, n - 1);
      assert ps[..n] == ps[..n - 1] + [ps[n - 1]];
    }
  }

  /** The kept pairs have normalised labels and tidy values. */
  lemma ValuedTidy(ps: seq<(string, string)>)
    requires forall i | 0 <= i < |ps| :: IsDlLabel(ps[i].0) && Collapsed(ps[i].1)
    ensures forall i | 0 <= i < |Valued(ps, |ps|)| :: IsDlLabel(Valued(ps, |ps|)[i].0) && Tidy(Valued(ps, |ps|)[i].1)
  {
    var r := Valued(ps, |ps|);
    ValuedMembers(ps, |ps|);
    assert ps[..|ps|] == ps;
    forall i | 0 <= i < |r| ensures IsDlLabel(r[i].0) && Tidy(r[i].1) {
      assert r[i] in ps;
      var j :| 0 <= j < |ps| && ps[j] == r[i];
    }
  }

  /** The pairs of a normalised line `s` with anchor matches `ms`. */
  function MatchPairs(s: string, ms: seq<Hit>): seq<(string, string)>
  {
    Valued(Candidates(s, ms), |ms|)
  }

  /** What `_extract_anchor_pairs_from_line(line)` returns. */
  function AnchorPairsOf(line: string, rules: Rules): seq<(string, string)>
  {
    var s := NormalizeOcrLine(line);
    if s == "" then []
    else
      var ms := rules.anchors(s);
      if |ms| == 0 then [] else MatchPairs(s, ms)
  }

  /** Every pair of a line has a normalised label and a tidy value. */
  lemma AnchorPairsShape(line: string, rules: Rules)
    ensures forall p | p in AnchorPairsOf(line, rules) :: IsDlLabel(p.0) && Tidy(p.1)
  {
    var s := NormalizeOcrLine(line);
    if s != "" && |rules.anchors(s)| > 0 {
      var ms := rules.anchors(s);
      CandidatesShape(s, ms);
      ValuedTidy(Candidates(s, ms));
    }
  }

  /** When no value is empty, every pair is kept, in order. */
  lemma {:induction false} ValuedAll(ps: seq<(string, string)>, n: nat)
    requires n <= |ps|
    requires forall i | 0 <= i < n :: ps[i].1 != ""
    ensures Valued(ps, n) == ps[..n]
  {
    if n > 0 {
      ValuedAll(ps, n - 1);
      assert ps[..n] == ps[..n - 1] + [ps[n - 1]];
    }
  }

  /** Order is kept: the pairs kept from a prefix begin the pairs kept from
      the whole. */
  lemma {:induction false} ValuedPrefix(ps: seq<(string, string)>, m: nat, n: nat)
    requires m <= n <= |ps|
    ensures |Valued(ps, m)| <= |Valued(ps, n)| && Valued(ps, n)[..|Valued(ps, m)|] == Valued(ps, m)
    decreases n - m
  {
    if m < n {
      ValuedPrefix(ps, m, n - 1);
      var a := Valued(ps, n - 1);
      assert Valued(ps, n)[..|a|] == a;
    }
  }

  /** The label and the trimmed value of match `i`. */
  method PairAt(s: string, ms: seq<Hit>, i: nat) returns (lbl: string, value: string)
    requires i < |ms|
    ensures (lbl, value) == Candidates(s, ms)[i]
  {
    lbl := NormalizeDlLabel(Group(ms[i], LABEL_GROUP).OrElse(""));
    var start := ms[i].end;
    var end := if i + 1 < |ms| then ms[i + 1].start else |s|;
    value := Strip(Slice(s, start, end));
    value := StripChars(value, VALUE_NOISE);
    value := Collapse(value);
  }

  /** The `for i, m in enumerate(matches)` loop. */
  method PairsOfMatches(s: string, ms: seq<Hit>) returns (pairs: seq<(string, string)>)
    ensures pairs == MatchPairs(s, ms)
  {
    ghost var cs := Candidates(s, ms);
    pairs := [];
    var n := |ms|;
    for i := 0 to n
      invariant n == |cs|
      invariant pairs == Valued(cs, i)
    {
      var lbl, value := PairAt(s, ms, i);
      if value != "" {
        pairs := pairs + [(lbl, value)];
      }
    }
  }

  /** `_extract_anchor_pairs_from_line`. */
  method AnchorPairs(line: string, rules: Rules) returns (pairs: seq<(string, string)>)
    ensures pairs == AnchorPairsOf(line, rules)
  {
    var s := NormalizeOcrLine(line);
    if s == "" {
      return [];
    }
    var ms := rules.anchors(s);
    if |ms| == 0 {
      return [];
    }
    pairs := PairsOfMatches(s, ms);
  }

  // ---------------------------------------------------------------------
  // The label table
  // ---------------------------------------------------------------------

  /** Labels to values, as `collect_kv` builds it. */
  type Kv = map<string, string>

  /** `kv.get(k)`. */
  function KvGet(kv: Kv, k: string): (r: Option<string>)
    ensures r.Some? <==> k in kv
    ensures r.Some? ==> r.value == kv[k]
  {
    if k in kv then Some(kv[k]) else None
  }

  /** `kv.setdefault(p[0], p[1])`. */
  function SetDefault(kv: Kv, p: (string, string)): Kv
  {
    if p.0 in kv then kv else kv[p.0 := p.1]
  }

  /** `kv.setdefault` for each pair in turn. */
  function SetDefaults(kv: Kv, ps: seq<(string, string)>): Kv
    decreases |ps|
  {
    if |ps| == 0 then kv else SetDefaults(SetDefault(kv, ps[0]), ps[1..])
  }

  /** The pairs of every line, in turn. */
  function CollectFrom(kv: Kv, lines: seq<string>, pairsOf: string -> seq<(string, string)>): Kv
    decreases |lines|
  {
    if |lines| == 0 then kv else CollectFrom(SetDefaults(kv, pairsOf(lines[0])), lines[1..], pairsOf)
  }

  /** `_extract_anchor_pairs_from_line` as a function of the line. */
  function LinePairs(rules: Rules): string -> seq<(string, string)>
  {
    (line: string) => AnchorPairsOf(line, rules)
  }

  /** What `collect_kv(text)` returns. */
  function CollectKvOf(text: string, rules: Rules): Kv
  {
    CollectFrom(map[], SplitLinesOf(text), LinePairs(rules))
  }

  /** The value of the first pair labelled `k`: the reference reading of
      "first-seen value per label". */
  function FirstValue(ps: seq<(string, string)>, k: string): (r: Option<string>)
  {
    if |ps| == 0 then None else if ps[0].0 == k then Some(ps[0].1) else FirstValue(ps[1..], k)
  }

  /** Every pair of the lines, in line order. */
  function AllPairs(lines: seq<string>, pairsOf: string -> seq<(string, string)>): seq<(string, string)>
    decreases |lines|
  {
    if |lines| == 0 then [] else pairsOf(lines[0]) + AllPairs(lines[1..], pairsOf)
  }

  /** `setdefault` never replaces a value: a label already in the table
      keeps its value, and any other label gets the value of its first
      pair. */
  lemma {:induction false} SetDefaultsFirst(kv: Kv, ps: seq<(string, string)>, k: string)
    ensures KvGet(SetDefaults(kv, ps), k) == if k in kv then Some(kv[k]) else FirstValue(ps, k)
    decreases |ps|
  {
    if |ps| > 0 {
      SetDefaultsFirst(SetDefault(kv, ps[0]), ps[1..], k);
    }
  }

  lemma {:induction false} SetDefaultsAppend(kv: Kv, a: seq<(string, string)>, b: seq<(string, string)>)
    ensures SetDefaults(kv, a + b) == SetDefaults(SetDefaults(kv, a), b)
    decreases |a|
  {
    if |a| == 0 {
      assert a + b == b;
    } else {
      assert (a + b)[0] == a[0];
      assert (a + b)[1..] == a[1..] + b;
      SetDefaultsAppend(SetDefault(kv, a[0]), a[1..], b);
    }
  }

  /** Going line by line is going through all the pairs at once. */
  lemma {:induction false} CollectFromAll(kv: Kv, lines: seq<string>, pairsOf: string -> seq<(string, string)>)
    ensures CollectFrom(kv, lines, pairsOf) == SetDefaults(kv, AllPairs(lines, pairsOf))
    decreases |lines|
  {
    if |lines| > 0 {
      CollectFromAll(SetDefaults(kv, pairsOf(lines[0])), lines[1..], pairsOf);
      SetDefaultsAppend(kv, pairsOf(lines[0]), AllPairs(lines[1..], pairsOf));
    }
  }

  /** `collect_kv` keeps the first-seen value per label: the table holds a
      label exactly when some line has a pair with it, and then the value of
      the first such pair in line order. */
  lemma CollectKvFirstSeen(text: string, rules: Rules, k: string)
    ensures KvGet(CollectKvOf(text, rules), k) == FirstValue(AllPairs(SplitLinesOf(text), LinePairs(rules)), k)
  {
    CollectFromAll(map[], SplitLinesOf(text), LinePairs(rules));
    SetDefaultsFirst(map[], AllPairs(SplitLinesOf(text), LinePairs(rules)), k);
  }

  /** A table of normalised labels and tidy values. */
  predicate TidyKv(kv: Kv)
  {
    forall k | k in kv :: IsDlLabel(k) && Tidy(kv[k])
  }

  /** Pairs all of whose labels are normalised and values tidy. */
  predicate TidyPairs(ps: seq<(string, string)>)
  {
    forall p | p in ps :: IsDlLabel(p.0) && Tidy(p.1)
  }

  lemma {:induction false} SetDefaultsTidy(kv: Kv, ps: seq<(string, string)>)
    requires TidyKv(kv) && TidyPairs(ps)
    ensures TidyKv(SetDefaults(kv, ps))
    decreases |ps|
  {
    if |ps| > 0 {
      assert ps[0] in ps;
      assert forall p | p in ps[1..] :: p in ps;
      SetDefaultsTidy(SetDefault(kv, ps[0]), ps[1..]);
    }
  }

  lemma {:induction false} CollectFromTidy(kv: Kv, lines: seq<string>, rules: Rules)
    requires TidyKv(kv)
    ensures TidyKv(CollectFrom(kv, lines, LinePairs(rules)))
    decreases |lines|
  {
    if |lines| > 0 {
      AnchorPairsShape(lines[0], rules);
      SetDefaultsTidy(kv, LinePairs(rules)(lines[0]));
      CollectFromTidy(SetDefaults(kv, LinePairs(rules)(lines[0])), lines[1..], rules);
    }
  }

  /** Every label of the table is normalised and every value is non-empty
      and whitespace-collapsed. */
  lemma CollectKvTidy(text: string, rules: Rules)
    ensures TidyKv(CollectKvOf(text, rules))
  {
    CollectFromTidy(map[], SplitLinesOf(text), rules);
  }

  /** The inner `for label, value in ...: kv.setdefault(label, value)` loop. */
  method SetDefaultsLoop(kv0: Kv, pairs: seq<(string, string)>) returns (kv: Kv)
    ensures kv == SetDefaults(kv0, pairs)
  {
    kv := kv0;
    var n := |pairs|;
    for j := 0 to n
      invariant n == |pairs|
      invariant SetDefaults(kv, pairs[j..]) == SetDefaults(kv0, pairs)
    {
      assert pairs[j..][1..] == pairs[j + 1..];
      var (lbl, value) := pairs[j];
      if lbl !in kv {
        kv := kv[lbl := value];
      }
    }
  }

  /** `collect_kv`. */
  method CollectKv(text: string, rules: Rules) returns (kv: Kv)
    ensures kv == CollectKvOf(text, rules)
  {
    var lines := SplitLines(text);
    kv := map[];
    var n := |lines|;
    for i := 0 to n
      invariant n == |lines|
      invariant CollectFrom(kv, lines[i..], LinePairs(rules)) == CollectKvOf(text, rules)
    {
      assert lines[i..][1..] == lines[i + 1..];
      var pairs := AnchorPairs(lines[i], rules);
      assert pairs == LinePairs(rules)(lines[i]);
      kv := SetDefaultsLoop(kv, pairs);
    }
  }

  // ---------------------------------------------------------------------
  // Field extractors
  // ---------------------------------------------------------------------

  /** The field numbers of the EU licence layout that the extractors read. */
  const SURNAME_LABEL: string := "1"
  const GIVEN_NAMES_LABEL: string := "2"
  const BIRTH_LABEL: string := "3"
  const ISSUE_LABEL: string := "4a"
  const EXPIRY_LABEL: string := "4b"
  const AUTHORITY_LABEL: string := "4c"
  const NUMBER_LABEL: string := "5"

  /** `extract_full_name`: the stripped surname (field 1) and given names
      (field 2) joined by a space, None unless both are non-empty. */
  function ExtractFullName(kv: Kv): Option<string>
  {
    var surname := Strip(KvGet(kv, SURNAME_LABEL).OrElse(""));
    var given := Strip(KvGet(kv, GIVEN_NAMES_LABEL).OrElse(""));
    if surname == "" || given == "" then None else Some(surname + " " + given)
  }

  /** On a tidy table the name is present exactly when both fields are, and
      it is then the surname, one space and the given names. */
  lemma FullNameSpec(kv: Kv)
    requires TidyKv(kv)
    ensures ExtractFullName(kv).Some? <==> SURNAME_LABEL in kv && GIVEN_NAMES_LABEL in kv
    ensures ExtractFullName(kv).Some? ==>
      ExtractFullName(kv).value == kv[SURNAME_LABEL] + " " + kv[GIVEN_NAMES_LABEL]
  {
    if SURNAME_LABEL in kv {
      StripOfCollapsed(kv[SURNAME_LABEL]);
    }
    if GIVEN_NAMES_LABEL in kv {
      StripOfCollapsed(kv[GIVEN_NAMES_LABEL]);
    }
  }

  predicate HasDigit(t: string)
  {
    exists i | 0 <= i < |t| :: IsDigit(t[i])
  }

  /** A token that holds a digit and one of `.`, `-`, `/`: taken for a date
      and left out of the birth place. */
  predicate DateLike(t: string)
  {
    HasDigit(t) && ('.' in t || '-' in t || '/' in t)
  }

  /** The tokens that are not date-like, in order. */
  function PlaceTokens(tokens: seq<string>): (r: seq<string>)
    ensures |r| <= |tokens|
  {
    if |tokens| == 0 then []
    else
      var t := tokens[|tokens| - 1];
      PlaceTokens(tokens[..|tokens| - 1]) + (if DateLike(t) then [] else [t])
  }

  /** A token is kept exactly when it is not date-like. */
  lemma {:induction false} PlaceTokensMembers(tokens: seq<string>)
    ensures forall t :: t in PlaceTokens(tokens) <==> t in tokens && !DateLike(t)
  {
    if |tokens| > 0 {
      PlaceTokensMembers(tokens[..|tokens| - 1]);
      assert tokens == tokens[..|tokens| - 1] + [tokens[|tokens| - 1]];
    }
  }

  /** The loop over `raw.split()` that keeps the place tokens. */
  method KeepPlaceTokens(tokens: seq<string>) returns (kept: seq<string>)
    ensures kept == PlaceTokens(tokens)
  {
    kept := [];
    var n := |tokens|;
    for i := 0 to n
      invariant n == |tokens|
      invariant kept == PlaceTokens(tokens[..i])
    {
      assert tokens[..i + 1][..i] == tokens[..i];
      var t := tokens[i];
      if DateLike(t) {
        continue;
      }
      kept := kept + [t];
    }
    assert tokens[..n] == tokens;
  }

  /** What `extract_birth_date_and_place` returns: nothing without a
      non-empty field 3; the raw field as the place when it holds no date;
      otherwise the earliest date and the remaining tokens. */
  function BirthDateAndPlace(kv: Kv): (Option<string>, Option<string>)
  {
    var raw := KvGet(kv, BIRTH_LABEL);
    if raw.None? || raw.value == "" then (None, None)
    else
      var ds := DatesIso(raw.value);
      if |ds| == 0 then (None, raw)
      else (Some(ds[0]), OrNone(Strip(JoinSpace(PlaceTokens(Words(raw.value))))))
  }

  /** `extract_birth_date_and_place`. */
  method ExtractBirthDateAndPlace(kv: Kv) returns (birth: Option<string>, place: Option<string>)
    ensures (birth, place) == BirthDateAndPlace(kv)
  {
    var raw := KvGet(kv, BIRTH_LABEL);
    if raw.None? || raw.value == "" {
      return None, None;
    }
    var ds := ParseDatesIso(raw.value);
    if |ds| == 0 {
      return None, raw;
    }
    birth := Some(ds[0]);
    var kept := KeepPlaceTokens(Words(raw.value));
    place := OrNone(Strip(JoinSpace(kept)));
  }

  lemma {:induction false} PlaceTokensAreTokens(tokens: seq<string>)
    requires forall i | 0 <= i < |tokens| :: IsToken(tokens[i])
    ensures forall i | 0 <= i < |PlaceTokens(tokens)| :: IsToken(PlaceTokens(tokens)[i])
  {
    if |tokens| > 0 {
      PlaceTokensAreTokens(tokens[..|tokens| - 1]);
    }
  }

  /** The three outcomes of field 3: no field gives nothing; a field without
      a date is the place as it stands; a field with dates gives its
      earliest date. */
  lemma BirthDateSpec(kv: Kv)
    ensures BIRTH_LABEL !in kv || kv[BIRTH_LABEL] == "" ==> BirthDateAndPlace(kv) == (None, None)
    ensures BIRTH_LABEL in kv && kv[BIRTH_LABEL] != "" && DatesIso(kv[BIRTH_LABEL]) == [] ==>
      BirthDateAndPlace(kv) == (None, Some(kv[BIRTH_LABEL]))
    ensures BIRTH_LABEL in kv && DatesIso(kv[BIRTH_LABEL]) != [] ==>
      var ds := DatesIso(kv[BIRTH_LABEL]);
      var b := BirthDateAndPlace(kv).0;
      b == Some(ds[0]) && IsIsoDate(b.value) && forall j | 0 < j < |ds| :: StrLess(b.value, ds[j])
  {
  }

  /** With a date in field 3, the place is the field's tokens that are not
      date-like, in order, joined by single spaces, and None when there are
      none: its words are exactly those tokens. */
  lemma BirthPlaceSpec(kv: Kv)
    requires BIRTH_LABEL in kv && DatesIso(kv[BIRTH_LABEL]) != []
    ensures var kept := PlaceTokens(Words(kv[BIRTH_LABEL]));
      var p := BirthDateAndPlace(kv).1;
      (p.Some? <==> kept != []) && (p.Some? ==> Words(p.value) == kept)
  {
    var raw := kv[BIRTH_LABEL];
    var kept := PlaceTokens(Words(raw));
    PlaceTokensAreTokens(Words(raw));
    JoinSpaceCollapsed(kept);
    StripOfCollapsed(JoinSpace(kept));
    WordsOfJoin(kept);
  }

  /** The first date of the value of `lbl`, None without a non-empty value
      or without a date in it. */
  function FirstDateOf(kv: Kv, lbl: string): Option<string>
  {
    var raw := KvGet(kv, lbl);
    if raw.None? || raw.value == "" then None
    else
      var ds := DatesIso(raw.value);
      if |ds| > 0 then Some(ds[0]) else None
  }

  /** The date of a label is None exactly when the label is missing or its
      value has no date, and otherwise the earliest of its dates, an ISO
      date. */
  lemma FirstDateSpec(kv: Kv, lbl: string)
    ensures FirstDateOf(kv, lbl).None? <==> lbl !in kv || DatesIso(kv[lbl]) == []
    ensures FirstDateOf(kv, lbl).Some? ==>
      var ds := DatesIso(kv[lbl]);
      var d := FirstDateOf(kv, lbl).value;
      d == ds[0] && IsIsoDate(d) && forall j | 0 < j < |ds| :: StrLess(d, ds[j])
  {
  }

  /** `extract_issue_date`: field 4a. */
  function ExtractIssueDate(kv: Kv): Option<string>
  {
    FirstDateOf(kv, ISSUE_LABEL)
  }

  /** `extract_expiry_date`: field 4b. */
  function ExtractExpiryDate(kv: Kv): Option<string>
  {
    FirstDateOf(kv, EXPIRY_LABEL)
  }

  /** `extract_issuing_authority`: field 4c as it stands. */
  function ExtractIssuingAuthority(kv: Kv): Option<string>
  {
    KvGet(kv, AUTHORITY_LABEL)
  }

  /** The punctuation `strip(".,;:")` removes from the licence number. */
  const NUMBER_PUNCT: string := ".,;:"

  /** `extract_licence_number`: the first token of field 5 without surrounding
      punctuation. `raw.split()[0]` raises IndexError on a value that is all
      whitespace. */
  function ExtractLicenceNumber(kv: Kv): Result<Option<string>>
  {
    var raw := KvGet(kv, NUMBER_LABEL);
    if raw.None? || raw.value == "" then Ok(None)
    else
      var ws := Words(raw.value);
      if |ws| == 0 then Raise(IndexError) else Ok(OrNone(StripChars(ws[0], NUMBER_PUNCT)))
  }

  /** The extractor raises exactly on a non-empty blank field 5, never on a
      tidy table; a number it finds has no whitespace and no punctuation at
      either end. */
  lemma LicenceNumberSpec(kv: Kv)
    ensures ExtractLicenceNumber(kv).Raise? <==>
      NUMBER_LABEL in kv && kv[NUMBER_LABEL] != "" && Blank(kv[NUMBER_LABEL])
    ensures TidyKv(kv) ==> ExtractLicenceNumber(kv).Ok?
    ensures var r := ExtractLicenceNumber(kv);
      r.Ok? && r.value.Some? ==>
        var t := r.value.value;
        t != "" && NoSpace(t) && t[0] !in NUMBER_PUNCT && t[|t| - 1] !in NUMBER_PUNCT
  {
    if NUMBER_LABEL in kv && kv[NUMBER_LABEL] != "" {
      var ws := Words(kv[NUMBER_LABEL]);
      if |ws| > 0 {
        NoSpaceStripChars(ws[0], NUMBER_PUNCT);
      }
    }
  }

  /** A first token without surrounding punctuation is the number as it
      stands. */
  lemma LicenceNumberPlain(kv: Kv)
    requires NUMBER_LABEL in kv && Words(kv[NUMBER_LABEL]) != []
    requires var w := Words(kv[NUMBER_LABEL])[0]; w[0] !in NUMBER_PUNCT && w[|w| - 1] !in NUMBER_PUNCT
    ensures ExtractLicenceNumber(kv) == Ok(Some(Words(kv[NUMBER_LABEL])[0]))
  {
    var w := Words(kv[NUMBER_LABEL])[0];
    assert LStripChars(w, NUMBER_PUNCT) == w;
    assert RStripChars(w, NUMBER_PUNCT) == w;
  }

  // ---------------------------------------------------------------------
  // Processor
  // ---------------------------------------------------------------------

  /** The schema keys the processor assigns. */
  const FILLED: set<Key> := {FULL_NAME, BIRTH_DATE, BIRTH_PLACE, ISSUE_DATE, EXPIRY_DATE, ISSUING_AUTHORITY, DOCUMENT_NUMBER}

  /** The extracted values, in the order the processor stores them. */
  datatype Extracted = Extracted(
    fullName: Option<string>, birthDate: Option<string>, birthPlace: Option<string>,
    issueDate: Option<string>, expiryDate: Option<string>, issuingAuthority: Option<string>,
    documentNumber: Option<string>)

  /** The seven assignments the processor makes. */
  function Assigned(x: Extracted): (r: Record)
    ensures forall k :: k in r <==> k in FILLED
  {
    map[FULL_NAME := x.fullName, BIRTH_DATE := x.birthDate, BIRTH_PLACE := x.birthPlace,
        ISSUE_DATE := x.issueDate, EXPIRY_DATE := x.expiryDate,
        ISSUING_AUTHORITY := x.issuingAuthority, DOCUMENT_NUMBER := x.documentNumber]
  }

  /** `schema.empty()` after the seven assignments, projected onto the keys:
      a key the processor leaves alone reads None either way. */
  function Fill(keys: seq<Key>, x: Extracted): (r: Record)
    ensures forall k :: k in r <==> k in keys
  {
    Project(Assigned(x), keys)
  }

  /** An unfilled key is None; name, birth date and birth place hold their
      values. */
  lemma FillBirth(keys: seq<Key>, x: Extracted)
    ensures var r := Fill(keys, x);
      (forall k | k in r && k !in FILLED :: r[k] == None) &&
      (FULL_NAME in r ==> r[FULL_NAME] == x.fullName) &&
      (BIRTH_DATE in r ==> r[BIRTH_DATE] == x.birthDate) &&
      (BIRTH_PLACE in r ==> r[BIRTH_PLACE] == x.birthPlace)
  {
  }

  /** The issue and expiry dates, the authority and the number hold their
      values. */
  lemma FillIssue(keys: seq<Key>, x: Extracted)
    ensures var r := Fill(keys, x);
      (ISSUE_DATE in r ==> r[ISSUE_DATE] == x.issueDate) &&
      (EXPIRY_DATE in r ==> r[EXPIRY_DATE] == x.expiryDate) &&
      (ISSUING_AUTHORITY in r ==> r[ISSUING_AUTHORITY] == x.issuingAuthority) &&
      (DOCUMENT_NUMBER in r ==> r[DOCUMENT_NUMBER] == x.documentNumber)
  {
  }

  /** The extractor calls on the one table; birth date and place come from
      a single call, and an IndexError of the licence-number extractor
      propagates. */
  function ExtractAll(kv: Kv): Result<Extracted>
  {
    match ExtractLicenceNumber(kv)
    case Raise(e) => Raise(e)
    case Ok(number) =>
      var bp := BirthDateAndPlace(kv);
      Ok(Extracted(ExtractFullName(kv), bp.0, bp.1, ExtractIssueDate(kv), ExtractExpiryDate(kv),
        ExtractIssuingAuthority(kv), number))
  }

  /** `DrivingLicenseProcessor.extract_fields` on `ocr.text or ""`: the label
      table is collected once and every extractor reads it. The schema file
      is not part of this model, so its key list is a parameter. */
  function DrivingLicenseFields(text: string, rules: Rules, keys: seq<Key>): (r: Result<Record>)
    ensures r.Ok? ==> forall k :: k in r.value <==> k in keys
  {
    var kv := CollectKvOf(text, rules);
    match ExtractAll(kv)
    case Raise(e) => Raise(e)
    case Ok(x) => Ok(Fill(keys, x))
  }

  /** The processor never raises: the table it builds has no blank value. */
  lemma DrivingLicenseNeverRaises(text: string, rules: Rules, keys: seq<Key>)
    ensures DrivingLicenseFields(text, rules, keys).Ok?
  {
    CollectKvTidy(text, rules);
    LicenceNumberSpec(CollectKvOf(text, rules));
  }

  /** Unfilled keys are None, the stored birth date and place are the two
      halves of one reading of field 3, and the stored document number is
      the licence number. */
  lemma DrivingLicenseStored(text: string, rules: Rules, keys: seq<Key>)
    ensures var r := DrivingLicenseFields(text, rules, keys);
      var kv := CollectKvOf(text, rules);
      r.Ok? && ExtractLicenceNumber(kv).Ok? &&
      (forall k | k in r.value && k !in FILLED :: r.value[k] == None) &&
      (BIRTH_DATE in r.value ==> r.value[BIRTH_DATE] == BirthDateAndPlace(kv).0) &&
      (BIRTH_PLACE in r.value ==> r.value[BIRTH_PLACE] == BirthDateAndPlace(kv).1) &&
      (DOCUMENT_NUMBER in r.value ==> r.value[DOCUMENT_NUMBER] == ExtractLicenceNumber(kv).value)
  {
    var kv := CollectKvOf(text, rules);
    DrivingLicenseNeverRaises(text, rules, keys);
    LicenceNumberSpec(kv);
    match ExtractAll(kv)
    case Ok(x) => FillBirth(keys, x); FillIssue(keys, x);
  }

  /** The stored full name is the surname and given names of the first
      fields 1 and 2 of the text, and None unless both appear. */
  lemma DrivingLicenseName(text: string, rules: Rules, keys: seq<Key>)
    requires FULL_NAME in keys
    ensures var r := DrivingLicenseFields(text, rules, keys);
      var kv := CollectKvOf(text, rules);
      r.Ok? && FULL_NAME in r.value &&
      (r.value[FULL_NAME].Some? <==> SURNAME_LABEL in kv && GIVEN_NAMES_LABEL in kv) &&
      (r.value[FULL_NAME].Some? ==> r.value[FULL_NAME].value == kv[SURNAME_LABEL] + " " + kv[GIVEN_NAMES_LABEL])
  {
    var kv := CollectKvOf(text, rules);
    DrivingLicenseNeverRaises(text, rules, keys);
    CollectKvTidy(text, rules);
    FullNameSpec(kv);
    match ExtractAll(kv)
    case Ok(x) => FillBirth(keys, x);
  }

  /** The stored issue and expiry dates are the earliest dates of fields 4a
      and 4b, and the stored authority is field 4c as it stands. */
  lemma DrivingLicenseIssue(text: string, rules: Rules, keys: seq<Key>)
    ensures var r := DrivingLicenseFields(text, rules, keys);
      var kv := CollectKvOf(text, rules);
      r.Ok? &&
      (ISSUE_DATE in r.value ==> r.value[ISSUE_DATE] == FirstDateOf(kv, ISSUE_LABEL)) &&
      (EXPIRY_DATE in r.value ==> r.value[EXPIRY_DATE] == FirstDateOf(kv, EXPIRY_LABEL)) &&
      (ISSUING_AUTHORITY in r.value ==> r.value[ISSUING_AUTHORITY] == KvGet(kv, AUTHORITY_LABEL))
  {
    var kv := CollectKvOf(text, rules);
    DrivingLicenseNeverRaises(text, rules, keys);
    match ExtractAll(kv)
    case Ok(x) => FillIssue(keys, x);
  }
}
