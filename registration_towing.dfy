/** `extract_O` of `documents/registration/extract.py`: the towing block.
    Its sub-labels (O.1, O.2, (0) to (3)) are looked up on every line; each
    one found takes the first weight in kg within six lines, and the
    summary keeps the first weight per sub-label, as `O.1=1200 KG; O.2=650
    KG`. */
module RegistrationTowing {
  import opened Base
  import opened PyStr
  import opened Regex
  import opened OcrText
  import opened RegistrationRules
  import opened Registration

  /** The sub-label keys of the anchors, in the order they are tried. */
  const ANCHOR_KEYS: seq<string> := ["O.1", "O.2", "(0)", "(1)", "(2)", "(3)"]

  /** The patterns `extract_O` works with: the anchor patterns in the
      order of `ANCHOR_KEYS`, `STOP_O_BLOCK_END`, the S.2 label and
      `KG_VALUE`. */
  datatype Towing = Towing(anchors: seq<Matcher>, ends: seq<Matcher>, s2: Matcher, kg: Matcher)

  /** The towing patterns of the registration rules. */
  function TowingOf(lb: Labels): (t: Towing)
    ensures |t.anchors| == |ANCHOR_KEYS|
  {
    Towing([lb.O1, lb.O2, lb.Paren0, lb.Paren1, lb.Paren2, lb.Paren3], StopOBlockEnd(lb), lb.S2, KgValue)
  }

  /** `_is_o_block_end`. */
  predicate IsOBlockEnd(line: string, t: Towing)
  {
    AnyMatches(t.ends, line)
  }

  /** The window `range(start, min(len(lines), start + 6))` of
      `_find_kg_near`. */
  function WindowEnd(n: nat, start: nat): nat
  {
    if n < start + 6 then n else start + 6
  }

  /** The line `_find_kg_near(start)` takes its weight from, searching
      from line `j` on: the first line of the window holding a weight in
      kg, unless an O-block end line after the first comes before it. */
  function KgLineFrom(lines: seq<string>, t: Towing, start: nat, j: nat): (k: Option<nat>)
    requires start <= j
    ensures k.Some? ==> j <= k.value < WindowEnd(|lines|, start) && t.kg(lines[k.value]).Some?
    ensures k.Some? && k.value > start ==> !IsOBlockEnd(lines[k.value], t)
    decreases |lines| - j
  {
    if j >= WindowEnd(|lines|, start) then None
    else if j > start && IsOBlockEnd(lines[j], t) then None
    else if t.kg(lines[j]).Some? then Some(j)
    else KgLineFrom(lines, t, start, j + 1)
  }

  /** `_find_kg_near(start)`: the stripped whole weight match of that line. */
  function KgNear(lines: seq<string>, t: Towing, start: nat): (r: Option<string>)
    ensures r.Some? ==> r.value != "" && KgLineFrom(lines, t, start, start).Some?
  {
    match KgLineFrom(lines, t, start, start)
    case None => None
    case Some(k) => OrNone(Strip(Whole(t.kg(lines[k]).value)))
  }

  /** With `KG_VALUE`, whose match starts with a digit, a weight is near
      exactly when the search settles on a line. */
  lemma KgNearFound(lines: seq<string>, lb: Labels, start: nat)
    ensures KgNear(lines, TowingOf(lb), start).Some? <==> KgLineFrom(lines, TowingOf(lb), start, start).Some?
  {
    var t := TowingOf(lb);
    if KgLineFrom(lines, t, start, start).Some? {
      var k := KgLineFrom(lines, t, start, start).value;
      UnitWholeNonBlank(lines[k], 2, 6, "KG", KgValue(lines[k]).value);
    }
  }

  /** Every line the search passes over holds no weight, and none after
      the anchor line ends the block. */
  lemma {:induction false} KgLinePassed(lines: seq<string>, t: Towing, start: nat, j: nat)
    requires start <= j && KgLineFrom(lines, t, start, j).Some?
    ensures forall i | j <= i < KgLineFrom(lines, t, start, j).value ::
      t.kg(lines[i]).None? && (i > start ==> !IsOBlockEnd(lines[i], t))
    decreases |lines| - j
  {
    if t.kg(lines[j]).None? {
      assert KgLineFrom(lines, t, start, j) == KgLineFrom(lines, t, start, j + 1);
      KgLinePassed(lines, t, start, j + 1);
    } else {
      assert KgLineFrom(lines, t, start, j) == Some(j);
    }
  }

  /** A weight on the anchor line itself is always the one taken. */
  lemma KgOnAnchorLine(lines: seq<string>, t: Towing, start: nat)
    requires start < |lines| && t.kg(lines[start]).Some?
    ensures KgLineFrom(lines, t, start, start) == Some(start)
  {
  }

  /** `_find_kg_near`: the loop over the window. */
  method FindKgNear(lines: seq<string>, t: Towing, start: nat) returns (r: Option<string>)
    ensures r == KgNear(lines, t, start)
  {
    var stop := WindowEnd(|lines|, start);
    var j := start;
    while j < stop
      invariant start <= j
      invariant KgLineFrom(lines, t, start, j) == KgLineFrom(lines, t, start, start)
      decreases stop - j
    {
      if j > start && IsOBlockEnd(lines[j], t) {
        return None;
      }
      var m := t.kg(lines[j]);
      if m.Some? {
        return OrNone(Strip(Whole(m.value)));
      }
      j := j + 1;
    }
    return None;
  }

  /** The entry anchor `a` gives on line `i`: the key and `key=kg`, when the
      anchor matches, a weight is near, and, for O.2, the previous line
      (or "" on the first) is not the S.2 label. */
  function Entry(lines: seq<string>, t: Towing, i: nat, a: nat): (e: Option<(string, string)>)
    requires i < |lines| && a < 6 && |t.anchors| == 6
  {
    if t.anchors[a](lines[i]).None? then None
    else match KgNear(lines, t, i)
      case None => None
      case Some(kg) =>
        var prev := if i >= 1 then lines[i - 1] else "";
        if a == 1 && t.s2(prev).Some? then None
        else Some((ANCHOR_KEYS[a], ANCHOR_KEYS[a] + "=" + kg))
  }

  /** An entry is found exactly when the anchor matches, a weight is near
      and the O.2 guard lets it through; it carries the anchor's key and
      reads `key=kg`. */
  lemma EntryShape(lines: seq<string>, t: Towing, i: nat, a: nat)
    requires i < |lines| && a < 6 && |t.anchors| == 6
    ensures var e := Entry(lines, t, i, a);
      e.Some? <==> (t.anchors[a](lines[i]).Some? && KgNear(lines, t, i).Some? &&
        !(a == 1 && t.s2(if i >= 1 then lines[i - 1] else "").Some?))
    ensures var e := Entry(lines, t, i, a);
      e.Some? ==> e.value.0 == ANCHOR_KEYS[a] && e.value.1 == ANCHOR_KEYS[a] + "=" + KgNear(lines, t, i).value
  {
  }

  /** The O.2 anchor right after an S.2 label line gives nothing: a bare
      "02" there is read as the O.2 sub-label by mistake. */
  lemma O2AfterS2(lines: seq<string>, t: Towing, i: nat)
    requires 1 <= i < |lines| && |t.anchors| == 6 && t.s2(lines[i - 1]).Some?
    ensures Entry(lines, t, i, 1).None?
  {
  }

  /** The entry of the inner loop's body, `AnchorEntry` of one anchor. */
  method AnchorEntry(lines: seq<string>, t: Towing, i: nat, a: nat) returns (e: Option<(string, string)>)
    requires i < |lines| && a < 6 && |t.anchors| == 6
    ensures e == Entry(lines, t, i, a)
  {
    if t.anchors[a](lines[i]).None? {
      return None;
    }
    var kg := FindKgNear(lines, t, i);
    if kg.None? {
      return None;
    }
    if a == 1 {
      var prev := if i >= 1 then lines[i - 1] else "";
      if t.s2(prev).Some? {
        return None;
      }
    }
    return Some((ANCHOR_KEYS[a], ANCHOR_KEYS[a] + "=" + kg.value));
  }

  /** The entries of the first `a` anchors on line `i`, in order. */
  function Row(lines: seq<string>, t: Towing, i: nat, a: nat): (r: seq<(string, string)>)
    requires i < |lines| && a <= 6 && |t.anchors| == 6
    ensures |r| <= a
  {
    if a == 0 then []
    else
      var e := Entry(lines, t, i, a - 1);
      Row(lines, t, i, a - 1) + (if e.Some? then [e.value] else [])
  }

  /** Every entry found on the first `i` lines, line by line. */
  function Cands(lines: seq<string>, t: Towing, i: nat): seq<(string, string)>
    requires i <= |lines| && |t.anchors| == 6
  {
    if i == 0 then [] else Cands(lines, t, i - 1) + Row(lines, t, i - 1, 6)
  }

  /** The keys of a list of entries. */
  function KeysOf(cs: seq<(string, string)>): set<string>
  {
    set k | 0 <= k < |cs| :: cs[k].0
  }

  /** The entries that survive the `seen` check: the first one per key. */
  function Kept(cs: seq<(string, string)>): (r: seq<(string, string)>)
    ensures |r| <= |cs|
  {
    if |cs| == 0 then []
    else
      var k := Kept(cs[..|cs| - 1]);
      if cs[|cs| - 1].0 in KeysOf(k) then k else k + [cs[|cs| - 1]]
  }

  /** The `key=kg` texts of a list of entries. */
  function Values(cs: seq<(string, string)>): (r: seq<string>)
    ensures |r| == |cs|
  {
    if |cs| == 0 then [] else Values(cs[..|cs| - 1]) + [cs[|cs| - 1].1]
  }

  /** `sep.join(ws)`. */
  function JoinWith(ws: seq<string>, sep: string): (r: string)
    ensures |ws| > 0 ==> |ws[0]| <= |r| && r[..|ws[0]|] == ws[0]
  {
    if |ws| == 0 then "" else if |ws| == 1 then ws[0]
    else
      var r := ws[0] + sep + JoinWith(ws[1..], sep);
      assert r[..|ws[0]|] == ws[0];
      r
  }

  /** `"; ".join(results) if results else None`. */
  function Summary(results: seq<string>): (r: Option<string>)
    ensures r.None? <==> results == []
    ensures r.Some? ==> |results| > 0 && |results[0]| <= |r.value| && r.value[..|results[0]|] == results[0]
  {
    if |results| == 0 then None else Some(JoinWith(results, "; "))
  }

  /** What `extract_O` returns. */
  function ExtractOOf(text: string, lb: Labels): Option<string>
  {
    var lines := RegLinesOf(text);
    Summary(Values(Kept(Cands(lines, TowingOf(lb), |lines|))))
  }

  /** Appending an entry adds its key. */
  lemma KeysSnoc(k: seq<(string, string)>, e: (string, string))
    ensures KeysOf(k + [e]) == KeysOf(k) + {e.0}
  {
    var r := k + [e];
    forall x | x in KeysOf(r) ensures x in KeysOf(k) + {e.0} {
      var j :| 0 <= j < |r| && r[j].0 == x;
      if j < |k| { assert k[j].0 == x; }
    }
    forall x | x in KeysOf(k) ensures x in KeysOf(r) {
      var j :| 0 <= j < |k| && k[j].0 == x;
      assert r[j].0 == x;
    }
    assert r[|k|].0 == e.0;
  }

  /** Appending one entry keeps it exactly when its key is new. */
  lemma KeptSnoc(cs: seq<(string, string)>, e: (string, string))
    ensures Kept(cs + [e]) == if e.0 in KeysOf(Kept(cs)) then Kept(cs) else Kept(cs) + [e]
  {
    assert (cs + [e])[..|cs|] == cs;
  }

  /** Kept entries have pairwise distinct keys. */
  lemma {:induction false} KeptDistinct(cs: seq<(string, string)>)
    ensures forall i, j | 0 <= i < j < |Kept(cs)| :: Kept(cs)[i].0 != Kept(cs)[j].0
    decreases |cs|
  {
    if |cs| > 0 {
      var init, e := cs[..|cs| - 1], cs[|cs| - 1];
      assert cs == init + [e];
      var k := Kept(init);
      KeptDistinct(init);
      KeptSnoc(init, e);
      if e.0 !in KeysOf(k) {
        var r := k + [e];
        forall i, j | 0 <= i < j < |r| ensures r[i].0 != r[j].0 {
          if j == |k| {
            assert r[i].0 == k[i].0 && k[i].0 in KeysOf(k);
          }
        }
      }
    }
  }

  /** The kept entries have exactly the keys of all the entries. */
  lemma {:induction false} KeptKeys(cs: seq<(string, string)>)
    ensures KeysOf(Kept(cs)) == KeysOf(cs)
    decreases |cs|
  {
    if |cs| > 0 {
      var init, e := cs[..|cs| - 1], cs[|cs| - 1];
      assert cs == init + [e];
      KeptKeys(init);
      KeptSnoc(init, e);
      KeysSnoc(init, e);
      if e.0 !in KeysOf(Kept(init)) {
        KeysSnoc(Kept(init), e);
      }
    }
  }

  /** Each kept entry is the first entry with its key. */
  lemma {:induction false} KeptFirst(cs: seq<(string, string)>)
    ensures forall e | e in Kept(cs) :: exists i | 0 <= i < |cs| :: cs[i] == e && forall j | 0 <= j < i :: cs[j].0 != e.0
    decreases |cs|
  {
    if |cs| > 0 {
      var init, last := cs[..|cs| - 1], cs[|cs| - 1];
      assert cs == init + [last];
      var k := Kept(init);
      KeptFirst(init);
      KeptKeys(init);
      KeptSnoc(init, last);
      forall e | e in Kept(cs) ensures exists i | 0 <= i < |cs| :: cs[i] == e && forall j | 0 <= j < i :: cs[j].0 != e.0 {
        if e in k {
          var i :| 0 <= i < |init| && init[i] == e && forall j | 0 <= j < i :: init[j].0 != e.0;
          assert cs[i] == e;
        } else {
          assert e == last && last.0 !in KeysOf(init);
          forall j | 0 <= j < |cs| - 1 ensures cs[j].0 != e.0 {
            assert cs[j] == init[j] && init[j].0 in KeysOf(init);
          }
          assert cs[|cs| - 1] == e;
        }
      }
    }
  }

  /** Every entry has the key of its anchor. */
  lemma {:induction false} RowKeys(lines: seq<string>, t: Towing, i: nat, a: nat)
    requires i < |lines| && a <= 6 && |t.anchors| == 6
    ensures forall e | e in Row(lines, t, i, a) :: e.0 in ANCHOR_KEYS
    decreases a
  {
    if a > 0 {
      RowKeys(lines, t, i, a - 1);
      EntryShape(lines, t, i, a - 1);
    }
  }

  /** Every candidate has the key of an anchor. */
  lemma {:induction false} CandsKeys(lines: seq<string>, t: Towing, i: nat)
    requires i <= |lines| && |t.anchors| == 6
    ensures forall e | e in Cands(lines, t, i) :: e.0 in ANCHOR_KEYS
    decreases i
  {
    if i > 0 {
      CandsKeys(lines, t, i - 1);
      RowKeys(lines, t, i - 1, 6);
    }
  }

  /** A list of distinct strings drawn from a set is no longer than the set. */
  lemma {:induction false} DistinctBound(xs: seq<string>, universe: set<string>)
    requires forall i, j | 0 <= i < j < |xs| :: xs[i] != xs[j]
    requires forall i | 0 <= i < |xs| :: xs[i] in universe
    ensures |xs| <= |universe|
    decreases |xs|
  {
    if |xs| > 0 {
      var x := xs[|xs| - 1];
      var init := xs[..|xs| - 1];
      forall i | 0 <= i < |init| ensures init[i] in universe - {x} {
        assert init[i] == xs[i] && xs[i] != xs[|xs| - 1];
      }
      DistinctBound(init, universe - {x});
    }
  }

  /** The keys of a list of entries, in order. */
  function KeyList(cs: seq<(string, string)>): (ks: seq<string>)
    ensures |ks| == |cs| && forall i | 0 <= i < |cs| :: ks[i] == cs[i].0
  {
    if |cs| == 0 then [] else [cs[0].0] + KeyList(cs[1..])
  }

  /** The six anchor keys as a set. */
  lemma AnchorKeySet()
    ensures (set k | k in ANCHOR_KEYS) == {"O.1", "O.2", "(0)", "(1)", "(2)", "(3)"}
    ensures |set k | k in ANCHOR_KEYS| == 6
  {
    assert (set k | k in ANCHOR_KEYS) == {"O.1", "O.2", "(0)", "(1)", "(2)", "(3)"};
  }

  /** A list of entries with distinct anchor keys has at most six. */
  lemma AtMostSix(kept: seq<(string, string)>)
    requires forall i, j | 0 <= i < j < |kept| :: kept[i].0 != kept[j].0
    requires forall e | e in kept :: e.0 in ANCHOR_KEYS
    ensures |kept| <= 6
  {
    var ks := KeyList(kept);
    forall i | 0 <= i < |ks| ensures ks[i] in set k | k in ANCHOR_KEYS {
      assert kept[i] in kept;
    }
    DistinctBound(ks, set k | k in ANCHOR_KEYS);
    AnchorKeySet();
  }

  /** The summary keeps the first weight of each sub-label found: its
      entries have distinct keys and are at most six, one per sub-label
      found; and it is None exactly when no anchor found a weight. */
  lemma TowingSummary(text: string, lb: Labels)
    ensures var lines := RegLinesOf(text); var cs := Cands(lines, TowingOf(lb), |lines|);
      |Kept(cs)| <= 6 && KeysOf(Kept(cs)) == KeysOf(cs)
    ensures var lines := RegLinesOf(text);
      ExtractOOf(text, lb).None? <==> Cands(lines, TowingOf(lb), |lines|) == []
  {
    var lines := RegLinesOf(text);
    var t := TowingOf(lb);
    var cs := Cands(lines, t, |lines|);
    KeptDistinct(cs);
    KeptKeys(cs);
    CandsKeys(lines, t, |lines|);
    forall e | e in Kept(cs) ensures e.0 in ANCHOR_KEYS {
      KeptFirst(cs);
    }
    AtMostSix(Kept(cs));
    if cs != [] {
      assert cs[0].0 in KeysOf(cs);
    }
  }

  /** Each entry of the summary is the first entry `extract_O` meets with
      its key. */
  lemma TowingFirstWins(lines: seq<string>, t: Towing)
    requires |t.anchors| == 6
    ensures var cs := Cands(lines, t, |lines|);
      forall e | e in Kept(cs) :: exists i | 0 <= i < |cs| :: cs[i] == e && forall j | 0 <= j < i :: cs[j].0 != e.0
  {
    KeptFirst(Cands(lines, t, |lines|));
  }

  /** The loop state `results`, `seen` after the entries `cs`. */
  ghost predicate Tracks(results: seq<string>, seen: set<string>, cs: seq<(string, string)>)
  {
    results == Values(Kept(cs)) && seen == KeysOf(Kept(cs))
  }

  /** One step of the `seen` check keeps the state in step with the
      entries. */
  lemma TracksSnoc(results: seq<string>, seen: set<string>, cs: seq<(string, string)>, e: (string, string))
    requires Tracks(results, seen, cs)
    ensures e.0 in seen ==> Tracks(results, seen, cs + [e])
    ensures e.0 !in seen ==> Tracks(results + [e.1], seen + {e.0}, cs + [e])
  {
    KeptSnoc(cs, e);
    KeysSnoc(Kept(cs), e);
    assert (Kept(cs) + [e])[..|Kept(cs)|] == Kept(cs);
  }

  /** One more anchor adds its entry, if any, at the end. */
  lemma RowSnoc(lines: seq<string>, t: Towing, i: nat, a: nat, done: seq<(string, string)>)
    requires i < |lines| && a < 6 && |t.anchors| == 6 && Entry(lines, t, i, a).Some?
    ensures done + Row(lines, t, i, a + 1) == done + Row(lines, t, i, a) + [Entry(lines, t, i, a).value]
  {
    var e := Entry(lines, t, i, a);
    assert Row(lines, t, i, a + 1) == Row(lines, t, i, a) + [e.value];
  }

  /** The inner loop of `extract_O` over the anchors of line `i`, after
      the entries `done`. */
  method ScanAnchors(lines: seq<string>, t: Towing, i: nat, results: seq<string>, seen: set<string>,
                     ghost done: seq<(string, string)>)
    returns (results': seq<string>, seen': set<string>)
    requires i < |lines| && |t.anchors| == 6 && Tracks(results, seen, done)
    ensures Tracks(results', seen', done + Row(lines, t, i, 6))
  {
    results', seen' := results, seen;
    ghost var cur := done;
    assert done + Row(lines, t, i, 0) == done;
    for a := 0 to 6
      invariant cur == done + Row(lines, t, i, a)
      invariant Tracks(results', seen', cur)
    {
      var e := AnchorEntry(lines, t, i, a);
      if e.Some? {
        TracksSnoc(results', seen', cur, e.value);
        if e.value.0 !in seen' {
          seen' := seen' + {e.value.0};
          results' := results' + [e.value.1];
        }
        RowSnoc(lines, t, i, a, done);
        cur := cur + [e.value];
      }
    }
  }

  /** `extract_O`: the loop over the lines with its `results` and `seen`. */
  method ExtractO(text: string, lb: Labels) returns (r: Option<string>)
    ensures r == ExtractOOf(text, lb)
  {
    var t := TowingOf(lb);
    var lines := RegLines(text);
    var results: seq<string> := [];
    var seen: set<string> := {};
    for i := 0 to |lines|
      invariant Tracks(results, seen, Cands(lines, t, i))
    {
      results, seen := ScanAnchors(lines, t, i, results, seen, Cands(lines, t, i));
    }
    r := if |results| > 0 then Some(JoinWith(results, "; ")) else None;
  }
}
