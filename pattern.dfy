/** A small recogniser for the fixed-shape regular expressions of the core
    (date tokens, document-number, VIN, plate and unit shapes, the registration
    and address-card labels).

    Repetitions are greedy and never give characters back. For every pattern
    written with it here, an element's repeated class and the class that
    follows it are disjoint, so giving characters back could never lead to a
    match. Under that condition the first match found at a position is the one
    Python's backtracking engine finds. The one place where backtracking does
    matter, a trailing `\s*\.?\b`, is its own element. */
module Pattern {
  import opened Base
  import opened Chars
  import opened PyStr

  /** A character class. `CharsCi` stands for a class under `re.IGNORECASE`:
      its characters are written in upper case and compared with `c.upper()`. */
  datatype Cls =
    | Digit
    | Space
    | Alpha
    | AsciiLetter
    | Chars(cs: string)
    | CharsCi(cs: string)
    | NotChars(cs: string)
    | Either(a: Cls, b: Cls)

  predicate In(k: Cls, c: char)
  {
    match k
    case Digit => IsDigit(c)
    case Space => IsSpace(c)
    case Alpha => IsAlpha(c)
    case AsciiLetter => IsAsciiLetter(c)
    case Chars(cs) => c in cs
    case CharsCi(cs) => Upper(c) in cs
    case NotChars(cs) => c !in cs
    case Either(a, b) => In(a, c) || In(b, c)
  }

  /** One element of a pattern. */
  datatype Elem =
    | Rep(k: Cls, lo: nat, hi: nat)   // k{lo,hi}
    | Many(k: Cls, lo: nat)           // k* (lo = 0), k+ (lo = 1), k{3,} (lo = 3)
    | Gap(seps: string, need: bool)   // \s*[seps]\s* when need, \s*[seps]?\s* otherwise
    | Boundary                        // \b
    | NotAfter(k: Cls)                // (?<!k)
    | NotBefore(k: Cls)               // (?!k)
    | SpaceOrEnd                      // (?=\s|$)
    | LineStart                       // ^ under re.MULTILINE
    | SpacesDotBoundary               // \s*\.?\b

  /** A pattern is a sequence of parts; an optional part is `(?:...)?`. */
  datatype Part = P(e: Elem) | Optional(body: seq<Elem>)

  /** A match: where it starts and where each part ends. */
  datatype Found = Found(start: nat, ends: seq<nat>)

  /** The case-insensitive literal `w` (written in upper case), one part per
      character. */
  function Lit(w: string): (ps: seq<Part>)
    ensures |ps| == |w|
  {
    if |w| == 0 then [] else [P(Rep(CharsCi([w[0]]), 1, 1))] + Lit(w[1..])
  }

  /** The case-insensitive class `[cs]` once. */
  function One(cs: string): Part
  {
    P(Rep(CharsCi(cs), 1, 1))
  }

  function IsWordAt(s: string, i: int): bool
  {
    0 <= i < |s| && IsWordChar(s[i])
  }

  /** `\b` at position `p`. */
  predicate AtBoundary(s: string, p: nat)
  {
    IsWordAt(s, p - 1) != IsWordAt(s, p)
  }

  /** Length of the longest run of class `k` starting at `p`, at most `hi`. */
  function Run(k: Cls, s: string, p: nat, hi: nat): (n: nat)
    requires p <= |s|
    ensures p + n <= |s| && n <= hi
    ensures forall i | p <= i < p + n :: In(k, s[i])
    ensures n < hi ==> p + n == |s| || !In(k, s[p + n])
    decreases hi
  {
    if hi == 0 || p == |s| || !In(k, s[p]) then 0 else 1 + Run(k, s, p + 1, hi - 1)
  }

  /** The longest run of whitespace and separator characters from `p`. */
  function GapRun(seps: string, s: string, p: nat): (n: nat)
    requires p <= |s|
    ensures p + n <= |s|
    ensures p + n == |s| || !(IsSpace(s[p + n]) || s[p + n] in seps)
    decreases |s| - p
  {
    if p == |s| || !(IsSpace(s[p]) || s[p] in seps) then 0 else 1 + GapRun(seps, s, p + 1)
  }

  function NonSpaceCount(w: string): nat
  {
    if |w| == 0 then 0 else (if IsSpace(w[0]) then 0 else 1) + NonSpaceCount(w[1..])
  }

  /** A run of whitespace and separators fits `\s*[seps]\s*` (or, when the
      separator is optional, `\s*[seps]?\s*`): at most one non-whitespace
      character, and when none, a whitespace character of `seps` to serve as
      the separator unless it may be left out. */
  predicate GapOk(w: string, seps: string, need: bool)
  {
    var k := NonSpaceCount(w);
    k == 1 || (k == 0 && (!need || exists i | 0 <= i < |w| :: w[i] in seps))
  }

  /** `\s*\.?\b` from `q`, trying the longest whitespace run first and, for
      each length, the dot before no dot, as the backtracking engine does. */
  function TrailFrom(s: string, q: nat, k: nat): (r: Option<nat>)
    requires q + k <= |s|
    ensures r.Some? ==> q <= r.value <= |s|
    decreases k
  {
    if q + k < |s| && s[q + k] == '.' && AtBoundary(s, q + k + 1) then Some(q + k + 1)
    else if AtBoundary(s, q + k) then Some(q + k)
    else if k == 0 then None
    else TrailFrom(s, q, k - 1)
  }

  /** Matches one element at `p`; the position after it. */
  function Step(e: Elem, s: string, p: nat): (r: Option<nat>)
    requires p <= |s|
    ensures r.Some? ==> p <= r.value <= |s|
  {
    match e
    case Rep(k, lo, hi) =>
      var n := Run(k, s, p, hi);
      if n >= lo then Some(p + n) else None
    case Many(k, lo) =>
      var n := Run(k, s, p, |s| - p);
      if n >= lo then Some(p + n) else None
    case Gap(seps, need) =>
      var n := GapRun(seps, s, p);
      if GapOk(s[p..p + n], seps, need) then Some(p + n) else None
    case Boundary => if AtBoundary(s, p) then Some(p) else None
    case NotAfter(k) => if p == 0 || !In(k, s[p - 1]) then Some(p) else None
    case NotBefore(k) => if p == |s| || !In(k, s[p]) then Some(p) else None
    case SpaceOrEnd => if p == |s| || IsSpace(s[p]) then Some(p) else None
    case LineStart => if p == 0 || s[p - 1] == '\n' then Some(p) else None
    case SpacesDotBoundary => TrailFrom(s, p, Run(Space, s, p, |s| - p))
  }

  /** Matches a sequence of elements at `p`; the position after the last. */
  function Steps(es: seq<Elem>, s: string, p: nat): (r: Option<nat>)
    requires p <= |s|
    ensures r.Some? ==> p <= r.value <= |s|
    decreases |es|
  {
    if |es| == 0 then Some(p)
    else match Step(es[0], s, p)
      case None => None
      case Some(q) => Steps(es[1..], s, q)
  }

  /** Matches one part at `p`; an optional part that does not match is
      skipped. */
  function PartStep(pt: Part, s: string, p: nat): (r: Option<nat>)
    requires p <= |s|
    ensures r.Some? ==> p <= r.value <= |s|
  {
    match pt
    case P(e) => Step(e, s, p)
    case Optional(body) =>
      match Steps(body, s, p)
      case Some(q) => Some(q)
      case None => Some(p)
  }

  /** Matches the parts of a pattern at `p`: the end position of every part. */
  function MatchAt(ps: seq<Part>, s: string, p: nat): (r: Option<seq<nat>>)
    requires p <= |s|
    ensures r.Some? ==> |r.value| == |ps|
    ensures r.Some? ==> forall i | 0 <= i < |ps| :: r.value[i] <= |s|
    decreases |ps|
  {
    if |ps| == 0 then Some([])
    else
      match PartStep(ps[0], s, p)
      case None => None
      case Some(q) =>
        match MatchAt(ps[1..], s, q)
        case None => None
        case Some(rest) => Some([q] + rest)
  }

  /** A match is the first part's match followed by a match of the rest. */
  lemma MatchAtCons(ps: seq<Part>, s: string, p: nat)
    requires p <= |s| && MatchAt(ps, s, p).Some? && |ps| > 0
    ensures PartStep(ps[0], s, p).Some?
    ensures MatchAt(ps[1..], s, PartStep(ps[0], s, p).value).Some?
    ensures MatchAt(ps, s, p).value
      == [PartStep(ps[0], s, p).value] + MatchAt(ps[1..], s, PartStep(ps[0], s, p).value).value
  {
  }

  lemma ConsIndex(ends: seq<nat>, q: nat, rest: seq<nat>, k: nat)
    requires ends == [q] + rest && 0 < k < |ends|
    ensures ends[k] == rest[k - 1]
    ensures (if k == 1 then q else ends[k - 1]) == (if k - 1 == 0 then q else rest[k - 2])
  {
  }

  /** In a match, every part ends where that part, matched from the end of
      the one before, ends. */
  lemma {:induction false} MatchAtParts(ps: seq<Part>, s: string, p: nat, k: nat)
    requires p <= |s| && MatchAt(ps, s, p).Some? && k < |ps|
    ensures var ends := MatchAt(ps, s, p).value;
      PartStep(ps[k], s, if k == 0 then p else ends[k - 1]) == Some(ends[k])
    decreases k
  {
    MatchAtCons(ps, s, p);
    if k > 0 {
      var q := PartStep(ps[0], s, p).value;
      MatchAtParts(ps[1..], s, q, k - 1);
      ConsIndex(MatchAt(ps, s, p).value, q, MatchAt(ps[1..], s, q).value, k);
      assert ps[1..][k - 1] == ps[k];
    }
  }

  /** A repeated part of a match covers between `lo` and `hi` characters of
      its class (at least `lo` for an unbounded one). */
  lemma RepPartOfMatch(ps: seq<Part>, s: string, f: Found, k: nat)
    requires f.start <= |s| && MatchAt(ps, s, f.start) == Some(f.ends) && k < |ps|
    requires ps[k].P? && (ps[k].e.Rep? || ps[k].e.Many?)
    ensures Mark(f, k) <= Mark(f, k + 1) <= |s|
    ensures var n := Mark(f, k + 1) - Mark(f, k);
      ps[k].e.lo <= n && (ps[k].e.Rep? ==> n <= ps[k].e.hi)
    ensures forall i | Mark(f, k) <= i < Mark(f, k + 1) :: In(ps[k].e.k, s[i])
  {
    MatchAtParts(ps, s, f.start, k);
  }

  /** The least position in `[from, hi]` where `m` gives a match. */
  function FirstMatchFrom(m: nat -> Option<seq<nat>>, from: nat, hi: nat): (r: Option<Found>)
    requires from <= hi
    ensures r.Some? ==> from <= r.value.start <= hi && m(r.value.start) == Some(r.value.ends)
    ensures r.Some? ==> forall p | from <= p < r.value.start :: m(p).None?
    ensures r.None? ==> forall p | from <= p <= hi :: m(p).None?
    decreases hi - from
  {
    match m(from)
    case Some(ends) => Some(Found(from, ends))
    case None => if from == hi then None else FirstMatchFrom(m, from + 1, hi)
  }

  /** The pattern tried at each position of `s`. */
  function MatchesOf(ps: seq<Part>, s: string): nat -> Option<seq<nat>>
  {
    (p: nat) => if p <= |s| then MatchAt(ps, s, p) else None
  }

  /** `re.search`: the match at the least position `p >= from`. */
  function SearchFrom(ps: seq<Part>, s: string, from: nat): (r: Option<Found>)
    requires from <= |s|
    ensures r.Some? ==> from <= r.value.start <= |s| && |r.value.ends| == |ps|
    ensures r.Some? ==> MatchAt(ps, s, r.value.start) == Some(r.value.ends)
  {
    var r := FirstMatchFrom(MatchesOf(ps, s), from, |s|);
    assert r.Some? ==> MatchesOf(ps, s)(r.value.start) == MatchAt(ps, s, r.value.start);
    r
  }

  /** The search finds the least matching position, and finds nothing only
      when no position matches. */
  lemma SearchFromLeast(ps: seq<Part>, s: string, from: nat)
    requires from <= |s|
    ensures var r := SearchFrom(ps, s, from);
      r.Some? ==> forall p | from <= p < r.value.start :: MatchAt(ps, s, p).None?
    ensures SearchFrom(ps, s, from).None? ==> forall p | from <= p <= |s| :: MatchAt(ps, s, p).None?
  {
    var r := SearchFrom(ps, s, from);
    var hi: int := if r.Some? then r.value.start - 1 else |s|;
    forall p | from <= p <= hi ensures MatchAt(ps, s, p).None? {
      assert MatchesOf(ps, s)(p) == MatchAt(ps, s, p);
    }
  }

  function Search(ps: seq<Part>, s: string): Option<Found>
  {
    SearchFrom(ps, s, 0)
  }

  /** `re.search` for an alternation `a|b|...` whose branches are whole
      patterns: the least position where a branch matches, and the first such
      branch there. */
  function FirstBranchAt(alts: seq<seq<Part>>, s: string, p: nat): (r: Option<seq<nat>>)
    requires p <= |s|
    decreases |alts|
  {
    if |alts| == 0 then None
    else match MatchAt(alts[0], s, p)
      case Some(ends) => Some(ends)
      case None => FirstBranchAt(alts[1..], s, p)
  }

  function SearchAltsFrom(alts: seq<seq<Part>>, s: string, from: nat): (r: Option<Found>)
    requires from <= |s|
    ensures r.Some? ==> from <= r.value.start <= |s|
    decreases |s| - from
  {
    match FirstBranchAt(alts, s, from)
    case Some(ends) => Some(Found(from, ends))
    case None => if from == |s| then None else SearchAltsFrom(alts, s, from + 1)
  }

  /** `re.finditer`: successive matches, each search starting where the
      previous match ended (one further on after an empty match). */
  function FindAllFrom(ps: seq<Part>, s: string, from: nat): (r: seq<Found>)
    requires from <= |s|
    ensures forall i | 0 <= i < |r| :: from <= r[i].start <= |s| && |r[i].ends| == |ps|
    ensures forall i | 0 <= i < |r| :: r[i].start <= |s| && MatchAt(ps, s, r[i].start) == Some(r[i].ends)
    decreases |s| - from
  {
    match SearchFrom(ps, s, from)
    case None => []
    case Some(f) =>
      var e := if |ps| == 0 then f.start else f.ends[|ps| - 1];
      var next := if e > f.start then e else f.start + 1;
      if next > |s| then [f] else [f] + FindAllFrom(ps, s, next)
  }

  function FindAll(ps: seq<Part>, s: string): seq<Found>
  {
    FindAllFrom(ps, s, 0)
  }

  /** Position where part `k` of a match begins (`k == |ends|` gives its end). */
  function Mark(f: Found, k: nat): nat
  {
    if k == 0 || k > |f.ends| then f.start else f.ends[k - 1]
  }

  /** The text of parts `a` up to (not including) `b`: a regex group. */
  function Group(s: string, f: Found, a: nat, b: nat): string
  {
    Slice(s, Mark(f, a), Mark(f, b))
  }

  /** `m.group(0)`. */
  function Whole(s: string, f: Found): string
  {
    Slice(s, f.start, Mark(f, |f.ends|))
  }

  /** `m.start()` and `m.end()` of a search, as the label scanners see them. */
  function SpanOf(f: Found): (nat, nat)
  {
    (f.start, Mark(f, |f.ends|))
  }

  /** The text matched by a repeated part: between `lo` and `hi` characters
      (at least `lo` when unbounded), all of its class. */
  lemma RepGroupOfMatch(ps: seq<Part>, s: string, f: Found, k: nat)
    requires f.start <= |s| && MatchAt(ps, s, f.start) == Some(f.ends) && k < |ps|
    requires ps[k].P? && (ps[k].e.Rep? || ps[k].e.Many?)
    ensures var g := Group(s, f, k, k + 1);
      ps[k].e.lo <= |g| && (ps[k].e.Rep? ==> |g| <= ps[k].e.hi)
      && forall i | 0 <= i < |g| :: In(ps[k].e.k, g[i])
  {
    RepPartOfMatch(ps, s, f, k);
    var g := Group(s, f, k, k + 1);
    assert g == s[Mark(f, k)..Mark(f, k + 1)];
    assert forall i | 0 <= i < |g| :: g[i] == s[Mark(f, k) + i];
  }

  /** The text matched by a separator part fits the separator shape. */
  lemma GapGroupOfMatch(ps: seq<Part>, s: string, f: Found, k: nat)
    requires f.start <= |s| && MatchAt(ps, s, f.start) == Some(f.ends) && k < |ps|
    requires ps[k].P? && ps[k].e.Gap?
    ensures GapOk(Group(s, f, k, k + 1), ps[k].e.seps, ps[k].e.need)
  {
    MatchAtParts(ps, s, f.start, k);
  }

  /** `re.findall(pattern, s)` for a pattern without groups. */
  function Texts(ps: seq<Part>, s: string): (ts: seq<string>)
  {
    var fs := FindAll(ps, s);
    seq(|fs|, i requires 0 <= i < |fs| => Whole(s, fs[i]))
  }
}
