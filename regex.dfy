/** Regular-expression matches as the extractors consume them. The label
    synonym tables are not modelled as regular expressions: a compiled pattern
    is a `Matcher`, a function from a string to its first match (what
    `pattern.search(s)` returns). */
module Regex {
  import opened Base

  /** One match: its span, the text of every group (index 0 is the whole
      match, None marks a group that took no part) and the index of the named
      group `value` when the pattern has one. */
  datatype Hit = Hit(start: nat, end: nat, groups: seq<Option<string>>, valueGroup: Option<nat>)

  /** `pattern.search`. */
  type Matcher = string -> Option<Hit>

  /** `m.group(k)`, None for a group that did not take part. */
  function Group(h: Hit, k: nat): (r: Option<string>)
    ensures k >= |h.groups| ==> r == None
  {
    if k < |h.groups| then h.groups[k] else None
  }

  /** `m.group(0)`. */
  function Whole(h: Hit): string
  {
    Group(h, 0).OrElse("")
  }

  /** `m.lastindex`: the highest-numbered group that took part, None when no
      group did. Python reports the group that closed last; the two agree
      for patterns without nested groups, which the value shapes of this
      model all are. */
  function LastIndex(h: Hit): (r: Option<nat>)
    ensures r.Some? ==> 1 <= r.value < |h.groups| && h.groups[r.value].Some?
    ensures r.Some? ==> forall k | r.value < k < |h.groups| :: h.groups[k].None?
    ensures r.None? ==> forall k | 1 <= k < |h.groups| :: h.groups[k].None?
  {
    LastFrom(h.groups, |h.groups|)
  }

  function LastFrom(gs: seq<Option<string>>, n: nat): (r: Option<nat>)
    requires n <= |gs|
    ensures r.Some? ==> 1 <= r.value < n && gs[r.value].Some?
    ensures r.Some? ==> forall k | r.value < k < n :: gs[k].None?
    ensures r.None? ==> forall k | 1 <= k < n :: gs[k].None?
  {
    if n <= 1 then None
    else if gs[n - 1].Some? then Some(n - 1)
    else LastFrom(gs, n - 1)
  }

  /** `any(p.search(s) for p in pats)`. */
  predicate AnyMatches(pats: seq<Matcher>, s: string)
  {
    exists i | 0 <= i < |pats| :: pats[i](s).Some?
  }

  /** The first match at or after index `from` that `f` accepts: the shape
      of a `for m in pattern.finditer(s)` loop that returns early. */
  function FirstAccepted(ms: seq<Hit>, f: Hit -> Option<string>, from: nat): (r: Option<nat>)
    ensures r.Some? ==> from <= r.value < |ms| && f(ms[r.value]).Some?
    ensures r.Some? ==> forall j | from <= j < r.value :: f(ms[j]).None?
    ensures r.None? <==> forall j | from <= j < |ms| :: f(ms[j]).None?
    decreases |ms| - from
  {
    if from >= |ms| then None
    else if f(ms[from]).Some? then Some(from)
    else FirstAccepted(ms, f, from + 1)
  }
}
