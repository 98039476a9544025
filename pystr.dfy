/** Python's `str` operations that the extractors are built from: `strip`,
    `split`, `" ".join`, `find`, `replace`, `splitlines` and lenient slicing. */
module PyStr {
  import opened Chars

  predicate Blank(s: string)
  {
    forall i | 0 <= i < |s| :: IsSpace(s[i])
  }

  /** A piece of `str.split()`: non-empty, no whitespace. */
  predicate IsToken(w: string)
  {
    |w| > 0 && forall i | 0 <= i < |w| :: !IsSpace(w[i])
  }

  predicate NoSpace(s: string)
  {
    forall i | 0 <= i < |s| :: !IsSpace(s[i])
  }

  /** `s[a:b]` for non-negative bounds: Python clamps both to the string and
      gives "" when they cross. */
  function Slice(s: string, a: nat, b: nat): (r: string)
    ensures |r| <= |s|
    ensures a <= b <= |s| ==> r == s[a..b]
    ensures a >= |s| || b <= a ==> r == ""
  {
    var a' := if a < |s| then a else |s|;
    var b' := if b < |s| then b else |s|;
    if a' >= b' then "" else s[a'..b']
  }

  /** `s[a:]`. */
  function Tail(s: string, a: nat): (r: string)
    ensures a <= |s| ==> r == s[a..]
    ensures a >= |s| ==> r == ""
  {
    Slice(s, a, |s|)
  }

  /** `s.lstrip()`. */
  function LStrip(s: string): (r: string)
    ensures |r| <= |s|
    ensures r == "" || !IsSpace(r[0])
    decreases |s|
  {
    if |s| > 0 && IsSpace(s[0]) then LStrip(s[1..]) else s
  }

  /** `lstrip()` removes a leading run of whitespace and nothing else. */
  lemma {:induction false} LStripSuffix(s: string)
    ensures LStrip(s) == s[|s| - |LStrip(s)|..]
    ensures Blank(s[..|s| - |LStrip(s)|])
    decreases |s|
  {
    if |s| > 0 && IsSpace(s[0]) {
      var r := LStrip(s[1..]);
      LStripSuffix(s[1..]);
      var k := |s| - |r|;
      assert s[1..][k - 1..] == s[k..];
      forall i | 0 <= i < k ensures IsSpace(s[i]) {
        if i > 0 { assert s[i] == s[1..][..k - 1][i - 1]; }
      }
    }
  }

  /** `s.rstrip()`. */
  function RStrip(s: string): (r: string)
    ensures |r| <= |s|
    ensures r == "" || !IsSpace(r[|r| - 1])
    decreases |s|
  {
    if |s| > 0 && IsSpace(s[|s| - 1]) then RStrip(s[..|s| - 1]) else s
  }

  /** `rstrip()` removes a trailing run of whitespace and nothing else. */
  lemma {:induction false} RStripPrefix(s: string)
    ensures RStrip(s) == s[..|RStrip(s)|]
    ensures Blank(s[|RStrip(s)|..])
    decreases |s|
  {
    if |s| > 0 && IsSpace(s[|s| - 1]) {
      var r := RStrip(s[..|s| - 1]);
      RStripPrefix(s[..|s| - 1]);
      assert s[..|s| - 1][..|r|] == s[..|r|];
      forall i | |r| <= i < |s| ensures IsSpace(s[i]) {
        if i < |s| - 1 { assert s[i] == s[..|s| - 1][|r|..][i - |r|]; }
      }
    }
  }

  /** `s.strip()`. */
  function Strip(s: string): (r: string)
    ensures |r| <= |s|
    ensures r == "" || (!IsSpace(r[0]) && !IsSpace(r[|r| - 1]))
  {
    RStripPrefix(LStrip(s));
    RStrip(LStrip(s))
  }

  lemma StripEmptyIffBlank(s: string)
    ensures Strip(s) == "" <==> Blank(s)
  {
    var l := LStrip(s);
    LStripSuffix(s);
    RStripPrefix(l);
    if Strip(s) == "" {
      assert l == "" by {
        assert Blank(l[0..]);
        assert l[0..] == l;
      }
      assert forall i | 0 <= i < |s| :: s[i] == s[..|s| - |l|][i];
    }
  }

  /** `s.lstrip(chars)`. */
  function LStripChars(s: string, chars: string): (r: string)
    ensures |r| <= |s| && r == s[|s| - |r|..]
    ensures r == "" || r[0] !in chars
    decreases |s|
  {
    if |s| > 0 && s[0] in chars then LStripChars(s[1..], chars) else s
  }

  /** `s.rstrip(chars)`. */
  function RStripChars(s: string, chars: string): (r: string)
    ensures |r| <= |s| && r == s[..|r|]
    ensures r == "" || r[|r| - 1] !in chars
    decreases |s|
  {
    if |s| > 0 && s[|s| - 1] in chars then RStripChars(s[..|s| - 1], chars) else s
  }

  /** `s.strip(chars)`. */
  function StripChars(s: string, chars: string): (r: string)
    ensures |r| <= |s|
    ensures r == "" || (r[0] !in chars && r[|r| - 1] !in chars)
  {
    RStripChars(LStripChars(s, chars), chars)
  }

  /** Length of the leading run of non-whitespace. */
  function TokenLen(s: string): (n: nat)
    ensures n <= |s|
    ensures forall i | 0 <= i < n :: !IsSpace(s[i])
    ensures n == |s| || IsSpace(s[n])
    decreases |s|
  {
    if |s| == 0 || IsSpace(s[0]) then 0 else 1 + TokenLen(s[1..])
  }

  /** `s.split()`: the maximal runs of non-whitespace, in order. */
  function Words(s: string): (ws: seq<string>)
    ensures forall i | 0 <= i < |ws| :: IsToken(ws[i])
    ensures |ws| == 0 <==> Blank(s)
    decreases |s|
  {
    if |s| == 0 then []
    else if IsSpace(s[0]) then
      var ws := Words(s[1..]);
      assert Blank(s[1..]) ==> Blank(s) by {
        if Blank(s[1..]) { forall i | 1 <= i < |s| ensures IsSpace(s[i]) { assert s[i] == s[1..][i - 1]; } }
      }
      ws
    else
      var n := TokenLen(s);
      [s[..n]] + Words(s[n..])
  }

  /** `" ".join(ws)`. */
  function JoinSpace(ws: seq<string>): string
  {
    if |ws| == 0 then "" else if |ws| == 1 then ws[0] else ws[0] + " " + JoinSpace(ws[1..])
  }

  /** `" ".join(s.split())`: whitespace runs become one space, none at the ends. */
  function Collapse(s: string): string
  {
    JoinSpace(Words(s))
  }

  /** The shape `" ".join(s.split())` produces: the only whitespace is a single
      space standing between two non-whitespace characters. */
  predicate Collapsed(r: string)
  {
    (r == "" || (!IsSpace(r[0]) && !IsSpace(r[|r| - 1]))) &&
    (forall i | 0 <= i < |r| && IsSpace(r[i]) :: r[i] == ' ') &&
    (forall i, j | 0 <= i < |r| && i < j < |r| && j == i + 1 :: !IsSpace(r[i]) || !IsSpace(r[j]))
  }

  lemma TokenLenOfToken(w: string, t: string)
    requires IsToken(w)
    requires t == "" || IsSpace(t[0])
    ensures TokenLen(w + t) == |w|
    decreases |w|
  {
    if |w| > 1 {
      assert (w + t)[1..] == w[1..] + t;
      TokenLenOfToken(w[1..], t);
    } else {
      assert (w + t)[1..] == t;
    }
  }

  lemma WordsOfTokenThen(w: string, t: string)
    requires IsToken(w)
    requires t == "" || IsSpace(t[0])
    ensures Words(w + t) == [w] + Words(t)
  {
    TokenLenOfToken(w, t);
    assert (w + t)[..|w|] == w;
    assert (w + t)[|w|..] == t;
  }

  /** Splitting a space-joined list of tokens gives the tokens back. */
  lemma {:induction false} WordsOfJoin(ws: seq<string>)
    requires forall i | 0 <= i < |ws| :: IsToken(ws[i])
    ensures Words(JoinSpace(ws)) == ws
    decreases |ws|
  {
    if |ws| == 0 {
    } else if |ws| == 1 {
      WordsOfTokenThen(ws[0], "");
      assert ws[0] + "" == ws[0];
    } else {
      var rest := JoinSpace(ws[1..]);
      assert ws[0] + " " + rest == ws[0] + (" " + rest);
      WordsOfTokenThen(ws[0], " " + rest);
      assert (" " + rest)[1..] == rest;
      WordsOfJoin(ws[1..]);
    }
  }

  /** A word, one space and a collapsed non-empty text form a collapsed text. */
  lemma CollapsedJoin(w: string, rest: string)
    requires IsToken(w) && Collapsed(rest) && rest != ""
    ensures Collapsed(w + " " + rest)
  {
    var r := w + " " + rest;
    assert forall i | 0 <= i < |w| :: r[i] == w[i];
    assert r[|w|] == ' ';
    assert forall i | |w| < i < |r| :: r[i] == rest[i - |w| - 1];
  }

  lemma {:induction false} JoinSpaceCollapsed(ws: seq<string>)
    requires forall i | 0 <= i < |ws| :: IsToken(ws[i])
    ensures Collapsed(JoinSpace(ws))
    ensures |ws| > 0 ==> JoinSpace(ws) != ""
    decreases |ws|
  {
    if |ws| >= 2 {
      JoinSpaceCollapsed(ws[1..]);
      CollapsedJoin(ws[0], JoinSpace(ws[1..]));
    } else if |ws| == 1 {
      assert forall i | 0 <= i < |ws[0]| :: !IsSpace(ws[0][i]);
    }
  }

  /** What `" ".join(s.split())` promises. */
  lemma CollapseShape(s: string)
    ensures Collapsed(Collapse(s))
    ensures Collapse(s) == "" <==> Blank(s)
    ensures Collapse(s) == "" || (!IsSpace(Collapse(s)[0]) && !IsSpace(Collapse(s)[|Collapse(s)| - 1]))
  {
    JoinSpaceCollapsed(Words(s));
  }

  lemma CollapseIdempotent(s: string)
    ensures Collapse(Collapse(s)) == Collapse(s)
  {
    WordsOfJoin(Words(s));
  }

  /** In a collapsed text with more than one word, the first word is followed
      by one space and a non-space. */
  lemma CollapsedFirstGap(r: string)
    requires Collapsed(r) && r != "" && TokenLen(r) < |r|
    ensures var n := TokenLen(r); n > 0 && n + 1 < |r| && r[n] == ' ' && !IsSpace(r[n + 1])
  {
    var n := TokenLen(r);
    assert !IsSpace(r[n]) || !IsSpace(r[n + 1]);
  }

  /** What follows a space of a collapsed text is collapsed. */
  lemma CollapsedAfter(r: string, n: nat)
    requires Collapsed(r) && n + 1 < |r| && r[n] == ' '
    ensures Collapsed(r[n + 1..])
  {
    var rest := r[n + 1..];
    assert forall i | 0 <= i < |rest| :: rest[i] == r[n + 1 + i];
  }

  lemma SplitAtSpace(r: string, n: nat)
    requires n + 1 < |r| && r[n] == ' '
    ensures r == r[..n] + (" " + r[n + 1..])
  {
  }

  lemma JoinSpaceCons(w: string, ws: seq<string>)
    requires |ws| > 0
    ensures JoinSpace([w] + ws) == w + " " + JoinSpace(ws)
  {
    assert ([w] + ws)[1..] == ws;
  }

  lemma WordsAfterSpace(rest: string)
    ensures Words(" " + rest) == Words(rest)
  {
    assert (" " + rest)[1..] == rest;
  }

  /** Collapsing a word, a space and a non-blank text collapses the text. */
  lemma CollapseCons(w: string, rest: string)
    requires IsToken(w) && !Blank(rest)
    ensures Collapse(w + (" " + rest)) == w + (" " + Collapse(rest))
  {
    WordsOfTokenThen(w, " " + rest);
    WordsAfterSpace(rest);
    JoinSpaceCons(w, Words(rest));
    AppendAssoc(w, " ", Collapse(rest));
  }

  lemma AppendAssoc(a: string, b: string, c: string)
    ensures a + b + c == a + (b + c)
  {
  }

  /** One word of a collapsed text: its collapse is the first word, a space and
      the collapse of the rest. */
  lemma CollapsedStep(r: string)
    requires Collapsed(r) && r != "" && TokenLen(r) < |r|
    ensures TokenLen(r) + 1 < |r| && Collapsed(r[TokenLen(r) + 1..])
    ensures Collapse(r) == r[..TokenLen(r)] + (" " + Collapse(r[TokenLen(r) + 1..]))
  {
    var n := TokenLen(r);
    CollapsedFirstGap(r);
    CollapsedAfter(r, n);
    SplitAtSpace(r, n);
    CollapseCons(r[..n], r[n + 1..]);
  }

  /** A collapsed text is its own collapse. */
  lemma {:induction false} CollapsedFixpoint(r: string)
    requires Collapsed(r)
    ensures Collapse(r) == r
    decreases |r|
  {
    if |r| > 0 {
      var n := TokenLen(r);
      var w := r[..n];
      if n == |r| {
        assert w == r && w + "" == r;
        WordsOfTokenThen(w, "");
      } else {
        CollapsedStep(r);
        CollapsedFixpoint(r[n + 1..]);
        SplitAtSpace(r, n);
      }
    }
  }

  lemma CollapsedNoSpaceEnds(r: string)
    requires Collapsed(r)
    ensures r == "" || (!IsSpace(r[0]) && !IsSpace(r[|r| - 1]))
  {
  }

  /** No whitespace at either end. */
  predicate Trimmed(s: string)
  {
    s == "" || (!IsSpace(s[0]) && !IsSpace(s[|s| - 1]))
  }

  /** Text without surrounding whitespace is its own strip. */
  lemma StripUnchanged(s: string)
    requires Trimmed(s)
    ensures Strip(s) == s
  {
    LStripNoLead(s);
    RStripNoTrail(s);
  }

  lemma LStripNoLead(s: string)
    requires s == "" || !IsSpace(s[0])
    ensures LStrip(s) == s
  {
  }

  lemma RStripNoTrail(s: string)
    requires s == "" || !IsSpace(s[|s| - 1])
    ensures RStrip(s) == s
  {
  }

  /** Leading whitespace does not change the words. */
  lemma {:induction false} WordsBlankPrefix(b: string, x: string)
    requires Blank(b)
    ensures Words(b + x) == Words(x)
    decreases |b|
  {
    if |b| > 0 {
      assert (b + x)[0] == b[0] && IsSpace(b[0]);
      assert (b + x)[1..] == b[1..] + x;
      assert Blank(b[1..]) by { forall i | 0 <= i < |b[1..]| ensures IsSpace(b[1..][i]) { assert b[1..][i] == b[i + 1]; } }
      WordsBlankPrefix(b[1..], x);
      assert Words(b + x) == Words((b + x)[1..]);
    } else {
      assert b + x == x;
    }
  }

  /** Text whose stripped form is a single word collapses to that word. */
  lemma CollapseOfOneWord(s: string)
    requires IsToken(Strip(s))
    ensures Collapse(s) == Strip(s)
  {
    WordsOfLStrip(s);
    WordsOfOneToken(LStrip(s));
    assert Words(s) == [Strip(s)];
  }

  lemma WordsOfLStrip(s: string)
    ensures Words(s) == Words(LStrip(s))
  {
    var l := LStrip(s);
    LStripSuffix(s);
    var k := |s| - |l|;
    assert s == s[..k] + l;
    WordsBlankPrefix(s[..k], l);
  }

  lemma WordsOfOneToken(l: string)
    requires IsToken(RStrip(l))
    ensures Words(l) == [RStrip(l)]
  {
    var r := RStrip(l);
    RStripPrefix(l);
    var post := l[|r|..];
    assert l == r + post;
    assert Words(post) == [];
    WordsOfTokenThen(r, post);
    assert [r] + [] == [r];
  }

  lemma StripOfCollapsed(r: string)
    requires Collapsed(r)
    ensures Strip(r) == r
  {
    StripUnchanged(r);
  }

  predicate OccursAt(s: string, sub: string, i: nat)
  {
    i + |sub| <= |s| && s[i..i + |sub|] == sub
  }

  /** `s.find(sub, start)`: the least index at or after `start` where `sub`
      occurs, or -1. */
  function FindFrom(s: string, sub: string, start: nat): (r: int)
    ensures r == -1 || (start <= r && OccursAt(s, sub, r))
    ensures r == -1 ==> forall i: nat | start <= i :: !OccursAt(s, sub, i)
    ensures r >= 0 ==> forall i: nat | start <= i < r :: !OccursAt(s, sub, i)
    decreases |s| - start
  {
    if start + |sub| > |s| then -1
    else if s[start..start + |sub|] == sub then start
    else FindFrom(s, sub, start + 1)
  }

  /** `sub in s`. */
  predicate Contains(s: string, sub: string)
  {
    FindFrom(s, sub, 0) >= 0
  }

  lemma ContainsAt(s: string, sub: string, i: nat)
    requires OccursAt(s, sub, i)
    ensures Contains(s, sub)
  {
  }

  predicate StartsWith(s: string, p: string)
  {
    |p| <= |s| && s[..|p|] == p
  }

  predicate EndsWith(s: string, p: string)
  {
    |p| <= |s| && s[|s| - |p|..] == p
  }

  /** `s.replace(pat, rep)`: the leftmost occurrence is replaced and the
      search goes on after it. */
  function ReplaceAll(s: string, pat: string, rep: string): (r: string)
    requires |pat| > 0
    decreases |s|
  {
    var i := FindFrom(s, pat, 0);
    if i == -1 then s else s[..i] + rep + ReplaceAll(s[i + |pat|..], pat, rep)
  }

  /** `s.replace(pat, rep, 1)`; an empty `pat` puts `rep` in front. */
  function ReplaceFirst(s: string, pat: string, rep: string): (r: string)
  {
    var i := FindFrom(s, pat, 0);
    if i == -1 then s else s[..i] + rep + s[i + |pat|..]
  }

  /** `sub not in s`, stated position by position. */
  predicate Free(s: string, sub: string)
  {
    forall i | 0 <= i <= |s| :: !OccursAt(s, sub, i)
  }

  /** An occurrence in `a + [c] + b` lies in `a`, lies in `b`, or covers `c`. */
  lemma OccursAround(a: string, c: char, b: string, q: string, j: nat)
    ensures OccursAt(a + [c] + b, q, j) ==>
      (j + |q| <= |a| && OccursAt(a, q, j)) ||
      (j > |a| && OccursAt(b, q, j - |a| - 1)) ||
      (j <= |a| < j + |q| && q[|a| - j] == c)
  {
    var s := a + [c] + b;
    if OccursAt(s, q, j) {
      if j + |q| <= |a| {
        assert s[j..j + |q|] == a[j..j + |q|];
      } else if j > |a| {
        assert s[j..j + |q|] == b[j - |a| - 1..j - |a| - 1 + |q|];
      } else {
        assert s[j..j + |q|][|a| - j] == s[|a|];
      }
    }
  }

  /** No occurrence in a string at `a + j` means none in the piece from `a`
      at `j`. */
  lemma NotOccursInSlice(s: string, q: string, a: nat, b: nat, j: nat)
    requires a <= b <= |s| && a + j + |q| <= b && !OccursAt(s, q, a + j)
    ensures !OccursAt(s[a..b], q, j)
  {
    assert s[a + j..a + j + |q|] != q;
    var t :| 0 <= t < |q| && s[a + j..a + j + |q|][t] != q[t];
    assert s[a..b][j..j + |q|][t] == s[a + j + t];
  }

  /** A piece of a string is free of whatever the string is free of. */
  lemma FreeSlice(s: string, q: string, a: nat, b: nat)
    requires a <= b <= |s| && Free(s, q)
    ensures Free(s[a..b], q)
  {
    forall j: nat | j + |q| <= b - a ensures !OccursAt(s[a..b], q, j) {
      NotOccursInSlice(s, q, a, b, j);
    }
  }

  /** What comes before the first occurrence of `pat` is free of `pat`. */
  lemma FreeBeforeFirst(s: string, pat: string, q: string)
    requires |pat| > 0 && FindFrom(s, pat, 0) >= 0 && (q == pat || Free(s, q))
    ensures Free(s[..FindFrom(s, pat, 0)], q)
  {
    var i := FindFrom(s, pat, 0);
    forall j: nat | j + |q| <= i ensures !OccursAt(s[..i], q, j) {
      assert q == pat ==> j < i;
      NotOccursInSlice(s, q, 0, i, j);
    }
  }

  /** A space between two pieces free of `q` makes no occurrence of `q`. */
  lemma FreeAroundSpace(a: string, b: string, q: string)
    requires ' ' !in q && Free(a, q) && Free(b, q)
    ensures Free(a + [' '] + b, q)
  {
    forall j: nat ensures !OccursAt(a + [' '] + b, q, j) {
      OccursAround(a, ' ', b, q, j);
    }
  }

  /** Replacing by a single space, when `q` contains none, leaves no
      occurrence of `pat`, and creates no occurrence of `q` where there was
      none. */
  lemma {:induction false} ReplaceSpaceFree(s: string, pat: string, q: string)
    requires |pat| > 0 && ' ' !in q && (q == pat || Free(s, q))
    ensures Free(ReplaceAll(s, pat, " "), q)
    decreases |s|
  {
    var i := FindFrom(s, pat, 0);
    if i != -1 {
      var rest := s[i + |pat|..];
      FreeBeforeFirst(s, pat, q);
      if q != pat {
        FreeSlice(s, q, i + |pat|, |s|);
        assert s[i + |pat|..|s|] == rest;
      }
      ReplaceSpaceFree(rest, pat, q);
      FreeAroundSpace(s[..i], ReplaceAll(rest, pat, " "), q);
    }
  }

  /** The words of a string are free of whatever the string is free of. */
  lemma {:induction false} WordsFree(s: string, q: string)
    requires Free(s, q)
    ensures forall i | 0 <= i < |Words(s)| :: Free(Words(s)[i], q)
    decreases |s|
  {
    if |s| > 0 {
      if IsSpace(s[0]) {
        FreeSlice(s, q, 1, |s|);
        assert s[1..|s|] == s[1..];
        WordsFree(s[1..], q);
      } else {
        var n := TokenLen(s);
        FreeSlice(s, q, 0, n);
        FreeSlice(s, q, n, |s|);
        assert s[0..n] == s[..n] && s[n..|s|] == s[n..];
        WordsFree(s[n..], q);
        var ws := Words(s);
        assert ws == [s[..n]] + Words(s[n..]);
        forall i | 1 <= i < |ws| ensures Free(ws[i], q) {
          assert ws[i] == Words(s[n..])[i - 1];
        }
      }
    }
  }

  /** Joining pieces free of a space-free `q` by spaces creates no
      occurrence of `q`. */
  lemma {:induction false} JoinSpaceFree(ws: seq<string>, q: string)
    requires |q| > 0 && ' ' !in q && forall i | 0 <= i < |ws| :: Free(ws[i], q)
    ensures Free(JoinSpace(ws), q)
    decreases |ws|
  {
    if |ws| > 1 {
      JoinSpaceFree(ws[1..], q);
      assert ws[0] + " " + JoinSpace(ws[1..]) == ws[0] + [' '] + JoinSpace(ws[1..]);
      FreeAroundSpace(ws[0], JoinSpace(ws[1..]), q);
    }
  }

  /** Collapsing whitespace creates no occurrence of a space-free `q`. */
  lemma CollapseFree(s: string, q: string)
    requires ' ' !in q && Free(s, q)
    ensures Free(Collapse(s), q)
  {
    assert !OccursAt(s, q, 0);
    WordsFree(s, q);
    JoinSpaceFree(Words(s), q);
  }

  predicate NotSpaceChar(c: char)
  {
    c != ' '
  }

  /** Keeps the characters of `s` that satisfy `keep`, in order. */
  function Filter(s: string, keep: char -> bool): (r: string)
    ensures |r| <= |s|
    ensures forall i | 0 <= i < |r| :: keep(r[i])
    ensures forall c :: c in r ==> c in s
  {
    if |s| == 0 then "" else (if keep(s[0]) then [s[0]] else "") + Filter(s[1..], keep)
  }

  lemma FilterAll(s: string, keep: char -> bool)
    requires forall i | 0 <= i < |s| :: keep(s[i])
    ensures Filter(s, keep) == s
  {
    if |s| > 0 { FilterAll(s[1..], keep); }
  }

  predicate NotSpace(c: char) { !IsSpace(c) }

  /** `"".join(ws)`. */
  function Concat(ws: seq<string>): string
  {
    if |ws| == 0 then "" else ws[0] + Concat(ws[1..])
  }

  /** `"".join(s.split())` removes exactly the whitespace characters. */
  lemma {:induction false} ConcatWords(s: string)
    ensures Concat(Words(s)) == Filter(s, NotSpace)
    decreases |s|
  {
    if |s| > 0 {
      if IsSpace(s[0]) {
        ConcatWords(s[1..]);
      } else {
        var n := TokenLen(s);
        assert s == s[..n] + s[n..];
        ConcatWords(s[n..]);
        FilterConcat(s[..n], s[n..], NotSpace);
        FilterAll(s[..n], NotSpace);
        assert Words(s) == [s[..n]] + Words(s[n..]);
      }
    }
  }

  lemma {:induction false} FilterConcat(a: string, b: string, keep: char -> bool)
    ensures Filter(a + b, keep) == Filter(a, keep) + Filter(b, keep)
    decreases |a|
  {
    if |a| > 0 {
      assert (a + b)[1..] == a[1..] + b;
      FilterConcat(a[1..], b, keep);
    } else {
      assert a + b == b;
    }
  }

  /** Two successive filters are one filter by the conjunction. */
  lemma {:induction false} FilterFilter(s: string, p: char -> bool, q: char -> bool, pq: char -> bool)
    requires forall c :: pq(c) == (p(c) && q(c))
    ensures Filter(Filter(s, p), q) == Filter(s, pq)
    decreases |s|
  {
    if |s| > 0 {
      FilterFilter(s[1..], p, q, pq);
      FilterConcat(if p(s[0]) then [s[0]] else "", Filter(s[1..], p), q);
    }
  }

  lemma LowerStrConcat(a: string, b: string)
    ensures LowerStr(a + b) == LowerStr(a) + LowerStr(b)
  {
    var la, lb := LowerStr(a), LowerStr(b);
    var l, r := LowerStr(a + b), la + lb;
    assert |l| == |r|;
    forall i | 0 <= i < |r| ensures l[i] == r[i] {
      if i < |a| {
        assert (a + b)[i] == a[i] && r[i] == la[i];
      } else {
        assert (a + b)[i] == b[i - |a|] && r[i] == lb[i - |a|];
      }
    }
  }

  /** `s.replace(a, b)` for single characters `a` and `b`. */
  function ReplaceChar(s: string, a: char, b: char): (r: string)
    ensures |r| == |s|
    ensures forall i | 0 <= i < |s| :: r[i] == (if s[i] == a then b else s[i])
  {
    if |s| == 0 then "" else [if s[0] == a then b else s[0]] + ReplaceChar(s[1..], a, b)
  }

  /** Index of the first occurrence of `c`, or `|s|`. */
  function IndexOf(s: string, c: char): (n: nat)
    ensures n <= |s|
    ensures n < |s| ==> s[n] == c
    ensures forall i | 0 <= i < n :: s[i] != c
  {
    if |s| == 0 || s[0] == c then 0 else 1 + IndexOf(s[1..], c)
  }

  /** `s.split(sep)` for a one-character separator. */
  function SplitOn(s: string, sep: char): (parts: seq<string>)
    ensures |parts| >= 1
    ensures forall i | 0 <= i < |parts| :: sep !in parts[i]
    ensures (sep !in s) <==> parts == [s]
    decreases |s|
  {
    var n := IndexOf(s, sep);
    if n == |s| then [s] else [s[..n]] + SplitOn(s[n + 1..], sep)
  }

  lemma SplitOnConcat(a: string, b: string, sep: char)
    requires sep !in a
    ensures SplitOn(a + [sep] + b, sep) == [a] + SplitOn(b, sep)
  {
    var s := a + [sep] + b;
    var n := IndexOf(s, sep);
    assert s[|a|] == sep;
    assert forall i | 0 <= i < |a| :: s[i] == a[i];
    assert n == |a|;
    assert s[..n] == a && s[n + 1..] == b;
  }

  /** The pieces between line-break characters. `str.splitlines()` gives the
      same pieces up to empty ones ("\r\n" and a final break), which every
      caller here drops. */
  function RawLines(s: string): (ls: seq<string>)
    ensures |ls| >= 1
    ensures forall i | 0 <= i < |ls| :: forall j | 0 <= j < |ls[i]| :: !IsLineBreak(ls[i][j])
    decreases |s|
  {
    var n := LineLen(s);
    if n == |s| then [s] else [s[..n]] + RawLines(s[n + 1..])
  }

  function LineLen(s: string): (n: nat)
    ensures n <= |s|
    ensures n < |s| ==> IsLineBreak(s[n])
    ensures forall i | 0 <= i < n :: !IsLineBreak(s[i])
  {
    if |s| == 0 || IsLineBreak(s[0]) then 0 else 1 + LineLen(s[1..])
  }

  /** Python's `a < b` on strings: code-point lexicographic order. */
  predicate StrLess(a: string, b: string)
    decreases |a|
  {
    if |a| == 0 then |b| > 0
    else if |b| == 0 then false
    else if a[0] == b[0] then StrLess(a[1..], b[1..])
    else a[0] < b[0]
  }

  lemma {:induction false} StrLessConcat(a: string, b: string, x: string, y: string)
    requires |a| == |b|
    ensures StrLess(a + x, b + y) <==> StrLess(a, b) || (a == b && StrLess(x, y))
    decreases |a|
  {
    if |a| > 0 {
      assert (a + x)[0] == a[0] && (b + y)[0] == b[0];
      assert (a + x)[1..] == a[1..] + x && (b + y)[1..] == b[1..] + y;
      StrLessConcat(a[1..], b[1..], x, y);
      if a[0] == b[0] && a[1..] == b[1..] {
        assert a == [a[0]] + a[1..] && b == [b[0]] + b[1..];
      }
    } else {
      assert a + x == x && b + y == y;
    }
  }

  lemma {:induction false} StrLessIrreflexive(a: string)
    ensures !StrLess(a, a)
    decreases |a|
  {
    if |a| > 0 { StrLessIrreflexive(a[1..]); }
  }

  /** Words of `s` keep to any class of characters that holds for all of `s`. */
  lemma {:induction false} WordsKeep(s: string, keep: char -> bool)
    requires forall i | 0 <= i < |s| :: keep(s[i])
    ensures forall k, j | 0 <= k < |Words(s)| && 0 <= j < |Words(s)[k]| :: keep(Words(s)[k][j])
    decreases |s|
  {
    if |s| > 0 {
      if IsSpace(s[0]) {
        WordsKeep(s[1..], keep);
      } else {
        var n := TokenLen(s);
        WordsKeep(s[n..], keep);
        assert Words(s) == [s[..n]] + Words(s[n..]);
      }
    }
  }

  lemma {:induction false} JoinSpaceKeep(ws: seq<string>, keep: char -> bool)
    requires keep(' ')
    requires forall k, j | 0 <= k < |ws| && 0 <= j < |ws[k]| :: keep(ws[k][j])
    ensures forall i | 0 <= i < |JoinSpace(ws)| :: keep(JoinSpace(ws)[i])
    decreases |ws|
  {
    if |ws| > 1 {
      JoinSpaceKeep(ws[1..], keep);
      var r := JoinSpace(ws[1..]);
      assert JoinSpace(ws) == ws[0] + " " + r;
      forall i | 0 <= i < |JoinSpace(ws)| ensures keep(JoinSpace(ws)[i]) {
        if i < |ws[0]| { assert JoinSpace(ws)[i] == ws[0][i]; }
        else if i > |ws[0]| { assert JoinSpace(ws)[i] == r[i - |ws[0]| - 1]; }
      }
    }
  }

  /** `" ".join(s.split())` keeps to any class that contains the space and
      every character of `s`. */
  lemma CollapseKeep(s: string, keep: char -> bool)
    requires keep(' ')
    requires forall i | 0 <= i < |s| :: keep(s[i])
    ensures forall i | 0 <= i < |Collapse(s)| :: keep(Collapse(s)[i])
  {
    WordsKeep(s, keep);
    JoinSpaceKeep(Words(s), keep);
  }

  // ---------------------------------------------------------------------
  // strip and upper commute
  // ---------------------------------------------------------------------

  lemma {:induction false} LStripUpper(s: string)
    ensures LStrip(UpperStr(s)) == UpperStr(LStrip(s))
    decreases |s|
  {
    if |s| > 0 {
      assert UpperStr(s)[1..] == UpperStr(s[1..]);
      LStripUpper(s[1..]);
    }
  }

  lemma {:induction false} RStripUpper(s: string)
    ensures RStrip(UpperStr(s)) == UpperStr(RStrip(s))
    decreases |s|
  {
    if |s| > 0 {
      assert UpperStr(s)[..|s| - 1] == UpperStr(s[..|s| - 1]);
      RStripUpper(s[..|s| - 1]);
    }
  }

  /** `s.upper().strip() == s.strip().upper()`: upper-casing never turns a
      character into whitespace or whitespace into anything else. */
  lemma StripUpper(s: string)
    ensures Strip(UpperStr(s)) == UpperStr(Strip(s))
  {
    LStripUpper(s);
    RStripUpper(LStrip(s));
  }

  lemma {:induction false} FilterNoLower(s: string, keep: char -> bool)
    requires NoLower(s)
    ensures NoLower(Filter(s, keep))
    decreases |s|
  {
    if |s| > 0 {
      FilterNoLower(s[1..], keep);
    }
  }

  lemma NoSpaceSuffix(w: string, k: nat)
    requires NoSpace(w) && k <= |w|
    ensures NoSpace(w[k..])
  {
    forall i | 0 <= i < |w| - k ensures !IsSpace(w[k..][i]) {
      assert w[k..][i] == w[k + i];
    }
  }

  lemma NoSpacePrefix(w: string, k: nat)
    requires NoSpace(w) && k <= |w|
    ensures NoSpace(w[..k])
  {
    forall i | 0 <= i < k ensures !IsSpace(w[..k][i]) {
      assert w[..k][i] == w[i];
    }
  }

  /** Stripping characters from the ends keeps a piece of the string, so a
      word stays free of whitespace. */
  lemma NoSpaceStripChars(w: string, chars: string)
    requires NoSpace(w)
    ensures NoSpace(StripChars(w, chars))
  {
    var l := LStripChars(w, chars);
    NoSpaceSuffix(w, |w| - |l|);
    var r := RStripChars(l, chars);
    NoSpacePrefix(l, |r|);
  }
}
