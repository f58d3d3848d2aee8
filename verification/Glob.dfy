/** Tag-rule globs: `*` matches any run of characters, `?` exactly one,
    everything else is literal.

    `Matches` is the meaning of a pattern. `Scan` is the state space of the
    single-backtrack loop of store/tagrules.go, which remembers only the last
    star, and `MatchTagGlob` is that loop. The loop tests literal equality
    before the star, so it is right for every pattern exactly on the names that
    contain no star: see `RightExactlyOnStarFreeNames`. */
module Glob {

  /** The meaning of a pattern: a star takes nothing or one more character. */
  predicate Matches(pattern: string, name: string)
    decreases |pattern| + |name|
  {
    if pattern == "" then name == ""
    else if pattern[0] == '*' then
      Matches(pattern[1..], name) || (name != "" && Matches(pattern, name[1..]))
    else
      name != "" && Fits(pattern[0], name[0]) && Matches(pattern[1..], name[1..])
  }

  predicate Fits(p: char, c: char) {
    p == '?' || p == c
  }

  predicate AllStars(pattern: string) {
    forall i :: 0 <= i < |pattern| ==> pattern[i] == '*'
  }

  predicate StarFree(s: string) {
    forall i :: 0 <= i < |s| ==> s[i] != '*'
  }

  /** The loop's variables stay in these bounds. */
  predicate InBounds(pattern: string, name: string, p: nat, n: nat, starP: int, starN: nat) {
    && p <= |pattern| && starN <= n <= |name|
    && -1 <= starP < p
    && (starP < 0 ==> starN == 0)
  }

  /** The answer the loop gives when it is started from the given variables. */
  predicate Scan(pattern: string, name: string, p: nat, n: nat, starP: int, starN: nat)
    requires InBounds(pattern, name, p, n, starP, starN)
    decreases |name| - starN, |pattern| - p
  {
    if n == |name| then AllStars(pattern[p..])
    else if p < |pattern| && Fits(pattern[p], name[n]) then
      Scan(pattern, name, p + 1, n + 1, starP, starN)
    else if p < |pattern| && pattern[p] == '*' then
      Scan(pattern, name, p + 1, n, p, n)
    else if starP >= 0 then
      Scan(pattern, name, starP + 1, starN + 1, starP, starN + 1)
    else false
  }

  /** The answer of the whole loop. */
  predicate GlobAnswer(pattern: string, name: string) {
    Scan(pattern, name, 0, 0, -1, 0)
  }

  /** The loop itself. It terminates, it never accepts a name the pattern does
      not mean, and on star-free names it decides the meaning. */
  method MatchTagGlob(pattern: string, name: string) returns (ok: bool)
    ensures ok == GlobAnswer(pattern, name)
    ensures ok ==> Matches(pattern, name)
    ensures StarFree(name) ==> (ok <==> Matches(pattern, name))
  {
    var p, n := 0, 0;
    var starP, starN := -1, 0;
    AcceptsOnlyMatches(pattern, name);
    if StarFree(name) { DecidesStarFreeNames(pattern, name); }
    while n < |name|
      invariant InBounds(pattern, name, p, n, starP, starN)
      invariant Scan(pattern, name, p, n, starP, starN) == GlobAnswer(pattern, name)
      decreases |name| - starN, |pattern| - p
    {
      if p < |pattern| && (pattern[p] == '?' || pattern[p] == name[n]) {
        p, n := p + 1, n + 1;
      } else if p < |pattern| && pattern[p] == '*' {
        starP, starN := p, n;
        p := p + 1;
      } else if starP >= 0 {
        p := starP + 1;
        starN := starN + 1;
        n := starN;
      } else {
        return false;
      }
    }
    while p < |pattern| && pattern[p] == '*'
      invariant p <= |pattern|
      invariant AllStars(pattern[p..]) == GlobAnswer(pattern, name)
    {
      assert pattern[p..] == [pattern[p]] + pattern[p + 1..];
      p := p + 1;
    }
    ok := p == |pattern|;
    if !ok { assert pattern[p..][0] == pattern[p]; }
  }

  // ---- Facts about the meaning of patterns ----

  /** A star's meaning, spelled out: some suffix of the name fits the rest. */
  lemma {:induction false} StarMeans(rest: string, name: string)
    ensures Matches("*" + rest, name) <==> exists k :: 0 <= k <= |name| && Matches(rest, name[k..])
    decreases |name|
  {
    var p := "*" + rest;
    assert p[1..] == rest;
    assert name[0..] == name;
    if name == "" {
      assert forall k :: 0 <= k <= |name| ==> name[k..] == name;
    } else {
      StarMeans(rest, name[1..]);
      forall k | 1 <= k <= |name| ensures name[k..] == name[1..][k - 1..] {}
      if k :| 0 <= k <= |name| && Matches(rest, name[k..]) {
        if k > 0 { assert Matches(rest, name[1..][k - 1..]); }
      }
      if Matches(p, name[1..]) {
        var k :| 0 <= k <= |name[1..]| && Matches(rest, name[1..][k..]);
        assert name[1..][k..] == name[k + 1..];
      }
    }
  }

  /** What the other characters mean, and the empty pattern. */
  lemma CharactersMean(c: char, rest: string, name: string)
    ensures Matches("", name) <==> name == ""
    ensures Matches("?" + rest, name) <==> name != "" && Matches(rest, name[1..])
    ensures c != '*' && c != '?' ==>
              (Matches([c] + rest, name) <==> name != "" && name[0] == c && Matches(rest, name[1..]))
  {
    assert ("?" + rest)[1..] == rest && ([c] + rest)[1..] == rest;
  }

  /** A literal segment fits a text of its own length character by character. */
  predicate SegmentFits(segment: string, text: string) {
    && |segment| == |text|
    && forall i :: 0 <= i < |segment| ==> segment[i] != '*' && Fits(segment[i], text[i])
  }

  /** A segment that fits can be cut off both sides. */
  lemma {:induction false} DropSegment(segment: string, rest: string, text: string, tail: string)
    requires SegmentFits(segment, text)
    ensures Matches(segment + rest, text + tail) == Matches(rest, tail)
    decreases |segment|
  {
    if segment == "" {
      assert segment + rest == rest && text + tail == tail;
    } else {
      assert (segment + rest)[1..] == segment[1..] + rest;
      assert (text + tail)[1..] == text[1..] + tail;
      DropSegment(segment[1..], rest, text[1..], tail);
    }
  }

  /** A match that begins with a star-free segment spends one character on each
      character of the segment. */
  lemma {:induction false} SegmentTakes(segment: string, rest: string, name: string)
    requires StarFree(segment) && Matches(segment + rest, name)
    ensures |segment| <= |name| && Matches(rest, name[|segment|..])
    decreases |segment|
  {
    if segment == "" {
      assert segment + rest == rest && name[0..] == name;
    } else {
      assert (segment + rest)[1..] == segment[1..] + rest;
      SegmentTakes(segment[1..], rest, name[1..]);
      assert name[1..][|segment| - 1..] == name[|segment|..];
    }
  }

  /** What a leading star matches it still matches with more text in front. */
  lemma StarAbsorbs(pattern: string, name: string, k: nat)
    requires k <= |name| && pattern != "" && pattern[0] == '*'
    requires Matches(pattern, name[k..])
    ensures Matches(pattern, name)
  {
    assert pattern == "*" + pattern[1..];
    StarMeans(pattern[1..], name[k..]);
    var j :| 0 <= j <= |name[k..]| && Matches(pattern[1..], name[k..][j..]);
    assert name[k..][j..] == name[k + j..];
    StarMeans(pattern[1..], name);
  }

  lemma {:induction false} OnlyStarsMatchNothing(pattern: string)
    ensures Matches(pattern, "") <==> AllStars(pattern)
    decreases |pattern|
  {
    if pattern != "" {
      assert pattern == [pattern[0]] + pattern[1..];
      OnlyStarsMatchNothing(pattern[1..]);
    }
  }

  // ---- The loop is sound on every name ----

  /** A star may be spent on one character. */
  lemma StarTakesOne(pattern: string, name: string)
    requires pattern != "" && name != "" && Fits(pattern[0], name[0])
    requires Matches(pattern[1..], name[1..])
    ensures Matches(pattern, name)
  {
    if pattern[0] == '*' {
      assert pattern == "*" + pattern[1..];
      StarMeans(pattern[1..], name);
      assert Matches(pattern[1..], name[1..]);
    }
  }

  /** A match of what follows extends to the left: over a character that fits,
      or over a star that takes one character or none. */
  lemma MatchExtends(pattern: string, name: string, p: nat, n: nat)
    requires p < |pattern| && n <= |name|
    ensures n < |name| && Fits(pattern[p], name[n]) && Matches(pattern[p + 1..], name[n + 1..]) ==>
              Matches(pattern[p..], name[n..])
    ensures pattern[p] == '*' && Matches(pattern[p + 1..], name[n..]) ==> Matches(pattern[p..], name[n..])
    ensures pattern[p] == '*' && n < |name| && Matches(pattern[p..], name[n + 1..]) ==>
              Matches(pattern[p..], name[n..])
    ensures pattern[p] == '*' && n < |name| && Matches(pattern[p + 1..], name[n + 1..]) ==>
              Matches(pattern[p..], name[n..])
  {
    assert pattern[p..][1..] == pattern[p + 1..];
    if pattern[p] == '*' {
      assert pattern[p..] == "*" + pattern[p + 1..];
      StarMeans(pattern[p + 1..], name[n..]);
      assert name[n..][0..] == name[n..];
    }
    if n < |name| {
      assert name[n..][1..] == name[n + 1..];
      if Fits(pattern[p], name[n]) && Matches(pattern[p + 1..], name[n + 1..]) {
        StarTakesOne(pattern[p..], name[n..]);
      }
    }
  }

  lemma {:induction false} ScanFindsMatch(pattern: string, name: string, p: nat, n: nat, starP: int, starN: nat)
    requires InBounds(pattern, name, p, n, starP, starN)
    requires starP >= 0 ==> pattern[starP] == '*'
    requires Scan(pattern, name, p, n, starP, starN)
    ensures Matches(pattern[p..], name[n..]) || (starP >= 0 && Matches(pattern[starP..], name[starN..]))
    decreases |name| - starN, |pattern| - p
  {
    hide Matches;
    if n == |name| {
      OnlyStarsMatchNothing(pattern[p..]);
      assert name[n..] == "";
    } else if p < |pattern| && Fits(pattern[p], name[n]) {
      MatchExtends(pattern, name, p, n);
      ScanFindsMatch(pattern, name, p + 1, n + 1, starP, starN);
    } else if p < |pattern| && pattern[p] == '*' {
      MatchExtends(pattern, name, p, n);
      ScanFindsMatch(pattern, name, p + 1, n, p, n);
    } else {
      MatchExtends(pattern, name, starP, starN);
      ScanFindsMatch(pattern, name, starP + 1, starN + 1, starP, starN + 1);
    }
  }

  /** Whatever the name, an accepted name is one the pattern means. */
  lemma AcceptsOnlyMatches(pattern: string, name: string)
    ensures GlobAnswer(pattern, name) ==> Matches(pattern, name)
  {
    if GlobAnswer(pattern, name) {
      ScanFindsMatch(pattern, name, 0, 0, -1, 0);
      assert pattern[0..] == pattern && name[0..] == name;
    }
  }

  // ---- The loop is complete on star-free names: greedy-leftmost ----

  /** The segment after the last star fits the text scanned since. */
  predicate Since(pattern: string, name: string, p: nat, n: nat, starP: int, starN: nat)
    requires InBounds(pattern, name, p, n, starP, starN)
  {
    starP >= 0 ==> pattern[starP] == '*' && SegmentFits(pattern[starP + 1..p], name[starN..n])
  }

  /** What the loop still has to decide. */
  predicate Goal(pattern: string, name: string, p: nat, n: nat, starP: int, starN: nat)
    requires InBounds(pattern, name, p, n, starP, starN)
  {
    if starP < 0 then Matches(pattern[p..], name[n..]) else Matches(pattern[starP..], name[starN..])
  }

  /** A second star makes the first one's choice final: placing the segment
      between them leftmost loses no match. */
  lemma LeftmostIsEnough(pattern: string, name: string, p: nat, n: nat, starP: nat, starN: nat)
    requires InBounds(pattern, name, p, n, starP, starN) && Since(pattern, name, p, n, starP, starN)
    requires p < |pattern| && pattern[p] == '*'
    ensures Matches(pattern[starP..], name[starN..]) == Matches(pattern[p..], name[n..])
  {
    var segment, rest := pattern[starP + 1..p], pattern[p..];
    assert pattern[starP..] == "*" + (segment + rest);
    StarMeans(segment + rest, name[starN..]);
    if Matches(rest, name[n..]) {
      DropSegment(segment, rest, name[starN..n], name[n..]);
      assert name[starN..n] + name[n..] == name[starN..][0..];
    }
    if Matches(pattern[starP..], name[starN..]) {
      var k :| 0 <= k <= |name[starN..]| && Matches(segment + rest, name[starN..][k..]);
      SegmentTakes(segment, rest, name[starN..][k..]);
      assert name[starN..][k..][|segment|..] == name[n..][k..];
      StarAbsorbs(rest, name[n..], k);
    }
  }

  /** When the scan is stuck, the last star must take one more character. */
  lemma StuckMovesStar(pattern: string, name: string, p: nat, n: nat, starP: nat, starN: nat)
    requires InBounds(pattern, name, p, n, starP, starN) && Since(pattern, name, p, n, starP, starN)
    requires n < |name|
    requires p < |pattern| ==> pattern[p] != '*' && !Fits(pattern[p], name[n])
    ensures Matches(pattern[starP..], name[starN..]) == Matches(pattern[starP..], name[starN + 1..])
  {
    var segment, rest := pattern[starP + 1..p], pattern[p..];
    assert pattern[starP..][1..] == segment + rest;
    assert name[starN..] == name[starN..n] + name[n..];
    DropSegment(segment, rest, name[starN..n], name[n..]);
    assert name[starN..][1..] == name[starN + 1..];
  }

  /** At the end of the name the last star may take nothing more. */
  lemma EndDecides(pattern: string, name: string, p: nat, starP: int, starN: nat)
    requires InBounds(pattern, name, p, |name|, starP, starN) && Since(pattern, name, p, |name|, starP, starN)
    ensures AllStars(pattern[p..]) == Goal(pattern, name, p, |name|, starP, starN)
  {
    OnlyStarsMatchNothing(pattern[p..]);
    assert name[|name|..] == "";
    if starP >= 0 {
      var segment, rest, text := pattern[starP + 1..p], pattern[p..], name[starN..];
      assert pattern[starP..] == "*" + (segment + rest);
      assert text[0..] == text == name[starN..|name|] && text + "" == text;
      StarMeans(segment + rest, text);
      DropSegment(segment, rest, text, "");
      if k :| 0 <= k <= |text| && Matches(segment + rest, text[k..]) {
        SegmentTakes(segment, rest, text[k..]);
        assert text[k..][|segment|..] == "";
      }
    }
  }

  /** Whether the scan may go on from the next variables as it did so far. */
  ghost predicate SameTask(pattern: string, name: string, p: nat, n: nat, starP: int, starN: nat,
                           p': nat, n': nat, starP': int, starN': nat)
  {
    && InBounds(pattern, name, p, n, starP, starN) && InBounds(pattern, name, p', n', starP', starN')
    && Since(pattern, name, p', n', starP', starN')
    && Goal(pattern, name, p, n, starP, starN) == Goal(pattern, name, p', n', starP', starN')
  }

  lemma FitGoesOn(pattern: string, name: string, p: nat, n: nat, starP: int, starN: nat)
    requires StarFree(name)
    requires InBounds(pattern, name, p, n, starP, starN) && Since(pattern, name, p, n, starP, starN)
    requires p < |pattern| && n < |name| && Fits(pattern[p], name[n])
    ensures SameTask(pattern, name, p, n, starP, starN, p + 1, n + 1, starP, starN)
  {
    assert pattern[p] != '*';
    if starP < 0 {
      FitStepsBoth(pattern[p..], name[n..]);
      assert pattern[p..][1..] == pattern[p + 1..] && name[n..][1..] == name[n + 1..];
    } else {
      hide Matches;
      assert pattern[starP + 1..p + 1] == pattern[starP + 1..p] + [pattern[p]];
      assert name[starN..n + 1] == name[starN..n] + [name[n]];
      FitLonger(pattern[starP + 1..p], name[starN..n], pattern[p], name[n]);
    }
  }

  lemma FitStepsBoth(pattern: string, name: string)
    requires pattern != "" && name != "" && Fits(pattern[0], name[0]) && pattern[0] != '*'
    ensures Matches(pattern, name) == Matches(pattern[1..], name[1..])
  {
  }

  lemma FitLonger(segment: string, text: string, p: char, c: char)
    requires SegmentFits(segment, text) && Fits(p, c) && p != '*'
    ensures SegmentFits(segment + [p], text + [c])
  {
  }

  lemma StarGoesOn(pattern: string, name: string, p: nat, n: nat, starP: int, starN: nat)
    requires InBounds(pattern, name, p, n, starP, starN) && Since(pattern, name, p, n, starP, starN)
    requires p < |pattern| && pattern[p] == '*'
    ensures SameTask(pattern, name, p, n, starP, starN, p + 1, n, p, n)
  {
    if starP >= 0 { LeftmostIsEnough(pattern, name, p, n, starP, starN); }
    hide Matches;
    assert pattern[p + 1..p + 1] == name[n..n] == "";
  }

  lemma StuckGoesOn(pattern: string, name: string, p: nat, n: nat, starP: nat, starN: nat)
    requires InBounds(pattern, name, p, n, starP, starN) && Since(pattern, name, p, n, starP, starN)
    requires n < |name| && (p < |pattern| ==> pattern[p] != '*' && !Fits(pattern[p], name[n]))
    ensures SameTask(pattern, name, p, n, starP, starN, starP + 1, starN + 1, starP, starN + 1)
  {
    StuckMovesStar(pattern, name, p, n, starP, starN);
    hide Matches;
    assert name[starN + 1..starN + 1] == pattern[starP + 1..starP + 1] == "";
  }

  /** Without a star to move, a scan that is stuck has failed. */
  lemma StuckFails(pattern: string, name: string, p: nat, n: nat)
    requires p <= |pattern| && n < |name| && (p < |pattern| ==> pattern[p] != '*' && !Fits(pattern[p], name[n]))
    ensures !Matches(pattern[p..], name[n..])
  {
    assert name[n..][0] == name[n];
    if p < |pattern| { assert pattern[p..][0] == pattern[p]; }
  }

  lemma {:induction false} ScanDecides(pattern: string, name: string, p: nat, n: nat, starP: int, starN: nat)
    requires StarFree(name)
    requires InBounds(pattern, name, p, n, starP, starN) && Since(pattern, name, p, n, starP, starN)
    ensures Scan(pattern, name, p, n, starP, starN) == Goal(pattern, name, p, n, starP, starN)
    decreases |name| - starN, |pattern| - p
  {
    hide Matches, Since, StarFree, AllStars;
    if n == |name| {
      EndDecides(pattern, name, p, starP, starN);
    } else if p < |pattern| && Fits(pattern[p], name[n]) {
      FitGoesOn(pattern, name, p, n, starP, starN);
      hide Goal;
      ScanDecides(pattern, name, p + 1, n + 1, starP, starN);
    } else if p < |pattern| && pattern[p] == '*' {
      StarGoesOn(pattern, name, p, n, starP, starN);
      hide Goal;
      ScanDecides(pattern, name, p + 1, n, p, n);
    } else if starP >= 0 {
      StuckGoesOn(pattern, name, p, n, starP, starN);
      hide Goal;
      ScanDecides(pattern, name, starP + 1, starN + 1, starP, starN + 1);
    } else {
      StuckFails(pattern, name, p, n);
    }
  }

  /** On a star-free name the loop decides the meaning of every pattern. */
  lemma DecidesStarFreeNames(pattern: string, name: string)
    requires StarFree(name)
    ensures GlobAnswer(pattern, name) <==> Matches(pattern, name)
  {
    ScanDecides(pattern, name, 0, 0, -1, 0);
    assert pattern[0..] == pattern && name[0..] == name;
  }

  // ---- And only there ----

  /** The position of the last star of a name that has one. */
  function LastStar(name: string): (i: nat)
    requires !StarFree(name)
    ensures i < |name|
    decreases |name|
  {
    if StarFree(name[1..]) then 0 else 1 + LastStar(name[1..])
  }

  lemma OnlyStarIsFirst(name: string)
    requires !StarFree(name) && StarFree(name[1..])
    ensures name[0] == '*'
  {
    var i :| 0 <= i < |name| && name[i] == '*';
    if i > 0 { LaterStarIsInTail(name, i); }
  }

  lemma LaterStarIsInTail(name: string, i: nat)
    requires 0 < i < |name| && name[i] == '*'
    ensures !StarFree(name[1..])
  {
    assert name[1..][i - 1] == name[i];
  }

  lemma {:induction false} LastStarIsLast(name: string)
    requires !StarFree(name)
    ensures var i := LastStar(name); name[i] == '*' && StarFree(name[i + 1..])
    decreases |name|
  {
    hide StarFree;
    assert name != "" by { StarIsSomewhere(name); }
    if StarFree(name[1..]) {
      OnlyStarIsFirst(name);
    } else {
      LastStarIsLast(name[1..]);
      assert name[1..][LastStar(name[1..]) + 1..] == name[LastStar(name) + 1..];
    }
  }

  lemma StarIsSomewhere(name: string)
    requires !StarFree(name)
    ensures name != ""
  {
  }

  /** The name itself with `?` put behind its last star: the loop spends that
      star on the name's own star and then has a character too many. */
  function Misread(name: string): (pattern: string)
    requires !StarFree(name)
    ensures |pattern| == |name| + 1
  {
    var i := LastStar(name);
    name[..i] + "*?" + name[i + 1..]
  }

  /** Up to and including the name's last star, the loop walks in step. */
  lemma {:induction false} WalksInStep(name: string, k: nat)
    requires !StarFree(name) && k <= LastStar(name) + 1
    ensures GlobAnswer(Misread(name), name) == Scan(Misread(name), name, k, k, -1, 0)
    decreases k
  {
    if k > 0 {
      WalksInStep(name, k - 1);
      LastStarIsLast(name);
      assert Misread(name)[k - 1] == name[k - 1];
    }
  }

  /** Without a star left a pattern longer than the name is refused. */
  lemma {:induction false} TooLongIsRefused(pattern: string, name: string, p: nat, n: nat)
    requires InBounds(pattern, name, p, n, -1, 0)
    requires StarFree(pattern[p..]) && |pattern| - p > |name| - n
    ensures !Scan(pattern, name, p, n, -1, 0)
    decreases |name| - n
  {
    assert pattern[p..][0] == pattern[p];
    assert pattern[p..][1..] == pattern[p + 1..];
    if n < |name| && Fits(pattern[p], name[n]) {
      TooLongIsRefused(pattern, name, p + 1, n + 1);
    }
  }

  /** Every character sequence, read as a pattern, means at least itself. */
  lemma {:induction false} NameMatchesItself(name: string)
    ensures Matches(name, name)
    decreases |name|
  {
    if name != "" {
      NameMatchesItself(name[1..]);
      StarTakesOne(name, name);
    }
  }

  lemma {:induction false} SamePrefix(prefix: string, pattern: string, name: string)
    requires Matches(pattern, name)
    ensures Matches(prefix + pattern, prefix + name)
    decreases |prefix|
  {
    if prefix == "" {
      assert prefix + pattern == pattern && prefix + name == name;
    } else {
      SamePrefix(prefix[1..], pattern, name);
      assert (prefix + pattern)[1..] == prefix[1..] + pattern;
      assert (prefix + name)[1..] == prefix[1..] + name;
      StarTakesOne(prefix + pattern, prefix + name);
    }
  }

  /** `*?` means a single star character. */
  lemma StarThenOne(tail: string)
    ensures Matches("*?" + tail, "*" + tail)
  {
    NameMatchesItself(tail);
    var p := "?" + tail;
    assert p[1..] == tail && ("*" + tail)[1..] == tail;
    assert Matches(p, "*" + tail);
    assert ("*?" + tail)[1..] == p;
  }

  lemma MisreadMeansName(name: string)
    requires !StarFree(name)
    ensures Matches(Misread(name), name)
  {
    var i := LastStar(name);
    LastStarIsLast(name);
    MisreadParts(name, i);
    var prefix, tail := name[..i], name[i + 1..];
    hide Misread, Matches, StarFree, LastStar;
    StarThenOne(tail);
    SamePrefix(prefix, "*?" + tail, "*" + tail);
  }

  lemma MisreadParts(name: string, i: nat)
    requires !StarFree(name) && i == LastStar(name) && name[i] == '*'
    ensures Misread(name) == name[..i] + ("*?" + name[i + 1..])
    ensures name == name[..i] + ("*" + name[i + 1..])
  {
    hide LastStar;
    assert name == name[..i] + [name[i]] + name[i + 1..];
  }

  lemma MisreadIsRefused(name: string)
    requires !StarFree(name)
    ensures !GlobAnswer(Misread(name), name)
  {
    var i, bad := LastStar(name), Misread(name);
    LastStarIsLast(name);
    WalksInStep(name, i + 1);
    hide Scan, GlobAnswer, LastStar;
    assert bad[i + 1..] == "?" + name[i + 1..];
    TooLongIsRefused(bad, name, i + 1, i + 1);
  }

  /** A name with a star is misread under some pattern. */
  lemma StarIsMisread(name: string)
    requires !StarFree(name)
    ensures Matches(Misread(name), name) && !GlobAnswer(Misread(name), name)
  {
    MisreadMeansName(name);
    MisreadIsRefused(name);
  }

  /** The loop is right about a name under every pattern if and only if the
      name has no star. The registry's tag names (`tagRe`) never have one. */
  lemma RightExactlyOnStarFreeNames(name: string)
    ensures (forall pattern :: GlobAnswer(pattern, name) == Matches(pattern, name)) <==> StarFree(name)
  {
    if StarFree(name) {
      forall pattern ensures GlobAnswer(pattern, name) == Matches(pattern, name) {
        DecidesStarFreeNames(pattern, name);
      }
    } else {
      StarIsMisread(name);
    }
  }
}
