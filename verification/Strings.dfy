/** The string helpers the registry takes from Go's strings package: Split,
    Join, Cut, TrimPrefix and Trim, for one-character separators. */
module Strings {

  predicate Free(s: string, c: char) {
    c !in s
  }

  predicate AllFree(parts: seq<string>, c: char) {
    forall i :: 0 <= i < |parts| ==> Free(parts[i], c)
  }

  function Split(s: string, c: char): (parts: seq<string>)
    ensures |parts| >= 1
  {
    if s == "" then [""]
    else if s[0] == c then [""] + Split(s[1..], c)
    else var rest := Split(s[1..], c); [[s[0]] + rest[0]] + rest[1..]
  }

  function Join(parts: seq<string>, c: char): string {
    if parts == [] then ""
    else if |parts| == 1 then parts[0]
    else parts[0] + [c] + Join(parts[1..], c)
  }

  /** Splitting loses nothing and leaves no separator behind. */
  lemma {:induction false} JoinSplit(s: string, c: char)
    ensures Join(Split(s, c), c) == s
    ensures AllFree(Split(s, c), c)
    decreases |s|
  {
    if s != "" {
      JoinSplit(s[1..], c);
      var rest, all := Split(s[1..], c), Split(s, c);
      if s[0] == c {
        assert all[1..] == rest;
      } else {
        assert all[1..] == rest[1..];
        assert Join(all, c) == [s[0]] + Join(rest, c);
      }
    }
  }

  lemma {:induction false} SplitFree(s: string, c: char)
    requires Free(s, c)
    ensures Split(s, c) == [s]
    decreases |s|
  {
    if s != "" {
      assert s[0] in s;
      SplitFree(s[1..], c);
      assert [s[0]] + s[1..] == s;
    }
  }

  /** A separator splits a text in two independent halves. */
  lemma {:induction false} SplitAtSeparator(a: string, b: string, c: char)
    ensures Split(a + [c] + b, c) == Split(a, c) + Split(b, c)
    decreases |a|
  {
    if a == "" {
      assert (a + [c] + b)[1..] == b;
    } else {
      var rest := a[1..] + [c] + b;
      assert a + [c] + b == [a[0]] + rest;
      assert a == [a[0]] + a[1..];
      SplitAtSeparator(a[1..], b, c);
      SplitHead(a[0], rest, c);
      SplitHead(a[0], a[1..], c);
      hide Split;
    }
  }

  lemma SplitHead(x: char, rest: string, c: char)
    ensures var parts := Split(rest, c);
            Split([x] + rest, c) == if x == c then [""] + parts else [[x] + parts[0]] + parts[1..]
  {
    assert ([x] + rest)[1..] == rest;
  }

  /** Joining parts that hold no separator can be undone. */
  lemma {:induction false} SplitJoin(parts: seq<string>, c: char)
    requires parts != [] && AllFree(parts, c)
    ensures Split(Join(parts, c), c) == parts
    decreases |parts|
  {
    SplitFree(parts[0], c);
    if |parts| > 1 {
      SplitJoin(parts[1..], c);
      SplitAtSeparator(parts[0], Join(parts[1..], c), c);
    }
  }

  lemma {:induction false} JoinAppend(a: seq<string>, b: seq<string>, c: char)
    requires a != [] && b != []
    ensures Join(a + b, c) == Join(a, c) + [c] + Join(b, c)
    decreases |a|
  {
    if |a| == 1 {
      assert (a + b)[1..] == b;
    } else {
      assert (a + b)[1..] == a[1..] + b;
      JoinAppend(a[1..], b, c);
    }
  }

  /** The part before the first separator and the part after it. */
  function Cut(s: string, c: char): (r: (string, string, bool))
    ensures r.2 ==> s == r.0 + [c] + r.1 && Free(r.0, c)
    ensures !r.2 ==> Free(s, c) && r.0 == s && r.1 == ""
  {
    if s == "" then ("", "", false)
    else if s[0] == c then ("", s[1..], true)
    else var r := Cut(s[1..], c); ([s[0]] + r.0, r.1, r.2)
  }

  /** A text has only one cut. */
  lemma {:induction false} CutIsFirst(a: string, b: string, c: char)
    requires Free(a, c)
    ensures Cut(a + [c] + b, c) == (a, b, true)
    decreases |a|
  {
    var s := a + [c] + b;
    if a == "" {
      assert s[1..] == b;
    } else {
      assert s[1..] == a[1..] + [c] + b;
      assert a[0] in a && s[0] == a[0];
      CutIsFirst(a[1..], b, c);
      assert [a[0]] + a[1..] == a;
    }
  }

  function TrimPrefix(s: string, prefix: string): string {
    if prefix <= s then s[|prefix|..] else s
  }

  function TrimLeft(s: string, c: char): string {
    if s != "" && s[0] == c then TrimLeft(s[1..], c) else s
  }

  function TrimRight(s: string, c: char): string {
    if s != "" && s[|s| - 1] == c then TrimRight(s[..|s| - 1], c) else s
  }

  function Trim(s: string, c: char): string {
    TrimRight(TrimLeft(s, c), c)
  }
}
