/** The proxy allow-list's glob engine (upstream/names.go): a glob is printed as
    a regular expression and handed to the regexp package.

    The text is modelled character by character, so bytes and runes coincide:
    the results speak of ASCII text. `ParseRegexp` reads the fragment of the
    regexp syntax the printer uses and refuses everything else; `InLanguage` is
    the language of what was read, with `.` not matching a newline. */
module GlobRegexp {
  import opened Wrappers
  import opened Glob

  datatype Item = Literal(c: char) | AnyChar | AnyRun

  const META := "\\.+*?()|[]{}^$"

  function QuoteMeta(c: char): string {
    if c in META then ['\\', c] else [c]
  }

  function Piece(c: char): string {
    if c == '*' then ".*" else if c == '?' then "." else QuoteMeta(c)
  }

  function Pieces(glob: string): string {
    if glob == "" then "" else Piece(glob[0]) + Pieces(glob[1..])
  }

  lemma {:induction false} PiecesSnoc(glob: string, c: char)
    ensures Pieces(glob + [c]) == Pieces(glob) + Piece(c)
    decreases |glob|
  {
    if glob == "" {
      assert [c][1..] == "" && glob + [c] == [c];
    } else {
      assert (glob + [c])[1..] == glob[1..] + [c];
      PiecesSnoc(glob[1..], c);
    }
  }

  function Printed(glob: string): string {
    "^" + Pieces(glob) + "$"
  }

  /** The printer, a loop over the glob. What it prints is a regular expression
      whose language, on text without newlines, is the glob's meaning. */
  method GlobToRegexp(glob: string) returns (re: string)
    ensures re == Printed(glob)
    ensures ParseRegexp(re).Some?
    ensures forall text | '\n' !in text :: RegexpAccepts(re, text) == Matches(glob, text)
  {
    re := "^";
    for i := 0 to |glob|
      invariant re == "^" + Pieces(glob[..i])
    {
      assert glob[..i + 1] == glob[..i] + [glob[i]];
      PiecesSnoc(glob[..i], glob[i]);
      match glob[i]
      case '*' => re := re + ".*";
      case '?' => re := re + ".";
      case c => re := re + QuoteMeta(c);
    }
    assert glob[..|glob|] == glob;
    re := re + "$";
    PrintedIsRead(glob);
    forall text | '\n' !in text ensures RegexpAccepts(re, text) == Matches(glob, text) {
      LanguageIsMeaning(glob, text);
    }
  }

  /** The characters that are operators to a regular expression unless quoted. */
  predicate IsOperator(c: char) {
    || c == '\\' || c == '.' || c == '+' || c == '*' || c == '?' || c == '|' || c == '^' || c == '$'
    || c == '(' || c == ')' || c == '[' || c == ']' || c == '{' || c == '}'
  }

  /** Reads the text after `^`: up to and including the final `$`. */
  function ParseItems(re: string): Option<seq<Item>> {
    if re == "" then None
    else if re == "$" then Some([])
    else if re[0] == '.' then
      if |re| > 1 && re[1] == '*' then Before(AnyRun, ParseItems(re[2..]))
      else Before(AnyChar, ParseItems(re[1..]))
    else if re[0] == '\\' then
      if |re| > 1 && IsOperator(re[1]) then Before(Literal(re[1]), ParseItems(re[2..])) else None
    else if IsOperator(re[0]) then None
    else Before(Literal(re[0]), ParseItems(re[1..]))
  }

  function Before(item: Item, items: Option<seq<Item>>): Option<seq<Item>> {
    match items
    case None => None
    case Some(s) => Some([item] + s)
  }

  function ParseRegexp(re: string): Option<seq<Item>> {
    if re != "" && re[0] == '^' then ParseItems(re[1..]) else None
  }

  /** The words a sequence of items stands for. */
  ghost predicate InLanguage(items: seq<Item>, text: string) {
    if items == [] then text == ""
    else match items[0]
      case Literal(c) => text != "" && text[0] == c && InLanguage(items[1..], text[1..])
      case AnyChar => text != "" && text[0] != '\n' && InLanguage(items[1..], text[1..])
      case AnyRun =>
        exists k :: 0 <= k <= |text| && '\n' !in text[..k] && InLanguage(items[1..], text[k..])
  }

  ghost predicate RegexpAccepts(re: string, text: string) {
    var parsed := ParseRegexp(re);
    parsed.Some? && InLanguage(parsed.value, text)
  }

  function ItemOf(c: char): Item {
    if c == '*' then AnyRun else if c == '?' then AnyChar else Literal(c)
  }

  function ItemsOf(glob: string): seq<Item> {
    if glob == "" then [] else [ItemOf(glob[0])] + ItemsOf(glob[1..])
  }

  /** Escaping is neither forgotten nor overdone: the printed text is read back
      as one item per character of the glob. */
  lemma {:induction false} PiecesAreRead(glob: string)
    ensures ParseItems(Pieces(glob) + "$") == Some(ItemsOf(glob))
    decreases |glob|
  {
    if glob == "" {
      assert Pieces(glob) + "$" == "$";
    } else {
      PiecesAreRead(glob[1..]);
      var rest, piece := Pieces(glob[1..]) + "$", Piece(glob[0]);
      var re := Pieces(glob) + "$";
      assert re == piece + rest;
      assert re[|piece|..] == rest;
      NoStarFirst(glob[1..]);
      assert re[0] == piece[0];
      assert |piece| > 1 ==> re[1] == piece[1];
      assert |piece| == 1 ==> re[1] == rest[0];
    }
  }

  /** No printed piece starts with a quantifier, so a `.` stays a `.`. */
  lemma NoStarFirst(glob: string)
    ensures (Pieces(glob) + "$")[0] != '*'
  {
    if glob != "" {
      assert (Pieces(glob) + "$")[0] == Piece(glob[0])[0];
    }
  }

  lemma PrintedIsRead(glob: string)
    ensures ParseRegexp(Printed(glob)) == Some(ItemsOf(glob))
  {
    PiecesAreRead(glob);
    assert Printed(glob)[1..] == Pieces(glob) + "$";
  }

  lemma {:induction false} ItemsMeanGlob(glob: string, text: string)
    requires '\n' !in text
    ensures InLanguage(ItemsOf(glob), text) == Matches(glob, text)
    decreases |glob|
  {
    if glob != "" {
      var rest := glob[1..];
      assert ItemsOf(glob)[1..] == ItemsOf(rest);
      if glob[0] == '*' {
        assert glob == "*" + rest;
        StarMeans(rest, text);
        forall k | 0 <= k <= |text|
          ensures '\n' !in text[..k] && InLanguage(ItemsOf(rest), text[k..]) == Matches(rest, text[k..])
        {
          ItemsMeanGlob(rest, text[k..]);
        }
      } else if text != "" {
        ItemsMeanGlob(rest, text[1..]);
      }
    }
  }

  /** On text without a newline the printed regexp's language is the meaning of
      the glob. */
  lemma LanguageIsMeaning(glob: string, text: string)
    requires '\n' !in text
    ensures RegexpAccepts(Printed(glob), text) == Matches(glob, text)
  {
    PrintedIsRead(glob);
    ItemsMeanGlob(glob, text);
  }

  /** The exact condition: the engine is right about a text under every glob if
      and only if the text has no newline, which `.` refuses. */
  lemma RightExactlyWithoutNewline(text: string)
    ensures (forall glob :: RegexpAccepts(Printed(glob), text) == Matches(glob, text)) <==> '\n' !in text
  {
    if '\n' !in text {
      forall glob ensures RegexpAccepts(Printed(glob), text) == Matches(glob, text) {
        LanguageIsMeaning(glob, text);
      }
    } else {
      PrintedIsRead("*");
      var items := ItemsOf("*");
      assert items == [AnyRun] && items[1..] == [];
      forall k | 0 <= k <= |text| && InLanguage([], text[k..]) ensures '\n' in text[..k] {
        assert text[..k] == text;
      }
      StarMeans("", text);
      assert "*" + "" == "*" && text[|text|..] == "";
    }
  }

  /** The registry's two glob engines agree on every pattern and every name
      without a star or a newline. */
  lemma EnginesAgree(glob: string, name: string)
    requires StarFree(name) && '\n' !in name
    ensures RegexpAccepts(Printed(glob), name) == GlobAnswer(glob, name)
  {
    LanguageIsMeaning(glob, name);
    DecidesStarFreeNames(glob, name);
  }
}
