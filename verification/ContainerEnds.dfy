/** `MatchingEnd` on rendered JSON: started at the first character of an array or
    an object it finds that value's own closing bracket, whatever surrounds the
    value and whatever its strings contain. */
module ContainerEnds {
  import opened Wrappers
  import opened JsonText
  import opened JsonScanner

  /** The scanner as a machine that reads a whole text without stopping. */
  function Run(text: string, scan: Scan, opening: char, closing: char): Scan
    decreases |text|
  {
    if text == "" then scan else Run(text[1..], ScanChar(scan, text[0], opening, closing), opening, closing)
  }

  /** No character of the text is taken for the end. */
  predicate Passes(text: string, scan: Scan, opening: char, closing: char)
    decreases |text|
  {
    text == ""
    || (!Ends(scan, text[0], opening, closing)
        && Passes(text[1..], ScanChar(scan, text[0], opening, closing), opening, closing))
  }

  /** The text takes the scanner from one state to another without an end. */
  predicate Moves(text: string, before: Scan, after: Scan, opening: char, closing: char) {
    Passes(text, before, opening, closing) && Run(text, before, opening, closing) == after
  }

  lemma {:induction false} MovesConcat(a: string, b: string, s: Scan, t: Scan, u: Scan, opening: char, closing: char)
    requires Moves(a, s, t, opening, closing) && Moves(b, t, u, opening, closing)
    ensures Moves(a + b, s, u, opening, closing)
    decreases |a|
  {
    if a == "" {
      assert a + b == b;
    } else {
      MovesConcat(a[1..], b, ScanChar(s, a[0], opening, closing), t, u, opening, closing);
      assert (a + b)[1..] == a[1..] + b && (a + b)[0] == a[0];
    }
  }

  lemma {:induction false} EndAfter(a: string, b: string, s: Scan, t: Scan, opening: char, closing: char)
    requires Moves(a, s, t, opening, closing)
    ensures End(a + b, s, opening, closing) == Shift(|a|, End(b, t, opening, closing))
    decreases |a|
  {
    if a == "" {
      assert a + b == b;
    } else {
      EndAfter(a[1..], b, ScanChar(s, a[0], opening, closing), t, opening, closing);
      assert (a + b)[1..] == a[1..] + b && (a + b)[0] == a[0];
    }
  }

  lemma MovesChar(c: char, s: Scan, opening: char, closing: char)
    requires !Ends(s, c, opening, closing)
    ensures Moves([c], s, ScanChar(s, c, opening, closing), opening, closing)
  {
    assert [c][1..] == "";
  }

  function Outside(depth: int): Scan {
    Scan(depth, false, false)
  }

  function Inside(depth: int): Scan {
    Scan(depth, true, false)
  }

  predicate BracketPair(opening: char, closing: char) {
    (opening == '[' && closing == ']') || (opening == '{' && closing == '}')
  }

  // ----- Strings ------------------------------------------------------------------

  lemma MovesEscapePair(c: char, d: int, opening: char, closing: char)
    ensures Moves([BACKSLASH, c], Inside(d), Inside(d), opening, closing)
  {
    MovesChar(BACKSLASH, Inside(d), opening, closing);
    MovesChar(c, Scan(d, true, true), opening, closing);
    MovesConcat([BACKSLASH], [c], Inside(d), Scan(d, true, true), Inside(d), opening, closing);
    assert [BACKSLASH] + [c] == [BACKSLASH, c];
  }

  lemma MovesPlain(text: string, d: int, opening: char, closing: char)
    requires forall i :: 0 <= i < |text| ==> text[i] != QUOTE && text[i] != BACKSLASH
    ensures Moves(text, Inside(d), Inside(d), opening, closing)
    decreases |text|
  {
    if text != "" {
      MovesPlain(text[1..], d, opening, closing);
    }
  }

  lemma MovesEscapeChar(c: char, d: int, opening: char, closing: char)
    ensures Moves(EscapeChar(c), Inside(d), Inside(d), opening, closing)
  {
    var text := EscapeChar(c);
    if |text| == 1 {
      MovesPlain(text, d, opening, closing);
    } else {
      MovesEscapePair(text[1], d, opening, closing);
      MovesPlain(text[2..], d, opening, closing);
      MovesConcat([BACKSLASH, text[1]], text[2..], Inside(d), Inside(d), Inside(d), opening, closing);
      assert text == [BACKSLASH, text[1]] + text[2..];
    }
  }

  lemma {:induction false} MovesEscape(s: string, d: int, opening: char, closing: char)
    ensures Moves(Escape(s), Inside(d), Inside(d), opening, closing)
    decreases |s|
  {
    hide EscapeChar;
    if s != "" {
      MovesEscapeChar(s[0], d, opening, closing);
      MovesEscape(s[1..], d, opening, closing);
      MovesConcat(EscapeChar(s[0]), Escape(s[1..]), Inside(d), Inside(d), Inside(d), opening, closing);
    }
  }

  lemma MovesQuoted(s: string, d: int, opening: char, closing: char)
    requires BracketPair(opening, closing)
    ensures Moves(Quoted(s), Outside(d), Outside(d), opening, closing)
  {
    hide Escape;
    MovesEscape(s, d, opening, closing);
    MovesChar(QUOTE, Outside(d), opening, closing);
    MovesChar(QUOTE, Inside(d), opening, closing);
    MovesConcat([QUOTE], Escape(s), Outside(d), Inside(d), Inside(d), opening, closing);
    MovesConcat([QUOTE] + Escape(s), [QUOTE], Outside(d), Inside(d), Outside(d), opening, closing);
  }

  // ----- Values -------------------------------------------------------------------

  lemma {:induction false} MovesLiteral(text: string, d: int, opening: char, closing: char)
    requires forall i :: 0 <= i < |text| ==> text[i] != QUOTE && text[i] != opening && text[i] != closing
    ensures Moves(text, Outside(d), Outside(d), opening, closing)
    decreases |text|
  {
    if text != "" {
      MovesLiteral(text[1..], d, opening, closing);
    }
  }

  /** A bracket around a text that keeps the depth; the value's own kind of
      bracket counts, the other kind does not. */
  lemma MovesBracketed(first: char, body: string, last: char, d: int, opening: char, closing: char)
    requires BracketPair(opening, closing) && BracketPair(first, last)
    requires d >= 1
    requires Moves(body, Outside(d), Outside(d), opening, closing)
    requires Moves(body, Outside(d + 1), Outside(d + 1), opening, closing)
    ensures Moves([first] + body + [last], Outside(d), Outside(d), opening, closing)
  {
    hide Moves;
    var inner := if first == opening then d + 1 else d;
    assert ScanChar(Outside(d), first, opening, closing) == Outside(inner);
    assert ScanChar(Outside(inner), last, opening, closing) == Outside(d);
    MovesChar(first, Outside(d), opening, closing);
    MovesChar(last, Outside(inner), opening, closing);
    MovesConcat([first], body, Outside(d), Outside(inner), Outside(inner), opening, closing);
    MovesConcat([first] + body, [last], Outside(d), Outside(inner), Outside(d), opening, closing);
  }

  /** A rendered value leaves the scanner as it found it. */
  lemma {:induction false} MovesRender(tree: Tree, d: int, opening: char, closing: char)
    requires BracketPair(opening, closing) && Proper(tree)
    requires d >= 1
    ensures Moves(Render(tree), Outside(d), Outside(d), opening, closing)
    decreases tree
  {
    hide Moves;
    match tree
    case Text(s) => MovesQuoted(s, d, opening, closing);
    case Literal(text) => MovesLiteral(text, d, opening, closing);
    case Array(items) =>
      MovesItems(items, d, opening, closing);
      MovesItems(items, d + 1, opening, closing);
      MovesBracketed('[', RenderItems(items), ']', d, opening, closing);
    case Object(members) =>
      MovesMembers(members, d, opening, closing);
      MovesMembers(members, d + 1, opening, closing);
      MovesBracketed('{', RenderMembers(members), '}', d, opening, closing);
  }

  lemma {:induction false} MovesItems(items: seq<Tree>, d: int, opening: char, closing: char)
    requires BracketPair(opening, closing) && d >= 1
    requires forall i :: 0 <= i < |items| ==> Proper(items[i])
    ensures Moves(RenderItems(items), Outside(d), Outside(d), opening, closing)
    decreases items
  {
    hide Moves, Proper, Render;
    if items == [] {
      MovesLiteral("", d, opening, closing);
    } else {
      MovesRender(items[0], d, opening, closing);
      if |items| == 1 {
        assert RenderItems(items) == Render(items[0]);
      } else {
        MovesItems(items[1..], d, opening, closing);
        MovesSeparated(Render(items[0]), RenderItems(items[1..]), ',', d, opening, closing);
        assert RenderItems(items) == Render(items[0]) + [','] + RenderItems(items[1..]);
      }
    }
  }

  lemma MovesSeparated(a: string, b: string, separator: char, d: int, opening: char, closing: char)
    requires BracketPair(opening, closing) && (separator == ',' || separator == ':')
    requires Moves(a, Outside(d), Outside(d), opening, closing)
    requires Moves(b, Outside(d), Outside(d), opening, closing)
    ensures Moves(a + [separator] + b, Outside(d), Outside(d), opening, closing)
  {
    hide Moves;
    MovesChar(separator, Outside(d), opening, closing);
    MovesConcat(a, [separator], Outside(d), Outside(d), Outside(d), opening, closing);
    MovesConcat(a + [separator], b, Outside(d), Outside(d), Outside(d), opening, closing);
  }

  lemma {:induction false} MovesMembers(members: seq<Member>, d: int, opening: char, closing: char)
    requires BracketPair(opening, closing) && d >= 1
    requires forall i :: 0 <= i < |members| ==> Proper(members[i].value)
    ensures Moves(RenderMembers(members), Outside(d), Outside(d), opening, closing)
    decreases members
  {
    hide Moves, Proper, Render, Quoted;
    if members == [] {
      MovesLiteral("", d, opening, closing);
    } else {
      var first := members[0];
      MovesQuoted(first.name, d, opening, closing);
      MovesRender(first.value, d, opening, closing);
      MovesSeparated(Quoted(first.name), Render(first.value), ':', d, opening, closing);
      if |members| == 1 {
        assert RenderMembers(members) == RenderMember(first);
      } else {
        MovesMembers(members[1..], d, opening, closing);
        MovesSeparated(RenderMember(first), RenderMembers(members[1..]), ',', d, opening, closing);
        assert RenderMembers(members) == RenderMember(first) + [','] + RenderMembers(members[1..]);
      }
    }
  }

  // ----- The result ---------------------------------------------------------------

  predicate IsContainer(tree: Tree) {
    tree.Array? || tree.Object?
  }

  function Opening(tree: Tree): char
    requires IsContainer(tree)
  {
    if tree.Array? then '[' else '{'
  }

  function Closing(tree: Tree): char
    requires IsContainer(tree)
  {
    if tree.Array? then ']' else '}'
  }

  /** The end of a container is its own last character, whatever follows. */
  lemma OwnEnd(tree: Tree, rest: string)
    requires IsContainer(tree) && Proper(tree)
    ensures |Render(tree)| >= 2
    ensures End(Render(tree) + rest, OUTSIDE, Opening(tree), Closing(tree)) == Some(|Render(tree)| - 1)
  {
    hide Moves;
    var first, last := Opening(tree), Closing(tree);
    var body := if tree.Array? then RenderItems(tree.items) else RenderMembers(tree.members);
    if tree.Array? {
      MovesItems(tree.items, 1, first, last);
    } else {
      MovesMembers(tree.members, 1, first, last);
    }
    MovesChar(first, OUTSIDE, first, last);
    MovesConcat([first], body, OUTSIDE, Outside(1), Outside(1), first, last);
    assert Render(tree) == [first] + body + [last];
    assert Render(tree) + rest == ([first] + body) + ([last] + rest);
    EndAfter([first] + body, [last] + rest, OUTSIDE, Outside(1), first, last);
  }

  /** Wherever the container stands, what `MatchingEnd` returns when it is
      started there is the position of the container's own last character. */
  lemma MatchingEndIsOwnEnd(before: string, tree: Tree, after: string)
    requires IsContainer(tree) && Proper(tree)
    ensures |before| <= |before + Render(tree) + after|
    ensures Shift(|before|, End((before + Render(tree) + after)[|before|..], OUTSIDE, Opening(tree), Closing(tree)))
         == Some(|before + Render(tree)| - 1)
  {
    OwnEnd(tree, after);
    assert (before + Render(tree) + after)[|before|..] == Render(tree) + after;
  }
}
