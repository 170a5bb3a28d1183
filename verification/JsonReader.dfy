/** A reference reader of JSON (sections 2 to 7 of RFC 8259, without white space),
    and the round trip: reading what was rendered gives the value back, whatever
    its strings contain. */
module JsonReader {
  import opened Wrappers
  import opened JsonText

  /** A value and the text after it. */
  type Read<T> = Option<(T, string)>

  function HexValue(c: char): Option<nat> {
    if '0' <= c <= '9' then Some(c as nat - '0' as nat)
    else if 'a' <= c <= 'f' then Some(10 + c as nat - 'a' as nat)
    else if 'A' <= c <= 'F' then Some(10 + c as nat - 'A' as nat)
    else None
  }

  /** One character of a string: as it is, or an escape. */
  function ReadChar(text: string): (read: Read<char>)
    requires text != ""
    ensures read.Some? ==> |read.value.1| < |text|
  {
    if text[0] == QUOTE || text[0] < 32 as char then None
    else if text[0] != BACKSLASH then Some((text[0], text[1..]))
    else if |text| == 1 then None
    else if text[1] == QUOTE || text[1] == BACKSLASH || text[1] == '/' then Some((text[1], text[2..]))
    else if text[1] == 'b' then Some((BACKSPACE, text[2..]))
    else if text[1] == 'f' then Some((FORMFEED, text[2..]))
    else if text[1] == 'n' then Some(('\n', text[2..]))
    else if text[1] == 'r' then Some(('\r', text[2..]))
    else if text[1] == 't' then Some(('\t', text[2..]))
    else if text[1] == 'u' then ReadCode(text)
    else None
  }

  /** A code point in four hexadecimal digits; surrogates are left out. */
  function ReadCode(text: string): (read: Read<char>)
    requires |text| >= 2
    ensures read.Some? ==> |read.value.1| < |text|
  {
    if |text| < 6 then None
    else
      var a :- HexValue(text[2]);
      var b :- HexValue(text[3]);
      var c :- HexValue(text[4]);
      var d :- HexValue(text[5]);
      var code := ((a * 16 + b) * 16 + c) * 16 + d;
      if 0xD800 <= code <= 0xDFFF then None else Some((code as char, text[6..]))
  }

  /** The characters up to the closing quote. */
  function ReadString(text: string): (read: Read<string>)
    ensures read.Some? ==> |read.value.1| < |text|
    decreases |text|
  {
    if text == "" then None
    else if text[0] == QUOTE then Some(("", text[1..]))
    else
      var (c, others) :- ReadChar(text);
      var (s, rest) :- ReadString(others);
      Some(([c] + s, rest))
  }

  predicate IsLiteralChar(c: char) {
    IsNumberChar(c) || 'a' <= c <= 'z'
  }

  function LiteralEnd(text: string): (n: nat)
    ensures n <= |text|
  {
    if text != "" && IsLiteralChar(text[0]) then 1 + LiteralEnd(text[1..]) else 0
  }

  function ReadValue(text: string): (read: Read<Tree>)
    ensures read.Some? ==> |read.value.1| < |text|
    decreases |text|, 1
  {
    if text == "" then None
    else if text[0] == QUOTE then
      var (s, rest) :- ReadString(text[1..]);
      Some((Text(s), rest))
    else if text[0] == '[' then
      if |text| > 1 && text[1] == ']' then Some((Array([]), text[2..]))
      else
        var (items, rest) :- ReadItems(text[1..]);
        Some((Array(items), rest))
    else if text[0] == '{' then
      if |text| > 1 && text[1] == '}' then Some((Object([]), text[2..]))
      else
        var (members, rest) :- ReadMembers(text[1..]);
        Some((Object(members), rest))
    else
      var n := LiteralEnd(text);
      if n == 0 then None else Some((Literal(text[..n]), text[n..]))
  }

  /** One or more values up to the closing bracket. */
  function ReadItems(text: string): (read: Read<seq<Tree>>)
    ensures read.Some? ==> |read.value.1| < |text|
    decreases |text|, 2
  {
    var (item, after) :- ReadValue(text);
    if after == "" then None
    else if after[0] == ']' then Some(([item], after[1..]))
    else if after[0] != ',' then None
    else
      var (items, rest) :- ReadItems(after[1..]);
      Some(([item] + items, rest))
  }

  function ReadMember(text: string): (read: Read<Member>)
    ensures read.Some? ==> |read.value.1| < |text|
    decreases |text|, 2
  {
    if text == "" || text[0] != QUOTE then None
    else
      var (name, after) :- ReadString(text[1..]);
      if after == "" || after[0] != ':' then None
      else
        var (value, rest) :- ReadValue(after[1..]);
        Some((Member(name, value), rest))
  }

  /** One or more members up to the closing brace. */
  function ReadMembers(text: string): (read: Read<seq<Member>>)
    ensures read.Some? ==> |read.value.1| < |text|
    decreases |text|, 3
  {
    var (member, after) :- ReadMember(text);
    if after == "" then None
    else if after[0] == '}' then Some(([member], after[1..]))
    else if after[0] != ',' then None
    else
      var (members, rest) :- ReadMembers(after[1..]);
      Some(([member] + members, rest))
  }

  // ----- The round trip ---------------------------------------------------------------------

  lemma HexDigitRead(n: nat)
    requires n < 16
    ensures HexValue(HexDigit(n)) == Some(n)
  {
  }

  lemma EscapedCharRead(c: char, rest: string)
    ensures EscapeChar(c) != "" && EscapeChar(c)[0] != QUOTE
    ensures ReadChar(EscapeChar(c) + rest) == Some((c, rest))
  {
    var text := EscapeChar(c) + rest;
    if |EscapeChar(c)| == 6 {
      HexDigitRead(c as nat / 16);
      HexDigitRead(c as nat % 16);
      assert text[..6] == EscapeChar(c) && text[6..] == rest;
      ControlCode(c, text, rest);
    } else if |EscapeChar(c)| == 2 {
      assert text[0] == EscapeChar(c)[0] && text[1] == EscapeChar(c)[1] && text[2..] == rest;
    } else {
      assert text[0] == c && text[1..] == rest;
    }
  }

  lemma ControlCode(c: char, text: string, rest: string)
    requires c < 32 as char && |text| >= 6 && text[6..] == rest
    requires text[..6] == [BACKSLASH, 'u', '0', '0', HexDigit(c as nat / 16), HexDigit(c as nat % 16)]
    ensures ReadChar(text) == Some((c, rest))
  {
    HexDigitRead(c as nat / 16);
    HexDigitRead(c as nat % 16);
    assert forall i :: 0 <= i < 6 ==> text[i] == text[..6][i];
    assert (c as nat / 16) * 16 + c as nat % 16 == c as nat;
  }

  /** A control character without a short escape is written as an escape by code point
      with two lower-case hexadecimal digits. */
  lemma ControlIsCode(c: char)
    requires c < 32 as char && c != BACKSPACE && c != FORMFEED && c != '\n' && c != '\r' && c != '\t'
    ensures |EscapeChar(c)| == 6
    ensures EscapeChar(c)[0] == BACKSLASH && EscapeChar(c)[1] == 'u' && EscapeChar(c)[2] == EscapeChar(c)[3] == '0'
    ensures forall i :: 4 <= i < 6 ==> '0' <= EscapeChar(c)[i] <= '9' || 'a' <= EscapeChar(c)[i] <= 'f'
  {
    LowerHex(c as nat / 16);
    LowerHex(c as nat % 16);
    hide HexDigit;
  }

  lemma LowerHex(n: nat)
    requires n < 16
    ensures '0' <= HexDigit(n) <= '9' || 'a' <= HexDigit(n) <= 'f'
  {
  }

  lemma {:induction false} EscapedStringRead(s: string, rest: string)
    ensures ReadString(Escape(s) + [QUOTE] + rest) == Some((s, rest))
    decreases |s|
  {
    hide EscapeChar, ReadChar;
    if s == "" {
      assert Escape(s) + [QUOTE] + rest == [QUOTE] + rest;
    } else {
      var tail := Escape(s[1..]) + [QUOTE] + rest;
      EscapedCharRead(s[0], tail);
      EscapedStringRead(s[1..], rest);
      assert Escape(s) + [QUOTE] + rest == EscapeChar(s[0]) + tail;
      assert [s[0]] + s[1..] == s;
    }
  }

  predicate EndsValue(rest: string) {
    rest == "" || !IsLiteralChar(rest[0])
  }

  lemma {:induction false} LiteralRead(text: string, rest: string)
    requires forall i :: 0 <= i < |text| ==> IsLiteralChar(text[i])
    requires EndsValue(rest)
    ensures LiteralEnd(text + rest) == |text|
    decreases |text|
  {
    if text == "" {
      assert text + rest == rest;
    } else {
      LiteralRead(text[1..], rest);
      assert (text + rest)[1..] == text[1..] + rest && (text + rest)[0] == text[0];
    }
  }

  lemma FrontOfRender(tree: Tree, rest: string)
    requires Proper(tree)
    ensures Render(tree) != ""
    ensures (Render(tree) + rest)[0] != ']' && (Render(tree) + rest)[0] != '}'
  {
    hide Escape;
    assert (Render(tree) + rest)[0] == Render(tree)[0];
  }

  /** Reading what was rendered gives the value back, in front of any text that
      does not go on with it. */
  lemma {:induction false} RenderedIsRead(tree: Tree, rest: string)
    requires Proper(tree) && EndsValue(rest)
    ensures ReadValue(Render(tree) + rest) == Some((tree, rest))
    decreases tree
  {
    hide Escape, ReadString;
    var text := Render(tree) + rest;
    match tree
    case Text(s) =>
      EscapedStringRead(s, rest);
      assert text[0] == QUOTE && text[1..] == Escape(s) + [QUOTE] + rest;
    case Literal(word) =>
      LiteralIsRead(word, rest);
    case Array(items) =>
      hide Proper, Render;
      RenderOfContainer(tree);
      ArrayIsRead(items, rest);
    case Object(members) =>
      hide Proper, Render;
      RenderOfContainer(tree);
      ObjectIsRead(members, rest);
  }

  lemma RenderOfContainer(tree: Tree)
    requires Proper(tree)
    ensures tree.Array? ==> Render(tree) == ['['] + RenderItems(tree.items) + [']']
    ensures tree.Array? ==> forall i :: 0 <= i < |tree.items| ==> Proper(tree.items[i])
    ensures tree.Object? ==> Render(tree) == ['{'] + RenderMembers(tree.members) + ['}']
    ensures tree.Object? ==> forall i :: 0 <= i < |tree.members| ==> Proper(tree.members[i].value)
  {
  }

  lemma LiteralIsRead(word: string, rest: string)
    requires IsLiteralText(word) && EndsValue(rest)
    ensures ReadValue(word + rest) == Some((Literal(word), rest))
  {
    LiteralRead(word, rest);
    var text := word + rest;
    assert text[0] == word[0] && text[..|word|] == word && text[|word|..] == rest;
  }

  lemma ArrayIsRead(items: seq<Tree>, rest: string)
    requires forall i :: 0 <= i < |items| ==> Proper(items[i])
    ensures ReadValue(['['] + RenderItems(items) + [']'] + rest) == Some((Array(items), rest))
    decreases items, 1
  {
    hide Render, Proper, ReadString, ReadItems;
    var text := ['['] + RenderItems(items) + [']'] + rest;
    if items == [] {
      assert text == ['[', ']'] + rest && text[2..] == rest;
    } else {
      var inner := RenderItems(items) + [']'] + rest;
      assert text == ['['] + inner && text[1..] == inner;
      FrontOfItems(items, [']'] + rest);
      ItemsAreRead(items, rest);
    }
  }

  lemma FrontOfItems(items: seq<Tree>, rest: string)
    requires items != [] && Proper(items[0])
    ensures (RenderItems(items) + rest) != "" && (RenderItems(items) + rest)[0] != ']'
  {
    hide Proper, Render;
    var more := if |items| == 1 then "" else [','] + RenderItems(items[1..]);
    FrontOfRender(items[0], more + rest);
    assert RenderItems(items) + rest == Render(items[0]) + (more + rest);
  }

  lemma {:induction false} ItemsAreRead(items: seq<Tree>, rest: string)
    requires items != [] && forall i :: 0 <= i < |items| ==> Proper(items[i])
    ensures ReadItems(RenderItems(items) + [']'] + rest) == Some((items, rest))
    decreases items, 0
  {
    hide Render, Proper, ReadValue;
    if |items| == 1 {
      RenderedIsRead(items[0], [']'] + rest);
      assert RenderItems(items) + [']'] + rest == Render(items[0]) + ([']'] + rest);
      assert ([']'] + rest)[1..] == rest && items == [items[0]];
    } else {
      var others := items[1..];
      var tail := RenderItems(others) + [']'] + rest;
      RenderedIsRead(items[0], [','] + tail);
      ItemsAreRead(others, rest);
      assert RenderItems(items) + [']'] + rest == Render(items[0]) + ([','] + tail);
      assert ([','] + tail)[1..] == tail && [items[0]] + others == items;
    }
  }

  lemma MemberIsRead(member: Member, rest: string)
    requires Proper(member.value) && EndsValue(rest)
    ensures ReadMember(RenderMember(member) + rest) == Some((member, rest))
    decreases member, 0
  {
    hide Render, Proper, ReadValue, Escape, ReadString;
    RenderedIsRead(member.value, rest);
    var after := [':'] + (Render(member.value) + rest);
    EscapedStringRead(member.name, after);
    var text := RenderMember(member) + rest;
    assert text == [QUOTE] + (Escape(member.name) + [QUOTE] + after);
    assert text[1..] == Escape(member.name) + [QUOTE] + after;
    assert after[1..] == Render(member.value) + rest;
  }

  lemma ObjectIsRead(members: seq<Member>, rest: string)
    requires forall i :: 0 <= i < |members| ==> Proper(members[i].value)
    ensures ReadValue(['{'] + RenderMembers(members) + ['}'] + rest) == Some((Object(members), rest))
    decreases members, 1
  {
    hide RenderMember, Proper, ReadString, ReadMembers;
    var text := ['{'] + RenderMembers(members) + ['}'] + rest;
    if members == [] {
      assert text == ['{', '}'] + rest && text[2..] == rest;
    } else {
      var inner := RenderMembers(members) + ['}'] + rest;
      assert text == ['{'] + inner && text[1..] == inner;
      FrontOfMembers(members, ['}'] + rest);
      MembersAreRead(members, rest);
    }
  }

  lemma FrontOfMembers(members: seq<Member>, rest: string)
    requires members != []
    ensures RenderMembers(members) != "" && (RenderMembers(members) + rest)[0] == QUOTE
  {
    hide Escape, Render;
    assert RenderMember(members[0])[0] == QUOTE;
    assert RenderMembers(members)[0] == RenderMember(members[0])[0];
  }

  lemma {:induction false} MembersAreRead(members: seq<Member>, rest: string)
    requires members != [] && forall i :: 0 <= i < |members| ==> Proper(members[i].value)
    ensures ReadMembers(RenderMembers(members) + ['}'] + rest) == Some((members, rest))
    decreases members, 0
  {
    hide RenderMember, Proper, ReadMember;
    if |members| == 1 {
      MemberIsRead(members[0], ['}'] + rest);
      assert RenderMembers(members) + ['}'] + rest == RenderMember(members[0]) + (['}'] + rest);
      assert (['}'] + rest)[1..] == rest && members == [members[0]];
    } else {
      var others := members[1..];
      var tail := RenderMembers(others) + ['}'] + rest;
      MemberIsRead(members[0], [','] + tail);
      MembersAreRead(others, rest);
      assert RenderMembers(members) + ['}'] + rest == RenderMember(members[0]) + ([','] + tail);
      assert ([','] + tail)[1..] == tail && [members[0]] + others == members;
    }
  }

  /** Different values are never written as the same text. */
  lemma RenderIsInjective(left: Tree, right: Tree)
    requires Proper(left) && Proper(right) && Render(left) == Render(right)
    ensures left == right
  {
    hide Proper, Render, ReadValue;
    RenderedIsRead(left, "");
    RenderedIsRead(right, "");
  }
}
