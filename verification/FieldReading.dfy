/** Reading back the members of a rendered object: strings, unsigned integers,
    booleans, numbers and arrays of objects come back as they were written. */
module FieldReading {
  import opened Wrappers
  import opened JsonText
  import opened JsonScanner
  import opened ContainerEnds
  import opened KeySearch

  // ----- The value that is found -------------------------------------------------------

  lemma AfterNeedle(needle: string, text: string)
    ensures (needle + text)[|needle|..] == text
  {
  }

  lemma RenderFront(tree: Tree, tail: string)
    requires Proper(tree)
    ensures Render(tree) != "" && !IsBlank(Render(tree)[0])
    ensures SkipBlanks(Render(tree) + tail) == Render(tree) + tail
  {
    hide Escape;
    assert Render(tree) != "" && !IsBlank(Render(tree)[0]);
    assert (Render(tree) + tail)[0] == Render(tree)[0];
  }

  /** Looking at a text from a found key on. */
  lemma ValueTextAt(json: string, key: string, at: nat, between: string, value: string)
    requires FirstAt(json, Needle(key)) == Some(at) && at <= |json|
    requires json[at..] == Needle(key) + (between + ([':'] + value))
    requires forall i :: 0 <= i < |between| ==> between[i] != ':'
    requires SkipBlanks(value) == value
    ensures ValueText(json, key) == Some(value)
  {
    hide FirstAt, SkipBlanks, ValueText;
    hide Needle;
    AfterFound(json, at, Needle(key), between + ([':'] + value));
    ColonAfter(between, value);
    AfterColon(between, value);
    ValueTextIs(json, key, at, |between|);
  }

  lemma AfterFound(json: string, at: nat, needle: string, found: string)
    requires at <= |json| && json[at..] == needle + found
    ensures at + |needle| <= |json| && json[at + |needle|..] == found
  {
    assert |json[at..]| == |needle| + |found|;
    AfterNeedle(needle, found);
    assert json[at + |needle|..] == json[at..][|needle|..];
  }

  lemma AfterColon(between: string, value: string)
    ensures (between + ([':'] + value))[|between| + 1..] == value
  {
  }

  lemma ValueTextIs(json: string, key: string, at: nat, colon: nat)
    requires FirstAt(json, Needle(key)) == Some(at) && at + |Needle(key)| <= |json|
    requires FirstAt(json[at + |Needle(key)|..], [':']) == Some(colon)
    requires colon + 1 <= |json[at + |Needle(key)|..]|
    ensures ValueText(json, key) == Some(SkipBlanks(json[at + |Needle(key)|..][colon + 1..]))
  {
    hide FirstAt, SkipBlanks;
  }

  lemma {:induction false} ColonAfter(between: string, value: string)
    requires forall i :: 0 <= i < |between| ==> between[i] != ':'
    ensures FirstAt(between + ([':'] + value), [':']) == Some(|between|)
    decreases |between|
  {
    var text := between + ([':'] + value);
    assert text[..1] == [text[0]];
    if between == "" {
      assert text[0] == ':';
    } else {
      ColonAfter(between[1..], value);
      assert text[1..] == between[1..] + ([':'] + value);
      assert text[0] == between[0];
    }
  }

  /** A lookup whose key is not imitated before it lands on the member's value. */
  lemma ValueFound(members: seq<Member>, i: nat, rest: string, key: string)
    requires PlainKey(key) && i < |members| && members[i].name == key
    requires forall j :: 0 <= j < |members| ==> Proper(members[j].value)
    requires AllClean(members[..i], key)
    ensures ValueText(Render(Object(members)) + rest, key)
         == Some(Render(members[i].value) + ValueTail(members, i, rest))
  {
    hide FirstAt, Proper, PlainKey, AllClean, Render, Needle, Quoted, ValueTail, ValueText, SkipBlanks, NamePosition;
    NameFoundIffClean(members, i, rest, key);
    ObjectSplit(members, i, rest);
    KeyIsFirst(key, "");
    RenderFront(members[i].value, ValueTail(members, i, rest));
    var value := Render(members[i].value) + ValueTail(members, i, rest);
    assert Quoted(key) + [':'] + Render(members[i].value) + ValueTail(members, i, rest)
        == Needle(key) + ("" + ([':'] + value));
    ValueTextAt(Render(Object(members)) + rest, key, NamePosition(members, i), "", value);
  }

  /** A string value equal to the key misleads the lookup: it lands on the value
      of the member after it. */
  lemma ImitatedKeyMisleads(members: seq<Member>, i: nat, rest: string, key: string)
    requires PlainKey(key) && i + 1 < |members|
    requires forall j :: 0 <= j < |members| ==> Proper(members[j].value)
    requires AllClean(members[..i], key) && CleanString(members[i].name, key) && members[i].value == Text(key)
    requires PlainText(members[i + 1].name)
    ensures ValueText(Render(Object(members)) + rest, key)
         == Some(Render(members[i + 1].value) + ValueTail(members, i + 1, rest))
  {
    hide FirstAt, AllClean, Proper, PlainKey, CleanString, Needle, Quoted, ValueText, SkipBlanks, PlainText,
      RenderMembers;
    var json := Render(Object(members)) + rest;
    var next := members[i + 1];
    var value := Render(next.value) + ValueTail(members, i + 1, rest);
    var between := [','] + Quoted(next.name);
    var here := between + ([':'] + value);
    ImitationFound(members, i, rest, key);
    var at := ImitationPosition(members, i);
    assert json[at..] == Needle(key) + here by {
      ImitationSplit(members, i, rest, key);
      TailSplit(members, i, rest);
    }
    NoColon(next.name);
    RenderFront(next.value, ValueTail(members, i + 1, rest));
    ValueTextAt(json, key, at, between, value);
  }

  lemma NoColon(name: string)
    requires PlainText(name)
    ensures forall i :: 0 <= i < |[','] + Quoted(name)| ==> ([','] + Quoted(name))[i] != ':'
  {
    PlainEscape(name);
  }

  function ImitationPosition(members: seq<Member>, i: nat): nat
    requires i < |members|
  {
    NamePosition(members, i) + |Quoted(members[i].name)| + 1
  }

  lemma TailSplit(members: seq<Member>, i: nat, rest: string)
    requires i + 1 < |members|
    ensures ValueTail(members, i, rest)
         == [','] + Quoted(members[i + 1].name)
            + ([':'] + (Render(members[i + 1].value) + ValueTail(members, i + 1, rest)))
  {
    hide Quoted, Render, RenderMembers, After;
    AfterSplit(members, i);
    var next := members[i + 1];
    Regroup(Quoted(next.name), Render(next.value), After(members, i + 1), ['}'] + rest);
    assert After(members, i) + ['}'] + rest == After(members, i) + (['}'] + rest);
    assert After(members, i + 1) + ['}'] + rest == After(members, i + 1) + (['}'] + rest);
  }

  lemma AfterSplit(members: seq<Member>, i: nat)
    requires i + 1 < |members|
    ensures After(members, i) == [','] + (RenderMember(members[i + 1]) + After(members, i + 1))
  {
    hide RenderMember, RenderMembers;
    RenderCons(members[i + 1..]);
    assert members[i + 1..][0] == members[i + 1] && members[i + 1..][1..] == members[i + 2..];
  }

  lemma Regroup(name: string, value: string, after: string, rest: string)
    ensures [','] + (name + [':'] + value + after) + rest == [','] + name + ([':'] + (value + (after + rest)))
  {
  }

  lemma ImitationSplit(members: seq<Member>, i: nat, rest: string, key: string)
    requires i + 1 < |members| && members[i].value == Text(key) && PlainKey(key)
    ensures ImitationPosition(members, i) <= |Render(Object(members)) + rest|
    ensures (Render(Object(members)) + rest)[ImitationPosition(members, i)..]
         == Needle(key) + ValueTail(members, i, rest)
  {
    hide PlainKey, Needle, Quoted, RenderMembers, NamePosition, ValueTail;
    var json := Render(Object(members)) + rest;
    var name := Quoted(members[i].name) + [':'];
    ObjectSplit(members, i, rest);
    KeyIsFirst(key, "");
    var tail := Quoted(key) + ValueTail(members, i, rest);
    assert Render(members[i].value) == Quoted(key);
    assert json[NamePosition(members, i)..] == name + tail;
    assert json[ImitationPosition(members, i)..] == json[NamePosition(members, i)..][|name|..];
    AfterNeedle(name, tail);
  }

  lemma ImitationFound(members: seq<Member>, i: nat, rest: string, key: string)
    requires PlainKey(key) && i + 1 < |members|
    requires forall j :: 0 <= j < |members| ==> Proper(members[j].value)
    requires AllClean(members[..i], key) && CleanString(members[i].name, key) && members[i].value == Text(key)
    ensures FirstAt(Render(Object(members)) + rest, Needle(key)) == Some(ImitationPosition(members, i))
  {
    hide FirstAt, AllClean, Proper, PlainKey, CleanString, Needle, Quoted, RenderMembers, After;
    var inner := ['}'] + rest;
    FrontOfMembers(members, i, inner, key);
    BraceSkipped(members, rest, key);
    var name, tail := Quoted(members[i].name), After(members, i) + inner;
    assert RenderMember(members[i]) + After(members, i) + inner == name + ([':'] + (Quoted(key) + tail));
    KeyIsFirst(key, tail);
    SearchedUnquoted([':'], Quoted(key) + tail, key);
    SearchedQuoted(members[i].name, [':'] + (Quoted(key) + tail), key);
  }

  // ----- Strings --------------------------------------------------------------------------

  /** Characters that are written as they are or with a two-character escape. */
  predicate ShortEscaped(c: char) {
    |EscapeChar(c)| <= 2
  }

  /** The control characters of the text are the five with a short escape. */
  predicate Readable(s: string) {
    s == "" || (ShortEscaped(s[0]) && Readable(s[1..]))
  }

  predicate ReadableChar(c: char) {
    c >= 32 as char || c == BACKSPACE || c == FORMFEED || c == '\n' || c == '\r' || c == '\t'
  }

  lemma ReadableCharMeans(c: char)
    ensures ShortEscaped(c) <==> ReadableChar(c)
  {
  }

  lemma {:induction false} ReadableMeans(s: string)
    ensures Readable(s) <==> forall i :: 0 <= i < |s| ==> ReadableChar(s[i])
    decreases |s|
  {
    hide ReadableChar, ShortEscaped;
    if s != "" {
      ReadableMeans(s[1..]);
      ReadableCharMeans(s[0]);
      if Readable(s[1..]) && ReadableChar(s[0]) {
        forall i | 0 <= i < |s| ensures ReadableChar(s[i]) {
          if i > 0 { assert s[i] == s[1..][i - 1]; }
        }
      }
    }
  }

  lemma ReadEscapeChar(c: char, tail: string)
    ensures ReadString(EscapeChar(c) + tail) == if ShortEscaped(c) then Prefixed([c], ReadString(tail)) else None
  {
    hide Prefixed;
    var text := EscapeChar(c) + tail;
    if |EscapeChar(c)| == 1 {
      assert text[0] == c && text[1..] == tail;
    } else {
      assert text[0] == BACKSLASH && text[1] == EscapeChar(c)[1];
      if |EscapeChar(c)| == 2 {
        assert text[2..] == tail;
      }
    }
  }

  /** What the client or the service quotes comes back exactly when its control
      characters have short escapes; otherwise the reader throws. */
  lemma {:induction false} QuotedReadsBack(s: string, rest: string)
    ensures ReadString(Escape(s) + [QUOTE] + rest) == if Readable(s) then Some(s) else None
    decreases |s|
  {
    hide EscapeChar, ShortEscaped;
    if s == "" {
      assert Escape(s) + [QUOTE] + rest == [QUOTE] + rest;
    } else {
      var tail := Escape(s[1..]) + [QUOTE] + rest;
      assert Escape(s) + [QUOTE] + rest == EscapeChar(s[0]) + tail;
      ReadEscapeChar(s[0], tail);
      QuotedReadsBack(s[1..], rest);
      assert [s[0]] + s[1..] == s;
    }
  }

  // ----- Literals -------------------------------------------------------------------------

  predicate EndsLiteral(rest: string) {
    rest != "" && (rest[0] == ',' || rest[0] == '}')
  }

  /** A decimal numeral is read as its value if that fits in 64 bits; otherwise
      the reader throws. */
  lemma NumeralReadsBack(n: nat, rest: string)
    requires EndsLiteral(rest)
    ensures ReadDigits(Decimal(n) + rest, 0) == if n <= MAX_UINT64 then Some(n) else None
  {
    DigitsAccumulate(n, rest);
  }

  lemma {:induction false} NumberReadsBack(text: string, rest: string)
    requires forall i :: 0 <= i < |text| ==> IsNumberChar(text[i])
    requires EndsLiteral(rest)
    ensures NumberPrefix(text + rest) == text
    decreases |text|
  {
    if text == "" {
      assert text + rest == rest;
    } else {
      NumberReadsBack(text[1..], rest);
      assert (text + rest)[1..] == text[1..] + rest && (text + rest)[0] == text[0];
    }
  }

  lemma BooleanReadsBack(b: bool, rest: string)
    ensures StartsWith(BooleanText(b) + rest, "true") <==> b
    ensures StartsWith(BooleanText(b) + rest, "false") <==> !b
  {
    var text := BooleanText(b) + rest;
    assert text[..|BooleanText(b)|] == BooleanText(b);
    assert text[0] == BooleanText(b)[0];
    if StartsWith(text, "true") {
      assert text[..4][0] == 't';
    }
    if StartsWith(text, "false") {
      assert text[..5][0] == 'f';
    }
  }

  // ----- Fields of a rendered object --------------------------------------------------------

  /** The lookups of `key` in the rendered object reach member `i`. */
  ghost predicate Reachable(members: seq<Member>, i: nat, key: string) {
    i < |members| && members[i].name == key && PlainKey(key)
    && (forall j :: 0 <= j < |members| ==> Proper(members[j].value))
    && AllClean(members[..i], key)
  }

  lemma TailEndsLiteral(members: seq<Member>, i: nat, rest: string)
    requires i < |members|
    ensures EndsLiteral(ValueTail(members, i, rest))
  {
  }

  lemma StringFieldRead(members: seq<Member>, i: nat, key: string, rest: string)
    requires Reachable(members, i, key) && members[i].value.Text?
    ensures var s := members[i].value.s;
      StringField(Render(Object(members)) + rest, key) == if Readable(s) then Some(s) else None
  {
    hide ValueText, ReadString, Escape, Readable, AllClean, Proper, PlainKey, ValueTail, RenderMembers;
    var s, tail := members[i].value.s, ValueTail(members, i, rest);
    ValueFound(members, i, rest, key);
    QuotedReadsBack(s, tail);
    var value := Quoted(s) + tail;
    assert value[1..] == Escape(s) + [QUOTE] + tail;
  }

  lemma Uint64FieldRead(members: seq<Member>, i: nat, key: string, n: nat, rest: string)
    requires Reachable(members, i, key) && members[i].value == Literal(Decimal(n))
    ensures Uint64Field(Render(Object(members)) + rest, key) == if n <= MAX_UINT64 then Some(n) else None
  {
    hide ValueText, ReadDigits, AllClean, Proper, PlainKey, ValueTail, EndsLiteral, RenderMembers, Decimal;
    var tail := ValueTail(members, i, rest);
    ValueFound(members, i, rest, key);
    TailEndsLiteral(members, i, rest);
    NumeralReadsBack(n, tail);
    DecimalIsNumber(n);
    assert (Decimal(n) + tail)[0] == Decimal(n)[0];
  }

  lemma BooleanFieldRead(members: seq<Member>, i: nat, key: string, b: bool, rest: string)
    requires Reachable(members, i, key) && members[i].value == Literal(BooleanText(b))
    ensures BooleanField(Render(Object(members)) + rest, key) == Some(b)
  {
    hide ValueText, AllClean, Proper, PlainKey, ValueTail, RenderMembers, StartsWith, BooleanText;
    ValueFound(members, i, rest, key);
    BooleanReadsBack(b, ValueTail(members, i, rest));
  }

  lemma NumberFieldRead(members: seq<Member>, i: nat, key: string, rest: string)
    requires Reachable(members, i, key) && members[i].value.Literal? && IsNumberText(members[i].value.text)
    ensures NumberField(Render(Object(members)) + rest, key) == Some(members[i].value.text)
  {
    hide ValueText, NumberPrefix, AllClean, Proper, PlainKey, ValueTail, EndsLiteral, RenderMembers;
    ValueFound(members, i, rest, key);
    TailEndsLiteral(members, i, rest);
    NumberReadsBack(members[i].value.text, ValueTail(members, i, rest));
  }

  // ----- Arrays of objects --------------------------------------------------------------------

  function RenderEach(items: seq<Tree>): seq<string> {
    if items == [] then [] else [Render(items[0])] + RenderEach(items[1..])
  }

  predicate AllObjects(items: seq<Tree>) {
    forall i :: 0 <= i < |items| ==> items[i].Object?
  }

  lemma CollectComma(text: string, limit: nat)
    requires limit <= |text|
    ensures Collect([','] + text, limit + 1) == Collect(text, limit)
  {
    hide End;
    var longer := [','] + text;
    assert longer[0] == ',' && longer[1..] == text;
    assert SkipSeparators(longer, limit + 1) == SkipSeparators(text, limit);
  }

  lemma CollectOne(tree: Tree, text: string, limit: nat)
    requires tree.Object? && Proper(tree) && limit <= |text|
    ensures |Render(tree)| + limit <= |Render(tree) + text|
    ensures Collect(Render(tree) + text, |Render(tree)| + limit) == Prepend([Render(tree)], Collect(text, limit))
  {
    hide End, RenderMembers, Proper;
    OwnEnd(tree, text);
    var whole := Render(tree) + text;
    var end := |Render(tree)| - 1;
    assert whole[0] == '{';
    assert SkipSeparators(whole, |Render(tree)| + limit) == (whole, |Render(tree)| + limit);
    assert whole[..end + 1] == Render(tree) && whole[end + 1..] == text;
  }

  lemma {:induction false} CollectItems(items: seq<Tree>, rest: string)
    requires AllObjects(items) && forall i :: 0 <= i < |items| ==> Proper(items[i])
    ensures |RenderItems(items)| <= |RenderItems(items) + rest|
    ensures Collect(RenderItems(items) + rest, |RenderItems(items)|) == Some(RenderEach(items))
    decreases |items|
  {
    hide Collect, Proper, Render;
    if items == [] {
      CollectEmpty(RenderItems(items) + rest);
    } else {
      var others := items[1..];
      CollectItems(others, rest);
      if |items| == 1 {
        CollectOne(items[0], rest, 0);
        CollectEmpty(rest);
        assert others == [] && RenderItems(items) == Render(items[0]);
        assert [Render(items[0])] + [] == [Render(items[0])];
      } else {
        var text := RenderItems(others) + rest;
        CollectComma(text, |RenderItems(others)|);
        CollectOne(items[0], [','] + text, |RenderItems(others)| + 1);
        assert RenderItems(items) == Render(items[0]) + [','] + RenderItems(others);
        assert RenderItems(items) + rest == Render(items[0]) + ([','] + text);
      }
    }
  }

  lemma CollectEmpty(text: string)
    ensures Collect(text, 0) == Some([])
  {
  }

  /** `ObjectArray` returns exactly the rendered elements, in order. */
  lemma ObjectArrayRead(members: seq<Member>, i: nat, key: string, rest: string)
    requires Reachable(members, i, key) && members[i].value.Array? && AllObjects(members[i].value.items)
    ensures ObjectArray(Render(Object(members)) + rest, key) == Some(RenderEach(members[i].value.items))
  {
    hide ValueText, Collect, End, AllClean, PlainKey, ValueTail, RenderMembers, RenderItems, AllObjects;
    var tree, tail := members[i].value, ValueTail(members, i, rest);
    ValueFound(members, i, rest, key);
    OwnEnd(tree, tail);
    CollectItems(tree.items, [']'] + tail);
    var value := Render(tree) + tail;
    assert value == ['['] + (RenderItems(tree.items) + ([']'] + tail));
    assert value[1..] == RenderItems(tree.items) + ([']'] + tail);
  }
}
