/** `ValueStart` looks for `"key"` as plain text. On rendered JSON it finds the
    member's own name exactly when no string before it looks like the key. */
module KeySearch {
  import opened Wrappers
  import opened JsonText
  import opened JsonScanner

  predicate PlainChar(c: char) {
    'a' <= c <= 'z' || c == '_' || IsDigit(c)
  }

  predicate PlainText(text: string) {
    forall i :: 0 <= i < |text| ==> PlainChar(text[i])
  }

  /** The names of the protocol's fields. */
  predicate PlainKey(key: string) {
    key != "" && PlainText(key)
  }

  function Needle(key: string): string {
    [QUOTE] + key + [QUOTE]
  }

  /** Inside the string a quote is followed by the key and the string's end. */
  predicate HidesKey(s: string, key: string) {
    s != "" && ((s[0] == QUOTE && s[1..] == key) || HidesKey(s[1..], key))
  }

  /** The rendered string does not contain the text searched for. */
  predicate CleanString(s: string, key: string) {
    s != key && !HidesKey(s, key)
  }

  predicate EndsWith(s: string, suffix: string) {
    |suffix| <= |s| && s[|s| - |suffix|..] == suffix
  }

  /** A string is clean unless it is the key or ends with a quote and the key. */
  lemma {:induction false} CleanMeans(s: string, key: string)
    ensures CleanString(s, key) <==> s != key && !EndsWith(s, [QUOTE] + key)
  {
    HidesMeans(s, key);
  }

  lemma {:induction false} HidesMeans(s: string, key: string)
    ensures HidesKey(s, key) <==> EndsWith(s, [QUOTE] + key)
  {
    var suffix := [QUOTE] + key;
    if s != "" {
      HidesMeans(s[1..], key);
      if |suffix| < |s| {
        assert s[|s| - |suffix|..] == s[1..][|s[1..]| - |suffix|..];
      } else if |suffix| == |s| {
        assert s == [s[0]] + s[1..];
        assert s[0..] == s;
        if s == suffix {
          assert s[1..] == suffix[1..] == key;
        }
      }
      if HidesKey(s[1..], key) {
        assert |suffix| <= |s[1..]|;
      }
    }
  }

  ghost predicate Clean(tree: Tree, key: string)
    decreases tree
  {
    match tree
    case Text(s) => CleanString(s, key)
    case Literal(_) => true
    case Array(items) => forall i :: 0 <= i < |items| ==> Clean(items[i], key)
    case Object(members) =>
      forall i :: 0 <= i < |members| ==> CleanString(members[i].name, key) && Clean(members[i].value, key)
  }

  ghost predicate CleanMember(member: Member, key: string) {
    CleanString(member.name, key) && Clean(member.value, key)
  }

  ghost predicate AllClean(members: seq<Member>, key: string) {
    forall i :: 0 <= i < |members| ==> CleanMember(members[i], key)
  }

  // ----- The search over a piece of text --------------------------------------------

  /** Searching `text + rest`: a clean text is passed over, any other holds the
      first match. */
  ghost predicate Searched(text: string, rest: string, key: string, clean: bool) {
    var found := FirstAt(text + rest, Needle(key));
    if clean then found == Shift(|text|, FirstAt(rest, Needle(key)))
    else found.Some? && found.value < |text|
  }

  lemma SearchedConcat(a: string, b: string, rest: string, key: string, cleanA: bool, cleanB: bool)
    requires Searched(a, b + rest, key, cleanA) && Searched(b, rest, key, cleanB)
    ensures Searched(a + b, rest, key, cleanA && cleanB)
  {
    hide FirstAt, Needle;
    assert (a + b) + rest == a + (b + rest);
  }

  lemma StartsWithCons(c: char, a: string, d: char, b: string)
    ensures StartsWith([c] + a, [d] + b) <==> c == d && StartsWith(a, b)
  {
    if |b| <= |a| {
      assert ([c] + a)[..1 + |b|] == [c] + a[..|b|];
      assert ([c] + a[..|b|])[1..] == a[..|b|] && ([d] + b)[1..] == b;
      assert ([c] + a)[0] == c && ([d] + b)[0] == d;
    }
  }

  lemma SearchedChar(c: char, rest: string, key: string)
    ensures Searched([c], rest, key, !(c == QUOTE && StartsWith(rest, key + [QUOTE])))
  {
    assert Needle(key) == [QUOTE] + (key + [QUOTE]);
    StartsWithCons(c, rest, QUOTE, key + [QUOTE]);
    assert ([c] + rest)[1..] == rest;
  }

  lemma {:induction false} SearchedUnquoted(text: string, rest: string, key: string)
    requires forall i :: 0 <= i < |text| ==> text[i] != QUOTE
    ensures Searched(text, rest, key, true)
    decreases |text|
  {
    if text == "" {
      assert text + rest == rest;
    } else {
      SearchedUnquoted(text[1..], rest, key);
      SearchedChar(text[0], text[1..] + rest, key);
      SearchedConcat([text[0]], text[1..], rest, key, true, true);
      assert [text[0]] + text[1..] == text;
    }
  }

  // ----- Strings --------------------------------------------------------------------

  lemma EscapeFront(c: char)
    ensures EscapeChar(c) != "" && EscapeChar(c)[0] != QUOTE
    ensures |EscapeChar(c)| == 1 || EscapeChar(c)[0] == BACKSLASH
    ensures |EscapeChar(c)| == 1 ==> EscapeChar(c) == [c]
    ensures PlainChar(c) ==> EscapeChar(c) == [c]
  {
  }

  /** A rendered string continues like `key"` only if it is the key. */
  lemma {:induction false} StringIsKey(s: string, rest: string, key: string)
    requires PlainText(key)
    ensures StartsWith(Escape(s) + [QUOTE] + rest, key + [QUOTE]) <==> s == key
    decreases |s|
  {
    hide EscapeChar, StartsWith, PlainChar;
    if s == "" {
      assert Escape(s) + [QUOTE] + rest == [QUOTE] + rest;
      if key == "" {
        assert key + [QUOTE] == [QUOTE] + "";
        StartsWithCons(QUOTE, rest, QUOTE, "");
        assert StartsWith(rest, "") by { StartsWithNothing(rest); }
      } else {
        assert key + [QUOTE] == [key[0]] + (key[1..] + [QUOTE]);
        StartsWithCons(QUOTE, rest, key[0], key[1..] + [QUOTE]);
        PlainIsNotBackslash(key);
      }
    } else {
      EscapeFront(s[0]);
      var front, tail := EscapeChar(s[0]), Escape(s[1..]) + [QUOTE] + rest;
      assert Escape(s) + [QUOTE] + rest == [front[0]] + (front[1..] + tail);
      if key == "" {
        assert key + [QUOTE] == [QUOTE] + "";
        StartsWithCons(front[0], front[1..] + tail, QUOTE, "");
      } else {
        assert key + [QUOTE] == [key[0]] + (key[1..] + [QUOTE]);
        StartsWithCons(front[0], front[1..] + tail, key[0], key[1..] + [QUOTE]);
        EscapeFront(key[0]);
        if front[0] == key[0] {
          assert key[0] != BACKSLASH by { PlainIsNotBackslash(key); }
          assert front == [s[0]] && s[0] == key[0];
          assert front[1..] + tail == tail;
          StringIsKey(s[1..], rest, key[1..]);
        }
        assert s == [s[0]] + s[1..] && key == [key[0]] + key[1..];
      }
    }
  }

  lemma StartsWithNothing(text: string)
    ensures StartsWith(text, "")
  {
  }

  lemma PlainIsNotBackslash(key: string)
    requires PlainKey(key)
    ensures key[0] != BACKSLASH && key[0] != QUOTE
  {
  }

  /** What may follow a value or a name: its end or a structural character. */
  predicate Delimited(rest: string) {
    rest == "" || rest[0] == ',' || rest[0] == ':' || rest[0] == ']' || rest[0] == '}'
  }

  lemma DelimitedIsNoKey(rest: string, key: string)
    requires PlainKey(key) && Delimited(rest)
    ensures !StartsWith(rest, key + [QUOTE])
  {
    if |key| + 1 <= |rest| {
      assert rest[..|key| + 1][0] == rest[0] && (key + [QUOTE])[0] == key[0];
    }
  }

  lemma SearchedEscapeChar(c: char, tail: string, key: string)
    ensures Searched(EscapeChar(c), tail, key, !(c == QUOTE && StartsWith(tail, key + [QUOTE])))
  {
    hide Searched, StartsWith;
    if c == QUOTE {
      SearchedUnquoted([BACKSLASH], [QUOTE] + tail, key);
      SearchedChar(QUOTE, tail, key);
      SearchedConcat([BACKSLASH], [QUOTE], tail, key, true, !StartsWith(tail, key + [QUOTE]));
      assert [BACKSLASH] + [QUOTE] == EscapeChar(c);
    } else {
      SearchedUnquoted(EscapeChar(c), tail, key);
    }
  }

  lemma {:induction false} SearchedEscape(s: string, rest: string, key: string)
    requires PlainKey(key) && Delimited(rest)
    ensures Searched(Escape(s) + [QUOTE], rest, key, !HidesKey(s, key))
    decreases |s|
  {
    hide Searched, StartsWith, EscapeChar, PlainKey, Delimited;
    if s == "" {
      DelimitedIsNoKey(rest, key);
      SearchedChar(QUOTE, rest, key);
      assert Escape(s) + [QUOTE] == [QUOTE];
    } else {
      SearchedEscape(s[1..], rest, key);
      var body := Escape(s[1..]) + [QUOTE];
      assert body + rest == Escape(s[1..]) + [QUOTE] + rest;
      assert PlainText(key) by { PlainKeyIsPlainText(key); }
      StringIsKey(s[1..], rest, key);
      SearchedEscapeChar(s[0], body + rest, key);
      SearchedConcat(EscapeChar(s[0]), body, rest, key, !(s[0] == QUOTE && s[1..] == key), !HidesKey(s[1..], key));
      assert EscapeChar(s[0]) + body == Escape(s) + [QUOTE];
    }
  }

  lemma PlainKeyIsPlainText(key: string)
    requires PlainKey(key)
    ensures PlainText(key)
  {
  }

  lemma SearchedQuoted(s: string, rest: string, key: string)
    requires PlainKey(key) && Delimited(rest)
    ensures Searched(Quoted(s), rest, key, CleanString(s, key))
  {
    hide Searched, StartsWith, Escape, HidesKey;
    var body := Escape(s) + [QUOTE];
    SearchedEscape(s, rest, key);
    StringIsKey(s, rest, key);
    assert body + rest == Escape(s) + [QUOTE] + rest;
    SearchedChar(QUOTE, body + rest, key);
    SearchedConcat([QUOTE], body, rest, key, s != key, !HidesKey(s, key));
    assert Quoted(s) == [QUOTE] + body;
  }

  // ----- Values ---------------------------------------------------------------------

  lemma SearchedBracketed(first: char, body: string, last: char, rest: string, key: string, clean: bool)
    requires first != QUOTE && last != QUOTE
    requires Searched(body, [last] + rest, key, clean)
    ensures Searched([first] + body + [last], rest, key, clean)
  {
    hide Searched;
    SearchedUnquoted([last], rest, key);
    SearchedConcat(body, [last], rest, key, clean, true);
    SearchedUnquoted([first], (body + [last]) + rest, key);
    SearchedConcat([first], body + [last], rest, key, true, clean);
    assert [first] + (body + [last]) == [first] + body + [last];
  }

  lemma SearchedSeparated(a: string, c: char, b: string, rest: string, key: string, cleanA: bool, cleanB: bool)
    requires c != QUOTE
    requires Searched(a, [c] + b + rest, key, cleanA) && Searched(b, rest, key, cleanB)
    ensures Searched(a + [c] + b, rest, key, cleanA && cleanB)
  {
    hide Searched;
    SearchedUnquoted([c], b + rest, key);
    SearchedConcat([c], b, rest, key, true, cleanB);
    assert ([c] + b) + rest == [c] + b + rest;
    SearchedConcat(a, [c] + b, rest, key, cleanA, cleanB);
    assert a + ([c] + b) == a + [c] + b;
  }

  lemma {:induction false} SearchedRender(tree: Tree, rest: string, key: string)
    requires PlainKey(key) && Delimited(rest) && Proper(tree)
    ensures Searched(Render(tree), rest, key, Clean(tree, key))
    decreases tree
  {
    hide Searched, Quoted, CleanString, PlainKey;
    match tree
    case Text(s) => SearchedQuoted(s, rest, key);
    case Literal(text) => SearchedUnquoted(text, rest, key);
    case Array(items) =>
      SearchedItems(items, [']'] + rest, key);
      SearchedBracketed('[', RenderItems(items), ']', rest, key, Clean(tree, key));
    case Object(members) =>
      SearchedMembers(members, ['}'] + rest, key);
      assert Clean(tree, key) == AllClean(members, key);
      SearchedBracketed('{', RenderMembers(members), '}', rest, key, Clean(tree, key));
  }

  lemma {:induction false} SearchedItems(items: seq<Tree>, rest: string, key: string)
    requires PlainKey(key) && Delimited(rest)
    requires forall i :: 0 <= i < |items| ==> Proper(items[i])
    ensures Searched(RenderItems(items), rest, key, forall i :: 0 <= i < |items| ==> Clean(items[i], key))
    decreases items
  {
    hide Searched, Clean, Render, Proper, PlainKey;
    if items == [] {
      SearchedUnquoted("", rest, key);
    } else {
      var others := items[1..];
      if |items| == 1 {
        SearchedRender(items[0], rest, key);
        assert RenderItems(items) == Render(items[0]);
      } else {
        SearchedItems(others, rest, key);
        SearchedRender(items[0], [','] + RenderItems(others) + rest, key);
        SearchedSeparated(Render(items[0]), ',', RenderItems(others), rest, key,
          Clean(items[0], key), forall i :: 0 <= i < |others| ==> Clean(others[i], key));
        assert RenderItems(items) == Render(items[0]) + [','] + RenderItems(others);
      }
      assert (forall i :: 0 <= i < |items| ==> Clean(items[i], key))
        <==> Clean(items[0], key) && (forall i :: 0 <= i < |others| ==> Clean(others[i], key)) by {
        if Clean(items[0], key) && forall i :: 0 <= i < |others| ==> Clean(others[i], key) {
          forall i | 0 <= i < |items| ensures Clean(items[i], key) {
            if i > 0 { assert items[i] == others[i - 1]; }
          }
        }
      }
    }
  }

  lemma SearchedMember(member: Member, rest: string, key: string)
    requires PlainKey(key) && Delimited(rest) && Proper(member.value)
    ensures Searched(RenderMember(member), rest, key, CleanMember(member, key))
    decreases member, 0
  {
    hide Searched, Quoted, CleanString, PlainKey, Clean, Render;
    SearchedRender(member.value, rest, key);
    SearchedQuoted(member.name, [':'] + Render(member.value) + rest, key);
    SearchedSeparated(Quoted(member.name), ':', Render(member.value), rest, key,
      CleanString(member.name, key), Clean(member.value, key));
  }

  lemma AllCleanCons(members: seq<Member>, key: string)
    requires members != []
    ensures AllClean(members, key) <==> CleanMember(members[0], key) && AllClean(members[1..], key)
  {
    hide CleanMember;
    if CleanMember(members[0], key) && AllClean(members[1..], key) {
      forall i | 0 <= i < |members| ensures CleanMember(members[i], key) {
        if i > 0 { assert members[i] == members[1..][i - 1]; }
      }
    }
  }

  lemma {:induction false} SearchedMembers(members: seq<Member>, rest: string, key: string)
    requires PlainKey(key) && Delimited(rest)
    requires forall i :: 0 <= i < |members| ==> Proper(members[i].value)
    ensures Searched(RenderMembers(members), rest, key, AllClean(members, key))
    decreases members
  {
    hide Searched, Clean, RenderMember, Proper, PlainKey, AllClean, CleanMember;
    if members == [] {
      SearchedUnquoted("", rest, key);
      NothingIsClean(key);
    } else {
      var others := members[1..];
      AllCleanCons(members, key);
      if |members| == 1 {
        SearchedMember(members[0], rest, key);
        NothingIsClean(key);
        assert others == [];
        assert RenderMembers(members) == RenderMember(members[0]);
      } else {
        SearchedMembers(others, rest, key);
        SearchedMember(members[0], [','] + RenderMembers(others) + rest, key);
        SearchedSeparated(RenderMember(members[0]), ',', RenderMembers(others), rest, key,
          CleanMember(members[0], key), AllClean(others, key));
        assert RenderMembers(members) == RenderMember(members[0]) + [','] + RenderMembers(others);
      }
    }
  }

  lemma NothingIsClean(key: string)
    ensures AllClean([], key)
  {
  }

  // ----- The member that is looked up ------------------------------------------------

  /** Where the name of member `i` starts in the rendered members. */
  function NameOffset(members: seq<Member>, i: nat): nat
    requires i < |members|
  {
    if i == 0 then 0 else |RenderMember(members[0])| + 1 + NameOffset(members[1..], i - 1)
  }

  /** What is rendered after member `i`. */
  function After(members: seq<Member>, i: nat): string
    requires i < |members|
  {
    if i + 1 == |members| then "" else [','] + RenderMembers(members[i + 1..])
  }

  lemma RenderCons(members: seq<Member>)
    requires members != []
    ensures RenderMembers(members) == RenderMember(members[0]) + After(members, 0)
    ensures |members| > 1 ==> RenderMembers(members) == (RenderMember(members[0]) + [',']) + RenderMembers(members[1..])
  {
    hide RenderMember;
  }

  lemma DropFront(front: string, text: string, k: nat)
    requires k <= |text|
    ensures (front + text)[|front| + k..] == text[k..]
  {
  }

  lemma {:induction false} MembersSplit(members: seq<Member>, i: nat)
    requires i < |members|
    ensures NameOffset(members, i) <= |RenderMembers(members)|
    ensures RenderMembers(members)[NameOffset(members, i)..] == RenderMember(members[i]) + After(members, i)
    decreases i
  {
    hide RenderMember, RenderMembers;
    RenderCons(members);
    if i > 0 {
      var others := members[1..];
      MembersSplit(others, i - 1);
      assert others[i - 1] == members[i] && others[i..] == members[i + 1..];
      DropFront(RenderMember(members[0]) + [','], RenderMembers(others), NameOffset(others, i - 1));
    }
  }

  /** The search among the members stops before member `i` exactly when
      something there looks like the key. */
  lemma {:induction false} FrontOfMembers(members: seq<Member>, i: nat, rest: string, key: string)
    requires PlainKey(key) && Delimited(rest) && i < |members|
    requires forall j :: 0 <= j < |members| ==> Proper(members[j].value)
    ensures var found := FirstAt(RenderMembers(members) + rest, Needle(key));
      if AllClean(members[..i], key)
      then found == Shift(NameOffset(members, i),
                          FirstAt(RenderMember(members[i]) + After(members, i) + rest, Needle(key)))
      else found.Some? && found.value < NameOffset(members, i)
    decreases i
  {
    hide FirstAt, Proper, PlainKey, AllClean, RenderMember, RenderMembers, CleanMember, Needle;
    RenderCons(members);
    if i == 0 {
      NothingIsClean(key);
      assert members[..0] == [];
    } else {
      var others := members[1..];
      assert members[..i][1..] == others[..i - 1] && members[..i][0] == members[0];
      AllCleanCons(members[..i], key);
      FrontOfMembers(others, i - 1, rest, key);
      assert others[i - 1] == members[i] && others[i..] == members[i + 1..];
      var front := RenderMember(members[0]) + [','];
      var tail := RenderMembers(others) + rest;
      FrontSearched(members[0], tail, key);
      assert RenderMembers(members) + rest == front + tail;
    }
  }

  lemma FrontSearched(member: Member, tail: string, key: string)
    requires PlainKey(key) && Proper(member.value)
    ensures Searched(RenderMember(member) + [','], tail, key, CleanMember(member, key))
  {
    hide Searched, Proper, PlainKey, RenderMember, CleanMember;
    SearchedMember(member, [','] + tail, key);
    SearchedUnquoted([','], tail, key);
    SearchedConcat(RenderMember(member), [','], tail, key, CleanMember(member, key), true);
  }

  lemma {:induction false} PlainEscape(text: string)
    requires PlainText(text)
    ensures Escape(text) == text
  {
    if text != "" {
      EscapeFront(text[0]);
      PlainEscape(text[1..]);
    }
  }

  lemma KeyIsFirst(key: string, tail: string)
    requires PlainKey(key)
    ensures Quoted(key) == Needle(key)
    ensures FirstAt(Quoted(key) + tail, Needle(key)) == Some(0)
  {
    PlainEscape(key);
    assert (Quoted(key) + tail)[..|Needle(key)|] == Needle(key);
  }

  // ----- The whole object -------------------------------------------------------------

  /** The position of the name of member `i` in the rendered object. */
  function NamePosition(members: seq<Member>, i: nat): nat
    requires i < |members|
  {
    1 + NameOffset(members, i)
  }

  function ValueTail(members: seq<Member>, i: nat, rest: string): string
    requires i < |members|
  {
    After(members, i) + ['}'] + rest
  }

  /** The key is found at the member's own name exactly when nothing before the
      member looks like it. */
  lemma NameFoundIffClean(members: seq<Member>, i: nat, rest: string, key: string)
    requires PlainKey(key) && i < |members| && members[i].name == key
    requires forall j :: 0 <= j < |members| ==> Proper(members[j].value)
    ensures AllClean(members[..i], key)
       <==> FirstAt(Render(Object(members)) + rest, Needle(key)) == Some(NamePosition(members, i))
  {
    hide FirstAt, Proper, PlainKey, AllClean, RenderMembers, Needle, Quoted, After;
    var inner := ['}'] + rest;
    FrontOfMembers(members, i, inner, key);
    var here := [':'] + Render(members[i].value) + After(members, i) + inner;
    KeyIsFirst(key, here);
    assert RenderMember(members[i]) + After(members, i) + inner == Quoted(key) + here;
    BraceSkipped(members, rest, key);
  }

  lemma BraceSkipped(members: seq<Member>, rest: string, key: string)
    ensures FirstAt(Render(Object(members)) + rest, Needle(key))
         == Shift(1, FirstAt(RenderMembers(members) + (['}'] + rest), Needle(key)))
  {
    hide FirstAt, Needle, RenderMembers;
    var tail := RenderMembers(members) + (['}'] + rest);
    SearchedChar('{', tail, key);
    assert Render(Object(members)) + rest == ['{'] + tail;
  }

  /** The text from the name of member `i` on. */
  lemma ObjectSplit(members: seq<Member>, i: nat, rest: string)
    requires i < |members|
    ensures NamePosition(members, i) <= |Render(Object(members)) + rest|
    ensures (Render(Object(members)) + rest)[NamePosition(members, i)..]
         == Quoted(members[i].name) + [':'] + Render(members[i].value) + ValueTail(members, i, rest)
  {
    hide RenderMembers, Quoted, After;
    MembersSplit(members, i);
    var text := RenderMembers(members);
    var at := NameOffset(members, i);
    DropFront(['{'], text + ['}'] + rest, at);
    assert Render(Object(members)) + rest == ['{'] + (text + ['}'] + rest);
    assert (text + ['}'] + rest)[at..] == text[at..] + ['}'] + rest;
  }
}
