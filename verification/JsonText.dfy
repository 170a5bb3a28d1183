/** Compact JSON text: what the client's writers and the service's `json.dumps`
    put on the wire (sections 5 and 7 of RFC 8259). */
module JsonText {

  /** A JSON value as it is written. A literal is a number or a fixed word. */
  datatype Tree =
    | Text(s: string)
    | Literal(text: string)
    | Array(items: seq<Tree>)
    | Object(members: seq<Member>)

  datatype Member = Member(name: string, value: Tree)

  const QUOTE: char := '"'
  const BACKSLASH: char := '\\'
  const BACKSPACE: char := 8 as char
  const FORMFEED: char := 12 as char

  function HexDigit(n: nat): char
    requires n < 16
  {
    "0123456789abcdef"[n]
  }

  function EscapeChar(c: char): string {
    if c == QUOTE then [BACKSLASH, QUOTE]
    else if c == BACKSLASH then [BACKSLASH, BACKSLASH]
    else if c == BACKSPACE then [BACKSLASH, 'b']
    else if c == FORMFEED then [BACKSLASH, 'f']
    else if c == '\n' then [BACKSLASH, 'n']
    else if c == '\r' then [BACKSLASH, 'r']
    else if c == '\t' then [BACKSLASH, 't']
    else if c < 0x20 as char then [BACKSLASH, 'u', '0', '0', HexDigit(c as nat / 16), HexDigit(c as nat % 16)]
    else [c]
  }

  function Escape(s: string): string {
    if s == "" then "" else EscapeChar(s[0]) + Escape(s[1..])
  }

  function Quoted(s: string): string {
    [QUOTE] + Escape(s) + [QUOTE]
  }

  lemma {:induction false} EscapeConcat(s: string, t: string)
    ensures Escape(s + t) == Escape(s) + Escape(t)
  {
    hide EscapeChar;
    if s == "" {
      assert s + t == t;
    } else {
      EscapeConcat(s[1..], t);
      assert (s + t)[1..] == s[1..] + t && (s + t)[0] == s[0];
      calc {
        Escape(s + t);
        EscapeChar(s[0]) + Escape(s[1..] + t);
        EscapeChar(s[0]) + (Escape(s[1..]) + Escape(t));
        EscapeChar(s[0]) + Escape(s[1..]) + Escape(t);
        Escape(s) + Escape(t);
      }
    }
  }

  lemma EscapeStep(s: string, i: nat)
    requires i < |s|
    ensures Escape(s[..i + 1]) == Escape(s[..i]) + EscapeChar(s[i])
  {
    hide EscapeChar;
    EscapeConcat(s[..i], [s[i]]);
    assert s[..i + 1] == s[..i] + [s[i]] && [s[i]][1..] == "";
    assert EscapeChar(s[i]) + "" == EscapeChar(s[i]);
  }

  /** The client's `Quote`, which appends character by character. */
  method Quote(value: string) returns (output: string)
    ensures output == Quoted(value)
  {
    hide EscapeChar;
    output := [QUOTE];
    for i := 0 to |value|
      invariant output == [QUOTE] + Escape(value[..i])
    {
      EscapeStep(value, i);
      output := output + EscapeChar(value[i]);
    }
    assert value[..|value|] == value;
    output := output + [QUOTE];
  }

  function Render(tree: Tree): string
    decreases tree
  {
    match tree
    case Text(s) => Quoted(s)
    case Literal(text) => text
    case Array(items) => ['['] + RenderItems(items) + [']']
    case Object(members) => ['{'] + RenderMembers(members) + ['}']
  }

  function RenderItems(items: seq<Tree>): string
    decreases items
  {
    if items == [] then ""
    else Render(items[0]) + (if |items| == 1 then "" else [','] + RenderItems(items[1..]))
  }

  function RenderMember(member: Member): string
    decreases member
  {
    Quoted(member.name) + [':'] + Render(member.value)
  }

  function RenderMembers(members: seq<Member>): string
    decreases members
  {
    if members == [] then ""
    else RenderMember(members[0]) + (if |members| == 1 then "" else [','] + RenderMembers(members[1..]))
  }

  // ----- Literals -----------------------------------------------------------------

  function DigitChar(d: nat): char
    requires d < 10
  {
    '0' + d as char
  }

  function Decimal(n: nat): string {
    if n < 10 then [DigitChar(n)] else Decimal(n / 10) + [DigitChar(n % 10)]
  }

  predicate IsDigit(c: char) {
    '0' <= c <= '9'
  }

  /** The characters of a JSON number. */
  predicate IsNumberChar(c: char) {
    IsDigit(c) || c == '-' || c == '+' || c == '.' || c == 'e' || c == 'E'
  }

  predicate IsNumberText(text: string) {
    text != "" && forall i :: 0 <= i < |text| ==> IsNumberChar(text[i])
  }

  /** The characters of a literal: those of numbers and lower-case letters. */
  predicate IsLiteralText(text: string) {
    text != "" && forall i :: 0 <= i < |text| ==> IsNumberChar(text[i]) || 'a' <= text[i] <= 'z'
  }

  function BooleanText(b: bool): string {
    if b then "true" else "false"
  }

  lemma {:induction false} DecimalIsNumber(n: nat)
    ensures IsNumberText(Decimal(n)) && forall i :: 0 <= i < |Decimal(n)| ==> IsDigit(Decimal(n)[i])
  {
    if n >= 10 {
      DecimalIsNumber(n / 10);
    }
  }

  /** All literals of the tree have the characters of literals. */
  ghost predicate Proper(tree: Tree)
    decreases tree
  {
    match tree
    case Text(_) => true
    case Literal(text) => IsLiteralText(text)
    case Array(items) => forall i :: 0 <= i < |items| ==> Proper(items[i])
    case Object(members) => forall i :: 0 <= i < |members| ==> Proper(members[i].value)
  }
}
