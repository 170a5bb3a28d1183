/** The hand-written JSON scanners of the two gates, which are the same text in
    both (`MessageTransportGate.cpp`, `NetworkEffectGate.cpp`). The functions
    work on the text from a position on; the methods are the loops over
    positions. `None` is a thrown `runtime_error`. */
module JsonScanner {
  import opened Wrappers
  import opened JsonText

  function Shift(n: nat, found: Option<nat>): Option<nat> {
    if found.None? then None else Some(n + found.value)
  }

  predicate StartsWith(text: string, prefix: string) {
    |prefix| <= |text| && text[..|prefix|] == prefix
  }

  /** `std::string::find`. */
  function FirstAt(text: string, needle: string): (found: Option<nat>)
    ensures found.Some? ==> found.value + |needle| <= |text|
  {
    if StartsWith(text, needle) then Some(0)
    else if text == "" then None
    else Shift(1, FirstAt(text[1..], needle))
  }

  /** `std::isspace` in the C locale. */
  predicate IsBlank(c: char) {
    c == ' ' || 9 as char <= c <= 13 as char
  }

  function SkipBlanks(text: string): string {
    if text != "" && IsBlank(text[0]) then SkipBlanks(text[1..]) else text
  }

  /** `ValueStart`: the text from the value of the first `"key"` on. */
  function ValueText(json: string, key: string): Option<string> {
    var needle := [QUOTE] + key + [QUOTE];
    var at :- FirstAt(json, needle);
    var colon :- FirstAt(json[at + |needle|..], [':']);
    Some(SkipBlanks(json[at + |needle|..][colon + 1..]))
  }

  function Unescaped(c: char): Option<char> {
    if c == QUOTE || c == BACKSLASH || c == '/' then Some(c)
    else if c == 'b' then Some(BACKSPACE)
    else if c == 'f' then Some(FORMFEED)
    else if c == 'n' then Some('\n')
    else if c == 'r' then Some('\r')
    else if c == 't' then Some('\t')
    else None
  }

  function Prefixed(read: string, more: Option<string>): Option<string> {
    if more.None? then None else Some(read + more.value)
  }

  /** The body of `JsonString`, after the opening quote. */
  function ReadString(text: string): Option<string> {
    if text == "" then None
    else if text[0] == QUOTE then Some("")
    else if text[0] != BACKSLASH then Prefixed([text[0]], ReadString(text[1..]))
    else if |text| == 1 then None
    else
      var c :- Unescaped(text[1]);
      Prefixed([c], ReadString(text[2..]))
  }

  function StringField(json: string, key: string): Option<string> {
    var value :- ValueText(json, key);
    if value == "" || value[0] != QUOTE then None else ReadString(value[1..])
  }

  const MAX_UINT64: nat := 0xFFFF_FFFF_FFFF_FFFF

  function ReadDigits(text: string, value: nat): Option<nat> {
    if text == "" || !IsDigit(text[0]) then Some(value)
    else
      var digit := text[0] as nat - '0' as nat;
      if value > (MAX_UINT64 - digit) / 10 then None else ReadDigits(text[1..], value * 10 + digit)
  }

  /** The digits of a numeral are taken in as long as the value fits. */
  lemma {:induction false} DigitsAccumulate(n: nat, rest: string)
    ensures ReadDigits(Decimal(n) + rest, 0) == if n <= MAX_UINT64 then ReadDigits(rest, n) else None
  {
    var d := n % 10;
    var tail := [DigitChar(d)] + rest;
    assert tail[0] == DigitChar(d) && tail[1..] == rest;
    assert IsDigit(DigitChar(d)) && DigitChar(d) as nat - '0' as nat == d;
    if n >= 10 {
      DigitsAccumulate(n / 10, tail);
      assert Decimal(n) + rest == Decimal(n / 10) + tail;
    } else {
      assert Decimal(n) + rest == tail;
    }
  }

  function Uint64Field(json: string, key: string): Option<nat> {
    var value :- ValueText(json, key);
    if value == "" || !IsDigit(value[0]) then None else ReadDigits(value, 0)
  }

  /** The text that `std::stod` converts when a number is written there. */
  function NumberPrefix(text: string): string {
    if text != "" && IsNumberChar(text[0]) then [text[0]] + NumberPrefix(text[1..]) else ""
  }

  /** `JsonDouble` up to the conversion: the number as it is written. */
  function NumberField(json: string, key: string): Option<string> {
    var value :- ValueText(json, key);
    if NumberPrefix(value) == "" then None else Some(NumberPrefix(value))
  }

  function BooleanField(json: string, key: string): Option<bool> {
    var value :- ValueText(json, key);
    if StartsWith(value, "true") then Some(true)
    else if StartsWith(value, "false") then Some(false)
    else None
  }

  /** The state of `MatchingEnd`'s loop. */
  datatype Scan = Scan(depth: int, inString: bool, escaped: bool)

  function ScanChar(scan: Scan, c: char, opening: char, closing: char): Scan {
    if scan.inString then
      if scan.escaped then scan.(escaped := false)
      else if c == BACKSLASH then scan.(escaped := true)
      else if c == QUOTE then scan.(inString := false)
      else scan
    else if c == QUOTE then scan.(inString := true)
    else if c == opening then scan.(depth := scan.depth + 1)
    else if c == closing then scan.(depth := scan.depth - 1)
    else scan
  }

  /** The closing character that brings the depth to zero is the end. */
  predicate Ends(scan: Scan, c: char, opening: char, closing: char) {
    !scan.inString && c != QUOTE && c != opening && c == closing && scan.depth == 1
  }

  function End(text: string, scan: Scan, opening: char, closing: char): (found: Option<nat>)
    ensures found.Some? ==> found.value < |text|
    decreases |text|
  {
    if text == "" then None
    else if Ends(scan, text[0], opening, closing) then Some(0)
    else Shift(1, End(text[1..], ScanChar(scan, text[0], opening, closing), opening, closing))
  }

  const OUTSIDE := Scan(0, false, false)

  function SkipSeparators(text: string, limit: nat): (rest: (string, nat))
    requires limit <= |text|
    ensures rest.1 <= |rest.0| && rest.1 <= limit && |rest.0| <= |text|
  {
    if limit > 0 && (IsBlank(text[0]) || text[0] == ',') then SkipSeparators(text[1..], limit - 1) else (text, limit)
  }

  /** The loop of `ObjectArray`: the objects that start within `limit`. */
  function Collect(text: string, limit: nat): Option<seq<string>>
    requires limit <= |text|
    decreases |text|
  {
    var (rest, left) := SkipSeparators(text, limit);
    if left == 0 then Some([])
    else if rest[0] != '{' then None
    else
      var end :- End(rest, OUTSIDE, '{', '}');
      var more :- Collect(rest[end + 1..], if left <= end + 1 then 0 else left - end - 1);
      Some([rest[..end + 1]] + more)
  }

  function ObjectArray(json: string, key: string): Option<seq<string>> {
    var value :- ValueText(json, key);
    if value == "" || value[0] != '[' then None
    else
      var end :- End(value, OUTSIDE, '[', ']');
      Collect(value[1..], if end == 0 then 0 else end - 1)
  }

  // ----- The loops -------------------------------------------------------------------

  method FindValueStart(json: string, key: string) returns (position: Option<nat>)
    ensures position.Some? <==> ValueText(json, key).Some?
    ensures position.Some? ==> position.value <= |json| && json[position.value..] == ValueText(json, key).value
  {
    hide FirstAt;
    var needle := [QUOTE] + key + [QUOTE];
    var keyPosition := FirstAt(json, needle);
    if keyPosition.None? {
      return None;
    }
    var after := keyPosition.value + |needle|;
    var colon := FirstAt(json[after..], [':']);
    if colon.None? {
      return None;
    }
    var start := after + colon.value + 1;
    ghost var wanted := ValueText(json, key).value;
    assert json[after..][colon.value + 1..] == json[start..];
    while start < |json| && IsBlank(json[start])
      invariant start <= |json| && SkipBlanks(json[start..]) == wanted
    {
      assert json[start..][1..] == json[start + 1..];
      start := start + 1;
    }
    position := Some(start);
  }

  lemma PrefixedTwice(front: string, back: string, more: Option<string>)
    ensures Prefixed(front, Prefixed(back, more)) == Prefixed(front + back, more)
    ensures Prefixed(front, None) == None && Prefixed(front, Some("")) == Some(front)
  {
    assert front + "" == front;
    if more.Some? {
      assert front + (back + more.value) == front + back + more.value;
    }
  }

  lemma ReadStringStep(text: string, read: string)
    ensures text == "" ==> ReadString(text) == None
    ensures text != "" && text[0] == QUOTE ==> Prefixed(read, ReadString(text)) == Some(read)
    ensures text != "" && text[0] != QUOTE && text[0] != BACKSLASH ==>
      Prefixed(read, ReadString(text)) == Prefixed(read + [text[0]], ReadString(text[1..]))
    ensures text != "" && text[0] == BACKSLASH && (|text| == 1 || Unescaped(text[1]).None?) ==>
      Prefixed(read, ReadString(text)) == None
    ensures text != "" && text[0] == BACKSLASH && |text| > 1 && Unescaped(text[1]).Some? ==>
      Prefixed(read, ReadString(text)) == Prefixed(read + [Unescaped(text[1]).value], ReadString(text[2..]))
  {
    hide Unescaped, Prefixed;
    PrefixedTwice(read, "", None);
    if text == "" || text[0] == QUOTE {
    } else if text[0] != BACKSLASH {
      PrefixedTwice(read, [text[0]], ReadString(text[1..]));
    } else if |text| > 1 && Unescaped(text[1]).Some? {
      PrefixedTwice(read, [Unescaped(text[1]).value], ReadString(text[2..]));
    }
  }

  method JsonString(json: string, key: string) returns (result: Option<string>)
    ensures result == StringField(json, key)
  {
    hide ReadString, Unescaped, ValueText;
    var start := FindValueStart(json, key);
    if start.None? || start.value >= |json| || json[start.value] != QUOTE {
      return None;
    }
    var position := start.value + 1;
    var read := "";
    ghost var all := ReadString(json[position..]);
    assert json[start.value..][1..] == json[position..];
    assert all.Some? ==> "" + all.value == all.value;
    while position < |json|
      invariant position <= |json|
      invariant all == Prefixed(read, ReadString(json[position..]))
    {
      ghost var rest := json[position..];
      ReadStringStep(rest, read);
      var character := json[position];
      position := position + 1;
      if character == QUOTE {
        return Some(read);
      }
      if character != BACKSLASH {
        assert rest[1..] == json[position..];
        read := read + [character];
        continue;
      }
      if position >= |json| {
        return None;
      }
      var escaped := Unescaped(json[position]);
      position := position + 1;
      if escaped.None? {
        return None;
      }
      assert rest[2..] == json[position..];
      read := read + [escaped.value];
    }
    ReadStringStep(json[position..], read);
    result := None;
  }

  method JsonUint64(json: string, key: string) returns (result: Option<nat>)
    ensures result == Uint64Field(json, key)
  {
    var start := FindValueStart(json, key);
    if start.None? || start.value >= |json| || !IsDigit(json[start.value]) {
      return None;
    }
    var position := start.value;
    var value: nat := 0;
    while position < |json| && IsDigit(json[position])
      invariant position <= |json|
      invariant ReadDigits(json[start.value..], 0) == ReadDigits(json[position..], value)
    {
      var digit := json[position] as nat - '0' as nat;
      assert json[position..][1..] == json[position + 1..];
      if value > (MAX_UINT64 - digit) / 10 {
        return None;
      }
      position := position + 1;
      value := value * 10 + digit;
    }
    result := Some(value);
  }

  method MatchingEnd(json: string, begin: nat, opening: char, closing: char) returns (end: Option<nat>)
    requires begin <= |json|
    ensures end == Shift(begin, End(json[begin..], OUTSIDE, opening, closing))
  {
    var scan := OUTSIDE;
    for position := begin to |json|
      invariant Shift(begin, End(json[begin..], OUTSIDE, opening, closing))
             == Shift(position, End(json[position..], scan, opening, closing))
    {
      assert json[position..][1..] == json[position + 1..];
      var character := json[position];
      if !scan.inString && character != QUOTE && character != opening && character == closing && scan.depth - 1 == 0 {
        return Some(position);
      }
      scan := ScanChar(scan, character, opening, closing);
    }
    end := None;
  }

  function Prepend(objects: seq<string>, more: Option<seq<string>>): Option<seq<string>> {
    if more.None? then None else Some(objects + more.value)
  }

  /** What is collected from a position on when the array ends at `last`. */
  function CollectFrom(json: string, position: nat, last: nat): Option<seq<string>>
    requires position <= |json| && last <= |json|
  {
    Collect(json[position..], if position < last then last - position else 0)
  }

  lemma CollectNothing(json: string, position: nat, last: nat)
    requires last <= position <= |json|
    ensures CollectFrom(json, position, last) == Some([])
  {
  }

  method SkipSeparatorsFrom(json: string, begin: nat, last: nat) returns (position: nat)
    requires begin <= last <= |json|
    ensures begin <= position <= last
    ensures SkipSeparators(json[begin..], last - begin) == (json[position..], last - position)
  {
    position := begin;
    while position < last && (IsBlank(json[position]) || json[position] == ',')
      invariant position <= last
      invariant SkipSeparators(json[begin..], last - begin) == SkipSeparators(json[position..], last - position)
    {
      assert json[position..][1..] == json[position + 1..];
      position := position + 1;
    }
  }

  /** One round of `ObjectArray`'s loop, after the separators. */
  lemma CollectStep(json: string, begin: nat, position: nat, last: nat)
    requires begin < last <= |json| && position <= last
    requires SkipSeparators(json[begin..], last - begin) == (json[position..], last - position)
    ensures position == last ==> CollectFrom(json, begin, last) == Some([])
    ensures position < last && json[position] != '{' ==> CollectFrom(json, begin, last) == None
    ensures position < last && json[position] == '{' ==>
      match End(json[position..], OUTSIDE, '{', '}') {
        case None => CollectFrom(json, begin, last) == None
        case Some(end) => CollectFrom(json, begin, last)
          == Prepend([json[position..position + end + 1]], CollectFrom(json, position + end + 1, last))
      }
  {
    hide SkipSeparators, End;
    var rest := json[position..];
    if position < last && json[position] == '{' && End(rest, OUTSIDE, '{', '}').Some? {
      var end := End(rest, OUTSIDE, '{', '}').value;
      assert rest[end + 1..] == json[position + end + 1..];
      assert rest[..end + 1] == json[position..position + end + 1];
    }
  }

  lemma PrependTwice(front: seq<string>, back: seq<string>, more: Option<seq<string>>)
    ensures Prepend(front, Prepend(back, more)) == Prepend(front + back, more)
  {
    if more.Some? {
      assert front + (back + more.value) == front + back + more.value;
    }
  }

  method ReadObjectArray(json: string, key: string) returns (result: Option<seq<string>>)
    ensures result == ObjectArray(json, key)
  {
    hide ValueText, Collect, End, SkipSeparators;
    var start := FindValueStart(json, key);
    if start.None? || start.value >= |json| || json[start.value] != '[' {
      return None;
    }
    var arrayEnd := MatchingEnd(json, start.value, '[', ']');
    if arrayEnd.None? {
      return None;
    }
    var last := arrayEnd.value;
    var position := start.value + 1;
    assert json[start.value..][1..] == json[position..];
    var objects: seq<string> := [];
    ghost var all := CollectFrom(json, position, last);
    assert all == ObjectArray(json, key);
    assert all.Some? ==> [] + all.value == all.value;
    while position < last
      invariant position <= |json|
      invariant all == Prepend(objects, CollectFrom(json, position, last))
      decreases |json| - position
    {
      ghost var begin := position;
      position := SkipSeparatorsFrom(json, position, last);
      CollectStep(json, begin, position, last);
      if position == last {
        break;
      }
      if json[position] != '{' {
        return None;
      }
      var objectEnd := MatchingEnd(json, position, '{', '}');
      if objectEnd.None? {
        return None;
      }
      var found := json[position..objectEnd.value + 1];
      PrependTwice(objects, [found], CollectFrom(json, objectEnd.value + 1, last));
      objects := objects + [found];
      position := objectEnd.value + 1;
    }
    if last <= position {
      CollectNothing(json, position, last);
      assert objects + [] == objects;
    }
    result := Some(objects);
  }
}
