/** The client's scanners on JSON text in general, not only on what the service
    writes. */
module ScannerMeaning {
  import opened Wrappers
  import opened JsonText
  import opened JsonScanner
  import opened FieldReading
  import opened KeySearch
  import Reader = JsonReader

  /** Before its closing quote the string has an escape of the form `\\uXXXX`. */
  predicate HasCode(text: string) {
    if text == "" || text[0] == QUOTE then false
    else if text[0] != BACKSLASH then HasCode(text[1..])
    else |text| > 1 && (text[1] == 'u' || HasCode(text[2..]))
  }

  /** A string that the reference reader reads, the client reads alike, unless it has
      an escape by code point: there the client throws. */
  lemma {:induction false} ReadersAgree(text: string)
    requires Reader.ReadString(text).Some?
    ensures ReadString(text) == if HasCode(text) then None else Some(Reader.ReadString(text).value.0)
    decreases |text|
  {
    if text[0] != QUOTE {
      var (c, others) := Reader.ReadChar(text).value;
      if text[0] == BACKSLASH && text[1] == 'u' {
        CodeIsRefused(text);
      } else {
        ReadersAgree(others);
        assert others == if text[0] == BACKSLASH then text[2..] else text[1..];
      }
    }
  }

  lemma CodeIsRefused(text: string)
    requires |text| > 1 && text[0] == BACKSLASH && text[1] == 'u'
    ensures ReadString(text) == None
  {
  }

  /** What counts as a blank: space, tab, line feed, vertical tab, form feed and
      carriage return. */
  ghost predicate AllBlank(text: string) {
    forall i :: 0 <= i < |text| ==>
      text[i] in [' ', '\t', '\n', 11 as char, 12 as char, '\r']
  }

  lemma {:induction false} BlanksSkipped(blanks: string, value: string)
    requires AllBlank(blanks)
    requires value != "" ==> value[0] !in [' ', '\t', '\n', 11 as char, 12 as char, '\r']
    ensures SkipBlanks(blanks + value) == value
    decreases |blanks|
  {
    var text := blanks + value;
    if blanks == "" {
      assert text == value;
    } else {
      assert text[0] == blanks[0] && text[1..] == blanks[1..] + value;
      BlanksSkipped(blanks[1..], value);
    }
  }

  /** Blanks around the colon, however many, do not change what a lookup finds. */
  lemma BlanksDoNotMatter(json: string, key: string, at: nat, before: string, after: string, value: string)
    requires FirstAt(json, Needle(key)) == Some(at) && at <= |json|
    requires json[at..] == Needle(key) + (before + ([':'] + (after + value)))
    requires AllBlank(before) && AllBlank(after)
    requires value != "" ==> value[0] !in [' ', '\t', '\n', 11 as char, 12 as char, '\r']
    ensures ValueText(json, key) == Some(value)
  {
    hide FirstAt, SkipBlanks, Needle;
    var found := before + ([':'] + (after + value));
    AfterFound(json, at, Needle(key), found);
    ColonAfter(before, after + value);
    AfterColon(before, after + value);
    ValueTextIs(json, key, at, |before|);
    BlanksSkipped(after, value);
  }
}
