/** Flat JSON objects (RFC 8259) as the helper writes them, and the reader that
    finds their fields again. Texts hold nothing that JSON has to escape. */
module Fields {
  import opened Wrappers

  datatype Value = Number(n: nat) | Text(text: string) | Null

  /** A field and those behind it. */
  datatype Fields = End | More(name: string, value: Value, rest: Fields)

  /** ASCII without quotes, backslashes and controls. */
  predicate PlainText(s: string) { forall c :: c in s ==> ' ' <= c <= '~' && c != '"' && c != '\\' }

  predicate Digit(c: char) { '0' <= c <= '9' }

  // ------------------------------------------------------------------ Writing

  function Decimal(n: nat): (text: string)
    ensures |text| > 0
  {
    if n < 10 then ['0' + n as char] else Decimal(n / 10) + ['0' + (n % 10) as char]
  }

  function Quoted(s: string): string { "\"" + s + "\"" }

  function Written(v: Value): string {
    match v case Number(n) => Decimal(n) case Text(text) => Quoted(text) case Null => "null"
  }

  function WrittenFields(fields: Fields): string {
    if fields.End? then "}"
    else
      Quoted(fields.name) + ":" + Written(fields.value)
      + if fields.rest.End? then "}" else "," + WrittenFields(fields.rest)
  }

  function Object(fields: Fields): string { "{" + WrittenFields(fields) }

  // ------------------------------------------------------------------ Reading

  /** How many characters come before the first `stop`. */
  function Before(text: string, stop: char): (k: nat)
    ensures k <= |text| && (forall i :: 0 <= i < k ==> text[i] != stop) && (k < |text| ==> text[k] == stop)
  {
    if text == "" || text[0] == stop then 0 else Before(text[1..], stop) + 1
  }

  /** How many digits a text starts with. */
  function DigitsAhead(text: string): (k: nat)
    ensures k <= |text| && (forall i :: 0 <= i < k ==> Digit(text[i])) && (k < |text| ==> !Digit(text[k]))
  {
    if text == "" || !Digit(text[0]) then 0 else DigitsAhead(text[1..]) + 1
  }

  /** What digits are worth. */
  function Worth(digits: string): nat
    requires forall i :: 0 <= i < |digits| ==> Digit(digits[i])
  {
    if digits == "" then 0
    else
      assert Digit(digits[|digits| - 1]);
      Worth(digits[..|digits| - 1]) * 10 + (digits[|digits| - 1] - '0') as nat
  }

  datatype Read<T> = Read(value: T, rest: string)

  function ReadQuoted(text: string): (r: Option<Read<string>>)
    ensures r.Some? ==> |r.value.rest| < |text|
  {
    if text == "" || text[0] != '"' then None
    else
      var k := Before(text[1..], '"');
      if k == |text| - 1 then None else Some(Read(text[1..k + 1], text[k + 2..]))
  }

  function ReadValue(text: string): (r: Option<Read<Value>>)
    ensures r.Some? ==> |r.value.rest| < |text|
  {
    if "\"" <= text then
      match ReadQuoted(text) case Some(r) => Some(Read(Text(r.value), r.rest)) case None => None
    else if "null" <= text then Some(Read(Null, text[4..]))
    else
      var k := DigitsAhead(text);
      if k == 0 then None else Some(Read(Number(Worth(text[..k])), text[k..]))
  }

  function ReadFields(text: string): Option<map<string, Value>>
    decreases |text|
  {
    var name := ReadQuoted(text);
    if name.None? || !(":" <= name.value.rest) then None
    else
      var value := ReadValue(name.value.rest[1..]);
      if value.None? then None
      else if value.value.rest == "}" then Some(map[name.value.value := value.value.value])
      else if !("," <= value.value.rest) then None
      else
        match ReadFields(value.value.rest[1..])
        case Some(more) => Some(more[name.value.value := value.value.value])
        case None => None
  }

  /** The fields of an object, by name. */
  function ReadObject(text: string): Option<map<string, Value>> {
    if "{" <= text then ReadFields(text[1..]) else None
  }

  // --------------------------------------------------------------- Round trips

  /** The digits of a number read back as that number. */
  lemma {:induction false} DecimalReadsBack(n: nat)
    ensures forall i :: 0 <= i < |Decimal(n)| ==> Digit(Decimal(n)[i])
    ensures Worth(Decimal(n)) == n
  {
    var last := ['0' + (n % 10) as char];
    if n < 10 {
      assert Decimal(n)[..0] == "";
    } else {
      DecimalReadsBack(n / 10);
      var text := Decimal(n);
      assert text[..|text| - 1] == Decimal(n / 10);
      assert forall i :: 0 <= i < |text| - 1 ==> text[i] == Decimal(n / 10)[i];
    }
  }

  lemma {:induction false} BeforeIs(text: string, stop: char, k: nat)
    requires k < |text| && text[k] == stop && forall i :: 0 <= i < k ==> text[i] != stop
    ensures Before(text, stop) == k
  {
    if k > 0 {
      BeforeIs(text[1..], stop, k - 1);
    }
  }

  lemma {:induction false} DigitsAheadIs(text: string, k: nat)
    requires k < |text| && !Digit(text[k]) && forall i :: 0 <= i < k ==> Digit(text[i])
    ensures DigitsAhead(text) == k
  {
    if k > 0 {
      DigitsAheadIs(text[1..], k - 1);
    }
  }

  lemma QuotedReadsBack(s: string, rest: string)
    requires PlainText(s)
    ensures ReadQuoted(Quoted(s) + rest) == Some(Read(s, rest))
  {
    var text := Quoted(s) + rest;
    var tail := text[1..];
    assert tail == s + "\"" + rest;
    assert forall i :: 0 <= i < |s| ==> tail[i] == s[i] && s[i] in s;
    BeforeIs(tail, '"', |s|);
    assert text[1..|s| + 1] == s && text[|s| + 2..] == rest;
  }

  predicate PlainValue(v: Value) { v.Text? ==> PlainText(v.text) }

  lemma NumberReadsBack(n: nat, rest: string)
    requires rest != "" && !Digit(rest[0])
    ensures ReadValue(Decimal(n) + rest) == Some(Read(Number(n), rest))
  {
    DecimalReadsBack(n);
    var digits := Decimal(n);
    var text := digits + rest;
    assert Digit(digits[0]) && text[0] == digits[0];
    assert text[|digits|] == rest[0];
    assert forall i :: 0 <= i < |digits| ==> text[i] == digits[i];
    DigitsAheadIs(text, |digits|);
    assert text[..|digits|] == digits && text[|digits|..] == rest;
  }

  lemma ValueReadsBack(v: Value, rest: string)
    requires PlainValue(v) && rest != "" && !Digit(rest[0])
    ensures ReadValue(Written(v) + rest) == Some(Read(v, rest))
  {
    hide Decimal, ReadQuoted, Worth, DigitsAhead;
    match v {
      case Number(n) =>
        hide ReadValue;
        NumberReadsBack(n, rest);
      case Text(text) =>
        QuotedReadsBack(text, rest);
        assert (Quoted(text) + rest)[..1] == "\"";
      case Null =>
        var text := "null" + rest;
        assert text[..4] == "null" && text[4..] == rest && text[0] == 'n';
    }
  }

  /** The fields by name; of two of one name the first. */
  function ByName(fields: Fields): map<string, Value> {
    if fields.End? then map[] else ByName(fields.rest)[fields.name := fields.value]
  }

  predicate PlainFields(fields: Fields) {
    fields.End? || (PlainText(fields.name) && PlainValue(fields.value) && PlainFields(fields.rest))
  }

  /** Reading one field, when its name and its value are read. */
  lemma OneFieldRead(text: string, name: string, behind: string, value: Value, rest: string)
    requires ReadQuoted(text) == Some(Read(name, behind)) && ":" <= behind
    requires ReadValue(behind[1..]) == Some(Read(value, rest)) && (rest == "}" || "," <= rest)
    ensures ReadFields(text)
            == if rest == "}" then Some(map[name := value])
               else match ReadFields(rest[1..]) case Some(more) => Some(more[name := value]) case None => None
  {
    hide ReadQuoted, ReadValue;
  }

  lemma OneFieldReadsBack(name: string, value: Value, rest: string)
    requires PlainText(name) && PlainValue(value) && (rest == "}" || "," <= rest)
    ensures ReadFields(Quoted(name) + ":" + Written(value) + rest)
            == if rest == "}" then Some(map[name := value])
               else match ReadFields(rest[1..]) case Some(more) => Some(more[name := value]) case None => None
  {
    hide ReadFields, ReadQuoted, ReadValue, Quoted, Written, PlainText;
    var behind := ":" + Written(value) + rest;
    QuotedReadsBack(name, behind);
    assert Quoted(name) + ":" + Written(value) + rest == Quoted(name) + behind;
    assert behind[1..] == Written(value) + rest && behind[..1] == ":";
    ValueReadsBack(value, rest);
    OneFieldRead(Quoted(name) + behind, name, behind, value, rest);
  }

  /** What was written under a name is read back under it. */
  lemma {:induction false} FieldsReadBack(fields: Fields)
    requires fields.More? && PlainFields(fields)
    ensures ReadObject(Object(fields)) == Some(ByName(fields))
    ensures ReadFields(WrittenFields(fields)) == Some(ByName(fields))
  {
    hide ReadFields, Quoted, Written;
    var front := Quoted(fields.name) + ":" + Written(fields.value);
    if fields.rest.End? {
      OneFieldReadsBack(fields.name, fields.value, "}");
    } else {
      FieldsReadBack(fields.rest);
      var rest := "," + WrittenFields(fields.rest);
      assert rest[1..] == WrittenFields(fields.rest) && rest[..1] == ",";
      OneFieldReadsBack(fields.name, fields.value, rest);
    }
    assert Object(fields)[1..] == WrittenFields(fields);
  }

  lemma WrittenLength(fields: Fields)
    requires fields.More?
    ensures |WrittenFields(fields)|
            == |fields.name| + |Written(fields.value)| + 4
               + if fields.rest.End? then 0 else |WrittenFields(fields.rest)|
  {
    hide Written;
  }
}
