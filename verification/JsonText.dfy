// What json.loads makes of a text, as far as a control flag can tell: numbers are kept as zero or
// not zero, strings as their code points. None models json.JSONDecodeError.
module JsonText {
  import opened Common
  import opened Text

  datatype Json =
    | JNull
    | JBool(b: bool)
    | JNumber(zero: bool)
    | JString(codes: seq<int>)
    | JArray(items: seq<Json>)
    | JObject(fields: map<seq<int>, Json>)

  // A parser's result: the value read and the rest of the text.
  type Parsed<T> = Option<(T, string)>

  function Codes(s: string): seq<int> { seq(|s|, i requires 0 <= i < |s| => s[i] as int) }

  // bool(value)
  function Truthy(j: Json): bool {
    match j
    case JNull => false
    case JBool(b) => b
    case JNumber(zero) => !zero
    case JString(codes) => codes != []
    case JArray(items) => items != []
    case JObject(fields) => fields != map[]
  }

  // ---------- white space, words and numbers

  predicate IsWs(c: char) { c == ' ' || c == '\t' || c == '\n' || c == '\r' }

  function SkipWs(s: string): (r: string)
    ensures |r| <= |s|
  {
    if s != "" && IsWs(s[0]) then SkipWs(s[1..]) else s
  }

  function Word(s: string, word: string, value: Json): (r: Parsed<Json>)
    requires word != ""
    ensures r.Some? ==> |r.value.1| < |s|
  {
    if word <= s then Some((value, s[|word|..])) else None
  }

  function Digits(s: string): (n: nat)
    ensures n <= |s|
  {
    if s != "" && IsDigit(s[0]) then 1 + Digits(s[1..]) else 0
  }

  predicate AllZeros(s: string) { forall i | 0 <= i < |s| :: s[i] == '0' }

  // A fraction or an exponent is read only when it has a digit.
  function FractionLength(s: string): (n: nat)
    ensures n <= |s|
  {
    if |s| > 1 && s[0] == '.' && IsDigit(s[1]) then 1 + Digits(s[1..]) else 0
  }

  function ExponentLength(s: string): (n: nat)
    ensures n <= |s|
  {
    if s == "" || (s[0] != 'e' && s[0] != 'E') then 0
    else
      var k := if |s| > 1 && (s[1] == '+' || s[1] == '-') then 2 else 1;
      if |s| > k && IsDigit(s[k]) then k + Digits(s[k..]) else 0
  }

  function ParseNumber(s: string): (r: Parsed<Json>)
    ensures r.Some? ==> |r.value.1| < |s| && r.value.0.JNumber?
  {
    var t := if s != "" && s[0] == '-' then s[1..] else s;
    if t == "" || !IsDigit(t[0]) then None
    else
      var n := if t[0] == '0' then 1 else Digits(t);
      var u := t[n..];
      var f := FractionLength(u);
      var rest := u[f..];
      Some((JNumber(AllZeros(t[..n]) && (f == 0 || AllZeros(u[1..f]))), rest[ExponentLength(rest)..]))
  }

  // ---------- strings

  function HexValue(c: char): Option<int> {
    if '0' <= c <= '9' then Some(c as int - '0' as int)
    else if 'a' <= c <= 'f' then Some(c as int - 'a' as int + 10)
    else if 'A' <= c <= 'F' then Some(c as int - 'A' as int + 10)
    else None
  }

  function Hex4(s: string): (r: Option<int>)
    ensures r.Some? ==> |s| >= 4
  {
    if |s| < 4 then None
    else
      match (HexValue(s[0]), HexValue(s[1]), HexValue(s[2]), HexValue(s[3]))
      case (Some(a), Some(b), Some(c), Some(d)) => Some(((a * 16 + b) * 16 + c) * 16 + d)
      case (_, _, _, _) => None
  }

  // After "\u": a high surrogate joins with the low one that may follow.
  function ParseUnicode(s: string): (r: Parsed<int>)
    ensures r.Some? ==> |r.value.1| < |s|
  {
    match Hex4(s)
    case None => None
    case Some(high) =>
      if 0xD800 <= high <= 0xDBFF && "\\u" <= s[4..] then
        match Hex4(s[6..])
        case None => None
        case Some(low) =>
          if 0xDC00 <= low <= 0xDFFF then Some((0x10000 + (high - 0xD800) * 0x400 + (low - 0xDC00), s[10..]))
          else Some((high, s[4..]))
      else Some((high, s[4..]))
  }

  function Unescaped(c: char): Option<int> {
    if c == '"' || c == '\\' || c == '/' then Some(c as int)
    else if c == 'b' then Some(8)
    else if c == 'f' then Some(12)
    else if c == 'n' then Some(10)
    else if c == 'r' then Some(13)
    else if c == 't' then Some(9)
    else None
  }

  function ParseEscape(s: string): (r: Parsed<int>)
    ensures r.Some? ==> |r.value.1| < |s|
  {
    if s == "" then None
    else if s[0] == 'u' then ParseUnicode(s[1..])
    else match Unescaped(s[0]) case None => None case Some(code) => Some((code, s[1..]))
  }

  // The rest of a string, up to its closing quote; control characters must be escaped.
  function ParseString(s: string): (r: Parsed<seq<int>>)
    ensures r.Some? ==> |r.value.1| < |s|
    decreases |s|
  {
    if s == "" then None
    else if s[0] == '"' then Some(([], s[1..]))
    else
      var first := if s[0] == '\\' then ParseEscape(s[1..])
                   else if s[0] as int < 32 then None
                   else Some((s[0] as int, s[1..]));
      match first
      case None => None
      case Some((code, rest)) =>
        match ParseString(rest)
        case None => None
        case Some((codes, after)) => Some(([code] + codes, after))
  }

  // ---------- values

  function ParseValue(s: string): (r: Parsed<Json>)
    ensures r.Some? ==> |r.value.1| < |s|
    decreases |s|, 0
  {
    if s == "" then None
    else if s[0] == '"' then
      match ParseString(s[1..]) case None => None case Some((codes, rest)) => Some((JString(codes), rest))
    else if s[0] == '{' then
      var t := SkipWs(s[1..]);
      if t != "" && t[0] == '}' then Some((JObject(map[]), t[1..])) else ParseMembers(t, map[])
    else if s[0] == '[' then
      var t := SkipWs(s[1..]);
      if t != "" && t[0] == ']' then Some((JArray([]), t[1..])) else ParseItems(t, [])
    else if s[0] == 't' then Word(s, "true", JBool(true))
    else if s[0] == 'f' then Word(s, "false", JBool(false))
    else if s[0] == 'n' then Word(s, "null", JNull)
    else if s[0] == 'N' then Word(s, "NaN", JNumber(false))
    else if s[0] == 'I' then Word(s, "Infinity", JNumber(false))
    else if "-Infinity" <= s then Word(s, "-Infinity", JNumber(false))
    else ParseNumber(s)
  }

  // The members of an object from a key on; a later member replaces an earlier one of its key.
  function ParseMembers(s: string, fields: map<seq<int>, Json>): (r: Parsed<Json>)
    ensures r.Some? ==> |r.value.1| < |s| && r.value.0.JObject?
    decreases |s|, 1
  {
    if s == "" || s[0] != '"' then None
    else
      match ParseString(s[1..])
      case None => None
      case Some((key, rest)) =>
        var t := SkipWs(rest);
        if t == "" || t[0] != ':' then None
        else
          match ParseValue(SkipWs(t[1..]))
          case None => None
          case Some((value, after)) =>
            var u := SkipWs(after);
            if u == "" then None
            else if u[0] == '}' then Some((JObject(fields[key := value]), u[1..]))
            else if u[0] == ',' then ParseMembers(SkipWs(u[1..]), fields[key := value])
            else None
  }

  function ParseItems(s: string, items: seq<Json>): (r: Parsed<Json>)
    ensures r.Some? ==> |r.value.1| < |s| && r.value.0.JArray?
    decreases |s|, 1
  {
    match ParseValue(s)
    case None => None
    case Some((value, after)) =>
      var u := SkipWs(after);
      if u == "" then None
      else if u[0] == ']' then Some((JArray(items + [value]), u[1..]))
      else if u[0] == ',' then ParseItems(SkipWs(u[1..]), items + [value])
      else None
  }

  // json.loads(text)
  function Decode(text: string): Option<Json> {
    match ParseValue(SkipWs(text))
    case None => None
    case Some((value, rest)) => if SkipWs(rest) == "" then Some(value) else None
  }

  // ---------- what decodes to true

  predicate Blank(s: string) { forall i | 0 <= i < |s| :: IsWs(s[i]) }

  ghost predicate Padded(text: string, word: string) {
    exists before, after :: Blank(before) && Blank(after) && text == before + word + after
  }

  lemma {:induction false} SkipWsSplits(s: string) returns (before: string)
    ensures Blank(before) && s == before + SkipWs(s)
    ensures SkipWs(s) != "" ==> !IsWs(SkipWs(s)[0])
  {
    if s != "" && IsWs(s[0]) {
      var rest := SkipWsSplits(s[1..]);
      before := [s[0]] + rest;
      assert s == [s[0]] + s[1..];
    } else {
      before := "";
    }
  }

  lemma {:induction false} SkipWsPast(before: string, s: string)
    requires Blank(before) && (s == "" || !IsWs(s[0]))
    ensures SkipWs(before + s) == s
  {
    if before == "" {
      assert before + s == s;
    } else {
      assert (before + s)[1..] == before[1..] + s;
      SkipWsPast(before[1..], s);
    }
  }

  lemma OnlyTheWord(s: string)
    ensures ParseValue(s).Some? && ParseValue(s).value.0 == JBool(true)
            <==> "true" <= s
    ensures "true" <= s ==> ParseValue(s) == Some((JBool(true), s[4..]))
  {
  }

  // A text is the JSON value true exactly when it is the word, with white space around it.
  lemma TrueIff(text: string)
    ensures Decode(text) == Some(JBool(true)) <==> Padded(text, "true")
  {
    if Decode(text) == Some(JBool(true)) {
      TrueIsPadded(text);
    }
    if Padded(text, "true") {
      PaddedIsTrue(text);
    }
  }

  lemma TrueIsPadded(text: string)
    requires Decode(text) == Some(JBool(true))
    ensures Padded(text, "true")
  {
    hide ParseValue;
    var before := SkipWsSplits(text);
    var s := SkipWs(text);
    OnlyTheWord(s);
    var rest := s[4..];
    assert s == "true" + rest;
    var after := SkipWsSplits(rest);
    assert rest == after + "" == after;
    assert text == before + "true" + after;
  }

  lemma PaddedIsTrue(text: string)
    requires Padded(text, "true")
    ensures Decode(text) == Some(JBool(true))
  {
    hide ParseValue;
    var a, b :| Blank(a) && Blank(b) && text == a + "true" + b;
    assert text == a + ("true" + b);
    SkipWsPast(a, "true" + b);
    OnlyTheWord("true" + b);
    assert ("true" + b)[4..] == b;
    SkipWsPast(b, "");
    assert b + "" == b;
  }

  // A lone digit is a number.
  lemma DigitDecodes(text: string)
    requires |text| == 1 && IsDigit(text[0])
    ensures Decode(text) == Some(JNumber(text[0] == '0'))
  {
    hide ParseValue;
    assert SkipWs(text) == text;
    DigitIsValue(text);
  }

  lemma DigitIsValue(text: string)
    requires |text| == 1 && IsDigit(text[0])
    ensures ParseValue(text) == Some((JNumber(text[0] == '0'), ""))
  {
    hide ParseNumber;
    DigitIsNumber(text);
  }

  lemma DigitIsNumber(text: string)
    requires |text| == 1 && IsDigit(text[0])
    ensures ParseNumber(text) == Some((JNumber(text[0] == '0'), ""))
  {
    var rest := text[1..];
    assert rest == "" && Digits(rest) == 0 && Digits(text) == 1;
    assert text[..1] == text && rest[0..] == "";
  }

  // A text whose first character begins no JSON value is not JSON.
  lemma NotJson(text: string)
    requires text != "" && !IsWs(text[0]) && !IsDigit(text[0]) && text[0] !in "\"{[tfnNI-"
    ensures Decode(text).None?
  {
  }

  // ---------- a string as json.dumps writes it

  // Characters that need no escape.
  predicate PlainText(s: string) { forall i | 0 <= i < |s| :: s[i] as int >= 32 && s[i] != '"' && s[i] != '\\' }

  lemma {:induction false} PlainStringReadsBack(s: string, rest: string)
    requires PlainText(s)
    ensures ParseString(s + "\"" + rest) == Some((Codes(s), rest))
  {
    var t := s + "\"" + rest;
    if s == "" {
      assert t[1..] == rest;
    } else {
      assert t[1..] == s[1..] + "\"" + rest;
      PlainStringReadsBack(s[1..], rest);
      assert Codes(s) == [s[0] as int] + Codes(s[1..]);
    }
  }

  lemma BoolWord(b: bool, rest: string)
    ensures ParseValue((if b then "true" else "false") + rest) == Some((JBool(b), rest))
  {
    var word := if b then "true" else "false";
    assert (word + rest)[|word|..] == rest;
  }

  lemma BoolMember(key: string, b: bool, members: string)
    requires PlainText(key) && members == "\"" + key + "\"" + ": " + (if b then "true" else "false") + "}"
    ensures ParseMembers(members, map[]) == Some((JObject(map[Codes(key) := JBool(b)]), ""))
  {
    hide ParseValue, ParseString;
    var value := (if b then "true" else "false") + "}";
    var rest := ": " + value;
    assert members[1..] == key + "\"" + rest;
    PlainStringReadsBack(key, rest);
    assert rest[1..] == " " + value;
    SkipWsPast(" ", value);
    BoolWord(b, "}");
    assert "}"[1..] == "";
  }

  // The object of one member with a truth value, as it is written to a flag's key.
  lemma BoolMemberReadsBack(key: string, b: bool, text: string)
    requires PlainText(key) && text == "{\"" + key + "\": " + (if b then "true" else "false") + "}"
    ensures Decode(text) == Some(JObject(map[Codes(key) := JBool(b)]))
  {
    hide ParseMembers, ParseString;
    var members := text[1..];
    assert members == "\"" + key + "\"" + ": " + (if b then "true" else "false") + "}";
    BoolMember(key, b, members);
  }
}
