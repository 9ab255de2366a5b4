/** Reading JSON text back: strings with their escapes (section 7 of RFC 8259) and a list
    that holds one object. */
module JsonTexts {
  import opened Plans
  import opened Migrations

  datatype Value = Text(text: string) | True

  /** The value of a hexadecimal digit. */
  function HexValue(c: char): Option<nat> {
    if '0' <= c <= '9' then Some((c as int) - ('0' as int))
    else if 'a' <= c <= 'f' then Some((c as int) - ('a' as int) + 10)
    else if 'A' <= c <= 'F' then Some((c as int) - ('A' as int) + 10)
    else None
  }

  /** The character that `\uXXXX` stands for, outside the surrogates. */
  function FourHex(s: string): Option<char> {
    if |s| < 4 then None
    else
      match (HexValue(s[0]), HexValue(s[1]), HexValue(s[2]), HexValue(s[3]))
      case (Some(a), Some(b), Some(c), Some(d)) =>
        var n := ((a * 16 + b) * 16 + c) * 16 + d;
        if 0 <= n < 0xD800 then Some(n as char) else None
      case _ => None
  }

  /** The character a backslash and `c` stand for. */
  function ShortEscape(c: char): Option<char> {
    if c == '"' || c == '\\' || c == '/' then Some(c)
    else if c == 'b' then Some('\U{08}')
    else if c == 'f' then Some('\U{0c}')
    else if c == 'n' then Some('\n')
    else if c == 'r' then Some('\r')
    else if c == 't' then Some('\t')
    else None
  }

  /** One character of a string, and how much text it takes; None at its end or where the
      text is no JSON string. */
  function OneChar(s: string): (r: Option<(char, nat)>)
    ensures r.Some? ==> 0 < r.value.1 <= |s|
  {
    if s == [] || s[0] == '"' || s[0] < ' ' then None
    else if s[0] != '\\' then Some((s[0], 1))
    else if |s| < 2 then None
    else if s[1] == 'u' then
      match FourHex(s[2..])
      case Some(c) => Some((c, 6))
      case None => None
    else
      match ShortEscape(s[1])
      case Some(c) => Some((c, 2))
      case None => None
  }

  /** The characters up to the closing quotation mark, and the text after it. */
  function StringRest(s: string): (r: Option<(string, string)>)
    ensures r.Some? ==> |r.value.1| < |s|
    decreases |s|
  {
    if s != [] && s[0] == '"' then Some(([], s[1..]))
    else
      match OneChar(s)
      case None => None
      case Some((c, n)) =>
        match StringRest(s[n..])
        case None => None
        case Some((text, rest)) => Some(([c] + text, rest))
  }

  function ReadString(s: string): (r: Option<(string, string)>)
    ensures r.Some? ==> |r.value.1| < |s|
  {
    if s != [] && s[0] == '"' then StringRest(s[1..]) else None
  }

  predicate Blank(c: char) { c == ' ' || c == '\t' || c == '\n' || c == '\r' }

  function SkipBlanks(s: string): (r: string)
    ensures |r| <= |s|
  {
    if s != [] && Blank(s[0]) then SkipBlanks(s[1..]) else s
  }

  /** The text after `c`, which may have blanks before it. */
  function After(s: string, c: char): (r: Option<string>)
    ensures r.Some? ==> |r.value| < |s|
  {
    var t := SkipBlanks(s);
    if t != [] && t[0] == c then Some(t[1..]) else None
  }

  function ReadValue(s: string): (r: Option<(Value, string)>)
    ensures r.Some? ==> |r.value.1| < |s|
  {
    var t := SkipBlanks(s);
    if "true" <= t then Some((True, t[4..]))
    else
      match ReadString(t)
      case Some((text, rest)) => Some((Text(text), rest))
      case None => None
  }

  /** `"key": value` */
  function ReadMember(s: string): (r: Option<((string, Value), string)>)
    ensures r.Some? ==> |r.value.1| < |s|
  {
    match ReadString(SkipBlanks(s))
    case None => None
    case Some((key, rest)) =>
      match After(rest, ':')
      case None => None
      case Some(more) =>
        match ReadValue(more)
        case None => None
        case Some((v, end)) => Some(((key, v), end))
  }

  /** The members of an object up to its closing brace. */
  function ReadMembers(s: string): Option<(seq<(string, Value)>, string)>
    decreases |s|
  {
    match ReadMember(s)
    case None => None
    case Some((m, rest)) =>
      if After(rest, '}').Some? then Some(([m], After(rest, '}').value))
      else
        match After(rest, ',')
        case None => None
        case Some(more) =>
          match ReadMembers(more)
          case None => None
          case Some((ms, end)) => Some(([m] + ms, end))
  }

  /** The members of the only object of a list. */
  function ReadOneObject(s: string): Option<seq<(string, Value)>> {
    match After(s, '[')
    case None => None
    case Some(a) =>
      match After(a, '{')
      case None => None
      case Some(b) =>
        match ReadMembers(b)
        case None => None
        case Some((ms, c)) =>
          match After(c, ']')
          case None => None
          case Some(d) => if SkipBlanks(d) == [] then Some(ms) else None
  }

  // ---- what is written is read ------------------------------------------------------------

  lemma HexRead(d: nat)
    requires d < 16
    ensures HexValue(HexDigit(d)) == Some(d)
  {
  }

  lemma ControlRead(c: char, rest: string)
    requires c < ' '
    ensures FourHex("00" + [HexDigit((c as int) / 16)] + [HexDigit((c as int) % 16)] + rest) == Some(c)
  {
    var a, b := (c as int) / 16, (c as int) % 16;
    HexRead(a);
    HexRead(b);
    var s := "00" + [HexDigit(a)] + [HexDigit(b)] + rest;
    assert s[0] == '0' && s[1] == '0' && s[2] == HexDigit(a) && s[3] == HexDigit(b);
  }

  lemma CharRead(c: char, rest: string)
    ensures OneChar(JsonChar(c) + rest) == Some((c, |JsonChar(c)|))
    ensures (JsonChar(c) + rest)[0] != '"'
  {
    var s := JsonChar(c) + rest;
    if JsonChar(c) == [c] {
      assert s[0] == c;
    } else if c < ' ' && s[1] == 'u' {
      ControlRead(c, rest);
      assert s[2..] == "00" + [HexDigit((c as int) / 16)] + [HexDigit((c as int) % 16)] + rest;
    } else {
      assert s[0] == '\\' && s[1] == JsonChar(c)[1];
    }
  }

  lemma {:induction false} CharsRead(t: string, rest: string)
    ensures StringRest(EscapeAll(t, JsonChar) + ("\"" + rest)) == Some((t, rest))
  {
    if t == [] {
      assert EscapeAll(t, JsonChar) + ("\"" + rest) == "\"" + rest;
      assert ("\"" + rest)[1..] == rest;
    } else {
      var e, more := JsonChar(t[0]), EscapeAll(t[1..], JsonChar) + ("\"" + rest);
      assert EscapeAll(t, JsonChar) + ("\"" + rest) == e + more;
      CharsRead(t[1..], rest);
      CharThenRest(t[0], more, t[1..], rest);
      assert t == [t[0]] + t[1..];
    }
  }

  lemma CharThenRest(c: char, more: string, t: string, rest: string)
    requires StringRest(more) == Some((t, rest))
    ensures StringRest(JsonChar(c) + more) == Some(([c] + t, rest))
  {
    CharRead(c, more);
    assert (JsonChar(c) + more)[|JsonChar(c)|..] == more;
  }

  /** A JSON string reads as the text it was written for. */
  lemma StringRead(t: string, rest: string)
    ensures ReadString(JsonString(t) + rest) == Some((t, rest))
  {
    var e := EscapeAll(t, JsonChar);
    assert (JsonString(t) + rest)[0] == '"';
    assert (JsonString(t) + rest)[1..] == e + ("\"" + rest);
    CharsRead(t, rest);
  }
}
