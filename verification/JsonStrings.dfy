/** JSON.parse on a text that opens with a double quote (section 7 of RFC 8259), and the two laws that hold of it. */
module JsonStrings {
  import opened Base
  import opened Text
  import opened Environment
  import opened EnvironmentSurvival

  predicate JsonSpace(c: char) {
    c == ' ' || c == '\t' || c == '\n' || c == '\r'
  }

  /** The character that a backslash and `c` denote. */
  function Unescaped(c: char): Option<char> {
    match c
    case '"' => Some('"')
    case '\\' => Some('\\')
    case '/' => Some('/')
    case 'b' => Some('\U{0008}')
    case 'f' => Some('\U{000C}')
    case 'n' => Some('\n')
    case 'r' => Some('\r')
    case 't' => Some('\t')
    case _ => None
  }

  function HexDigit(c: char): Option<nat> {
    if '0' <= c <= '9' then Some(c as int - '0' as int)
    else if 'a' <= c <= 'f' then Some(c as int - 'a' as int + 10)
    else if 'A' <= c <= 'F' then Some(c as int - 'A' as int + 10)
    else None
  }

  /** The code unit that four hexadecimal digits denote. */
  function HexQuad(s: string): (code: Option<nat>)
    requires |s| == 4
  {
    var a, b, c, d := HexDigit(s[0]), HexDigit(s[1]), HexDigit(s[2]), HexDigit(s[3]);
    if a.Some? && b.Some? && c.Some? && d.Some?
    then Some(((a.value * 16 + b.value) * 16 + c.value) * 16 + d.value)
    else None
  }

  /** The character of a `\u` escape at the start of `s`, and the length of the escape: a pair of surrogates takes
      two. */
  function UnicodeEscape(s: string): (escape: Option<(char, nat)>)
    ensures escape.Some? ==> 6 <= escape.value.1 <= |s|
  {
    if |s| < 6 || s[0] != '\\' || s[1] != 'u' then None
    else
      match HexQuad(s[2..6])
      case None => None
      case Some(code) =>
        if code < 0xD800 || 0xE000 <= code < 0x1_0000 then Some((code as char, 6))
        else if code < 0xDC00 && |s| >= 12 && s[6] == '\\' && s[7] == 'u' then
          match HexQuad(s[8..12])
          case None => None
          case Some(low) =>
            if 0xDC00 <= low < 0xE000
            then Some(((0x1_0000 + (code - 0xD800) * 0x400 + (low - 0xDC00)) as char, 12))
            else None
        else None
  }

  function Prepend(c: char, rest: Option<string>): Option<string> {
    match rest
    case Some(text) => Some([c] + text)
    case None => None
  }

  /** What follows the opening quote: characters and escapes up to the closing quote, then white space. */
  function ReadBody(s: string): Option<string> {
    if s == "" || s[0] < ' ' then None
    else if s[0] == '"' then (if forall c :: c in s[1..] ==> JsonSpace(c) then Some("") else None)
    else if s[0] != '\\' then Prepend(s[0], ReadBody(s[1..]))
    else
      match UnicodeEscape(s)
      case Some(escape) => Prepend(escape.0, ReadBody(s[escape.1..]))
      case None =>
        if |s| >= 2 && Unescaped(s[1]).Some? then Prepend(Unescaped(s[1]).value, ReadBody(s[2..])) else None
  }

  function ReadJson(): JsonParser {
    (text: string) => if text != "" && text[0] == '"' then ReadBody(text[1..]) else None
  }

  lemma EscapeLength(c: char, text: string)
    ensures |Escape([c] + text)| == |Escape(text)| + if c == '\'' then 2 else 1
  {
    assert ([c] + text)[1..] == text;
  }

  /** Escaped but for its first character. */
  ghost predicate EscapedBehind(s: string) {
    forall k :: 0 < k < |s| ==> EscapedAt(s, k)
  }

  lemma RestEscaped(s: string, n: nat)
    requires EscapedBehind(s) && 0 < n <= |s|
    ensures EscapedBehind(s[n..])
    ensures n < |s| && s[n] == '\'' ==> s[n - 1] == '\\'
  {
    forall k | 0 < k < |s[n..]| ensures EscapedAt(s[n..], k) {
      assert EscapedAt(s, n + k);
    }
    assert n < |s| ==> EscapedAt(s, n);
  }

  function Surplus(s: string): nat {
    if s != "" && s[0] == '\'' then 1 else 0
  }

  lemma {:induction false} BodyLonger(s: string)
    requires EscapedBehind(s) && ReadBody(s).Some?
    ensures |Escape(ReadBody(s).value)| + 1 <= |s| + Surplus(s)
  {
    if s[0] != '"' {
      var taken :=
        if s[0] != '\\' then (s[0], 1)
        else if UnicodeEscape(s).Some? then UnicodeEscape(s).value
        else (Unescaped(s[1]).value, 2);
      var rest := s[taken.1..];
      RestEscaped(s, taken.1);
      BodyLonger(rest);
      EscapeLength(taken.0, ReadBody(rest).value);
    }
  }

  lemma {:induction false} BodyCloses(s: string)
    requires ReadBody(s).Some? && !IsSpace(s[|s| - 1])
    ensures s[|s| - 1] == '"'
  {
    assert |s| > 1 ==> s[|s| - 1] in s[1..];
    if s[0] != '"' {
      var n := if s[0] != '\\' then 1 else if UnicodeEscape(s).Some? then UnicodeEscape(s).value.1 else 2;
      assert ReadBody(s[n..]).Some?;
      BodyCloses(s[n..]);
    }
  }

  /** JSON texts obey the two laws, so that they decide which records survive. */
  lemma JsonObeysLaws()
    ensures JsonLaws(ReadJson())
  {
    forall text: string | text != "" && text[0] == '"' && ReadJson()(text).Some?
      ensures JsonLawful(text, ReadJson()(text).value)
    {
      var body := text[1..];
      assert text[|text| - 1] == (if body == "" then '"' else body[|body| - 1]);
      if Escaped(text) {
        forall k | 0 < k < |body| ensures EscapedAt(body, k) {
          assert EscapedAt(text, k + 1);
        }
        assert body != "" ==> EscapedAt(text, 1);
        BodyLonger(body);
      }
      if !IsSpace(text[|text| - 1]) {
        BodyCloses(body);
      }
    }
  }

  /** With JSON.parse itself: a record survives exactly when its keys are well formed and its values are single
      lines. */
  lemma SurvivesWithJson(variables: seq<Variable>)
    requires DistinctKeys(variables)
    ensures Parse(Serialize(variables), ReadJson()) == Ok(RecordOf(variables)) <==>
              WellFormed(variables) && OneLiners(variables)
  {
    JsonObeysLaws();
    RecordSurvivesExactly(variables, ReadJson());
  }
}
