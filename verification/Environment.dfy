/** The deployment environment file: a printer and a parser that undo each other (scripts/deploy/config.ts). */
module Environment {
  import opened Base
  import opened Text

  datatype Variable = Variable(key: string, value: string)

  datatype ParseError = Malformed | InvalidJson

  /** JSON.parse on a text that starts with a double quote: the string it denotes, unless it throws. */
  type JsonParser = string -> Option<string>

  // ----- printing -----

  predicate RawChar(c: char) {
    || 'A' <= c <= 'Z' || 'a' <= c <= 'z' || '0' <= c <= '9'
    || c in "_./:@?+=,-"
  }

  predicate Raw(value: string) {
    forall c :: c in value ==> RawChar(c)
  }

  /** Puts a backslash before each single quote. */
  function Escape(value: string): string {
    if value == "" then ""
    else (if value[0] == '\'' then "\\'" else [value[0]]) + Escape(value[1..])
  }

  function EncodeValue(value: string): string {
    if Raw(value) then value else "'" + Escape(value) + "'"
  }

  function LineOf(variable: Variable): string {
    variable.key + "=" + EncodeValue(variable.value)
  }

  function LinesOf(variables: seq<Variable>): seq<string> {
    seq(|variables|, i requires 0 <= i < |variables| => LineOf(variables[i]))
  }

  function JoinLines(lines: seq<string>): string {
    if lines == [] then ""
    else if |lines| == 1 then lines[0]
    else lines[0] + "\n" + JoinLines(lines[1..])
  }

  function Serialize(variables: seq<Variable>): string {
    JoinLines(LinesOf(variables)) + "\n"
  }

  // ----- parsing -----

  /** The position of the first `c`, or the length. */
  function IndexOf(s: string, c: char): (i: nat)
    ensures i <= |s|
    ensures forall k :: 0 <= k < i ==> s[k] != c
    ensures i < |s| ==> s[i] == c
  {
    if s == "" || s[0] == c then 0 else 1 + IndexOf(s[1..], c)
  }

  function Chomp(line: string): string {
    if line != "" && line[|line| - 1] == '\r' then line[..|line| - 1] else line
  }

  /** Splits at every line feed, each with the carriage return before it, if there is one. */
  function SplitLines(content: string): seq<string>
    decreases |content|
  {
    var i := IndexOf(content, '\n');
    if i == |content| then [content] else [Chomp(content[..i])] + SplitLines(content[i + 1..])
  }

  /** Drops the backslash of each backslash that stands before a single quote, from left to right. */
  function Unescape(s: string): string {
    if s == "" then ""
    else if |s| >= 2 && s[0] == '\\' && s[1] == '\'' then "'" + Unescape(s[2..])
    else [s[0]] + Unescape(s[1..])
  }

  function Unquote(s: string): string {
    if |s| >= 2 then s[1..|s| - 1] else ""
  }

  predicate Quoted(encoded: string) {
    encoded != "" && encoded[0] == '\'' && encoded[|encoded| - 1] == '\''
  }

  function DecodeValue(encoded: string, json: JsonParser): Result<string, ParseError> {
    if Quoted(encoded) then Ok(Unescape(Unquote(encoded)))
    else if encoded != "" && encoded[0] == '"' then
      match json(encoded)
      case Some(value) => Ok(value)
      case None => Err(InvalidJson)
    else Ok(encoded)
  }

  /** One line: nothing for a blank line or a comment, a variable otherwise. */
  function ParseLine(line: string, json: JsonParser): Result<Option<Variable>, ParseError> {
    var trimmed := Trim(line);
    if trimmed == "" || trimmed[0] == '#' then Ok(None)
    else
      var separator := IndexOf(trimmed, '=');
      :- Need(0 < separator < |trimmed|, Malformed);
      var value :- DecodeValue(trimmed[separator + 1..], json);
      Ok(Some(Variable(trimmed[..separator], value)))
  }

  /** Assignment to a property of a plain object: a string assigned to `__proto__` has no effect. */
  function Assign(values: map<string, string>, key: string, value: string): map<string, string> {
    if key == "__proto__" then values else values[key := value]
  }

  /** One line's contribution to the record. */
  function ParseInto(
    values: map<string, string>, line: string, json: JsonParser
  ): Result<map<string, string>, ParseError>
  {
    var variable :- ParseLine(line, json);
    Ok(if variable.Some? then Assign(values, variable.value.key, variable.value.value) else values)
  }

  function ParseLines(lines: seq<string>, json: JsonParser): Result<map<string, string>, ParseError> {
    if lines == [] then Ok(map[])
    else
      var values :- ParseLines(lines[..|lines| - 1], json);
      ParseInto(values, lines[|lines| - 1], json)
  }

  function Parse(content: string, json: JsonParser): Result<map<string, string>, ParseError> {
    ParseLines(SplitLines(content), json)
  }

  lemma {:induction false} ParsingStops(lines: seq<string>, n: nat, json: JsonParser)
    requires n <= |lines| && ParseLines(lines[..n], json).Err?
    ensures ParseLines(lines, json) == ParseLines(lines[..n], json)
  {
    if n == |lines| {
      assert lines[..n] == lines;
    } else {
      var init := lines[..|lines| - 1];
      assert init[..n] == lines[..n];
      ParsingStops(init, n, json);
    }
  }

  lemma ParseNext(lines: seq<string>, i: nat, json: JsonParser)
    requires i < |lines| && ParseLines(lines[..i], json).Ok?
    ensures ParseLines(lines[..i + 1], json) == ParseInto(ParseLines(lines[..i], json).value, lines[i], json)
  {
    assert lines[..i + 1][..i] == lines[..i];
  }

  method ParseEnvironment(content: string, json: JsonParser) returns (result: Result<map<string, string>, ParseError>)
    ensures result == Parse(content, json)
  {
    var values: map<string, string> := map[];
    var lines := SplitLines(content);
    for i := 0 to |lines|
      invariant ParseLines(lines[..i], json) == Ok(values)
    {
      ParseNext(lines, i, json);
      var variable := ParseLine(lines[i], json);
      if variable.Err? {
        ParsingStops(lines, i + 1, json);
        return Err(variable.error);
      }
      if variable.value.Some? {
        values := Assign(values, variable.value.value.key, variable.value.value.value);
      }
    }
    assert lines[..|lines|] == lines;
    return Ok(values);
  }

  // ----- values -----

  lemma EscapeHead(value: string)
    ensures Escape(value) != "" ==> Escape(value)[0] != '\''
    ensures Escape(value) == "" <==> value == ""
  {
  }

  /** Unescaping undoes escaping: for every text, whatever backslashes and quotes it holds. */
  lemma {:induction false} UnescapeEscape(value: string)
    ensures Unescape(Escape(value)) == value
  {
    if value != "" {
      var rest := Escape(value[1..]);
      UnescapeEscape(value[1..]);
      EscapeHead(value[1..]);
      if value[0] == '\'' {
        assert Escape(value)[2..] == rest;
      } else {
        assert Escape(value)[1..] == rest;
      }
    }
  }

  lemma {:induction false} EscapeKeeps(value: string, c: char)
    requires c != '\\'
    ensures c in Escape(value) <==> c in value
  {
    if value != "" {
      EscapeKeeps(value[1..], c);
    }
  }

  /** Every value decodes to itself, and JSON.parse is never asked. */
  lemma DecodeEncode(value: string, json: JsonParser)
    ensures DecodeValue(EncodeValue(value), json) == Ok(value)
  {
    if Raw(value) {
      if value != "" {
        assert value[0] in value && RawChar(value[0]);
      }
    } else {
      var encoded := EncodeValue(value);
      assert Unquote(encoded) == Escape(value);
      UnescapeEscape(value);
    }
  }

  // ----- lines -----

  predicate WellFormedKey(key: string) {
    && key != ""
    && '=' !in key
    && '\n' !in key
    && !IsSpace(key[0])
    && key[0] != '#'
    && key != "__proto__"
  }

  predicate OneLine(value: string) {
    '\n' !in value
  }

  predicate ProperLine(line: string) {
    line != "" && '\n' !in line && !IsSpace(line[0]) && !IsSpace(line[|line| - 1])
  }

  lemma EncodedEnd(value: string)
    requires OneLine(value)
    ensures '\n' !in EncodeValue(value)
    ensures EncodeValue(value) != "" ==> !IsSpace(EncodeValue(value)[|EncodeValue(value)| - 1])
  {
    EscapeKeeps(value, '\n');
    if Raw(value) && value != "" {
      assert RawChar(value[|value| - 1]);
    }
  }

  lemma LineIsProper(variable: Variable)
    requires WellFormedKey(variable.key) && OneLine(variable.value)
    ensures ProperLine(LineOf(variable))
  {
    EncodedEnd(variable.value);
    var line, encoded := LineOf(variable), EncodeValue(variable.value);
    assert line[0] == variable.key[0];
    assert line[|line| - 1] == if encoded == "" then '=' else encoded[|encoded| - 1];
  }

  lemma IndexIs(s: string, c: char, i: nat)
    requires i < |s| && s[i] == c && forall k :: 0 <= k < i ==> s[k] != c
    ensures IndexOf(s, c) == i
  {
  }

  /** A printed line parses to its variable. */
  lemma LineParses(variable: Variable, json: JsonParser)
    requires WellFormedKey(variable.key) && OneLine(variable.value)
    ensures ParseLine(LineOf(variable), json) == Ok(Some(variable))
  {
    var line, n := LineOf(variable), |variable.key|;
    LineIsProper(variable);
    assert Trim(line) == line;
    assert line[0] == variable.key[0];
    forall k | 0 <= k < n ensures line[k] != '=' {
      assert line[k] == variable.key[k] && variable.key[k] in variable.key;
    }
    IndexIs(line, '=', n);
    assert line[..n] == variable.key && line[n + 1..] == EncodeValue(variable.value);
    DecodeEncode(variable.value, json);
  }

  // ----- the file -----

  lemma SplitFirst(line: string, rest: string)
    requires ProperLine(line)
    ensures SplitLines(line + "\n" + rest) == [line] + SplitLines(rest)
  {
    var content, n := line + "\n" + rest, |line|;
    forall k | 0 <= k < n ensures content[k] != '\n' {
      assert content[k] == line[k] && line[k] in line;
    }
    IndexIs(content, '\n', n);
    assert content[..n] == line && content[n + 1..] == rest;
  }

  lemma JoinNext(lines: seq<string>)
    requires |lines| > 1
    ensures JoinLines(lines) + "\n" == lines[0] + "\n" + (JoinLines(lines[1..]) + "\n")
  {
  }

  lemma JoinedStep(line: string, tail: string, text: string, rest: seq<string>)
    requires ProperLine(line) && text == line + "\n" + tail && SplitLines(tail) == rest + [""]
    ensures SplitLines(text) == ([line] + rest) + [""]
  {
    SplitFirst(line, tail);
  }

  lemma {:induction false} SplitJoined(lines: seq<string>)
    requires lines != [] && forall line :: line in lines ==> ProperLine(line)
    ensures SplitLines(JoinLines(lines) + "\n") == lines + [""]
  {
    if |lines| == 1 {
      JoinedStep(lines[0], "", JoinLines(lines) + "\n", []);
      assert lines == [lines[0]] + [];
    } else {
      var rest := lines[1..];
      SplitJoined(rest);
      JoinNext(lines);
      JoinedStep(lines[0], JoinLines(rest) + "\n", JoinLines(lines) + "\n", rest);
      assert lines == [lines[0]] + rest;
    }
  }

  /** The record that a list of variables stands for. */
  function RecordOf(variables: seq<Variable>): map<string, string> {
    if variables == [] then map[]
    else
      var last := variables[|variables| - 1];
      RecordOf(variables[..|variables| - 1])[last.key := last.value]
  }

  ghost predicate WellFormed(variables: seq<Variable>) {
    forall variable :: variable in variables ==> WellFormedKey(variable.key)
  }

  ghost predicate OneLiners(variables: seq<Variable>) {
    forall variable :: variable in variables ==> OneLine(variable.value)
  }

  lemma {:induction false} LinesParse(variables: seq<Variable>, json: JsonParser)
    requires WellFormed(variables) && OneLiners(variables)
    ensures ParseLines(LinesOf(variables), json) == Ok(RecordOf(variables))
  {
    if variables != [] {
      var init, last := variables[..|variables| - 1], variables[|variables| - 1];
      assert last in variables;
      LinesParse(init, json);
      assert LinesOf(variables)[..|init|] == LinesOf(init);
      LineParses(last, json);
    }
  }

  lemma BlankLine(lines: seq<string>, json: JsonParser)
    ensures ParseLines(lines + [""], json) == ParseLines(lines, json)
  {
  }

  /** Parsing what was printed gives the same record. */
  lemma RoundTrip(variables: seq<Variable>, json: JsonParser)
    requires WellFormed(variables) && OneLiners(variables)
    ensures Parse(Serialize(variables), json) == Ok(RecordOf(variables))
  {
    var lines := LinesOf(variables);
    if variables == [] {
      SplitEmpty();
      BlankLine([""], json);
      BlankLine([], json);
      assert [""] + [""] == ["", ""] && [] + [""] == [""];
    } else {
      forall i | 0 <= i < |lines| ensures ProperLine(lines[i]) {
        assert variables[i] in variables;
        LineIsProper(variables[i]);
      }
      SplitJoined(lines);
      BlankLine(lines, json);
      LinesParse(variables, json);
    }
  }

  lemma SplitEmpty()
    ensures SplitLines("\n") == ["", ""]
  {
  }

  // ----- the keys have to be well formed -----

  lemma TrimmedStart(s: string)
    ensures TrimStart(s) != "" ==> !IsSpace(TrimStart(s)[0])
    ensures forall c :: c in TrimStart(s) ==> c in s
  {
  }

  lemma TrimmedEnd(s: string)
    ensures TrimEnd(s) <= s
    ensures TrimEnd(s) != "" ==> TrimEnd(s)[0] == s[0]
  {
  }

  lemma TrimmedText(s: string)
    ensures Trim(s) != "" ==> !IsSpace(Trim(s)[0])
    ensures forall c :: c in Trim(s) ==> c in s
  {
    TrimmedStart(s);
    TrimmedEnd(TrimStart(s));
    forall c | c in Trim(s) ensures c in s {
      assert c in TrimStart(s);
    }
  }

  lemma {:induction false} SplitHasNoBreaks(content: string)
    ensures forall line :: line in SplitLines(content) ==> '\n' !in line
    decreases |content|
  {
    var i := IndexOf(content, '\n');
    if i < |content| {
      SplitHasNoBreaks(content[i + 1..]);
    }
  }

  lemma ParsedKeyIsWellFormed(line: string, json: JsonParser)
    requires '\n' !in line && ParseLine(line, json).Ok? && ParseLine(line, json).value.Some?
    ensures
      var key := ParseLine(line, json).value.value.key;
      key != "__proto__" ==> WellFormedKey(key)
  {
    var trimmed := Trim(line);
    TrimmedText(line);
    var separator := IndexOf(trimmed, '=');
    var key := trimmed[..separator];
    assert key[0] == trimmed[0];
    forall c | c in key ensures c in line && c != '=' {
      assert c in trimmed;
    }
  }

  lemma {:induction false} ParsedKeysAreWellFormed(lines: seq<string>, json: JsonParser)
    requires ParseLines(lines, json).Ok? && forall line :: line in lines ==> '\n' !in line
    ensures forall key :: key in ParseLines(lines, json).value ==> WellFormedKey(key)
  {
    if lines != [] {
      var init, last := lines[..|lines| - 1], lines[|lines| - 1];
      assert last in lines;
      ParsedKeysAreWellFormed(init, json);
      if ParseLine(last, json).value.Some? {
        ParsedKeyIsWellFormed(last, json);
      }
    }
  }

  lemma {:induction false} RecordKeys(variables: seq<Variable>)
    ensures forall variable :: variable in variables ==> variable.key in RecordOf(variables)
  {
    if variables != [] {
      var init, last := variables[..|variables| - 1], variables[|variables| - 1];
      assert variables == init + [last];
      RecordKeys(init);
    }
  }

  /** For values without line feeds, printing and parsing gives the record back exactly when every key is well
      formed. */
  lemma RoundTripExactly(variables: seq<Variable>, json: JsonParser)
    requires OneLiners(variables)
    ensures Parse(Serialize(variables), json) == Ok(RecordOf(variables)) <==> WellFormed(variables)
  {
    if WellFormed(variables) {
      RoundTrip(variables, json);
    }
    if Parse(Serialize(variables), json) == Ok(RecordOf(variables)) {
      SplitHasNoBreaks(Serialize(variables));
      ParsedKeysAreWellFormed(SplitLines(Serialize(variables)), json);
      RecordKeys(variables);
    }
  }
}
