/** Exactly which records survive the environment file, values with line feeds included (scripts/deploy/config.ts). */
module EnvironmentSurvival {
  import opened Base
  import opened Text
  import opened Environment

  // ----- what is used about JSON.parse -----

  /** What stands at `k` is no single quote, or stands behind a backslash. */
  ghost predicate EscapedAt(text: string, k: nat)
    requires k < |text|
  {
    text[k] == '\'' ==> k > 0 && text[k - 1] == '\\'
  }

  /** Before every single quote there is a backslash. */
  ghost predicate Escaped(text: string) {
    forall k :: 0 <= k < |text| ==> EscapedAt(text, k)
  }

  ghost predicate JsonLawful(text: string, value: string) {
    && (Escaped(text) ==> |Escape(value)| + 2 <= |text|)
    && (!IsSpace(text[|text| - 1]) ==> text[|text| - 1] == '"')
  }

  /** Two laws of JSON texts that open with a double quote. Backslash and single quote make no JSON escape, so that the
      quote in an escaped text stands behind a pair of backslashes, and three characters denote two: the text is longer
      than its value in escaped form. And where the text does not end in white space it ends in the closing quote. */
  ghost predicate JsonLaws(json: JsonParser) {
    forall text :: text != "" && text[0] == '"' && json(text).Some? ==> JsonLawful(text, json(text).value)
  }

  // ----- slices -----

  lemma {:induction false} TrimStartIsSlice(s: string)
    ensures |TrimStart(s)| <= |s| && TrimStart(s) == s[|s| - |TrimStart(s)|..]
  {
    if s != "" && IsSpace(s[0]) {
      TrimStartIsSlice(s[1..]);
    }
  }

  lemma {:induction false} TrimEndIsSlice(s: string)
    ensures |TrimEnd(s)| <= |s| && TrimEnd(s) == s[..|TrimEnd(s)|]
  {
    if s != "" && IsSpace(s[|s| - 1]) {
      TrimEndIsSlice(s[..|s| - 1]);
    }
  }

  lemma TrimIsSlice(s: string) returns (a: nat, b: nat)
    ensures a <= b <= |s| && Trim(s) == s[a..b]
  {
    TrimStartIsSlice(s);
    TrimEndIsSlice(TrimStart(s));
    a := |s| - |TrimStart(s)|;
    b := a + |Trim(s)|;
  }

  /** Trimming keeps a last character that is no white space. */
  lemma {:induction false} TrimKeepsLast(s: string)
    requires s != "" && !IsSpace(s[|s| - 1])
    ensures Trim(s) != "" && Trim(s)[|Trim(s)| - 1] == s[|s| - 1]
  {
    if IsSpace(s[0]) {
      TrimKeepsLast(s[1..]);
    }
  }

  /** Trimming keeps a beginning that has no white space at its ends. */
  lemma {:induction false} TrimKeepsPrefix(p: string, s: string)
    requires p <= s && p != "" && !IsSpace(p[0]) && !IsSpace(p[|p| - 1])
    ensures p <= Trim(s)
  {
    assert s[0] == p[0];
    if IsSpace(s[|s| - 1]) {
      assert |p| < |s|;
      assert p <= s[..|s| - 1];
      TrimKeepsPrefix(p, s[..|s| - 1]);
    }
  }

  /** A slice of escaped text that does not start with a quote is escaped. */
  lemma SliceEscaped(text: string, a: nat, b: nat)
    requires a <= b <= |text| && Escaped(text) && (a < b ==> text[a] != '\'')
    ensures Escaped(text[a..b])
  {
    var slice := text[a..b];
    forall k | 0 <= k < |slice| ensures EscapedAt(slice, k) {
      assert EscapedAt(text, a + k);
    }
  }

  lemma EscapedAppend(head: string, rest: string)
    requires Escaped(head) && Escaped(rest)
    ensures Escaped(head + rest)
  {
    forall k | 0 <= k < |head + rest| ensures EscapedAt(head + rest, k) {
      if k < |head| {
        assert EscapedAt(head, k);
      } else {
        assert EscapedAt(rest, k - |head|);
      }
    }
  }

  lemma EscapedOne(c: char)
    ensures Escaped(if c == '\'' then "\\'" else [c])
  {
  }

  lemma {:induction false} EscapeEscaped(value: string)
    ensures Escaped(Escape(value))
  {
    if value != "" {
      EscapeEscaped(value[1..]);
      EscapedOne(value[0]);
      EscapedAppend(if value[0] == '\'' then "\\'" else [value[0]], Escape(value[1..]));
    }
  }

  // ----- where a parsed value with line feeds comes from -----

  /** What stands behind the separator of a line. */
  function Encoded(line: string): string {
    var trimmed := Trim(line);
    var separator := IndexOf(trimmed, '=');
    if separator < |trimmed| then trimmed[separator + 1..] else ""
  }

  lemma {:induction false} UnescapeKeeps(s: string)
    ensures forall c :: c in Unescape(s) ==> c in s
  {
    if s != "" {
      UnescapeKeeps(s[1..]);
      if |s| >= 2 {
        UnescapeKeeps(s[2..]);
      }
    }
  }

  ghost predicate Yields(line: string, json: JsonParser, variable: Variable) {
    ParseLine(line, json) == Ok(Some(variable))
  }

  /** Only JSON puts a line feed into a value. */
  lemma ManyLinesAreJson(line: string, json: JsonParser, variable: Variable)
    requires '\n' !in line && Yields(line, json, variable) && !OneLine(variable.value)
    ensures Encoded(line) != "" && Encoded(line)[0] == '"' && json(Encoded(line)) == Some(variable.value)
  {
    var encoded := Encoded(line);
    TrimmedText(line);
    assert '\n' !in encoded;
    UnescapeKeeps(Unquote(encoded));
  }

  /** A line that ends in a single quote yields no value with line feeds. */
  lemma ClosedLineIsOneLine(line: string, json: JsonParser, variable: Variable)
    requires JsonLaws(json) && '\n' !in line && Yields(line, json, variable)
    requires line != "" && line[|line| - 1] == '\''
    ensures OneLine(variable.value)
  {
    var encoded := Encoded(line);
    TrimKeepsLast(line);
    assert encoded != "" ==> encoded[|encoded| - 1] == '\'';
    if !OneLine(variable.value) {
      ManyLinesAreJson(line, json, variable);
    }
  }

  /** A line whose value opens with a single quote yields no value with line feeds. */
  lemma OpeningLineIsOneLine(key: string, line: string, json: JsonParser, variable: Variable)
    requires WellFormedKey(key) && key + "='" <= line && '\n' !in line && Yields(line, json, variable)
    ensures OneLine(variable.value)
  {
    var opening := key + "='";
    var trimmed := Trim(line);
    TrimKeepsPrefix(opening, line);
    forall k | 0 <= k < |key| ensures trimmed[k] != '=' {
      assert trimmed[k] == opening[k] && opening[k] in key;
    }
    assert trimmed[|key|] == opening[|key|] == '=';
    IndexIs(trimmed, '=', |key|);
    assert Encoded(line)[0] == trimmed[|key| + 1] == opening[|key| + 1];
    if !OneLine(variable.value) {
      ManyLinesAreJson(line, json, variable);
    }
  }

  /** An escaped line is longer than the escaped form of a value with line feeds that it yields. */
  lemma EscapedLineIsLonger(line: string, json: JsonParser, variable: Variable)
    requires JsonLaws(json) && '\n' !in line && Yields(line, json, variable)
    requires Escaped(line) && !OneLine(variable.value)
    ensures |Escape(variable.value)| + 2 <= |line|
  {
    ManyLinesAreJson(line, json, variable);
    var a, b := TrimIsSlice(line);
    var encoded := Encoded(line);
    var c := a + IndexOf(Trim(line), '=') + 1;
    assert encoded == line[c..b];
    SliceEscaped(line, c, b);
    assert JsonLawful(encoded, variable.value);
  }

  // ----- the lines of a printed variable -----

  /** A line that closes a quoted value, or an escaped line no longer than the text it is cut from. */
  ghost predicate Harmless(line: string, length: nat) {
    || (line != "" && line[|line| - 1] == '\'')
    || (Escaped(line) && |line| <= length)
  }

  lemma SplitAtBreak(text: string, n: nat)
    requires n < |text| && text[n] == '\n' && '\n' !in text[..n]
    ensures SplitLines(text) == [Chomp(text[..n])] + SplitLines(text[n + 1..])
  {
    forall k | 0 <= k < n ensures text[k] != '\n' {
      assert text[k] == text[..n][k];
    }
    IndexIs(text, '\n', n);
  }

  lemma EscapedTail(escaped: string, i: nat)
    requires i < |escaped| && escaped[i] == '\n' && Escaped(escaped)
    ensures Escaped(escaped[i + 1..])
  {
    assert i + 1 < |escaped| ==> EscapedAt(escaped, i + 1);
    SliceEscaped(escaped, i + 1, |escaped|);
    assert escaped[i + 1..|escaped|] == escaped[i + 1..];
  }

  lemma EscapedStart(escaped: string, n: nat)
    requires n <= |escaped| && Escaped(escaped)
    ensures Escaped(escaped[..n])
  {
    assert 0 < |escaped| ==> EscapedAt(escaped, 0);
    SliceEscaped(escaped, 0, n);
    assert escaped[0..n] == escaped[..n];
  }

  lemma TailParts(tail: string, i: nat)
    requires i < |tail|
    ensures
      var text := tail + "'";
      i < |text| && text[i] == tail[i] && text[..i] == tail[..i] && text[i + 1..] == tail[i + 1..] + "'"
  {
  }

  lemma FirstTailLine(tail: string, i: nat)
    requires i < |tail| && Escaped(tail)
    ensures Harmless(Chomp(tail[..i]), |tail|)
  {
    var n := |Chomp(tail[..i])|;
    assert Chomp(tail[..i]) == tail[..n];
    EscapedStart(tail, n);
  }

  lemma LineOfTwo(text: string, first: string, rest: string, line: string)
    requires SplitLines(text) == [first] + SplitLines(rest) && line in SplitLines(text)
    ensures line == first || line in SplitLines(rest)
  {
  }

  lemma {:induction false} TailLines(tail: string, line: string)
    requires Escaped(tail) && line in SplitLines(tail + "'")
    ensures Harmless(line, |tail|)
    decreases |tail|
  {
    if '\n' in tail {
      BreakIn(tail);
      var i := IndexOf(tail, '\n');
      TailParts(tail, i);
      SplitAtBreak(tail + "'", i);
      LineOfTwo(tail + "'", Chomp(tail[..i]), tail[i + 1..] + "'", line);
      if line == Chomp(tail[..i]) {
        FirstTailLine(tail, i);
      } else {
        EscapedTail(tail, i);
        TailLines(tail[i + 1..], line);
      }
    } else {
      NoBreak(tail + "'");
    }
  }

  /** The parts of a quoted line around position `i` of the escaped text. */
  lemma QuotedParts(key: string, escaped: string, i: nat)
    requires i < |escaped|
    ensures
      var text, n := key + "=" + ("'" + escaped + "'"), |key| + 2 + i;
      && n < |text| && text[n] == escaped[i]
      && text[..n] == key + "='" + escaped[..i]
      && text[n + 1..] == escaped[i + 1..] + "'"
  {
  }

  lemma ChompKeepsPrefix(p: string, rest: string)
    requires p != "" && p[|p| - 1] != '\r'
    ensures p <= Chomp(p + rest)
  {
  }

  lemma OpeningHasNoBreak(key: string, escaped: string, i: nat)
    requires '\n' !in key && i <= |escaped| && '\n' !in escaped[..i]
    ensures '\n' !in key + "='" + escaped[..i]
  {
  }

  lemma BreakIn(escaped: string)
    requires '\n' in escaped
    ensures
      var i := IndexOf(escaped, '\n');
      i < |escaped| && escaped[i] == '\n' && '\n' !in escaped[..i]
  {
  }

  lemma ManyLinesAt(opening: string, text: string, n: nat, tail: string, line: string)
    requires n < |text| && text[n] == '\n' && '\n' !in text[..n] && opening <= Chomp(text[..n])
    requires text[n + 1..] == tail + "'" && Escaped(tail)
    requires line in SplitLines(text)
    ensures opening <= line || Harmless(line, |tail|)
  {
    SplitAtBreak(text, n);
    LineOfTwo(text, Chomp(text[..n]), tail + "'", line);
    if line != Chomp(text[..n]) {
      TailLines(tail, line);
    }
  }

  lemma OpeningLine(key: string, escaped: string, i: nat)
    requires '\n' !in key && i <= |escaped| && '\n' !in escaped[..i]
    ensures '\n' !in key + "='" + escaped[..i] && key + "='" <= Chomp(key + "='" + escaped[..i])
  {
    OpeningHasNoBreak(key, escaped, i);
    ChompKeepsPrefix(key + "='", escaped[..i]);
  }

  /** The printed form of a value with line feeds: an opening line, then lines that are harmless. */
  lemma ManyLines(key: string, escaped: string, text: string, line: string)
    requires '\n' !in key && '\n' in escaped && Escaped(escaped)
    requires text == key + "=" + ("'" + escaped + "'") && line in SplitLines(text)
    ensures key + "='" <= line || Harmless(line, |escaped| - 1)
  {
    BreakIn(escaped);
    ManyLinesFrom(key, escaped, IndexOf(escaped, '\n'), text, line);
  }

  /** A quoted line, cut at position `i` of the escaped text. */
  lemma QuotedOpening(key: string, escaped: string, i: nat, text: string)
    requires '\n' !in key && i < |escaped| && '\n' !in escaped[..i]
    requires text == key + "=" + ("'" + escaped + "'")
    ensures
      var n := |key| + 2 + i;
      && n < |text| && text[n] == escaped[i]
      && '\n' !in text[..n] && key + "='" <= Chomp(text[..n])
      && text[n + 1..] == escaped[i + 1..] + "'"
  {
    QuotedParts(key, escaped, i);
    OpeningLine(key, escaped, i);
  }

  lemma ManyLinesFrom(key: string, escaped: string, i: nat, text: string, line: string)
    requires '\n' !in key && Escaped(escaped) && i < |escaped| && escaped[i] == '\n' && '\n' !in escaped[..i]
    requires text == key + "=" + ("'" + escaped + "'") && line in SplitLines(text)
    ensures key + "='" <= line || Harmless(line, |escaped| - 1)
  {
    QuotedOpening(key, escaped, i, text);
    EscapedTail(escaped, i);
    ManyLinesAt(key + "='", text, |key| + 2 + i, escaped[i + 1..], line);
  }

  lemma PrintedQuoted(variable: Variable)
    requires !OneLine(variable.value)
    ensures LineOf(variable) == variable.key + "=" + ("'" + Escape(variable.value) + "'")
    ensures '\n' in Escape(variable.value) && Escaped(Escape(variable.value))
  {
    EscapeKeeps(variable.value, '\n');
    EscapeEscaped(variable.value);
    assert !RawChar('\n');
  }

  lemma OneLineStays(variable: Variable, line: string)
    requires WellFormedKey(variable.key) && OneLine(variable.value) && line in SplitLines(LineOf(variable))
    ensures line == LineOf(variable)
  {
    LineIsProper(variable);
  }

  lemma ManyLinesFromLonger(variable: Variable, line: string, json: JsonParser, found: Variable)
    requires JsonLaws(json) && WellFormedKey(variable.key) && line in SplitLines(LineOf(variable))
    requires '\n' !in line && Yields(line, json, found) && !OneLine(found.value) && !OneLine(variable.value)
    ensures |Escape(found.value)| < |Escape(variable.value)|
  {
    PrintedQuoted(variable);
    ManyLines(variable.key, Escape(variable.value), LineOf(variable), line);
    if variable.key + "='" <= line {
      OpeningLineIsOneLine(variable.key, line, json, found);
    } else if line != "" && line[|line| - 1] == '\'' {
      ClosedLineIsOneLine(line, json, found);
    } else {
      EscapedLineIsLonger(line, json, found);
    }
  }

  /** A line of a printed variable that yields a value with line feeds belongs to a longer value with line feeds. */
  lemma YieldsFromLonger(variable: Variable, line: string, json: JsonParser, found: Variable)
    requires JsonLaws(json) && WellFormedKey(variable.key) && line in SplitLines(LineOf(variable))
    requires Yields(line, json, found) && !OneLine(found.value)
    ensures !OneLine(variable.value) && |Escape(found.value)| < |Escape(variable.value)|
  {
    SplitHasNoBreaks(LineOf(variable));
    if OneLine(variable.value) {
      OneLineStays(variable, line);
      LineParses(variable, json);
    } else {
      ManyLinesFromLonger(variable, line, json, found);
    }
  }

  // ----- the lines of the file -----

  lemma NoBreak(text: string)
    requires '\n' !in text
    ensures SplitLines(text) == [text]
  {
  }

  lemma Regroup(head: seq<string>, mid: seq<string>, last: seq<string>)
    ensures head + (mid + last) == (head + mid) + last
  {
  }

  /** Two texts that share their first line: what holds of the rest holds of the whole. */
  lemma SplitLater(text: string, first: string, i: nat, rest: string, mid: string, last: string)
    requires i < |first| && i < |text| && first[i] == text[i] == '\n' && first[..i] == text[..i] && '\n' !in text[..i]
    requires text[i + 1..] == rest && first[i + 1..] == mid
    requires SplitLines(rest) == SplitLines(mid) + SplitLines(last)
    ensures SplitLines(text) == SplitLines(first) + SplitLines(last)
  {
    SplitAtBreak(text, i);
    SplitAtBreak(first, i);
    Regroup([Chomp(text[..i])], SplitLines(mid), SplitLines(last));
  }

  lemma {:induction false} SplitBoth(text: string, m: nat)
    requires m < |text| && text[m] == '\n' && (m == 0 || text[m - 1] != '\r')
    ensures SplitLines(text) == SplitLines(text[..m]) + SplitLines(text[m + 1..])
    decreases m
  {
    var first := text[..m];
    if '\n' !in first {
      SplitAtBreak(text, m);
      NoBreak(first);
    } else {
      var i := IndexOf(first, '\n');
      BreakIn(first);
      var rest, n := text[i + 1..], m - i - 1;
      assert text[..i] == first[..i] && rest[..n] == first[i + 1..] && rest[n + 1..] == text[m + 1..];
      SplitBoth(rest, n);
      SplitLater(text, first, i, rest, first[i + 1..], text[m + 1..]);
    }
  }

  lemma SplitAppend(a: string, b: string)
    requires a != "" && a[|a| - 1] != '\r'
    ensures SplitLines(a + "\n" + b) == SplitLines(a) + SplitLines(b)
  {
    var text := a + "\n" + b;
    assert text[..|a|] == a && text[|a| + 1..] == b;
    SplitBoth(text, |a|);
  }

  lemma LineEnd(variable: Variable)
    ensures LineOf(variable) != "" && LineOf(variable)[|LineOf(variable)| - 1] != '\r'
  {
    var encoded := EncodeValue(variable.value);
    if encoded != "" {
      assert LineOf(variable)[|LineOf(variable)| - 1] == encoded[|encoded| - 1];
      if Raw(variable.value) {
        assert RawChar(encoded[|encoded| - 1]);
      }
    }
  }

  lemma SerializeNext(variables: seq<Variable>)
    requires variables != []
    ensures Serialize(variables) ==
            LineOf(variables[0]) + "\n" + if |variables| == 1 then "" else Serialize(variables[1..])
  {
    var lines := LinesOf(variables);
    assert LinesOf(variables[1..]) == lines[1..];
    if |variables| > 1 {
      JoinNext(lines);
    }
  }

  /** Every line of the printed file that is not empty is a line of one of its variables. */
  lemma {:induction false} SerializedLines(variables: seq<Variable>, line: string)
    requires line in SplitLines(Serialize(variables)) && line != ""
    ensures exists variable :: variable in variables && line in SplitLines(LineOf(variable))
  {
    if variables == [] {
      SplitEmpty();
    } else {
      var rest := if |variables| == 1 then "" else Serialize(variables[1..]);
      LineEnd(variables[0]);
      SerializeNext(variables);
      SplitAppend(LineOf(variables[0]), rest);
      NoBreak("");
      if line in SplitLines(rest) {
        SerializedLines(variables[1..], line);
      }
    }
  }

  lemma {:induction false} ParsedFromLine(lines: seq<string>, json: JsonParser, key: string)
    requires ParseLines(lines, json).Ok? && key in ParseLines(lines, json).value
    ensures exists line :: line in lines && Yields(line, json, Variable(key, ParseLines(lines, json).value[key]))
  {
    var init, last := lines[..|lines| - 1], lines[|lines| - 1];
    var before := ParseLines(init, json).value;
    if ParseLine(last, json).value.Some? && ParseLine(last, json).value.value.key == key && key != "__proto__" {
      assert last in lines && Yields(last, json, Variable(key, ParseLines(lines, json).value[key]));
    } else {
      ParsedFromLine(init, json, key);
      var line :| line in init && Yields(line, json, Variable(key, before[key]));
      assert line in lines;
    }
  }

  // ----- survival -----

  ghost predicate Survives(variables: seq<Variable>, json: JsonParser) {
    Parse(Serialize(variables), json) == Ok(RecordOf(variables))
  }

  /** A record names each key once. */
  ghost predicate DistinctKeys(variables: seq<Variable>) {
    forall i, j :: 0 <= i < j < |variables| ==> variables[i].key != variables[j].key
  }

  lemma {:induction false} RecordValues(variables: seq<Variable>)
    requires DistinctKeys(variables)
    ensures forall variable :: variable in variables ==>
              variable.key in RecordOf(variables) && RecordOf(variables)[variable.key] == variable.value
  {
    if variables != [] {
      var init, last := variables[..|variables| - 1], variables[|variables| - 1];
      assert variables == init + [last];
      RecordValues(init);
      forall variable | variable in init ensures variable.key != last.key {
        var i :| 0 <= i < |init| && init[i] == variable;
        assert variables[i] == variable;
      }
    }
  }

  lemma SurvivingKeys(variables: seq<Variable>, json: JsonParser)
    requires Survives(variables, json)
    ensures WellFormed(variables)
  {
    SplitHasNoBreaks(Serialize(variables));
    ParsedKeysAreWellFormed(SplitLines(Serialize(variables)), json);
    RecordKeys(variables);
  }

  /** If a value with line feeds survived, then a longer one would too. */
  lemma SurvivesByLonger(variables: seq<Variable>, json: JsonParser, variable: Variable)
    requires JsonLaws(json) && DistinctKeys(variables) && Survives(variables, json) && variable in variables
    ensures !OneLine(variable.value) ==>
              exists longer ::
                longer in variables && !OneLine(longer.value) && |Escape(variable.value)| < |Escape(longer.value)|
  {
    if !OneLine(variable.value) {
      SurvivingKeys(variables, json);
      RecordValues(variables);
      ParsedFromLine(SplitLines(Serialize(variables)), json, variable.key);
      var line :| line in SplitLines(Serialize(variables)) && Yields(line, json, variable);
      SerializedLines(variables, line);
      var longer :| longer in variables && line in SplitLines(LineOf(longer));
      YieldsFromLonger(longer, line, json, variable);
    }
  }

  function Longest(variables: seq<Variable>): nat {
    if variables == [] then 0
    else
      var before, last := Longest(variables[..|variables| - 1]), |Escape(variables[|variables| - 1].value)|;
      if before < last then last else before
  }

  lemma {:induction false} LongestBounds(variables: seq<Variable>)
    ensures forall variable :: variable in variables ==> |Escape(variable.value)| <= Longest(variables)
  {
    if variables != [] {
      var init, last := variables[..|variables| - 1], variables[|variables| - 1];
      assert variables == init + [last];
      LongestBounds(init);
    }
  }

  /** Descent from the longest value. */
  lemma {:induction false} NearLongest(variables: seq<Variable>, json: JsonParser, distance: nat)
    requires JsonLaws(json) && DistinctKeys(variables) && Survives(variables, json)
    ensures forall variable :: variable in variables && Longest(variables) - |Escape(variable.value)| < distance ==>
              OneLine(variable.value)
  {
    LongestBounds(variables);
    if distance > 0 {
      NearLongest(variables, json, distance - 1);
      forall variable | variable in variables && Longest(variables) - |Escape(variable.value)| < distance
        ensures OneLine(variable.value)
      {
        SurvivesByLonger(variables, json, variable);
      }
    }
  }

  /** A record survives printing and parsing exactly when its keys are well formed and its values are single lines. */
  lemma RecordSurvivesExactly(variables: seq<Variable>, json: JsonParser)
    requires DistinctKeys(variables) && JsonLaws(json)
    ensures Parse(Serialize(variables), json) == Ok(RecordOf(variables)) <==>
              WellFormed(variables) && OneLiners(variables)
  {
    if WellFormed(variables) && OneLiners(variables) {
      RoundTrip(variables, json);
    }
    if Survives(variables, json) {
      SurvivingKeys(variables, json);
      NearLongest(variables, json, Longest(variables) + 1);
    }
  }
}
