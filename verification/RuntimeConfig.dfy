/** Reading and updating the runtime env file (engine/open_kritt_engine/runtime_config.py). */
module RuntimeConfig {
  import opened Wrappers
  import opened Text

  // ---- Values ----

  /** `value.replace(c, replacement)` for one character. */
  function ReplaceOne(s: string, c: char, replacement: string): string {
    if s == "" then "" else (if s[0] == c then replacement else [s[0]]) + ReplaceOne(s[1..], c, replacement)
  }

  /** `value.replace(ab, replacement)` for two characters: from the left, without overlaps. */
  function ReplaceTwo(s: string, a: char, b: char, replacement: string): string {
    if s == "" then ""
    else if |s| >= 2 && s[0] == a && s[1] == b then replacement + ReplaceTwo(s[2..], a, b, replacement)
    else [s[0]] + ReplaceTwo(s[1..], a, b, replacement)
  }

  predicate NeedsQuotes(value: string) {
    value == "" || exists c | c in value :: IsSpace(c) || c == '"' || c == '\'' || c == '#'
  }

  function EscapedBody(value: string): string {
    ReplaceOne(ReplaceOne(value, '\\', "\\\\"), '"', "\\\"")
  }

  /** `_quote_env_value`. */
  function Quote(value: string): string {
    if NeedsQuotes(value) then "\"" + EscapedBody(value) + "\"" else value
  }

  /** `_unquote_env_value`. */
  function Unquote(value: string): string {
    var n := |value|;
    if n >= 2 && value[0] == value[n - 1] && (value[0] == '\'' || value[0] == '"') then
      if value[0] == '"' then ReplaceTwo(ReplaceTwo(value[1..n - 1], '\\', '"', "\""), '\\', '\\', "\\")
      else value[1..n - 1]
    else value
  }

  /** Escaping quotes is undone by unescaping them: an escaped text never starts with a bare quote. */
  lemma {:induction false} QuotesBack(s: string)
    ensures ReplaceTwo(ReplaceOne(s, '"', "\\\""), '\\', '"', "\"") == s
    ensures ReplaceOne(s, '"', "\\\"") != "" ==> ReplaceOne(s, '"', "\\\"")[0] != '"'
  {
    if s != "" {
      QuotesBack(s[1..]);
      var rest := ReplaceOne(s[1..], '"', "\\\"");
      var all := ReplaceOne(s, '"', "\\\"");
      if s[0] == '"' {
        assert all == "\\\"" + rest && all[2..] == rest;
      } else {
        assert all == [s[0]] + rest && all[1..] == rest;
      }
    }
  }

  /** Doubling backslashes is undone by halving them. */
  lemma {:induction false} BackslashesBack(s: string)
    ensures ReplaceTwo(ReplaceOne(s, '\\', "\\\\"), '\\', '\\', "\\") == s
  {
    if s != "" {
      BackslashesBack(s[1..]);
      var rest := ReplaceOne(s[1..], '\\', "\\\\");
      var all := ReplaceOne(s, '\\', "\\\\");
      if s[0] == '\\' {
        assert all == "\\\\" + rest && all[2..] == rest;
      } else {
        assert all == [s[0]] + rest && all[1..] == rest;
      }
    }
  }

  /** The two ordered replacements give every value back. */
  lemma UnquoteInvertsQuote(value: string)
    ensures Unquote(Quote(value)) == value
  {
    if NeedsQuotes(value) {
      var body := EscapedBody(value);
      assert Quote(value)[1..|Quote(value)| - 1] == body;
      QuotesBack(ReplaceOne(value, '\\', "\\\\"));
      BackslashesBack(value);
    } else if |value| >= 2 {
      assert value[0] in value;
    }
  }

  // ---- Lines ----

  /** The line boundaries of `str.splitlines`. */
  predicate IsBreak(c: char) {
    var n := c as int;
    0x0A <= n <= 0x0D || 0x1C <= n <= 0x1E || n == 0x85 || n == 0x2028 || n == 0x2029
  }

  predicate OneLine(s: string) {
    forall c | c in s :: !IsBreak(c)
  }

  /** How many characters come before the first boundary. */
  function LineLength(s: string): (n: nat)
    ensures n <= |s| && OneLine(s[..n]) && (n < |s| ==> IsBreak(s[n]))
  {
    if s == "" || IsBreak(s[0]) then 0
    else
      var n := 1 + LineLength(s[1..]);
      assert s[..n] == [s[0]] + s[1..][..n - 1];
      n
  }

  /** `str.splitlines`; a carriage return and a line feed are one boundary. */
  function Lines(s: string): seq<string>
    decreases |s|
  {
    if s == "" then []
    else
      var n := LineLength(s);
      if n == |s| then [s]
      else [s[..n]] + Lines(s[n + (if "\r\n" <= s[n..] then 2 else 1)..])
  }

  /** `"\n".join(lines)`. */
  function Joined(lines: seq<string>): string {
    if lines == [] then "" else if |lines| == 1 then lines[0] else lines[0] + "\n" + Joined(lines[1..])
  }

  predicate AllLines(lines: seq<string>) {
    forall l | l in lines :: OneLine(l)
  }

  lemma {:induction false} LinesAreLines(s: string)
    ensures AllLines(Lines(s))
    decreases |s|
  {
    if s != "" {
      var n := LineLength(s);
      if n < |s| {
        LinesAreLines(s[n + (if "\r\n" <= s[n..] then 2 else 1)..]);
      } else {
        assert s[..n] == s;
      }
    }
  }

  lemma {:induction false} LineStops(line: string, after: string)
    requires OneLine(line) && (after == "" || IsBreak(after[0]))
    ensures LineLength(line + after) == |line|
  {
    if line == "" {
      assert line + after == after;
    } else {
      assert (line + after)[1..] == line[1..] + after;
      LineStops(line[1..], after);
    }
  }

  lemma FirstLine(line: string, rest: string)
    requires OneLine(line)
    ensures Lines(line + ("\n" + rest)) == [line] + Lines(rest)
  {
    var s := line + ("\n" + rest);
    LineStops(line, "\n" + rest);
    assert s[..|line|] == line && s[|line|..] == "\n" + rest && s[|line| + 1..] == rest;
  }

  lemma LastLine(line: string)
    requires OneLine(line)
    ensures Lines(line + "\n") == [line]
  {
    FirstLine(line, "");
    assert line + ("\n" + "") == line + "\n";
  }

  lemma JoinedTail(lines: seq<string>)
    requires |lines| > 1
    ensures Joined(lines) + "\n" == lines[0] + ("\n" + (Joined(lines[1..]) + "\n"))
  {
    Associate(lines[0] + "\n", Joined(lines[1..]), "\n");
    Associate(lines[0], "\n", Joined(lines[1..]) + "\n");
  }

  /** Splitting what was joined and ended gives the lines back. */
  lemma {:induction false} LinesOfJoined(lines: seq<string>)
    requires lines != [] && AllLines(lines)
    ensures Lines(Joined(lines) + "\n") == lines
  {
    assert lines[0] in lines;
    if |lines| == 1 {
      LastLine(lines[0]);
    } else {
      LinesOfJoined(lines[1..]);
      JoinedTail(lines);
      FirstLine(lines[0], Joined(lines[1..]) + "\n");
    }
  }

  // ---- Parsing ----

  function IndexOf(s: string, c: char): (n: nat)
    requires c in s
    ensures n < |s| && s[n] == c && c !in s[..n]
  {
    if s[0] == c then 0
    else
      var n := 1 + IndexOf(s[1..], c);
      assert s[..n] == [s[0]] + s[1..][..n - 1];
      n
  }

  const EXPORT := "export "

  function Body(stripped: string): string {
    if EXPORT <= stripped then Strip(stripped[|EXPORT|..]) else stripped
  }

  function KeyText(body: string): string
    requires '=' in body
  {
    Strip(body[..IndexOf(body, '=')])
  }

  datatype Assignment = Assignment(key: string, value: string)

  function ParseBody(body: string): Option<Assignment> {
    if '=' !in body || KeyText(body) == "" then None
    else Some(Assignment(KeyText(body), Unquote(Strip(body[IndexOf(body, '=') + 1..]))))
  }

  /** What a line assigns, to the reader of the file. */
  function ParseLine(line: string): Option<Assignment> {
    var stripped := Strip(line);
    if stripped == "" || stripped[0] == '#' then None else ParseBody(Body(stripped))
  }

  type Parser = string -> Option<Assignment>

  function Assign(values: map<string, string>, a: Option<Assignment>): map<string, string> {
    if a.None? then values else values[a.value.key := a.value.value]
  }

  /** The values of some lines: a later assignment of a key wins. */
  function ValuesOf(parse: Parser, lines: seq<string>): map<string, string> {
    if lines == [] then map[] else Assign(ValuesOf(parse, lines[..|lines| - 1]), parse(lines[|lines| - 1]))
  }

  function Parse(text: string): map<string, string> {
    ValuesOf(ParseLine, Lines(text))
  }

  /** `parse_env_text`. */
  method ParseEnvText(text: string) returns (values: map<string, string>)
    ensures values == Parse(text)
  {
    values := ParseEnvLines(Lines(text), ParseLine);
  }

  /** The loop of `parse_env_text`. */
  method ParseEnvLines(lines: seq<string>, ghost parse: Parser) returns (values: map<string, string>)
    requires forall line {:trigger ParseLine(line)} :: parse(line) == ParseLine(line)
    ensures values == ValuesOf(parse, lines)
  {
    values := map[];
    for i := 0 to |lines|
      invariant values == ValuesOf(parse, lines[..i])
    {
      assert lines[..i + 1][..i] == lines[..i];
      var a := ReadLine(lines[i], parse);
      if a.Some? {
        values := values[a.value.key := a.value.value];
      }
    }
    assert lines[..|lines|] == lines;
  }

  method ReadLine(line: string, ghost parse: Parser) returns (a: Option<Assignment>)
    requires forall line {:trigger ParseLine(line)} :: parse(line) == ParseLine(line)
    ensures a == parse(line)
  {
    assert parse(line) == ParseLine(line);
    var stripped := Strip(line);
    if stripped == "" || stripped[0] == '#' {
      return None;
    }
    if EXPORT <= stripped {
      stripped := Strip(stripped[|EXPORT|..]);
    }
    a := ReadBody(stripped);
  }

  method ReadBody(body: string) returns (a: Option<Assignment>)
    ensures a == ParseBody(body)
  {
    if '=' !in body {
      return None;
    }
    var n := IndexOf(body, '=');
    var key := Strip(body[..n]);
    if key == "" {
      return None;
    }
    a := Some(Assignment(key, Unquote(Strip(body[n + 1..]))));
  }

  // ---- Updating ----

  /** The key a line assigns, to the writer of the file; it looks for comments after `export`. */
  function SyncKey(line: string): Option<string> {
    var body := Body(Strip(line));
    if '=' !in body || body[0] == '#' then None else Some(KeyText(body))
  }

  datatype Update = Update(key: string, value: string)

  function UpdateMap(updates: seq<Update>): map<string, string> {
    if updates == [] then map[]
    else UpdateMap(updates[..|updates| - 1])[updates[|updates| - 1].key := updates[|updates| - 1].value]
  }

  function Written(key: string, value: string): string {
    key + "=" + Quote(value)
  }

  /** The account homes, which a file keeps once it has them. */
  const HOMES := {"ENGINE_CODEX_HOME", "ENGINE_CLAUDE_HOME", "ENGINE_GROK_HOME"}

  type Writer = (string, string) -> string

  /** What a sync works with: how lines are read and written, the new values, the keys that are kept. */
  datatype Job = Job(
    keyOf: string -> Option<string>, write: Writer, values: map<string, string>, kept: set<string>)

  function Rewrite(job: Job, line: string): string {
    var k := job.keyOf(line);
    if k.Some? && k.value in job.values && k.value !in job.kept then job.write(k.value, job.values[k.value]) else line
  }

  function RewriteAll(job: Job, lines: seq<string>): seq<string> {
    if lines == [] then [] else RewriteAll(job, lines[..|lines| - 1]) + [Rewrite(job, lines[|lines| - 1])]
  }

  function Found(job: Job, lines: seq<string>): set<string> {
    if lines == [] then {}
    else
      var k := job.keyOf(lines[|lines| - 1]);
      Found(job, lines[..|lines| - 1]) + if k.Some? && k.value in job.values then {k.value} else {}
  }

  function Remaining(updates: seq<Update>, found: set<string>): seq<Update> {
    if updates == [] then []
    else
      var last := updates[|updates| - 1];
      Remaining(updates[..|updates| - 1], found) + if last.key in found then [] else [last]
  }

  function WrittenAll(write: Writer, updates: seq<Update>): seq<string> {
    if updates == [] then []
    else
      var last := updates[|updates| - 1];
      WrittenAll(write, updates[..|updates| - 1]) + [write(last.key, last.value)]
  }

  /** New assignments go to the end, after a blank line unless there is one. */
  function Appended(write: Writer, lines: seq<string>, remaining: seq<Update>): seq<string> {
    if remaining == [] then lines
    else (if lines != [] && lines[|lines| - 1] != "" then lines + [""] else lines) + WrittenAll(write, remaining)
  }

  function SyncedLines(job: Job, updates: seq<Update>, lines: seq<string>): seq<string> {
    Appended(job.write, RewriteAll(job, lines), Remaining(updates, Found(job, lines)))
  }

  function JobOf(updates: seq<Update>): Job {
    Job(SyncKey, Written, UpdateMap(updates), HOMES)
  }

  function Synced(updates: seq<Update>, text: string): string {
    if updates == [] then text else Joined(SyncedLines(JobOf(updates), updates, Lines(text))) + "\n"
  }

  /** The line rewriting of `sync_runtime_config_file`, over the text of the file. */
  method SyncRuntimeConfig(updates: seq<Update>, original: string) returns (updated: string)
    ensures updated == Synced(updates, original)
  {
    if updates == [] {
      return original;
    }
    var lines, found := RewriteLines(Lines(original), UpdateMap(updates), JobOf(updates));
    var remaining := Remaining(updates, found);
    if remaining != [] {
      if lines != [] && lines[|lines| - 1] != "" {
        lines := lines + [""];
      }
      lines := lines + WrittenAll(Written, remaining);
    }
    updated := Joined(lines) + "\n";
  }

  /** The loop of `sync_runtime_config_file`: lines are overwritten in place. */
  method RewriteLines(before: seq<string>, values: map<string, string>, ghost job: Job)
    returns (lines: seq<string>, found: set<string>)
    requires job.values == values && job.kept == HOMES && job.write == Written
    requires forall line {:trigger SyncKey(line)} :: job.keyOf(line) == SyncKey(line)
    ensures lines == RewriteAll(job, before) && found == Found(job, before)
  {
    lines, found := before, {};
    for i := 0 to |lines|
      invariant |lines| == |before| && forall k | i <= k < |before| :: lines[k] == before[k]
      invariant lines[..i] == RewriteAll(job, before[..i])
      invariant found == Found(job, before[..i])
    {
      assert before[..i + 1][..i] == before[..i];
      var key := ReadKey(lines[i], job);
      if key.Some? && key.value in values {
        found := found + {key.value};
        if key.value !in HOMES {
          lines := lines[i := key.value + "=" + Quote(values[key.value])];
        }
      }
      assert lines[..i + 1] == lines[..i] + [lines[i]];
    }
    assert lines[..|lines|] == lines && before[..|before|] == before;
  }

  method ReadKey(line: string, ghost job: Job) returns (key: Option<string>)
    requires forall line {:trigger SyncKey(line)} :: job.keyOf(line) == SyncKey(line)
    ensures key == job.keyOf(line)
  {
    assert job.keyOf(line) == SyncKey(line);
    var stripped := Strip(line);
    if EXPORT <= stripped {
      stripped := Strip(stripped[|EXPORT|..]);
    }
    if '=' !in stripped || stripped[0] == '#' {
      return None;
    }
    key := Some(Strip(stripped[..IndexOf(stripped, '=')]));
  }

  // ---- What is written ----

  /** A character inside double quotes: backslashes and quotes get a backslash in front. */
  function EscapedChar(c: char): string {
    if c == '\\' then "\\\\" else if c == '"' then "\\\"" else [c]
  }

  function EscapedChars(value: string): string {
    if value == "" then "" else EscapedChar(value[0]) + EscapedChars(value[1..])
  }

  lemma {:induction false} ReplaceJoined(a: string, b: string, c: char, replacement: string)
    ensures ReplaceOne(a + b, c, replacement) == ReplaceOne(a, c, replacement) + ReplaceOne(b, c, replacement)
    decreases |a|
  {
    if a == "" {
      assert a + b == b;
    } else {
      assert (a + b)[1..] == a[1..] + b;
      ReplaceJoined(a[1..], b, c, replacement);
      Associate(
        if a[0] == c then replacement else [a[0]], ReplaceOne(a[1..], c, replacement), ReplaceOne(b, c, replacement));
    }
  }

  lemma {:induction false} QuotedChar(c: char)
    ensures ReplaceOne(if c == '\\' then "\\\\" else [c], '"', "\\\"") == EscapedChar(c)
  {
    assert [c][1..] == "" && ['\\', '\\'][1..] == ['\\'] && ['\\'][1..] == "";
    assert "\\\\" == ['\\', '\\'];
    assert ReplaceOne("", '"', "\\\"") == "";
  }

  lemma {:induction false} BodyIsEscaped(value: string)
    ensures EscapedBody(value) == EscapedChars(value)
  {
    if value != "" {
      var first := if value[0] == '\\' then "\\\\" else [value[0]];
      var rest := ReplaceOne(value[1..], '\\', "\\\\");
      BodyIsEscaped(value[1..]);
      ReplaceJoined(first, rest, '"', "\\\"");
      QuotedChar(value[0]);
    }
  }

  /** A value is written bare exactly when it is not empty and has no blank, quote or hash; else in double quotes. */
  lemma {:induction false} QuoteIs(value: string)
    ensures var bare := value != "" && forall c | c in value :: !IsSpace(c) && c != '"' && c != '\'' && c != '#';
            Quote(value) == if bare then value else "\"" + EscapedChars(value) + "\""
  {
    BodyIsEscaped(value);
  }
}
