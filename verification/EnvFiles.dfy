/** What an env file says, without the scans of the reader: its lines, their assignments, and the last one of a key. */
module EnvFiles {
  import opened Wrappers
  import opened Text
  import opened RuntimeConfig
  import Sync = RuntimeSync

  // ---- Lines ----

  /** A line boundary; a carriage return before a line feed is only part of one. */
  predicate Boundary(end: string, rest: string) {
    end == "\r\n" || (|end| == 1 && IsBreak(end[0]) && (end == "\r" ==> !("\n" <= rest)))
  }

  /** A text is a line, its boundary and the rest. */
  predicate Cut(text: string, line: string, end: string, rest: string) {
    OneLine(line) && Boundary(end, rest) && text == line + (end + rest)
  }

  /** A text is nothing, one line that is not empty, or a line, a boundary and the rest. */
  ghost predicate SplitsInto(text: string, lines: seq<string>)
    decreases |lines|
  {
    if lines == [] then text == ""
    else
      || (|lines| == 1 && text == lines[0] && OneLine(text) && text != "")
      || exists end, rest :: Cut(text, lines[0], end, rest) && SplitsInto(rest, lines[1..])
  }

  lemma {:induction false} BoundaryEnds(end: string, rest: string)
    requires Boundary(end, rest)
    ensures IsBreak((end + rest)[0]) && |end| == if "\r\n" <= end + rest then 2 else 1
  {
    var after := end + rest;
    assert after[0] == end[0] && (|end| == 1 && rest != "" ==> after[1] == rest[0]);
  }

  lemma {:induction false} LineEnds(line: string, end: string, rest: string)
    requires OneLine(line) && Boundary(end, rest)
    ensures Lines(line + (end + rest)) == [line] + Lines(rest)
  {
    var text, after := line + (end + rest), end + rest;
    LineStops(line, after);
    BoundaryEnds(end, rest);
    assert text[..|line|] == line && text[|line|..] == after;
    assert text[|line| + |end|..] == rest;
  }

  lemma {:induction false} OnlyLine(line: string)
    requires OneLine(line) && line != ""
    ensures Lines(line) == [line]
  {
    LineStops(line, "");
    assert line + "" == line;
  }

  lemma {:induction false} CutAt(text: string, n: nat) returns (end: string, rest: string)
    requires n < |text| && OneLine(text[..n]) && IsBreak(text[n])
    ensures Cut(text, text[..n], end, rest) && |rest| < |text|
  {
    var after := text[n..];
    assert text == text[..n] + after && after[0] == text[n];
    end := if "\r\n" <= after then "\r\n" else [after[0]];
    rest := after[|end|..];
    assert end == after[..|end|] && after == end + rest;
    assert end == "\r" && rest != "" ==> rest[0] == after[1];
  }

  lemma {:induction false} LinesSplit(text: string)
    ensures SplitsInto(text, Lines(text))
    decreases |text|
  {
    if text != "" {
      var n := LineLength(text);
      if n < |text| {
        var end, rest := CutAt(text, n);
        LineEnds(text[..n], end, rest);
        LinesSplit(rest);
        assert Lines(text)[0] == text[..n] && Lines(text)[1..] == Lines(rest);
        assert Cut(text, Lines(text)[0], end, rest);
      } else {
        assert text[..n] == text;
      }
    }
  }

  lemma {:induction false} CutOnce(text: string, lines: seq<string>, end: string, rest: string)
    requires lines != [] && Cut(text, lines[0], end, rest) && Lines(rest) == lines[1..]
    ensures Lines(text) == lines
  {
    LineEnds(lines[0], end, rest);
    assert lines == [lines[0]] + lines[1..];
  }

  lemma {:induction false} SplitsOnce(text: string, lines: seq<string>)
    requires SplitsInto(text, lines)
    ensures Lines(text) == lines
    decreases |lines|
  {
    if lines != [] {
      if end, rest :| Cut(text, lines[0], end, rest) && SplitsInto(rest, lines[1..]) {
        SplitsOnce(rest, lines[1..]);
        CutOnce(text, lines, end, rest);
      } else {
        OnlyLine(text);
      }
    }
  }

  /** The lines of a text are the one way to split it at its boundaries. */
  lemma {:induction false} LinesIs(text: string, lines: seq<string>)
    ensures Lines(text) == lines <==> SplitsInto(text, lines)
  {
    LinesSplit(text);
    if SplitsInto(text, lines) {
      SplitsOnce(text, lines);
    }
  }

  // ---- Values ----

  predicate OccursNowhere(s: string, a: char, b: char) {
    forall i | 0 <= i < |s| - 1 :: !(s[i] == a && s[i + 1] == b)
  }

  /** A text up to its first pair, and after it. */
  predicate Around(s: string, x: string, a: char, b: char, y: string) {
    s == x + ([a, b] + y) && OccursNowhere(x + [a], a, b)
  }

  /** Each pair, from the left and without overlaps, has become the replacement. */
  ghost predicate Replaced(s: string, a: char, b: char, replacement: string, t: string)
    decreases |s|
  {
    || (OccursNowhere(s, a, b) && t == s)
    || exists x, y, z: string ::
         Around(s, x, a, b, y) && |y| < |s| && t == x + (replacement + z) && Replaced(y, a, b, replacement, z)
  }

  lemma {:induction false} ReplaceNothing(s: string, a: char, b: char, replacement: string)
    requires OccursNowhere(s, a, b)
    ensures ReplaceTwo(s, a, b, replacement) == s
  {
    if s != "" {
      var rest := s[1..];
      forall i | 0 <= i < |rest| - 1 ensures !(rest[i] == a && rest[i + 1] == b) {
        assert rest[i] == s[i + 1] && rest[i + 1] == s[i + 2];
      }
      ReplaceNothing(rest, a, b, replacement);
    }
  }

  lemma {:induction false} ReplaceFirst(x: string, a: char, b: char, replacement: string, y: string)
    requires OccursNowhere(x + [a], a, b)
    ensures ReplaceTwo(x + ([a, b] + y), a, b, replacement) == x + (replacement + ReplaceTwo(y, a, b, replacement))
  {
    var s := x + ([a, b] + y);
    if x == "" {
      assert s[0] == a && s[1] == b && s[2..] == y;
    } else {
      var rest := x[1..];
      forall i | 0 <= i < |rest + [a]| - 1 ensures !((rest + [a])[i] == a && (rest + [a])[i + 1] == b) {
        assert (rest + [a])[i] == (x + [a])[i + 1] && (rest + [a])[i + 1] == (x + [a])[i + 2];
      }
      ReplaceFirst(rest, a, b, replacement, y);
      assert s[1..] == rest + ([a, b] + y);
      assert s[0] == (x + [a])[0] && s[1] == (x + [a])[1];
      assert x == [x[0]] + rest;
    }
  }

  lemma {:induction false} FirstPair(s: string, a: char, b: char) returns (i: nat)
    requires !OccursNowhere(s, a, b)
    ensures i + 1 < |s| && s[i] == a && s[i + 1] == b && OccursNowhere(s[..i] + [a], a, b)
  {
    if s[0] == a && s[1] == b {
      i := 0;
    } else {
      var rest := s[1..];
      var k :| 0 <= k < |s| - 1 && s[k] == a && s[k + 1] == b;
      assert rest[k - 1] == a && rest[k] == b;
      i := FirstPair(rest, a, b);
      var x, before := s[..i + 1] + [a], rest[..i] + [a];
      forall j | 0 <= j < |x| - 1 ensures !(x[j] == a && x[j + 1] == b) {
        if j > 0 {
          assert x[j] == before[j - 1] && x[j + 1] == before[j];
        } else {
          assert x[0] == s[0] && x[1] == s[1];
        }
      }
      i := i + 1;
    }
  }

  lemma {:induction false} ReplaceReplaces(s: string, a: char, b: char, replacement: string)
    ensures Replaced(s, a, b, replacement, ReplaceTwo(s, a, b, replacement))
    decreases |s|
  {
    if OccursNowhere(s, a, b) {
      ReplaceNothing(s, a, b, replacement);
    } else {
      var i := FirstPair(s, a, b);
      var x, y := s[..i], s[i + 2..];
      assert Around(s, x, a, b, y);
      ReplaceFirst(x, a, b, replacement, y);
      ReplaceReplaces(y, a, b, replacement);
    }
  }

  lemma {:induction false} ReplacedOnce(s: string, a: char, b: char, replacement: string, t: string)
    requires Replaced(s, a, b, replacement, t)
    ensures ReplaceTwo(s, a, b, replacement) == t
    decreases |s|
  {
    if x, y, z: string :|
      Around(s, x, a, b, y) && |y| < |s| && t == x + (replacement + z) && Replaced(y, a, b, replacement, z)
    {
      ReplaceFirst(x, a, b, replacement, y);
      ReplacedOnce(y, a, b, replacement, z);
    } else {
      ReplaceNothing(s, a, b, replacement);
    }
  }

  lemma {:induction false} ReplaceTwoIs(s: string, a: char, b: char, replacement: string, t: string)
    ensures ReplaceTwo(s, a, b, replacement) == t <==> Replaced(s, a, b, replacement, t)
  {
    ReplaceReplaces(s, a, b, replacement);
    if Replaced(s, a, b, replacement, t) {
      ReplacedOnce(s, a, b, replacement, t);
    }
  }

  predicate Wrapped(w: string, quote: char) {
    |w| >= 2 && w[0] == quote && w[|w| - 1] == quote
  }

  /** A value as written: plain, in single quotes, or in double quotes with first quotes and then backslashes freed. */
  ghost predicate StandsFor(w: string, value: string) {
    if Wrapped(w, '\'') then w == ['\''] + value + ['\'']
    else if Wrapped(w, '"') then
      exists inner: string, half: string ::
        && w == ['"'] + inner + ['"']
        && Replaced(inner, '\\', '"', "\"", half) && Replaced(half, '\\', '\\', "\\", value)
    else value == w
  }

  lemma {:induction false} UnquoteIs(w: string, value: string)
    ensures Unquote(w) == value <==> StandsFor(w, value)
  {
    if Wrapped(w, '\'') || Wrapped(w, '"') {
      var inner := w[1..|w| - 1];
      assert w == [w[0]] + inner + [w[0]];
      var half := ReplaceTwo(inner, '\\', '"', "\"");
      ReplaceTwoIs(inner, '\\', '"', "\"", half);
      ReplaceTwoIs(half, '\\', '\\', "\\", value);
      if Wrapped(w, '"') && StandsFor(w, value) {
        var inner', half' :|
          && w == ['"'] + inner' + ['"']
          && Replaced(inner', '\\', '"', "\"", half') && Replaced(half', '\\', '\\', "\\", value);
        assert inner' == inner;
        ReplaceTwoIs(inner, '\\', '"', "\"", half');
      }
    }
  }

  // ---- Assignments ----

  /** A line without its outer blanks and its `export`; a blank line or a comment has none. */
  ghost predicate HasBody(line: string, body: string) {
    exists s: string ::
      && Trimmed(IsSpace, line, s) && s != "" && s[0] != '#'
      && if "export " <= s then Trimmed(IsSpace, s[7..], body) else body == s
  }

  ghost predicate NamesBy(body: string, a: string, b: string, w: string, key: string, value: string) {
    && body == a + (['='] + b) && '=' !in a
    && Trimmed(IsSpace, a, key) && key != "" && Trimmed(IsSpace, b, w) && StandsFor(w, value)
  }

  /** A body is a key, the first equals sign and a value, blanks around them aside. */
  ghost predicate Names(body: string, key: string, value: string) {
    exists a, b, w :: NamesBy(body, a, b, w, key, value)
  }

  ghost predicate Assigns(line: string, key: string, value: string) {
    exists body: string :: HasBody(line, body) && Names(body, key, value)
  }

  lemma TrimIs(s: string, t: string)
    ensures Strip(s) == t <==> Trimmed(IsSpace, s, t)
  {
    StripIs(s);
    if Trimmed(IsSpace, s, t) {
      TrimmedOnce(IsSpace, s, t, Strip(s));
    }
  }

  lemma {:induction false} BodyIs(line: string, body: string)
    ensures HasBody(line, body) <==>
      Strip(line) != "" && Strip(line)[0] != '#' && Body(Strip(line)) == body
  {
    TrimIs(line, Strip(line));
    if "export " <= Strip(line) {
      TrimIs(Strip(line)[7..], body);
    }
    if HasBody(line, body) {
      var s: string :|
        && Trimmed(IsSpace, line, s) && s != "" && s[0] != '#'
        && if "export " <= s then Trimmed(IsSpace, s[7..], body) else body == s;
      TrimIs(line, s);
    }
  }

  lemma {:induction false} PartsName(body: string, a: string, b: string, w: string, key: string, value: string)
    requires NamesBy(body, a, b, w, key, value)
    ensures ParseBody(body) == Some(Assignment(key, value))
  {
    Sync.IndexOfFirst(a, '=', b);
    assert body == a + ['='] + b && body[..|a|] == a && body[|a| + 1..] == b;
    TrimIs(a, key);
    TrimIs(b, w);
    UnquoteIs(w, value);
  }

  lemma {:induction false} Rejoined(s: string, n: nat, c: char)
    requires n < |s| && s[n] == c
    ensures s == s[..n] + ([c] + s[n + 1..])
  {
  }

  lemma {:induction false} PartsAt(body: string, n: nat, key: string, value: string)
    requires n < |body| && body[n] == '=' && '=' !in body[..n]
    requires Strip(body[..n]) == key && key != "" && Unquote(Strip(body[n + 1..])) == value
    ensures Names(body, key, value)
  {
    var a, b := body[..n], body[n + 1..];
    Rejoined(body, n, '=');
    TrimIs(a, key);
    TrimIs(b, Strip(b));
    UnquoteIs(Strip(b), value);
    assert NamesBy(body, a, b, Strip(b), key, value);
  }

  lemma {:induction false} ParsedNames(body: string, key: string, value: string)
    requires ParseBody(body) == Some(Assignment(key, value))
    ensures Names(body, key, value)
  {
    var n := IndexOf(body, '=');
    assert Strip(body[..n]) == key && Unquote(Strip(body[n + 1..])) == value;
    PartsAt(body, n, key, value);
  }

  lemma {:induction false} NamesIs(body: string, key: string, value: string)
    ensures ParseBody(body) == Some(Assignment(key, value)) <==> Names(body, key, value)
  {
    if ParseBody(body) == Some(Assignment(key, value)) {
      ParsedNames(body, key, value);
    }
    if a, b, w :| NamesBy(body, a, b, w, key, value) {
      PartsName(body, a, b, w, key, value);
    }
  }

  /** What a line assigns. */
  lemma {:induction false} LineAssigns(line: string, key: string, value: string)
    ensures ParseLine(line) == Some(Assignment(key, value)) <==> Assigns(line, key, value)
  {
    BodyIs(line, Body(Strip(line)));
    NamesIs(Body(Strip(line)), key, value);
    if Assigns(line, key, value) {
      var body: string :| HasBody(line, body) && Names(body, key, value);
      BodyIs(line, body);
    }
  }

  // ---- Files ----

  predicate Reads(parse: Parser, line: string, key: string) {
    parse(line).Some? && parse(line).value.key == key
  }

  predicate ReadLast(parse: Parser, lines: seq<string>, i: nat, key: string, value: string) {
    && i < |lines| && parse(lines[i]) == Some(Assignment(key, value))
    && forall j | i < j < |lines| :: !Reads(parse, lines[j], key)
  }

  lemma {:induction false} ReadStays(parse: Parser, before: seq<string>, line: string, key: string, value: string)
    requires !Reads(parse, line, key)
    ensures (exists i :: ReadLast(parse, before + [line], i, key, value)) <==>
      exists i :: ReadLast(parse, before, i, key, value)
  {
    var lines := before + [line];
    if i: nat :| ReadLast(parse, lines, i, key, value) {
      assert lines[i] != line && forall j | i < j < |before| :: before[j] == lines[j];
      assert ReadLast(parse, before, i, key, value);
    }
    if i: nat :| ReadLast(parse, before, i, key, value) {
      assert ReadLast(parse, lines, i, key, value);
    }
  }

  lemma {:induction false} ReadHere(parse: Parser, before: seq<string>, line: string, key: string, value: string)
    requires Reads(parse, line, key)
    ensures (exists i :: ReadLast(parse, before + [line], i, key, value)) <==> parse(line).value.value == value
  {
    var lines := before + [line];
    assert lines[|before|] == line;
    if parse(line).value.value == value {
      assert ReadLast(parse, lines, |before|, key, value);
    }
  }

  lemma {:induction false} ValuesAre(parse: Parser, lines: seq<string>, key: string, value: string)
    ensures (key in ValuesOf(parse, lines) && ValuesOf(parse, lines)[key] == value) <==>
      exists i :: ReadLast(parse, lines, i, key, value)
  {
    if lines != [] {
      var before, line := lines[..|lines| - 1], lines[|lines| - 1];
      assert lines == before + [line];
      ValuesAre(parse, before, key, value);
      if Reads(parse, line, key) {
        ReadHere(parse, before, line, key, value);
      } else {
        ReadStays(parse, before, line, key, value);
      }
    }
  }

  ghost predicate AssignsKey(line: string, key: string) {
    exists value :: Assigns(line, key, value)
  }

  /** The last line of a file that assigns a key. */
  ghost predicate AssignedLast(lines: seq<string>, i: nat, key: string, value: string) {
    && i < |lines| && Assigns(lines[i], key, value)
    && forall j | i < j < |lines| :: !AssignsKey(lines[j], key)
  }

  lemma {:induction false} KeyAssigned(line: string, key: string)
    ensures Reads(ParseLine, line, key) <==> AssignsKey(line, key)
  {
    if Reads(ParseLine, line, key) {
      LineAssigns(line, key, ParseLine(line).value.value);
    }
    if value :| Assigns(line, key, value) {
      LineAssigns(line, key, value);
    }
  }

  lemma {:induction false} AssignedIsRead(lines: seq<string>, i: nat, key: string, value: string)
    ensures AssignedLast(lines, i, key, value) <==> ReadLast(ParseLine, lines, i, key, value)
  {
    if i < |lines| {
      LineAssigns(lines[i], key, value);
    }
    forall j | i < j < |lines| ensures Reads(ParseLine, lines[j], key) <==> AssignsKey(lines[j], key) {
      KeyAssigned(lines[j], key);
    }
  }

  /** A file gives a key the value of the last of its lines that assigns the key. */
  lemma FileGives(text: string, lines: seq<string>, key: string, value: string)
    requires SplitsInto(text, lines)
    ensures (key in Parse(text) && Parse(text)[key] == value) <==> exists i :: AssignedLast(lines, i, key, value)
  {
    LinesIs(text, lines);
    ValuesAre(ParseLine, lines, key, value);
    forall i: nat ensures AssignedLast(lines, i, key, value) <==> ReadLast(ParseLine, lines, i, key, value) {
      AssignedIsRead(lines, i, key, value);
    }
  }

  // ---- A sync touches no other line ----

  lemma {:induction false} RewrittenAt(job: Job, lines: seq<string>, i: nat)
    requires i < |lines|
    ensures |RewriteAll(job, lines)| == |lines| && RewriteAll(job, lines)[i] == Rewrite(job, lines[i])
    decreases |lines|
  {
    var before := lines[..|lines| - 1];
    if before != [] {
      RewrittenAt(job, before, if i < |before| then i else 0);
    }
  }

  lemma {:induction false} SyncedAt(job: Job, updates: seq<Update>, lines: seq<string>, i: nat)
    requires i < |lines|
    ensures i < |SyncedLines(job, updates, lines)| && SyncedLines(job, updates, lines)[i] == Rewrite(job, lines[i])
  {
    RewrittenAt(job, lines, i);
  }

  /** A line that assigns a key is the key's, and a home that a line assigns is not taken. */
  lemma {:induction false} LineOf(updates: seq<Update>, text: string, i: nat, key: string)
    requires Sync.GoodUpdates(updates) && i < |Lines(text)| && key in UpdateMap(updates)
    ensures AssignsKey(Lines(text)[i], key) <==> SyncKey(Lines(text)[i]) == Some(key)
    ensures AssignsKey(Lines(text)[i], key) ==> (key in Sync.Applied(updates, text) <==> key !in HOMES)
  {
    var line := Lines(text)[i];
    Sync.GoodValues(updates, key);
    Sync.SameKey(line, key);
    KeyAssigned(line, key);
    if Reads(ParseLine, line, key) {
      ReadKeyIsThere(ParseLine, Lines(text), i, key);
    }
  }

  lemma {:induction false} ReadKeyIsThere(parse: Parser, lines: seq<string>, i: nat, key: string)
    requires i < |lines| && Reads(parse, lines[i], key)
    ensures key in ValuesOf(parse, lines)
    decreases |lines|
  {
    if i < |lines| - 1 {
      ReadKeyIsThere(parse, lines[..|lines| - 1], i, key);
    }
  }

  /** A sync writes each line that assigns a key it takes anew, and leaves every other line as it is and where it is. */
  lemma {:induction false} SyncKeepsLines(updates: seq<Update>, text: string, i: nat)
    requires Sync.GoodUpdates(updates) && Sync.Writable(updates, text) && i < |Lines(text)|
    ensures i < |Lines(Synced(updates, text))|
    ensures var line, taken := Lines(Synced(updates, text))[i], Sync.Applied(updates, text);
            && (forall k | k in taken && AssignsKey(Lines(text)[i], k) :: line == k + "=" + Quote(taken[k]))
            && ((forall k | k in taken :: !AssignsKey(Lines(text)[i], k)) ==> line == Lines(text)[i])
  {
    if updates != [] {
      Sync.SyncedText(updates, text);
      SyncedAt(JobOf(updates), updates, Lines(text), i);
      forall k | k in UpdateMap(updates)
        ensures AssignsKey(Lines(text)[i], k) <==> SyncKey(Lines(text)[i]) == Some(k)
        ensures AssignsKey(Lines(text)[i], k) ==> (k in Sync.Applied(updates, text) <==> k !in HOMES)
      {
        LineOf(updates, text, i, k);
      }
    }
  }

  /** The updates whose key no line of the file assigns, in order. */
  ghost function NewUpdates(updates: seq<Update>, lines: seq<string>): seq<Update> {
    if updates == [] then []
    else
      var last := updates[|updates| - 1];
      NewUpdates(updates[..|updates| - 1], lines)
      + if exists i :: 0 <= i < |lines| && AssignsKey(lines[i], last.key) then [] else [last]
  }

  /** The lines they are written as. */
  function NewLines(updates: seq<Update>): seq<string> {
    if updates == [] then []
    else
      var last := updates[|updates| - 1];
      NewLines(updates[..|updates| - 1]) + [last.key + "=" + Quote(last.value)]
  }

  lemma {:induction false} NewLinesAre(updates: seq<Update>)
    ensures WrittenAll(Written, updates) == NewLines(updates)
  {
    if updates != [] {
      NewLinesAre(updates[..|updates| - 1]);
    }
  }

  lemma {:induction false} FoundAt(job: Job, lines: seq<string>, key: string)
    ensures key in Found(job, lines) <==>
      key in job.values && exists i :: 0 <= i < |lines| && job.keyOf(lines[i]) == Some(key)
  {
    if lines != [] {
      var n := |lines| - 1;
      FoundAt(job, lines[..n], key);
      assert forall i | 0 <= i < n :: lines[..n][i] == lines[i];
      assert (exists i :: 0 <= i < |lines| && job.keyOf(lines[i]) == Some(key)) <==>
        job.keyOf(lines[n]) == Some(key) || exists i :: 0 <= i < n && job.keyOf(lines[i]) == Some(key);
    }
  }

  lemma {:induction false} AssignedIsFound(updates: seq<Update>, text: string, key: string)
    requires Sync.GoodUpdates(updates) && key in UpdateMap(updates)
    ensures key in Found(JobOf(updates), Lines(text)) <==>
      exists i :: 0 <= i < |Lines(text)| && AssignsKey(Lines(text)[i], key)
  {
    FoundAt(JobOf(updates), Lines(text), key);
    forall i: nat | i < |Lines(text)|
      ensures AssignsKey(Lines(text)[i], key) <==> SyncKey(Lines(text)[i]) == Some(key)
    {
      LineOf(updates, text, i, key);
    }
  }

  lemma {:induction false} NewUpdatesAre(some: seq<Update>, found: set<string>, lines: seq<string>)
    requires forall u | u in some ::
      u.key in found <==> exists i :: 0 <= i < |lines| && AssignsKey(lines[i], u.key)
    ensures Remaining(some, found) == NewUpdates(some, lines)
  {
    if some != [] {
      assert some[|some| - 1] in some;
      NewUpdatesAre(some[..|some| - 1], found, lines);
    }
  }

  /** After the lines it has, and a blank one, a file gets a line for each new key, in the order of the updates. */
  lemma {:induction false} SyncAppends(updates: seq<Update>, text: string)
    requires Sync.GoodUpdates(updates) && Sync.Writable(updates, text)
    ensures var lines, after := Lines(text), Lines(Synced(updates, text));
            var added := NewLines(NewUpdates(updates, lines));
            && |lines| <= |after|
            && after[|lines|..] ==
                 if added == [] then []
                 else (if lines != [] && after[|lines| - 1] != "" then [""] else []) + added
  {
    var lines := Lines(text);
    if updates == [] {
      assert Lines(text)[|lines|..] == [];
    } else {
      var job := JobOf(updates);
      Sync.SyncedText(updates, text);
      forall u | u in updates
        ensures u.key in Found(job, lines) <==> exists i :: 0 <= i < |lines| && AssignsKey(lines[i], u.key)
      {
        Sync.UpdateMapIs(updates, u);
        AssignedIsFound(updates, text, u.key);
      }
      NewUpdatesAre(updates, Found(job, lines), lines);
      NewLinesAre(Remaining(updates, Found(job, lines)));
      AppendedAre(job, lines, Remaining(updates, Found(job, lines)));
    }
  }

  lemma {:induction false} AppendedAre(job: Job, lines: seq<string>, remaining: seq<Update>)
    ensures var rewritten := RewriteAll(job, lines);
            var after := Appended(job.write, rewritten, remaining);
            && |rewritten| == |lines| && rewritten <= after
            && after[|lines|..] ==
                 if remaining == [] then []
                 else (if lines != [] && after[|lines| - 1] != "" then [""] else []) + WrittenAll(job.write, remaining)
  {
    if lines != [] {
      RewrittenAt(job, lines, 0);
    }
  }
}
