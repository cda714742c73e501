/** Syncing the runtime env file refines updating a map. */
module RuntimeSync {
  import opened Wrappers
  import opened Text
  import opened RuntimeConfig
  import Sorting

  // ---- Values over any parser ----

  /** The keys of the job are those the parser reads, and what the job writes is read back. */
  ghost predicate Agree(job: Job, parse: Parser) {
    && (forall line, k {:trigger job.keyOf(line), k in job.values} | k in job.values ::
          job.keyOf(line) == Some(k) <==> parse(line).Some? && parse(line).value.key == k)
    && (forall k | k in job.values :: parse(job.write(k, job.values[k])) == Some(Assignment(k, job.values[k])))
    && parse("") == None
  }

  /** The values with the update's own in their place, except for the kept keys. */
  function Overridden(values: map<string, string>, job: Job): map<string, string> {
    map k | k in values :: if k in job.values && k !in job.kept then job.values[k] else values[k]
  }

  lemma RewriteAssigns(job: Job, parse: Parser, values: map<string, string>, line: string)
    requires Agree(job, parse)
    ensures Assign(Overridden(values, job), parse(Rewrite(job, line))) == Overridden(Assign(values, parse(line)), job)
  {
    var k, a := job.keyOf(line), parse(line);
    if k.Some? && k.value in job.values {
      assert a.Some? && a.value.key == k.value;
    } else if a.Some? {
      assert a.value.key !in job.values;
    }
  }

  lemma {:induction false} RewriteValues(job: Job, parse: Parser, lines: seq<string>)
    requires Agree(job, parse)
    ensures ValuesOf(parse, RewriteAll(job, lines)) == Overridden(ValuesOf(parse, lines), job)
  {
    if lines != [] {
      var front, last := lines[..|lines| - 1], lines[|lines| - 1];
      RewriteValues(job, parse, front);
      RewriteAssigns(job, parse, ValuesOf(parse, front), last);
      var rewritten := RewriteAll(job, lines);
      assert rewritten[..|rewritten| - 1] == RewriteAll(job, front);
    }
  }

  lemma {:induction false} FoundIs(job: Job, parse: Parser, lines: seq<string>)
    requires Agree(job, parse)
    ensures Found(job, lines) == set k | k in job.values && k in ValuesOf(parse, lines)
  {
    if lines != [] {
      FoundIs(job, parse, lines[..|lines| - 1]);
      var line := lines[|lines| - 1];
      assert forall k | k in job.values :: job.keyOf(line) == Some(k) <==>
        parse(line).Some? && parse(line).value.key == k;
    }
  }

  /** The values of lines with written updates after them, key by key. */
  lemma {:induction false} WrittenValues(parse: Parser, write: Writer, lines: seq<string>, updates: seq<Update>)
    requires forall u | u in updates :: parse(write(u.key, u.value)) == Some(Assignment(u.key, u.value))
    ensures ValuesOf(parse, lines + WrittenAll(write, updates)) == ValuesOf(parse, lines) + UpdateMap(updates)
    decreases |updates|
  {
    if updates == [] {
      assert lines + [] == lines;
    } else {
      var front, last := updates[..|updates| - 1], updates[|updates| - 1];
      var before := WrittenAll(write, front);
      WrittenValues(parse, write, lines, front);
      assert last in updates;
      LastValue(parse, lines + before, write(last.key, last.value));
      PlusUpdate(ValuesOf(parse, lines), UpdateMap(front), last.key, last.value);
      assert lines + (before + [write(last.key, last.value)]) == (lines + before) + [write(last.key, last.value)];
    }
  }

  lemma PlusUpdate(m: map<string, string>, n: map<string, string>, k: string, v: string)
    ensures m + n[k := v] == (m + n)[k := v]
  {
  }

  lemma MinusUpdate(m: map<string, string>, found: set<string>, k: string, v: string)
    ensures m[k := v] - found == if k in found then m - found else (m - found)[k := v]
  {
  }

  lemma LastValue(parse: Parser, lines: seq<string>, line: string)
    ensures ValuesOf(parse, lines + [line]) == Assign(ValuesOf(parse, lines), parse(line))
  {
    assert (lines + [line])[..|lines|] == lines;
  }

  lemma BlankLineAddsNothing(parse: Parser, lines: seq<string>)
    requires parse("") == None
    ensures ValuesOf(parse, lines + [""]) == ValuesOf(parse, lines)
  {
    assert (lines + [""])[..|lines|] == lines;
  }

  lemma {:induction false} RemainingMember(updates: seq<Update>, found: set<string>, u: Update)
    ensures u in Remaining(updates, found) <==> u in updates && u.key !in found
  {
    if updates != [] {
      var front, last := updates[..|updates| - 1], updates[|updates| - 1];
      RemainingMember(front, found, u);
      assert updates == front + [last];
    }
  }

  lemma AddedUpdate(updates: seq<Update>, u: Update)
    ensures UpdateMap(updates + [u]) == UpdateMap(updates)[u.key := u.value]
  {
    assert (updates + [u])[..|updates|] == updates;
  }

  lemma {:induction false} RemainingMap(updates: seq<Update>, found: set<string>)
    ensures UpdateMap(Remaining(updates, found)) == UpdateMap(updates) - found
  {
    if updates != [] {
      var front, last := updates[..|updates| - 1], updates[|updates| - 1];
      RemainingMap(front, found);
      MinusUpdate(UpdateMap(front), found, last.key, last.value);
      if last.key !in found {
        AddedUpdate(Remaining(front, found), last);
      } else {
        assert Remaining(front, found) + [] == Remaining(front, found);
      }
    }
  }

  function UpdateKey(u: Update): string {
    u.key
  }

  lemma {:induction false} UpdateMapKeys(updates: seq<Update>, k: string)
    ensures k in UpdateMap(updates) <==> exists u :: u in updates && u.key == k
  {
    if updates != [] {
      var front, last := updates[..|updates| - 1], updates[|updates| - 1];
      UpdateMapKeys(front, k);
      assert updates == front + [last];
    }
  }

  lemma LastDiffers(updates: seq<Update>, u: Update)
    requires Sorting.Distinct(updates, UpdateKey) && updates != [] && u in updates[..|updates| - 1]
    ensures u.key != updates[|updates| - 1].key
  {
    var front := updates[..|updates| - 1];
    var i :| 0 <= i < |front| && front[i] == u;
    assert UpdateKey(updates[i]) != UpdateKey(updates[|updates| - 1]);
  }

  lemma FrontDistinct(updates: seq<Update>)
    requires Sorting.Distinct(updates, UpdateKey) && updates != []
    ensures Sorting.Distinct(updates[..|updates| - 1], UpdateKey)
  {
    assert forall i | 0 <= i < |updates| - 1 :: updates[..|updates| - 1][i] == updates[i];
  }

  lemma {:induction false} UpdateMapIs(updates: seq<Update>, u: Update)
    requires Sorting.Distinct(updates, UpdateKey) && u in updates
    ensures u.key in UpdateMap(updates) && UpdateMap(updates)[u.key] == u.value
  {
    var front, last := updates[..|updates| - 1], updates[|updates| - 1];
    assert updates == front + [last];
    if u in front {
      LastDiffers(updates, u);
      FrontDistinct(updates);
      UpdateMapIs(front, u);
    }
  }

  /** What a sync makes of the values of a file: all updates, except the kept keys the file has. */
  function Updated(values: map<string, string>, job: Job): map<string, string> {
    values + (job.values - (job.kept * values.Keys))
  }

  ghost predicate JobFits(job: Job, updates: seq<Update>) {
    Sorting.Distinct(updates, UpdateKey) && job.values == UpdateMap(updates)
  }

  lemma OverriddenAndAdded(values: map<string, string>, job: Job, found: set<string>)
    requires found == set k | k in job.values && k in values
    ensures Overridden(values, job) + (job.values - found) == Updated(values, job)
  {
  }

  lemma SyncedValues(job: Job, parse: Parser, updates: seq<Update>, lines: seq<string>)
    requires Agree(job, parse) && JobFits(job, updates)
    ensures ValuesOf(parse, SyncedLines(job, updates, lines)) == Updated(ValuesOf(parse, lines), job)
  {
    var values, found := ValuesOf(parse, lines), Found(job, lines);
    RewriteValues(job, parse, lines);
    FoundIs(job, parse, lines);
    OverriddenAndAdded(values, job, found);
    AppendedValues(job, parse, RewriteAll(job, lines), updates, found);
  }

  lemma AppendedValues(job: Job, parse: Parser, lines: seq<string>, updates: seq<Update>, found: set<string>)
    requires Agree(job, parse) && JobFits(job, updates)
    ensures ValuesOf(parse, Appended(job.write, lines, Remaining(updates, found)))
      == ValuesOf(parse, lines) + (job.values - found)
  {
    var remaining := Remaining(updates, found);
    RemainingMap(updates, found);
    forall u | u in remaining ensures parse(job.write(u.key, u.value)) == Some(Assignment(u.key, u.value)) {
      RemainingMember(updates, found, u);
      UpdateMapIs(updates, u);
    }
    BlankLineAddsNothing(parse, lines);
    WrittenValues(parse, job.write, lines, remaining);
    WrittenValues(parse, job.write, lines + [""], remaining);
  }

  // ---- The engine's own parser and writer ----

  /** The keys that are updated: the engine's names have no blanks and no equals sign, and are no comments. */
  predicate CleanKey(k: string) {
    k != "" && k[0] != '#' && '=' !in k && forall c | c in k :: !IsSpace(c)
  }

  /** A text without blanks at its ends. */
  predicate Tight(s: string) {
    s != "" && !IsSpace(s[0]) && !IsSpace(s[|s| - 1])
  }

  lemma TightStays(s: string)
    requires Tight(s)
    ensures Strip(s) == s
  {
    assert StripLeft(s) == s;
  }

  lemma {:induction false} StripFirst(s: string)
    requires s != "" && !IsSpace(s[0])
    ensures Strip(s) != "" && Strip(s)[0] == s[0]
  {
    assert StripLeft(s) == s;
    var r := StripRight(s);
    assert r == s[..|r|];
  }

  lemma QuoteIsTight(value: string)
    ensures Tight(Quote(value))
  {
    if !NeedsQuotes(value) {
      assert value[0] in value && value[|value| - 1] in value;
    }
  }

  lemma {:induction false} IndexOfFirst(before: string, c: char, after: string)
    requires c !in before
    ensures IndexOf(before + [c] + after, c) == |before|
  {
    var s := before + [c] + after;
    if before != "" {
      assert s[1..] == before[1..] + [c] + after && s[0] == before[0];
      IndexOfFirst(before[1..], c, after);
    }
  }

  lemma ExportHasBlank(k: string, rest: string)
    requires EXPORT <= k + "=" + rest
    ensures exists c :: c in k && IsSpace(c)
  {
    var line := k + "=" + rest;
    assert forall i | 0 <= i < |EXPORT| :: line[i] == EXPORT[i] && EXPORT[i] != '=';
    assert line[|k|] == '=';
    assert |EXPORT| == 7 && |k| >= 7;
    assert line[6] == EXPORT[6] == ' ' && line[6] == k[6];
    assert k[6] in k;
  }

  /** A line as the engine writes it, taken apart. */
  lemma WrittenParts(k: string, value: string)
    requires CleanKey(k)
    ensures var line := Written(k, value);
      && Tight(line) && line[0] != '#' && !(EXPORT <= line) && '=' in line
      && IndexOf(line, '=') == |k| && line[..|k|] == k && line[|k| + 1..] == Quote(value)
  {
    var line := Written(k, value);
    QuoteIsTight(value);
    IndexOfFirst(k, '=', Quote(value));
    assert line == k + ['='] + Quote(value);
    assert k[0] in k && line[0] == k[0];
    assert line[|line| - 1] == Quote(value)[|Quote(value)| - 1];
    assert line[|k|] == '=';
    if EXPORT <= line {
      ExportHasBlank(k, Quote(value));
    }
  }

  lemma CleanIsTight(k: string)
    requires CleanKey(k)
    ensures Tight(k) && Strip(k) == k
  {
    assert k[0] in k && k[|k| - 1] in k;
    TightStays(k);
  }

  /** What the engine writes is read back, by the reader and by the writer. */
  lemma WrittenIsRead(k: string, value: string)
    requires CleanKey(k)
    ensures ParseLine(Written(k, value)) == Some(Assignment(k, value))
    ensures SyncKey(Written(k, value)) == Some(k)
  {
    var line := Written(k, value);
    WrittenParts(k, value);
    assert Strip(line) == line && Body(line) == line by {
      TightStays(line);
    }
    assert KeyText(line) == k by {
      CleanIsTight(k);
    }
    QuoteIsTight(value);
    TightStays(Quote(value));
    UnquoteInvertsQuote(value);
  }

  /** The reader and the writer see the same clean key in every line. */
  lemma SameKey(line: string, k: string)
    requires CleanKey(k)
    ensures SyncKey(line) == Some(k) <==> ParseLine(line).Some? && ParseLine(line).value.key == k
  {
    var stripped := Strip(line);
    var body := Body(stripped);
    if '=' in body && body[0] == '#' {
      CommentKey(body);
    }
    if stripped != "" && stripped[0] == '#' {
      assert !(EXPORT <= stripped);
    }
  }

  lemma CommentKey(body: string)
    requires '=' in body && body[0] == '#'
    ensures KeyText(body) != "" && KeyText(body)[0] == '#'
  {
    var before := body[..IndexOf(body, '=')];
    assert before != "" && before[0] == '#';
    StripFirst(before);
  }

  // ---- Lines of the synced file ----

  lemma {:induction false} ReplacedIsOneLine(s: string, c: char, replacement: string)
    requires OneLine(s) && OneLine(replacement)
    ensures OneLine(ReplaceOne(s, c, replacement))
  {
    if s != "" {
      assert s[0] in s;
      ReplacedIsOneLine(s[1..], c, replacement);
    }
  }

  lemma WrittenIsOneLine(k: string, value: string)
    requires CleanKey(k) && OneLine(value)
    ensures OneLine(Written(k, value))
  {
    var doubled := ReplaceOne(value, '\\', "\\\\");
    ReplacedIsOneLine(value, '\\', "\\\\");
    ReplacedIsOneLine(doubled, '"', "\\\"");
    assert forall c | c in k :: !IsBreak(c);
  }

  /** Updates as they come from the environment: each name once, and the names are clean. */
  ghost predicate GoodUpdates(updates: seq<Update>) {
    Sorting.Distinct(updates, UpdateKey) && forall u | u in updates :: CleanKey(u.key)
  }

  lemma GoodValues(updates: seq<Update>, k: string)
    requires GoodUpdates(updates) && k in UpdateMap(updates)
    ensures CleanKey(k)
  {
    UpdateMapKeys(updates, k);
  }

  /** The lines that are rewritten whenever their key is found. */
  ghost predicate WritesLines(job: Job) {
    forall k | k in job.values && k !in job.kept :: OneLine(job.write(k, job.values[k]))
  }

  lemma {:induction false} RewrittenAreLines(job: Job, lines: seq<string>)
    requires WritesLines(job) && AllLines(lines)
    ensures AllLines(RewriteAll(job, lines)) && |RewriteAll(job, lines)| == |lines|
  {
    if lines != [] {
      assert lines[|lines| - 1] in lines;
      RewrittenAreLines(job, lines[..|lines| - 1]);
    }
  }

  lemma {:induction false} WrittenAreLines(write: Writer, updates: seq<Update>)
    requires forall u | u in updates :: OneLine(write(u.key, u.value))
    ensures AllLines(WrittenAll(write, updates)) && |WrittenAll(write, updates)| == |updates|
  {
    if updates != [] {
      assert updates[|updates| - 1] in updates;
      WrittenAreLines(write, updates[..|updates| - 1]);
    }
  }

  lemma SyncedAreLines(job: Job, updates: seq<Update>, lines: seq<string>)
    requires WritesLines(job) && JobFits(job, updates) && AllLines(lines) && updates != []
    requires forall k | k in job.values && k !in Found(job, lines) :: OneLine(job.write(k, job.values[k]))
    ensures AllLines(SyncedLines(job, updates, lines)) && SyncedLines(job, updates, lines) != []
  {
    var found := Found(job, lines);
    var remaining := Remaining(updates, found);
    RewrittenAreLines(job, lines);
    forall u | u in remaining ensures OneLine(job.write(u.key, u.value)) {
      RemainingMember(updates, found, u);
      UpdateMapIs(updates, u);
    }
    WrittenAreLines(job.write, remaining);
    if lines == [] {
      RemainingMember(updates, {}, updates[0]);
    }
  }

  // ---- A second sync ----

  lemma {:induction false} SettledLines(job: Job, lines: seq<string>)
    requires forall l | l in lines :: Rewrite(job, l) == l
    ensures RewriteAll(job, lines) == lines
  {
    if lines != [] {
      assert lines[|lines| - 1] in lines;
      SettledLines(job, lines[..|lines| - 1]);
    }
  }

  lemma RewriteSettles(job: Job, parse: Parser, line: string)
    requires Agree(job, parse)
    ensures Rewrite(job, Rewrite(job, line)) == Rewrite(job, line)
  {
    var k := job.keyOf(line);
    if k.Some? && k.value in job.values && k.value !in job.kept {
      assert job.keyOf(job.write(k.value, job.values[k.value])) == k;
    }
  }

  lemma WrittenSettles(job: Job, parse: Parser, k: string)
    requires Agree(job, parse) && k in job.values
    ensures Rewrite(job, job.write(k, job.values[k])) == job.write(k, job.values[k])
    ensures Rewrite(job, "") == ""
  {
    assert job.keyOf(job.write(k, job.values[k])) == Some(k);
    assert job.keyOf("").Some? ==> job.keyOf("").value !in job.values;
  }

  lemma {:induction false} RewrittenSettle(job: Job, parse: Parser, lines: seq<string>)
    requires Agree(job, parse)
    ensures forall l | l in RewriteAll(job, lines) :: Rewrite(job, l) == l
  {
    if lines != [] {
      RewrittenSettle(job, parse, lines[..|lines| - 1]);
      RewriteSettles(job, parse, lines[|lines| - 1]);
    }
  }

  lemma {:induction false} AllWrittenSettle(job: Job, parse: Parser, updates: seq<Update>)
    requires Agree(job, parse)
    requires forall u | u in updates :: u.key in job.values && job.values[u.key] == u.value
    ensures forall l | l in WrittenAll(job.write, updates) :: Rewrite(job, l) == l
    ensures updates != [] ==> Rewrite(job, "") == ""
  {
    if updates != [] {
      var last := updates[|updates| - 1];
      assert last in updates;
      AllWrittenSettle(job, parse, updates[..|updates| - 1]);
      WrittenSettles(job, parse, last.key);
    }
  }

  lemma SyncedSettle(job: Job, parse: Parser, updates: seq<Update>, lines: seq<string>)
    requires Agree(job, parse) && JobFits(job, updates)
    ensures RewriteAll(job, SyncedLines(job, updates, lines)) == SyncedLines(job, updates, lines)
  {
    var found := Found(job, lines);
    var remaining := Remaining(updates, found);
    RewrittenSettle(job, parse, lines);
    forall u | u in remaining ensures u.key in job.values && job.values[u.key] == u.value {
      RemainingMember(updates, found, u);
      UpdateMapIs(updates, u);
    }
    AllWrittenSettle(job, parse, remaining);
    SettledLines(job, SyncedLines(job, updates, lines));
  }

  lemma FirstIsIn(updates: seq<Update>)
    ensures updates != [] ==> updates[0] in updates
  {
  }

  lemma NothingRemains(job: Job, parse: Parser, updates: seq<Update>, lines: seq<string>)
    requires Agree(job, parse) && JobFits(job, updates)
    ensures Remaining(updates, Found(job, SyncedLines(job, updates, lines))) == []
  {
    var after := SyncedLines(job, updates, lines);
    var found := Found(job, after);
    SyncedValues(job, parse, updates, lines);
    FoundIs(job, parse, after);
    forall u ensures u !in Remaining(updates, found) {
      RemainingMember(updates, found, u);
      if u in updates {
        UpdateMapIs(updates, u);
      }
    }
    FirstIsIn(Remaining(updates, found));
  }

  lemma SyncedLinesTwice(job: Job, parse: Parser, updates: seq<Update>, lines: seq<string>)
    requires Agree(job, parse) && JobFits(job, updates)
    ensures SyncedLines(job, updates, SyncedLines(job, updates, lines)) == SyncedLines(job, updates, lines)
  {
    SyncedSettle(job, parse, updates, lines);
    NothingRemains(job, parse, updates, lines);
  }

  // ---- The file ----

  lemma EngineWrites(updates: seq<Update>, k: string)
    requires GoodUpdates(updates) && k in UpdateMap(updates)
    ensures ParseLine(Written(k, UpdateMap(updates)[k])) == Some(Assignment(k, UpdateMap(updates)[k]))
    ensures OneLine(UpdateMap(updates)[k]) ==> OneLine(Written(k, UpdateMap(updates)[k]))
  {
    GoodValues(updates, k);
    WrittenIsRead(k, UpdateMap(updates)[k]);
    if OneLine(UpdateMap(updates)[k]) {
      WrittenIsOneLine(k, UpdateMap(updates)[k]);
    }
  }

  lemma EngineAgrees(updates: seq<Update>)
    requires GoodUpdates(updates)
    ensures Agree(JobOf(updates), ParseLine) && JobFits(JobOf(updates), updates)
  {
    forall line, k | k in UpdateMap(updates)
      ensures SyncKey(line) == Some(k) <==> ParseLine(line).Some? && ParseLine(line).value.key == k
    {
      GoodValues(updates, k);
      SameKey(line, k);
    }
    forall k | k in UpdateMap(updates)
      ensures ParseLine(Written(k, UpdateMap(updates)[k])) == Some(Assignment(k, UpdateMap(updates)[k]))
    {
      EngineWrites(updates, k);
    }
  }

  /** The updates a file takes: all, except the account homes it has already. */
  function Applied(updates: seq<Update>, text: string): map<string, string> {
    UpdateMap(updates) - (HOMES * Parse(text).Keys)
  }

  /** No value that is written has a line break. */
  ghost predicate Writable(updates: seq<Update>, text: string) {
    forall k | k in Applied(updates, text) :: OneLine(Applied(updates, text)[k])
  }

  lemma SyncedText(updates: seq<Update>, text: string)
    requires GoodUpdates(updates) && updates != [] && Writable(updates, text)
    ensures Lines(Synced(updates, text)) == SyncedLines(JobOf(updates), updates, Lines(text))
  {
    var job := JobOf(updates);
    EngineAgrees(updates);
    LinesAreLines(text);
    FoundIs(job, ParseLine, Lines(text));
    forall k | k in Applied(updates, text) ensures OneLine(job.write(k, job.values[k])) {
      EngineWrites(updates, k);
    }
    SyncedAreLines(job, updates, Lines(text));
    LinesOfJoined(SyncedLines(job, updates, Lines(text)));
  }

  lemma SyncRefines(updates: seq<Update>, text: string)
    requires GoodUpdates(updates) && Writable(updates, text)
    ensures Parse(Synced(updates, text)) == Parse(text) + Applied(updates, text)
  {
    if updates != [] {
      EngineAgrees(updates);
      SyncedText(updates, text);
      SyncedValues(JobOf(updates), ParseLine, updates, Lines(text));
    } else {
      assert Parse(text) + map[] == Parse(text);
    }
  }

  // ---- Values with line breaks ----

  lemma {:induction false} HalvedIsOneLine(s: string, a: char, b: char, replacement: string)
    requires OneLine(s) && OneLine(replacement)
    ensures OneLine(ReplaceTwo(s, a, b, replacement))
    decreases |s|
  {
    if s != "" {
      assert s[0] in s;
      HalvedIsOneLine(s[1..], a, b, replacement);
      if |s| >= 2 {
        HalvedIsOneLine(s[2..], a, b, replacement);
      }
    }
  }

  lemma PartIsOneLine(s: string, i: nat, j: nat)
    requires OneLine(s) && i <= j <= |s|
    ensures OneLine(s[i..j])
  {
  }

  lemma StripIsOneLine(s: string)
    requires OneLine(s)
    ensures OneLine(Strip(s))
  {
    var left := StripLeft(s);
    PartIsOneLine(s, |s| - |left|, |s|);
    PartIsOneLine(left, 0, |Strip(s)|);
  }

  lemma UnquotedIsOneLine(value: string)
    requires OneLine(value)
    ensures OneLine(Unquote(value))
  {
    if |value| >= 2 {
      var body := value[1..|value| - 1];
      PartIsOneLine(value, 1, |value| - 1);
      HalvedIsOneLine(body, '\\', '"', "\"");
      HalvedIsOneLine(ReplaceTwo(body, '\\', '"', "\""), '\\', '\\', "\\");
    }
  }

  lemma ParsedIsOneLine(line: string)
    requires OneLine(line) && ParseLine(line).Some?
    ensures OneLine(ParseLine(line).value.value)
  {
    var stripped := Strip(line);
    StripIsOneLine(line);
    if EXPORT <= stripped {
      PartIsOneLine(stripped, |EXPORT|, |stripped|);
      StripIsOneLine(stripped[|EXPORT|..]);
    }
    var body := Body(stripped);
    var n := IndexOf(body, '=') + 1;
    PartIsOneLine(body, n, |body|);
    StripIsOneLine(body[n..]);
    UnquotedIsOneLine(Strip(body[n..]));
  }

  lemma {:induction false} ValuesAreOneLine(parse: Parser, lines: seq<string>, k: string)
    requires forall l | l in lines && parse(l).Some? :: OneLine(parse(l).value.value)
    requires k in ValuesOf(parse, lines)
    ensures OneLine(ValuesOf(parse, lines)[k])
  {
    var last := parse(lines[|lines| - 1]);
    assert lines[|lines| - 1] in lines;
    if !(last.Some? && last.value.key == k) {
      ValuesAreOneLine(parse, lines[..|lines| - 1], k);
    }
  }

  /** Whatever a file holds, the values read from it have no line breaks. */
  lemma ReadValuesAreOneLine(text: string, k: string)
    requires k in Parse(text)
    ensures OneLine(Parse(text)[k])
  {
    LinesAreLines(text);
    forall l | l in Lines(text) && ParseLine(l).Some? ensures OneLine(ParseLine(l).value.value) {
      ParsedIsOneLine(l);
    }
    ValuesAreOneLine(ParseLine, Lines(text), k);
  }

  /**
   Syncing the file is updating its values, exactly when no value it takes has a line break: the updates
   win, except for an account home the file already has; all other keys keep their values.
   */
  lemma SyncRefinesUpdateIff(updates: seq<Update>, text: string)
    requires GoodUpdates(updates)
    ensures Parse(Synced(updates, text)) == Parse(text) + Applied(updates, text) <==> Writable(updates, text)
  {
    if Writable(updates, text) {
      SyncRefines(updates, text);
    } else {
      var k :| k in Applied(updates, text) && !OneLine(Applied(updates, text)[k]);
      if k in Parse(Synced(updates, text)) {
        ReadValuesAreOneLine(Synced(updates, text), k);
      }
    }
  }

  /** A second sync changes nothing. */
  lemma SyncTwice(updates: seq<Update>, text: string)
    requires GoodUpdates(updates) && Writable(updates, text)
    ensures Synced(updates, Synced(updates, text)) == Synced(updates, text)
  {
    if updates != [] {
      EngineAgrees(updates);
      SyncedText(updates, text);
      SyncedLinesTwice(JobOf(updates), ParseLine, updates, Lines(text));
    }
  }
}
