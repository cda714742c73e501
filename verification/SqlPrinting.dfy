/** Printing SQL from tokens, the inverse of splitting it. */
module SqlPrinting {
  import opened Wrappers
  import opened SqlSplitter
  import Strings = Text

  /** A piece of an SQL file; what is not closed goes on to the end of the file. */
  datatype Token =
    | Plain(c: char)
    | Quoted(q: char, body: string, closed: bool)
    | DollarQuoted(tag: string, body: string, closed: bool)
    | Line(body: string, closed: bool)
    | Block(body: string, closed: bool)
    | Semicolon

  /** A value inside quotes: its quotes are doubled. */
  function Doubled(body: string, q: char): string {
    if body == "" then "" else (if body[0] == q then [q, q] else [body[0]]) + Doubled(body[1..], q)
  }

  function If(closed: bool, end: string): string {
    if closed then end else ""
  }

  function Print(t: Token): string {
    match t
    case Plain(c) => [c]
    case Quoted(q, body, closed) => [q] + Doubled(body, q) + If(closed, [q])
    case DollarQuoted(tag, body, closed) => tag + body + If(closed, tag)
    case Line(body, closed) => "--" + body + If(closed, "\n")
    case Block(body, closed) => "/*" + body + If(closed, "*/")
    case Semicolon => ";"
  }

  /** What a token leaves in its statement: comments leave nothing but the end of their line. */
  function Text(t: Token): string {
    match t
    case Line(_, closed) => If(closed, "\n")
    case Block(_, _) => ""
    case Semicolon => ""
    case _ => Print(t)
  }

  function PrintAll(tokens: seq<Token>): string {
    if tokens == [] then "" else Print(tokens[0]) + PrintAll(tokens[1..])
  }

  /** The mark occurs at the end of `body + mark`, and nowhere before. */
  ghost predicate EndsFirst(body: string, mark: string) {
    forall k | 0 <= k < |body| :: !(mark <= (body + mark)[k..])
  }

  ghost predicate Nowhere(body: string, mark: string) {
    forall k | 0 <= k <= |body| :: !(mark <= body[k..])
  }

  /** A body runs up to its mark, or has none and runs to the end of the file. */
  ghost predicate Ends(body: string, mark: string, closed: bool, rest: string) {
    if closed then EndsFirst(body, mark) else Nowhere(body, mark) && rest == ""
  }

  /** A dollar-quote tag: `$$`, or a word between dollar signs that does not begin with a digit. */
  predicate IsTag(tag: string) {
    && |tag| >= 2 && tag[0] == '$' && tag[|tag| - 1] == '$'
    && (|tag| > 2 ==> IsWordStart(tag[1]))
    && forall k | 0 < k < |tag| - 1 :: IsWord(tag[k])
  }

  /** A token is well formed, and does not fuse with what is printed after it. */
  ghost predicate Fits(t: Token, rest: string) {
    match t
    case Plain(c) =>
      && c != '\'' && c != '"' && c != ';'
      && !("--" <= [c] + rest) && !("/*" <= [c] + rest) && forall tag | IsTag(tag) :: !(tag <= [c] + rest)
    case Quoted(q, body, closed) => (q == '\'' || q == '"') && if closed then !([q] <= rest) else rest == ""
    case DollarQuoted(tag, body, closed) => IsTag(tag) && Ends(body, tag, closed, rest)
    case Line(body, closed) => '\n' !in body && (!closed ==> rest == "")
    case Block(body, closed) => Ends(body, "*/", closed, rest)
    case Semicolon => true
  }

  ghost predicate Fit(tokens: seq<Token>) {
    tokens == [] || (Fits(tokens[0], PrintAll(tokens[1..])) && Fit(tokens[1..]))
  }

  /** The text between semicolons, without the comments. */
  function Statements(tokens: seq<Token>, statement: string, done: seq<string>): seq<string> {
    if tokens == [] then done + [statement]
    else if tokens[0].Semicolon? then Statements(tokens[1..], "", done + [statement])
    else Statements(tokens[1..], statement + Text(tokens[0]), done)
  }

  // ---- Scanning what was printed ----

  lemma StepTo(s: string, mode: Mode, statement: string, done: seq<string>, m: Move)
    requires s != "" && m == Scan(mode, s)
    ensures Advances(Scan) && m.taken <= |s|
    ensures Run(Scan, s, mode, statement, done)
      == Run(Scan, s[m.taken..], m.mode, Kept(statement, s, m), done + Ended(statement, m))
  {
    assert Advances(Scan);
  }

  /** Characters a mode keeps one by one. */
  lemma KeepOne(s: string, mode: Mode, statement: string, done: seq<string>, after: Mode)
    requires s != "" && Scan(mode, s) == Move(1, true, after, false)
    ensures Advances(Scan)
    ensures Run(Scan, s, mode, statement, done) == Run(Scan, s[1..], after, statement + [s[0]], done)
  {
    StepTo(s, mode, statement, done, Move(1, true, after, false));
    assert s[..1] == [s[0]] && done + [] == done;
  }

  lemma Skip(s: string, mode: Mode, statement: string, done: seq<string>, n: nat, after: Mode)
    requires s != "" && Scan(mode, s) == Move(n, false, after, false)
    ensures Advances(Scan) && n <= |s|
    ensures Run(Scan, s, mode, statement, done) == Run(Scan, s[n..], after, statement, done)
  {
    StepTo(s, mode, statement, done, Move(n, false, after, false));
    assert done + [] == done;
  }

  lemma TwoQuotes(q: char, rest: string)
    ensures [q, q] <= [q] + rest <==> [q] <= rest
  {
    var s := [q] + rest;
    assert [q, q] <= s ==> s[1] == q;
    assert [q] <= rest ==> rest[0] == s[1];
  }

  lemma QuoteEnd(q: char, rest: string, statement: string, done: seq<string>)
    requires !([q] <= rest)
    ensures Advances(Scan)
    ensures Run(Scan, [q] + rest, Quote(q), statement, done) == Run(Scan, rest, Normal, statement + [q], done)
  {
    TwoQuotes(q, rest);
    assert ([q] + rest)[1..] == rest;
    KeepOne([q] + rest, Quote(q), statement, done, Normal);
  }

  lemma QuoteStep(c: char, q: char, tail: string, statement: string, done: seq<string>)
    ensures Advances(Scan)
    ensures var head := if c == q then [q, q] else [c];
      Run(Scan, head + tail, Quote(q), statement, done) == Run(Scan, tail, Quote(q), statement + head, done)
  {
    if c == q {
      var s := [q, q] + tail;
      assert s[2..] == tail && s[..2] == [q, q] && done + [] == done;
      StepTo(s, Quote(q), statement, done, Move(2, true, Quote(q), false));
    } else {
      var s := [c] + tail;
      assert s[1..] == tail && s[0] == c;
      assert !([q, q] <= s);
      KeepOne(s, Quote(q), statement, done, Quote(q));
    }
  }

  lemma {:induction false} QuotedScan(body: string, q: char, rest: string, statement: string, done: seq<string>)
    requires !([q] <= rest)
    ensures Advances(Scan)
    ensures Run(Scan, Doubled(body, q) + ([q] + rest), Quote(q), statement, done)
      == Run(Scan, rest, Normal, statement + Doubled(body, q) + [q], done)
    decreases |body|
  {
    var end := [q] + rest;
    if body == "" {
      assert "" + end == end && statement + "" == statement;
      QuoteEnd(q, rest, statement, done);
    } else {
      var head := if body[0] == q then [q, q] else [body[0]];
      var tail := Doubled(body[1..], q);
      Strings.Associate(head, tail, end);
      QuoteStep(body[0], q, tail + end, statement, done);
      QuotedScan(body[1..], q, rest, statement + head, done);
      Strings.Associate(statement, head, tail);
    }
  }

  /** The word before the closing dollar decides the tag, whatever follows it. */
  lemma {:induction false} WordStops(word: string, after: string)
    requires after != "" && !IsWord(after[0]) && forall i | 0 <= i < |word| :: IsWord(word[i])
    ensures WordLength(word + after) == |word|
  {
    if word == "" {
      assert word + after == after;
    } else {
      assert (word + after)[1..] == word[1..] + after;
      WordStops(word[1..], after);
    }
  }

  /** The scanner finds a tag exactly where one stands. */
  lemma TagFound(s: string, tag: string)
    requires IsTag(tag) && tag <= s
    ensures TagAt(s) == Some(tag)
  {
    if |tag| == 2 {
      assert s[..2] == tag;
    } else {
      var word := tag[1..|tag| - 1];
      assert s[1..] == word + s[|tag| - 1..];
      assert forall k | 0 <= k < |word| :: word[k] == tag[k + 1];
      WordStops(word, s[|tag| - 1..]);
      assert s[..|tag|] == tag;
    }
  }

  lemma TagIsTag(s: string)
    requires TagAt(s).Some?
    ensures IsTag(TagAt(s).value) && TagAt(s).value <= s
  {
    if s[1] != '$' {
      assert forall k | 0 <= k < WordLength(s[1..]) :: s[1 + k] == s[1..][k];
    }
  }

  lemma TagAtIff(s: string, tag: string)
    ensures TagAt(s) == Some(tag) <==> IsTag(tag) && tag <= s
  {
    if IsTag(tag) && tag <= s {
      TagFound(s, tag);
    }
    if TagAt(s).Some? {
      TagIsTag(s);
    }
  }

  lemma {:induction false} OpenQuotedScan(body: string, q: char, statement: string, done: seq<string>)
    ensures Advances(Scan)
    ensures Run(Scan, Doubled(body, q), Quote(q), statement, done) == done + [statement + Doubled(body, q)]
    decreases |body|
  {
    if body == "" {
      assert Advances(Scan) && statement + "" == statement;
    } else {
      var head := if body[0] == q then [q, q] else [body[0]];
      QuoteStep(body[0], q, Doubled(body[1..], q), statement, done);
      OpenQuotedScan(body[1..], q, statement + head, done);
      Strings.Associate(statement, head, Doubled(body[1..], q));
    }
  }

  lemma MarkAt(body: string, mark: string, rest: string, k: nat)
    requires k <= |body|
    ensures mark <= (body + mark + rest)[k..] <==> mark <= (body + mark)[k..]
  {
    var s, t := (body + mark + rest)[k..], (body + mark)[k..];
    assert |t| >= |mark| && t <= s;
    assert s[..|mark|] == t[..|mark|];
  }

  lemma EndsFirstTail(body: string, mark: string)
    requires EndsFirst(body, mark) && body != ""
    ensures EndsFirst(body[1..], mark)
    ensures forall rest :: !(mark <= body + mark + rest)
  {
    forall k | 0 <= k < |body[1..]| ensures !(mark <= (body[1..] + mark)[k..]) {
      assert (body[1..] + mark)[k..] == (body + mark)[k + 1..];
    }
    forall rest ensures !(mark <= body + mark + rest) {
      MarkAt(body, mark, rest, 0);
      assert (body + mark)[0..] == body + mark && (body + mark + rest)[0..] == body + mark + rest;
    }
  }

  lemma Regroup(statement: string, body: string, tag: string)
    requires body != ""
    ensures statement + [body[0]] + body[1..] + tag == statement + body + tag
  {
    assert body == [body[0]] + body[1..];
  }

  lemma DollarStep(body: string, tag: string, rest: string, statement: string, done: seq<string>)
    requires tag != "" && body != "" && EndsFirst(body, tag)
    ensures Advances(Scan)
    ensures Run(Scan, body + tag + rest, Dollar(tag), statement, done)
      == Run(Scan, body[1..] + tag + rest, Dollar(tag), statement + [body[0]], done)
  {
    var s := body + tag + rest;
    EndsFirstTail(body, tag);
    assert s[1..] == body[1..] + tag + rest;
    KeepOne(s, Dollar(tag), statement, done, Dollar(tag));
  }

  lemma DollarEnd(tag: string, rest: string, statement: string, done: seq<string>)
    requires tag != ""
    ensures Advances(Scan)
    ensures Run(Scan, tag + rest, Dollar(tag), statement, done) == Run(Scan, rest, Normal, statement + tag, done)
  {
    var s := tag + rest;
    assert s[..|tag|] == tag && s[|tag|..] == rest && done + [] == done;
    StepTo(s, Dollar(tag), statement, done, Move(|tag|, true, Normal, false));
  }

  lemma {:induction false} DollarScan(body: string, tag: string, rest: string, statement: string, done: seq<string>)
    requires tag != "" && EndsFirst(body, tag)
    ensures Advances(Scan)
    ensures Run(Scan, body + tag + rest, Dollar(tag), statement, done)
      == Run(Scan, rest, Normal, statement + body + tag, done)
    decreases |body|
  {
    if body == "" {
      assert body + tag + rest == tag + rest && statement + body == statement;
      DollarEnd(tag, rest, statement, done);
    } else {
      EndsFirstTail(body, tag);
      DollarStep(body, tag, rest, statement, done);
      DollarScan(body[1..], tag, rest, statement + [body[0]], done);
      Regroup(statement, body, tag);
    }
  }

  lemma NowhereTail(body: string, mark: string)
    requires Nowhere(body, mark) && body != ""
    ensures Nowhere(body[1..], mark) && !(mark <= body)
  {
    assert body[0..] == body;
    forall k | 0 <= k <= |body[1..]| ensures !(mark <= body[1..][k..]) {
      assert body[1..][k..] == body[k + 1..];
    }
  }

  lemma {:induction false} OpenDollarScan(body: string, tag: string, statement: string, done: seq<string>)
    requires tag != "" && Nowhere(body, tag)
    ensures Advances(Scan)
    ensures Run(Scan, body, Dollar(tag), statement, done) == done + [statement + body]
    decreases |body|
  {
    if body == "" {
      assert Advances(Scan) && statement + "" == statement;
    } else {
      NowhereTail(body, tag);
      KeepOne(body, Dollar(tag), statement, done, Dollar(tag));
      OpenDollarScan(body[1..], tag, statement + [body[0]], done);
      assert statement + [body[0]] + body[1..] == statement + body;
    }
  }

  lemma {:induction false} OpenBlockScan(body: string, statement: string, done: seq<string>)
    requires Nowhere(body, "*/")
    ensures Advances(Scan)
    ensures Run(Scan, body, BlockComment, statement, done) == done + [statement]
    decreases |body|
  {
    if body == "" {
      assert Advances(Scan);
    } else {
      NowhereTail(body, "*/");
      Skip(body, BlockComment, statement, done, 1, BlockComment);
      OpenBlockScan(body[1..], statement, done);
    }
  }

  lemma {:induction false} BlockScan(body: string, rest: string, statement: string, done: seq<string>)
    requires EndsFirst(body, "*/")
    ensures Advances(Scan)
    ensures Run(Scan, body + "*/" + rest, BlockComment, statement, done) == Run(Scan, rest, Normal, statement, done)
    decreases |body|
  {
    var s := body + "*/" + rest;
    if body == "" {
      assert s == "*/" + rest && "*/" <= s && s[2..] == rest;
      Skip(s, BlockComment, statement, done, 2, Normal);
    } else {
      EndsFirstTail(body, "*/");
      assert s[1..] == body[1..] + "*/" + rest;
      Skip(s, BlockComment, statement, done, 1, BlockComment);
      BlockScan(body[1..], rest, statement, done);
    }
  }

  lemma {:induction false} LineScan(body: string, closed: bool, rest: string, statement: string, done: seq<string>)
    requires '\n' !in body && (!closed ==> rest == "")
    ensures Advances(Scan)
    ensures Run(Scan, body + (if closed then "\n" else "") + rest, LineComment, statement, done)
      == if closed then Run(Scan, rest, Normal, statement + "\n", done) else done + [statement]
    decreases |body|
  {
    var end := if closed then "\n" else "";
    var s := body + end + rest;
    if body != "" {
      assert s[1..] == body[1..] + end + rest && s[0] == body[0];
      Skip(s, LineComment, statement, done, 1, LineComment);
      LineScan(body[1..], closed, rest, statement, done);
    } else if closed {
      assert s == "\n" + rest && s[1..] == rest;
      KeepOne(s, LineComment, statement, done, Normal);
    } else {
      assert s == "" && Advances(Scan);
    }
  }

  // ---- Tokens ----

  /** A fitting token is scanned as a whole: it adds its text to the statement. */
  lemma PlainScans(c: char, rest: string, statement: string, done: seq<string>)
    requires Fits(Plain(c), rest)
    ensures Advances(Scan)
    ensures Run(Scan, [c] + rest, Normal, statement, done) == Run(Scan, rest, Normal, statement + [c], done)
  {
    if TagAt([c] + rest).Some? {
      TagAtIff([c] + rest, TagAt([c] + rest).value);
    }
    assert ([c] + rest)[1..] == rest;
    KeepOne([c] + rest, Normal, statement, done, Normal);
  }

  lemma SemicolonScans(rest: string, statement: string, done: seq<string>)
    ensures Advances(Scan)
    ensures Run(Scan, ";" + rest, Normal, statement, done) == Run(Scan, rest, Normal, "", done + [statement])
  {
    var s := ";" + rest;
    assert s[1..] == rest && TagAt(s).None? && s[0] == ';';
    assert "--"[0] == '-' && "/*"[0] == '/';
    assert Scan(Normal, s) == Move(1, false, Normal, true);
    StepTo(s, Normal, statement, done, Move(1, false, Normal, true));
  }

  lemma OpenQuote(q: char, tail: string, statement: string, done: seq<string>)
    requires q == '\'' || q == '"'
    ensures Advances(Scan)
    ensures Run(Scan, [q] + tail, Normal, statement, done) == Run(Scan, tail, Quote(q), statement + [q], done)
  {
    assert ([q] + tail)[1..] == tail && ([q] + tail)[0] == q;
    assert "--"[0] == '-' && "/*"[0] == '/';
    KeepOne([q] + tail, Normal, statement, done, Quote(q));
  }

  lemma QuotedScans(q: char, body: string, rest: string, statement: string, done: seq<string>)
    requires (q == '\'' || q == '"') && !([q] <= rest)
    ensures Advances(Scan)
    ensures Run(Scan, ([q] + Doubled(body, q) + [q]) + rest, Normal, statement, done)
      == Run(Scan, rest, Normal, statement + ([q] + Doubled(body, q) + [q]), done)
  {
    var inner := Doubled(body, q);
    Strings.Associate([q] + inner, [q], rest);
    Strings.Associate([q], inner, [q] + rest);
    OpenQuote(q, inner + ([q] + rest), statement, done);
    QuotedScan(body, q, rest, statement + [q], done);
    Strings.Associate(statement, [q], inner);
    Strings.Associate(statement, [q] + inner, [q]);
  }

  lemma OpenQuotedScans(q: char, body: string, statement: string, done: seq<string>)
    requires q == '\'' || q == '"'
    ensures Advances(Scan)
    ensures Run(Scan, [q] + Doubled(body, q), Normal, statement, done) == done + [statement + ([q] + Doubled(body, q))]
  {
    OpenQuote(q, Doubled(body, q), statement, done);
    OpenQuotedScan(body, q, statement + [q], done);
    Strings.Associate(statement, [q], Doubled(body, q));
  }

  lemma OpenDollar(tag: string, tail: string, statement: string, done: seq<string>)
    requires IsTag(tag)
    ensures Advances(Scan)
    ensures Run(Scan, tag + tail, Normal, statement, done) == Run(Scan, tail, Dollar(tag), statement + tag, done)
  {
    var s := tag + tail;
    TagFound(s, tag);
    assert s[|tag|..] == tail && s[..|tag|] == tag && done + [] == done;
    StepTo(s, Normal, statement, done, Move(|tag|, true, Dollar(tag), false));
  }

  lemma DollarScans(tag: string, body: string, rest: string, statement: string, done: seq<string>)
    requires IsTag(tag) && EndsFirst(body, tag)
    ensures Advances(Scan)
    ensures Run(Scan, (tag + body + tag) + rest, Normal, statement, done)
      == Run(Scan, rest, Normal, statement + (tag + body + tag), done)
  {
    Strings.Associate(tag + body, tag, rest);
    Strings.Associate(tag, body, tag + rest);
    Strings.Associate(body, tag, rest);
    OpenDollar(tag, body + tag + rest, statement, done);
    DollarScan(body, tag, rest, statement + tag, done);
    Strings.Associate(statement, tag, body);
    Strings.Associate(statement, tag + body, tag);
  }

  lemma OpenDollarScans(tag: string, body: string, statement: string, done: seq<string>)
    requires IsTag(tag) && Nowhere(body, tag)
    ensures Advances(Scan)
    ensures Run(Scan, tag + body, Normal, statement, done) == done + [statement + (tag + body)]
  {
    OpenDollar(tag, body, statement, done);
    OpenDollarScan(body, tag, statement + tag, done);
    Strings.Associate(statement, tag, body);
  }

  lemma CommentOpens(tail: string)
    ensures Scan(Normal, "/*" + tail) == Move(2, false, BlockComment, false) && ("/*" + tail)[2..] == tail
  {
    var s := "/*" + tail;
    assert s[0] == '/' && "--"[0] == '-';
    assert s[..2] == "/*";
  }

  lemma BlockScans(body: string, rest: string, statement: string, done: seq<string>)
    requires EndsFirst(body, "*/")
    ensures Advances(Scan)
    ensures Run(Scan, ("/*" + body + "*/") + rest, Normal, statement, done) == Run(Scan, rest, Normal, statement, done)
  {
    var s := "/*" + (body + "*/" + rest);
    assert ("/*" + body + "*/") + rest == s;
    CommentOpens(body + "*/" + rest);
    Skip(s, Normal, statement, done, 2, BlockComment);
    BlockScan(body, rest, statement, done);
  }

  lemma OpenBlockScans(body: string, statement: string, done: seq<string>)
    requires Nowhere(body, "*/")
    ensures Advances(Scan)
    ensures Run(Scan, "/*" + body, Normal, statement, done) == done + [statement]
  {
    var s := "/*" + body;
    CommentOpens(body);
    Skip(s, Normal, statement, done, 2, BlockComment);
    OpenBlockScan(body, statement, done);
  }

  lemma LineScans(body: string, closed: bool, rest: string, statement: string, done: seq<string>)
    requires Fits(Line(body, closed), rest)
    ensures Advances(Scan)
    ensures Run(Scan, Print(Line(body, closed)) + rest, Normal, statement, done)
      == Run(Scan, rest, Normal, statement + Text(Line(body, closed)), done)
  {
    var end := if closed then "\n" else "";
    var s := "--" + (body + end + rest);
    assert Print(Line(body, closed)) + rest == s && s[2..] == body + end + rest;
    Skip(s, Normal, statement, done, 2, LineComment);
    LineScan(body, closed, rest, statement, done);
    assert statement + "" == statement;
  }

  /** A region that is not closed takes in the rest of the file. */
  lemma OpenScans(t: Token, statement: string, done: seq<string>)
    requires Fits(t, "") && (t.Quoted? || t.DollarQuoted? || t.Block?) && !t.closed
    ensures Advances(Scan)
    ensures Run(Scan, Print(t), Normal, statement, done) == done + [statement + Text(t)]
  {
    match t
    case Quoted(q, body, _) =>
      assert Print(t) == [q] + Doubled(body, q);
      OpenQuotedScans(q, body, statement, done);
    case DollarQuoted(tag, body, _) =>
      assert Print(t) == tag + body;
      OpenDollarScans(tag, body, statement, done);
    case Block(body, _) =>
      assert Print(t) == "/*" + body && statement + "" == statement;
      OpenBlockScans(body, statement, done);
  }

  lemma ClosedScans(t: Token, rest: string, statement: string, done: seq<string>)
    requires Fits(t, rest) && (t.Quoted? || t.DollarQuoted? || t.Block?) && t.closed
    ensures Advances(Scan)
    ensures Run(Scan, Print(t) + rest, Normal, statement, done) == Run(Scan, rest, Normal, statement + Text(t), done)
  {
    match t
    case Quoted(q, body, _) => QuotedScans(q, body, rest, statement, done);
    case DollarQuoted(tag, body, _) => DollarScans(tag, body, rest, statement, done);
    case Block(body, _) =>
      assert statement + "" == statement;
      BlockScans(body, rest, statement, done);
  }

  lemma TokenScans(t: Token, rest: string, statement: string, done: seq<string>)
    requires Fits(t, rest)
    ensures Advances(Scan)
    ensures Run(Scan, Print(t) + rest, Normal, statement, done) ==
      if t.Semicolon? then Run(Scan, rest, Normal, "", done + [statement])
      else Run(Scan, rest, Normal, statement + Text(t), done)
  {
    match t
    case Plain(c) => PlainScans(c, rest, statement, done);
    case Line(body, closed) => LineScans(body, closed, rest, statement, done);
    case Semicolon => SemicolonScans(rest, statement, done);
    case _ =>
      if t.closed {
        ClosedScans(t, rest, statement, done);
      } else {
        assert rest == "" && Print(t) + rest == Print(t);
        OpenScans(t, statement, done);
      }
  }

  lemma {:induction false} TokensScan(tokens: seq<Token>, statement: string, done: seq<string>)
    requires Fit(tokens)
    ensures Advances(Scan)
    ensures Run(Scan, PrintAll(tokens), Normal, statement, done) == Statements(tokens, statement, done)
  {
    assert Advances(Scan);
    if tokens != [] {
      var t, rest := tokens[0], tokens[1..];
      TokenScans(t, PrintAll(rest), statement, done);
      if t.Semicolon? {
        TokensScan(rest, "", done + [statement]);
      } else {
        TokensScan(rest, statement + Text(t), done);
      }
    }
  }

  /**
   Splitting inverts printing: for all tokens that do not fuse, the statements are the comment-free
   texts between the semicolons that have a non-blank character, in order, without their outer blanks.
   */
  lemma SplitInvertsPrint(tokens: seq<Token>)
    requires Fit(tokens)
    ensures Pushed(Statements(tokens, "", []), Split(PrintAll(tokens)))
  {
    TokensScan(tokens, "", []);
    var from := CleanedIs(Statements(tokens, "", []));
  }

  // ---- Every file is printed from tokens ----

  lemma NoMark(body: string, mark: string, rest: string)
    requires !(mark <= body + mark + rest)
    ensures !(mark <= (body + mark)[0..])
  {
    MarkAt(body, mark, rest, 0);
    assert (body + mark + rest)[0..] == body + mark + rest;
  }

  lemma EndsLater(c: char, body: string, mark: string, rest: string)
    requires EndsFirst(body, mark) && !(mark <= [c] + body + mark + rest)
    ensures EndsFirst([c] + body, mark)
  {
    NoMark([c] + body, mark, rest);
    forall k | 0 <= k < |[c] + body| ensures !(mark <= ([c] + body + mark)[k..]) {
      if k > 0 {
        assert ([c] + body + mark)[k..] == (body + mark)[k - 1..];
      }
    }
  }

  lemma NowhereLater(c: char, body: string, mark: string)
    requires Nowhere(body, mark) && !(mark <= [c] + body)
    ensures Nowhere([c] + body, mark)
  {
    forall k | 0 <= k <= |[c] + body| ensures !(mark <= ([c] + body)[k..]) {
      if k > 0 {
        assert ([c] + body)[k..] == body[k - 1..];
      } else {
        assert ([c] + body)[0..] == [c] + body;
      }
    }
  }

  /** A text up to the first occurrence of a mark, or the whole text. */
  lemma {:induction false} FindMark(s: string, mark: string) returns (body: string, closed: bool, rest: string)
    requires mark != ""
    ensures s == body + If(closed, mark) + rest && Ends(body, mark, closed, rest)
    decreases |s|
  {
    if mark <= s {
      body, closed, rest := "", true, s[|mark|..];
    } else if s == "" {
      body, closed, rest := "", false, "";
    } else {
      body, closed, rest := FindMark(s[1..], mark);
      assert s == [s[0]] + body + If(closed, mark) + rest;
      if closed {
        EndsLater(s[0], body, mark, rest);
      } else {
        NowhereLater(s[0], body, mark);
      }
      body := [s[0]] + body;
    }
  }

  /** A text up to the quote that closes it. */
  lemma {:induction false} FindQuote(s: string, q: char) returns (body: string, closed: bool, rest: string)
    ensures s == Doubled(body, q) + If(closed, [q]) + rest
    ensures if closed then !([q] <= rest) else rest == ""
    decreases |s|
  {
    if s == "" {
      body, closed, rest := "", false, "";
    } else if s[0] == q && (|s| == 1 || s[1] != q) {
      body, closed, rest := "", true, s[1..];
      assert s == [q] + rest;
    } else {
      var n := if s[0] == q then 2 else 1;
      body, closed, rest := FindQuote(s[n..], q);
      assert s == s[..n] + s[n..];
      assert s[..n] == if s[0] == q then [q, q] else [s[0]];
      body := [s[0]] + body;
      assert Doubled(body, q) == s[..n] + Doubled(body[1..], q);
      Strings.Associate(s[..n], Doubled(body[1..], q), If(closed, [q]));
      Strings.Associate(s[..n], Doubled(body[1..], q) + If(closed, [q]), rest);
    }
  }

  lemma {:induction false} FindLine(s: string) returns (body: string, closed: bool, rest: string)
    ensures s == body + If(closed, "\n") + rest && '\n' !in body && (!closed ==> rest == "")
    decreases |s|
  {
    if s == "" {
      body, closed, rest := "", false, "";
    } else if s[0] == '\n' {
      body, closed, rest := "", true, s[1..];
    } else {
      body, closed, rest := FindLine(s[1..]);
      assert s == [s[0]] + body + If(closed, "\n") + rest;
      body := [s[0]] + body;
    }
  }

  lemma LineToken(s: string) returns (t: Token, rest: string)
    requires "--" <= s
    ensures s == Print(t) + rest && Fits(t, rest) && |rest| < |s|
  {
    var body, closed;
    body, closed, rest := FindLine(s[2..]);
    t := Line(body, closed);
    assert s == "--" + s[2..];
    assert s == "--" + body + If(closed, "\n") + rest;
  }

  lemma BlockToken(s: string) returns (t: Token, rest: string)
    requires "/*" <= s
    ensures s == Print(t) + rest && Fits(t, rest) && |rest| < |s|
  {
    var body, closed;
    body, closed, rest := FindMark(s[2..], "*/");
    t := Block(body, closed);
    assert s == "/*" + s[2..];
    assert s == "/*" + body + If(closed, "*/") + rest;
  }

  lemma QuoteToken(s: string) returns (t: Token, rest: string)
    requires s != "" && (s[0] == '\'' || s[0] == '"')
    ensures s == Print(t) + rest && Fits(t, rest) && |rest| < |s|
  {
    var body, closed;
    body, closed, rest := FindQuote(s[1..], s[0]);
    t := Quoted(s[0], body, closed);
    assert s == [s[0]] + s[1..];
    assert s == [s[0]] + Doubled(body, s[0]) + If(closed, [s[0]]) + rest;
  }

  lemma DollarToken(s: string) returns (t: Token, rest: string)
    requires TagAt(s).Some?
    ensures s == Print(t) + rest && Fits(t, rest) && |rest| < |s|
  {
    var tag, body, closed := TagAt(s).value, "", false;
    body, closed, rest := FindMark(s[|tag|..], tag);
    t := DollarQuoted(tag, body, closed);
    TagIsTag(s);
    assert s == tag + s[|tag|..];
    assert s == tag + body + If(closed, tag) + rest;
  }

  /** The token at the start of a text, and what follows it. */
  lemma FirstToken(s: string) returns (t: Token, rest: string)
    requires s != ""
    ensures s == Print(t) + rest && Fits(t, rest) && |rest| < |s|
  {
    if "--" <= s {
      t, rest := LineToken(s);
    } else if "/*" <= s {
      t, rest := BlockToken(s);
    } else if s[0] == '\'' || s[0] == '"' {
      t, rest := QuoteToken(s);
    } else if TagAt(s).Some? {
      t, rest := DollarToken(s);
    } else {
      t, rest := if s[0] == ';' then Semicolon else Plain(s[0]), s[1..];
      assert s == [s[0]] + rest;
      forall tag | IsTag(tag) ensures !(tag <= s) {
        TagAtIff(s, tag);
      }
    }
  }

  /** Every file is printed from tokens that do not fuse, so the statements of every file are described. */
  lemma {:induction false} EveryFileIsPrinted(sql: string) returns (tokens: seq<Token>)
    ensures Fit(tokens) && PrintAll(tokens) == sql
    ensures Pushed(Statements(tokens, "", []), Split(sql))
    decreases |sql|
  {
    if sql == "" {
      tokens := [];
    } else {
      var t, rest := FirstToken(sql);
      var others := EveryFileIsPrinted(rest);
      tokens := [t] + others;
      assert tokens[1..] == others;
    }
    SplitInvertsPrint(tokens);
  }
}
