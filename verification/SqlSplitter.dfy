/** Splitting an SQL file into statements (backend/prisma/migrate.js, `splitStatements`). */
module SqlSplitter {
  import opened Wrappers
  import Strings = Text

  // ---- Trimming, as JavaScript does ----

  predicate IsBlank(c: char) {
    || c == ' ' || '\t' <= c <= '\r' || c == '\U{A0}' || c == '\U{1680}' || '\U{2000}' <= c <= '\U{200A}'
    || c == '\U{2028}' || c == '\U{2029}' || c == '\U{202F}' || c == '\U{205F}' || c == '\U{3000}' || c == '\U{FEFF}'
  }

  /** How many leading characters are blank. */
  function LeftBlanks(s: string): (n: nat)
    ensures n <= |s|
  {
    if s != "" && IsBlank(s[0]) then 1 + LeftBlanks(s[1..]) else 0
  }

  /** Where the trailing blanks begin, if that is not before `from`. */
  function RightEnd(s: string, from: nat): (n: nat)
    requires from <= |s|
    ensures from <= n <= |s|
    decreases |s|
  {
    if |s| > from && IsBlank(s[|s| - 1]) then RightEnd(s[..|s| - 1], from) else |s|
  }

  function Trim(s: string): string {
    s[LeftBlanks(s)..RightEnd(s, LeftBlanks(s))]
  }

  lemma {:induction false} LeftBlanksAre(s: string)
    ensures Strings.Every(IsBlank, s[..LeftBlanks(s)])
    ensures LeftBlanks(s) < |s| ==> !IsBlank(s[LeftBlanks(s)])
  {
    if s != "" && IsBlank(s[0]) {
      LeftBlanksAre(s[1..]);
      assert s[..LeftBlanks(s)] == [s[0]] + s[1..][..LeftBlanks(s[1..])];
    }
  }

  lemma {:induction false} RightBlanksAre(s: string, from: nat)
    requires from <= |s|
    ensures Strings.Every(IsBlank, s[RightEnd(s, from)..])
    ensures from < RightEnd(s, from) ==> !IsBlank(s[RightEnd(s, from) - 1])
    decreases |s|
  {
    if |s| > from && IsBlank(s[|s| - 1]) {
      var t := s[..|s| - 1];
      RightBlanksAre(t, from);
      assert s[RightEnd(s, from)..] == t[RightEnd(t, from)..] + [s[|s| - 1]];
    }
  }

  /** Trimming takes blanks off both ends, and all of them. */
  lemma TrimIs(s: string)
    ensures Strings.Trimmed(IsBlank, s, Trim(s))
  {
    var i := LeftBlanks(s);
    var k := RightEnd(s, i);
    LeftBlanksAre(s);
    RightBlanksAre(s, i);
    assert s[i..] == Trim(s) + s[k..];
    Strings.TrimmedBy(IsBlank, s, s[..i], s[i..], Trim(s), s[k..]);
  }

  // ---- One step of the scanner ----

  datatype Mode = Normal | LineComment | BlockComment | Quote(q: char) | Dollar(tag: string)

  /** How far a step goes, whether it keeps what it passes, and whether it ends a statement. */
  datatype Move = Move(taken: nat, keep: bool, mode: Mode, ends: bool)

  predicate Inside(m: Mode) {
    m.Quote? || m.Dollar?
  }

  predicate IsWordStart(c: char) {
    'A' <= c <= 'Z' || 'a' <= c <= 'z' || c == '_'
  }

  predicate IsWord(c: char) {
    IsWordStart(c) || '0' <= c <= '9'
  }

  function WordLength(s: string): (n: nat)
    ensures n <= |s| && (forall i | 0 <= i < n :: IsWord(s[i])) && (n < |s| ==> !IsWord(s[n]))
  {
    if s != "" && IsWord(s[0]) then 1 + WordLength(s[1..]) else 0
  }

  /** The dollar quote that opens at the start of a text: `$$`, or `$word$`. */
  function TagAt(s: string): (tag: Option<string>)
    ensures tag.Some? ==> tag.value <= s && |tag.value| >= 2
  {
    if |s| < 2 || s[0] != '$' then None
    else if s[1] == '$' then Some(s[..2])
    else
      var n := 1 + WordLength(s[1..]);
      if IsWordStart(s[1]) && n < |s| && s[n] == '$' then Some(s[..n + 1]) else None
  }

  predicate Usable(m: Mode) {
    m.Dollar? ==> m.tag != ""
  }

  function NormalStep(s: string): (m: Move)
    requires s != ""
    ensures 1 <= m.taken <= |s| && Usable(m.mode)
  {
    if "--" <= s then Move(2, false, LineComment, false)
    else if "/*" <= s then Move(2, false, BlockComment, false)
    else if s[0] == '\'' || s[0] == '"' then Move(1, true, Quote(s[0]), false)
    else if TagAt(s).Some? then Move(|TagAt(s).value|, true, Dollar(TagAt(s).value), false)
    else if s[0] == ';' then Move(1, false, Normal, true)
    else Move(1, true, Normal, false)
  }

  function Step(mode: Mode, s: string): (m: Move)
    requires s != "" && Usable(mode)
    ensures 1 <= m.taken <= |s| && Usable(m.mode)
  {
    match mode
    case Normal => NormalStep(s)
    case LineComment => if s[0] == '\n' then Move(1, true, Normal, false) else Move(1, false, mode, false)
    case BlockComment => if "*/" <= s then Move(2, false, Normal, false) else Move(1, false, mode, false)
    case Quote(q) =>
      if [q, q] <= s then Move(2, true, mode, false)
      else Move(1, true, if s[0] == q then Normal else mode, false)
    case Dollar(tag) => if tag <= s then Move(|tag|, true, Normal, false) else Move(1, true, mode, false)
  }

  // ---- The whole text ----

  function Flush(statement: string): seq<string> {
    if Trim(statement) == "" then [] else [Trim(statement)]
  }

  /** Statements as they are pushed: trimmed, without the empty ones. */
  function Cleaned(raw: seq<string>): seq<string> {
    if raw == [] then [] else Cleaned(raw[..|raw| - 1]) + Flush(raw[|raw| - 1])
  }

  predicate HasText(s: string) {
    exists i :: 0 <= i < |s| && !IsBlank(s[i])
  }

  /** The statements are the texts with a non-blank character, each once, in order, without their outer blanks. */
  ghost predicate PushedFrom(raw: seq<string>, statements: seq<string>, from: seq<nat>) {
    && |from| == |statements|
    && (forall k | 0 <= k < |from| ::
          from[k] < |raw| && HasText(raw[from[k]]) && Strings.Trimmed(IsBlank, raw[from[k]], statements[k]))
    && (forall j, k | 0 <= j < k < |from| :: from[j] < from[k])
    && (forall i: nat | i < |raw| && HasText(raw[i]) :: i in from)
  }

  ghost predicate Pushed(raw: seq<string>, statements: seq<string>) {
    exists from :: PushedFrom(raw, statements, from)
  }

  lemma TrimIsText(s: string)
    ensures Trim(s) != "" <==> HasText(s)
  {
    TrimIs(s);
    var a: string, b: string :|
      Strings.Every(IsBlank, a) && Strings.Every(IsBlank, b) && s == a + Trim(s) + b;
    if Trim(s) != "" {
      assert s[|a|] == Trim(s)[0];
    } else {
      assert s == a + b;
    }
  }

  lemma PushedBlank(raw: seq<string>, statements: seq<string>, from: seq<nat>, last: string)
    requires PushedFrom(raw, statements, from) && !HasText(last)
    ensures PushedFrom(raw + [last], statements, from)
  {
  }

  lemma PushedText(raw: seq<string>, statements: seq<string>, from: seq<nat>, last: string, t: string)
    requires PushedFrom(raw, statements, from) && HasText(last) && Strings.Trimmed(IsBlank, last, t)
    ensures PushedFrom(raw + [last], statements + [t], from + [|raw|])
  {
    var more := from + [|raw|];
    forall i: nat | i < |raw + [last]| && HasText((raw + [last])[i]) ensures i in more {
      assert i < |raw| ==> HasText(raw[i]);
    }
  }

  lemma {:induction false} CleanedIs(raw: seq<string>) returns (from: seq<nat>)
    ensures PushedFrom(raw, Cleaned(raw), from)
  {
    if raw == [] {
      from := [];
    } else {
      var front, last := raw[..|raw| - 1], raw[|raw| - 1];
      from := CleanedIs(front);
      assert raw == front + [last];
      TrimIs(last);
      TrimIsText(last);
      if HasText(last) {
        PushedText(front, Cleaned(front), from, last, Trim(last));
        from := from + [|front|];
      } else {
        PushedBlank(front, Cleaned(front), from, last);
      }
    }
  }

  type Scanner = (Mode, string) -> Move

  /** A scanner whose steps go forward. */
  ghost predicate Advances(scan: Scanner) {
    forall mode, s :: s != "" ==> 1 <= scan(mode, s).taken <= |s|
  }

  /** The text of the statement being read, after a step. */
  function Kept(statement: string, s: string, m: Move): string
    requires m.taken <= |s|
  {
    if m.ends then "" else if m.keep then statement + s[..m.taken] else statement
  }

  function Ended(statement: string, m: Move): seq<string> {
    if m.ends then [statement] else []
  }

  /** The texts between the semicolons, read from a mode with some statements done and one begun. */
  ghost function Run(scan: Scanner, s: string, mode: Mode, statement: string, done: seq<string>): seq<string>
    requires Advances(scan)
    decreases |s|
  {
    if s == "" then done + [statement]
    else
      var m := scan(mode, s);
      Run(scan, s[m.taken..], m.mode, Kept(statement, s, m), done + Ended(statement, m))
  }

  /** The scanner of the splitter; the modes it is in always have a tag to look for. */
  function Scan(mode: Mode, s: string): Move {
    if s == "" then Move(0, false, mode, false)
    else if Usable(mode) then Step(mode, s)
    else Move(1, true, mode, false)
  }

  ghost function Raw(sql: string): seq<string> {
    assert Advances(Scan);
    Run(Scan, sql, Normal, "", [])
  }

  ghost function Split(sql: string): seq<string> {
    Cleaned(Raw(sql))
  }

  lemma RunStep(scan: Scanner, sql: string, i: nat, mode: Mode, statement: string, done: seq<string>, m: Move)
    requires Advances(scan) && i < |sql| && m == scan(mode, sql[i..])
    ensures Run(scan, sql[i..], mode, statement, done) ==
      Run(scan, sql[i + m.taken..], m.mode, Kept(statement, sql[i..], m), done + Ended(statement, m))
  {
    assert sql[i..][m.taken..] == sql[i + m.taken..];
  }

  /** The branches of the loop body. */
  method ReadMove(sql: string, i: nat, mode: Mode, ghost scan: Scanner) returns (m: Move)
    requires i < |sql| && Usable(mode) && forall mode, s {:trigger Scan(mode, s)} :: scan(mode, s) == Scan(mode, s)
    ensures m == scan(mode, sql[i..]) && Usable(m.mode) && 1 <= m.taken <= |sql| - i
  {
    assert scan(mode, sql[i..]) == Scan(mode, sql[i..]);
    var c := sql[i];
    var next := if i + 1 < |sql| then Some(sql[i + 1]) else None;
    match mode {
      case LineComment =>
        return Move(1, c == '\n', if c == '\n' then Normal else mode, false);
      case BlockComment =>
        if c == '*' && next == Some('/') {
          return Move(2, false, Normal, false);
        }
        return Move(1, false, mode, false);
      case Quote(q) =>
        if c == q && next == Some(q) {
          return Move(2, true, mode, false);
        }
        return Move(1, true, if c == q then Normal else mode, false);
      case Dollar(tag) =>
        if tag <= sql[i..] {
          return Move(|tag|, true, Normal, false);
        }
        return Move(1, true, mode, false);
      case Normal =>
        if c == '-' && next == Some('-') {
          return Move(2, false, LineComment, false);
        }
        if c == '/' && next == Some('*') {
          return Move(2, false, BlockComment, false);
        }
        if c == '\'' || c == '"' {
          return Move(1, true, Quote(c), false);
        }
        var tag := TagAt(sql[i..]);
        if c == '$' && tag.Some? {
          return Move(|tag.value|, true, Dollar(tag.value), false);
        }
        return Move(1, c != ';', Normal, c == ';');
    }
  }

  /** `splitStatements`. */
  method SplitStatements(sql: string) returns (statements: seq<string>)
    ensures statements == Split(sql) && Pushed(Raw(sql), statements)
  {
    assert Advances(Scan);
    statements := SplitWith(sql, Scan);
    ghost var from := CleanedIs(Raw(sql));
  }

  /** The loop of `splitStatements`; `raw` is what it has pushed, before trimming. */
  method SplitWith(sql: string, ghost scan: Scanner) returns (statements: seq<string>)
    requires Advances(scan) && forall mode, s {:trigger Scan(mode, s)} :: scan(mode, s) == Scan(mode, s)
    ensures statements == Cleaned(Run(scan, sql, Normal, "", []))
  {
    statements := [];
    ghost var raw: seq<string> := [];
    var statement, mode, i := "", Normal, 0;
    assert sql[0..] == sql;
    while i < |sql|
      invariant 0 <= i <= |sql| && Usable(mode)
      invariant statements == Cleaned(raw)
      invariant Run(scan, sql[i..], mode, statement, raw) == Run(scan, sql, Normal, "", [])
      decreases |sql| - i
    {
      var m := ReadMove(sql, i, mode, scan);
      RunStep(scan, sql, i, mode, statement, raw, m);
      statements := PushIfEnded(statements, statement, raw, m);
      raw := raw + Ended(statement, m);
      statement := Continue(statement, sql, i, m);
      i, mode := i + m.taken, m.mode;
    }
    statements := Push(statements, statement, raw);
  }

  method Continue(statement: string, sql: string, i: nat, m: Move) returns (next: string)
    requires i + m.taken <= |sql|
    ensures next == Kept(statement, sql[i..], m)
  {
    if m.ends {
      return "";
    }
    assert sql[i..][..m.taken] == sql[i..i + m.taken];
    next := if m.keep then statement + sql[i..i + m.taken] else statement;
  }

  method PushIfEnded(before: seq<string>, statement: string, ghost raw: seq<string>, m: Move)
    returns (statements: seq<string>)
    requires before == Cleaned(raw)
    ensures statements == Cleaned(raw + Ended(statement, m))
  {
    statements := before;
    assert raw + [] == raw;
    if m.ends {
      statements := Push(before, statement, raw);
    }
  }

  method Push(before: seq<string>, statement: string, ghost raw: seq<string>) returns (statements: seq<string>)
    requires before == Cleaned(raw)
    ensures statements == Cleaned(raw + [statement])
  {
    assert (raw + [statement])[..|raw|] == raw;
    var trimmed := Trim(statement);
    statements := if trimmed != "" then before + [trimmed] else before;
  }
}
