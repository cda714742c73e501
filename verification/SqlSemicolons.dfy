/** Where the characters of the statements come from, on every input. */
module SqlSemicolons {
  import opened SqlSplitter

  /** A character of a statement: where it stands in the file, and the mode the scanner passed it in. */
  datatype Mark = Mark(c: char, index: nat, mode: Mode)

  function Chars(marks: seq<Mark>): string {
    seq(|marks|, i requires 0 <= i < |marks| => marks[i].c)
  }

  function AllChars(traces: seq<seq<Mark>>): seq<string> {
    if traces == [] then [] else AllChars(traces[..|traces| - 1]) + [Chars(traces[|traces| - 1])]
  }

  /** The marks of the characters a step passes, at the start of a text that stands at `base` in its file. */
  function Passed(s: string, base: nat, n: nat, mode: Mode): seq<Mark>
    requires n <= |s|
  {
    seq(n, k requires 0 <= k < n => Mark(s[k], base + k, mode))
  }

  function TrimMarks(marks: seq<Mark>): seq<Mark> {
    var s := Chars(marks);
    marks[LeftBlanks(s)..RightEnd(s, LeftBlanks(s))]
  }

  function FlushMarks(marks: seq<Mark>): seq<seq<Mark>> {
    if TrimMarks(marks) == [] then [] else [TrimMarks(marks)]
  }

  function CleanedMarks(raw: seq<seq<Mark>>): seq<seq<Mark>> {
    if raw == [] then [] else CleanedMarks(raw[..|raw| - 1]) + FlushMarks(raw[|raw| - 1])
  }

  function KeptMarks(marks: seq<Mark>, s: string, base: nat, mode: Mode, m: Move): seq<Mark>
    requires m.taken <= |s|
  {
    if m.ends then [] else if m.keep then marks + Passed(s, base, m.taken, mode) else marks
  }

  function EndedMarks(marks: seq<Mark>, m: Move): seq<seq<Mark>> {
    if m.ends then [marks] else []
  }

  /** The run of the scanner, with every kept character marked. */
  ghost function Trace(
    scan: Scanner, s: string, base: nat, mode: Mode, marks: seq<Mark>, done: seq<seq<Mark>>): seq<seq<Mark>>
    requires Advances(scan)
    decreases |s|
  {
    if s == "" then done + [marks]
    else
      var m := scan(mode, s);
      Trace(
        scan, s[m.taken..], base + m.taken, m.mode, KeptMarks(marks, s, base, mode, m), done + EndedMarks(marks, m))
  }

  ghost function Traced(sql: string): seq<seq<Mark>> {
    assert Advances(Scan);
    CleanedMarks(Trace(Scan, sql, 0, Normal, [], []))
  }

  // ---- The marks are those of the output ----

  lemma FlushErases(marks: seq<Mark>)
    ensures AllChars(FlushMarks(marks)) == Flush(Chars(marks))
  {
    assert Chars(TrimMarks(marks)) == Trim(Chars(marks));
  }

  lemma {:induction false} DoneErases(a: seq<seq<Mark>>, b: seq<seq<Mark>>)
    ensures AllChars(a + b) == AllChars(a) + AllChars(b)
  {
    if b == [] {
      assert a + b == a;
    } else {
      assert (a + b)[..|a + b| - 1] == a + b[..|b| - 1];
      DoneErases(a, b[..|b| - 1]);
    }
  }

  lemma {:induction false} CleanedErases(raw: seq<seq<Mark>>)
    ensures AllChars(CleanedMarks(raw)) == Cleaned(AllChars(raw))
  {
    if raw != [] {
      var front, last := raw[..|raw| - 1], raw[|raw| - 1];
      CleanedErases(front);
      FlushErases(last);
      DoneErases(CleanedMarks(front), FlushMarks(last));
      assert AllChars(raw)[..|AllChars(raw)| - 1] == AllChars(front);
    }
  }

  lemma EndedErases(marks: seq<Mark>, done: seq<seq<Mark>>, m: Move)
    ensures AllChars(done + EndedMarks(marks, m)) == AllChars(done) + Ended(Chars(marks), m)
  {
    DoneErases(done, EndedMarks(marks, m));
  }

  lemma KeptErases(marks: seq<Mark>, s: string, base: nat, mode: Mode, m: Move)
    requires m.taken <= |s|
    ensures Chars(KeptMarks(marks, s, base, mode, m)) == Kept(Chars(marks), s, m)
  {
    var passed := Passed(s, base, m.taken, mode);
    assert Chars(marks + passed) == Chars(marks) + Chars(passed);
    assert Chars(passed) == s[..m.taken];
  }

  lemma {:induction false} TraceErases(
    scan: Scanner, s: string, base: nat, mode: Mode, marks: seq<Mark>, done: seq<seq<Mark>>)
    requires Advances(scan)
    ensures AllChars(Trace(scan, s, base, mode, marks, done)) == Run(scan, s, mode, Chars(marks), AllChars(done))
    decreases |s|
  {
    if s == "" {
      DoneErases(done, [marks]);
    } else {
      var m := scan(mode, s);
      KeptErases(marks, s, base, mode, m);
      EndedErases(marks, done, m);
      TraceErases(
        scan, s[m.taken..], base + m.taken, m.mode, KeptMarks(marks, s, base, mode, m), done + EndedMarks(marks, m));
    }
  }

  // ---- Where they come from ----

  /** Outside quotes a step keeps no semicolon. */
  predicate Clean(m: Move, mode: Mode, s: string) {
    m.keep && !Inside(mode) && m.taken <= |s| ==> ';' !in s[..m.taken]
  }

  ghost predicate KeepsNoSemicolon(scan: Scanner) {
    forall mode, s {:trigger Clean(scan(mode, s), mode, s)} :: s != "" ==> Clean(scan(mode, s), mode, s)
  }

  lemma ScanKeepsNoSemicolon()
    ensures KeepsNoSemicolon(Scan)
  {
    forall mode, s | s != "" ensures Clean(Scan(mode, s), mode, s) {
      if mode.Normal? && TagAt(s).Some? {
        TagHasNoSemicolon(s);
      }
    }
  }

  lemma TagHasNoSemicolon(s: string)
    requires TagAt(s).Some?
    ensures TagAt(s).value <= s && ';' !in TagAt(s).value
  {
    if s[1] != '$' {
      assert forall i | 0 <= i < WordLength(s[1..]) :: s[1 + i] == s[1..][i];
    }
  }

  /** A file, as the characters at its positions. */
  type File = nat -> char

  /** In order, from where they stand, and no semicolon from outside quotes. */
  ghost predicate Sourced(marks: seq<Mark>, file: File, before: nat) {
    && (forall k | 0 <= k < |marks| :: GoodMark(marks[k], file) && marks[k].index < before)
    && forall j, k | 0 <= j < k < |marks| :: marks[j].index < marks[k].index
  }

  predicate GoodMark(m: Mark, file: File) {
    file(m.index) == m.c && (m.c == ';' ==> Inside(m.mode))
  }

  /** A text stands at a position of a file. */
  ghost predicate StandsAt(s: string, base: nat, file: File) {
    forall k: nat | k < |s| :: s[k] == file(base + k)
  }

  lemma PassedIsGood(scan: Scanner, file: File, base: nat, s: string, mode: Mode, m: Move)
    requires KeepsNoSemicolon(scan) && StandsAt(s, base, file)
    requires s != "" && m == scan(mode, s) && m.taken <= |s| && m.keep
    ensures forall k | 0 <= k < m.taken :: GoodMark(Passed(s, base, m.taken, mode)[k], file)
  {
    assert Clean(m, mode, s);
    forall k | 0 <= k < m.taken ensures GoodMark(Passed(s, base, m.taken, mode)[k], file) {
      assert s[..m.taken][k] == s[k];
    }
  }

  lemma KeptSourced(scan: Scanner, file: File, base: nat, s: string, mode: Mode, marks: seq<Mark>, m: Move)
    requires KeepsNoSemicolon(scan) && StandsAt(s, base, file)
    requires s != "" && m == scan(mode, s) && m.taken <= |s|
    requires Sourced(marks, file, base)
    ensures Sourced(KeptMarks(marks, s, base, mode, m), file, base + m.taken)
  {
    if m.keep && !m.ends {
      PassedIsGood(scan, file, base, s, mode, m);
    }
  }

  ghost predicate AllSourced(traces: seq<seq<Mark>>, file: File, size: nat) {
    forall t | t in traces :: Sourced(t, file, size)
  }

  lemma SourcedLater(marks: seq<Mark>, file: File, base: nat, size: nat, done: seq<seq<Mark>>)
    requires Sourced(marks, file, base) && base <= size && AllSourced(done, file, size)
    ensures AllSourced(done + [marks], file, size)
  {
  }

  lemma EndedSourced(marks: seq<Mark>, file: File, base: nat, size: nat, done: seq<seq<Mark>>, m: Move)
    requires Sourced(marks, file, base) && base <= size && AllSourced(done, file, size)
    ensures AllSourced(done + EndedMarks(marks, m), file, size)
  {
    SourcedLater(marks, file, base, size, done);
    assert done + [] == done;
  }

  lemma TrimSourced(marks: seq<Mark>, file: File, size: nat)
    requires Sourced(marks, file, size)
    ensures Sourced(TrimMarks(marks), file, size)
  {
    var s := Chars(marks);
    assert forall k | 0 <= k < |TrimMarks(marks)| :: TrimMarks(marks)[k] == marks[LeftBlanks(s) + k];
  }

  lemma {:induction false} CleanedSourced(raw: seq<seq<Mark>>, file: File, size: nat)
    requires AllSourced(raw, file, size)
    ensures AllSourced(CleanedMarks(raw), file, size)
  {
    if raw != [] {
      var last := raw[|raw| - 1];
      assert last in raw;
      TrimSourced(last, file, size);
      CleanedSourced(raw[..|raw| - 1], file, size);
    }
  }

  lemma {:induction false} TraceSourced(
    scan: Scanner, file: File, base: nat, size: nat, s: string, mode: Mode, marks: seq<Mark>, done: seq<seq<Mark>>)
    requires Advances(scan) && KeepsNoSemicolon(scan) && StandsAt(s, base, file) && base + |s| == size
    requires Sourced(marks, file, base) && AllSourced(done, file, size)
    ensures AllSourced(Trace(scan, s, base, mode, marks, done), file, size)
    decreases |s|
  {
    if s == "" {
      SourcedLater(marks, file, base, size, done);
    } else {
      var m := scan(mode, s);
      KeptSourced(scan, file, base, s, mode, marks, m);
      EndedSourced(marks, file, base, size, done, m);
      TraceSourced(
        scan, file, base + m.taken, size, s[m.taken..], m.mode,
        KeptMarks(marks, s, base, mode, m), done + EndedMarks(marks, m));
    }
  }

  function FileOf(sql: string): File {
    (i: nat) => if i < |sql| then sql[i] else ' '
  }

  /**
   On every input: the statements are the file's own characters, in order, and each semicolon inside a
   statement was passed by the scanner inside a quoted region.
   */
  lemma SemicolonsAreQuoted(sql: string)
    ensures AllChars(Traced(sql)) == Split(sql)
    ensures AllSourced(Traced(sql), FileOf(sql), |sql|)
  {
    assert Advances(Scan);
    ScanKeepsNoSemicolon();
    assert Chars([]) == "" && AllChars([]) == [];
    TraceErases(Scan, sql, 0, Normal, [], []);
    TraceSourced(Scan, FileOf(sql), 0, |sql|, sql, Normal, [], []);
    CleanedErases(Trace(Scan, sql, 0, Normal, [], []));
    CleanedSourced(Trace(Scan, sql, 0, Normal, [], []), FileOf(sql), |sql|);
  }
}
