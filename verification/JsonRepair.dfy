/**
 Closing the containers a truncated JSON answer leaves open
 (engine/open_kritt_engine/harnesses.py, `_repair_truncated_json`).
 */
module JsonRepair {
  import opened Wrappers
  import opened Text

  datatype Mode = Outside | Inside | Escaped

  predicate IsOpener(c: char) {
    c == '{' || c == '['
  }

  predicate IsCloser(c: char) {
    c == '}' || c == ']'
  }

  function CloserOf(opener: char): char {
    if opener == '{' then '}' else ']'
  }

  function OpenerOf(closer: char): char {
    if closer == '}' then '{' else '['
  }

  predicate MayTrail(c: char) {
    IsCloser(c) || c == ' ' || c == '\t' || c == '\r' || c == '\n'
  }

  /** A character in or at the border of a string. */
  function StringMode(mode: Mode, c: char): Mode {
    match mode
    case Outside => if c == '"' then Inside else Outside
    case Inside => if c == '\\' then Escaped else if c == '"' then Outside else Inside
    case Escaped => Inside
  }

  // ---- What balanced means ----

  /** The open containers, the innermost last, and where the reader is. */
  datatype Tracker = Tracker(stack: string, mode: Mode)

  function TrackOne(t: Tracker, c: char): Option<Tracker> {
    if !t.mode.Outside? || !(IsOpener(c) || IsCloser(c)) then Some(t.(mode := StringMode(t.mode, c)))
    else if IsOpener(c) then Some(t.(stack := t.stack + [c]))
    else if t.stack != "" && t.stack[|t.stack| - 1] == OpenerOf(c) then Some(t.(stack := t.stack[..|t.stack| - 1]))
    else None
  }

  function Track(text: string): Option<Tracker> {
    if text == "" then Some(Tracker("", Outside))
    else
      var before := Track(text[..|text| - 1]);
      if before.None? then None else TrackOne(before.value, text[|text| - 1])
  }

  /** Outside its strings every container is closed by its own closer, in order. */
  predicate Balanced(text: string) {
    Track(text) == Some(Tracker("", Outside))
  }

  /** `after` is `before` with closing brackets put in. */
  predicate OnlyCloses(before: string, after: string)
    decreases |after|
  {
    if after == "" then before == ""
    else
      var last := after[|after| - 1];
      || (before != "" && before[|before| - 1] == last && OnlyCloses(before[..|before| - 1], after[..|after| - 1]))
      || (IsCloser(last) && OnlyCloses(before, after[..|after| - 1]))
  }

  // ---- The repair ----

  /** The closers of the open containers, innermost first. */
  function Closers(stack: string): string {
    if stack == "" then "" else [CloserOf(stack[|stack| - 1])] + Closers(stack[..|stack| - 1])
  }

  /** The containers left when all are popped until this one is on top. */
  function Unwind(stack: string, opener: char): (rest: string)
    ensures rest <= stack && (rest != "" ==> rest[|rest| - 1] == opener)
    ensures forall k | |rest| <= k < |stack| :: stack[k] != opener
  {
    if stack == "" || stack[|stack| - 1] == opener then stack else Unwind(stack[..|stack| - 1], opener)
  }

  datatype Scan = Scan(stack: string, mode: Mode, out: string)

  function Close(s: Scan, c: char, trailing: string): Option<Scan> {
    if s.stack == "" then None
    else if s.stack[|s.stack| - 1] == OpenerOf(c) then Some(s.(stack := s.stack[..|s.stack| - 1], out := s.out + [c]))
    else if exists k | 0 <= k < |trailing| :: !MayTrail(trailing[k]) then None
    else
      var rest := Unwind(s.stack, OpenerOf(c));
      if rest == "" then None
      else Some(s.(stack := rest[..|rest| - 1], out := s.out + Closers(s.stack[|rest|..]) + [c]))
  }

  function Read(s: Scan, c: char, trailing: string): Option<Scan> {
    if !s.mode.Outside? || !(IsOpener(c) || IsCloser(c)) then
      Some(s.(mode := StringMode(s.mode, c), out := s.out + [c]))
    else if IsOpener(c) then Some(s.(stack := s.stack + [c], out := s.out + [c]))
    else Close(s, c, trailing)
  }

  function Run(text: string, i: nat, s: Scan): Option<Scan>
    requires i <= |text|
    decreases |text| - i
  {
    if i == |text| then Some(s)
    else
      var next := Read(s, text[i], text[i..]);
      if next.None? then None else Run(text, i + 1, next.value)
  }

  function Finish(text: string, s: Scan): Option<string> {
    if !s.mode.Outside? || s.stack == "" then
      if s.mode.Outside? && s.out != text then Some(s.out) else None
    else Some(s.out + Closers(s.stack))
  }

  function Repair(text: string): Option<string> {
    var end := Run(text, 0, Scan("", Outside, ""));
    if end.None? then None else Finish(text, end.value)
  }

  /** The inner loop: pop until the opener is on top, collecting the closers of what is popped. */
  method PopUntil(stack: string, opener: char) returns (rest: string, inserted: string)
    ensures rest == Unwind(stack, opener) && inserted == Closers(stack[|rest|..])
  {
    rest, inserted := stack, "";
    while rest != "" && rest[|rest| - 1] != opener
      invariant rest <= stack && Unwind(rest, opener) == Unwind(stack, opener)
      invariant inserted == Closers(stack[|rest|..])
      decreases |rest|
    {
      ClosersGrow(stack, |rest| - 1);
      inserted := inserted + [CloserOf(rest[|rest| - 1])];
      rest := rest[..|rest| - 1];
    }
  }

  lemma {:induction false} ClosersGrow(stack: string, k: nat)
    requires k < |stack|
    ensures Closers(stack[k..]) == Closers(stack[k + 1..]) + [CloserOf(stack[k])]
  {
    if |stack| == k + 1 {
      assert stack[k..] == [stack[k]] && stack[k + 1..] == "";
    } else {
      var front := stack[..|stack| - 1];
      ClosersGrow(front, k);
      assert stack[k..][..|stack| - k - 1] == front[k..];
      assert stack[k + 1..][..|stack| - k - 2] == front[k + 1..];
    }
  }

  method CloseOne(stack: string, repaired: string, c: char, trailing: string) returns (r: Option<(string, string)>)
    ensures r.None? <==> Close(Scan(stack, Outside, repaired), c, trailing).None?
    ensures r.Some? ==>
      Close(Scan(stack, Outside, repaired), c, trailing) == Some(Scan(r.value.0, Outside, r.value.1))
  {
    if stack == "" {
      return None;
    }
    var left, out := stack, repaired;
    if stack[|stack| - 1] != OpenerOf(c) {
      if exists k | 0 <= k < |trailing| :: !MayTrail(trailing[k]) {
        return None;
      }
      var inserted;
      left, inserted := PopUntil(stack, OpenerOf(c));
      if left == "" {
        return None;
      }
      out := out + inserted;
    }
    r := Some((left[..|left| - 1], out + [c]));
  }

  /** `_repair_truncated_json`. */
  method RepairTruncatedJson(text: string) returns (r: Option<string>)
    ensures r == Repair(text)
  {
    var stack, mode, repaired := "", Outside, "";
    for i := 0 to |text|
      invariant Run(text, i, Scan(stack, mode, repaired)) == Run(text, 0, Scan("", Outside, ""))
    {
      var c := text[i];
      if !mode.Outside? || !(IsOpener(c) || IsCloser(c)) {
        mode, repaired := StringMode(mode, c), repaired + [c];
      } else if IsOpener(c) {
        stack, repaired := stack + [c], repaired + [c];
      } else {
        var closed := CloseOne(stack, repaired, c, text[i..]);
        if closed.None? {
          return None;
        }
        stack, repaired := closed.value.0, closed.value.1;
      }
    }
    if !mode.Outside? || stack == "" {
      return if mode.Outside? && repaired != text then Some(repaired) else None;
    }
    r := Some(repaired + Closers(stack));
  }

  // ---- A repaired text is balanced, and the text with closers put in ----

  predicate AllOpeners(stack: string) {
    forall i | 0 <= i < |stack| :: IsOpener(stack[i])
  }

  lemma TrackStep(text: string, c: char)
    ensures Track(text + [c]) == if Track(text).None? then None else TrackOne(Track(text).value, c)
  {
    assert (text + [c])[..|text|] == text;
  }

  lemma CloseStep(before: string, after: string, c: char)
    requires OnlyCloses(before, after)
    ensures OnlyCloses(before + [c], after + [c])
    ensures IsCloser(c) ==> OnlyCloses(before, after + [c])
  {
    assert (after + [c])[..|after|] == after && (before + [c])[..|before|] == before;
  }

  /** Writing the closers of the innermost containers closes them. */
  lemma {:induction false} ClosersClose(before: string, out: string, stack: string, n: nat)
    requires n <= |stack| && AllOpeners(stack)
    requires Track(out) == Some(Tracker(stack, Outside)) && OnlyCloses(before, out)
    ensures Track(out + Closers(stack[n..])) == Some(Tracker(stack[..n], Outside))
    ensures OnlyCloses(before, out + Closers(stack[n..]))
    decreases |stack|
  {
    if n == |stack| {
      assert stack[n..] == "" && out + "" == out && stack[..n] == stack;
    } else {
      var front, c := stack[..|stack| - 1], CloserOf(stack[|stack| - 1]);
      TrackStep(out, c);
      CloseStep(before, out, c);
      ClosersClose(before, out + [c], front, n);
      assert stack[n..][..|stack| - n - 1] == front[n..] && front[..n] == stack[..n];
      Associate(out, [c], Closers(front[n..]));
    }
  }

  /** What the scan has written is tracked by its stack, and is what it has read with closers put in. */
  ghost predicate Tracked(before: string, s: Scan) {
    Track(s.out) == Some(Tracker(s.stack, s.mode)) && AllOpeners(s.stack) && OnlyCloses(before, s.out)
  }

  lemma CloseTracks(before: string, s: Scan, c: char, trailing: string)
    requires Tracked(before, s) && s.mode.Outside? && IsCloser(c) && Close(s, c, trailing).Some?
    ensures Tracked(before + [c], Close(s, c, trailing).value)
  {
    var rest := Unwind(s.stack, OpenerOf(c));
    var out := s.out + Closers(s.stack[|rest|..]);
    ClosersClose(before, s.out, s.stack, |rest|);
    assert s.stack[..|rest|] == rest;
    TrackStep(out, c);
    CloseStep(before, out, c);
    if s.stack[|s.stack| - 1] == OpenerOf(c) {
      assert s.stack[|rest|..] == "" && out == s.out;
    }
  }

  lemma ReadTracks(before: string, s: Scan, c: char, trailing: string)
    requires Tracked(before, s) && Read(s, c, trailing).Some?
    ensures Tracked(before + [c], Read(s, c, trailing).value)
  {
    TrackStep(s.out, c);
    CloseStep(before, s.out, c);
    if s.mode.Outside? && IsCloser(c) {
      CloseTracks(before, s, c, trailing);
    }
  }

  lemma {:induction false} RunTracks(text: string, i: nat, s: Scan)
    requires i <= |text| && Tracked(text[..i], s) && Run(text, i, s).Some?
    ensures Tracked(text, Run(text, i, s).value)
    decreases |text| - i
  {
    if i == |text| {
      assert text[..i] == text;
    } else {
      ReadTracks(text[..i], s, text[i], text[i..]);
      assert text[..i + 1] == text[..i] + [text[i]];
      RunTracks(text, i + 1, Read(s, text[i], text[i..]).value);
    }
  }

  /** On every input, a text that is returned is balanced, new, and the input with closing brackets put in. */
  lemma RepairedIsBalanced(text: string)
    requires Repair(text).Some?
    ensures var r := Repair(text).value;
      Balanced(r) && OnlyCloses(text, r) && r != text
  {
    var s := Run(text, 0, Scan("", Outside, "")).value;
    RunTracks(text, 0, Scan("", Outside, ""));
    if s.stack != "" {
      ClosersClose(text, s.out, s.stack, 0);
      assert s.stack[0..] == s.stack;
      ClosersAddUp(text, s);
    }
  }

  lemma ClosersAddUp(text: string, s: Scan)
    requires OnlyCloses(text, s.out) && s.stack != ""
    ensures s.out + Closers(s.stack) != text
  {
    OnlyLonger(text, s.out);
  }

  lemma {:induction false} OnlyLonger(before: string, after: string)
    requires OnlyCloses(before, after)
    ensures |before| <= |after|
    decreases |after|
  {
    if after != "" {
      if IsCloser(after[|after| - 1]) && OnlyCloses(before, after[..|after| - 1]) {
        OnlyLonger(before, after[..|after| - 1]);
      } else {
        OnlyLonger(before[..|before| - 1], after[..|after| - 1]);
      }
    }
  }

  // ---- Repair undoes truncation ----

  lemma {:induction false} PrefixTracks(a: string, b: string)
    requires Track(a + b).Some?
    ensures Track(a).Some?
    decreases |b|
  {
    if b == "" {
      assert a + b == a;
    } else {
      assert (a + b)[..|a + b| - 1] == a + b[..|b| - 1];
      PrefixTracks(a, b[..|b| - 1]);
    }
  }

  lemma StrictRead(t: Tracker, out: string, c: char, trailing: string)
    requires TrackOne(t, c).Some?
    ensures var next := TrackOne(t, c).value;
      Read(Scan(t.stack, t.mode, out), c, trailing) == Some(Scan(next.stack, next.mode, out + [c]))
  {
  }

  lemma TrackedAt(text: string, i: nat)
    requires i < |text| && Track(text).Some?
    ensures Track(text[..i]).Some? && TrackOne(Track(text[..i]).value, text[i]).Some?
    ensures Track(text[..i + 1]) == TrackOne(Track(text[..i]).value, text[i])
    ensures text[..i + 1] == text[..i] + [text[i]]
  {
    SplitAt(text, i);
    PrefixTracks(text[..i] + [text[i]], text[i + 1..]);
    TrackStep(text[..i], text[i]);
  }

  lemma SplitAt(text: string, i: nat)
    requires i < |text|
    ensures text == text[..i] + [text[i]] + text[i + 1..]
    ensures text[..i + 1] == text[..i] + [text[i]]
  {
  }

  /** On a text without a wrong closer the scan writes what it reads. */
  lemma {:induction false} StrictRun(text: string, i: nat, t: Tracker, out: string)
    requires i <= |text| && Track(text).Some? && Track(text[..i]) == Some(t) && out == text[..i]
    ensures Run(text, i, Scan(t.stack, t.mode, out))
      == Some(Scan(Track(text).value.stack, Track(text).value.mode, text))
    decreases |text| - i
  {
    if i == |text| {
      assert text[..i] == text;
    } else {
      TrackedAt(text, i);
      StrictRead(t, out, text[i], text[i..]);
      StrictRun(text, i + 1, TrackOne(t, text[i]).value, out + [text[i]]);
    }
  }

  /** A text without a wrong closer is repaired exactly when it ends outside strings with containers open. */
  lemma StrictRepair(text: string)
    requires Track(text).Some?
    ensures var t := Track(text).value;
      Repair(text) == if t.mode.Outside? && t.stack != "" then Some(text + Closers(t.stack)) else None
  {
    assert text[..0] == "";
    StrictRun(text, 0, Tracker("", Outside), "");
  }

  lemma {:induction false} SuffixCloses(p: string, suffix: string, t: Tracker)
    requires Track(p) == Some(t) && Balanced(p + suffix)
    requires forall i | 0 <= i < |suffix| :: IsCloser(suffix[i])
    ensures t.mode.Outside? && suffix == Closers(t.stack)
    decreases |suffix|
  {
    if suffix == "" {
      assert p + suffix == p;
    } else {
      var c, rest := suffix[0], suffix[1..];
      assert p + suffix == (p + [c]) + rest;
      PrefixTracks(p + [c], rest);
      TrackStep(p, c);
      SuffixCloses(p + [c], rest, TrackOne(t, c).value);
      if t.mode.Outside? {
        assert suffix == [c] + rest;
      }
    }
  }

  /** Deleting closers from the end of a balanced text is undone exactly. */
  lemma RepairUndoesTruncation(p: string, suffix: string)
    requires Balanced(p + suffix) && suffix != ""
    requires forall i | 0 <= i < |suffix| :: IsCloser(suffix[i])
    ensures Repair(p) == Some(p + suffix)
  {
    PrefixTracks(p, suffix);
    SuffixCloses(p, suffix, Track(p).value);
    StrictRepair(p);
  }
}
