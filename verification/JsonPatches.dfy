/** Which texts are repaired, and into what: the closers that may be put in, and where. */
module JsonPatches {
  import opened Wrappers
  import opened Text
  import opened JsonRepair

  /** Whether the end of a text is inside a string. */
  function ModeAfter(text: string): Mode {
    if text == "" then Outside else StringMode(ModeAfter(text[..|text| - 1]), text[|text| - 1])
  }

  /** What may be put in before a character: nothing, or before a trailing closer some of the other closers. */
  predicate SlotOk(text: string, i: nat, inserted: string)
    requires i < |text|
  {
    inserted != "" ==>
      && ModeAfter(text[..i]).Outside? && IsCloser(text[i])
      && (forall k | i <= k < |text| :: MayTrail(text[k]))
      && forall k | 0 <= k < |inserted| :: IsCloser(inserted[k]) && inserted[k] != text[i]
  }

  predicate SlotsOk(text: string, i: nat, slots: seq<string>) {
    i + |slots| == |text| && forall k | 0 <= k < |slots| :: SlotOk(text, i + k, slots[k])
  }

  /** The rest of a text with its slots filled. */
  function Woven(text: string, i: nat, slots: seq<string>): string
    requires i + |slots| == |text|
    decreases |slots|
  {
    if slots == [] then "" else slots[0] + [text[i]] + Woven(text, i + 1, slots[1..])
  }

  predicate OnlyClosers(end: string) {
    forall k | 0 <= k < |end| :: IsCloser(end[k])
  }

  /** A text and its patched form: other closers before trailing closers, any closers at the end, and balanced. */
  predicate PatchedInto(text: string, r: string, slots: seq<string>, end: string) {
    && SlotsOk(text, 0, slots) && OnlyClosers(end) && r == Woven(text, 0, slots) + end
    && Balanced(r) && r != text
  }

  // ---- A repaired text is patched ----

  lemma {:induction false} ClosersDiffer(stack: string, c: char, n: nat)
    requires AllOpeners(stack) && IsCloser(c) && n <= |stack|
    requires forall k | n <= k < |stack| :: stack[k] != OpenerOf(c)
    ensures forall k | 0 <= k < |Closers(stack[n..])| ::
      IsCloser(Closers(stack[n..])[k]) && Closers(stack[n..])[k] != c
  {
    if n < |stack| {
      var front := stack[..|stack| - 1];
      ClosersDiffer(front, c, n);
      assert stack[n..][..|stack| - n - 1] == front[n..];
      assert stack[n..][|stack| - n - 1] == stack[|stack| - 1];
    }
  }

  lemma {:induction false} ClosersClosers(stack: string)
    ensures OnlyClosers(Closers(stack))
  {
    if stack != "" {
      ClosersClosers(stack[..|stack| - 1]);
    }
  }

  lemma ModeStep(text: string, i: nat)
    requires i < |text|
    ensures ModeAfter(text[..i + 1]) == StringMode(ModeAfter(text[..i]), text[i])
  {
    assert text[..i + 1][..i] == text[..i];
  }

  lemma Trails(text: string, i: nat)
    requires i <= |text|
    ensures (forall k | 0 <= k < |text[i..]| :: MayTrail(text[i..][k]))
      <==> forall k | i <= k < |text| :: MayTrail(text[k])
  {
    assert forall k | i <= k < |text| :: text[k] == text[i..][k - i];
  }

  /** One step of the scan fills one slot. */
  lemma StepFills(before: string, s: Scan, text: string, i: nat) returns (inserted: string)
    requires i < |text| && Tracked(before, s) && s.mode == ModeAfter(text[..i])
    requires Read(s, text[i], text[i..]).Some?
    ensures SlotOk(text, i, inserted)
    ensures Read(s, text[i], text[i..]).value.out == s.out + inserted + [text[i]]
    ensures Read(s, text[i], text[i..]).value.mode == ModeAfter(text[..i + 1])
  {
    var c := text[i];
    ModeStep(text, i);
    inserted := "";
    assert s.out + "" == s.out;
    if s.mode.Outside? && IsCloser(c) && s.stack != "" && s.stack[|s.stack| - 1] != OpenerOf(c) {
      var rest := Unwind(s.stack, OpenerOf(c));
      Trails(text, i);
      ClosersDiffer(s.stack, c, |rest|);
      inserted := Closers(s.stack[|rest|..]);
    }
  }

  lemma {:induction false} RunFills(s: Scan, text: string, i: nat) returns (slots: seq<string>)
    requires i <= |text| && Tracked(text[..i], s) && s.mode == ModeAfter(text[..i]) && Run(text, i, s).Some?
    ensures SlotsOk(text, i, slots) && Run(text, i, s).value.out == s.out + Woven(text, i, slots)
    decreases |text| - i
  {
    slots := [];
    if i == |text| {
      assert s.out + "" == s.out;
    } else {
      var next := Read(s, text[i], text[i..]).value;
      var inserted := StepFills(text[..i], s, text, i);
      ReadTracks(text[..i], s, text[i], text[i..]);
      assert text[..i + 1] == text[..i] + [text[i]];
      var rest := RunFills(next, text, i + 1);
      slots := [inserted] + rest;
      SlotsMore(text, i, inserted, rest);
      WovenMore(text, i, inserted, rest);
      Associate(s.out, inserted + [text[i]], Woven(text, i + 1, rest));
      Associate(s.out, inserted, [text[i]]);
    }
  }

  lemma {:induction false} SlotsMore(text: string, i: nat, inserted: string, rest: seq<string>)
    requires i < |text| && SlotOk(text, i, inserted) && SlotsOk(text, i + 1, rest)
    ensures SlotsOk(text, i, [inserted] + rest)
  {
    var slots := [inserted] + rest;
    forall k | 0 <= k < |slots| ensures SlotOk(text, i + k, slots[k]) {
      if k > 0 {
        var j := k - 1;
        assert SlotOk(text, i + 1 + j, rest[j]);
        assert slots[k] == rest[j] && i + 1 + j == i + k;
      }
    }
  }

  lemma {:induction false} WovenMore(text: string, i: nat, inserted: string, rest: seq<string>)
    requires i + 1 + |rest| == |text|
    ensures Woven(text, i, [inserted] + rest) == inserted + [text[i]] + Woven(text, i + 1, rest)
  {
    var slots := [inserted] + rest;
    assert slots[1..] == rest && slots[0] == inserted;
  }

  lemma RepairedIsPatched(text: string) returns (slots: seq<string>, end: string)
    requires Repair(text).Some?
    ensures PatchedInto(text, Repair(text).value, slots, end)
  {
    var s := Run(text, 0, Scan("", Outside, "")).value;
    RepairedIsBalanced(text);
    assert text[..0] == "";
    slots := RunFills(Scan("", Outside, ""), text, 0);
    end := Closers(s.stack);
    ClosersClosers(s.stack);
    assert "" + Woven(text, 0, slots) == Woven(text, 0, slots);
    assert s.stack == "" ==> s.out + end == s.out;
  }

  // ---- A patched text is the repaired one ----

  lemma {:induction false} UnwindIs(stack: string, rest: string, opener: char)
    requires rest <= stack && rest != "" && rest[|rest| - 1] == opener
    requires forall k | |rest| <= k < |stack| :: stack[k] != opener
    ensures Unwind(stack, opener) == rest
  {
    if |rest| < |stack| {
      UnwindIs(stack[..|stack| - 1], rest, opener);
    }
  }

  /** `n` of the open containers are left; those closed by `inserted` are not of the closer's kind. */
  ghost predicate ClosedDown(stack: string, inserted: string, c: char, n: nat) {
    && n + |inserted| == |stack| && inserted == Closers(stack[n..])
    && forall k | n <= k < |stack| :: stack[k] != OpenerOf(c)
  }

  /** The other closers, where the text stays tracked, close the innermost containers, none of the closer's kind. */
  lemma {:induction false} OthersClose(out: string, stack: string, inserted: string, c: char) returns (n: nat)
    requires Track(out) == Some(Tracker(stack, Outside)) && AllOpeners(stack) && IsCloser(c)
    requires forall k | 0 <= k < |inserted| :: IsCloser(inserted[k]) && inserted[k] != c
    requires Track(out + inserted).Some?
    ensures ClosedDown(stack, inserted, c, n) && Track(out + inserted) == Some(Tracker(stack[..n], Outside))
    decreases |inserted|
  {
    if inserted == "" {
      n := |stack|;
      assert out + inserted == out && stack[..n] == stack && stack[n..] == "";
    } else {
      var d, rest := inserted[0], inserted[1..];
      assert out + inserted == (out + [d]) + rest;
      PrefixTracks(out + [d], rest);
      OtherCloses(out, stack, d, c);
      n := OthersClose(out + [d], stack[..|stack| - 1], rest, c);
      OneMoreCloses(stack, inserted, c, n);
    }
  }

  lemma {:induction false} OtherCloses(out: string, stack: string, d: char, c: char)
    requires Track(out) == Some(Tracker(stack, Outside)) && AllOpeners(stack)
    requires IsCloser(c) && IsCloser(d) && d != c && Track(out + [d]).Some?
    ensures stack != "" && AllOpeners(stack[..|stack| - 1])
    ensures d == CloserOf(stack[|stack| - 1]) && stack[|stack| - 1] != OpenerOf(c)
    ensures Track(out + [d]) == Some(Tracker(stack[..|stack| - 1], Outside))
  {
    TrackStep(out, d);
  }

  lemma {:induction false} OneMoreCloses(stack: string, inserted: string, c: char, n: nat)
    requires inserted != "" && stack != "" && inserted[0] == CloserOf(stack[|stack| - 1])
    requires stack[|stack| - 1] != OpenerOf(c)
    requires ClosedDown(stack[..|stack| - 1], inserted[1..], c, n)
    ensures ClosedDown(stack, inserted, c, n) && stack[..|stack| - 1][..n] == stack[..n]
  {
    var front := stack[..|stack| - 1];
    assert stack[n..][..|stack[n..]| - 1] == front[n..];
    assert inserted == [inserted[0]] + inserted[1..];
    forall k | n <= k < |stack| ensures stack[k] != OpenerOf(c) {
      if k < |front| {
        assert front[k] == stack[k];
      }
    }
  }

  /** Where a slot is filled the scan puts the same closers in. */
  lemma SlotRead(s: Scan, text: string, i: nat, inserted: string)
    requires i < |text| && Track(s.out) == Some(Tracker(s.stack, s.mode)) && AllOpeners(s.stack)
    requires s.mode == ModeAfter(text[..i]) && SlotOk(text, i, inserted)
    requires Track(s.out + inserted + [text[i]]).Some?
    ensures Read(s, text[i], text[i..]).Some?
    ensures Read(s, text[i], text[i..]).value.out == s.out + inserted + [text[i]]
  {
    var c := text[i];
    if inserted == "" {
      assert s.out + inserted + [c] == s.out + [c];
      TrackStep(s.out, c);
      StrictRead(Tracker(s.stack, s.mode), s.out, c, text[i..]);
    } else {
      PrefixTracks(s.out + inserted, [c]);
      var n := OthersClose(s.out, s.stack, inserted, c);
      TrackStep(s.out + inserted, c);
      UnwindIs(s.stack, s.stack[..n], OpenerOf(c));
      Trails(text, i);
      assert s.stack[|s.stack| - 1] != OpenerOf(c);
    }
  }

  lemma {:induction false} SlotsRun(s: Scan, text: string, i: nat, slots: seq<string>, end: string)
    requires i <= |text| && SlotsOk(text, i, slots) && Tracked(text[..i], s) && s.mode == ModeAfter(text[..i])
    requires Balanced(s.out + Woven(text, i, slots) + end)
    ensures Run(text, i, s).Some? && Run(text, i, s).value.out == s.out + Woven(text, i, slots)
    decreases |text| - i
  {
    if i == |text| {
      assert s.out + "" == s.out;
    } else {
      var more := Woven(text, i + 1, slots[1..]);
      var here := s.out + slots[0] + [text[i]];
      assert SlotOk(text, i + 0, slots[0]);
      assert s.out + Woven(text, i, slots) == here + more;
      assert here + more + end == here + (more + end);
      PrefixTracks(here, more + end);
      SlotRead(s, text, i, slots[0]);
      ReadTracks(text[..i], s, text[i], text[i..]);
      assert text[..i + 1] == text[..i] + [text[i]];
      var next := Read(s, text[i], text[i..]).value;
      var inserted := StepFills(text[..i], s, text, i);
      forall k | 0 <= k < |slots[1..]| ensures SlotOk(text, i + 1 + k, slots[1..][k]) {
        assert SlotOk(text, i + (k + 1), slots[k + 1]);
      }
      SlotsRun(next, text, i + 1, slots[1..], end);
    }
  }

  lemma PatchedIsRepaired(text: string, r: string, slots: seq<string>, end: string)
    requires PatchedInto(text, r, slots, end)
    ensures Repair(text) == Some(r)
  {
    var start := Scan("", Outside, "");
    assert text[..0] == "" && "" + Woven(text, 0, slots) == Woven(text, 0, slots);
    SlotsRun(start, text, 0, slots, end);
    RunTracks(text, 0, start);
    var s := Run(text, 0, start).value;
    SuffixCloses(s.out, end, Tracker(s.stack, s.mode));
    assert s.stack == "" ==> s.out + end == s.out;
  }

  /**
   Exactly when a text is repaired, and into what: there is another, balanced text that differs only by
   closers at the end, and by closers of the other kind before closers that nothing but closers and
   blanks follows.
   */
  lemma RepairIff(text: string, r: string)
    ensures Repair(text) == Some(r) <==> exists slots, end :: PatchedInto(text, r, slots, end)
  {
    if Repair(text) == Some(r) {
      var slots, end := RepairedIsPatched(text);
    }
    if slots, end :| PatchedInto(text, r, slots, end) {
      PatchedIsRepaired(text, r, slots, end);
    }
  }
}
