/** Evidence paths: the one canonical artifact-relative form (impact_gate.py, `normalize_evidence_path`). */
module EvidencePaths {
  import opened Wrappers
  import opened Text

  /** `value.replace("\\", "/")`. */
  function ForwardSlashes(s: string): (r: string)
    ensures |r| == |s| && forall i | 0 <= i < |s| :: r[i] == if s[i] == '\\' then '/' else s[i]
  {
    seq(|s|, i requires 0 <= i < |s| => if s[i] == '\\' then '/' else s[i])
  }

  /** The components pathlib keeps: neither empty nor a single dot. */
  function Clean(parts: seq<string>): seq<string> {
    if parts == [] then []
    else (if parts[0] == "" || parts[0] == "." then [] else [parts[0]]) + Clean(parts[1..])
  }

  function Join(parts: seq<string>): string {
    if parts == [] then [] else if |parts| == 1 then parts[0] else parts[0] + "/" + Join(parts[1..])
  }

  function Parts(s: string): seq<string> {
    Clean(Split(ForwardSlashes(Strip(s)), '/'))
  }

  /** The canonical form, or nothing for a blank, absolute, upward or empty path. */
  function NormalizePath(raw: string): Option<string> {
    var s := ForwardSlashes(Strip(raw));
    if s == [] || s[0] == '/' || ".." in Parts(raw) || Parts(raw) == [] then None
    else Some(Join(Parts(raw)))
  }

  predicate Component(p: string) {
    p != "" && p != "." && p != ".." && '/' !in p && '\\' !in p
  }

  lemma {:induction false} SplitComponents(s: string, p: string)
    requires p in Split(s, '/')
    ensures '/' !in p && forall c | c in p :: c in s
  {
    if s != [] {
      var rest := Split(s[1..], '/');
      if p in rest {
        SplitComponents(s[1..], p);
      } else if s[0] != '/' && p == [s[0]] + rest[0] {
        SplitComponents(s[1..], rest[0]);
      }
    }
  }

  lemma {:induction false} CleanMember(parts: seq<string>, p: string)
    ensures p in Clean(parts) <==> p in parts && p != "" && p != "."
  {
    if parts != [] {
      CleanMember(parts[1..], p);
    }
  }

  /** A canonical path is relative: components only, none of them a step up, no backslash. */
  lemma NormalizedIsRelative(raw: string)
    requires NormalizePath(raw).Some?
    ensures Parts(raw) != [] && NormalizePath(raw).value == Join(Parts(raw))
    ensures forall p | p in Parts(raw) :: Component(p)
  {
    var s := ForwardSlashes(Strip(raw));
    forall p | p in Parts(raw) ensures Component(p) {
      CleanMember(Split(s, '/'), p);
      SplitComponents(s, p);
      assert '\\' !in s;
    }
  }

  lemma {:induction false} SplitJoin(parts: seq<string>)
    requires parts != [] && forall p | p in parts :: Component(p)
    ensures Split(Join(parts), '/') == parts && Clean(parts) == parts
    ensures Join(parts) != [] && Join(parts)[0] != '/' && '\\' !in Join(parts)
  {
    assert Component(parts[0]);
    assert parts[0][0] in parts[0];
    if |parts| == 1 {
      SplitNone(parts[0], '/');
      assert parts[1..] == [];
    } else {
      SplitJoin(parts[1..]);
      SplitAt(parts[0], '/', Join(parts[1..]));
      assert forall c | c in Join(parts) :: c in parts[0] || c == '/' || c in Join(parts[1..]);
    }
  }

  // ---- What a path normalizes to ----

  /** The same text, a backslash counting as a slash. */
  predicate SameButSlashes(s: string, t: string) {
    |s| == |t| && forall i | 0 <= i < |s| :: t[i] == if s[i] == '\\' then '/' else s[i]
  }

  predicate NoSlashes(parts: seq<string>) {
    forall p | p in parts :: '/' !in p
  }

  /** The parts between the slashes of a path, of either kind. */
  ghost predicate Between(path: string, parts: seq<string>) {
    parts != [] && NoSlashes(parts) && SameButSlashes(path, Join(parts))
  }

  lemma {:induction false} SplitOfJoin(parts: seq<string>)
    requires parts != [] && NoSlashes(parts)
    ensures Split(Join(parts), '/') == parts
  {
    assert parts[0] in parts;
    if |parts| == 1 {
      SplitNone(parts[0], '/');
    } else {
      SplitOfJoin(parts[1..]);
      SplitAt(parts[0], '/', Join(parts[1..]));
    }
  }

  /** Empty parts and single dots are left out, and every other part keeps its place. */
  lemma {:induction false} CleanInOrder(a: seq<string>, x: string, b: seq<string>)
    ensures Clean(a + [x] + b) == Clean(a) + (if x == "" || x == "." then [] else [x]) + Clean(b)
  {
    CleanJoined(a + [x], b);
    CleanJoined(a, [x]);
    assert [x][1..] == [];
  }

  lemma {:induction false} NothingClean(parts: seq<string>)
    ensures Clean(parts) == [] <==> forall p | p in parts :: p == "" || p == "."
  {
    forall p ensures p in Clean(parts) <==> p in parts && p != "" && p != "." {
      CleanMember(parts, p);
    }
    assert Clean(parts) != [] ==> Clean(parts)[0] in Clean(parts);
  }

  lemma {:induction false} JoinOfSplit(s: string)
    ensures Join(Split(s, '/')) == s
  {
    if s != [] {
      JoinOfSplit(s[1..]);
      var rest := Split(s[1..], '/');
      if s[0] == '/' {
        assert ([[]] + rest)[1..] == rest;
      } else {
        assert |rest| > 1 ==> ([[s[0]] + rest[0]] + rest[1..])[1..] == rest[1..];
      }
    }
  }

  /** Every path has parts. */
  lemma {:induction false} PathHasParts(path: string) returns (parts: seq<string>)
    ensures Between(path, parts)
  {
    parts := Split(ForwardSlashes(path), '/');
    JoinOfSplit(ForwardSlashes(path));
    forall p | p in parts ensures '/' !in p {
      SplitComponents(ForwardSlashes(path), p);
    }
  }

  lemma {:induction false} PartsAre(raw: string, path: string, parts: seq<string>)
    requires Trimmed(IsSpace, raw, path) && Between(path, parts)
    ensures Strip(raw) == path && ForwardSlashes(path) == Join(parts) && Parts(raw) == Clean(parts)
  {
    StripIs(raw);
    TrimmedOnce(IsSpace, raw, path, Strip(raw));
    SplitOfJoin(parts);
    assert ForwardSlashes(path) == Join(parts);
  }

  /**
   A path, given by its text without outer blanks and the parts between its slashes, is refused exactly
   when it is blank or absolute, a part is a step up or none names anything; else its parts that name
   something are joined in their order.
   */
  lemma {:induction false} NormalizeIs(raw: string, path: string, parts: seq<string>)
    requires Trimmed(IsSpace, raw, path) && Between(path, parts)
    ensures NormalizePath(raw).None? <==>
      path == "" || path[0] == '/' || path[0] == '\\' || ".." in parts || forall p | p in parts :: p == "" || p == "."
    ensures NormalizePath(raw).Some? ==> NormalizePath(raw).value == Join(Clean(parts))
  {
    PartsAre(raw, path, parts);
    NothingClean(parts);
    CleanMember(parts, "..");
    assert path != "" ==> ForwardSlashes(path)[0] == if path[0] == '\\' then '/' else path[0];
  }

  lemma StripFixed(s: string)
    requires s != [] && !IsSpace(s[0]) && !IsSpace(s[|s| - 1])
    ensures Strip(s) == s
  {
  }

  lemma StripShrinks(s: string)
    requires s != [] && (IsSpace(s[0]) || IsSpace(s[|s| - 1]))
    ensures |Strip(s)| < |s|
  {
    if !IsSpace(s[0]) {
      assert StripLeft(s) == s;
    }
  }

  /** Characters and separators of a list of components. */
  function Weight(parts: seq<string>): nat {
    if parts == [] then 0 else |parts[0]| + 1 + Weight(parts[1..])
  }

  lemma {:induction false} SplitWeight(s: string)
    ensures Weight(Split(s, '/')) == |s| + 1
  {
    if s != [] {
      SplitWeight(s[1..]);
      var rest := Split(s[1..], '/');
      if s[0] == '/' {
        assert ([[]] + rest)[1..] == rest;
      } else {
        assert ([[s[0]] + rest[0]] + rest[1..])[1..] == rest[1..];
      }
    }
  }

  lemma {:induction false} CleanWeight(parts: seq<string>)
    ensures Weight(Clean(parts)) <= Weight(parts)
  {
    if parts != [] {
      CleanWeight(parts[1..]);
      if parts[0] != "" && parts[0] != "." {
        assert Clean(parts)[0] == parts[0] && Clean(parts)[1..] == Clean(parts[1..]);
      } else {
        assert Clean(parts) == Clean(parts[1..]);
      }
    }
  }

  lemma {:induction false} JoinWeight(parts: seq<string>)
    requires parts != []
    ensures |Join(parts)| + 1 == Weight(parts)
  {
    if |parts| > 1 {
      JoinWeight(parts[1..]);
    }
  }

  lemma NormalizedLength(raw: string)
    requires NormalizePath(raw).Some?
    ensures |NormalizePath(raw).value| <= |Strip(raw)|
  {
    var s := ForwardSlashes(Strip(raw));
    SplitWeight(s);
    CleanWeight(Split(s, '/'));
    JoinWeight(Parts(raw));
  }

  predicate BlankStart(s: string) {
    s != [] && IsSpace(s[0])
  }

  predicate BlankEnd(s: string) {
    s != [] && IsSpace(s[|s| - 1])
  }

  /** No blank stands before the first component or after the last. */
  predicate PlainEnds(parts: seq<string>)
    requires parts != []
  {
    !BlankStart(parts[0]) && !BlankEnd(parts[|parts| - 1])
  }

  /** Joining keeps the first and the last character. */
  lemma {:induction false} JoinEnds(parts: seq<string>)
    requires parts != [] && forall p | p in parts :: Component(p)
    ensures var last := parts[|parts| - 1];
            && (BlankStart(Join(parts)) <==> BlankStart(parts[0]))
            && (BlankEnd(Join(parts)) <==> BlankEnd(last))
  {
    assert Component(parts[0]);
    if |parts| > 1 {
      JoinEnds(parts[1..]);
      SplitJoin(parts[1..]);
    }
  }

  lemma BlankEndIsLost(path: string)
    requires BlankStart(path) || BlankEnd(path)
    ensures NormalizePath(path) != Some(path)
  {
    StripShrinks(path);
    if NormalizePath(path).Some? {
      NormalizedLength(path);
    }
  }

  lemma PlainEndsAreKept(parts: seq<string>)
    requires parts != [] && forall p | p in parts :: Component(p)
    requires !BlankStart(Join(parts)) && !BlankEnd(Join(parts))
    ensures NormalizePath(Join(parts)) == Some(Join(parts))
  {
    var path := Join(parts);
    SplitJoin(parts);
    StripFixed(path);
    assert ForwardSlashes(path) == path;
    assert Parts(path) == parts;
    assert !Component("..");
  }

  lemma TwiceIffEnds(raw: string, path: string)
    requires NormalizePath(raw) == Some(path)
    ensures NormalizePath(path) == Some(path) <==> !BlankStart(path) && !BlankEnd(path)
  {
    NormalizedIsRelative(raw);
    if BlankStart(path) || BlankEnd(path) {
      BlankEndIsLost(path);
    } else {
      PlainEndsAreKept(Parts(raw));
    }
  }

  lemma NormalizedEnds(raw: string, path: string, parts: seq<string>)
    requires NormalizePath(raw) == Some(path) && parts == Parts(raw)
    ensures parts != [] && (PlainEnds(parts) <==> !BlankStart(path) && !BlankEnd(path))
  {
    NormalizedIsRelative(raw);
    JoinEnds(parts);
  }

  /**
   Normalizing twice is normalizing once exactly when the first component of the given path does not
   begin with a blank and the last does not end with one.
   */
  lemma NormalizeTwiceIff(raw: string, path: string)
    requires NormalizePath(raw) == Some(path)
    ensures Parts(raw) != []
    ensures NormalizePath(path) == Some(path) <==> PlainEnds(Parts(raw))
  {
    TwiceIffEnds(raw, path);
    NormalizedEnds(raw, path, Parts(raw));
  }

  // ---- The same condition on the text ----

  /** The text without the separators and single dots it starts with. */
  function CoreLeft(s: string): string {
    if "/" <= s then CoreLeft(s[1..]) else if "./" <= s then CoreLeft(s[2..]) else s
  }

  /** The text without the separators and single dots it ends with. */
  function CoreRight(s: string): string {
    if s != [] && s[|s| - 1] == '/' then CoreRight(s[..|s| - 1])
    else if |s| > 1 && s[|s| - 2..] == "/." then CoreRight(s[..|s| - 2])
    else s
  }

  lemma GrowFirst(c: char, rest: seq<string>, more: seq<string>)
    requires rest != []
    ensures [[c] + (rest + more)[0]] + (rest + more)[1..] == ([[c] + rest[0]] + rest[1..]) + more
  {
  }

  lemma {:induction false} SplitJoined(a: string, b: string)
    ensures Split(a + "/" + b, '/') == Split(a, '/') + Split(b, '/')
  {
    var s := a + "/" + b;
    if a == [] {
      assert s[1..] == b;
    } else {
      var rest, more := Split(a[1..], '/'), Split(b, '/');
      SplitJoined(a[1..], b);
      assert s[1..] == a[1..] + "/" + b;
      assert s[0] == a[0];
      if a[0] == '/' {
        Associate([[]], rest, more);
      } else {
        GrowFirst(a[0], rest, more);
      }
    }
  }

  lemma {:induction false} CleanJoined(a: seq<string>, b: seq<string>)
    ensures Clean(a + b) == Clean(a) + Clean(b)
  {
    if a == [] {
      assert a + b == b;
    } else {
      CleanJoined(a[1..], b);
      assert (a + b)[1..] == a[1..] + b;
      Associate(if a[0] == "" || a[0] == "." then [] else [a[0]], Clean(a[1..]), Clean(b));
    }
  }

  lemma CleanSplit(a: string, b: string)
    ensures Clean(Split(a + "/" + b, '/')) == Clean(Split(a, '/')) + Clean(Split(b, '/'))
  {
    SplitJoined(a, b);
    CleanJoined(Split(a, '/'), Split(b, '/'));
  }

  lemma DroppedComponents()
    ensures Clean(Split("", '/')) == [] && Clean(Split(".", '/')) == []
  {
    SplitNone(".", '/');
    assert Clean([""]) == [] && Clean(["."]) == [];
  }

  lemma DroppedAround(p: string, t: string)
    requires p == "" || p == "."
    ensures Clean(Split(p + "/" + t, '/')) == Clean(Split(t, '/')) == Clean(Split(t + "/" + p, '/'))
  {
    DroppedComponents();
    CleanSplit(p, t);
    CleanSplit(t, p);
  }

  /** The same for a text that is cut at a separator next to a dropped component. */
  lemma DroppedBefore(s: string, p: string, t: string)
    requires (p == "" || p == ".") && s == p + "/" + t
    ensures Clean(Split(s, '/')) == Clean(Split(t, '/'))
  {
    DroppedAround(p, t);
  }

  lemma DroppedAfter(s: string, t: string, p: string)
    requires (p == "" || p == ".") && s == t + "/" + p
    ensures Clean(Split(s, '/')) == Clean(Split(t, '/'))
  {
    DroppedAround(p, t);
  }

  lemma {:induction false} CoreLeftKeeps(s: string)
    ensures Clean(Split(CoreLeft(s), '/')) == Clean(Split(s, '/'))
  {
    if "/" <= s {
      DroppedBefore(s, "", s[1..]);
      CoreLeftKeeps(s[1..]);
    } else if "./" <= s {
      DroppedBefore(s, ".", s[2..]);
      CoreLeftKeeps(s[2..]);
    }
  }

  lemma {:induction false} CoreRightKeeps(s: string)
    ensures Clean(Split(CoreRight(s), '/')) == Clean(Split(s, '/'))
  {
    if s != [] && s[|s| - 1] == '/' {
      DroppedAfter(s, s[..|s| - 1], "");
      CoreRightKeeps(s[..|s| - 1]);
    } else if |s| > 1 && s[|s| - 2..] == "/." {
      DroppedAfter(s, s[..|s| - 2], ".");
      CoreRightKeeps(s[..|s| - 2]);
    }
  }

  lemma {:induction false} FirstPiece(s: string)
    ensures var p := Split(s, '/')[0]; p <= s && (|p| < |s| ==> s[|p|] == '/')
  {
    if s != [] && s[0] != '/' {
      FirstPiece(s[1..]);
    }
  }

  function Last<T>(xs: seq<T>): T
    requires xs != []
  {
    xs[|xs| - 1]
  }

  lemma {:induction false} LastSlash(s: string) returns (before: string, after: string)
    requires '/' in s
    ensures s == before + "/" + after && '/' !in after
  {
    var front := s[..|s| - 1];
    assert s == front + [Last(s)];
    if Last(s) == '/' {
      before, after := front, [];
    } else {
      before, after := LastSlash(front);
      after := after + [Last(s)];
    }
  }

  lemma LastPiece(before: string, after: string)
    requires '/' !in after
    ensures Last(Split(before + "/" + after, '/')) == after
  {
    SplitJoined(before, after);
    SplitNone(after, '/');
  }

  lemma CleanFirst(parts: seq<string>)
    requires parts != [] && parts[0] != "" && parts[0] != "."
    ensures Clean(parts) != [] && Clean(parts)[0] == parts[0]
  {
  }

  lemma CleanLast(parts: seq<string>)
    requires parts != [] && Last(parts) != "" && Last(parts) != "."
    ensures Clean(parts) != [] && Last(Clean(parts)) == Last(parts)
  {
    CleanJoined(parts[..|parts| - 1], [Last(parts)]);
    assert parts == parts[..|parts| - 1] + [Last(parts)];
    assert Clean([Last(parts)]) == [Last(parts)];
  }

  /** A text with no separator or single dot at its ends. */
  predicate Bare(t: string) {
    && t != "" && t != "." && t[0] != '/' && Last(t) != '/'
    && (|t| > 1 ==> t[..2] != "./" && t[|t| - 2..] != "/.")
  }

  lemma {:induction false} CoreLeftIsBare(s: string)
    ensures !("/" <= CoreLeft(s)) && !("./" <= CoreLeft(s))
  {
    if "/" <= s {
      CoreLeftIsBare(s[1..]);
    } else if "./" <= s {
      CoreLeftIsBare(s[2..]);
    }
  }

  /** What is taken off at the right leaves the left end as it was, unless nothing but a dot is left. */
  lemma {:induction false} CoreRightIsBare(s: string)
    requires !("/" <= s) && !("./" <= s)
    ensures CoreRight(s) == "" || CoreRight(s) == "." || Bare(CoreRight(s))
  {
    if s != [] && s[|s| - 1] == '/' {
      CoreRightIsBare(s[..|s| - 1]);
    } else if |s| > 1 && s[|s| - 2..] == "/." {
      CoreRightIsBare(s[..|s| - 2]);
    }
  }

  lemma BareStart(t: string)
    requires Bare(t)
    ensures var parts := Clean(Split(t, '/')); parts != [] && (BlankStart(t) <==> BlankStart(parts[0]))
  {
    var p := Split(t, '/')[0];
    FirstPiece(t);
    assert p != "" && p[0] == t[0];
    if |t| > 1 {
      assert t[..2] == [t[0], t[1]];
    }
    CleanFirst(Split(t, '/'));
  }

  lemma BareEnd(t: string)
    requires Bare(t)
    ensures var parts := Clean(Split(t, '/')); parts != [] && (BlankEnd(t) <==> BlankEnd(Last(parts)))
  {
    if '/' in t {
      var before, after := LastSlash(t);
      LastPiece(before, after);
      assert t[|t| - 2..] == [t[|t| - 2], t[|t| - 1]];
    } else {
      SplitNone(t, '/');
    }
    CleanLast(Split(t, '/'));
  }

  /**
   The condition on the given text: normalizing twice is normalizing once exactly when no blank
   stands at an end of the stripped text after its outer separators and single dots are taken off.
   */
  lemma NormalizeTwiceIffText(raw: string, path: string)
    requires NormalizePath(raw) == Some(path)
    ensures var core := CoreRight(CoreLeft(ForwardSlashes(Strip(raw))));
            core != [] && (NormalizePath(path) == Some(path) <==> !BlankStart(core) && !BlankEnd(core))
  {
    NormalizeTwiceIff(raw, path);
    var s := ForwardSlashes(Strip(raw));
    CoreLeftKeeps(s);
    CoreRightKeeps(CoreLeft(s));
    DroppedComponents();
    CoreLeftIsBare(s);
    CoreRightIsBare(CoreLeft(s));
    BareStart(CoreRight(CoreLeft(s)));
    BareEnd(CoreRight(CoreLeft(s)));
  }

  /** A component in front of a trailing single dot is kept as it is, with a blank at its end. */
  lemma TrailingDotIsDropped(p: string)
    requires Component(p) && !BlankStart(p)
    ensures NormalizePath(p + "/.") == Some(p)
  {
    var raw := p + "/" + ".";
    assert p + "/." == raw;
    assert p[0] in p;
    StripFixed(raw);
    assert ForwardSlashes(raw) == raw;
    DroppedAround(".", p);
    SplitNone(p, '/');
    CleanFirst([p]);
  }

  lemma TrailingBlankIsStripped(p: string)
    requires Component(p) && !BlankStart(p) && !BlankEnd(p)
    ensures NormalizePath(p + " ") == Some(p)
  {
    var raw := p + " ";
    assert p[0] in p;
    assert StripLeft(raw) == raw;
    assert raw[..|raw| - 1] == p;
    assert StripRight(raw) == StripRight(p) == p;
    assert ForwardSlashes(p) == p;
    SplitNone(p, '/');
    CleanFirst([p]);
  }

  /** A canonical path can still end in a blank, and is then not a fixed point. */
  lemma NormalizeTwiceDiffers() returns (raw: string, path: string)
    ensures raw == "a /." && NormalizePath(raw) == Some(path) && NormalizePath(path) == Some("a") && path != "a"
  {
    raw, path := "a /.", "a ";
    TrailingDotIsDropped(path);
    TrailingBlankIsStripped("a");
    assert path + "/." == raw && "a" + " " == path;
  }
}
