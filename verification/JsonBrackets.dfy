/** What a balanced text is, without a stack: strings, containers and other characters, written one after another. */
module JsonBrackets {
  import opened Wrappers
  import opened Text
  import opened JsonRepair

  /** A character of a string, or one behind a backslash. */
  datatype Unit = Plain(c: char) | Escape(c: char)

  /** A text by its last part. */
  datatype Doc =
    | Empty
    | Other(before: Doc, c: char)
    | Quoted(before: Doc, body: seq<Unit>)
    | Braces(before: Doc, inner: Doc)
    | Brackets(before: Doc, inner: Doc)

  predicate UnitOk(u: Unit) {
    u.Plain? ==> u.c != '"' && u.c != '\\'
  }

  predicate BodyOk(body: seq<Unit>) {
    forall i | 0 <= i < |body| :: UnitOk(body[i])
  }

  predicate DocOk(d: Doc) {
    match d
    case Empty => true
    case Other(before, c) => DocOk(before) && c != '"' && c != '{' && c != '}' && c != '[' && c != ']'
    case Quoted(before, body) => DocOk(before) && BodyOk(body)
    case Braces(before, inner) => DocOk(before) && DocOk(inner)
    case Brackets(before, inner) => DocOk(before) && DocOk(inner)
  }

  function Spelled(u: Unit): string {
    match u
    case Plain(c) => [c]
    case Escape(c) => ['\\', c]
  }

  function Spell(body: seq<Unit>): string {
    if body == [] then "" else Spell(body[..|body| - 1]) + Spelled(body[|body| - 1])
  }

  function Print(d: Doc): string {
    match d
    case Empty => ""
    case Other(before, c) => Print(before) + [c]
    case Quoted(before, body) => Print(before) + ['"'] + Spell(body) + ['"']
    case Braces(before, inner) => Print(before) + ['{'] + Print(inner) + ['}']
    case Brackets(before, inner) => Print(before) + ['['] + Print(inner) + [']']
  }

  // ---- A printed text is balanced ----

  /** Tracking an optional tracker further by one character. */
  lemma OneMore(out: string, stack: string, mode: Mode, c: char)
    requires Track(out) == Some(Tracker(stack, mode))
    ensures Track(out + [c]) == TrackOne(Tracker(stack, mode), c)
  {
    TrackStep(out, c);
  }

  lemma {:induction false} SpellTracks(out: string, stack: string, body: seq<Unit>)
    requires Track(out) == Some(Tracker(stack, Inside)) && BodyOk(body)
    ensures Track(out + Spell(body)) == Some(Tracker(stack, Inside))
  {
    if body == [] {
      assert out + "" == out;
    } else {
      var front, u := body[..|body| - 1], body[|body| - 1];
      SpellTracks(out, stack, front);
      var here := out + Spell(front);
      Associate(out, Spell(front), Spelled(u));
      if u.Plain? {
        OneMore(here, stack, Inside, u.c);
        assert Spelled(u) == [u.c];
      } else {
        OneMore(here, stack, Inside, '\\');
        OneMore(here + ['\\'], stack, Escaped, u.c);
        assert here + Spelled(u) == here + ['\\'] + [u.c];
      }
    }
  }

  lemma {:induction false} QuotedTracks(out: string, stack: string, body: seq<Unit>)
    requires Track(out) == Some(Tracker(stack, Outside)) && BodyOk(body)
    ensures Track(out + ['"'] + Spell(body) + ['"']) == Some(Tracker(stack, Outside))
  {
    OneMore(out, stack, Outside, '"');
    SpellTracks(out + ['"'], stack, body);
    OneMore(out + ['"'] + Spell(body), stack, Inside, '"');
  }

  lemma {:induction false} OpenStep(out: string, stack: string, opener: char)
    requires Track(out) == Some(Tracker(stack, Outside)) && (opener == '{' || opener == '[')
    ensures Track(out + [opener]) == Some(Tracker(stack + [opener], Outside))
  {
    OneMore(out, stack, Outside, opener);
  }

  predicate Matching(opener: char, closer: char) {
    (opener == '{' && closer == '}') || (opener == '[' && closer == ']')
  }

  lemma {:induction false} CloseStep(out: string, stack: string, opener: char, closer: char)
    requires Track(out) == Some(Tracker(stack + [opener], Outside)) && Matching(opener, closer)
    ensures Track(out + [closer]) == Some(Tracker(stack, Outside))
  {
    OneMore(out, stack + [opener], Outside, closer);
    assert (stack + [opener])[..|stack + [opener]| - 1] == stack;
  }

  lemma {:induction false} InnerTracks(out: string, stack: string, opener: char, inner: Doc, closer: char)
    requires Track(out) == Some(Tracker(stack, Outside)) && DocOk(inner) && Matching(opener, closer)
    ensures Track(out + [opener] + Print(inner) + [closer]) == Some(Tracker(stack, Outside))
    decreases inner, 1
  {
    OpenStep(out, stack, opener);
    PrintTracks(out + [opener], stack + [opener], inner);
    CloseStep(out + [opener] + Print(inner), stack, opener, closer);
  }

  lemma {:induction false} PrintTracks(out: string, stack: string, d: Doc)
    requires Track(out) == Some(Tracker(stack, Outside)) && DocOk(d)
    ensures Track(out + Print(d)) == Some(Tracker(stack, Outside))
    decreases d, 0
  {
    match d
    case Empty =>
      assert out + "" == out;
    case Other(before, c) =>
      PrintTracks(out, stack, before);
      OneMore(out + Print(before), stack, Outside, c);
      Associate(out, Print(before), [c]);
    case Quoted(before, body) =>
      PrintTracks(out, stack, before);
      QuotedTracks(out + Print(before), stack, body);
      InnerApart(out, Print(before), '"', Spell(body), '"');
    case Braces(before, inner) =>
      PrintTracks(out, stack, before);
      InnerTracks(out + Print(before), stack, '{', inner, '}');
      InnerApart(out, Print(before), '{', Print(inner), '}');
    case Brackets(before, inner) =>
      PrintTracks(out, stack, before);
      InnerTracks(out + Print(before), stack, '[', inner, ']');
      InnerApart(out, Print(before), '[', Print(inner), ']');
  }

  lemma InnerApart(out: string, a: string, c: char, b: string, d: char)
    ensures out + (a + [c] + b + [d]) == out + a + [c] + b + [d]
  {
  }

  // ---- A balanced text is printed ----

  /** A text with containers open: the innermost last. */
  datatype Levels = Top(doc: Doc) | Level(outer: Levels, brace: bool, doc: Doc)

  predicate LevelsOk(l: Levels) {
    DocOk(l.doc) && (l.Level? ==> LevelsOk(l.outer))
  }

  function Opener(brace: bool): char {
    if brace then '{' else '['
  }

  function StackOf(l: Levels): string {
    if l.Top? then "" else StackOf(l.outer) + [Opener(l.brace)]
  }

  function PrintLevels(l: Levels): string {
    if l.Top? then Print(l.doc) else PrintLevels(l.outer) + [Opener(l.brace)] + Print(l.doc)
  }

  /** The part of a string that is open at the end of the text. */
  function Tail(mode: Mode, body: seq<Unit>): string {
    match mode
    case Outside => ""
    case Inside => ['"'] + Spell(body)
    case Escaped => ['"'] + Spell(body) + ['\\']
  }

  ghost predicate Parsed(text: string, t: Tracker, l: Levels, body: seq<Unit>) {
    LevelsOk(l) && BodyOk(body) && StackOf(l) == t.stack && text == PrintLevels(l) + Tail(t.mode, body)
  }

  lemma {:induction false} MoreBody(body: seq<Unit>, u: Unit)
    requires BodyOk(body) && UnitOk(u)
    ensures BodyOk(body + [u]) && Spell(body + [u]) == Spell(body) + Spelled(u)
  {
    assert (body + [u])[..|body|] == body;
  }

  /** A further part of the innermost container. */
  lemma {:induction false} Grow(l: Levels, d: Doc, part: string)
    requires LevelsOk(l) && DocOk(d) && Print(d) == Print(l.doc) + part
    ensures LevelsOk(l.(doc := d)) && StackOf(l.(doc := d)) == StackOf(l)
    ensures PrintLevels(l.(doc := d)) == PrintLevels(l) + part
  {
    if l.Level? {
      Associate(PrintLevels(l.outer) + [Opener(l.brace)], Print(l.doc), part);
    }
  }

  /** One character of a string that stays open. */
  lemma {:induction false} BodyStep(mode: Mode, c: char, body: seq<Unit>) returns (body': seq<Unit>)
    requires BodyOk(body) && !mode.Outside? && !StringMode(mode, c).Outside?
    ensures BodyOk(body') && Tail(StringMode(mode, c), body') == Tail(mode, body) + [c]
  {
    body' := body;
    if mode.Escaped? {
      MoreBody(body, Escape(c));
      body' := body + [Escape(c)];
      assert Spelled(Escape(c)) == ['\\'] + [c];
      Associate(['"'], Spell(body), ['\\'] + [c]);
      Associate(['"'] + Spell(body), ['\\'], [c]);
    } else if c != '\\' {
      MoreBody(body, Plain(c));
      body' := body + [Plain(c)];
      Associate(['"'], Spell(body), [c]);
    }
  }

  lemma {:induction false} EndString(l: Levels, body: seq<Unit>) returns (l': Levels)
    requires LevelsOk(l) && BodyOk(body)
    ensures LevelsOk(l') && StackOf(l') == StackOf(l)
    ensures PrintLevels(l') == PrintLevels(l) + (Tail(Inside, body) + ['"'])
  {
    var d := Quoted(l.doc, body);
    l' := l.(doc := d);
    assert Print(d) == Print(l.doc) + (Tail(Inside, body) + ['"']);
    Grow(l, d, Tail(Inside, body) + ['"']);
  }

  lemma {:induction false} StringStep(text: string, t: Tracker, c: char, l: Levels, body: seq<Unit>)
    returns (l': Levels, body': seq<Unit>)
    requires Parsed(text, t, l, body) && !t.mode.Outside?
    ensures Parsed(text + [c], TrackOne(t, c).value, l', body')
    ensures TrackOne(t, c).value.mode.Outside? ==> body' == []
  {
    Associate(PrintLevels(l), Tail(t.mode, body), [c]);
    if StringMode(t.mode, c).Outside? {
      l' := EndString(l, body);
      body' := [];
      ParsedOutside(text + [c], TrackOne(t, c).value, l');
    } else {
      body' := BodyStep(t.mode, c, body);
      l' := l;
    }
  }

  lemma {:induction false} TopOf(outer: string, opener: char, c: char)
    requires IsOpener(opener) && IsCloser(c) && TrackOne(Tracker(outer + [opener], Outside), c).Some?
    ensures Matching(opener, c) && TrackOne(Tracker(outer + [opener], Outside), c).value == Tracker(outer, Outside)
  {
    assert (outer + [opener])[..|outer + [opener]| - 1] == outer;
  }

  /** The innermost container, closed, is a further part of the one around it. */
  function Wrap(l: Levels): Levels
    requires l.Level?
  {
    l.outer.(doc := if l.brace then Braces(l.outer.doc, l.doc) else Brackets(l.outer.doc, l.doc))
  }

  lemma {:induction false} WrapPrints(l: Levels, c: char)
    requires l.Level? && LevelsOk(l) && Matching(Opener(l.brace), c)
    ensures LevelsOk(Wrap(l)) && StackOf(Wrap(l)) == StackOf(l.outer)
    ensures PrintLevels(Wrap(l)) == PrintLevels(l) + [c]
  {
    var part := [Opener(l.brace)] + Print(l.doc) + [c];
    WrapDoc(l, c);
    Grow(l.outer, Wrap(l).doc, part);
    InnerApart(PrintLevels(l.outer), "", Opener(l.brace), Print(l.doc), c);
    assert "" + [Opener(l.brace)] == [Opener(l.brace)] && PrintLevels(l.outer) + "" == PrintLevels(l.outer);
  }

  lemma {:induction false} WrapDoc(l: Levels, c: char)
    requires l.Level? && LevelsOk(l) && Matching(Opener(l.brace), c)
    ensures DocOk(Wrap(l).doc) && Print(Wrap(l).doc) == Print(l.outer.doc) + ([Opener(l.brace)] + Print(l.doc) + [c])
  {
    var before := Print(l.outer.doc);
    InnerApart(before, "", Opener(l.brace), Print(l.doc), c);
    assert "" + [Opener(l.brace)] == [Opener(l.brace)] && before + "" == before;
  }

  lemma {:induction false} TopLevel(t: Tracker, c: char, l: Levels)
    requires StackOf(l) == t.stack && t.mode.Outside? && IsCloser(c) && TrackOne(t, c).Some?
    ensures l.Level? && Matching(Opener(l.brace), c) && TrackOne(t, c).value == Tracker(StackOf(l.outer), Outside)
  {
    if l.Level? {
      TopOf(StackOf(l.outer), Opener(l.brace), c);
    }
  }

  lemma {:induction false} ParsedOutside(text: string, t: Tracker, l: Levels)
    requires t.mode.Outside?
    ensures Parsed(text, t, l, []) <==> LevelsOk(l) && StackOf(l) == t.stack && text == PrintLevels(l)
  {
    assert PrintLevels(l) + "" == PrintLevels(l);
  }

  lemma {:induction false} CloseLevel(text: string, t: Tracker, c: char, l: Levels) returns (l': Levels)
    requires Parsed(text, t, l, []) && t.mode.Outside? && IsCloser(c) && TrackOne(t, c).Some?
    ensures Parsed(text + [c], TrackOne(t, c).value, l', [])
  {
    ParsedOutside(text, t, l);
    TopLevel(t, c, l);
    WrapPrints(l, c);
    l' := Wrap(l);
    ParsedOutside(text + [c], TrackOne(t, c).value, l');
  }

  lemma {:induction false} PlainStep(text: string, t: Tracker, c: char, l: Levels) returns (l': Levels)
    requires Parsed(text, t, l, []) && t.mode.Outside? && TrackOne(t, c).Some?
    ensures Parsed(text + [c], TrackOne(t, c).value, l', [])
  {
    assert text == PrintLevels(l);
    if IsCloser(c) {
      l' := CloseLevel(text, t, c, l);
    } else if IsOpener(c) {
      l' := Level(l, c == '{', Empty);
      assert PrintLevels(l') == PrintLevels(l) + [c];
      assert PrintLevels(l') + "" == PrintLevels(l');
    } else if c == '"' {
      l' := l;
      assert ['"'] + Spell([]) == ['"'];
    } else {
      l' := l.(doc := Other(l.doc, c));
      Grow(l, l'.doc, [c]);
      assert PrintLevels(l') + "" == PrintLevels(l');
    }
  }

  lemma {:induction false} TrackedIsParsed(text: string) returns (l: Levels, body: seq<Unit>)
    requires Track(text).Some?
    ensures Parsed(text, Track(text).value, l, body)
    ensures Track(text).value.mode.Outside? ==> body == []
  {
    if text == "" {
      l, body := Top(Empty), [];
    } else {
      var before, c := text[..|text| - 1], text[|text| - 1];
      l, body := TrackedIsParsed(before);
      assert before + [c] == text;
      if Track(before).value.mode.Outside? {
        l := PlainStep(before, Track(before).value, c, l);
      } else {
        l, body := StringStep(before, Track(before).value, c, l, body);
      }
    }
  }

  /** A text is balanced exactly when it is a printed document. */
  lemma {:induction false} BalancedIff(text: string)
    ensures Balanced(text) <==> exists d :: DocOk(d) && Print(d) == text
  {
    if Balanced(text) {
      var l, body := TrackedIsParsed(text);
      assert l.Top? && DocOk(l.doc) && text == Print(l.doc) + "";
      assert Print(l.doc) == text;
    }
    if d :| DocOk(d) && Print(d) == text {
      PrintTracks("", "", d);
      assert "" + text == text;
    }
  }
}
