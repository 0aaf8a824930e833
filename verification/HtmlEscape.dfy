/** `html_escape` of crates/edgeclaw-server/src/handlers.rs: five whole-string replacements in a row. */
module HtmlEscape {
  /** `s.replace(c, entity)`. */
  function Replace(s: string, c: char, entity: string): string {
    if s == [] then [] else (if s[0] == c then entity else [s[0]]) + Replace(s[1..], c, entity)
  }

  const AMP: string := "&amp;"
  const LT: string := "&lt;"
  const GT: string := "&gt;"
  const QUOT: string := "&quot;"
  const APOS: string := "&#x27;"

  function Escape(s: string): string {
    Replace(Replace(Replace(Replace(Replace(s, '&', AMP), '<', LT), '>', GT), '"', QUOT), '\'', APOS)
  }

  function EscapeChar(c: char): string {
    match c
    case '&' => AMP
    case '<' => LT
    case '>' => GT
    case '"' => QUOT
    case '\'' => APOS
    case _ => [c]
  }

  /** One pass, one character at a time. */
  function EscapeOnce(s: string): string {
    if s == [] then [] else EscapeChar(s[0]) + EscapeOnce(s[1..])
  }

  lemma ReplaceCons(d: char, s: string, c: char, entity: string)
    ensures Replace([], c, entity) == []
    ensures Replace([d] + s, c, entity) == (if d == c then entity else [d]) + Replace(s, c, entity)
  {
    assert ([d] + s)[1..] == s;
  }

  lemma {:induction false} ReplaceConcat(a: string, b: string, c: char, entity: string)
    ensures Replace(a + b, c, entity) == Replace(a, c, entity) + Replace(b, c, entity)
  {
    hide Replace;
    if a == [] {
      assert a + b == b;
      ReplaceCons(c, b, c, entity);
    } else {
      ReplaceConcat(a[1..], b, c, entity);
      ReplaceCons(a[0], a[1..], c, entity);
      ReplaceCons(a[0], a[1..] + b, c, entity);
      assert a == [a[0]] + a[1..] && a + b == [a[0]] + (a[1..] + b);
    }
  }

  lemma {:induction false} ReplaceAbsent(s: string, c: char, entity: string)
    requires c !in s
    ensures Replace(s, c, entity) == s
  {
    if s == [] {
    } else {
      ReplaceAbsent(s[1..], c, entity);
    }
  }

  lemma ReplaceOne(c: char, d: char, entity: string)
    ensures Replace([c], d, entity) == if c == d then entity else [c]
  {
    assert [c][1..] == [];
    assert Replace([c], d, entity) == (if c == d then entity else [c]) + Replace([], d, entity);
  }

  /** Escaping goes character by character. */
  lemma EscapeConcat(a: string, b: string)
    ensures Escape(a + b) == Escape(a) + Escape(b)
  {
    ReplaceConcat(a, b, '&', AMP);
    var a1, b1 := Replace(a, '&', AMP), Replace(b, '&', AMP);
    ReplaceConcat(a1, b1, '<', LT);
    var a2, b2 := Replace(a1, '<', LT), Replace(b1, '<', LT);
    ReplaceConcat(a2, b2, '>', GT);
    var a3, b3 := Replace(a2, '>', GT), Replace(b2, '>', GT);
    ReplaceConcat(a3, b3, '"', QUOT);
    ReplaceConcat(Replace(a3, '"', QUOT), Replace(b3, '"', QUOT), '\'', APOS);
  }

  /** The last four replacements leave a string without their characters alone. */
  lemma LaterPassesKeep(s: string)
    requires '<' !in s && '>' !in s && '"' !in s && '\'' !in s
    ensures Replace(s, '<', LT) == s && Replace(s, '>', GT) == s
    ensures Replace(s, '"', QUOT) == s && Replace(s, '\'', APOS) == s
  {
    ReplaceAbsent(s, '<', LT);
    ReplaceAbsent(s, '>', GT);
    ReplaceAbsent(s, '"', QUOT);
    ReplaceAbsent(s, '\'', APOS);
  }

  /** Each character is replaced by its own replacement and left alone by the others; later
      replacements leave the entities of earlier ones alone. */
  lemma EscapeOfOne(c: char)
    ensures Escape([c]) == EscapeChar(c)
  {
    ReplaceOne(c, '&', AMP);
    ReplaceOne(c, '<', LT);
    ReplaceOne(c, '>', GT);
    ReplaceOne(c, '"', QUOT);
    ReplaceOne(c, '\'', APOS);
    LaterPassesKeep(EscapeChar(c));
  }

  /** The five replacements in a row are one pass over the characters. */
  lemma {:induction false} EscapeIsOnePass(s: string)
    ensures Escape(s) == EscapeOnce(s)
  {
    if s == [] {
    } else {
      EscapeIsOnePass(s[1..]);
      EscapeConcat([s[0]], s[1..]);
      EscapeOfOne(s[0]);
      assert s == [s[0]] + s[1..];
    }
  }

  predicate Inert(s: string) {
    '<' !in s && '>' !in s && '"' !in s && '\'' !in s
  }

  lemma {:induction false} OnePassIsInert(s: string)
    ensures Inert(EscapeOnce(s))
  {
    if s == [] {
    } else {
      OnePassIsInert(s[1..]);
      var head := EscapeChar(s[0]);
      assert Inert(head);
    }
  }

  /** Nothing that could open or close markup or an attribute survives. */
  lemma EscapeIsInert(s: string)
    ensures Inert(Escape(s))
  {
    EscapeIsOnePass(s);
    OnePassIsInert(s);
  }

  /** What the five entities stand for in HTML. */
  function Decode(s: string): string
    decreases |s|
  {
    if s == [] then []
    else if s[0] != '&' then [s[0]] + Decode(s[1..])
    else if "&amp;" <= s then "&" + Decode(s[5..])
    else if "&lt;" <= s then "<" + Decode(s[4..])
    else if "&gt;" <= s then ">" + Decode(s[4..])
    else if "&quot;" <= s then "\"" + Decode(s[6..])
    else if "&#x27;" <= s then "'" + Decode(s[6..])
    else "&" + Decode(s[1..])
  }

  /** An entity is told from the others by its second character. */
  lemma OtherEntity(other: string, entity: string, rest: string)
    requires |other| > 1 && |entity| > 1 && other[1] != entity[1]
    ensures !(other <= entity + rest)
  {
    assert (entity + rest)[1] == entity[1];
  }

  lemma DecodeOne(c: char, rest: string)
    ensures Decode(EscapeChar(c) + rest) == [c] + Decode(rest)
  {
    var entity := EscapeChar(c);
    var s := entity + rest;
    assert s[|entity|..] == rest && s[0] == entity[0] && entity <= s;
    match c
    case '&' =>
    case '<' => OtherEntity(AMP, LT, rest);
    case '>' => OtherEntity(AMP, GT, rest); OtherEntity(LT, GT, rest);
    case '"' => OtherEntity(AMP, QUOT, rest); OtherEntity(LT, QUOT, rest); OtherEntity(GT, QUOT, rest);
    case '\'' =>
      OtherEntity(AMP, APOS, rest);
      OtherEntity(LT, APOS, rest);
      OtherEntity(GT, APOS, rest);
      OtherEntity(QUOT, APOS, rest);
    case _ =>
  }

  /** Decoding undoes escaping on every string. */
  lemma {:induction false} DecodeUndoesEscape(s: string)
    ensures Decode(Escape(s)) == s
  {
    EscapeIsOnePass(s);
    if s == [] {
    } else {
      DecodeUndoesEscape(s[1..]);
      EscapeIsOnePass(s[1..]);
      DecodeOne(s[0], EscapeOnce(s[1..]));
    }
  }

  lemma EscapeIsInjective(s: string, t: string)
    ensures Escape(s) == Escape(t) ==> s == t
  {
    DecodeUndoesEscape(s);
    DecodeUndoesEscape(t);
  }
}
