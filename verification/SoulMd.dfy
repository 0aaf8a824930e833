/** The SOUL.md printer and parser of crates/agent-core/src/soul.rs. The frontmatter is read as block
    mapping lines `key: value` whose values are plain one-line scalars (YAML 1.2, section 7.3.3). */
module SoulMd {
  import opened Prelude
  import opened Strings

  datatype Archetype = Assistant | Engineer | Researcher | Operator | Mentor
  datatype Tone = Neutral | Friendly | Direct | Formal
  datatype Verbosity = Terse | Balanced | Thorough
  datatype DecisionStyle = Cautious | BalancedStyle | Autonomous

  datatype Soul = Soul(
    name: string,
    personality: string,
    archetype: Archetype,
    tone: Tone,
    verbosity: Verbosity,
    decisionStyle: DecisionStyle)

  datatype SoulParseError = MissingFrontmatter | InvalidYaml

  function DefaultSoul(): Soul {
    Soul("Assistant", "", Assistant, Neutral, Balanced, BalancedStyle)
  }

  predicate LowerWord(s: string) {
    s != "" && forall i :: 0 <= i < |s| ==> 'a' <= s[i] <= 'z'
  }

  function ShowArchetype(a: Archetype): (s: string)
    ensures LowerWord(s) && !NullWord(s)
  {
    match a
    case Assistant => "assistant"
    case Engineer => "engineer"
    case Researcher => "researcher"
    case Operator => "operator"
    case Mentor => "mentor"
  }

  function ReadArchetype(s: string): Option<Archetype> {
    if s == "assistant" then Some(Assistant)
    else if s == "engineer" then Some(Engineer)
    else if s == "researcher" then Some(Researcher)
    else if s == "operator" then Some(Operator)
    else if s == "mentor" then Some(Mentor)
    else None
  }

  function ShowTone(t: Tone): (s: string)
    ensures LowerWord(s) && !NullWord(s)
  {
    match t
    case Neutral => "neutral"
    case Friendly => "friendly"
    case Direct => "direct"
    case Formal => "formal"
  }

  function ReadTone(s: string): Option<Tone> {
    if s == "neutral" then Some(Neutral)
    else if s == "friendly" then Some(Friendly)
    else if s == "direct" then Some(Direct)
    else if s == "formal" then Some(Formal)
    else None
  }

  function ShowVerbosity(v: Verbosity): (s: string)
    ensures LowerWord(s) && !NullWord(s)
  {
    match v
    case Terse => "terse"
    case Balanced => "balanced"
    case Thorough => "thorough"
  }

  function ReadVerbosity(s: string): Option<Verbosity> {
    if s == "terse" then Some(Terse)
    else if s == "balanced" then Some(Balanced)
    else if s == "thorough" then Some(Thorough)
    else None
  }

  function ShowStyle(d: DecisionStyle): (s: string)
    ensures LowerWord(s) && !NullWord(s)
  {
    match d
    case Cautious => "cautious"
    case BalancedStyle => "balanced"
    case Autonomous => "autonomous"
  }

  function ReadStyle(s: string): Option<DecisionStyle> {
    if s == "cautious" then Some(Cautious)
    else if s == "balanced" then Some(BalancedStyle)
    else if s == "autonomous" then Some(Autonomous)
    else None
  }

  // ---------------------------------------------------------------- printing

  function FrontmatterLines(soul: Soul): seq<string> {
    ["name: " + soul.name,
     "archetype: " + ShowArchetype(soul.archetype),
     "tone: " + ShowTone(soul.tone),
     "verbosity: " + ShowVerbosity(soul.verbosity),
     "decision_style: " + ShowStyle(soul.decisionStyle)]
  }

  /** Each line preceded by its newline. */
  function Block(lines: seq<string>): string {
    if lines == [] then "" else "\n" + lines[0] + Block(lines[1..])
  }

  function Body(personality: string): string {
    "\n" + if personality == "" then "" else "\n" + personality + "\n"
  }

  function ToSoulMd(soul: Soul): string {
    "---" + Block(FrontmatterLines(soul)) + "\n---" + Body(soul.personality)
  }

  /** `to_soul_md`, appending piece by piece. */
  method WriteSoulMd(soul: Soul) returns (out: string)
    ensures out == ToSoulMd(soul)
    ensures var front := "---\n"
              + "name: " + soul.name + "\n"
              + "archetype: " + ShowArchetype(soul.archetype) + "\n"
              + "tone: " + ShowTone(soul.tone) + "\n"
              + "verbosity: " + ShowVerbosity(soul.verbosity) + "\n"
              + "decision_style: " + ShowStyle(soul.decisionStyle) + "\n"
              + "---\n";
            out == if soul.personality == "" then front else front + "\n" + soul.personality + "\n"
  {
    hide ShowArchetype, ShowTone, ShowVerbosity, ShowStyle;
    var archetype, tone := ShowArchetype(soul.archetype), ShowTone(soul.tone);
    var verbosity, style := ShowVerbosity(soul.verbosity), ShowStyle(soul.decisionStyle);
    ghost var lines := FrontmatterLines(soul);
    out := "---\n";
    assert out == Opened(lines[..0]);
    OpenedPush(lines, 0, out, "name: ", soul.name);
    out := out + "name: " + soul.name + "\n";
    OpenedPush(lines, 1, out, "archetype: ", archetype);
    out := out + "archetype: " + archetype + "\n";
    OpenedPush(lines, 2, out, "tone: ", tone);
    out := out + "tone: " + tone + "\n";
    OpenedPush(lines, 3, out, "verbosity: ", verbosity);
    out := out + "verbosity: " + verbosity + "\n";
    OpenedPush(lines, 4, out, "decision_style: ", style);
    out := out + "decision_style: " + style + "\n";
    assert out == Opened(lines) by { assert lines[..5] == lines; }
    out := out + "---\n";
    assert out == "---" + Block(lines) + "\n---" + "\n";
    if soul.personality != "" {
      out := out + "\n" + soul.personality + "\n";
    }
  }

  ghost function Opened(lines: seq<string>): string {
    "---" + Block(lines) + "\n"
  }

  lemma OpenedPush(lines: seq<string>, n: nat, out: string, key: string, value: string)
    requires n < |lines| && lines[n] == key + value && out == Opened(lines[..n])
    ensures out + key + value + "\n" == Opened(lines[..n + 1])
  {
    BlockSnoc(lines[..n], lines[n]);
    assert lines[..n + 1] == lines[..n] + [lines[n]];
    assert out + key + value == out + lines[n];
  }

  lemma {:induction false} BlockSnoc(lines: seq<string>, line: string)
    ensures Block(lines + [line]) == Block(lines) + ("\n" + line)
  {
    if lines == [] {
      assert Block([line]) == "\n" + line + Block([]);
    } else {
      BlockSnoc(lines[1..], line);
      hide Block;
      assert (lines + [line])[1..] == lines[1..] + [line];
      BlockCons(lines);
      BlockCons(lines + [line]);
    }
  }

  // ---------------------------------------------------------------- trimming

  /** `char::is_whitespace`. */
  predicate IsWhite(c: char) {
    || '\t' <= c <= '\r' || c == ' ' || c == '\U{0085}' || c == '\U{00A0}' || c == '\U{1680}'
    || '\U{2000}' <= c <= '\U{200A}'
    || c == '\U{2028}' || c == '\U{2029}' || c == '\U{202F}' || c == '\U{205F}' || c == '\U{3000}'
  }

  predicate Dashes(c: char) {
    c == '\n' || c == '\r' || c == '-'
  }

  predicate IsBlank(c: char) {
    c == ' ' || c == '\t'
  }

  function DropWhile(s: string, drop: char -> bool): (r: string)
    ensures |r| <= |s| && r == s[|s| - |r|..]
    ensures r != "" ==> !drop(r[0])
    ensures s != "" && !drop(s[0]) ==> r == s
    ensures s != "" && drop(s[0]) ==> |r| < |s|
  {
    if s != "" && drop(s[0]) then DropWhile(s[1..], drop) else s
  }

  function DropEnd(s: string, drop: char -> bool): (r: string)
    ensures r <= s
    ensures r != "" ==> !drop(r[|r| - 1])
    ensures s != "" && !drop(s[|s| - 1]) ==> r == s
    ensures s != "" && drop(s[|s| - 1]) ==> |r| < |s|
  {
    if s != "" && drop(s[|s| - 1]) then DropEnd(s[..|s| - 1], drop) else s
  }

  function TrimBy(s: string, drop: char -> bool): string {
    DropEnd(DropWhile(s, drop), drop)
  }

  // ---------------------------------------------------------------- the frontmatter

  /** A printable character that is neither blank nor a line break. */
  predicate NsChar(c: char) {
    && (|| '\U{0021}' <= c <= '\U{007E}' || '\U{00A0}' <= c <= '\U{D7FF}'
        || '\U{E000}' <= c <= '\U{FFFD}' || '\U{10000}' <= c)
    && c != '\U{2028}' && c != '\U{2029}' && c != '\U{FEFF}'
  }

  predicate Indicator(c: char) {
    c in "-?:,[]{}#&*!|>'\"%@`"
  }

  predicate PlainAt(s: string, i: int)
    requires 0 <= i < |s|
  {
    || IsBlank(s[i])
    || (&& NsChar(s[i])
        && (s[i] == ':' ==> i + 1 < |s| && NsChar(s[i + 1]))
        && (s[i] == '#' ==> i > 0 && NsChar(s[i - 1])))
  }

  /** A plain scalar on one line, in block context. */
  predicate Plain(s: string) {
    && s != ""
    && NsChar(s[0]) && (Indicator(s[0]) ==> s[0] in "-?:" && |s| > 1 && NsChar(s[1]))
    && !IsBlank(s[|s| - 1])
    && forall i :: 0 <= i < |s| ==> PlainAt(s, i)
  }

  predicate NullWord(s: string) {
    s == "~" || s == "null" || s == "Null" || s == "NULL"
  }

  /** A mapping entry, a line without content, or something outside the subset. */
  datatype Line = Entry(key: string, value: Option<string>) | Empty | Unsupported

  function ReadLine(line: string): Line {
    if TrimBy(line, IsBlank) == "" then Empty
    else
      match SplitOnce(line, ": ")
      case None => if line[|line| - 1] == ':' then Entry(line[..|line| - 1], None) else Unsupported
      case Some((key, rest)) =>
        var value := TrimBy(rest, IsBlank);
        if value == "" || NullWord(value) then Entry(key, None)
        else if Plain(value) then Entry(key, Some(value))
        else Unsupported
  }

  function FirstNewline(s: string): (n: nat)
    ensures n <= |s| && (n < |s| ==> s[n] == '\n') && forall i :: 0 <= i < n ==> s[i] != '\n'
  {
    if s == "" || s[0] == '\n' then 0 else 1 + FirstNewline(s[1..])
  }

  function Lines(s: string): seq<string>
    decreases |s|
  {
    var n := FirstNewline(s);
    if n == |s| then [s] else [s[..n]] + Lines(s[n + 1..])
  }

  predicate Known(key: string) {
    key in {"name", "archetype", "tone", "verbosity", "decision_style"}
  }

  /** A known key may not repeat; an unknown one is passed over. */
  function ReadLines(lines: seq<string>, fields: map<string, Option<string>>)
    : Result<map<string, Option<string>>, SoulParseError>
  {
    if lines == [] then Ok(fields)
    else
      match ReadLine(lines[0])
      case Empty => ReadLines(lines[1..], fields)
      case Unsupported => Err(InvalidYaml)
      case Entry(key, value) =>
        if !Known(key) then ReadLines(lines[1..], fields)
        else if key in fields then Err(InvalidYaml)
        else ReadLines(lines[1..], fields[key := value])
  }

  function Field(fields: map<string, Option<string>>, key: string): Option<string> {
    if key in fields then fields[key] else None
  }

  function OrElse<T>(o: Option<T>, default: T): T {
    if o.Some? then o.value else default
  }

  function Personality(body: string): string {
    TrimBy(DropWhile(body, Dashes), IsWhite)
  }

  function SoulOf(fields: map<string, Option<string>>, personality: string): Soul {
    var d := DefaultSoul();
    var (archetype, tone) := (Field(fields, "archetype"), Field(fields, "tone"));
    var (verbosity, style) := (Field(fields, "verbosity"), Field(fields, "decision_style"));
    Soul(OrElse(Field(fields, "name"), d.name),
         personality,
         if archetype.None? then d.archetype else OrElse(ReadArchetype(archetype.value), d.archetype),
         if tone.None? then d.tone else OrElse(ReadTone(tone.value), d.tone),
         if verbosity.None? then d.verbosity else OrElse(ReadVerbosity(verbosity.value), d.verbosity),
         if style.None? then d.decisionStyle else OrElse(ReadStyle(style.value), d.decisionStyle))
  }

  /** The YAML library: the fields of a frontmatter, or an error. */
  type YamlReader = string -> Result<map<string, Option<string>>, SoulParseError>

  /** What it makes of lines with plain scalars. */
  function ReadFrontmatter(yaml: string): Result<map<string, Option<string>>, SoulParseError> {
    ReadLines(Lines(yaml), map[])
  }

  /** `parse_soul_md`, whatever the library accepts. */
  function ParseSoulMd(read: YamlReader, input: string): Result<Soul, SoulParseError> {
    var trimmed := DropWhile(input, IsWhite);
    if !("---" <= trimmed) then Err(MissingFrontmatter)
    else
      match SplitOnce(trimmed[3..], "\n---")
      case None => Err(MissingFrontmatter)
      case Some((yaml, body)) =>
        match read(yaml)
        case Err(e) => Err(e)
        case Ok(fields) => Ok(SoulOf(fields, Personality(body)))
  }

  // ---------------------------------------------------------------- the closing delimiter

  predicate FrontLine(line: string) {
    line != "" && line[0] != '-' && '\n' !in line
  }

  /** No line break inside the printed frontmatter begins a delimiter. */
  lemma {:induction false} BreaksOpenLines(lines: seq<string>, i: nat)
    requires forall k :: 0 <= k < |lines| ==> FrontLine(lines[k])
    requires i < |Block(lines)| && Block(lines)[i] == '\n'
    ensures i + 1 < |Block(lines)| && Block(lines)[i + 1] != '-'
  {
    var (line, rest) := (lines[0], Block(lines[1..]));
    assert Block(lines) == "\n" + line + rest;
    if i == 0 {
      assert Block(lines)[1] == line[0];
    } else if i > |line| {
      BreaksOpenLines(lines[1..], i - 1 - |line|);
    }
  }

  lemma NoDelimiterAt(lines: seq<string>, body: string, i: nat)
    requires forall k :: 0 <= k < |lines| ==> FrontLine(lines[k])
    requires i < |Block(lines)|
    ensures !OccursAt(Block(lines) + "\n---" + body, "\n---", i)
  {
    hide Block;
    var s := Block(lines) + "\n---" + body;
    if OccursAt(s, "\n---", i) {
      OccursCharwise(s, "\n---", i, 0);
      OccursCharwise(s, "\n---", i, 1);
      BreaksOpenLines(lines, i);
    }
  }

  /** The first `\n---` of a printed file is the closing delimiter. */
  lemma SplitsAtDelimiter(lines: seq<string>, body: string)
    requires forall k :: 0 <= k < |lines| ==> FrontLine(lines[k])
    ensures SplitOnce(Block(lines) + "\n---" + body, "\n---") == Some((Block(lines), body))
  {
    var front := Block(lines);
    forall i: nat | i < |front| ensures !OccursAt(front + "\n---" + body, "\n---", i) {
      NoDelimiterAt(lines, body, i);
    }
    SplitOnceIs(front, "\n---", body);
  }

  lemma FirstNewlineIs(before: string, after: string)
    requires '\n' !in before && (after == "" || after[0] == '\n')
    ensures FirstNewline(before + after) == |before|
  {
    var (s, n) := (before + after, FirstNewline(before + after));
    assert after != "" ==> s[|before|] == after[0];
    forall j | 0 <= j < |before| ensures s[j] != '\n' {
      assert s[j] == before[j] && before[j] in before;
    }
  }

  lemma {:induction false} LinesOf(line: string, rest: seq<string>)
    requires '\n' !in line && forall k :: 0 <= k < |rest| ==> '\n' !in rest[k]
    ensures Lines(line + Block(rest)) == [line] + rest
    decreases |rest|
  {
    if rest == [] {
      LastLine(line);
      assert line + Block(rest) == line;
    } else {
      LinesOf(rest[0], rest[1..]);
      hide Block, Lines;
      BlockCons(rest);
      FirstLine(line, rest[0] + Block(rest[1..]));
    }
  }

  lemma LastLine(line: string)
    requires '\n' !in line
    ensures Lines(line) == [line]
  {
    FirstNewlineIs(line, "");
    assert line + "" == line;
  }

  lemma BlockCons(lines: seq<string>)
    requires lines != []
    ensures Block(lines) == "\n" + (lines[0] + Block(lines[1..]))
  {
  }

  lemma FirstLine(line: string, rest: string)
    requires '\n' !in line
    ensures Lines(line + ("\n" + rest)) == [line] + Lines(rest)
  {
    var s := line + ("\n" + rest);
    FirstNewlineIs(line, "\n" + rest);
    assert s[..|line|] == line && s[|line| + 1..] == rest;
  }

  // ---------------------------------------------------------------- one line

  lemma TrimIsIdentity(s: string, drop: char -> bool)
    requires s == "" || (!drop(s[0]) && !drop(s[|s| - 1]))
    ensures TrimBy(s, drop) == s
  {
  }

  lemma {:induction false} DropEndKeepsFirst(s: string, drop: char -> bool)
    requires s != "" && !drop(s[0])
    ensures DropEnd(s, drop) != ""
    decreases |s|
  {
    if drop(s[|s| - 1]) {
      DropEndKeepsFirst(s[..|s| - 1], drop);
    }
  }

  function Value(value: string): Option<string> {
    if value == "" || NullWord(value) then None else Some(value)
  }

  lemma ReadsBackLine(key: string, value: string)
    requires key != "" && !IsBlank(key[0]) && ':' !in key && (value == "" || Plain(value))
    ensures ReadLine(key + ": " + value) == Entry(key, Value(value))
  {
    hide Plain, NsChar;
    var line := key + ": " + value;
    assert TrimBy(line, IsBlank) != "" by {
      assert line[0] == key[0];
      DropEndKeepsFirst(line, IsBlank);
    }
    SplitsAtColon(key, value);
    assert TrimBy(value, IsBlank) == value by {
      PlainIsTrimmed(value);
    }
  }

  lemma SplitsAtColon(key: string, value: string)
    requires ':' !in key
    ensures SplitOnce(key + ": " + value, ": ") == Some((key, value))
  {
    var line := key + ": " + value;
    forall i: nat | i < |key| ensures !OccursAt(line, ": ", i) {
      if OccursAt(line, ": ", i) {
        OccursCharwise(line, ": ", i, 0);
      }
    }
    SplitOnceIs(key, ": ", value);
  }

  lemma PlainIsTrimmed(value: string)
    requires value == "" || Plain(value)
    ensures TrimBy(value, IsBlank) == value
  {
    TrimIsIdentity(value, IsBlank);
  }

  lemma LowerWordIsPlain(s: string)
    requires LowerWord(s)
    ensures Plain(s)
  {
    forall i | 0 <= i < |s| ensures PlainAt(s, i) {
      assert 'a' <= s[i] <= 'z';
    }
    assert !Indicator(s[0]);
  }

  lemma ReadsBackEntry(key: string, value: string, rest: seq<string>, fields: map<string, Option<string>>)
    requires Known(key) && key !in fields && (value == "" || Plain(value))
    ensures ReadLines([key + ": " + value] + rest, fields) == ReadLines(rest, fields[key := Value(value)])
  {
    assert key[0] in "natvd" && ':' !in key;
    ReadsBackLine(key, value);
    assert ([key + ": " + value] + rest)[1..] == rest;
  }

  // ---------------------------------------------------------------- the round trip

  /** What `parse_soul_md` makes of a printed name: an empty or null scalar is an absent one. */
  function Named(name: string): string {
    if name == "" || NullWord(name) then DefaultSoul().name else name
  }

  lemma NamedIff(name: string)
    ensures Named(name) == name <==> name !in {"", "~", "null", "Null", "NULL"}
  {
  }

  /** The personalities that both `trim` and `trim_start_matches` leave alone. */
  predicate Clean(personality: string) {
    || personality == ""
    || (!IsWhite(personality[0]) && personality[0] != '-' && !IsWhite(personality[|personality| - 1]))
  }

  lemma EnumsReadBack(soul: Soul)
    ensures ReadArchetype(ShowArchetype(soul.archetype)) == Some(soul.archetype)
    ensures ReadTone(ShowTone(soul.tone)) == Some(soul.tone)
    ensures ReadVerbosity(ShowVerbosity(soul.verbosity)) == Some(soul.verbosity)
    ensures ReadStyle(ShowStyle(soul.decisionStyle)) == Some(soul.decisionStyle)
  {
  }

  /** No other word is read as a given value. */
  lemma EnumsReadOnlyPrinted(s: string, a: Archetype, t: Tone, v: Verbosity, d: DecisionStyle)
    ensures ReadArchetype(s) == Some(a) <==> s == ShowArchetype(a)
    ensures ReadTone(s) == Some(t) <==> s == ShowTone(t)
    ensures ReadVerbosity(s) == Some(v) <==> s == ShowVerbosity(v)
    ensures ReadStyle(s) == Some(d) <==> s == ShowStyle(d)
  {
    EnumsReadBack(Soul("", "", a, t, v, d));
  }

  /** The words of the four enums; `balanced` is a verbosity and a decision style. */
  lemma EnumWords(s: string)
    ensures ReadArchetype(s) == Some(Assistant) <==> s == "assistant"
    ensures ReadArchetype(s) == Some(Engineer) <==> s == "engineer"
    ensures ReadArchetype(s) == Some(Researcher) <==> s == "researcher"
    ensures ReadArchetype(s) == Some(Operator) <==> s == "operator"
    ensures ReadArchetype(s) == Some(Mentor) <==> s == "mentor"
    ensures ReadTone(s) == Some(Neutral) <==> s == "neutral"
    ensures ReadTone(s) == Some(Friendly) <==> s == "friendly"
    ensures ReadTone(s) == Some(Direct) <==> s == "direct"
    ensures ReadTone(s) == Some(Formal) <==> s == "formal"
    ensures ReadVerbosity(s) == Some(Terse) <==> s == "terse"
    ensures ReadVerbosity(s) == Some(Balanced) <==> s == "balanced"
    ensures ReadVerbosity(s) == Some(Thorough) <==> s == "thorough"
    ensures ReadStyle(s) == Some(Cautious) <==> s == "cautious"
    ensures ReadStyle(s) == Some(BalancedStyle) <==> s == "balanced"
    ensures ReadStyle(s) == Some(Autonomous) <==> s == "autonomous"
  {}

  predicate Lacks(fields: map<string, Option<string>>, key: string) {
    key !in fields || fields[key] == None
  }

  /** A field that is absent, or holds a word its enum does not have, is read as its default. */
  lemma DefaultsFillIn(fields: map<string, Option<string>>, p: string)
    ensures var soul := SoulOf(fields, p);
      && soul.personality == p
      && (Lacks(fields, "name") ==> soul.name == "Assistant")
      && (if Lacks(fields, "archetype") then soul.archetype == Archetype.Assistant
          else soul.archetype == OrElse(ReadArchetype(fields["archetype"].value), Archetype.Assistant))
      && (if Lacks(fields, "tone") then soul.tone == Neutral
          else soul.tone == OrElse(ReadTone(fields["tone"].value), Neutral))
      && (if Lacks(fields, "verbosity") then soul.verbosity == Balanced
          else soul.verbosity == OrElse(ReadVerbosity(fields["verbosity"].value), Balanced))
      && (if Lacks(fields, "decision_style") then soul.decisionStyle == BalancedStyle
          else soul.decisionStyle == OrElse(ReadStyle(fields["decision_style"].value), BalancedStyle))
  {
    hide ReadArchetype, ReadTone, ReadVerbosity, ReadStyle;
  }

  function FieldsOf(soul: Soul): map<string, Option<string>> {
    map["name" := Value(soul.name),
        "archetype" := Some(ShowArchetype(soul.archetype)),
        "tone" := Some(ShowTone(soul.tone)),
        "verbosity" := Some(ShowVerbosity(soul.verbosity)),
        "decision_style" := Some(ShowStyle(soul.decisionStyle))]
  }

  lemma ReadsBackWord(key: string, value: string, rest: seq<string>, fields: map<string, Option<string>>)
    requires Known(key) && key !in fields && LowerWord(value) && !NullWord(value)
    ensures ReadLines([key + ": " + value] + rest, fields) == ReadLines(rest, fields[key := Some(value)])
  {
    LowerWordIsPlain(value);
    ReadsBackEntry(key, value, rest, fields);
  }

  lemma FrontmatterReadsBack(soul: Soul)
    requires soul.name == "" || Plain(soul.name)
    ensures ReadLines([""] + FrontmatterLines(soul), map[]) == Ok(FieldsOf(soul))
  {
    hide Plain, LowerWord, NullWord, ReadLines, ShowArchetype, ShowTone, ShowVerbosity, ShowStyle;
    var lines := FrontmatterLines(soul);
    var f1 := map["name" := Value(soul.name)];
    var f2 := f1["archetype" := Some(ShowArchetype(soul.archetype))];
    var f3 := f2["tone" := Some(ShowTone(soul.tone))];
    var f4 := f3["verbosity" := Some(ShowVerbosity(soul.verbosity))];
    BlankLineIsSkipped(lines);
    Uncons(lines, 0);
    assert lines[0] == "name" + ": " + soul.name;
    ReadsBackEntry("name", soul.name, lines[1..], map[]);
    Uncons(lines, 1);
    assert lines[1] == "archetype" + ": " + ShowArchetype(soul.archetype);
    ReadsBackWord("archetype", ShowArchetype(soul.archetype), lines[2..], f1);
    Uncons(lines, 2);
    assert lines[2] == "tone" + ": " + ShowTone(soul.tone);
    ReadsBackWord("tone", ShowTone(soul.tone), lines[3..], f2);
    Uncons(lines, 3);
    assert lines[3] == "verbosity" + ": " + ShowVerbosity(soul.verbosity);
    ReadsBackWord("verbosity", ShowVerbosity(soul.verbosity), lines[4..], f3);
    Uncons(lines, 4);
    assert lines[4] == "decision_style" + ": " + ShowStyle(soul.decisionStyle);
    ReadsBackWord("decision_style", ShowStyle(soul.decisionStyle), lines[5..], f4);
    assert f4["decision_style" := Some(ShowStyle(soul.decisionStyle))] == FieldsOf(soul);
    NoLinesLeft(lines[5..], FieldsOf(soul));
  }

  lemma NoLinesLeft(lines: seq<string>, fields: map<string, Option<string>>)
    requires |lines| == 0
    ensures ReadLines(lines, fields) == Ok(fields)
  {
  }

  lemma Uncons(lines: seq<string>, n: nat)
    requires n < |lines|
    ensures lines[n..] == [lines[n]] + lines[n + 1..]
  {
  }

  lemma BlankLineIsSkipped(lines: seq<string>)
    ensures ReadLines([""] + lines, map[]) == ReadLines(lines[0..], map[])
  {
    assert ([""] + lines)[1..] == lines[0..];
  }

  lemma FrontLineOf(key: string, value: string)
    requires key != "" && key[0] != '-' && '\n' !in key && (value == "" || Plain(value))
    ensures FrontLine(key + value)
  {
    forall i | 0 <= i < |value| ensures value[i] != '\n' {
      assert PlainAt(value, i);
    }
  }

  lemma FrontmatterLinesAreFront(soul: Soul)
    requires soul.name == "" || Plain(soul.name)
    ensures forall k :: 0 <= k < |FrontmatterLines(soul)| ==> FrontLine(FrontmatterLines(soul)[k])
  {
    hide Plain, LowerWord, NullWord, FrontLine, ShowArchetype, ShowTone, ShowVerbosity, ShowStyle;
    LowerWordIsPlain(ShowArchetype(soul.archetype));
    LowerWordIsPlain(ShowTone(soul.tone));
    LowerWordIsPlain(ShowVerbosity(soul.verbosity));
    LowerWordIsPlain(ShowStyle(soul.decisionStyle));
    FrontLineOf("name: ", soul.name);
    FrontLineOf("archetype: ", ShowArchetype(soul.archetype));
    FrontLineOf("tone: ", ShowTone(soul.tone));
    FrontLineOf("verbosity: ", ShowVerbosity(soul.verbosity));
    FrontLineOf("decision_style: ", ShowStyle(soul.decisionStyle));
  }

  lemma PrintedSplits(soul: Soul)
    requires soul.name == "" || Plain(soul.name)
    ensures var text := ToSoulMd(soul);
      && DropWhile(text, IsWhite) == text && "---" <= text
      && SplitOnce(text[3..], "\n---") == Some((Block(FrontmatterLines(soul)), Body(soul.personality)))
  {
    hide Plain, FrontLine, Block, FrontmatterLines, SplitOnce, Body, IsWhite;
    FrontmatterLinesAreFront(soul);
    SplitsAtDelimiter(FrontmatterLines(soul), Body(soul.personality));
    PrintedText(soul);
    hide ToSoulMd, DropWhile;
  }

  lemma FrontmatterSplitsIntoLines(soul: Soul)
    requires soul.name == "" || Plain(soul.name)
    ensures Lines(Block(FrontmatterLines(soul))) == [""] + FrontmatterLines(soul)
  {
    hide Plain, FrontmatterLines, Block, Lines;
    var lines := FrontmatterLines(soul);
    FrontmatterLinesAreFront(soul);
    assert "" + Block(lines) == Block(lines);
    LinesOf("", lines);
  }

  /** The library reads the frontmatter printed for a plain name line by line. */
  ghost predicate ReadsPlainLines(read: YamlReader) {
    forall soul: Soul :: soul.name == "" || Plain(soul.name) ==>
      read(Block(FrontmatterLines(soul))) == ReadFrontmatter(Block(FrontmatterLines(soul)))
  }

  /** What the library gives for a frontmatter printed with a plain name. */
  lemma PlainFieldsReadBack(read: YamlReader, soul: Soul)
    requires ReadsPlainLines(read) && (soul.name == "" || Plain(soul.name))
    ensures read(Block(FrontmatterLines(soul))) == Ok(FieldsOf(soul))
  {
    FrontmatterSplitsIntoLines(soul);
    FrontmatterReadsBack(soul);
    hide Plain, FrontmatterLines, Block, Lines, FieldsOf, ReadLines;
  }

  lemma FieldsAreTheSoul(soul: Soul, personality: string)
    ensures SoulOf(FieldsOf(soul), personality) == soul.(name := Named(soul.name), personality := personality)
  {
    EnumsReadBack(soul);
    hide ShowArchetype, ShowTone, ShowVerbosity, ShowStyle, ReadArchetype, ReadTone, ReadVerbosity, ReadStyle;
  }

  lemma PersonalityReadsBackIff(p: string)
    ensures Personality(Body(p)) == p <==> Clean(p)
  {
    hide Personality, Body, Clean, TrimBy, DropWhile, IsWhite, Dashes;
    if p == "" {
      NoPersonality(p);
    } else {
      PersonalityIs(p);
      TrimmedIff(p);
    }
  }

  lemma NoPersonality(p: string)
    requires p == ""
    ensures Personality(Body(p)) == p && Clean(p)
  {
    hide IsWhite;
    assert Body(p) == "\n";
    assert DropWhile("\n", Dashes) == "";
  }

  lemma PersonalityIs(p: string)
    requires p != ""
    ensures Personality(Body(p)) == TrimBy(DropWhile(p + "\n", Dashes), IsWhite)
  {
    hide DropWhile, IsWhite, Dashes, TrimBy;
    BodyIs(p);
    hide Body;
    DropTwoBreaks(p + "\n");
  }

  lemma BodyIs(p: string)
    requires p != ""
    ensures Body(p) == "\n\n" + (p + "\n")
  {
    assert "\n" + ("\n" + p + "\n") == "\n\n" + (p + "\n");
  }

  lemma TrimmedIff(p: string)
    requires p != ""
    ensures TrimBy(DropWhile(p + "\n", Dashes), IsWhite) == p <==> Clean(p)
  {
    hide TrimBy, DropWhile, Clean, IsWhite, Dashes;
    if Clean(p) {
      CleanSurvives(p);
    }
    if TrimBy(DropWhile(p + "\n", Dashes), IsWhite) == p {
      SurvivorIsClean(p);
    }
  }

  lemma CleanSurvives(p: string)
    requires p != "" && Clean(p)
    ensures TrimBy(DropWhile(p + "\n", Dashes), IsWhite) == p
  {
    LineBreakIsWhite();
    hide IsWhite, DropWhile, DropEnd;
    var body := p + "\n";
    assert body[0] == p[0] && body[..|body| - 1] == p;
    assert DropWhile(body, Dashes) == body && DropWhile(body, IsWhite) == body;
    DropsLast(body, IsWhite);
  }

  lemma SurvivorIsClean(p: string)
    requires p != "" && TrimBy(DropWhile(p + "\n", Dashes), IsWhite) == p
    ensures Clean(p)
  {
    LineBreakIsWhite();
    hide IsWhite, DropWhile, DropEnd;
    var body := p + "\n";
    var undashed := DropWhile(body, Dashes);
    var started := DropWhile(undashed, IsWhite);
    assert p <= started && p[0] == started[0];
    SuffixLast(undashed, started);
    SuffixLast(body, undashed);
    assert |p| < |started|;
    assert body[0] == p[0];
  }

  lemma SuffixLast(s: string, r: string)
    requires |r| <= |s| && r == s[|s| - |r|..] && r != ""
    ensures r[|r| - 1] == s[|s| - 1]
  {
  }

  lemma DropsLast(s: string, drop: char -> bool)
    requires s != "" && drop(s[|s| - 1])
    ensures DropEnd(s, drop) == DropEnd(s[..|s| - 1], drop)
  {
  }

  lemma DashIsNotWhite()
    ensures !IsWhite('-')
  {
  }

  lemma LineBreakIsWhite()
    ensures IsWhite('\n') && IsWhite('\r')
  {
  }

  lemma DropTwoBreaks(body: string)
    ensures DropWhile("\n\n" + body, Dashes) == DropWhile(body, Dashes)
  {
    var s := "\n\n" + body;
    assert s[0] == '\n' && s[1] == '\n' && s[1..][1..] == body;
    assert DropWhile(s, Dashes) == DropWhile(s[1..], Dashes) == DropWhile(s[1..][1..], Dashes);
  }

  /** A soul with a plain or empty name survives printing and parsing exactly when its name is neither
      empty nor a null word, and its personality is trimmed and does not start with a dash. */
  lemma PlainRoundTripIff(read: YamlReader, soul: Soul)
    ensures ReadsPlainLines(read) && (soul.name == "" || Plain(soul.name)) ==>
              (ParseSoulMd(read, ToSoulMd(soul)) == Ok(soul)
               <==> soul.name !in {"", "~", "null", "Null", "NULL"} && Clean(soul.personality))
  {
    hide ParseSoulMd, ToSoulMd, Plain, Personality, Body, Clean;
    if ReadsPlainLines(read) && (soul.name == "" || Plain(soul.name)) {
      ParsePrinted(read, soul);
      PersonalityReadsBackIff(soul.personality);
      NamedIff(soul.name);
      hide Named, ReadsPlainLines;
    }
  }

  // ---------------------------------------------------------------- any name

  /** Everything printed after the name. */
  function AfterName(soul: Soul): string {
    Block(FrontmatterLines(soul)[1..]) + "\n---" + Body(soul.personality)
  }

  lemma PrintedIs(soul: Soul)
    ensures var text := ToSoulMd(soul);
      && DropWhile(text, IsWhite) == text && "---" <= text
      && text[3..] == Block(FrontmatterLines(soul)) + "\n---" + Body(soul.personality)
      && text[3..] == "\nname: " + soul.name + AfterName(soul)
  {
    PrintedText(soul);
    NameComesFirst(soul);
    hide ToSoulMd, Block, FrontmatterLines, Body, AfterName, DropWhile;
  }

  lemma PrintedText(soul: Soul)
    ensures var text := ToSoulMd(soul);
      && DropWhile(text, IsWhite) == text && "---" <= text
      && text[3..] == Block(FrontmatterLines(soul)) + "\n---" + Body(soul.personality)
  {
    hide IsWhite, Body, Block, FrontmatterLines;
    var text := ToSoulMd(soul);
    assert text == "---" + (Block(FrontmatterLines(soul)) + "\n---" + Body(soul.personality));
    DashIsNotWhite();
    assert text[0] == '-';
  }

  lemma NameComesFirst(soul: Soul)
    ensures Block(FrontmatterLines(soul)) + "\n---" + Body(soul.personality) == "\nname: " + soul.name + AfterName(soul)
  {
    var lines := FrontmatterLines(soul);
    BlockCons(lines);
    assert lines[0] == "name: " + soul.name;
    hide Block, FrontmatterLines, Body;
    var front, rest := "\nname: " + soul.name, Block(lines[1..]);
    assert "\n" + (lines[0] + rest) == front + rest;
    Regroup(front, rest, "\n---", Body(soul.personality));
  }

  lemma Regroup(a: string, b: string, c: string, d: string)
    ensures a + b + c + d == a + (b + c + d)
  {
  }

  lemma OtherLinesAreFront(soul: Soul)
    ensures forall k :: 0 <= k < |FrontmatterLines(soul)[1..]| ==> FrontLine(FrontmatterLines(soul)[1..][k])
  {
    var neutral := soul.(name := "");
    FrontmatterLinesAreFront(neutral);
    assert FrontmatterLines(neutral)[1..] == FrontmatterLines(soul)[1..];
    forall k | 0 <= k < |FrontmatterLines(soul)[1..]| ensures FrontLine(FrontmatterLines(soul)[1..][k]) {
      assert FrontmatterLines(soul)[1..][k] == FrontmatterLines(neutral)[k + 1];
    }
  }

  lemma OccursInPart(before: string, part: string, after: string, pat: string, i: int)
    requires |before| <= i <= |before| + |part| - |pat|
    ensures OccursAt(before + part + after, pat, i) <==> OccursAt(part, pat, i - |before|)
  {
    var s := before + part + after;
    assert s[i..i + |pat|] == part[i - |before|..i - |before| + |pat|];
  }

  /** Before the closing delimiter there is another one only inside the name. */
  lemma DelimiterInName(soul: Soul, i: nat)
    requires i < |Block(FrontmatterLines(soul))|
    requires OccursAt("\nname: " + soul.name + AfterName(soul), "\n---", i)
    ensures Contains(soul.name, "\n---") && 7 <= i <= 7 + |soul.name| - 4
  {
    var (name, after) := (soul.name, AfterName(soul));
    var s := "\nname: " + name + after;
    var rest := FrontmatterLines(soul)[1..];
    PrintedIs(soul);
    OtherLinesAreFront(soul);
    BlockCons(FrontmatterLines(soul));
    BlockCons(rest);
    assert FrontmatterLines(soul)[0] == "name: " + name;
    hide Block, FrontmatterLines, Body;
    assert after[0] == '\n';
    if i >= 7 + |name| {
      OccursInPart("\nname: " + name, after, "", "\n---", i);
      assert "\nname: " + name + after + "" == s;
      NoDelimiterAt(rest, Body(soul.personality), i - 7 - |name|);
    } else {
      hide AfterName;
      NotAcrossName(name, after, i);
      OccursInPart("\nname: ", name, after, "\n---", i);
    }
  }

  /** A delimiter that starts before the end of the name lies inside it. */
  lemma NotAcrossName(name: string, after: string, i: nat)
    requires after != "" && after[0] == '\n' && i < 7 + |name|
    requires OccursAt("\nname: " + name + after, "\n---", i)
    ensures 7 <= i <= 7 + |name| - 4
  {
    var s := "\nname: " + name + after;
    OccursCharwise(s, "\n---", i, 0);
    OccursCharwise(s, "\n---", i, 1);
    OccursCharwise(s, "\n---", i, 2);
    OccursCharwise(s, "\n---", i, 3);
    hide OccursAt;
    assert s[7 + |name|] == '\n';
    assert s[1] == 'n';
  }

  /** The file splits at its closing delimiter if and only if the name holds no delimiter. */
  lemma PrintedSplitsIff(soul: Soul)
    ensures var split := SplitOnce(ToSoulMd(soul)[3..], "\n---");
            if !Contains(soul.name, "\n---") then split == Some((Block(FrontmatterLines(soul)), Body(soul.personality)))
            else split.Some? && |AfterName(soul)| <= |split.value.1|
                 && split.value.1[|split.value.1| - |AfterName(soul)|..] == AfterName(soul)
  {
    PrintedIs(soul);
    var front, s := Block(FrontmatterLines(soul)), ToSoulMd(soul)[3..];
    if Contains(soul.name, "\n---") {
      var j :| 0 <= j <= |soul.name| && OccursAt(soul.name, "\n---", j);
      OccursInPart("\nname: ", soul.name, AfterName(soul), "\n---", 7 + j);
      hide Block, FrontmatterLines, Body, ToSoulMd;
      assert OccursAt(s, "\n---", 7 + j);
      var split := SplitOnce(s, "\n---");
      assert |split.value.0| <= 7 + j;
      assert split.value.1 == s[|split.value.0| + 4..];
    } else {
      forall i: nat | i < |front| ensures !OccursAt(s, "\n---", i) {
        if OccursAt(s, "\n---", i) {
          DelimiterInName(soul, i);
        }
      }
      SplitOnceIs(front, "\n---", Body(soul.personality));
    }
  }

  lemma {:induction false} DropWhileStops(s: string, drop: char -> bool, i: nat)
    requires i < |s| && !drop(s[i])
    ensures |DropWhile(s, drop)| >= |s| - i
    decreases i
  {
    if i > 0 && drop(s[0]) {
      DropWhileStops(s[1..], drop, i - 1);
    }
  }

  lemma {:induction false} DropEndStops(s: string, drop: char -> bool, i: nat)
    requires i < |s| && !drop(s[i])
    ensures |DropEnd(s, drop)| > i
    decreases |s|
  {
    if drop(s[|s| - 1]) {
      DropEndStops(s[..|s| - 1], drop, i);
    }
  }

  function Started(body: string): string {
    DropWhile(DropWhile(body, Dashes), IsWhite)
  }

  lemma StartedKeepsEnd(body: string)
    ensures |Started(body)| <= |body| && Started(body) == body[|body| - |Started(body)|..]
  {
    var undashed := DropWhile(body, Dashes);
    var (i, j) := (|body| - |undashed|, |undashed| - |Started(body)|);
    assert body[i..][j..] == body[i + j..];
  }

  /** Dropping from the front stops at the latest at an `a`. */
  lemma StartedStops(body: string, n: nat)
    requires 1 <= n <= |body| && body[|body| - n] == 'a'
    ensures |Started(body)| >= n
  {
    AIsInk();
    hide IsWhite, Dashes, DropWhile;
    DropWhileKeeps(body, Dashes, n);
    DropWhileKeeps(DropWhile(body, Dashes), IsWhite, n);
  }

  lemma DropWhileKeeps(s: string, drop: char -> bool, n: nat)
    requires 1 <= n <= |s| && !drop(s[|s| - n])
    ensures var r := DropWhile(s, drop); n <= |r| && r[|r| - n] == s[|s| - n]
  {
    DropWhileStops(s, drop, |s| - n);
    hide DropWhile;
    CharFromEnd(s, DropWhile(s, drop), n);
  }

  /** Cut inside the name, the body is longer than any personality it could be. */
  lemma CutBodyIsTooLong(body: string, after: string, p: string)
    requires |after| <= |body| && body[|body| - |after|..] == after && |after| > |p| + 2 && after[1] == 'a'
    requires p != "" ==> after[|after| - 1] == '\n' && after[|after| - 2] == p[|p| - 1]
    ensures Personality(body) != p
  {
    hide IsWhite, Dashes, DropWhile, DropEnd, Started, Personality;
    var n := |after| - 1;
    CharFromEnd(body, after, n);
    StartedStops(body, n);
    StartedKeepsEnd(body);
    var started := Started(body);
    CharFromEnd(body, started, n);
    PersonalityOf(body);
    if p == "" {
      AIsInk();
      DropEndStops(started, IsWhite, |started| - n);
    } else {
      CharFromEnd(body, after, 2);
      CharFromEnd(body, started, 2);
      TrimmedIsLonger(started, p);
    }
  }

  lemma TrimmedIsLonger(started: string, p: string)
    requires p != "" && |started| > |p| + 1 && started[|started| - 2] == p[|p| - 1]
    ensures DropEnd(started, IsWhite) != p
  {
    hide IsWhite;
    if !IsWhite(p[|p| - 1]) {
      DropEndStops(started, IsWhite, |started| - 2);
    }
    hide DropEnd;
  }

  lemma PersonalityOf(body: string)
    ensures Personality(body) == DropEnd(Started(body), IsWhite)
  {}

  lemma CharFromEnd(s: string, r: string, k: nat)
    requires |r| <= |s| && r == s[|s| - |r|..] && 1 <= k <= |r|
    ensures r[|r| - k] == s[|s| - k]
  {
  }

  lemma AIsInk()
    ensures !IsWhite('a') && !Dashes('a')
  {
  }

  /** For every soul whatsoever, and whatever the YAML library accepts: it survives printing and parsing
      exactly when no delimiter stands in its name, the library gives the name and the four words back,
      and the personality is trimmed and does not start with a dash. */
  lemma RoundTripIff(read: YamlReader, soul: Soul)
    ensures ParseSoulMd(read, ToSoulMd(soul)) == Ok(soul)
       <==> && !Contains(soul.name, "\n---")
            && FieldsReadBack(read, soul)
            && Clean(soul.personality)
  {
    PrintedIs(soul);
    PrintedSplitsIff(soul);
    hide ToSoulMd, SplitOnce, Personality, Body, Block, FrontmatterLines, AfterName, Contains, DropWhile, IsWhite;
    hide Clean;
    var (yaml, body) := SplitOnce(ToSoulMd(soul)[3..], "\n---").value;
    ParsesAs(read, ToSoulMd(soul), yaml, body);
    hide ParseSoulMd;
    if read(yaml).Ok? {
      PersonalityIsKept(read(yaml).value, Personality(body));
    }
    hide SoulOf;
    if Contains(soul.name, "\n---") {
      AfterNameIs(soul);
      CutBodyIsTooLong(body, AfterName(soul), soul.personality);
    } else {
      PersonalityReadsBackIff(soul.personality);
    }
  }

  lemma ParsesAs(read: YamlReader, text: string, yaml: string, body: string)
    requires DropWhile(text, IsWhite) == text && "---" <= text && SplitOnce(text[3..], "\n---") == Some((yaml, body))
    ensures ParseSoulMd(read, text) ==
            match read(yaml)
            case Err(e) => Err(e)
            case Ok(fields) => Ok(SoulOf(fields, Personality(body)))
  {}

  /** Parsing fails for want of a frontmatter exactly when the trimmed text does not open with a delimiter
      or has no other at a line start behind it; otherwise the library reads what lies between the first two. */
  lemma ParseNeedsFrontmatter(read: YamlReader, input: string)
    ensures var text := DropWhile(input, IsWhite);
      if !("---" <= text) || !Contains(text[3..], "\n---") then
        ParseSoulMd(read, input) == Err(MissingFrontmatter)
      else
        var (yaml, body) := SplitOnce(text[3..], "\n---").value;
        && text[3..] == yaml + "\n---" + body
        && (read(yaml).Err? ==> ParseSoulMd(read, input) == Err(read(yaml).error))
        && (read(yaml).Ok? ==> ParseSoulMd(read, input) == Ok(SoulOf(read(yaml).value, Personality(body))))
  {
    hide IsWhite, Contains, SoulOf, Personality;
    hide SplitOnce, DropWhile;
  }

  lemma PersonalityIsKept(fields: map<string, Option<string>>, p: string)
    ensures SoulOf(fields, p).personality == p
  {}

  ghost predicate FieldsReadBack(read: YamlReader, soul: Soul) {
    var fields := read(Block(FrontmatterLines(soul)));
    fields.Ok? && SoulOf(fields.value, soul.personality) == soul
  }

  lemma AfterNameIs(soul: Soul)
    ensures var (after, p) := (AfterName(soul), soul.personality);
      && |after| > |p| + 2 && after[..2] == "\na"
      && (p != "" ==> after[|after| - 1] == '\n' && after[|after| - 2] == p[|p| - 1])
  {
    var rest := FrontmatterLines(soul)[1..];
    BlockCons(rest);
    assert rest[0][0] == 'a';
    hide Block, FrontmatterLines;
  }

  /** `parse_soul_md` of any printed soul whose name holds no delimiter: the four words and the name are
      what the library makes of the frontmatter, the personality is trimmed; with a plain or empty name
      everything comes back but the name and the personality, which are normalised. */
  lemma ParsePrinted(read: YamlReader, soul: Soul)
    ensures !Contains(soul.name, "\n---") ==>
              ParseSoulMd(read, ToSoulMd(soul)) ==
              match read(Block(FrontmatterLines(soul)))
              case Err(e) => Err(e)
              case Ok(fields) => Ok(SoulOf(fields, Personality(Body(soul.personality))))
    ensures ReadsPlainLines(read) && (soul.name == "" || Plain(soul.name)) ==>
              ParseSoulMd(read, ToSoulMd(soul)) ==
              Ok(soul.(name := Named(soul.name), personality := Personality(Body(soul.personality))))
  {
    PrintedIs(soul);
    PrintedSplitsIff(soul);
    hide ToSoulMd, SplitOnce, Personality, Body, Block, FrontmatterLines, Contains, DropWhile, IsWhite, Plain;
    var yaml, body := Block(FrontmatterLines(soul)), Body(soul.personality);
    if !Contains(soul.name, "\n---") {
      ParsesAs(read, ToSoulMd(soul), yaml, body);
    }
    hide ParseSoulMd, ReadsPlainLines;
    if ReadsPlainLines(read) && (soul.name == "" || Plain(soul.name)) {
      PrintedSplits(soul);
      ParsesAs(read, ToSoulMd(soul), yaml, body);
      PlainFieldsReadBack(read, soul);
      FieldsAreTheSoul(soul, Personality(body));
    }
    hide SoulOf, Named, FieldsOf;
  }
}
