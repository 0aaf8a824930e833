/** The capped search of crates/agent-core/src/builtins/grep_tool.rs. */
module Grep {
  import opened Prelude

  const MAX_RESULTS: nat := 250

  /** A directory entry in walk order; `lines` is None when the file cannot be read as text. */
  datatype Entry = Entry(path: string, fileName: string, isFile: bool, lines: Option<seq<string>>)

  /** The compiled pattern, and the glob filter if one was given. */
  datatype Query = Query(isMatch: string -> bool, glob: Option<string -> bool>)

  function Digits(n: nat): string {
    (if n < 10 then "" else Digits(n / 10)) + ["0123456789"[n % 10]]
  }

  function Hit(path: string, lineNumber: nat, line: string): string {
    path + ":" + Digits(lineNumber) + ":" + line
  }

  /** All matches of lines `from`.. of a file. */
  function LineHits(q: Query, path: string, lines: seq<string>, from: nat): seq<string>
    decreases |lines| - from
  {
    if from >= |lines| then []
    else
      (if q.isMatch(lines[from]) then [Hit(path, from + 1, lines[from])] else [])
      + LineHits(q, path, lines, from + 1)
  }

  function FileHits(q: Query, path: string, lines: Option<seq<string>>): seq<string> {
    if lines.None? then [] else LineHits(q, path, lines.value, 0)
  }

  predicate Searched(q: Query, e: Entry) {
    e.isFile && (q.glob.Some? ==> q.glob.value(e.fileName))
  }

  /** All matches of the entries from `from` on, in walk order. */
  function WalkHits(q: Query, entries: seq<Entry>, from: nat): seq<string>
    decreases |entries| - from
  {
    if from >= |entries| then []
    else (if Searched(q, entries[from]) then FileHits(q, entries[from].path, entries[from].lines) else [])
         + WalkHits(q, entries, from + 1)
  }

  function FirstResults(hits: seq<string>): seq<string> {
    if |hits| <= MAX_RESULTS then hits else hits[..MAX_RESULTS]
  }

  // ---------------------------------------------------------------- what the matches are

  lemma {:induction false} LineHitsSnoc(q: Query, path: string, lines: seq<string>, line: string, from: nat)
    requires from <= |lines|
    ensures LineHits(q, path, lines + [line], from) ==
            LineHits(q, path, lines, from) +
            (if q.isMatch(line) then [path + ":" + Digits(|lines| + 1) + ":" + line] else [])
    decreases |lines| - from
  {
    if from < |lines| {
      LineHitsSnoc(q, path, lines, line, from + 1);
    } else {
      assert LineHits(q, path, lines + [line], from + 1) == [];
    }
  }

  /** One more line adds itself, behind its path and its number, if it matches. */
  lemma FileHitsSnoc(q: Query, path: string, lines: seq<string>, line: string)
    ensures FileHits(q, path, None) == [] && FileHits(q, path, Some([])) == []
    ensures FileHits(q, path, Some(lines + [line])) ==
            FileHits(q, path, Some(lines)) +
            (if q.isMatch(line) then [path + ":" + Digits(|lines| + 1) + ":" + line] else [])
  {
    LineHitsSnoc(q, path, lines, line, 0);
  }

  /** One more entry adds its matches, if it is a file and its name passes the glob. */
  lemma {:induction false} WalkHitsSnoc(q: Query, entries: seq<Entry>, e: Entry, from: nat)
    requires from <= |entries|
    ensures WalkHits(q, [], 0) == []
    ensures WalkHits(q, entries + [e], from) ==
            WalkHits(q, entries, from) +
            (if e.isFile && (q.glob.Some? ==> q.glob.value(e.fileName)) then FileHits(q, e.path, e.lines) else [])
    decreases |entries| - from
  {
    hide FileHits;
    if from < |entries| {
      WalkHitsSnoc(q, entries, e, from + 1);
    } else {
      assert WalkHits(q, entries + [e], from + 1) == [];
    }
  }

  /** The number that decimal digits stand for. */
  function Value(digits: string): int {
    if digits == "" then 0
    else
      var n := |digits| - 1;
      10 * Value(digits[..n]) + (digits[n] as int - '0' as int)
  }

  /** Line numbers are printed in decimal, without leading zeros. */
  lemma {:induction false} DigitsAreDecimal(n: nat)
    ensures Digits(n) != "" && Value(Digits(n)) == n
    ensures n > 0 ==> Digits(n)[0] != '0'
  {
    var last := "0123456789"[n % 10];
    assert last as int == '0' as int + n % 10;
    if n >= 10 {
      DigitsAreDecimal(n / 10);
      assert Digits(n)[..|Digits(n)| - 1] == Digits(n / 10);
    } else {
      assert Digits(n) == [last];
    }
  }

  lemma CapAbsorbs(found: seq<string>, hits: seq<string>)
    requires |found| >= MAX_RESULTS
    ensures FirstResults(found + hits) == FirstResults(found)
  {}

  /** The results kept in one growing vector that stops at the cap. */
  class Results {
    var items: seq<string>

    constructor ()
      ensures items == []
    {
      items := [];
    }

    /** Adds the matches of one file, as far as there is room. */
    method SearchFile(q: Query, path: string, lines: Option<seq<string>>)
      requires |items| < MAX_RESULTS
      modifies this
      ensures var hits := old(items) + FileHits(q, path, lines); items == if |hits| <= 250 then hits else hits[..250]
    {
      if lines.None? {
        assert items + [] == items;
        return;
      }
      var all := lines.value;
      for i := 0 to |all|
        invariant |items| < MAX_RESULTS
        invariant items + LineHits(q, path, all, i) == old(items) + LineHits(q, path, all, 0)
      {
        if q.isMatch(all[i]) {
          ghost var before := items;
          items := items + [Hit(path, i + 1, all[i])];
          assert items + LineHits(q, path, all, i + 1) == before + LineHits(q, path, all, i);
          if |items| >= MAX_RESULTS {
            CapAbsorbs(items, LineHits(q, path, all, i + 1));
            return;
          }
        }
      }
      assert items + [] == items;
    }

    /** The walk: the result is the first 250 of all matches in walk order. */
    method SearchTree(q: Query, entries: seq<Entry>)
      requires items == []
      modifies this
      ensures var hits := WalkHits(q, entries, 0); items == if |hits| <= 250 then hits else hits[..250]
    {
      for i := 0 to |entries|
        invariant |items| < MAX_RESULTS
        invariant items + WalkHits(q, entries, i) == WalkHits(q, entries, 0)
      {
        if !entries[i].isFile {
          continue;
        }
        if q.glob.Some? && !q.glob.value(entries[i].fileName) {
          continue;
        }
        ghost var before := items;
        ghost var hits := FileHits(q, entries[i].path, entries[i].lines);
        assert before + hits + WalkHits(q, entries, i + 1) == WalkHits(q, entries, 0);
        SearchFile(q, entries[i].path, entries[i].lines);
        if |items| >= MAX_RESULTS {
          CapAbsorbs(before + hits, WalkHits(q, entries, i + 1));
          return;
        }
        assert items == before + hits;
      }
      assert items + [] == items;
    }
  }

  /** What the search path names: one file, searched whatever the glob says, or a tree to walk. */
  datatype Target = File(path: string, lines: Option<seq<string>>) | Tree(entries: seq<Entry>)

  function Hits(q: Query, target: Target): seq<string> {
    match target
    case File(path, lines) => FileHits(q, path, lines)
    case Tree(entries) => WalkHits(q, entries, 0)
  }

  function Join(lines: seq<string>): string {
    if lines == [] then ""
    else if |lines| == 1 then lines[0]
    else lines[0] + "\n" + Join(lines[1..])
  }

  lemma {:induction false} JoinConcat(a: seq<string>, b: seq<string>)
    requires a != [] && b != []
    ensures Join(a + b) == Join(a) + "\n" + Join(b)
    ensures Join([a[0]]) == a[0]
  {
    if |a| == 1 {
      assert (a + b)[1..] == b;
    } else {
      JoinConcat(a[1..], b);
      assert (a + b)[1..] == a[1..] + b;
    }
  }

  const NO_MATCHES: string := "No matches found."
  const NOTICE: string := "\n\n(truncated at 250 results)"

  /** `GrepTool::execute` once its pattern has compiled: the first 250 of all matches, and the notice
      from 250 matches on. */
  method Execute(q: Query, target: Target) returns (content: string)
    ensures var hits := Hits(q, target);
            content == if hits == [] then "No matches found."
                       else if |hits| < 250 then Join(hits)
                       else Join(hits[..250]) + "\n\n(truncated at 250 results)"
  {
    var results := new Results();
    hide LineHits, WalkHits, Join;
    match target {
      case File(path, lines) =>
        results.SearchFile(q, path, lines);
        assert [] + FileHits(q, path, lines) == FileHits(q, path, lines);
      case Tree(entries) =>
        results.SearchTree(q, entries);
    }
    ghost var hits := Hits(q, target);
    assert |hits| == 250 ==> hits[..250] == hits;
    if results.items == [] {
      content := NO_MATCHES;
    } else {
      content := Join(results.items);
      if |results.items| >= MAX_RESULTS {
        content := content + NOTICE;
      } else {
        assert content + "" == content;
      }
    }
  }

  /** The notice is shown from 250 matches on, so with exactly 250 it is shown although nothing is
      missing; and only then. */
  lemma NoticeOverstatesOnlyAtTheCap(q: Query, target: Target)
    ensures var all := Hits(q, target);
            var shown := FirstResults(all);
            && (|shown| >= 250 <==> |all| >= 250)
            && (|shown| >= 250 && shown == all <==> |all| == 250)
  {
    var all := Hits(q, target);
    assert |all| > 250 ==> |FirstResults(all)| < |all|;
  }
}
