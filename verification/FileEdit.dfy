/** The unique-match edit of crates/agent-core/src/builtins/file_edit.rs. */
module FileEdit {
  import opened Prelude
  import opened Strings

  datatype EditError = OldTextNotFound | NotUnique(count: nat)

  /** `content.matches(oldText).count()`: non-overlapping matches from the left. The empty pattern
      matches at every character boundary. */
  function CountMatches(s: string, oldText: string): nat
    decreases |s|
  {
    if oldText == [] then |s| + 1
    else
      match Find(s, oldText)
      case None => 0
      case Some(i) => 1 + CountMatches(Behind(s, oldText, i), oldText)
  }

  /** What follows an occurrence at i. */
  function Behind(s: string, oldText: string, i: nat): (rest: string)
    requires i + |oldText| <= |s|
    ensures |rest| == |s| - i - |oldText|
  {
    s[i + |oldText|..]
  }

  /** `content.replacen(oldText, new, 1)`. */
  function ReplaceFirst(s: string, oldText: string, newText: string): string {
    match Find(s, oldText)
    case None => s
    case Some(i) => s[..i] + newText + s[i + |oldText|..]
  }

  /** The content the tool writes back, or the reason it writes nothing. */
  function Edit(content: string, oldText: string, newText: string): Result<string, EditError> {
    var count := CountMatches(content, oldText);
    if count == 0 then Err(OldTextNotFound)
    else if count > 1 then Err(NotUnique(count))
    else Ok(ReplaceFirst(content, oldText, newText))
  }

  /** `content` is `before + oldText + after` at the leftmost match, and `after` has no further match. */
  ghost predicate SplitsAt(content: string, oldText: string, before: string, after: string) {
    && content == before + oldText + after
    && (forall i :: 0 <= i < |before| ==> !OccursAt(content, oldText, i))
    && (if oldText == [] then after == [] else !Contains(after, oldText))
  }

  lemma FindNoneIff(s: string, pat: string)
    ensures Find(s, pat).None? <==> !Contains(s, pat)
  {}

  lemma CountZeroIff(s: string, oldText: string)
    ensures CountMatches(s, oldText) == 0 <==> !Contains(s, oldText)
  {
    if oldText == [] {
      assert OccursAt(s, oldText, 0);
    } else {
      FindNoneIff(s, oldText);
    }
  }

  lemma LeftmostIs(content: string, oldText: string, before: string, after: string)
    requires content == before + oldText + after
    requires forall i :: 0 <= i < |before| ==> !OccursAt(content, oldText, i)
    ensures Find(content, oldText) == Some(|before|)
    ensures content[..|before|] == before && content[|before| + |oldText|..] == after
  {
    assert content[|before|..|before| + |oldText|] == oldText;
    assert OccursAt(content, oldText, |before|);
  }

  /** Occurrences from left to right, none overlapping the one before. */
  ghost predicate Disjoint(s: string, oldText: string, at: seq<int>) {
    && (forall k :: 0 <= k < |at| ==> OccursAt(s, oldText, at[k]))
    && (forall k :: 0 < k < |at| ==> at[k - 1] + Width(oldText) <= at[k])
  }

  /** Matches of the empty text lie one character apart. */
  function Width(oldText: string): nat {
    if oldText == [] then 1 else |oldText|
  }

  lemma OccursShifted(s: string, oldText: string, from: nat, i: int)
    requires from <= |s| && 0 <= i
    ensures OccursAt(s[from..], oldText, i) <==> OccursAt(s, oldText, from + i)
  {
    if i + |oldText| <= |s| - from {
      assert s[from..][i..i + |oldText|] == s[from + i..from + i + |oldText|];
    }
  }

  lemma DisjointAscends(s: string, oldText: string, at: seq<int>, k: nat)
    requires Disjoint(s, oldText, at) && k < |at|
    ensures at[0] + k * Width(oldText) <= at[k]
  {
    if k > 0 {
      DisjointAscends(s, oldText, at, k - 1);
    }
  }

  /** All but the first of the occurrences lie behind any occurrence no later than the first. */
  lemma LieBehind(s: string, oldText: string, at: seq<int>, i: int) returns (rest: seq<int>)
    requires oldText != [] && Disjoint(s, oldText, at) && at != [] && OccursAt(s, oldText, i) && i <= at[0]
    ensures |rest| == |at| - 1 && Disjoint(s[i + |oldText|..], oldText, rest)
  {
    var from := i + |oldText|;
    rest := seq(|at| - 1, k requires 0 <= k < |at| - 1 => at[k + 1] - from);
    forall k | 0 <= k < |rest| ensures OccursAt(s[from..], oldText, rest[k]) {
      DisjointAscends(s, oldText, at, k + 1);
      MulAtLeastOnce(k + 1, Width(oldText));
      OccursShifted(s, oldText, from, rest[k]);
    }
    hide OccursAt;
  }

  lemma MulAtLeastOnce(k: nat, n: nat)
    requires k >= 1
    ensures k * n >= n
  {
  }

  /** Counting from the left finds the largest number of occurrences that do not overlap. */
  lemma {:induction false} CountIsMost(s: string, oldText: string, at: seq<int>)
    requires Disjoint(s, oldText, at)
    ensures |at| <= CountMatches(s, oldText)
    decreases |s|
  {
    if oldText == [] {
      EmptyCountIsMost(s, oldText, at);
    } else if at != [] {
      var i := FoundBefore(s, oldText, at);
      assert i + |oldText| <= |s|;
      var rest := LieBehind(s, oldText, at, i);
      CountIsMost(Behind(s, oldText, i), oldText, rest);
      CountStep(s, oldText, i);
      hide Find, OccursAt, Disjoint, CountMatches;
    }
  }

  lemma EmptyCountIsMost(s: string, oldText: string, at: seq<int>)
    requires oldText == [] && Disjoint(s, oldText, at)
    ensures |at| <= |s| + 1
  {
    if at != [] {
      DisjointAscends(s, oldText, at, |at| - 1);
      assert OccursAt(s, oldText, at[0]) && OccursAt(s, oldText, at[|at| - 1]);
    }
  }

  lemma FoundBefore(s: string, oldText: string, at: seq<int>) returns (i: nat)
    requires Disjoint(s, oldText, at) && at != []
    ensures Find(s, oldText) == Some(i) && OccursAt(s, oldText, i) && i <= at[0]
  {
    assert OccursAt(s, oldText, at[0]);
    i := Find(s, oldText).value;
  }

  lemma CountStep(s: string, oldText: string, i: nat)
    requires oldText != [] && Find(s, oldText) == Some(i)
    ensures i + |oldText| <= |s|
    ensures CountMatches(s, oldText) == 1 + CountMatches(Behind(s, oldText, i), oldText)
  {
    hide Behind;
  }

  /** An occurrence, and then disjoint ones behind it. */
  lemma Prepend(s: string, oldText: string, i: int, rest: seq<int>) returns (at: seq<int>)
    requires oldText != [] && OccursAt(s, oldText, i) && Disjoint(s[i + |oldText|..], oldText, rest)
    ensures Disjoint(s, oldText, at) && |at| == |rest| + 1 && at[0] == i
  {
    var from := i + |oldText|;
    var shifted := seq(|rest|, k requires 0 <= k < |rest| => from + rest[k]);
    forall k | 0 <= k < |rest| ensures OccursAt(s, oldText, shifted[k]) && shifted[k] >= from {
      assert OccursAt(s[from..], oldText, rest[k]);
      OccursShifted(s, oldText, from, rest[k]);
    }
    hide OccursAt;
    at := [i] + shifted;
  }

  /** ... and that many there are. */
  lemma {:induction false} CountIsReached(s: string, oldText: string) returns (at: seq<int>)
    ensures Disjoint(s, oldText, at) && |at| == CountMatches(s, oldText)
    decreases |s|
  {
    hide Find, Disjoint, OccursAt;
    at := [];
    var i := Find(s, oldText);
    if oldText == [] {
      at := EveryPosition(s, oldText);
    } else if i.Some? {
      CountStep(s, oldText, i.value);
      var rest := CountIsReached(Behind(s, oldText, i.value), oldText);
      hide CountMatches;
      at := Prepend(s, oldText, i.value, rest);
    } else {
      NoneDisjoint(s, oldText);
    }
  }

  lemma EveryPosition(s: string, oldText: string) returns (at: seq<int>)
    requires oldText == []
    ensures Disjoint(s, oldText, at) && |at| == |s| + 1
  {
    at := seq(|s| + 1, k => k);
  }

  lemma NoneDisjoint(s: string, oldText: string)
    ensures Disjoint(s, oldText, [])
  {
  }

  /** The reported count is the largest number of occurrences that do not overlap. */
  lemma NotUniqueIff(content: string, oldText: string, newText: string, n: nat)
    ensures Edit(content, oldText, newText) == Err(NotUnique(n)) <==>
            && n > 1
            && (exists at :: Disjoint(content, oldText, at) && |at| == n)
            && (forall at :: Disjoint(content, oldText, at) ==> |at| <= n)
  {
    var most := CountIsReached(content, oldText);
    var count := CountMatches(content, oldText);
    hide Disjoint, OccursAt, CountMatches, Find, ReplaceFirst;
    forall at | Disjoint(content, oldText, at) ensures |at| <= count {
      CountIsMost(content, oldText, at);
    }
    assert Disjoint(content, oldText, most) && |most| == count;
  }

  /** An edit succeeds exactly when the content splits at a leftmost match with no further match
      behind it, and then the match is what is replaced. */
  lemma EditIff(content: string, oldText: string, newText: string, result: string)
    ensures Edit(content, oldText, newText) == Ok(result) <==>
            exists before, after :: SplitsAt(content, oldText, before, after) && result == before + newText + after
  {
    hide Edit, SplitsAt;
    if Edit(content, oldText, newText) == Ok(result) {
      var before, after := EditSplits(content, oldText, newText, result);
      assert SplitsAt(content, oldText, before, after);
    }
    if before, after :| SplitsAt(content, oldText, before, after) && result == before + newText + after {
      SplitEdits(content, oldText, newText, before, after);
    }
  }

  lemma EditSplits(content: string, oldText: string, newText: string, result: string)
    returns (before: string, after: string)
    requires Edit(content, oldText, newText) == Ok(result)
    ensures SplitsAt(content, oldText, before, after) && result == before + newText + after
  {
    CountZeroIff(content, oldText);
    FindNoneIff(content, oldText);
    var i := Find(content, oldText).value;
    before, after := content[..i], content[i + |oldText|..];
    assert content[i..i + |oldText|] == oldText;
    assert content == before + oldText + after;
    if oldText != [] {
      CountStep(content, oldText, i);
      assert Behind(content, oldText, i) == after;
      CountZeroIff(after, oldText);
    }
    hide CountMatches;
  }

  lemma SplitEdits(content: string, oldText: string, newText: string, before: string, after: string)
    requires SplitsAt(content, oldText, before, after)
    ensures Edit(content, oldText, newText) == Ok(before + newText + after)
  {
    LeftmostIs(content, oldText, before, after);
    if oldText == [] {
      assert OccursAt(content, oldText, 0);
    } else {
      CountStep(content, oldText, |before|);
      assert Behind(content, oldText, |before|) == after;
      CountZeroIff(after, oldText);
      hide CountMatches;
    }
  }

  /** Without a match nothing is written, and only then is the text reported missing. */
  lemma NotFoundIff(content: string, oldText: string, newText: string)
    ensures Edit(content, oldText, newText) == Err(OldTextNotFound) <==> !Contains(content, oldText)
  {
    CountZeroIff(content, oldText);
  }

  ghost predicate OnlyAt(content: string, oldText: string, i: nat) {
    OccursAt(content, oldText, i) && forall j :: 0 <= j <= |content| && OccursAt(content, oldText, j) ==> j == i
  }

  /** A unique occurrence is always edited; the converse fails for overlapping occurrences only. */
  lemma UniqueIsEdited(content: string, oldText: string, newText: string, i: nat)
    requires OnlyAt(content, oldText, i)
    ensures Edit(content, oldText, newText) == Ok(content[..i] + newText + content[i + |oldText|..])
  {
    var before, after := content[..i], content[i + |oldText|..];
    assert content == before + oldText + after;
    if oldText == [] {
      assert OccursAt(content, oldText, 0) && OccursAt(content, oldText, |content|);
    } else {
      forall j ensures !OccursAt(after, oldText, j) {
        if OccursAt(after, oldText, j) {
          OccursShifted(content, oldText, i + |oldText|, j);
        }
      }
    }
    assert SplitsAt(content, oldText, before, after);
    EditIff(content, oldText, newText, before + newText + after);
  }

  /** There is an occurrence at i, and every other one starts inside it. */
  ghost predicate AllWithin(content: string, oldText: string, i: nat) {
    && OccursAt(content, oldText, i)
    && forall j :: 0 <= j <= |content| && OccursAt(content, oldText, j) ==> j == i || i <= j < i + |oldText|
  }

  lemma SplitIsAllWithin(content: string, oldText: string, before: string, after: string)
    requires content == before + oldText + after
    ensures SplitsAt(content, oldText, before, after) <==> AllWithin(content, oldText, |before|)
  {
    var i, n := |before|, |oldText|;
    assert content[i..i + n] == oldText;
    if n == 0 {
      EmptyOccursEverywhere(content, oldText);
      assert OccursAt(content, oldText, 0) && OccursAt(content, oldText, |content|);
    } else {
      assert content[i + n..] == after;
      forall j ensures OccursAt(content, oldText, i + n + j) && 0 <= j <==> OccursAt(after, oldText, j) {
        if 0 <= j {
          OccursShifted(content, oldText, i + n, j);
        }
      }
      if AllWithin(content, oldText, i) {
        forall j ensures !OccursAt(after, oldText, j) {
          assert !(OccursAt(content, oldText, i + n + j) && 0 <= j);
        }
      }
      if SplitsAt(content, oldText, before, after) {
        forall j | 0 <= j <= |content| && OccursAt(content, oldText, j) ensures i <= j < i + n {
          assert !OccursAt(after, oldText, j - i - n);
        }
      }
    }
  }

  lemma EmptyOccursEverywhere(content: string, oldText: string)
    requires oldText == []
    ensures forall j :: 0 <= j <= |content| ==> OccursAt(content, oldText, j)
  {}

  /** The tool edits at i exactly when there is an occurrence there that all others overlap from the
      right; of the empty text, when there is nothing else in the file. */
  lemma EditedAtIff(content: string, oldText: string, newText: string, i: nat)
    ensures i <= |content| && Edit(content, oldText, newText).Ok? && Find(content, oldText) == Some(i)
       <==> AllWithin(content, oldText, i)
  {
    if i <= |content| && Edit(content, oldText, newText).Ok? && Find(content, oldText) == Some(i) {
      EditIff(content, oldText, newText, Edit(content, oldText, newText).value);
      var before, after :| SplitsAt(content, oldText, before, after);
      LeftmostIs(content, oldText, before, after);
      SplitIsAllWithin(content, oldText, before, after);
    }
    if AllWithin(content, oldText, i) {
      var before, after := content[..i], content[i + |oldText|..];
      assert content == before + oldText + after;
      SplitIsAllWithin(content, oldText, before, after);
      LeftmostIs(content, oldText, before, after);
      EditIff(content, oldText, newText, before + newText + after);
    }
  }

  /** What the tool accepts as unique: all occurrences overlap the leftmost one. */
  lemma AcceptedIff(content: string, oldText: string, newText: string)
    ensures Edit(content, oldText, newText).Ok? <==> exists i: nat :: AllWithin(content, oldText, i)
  {
    if Edit(content, oldText, newText).Ok? {
      CountZeroIff(content, oldText);
      FindNoneIff(content, oldText);
      EditedAtIff(content, oldText, newText, Find(content, oldText).value);
    }
    if i: nat :| AllWithin(content, oldText, i) {
      EditedAtIff(content, oldText, newText, i);
    }
  }

  /** Two overlapping occurrences pass as one. */
  lemma OverlapsPass()
    ensures OccursAt("aaa", "aa", 0) && OccursAt("aaa", "aa", 1) && Edit("aaa", "aa", "b") == Ok("ba")
  {
    assert "aaa"[0..2] == "aa" && "aaa"[1..3] == "aa";
    assert "aaa" == "" + "aa" + "a";
    assert SplitsAt("aaa", "aa", "", "a");
    assert "" + "b" + "a" == "ba";
    EditIff("aaa", "aa", "b", "ba");
  }

  /** Editing back restores the file exactly when every other occurrence of the new text starts inside
      the one that the edit put in. */
  lemma EditBackRestoresIff(content: string, oldText: string, newText: string, i: nat)
    requires Edit(content, oldText, newText).Ok? && Find(content, oldText) == Some(i)
    ensures var edited := Edit(content, oldText, newText).value;
            Edit(edited, newText, oldText) == Ok(content) <==> AllWithin(edited, newText, i)
  {
    EditPutsIn(content, oldText, newText, i);
    hide Find, OccursAt, AllWithin, CountMatches;
    var edited := Edit(content, oldText, newText).value;
    if Edit(edited, newText, oldText) == Ok(content) {
      RestoredAt(content, oldText, newText, edited, i);
    }
    hide Edit;
    EditedAtIff(edited, newText, oldText, i);
    if AllWithin(edited, newText, i) {
      PutBack(content, oldText, newText, edited, i);
    }
  }

  /** The edit at i leaves the new text at i, and the rest as it was. */
  lemma EditPutsIn(content: string, oldText: string, newText: string, i: nat)
    requires Edit(content, oldText, newText).Ok? && Find(content, oldText) == Some(i)
    ensures var edited := Edit(content, oldText, newText).value;
            && i + |oldText| <= |content|
            && content[i..i + |oldText|] == oldText
            && edited == content[..i] + newText + content[i + |oldText|..]
            && OccursAt(edited, newText, i)
  {
    var edited := Edit(content, oldText, newText).value;
    hide Find, CountMatches;
    assert edited[i..i + |newText|] == newText;
  }

  /** A reverse edit that restores the content happened where the text had been put in. */
  lemma RestoredAt(content: string, oldText: string, newText: string, edited: string, i: nat)
    requires Find(content, oldText) == Some(i) && OccursAt(edited, newText, i)
    requires Edit(edited, newText, oldText) == Ok(content)
    ensures Find(edited, newText) == Some(i)
  {
    CountZeroIff(edited, newText);
    FindNoneIff(edited, newText);
    var p := Find(edited, newText).value;
    assert content == edited[..p] + oldText + edited[p + |newText|..];
    assert content[p..p + |oldText|] == oldText;
    assert OccursAt(content, oldText, p);
  }

  lemma PutBack(content: string, oldText: string, newText: string, edited: string, i: nat)
    requires i + |oldText| <= |content| && content[i..i + |oldText|] == oldText
    requires edited == content[..i] + newText + content[i + |oldText|..]
    requires Edit(edited, newText, oldText).Ok? && Find(edited, newText) == Some(i)
    ensures Edit(edited, newText, oldText) == Ok(content)
  {
    hide Find, CountMatches;
    assert edited[..i] == content[..i] && edited[i + |newText|..] == content[i + |oldText|..];
    assert content == content[..i] + oldText + content[i + |oldText|..];
  }
}
