/** Splitting a list of lines over the fields of a message, whose values are limited in length.
    Lengths count UTF-16 code units, one for each character here. */
module FieldChunks {

  const FIELD_VALUE_LIMIT: nat := 1024
  const SAFE_FIELD_VALUE_LIMIT: nat := 900

  function JoinLines(lines: seq<string>): string {
    if lines == [] then ""
    else if |lines| == 1 then lines[0]
    else JoinLines(lines[..|lines| - 1]) + "\n" + lines[|lines| - 1]
  }

  function Cut(chunk: string): (r: string)
    ensures |r| <= FIELD_VALUE_LIMIT && r <= chunk
  {
    if |chunk| <= FIELD_VALUE_LIMIT then chunk else chunk[..FIELD_VALUE_LIMIT]
  }

  function CutAll(chunks: seq<string>): (r: seq<string>)
    ensures |r| == |chunks|
    ensures forall i :: 0 <= i < |r| ==> r[i] == Cut(chunks[i])
  {
    if chunks == [] then [] else CutAll(chunks[..|chunks| - 1]) + [Cut(chunks[|chunks| - 1])]
  }

  predicate NonEmpty(lines: seq<string>) { forall i :: 0 <= i < |lines| ==> lines[i] != "" }

  /** A chunk is short enough, or it is one line that is too long by itself. */
  predicate Fits(group: seq<string>) {
    |group| == 1 || (|group| > 1 && |JoinLines(group)| <= SAFE_FIELD_VALUE_LIMIT)
  }

  function Flatten(groups: seq<seq<string>>): seq<string> {
    if groups == [] then [] else Flatten(groups[..|groups| - 1]) + groups[|groups| - 1]
  }

  /** A way to split the lines, in order, into chunks that fit. */
  ghost predicate Splits(groups: seq<seq<string>>, lines: seq<string>) {
    Flatten(groups) == lines && forall i :: 0 <= i < |groups| ==> Fits(groups[i])
  }

  function Joined(groups: seq<seq<string>>): (r: seq<string>)
    ensures |r| == |groups|
    ensures forall i :: 0 <= i < |r| ==> r[i] == JoinLines(groups[i])
  {
    if groups == [] then [] else Joined(groups[..|groups| - 1]) + [JoinLines(groups[|groups| - 1])]
  }

  /** The split the loop arrives at: the finished chunks and the one it is filling. */
  datatype Filling = Filling(done: seq<seq<string>>, current: seq<string>)

  function Add(f: Filling, line: string): (g: Filling)
    ensures g.current != []
  {
    if f.current != [] && |JoinLines(f.current + [line])| > SAFE_FIELD_VALUE_LIMIT
    then Filling(f.done + [f.current], [line])
    else Filling(f.done, f.current + [line])
  }

  function Fill(lines: seq<string>): (f: Filling)
    ensures lines != [] ==> f.current != []
  {
    if lines == [] then Filling([], []) else Add(Fill(lines[..|lines| - 1]), lines[|lines| - 1])
  }

  function Groups(lines: seq<string>): seq<seq<string>> {
    var f := Fill(lines);
    if lines == [] then [] else f.done + [f.current]
  }

  lemma FillAppend(lines: seq<string>, i: nat)
    requires i < |lines|
    ensures Fill(lines[..i + 1]) == Add(Fill(lines[..i]), lines[i])
  {
    assert lines[..i + 1][..i] == lines[..i];
  }

  lemma JoinedAppend(groups: seq<seq<string>>, group: seq<string>)
    ensures Joined(groups + [group]) == Joined(groups) + [JoinLines(group)]
  {
    assert (groups + [group])[..|groups|] == groups;
  }

  lemma JoinLinesAppend(group: seq<string>, line: string)
    ensures JoinLines(group + [line]) == if group == [] then line else JoinLines(group) + "\n" + line
  {
    assert (group + [line])[..|group|] == group;
  }

  method ChunkApplicantLines(lines: seq<string>) returns (r: seq<string>)
    ensures forall i :: 0 <= i < |r| ==> |r[i]| <= 1024
    ensures NonEmpty(lines) ==> r == CutAll(Joined(Groups(lines)))
  {
    var chunks: seq<string>, current := [], "";
    for i := 0 to |lines|
      invariant NonEmpty(lines) ==> chunks == Joined(Fill(lines[..i]).done) && current == JoinLines(Fill(lines[..i]).current)
      invariant NonEmpty(lines) ==> (current == "" <==> i == 0)
    {
      var line := lines[i];
      ghost var f := Fill(lines[..i]);
      FillAppend(lines, i);
      JoinLinesAppend(f.current, line);
      JoinedAppend(f.done, f.current);
      var next := if current != "" then current + "\n" + line else line;
      if |next| > SAFE_FIELD_VALUE_LIMIT && current != "" {
        chunks := chunks + [current];
        current := line;
      } else {
        current := next;
      }
    }
    assert lines[..|lines|] == lines;
    JoinedAppend(Fill(lines).done, Fill(lines).current);
    if current != "" { chunks := chunks + [current]; }
    r := CutAll(chunks);
  }

  lemma FlattenAppend(groups: seq<seq<string>>, group: seq<string>)
    ensures Flatten(groups + [group]) == Flatten(groups) + group
  {
    assert (groups + [group])[..|groups|] == groups;
  }

  function Content(f: Filling): seq<string> { Flatten(f.done) + f.current }

  lemma AddKeepsLines(f: Filling, line: string)
    ensures Content(Add(f, line)) == Content(f) + [line]
  {
    FlattenAppend(f.done, f.current);
  }

  lemma {:induction false} FillKeepsLines(lines: seq<string>)
    ensures Content(Fill(lines)) == lines
  {
    if lines != [] {
      var before, line := lines[..|lines| - 1], lines[|lines| - 1];
      assert before + [line] == lines;
      FillKeepsLines(before);
      AddKeepsLines(Fill(before), line);
    }
  }

  lemma {:induction false} FillFits(lines: seq<string>)
    ensures forall i :: 0 <= i < |Fill(lines).done| ==> Fits(Fill(lines).done[i])
    ensures lines != [] ==> Fits(Fill(lines).current)
  {
    if lines != [] { FillFits(lines[..|lines| - 1]); }
  }

  lemma AppendSplits(done: seq<seq<string>>, current: seq<string>, lines: seq<string>)
    requires Flatten(done) + current == lines && Fits(current)
    requires forall i :: 0 <= i < |done| ==> Fits(done[i])
    ensures Splits(done + [current], lines)
  {
    FlattenAppend(done, current);
  }

  /** The loop's split is one: it keeps every line in place, and every chunk fits. */
  lemma GroupsSplit(lines: seq<string>)
    ensures Splits(Groups(lines), lines)
  {
    if lines != [] {
      FillKeepsLines(lines);
      FillFits(lines);
      AppendSplits(Fill(lines).done, Fill(lines).current, lines);
    }
  }

  // ---------------------------------------------------------------- no split uses fewer chunks

  lemma {:induction false} JoinOfConcat(a: seq<string>, b: seq<string>)
    requires a != [] && b != []
    ensures JoinLines(a + b) == JoinLines(a) + "\n" + JoinLines(b)
  {
    var n := |b| - 1;
    assert (a + b)[..|a| + n] == a + b[..n];
    if n > 0 {
      JoinOfConcat(a, b[..n]);
      assert JoinLines(b) == JoinLines(b[..n]) + "\n" + b[n];
      assert JoinLines(a + b) == JoinLines(a + b[..n]) + "\n" + b[n];
    } else {
      assert a + b[..n] == a;
    }
  }

  /** A split of all lines but the last, got by dropping the last line. */
  function DropLast(groups: seq<seq<string>>): seq<seq<string>>
    requires groups != [] && groups[|groups| - 1] != []
  {
    var last := groups[|groups| - 1];
    if |last| == 1 then groups[..|groups| - 1] else groups[..|groups| - 1] + [last[..|last| - 1]]
  }

  lemma DropLastSplits(groups: seq<seq<string>>, lines: seq<string>)
    requires Splits(groups, lines) && lines != []
    ensures groups != [] && groups[|groups| - 1] != []
    ensures Splits(DropLast(groups), lines[..|lines| - 1])
    ensures groups[|groups| - 1][|groups[|groups| - 1]| - 1] == lines[|lines| - 1]
  {
    var init := groups[..|groups| - 1];
    var last := groups[|groups| - 1];
    assert Fits(last);
    assert lines == Flatten(init) + last;
    assert lines[..|lines| - 1] == Flatten(init) + last[..|last| - 1];
    if |last| > 1 {
      FlattenAppend(init, last[..|last| - 1]);
      assert |JoinLines(last)| >= |JoinLines(last[..|last| - 1])|;
    } else {
      assert last[..|last| - 1] == [];
    }
  }

  /** Any split needs at least as many chunks, and with as many its last chunk is at least as full. */
  lemma {:induction false} GreedyStaysAhead(lines: seq<string>, groups: seq<seq<string>>)
    requires Splits(groups, lines) && lines != []
    ensures groups != []
    ensures |groups| >= |Fill(lines).done| + 1
    ensures |groups| == |Fill(lines).done| + 1 ==> |groups[|groups| - 1]| >= |Fill(lines).current|
    decreases |lines|
  {
    DropLastSplits(groups, lines);
    var before := lines[..|lines| - 1];
    if before != [] {
      var rest := DropLast(groups);
      GreedyStaysAhead(before, rest);
      var f := Fill(before);
      var last := groups[|groups| - 1];
      if |last| > 1 && |rest| == |f.done| + 1 && |JoinLines(f.current + [lines[|lines| - 1]])| > SAFE_FIELD_VALUE_LIMIT {
        FullerDoesNotFit(lines, groups);
      }
    }
  }

  lemma FullerDoesNotFit(lines: seq<string>, groups: seq<seq<string>>)
    requires Splits(groups, lines) && |lines| > 1 && groups != []
    requires |groups[|groups| - 1]| > |Fill(lines[..|lines| - 1]).current|
    ensures |JoinLines(Fill(lines[..|lines| - 1]).current + [lines[|lines| - 1]])| <= |JoinLines(groups[|groups| - 1])|
  {
    var before, line := lines[..|lines| - 1], lines[|lines| - 1];
    var done, current := Fill(before).done, Fill(before).current;
    assert Flatten(done) + (current + [line]) == lines by {
      FillKeepsLines(before);
      assert Flatten(done) + (current + [line]) == Content(Fill(before)) + [line];
    }
    EndIsNoLonger(Flatten(done), current + [line], Flatten(groups[..|groups| - 1]), groups[|groups| - 1]);
  }

  lemma EndIsNoLonger(a: seq<string>, tail: seq<string>, b: seq<string>, last: seq<string>)
    requires a + tail == b + last && 0 < |tail| <= |last|
    ensures |JoinLines(tail)| <= |JoinLines(last)|
  {
    var k := |last| - |tail|;
    assert last == (b + last)[|b|..] == (a + tail)[|b|..];
    assert (a + tail)[|b| + k..] == tail;
    assert last[k..] == tail;
    assert last == last[..k] + tail;
    if k > 0 {
      JoinOfConcat(last[..k], tail);
    } else {
      assert last == tail;
    }
  }

  /** No way of splitting the lines in order into chunks that fit uses fewer chunks. */
  lemma NoSplitUsesFewer(lines: seq<string>, groups: seq<seq<string>>)
    requires Splits(groups, lines)
    ensures |Groups(lines)| <= |groups|
  {
    if lines != [] { GreedyStaysAhead(lines, groups); }
  }

  // ---------------------------------------------------------------- nothing is lost

  lemma {:induction false} JoinOfJoined(groups: seq<seq<string>>)
    requires forall i :: 0 <= i < |groups| ==> groups[i] != []
    ensures JoinLines(Joined(groups)) == JoinLines(Flatten(groups))
    ensures groups != [] ==> Flatten(groups) != []
  {
    if groups != [] {
      var init := groups[..|groups| - 1];
      JoinOfJoined(init);
      assert Joined(groups)[..|groups| - 1] == Joined(init);
      if init != [] {
        JoinOfConcat(Flatten(init), groups[|groups| - 1]);
      } else {
        assert Flatten(groups) == groups[0];
      }
    }
  }

  lemma {:induction false} JoinIsShorter(a: seq<string>, b: seq<string>)
    requires |a| == |b| && forall i :: 0 <= i < |a| ==> |a[i]| <= |b[i]|
    ensures |JoinLines(a)| <= |JoinLines(b)|
    ensures (exists i :: 0 <= i < |a| && |a[i]| < |b[i]|) ==> |JoinLines(a)| < |JoinLines(b)|
  {
    if |a| > 1 {
      JoinIsShorter(a[..|a| - 1], b[..|b| - 1]);
      if i :| 0 <= i < |a| && |a[i]| < |b[i]| {
        if i < |a| - 1 { assert |a[..|a| - 1][i]| < |b[..|b| - 1][i]|; }
      }
    }
  }

  lemma {:induction false} LineFitsInItsJoin(group: seq<string>, k: nat)
    requires k < |group|
    ensures |group[k]| <= |JoinLines(group)|
  {
    if |group| > 1 && k < |group| - 1 { LineFitsInItsJoin(group[..|group| - 1], k); }
  }

  lemma {:induction false} InSomeGroup(groups: seq<seq<string>>, k: nat) returns (i: nat, j: nat)
    requires k < |Flatten(groups)|
    ensures i < |groups| && j < |groups[i]| && groups[i][j] == Flatten(groups)[k]
  {
    var init := groups[..|groups| - 1];
    if k < |Flatten(init)| {
      i, j := InSomeGroup(init, k);
    } else {
      i, j := |groups| - 1, k - |Flatten(init)|;
    }
  }

  lemma {:induction false} FromTheLines(groups: seq<seq<string>>, i: nat, j: nat)
    requires i < |groups| && j < |groups[i]|
    ensures groups[i][j] in Flatten(groups)
  {
    if i < |groups| - 1 {
      assert groups[..|groups| - 1][i] == groups[i];
      FromTheLines(groups[..|groups| - 1], i, j);
    }
  }

  ghost predicate NoLongerThan(texts: seq<string>, limit: nat) {
    forall i :: 0 <= i < |texts| ==> |texts[i]| <= limit
  }

  /** For a limit of at least 900, the chunks stay within it exactly when the lines do. */
  lemma ChunksAreAsShortAsLines(lines: seq<string>, limit: nat)
    requires limit >= 900
    ensures NoLongerThan(Joined(Groups(lines)), limit) <==> NoLongerThan(lines, limit)
  {
    GroupsSplit(lines);
    var groups := Groups(lines);
    if NoLongerThan(Joined(groups), limit) {
      forall k | 0 <= k < |lines| ensures |lines[k]| <= limit {
        var i, j := InSomeGroup(groups, k);
        LineFitsInItsJoin(groups[i], j);
        assert |Joined(groups)[i]| <= limit;
      }
    }
    if NoLongerThan(lines, limit) {
      forall i | 0 <= i < |groups| ensures |Joined(groups)[i]| <= limit {
        assert Fits(groups[i]);
        if |groups[i]| == 1 { FromTheLines(groups, i, 0); }
      }
    }
  }

  lemma CuttingShortens(chunks: seq<string>)
    ensures JoinLines(CutAll(chunks)) == JoinLines(chunks) <==> NoLongerThan(chunks, FIELD_VALUE_LIMIT)
  {
    JoinIsShorter(CutAll(chunks), chunks);
    if NoLongerThan(chunks, FIELD_VALUE_LIMIT) {
      assert CutAll(chunks) == chunks;
    } else {
      var i :| 0 <= i < |chunks| && |chunks[i]| > FIELD_VALUE_LIMIT;
      assert |CutAll(chunks)[i]| < |chunks[i]|;
    }
  }

  /** The chunks, joined again, are the lines, joined. */
  ghost predicate NothingIsLost(lines: seq<string>, chunks: seq<string>) {
    JoinLines(chunks) == JoinLines(lines)
  }

  /** The chunks lose nothing exactly when no line is longer than 1024. */
  lemma {:induction false} NothingIsLostIffNoLineIsTooLong(lines: seq<string>)
    ensures NothingIsLost(lines, CutAll(Joined(Groups(lines)))) <==> NoLongerThan(lines, 1024)
  {
    GroupsSplit(lines);
    assert forall i :: 0 <= i < |Groups(lines)| ==> Fits(Groups(lines)[i]);
    JoinOfJoined(Groups(lines));
    ChunksAreAsShortAsLines(lines, FIELD_VALUE_LIMIT);
    CuttingShortens(Joined(Groups(lines)));
  }
}
