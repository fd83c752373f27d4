/** Line patches (`source-line-patches.ts`): splicing from the back, against the meaning of a list
    of edits that all refer to the original text. */
module SourceLinePatches {
  import opened Decimals
  import opened Sequences
  import opened Wrappers

  datatype PatchError = InvalidInput | InvalidPatch | TextConflict | OverlappingPatches

  datatype SourcePatch =
    | Insert(afterLine: int, lines: seq<string>)
    | Replace(startLine: int, endLine: int, lines: seq<string>, expectedText: Option<string>)
    | Delete(startLine: int, endLine: int, expectedText: Option<string>)

  /** A resolved patch: the lines from `start` to `end` give way to `lines`. */
  datatype Edit = Edit(start: nat, end: nat, insert: bool, lines: seq<string>)

  // ----- Text and lines -----

  function Split(text: string): (lines: seq<string>)
    ensures |lines| > 0
  {
    if text == "" then [""]
    else
      var rest := Split(text[1..]);
      if text[0] == '\n' then [""] + rest else [[text[0]] + rest[0]] + rest[1..]
  }

  function Join(lines: seq<string>): string {
    if |lines| == 0 then "" else if |lines| == 1 then lines[0] else lines[0] + "\n" + Join(lines[1..])
  }

  predicate EndsWithNewline(text: string) {
    text != "" && text[|text| - 1] == '\n'
  }

  /** A trailing newline closes the last line; it does not open another. */
  function SourceLines(source: string): seq<string> {
    if source == "" then [] else Split(if EndsWithNewline(source) then source[..|source| - 1] else source)
  }

  function NormalizeSource(source: string): string {
    if source == "" then ""
    else if source[0] == '\r' then
      "\n" + NormalizeSource(if |source| > 1 && source[1] == '\n' then source[2..] else source[1..])
    else [source[0]] + NormalizeSource(source[1..])
  }

  /** The text of some lines; an empty last line needs a newline of its own. */
  function Render(lines: seq<string>, source: string): string {
    Join(lines) + if lines != [] && (EndsWithNewline(source) || lines[|lines| - 1] == "") then "\n" else ""
  }

  // ----- Resolving patches -----

  predicate SingleLine(line: string) {
    '\n' !in line && '\r' !in line
  }

  function ResolvePatch(patch: SourcePatch, lines: seq<string>): Result<Edit, PatchError> {
    if !patch.Delete? && exists i :: 0 <= i < |patch.lines| && !SingleLine(patch.lines[i]) then Err(InvalidPatch)
    else match patch
      case Insert(afterLine, text) =>
        if !(0 <= afterLine <= |lines|) then Err(InvalidInput) else Ok(Edit(afterLine, afterLine, true, text))
      case Replace(startLine, endLine, text, expected) => ResolveSpan(startLine, endLine, text, expected, lines)
      case Delete(startLine, endLine, expected) => ResolveSpan(startLine, endLine, [], expected, lines)
  }

  function ResolveSpan(startLine: int, endLine: int, text: seq<string>, expected: Option<string>,
                       lines: seq<string>): Result<Edit, PatchError> {
    if !(1 <= startLine <= |lines|) || !(startLine <= endLine <= |lines|) then Err(InvalidInput)
    else if expected.Some? && expected.value != Join(lines[startLine - 1..endLine]) then Err(TextConflict)
    else Ok(Edit(startLine - 1, endLine, false, text))
  }

  function ResolveAll(patches: seq<SourcePatch>, lines: seq<string>): Result<seq<Edit>, PatchError> {
    if patches == [] then Ok([])
    else match ResolveAll(patches[..|patches| - 1], lines)
      case Err(error) => Err(error)
      case Ok(edits) =>
        match ResolvePatch(patches[|patches| - 1], lines)
        case Err(error) => Err(error)
        case Ok(edit) => Ok(edits + [edit])
  }

  predicate Overlap(a: Edit, b: Edit) {
    if a.insert && b.insert then a.start == b.start
    else if a.insert then b.start <= a.start < b.end
    else if b.insert then a.start <= b.start < a.end
    else a.start < b.end && b.start < a.end
  }

  predicate Disjoint(edits: seq<Edit>) {
    forall i, j :: 0 <= i < j < |edits| ==> !Overlap(edits[i], edits[j])
  }

  // ----- What a list of edits means -----

  /** The lines that the edit starting at `i` puts in, if there is one. */
  function Inserted(edits: seq<Edit>, i: nat): seq<string> {
    if edits == [] then []
    else if edits[0].start == i then edits[0].lines
    else Inserted(edits[1..], i)
  }

  predicate Removed(edits: seq<Edit>, i: nat) {
    exists k :: 0 <= k < |edits| && edits[k].start <= i < edits[k].end
  }

  /** All edits at once, seen from the original: at every position first what is put in there, then
      the original line unless some edit takes it away; from position `from` on. */
  function Simultaneous(lines: seq<string>, edits: seq<Edit>, from: nat): seq<string>
    requires from <= |lines|
    decreases |lines| - from
  {
    if from == |lines| then Inserted(edits, from)
    else Inserted(edits, from) + (if Removed(edits, from) then []
        else [lines[from]]) + Simultaneous(lines, edits, from + 1)
  }

  function ApplySpec(source: string, patches: seq<SourcePatch>): Result<string, PatchError> {
    var lines := SourceLines(source);
    match ResolveAll(patches, lines)
    case Err(error) => Err(error)
    case Ok(edits) =>
      if !Disjoint(edits) then Err(OverlappingPatches)
      else Ok(Render(Simultaneous(lines, edits, 0), source))
  }

  // ----- Splitting and joining -----

  predicate NoNewlines(lines: seq<string>) {
    forall i :: 0 <= i < |lines| ==> '\n' !in lines[i]
  }

  lemma {:induction false} SplitIsClean(text: string)
    ensures NoNewlines(Split(text))
  {
    if text != "" {
      SplitIsClean(text[1..]);
    }
  }

  lemma {:induction false} JoinSplit(text: string)
    ensures Join(Split(text)) == text
  {
    if text != "" {
      JoinSplit(text[1..]);
      var rest := Split(text[1..]);
      if text[0] == '\n' {
        assert ([""] + rest)[1..] == rest;
      } else {
        assert ([[text[0]] + rest[0]] + rest[1..])[1..] == rest[1..];
      }
    }
  }

  lemma {:induction false} SplitOneLine(line: string)
    requires '\n' !in line
    ensures Split(line) == [line]
  {
    if line != "" {
      SplitOneLine(line[1..]);
      assert line == [line[0]] + line[1..];
    }
  }

  lemma {:induction false} SplitAfterLine(line: string, text: string)
    requires '\n' !in line
    ensures Split(line + "\n" + text) == [line] + Split(text)
  {
    var whole := line + "\n" + text;
    if line == "" {
      assert whole == "\n" + text && whole[1..] == text;
    } else {
      SplitAfterLine(line[1..], text);
      assert whole[1..] == line[1..] + "\n" + text;
      assert line == [line[0]] + line[1..];
    }
  }

  lemma {:induction false} SplitJoin(lines: seq<string>)
    requires lines != [] && NoNewlines(lines)
    ensures Split(Join(lines)) == lines
  {
    if |lines| == 1 {
      SplitOneLine(lines[0]);
    } else {
      SplitJoin(lines[1..]);
      SplitAfterLine(lines[0], Join(lines[1..]));
      assert lines == [lines[0]] + lines[1..];
    }
  }

  /** A joined text ends as its last line does, or in a newline if that line is empty. */
  lemma {:induction false} JoinEnds(lines: seq<string>)
    requires lines != [] && NoNewlines(lines)
    ensures EndsWithNewline(Join(lines)) <==> |lines| > 1 && lines[|lines| - 1] == ""
    ensures lines[|lines| - 1] != "" ==> Join(lines) != ""
  {
    if |lines| > 1 {
      JoinEnds(lines[1..]);
      var rest := Join(lines[1..]);
      assert Join(lines) == lines[0] + "\n" + rest;
      if rest == "" {
        assert Join(lines)[|lines[0]|] == '\n';
      }
    }
  }

  /** Reading a rendered text back gives exactly the lines it was rendered from. */
  lemma RenderedLinesReadBack(lines: seq<string>, source: string)
    requires NoNewlines(lines)
    ensures SourceLines(Render(lines, source)) == lines
  {
    if lines != [] {
      SplitJoin(lines);
      JoinEnds(lines);
      var text := Render(lines, source);
      if text != Join(lines) {
        assert text[..|text| - 1] == Join(lines);
      }
    }
  }

  lemma SourceLinesAreClean(source: string)
    ensures NoNewlines(SourceLines(source))
  {
    SplitIsClean(if EndsWithNewline(source) then source[..|source| - 1] else source);
  }

  /** Rendering what was read gives the text again. */
  lemma ReadLinesRenderBack(source: string)
    ensures Render(SourceLines(source), source) == source
  {
    if source != "" {
      var body := if EndsWithNewline(source) then source[..|source| - 1] else source;
      JoinSplit(body);
      SplitIsClean(body);
      JoinEnds(Split(body));
      if EndsWithNewline(source) {
        assert source == body + "\n";
      }
    }
  }

  // ----- Resolved edits -----

  predicate GoodEdit(edit: Edit, size: nat) {
    && edit.start <= edit.end <= size
    && (edit.insert <==> edit.start == edit.end)
    && forall i :: 0 <= i < |edit.lines| ==> SingleLine(edit.lines[i])
  }

  predicate GoodEdits(edits: seq<Edit>, size: nat) {
    forall k :: 0 <= k < |edits| ==> GoodEdit(edits[k], size)
  }

  predicate DistinctStarts(edits: seq<Edit>) {
    forall i, j :: 0 <= i < j < |edits| ==> edits[i].start != edits[j].start
  }

  lemma {:induction false} ResolvedOneByOne(patches: seq<SourcePatch>, lines: seq<string>)
    ensures ResolveAll(patches, lines).Ok? <==> forall k :: 0 <= k < |patches| ==> ResolvePatch(patches[k], lines).Ok?
    ensures ResolveAll(patches, lines).Ok? ==>
              var edits := ResolveAll(patches, lines).value;
              && |edits| == |patches|
              && (forall k :: 0 <= k < |patches| ==> ResolvePatch(patches[k], lines) == Ok(edits[k]))
              && GoodEdits(edits, |lines|)
  {
    if patches != [] {
      ResolvedOneByOne(patches[..|patches| - 1], lines);
      assert forall k :: 0 <= k < |patches| - 1 ==> patches[..|patches| - 1][k] == patches[k];
    }
  }

  lemma DisjointEditsStartApart(edits: seq<Edit>, size: nat)
    requires GoodEdits(edits, size) && Disjoint(edits)
    ensures DistinctStarts(edits)
  {
  }

  /** Edits that start apart and do not overlap: the earlier one ends before the later one starts. */
  lemma EarlierEndsFirst(a: Edit, b: Edit, size: nat)
    requires GoodEdit(a, size) && GoodEdit(b, size) && !Overlap(a, b) && a.start < b.start
    ensures a.end <= b.start
  {
  }

  // ----- The meaning does not depend on the order of the edits -----

  lemma {:induction false} InsertedIsTheEditThere(edits: seq<Edit>, i: nat)
    requires DistinctStarts(edits)
    ensures forall k :: 0 <= k < |edits| && edits[k].start == i ==> Inserted(edits, i) == edits[k].lines
    ensures (forall k :: 0 <= k < |edits| ==> edits[k].start != i) ==> Inserted(edits, i) == []
  {
    if edits != [] {
      InsertedIsTheEditThere(edits[1..], i);
      assert forall k :: 0 < k < |edits| ==> edits[k] == edits[1..][k - 1];
    }
  }

  ghost predicate SameEdits(a: seq<Edit>, b: seq<Edit>) {
    forall e :: e in a <==> e in b
  }

  lemma InsertedByMembership(a: seq<Edit>, b: seq<Edit>, i: nat)
    requires DistinctStarts(a) && DistinctStarts(b) && SameEdits(a, b)
    ensures Inserted(a, i) == Inserted(b, i)
  {
    InsertedIsTheEditThere(a, i);
    InsertedIsTheEditThere(b, i);
    if k :| 0 <= k < |a| && a[k].start == i {
      assert a[k] in b;
    } else {
      forall m | 0 <= m < |b| ensures b[m].start != i {
        assert b[m] in a;
      }
    }
  }

  lemma RemovedByMembership(a: seq<Edit>, b: seq<Edit>, i: nat)
    requires SameEdits(a, b) && Removed(a, i)
    ensures Removed(b, i)
  {
    var k :| 0 <= k < |a| && a[k].start <= i < a[k].end;
    assert a[k] in b;
  }

  lemma {:induction false} SimultaneousByMembership(lines: seq<string>, a: seq<Edit>, b: seq<Edit>, from: nat)
    requires from <= |lines| && DistinctStarts(a) && DistinctStarts(b) && SameEdits(a, b)
    ensures Simultaneous(lines, a, from) == Simultaneous(lines, b, from)
    decreases |lines| - from
  {
    InsertedByMembership(a, b, from);
    if from < |lines| {
      SimultaneousByMembership(lines, a, b, from + 1);
      if Removed(a, from) {
        RemovedByMembership(a, b, from);
      } else if Removed(b, from) {
        RemovedByMembership(b, a, from);
      }
    }
  }

  // ----- Splicing from the back -----

  function Splice(lines: seq<string>, edit: Edit): seq<string>
    requires edit.start <= edit.end <= |lines|
  {
    lines[..edit.start] + edit.lines + lines[edit.end..]
  }

  predicate StartsAtOrAfter(edits: seq<Edit>, from: nat) {
    forall k :: 0 <= k < |edits| ==> edits[k].start >= from
  }

  lemma {:induction false} NothingInsertedBefore(edits: seq<Edit>, from: nat, i: nat)
    requires StartsAtOrAfter(edits, from) && i < from
    ensures Inserted(edits, i) == [] && !Removed(edits, i)
  {
    if edits != [] {
      assert StartsAtOrAfter(edits[1..], from);
      NothingInsertedBefore(edits[1..], from, i);
    }
  }

  lemma {:induction false} InsertedElsewhere(edits: seq<Edit>, edit: Edit, i: nat)
    requires edit.start != i
    ensures Inserted(edits + [edit], i) == Inserted(edits, i)
  {
    if edits == [] {
      assert edits + [edit] == [edit];
      assert [edit][1..] == [];
    } else {
      InsertedElsewhere(edits[1..], edit, i);
      assert (edits + [edit])[1..] == edits[1..] + [edit];
    }
  }

  lemma {:induction false} InsertedHere(edits: seq<Edit>, edit: Edit)
    requires forall k :: 0 <= k < |edits| ==> edits[k].start != edit.start
    ensures Inserted(edits + [edit], edit.start) == edit.lines
  {
    if edits == [] {
      assert edits + [edit] == [edit];
    } else {
      InsertedHere(edits[1..], edit);
      assert (edits + [edit])[1..] == edits[1..] + [edit];
    }
  }

  lemma RemovedWith(edits: seq<Edit>, edit: Edit, i: nat)
    ensures Removed(edits + [edit], i) <==> Removed(edits, i) || edit.start <= i < edit.end
  {
    var more := edits + [edit];
    assert more[|edits|] == edit;
    assert forall k :: 0 <= k < |edits| ==> more[k] == edits[k];
  }

  /** An edit that ends at or before `from`, and starts before it, changes nothing from there on. */
  lemma {:induction false} UnaffectedAfter(lines: seq<string>, edits: seq<Edit>, edit: Edit, from: nat)
    requires from <= |lines| && edit.start < from && edit.end <= from
    ensures Simultaneous(lines, edits + [edit], from) == Simultaneous(lines, edits, from)
    decreases |lines| - from
  {
    InsertedElsewhere(edits, edit, from);
    if from < |lines| {
      RemovedWith(edits, edit, from);
      UnaffectedAfter(lines, edits, edit, from + 1);
    }
  }

  lemma PrependLine(lines: seq<string>, i: nat, j: nat, rest: seq<string>)
    requires i < j <= |lines|
    ensures [lines[i]] + (lines[i + 1..j] + rest) == lines[i..j] + rest
  {
    assert lines[i..j] == [lines[i]] + lines[i + 1..j];
  }

  /** Positions before every edit are copied. */
  lemma {:induction false} CopiedBefore(lines: seq<string>, edits: seq<Edit>, i: nat, j: nat)
    requires i <= j <= |lines| && StartsAtOrAfter(edits, j)
    ensures Simultaneous(lines, edits, i) == lines[i..j] + Simultaneous(lines, edits, j)
    decreases j - i
  {
    if i < j {
      var rest := Simultaneous(lines, edits, j);
      assert Simultaneous(lines, edits, i) == [lines[i]] + Simultaneous(lines, edits, i + 1) by {
        NothingInsertedBefore(edits, j, i);
      }
      CopiedBefore(lines, edits, i + 1, j);
      PrependLine(lines, i, j, rest);
    } else {
      assert lines[i..j] == [];
    }
  }

  /** From the inside of a span to be removed, the meaning goes on at its end. */
  lemma {:induction false} SkippedInside(lines: seq<string>, edits: seq<Edit>, edit: Edit, i: nat, next: nat)
    requires edit.start < i <= edit.end <= next <= |lines| && StartsAtOrAfter(edits, next)
    ensures Simultaneous(lines, edits + [edit], i) == lines[edit.end..next] + Simultaneous(lines, edits, next)
    decreases edit.end - i
  {
    if i < edit.end {
      NothingInsertedBefore(edits, next, i);
      InsertedElsewhere(edits, edit, i);
      RemovedWith(edits, edit, i);
      SkippedInside(lines, edits, edit, i + 1, next);
    } else {
      UnaffectedAfter(lines, edits, edit, i);
      CopiedBefore(lines, edits, i, next);
    }
  }

  lemma OneMoreInsertion(lines: seq<string>, edits: seq<Edit>, edit: Edit, next: nat)
    requires edit.start == edit.end < next <= |lines| && StartsAtOrAfter(edits, next)
    ensures Simultaneous(lines, edits + [edit], edit.start) ==
              edit.lines + lines[edit.end..next] + Simultaneous(lines, edits, next)
  {
    hide Simultaneous, Inserted, Removed;
    var from, rest := edit.start, Simultaneous(lines, edits, next);
    InsertedHere(edits, edit);
    NothingInsertedBefore(edits, next, from);
    RemovedWith(edits, edit, from);
    KeptHere(lines, edits + [edit], from);
    UnaffectedAfter(lines, edits, edit, from + 1);
    CopiedBefore(lines, edits, from + 1, next);
    PrependLine(lines, from, next, rest);
    Associates(edit.lines, [lines[from]], lines[from + 1..next] + rest);
    Associates(edit.lines, lines[from..next], rest);
  }

  lemma OneMoreRemoval(lines: seq<string>, edits: seq<Edit>, edit: Edit, next: nat)
    requires edit.start < edit.end <= next <= |lines| && StartsAtOrAfter(edits, next)
    ensures Simultaneous(lines, edits + [edit], edit.start) ==
              edit.lines + lines[edit.end..next] + Simultaneous(lines, edits, next)
  {
    hide Simultaneous, Inserted, Removed;
    InsertedHere(edits, edit);
    RemovedWith(edits, edit, edit.start);
    RemovedHere(lines, edits + [edit], edit.start);
    SkippedInside(lines, edits, edit, edit.start + 1, next);
    Associates(edit.lines, lines[edit.end..next], Simultaneous(lines, edits, next));
  }

  lemma RemovedHere(lines: seq<string>, edits: seq<Edit>, from: nat)
    requires from < |lines| && Removed(edits, from)
    ensures Simultaneous(lines, edits, from) == Inserted(edits, from) + Simultaneous(lines, edits, from + 1)
  {
    hide Inserted, Removed;
  }

  lemma KeptHere(lines: seq<string>, edits: seq<Edit>, from: nat)
    requires from < |lines| && !Removed(edits, from)
    ensures Simultaneous(lines, edits, from)
         == Inserted(edits, from) + [lines[from]] + Simultaneous(lines, edits, from + 1)
  {
    hide Inserted, Removed;
  }

  lemma Associates<T>(a: seq<T>, b: seq<T>, c: seq<T>)
    ensures a + (b + c) == a + b + c
  {
  }

  lemma SpliceText(lines: seq<string>, edit: Edit, next: nat, rest: seq<string>)
    requires edit.start <= edit.end <= next <= |lines|
    ensures Splice(lines[..next] + rest, edit) == lines[..edit.start] + (edit.lines + lines[edit.end..next] + rest)
  {
    var current := lines[..next] + rest;
    assert current[..edit.start] == lines[..edit.start];
    assert current[edit.end..] == lines[edit.end..next] + rest;
  }

  /** With the edits of `edits` already spliced in, all of them starting at or after `next`, an edit in
      front of them is spliced in as if all were made at once. */
  lemma SpliceInFront(lines: seq<string>, edits: seq<Edit>, edit: Edit, next: nat)
    requires GoodEdit(edit, |lines|) && edit.end <= next <= |lines| && edit.start < next && StartsAtOrAfter(edits, next)
    ensures Splice(lines[..next] + Simultaneous(lines, edits, next), edit) ==
              lines[..edit.start] + Simultaneous(lines, edits + [edit], edit.start)
  {
    if edit.insert {
      OneMoreInsertion(lines, edits, edit, next);
    } else {
      OneMoreRemoval(lines, edits, edit, next);
    }
    SpliceText(lines, edit, next, Simultaneous(lines, edits, next));
  }

  /** The first edit spliced in, the hindmost, may start where the text ends. */
  lemma SpliceFirst(lines: seq<string>, edit: Edit)
    requires GoodEdit(edit, |lines|)
    ensures Splice(lines, edit) == lines[..edit.start] + Simultaneous(lines, [edit], edit.start)
  {
    var edits: seq<Edit> := [];
    assert edits + [edit] == [edit];
    if edit.start < |lines| {
      assert lines == lines[..|lines|] + Simultaneous(lines, edits, |lines|);
      SpliceInFront(lines, edits, edit, |lines|);
    }
  }

  // ----- Sorting -----

  predicate SortedDown(edits: seq<Edit>) {
    forall i, j :: 0 <= i < j < |edits| ==> edits[i].start >= edits[j].start
  }

  method InsertDown(sorted: seq<Edit>, edit: Edit) returns (r: seq<Edit>)
    requires SortedDown(sorted)
    ensures SortedDown(r) && multiset(r) == multiset(sorted) + multiset{edit}
  {
    var k := |sorted|;
    while k > 0 && sorted[k - 1].start < edit.start
      invariant 0 <= k <= |sorted|
      invariant forall m :: k <= m < |sorted| ==> sorted[m].start < edit.start
    {
      k := k - 1;
    }
    r := sorted[..k] + [edit] + sorted[k..];
    OneMoreElement(sorted, k, edit);
  }

  method SortByStartDescending(edits: seq<Edit>) returns (sorted: seq<Edit>)
    ensures SortedDown(sorted) && multiset(sorted) == multiset(edits)
  {
    sorted := [];
    for i := 0 to |edits|
      invariant SortedDown(sorted) && multiset(sorted) == multiset(edits[..i])
    {
      sorted := InsertDown(sorted, edits[i]);
      assert edits[..i + 1] == edits[..i] + [edits[i]];
    }
    assert edits[..|edits|] == edits;
  }

  /** Whether edits overlap does not depend on their order. */
  lemma DisjointInAnyOrder(a: seq<Edit>, b: seq<Edit>, size: nat)
    requires GoodEdits(a, size) && Disjoint(a) && multiset(a) == multiset(b)
    ensures GoodEdits(b, size) && Disjoint(b)
  {
    MembersByMultiset(a, b);
    DistinctInAnyOrder(a, b);
    assert forall k :: 0 <= k < |b| ==> b[k] in a;
    forall i, j | 0 <= i < j < |b| ensures !Overlap(b[i], b[j]) {
      var m :| 0 <= m < |a| && a[m] == b[i];
      var n :| 0 <= n < |a| && a[n] == b[j];
    }
  }

  // ----- The method -----

  method HasOverlap(edits: seq<Edit>) returns (found: bool)
    ensures found <==> !Disjoint(edits)
  {
    for i := 0 to |edits|
      invariant forall m, j :: 0 <= m < i && m < j < |edits| ==> !Overlap(edits[m], edits[j])
    {
      for j := i + 1 to |edits|
        invariant forall n :: i < n < j ==> !Overlap(edits[i], edits[n])
      {
        if Overlap(edits[i], edits[j]) {
          return true;
        }
      }
    }
    return false;
  }

  predicate Ordered(sorted: seq<Edit>, size: nat) {
    && GoodEdits(sorted, size)
    && forall i, j :: 0 <= i < j < |sorted| ==> sorted[j].start < sorted[i].start && sorted[j].end <= sorted[i].start
  }

  /** The lines once the first `k` of the sorted edits are spliced in. */
  ghost function Spliced(original: seq<string>, sorted: seq<Edit>, k: nat): seq<string>
    requires Ordered(sorted, |original|) && k <= |sorted|
  {
    if k == 0 then original
    else original[..sorted[k - 1].start] + Simultaneous(original, sorted[..k], sorted[k - 1].start)
  }

  lemma SplicedStep(original: seq<string>, sorted: seq<Edit>, k: nat)
    requires Ordered(sorted, |original|) && k < |sorted|
    ensures sorted[k].end <= |Spliced(original, sorted, k)|
    ensures Splice(Spliced(original, sorted, k), sorted[k]) == Spliced(original, sorted, k + 1)
  {
    assert sorted[..k + 1] == sorted[..k] + [sorted[k]];
    if k == 0 {
      assert sorted[..1] == [sorted[0]];
      SpliceFirst(original, sorted[k]);
    } else {
      SpliceInFront(original, sorted[..k], sorted[k], sorted[k - 1].start);
    }
  }

  lemma SplicedAll(original: seq<string>, sorted: seq<Edit>)
    requires Ordered(sorted, |original|)
    ensures Spliced(original, sorted, |sorted|) == Simultaneous(original, sorted, 0)
  {
    assert sorted[..|sorted|] == sorted;
    CopiedBefore(original, sorted, 0, if sorted == [] then |original| else sorted[|sorted| - 1].start);
  }

  lemma SortedIsOrdered(sorted: seq<Edit>, size: nat)
    requires GoodEdits(sorted, size) && Disjoint(sorted) && SortedDown(sorted)
    ensures Ordered(sorted, size)
  {
    DisjointEditsStartApart(sorted, size);
    forall i, j | 0 <= i < j < |sorted| ensures sorted[j].start < sorted[i].start && sorted[j].end <= sorted[i].start {
      EarlierEndsFirst(sorted[j], sorted[i], size);
    }
  }

  /** Splicing the sorted edits one after the other makes them all at once. */
  method SpliceAll(original: seq<string>, sorted: seq<Edit>) returns (lines: seq<string>)
    requires GoodEdits(sorted, |original|) && Disjoint(sorted) && SortedDown(sorted)
    ensures lines == Simultaneous(original, sorted, 0)
  {
    SortedIsOrdered(sorted, |original|);
    lines := original;
    for k := 0 to |sorted|
      invariant lines == Spliced(original, sorted, k)
    {
      SplicedStep(original, sorted, k);
      lines := Splice(lines, sorted[k]);
    }
    SplicedAll(original, sorted);
  }

  method ApplySourcePatches(source: string, patches: seq<SourcePatch>) returns (r: Result<string, PatchError>)
    ensures r == ApplySpec(source, patches)
  {
    var lines := SourceLines(source);
    var resolved := ResolveAll(patches, lines);
    if resolved.Err? {
      return Err(resolved.error);
    }
    var edits := resolved.value;
    var overlap := HasOverlap(edits);
    if overlap {
      return Err(OverlappingPatches);
    }
    var sorted := SortByStartDescending(edits);
    ResolvedOneByOne(patches, lines);
    DisjointInAnyOrder(edits, sorted, |lines|);
    var result := SpliceAll(lines, sorted);
    MembersByMultiset(edits, sorted);
    DisjointEditsStartApart(edits, |lines|);
    DisjointEditsStartApart(sorted, |lines|);
    SimultaneousByMembership(lines, sorted, edits, 0);
    return Ok(Render(result, source));
  }

  // ----- What an accepted patch list does -----

  lemma AcceptedEditsStartApart(source: string, patches: seq<SourcePatch>)
    requires ApplySpec(source, patches).Ok?
    ensures DistinctStarts(ResolveAll(patches, SourceLines(source)).value)
  {
    var lines := SourceLines(source);
    ResolvedOneByOne(patches, lines);
    DisjointEditsStartApart(ResolveAll(patches, lines).value, |lines|);
  }

  lemma {:induction false} ResolvedInAnyOrder(p: seq<SourcePatch>, q: seq<SourcePatch>, lines: seq<string>)
    requires multiset(p) == multiset(q) && ResolveAll(p, lines).Ok?
    ensures ResolveAll(q, lines).Ok?
    ensures multiset(ResolveAll(p, lines).value) == multiset(ResolveAll(q, lines).value)
  {
    MembersByMultiset(p, q);
    ResolvedOneByOne(p, lines);
    ResolvedOneByOne(q, lines);
    forall k | 0 <= k < |q| ensures ResolvePatch(q[k], lines).Ok? {
      assert q[k] in p;
    }
    ResolvedAsMultiset(p, q, lines);
  }

  /** Taking the last patch of `p` out of `q` wherever it is. */
  lemma {:induction false} ResolvedAsMultiset(p: seq<SourcePatch>, q: seq<SourcePatch>, lines: seq<string>)
    requires multiset(p) == multiset(q) && ResolveAll(p, lines).Ok? && ResolveAll(q, lines).Ok?
    ensures multiset(ResolveAll(p, lines).value) == multiset(ResolveAll(q, lines).value)
    decreases |p|
  {
    MembersByMultiset(p, q);
    if p != [] {
      var last := p[|p| - 1];
      assert last in q;
      var k :| 0 <= k < |q| && q[k] == last;
      SameRemainder(p, q, k);
      WithoutOne(q, k, lines);
      ResolvedAsMultiset(p[..|p| - 1], q[..k] + q[k + 1..], lines);
    }
  }

  lemma SameRemainder<T>(p: seq<T>, q: seq<T>, k: nat)
    requires p != [] && k < |q| && q[k] == p[|p| - 1] && multiset(p) == multiset(q)
    ensures multiset(p[..|p| - 1]) == multiset(q[..k] + q[k + 1..])
  {
    Without(p, |p| - 1);
    Without(q, k);
    assert p[..|p| - 1] + p[|p|..] == p[..|p| - 1];
    Cancels(multiset(p[..|p| - 1]), multiset(q[..k] + q[k + 1..]), q[k]);
  }

  lemma Without<T>(s: seq<T>, k: nat)
    requires k < |s|
    ensures multiset(s) == multiset(s[..k] + s[k + 1..]) + multiset{s[k]}
  {
    var others := s[..k] + s[k + 1..];
    OneMoreElement(others, k, s[k]);
    assert others[..k] == s[..k] && others[k..] == s[k + 1..];
    assert s == s[..k] + [s[k]] + s[k + 1..];
  }

  lemma Cancels<T>(a: multiset<T>, b: multiset<T>, x: T)
    requires a + multiset{x} == b + multiset{x}
    ensures a == b
  {
    assert a == (a + multiset{x}) - multiset{x};
    assert b == (b + multiset{x}) - multiset{x};
  }

  lemma {:induction false} ResolvedInParts(x: seq<SourcePatch>, y: seq<SourcePatch>, lines: seq<string>)
    ensures ResolveAll(x + y, lines).Ok? <==> ResolveAll(x, lines).Ok? && ResolveAll(y, lines).Ok?
    ensures ResolveAll(x + y, lines).Ok? ==>
              ResolveAll(x + y, lines).value == ResolveAll(x, lines).value + ResolveAll(y, lines).value
  {
    if y == [] {
      assert x + y == x;
    } else {
      var front := y[..|y| - 1];
      ResolvedInParts(x, front, lines);
      assert (x + y)[..|x + y| - 1] == x + front;
    }
  }

  lemma WithoutOne(q: seq<SourcePatch>, k: nat, lines: seq<string>)
    requires k < |q| && ResolveAll(q, lines).Ok?
    ensures var others := q[..k] + q[k + 1..];
            && ResolveAll(others, lines).Ok?
            && ResolvePatch(q[k], lines).Ok?
            && multiset(ResolveAll(q, lines).value) ==
                 multiset(ResolveAll(others, lines).value) + multiset{ResolvePatch(q[k], lines).value}
  {
    assert q[..k + 1] == q[..k] + [q[k]];
    assert q == q[..k + 1] + q[k + 1..];
    ResolvedInParts(q[..k + 1], q[k + 1..], lines);
    ResolvedInParts(q[..k], q[k + 1..], lines);
  }

  /** The order of a patch list does not matter. */
  lemma OrderDoesNotMatter(source: string, p: seq<SourcePatch>, q: seq<SourcePatch>)
    requires multiset(p) == multiset(q) && ApplySpec(source, p).Ok?
    ensures ApplySpec(source, q) == ApplySpec(source, p)
  {
    var lines := SourceLines(source);
    ResolvedInAnyOrder(p, q, lines);
    var a, b := ResolveAll(p, lines).value, ResolveAll(q, lines).value;
    ResolvedOneByOne(p, lines);
    DisjointInAnyOrder(a, b, |lines|);
    DisjointEditsStartApart(a, |lines|);
    DisjointEditsStartApart(b, |lines|);
    MembersByMultiset(a, b);
    SimultaneousByMembership(lines, a, b, 0);
  }

  predicate Lacks(lines: seq<string>, c: char) {
    forall i :: 0 <= i < |lines| ==> c !in lines[i]
  }

  lemma {:induction false} InsertedLacks(edits: seq<Edit>, i: nat, size: nat, c: char)
    requires GoodEdits(edits, size) && c in "\n\r"
    ensures Lacks(Inserted(edits, i), c)
  {
    if edits != [] {
      assert GoodEdit(edits[0], size);
      assert forall k :: 0 <= k < |edits[0].lines| ==> SingleLine(edits[0].lines[k]);
      assert GoodEdits(edits[1..], size);
      InsertedLacks(edits[1..], i, size, c);
    }
  }

  lemma {:induction false} SimultaneousLacks(lines: seq<string>, edits: seq<Edit>, from: nat, c: char)
    requires from <= |lines| && Lacks(lines, c) && GoodEdits(edits, |lines|) && c in "\n\r"
    ensures Lacks(Simultaneous(lines, edits, from), c)
    decreases |lines| - from
  {
    InsertedLacks(edits, from, |lines|, c);
    if from < |lines| {
      SimultaneousLacks(lines, edits, from + 1, c);
    }
  }

  /** Reading the patched text back gives exactly the lines that the edits mean. */
  lemma PatchedTextReadsBack(source: string, patches: seq<SourcePatch>)
    requires ApplySpec(source, patches).Ok?
    ensures SourceLines(ApplySpec(source, patches).value) ==
              Simultaneous(SourceLines(source), ResolveAll(patches, SourceLines(source)).value, 0)
  {
    var lines := SourceLines(source);
    SourceLinesAreClean(source);
    ResolvedOneByOne(patches, lines);
    var edits := ResolveAll(patches, lines).value;
    SimultaneousLacks(lines, edits, 0, '\n');
    RenderedLinesReadBack(Simultaneous(lines, edits, 0), source);
  }

  lemma NoPatchesNoChange(source: string)
    ensures ApplySpec(source, []) == Ok(source)
  {
    var lines := SourceLines(source);
    CopiedBefore(lines, [], 0, |lines|);
    assert lines[0..|lines|] + [] == lines;
    ReadLinesRenderBack(source);
  }

  // ----- Line ends -----

  lemma {:induction false} NormalizedHasNoReturns(source: string)
    ensures '\r' !in NormalizeSource(source)
    decreases |source|
  {
    if source != "" {
      if source[0] == '\r' {
        NormalizedHasNoReturns(if |source| > 1 && source[1] == '\n' then source[2..] else source[1..]);
      } else {
        NormalizedHasNoReturns(source[1..]);
      }
    }
  }

  /** Every line end, of one character or two, becomes a newline, and nothing else changes. */
  lemma {:induction false} LineEndsBecomeNewlines(line: string, rest: string)
    requires '\r' !in line
    ensures NormalizeSource(line + "\r\n" + rest) == line + "\n" + NormalizeSource(rest)
    ensures rest == "" || rest[0] != '\n' ==> NormalizeSource(line + "\r" + rest) == line + "\n" + NormalizeSource(rest)
  {
    if line == "" {
      assert line + "\r\n" + rest == "\r\n" + rest && ("\r\n" + rest)[2..] == rest;
      assert line + "\r" + rest == "\r" + rest && ("\r" + rest)[1..] == rest;
      assert rest != "" ==> ("\r" + rest)[1] == rest[0];
      assert line + "\n" == "\n";
    } else {
      LineEndsBecomeNewlines(line[1..], rest);
      assert (line + "\r\n" + rest)[1..] == line[1..] + "\r\n" + rest;
      assert (line + "\r" + rest)[1..] == line[1..] + "\r" + rest;
      assert [line[0]] + (line[1..] + "\n" + NormalizeSource(rest)) == line + "\n" + NormalizeSource(rest);
    }
  }

  lemma {:induction false} NormalizedStays(source: string)
    requires '\r' !in source
    ensures NormalizeSource(source) == source
  {
    if source != "" {
      NormalizedStays(source[1..]);
    }
  }

  lemma {:induction false} JoinLacks(lines: seq<string>, c: char)
    requires Lacks(lines, c) && c != '\n'
    ensures c !in Join(lines)
  {
    if |lines| > 1 {
      JoinLacks(lines[1..], c);
    }
  }

  lemma {:induction false} SplitLacks(text: string, c: char)
    requires c !in text
    ensures Lacks(Split(text), c)
  {
    if text != "" {
      SplitLacks(text[1..], c);
    }
  }

  /** Patching a normalized source leaves it normalized. */
  lemma PatchingKeepsNormalized(source: string, patches: seq<SourcePatch>)
    requires '\r' !in source && ApplySpec(source, patches).Ok?
    ensures '\r' !in ApplySpec(source, patches).value
  {
    var lines := SourceLines(source);
    SplitLacks(if EndsWithNewline(source) then source[..|source| - 1] else source, '\r');
    ResolvedOneByOne(patches, lines);
    var edits := ResolveAll(patches, lines).value;
    SimultaneousLacks(lines, edits, 0, '\r');
    JoinLacks(Simultaneous(lines, edits, 0), '\r');
  }

  // ----- The diff of a revision -----

  datatype Hunk = Hunk(start: nat, endA: nat, endB: nat)

  datatype DiffLine =
    | Header(line: nat, removed: nat, lineAgain: nat, added: nat)
    | Minus(text: string)
    | Plus(text: string)
    | FinalNewline(present: bool)

  /** The two texts agree before and after the hunk. */
  predicate Agrees(a: seq<string>, b: seq<string>, hunk: Hunk) {
    && hunk.start <= hunk.endA <= |a| && hunk.start <= hunk.endB <= |b|
    && a[..hunk.start] == b[..hunk.start]
    && a[hunk.endA..] == b[hunk.endB..]
  }

  /** The texts differ where the hunk starts, and its end cannot be drawn in further. */
  predicate Tight(a: seq<string>, b: seq<string>, hunk: Hunk) {
    && Agrees(a, b, hunk)
    && (hunk.start < |a| && hunk.start < |b| ==> a[hunk.start] != b[hunk.start])
    && (hunk.start < hunk.endA && hunk.start < hunk.endB ==> a[hunk.endA - 1] != b[hunk.endB - 1])
  }

  method FindHunk(a: seq<string>, b: seq<string>) returns (hunk: Hunk)
    ensures Tight(a, b, hunk)
  {
    var start, endA, endB := 0, |a|, |b|;
    while start < endA && start < endB && a[start] == b[start]
      invariant start <= |a| && start <= |b| && a[..start] == b[..start]
    {
      start := start + 1;
    }
    while endA > start && endB > start && a[endA - 1] == b[endB - 1]
      invariant start <= endA <= |a| && start <= endB <= |b| && a[endA..] == b[endB..]
      decreases endA
    {
      endA, endB := endA - 1, endB - 1;
      assert a[endA..] == [a[endA]] + a[endA + 1..];
      assert b[endB..] == [b[endB]] + b[endB + 1..];
    }
    return Hunk(start, endA, endB);
  }

  /** Only one hunk is tight. */
  lemma TightIsUnique(a: seq<string>, b: seq<string>, hunk: Hunk, other: Hunk)
    requires Tight(a, b, hunk) && Tight(a, b, other)
    ensures hunk == other
  {
    assert hunk.start == other.start;
    TightIsSmallest(a, b, hunk, other);
    TightIsSmallest(a, b, other, hunk);
  }

  /** No other hunk removes or adds fewer lines. */
  lemma TightIsSmallest(a: seq<string>, b: seq<string>, hunk: Hunk, other: Hunk)
    requires Tight(a, b, hunk) && Agrees(a, b, other)
    ensures hunk.endA - hunk.start <= other.endA - other.start
    ensures hunk.endB - hunk.start <= other.endB - other.start
  {
    assert |a[hunk.endA..]| == |b[hunk.endB..]| && |a[other.endA..]| == |b[other.endB..]|;
    if hunk.start < hunk.endA && hunk.start < hunk.endB {
      assert other.start <= hunk.start;
      assert hunk.endA <= other.endA;
    }
  }

  function DiffLines(before: string, after: string, hunk: Hunk): seq<DiffLine>
    requires Agrees(SourceLines(before), SourceLines(after), hunk)
  {
    if before == after then []
    else
      var removed := SourceLines(before)[hunk.start..hunk.endA];
      var added := SourceLines(after)[hunk.start..hunk.endB];
      [Header(hunk.start + 1, |removed|, hunk.start + 1, |added|)] + Minuses(removed) + Pluses(added)
      + Ending(EndsWithNewline(before), EndsWithNewline(after))
  }

  function Minuses(lines: seq<string>): seq<DiffLine> {
    seq(|lines|, i requires 0 <= i < |lines| => Minus(lines[i]))
  }

  function Pluses(lines: seq<string>): seq<DiffLine> {
    seq(|lines|, i requires 0 <= i < |lines| => Plus(lines[i]))
  }

  function Ending(before: bool, after: bool): seq<DiffLine> {
    if before != after then [FinalNewline(after)] else []
  }

  const MAX_DIFF: nat := 12_000

  datatype BoundedDiff = BoundedDiff(text: string, truncated: bool, totalCharacters: nat)

  function RenderLine(line: DiffLine): string {
    match line
    case Header(start, removed, startAgain, added) => "@@ -" + HeaderCounts(start, removed, startAgain, added)
    case Minus(text) => "-" + text
    case Plus(text) => "+" + text
    case FinalNewline(present) => "Final newline: " + if present then "true" else "false"
  }

  function HeaderCounts(start: nat, removed: nat, startAgain: nat, added: nat): string {
    Decimal(start) + ("," + (Decimal(removed) + (" +" + (Decimal(startAgain) + ("," + (Decimal(added) + " @@"))))))
  }

  function RenderDiff(diff: seq<DiffLine>): seq<string> {
    seq(|diff|, i requires 0 <= i < |diff| => RenderLine(diff[i]))
  }

  function Cut(text: string): BoundedDiff {
    BoundedDiff(if |text| > MAX_DIFF then text[..MAX_DIFF] else text, |text| > MAX_DIFF, |text|)
  }

  /** `boundedDiff`. */
  method Diff(before: string, after: string) returns (diff: BoundedDiff, hunk: Hunk)
    ensures Tight(SourceLines(before), SourceLines(after), hunk)
    ensures diff == Cut(Join(RenderDiff(DiffLines(before, after, hunk))))
  {
    hunk := FindHunk(SourceLines(before), SourceLines(after));
    diff := Cut(Join(RenderDiff(DiffLines(before, after, hunk))));
  }

  function Texts(diff: seq<DiffLine>): seq<string> {
    if diff == [] then []
    else (if diff[0].Plus? then [diff[0].text] else []) + Texts(diff[1..])
  }

  function PatchedLines(a: seq<string>, diff: seq<DiffLine>): seq<string>
    requires diff != []
  {
    if !diff[0].Header? || diff[0].line == 0 || diff[0].line - 1 + diff[0].removed > |a| then a
    else a[..diff[0].line - 1] + Texts(diff) + a[diff[0].line - 1 + diff[0].removed..]
  }

  function PatchedEnding(before: bool, diff: seq<DiffLine>): bool
    requires diff != []
  {
    if diff[|diff| - 1].FinalNewline? then diff[|diff| - 1].present else before
  }

  /** What a reader makes of a diff who has only the text before. */
  function Patched(before: string, diff: seq<DiffLine>): string {
    if diff == [] then before
    else
      Join(PatchedLines(SourceLines(before), diff)) + if PatchedEnding(EndsWithNewline(before), diff) then "\n" else ""
  }

  lemma {:induction false} TextsOfBoth(x: seq<DiffLine>, y: seq<DiffLine>)
    ensures Texts(x + y) == Texts(x) + Texts(y)
  {
    if x == [] {
      assert x + y == y;
    } else {
      var first := if x[0].Plus? then [x[0].text] else [];
      assert (x + y)[1..] == x[1..] + y;
      TextsOfBoth(x[1..], y);
      assert Texts(x + y) == first + (Texts(x[1..]) + Texts(y));
      assert first + (Texts(x[1..]) + Texts(y)) == first + Texts(x[1..]) + Texts(y);
    }
  }

  lemma {:induction false} TextsOfNone(x: seq<DiffLine>)
    requires forall i :: 0 <= i < |x| ==> !x[i].Plus?
    ensures Texts(x) == []
  {
    if x != [] {
      TextsOfNone(x[1..]);
    }
  }

  lemma {:induction false} TextsOfPluses(x: seq<DiffLine>, lines: seq<string>)
    requires |x| == |lines| && forall i :: 0 <= i < |x| ==> x[i] == Plus(lines[i])
    ensures Texts(x) == lines
  {
    if x != [] {
      TextsOfPluses(x[1..], lines[1..]);
    }
  }

  lemma TextIsItsLines(text: string)
    ensures text == Join(SourceLines(text)) + if EndsWithNewline(text) then "\n" else ""
  {
    if text != "" {
      JoinSplit(if EndsWithNewline(text) then text[..|text| - 1] else text);
    }
  }

  lemma TextsOfDiff(before: string, after: string, hunk: Hunk)
    requires before != after && Agrees(SourceLines(before), SourceLines(after), hunk)
    ensures Texts(DiffLines(before, after, hunk)) == SourceLines(after)[hunk.start..hunk.endB]
  {
    hide Minuses, Pluses, Ending, SourceLines, Texts;
    var removed, added := SourceLines(before)[hunk.start..hunk.endA], SourceLines(after)[hunk.start..hunk.endB];
    TextsOfParts(Header(hunk.start + 1, |removed|, hunk.start + 1, |added|), removed, added,
                 EndsWithNewline(before), EndsWithNewline(after));
  }

  lemma TextsOfParts(header: DiffLine, removed: seq<string>, added: seq<string>, before: bool, after: bool)
    requires !header.Plus?
    ensures Texts([header] + Minuses(removed) + Pluses(added) + Ending(before, after)) == added
  {
    TextsOfBoth([header] + Minuses(removed) + Pluses(added), Ending(before, after));
    TextsOfBoth([header] + Minuses(removed), Pluses(added));
    TextsOfNone([header] + Minuses(removed));
    TextsOfPluses(Pluses(added), added);
    TextsOfNone(Ending(before, after));
  }

  lemma EndsOfDiff(before: string, after: string, hunk: Hunk)
    requires before != after && Agrees(SourceLines(before), SourceLines(after), hunk)
    ensures var diff := DiffLines(before, after, hunk);
            && diff != []
            && diff[0] == Header(hunk.start + 1, hunk.endA - hunk.start, hunk.start + 1, hunk.endB - hunk.start)
            && PatchedEnding(EndsWithNewline(before), diff) == EndsWithNewline(after)
  {
  }

  lemma Rebuilt<T>(a: seq<T>, b: seq<T>, start: nat, endA: nat, endB: nat)
    requires start <= endA <= |a| && start <= endB <= |b| && a[..start] == b[..start] && a[endA..] == b[endB..]
    ensures a[..start] + b[start..endB] + a[endA..] == b
  {
    assert b == b[..start] + b[start..endB] + b[endB..];
  }

  lemma LinesRebuilt(a: seq<string>, b: seq<string>, hunk: Hunk, diff: seq<DiffLine>)
    requires Agrees(a, b, hunk) && diff != []
    requires diff[0] == Header(hunk.start + 1, hunk.endA - hunk.start, hunk.start + 1, hunk.endB - hunk.start)
    requires Texts(diff) == b[hunk.start..hunk.endB]
    ensures PatchedLines(a, diff) == b
  {
    Rebuilt(a, b, hunk.start, hunk.endA, hunk.endB);
  }

  /** A diff that is not cut off says everything: with the text before, it gives the text after. */
  lemma DiffRebuildsTheTextAfter(before: string, after: string, hunk: Hunk)
    requires Agrees(SourceLines(before), SourceLines(after), hunk)
    ensures Patched(before, DiffLines(before, after, hunk)) == after
  {
    if before != after {
      TextsOfDiff(before, after, hunk);
      EndsOfDiff(before, after, hunk);
      LinesRebuilt(SourceLines(before), SourceLines(after), hunk, DiffLines(before, after, hunk));
      TextIsItsLines(after);
    }
  }

  // ----- The text of a diff -----

  /** What a reader makes of the counts in a header. */
  function ReadCounts(text: string): Option<DiffLine> {
    var (start, behindStart) := ReadNumber(text, 0);
    if behindStart == "" || behindStart[0] != ',' then None
    else
      var (removed, behindRemoved) := ReadNumber(behindStart[1..], 0);
      if |behindRemoved| < 2 || behindRemoved[..2] != " +" then None
      else
        match ReadAdded(behindRemoved[2..])
        case None => None
        case Some((again, added)) => Some(Header(start, removed, again, added))
  }

  function ReadAdded(text: string): Option<(nat, nat)> {
    var (again, behindAgain) := ReadNumber(text, 0);
    if behindAgain == "" || behindAgain[0] != ',' then None
    else
      var (added, end) := ReadNumber(behindAgain[1..], 0);
      if end == " @@" then Some((again, added)) else None
  }

  /** What a reader makes of a line of the diff text: its first character says what it is. */
  function ReadDiffLine(text: string): Option<DiffLine> {
    if text == "" then None
    else if text[0] == '-' then Some(Minus(text[1..]))
    else if text[0] == '+' then Some(Plus(text[1..]))
    else if text == "Final newline: true" then Some(FinalNewline(true))
    else if text == "Final newline: false" then Some(FinalNewline(false))
    else if |text| >= 4 && text[..4] == "@@ -" then ReadCounts(text[4..])
    else None
  }

  lemma AddedReadsBack(again: nat, added: nat)
    ensures ReadAdded(Decimal(again) + ("," + (Decimal(added) + " @@"))) == Some((again, added))
  {
    hide Decimal, ReadNumber;
    var rest := Decimal(added) + " @@";
    NumeralReadsBack(again, "," + rest);
    assert ("," + rest)[1..] == rest;
    NumeralReadsBack(added, " @@");
  }

  lemma CountsReadBack(start: nat, removed: nat, again: nat, added: nat)
    ensures ReadCounts(HeaderCounts(start, removed, again, added)) == Some(Header(start, removed, again, added))
  {
    hide Decimal, ReadNumber;
    var second := Decimal(again) + ("," + (Decimal(added) + " @@"));
    var first := Decimal(removed) + (" +" + second);
    NumeralReadsBack(start, "," + first);
    assert ("," + first)[1..] == first;
    NumeralReadsBack(removed, " +" + second);
    assert (" +" + second)[..2] == " +" && (" +" + second)[2..] == second;
    AddedReadsBack(again, added);
    hide ReadAdded;
  }

  /** Each line of the diff text is read back as what it was. */
  lemma DiffLineReadsBack(line: DiffLine)
    ensures ReadDiffLine(RenderLine(line)) == Some(line)
  {
    var text := RenderLine(line);
    match line
    case Header(start, removed, again, added) =>
      assert text[0] == '@' && text[..4] == "@@ -" && text[4..] == HeaderCounts(start, removed, again, added);
      CountsReadBack(start, removed, again, added);
      hide HeaderCounts, ReadCounts;
    case Minus(removed) => assert text[0] == '-' && text[1..] == removed;
    case Plus(added) => assert text[0] == '+' && text[1..] == added;
    case FinalNewline(present) =>
      assert text[0] == 'F';
      assert |text| == if present then 19 else 20;
  }

  predicate CleanLine(line: DiffLine) {
    line.Minus? || line.Plus? ==> '\n' !in line.text
  }

  predicate CleanDiff(diff: seq<DiffLine>) {
    forall i :: 0 <= i < |diff| ==> CleanLine(diff[i])
  }

  lemma CleanJoin(a: string, b: string)
    requires '\n' !in a && '\n' !in b
    ensures '\n' !in a + b
  {
  }

  lemma NumeralIsClean(n: nat)
    ensures '\n' !in Decimal(n)
  {
    DecimalHasDigits(n);
    hide Decimal;
  }

  lemma HeaderIsClean(start: nat, removed: nat, startAgain: nat, added: nat)
    ensures '\n' !in HeaderCounts(start, removed, startAgain, added)
  {
    hide Decimal;
    NumeralIsClean(start);
    NumeralIsClean(removed);
    NumeralIsClean(startAgain);
    NumeralIsClean(added);
    var last := "," + (Decimal(added) + " @@");
    CleanJoin(Decimal(added), " @@");
    CleanJoin(",", Decimal(added) + " @@");
    CleanJoin(Decimal(startAgain), last);
    CleanJoin(" +", Decimal(startAgain) + last);
    CleanJoin(Decimal(removed), " +" + (Decimal(startAgain) + last));
    CleanJoin(",", Decimal(removed) + (" +" + (Decimal(startAgain) + last)));
    CleanJoin(Decimal(start), "," + (Decimal(removed) + (" +" + (Decimal(startAgain) + last))));
  }

  lemma RenderedLineIsClean(line: DiffLine)
    requires CleanLine(line)
    ensures '\n' !in RenderLine(line)
  {
    hide HeaderCounts;
    match line
    case Header(start, removed, again, added) =>
      HeaderIsClean(start, removed, again, added);
      CleanJoin("@@ -", HeaderCounts(start, removed, again, added));
    case Minus(text) => CleanJoin("-", text);
    case Plus(text) => CleanJoin("+", text);
    case FinalNewline(present) =>
  }

  lemma CleanParts(header: DiffLine, removed: seq<string>, added: seq<string>, before: bool, after: bool)
    requires header.Header? && NoNewlines(removed) && NoNewlines(added)
    ensures CleanDiff([header] + Minuses(removed) + Pluses(added) + Ending(before, after))
  {
    assert CleanDiff(Minuses(removed)) && CleanDiff(Pluses(added)) && CleanDiff(Ending(before, after));
    hide CleanLine;
  }

  lemma DiffIsClean(before: string, after: string, hunk: Hunk)
    requires Agrees(SourceLines(before), SourceLines(after), hunk)
    ensures CleanDiff(DiffLines(before, after, hunk))
  {
    if before != after {
      SourceLinesAreClean(before);
      SourceLinesAreClean(after);
      var removed, added := SourceLines(before)[hunk.start..hunk.endA], SourceLines(after)[hunk.start..hunk.endB];
      CleanParts(Header(hunk.start + 1, |removed|, hunk.start + 1, |added|), removed, added,
                 EndsWithNewline(before), EndsWithNewline(after));
    }
  }

  lemma RenderedDiffIsClean(before: string, after: string, hunk: Hunk)
    requires Agrees(SourceLines(before), SourceLines(after), hunk)
    ensures NoNewlines(RenderDiff(DiffLines(before, after, hunk)))
  {
    DiffIsClean(before, after, hunk);
    hide DiffLines, RenderLine, Agrees;
    var diff := DiffLines(before, after, hunk);
    forall i | 0 <= i < |diff| ensures '\n' !in RenderLine(diff[i]) {
      RenderedLineIsClean(diff[i]);
    }
  }

  /** A text is cut off to its first 12,000 characters exactly if it is longer, and its length is told. */
  lemma CutIsExact(text: string)
    ensures var cut := Cut(text);
            && (cut.truncated <==> |text| > 12_000)
            && (!cut.truncated ==> cut.text == text)
            && (cut.truncated ==> |cut.text| == 12_000 && cut.text <= text)
            && cut.totalCharacters == |text|
  {
  }

  /** A diff text that was not cut off says everything: two later texts with the same one are the same. */
  lemma UncutDiffTells(before: string, after: string, hunk: Hunk, other: string, otherHunk: Hunk)
    requires Agrees(SourceLines(before), SourceLines(after), hunk)
    requires Agrees(SourceLines(before), SourceLines(other), otherHunk)
    requires var text := Join(RenderDiff(DiffLines(before, after, hunk)));
             Cut(text) == Cut(Join(RenderDiff(DiffLines(before, other, otherHunk)))) && !Cut(text).truncated
    ensures after == other
  {
    var diff, otherDiff := DiffLines(before, after, hunk), DiffLines(before, other, otherHunk);
    var lines, otherLines := RenderDiff(diff), RenderDiff(otherDiff);
    RenderedDiffIsClean(before, after, hunk);
    RenderedDiffIsClean(before, other, otherHunk);
    DiffRebuildsTheTextAfter(before, after, hunk);
    DiffRebuildsTheTextAfter(before, other, otherHunk);
    NonemptyDiffHasText(diff);
    NonemptyDiffHasText(otherDiff);
    hide DiffLines, Agrees, RenderLine, Patched;
    if diff != [] && otherDiff != [] {
      SplitJoin(lines);
      SplitJoin(otherLines);
      forall i | 0 <= i < |diff| ensures diff[i] == otherDiff[i] {
        assert lines[i] == otherLines[i];
        DiffLineReadsBack(diff[i]);
        DiffLineReadsBack(otherDiff[i]);
      }
      assert diff == otherDiff;
    }
  }

  lemma NonemptyDiffHasText(diff: seq<DiffLine>)
    ensures diff == [] <==> Join(RenderDiff(diff)) == ""
  {
    if diff != [] {
      assert |RenderLine(diff[0])| > 0;
      assert RenderDiff(diff)[0] == RenderLine(diff[0]);
    }
  }
}
