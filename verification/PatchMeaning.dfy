/** What a list of line patches means, said of patches and line numbers alone: where its texts come to stand,
    which lines stay, and which error it is refused with (`source-line-patches.ts`, `applySourcePatches`). */
module PatchMeaning {
  import opened SourceLinePatches
  import opened Wrappers

  // ----- Of one patch -----

  /** A replacement or deletion takes away the lines that it spans, counted from one. */
  predicate Spans(patch: SourcePatch, line: int) {
    !patch.Insert? && patch.startLine <= line <= patch.endLine
  }

  function NewText(patch: SourcePatch): seq<string> {
    if patch.Delete? then [] else patch.lines
  }

  predicate HasLineBreaks(patch: SourcePatch) {
    exists i :: 0 <= i < |NewText(patch)| && ('\n' in NewText(patch)[i] || '\r' in NewText(patch)[i])
  }

  predicate OutOfRange(patch: SourcePatch, size: nat) {
    if patch.Insert? then patch.afterLine < 0 || patch.afterLine > size
    else patch.startLine < 1 || patch.endLine < patch.startLine || patch.endLine > size
  }

  /** The span is not the text that the patch expects. */
  predicate Differs(patch: SourcePatch, lines: seq<string>)
    requires !OutOfRange(patch, |lines|)
  {
    !patch.Insert? && patch.expectedText.Some?
    && patch.expectedText.value != Join(lines[patch.startLine - 1..patch.endLine])
  }

  predicate Acceptable(patch: SourcePatch, lines: seq<string>) {
    !HasLineBreaks(patch) && !OutOfRange(patch, |lines|) && !Differs(patch, lines)
  }

  /** Two inserts behind one line; an insert in front of a spanned line; two spans with a line in common. */
  ghost predicate Collide(p: SourcePatch, q: SourcePatch) {
    if p.Insert? && q.Insert? then p.afterLine == q.afterLine
    else if p.Insert? then Spans(q, p.afterLine + 1)
    else if q.Insert? then Spans(p, q.afterLine + 1)
    else exists line :: Spans(p, line) && Spans(q, line)
  }

  lemma LineBreaksAre(patch: SourcePatch)
    ensures HasLineBreaks(patch) <==>
            !patch.Delete? && exists i :: 0 <= i < |patch.lines| && !SingleLine(patch.lines[i])
  {
    if HasLineBreaks(patch) {
      var i :| 0 <= i < |NewText(patch)| && ('\n' in NewText(patch)[i] || '\r' in NewText(patch)[i]);
      assert !SingleLine(patch.lines[i]);
    } else if !patch.Delete? {
      forall i | 0 <= i < |patch.lines| ensures SingleLine(patch.lines[i]) {
        assert NewText(patch)[i] == patch.lines[i];
      }
    }
  }

  lemma ResolvedAs(patch: SourcePatch, lines: seq<string>)
    ensures ResolvePatch(patch, lines) ==
              if HasLineBreaks(patch) then Err(InvalidPatch)
              else if OutOfRange(patch, |lines|) then Err(InvalidInput)
              else if Differs(patch, lines) then Err(TextConflict)
              else if patch.Insert? then Ok(Edit(patch.afterLine, patch.afterLine, true, NewText(patch)))
              else Ok(Edit(patch.startLine - 1, patch.endLine, false, NewText(patch)))
  {
    LineBreaksAre(patch);
    hide HasLineBreaks;
  }

  lemma CollideIsOverlap(p: SourcePatch, q: SourcePatch, lines: seq<string>)
    requires Acceptable(p, lines) && Acceptable(q, lines)
    ensures ResolvePatch(p, lines).Ok? && ResolvePatch(q, lines).Ok?
    ensures Overlap(ResolvePatch(p, lines).value, ResolvePatch(q, lines).value) <==> Collide(p, q)
  {
    ResolvedAs(p, lines);
    ResolvedAs(q, lines);
    if !p.Insert? && !q.Insert? && p.startLine <= q.endLine && q.startLine <= p.endLine {
      var line := if p.startLine > q.startLine then p.startLine else q.startLine;
      assert Spans(p, line) && Spans(q, line);
    }
  }

  // ----- Which error -----

  /** A single patch: accepted, or refused with exactly these errors. */
  lemma PatchErrorIsExact(source: string, patch: SourcePatch)
    ensures var lines, r := SourceLines(source), ApplySpec(source, [patch]);
            && (r == Err(InvalidPatch) <==> HasLineBreaks(patch))
            && (r == Err(InvalidInput) <==> !HasLineBreaks(patch) && OutOfRange(patch, |lines|))
            && (r == Err(TextConflict) <==>
                  !HasLineBreaks(patch) && !OutOfRange(patch, |lines|) && Differs(patch, lines))
            && (r.Ok? <==> Acceptable(patch, lines))
  {
    ResolvedAs(patch, SourceLines(source));
    assert [patch][..0] == [];
    assert ResolveAll([], SourceLines(source)) == Ok([]);
  }

  /** The first patch that is refused on its own. */
  predicate RefusedFirst(source: string, patches: seq<SourcePatch>, k: nat)
    requires k < |patches|
  {
    && !Acceptable(patches[k], SourceLines(source))
    && forall j :: 0 <= j < k ==> Acceptable(patches[j], SourceLines(source))
  }

  lemma AloneAsResolved(source: string, patch: SourcePatch)
    ensures var resolved := ResolvePatch(patch, SourceLines(source));
            && (resolved.Ok? <==> Acceptable(patch, SourceLines(source)))
            && (resolved.Err? ==> ApplySpec(source, [patch]) == Err(resolved.error))
  {
    ResolvedAs(patch, SourceLines(source));
    assert [patch][..0] == [] && ResolveAll([], SourceLines(source)) == Ok([]);
  }

  lemma AllAcceptable(source: string, patches: seq<SourcePatch>)
    ensures ResolveAll(patches, SourceLines(source)).Ok? <==>
            forall k :: 0 <= k < |patches| ==> Acceptable(patches[k], SourceLines(source))
  {
    ResolvedOneByOne(patches, SourceLines(source));
    forall k | 0 <= k < |patches|
      ensures ResolvePatch(patches[k], SourceLines(source)).Ok? <==> Acceptable(patches[k], SourceLines(source))
    {
      AloneAsResolved(source, patches[k]);
    }
  }

  lemma {:induction false} FirstRefusal(source: string, patches: seq<SourcePatch>, k: nat)
    requires k < |patches| && RefusedFirst(source, patches, k)
    ensures var all := ResolveAll(patches, SourceLines(source));
            all.Err? && ApplySpec(source, [patches[k]]) == Err(all.error)
  {
    hide Acceptable, ApplySpec, ResolvePatch;
    var front := patches[..|patches| - 1];
    if k < |front| {
      assert RefusedFirst(source, front, k);
      FirstRefusal(source, front, k);
    } else {
      AllAcceptable(source, front);
      AloneAsResolved(source, patches[k]);
    }
  }

  /** A list is refused with the error of the first patch that is refused on its own, else for overlapping exactly
      if two of its patches collide. */
  lemma ListErrorIsExact(source: string, patches: seq<SourcePatch>)
    ensures var lines, r := SourceLines(source), ApplySpec(source, patches);
            && (forall k :: 0 <= k < |patches| && RefusedFirst(source, patches, k) ==>
                  r.Err? && ApplySpec(source, [patches[k]]) == Err(r.error))
            && (forall k :: 0 <= k < |patches| ==> Acceptable(patches[k], lines)) ==>
                 if exists i, j :: 0 <= i < j < |patches| && Collide(patches[i], patches[j])
                 then r == Err(OverlappingPatches)
                 else r.Ok?
  {
    var lines := SourceLines(source);
    forall k | 0 <= k < |patches| && RefusedFirst(source, patches, k)
      ensures ApplySpec(source, patches).Err?
      ensures ApplySpec(source, [patches[k]]) == Err(ApplySpec(source, patches).error)
    {
      FirstRefusal(source, patches, k);
    }
    AllAcceptable(source, patches);
    ResolvedOneByOne(patches, lines);
    if forall k :: 0 <= k < |patches| ==> Acceptable(patches[k], lines) {
      var edits := ResolveAll(patches, lines).value;
      forall i, j | 0 <= i < j < |patches| ensures Overlap(edits[i], edits[j]) <==> Collide(patches[i], patches[j]) {
        CollideIsOverlap(patches[i], patches[j], lines);
      }
    }
  }

  // ----- Where the texts come to stand -----

  /** The text of the insert behind a line, if there is one. */
  function TextBehind(patches: seq<SourcePatch>, line: nat): seq<string> {
    if patches == [] then []
    else if patches[0].Insert? && patches[0].afterLine == line then NewText(patches[0])
    else TextBehind(patches[1..], line)
  }

  /** The text that comes in place of a span, if one starts at the line. */
  function TextInstead(patches: seq<SourcePatch>, line: nat): seq<string> {
    if patches == [] then []
    else if !patches[0].Insert? && patches[0].startLine == line then NewText(patches[0])
    else TextInstead(patches[1..], line)
  }

  predicate Spanned(patches: seq<SourcePatch>, line: nat) {
    exists k :: 0 <= k < |patches| && Spans(patches[k], line)
  }

  /** Behind `line` lines come the text inserted there, the text in place of the next line, and that line itself
      unless it is spanned; and so on to the end. */
  function Meaning(lines: seq<string>, patches: seq<SourcePatch>, line: nat): seq<string>
    requires line <= |lines|
    decreases |lines| - line
  {
    if line == |lines| then TextBehind(patches, line)
    else
      TextBehind(patches, line) + TextInstead(patches, line + 1)
      + (if Spanned(patches, line + 1) then [] else [lines[line]])
      + Meaning(lines, patches, line + 1)
  }

  /** The edits are those of the patches, one by one. */
  predicate EditsOf(edits: seq<Edit>, patches: seq<SourcePatch>, lines: seq<string>) {
    && |edits| == |patches|
    && forall k :: 0 <= k < |patches| ==>
         Acceptable(patches[k], lines) && ResolvePatch(patches[k], lines) == Ok(edits[k])
  }

  lemma {:induction false} InsertedIsText(edits: seq<Edit>, patches: seq<SourcePatch>, lines: seq<string>, i: nat)
    requires EditsOf(edits, patches, lines) && DistinctStarts(edits) && i <= |lines|
    ensures Inserted(edits, i) == TextBehind(patches, i) + TextInstead(patches, i + 1)
    ensures (forall k :: 0 <= k < |edits| ==> edits[k].start != i) ==>
              TextBehind(patches, i) == [] && TextInstead(patches, i + 1) == []
  {
    if patches != [] {
      ResolvedAs(patches[0], lines);
      assert EditsOf(edits[1..], patches[1..], lines);
      InsertedIsText(edits[1..], patches[1..], lines, i);
      if edits[0].start == i {
        forall k | 0 <= k < |edits[1..]| ensures edits[1..][k].start != i {
          assert edits[1..][k] == edits[k + 1];
        }
      } else if forall k :: 0 <= k < |edits| ==> edits[k].start != i {
        forall k | 0 <= k < |edits[1..]| ensures edits[1..][k].start != i {
          assert edits[1..][k] == edits[k + 1];
        }
      }
    }
  }

  lemma RemovedIsSpanned(edits: seq<Edit>, patches: seq<SourcePatch>, lines: seq<string>, i: nat)
    requires EditsOf(edits, patches, lines)
    ensures Removed(edits, i) <==> Spanned(patches, i + 1)
  {
    forall k | 0 <= k < |patches| ensures edits[k].start <= i < edits[k].end <==> Spans(patches[k], i + 1) {
      ResolvedAs(patches[k], lines);
    }
  }

  lemma {:induction false} SimultaneousIsMeaning(edits: seq<Edit>, patches: seq<SourcePatch>, lines: seq<string>,
                                                 i: nat)
    requires EditsOf(edits, patches, lines) && DistinctStarts(edits) && i <= |lines|
    ensures Simultaneous(lines, edits, i) == Meaning(lines, patches, i)
    decreases |lines| - i
  {
    InsertedIsText(edits, patches, lines, i);
    if i < |lines| {
      RemovedIsSpanned(edits, patches, lines, i);
      SimultaneousIsMeaning(edits, patches, lines, i + 1);
    } else {
      NothingBehindTheEnd(patches, lines);
    }
  }

  lemma {:induction false} NothingBehindTheEnd(patches: seq<SourcePatch>, lines: seq<string>)
    requires forall k :: 0 <= k < |patches| ==> Acceptable(patches[k], lines)
    ensures TextInstead(patches, |lines| + 1) == []
  {
    if patches != [] {
      NothingBehindTheEnd(patches[1..], lines);
    }
  }

  /** The lines of an accepted patch list: each original line stays exactly if no replacement or deletion spans its
      number, each inserted text stands directly behind its line, and each replacement where its span began. */
  lemma PatchedLinesAre(source: string, patches: seq<SourcePatch>)
    requires ApplySpec(source, patches).Ok?
    ensures SourceLines(ApplySpec(source, patches).value) == Meaning(SourceLines(source), patches, 0)
  {
    var lines := SourceLines(source);
    ResolvedOneByOne(patches, lines);
    AllAcceptable(source, patches);
    var edits := ResolveAll(patches, lines).value;
    DisjointEditsStartApart(edits, |lines|);
    SimultaneousIsMeaning(edits, patches, lines, 0);
    PatchedTextReadsBack(source, patches);
  }

  /** The text ends in a newline exactly if it has lines and the source did, or the last line is empty and needs
      one of its own. */
  lemma PatchedTextEnds(source: string, patches: seq<SourcePatch>)
    requires ApplySpec(source, patches).Ok?
    ensures var text := ApplySpec(source, patches).value;
            var lines := SourceLines(text);
            EndsWithNewline(text) <==> lines != [] && (EndsWithNewline(source) || lines[|lines| - 1] == "")
  {
    var lines := SourceLines(source);
    PatchedTextReadsBack(source, patches);
    SourceLinesAreClean(ApplySpec(source, patches).value);
    var patched := Simultaneous(lines, ResolveAll(patches, lines).value, 0);
    if patched != [] {
      JoinEnds(patched);
    }
  }

  /** One patch: an insert, a replacement, a deletion. */
  lemma OnePatchedSource(source: string, patch: SourcePatch)
    requires ApplySpec(source, [patch]).Ok?
    ensures Acceptable(patch, SourceLines(source))
    ensures var lines := SourceLines(source);
            SourceLines(ApplySpec(source, [patch]).value) ==
              match patch
              case Insert(n, text) => lines[..n] + text + lines[n..]
              case Replace(a, b, text, _) => lines[..a - 1] + text + lines[b..]
              case Delete(a, b, _) => lines[..a - 1] + lines[b..]
  {
    var lines := SourceLines(source);
    PatchErrorIsExact(source, patch);
    ResolvedAs(patch, lines);
    ResolvedOneByOne([patch], lines);
    assert ResolvePatch([patch][0], lines).Ok?;
    var edits := ResolveAll([patch], lines).value;
    assert edits == [edits[0]];
    PatchedTextReadsBack(source, [patch]);
    SpliceFirst(lines, edits[0]);
    CopiedBefore(lines, edits, 0, edits[0].start);
    assert lines[0..edits[0].start] == lines[..edits[0].start];
  }
}
