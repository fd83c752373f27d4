/** Reading a script page by page (`RhinoScriptWorkspace.get`): every page is bounded, and a reader who
    follows the pages sees every line end and every character exactly once. */
module ScriptPages {
  import opened Wrappers

  const MAX_LINES: nat := 200
  const MAX_CHARACTERS: nat := 16_000

  datatype Line = Line(number: nat, text: string)

  /** A slice of a line too long for one page. */
  datatype Partial = Partial(number: nat, text: string, offset: nat, total: nat, nextOffset: Option<nat>)

  datatype Page = Page(lines: seq<Line>, partial: Option<Partial>, truncated: bool, nextLine: Option<nat>)

  datatype PageError = InvalidInput

  predicate InRange(value: int, min: int, max: int) {
    min <= value <= max
  }

  function Max(a: int, b: int): int {
    if a < b then b else a
  }

  function Min(a: int, b: int): int {
    if a < b then a else b
  }

  function LengthAt(lines: seq<string>, line: int): nat {
    if 1 <= line <= |lines| then |lines[line - 1]| else 0
  }

  function RequestedEnd(lines: seq<string>, endLine: Option<int>): int {
    if endLine.Some? then endLine.value else |lines|
  }

  predicate ValidRequest(lines: seq<string>, startLine: int, endLine: Option<int>, offset: int) {
    && InRange(startLine, 1, Max(1, |lines|))
    && InRange(offset, 0, LengthAt(lines, startLine))
    && (offset == 0 || LengthAt(lines, startLine) > MAX_CHARACTERS)
    && InRange(RequestedEnd(lines, endLine), if |lines| == 0 then 0 else startLine, |lines|)
  }

  // ----- What a page holds -----

  /** The characters in the lines numbered `first` to `last`. */
  function Characters(lines: seq<string>, first: nat, last: nat): nat
    requires 1 <= first && last <= |lines|
    decreases last
  {
    if last < first then 0 else Characters(lines, first, last - 1) + |lines[last - 1]|
  }

  /** The numbered lines `first` to `last`. */
  function Numbered(lines: seq<string>, first: nat, last: nat): (r: seq<Line>)
    requires 1 <= first && last <= |lines|
    decreases last
  {
    if last < first then [] else Numbered(lines, first, last - 1) + [Line(last, lines[last - 1])]
  }

  /** Whether one more line fits behind line `last` of a page that begins with line `first`. */
  predicate OneMoreFits(lines: seq<string>, first: nat, last: nat, end: nat)
    requires 1 <= first && end <= |lines|
  {
    last < end && last + 1 < first + MAX_LINES && Characters(lines, first, last + 1) <= MAX_CHARACTERS
  }

  /** The last whole line of a page that begins with line `first`, if lines up to `last` are on it. */
  function LastWhole(lines: seq<string>, first: nat, last: nat, end: nat): (r: nat)
    requires 1 <= first && end <= |lines| && last <= end
    ensures last <= r <= end && !OneMoreFits(lines, first, r, end)
    ensures r == last || (r < first + MAX_LINES && Characters(lines, first, r) <= MAX_CHARACTERS)
    decreases end - last
  {
    if OneMoreFits(lines, first, last, end) then LastWhole(lines, first, last + 1, end) else last
  }

  function LongLine(lines: seq<string>, number: nat, offset: nat): Partial
    requires 1 <= number <= |lines| && offset <= |lines[number - 1]|
  {
    var text := lines[number - 1];
    Partial(number, text[offset..Min(|text|, offset + MAX_CHARACTERS)], offset, |text|,
            if offset + MAX_CHARACTERS < |text| then Some(offset + MAX_CHARACTERS) else None)
  }

  /** The page that answers a valid request for the lines from `start` to `end`. */
  function PageAt(lines: seq<string>, start: nat, offset: nat, end: nat): Page
    requires ValidRequest(lines, start, Some(end), offset)
  {
    if |lines| == 0 then Page([], None, false, None)
    else
      var last := LastWhole(lines, start, start - 1, end);
      var partial := if last < start then Some(LongLine(lines, start, offset)) else None;
      var completed := if partial.Some? && partial.value.nextOffset == None then start else last;
      Page(Numbered(lines, start, last), partial, completed < end,
           if start <= completed < end then Some(completed + 1) else None)
  }

  /** The loop that fills a page with whole lines. */
  method SelectWhole(lines: seq<string>, startLine: nat, requestedEnd: nat) returns (selected: seq<Line>)
    requires 1 <= startLine && startLine - 1 <= requestedEnd <= |lines|
    ensures selected == Numbered(lines, startLine, LastWhole(lines, startLine, startLine - 1, requestedEnd))
  {
    var end := Min(requestedEnd, startLine + MAX_LINES - 1);
    selected := [];
    var chars := 0;
    var i := startLine - 1;
    while i < end
      invariant startLine - 1 <= i <= end
      invariant chars == Characters(lines, startLine, i)
      invariant selected == Numbered(lines, startLine, i)
      invariant LastWhole(lines, startLine, i, requestedEnd) == LastWhole(lines, startLine, startLine - 1, requestedEnd)
    {
      var text := lines[i];
      if chars + |text| > MAX_CHARACTERS {
        break;
      }
      selected := selected + [Line(i + 1, text)];
      chars := chars + |text|;
      i := i + 1;
    }
  }

  lemma {:induction false} NumberedCounts(lines: seq<string>, first: nat, last: nat)
    requires 1 <= first && first - 1 <= last <= |lines|
    ensures |Numbered(lines, first, last)| == last + 1 - first
    ensures forall i :: 0 <= i < last + 1 - first ==>
              Numbered(lines, first, last)[i] == Line(first + i, lines[first + i - 1])
    decreases last
  {
    if first <= last {
      NumberedCounts(lines, first, last - 1);
      var front := Numbered(lines, first, last - 1);
      assert Numbered(lines, first, last) == front + [Line(last, lines[last - 1])];
    }
  }

  method Get(lines: seq<string>, startLine: int, endLine: Option<int>, offset: int) returns (r: Result<Page, PageError>)
    ensures r.Ok? <==> ValidRequest(lines, startLine, endLine, offset)
    ensures r.Ok? ==> r.value == PageAt(lines, startLine, offset, RequestedEnd(lines, endLine))
  {
    if !InRange(startLine, 1, Max(1, |lines|)) || !InRange(offset, 0, LengthAt(lines, startLine)) {
      return Err(InvalidInput);
    }
    if offset != 0 && LengthAt(lines, startLine) <= MAX_CHARACTERS {
      return Err(InvalidInput);
    }
    var requestedEnd := RequestedEnd(lines, endLine);
    if !InRange(requestedEnd, if |lines| == 0 then 0 else startLine, |lines|) {
      return Err(InvalidInput);
    }
    var selected := SelectWhole(lines, startLine, requestedEnd);
    NumberedCounts(lines, startLine, LastWhole(lines, startLine, startLine - 1, requestedEnd));
    var partial := if selected == [] && |lines| > 0 then Some(LongLine(lines, startLine, offset)) else None;
    var completed := if selected != [] then selected[|selected| - 1].number
                     else if partial.Some? && partial.value.nextOffset == None then startLine else startLine - 1;
    r := Ok(Page(selected, partial, completed < requestedEnd,
                 if startLine <= completed < requestedEnd then Some(completed + 1) else None));
  }

  // ----- Bounds -----

  function TextSize(lines: seq<Line>): nat {
    if lines == [] then 0 else TextSize(lines[..|lines| - 1]) + |lines[|lines| - 1].text|
  }

  lemma {:induction false} NumberedSize(lines: seq<string>, first: nat, last: nat)
    requires 1 <= first && last <= |lines|
    ensures TextSize(Numbered(lines, first, last)) == Characters(lines, first, last)
    decreases last
  {
    if first <= last {
      NumberedSize(lines, first, last - 1);
      var front := Numbered(lines, first, last - 1);
      assert (front + [Line(last, lines[last - 1])])[..|front|] == front;
    }
  }

  /** A page holds at most 200 lines and 16,000 characters, whole lines and partial line together. */
  lemma PagesAreBounded(lines: seq<string>, start: nat, offset: nat, end: nat)
    requires ValidRequest(lines, start, Some(end), offset)
    ensures var page := PageAt(lines, start, offset, end);
            && |page.lines| <= MAX_LINES
            && TextSize(page.lines) + (if page.partial.Some? then |page.partial.value.text| else 0) <= MAX_CHARACTERS
  {
    if |lines| > 0 {
      var last := LastWhole(lines, start, start - 1, end);
      NumberedCounts(lines, start, last);
      NumberedSize(lines, start, last);
    }
  }

  // ----- Which requests are valid, and how much their pages show -----

  /** A request names lines of the text in order, and an offset only inside a line too long for one page; of a text
      without lines it can only ask for nothing. */
  lemma RequestIsValidExactly(lines: seq<string>, startLine: int, endLine: Option<int>, offset: int)
    ensures var end := if endLine.Some? then endLine.value else |lines|;
            ValidRequest(lines, startLine, endLine, offset) <==>
              if lines == [] then startLine == 1 && end == 0 && offset == 0
              else
                && 1 <= startLine <= end <= |lines|
                && (offset == 0
                    || (0 < offset <= |lines[startLine - 1]| && |lines[startLine - 1]| > MAX_CHARACTERS))
  {
  }

  /** The whole lines of a page are the next ones of the text, and there are fewer than were asked for only if the page
      has 200 of them or the one that follows has too many characters for it. */
  lemma PageIsFull(lines: seq<string>, start: nat, offset: nat, end: nat)
    requires ValidRequest(lines, start, Some(end), offset) && lines != []
    ensures var whole := PageAt(lines, start, offset, end).lines;
            && start - 1 + |whole| <= end
            && (forall i :: 0 <= i < |whole| ==> whole[i] == Line(start + i, lines[start + i - 1]))
            && (start - 1 + |whole| < end ==>
                  |whole| == MAX_LINES || TextSize(whole) + |lines[start - 1 + |whole|]| > MAX_CHARACTERS)
  {
    var last := LastWhole(lines, start, start - 1, end);
    NumberedCounts(lines, start, last);
    NumberedSize(lines, start, last);
  }

  /** A page without whole lines, and no other, shows 16,000 characters of its line from the offset on, or the rest. */
  lemma LongLinesComeInParts(lines: seq<string>, start: nat, offset: nat, end: nat)
    requires ValidRequest(lines, start, Some(end), offset) && lines != []
    ensures var page, text := PageAt(lines, start, offset, end), lines[start - 1];
            && (page.lines == [] <==> |text| > MAX_CHARACTERS)
            && (page.partial.Some? <==> |text| > MAX_CHARACTERS)
            && (page.partial.Some? ==>
                  var partial := page.partial.value;
                  var shown := offset + |partial.text|;
                  && partial.number == start && partial.offset == offset && partial.total == |text|
                  && shown <= |text| && partial.text == text[offset..shown]
                  && (|partial.text| == MAX_CHARACTERS || shown == |text|)
                  && partial.nextOffset == if shown < |text| then Some(shown) else None)
  {
    var last := LastWhole(lines, start, start - 1, end);
    NumberedCounts(lines, start, last);
    assert Characters(lines, start, start) == |lines[start - 1]|;
  }

  /** A page says that there is more exactly if it has not finished the last line asked for, and names the next line
      exactly if there is one and the page has finished a line. */
  lemma PageTellsWhatIsLeft(lines: seq<string>, start: nat, offset: nat, end: nat)
    requires ValidRequest(lines, start, Some(end), offset)
    ensures var page := PageAt(lines, start, offset, end);
            var finished := if page.lines != [] then |page.lines|
                            else if page.partial.Some? && page.partial.value.nextOffset.None? then 1 else 0;
            && (page.truncated <==> start - 1 + finished < end)
            && page.nextLine == if finished > 0 && page.truncated then Some(start + finished) else None
  {
    if lines != [] {
      NumberedCounts(lines, start, LastWhole(lines, start, start - 1, end));
    }
  }

  // ----- What a reader sees -----

  datatype Visit = Char(line: nat, column: nat, c: char) | LineEnd(line: nat)

  /** The characters of a line from `from` up to `to`. */
  function CharVisits(number: nat, text: string, from: nat, upTo: nat): seq<Visit>
    requires from <= upTo <= |text|
  {
    seq(upTo - from, i requires 0 <= i < upTo - from => Char(number, from + i, text[from + i]))
  }

  function LineVisits(number: nat, text: string, from: nat): seq<Visit>
    requires from <= |text|
  {
    CharVisits(number, text, from, |text|) + [LineEnd(number)]
  }

  /** Everything from a place in the text to the end of line `end`, in order. */
  function Everything(lines: seq<string>, line: nat, offset: nat, end: nat): seq<Visit>
    requires 1 <= line && end <= |lines| && (line <= end ==> offset <= |lines[line - 1]|)
    decreases end - line
  {
    if line > end then [] else LineVisits(line, lines[line - 1], offset) + Everything(lines, line + 1, 0, end)
  }

  function VisitsOfLines(lines: seq<Line>): seq<Visit> {
    if lines == [] then [] else LineVisits(lines[0].number, lines[0].text, 0) + VisitsOfLines(lines[1..])
  }

  /** What one page shows; the text of a partial line starts at its offset. */
  function VisitsOfPage(page: Page): seq<Visit> {
    VisitsOfLines(page.lines) +
    match page.partial
    case None => []
    case Some(partial) =>
      seq(|partial.text|, i requires 0 <= i < |partial.text| =>
                            Char(partial.number, partial.offset + i, partial.text[i]))
      + if partial.nextOffset == None then [LineEnd(partial.number)] else []
  }

  datatype Cursor = At(line: nat, offset: nat) | Done

  /** Where the reader goes on: inside the long line, or at the next line, or nowhere. */
  function Following(page: Page): Cursor {
    if page.partial.Some? && page.partial.value.nextOffset.Some? then
      At(page.partial.value.number, page.partial.value.nextOffset.value)
    else if page.nextLine.Some? then At(page.nextLine.value, 0)
    else Done
  }

  function Shown(pages: seq<Page>): seq<Visit> {
    if pages == [] then [] else VisitsOfPage(pages[0]) + Shown(pages[1..])
  }

  /** Where a page leads is a valid request again, and further on in the text. */
  lemma FollowingIsValidAndFurther(lines: seq<string>, start: nat, offset: nat, end: nat)
    requires ValidRequest(lines, start, Some(end), offset)
    ensures match Following(PageAt(lines, start, offset, end))
            case Done => true
            case At(line, next) =>
              && ValidRequest(lines, line, Some(end), next)
              && (line > start || (line == start && next > offset))
  {
  }

  /** All the pages from a place on; that the function is well defined says that the reader ends. */
  function Reading(lines: seq<string>, start: nat, offset: nat, end: nat): seq<Page>
    requires ValidRequest(lines, start, Some(end), offset)
    decreases |lines| + 1 - start, LengthAt(lines, start) - offset
  {
    var page := PageAt(lines, start, offset, end);
    FollowingIsValidAndFurther(lines, start, offset, end);
    match Following(page)
    case Done => [page]
    case At(line, next) => [page] + Reading(lines, line, next, end)
  }

  lemma CharVisitsJoin(number: nat, text: string, from: nat, mid: nat, upTo: nat)
    requires from <= mid <= upTo <= |text|
    ensures CharVisits(number, text, from, upTo) ==
              CharVisits(number, text, from, mid) + CharVisits(number, text, mid, upTo)
  {
  }

  lemma {:induction false} VisitsAppend(lines: seq<Line>, line: Line)
    ensures VisitsOfLines(lines + [line]) == VisitsOfLines(lines) + LineVisits(line.number, line.text, 0)
  {
    if lines == [] {
      assert lines + [line] == [line];
    } else {
      assert (lines + [line])[1..] == lines[1..] + [line];
      VisitsAppend(lines[1..], line);
    }
  }

  lemma OneMoreNumbered(lines: seq<string>, first: nat, last: nat)
    requires 1 <= first <= last <= |lines|
    ensures VisitsOfLines(Numbered(lines, first, last))
         == VisitsOfLines(Numbered(lines, first, last - 1)) + LineVisits(last, lines[last - 1], 0)
  {
    VisitsAppend(Numbered(lines, first, last - 1), Line(last, lines[last - 1]));
    hide VisitsOfLines, LineVisits;
  }

  lemma OneMoreVisited(lines: seq<string>, line: nat, end: nat)
    requires 1 <= line <= end <= |lines|
    ensures Everything(lines, line, 0, end)
         == LineVisits(line, lines[line - 1], 0) + Everything(lines, line + 1, 0, end)
  {
    hide LineVisits;
  }

  lemma Regrouped<T>(a: seq<T>, b: seq<T>, c: seq<T>)
    ensures a + (b + c) == a + b + c
  {
  }

  /** Whole lines first, then the rest. */
  lemma {:induction false} NumberedThenRest(lines: seq<string>, first: nat, last: nat, end: nat)
    requires 1 <= first && first - 1 <= last <= end <= |lines|
    ensures Everything(lines, first, 0, end) ==
              VisitsOfLines(Numbered(lines, first, last)) + Everything(lines, last + 1, 0, end)
    decreases last
  {
    if first <= last {
      hide Everything, VisitsOfLines, LineVisits, Numbered;
      NumberedThenRest(lines, first, last - 1, end);
      OneMoreNumbered(lines, first, last);
      OneMoreVisited(lines, last, end);
      Regrouped(VisitsOfLines(Numbered(lines, first, last - 1)), LineVisits(last, lines[last - 1], 0),
                Everything(lines, last + 1, 0, end));
    }
  }

  lemma PartialShows(lines: seq<string>, start: nat, offset: nat)
    requires 1 <= start <= |lines| && offset <= |lines[start - 1]|
    ensures var partial := LongLine(lines, start, offset);
            VisitsOfPage(Page([], Some(partial), true, None)) ==
              CharVisits(start, lines[start - 1], offset, offset + |partial.text|)
              + if partial.nextOffset == None then [LineEnd(start)] else []
  {
    var partial := LongLine(lines, start, offset);
  }

  lemma WholeLinesShow(lines: seq<string>, start: nat, offset: nat, end: nat)
    requires ValidRequest(lines, start, Some(end), offset) && |lines| > 0
    requires LastWhole(lines, start, start - 1, end) >= start
    ensures var last := LastWhole(lines, start, start - 1, end);
            && offset == 0
            && Following(PageAt(lines, start, offset, end)) == (if last < end then At(last + 1, 0) else Done)
            && Everything(lines, start, offset, end) ==
                 VisitsOfPage(PageAt(lines, start, offset, end)) + Everything(lines, last + 1, 0, end)
  {
    assert Characters(lines, start, start) == |lines[start - 1]|;
    NumberedThenRest(lines, start, LastWhole(lines, start, start - 1, end), end);
  }

  lemma LongLineGoesOn(lines: seq<string>, start: nat, offset: nat, end: nat)
    requires ValidRequest(lines, start, Some(end), offset) && |lines| > 0
    requires LastWhole(lines, start, start - 1, end) < start && offset + MAX_CHARACTERS < |lines[start - 1]|
    ensures Following(PageAt(lines, start, offset, end)) == At(start, offset + MAX_CHARACTERS)
    ensures Everything(lines, start, offset, end) ==
              VisitsOfPage(PageAt(lines, start, offset, end)) + Everything(lines, start, offset + MAX_CHARACTERS, end)
  {
    var text, mid := lines[start - 1], offset + MAX_CHARACTERS;
    var shown := CharVisits(start, text, offset, mid);
    assert VisitsOfPage(PageAt(lines, start, offset, end)) == shown by {
      PartialShows(lines, start, offset);
    }
    CharVisitsJoin(start, text, offset, mid, |text|);
    var rest := Everything(lines, start + 1, 0, end);
    assert shown + CharVisits(start, text, mid, |text|) + [LineEnd(start)] + rest ==
           shown + (CharVisits(start, text, mid, |text|) + [LineEnd(start)] + rest);
  }

  lemma LongLineEnds(lines: seq<string>, start: nat, offset: nat, end: nat)
    requires ValidRequest(lines, start, Some(end), offset) && |lines| > 0
    requires LastWhole(lines, start, start - 1, end) < start && offset + MAX_CHARACTERS >= |lines[start - 1]|
    ensures Following(PageAt(lines, start, offset, end)) == if start < end then At(start + 1, 0) else Done
    ensures Everything(lines, start, offset, end) ==
              VisitsOfPage(PageAt(lines, start, offset, end)) + Everything(lines, start + 1, 0, end)
  {
    assert VisitsOfPage(PageAt(lines, start, offset, end)) == LineVisits(start, lines[start - 1], offset) by {
      PartialShows(lines, start, offset);
    }
  }

  lemma NoLinesNoVisits(lines: seq<string>, start: nat, offset: nat, end: nat)
    requires ValidRequest(lines, start, Some(end), offset) && |lines| == 0
    ensures Following(PageAt(lines, start, offset, end)) == Done
    ensures Everything(lines, start, offset, end) == VisitsOfPage(PageAt(lines, start, offset, end)) == []
  {
  }

  lemma NothingAfter(lines: seq<string>, end: nat)
    requires end <= |lines|
    ensures Everything(lines, end + 1, 0, end) == []
  {
  }

  lemma PageThenRest(lines: seq<string>, start: nat, offset: nat, end: nat)
    requires ValidRequest(lines, start, Some(end), offset)
    ensures var page := PageAt(lines, start, offset, end);
            match Following(page)
            case Done => Everything(lines, start, offset, end) == VisitsOfPage(page)
            case At(line, next) =>
              && ValidRequest(lines, line, Some(end), next)
              && Everything(lines, start, offset, end) == VisitsOfPage(page) + Everything(lines, line, next, end)
  {
    hide Everything, VisitsOfPage, PageAt, Following;
    FollowingIsValidAndFurther(lines, start, offset, end);
    NothingAfter(lines, end);
    if |lines| == 0 {
      NoLinesNoVisits(lines, start, offset, end);
    } else if LastWhole(lines, start, start - 1, end) >= start {
      WholeLinesShow(lines, start, offset, end);
    } else if offset + MAX_CHARACTERS < |lines[start - 1]| {
      LongLineGoesOn(lines, start, offset, end);
    } else {
      LongLineEnds(lines, start, offset, end);
    }
  }

  lemma ShownFirst(page: Page, pages: seq<Page>)
    ensures Shown([page] + pages) == VisitsOfPage(page) + Shown(pages)
  {
    assert ([page] + pages)[1..] == pages;
  }

  /** Following the pages from a place on shows every character and every line end from there to the end
      of the requested lines, each once, in order. */
  lemma {:induction false} ReadingShowsEverything(lines: seq<string>, start: nat, offset: nat, end: nat)
    requires ValidRequest(lines, start, Some(end), offset)
    ensures Shown(Reading(lines, start, offset, end)) == Everything(lines, start, offset, end)
    decreases |lines| + 1 - start, LengthAt(lines, start) - offset
  {
    var page := PageAt(lines, start, offset, end);
    FollowingIsValidAndFurther(lines, start, offset, end);
    PageThenRest(lines, start, offset, end);
    match Following(page)
    case Done =>
      ShownFirst(page, []);
      assert [page] + [] == [page];
    case At(line, next) =>
      ReadingShowsEverything(lines, line, next, end);
      ShownFirst(page, Reading(lines, line, next, end));
  }

  // ----- Everything is exactly once -----

  predicate VisitBefore(a: Visit, b: Visit) {
    a.line < b.line || (a.line == b.line && a.Char? && (b.LineEnd? || a.column < b.column))
  }

  lemma {:induction false} EverythingStarts(lines: seq<string>, line: nat, offset: nat, end: nat, i: nat)
    requires 1 <= line && end <= |lines| && (line <= end ==> offset <= |lines[line - 1]|)
    requires i < |Everything(lines, line, offset, end)|
    ensures line <= Everything(lines, line, offset, end)[i].line <= end
    decreases end - line
  {
    var text := lines[line - 1];
    var first := LineVisits(line, text, offset);
    if i >= |first| {
      EverythingStarts(lines, line + 1, 0, end, i - |first|);
    }
  }

  /** No place in the text is shown twice, and places are shown in reading order. */
  lemma {:induction false} EverythingIsInOrder(lines: seq<string>, line: nat, offset: nat, end: nat, i: nat, j: nat)
    requires 1 <= line && end <= |lines| && (line <= end ==> offset <= |lines[line - 1]|)
    requires i < j < |Everything(lines, line, offset, end)|
    ensures var all := Everything(lines, line, offset, end); VisitBefore(all[i], all[j])
    decreases end - line
  {
    var text := lines[line - 1];
    var first := LineVisits(line, text, offset);
    if j >= |first| {
      EverythingStarts(lines, line + 1, 0, end, j - |first|);
      if i >= |first| {
        EverythingIsInOrder(lines, line + 1, 0, end, i - |first|, j - |first|);
      }
    }
  }

  /** Every character and, behind the last one, the line end of every requested line is shown. */
  lemma {:induction false} EverythingIsThere(lines: seq<string>, line: nat, end: nat, at: nat, column: nat)
    requires 1 <= line <= at <= end <= |lines| && column <= |lines[at - 1]|
    ensures (if column == |lines[at - 1]| then LineEnd(at) else Char(at, column, lines[at - 1][column]))
              in Everything(lines, line, 0, end)
    decreases end - line
  {
    var text := lines[line - 1];
    if line == at {
      var first := LineVisits(line, text, 0);
      assert first[column] in first;
    } else {
      EverythingIsThere(lines, line + 1, end, at, column);
    }
  }
}
