/**
 Document text, hit positions, masking and reveal. A hit keeps a position and a masked form,
 never the value; reveal derives the value again and shows it only if it masks the same.
 */
module Documents {
  import opened Wrappers

  datatype Line = Line(number: nat, page: nat, onPage: nat, linesOnPage: nat, text: string)

  const BULLET: char := '\U{2022}'

  // ----- text and offsets

  function FullText(lines: seq<Line>): string {
    if lines == [] then ""
    else if |lines| == 1 then lines[0].text
    else FullText(lines[..|lines| - 1]) + "\n" + lines[|lines| - 1].text
  }

  /** Where line `i` begins, counting one newline after every line before it. */
  function Offset(lines: seq<Line>, i: nat): nat
    requires i <= |lines|
  {
    if i == 0 then 0 else Offset(lines, i - 1) + |lines[i - 1].text| + 1
  }

  /** `_offsets`: one pass with a running count. */
  method Offsets(lines: seq<Line>) returns (out: seq<nat>)
    ensures |out| == |lines| && forall i :: 0 <= i < |lines| ==> out[i] == Offset(lines, i)
  {
    out := [];
    var n := 0;
    for i := 0 to |lines|
      invariant n == Offset(lines, i)
      invariant |out| == i && forall j :: 0 <= j < i ==> out[j] == Offset(lines, j)
    {
      out := out + [n];
      n := n + |lines[i].text| + 1;
    }
  }

  /** `bisect_right(offsets, x)`: how many lines begin at or before `x`. */
  function BisectRight(lines: seq<Line>, x: int, i: nat): (r: nat)
    requires i <= |lines|
    ensures i <= r <= |lines|
    decreases |lines| - i
  {
    if i == |lines| || Offset(lines, i) > x then i else BisectRight(lines, x, i + 1)
  }

  /** The index of the line an offset falls on. */
  function LineAt(lines: seq<Line>, offset: int): (i: nat)
    requires lines != []
    ensures i < |lines|
  {
    var i := BisectRight(lines, offset, 0) - 1;
    if i < 0 then 0 else i
  }

  function OffsetOf(lines: seq<Line>, number: int): Option<nat> {
    if 0 <= number < |lines| then Some(Offset(lines, number)) else None
  }

  predicate Numbered(lines: seq<Line>) {
    forall i :: 0 <= i < |lines| ==> lines[i].number == i
  }

  // ----- numbering

  /** The rows of one page, numbered on from `first`. */
  function PageLines(rows: seq<string>, page: nat, first: nat, n: nat): seq<Line>
    requires n <= |rows|
  {
    seq(n, j requires 0 <= j < n => Line(first + j, page, j, |rows|, rows[j]))
  }

  function AllLines(pages: seq<seq<string>>): seq<Line> {
    if pages == [] then []
    else
      var front := AllLines(pages[..|pages| - 1]);
      front + PageLines(pages[|pages| - 1], |pages|, |front|, |pages[|pages| - 1]|)
  }

  /** `_extract`: pages in order, a page that could not be read giving no rows, one running
      number over all of them. */
  method NumberLines(pages: seq<seq<string>>) returns (lines: seq<Line>)
    ensures lines == AllLines(pages)
  {
    lines := [];
    var n := 0;
    for idx := 0 to |pages|
      invariant n == |lines| && lines == AllLines(pages[..idx])
    {
      var rows := pages[idx];
      ghost var before := lines;
      for onPage := 0 to |rows|
        invariant n == |lines| && lines == before + PageLines(rows, idx + 1, |before|, onPage)
      {
        lines := lines + [Line(n, idx + 1, onPage, |rows|, rows[onPage])];
        n := n + 1;
      }
      assert pages[..idx + 1][..idx] == pages[..idx];
    }
    assert pages[..|pages|] == pages;
  }

  ghost predicate Placed(pages: seq<seq<string>>, l: Line) {
    && 1 <= l.page <= |pages|
    && l.onPage < l.linesOnPage == |pages[l.page - 1]|
    && l.text == pages[l.page - 1][l.onPage]
  }

  lemma {:induction false} LineIsPlaced(pages: seq<seq<string>>, i: nat)
    requires i < |AllLines(pages)|
    ensures AllLines(pages)[i].number == i && Placed(pages, AllLines(pages)[i])
  {
    var n := |pages| - 1;
    var front := AllLines(pages[..n]);
    if i < |front| {
      LineIsPlaced(pages[..n], i);
      assert front[i].page <= n && pages[..n][front[i].page - 1] == pages[front[i].page - 1];
    }
  }

  /** Lines are numbered in order, and each one says truly where on its page it stands. */
  lemma LinesAreNumbered(pages: seq<seq<string>>)
    ensures Numbered(AllLines(pages))
    ensures forall i :: 0 <= i < |AllLines(pages)| ==> Placed(pages, AllLines(pages)[i])
  {
    forall i | 0 <= i < |AllLines(pages)| ensures AllLines(pages)[i].number == i && Placed(pages, AllLines(pages)[i]) {
      LineIsPlaced(pages, i);
    }
  }

  lemma {:induction false} OffsetOfFront(lines: seq<Line>, k: nat, i: nat)
    requires i <= k <= |lines|
    ensures Offset(lines[..k], i) == Offset(lines, i)
  {
    if i > 0 {
      OffsetOfFront(lines, k, i - 1);
      assert lines[..k][i - 1] == lines[i - 1];
    }
  }

  /** A line lies in the full text at its offset, and its offset is the start of nothing else. */
  lemma {:induction false} LineInText(lines: seq<Line>, i: nat)
    requires i < |lines|
    ensures |FullText(lines)| + 1 == Offset(lines, |lines|)
    ensures Offset(lines, i) + |lines[i].text| <= |FullText(lines)|
    ensures FullText(lines)[Offset(lines, i)..Offset(lines, i) + |lines[i].text|] == lines[i].text
  {
    var n := |lines| - 1;
    if n == 0 {
    } else {
      var front := lines[..n];
      LineInText(front, if i < n then i else n - 1);
      OffsetOfFront(lines, n, n);
      OffsetOfFront(lines, n, if i < n then i else n - 1);
      if i < n {
        var o := Offset(lines, i);
        assert front[i] == lines[i];
        assert FullText(lines)[o..o + |lines[i].text|] == FullText(front)[o..o + |lines[i].text|];
      }
    }
  }

  lemma {:induction false} BisectStopsBefore(lines: seq<Line>, x: int, i: nat)
    requires i <= |lines| && (i > 0 ==> Offset(lines, i - 1) <= x)
    ensures var r := BisectRight(lines, x, i); r > 0 ==> Offset(lines, r - 1) <= x
    decreases |lines| - i
  {
    if !(i == |lines| || Offset(lines, i) > x) { BisectStopsBefore(lines, x, i + 1); }
  }

  // ----- masking

  function Alphanumerics(s: string, alnum: char -> bool): string {
    if s == "" then "" else (if alnum(s[0]) then [s[0]] else "") + Alphanumerics(s[1..], alnum)
  }

  function Bullets(n: nat): string {
    seq(n, _ => BULLET)
  }

  /** Everything but an opted-in tail becomes bullets; a short value keeps no tail. */
  function Mask(raw: string, keep: int, alnum: char -> bool): string {
    var chars := Alphanumerics(raw, alnum);
    if chars == "" then ""
    else if keep <= 0 || |chars| <= keep + 3 then Bullets(|chars|)
    else Bullets(|chars| - keep) + chars[|chars| - keep..]
  }

  function Visible(masked: string): nat {
    if masked == "" then 0 else (if masked[0] != BULLET then 1 else 0) + Visible(masked[1..])
  }

  lemma {:induction false} VisibleConcat(a: string, b: string)
    ensures Visible(a + b) == Visible(a) + Visible(b)
  {
    if a == "" {
      assert a + b == b;
    } else {
      assert (a + b)[1..] == a[1..] + b;
      VisibleConcat(a[1..], b);
    }
  }

  lemma {:induction false} BulletsAreHidden(n: nat)
    ensures Visible(Bullets(n)) == 0
  {
    if n > 0 {
      assert Bullets(n)[1..] == Bullets(n - 1);
      BulletsAreHidden(n - 1);
    }
  }

  lemma {:induction false} AlphanumericsAreAlnum(s: string, alnum: char -> bool)
    ensures forall i :: 0 <= i < |Alphanumerics(s, alnum)| ==> alnum(Alphanumerics(s, alnum)[i])
  {
    if s != "" { AlphanumericsAreAlnum(s[1..], alnum); }
  }

  lemma {:induction false} AllVisible(s: string)
    requires forall i :: 0 <= i < |s| ==> s[i] != BULLET
    ensures Visible(s) == |s|
  {
    if s != "" { AllVisible(s[1..]); }
  }

  lemma VisibleTail(hidden: nat, tail: string)
    requires forall i :: 0 <= i < |tail| ==> tail[i] != BULLET
    ensures Visible(Bullets(hidden) + tail) == |tail|
  {
    BulletsAreHidden(hidden);
    AllVisible(tail);
    VisibleConcat(Bullets(hidden), tail);
  }

  /** The masked form itself says how much tail was kept: masking again with the number of
      characters it shows gives the same form. */
  lemma MaskTellsItsTail(raw: string, keep: int, alnum: char -> bool)
    requires !alnum(BULLET)
    ensures Mask(raw, Visible(Mask(raw, keep, alnum)), alnum) == Mask(raw, keep, alnum)
  {
    var chars := Alphanumerics(raw, alnum);
    AlphanumericsAreAlnum(raw, alnum);
    if chars != "" {
      if keep <= 0 || |chars| <= keep + 3 {
        BulletsAreHidden(|chars|);
      } else {
        VisibleTail(|chars| - keep, chars[|chars| - keep..]);
      }
    }
  }

  // ----- rules and hits

  datatype Span = Span(start: nat, end: nat)

  // A pattern is whatever spans it finds; `Some` context must match within `window` lines.
  datatype Rule = Rule(
    find: string -> seq<Span>,
    valid: string -> bool,
    context: Option<string -> bool>,
    window: nat,
    byPage: bool,
    fromEnd: bool,
    minLine: Option<nat>,
    maxLine: Option<nat>,
    keep: nat)

  datatype Hit = Hit(lineNumber: int, start: int, end: int, masked: string)

  ghost predicate FindsInside(rule: Rule) {
    forall text, k :: 0 <= k < |rule.find(text)| ==> rule.find(text)[k].start <= rule.find(text)[k].end <= |text|
  }

  predicate InRange(rule: Rule, line: Line) {
    if rule.minLine.None? && rule.maxLine.None? then true
    else
      var pos: int := if rule.byPage then (if rule.fromEnd then line.linesOnPage - 1 - line.onPage else line.onPage)
                      else line.number;
      (rule.minLine.Some? ==> pos >= rule.minLine.value) && (rule.maxLine.Some? ==> pos <= rule.maxLine.value)
  }

  /** Some line no further than the window away matches the context. */
  ghost predicate ContextIsNear(rule: Rule, lines: seq<Line>, line: Line)
    requires rule.context.Some?
  {
    exists k :: 0 <= k < |lines| && line.number - rule.window <= lines[k].number <= line.number + rule.window &&
                rule.context.value(lines[k].text)
  }

  /** `_context_near`: start at the first line of the window and stop after its last. */
  method ContextNear(rule: Rule, lines: seq<Line>, line: Line) returns (near: bool)
    requires Numbered(lines) && rule.context.Some?
    ensures near <==> ContextIsNear(rule, lines, line)
  {
    var k := if line.number < rule.window then 0 else line.number - rule.window;
    ghost var first := k;
    near := false;
    while k < |lines|
      invariant first <= k
      invariant forall j :: first <= j < k && j < |lines| ==>
        lines[j].number <= line.number + rule.window && !rule.context.value(lines[j].text)
      invariant !near
    {
      if lines[k].number > line.number + rule.window {
        return false;
      }
      if rule.context.value(lines[k].text) {
        return true;
      }
      k := k + 1;
    }
  }

  ghost predicate Recorded(rule: Rule, lines: seq<Line>, line: Line, raw: string) {
    rule.valid(raw) && InRange(rule, line) && (rule.context.Some? ==> ContextIsNear(rule, lines, line))
  }

  /** The hit a match leaves behind, its position counted from the start of its line. */
  function HitOf(rule: Rule, line: Line, base: int, span: Span, raw: string, alnum: char -> bool): Hit {
    Hit(line.number, span.start - base, span.end - base, Mask(raw, rule.keep, alnum))
  }

  ghost function LineHits(rule: Rule, lines: seq<Line>, i: nat, spans: seq<Span>, alnum: char -> bool): seq<Hit>
    requires i < |lines| && forall k :: 0 <= k < |spans| ==> spans[k].start <= spans[k].end <= |lines[i].text|
  {
    if spans == [] then []
    else
      var span := spans[|spans| - 1];
      var raw := lines[i].text[span.start..span.end];
      LineHits(rule, lines, i, spans[..|spans| - 1], alnum) +
      if Recorded(rule, lines, lines[i], raw) then [HitOf(rule, lines[i], 0, span, raw, alnum)] else []
  }

  ghost function LineScopeHits(rule: Rule, lines: seq<Line>, n: nat, alnum: char -> bool): seq<Hit>
    requires FindsInside(rule) && n <= |lines|
  {
    if n == 0 then []
    else LineScopeHits(rule, lines, n - 1, alnum) + LineHits(rule, lines, n - 1, rule.find(lines[n - 1].text), alnum)
  }

  ghost function DocumentHits(rule: Rule, lines: seq<Line>, spans: seq<Span>, alnum: char -> bool): seq<Hit>
    requires lines != [] && forall k :: 0 <= k < |spans| ==> spans[k].start <= spans[k].end <= |FullText(lines)|
  {
    if spans == [] then []
    else
      var span := spans[|spans| - 1];
      var raw := FullText(lines)[span.start..span.end];
      var i := LineAt(lines, span.start);
      DocumentHits(rule, lines, spans[..|spans| - 1], alnum) +
      if Recorded(rule, lines, lines[i], raw) then [HitOf(rule, lines[i], Offset(lines, i), span, raw, alnum)] else []
  }

  /** Does this match count? The validator, the position window, then the context. */
  method Accepts(rule: Rule, lines: seq<Line>, line: Line, raw: string) returns (accepted: bool)
    requires Numbered(lines)
    ensures accepted <==> Recorded(rule, lines, line, raw)
  {
    if !rule.valid(raw) || !InRange(rule, line) { return false; }
    if rule.context.Some? {
      accepted := ContextNear(rule, lines, line);
    } else {
      accepted := true;
    }
  }

  /** `_scan_lines` */
  method ScanLines(rule: Rule, lines: seq<Line>, alnum: char -> bool) returns (out: seq<Hit>)
    requires FindsInside(rule) && Numbered(lines)
    ensures out == LineScopeHits(rule, lines, |lines|, alnum)
  {
    out := [];
    for i := 0 to |lines|
      invariant out == LineScopeHits(rule, lines, i, alnum)
    {
      var spans := rule.find(lines[i].text);
      ghost var before := out;
      for k := 0 to |spans|
        invariant out == before + LineHits(rule, lines, i, spans[..k], alnum)
      {
        assert spans[..k + 1][..k] == spans[..k];
        var raw := lines[i].text[spans[k].start..spans[k].end];
        var accepted := Accepts(rule, lines, lines[i], raw);
        if accepted { out := out + [HitOf(rule, lines[i], 0, spans[k], raw, alnum)]; }
      }
      assert spans[..|spans|] == spans;
    }
  }

  /** `_scan_document`. A document without lines has no line to record a match against: an empty
      match that the validator accepts ends the scan in an error. */
  method ScanDocument(rule: Rule, lines: seq<Line>, alnum: char -> bool) returns (out: Option<seq<Hit>>)
    requires FindsInside(rule) && Numbered(lines)
    ensures lines != [] ==> out == Some(DocumentHits(rule, lines, rule.find(FullText(lines)), alnum))
    ensures lines == [] ==> out == if rule.find("") != [] && rule.valid("") then None else Some([])
  {
    var text := FullText(lines);
    var spans := rule.find(text);
    var hits: seq<Hit> := [];
    for k := 0 to |spans|
      invariant lines != [] ==> hits == DocumentHits(rule, lines, spans[..k], alnum)
      invariant lines == [] ==> hits == [] && (k > 0 ==> !rule.valid(""))
    {
      assert spans[..k + 1][..k] == spans[..k];
      var raw := text[spans[k].start..spans[k].end];
      if lines == [] {
        assert raw == "";
        if rule.valid(raw) { return None; }
      } else {
        var i := LineAt(lines, spans[k].start);
        var accepted := Accepts(rule, lines, lines[i], raw);
        if accepted { hits := hits + [HitOf(rule, lines[i], Offset(lines, lines[i].number), spans[k], raw, alnum)]; }
      }
    }
    assert spans[..|spans|] == spans;
    out := Some(hits);
  }

  // ----- reveal

  /** `_rederive_hit_value` */
  function Reveal(lines: seq<Line>, hit: Hit, alnum: char -> bool): Option<string> {
    match OffsetOf(lines, hit.lineNumber)
    case None => None
    case Some(base) =>
      var start, end := base + hit.start, base + hit.end;
      if start < 0 || end > |FullText(lines)| || start >= end then None
      else
        var candidate := FullText(lines)[start..end];
        if Mask(candidate, Visible(hit.masked), alnum) != hit.masked then None else Some(candidate)
  }

  /** On any text, reveal shows only a piece of that text that masks to the recorded form. */
  lemma RevealOnlyShowsWhatMasks(lines: seq<Line>, hit: Hit, alnum: char -> bool)
    requires Reveal(lines, hit, alnum).Some?
    ensures var value := Reveal(lines, hit, alnum).value;
            && Mask(value, Visible(hit.masked), alnum) == hit.masked
            && exists start, end :: 0 <= start < end <= |FullText(lines)| && value == FullText(lines)[start..end]
  {
    var base := OffsetOf(lines, hit.lineNumber).value;
    assert Reveal(lines, hit, alnum).value == FullText(lines)[base + hit.start..base + hit.end];
  }

  /** Reveal shows the slice a hit points to once the slice masks to what was recorded. */
  lemma RevealShows(lines: seq<Line>, hit: Hit, i: nat, start: nat, end: nat, alnum: char -> bool)
    requires i < |lines| && hit.lineNumber == i && hit.start == start - Offset(lines, i) && hit.end == end - Offset(lines, i)
    requires start < end <= |FullText(lines)|
    requires Mask(FullText(lines)[start..end], Visible(hit.masked), alnum) == hit.masked
    ensures Reveal(lines, hit, alnum) == Some(FullText(lines)[start..end])
  {
  }

  lemma SliceOfSlice(text: string, o: nat, n: nat, a: nat, b: nat)
    requires a <= b <= n && o + n <= |text|
    ensures text[o..o + n][a..b] == text[o + a..o + b]
  {
    var outer, inner := text[o..o + n], text[o + a..o + b];
    assert |outer[a..b]| == |inner|;
    forall i | 0 <= i < b - a ensures outer[a..b][i] == inner[i] {
      assert outer[a..b][i] == outer[a + i] == text[o + a + i];
    }
  }

  /** A match inside a line is revealed exactly. */
  lemma LineHitRevealed(rule: Rule, lines: seq<Line>, i: nat, span: Span, alnum: char -> bool)
    requires Numbered(lines) && !alnum(BULLET) && i < |lines| && span.start < span.end <= |lines[i].text|
    ensures var raw := lines[i].text[span.start..span.end];
            Reveal(lines, HitOf(rule, lines[i], 0, span, raw, alnum), alnum) == Some(raw)
  {
    var raw := lines[i].text[span.start..span.end];
    var o := Offset(lines, i);
    LineInText(lines, i);
    SliceOfSlice(FullText(lines), o, |lines[i].text|, span.start, span.end);
    assert raw == FullText(lines)[o..o + |lines[i].text|][span.start..span.end];
    MaskTellsItsTail(raw, rule.keep, alnum);
    RevealShows(lines, HitOf(rule, lines[i], 0, span, raw, alnum), i, o + span.start, o + span.end, alnum);
  }

  /** A match anywhere in the document, across line breaks too, is revealed exactly. */
  lemma DocumentHitRevealed(rule: Rule, lines: seq<Line>, span: Span, alnum: char -> bool)
    requires Numbered(lines) && !alnum(BULLET) && lines != [] && span.start < span.end <= |FullText(lines)|
    ensures var raw := FullText(lines)[span.start..span.end];
            var i := LineAt(lines, span.start);
            var hit := HitOf(rule, lines[i], Offset(lines, i), span, raw, alnum);
            hit.start >= 0 && Reveal(lines, hit, alnum) == Some(raw)
  {
    BisectStopsBefore(lines, span.start, 0);
    var i := LineAt(lines, span.start);
    var raw := FullText(lines)[span.start..span.end];
    MaskTellsItsTail(raw, rule.keep, alnum);
    RevealShows(lines, HitOf(rule, lines[i], Offset(lines, i), span, raw, alnum), i, span.start, span.end, alnum);
  }

  /** The hit is as long as one of the matches; reveal gives that match back, and an empty
      match shows nothing. */
  ghost predicate RevealsSpan(lines: seq<Line>, text: string, spans: seq<Span>, hit: Hit, alnum: char -> bool) {
    exists k :: 0 <= k < |spans| && RevealsThis(lines, text, spans[k], hit, alnum)
  }

  ghost predicate RevealsThis(lines: seq<Line>, text: string, span: Span, hit: Hit, alnum: char -> bool) {
    && span.start <= span.end <= |text|
    && hit.end - hit.start == span.end - span.start
    && Reveal(lines, hit, alnum) == if span.start < span.end then Some(text[span.start..span.end]) else None
  }

  lemma MoreSpans(lines: seq<Line>, text: string, spans: seq<Span>, k: nat, hit: Hit, alnum: char -> bool)
    requires k <= |spans| && RevealsSpan(lines, text, spans[..k], hit, alnum)
    ensures RevealsSpan(lines, text, spans, hit, alnum)
  {
    var j :| 0 <= j < k && RevealsThis(lines, text, spans[..k][j], hit, alnum);
    assert spans[j] == spans[..k][j];
  }

  /** Every hit a document-scope scan records is the trace of one match, and reveal on the
      unchanged text gives that match back, wherever it wraps. */
  lemma {:induction false} DocumentScanReveals(rule: Rule, lines: seq<Line>, spans: seq<Span>, alnum: char -> bool)
    requires Numbered(lines) && !alnum(BULLET) && lines != []
    requires forall k :: 0 <= k < |spans| ==> spans[k].start <= spans[k].end <= |FullText(lines)|
    ensures forall h :: h in DocumentHits(rule, lines, spans, alnum) ==> RevealsSpan(lines, FullText(lines), spans, h, alnum)
  {
    if spans != [] {
      var n := |spans| - 1;
      DocumentScanReveals(rule, lines, spans[..n], alnum);
      forall h | h in DocumentHits(rule, lines, spans, alnum) ensures RevealsSpan(lines, FullText(lines), spans, h, alnum) {
        if h in DocumentHits(rule, lines, spans[..n], alnum) {
          MoreSpans(lines, FullText(lines), spans, n, h, alnum);
        } else {
          if spans[n].start < spans[n].end { DocumentHitRevealed(rule, lines, spans[n], alnum); }
          assert RevealsThis(lines, FullText(lines), spans[n], h, alnum);
        }
      }
    }
  }

  lemma {:induction false} LineScanReveals(rule: Rule, lines: seq<Line>, i: nat, spans: seq<Span>, alnum: char -> bool)
    requires Numbered(lines) && !alnum(BULLET) && i < |lines|
    requires forall k :: 0 <= k < |spans| ==> spans[k].start <= spans[k].end <= |lines[i].text|
    ensures forall h :: h in LineHits(rule, lines, i, spans, alnum) ==> RevealsSpan(lines, lines[i].text, spans, h, alnum)
  {
    if spans != [] {
      var n := |spans| - 1;
      LineScanReveals(rule, lines, i, spans[..n], alnum);
      forall h | h in LineHits(rule, lines, i, spans, alnum) ensures RevealsSpan(lines, lines[i].text, spans, h, alnum) {
        if h in LineHits(rule, lines, i, spans[..n], alnum) {
          MoreSpans(lines, lines[i].text, spans, n, h, alnum);
        } else {
          if spans[n].start < spans[n].end { LineHitRevealed(rule, lines, i, spans[n], alnum); }
          assert RevealsThis(lines, lines[i].text, spans[n], h, alnum);
        }
      }
    }
  }

  /** The same for a line-scope scan. */
  lemma {:induction false} LineScopeScanReveals(rule: Rule, lines: seq<Line>, n: nat, alnum: char -> bool)
    requires FindsInside(rule) && Numbered(lines) && !alnum(BULLET) && n <= |lines|
    ensures forall h :: h in LineScopeHits(rule, lines, n, alnum) ==>
              exists i :: 0 <= i < n && RevealsSpan(lines, lines[i].text, rule.find(lines[i].text), h, alnum)
  {
    if n > 0 {
      LineScopeScanReveals(rule, lines, n - 1, alnum);
      LineScanReveals(rule, lines, n - 1, rule.find(lines[n - 1].text), alnum);
    }
  }
}
