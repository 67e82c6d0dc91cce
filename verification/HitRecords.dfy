/**
 What a recorded hit says, in terms of the document alone: which match it stands for, on which
 line and page, and how much of the value its masked form gives away.
 */
module HitRecords {
  import opened Wrappers
  import opened Documents
  import opened Sequences

  // ----- how much a masked form shows

  /** The places of all the alphanumerics of a text, in order. */
  ghost predicate AlnumsAt(s: string, at: seq<nat>, alnum: char -> bool) {
    && (forall k :: 0 <= k < |at| ==> at[k] < |s| && alnum(s[at[k]]))
    && (forall j, k :: 0 <= j < k < |at| ==> at[j] < at[k])
    && (forall i {:trigger i in at} :: 0 <= i < |s| && alnum(s[i]) ==> i in at)
  }

  /** One bullet for each alphanumeric, except that the last `keep` may show: none when no more
      than three would stay hidden. */
  ghost predicate HidesAt(raw: string, masked: string, keep: int, at: seq<nat>, alnum: char -> bool) {
    && AlnumsAt(raw, at, alnum)
    && |masked| == |at|
    && forall k :: 0 <= k < |at| ==>
         masked[k] == if keep <= 0 || |at| - keep <= 3 || k < |at| - keep then '\U{2022}' else raw[at[k]]
  }

  ghost predicate Hides(raw: string, masked: string, keep: int, alnum: char -> bool) {
    exists at :: HidesAt(raw, masked, keep, at, alnum)
  }

  lemma {:induction false} AlphanumericsSnoc(s: string, c: char, alnum: char -> bool)
    ensures Alphanumerics(s + [c], alnum) == Alphanumerics(s, alnum) + if alnum(c) then [c] else []
  {
    if s == "" {
      assert (s + [c])[1..] == "";
    } else {
      var rest := Alphanumerics(s[1..], alnum);
      var first, last := if alnum(s[0]) then [s[0]] else [], if alnum(c) then [c] else [];
      assert (s + [c])[0] == s[0] && (s + [c])[1..] == s[1..] + [c];
      AlphanumericsSnoc(s[1..], c, alnum);
      Associates(first, rest, last);
    }
  }

  lemma {:induction false} AlphanumericsStand(s: string, alnum: char -> bool) returns (at: seq<nat>)
    ensures AlnumsAt(s, at, alnum) && |Alphanumerics(s, alnum)| == |at|
    ensures forall k :: 0 <= k < |at| ==> Alphanumerics(s, alnum)[k] == s[at[k]]
  {
    if s == "" {
      at := [];
    } else {
      var n := |s| - 1;
      var front := s[..n];
      var before := AlphanumericsStand(front, alnum);
      AlphanumericsSnoc(front, s[n], alnum);
      assert s == front + [s[n]];
      at := before + if alnum(s[n]) then [n] else [];
      forall i | 0 <= i < |s| && alnum(s[i]) ensures i in at {
        if i < n { assert front[i] == s[i] && i in before; }
      }
    }
  }

  /** What masking hides: everything but an opted-in tail, and all of a short value. */
  lemma MaskHides(raw: string, keep: int, alnum: char -> bool)
    ensures Hides(raw, Mask(raw, keep, alnum), keep, alnum)
  {
    var at := AlphanumericsStand(raw, alnum);
    var chars, masked := Alphanumerics(raw, alnum), Mask(raw, keep, alnum);
    assert HidesAt(raw, masked, keep, at, alnum);
  }

  // ----- where the lines of a document come from

  /** Each row of each page is a line: after all rows of earlier pages, with its own place. */
  lemma {:induction false} EveryRowIsALine(pages: seq<seq<string>>, p: nat, r: nat)
    requires p < |pages| && r < |pages[p]|
    ensures var i := |AllLines(pages[..p])| + r;
            i < |AllLines(pages)| && AllLines(pages)[i] == Line(i, p + 1, r, |pages[p]|, pages[p][r])
  {
    var n := |pages| - 1;
    if p < n {
      EveryRowIsALine(pages[..n], p, r);
      assert pages[..n][..p] == pages[..p];
    }
  }

  function Total(pages: seq<seq<string>>): nat {
    if pages == [] then 0 else |pages[0]| + Total(pages[1..])
  }

  lemma {:induction false} TotalSnoc(pages: seq<seq<string>>, rows: seq<string>)
    ensures Total(pages + [rows]) == Total(pages) + |rows|
  {
    if pages == [] {
      assert (pages + [rows])[1..] == [];
    } else {
      assert (pages + [rows])[1..] == pages[1..] + [rows];
      TotalSnoc(pages[1..], rows);
    }
  }

  /** There are as many lines as rows. */
  lemma {:induction false} RowsAreCounted(pages: seq<seq<string>>)
    ensures |AllLines(pages)| == Total(pages)
  {
    if pages != [] {
      var n := |pages| - 1;
      RowsAreCounted(pages[..n]);
      TotalSnoc(pages[..n], pages[n]);
      assert pages == pages[..n] + [pages[n]];
    }
  }

  /** A rule's position window counts lines from the top of the page, from its bottom, or from
      the start of the document, and takes both ends in. */
  lemma PositionWindow(rule: Rule, pages: seq<seq<string>>, p: nat, r: nat)
    requires p < |pages| && r < |pages[p]|
    ensures var before := Total(pages[..p]);
            var pos := if !rule.byPage then before + r else if rule.fromEnd then |pages[p]| - 1 - r else r;
            before + r < |AllLines(pages)| &&
            (InRange(rule, AllLines(pages)[before + r]) <==>
             (rule.minLine.Some? ==> rule.minLine.value <= pos) && (rule.maxLine.Some? ==> pos <= rule.maxLine.value))
  {
    RowsAreCounted(pages[..p]);
    EveryRowIsALine(pages, p, r);
  }

  /** A single context line counts for a match up to the window away, on either side, and no
      further. */
  lemma WindowReaches(rule: Rule, lines: seq<Line>, i: nat, j: nat)
    requires Numbered(lines) && rule.context.Some? && i < |lines| && j < |lines|
    requires forall k :: 0 <= k < |lines| ==> (rule.context.value(lines[k].text) <==> k == j)
    ensures ContextIsNear(rule, lines, lines[i]) <==> i - j <= rule.window && j - i <= rule.window
  {
    if i - j <= rule.window && j - i <= rule.window {
      assert lines[j].number == j && lines[i].number == i;
    }
  }

  // ----- the text

  /** Lines are joined by one newline each. */
  lemma {:induction false} NewlineBefore(lines: seq<Line>, i: nat)
    requires 0 < i < |lines|
    ensures 0 < Offset(lines, i) <= |FullText(lines)| && FullText(lines)[Offset(lines, i) - 1] == '\n'
  {
    var n := |lines| - 1;
    var front := lines[..n];
    LineInText(front, 0);
    OffsetOfFront(lines, n, n);
    if i < n {
      NewlineBefore(front, i);
      OffsetOfFront(lines, n, i);
    }
  }

  lemma {:induction false} BisectStops(lines: seq<Line>, x: int, i: nat)
    requires i <= |lines|
    ensures var r := BisectRight(lines, x, i); r < |lines| ==> x < Offset(lines, r)
    decreases |lines| - i
  {
    if !(i == |lines| || Offset(lines, i) > x) { BisectStops(lines, x, i + 1); }
  }

  /** An offset belongs to the line that begins at or before it, with the next one beyond. */
  ghost predicate OnLine(lines: seq<Line>, i: nat, offset: nat)
    requires i < |lines|
  {
    Offset(lines, i) <= offset && (i + 1 < |lines| ==> offset < Offset(lines, i + 1))
  }

  lemma LineAtHolds(lines: seq<Line>, offset: nat)
    requires lines != []
    ensures OnLine(lines, LineAt(lines, offset), offset)
  {
    BisectStopsBefore(lines, offset, 0);
    BisectStops(lines, offset, 0);
    if BisectRight(lines, offset, 0) == 0 { assert Offset(lines, 0) == 0; }
  }

  // ----- every hit is an accepted match, and every accepted match has its hit

  /** A match counts if the validator takes it, its line lies in the rule's window, and a rule that
      asks for context finds it close by. */
  ghost predicate Counts(rule: Rule, lines: seq<Line>, line: Line, raw: string) {
    rule.valid(raw) && InRange(rule, line) && (rule.context.Some? ==> ContextIsNear(rule, lines, line))
  }

  /** A hit that a match of this line leaves. */
  ghost predicate OfLine(rule: Rule, lines: seq<Line>, i: nat, span: Span, h: Hit, alnum: char -> bool)
    requires i < |lines| && span.start <= span.end <= |lines[i].text|
  {
    var raw := lines[i].text[span.start..span.end];
    && Counts(rule, lines, lines[i], raw)
    && h.lineNumber == i && h.start == span.start && h.end == span.end
    && Hides(raw, h.masked, rule.keep, alnum)
  }

  lemma LineHit(rule: Rule, lines: seq<Line>, i: nat, span: Span, alnum: char -> bool)
    requires Numbered(lines) && i < |lines| && span.start <= span.end <= |lines[i].text|
    requires Counts(rule, lines, lines[i], lines[i].text[span.start..span.end])
    ensures OfLine(rule, lines, i, span, HitOf(rule, lines[i], 0, span, lines[i].text[span.start..span.end], alnum), alnum)
  {
    MaskHides(lines[i].text[span.start..span.end], rule.keep, alnum);
  }

  lemma {:induction false} LineHitIsMatch(rule: Rule, lines: seq<Line>, i: nat, spans: seq<Span>, h: Hit, alnum: char -> bool) returns (k: nat)
    requires Numbered(lines) && i < |lines|
    requires forall k :: 0 <= k < |spans| ==> spans[k].start <= spans[k].end <= |lines[i].text|
    requires h in LineHits(rule, lines, i, spans, alnum)
    ensures k < |spans| && OfLine(rule, lines, i, spans[k], h, alnum)
  {
    k := |spans| - 1;
    if h in LineHits(rule, lines, i, spans[..k], alnum) {
      k := LineHitIsMatch(rule, lines, i, spans[..k], h, alnum);
    } else {
      LineHit(rule, lines, i, spans[k], alnum);
    }
  }

  lemma {:induction false} LineMatchIsHit(rule: Rule, lines: seq<Line>, i: nat, spans: seq<Span>, k: nat, alnum: char -> bool) returns (h: Hit)
    requires Numbered(lines) && i < |lines| && k < |spans|
    requires forall j :: 0 <= j < |spans| ==> spans[j].start <= spans[j].end <= |lines[i].text|
    requires Counts(rule, lines, lines[i], lines[i].text[spans[k].start..spans[k].end])
    ensures h in LineHits(rule, lines, i, spans, alnum) && OfLine(rule, lines, i, spans[k], h, alnum)
  {
    var n := |spans| - 1;
    if k < n {
      assert spans[..n][k] == spans[k];
      h := LineMatchIsHit(rule, lines, i, spans[..n], k, alnum);
    } else {
      LineHit(rule, lines, i, spans[n], alnum);
      h := HitOf(rule, lines[i], 0, spans[n], lines[i].text[spans[n].start..spans[n].end], alnum);
      assert h in [h];
    }
  }

  /** Every hit of a line-scope scan is an accepted match of some line, with its place in that
      line and a form that hides all but the tail the rule keeps. */
  lemma {:induction false} LineScopeHitIsMatch(rule: Rule, lines: seq<Line>, n: nat, h: Hit, alnum: char -> bool) returns (i: nat, k: nat)
    requires FindsInside(rule) && Numbered(lines) && n <= |lines| && h in LineScopeHits(rule, lines, n, alnum)
    ensures i < n && k < |rule.find(lines[i].text)| && OfLine(rule, lines, i, rule.find(lines[i].text)[k], h, alnum)
  {
    if h in LineScopeHits(rule, lines, n - 1, alnum) {
      i, k := LineScopeHitIsMatch(rule, lines, n - 1, h, alnum);
    } else {
      i := n - 1;
      k := LineHitIsMatch(rule, lines, i, rule.find(lines[i].text), h, alnum);
    }
  }

  /** Every accepted match of every line has its hit. */
  lemma {:induction false} LineScopeMatchIsHit(rule: Rule, lines: seq<Line>, n: nat, i: nat, k: nat, alnum: char -> bool) returns (h: Hit)
    requires FindsInside(rule) && Numbered(lines) && i < n <= |lines| && k < |rule.find(lines[i].text)|
    requires var span := rule.find(lines[i].text)[k]; Counts(rule, lines, lines[i], lines[i].text[span.start..span.end])
    ensures h in LineScopeHits(rule, lines, n, alnum) && OfLine(rule, lines, i, rule.find(lines[i].text)[k], h, alnum)
  {
    if i < n - 1 {
      h := LineScopeMatchIsHit(rule, lines, n - 1, i, k, alnum);
    } else {
      h := LineMatchIsHit(rule, lines, i, rule.find(lines[i].text), k, alnum);
    }
  }

  /** A hit that a match anywhere in the document leaves: on the line where the match begins. */
  ghost predicate OfDocument(rule: Rule, lines: seq<Line>, span: Span, h: Hit, alnum: char -> bool)
    requires span.start <= span.end <= |FullText(lines)|
  {
    && 0 <= h.lineNumber < |lines| && OnLine(lines, h.lineNumber, span.start)
    && var i: nat, raw := h.lineNumber, FullText(lines)[span.start..span.end];
       && Counts(rule, lines, lines[i], raw)
       && h.start == span.start - Offset(lines, i) && h.end == span.end - Offset(lines, i)
       && Hides(raw, h.masked, rule.keep, alnum)
  }

  lemma DocumentHit(rule: Rule, lines: seq<Line>, span: Span, alnum: char -> bool)
    requires Numbered(lines) && lines != [] && span.start <= span.end <= |FullText(lines)|
    ensures var i, raw := LineAt(lines, span.start), FullText(lines)[span.start..span.end];
            Counts(rule, lines, lines[i], raw) <==>
            OfDocument(rule, lines, span, HitOf(rule, lines[i], Offset(lines, i), span, raw, alnum), alnum)
  {
    LineAtHolds(lines, span.start);
    MaskHides(FullText(lines)[span.start..span.end], rule.keep, alnum);
  }

  /** Every hit of a document-scope scan is an accepted match of the whole text, recorded on the
      line where it begins. */
  lemma {:induction false} DocumentHitIsMatch(rule: Rule, lines: seq<Line>, spans: seq<Span>, h: Hit, alnum: char -> bool) returns (k: nat)
    requires Numbered(lines) && lines != []
    requires forall k :: 0 <= k < |spans| ==> spans[k].start <= spans[k].end <= |FullText(lines)|
    requires h in DocumentHits(rule, lines, spans, alnum)
    ensures k < |spans| && OfDocument(rule, lines, spans[k], h, alnum)
  {
    k := |spans| - 1;
    DocumentHit(rule, lines, spans[k], alnum);
    if h in DocumentHits(rule, lines, spans[..k], alnum) {
      k := DocumentHitIsMatch(rule, lines, spans[..k], h, alnum);
    }
  }

  lemma DocumentHitOn(rule: Rule, lines: seq<Line>, span: Span, i: nat, alnum: char -> bool)
    requires Numbered(lines) && i < |lines| && span.start <= span.end <= |FullText(lines)| && OnLine(lines, i, span.start)
    requires Counts(rule, lines, lines[i], FullText(lines)[span.start..span.end])
    ensures LineAt(lines, span.start) == i
    ensures var raw := FullText(lines)[span.start..span.end];
            OfDocument(rule, lines, span, HitOf(rule, lines[i], Offset(lines, i), span, raw, alnum), alnum)
  {
    LineAtHolds(lines, span.start);
    OneLine(lines, i, LineAt(lines, span.start), span.start);
    DocumentHit(rule, lines, span, alnum);
  }

  /** Every match that is accepted on the line where it begins has its hit. */
  lemma {:induction false} DocumentMatchIsHit(rule: Rule, lines: seq<Line>, spans: seq<Span>, k: nat, i: nat, alnum: char -> bool) returns (h: Hit)
    requires Numbered(lines) && i < |lines| && k < |spans|
    requires forall j :: 0 <= j < |spans| ==> spans[j].start <= spans[j].end <= |FullText(lines)|
    requires OnLine(lines, i, spans[k].start)
    requires Counts(rule, lines, lines[i], FullText(lines)[spans[k].start..spans[k].end])
    ensures h in DocumentHits(rule, lines, spans, alnum) && OfDocument(rule, lines, spans[k], h, alnum)
  {
    var n := |spans| - 1;
    if k < n {
      assert spans[..n][k] == spans[k];
      h := DocumentMatchIsHit(rule, lines, spans[..n], k, i, alnum);
    } else {
      DocumentHitOn(rule, lines, spans[n], i, alnum);
      h := HitOf(rule, lines[i], Offset(lines, i), spans[n], FullText(lines)[spans[n].start..spans[n].end], alnum);
      assert h in [h];
    }
  }

  lemma {:induction false} OffsetsRise(lines: seq<Line>, i: nat, j: nat)
    requires i < j <= |lines|
    ensures Offset(lines, i) < Offset(lines, j)
  {
    if i + 1 < j { OffsetsRise(lines, i, j - 1); }
  }

  lemma OneLine(lines: seq<Line>, i: nat, j: nat, offset: nat)
    requires i < |lines| && j < |lines| && OnLine(lines, i, offset) && OnLine(lines, j, offset)
    ensures i == j
  {
    if i + 1 < j { OffsetsRise(lines, i + 1, j); }
    if j + 1 < i { OffsetsRise(lines, j + 1, i); }
  }
}
