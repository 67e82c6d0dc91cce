/**
 What an operator can rely on when reading the trail: where an emptied field reads as redacted,
 which redactions are refused and why, and which lines `verify` complains of.
 */
module LedgerReport {
  import opened Wrappers
  import opened AuditLedger
  import opened LedgerRuns
  import opened ClockSetBack

  // ----- emptied events

  /** After any run, a surviving event whose marker names a field reads `[redacted]` there, its
      marker names only fields it has, and everything else it carries is what was hashed. */
  lemma MarkedFieldsReadRedacted(actions: seq<Action>, k: nat)
    requires k < |Readable(Lines(Run(START, actions).trail.parts))|
    ensures var e := Readable(Lines(Run(START, actions).trail.parts))[k];
            && e.hash.Some? && e.hash.value.Sha?
            && var original := e.hash.value.content;
               && original.marker.None?
               && (e.content.marker.None? ==> e.content == original)
               && (e.content.marker.Some? ==>
                     && e.content.marker.value != {} && e.content.marker.value <= e.content.body.Keys
                     && Blanked(Event(original, e.hash), e, e.content.marker.value))
  {
    RunKeeps(START, actions);
    var events := Readable(Lines(Run(START, actions).trail.parts));
    assert Sealed(events[k]);
  }

  /** No field outside the event's own account of itself can be emptied, nor the account a
      redaction record gives; what is refused, and with which error, in the order of the checks. */
  lemma RefusedExactly(parts: seq<Part>, seqNo: int, fields: set<string>)
    ensures var r := RedactRefusal(parts, seqNo, fields);
            && (r == Some(NoFieldsNamed) <==> fields == {})
            && (r == Some(NoSuchEvent) <==>
                  fields != {} && forall i, j :: 0 <= i < |parts| && 0 <= j < |parts[i].lines| && parts[i].lines[j].Record? ==>
                    parts[i].lines[j].event.content.seqNo != seqNo)
            && (fields != {} && r != Some(NoSuchEvent) ==>
                  && PartOf(parts, seqNo).Some?
                  && var c := Found(parts, seqNo).content;
                     var carrying := set f | f in fields &&
                       (f in ["seq", "ts", "event", "prev", "hash", "redacted"] ||
                        (c.kind == "audit.redacted" && f in ["redacted_seq", "fields"]));
                     var absent := set f | f in fields && f !in c.body;
                     && (carrying != {} ==> r == Some(Unredactable(carrying)))
                     && (carrying == {} && absent != {} ==> r == Some(Absent(absent)))
                     && (carrying == {} && absent == {} ==> r == None))
  {
    if fields == {} {
    } else if PartOf(parts, seqNo).None? {
      forall i, j | 0 <= i < |parts| && 0 <= j < |parts[i].lines| && parts[i].lines[j].Record?
        ensures parts[i].lines[j].event.content.seqNo != seqNo
      {
        assert IndexOf(parts[i].lines, seqNo).None?;
      }
    } else {
      var p := PartOf(parts, seqNo).value;
      var i := IndexOf(parts[p].lines, seqNo).value;
      assert parts[p].lines[i].Record? && parts[p].lines[i].event.content.seqNo == seqNo;
      var c := Found(parts, seqNo).content;
      assert fields * Protected(c) == set f | f in fields &&
        (f in ["seq", "ts", "event", "prev", "hash", "redacted"] ||
         (c.kind == "audit.redacted" && f in ["redacted_seq", "fields"]));
      assert fields - c.body.Keys == set f | f in fields && f !in c.body;
    }
  }

  // ----- the breaks that are reported

  /** The newest line before this place that can be read. */
  ghost predicate NewestBefore(lines: seq<Line>, at: nat, i: nat)
    requires at <= |lines|
  {
    i < at && lines[i].Record? && forall j :: i < j < at ==> lines[j].Unreadable?
  }

  /** The hash that the newest readable line before this place carries, or the start of the chain. */
  ghost predicate Expected(lines: seq<Line>, at: nat, start: Option<Hash>, h: Option<Hash>)
    requires at <= |lines|
  {
    || (exists i: nat :: NewestBefore(lines, at, i) && lines[i].event.hash == h)
    || (h == start && forall j :: 0 <= j < at ==> lines[j].Unreadable?)
  }

  lemma {:induction false} RunningIsExpected(lines: seq<Line>, start: Option<Hash>, h: Option<Hash>)
    ensures Expected(lines, |lines|, start, h) <==> h == RunningHash(lines, start)
  {
    if lines != [] {
      var n := |lines| - 1;
      var front := lines[..n];
      RunningIsExpected(front, start, h);
      assert lines == front + [lines[n]];
      match lines[n] {
        case Record(e) =>
          assert NewestBefore(lines, n + 1, n);
        case Unreadable =>
          ExpectedInFront(lines, n, n, start, h);
          ExpectedSkips(lines, start, h);
      }
    }
  }

  lemma ExpectedSkips(lines: seq<Line>, start: Option<Hash>, h: Option<Hash>)
    requires lines != [] && lines[|lines| - 1].Unreadable?
    ensures Expected(lines, |lines|, start, h) <==> Expected(lines, |lines| - 1, start, h)
  {
    var n := |lines| - 1;
    assert forall i: nat :: NewestBefore(lines, n + 1, i) <==> NewestBefore(lines, n, i);
  }

  /** A line the walk complains of, and why. */
  ghost predicate LineFails(lines: seq<Line>, start: Option<Hash>, b: Break) {
    && b.at < |lines|
    && match b.problem
       case UnreadableRecord => lines[b.at].Unreadable?
       case WrongPrev => lines[b.at].Record? && !Expected(lines, b.at, start, lines[b.at].event.content.prev)
       case WrongHash =>
         && lines[b.at].Record? && lines[b.at].event.content.marker.None?
         && lines[b.at].event.hash != Some(Sha(lines[b.at].event.content))
       case _ => false
  }

  /** A mark without its record, or one for fields that no record gives. */
  ghost predicate MarkFails(lines: seq<Line>, all: seq<Line>, b: Break) {
    && b.at < |lines| && lines[b.at].Record? && lines[b.at].event.content.marker.Some?
    && var c := lines[b.at].event.content;
       match b.problem
       case Unexplained => !Known(all, c.seqNo)
       case Unaccounted(fields) =>
         && Known(all, c.seqNo) && fields != {}
         && forall f :: f in fields <==> f in c.marker.value && !Covered(all, c.seqNo, f)
       case _ => false
  }

  lemma ExpectedInFront(lines: seq<Line>, n: nat, at: nat, start: Option<Hash>, h: Option<Hash>)
    requires at <= n <= |lines|
    ensures Expected(lines[..n], at, start, h) <==> Expected(lines, at, start, h)
  {
    var front := lines[..n];
    assert forall i :: 0 <= i < at ==> front[i] == lines[i];
    assert forall i: nat :: NewestBefore(front, at, i) <==> NewestBefore(lines, at, i);
  }

  lemma FrontFails(lines: seq<Line>, n: nat, start: Option<Hash>, b: Break)
    requires n <= |lines|
    ensures LineFails(lines[..n], start, b) <==> b.at < n && LineFails(lines, start, b)
  {
    if b.at < n && lines[b.at].Record? {
      ExpectedInFront(lines, n, b.at, start, lines[b.at].event.content.prev);
    }
  }

  lemma {:induction false} WalkBreaksExactly(lines: seq<Line>, start: Option<Hash>, b: Break)
    ensures b in WalkBreaks(lines, start) <==> LineFails(lines, start, b)
  {
    if lines != [] {
      var n := |lines| - 1;
      var front := lines[..n];
      WalkBreaksExactly(front, start, b);
      FrontFails(lines, n, start, b);
      LastLineFails(lines, start, b);
    }
  }

  lemma LastLineFails(lines: seq<Line>, start: Option<Hash>, b: Break)
    requires lines != []
    ensures var n := |lines| - 1;
            b in LineBreaks(n, lines[n], RunningHash(lines[..n], start)) <==> b.at == n && LineFails(lines, start, b)
  {
    var n := |lines| - 1;
    if lines[n].Record? {
      var h := lines[n].event.content.prev;
      RunningIsExpected(lines[..n], start, h);
      ExpectedInFront(lines, n, n, start, h);
    }
  }

  lemma AccountBreakIsExact(at: nat, c: Content, all: seq<Line>, b: Break)
    requires c.marker.Some?
    ensures b in AccountBreak(Redaction(at, c.seqNo, c.marker.value), Recorded(all)) <==>
            && b.at == at
            && match b.problem
               case Unexplained => !Known(all, c.seqNo)
               case Unaccounted(fields) =>
                 && Known(all, c.seqNo) && fields != {}
                 && forall f :: f in fields <==> f in c.marker.value && !Covered(all, c.seqNo, f)
               case _ => false
  {
    RecordedMeans(all, c.seqNo);
    if c.seqNo in Recorded(all) {
      var missing := c.marker.value - Recorded(all)[c.seqNo];
      assert forall f :: f in missing <==> f in c.marker.value && !Covered(all, c.seqNo, f);
      if b.problem.Unaccounted? && b.problem.fields != {} &&
        forall f :: f in b.problem.fields <==> f in c.marker.value && !Covered(all, c.seqNo, f)
      {
        assert b.problem.fields == missing;
      }
    }
  }

  lemma {:induction false} AccountBreaksExactly(lines: seq<Line>, all: seq<Line>, b: Break)
    ensures b in AccountBreaks(Redactions(lines), Recorded(all)) <==> MarkFails(lines, all, b)
  {
    if lines != [] {
      var n := |lines| - 1;
      var front, rest := lines[..n], Redactions(lines[..n]);
      AccountBreaksExactly(front, all, b);
      if lines[n].Record? && lines[n].event.content.marker.Some? {
        AccountBreakIsExact(n, lines[n].event.content, all, b);
        assert Redactions(lines)[..|rest|] == rest;
      } else {
        assert Redactions(lines) == rest;
      }
      assert b.at < n ==> (MarkFails(front, all, b) <==> MarkFails(lines, all, b));
    }
  }

  /** `verify` on any trail whatever names exactly the lines that fail: one that cannot be read,
      a link to anything but the newest readable line before it (or the start of the chain), a
      digest that is not of an unmarked event, and a mark whose fields no record gives. */
  lemma BreaksAreExact(t: Trail, b: Break)
    ensures var lines := Lines(t.parts);
            var start := match t.checkpoint case None => None case Some(c) => c.hash;
            b in Verified(t).breaks <==> LineFails(lines, start, b) || MarkFails(lines, lines, b)
  {
    var lines := Lines(t.parts);
    var start := Base(t.checkpoint).hash;
    WalkBreaksExactly(lines, start, b);
    AccountBreaksExactly(lines, lines, b);
    assert b in Verified(t).breaks <==>
      b in WalkBreaks(lines, start) || b in AccountBreaks(Redactions(lines), Recorded(lines));
  }

  // ----- a record without its newline

  /** A write that died before its newline leaves one line at the end of today's partition. */
  lemma TornLine(parts: seq<Part>, day: int, line: Line)
    requires Recent(parts, day) && InOrder(parts) && !Torn(parts, day)
    ensures var after := AddLine(parts, day, line, false);
            && Lines(after) == Lines(parts) + [line]
            && after != [] && after[|after| - 1].day == day && after[|after| - 1].unterminated && after[|after| - 1].lines != []
  {
    if parts != [] && parts[|parts| - 1].day == day {
      LinesAfterSameDay(parts, day, line, false);
    } else {
      LinesOfLast(parts, Part(day, [line], true));
    }
  }

  /** The next record joins that line, and neither can be read. */
  lemma JoinedLine(parts: seq<Part>, before: seq<Line>, last: Line, day: int, line: Line)
    requires parts != [] && parts[|parts| - 1].day == day && parts[|parts| - 1].unterminated && parts[|parts| - 1].lines != []
    requires Lines(parts) == before + [last]
    ensures Lines(AddLine(parts, day, line, true)) == before + [Unreadable]
  {
    LinesAfterSameDay(parts, day, line, true);
    assert (before + [last])[..|before|] == before;
  }

  /** Today's partition ends in a line without its newline. */
  ghost predicate EndsTorn(w: World, before: seq<Line>, last: Line) {
    var parts := w.trail.parts;
    && parts != [] && parts[|parts| - 1].day == w.today && parts[|parts| - 1].unterminated && parts[|parts| - 1].lines != []
    && Lines(parts) == before + [last]
  }

  lemma TornLeaves(w: World, ts: string, kind: string, body: map<string, Value>, whole: bool) returns (line: Line)
    requires Inv(w) && Verified(w.trail).ok && !Torn(w.trail.parts, w.today) && body.Keys * RESERVED == {}
    ensures line == if whole then Record(NewEvent(Tail(w.trail), true, ts, kind, body)) else Unreadable
    ensures var torn := Next(w, TornAppend(ts, kind, body, whole));
            EndsTorn(torn, Lines(w.trail.parts), line) && torn.trail.checkpoint == w.trail.checkpoint
  {
    line := if whole then Record(NewEvent(Tail(w.trail), true, ts, kind, body)) else Unreadable;
    TornLine(w.trail.parts, w.today, line);
  }

  lemma TornVerdict(w: World, torn: World, ts: string, kind: string, body: map<string, Value>, whole: bool)
    requires Inv(w) && Verified(w.trail).ok && torn.trail.checkpoint == w.trail.checkpoint
    requires var line := if whole then Record(NewEvent(Tail(w.trail), true, ts, kind, body)) else Unreadable;
             Lines(torn.trail.parts) == Lines(w.trail.parts) + [line]
    ensures Verified(torn.trail).ok <==> whole
    ensures Tail(torn.trail).seqNo == Tail(w.trail).seqNo + if whole then 1 else 0
  {
    var line := if whole then Record(NewEvent(Tail(w.trail), true, ts, kind, body)) else Unreadable;
    ReadableSnoc(Lines(w.trail.parts), line);
    if whole {
      LastPasses(w, torn.trail, ts, kind, body);
    } else {
      assert Lines(w.trail.parts) + [line] == Lines(w.trail.parts) + [Unreadable] + [];
      TornFails(torn.trail, Lines(w.trail.parts), []);
    }
  }

  lemma NextIsLost(torn: World, before: seq<Line>, last: Line, next: Action)
    requires EndsTorn(torn, before, last) && next.Append? && next.body.Keys * RESERVED == {}
    ensures Lines(Next(torn, next).trail.parts) == before + [Unreadable] && !Verified(Next(torn, next).trail).ok
  {
    JoinedLine(torn.trail.parts, before, last, torn.today,
               Record(NewEvent(Tail(torn.trail), true, next.ts, next.kind, next.body)));
    assert before + [Unreadable] == before + [Unreadable] + [];
    TornFails(Next(torn, next).trail, before, []);
  }

  /** A write that died inside the record shows at once; one that died before the newline does
      not, and is the tail that the next writer continues. Either way the next record of that day
      shares its line, and is lost with it. */
  lemma TornRecordShows(actions: seq<Action>, ts: string, kind: string, body: map<string, Value>, whole: bool, next: Action)
    requires var w := Run(START, actions); Verified(w.trail).ok && !Torn(w.trail.parts, w.today)
    requires body.Keys * RESERVED == {} && next.Append? && next.body.Keys * RESERVED == {}
    ensures var w := Run(START, actions);
            var torn := Next(w, TornAppend(ts, kind, body, whole));
            && (Verified(torn.trail).ok <==> whole)
            && Tail(torn.trail).seqNo == Tail(w.trail).seqNo + (if whole then 1 else 0)
            && Lines(Next(torn, next).trail.parts) == Lines(w.trail.parts) + [Unreadable]
            && !Verified(Next(torn, next).trail).ok
  {
    var w := Run(START, actions);
    RunKeeps(START, actions);
    var torn := Next(w, TornAppend(ts, kind, body, whole));
    var line := TornLeaves(w, ts, kind, body, whole);
    TornVerdict(w, torn, ts, kind, body, whole);
    NextIsLost(torn, Lines(w.trail.parts), line, next);
  }
}
