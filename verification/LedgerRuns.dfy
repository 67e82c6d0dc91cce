/**
 Every run of the audit trail: appends from any number of writers, writes cut short by a
 crash, restarts, redactions and retention trims, in any order.

 Appends and the two halves of a redaction are single steps because they hold the write
 lock; a redaction or a trim may stop for good between its steps.
 */
module LedgerRuns {
  import opened Wrappers
  import opened AuditLedger
  import opened Sequences

  // `cut` is the latest cutoff a trim began with. `half` holds the (event, field) pairs that
  // were emptied and whose `audit.redacted` record has not been appended.
  datatype World = World(trail: Trail, today: int, cut: int, half: set<(int, string)>)

  datatype Action =
    | Append(ts: string, kind: string, body: map<string, Value>)
    | TornAppend(ts: string, kind: string, body: map<string, Value>, whole: bool)
    | EmptyPartition
    | NextDay(day: int)
    | RedactRewrite(seqNo: int, fields: set<string>)
    | RedactRecord(seqNo: int, fields: set<string>, ts: string, reason: string, actor: string)
    | BeginTrim(cutoff: int)
    | DeleteOldest

  const START := World(Trail([], None), 0, 0, {})

  function Pairs(seqNo: int, fields: set<string>): set<(int, string)> {
    set f | f in fields :: (seqNo, f)
  }

  function Next(w: World, a: Action): World {
    match a
    case Append(ts, kind, body) =>
      if body.Keys * RESERVED != {} then w
      else w.(trail := Appended(w.trail, true, w.today, ts, kind, body))
    case TornAppend(ts, kind, body, whole) =>
      // The process died inside the write: part of the record, or all of it without its newline.
      if body.Keys * RESERVED != {} then w
      else
        var line := if whole then Record(NewEvent(Tail(w.trail), true, ts, kind, body)) else Unreadable;
        w.(trail := w.trail.(parts := AddLine(w.trail.parts, w.today, line, false)))
    case EmptyPartition =>
      // The process died after creating today's file and before writing to it.
      if w.trail.parts != [] && w.trail.parts[|w.trail.parts| - 1].day == w.today then w
      else w.(trail := w.trail.(parts := w.trail.parts + [Part(w.today, [], false)]))
    case NextDay(day) =>
      if day > w.today then w.(today := day) else w
    case RedactRewrite(seqNo, fields) =>
      if RedactRefusal(w.trail.parts, seqNo, fields).Some? then w
      else w.(trail := w.trail.(parts := Rewritten(w.trail.parts, seqNo, fields)), half := w.half + Pairs(seqNo, fields))
    case RedactRecord(seqNo, fields, ts, reason, actor) =>
      if fields == {} || !(Pairs(seqNo, fields) <= w.half) then w
      else w.(trail := Appended(w.trail, true, w.today, ts, REDACTED_EVENT, RecordBody(seqNo, fields, reason, actor)),
              half := w.half - Pairs(seqNo, fields))
    case BeginTrim(cutoff) =>
      if cutoff > w.today || Eligible(w.trail.parts, cutoff) == 0 then w
      else w.(trail := w.trail.(checkpoint := TrimCheckpoint(w.trail, Eligible(w.trail.parts, cutoff))),
              cut := if cutoff > w.cut then cutoff else w.cut)
    case DeleteOldest =>
      if w.trail.parts == [] || w.trail.parts[0].day >= w.cut then w
      else w.(trail := w.trail.(parts := w.trail.parts[1..]))
  }

  function Run(w: World, actions: seq<Action>): World
    decreases |actions|
  {
    if actions == [] then w else Run(Next(w, actions[0]), actions[1..])
  }

  // ----- what every step keeps

  /** The hash was taken over an unredacted original, and what the event carries now is that
      original with exactly the marked fields emptied. */
  ghost predicate Sealed(e: Event) {
    && e.hash.Some? && e.hash.value.Sha?
    && var original := e.hash.value.content;
       && original.marker.None?
       && original.seqNo >= 1
       && (e.content.marker.None? ==> e.content == original)
       && (e.content.marker.Some? ==>
             && e.content.marker.value != {}
             && e.content.marker.value <= original.body.Keys
             && e.content == Emptied(original, e.content.marker.value))
  }

  ghost predicate Follows(a: Event, b: Event) {
    b.content.prev == a.hash && b.content.seqNo == a.content.seqNo + 1
  }

  ghost predicate ChainKept(events: seq<Event>) {
    && (forall i :: 0 <= i < |events| ==> Sealed(events[i]))
    && (forall i :: 0 < i < |events| ==> Follows(events[i - 1], events[i]))
  }

  /** A position whose hash was taken at that very sequence number. */
  ghost predicate Placed(p: Position) {
    if p.seqNo == 0 then p.hash.None?
    else p.seqNo > 0 && p.hash.Some? && p.hash.value.Sha? && p.hash.value.content.seqNo == p.seqNo
  }

  ghost predicate BaseKept(checkpoint: Option<Checkpoint>, events: seq<Event>) {
    var base := Base(checkpoint);
    && Placed(base)
    && (checkpoint.Some? ==> base.seqNo > 0)
    && (events != [] ==>
          && base.seqNo <= events[|events| - 1].content.seqNo
          && Placed(Position(events[0].content.seqNo - 1, events[0].content.prev))
          && (events[0].content.seqNo == base.seqNo + 1 ==> events[0].content.prev == base.hash))
    && (forall i :: 0 <= i < |events| && events[i].content.seqNo == base.seqNo ==> events[i].hash == base.hash)
  }

  ghost predicate DaysKept(w: World) {
    var parts := w.trail.parts;
    && (forall i, j :: 0 <= i < j < |parts| ==> parts[i].day < parts[j].day)
    && (forall i :: 0 <= i < |parts| ==> parts[i].day <= w.today)
    && w.cut <= w.today
  }

  /** Every record up to `covered` lies in a partition older than the cut. */
  ghost predicate CoveredBelow(parts: seq<Part>, covered: int, cut: int) {
    forall i, j :: 0 <= i < |parts| && 0 <= j < |parts[i].lines| && parts[i].lines[j].Record? &&
      parts[i].lines[j].event.content.seqNo <= covered
      ==> parts[i].day < cut
  }

  /** Only partitions below the cutoff hold what the checkpoint already covers. */
  ghost predicate StaleKept(w: World) {
    CoveredBelow(w.trail.parts, Base(w.trail.checkpoint).seqNo, w.cut)
  }

  /** Each emptied field of a surviving event is half done, or a later line accounts for it,
      or a later line is lost. */
  ghost predicate MarksKept(lines: seq<Line>, half: set<(int, string)>) {
    forall p :: 0 <= p < |lines| && lines[p].Record? && lines[p].event.content.marker.Some? ==>
      forall f :: f in lines[p].event.content.marker.value ==>
        (lines[p].event.content.seqNo, f) in half || CoveredAfter(lines, p, lines[p].event.content.seqNo, f)
  }

  ghost predicate CoveredAfter(lines: seq<Line>, p: nat, seqNo: int, f: string) {
    exists q :: p < q < |lines| && (lines[q].Unreadable? || Explains(lines[q], seqNo, f))
  }

  ghost predicate Inv(w: World) {
    var lines := Lines(w.trail.parts);
    && DaysKept(w)
    && StaleKept(w)
    && ChainKept(Readable(lines))
    && BaseKept(w.trail.checkpoint, Readable(lines))
    && MarksKept(lines, w.half)
  }

  // ----- how lines and readable events move

  lemma {:induction false} LinesConcat(a: seq<Part>, b: seq<Part>)
    ensures Lines(a + b) == Lines(a) + Lines(b)
  {
    if a == [] {
      assert a + b == b;
    } else {
      LinesConcat(a[1..], b);
      assert (a + b)[0] == a[0] && (a + b)[1..] == a[1..] + b;
      Associates(a[0].lines, Lines(a[1..]), Lines(b));
    }
  }

  lemma LinesOfOne(p: Part)
    ensures Lines([p]) == p.lines
  {
    assert Lines([p][1..]) == [];
  }

  lemma LinesAround(parts: seq<Part>, i: nat)
    requires i < |parts|
    ensures Lines(parts) == Lines(parts[..i]) + parts[i].lines + Lines(parts[i + 1..])
  {
    var rest := parts[i..];
    assert parts == parts[..i] + rest;
    LinesConcat(parts[..i], rest);
    assert rest[0] == parts[i] && rest[1..] == parts[i + 1..];
    assert Lines(parts) == Lines(parts[..i]) + (parts[i].lines + Lines(parts[i + 1..]));
  }

  lemma {:induction false} ReadableConcat(a: seq<Line>, b: seq<Line>)
    ensures Readable(a + b) == Readable(a) + Readable(b)
  {
    if b == [] {
      assert a + b == a;
    } else {
      var n := |b| - 1;
      ReadableConcat(a, b[..n]);
      assert (a + b)[..|a| + n] == a + b[..n];
    }
  }

  lemma ReadableOfOne(line: Line)
    ensures Readable([line]) == match line case Record(e) => [e] case Unreadable => []
  {
    assert [line][..0] == [];
  }

  lemma ReadableAround(before: seq<Line>, e: Event, after: seq<Line>)
    ensures Readable(before + [Record(e)] + after) == Readable(before) + [e] + Readable(after)
  {
    ReadableConcat(before + [Record(e)], after);
    ReadableConcat(before, [Record(e)]);
    ReadableOfOne(Record(e));
  }

  /** Replacing one record leaves every other readable event where it was. */
  lemma ReadableUpdate(lines: seq<Line>, i: nat, e: Event)
    requires i < |lines| && lines[i].Record?
    ensures |Readable(lines[..i])| < |Readable(lines)|
    ensures Readable(lines)[|Readable(lines[..i])|] == lines[i].event
    ensures Readable(lines[i := Record(e)]) == Readable(lines)[|Readable(lines[..i])| := e]
  {
    var before, after := lines[..i], lines[i + 1..];
    assert lines == before + [Record(lines[i].event)] + after;
    assert lines[i := Record(e)] == before + [Record(e)] + after;
    ReadableAround(before, lines[i].event, after);
    ReadableAround(before, e, after);
  }

  lemma {:induction false} ReadableIsRecorded(lines: seq<Line>, k: nat) returns (i: nat)
    requires k < |Readable(lines)|
    ensures i < |lines| && lines[i] == Record(Readable(lines)[k])
  {
    var n := |lines| - 1;
    if k < |Readable(lines[..n])| {
      i := ReadableIsRecorded(lines[..n], k);
    } else {
      i := n;
    }
  }

  /** What adding a line does to the whole trail: it becomes the last line, or the last line
      of today's partition is spoiled. */
  lemma LinesAfterAdd(parts: seq<Part>, day: int, line: Line, terminated: bool)
    requires Recent(parts, day)
    ensures var before, after := Lines(parts), Lines(AddLine(parts, day, line, terminated));
            || after == before + [line]
            || (&& parts != [] && parts[|parts| - 1].day == day && parts[|parts| - 1].lines != []
                && var last := parts[|parts| - 1].lines;
                   before != [] && before[|before| - 1] == last[|last| - 1] &&
                   after == before[..|before| - 1] + [Unreadable])
  {
    if parts != [] && parts[|parts| - 1].day == day {
      LinesAfterSameDay(parts, day, line, terminated);
    } else {
      LinesConcat(parts, [Part(day, [line], !terminated)]);
      LinesOfOne(Part(day, [line], !terminated));
    }
  }

  lemma LinesOfLast(front: seq<Part>, last: Part)
    ensures Lines(front + [last]) == Lines(front) + last.lines
  {
    LinesConcat(front, [last]);
    LinesOfOne(last);
  }

  lemma LinesAfterSameDay(parts: seq<Part>, day: int, line: Line, terminated: bool)
    requires parts != [] && parts[|parts| - 1].day == day
    ensures var before, after, last := Lines(parts), Lines(AddLine(parts, day, line, terminated)), parts[|parts| - 1];
            if last.unterminated && last.lines != []
            then before != [] && before[|before| - 1] == last.lines[|last.lines| - 1] &&
                 after == before[..|before| - 1] + [Unreadable]
            else after == before + [line]
  {
    var front, last := parts[..|parts| - 1], parts[|parts| - 1];
    var added := if last.unterminated && last.lines != [] then last.lines[..|last.lines| - 1] + [Unreadable]
                 else last.lines + [line];
    assert parts == front + [last];
    LinesOfLast(front, last);
    LinesOfLast(front, Part(day, added, !terminated));
  }

  lemma LinesAfterRewrite(parts: seq<Part>, seqNo: int, fields: set<string>) returns (i: nat)
    requires RedactRefusal(parts, seqNo, fields).None?
    ensures var before := Lines(parts);
            && i < |before| && before[i] == Record(Found(parts, seqNo)) && Found(parts, seqNo).content.seqNo == seqNo
            && Lines(Rewritten(parts, seqNo, fields)) ==
                 before[i := Record(Event(Emptied(before[i].event.content, fields), before[i].event.hash))]
  {
    var p := PartOf(parts, seqNo).value;
    var j := IndexOf(parts[p].lines, seqNo).value;
    var result := Rewritten(parts, seqNo, fields);
    LinesAround(parts, p);
    LinesAround(result, p);
    assert result[..p] == parts[..p] && result[p + 1..] == parts[p + 1..];
    i := |Lines(parts[..p])| + j;
  }

  // ----- each kind of step

  lemma ContiguousFrom(events: seq<Event>, i: nat)
    requires ChainKept(events) && i < |events|
    ensures events[i].content.seqNo == events[0].content.seqNo + i
  {
    if i > 0 {
      ContiguousFrom(events, i - 1);
      assert Follows(events[i - 1], events[i]);
    }
  }

  /** A new event continues the chain wherever the reader stopped. */
  lemma AppendKeepsChain(checkpoint: Option<Checkpoint>, events: seq<Event>, ts: string, kind: string, body: map<string, Value>)
    requires ChainKept(events) && BaseKept(checkpoint, events)
    ensures var tail := if events == [] then Base(checkpoint)
                        else Position(events[|events| - 1].content.seqNo, events[|events| - 1].hash);
            var all := events + [NewEvent(tail, true, ts, kind, body)];
            ChainKept(all) && BaseKept(checkpoint, all)
  {
    var n := |events|;
    var tail := if events == [] then Base(checkpoint) else Position(events[n - 1].content.seqNo, events[n - 1].hash);
    var e := NewEvent(tail, true, ts, kind, body);
    var all := events + [e];
    assert tail.seqNo >= 0 by {
      if events != [] { assert Sealed(events[n - 1]); }
    }
    assert Sealed(e);
    assert all[n] == e;
    assert forall i :: 0 <= i < n ==> all[i] == events[i];
    if n > 0 { assert Follows(all[n - 1], all[n]); assert all[0] == events[0]; }
  }

  lemma SuffixKeepsChain(checkpoint: Option<Checkpoint>, events: seq<Event>, n: nat)
    requires ChainKept(events) && BaseKept(checkpoint, events) && n <= |events|
    ensures ChainKept(events[n..]) && BaseKept(checkpoint, events[n..])
  {
    var rest := events[n..];
    assert forall i :: 0 <= i < |rest| ==> rest[i] == events[n + i];
    forall i | 0 < i < |rest| ensures Follows(rest[i - 1], rest[i]) {
      assert Follows(events[n + i - 1], events[n + i]);
    }
    if rest != [] && n > 0 {
      assert Follows(events[n - 1], events[n]);
      assert Sealed(events[n - 1]);
    }
  }

  lemma EmptyingKeepsChain(checkpoint: Option<Checkpoint>, events: seq<Event>, i: nat, fields: set<string>)
    requires ChainKept(events) && BaseKept(checkpoint, events) && i < |events|
    requires fields != {} && fields <= events[i].content.body.Keys
    ensures var all := events[i := Event(Emptied(events[i].content, fields), events[i].hash)];
            ChainKept(all) && BaseKept(checkpoint, all)
  {
    var e := events[i];
    var e' := Event(Emptied(e.content, fields), e.hash);
    var all := events[i := e'];
    assert Sealed(e);
    if e.content.marker.Some? {
      EmptyingTwice(e.hash.value.content, e.content.marker.value, fields);
    }
    assert Sealed(e');
    forall k | 0 < k < |all| ensures Follows(all[k - 1], all[k]) {
      assert Follows(events[k - 1], events[k]);
    }
  }

  /** Emptying fields of an already emptied event is emptying both sets of the original. */
  lemma EmptyingTwice(original: Content, first: set<string>, second: set<string>)
    requires original.marker.None?
    ensures Emptied(Emptied(original, first), second) == Emptied(original, first + second)
  {
    assert {} + first + second == {} + (first + second);
    assert Emptied(Emptied(original, first), second).body == Emptied(original, first + second).body;
  }

  // ----- marks

  lemma MarksAfterAppend(lines: seq<Line>, half: set<(int, string)>, line: Line, done: set<(int, string)>)
    requires MarksKept(lines, half)
    requires line.Record? ==> line.event.content.marker.None?
    requires forall pair :: pair in done ==> Explains(line, pair.0, pair.1)
    ensures MarksKept(lines + [line], half - done)
  {
    var all := lines + [line];
    forall p, f | 0 <= p < |all| && all[p].Record? && all[p].event.content.marker.Some? && f in all[p].event.content.marker.value
      ensures (all[p].event.content.seqNo, f) in half - done || CoveredAfter(all, p, all[p].event.content.seqNo, f)
    {
      assert p < |lines| && all[p] == lines[p];
      var n := lines[p].event.content.seqNo;
      if (n, f) in done {
        assert Explains(all[|lines|], n, f);
      } else if (n, f) !in half {
        var q :| p < q < |lines| && (lines[q].Unreadable? || Explains(lines[q], n, f));
        assert all[q] == lines[q];
      }
    }
  }

  lemma MarksAfterSpoil(lines: seq<Line>, half: set<(int, string)>, remaining: set<(int, string)>)
    requires lines != [] && MarksKept(lines, half)
    ensures MarksKept(lines[..|lines| - 1] + [Unreadable], remaining)
  {
    var all := lines[..|lines| - 1] + [Unreadable];
    assert all[|lines| - 1].Unreadable?;
  }

  lemma MarksAfterTrim(lines: seq<Line>, half: set<(int, string)>, k: nat)
    requires k <= |lines| && MarksKept(lines, half)
    ensures MarksKept(lines[k..], half)
  {
    var rest := lines[k..];
    forall p, f | 0 <= p < |rest| && rest[p].Record? && rest[p].event.content.marker.Some? && f in rest[p].event.content.marker.value
      ensures (rest[p].event.content.seqNo, f) in half || CoveredAfter(rest, p, rest[p].event.content.seqNo, f)
    {
      assert rest[p] == lines[k + p];
      var n := rest[p].event.content.seqNo;
      if (n, f) !in half {
        var q :| k + p < q < |lines| && (lines[q].Unreadable? || Explains(lines[q], n, f));
        assert rest[q - k] == lines[q];
      }
    }
  }

  lemma MarksAfterRewrite(lines: seq<Line>, half: set<(int, string)>, i: nat, fields: set<string>)
    requires i < |lines| && lines[i].Record? && MarksKept(lines, half)
    requires fields !! Protected(lines[i].event.content)
    ensures var e := lines[i].event;
            MarksKept(lines[i := Record(Event(Emptied(e.content, fields), e.hash))], half + Pairs(e.content.seqNo, fields))
  {
    var e := lines[i].event;
    var line := Record(Event(Emptied(e.content, fields), e.hash));
    var all := lines[i := line];
    var wider := half + Pairs(e.content.seqNo, fields);
    forall n, f | Explains(lines[i], n, f) ensures Explains(line, n, f) {
      assert "redacted_seq" !in fields && "fields" !in fields;
    }
    forall p, f | 0 <= p < |all| && all[p].Record? && all[p].event.content.marker.Some? && f in all[p].event.content.marker.value
      ensures (all[p].event.content.seqNo, f) in wider || CoveredAfter(all, p, all[p].event.content.seqNo, f)
    {
      var n := all[p].event.content.seqNo;
      assert lines[p].Record? && lines[p].event.content.seqNo == n;
      if (n, f) !in wider {
        assert (n, f) in Pairs(n, fields) <==> f in fields;
        assert lines[p].event.content.marker.Some? && f in lines[p].event.content.marker.value;
        var q :| p < q < |lines| && (lines[q].Unreadable? || Explains(lines[q], n, f));
        assert all[q].Unreadable? || Explains(all[q], n, f);
      }
    }
  }

  // ----- whole steps

  lemma TailOfReadable(t: Trail)
    ensures var events := Readable(Lines(t.parts));
            Tail(t) == if events == [] then Base(t.checkpoint)
                       else Position(events[|events| - 1].content.seqNo, events[|events| - 1].hash)
  {
  }

  lemma ReadableSnoc(lines: seq<Line>, line: Line)
    ensures Readable(lines + [line]) == match line case Record(e) => Readable(lines) + [e] case Unreadable => Readable(lines)
  {
    assert (lines + [line])[..|lines|] == lines;
  }

  lemma AddedLines(w: World, ts: string, kind: string, body: map<string, Value>, line: Line, terminated: bool, done: set<(int, string)>)
    requires Inv(w) && Recent(w.trail.parts, w.today)
    requires line == Record(NewEvent(Tail(w.trail), true, ts, kind, body)) || line == Unreadable
    requires forall pair :: pair in done ==> Explains(line, pair.0, pair.1)
    ensures var lines := Lines(AddLine(w.trail.parts, w.today, line, terminated));
            ChainKept(Readable(lines)) && BaseKept(w.trail.checkpoint, Readable(lines)) && MarksKept(lines, w.half - done)
  {
    LinesAfterAdd(w.trail.parts, w.today, line, terminated);
    if Lines(AddLine(w.trail.parts, w.today, line, terminated)) == Lines(w.trail.parts) + [line] {
      LandedKeeps(w, ts, kind, body, line, done);
    } else {
      SpoiledIsUncovered(w);
      SpoiledKeeps(w, w.half - done);
    }
  }

  /** Writing one line today keeps the invariant, whether it lands, is torn, or spoils a torn line. */
  lemma AddKeeps(w: World, ts: string, kind: string, body: map<string, Value>, line: Line, terminated: bool, done: set<(int, string)>)
    requires Inv(w)
    requires line == Record(NewEvent(Tail(w.trail), true, ts, kind, body)) || line == Unreadable
    requires forall pair :: pair in done ==> Explains(line, pair.0, pair.1)
    ensures Inv(w.(trail := w.trail.(parts := AddLine(w.trail.parts, w.today, line, terminated)), half := w.half - done))
  {
    DaysAfterAdd(w, line, terminated);
    StaleAfterAdd(w, ts, kind, body, line, terminated);
    AddedLines(w, ts, kind, body, line, terminated, done);
  }

  lemma LandedKeeps(w: World, ts: string, kind: string, body: map<string, Value>, line: Line, done: set<(int, string)>)
    requires Inv(w)
    requires line == Record(NewEvent(Tail(w.trail), true, ts, kind, body)) || line == Unreadable
    requires forall pair :: pair in done ==> Explains(line, pair.0, pair.1)
    ensures var lines := Lines(w.trail.parts) + [line];
            ChainKept(Readable(lines)) && BaseKept(w.trail.checkpoint, Readable(lines)) && MarksKept(lines, w.half - done)
  {
    var before := Lines(w.trail.parts);
    TailOfReadable(w.trail);
    AppendKeepsChain(w.trail.checkpoint, Readable(before), ts, kind, body);
    ReadableSnoc(before, line);
    MarksAfterAppend(before, w.half, line, done);
  }

  lemma SpoiledKeeps(w: World, remaining: set<(int, string)>)
    requires Inv(w) && Lines(w.trail.parts) != []
    requires var before := Lines(w.trail.parts);
             var kept := Readable(before[..|before| - 1]);
             kept <= Readable(before) &&
             (kept != [] ==> Base(w.trail.checkpoint).seqNo <= kept[|kept| - 1].content.seqNo)
    ensures var before := Lines(w.trail.parts);
            var lines := before[..|before| - 1] + [Unreadable];
            ChainKept(Readable(lines)) && BaseKept(w.trail.checkpoint, Readable(lines)) && MarksKept(lines, remaining)
  {
    var before := Lines(w.trail.parts);
    var front := before[..|before| - 1];
    SpoiledChain(w.trail.checkpoint, Readable(before), Readable(front));
    ReadableSnoc(front, Unreadable);
    MarksAfterSpoil(before, w.half, remaining);
  }

  lemma SpoiledChain(checkpoint: Option<Checkpoint>, events: seq<Event>, kept: seq<Event>)
    requires ChainKept(events) && BaseKept(checkpoint, events) && kept <= events
    requires kept != [] ==> Base(checkpoint).seqNo <= kept[|kept| - 1].content.seqNo
    ensures ChainKept(kept) && BaseKept(checkpoint, kept)
  {
    assert kept == events[..|kept|];
  }

  lemma DaysAfterAdd(w: World, line: Line, terminated: bool)
    requires DaysKept(w)
    ensures DaysKept(w.(trail := w.trail.(parts := AddLine(w.trail.parts, w.today, line, terminated))))
  {
  }

  /** The checkpoint never covers a record of today's partition, so losing one cannot leave
      the checkpoint ahead of the chain. */
  lemma SpoiledIsUncovered(w: World)
    requires Inv(w)
    requires var parts := w.trail.parts;
             parts != [] && parts[|parts| - 1].day == w.today && parts[|parts| - 1].lines != []
    ensures var before := Lines(w.trail.parts);
            before != [] &&
            var kept := Readable(before[..|before| - 1]);
            kept <= Readable(before) &&
            (kept != [] ==> Base(w.trail.checkpoint).seqNo <= kept[|kept| - 1].content.seqNo)
  {
    var parts, before := w.trail.parts, Lines(w.trail.parts);
    var last, n := parts[|parts| - 1].lines, |before| - 1;
    LastOfLines(parts);
    assert before == before[..n] + [before[n]];
    ReadableSnoc(before[..n], before[n]);
    var kept := Readable(before[..n]);
    if kept != [] && before[n].Record? {
      assert last[|last| - 1].event.content.seqNo > Base(w.trail.checkpoint).seqNo;
      LastFollows(kept, before[n].event);
    }
  }

  lemma LastFollows(kept: seq<Event>, e: Event)
    requires kept != [] && ChainKept(kept + [e])
    ensures e.content.seqNo == kept[|kept| - 1].content.seqNo + 1
  {
    var events, n := kept + [e], |kept|;
    assert Follows(events[n - 1], events[n]);
  }

  lemma LastOfLines(parts: seq<Part>)
    requires parts != [] && parts[|parts| - 1].lines != []
    ensures var before, last := Lines(parts), parts[|parts| - 1].lines;
            before != [] && before[|before| - 1] == last[|last| - 1]
  {
    var k := |parts| - 1;
    assert parts == parts[..k] + [parts[k]];
    LinesConcat(parts[..k], [parts[k]]);
    LinesOfOne(parts[k]);
  }

  lemma CoveredAfterAdd(parts: seq<Part>, day: int, line: Line, terminated: bool, covered: int, cut: int)
    requires Recent(parts, day) && CoveredBelow(parts, covered, cut) && (line.Record? ==> line.event.content.seqNo > covered)
    ensures CoveredBelow(AddLine(parts, day, line, terminated), covered, cut)
  {
    var after := AddLine(parts, day, line, terminated);
    forall i, j | 0 <= i < |after| && 0 <= j < |after[i].lines| && after[i].lines[j].Record? &&
      after[i].lines[j].event.content.seqNo <= covered
      ensures after[i].day < cut
    {
      if i < |parts| && j < |parts[i].lines| {
        assert after[i].lines[j] == parts[i].lines[j];
      }
    }
  }

  lemma StaleAfterAdd(w: World, ts: string, kind: string, body: map<string, Value>, line: Line, terminated: bool)
    requires Inv(w)
    requires line == Record(NewEvent(Tail(w.trail), true, ts, kind, body)) || line == Unreadable
    ensures StaleKept(w.(trail := w.trail.(parts := AddLine(w.trail.parts, w.today, line, terminated))))
  {
    TailOfReadable(w.trail);
    CoveredAfterAdd(w.trail.parts, w.today, line, terminated, Base(w.trail.checkpoint).seqNo, w.cut);
  }

  lemma RewrittenChain(checkpoint: Option<Checkpoint>, lines: seq<Line>, half: set<(int, string)>, i: nat, fields: set<string>)
    requires i < |lines| && lines[i].Record? && fields != {}
    requires ChainKept(Readable(lines)) && BaseKept(checkpoint, Readable(lines)) && MarksKept(lines, half)
    requires fields <= lines[i].event.content.body.Keys && fields !! Protected(lines[i].event.content)
    ensures var e := lines[i].event;
            var after := lines[i := Record(Event(Emptied(e.content, fields), e.hash))];
            ChainKept(Readable(after)) && BaseKept(checkpoint, Readable(after)) &&
            MarksKept(after, half + Pairs(e.content.seqNo, fields))
  {
    var e := lines[i].event;
    ReadableUpdate(lines, i, Event(Emptied(e.content, fields), e.hash));
    EmptyingKeepsChain(checkpoint, Readable(lines), |Readable(lines[..i])|, fields);
    MarksAfterRewrite(lines, half, i, fields);
  }

  lemma RewriteKeeps(w: World, seqNo: int, fields: set<string>)
    requires Inv(w) && RedactRefusal(w.trail.parts, seqNo, fields).None?
    ensures Inv(Next(w, RedactRewrite(seqNo, fields)))
  {
    var w' := Next(w, RedactRewrite(seqNo, fields));
    var lines := Lines(w.trail.parts);
    var i := LinesAfterRewrite(w.trail.parts, seqNo, fields);
    var c := lines[i].event.content;
    assert fields - c.body.Keys == {} && fields * Protected(c) == {};
    assert forall f :: f in fields ==> f in c.body.Keys || f in fields - c.body.Keys;
    RewrittenChain(w.trail.checkpoint, lines, w.half, i, fields);
    StaleAfterRewrite(w, seqNo, fields);
  }

  lemma StaleAfterRewrite(w: World, seqNo: int, fields: set<string>)
    requires StaleKept(w) && DaysKept(w) && RedactRefusal(w.trail.parts, seqNo, fields).None?
    ensures StaleKept(Next(w, RedactRewrite(seqNo, fields))) && DaysKept(Next(w, RedactRewrite(seqNo, fields)))
  {
    var parts := w.trail.parts;
    var after := Rewritten(parts, seqNo, fields);
    forall i, j | 0 <= i < |after| && 0 <= j < |after[i].lines| && after[i].lines[j].Record? &&
      after[i].lines[j].event.content.seqNo <= Base(w.trail.checkpoint).seqNo
      ensures after[i].day < w.cut
    {
      assert parts[i].lines[j].Record? && parts[i].lines[j].event.content.seqNo == after[i].lines[j].event.content.seqNo;
    }
  }

  lemma RecordKeeps(w: World, seqNo: int, fields: set<string>, ts: string, reason: string, actor: string)
    requires Inv(w) && fields != {} && Pairs(seqNo, fields) <= w.half
    ensures Inv(Next(w, RedactRecord(seqNo, fields, ts, reason, actor)))
  {
    var body := RecordBody(seqNo, fields, reason, actor);
    var line := Record(NewEvent(Tail(w.trail), true, ts, REDACTED_EVENT, body));
    AddKeeps(w, ts, REDACTED_EVENT, body, line, true, Pairs(seqNo, fields));
  }

  lemma DeleteKeeps(w: World)
    requires Inv(w) && w.trail.parts != [] && w.trail.parts[0].day < w.cut
    ensures Inv(Next(w, DeleteOldest))
  {
    var w' := Next(w, DeleteOldest);
    DeletedChain(w.trail.checkpoint, w.trail.parts, w.half);
    DeletedDays(w);
  }

  lemma DeletedDays(w: World)
    requires DaysKept(w) && StaleKept(w) && w.trail.parts != [] && w.trail.parts[0].day < w.cut
    ensures DaysKept(Next(w, DeleteOldest)) && StaleKept(Next(w, DeleteOldest))
  {
    var parts := w.trail.parts;
    assert forall i :: 0 <= i < |parts| - 1 ==> parts[1..][i] == parts[i + 1];
  }

  lemma DeletedChain(checkpoint: Option<Checkpoint>, parts: seq<Part>, half: set<(int, string)>)
    requires parts != [] && ChainKept(Readable(Lines(parts))) && BaseKept(checkpoint, Readable(Lines(parts)))
    requires MarksKept(Lines(parts), half)
    ensures ChainKept(Readable(Lines(parts[1..]))) && BaseKept(checkpoint, Readable(Lines(parts[1..])))
    ensures MarksKept(Lines(parts[1..]), half)
  {
    var first, rest := parts[0].lines, Lines(parts[1..]);
    ReadableConcat(first, rest);
    assert Lines(parts)[|first|..] == rest;
    assert Readable(Lines(parts))[|Readable(first)|..] == Readable(rest);
    SuffixKeepsChain(checkpoint, Readable(Lines(parts)), |Readable(first)|);
    MarksAfterTrim(Lines(parts), half, |first|);
  }

  /** Sequence numbers rise along the trail: what lies in the first `k` partitions comes
      before what lies in the rest. */
  lemma SplitAt(parts: seq<Part>, k: nat)
    requires k <= |parts|
    ensures Lines(parts) == Lines(parts[..k]) + Lines(parts[k..])
    ensures Readable(Lines(parts)) == Readable(Lines(parts[..k])) + Readable(Lines(parts[k..]))
  {
    assert parts == parts[..k] + parts[k..];
    LinesConcat(parts[..k], parts[k..]);
    ReadableConcat(Lines(parts[..k]), Lines(parts[k..]));
  }

  lemma ReadableOfLast(parts: seq<Part>, k: nat)
    requires 0 < k <= |parts|
    ensures Readable(Lines(parts[..k])) == Readable(Lines(parts[..k - 1])) + Readable(parts[k - 1].lines)
  {
    var front, last := parts[..k - 1], parts[k - 1];
    assert parts[..k] == front + [last];
    LinesOfLast(front, last);
    ReadableConcat(Lines(front), last.lines);
  }

  lemma RecordInPart(parts: seq<Part>, i: nat, j: nat) returns (m: nat)
    requires i < |parts| && j < |parts[i].lines| && parts[i].lines[j].Record?
    ensures m < |Readable(Lines(parts))| && Readable(Lines(parts))[m] == parts[i].lines[j].event
    ensures |Readable(Lines(parts[..i]))| <= m < |Readable(Lines(parts[..i + 1]))|
  {
    var lines := parts[i].lines;
    SplitAt(parts, i + 1);
    ReadableOfLast(parts, i + 1);
    ReadableUpdate(lines, j, lines[j].event);
    m := |Readable(Lines(parts[..i]))| + |Readable(lines[..j])|;
  }

  /** The event the checkpoint names, by its place in the trail. */
  lemma NewestTrimmed(parts: seq<Part>, k: nat) returns (m: nat)
    requires 0 < k <= |parts| && LastReadable(parts[k - 1].lines).Some?
    ensures m + 1 == |Readable(Lines(parts[..k]))| <= |Readable(Lines(parts))|
    ensures Readable(Lines(parts))[m] == LastReadable(parts[k - 1].lines).value
  {
    SplitAt(parts, k);
    ReadableOfLast(parts, k);
    m := |Readable(Lines(parts[..k]))| - 1;
  }

  lemma PrefixShorter(parts: seq<Part>, i: nat, k: nat)
    requires i <= k <= |parts|
    ensures |Readable(Lines(parts[..i]))| <= |Readable(Lines(parts[..k]))|
  {
    SplitAt(parts[..k], i);
    assert parts[..k][..i] == parts[..i];
  }

  /** What the new checkpoint covers lies in the partitions being trimmed. */
  lemma CoveredIsEligible(parts: seq<Part>, k: nat, m: nat, i: nat, j: nat)
    requires ChainKept(Readable(Lines(parts))) && k <= |parts|
    requires m < |Readable(Lines(parts))| && m + 1 == |Readable(Lines(parts[..k]))|
    requires i < |parts| && j < |parts[i].lines| && parts[i].lines[j].Record?
    requires parts[i].lines[j].event.content.seqNo <= Readable(Lines(parts))[m].content.seqNo
    ensures i < k
  {
    var events := Readable(Lines(parts));
    var n := RecordInPart(parts, i, j);
    ContiguousFrom(events, m);
    ContiguousFrom(events, n);
    if i >= k { PrefixShorter(parts, k, i); }
  }

  lemma NewBaseKept(checkpoint: Option<Checkpoint>, events: seq<Event>, m: nat)
    requires ChainKept(events) && BaseKept(checkpoint, events) && m < |events|
    ensures BaseKept(Some(Checkpoint(events[m].content.seqNo, events[m].hash)), events)
  {
    ContiguousFrom(events, m);
    ContiguousFrom(events, |events| - 1);
    assert Sealed(events[m]);
    forall i | 0 <= i < |events| && events[i].content.seqNo == events[m].content.seqNo ensures i == m {
      ContiguousFrom(events, i);
    }
  }

  lemma TrimmedStale(w: World, cutoff: int, m: nat)
    requires Inv(w) && cutoff <= w.today && Eligible(w.trail.parts, cutoff) > 0
    requires m < |Readable(Lines(w.trail.parts))|
    requires m + 1 == |Readable(Lines(w.trail.parts[..Eligible(w.trail.parts, cutoff)]))|
    requires Base(Next(w, BeginTrim(cutoff)).trail.checkpoint).seqNo == Readable(Lines(w.trail.parts))[m].content.seqNo
    ensures StaleKept(Next(w, BeginTrim(cutoff)))
  {
    var parts := w.trail.parts;
    var k := Eligible(parts, cutoff);
    var covered := Readable(Lines(parts))[m].content.seqNo;
    forall i, j | 0 <= i < |parts| && 0 <= j < |parts[i].lines| && parts[i].lines[j].Record? &&
      parts[i].lines[j].event.content.seqNo <= covered
      ensures parts[i].day < cutoff
    {
      CoveredIsEligible(parts, k, m, i, j);
    }
  }

  lemma TrimKeeps(w: World, cutoff: int)
    requires Inv(w) && cutoff <= w.today && Eligible(w.trail.parts, cutoff) > 0
    ensures Inv(Next(w, BeginTrim(cutoff)))
  {
    var parts := w.trail.parts;
    var k := Eligible(parts, cutoff);
    if TrimCheckpoint(w.trail, k) != w.trail.checkpoint {
      var m := NewestTrimmed(parts, k);
      NewBaseKept(w.trail.checkpoint, Readable(Lines(parts)), m);
      TrimmedStale(w, cutoff, m);
    }
  }

  lemma AppendStep(w: World, ts: string, kind: string, body: map<string, Value>)
    requires Inv(w)
    ensures Inv(Next(w, Append(ts, kind, body)))
  {
    AddKeeps(w, ts, kind, body, Record(NewEvent(Tail(w.trail), true, ts, kind, body)), true, {});
    assert w.half - {} == w.half;
  }

  lemma TornStep(w: World, ts: string, kind: string, body: map<string, Value>, whole: bool)
    requires Inv(w)
    ensures Inv(Next(w, TornAppend(ts, kind, body, whole)))
  {
    var line := if whole then Record(NewEvent(Tail(w.trail), true, ts, kind, body)) else Unreadable;
    AddKeeps(w, ts, kind, body, line, false, {});
    assert w.half - {} == w.half;
  }

  lemma EmptyStep(w: World)
    requires Inv(w)
    ensures Inv(Next(w, EmptyPartition))
  {
    LinesOfLast(w.trail.parts, Part(w.today, [], false));
    assert Lines(w.trail.parts) + [] == Lines(w.trail.parts);
    EmptyKeepsDays(w);
  }

  lemma EmptyKeepsDays(w: World)
    requires DaysKept(w) && StaleKept(w)
    ensures DaysKept(Next(w, EmptyPartition)) && StaleKept(Next(w, EmptyPartition))
  {
  }

  lemma StepKeeps(w: World, a: Action)
    requires Inv(w)
    ensures Inv(Next(w, a))
  {
    match a
    case Append(ts, kind, body) => AppendStep(w, ts, kind, body);
    case TornAppend(ts, kind, body, whole) => TornStep(w, ts, kind, body, whole);
    case EmptyPartition => EmptyStep(w);
    case NextDay(day) =>
    case RedactRewrite(seqNo, fields) =>
      if RedactRefusal(w.trail.parts, seqNo, fields).None? { RewriteKeeps(w, seqNo, fields); }
    case RedactRecord(seqNo, fields, ts, reason, actor) =>
      if fields != {} && Pairs(seqNo, fields) <= w.half { RecordKeeps(w, seqNo, fields, ts, reason, actor); }
    case BeginTrim(cutoff) =>
      if cutoff <= w.today && Eligible(w.trail.parts, cutoff) > 0 { TrimKeeps(w, cutoff); }
    case DeleteOldest =>
      if w.trail.parts != [] && w.trail.parts[0].day < w.cut { DeleteKeeps(w); }
  }

  lemma {:induction false} RunKeeps(w: World, actions: seq<Action>)
    requires Inv(w)
    ensures Inv(Run(w, actions))
    decreases |actions|
  {
    if actions != [] {
      StepKeeps(w, actions[0]);
      RunKeeps(Next(w, actions[0]), actions[1..]);
    }
  }
}
