/**
 An append under a clock that is behind the newest partition: the event continues the chain's
 real tail, but lands in an older file, and the reader takes files in date order.
 */
module ClockSetBack {
  import opened Wrappers
  import opened AuditLedger
  import opened LedgerRuns

  /** The partition the bytes go to ends in a line without its newline. */
  predicate Torn(parts: seq<Part>, day: int) {
    exists i :: 0 <= i < |parts| && parts[i].day == day && parts[i].unterminated && parts[i].lines != []
  }

  /** Nothing stands in a newer partition. */
  predicate NothingNewer(parts: seq<Part>, day: int) {
    forall i :: 0 <= i < |parts| && parts[i].day > day ==> parts[i].lines == []
  }

  ghost predicate InOrder(parts: seq<Part>) {
    forall i, j :: 0 <= i < j < |parts| ==> parts[i].day < parts[j].day
  }

  lemma EarlierParts(parts: seq<Part>)
    requires InOrder(parts) && parts != []
    ensures forall i :: 0 <= i < |parts| - 1 ==> parts[i].day < parts[|parts| - 1].day
    ensures InOrder(parts[..|parts| - 1])
  {
  }

  /** How many partitions are not newer than this day. */
  function Older(parts: seq<Part>, day: int): (k: nat)
    ensures k <= |parts|
  {
    if parts == [] || parts[|parts| - 1].day <= day then |parts| else Older(parts[..|parts| - 1], day)
  }

  lemma {:induction false} OlderAre(parts: seq<Part>, day: int)
    requires InOrder(parts)
    ensures var k := Older(parts, day); Recent(parts[..k], day) && forall i :: k <= i < |parts| ==> parts[i].day > day
  {
    if parts != [] {
      var front := parts[..|parts| - 1];
      EarlierParts(parts);
      if parts[|parts| - 1].day > day {
        OlderAre(front, day);
        assert front[..Older(front, day)] == parts[..Older(front, day)];
      }
    }
  }

  lemma FrontSlices(parts: seq<Part>, k: nat)
    requires k < |parts|
    ensures var front := parts[..|parts| - 1]; parts[..k] == front[..k] && parts[k..] == front[k..] + [parts[|parts| - 1]]
  {
  }

  lemma {:induction false} AddsBefore(parts: seq<Part>, day: int, line: Line)
    ensures var k := Older(parts, day); AddLine(parts, day, line, true) == AddLine(parts[..k], day, line, true) + parts[k..]
    decreases |parts|
  {
    var n := |parts|;
    if parts == [] || parts[n - 1].day <= day {
      assert parts[..n] == parts && parts[n..] == [];
    } else {
      AddsBefore(parts[..n - 1], day, line);
      FrontSlices(parts, Older(parts, day));
    }
  }

  lemma LinesAdded(parts: seq<Part>, day: int, line: Line)
    requires Recent(parts, day) && InOrder(parts)
    ensures var before, after := Lines(parts), Lines(AddLine(parts, day, line, true));
            if Torn(parts, day) then before != [] && after == before[..|before| - 1] + [Unreadable]
            else after == before + [line]
  {
    if parts != [] { EarlierParts(parts); }
    if parts != [] && parts[|parts| - 1].day == day {
      LinesAfterSameDay(parts, day, line, true);
    } else {
      LinesOfLast(parts, Part(day, [line], false));
    }
  }

  lemma {:induction false} NoLines(parts: seq<Part>)
    ensures Lines(parts) == [] <==> forall i :: 0 <= i < |parts| ==> parts[i].lines == []
  {
    if parts != [] {
      NoLines(parts[1..]);
      assert forall i :: 1 <= i < |parts| ==> parts[i] == parts[1..][i - 1];
    }
  }

  lemma Apart(parts: seq<Part>, k: nat, day: int)
    requires k <= |parts| && Recent(parts[..k], day) && forall i :: k <= i < |parts| ==> parts[i].day > day
    ensures Torn(parts, day) <==> Torn(parts[..k], day)
    ensures Lines(parts[k..]) == [] <==> NothingNewer(parts, day)
  {
    var front, back := parts[..k], parts[k..];
    NoLines(back);
    assert forall i :: 0 <= i < k ==> front[i] == parts[i];
    assert forall i :: 0 <= i < |back| ==> back[i] == parts[k + i];
    assert forall i :: k <= i < |parts| ==> parts[i] == back[i - k];
  }

  /** The lines that result, by what stands where. */
  lemma LinesSetBack(parts: seq<Part>, day: int, line: Line) returns (older: seq<Line>, newer: seq<Line>)
    requires InOrder(parts)
    ensures Lines(parts) == older + newer && (newer == [] <==> NothingNewer(parts, day))
    ensures var after := Lines(AddLine(parts, day, line, true));
            if Torn(parts, day) then older != [] && after == older[..|older| - 1] + [Unreadable] + newer
            else after == older + [line] + newer
  {
    var k := Older(parts, day);
    OlderAre(parts, day);
    AddsBefore(parts, day, line);
    var front, back := parts[..k], parts[k..];
    older, newer := Lines(front), Lines(back);
    assert parts == front + back;
    LinesConcat(front, back);
    LinesConcat(AddLine(front, day, line, true), back);
    LinesAdded(front, day, line);
    Apart(parts, k, day);
  }

  /** Every hash of the chain was taken at a number the chain has reached. */
  lemma HashReached(checkpoint: Option<Checkpoint>, events: seq<Event>, i: nat)
    requires ChainKept(events) && BaseKept(checkpoint, events) && i < |events|
    requires events[0].content.prev == Base(checkpoint).hash
    ensures var h := HashBefore(events, i, Base(checkpoint).hash);
            h.None? || (h.value.Sha? && h.value.content.seqNo <= events[|events| - 1].content.seqNo)
  {
    var n := |events| - 1;
    ContiguousFrom(events, n);
    if i > 0 {
      ContiguousFrom(events, i - 1);
      assert Sealed(events[i - 1]);
    }
  }

  lemma MiddleLink(front: seq<Event>, e: Event, back: seq<Event>, start: Option<Hash>)
    requires back != [] && Linked(front + back, start) && Linked(front + [e] + back, start)
    ensures e.hash == HashBefore(front + back, |front|, start)
  {
    var without, within, n := front + back, front + [e] + back, |front|;
    assert within[n + 1] == back[0] == without[n] && within[n] == e;
    assert within[n + 1].content.prev == HashBefore(within, n + 1, start);
    assert without[n].content.prev == HashBefore(without, n, start);
  }

  lemma LandsBetween(w: World, older: seq<Line>, newer: seq<Line>, ts: string, kind: string, body: map<string, Value>)
    requires Inv(w) && Verified(w.trail).ok && Lines(w.trail.parts) == older + newer && newer != []
    ensures var e := NewEvent(Tail(w.trail), true, ts, kind, body);
            !Linked(Readable(older + [Record(e)] + newer), Base(w.trail.checkpoint).hash)
  {
    var start, e := Base(w.trail.checkpoint).hash, NewEvent(Tail(w.trail), true, ts, kind, body);
    var front, back := Readable(older), Readable(newer);
    VerifiedExactly(w.trail);
    ReadableConcat(older, newer);
    ReadableAround(older, e, newer);
    LaterRecords(older, newer);
    ReadableAll(newer);
    TailOfReadable(w.trail);
    var events := front + back;
    if Linked(front + [e] + back, start) {
      MiddleLink(front, e, back, start);
      assert events[0].content.prev == HashBefore(events, 0, start);
      HashReached(w.trail.checkpoint, events, |front|);
      assert false;
    }
  }

  lemma LaterRecords(older: seq<Line>, newer: seq<Line>)
    requires AllReadable(older + newer)
    ensures AllReadable(older) && AllReadable(newer)
  {
    assert forall i :: 0 <= i < |older| ==> (older + newer)[i] == older[i];
    assert forall i :: 0 <= i < |newer| ==> (older + newer)[|older| + i] == newer[i];
  }

  lemma StaysAccounted(lines: seq<Line>, e: Event)
    requires AllReadable(lines) && Accounted(lines) && e.content.marker.None?
    ensures Accounted(lines + [Record(e)])
  {
    var all := lines + [Record(e)];
    forall i | 0 <= i < |all| && all[i].Record? && all[i].event.content.marker.Some? ensures AccountedFor(all, all[i].event.content) {
      var c := lines[i].event.content;
      assert all[i] == lines[i] && AccountedFor(lines, c);
      CoveredSnoc(lines, Record(e), c.seqNo, "");
      forall f | f in c.marker.value ensures Covered(all, c.seqNo, f) { CoveredSnoc(lines, Record(e), c.seqNo, f); }
    }
  }

  lemma LandsLast(w: World, ts: string, kind: string, body: map<string, Value>)
    requires Verified(w.trail).ok
    ensures var e := NewEvent(Tail(w.trail), true, ts, kind, body);
            var lines := Lines(w.trail.parts) + [Record(e)];
            && AllReadable(lines) && Accounted(lines)
            && Linked(Readable(lines), Base(w.trail.checkpoint).hash) && Attested(Readable(lines))
  {
    var lines, e := Lines(w.trail.parts), NewEvent(Tail(w.trail), true, ts, kind, body);
    VerifiedExactly(w.trail);
    StaysAccounted(lines, e);
    TailOfReadable(w.trail);
    ReadableSnoc(lines, Record(e));
    LinkedSnoc(Readable(lines), e, Base(w.trail.checkpoint).hash);
  }

  /** Whatever the clock says, an append to a trail that passes `verify` leaves one that passes
      if and only if no line stands in a newer partition and the one it writes to is not torn. */
  lemma AppendAtAnyDay(actions: seq<Action>, day: int, ts: string, kind: string, body: map<string, Value>)
    requires Verified(Run(START, actions).trail).ok
    ensures var t := Run(START, actions).trail;
            Verified(Appended(t, true, day, ts, kind, body)).ok <==> NothingNewer(t.parts, day) && !Torn(t.parts, day)
  {
    var w := Run(START, actions);
    RunKeeps(START, actions);
    AppendDecided(w, day, ts, kind, body);
  }

  lemma TornFails(t: Trail, front: seq<Line>, back: seq<Line>)
    requires Lines(t.parts) == front + [Unreadable] + back
    ensures !Verified(t).ok
  {
    VerifiedExactly(t);
    assert Lines(t.parts)[|front|].Unreadable?;
  }

  lemma UnlinkedFails(t: Trail)
    requires !Linked(Readable(Lines(t.parts)), Base(t.checkpoint).hash)
    ensures !Verified(t).ok
  {
    VerifiedExactly(t);
  }

  lemma BetweenFails(w: World, t: Trail, older: seq<Line>, newer: seq<Line>, ts: string, kind: string, body: map<string, Value>)
    requires Inv(w) && Verified(w.trail).ok && t.checkpoint == w.trail.checkpoint
    requires Lines(w.trail.parts) == older + newer && newer != []
    requires Lines(t.parts) == older + [Record(NewEvent(Tail(w.trail), true, ts, kind, body))] + newer
    ensures !Verified(t).ok
  {
    LandsBetween(w, older, newer, ts, kind, body);
    UnlinkedFails(t);
  }

  lemma LastPasses(w: World, t: Trail, ts: string, kind: string, body: map<string, Value>)
    requires Verified(w.trail).ok && t.checkpoint == w.trail.checkpoint
    requires Lines(t.parts) == Lines(w.trail.parts) + [Record(NewEvent(Tail(w.trail), true, ts, kind, body))]
    ensures Verified(t).ok
  {
    LandsLast(w, ts, kind, body);
    VerifiedExactly(t);
  }

  lemma AppendDecided(w: World, day: int, ts: string, kind: string, body: map<string, Value>)
    requires Inv(w) && Verified(w.trail).ok
    ensures Verified(Appended(w.trail, true, day, ts, kind, body)).ok <==>
            NothingNewer(w.trail.parts, day) && !Torn(w.trail.parts, day)
  {
    var e, after := NewEvent(Tail(w.trail), true, ts, kind, body), Appended(w.trail, true, day, ts, kind, body);
    var older, newer := LinesSetBack(w.trail.parts, day, Record(e));
    DecidedByLines(w, after, Torn(w.trail.parts, day), older, newer, ts, kind, body);
  }

  lemma DecidedByLines(w: World, after: Trail, torn: bool, older: seq<Line>, newer: seq<Line>, ts: string, kind: string, body: map<string, Value>)
    requires Inv(w) && Verified(w.trail).ok && after.checkpoint == w.trail.checkpoint
    requires Lines(w.trail.parts) == older + newer
    requires torn ==> older != [] && Lines(after.parts) == older[..|older| - 1] + [Unreadable] + newer
    requires !torn ==> Lines(after.parts) == older + [Record(NewEvent(Tail(w.trail), true, ts, kind, body))] + newer
    ensures Verified(after).ok <==> newer == [] && !torn
  {
    if torn {
      TornFails(after, older[..|older| - 1], newer);
    } else if newer != [] {
      BetweenFails(w, after, older, newer, ts, kind, body);
    } else {
      var e := NewEvent(Tail(w.trail), true, ts, kind, body);
      assert older + [Record(e)] + newer == Lines(w.trail.parts) + [Record(e)];
      LastPasses(w, after, ts, kind, body);
    }
  }

  lemma {:induction false} StaysInOrder(parts: seq<Part>, day: int, line: Line, terminated: bool)
    requires InOrder(parts)
    ensures InOrder(AddLine(parts, day, line, terminated))
    ensures forall p: Part :: p in AddLine(parts, day, line, terminated) ==> p.day == day || p in parts
    decreases |parts|
  {
    if parts != [] {
      EarlierParts(parts);
      var front, last := parts[..|parts| - 1], parts[|parts| - 1];
      assert parts == front + [last];
      if last.day > day {
        StaysInOrder(front, day, line, terminated);
        var after := AddLine(front, day, line, terminated);
        forall i | 0 <= i < |after| ensures after[i].day < last.day {
          assert after[i] in after;
        }
      }
    }
  }

  /** The line goes to the partition of its own day and nowhere else: the partitions stay in
      date order, those of other days are untouched, and that day's holds the new line at its
      end, unless the line there had no newline and the two became one that cannot be read. */
  lemma {:induction false} LandsInItsDay(parts: seq<Part>, day: int, line: Line, terminated: bool)
    requires InOrder(parts)
    ensures var after := AddLine(parts, day, line, terminated);
            && InOrder(after)
            && (forall p: Part :: p.day != day ==> (p in after <==> p in parts))
            && (forall p: Part :: p in parts && p.day == day ==>
                  Part(day, if p.unterminated && p.lines != [] then p.lines[..|p.lines| - 1] + [Unreadable]
                            else p.lines + [line], !terminated) in after)
            && ((forall p: Part :: p in parts ==> p.day != day) ==> Part(day, [line], !terminated) in after)
    decreases |parts|
  {
    StaysInOrder(parts, day, line, terminated);
    if parts != [] {
      EarlierParts(parts);
      var front, last := parts[..|parts| - 1], parts[|parts| - 1];
      assert parts == front + [last];
      if last.day > day { LandsInItsDay(front, day, line, terminated); }
    }
  }
}
