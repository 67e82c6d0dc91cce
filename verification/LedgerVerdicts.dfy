/**
 What `verify` says of the trail of any run: its exact condition, half-done redactions, trims
 that were interrupted and trims that were finished.
 */
module LedgerVerdicts {
  import opened Wrappers
  import opened AuditLedger
  import opened LedgerRuns

  // ----- what verify says over every run

  ghost predicate Aligned(t: Trail) {
    var events := Readable(Lines(t.parts));
    events != [] ==> events[0].content.seqNo == Base(t.checkpoint).seqNo + 1
  }

  lemma ChainIsIntact(w: World)
    requires Inv(w)
    ensures var events, start := Readable(Lines(w.trail.parts)), Base(w.trail.checkpoint).hash;
            Attested(events) && (Linked(events, start) <==> Aligned(w.trail))
  {
    var events, base := Readable(Lines(w.trail.parts)), Base(w.trail.checkpoint);
    assert forall i :: 0 <= i < |events| ==> Sealed(events[i]);
    if events != [] {
      assert events[0].content.prev == base.hash <==> events[0].content.seqNo == base.seqNo + 1;
      assert Linked(events, base.hash) ==> events[0].content.prev == HashBefore(events, 0, base.hash);
      if Aligned(w.trail) {
        forall i | 0 <= i < |events| ensures events[i].content.prev == HashBefore(events, i, base.hash) {
          if i > 0 { assert Follows(events[i - 1], events[i]); }
        }
      }
    }
  }

  lemma VerifyOfInv(w: World)
    requires Inv(w)
    ensures Verified(w.trail).ok <==>
            AllReadable(Lines(w.trail.parts)) && Aligned(w.trail) && Accounted(Lines(w.trail.parts))
  {
    VerifiedExactly(w.trail);
    ChainIsIntact(w);
  }

  /** After any run at all, `verify` passes exactly when no line is lost, the oldest surviving
      event directly follows the checkpoint, and every emptied field has its record. The links
      between survivors and the digests of unredacted events never fail. */
  lemma VerifyOverRuns(actions: seq<Action>)
    ensures var t := Run(START, actions).trail;
            Verified(t).ok <==> AllReadable(Lines(t.parts)) && Aligned(t) && Accounted(Lines(t.parts))
  {
    RunKeeps(START, actions);
    VerifyOfInv(Run(START, actions));
  }

  lemma CoveredIsAccounted(lines: seq<Line>, c: Content)
    requires c.marker.Some? && c.marker.value != {}
    requires forall f :: f in c.marker.value ==> Covered(lines, c.seqNo, f)
    ensures AccountedFor(lines, c)
  {
    var f :| f in c.marker.value;
    var q :| 0 <= q < |lines| && Explains(lines[q], c.seqNo, f);
    assert HasRecord(lines[q], c.seqNo);
  }

  lemma QuietMeansAccounted(w: World)
    requires Inv(w) && AllReadable(Lines(w.trail.parts)) && w.half == {}
    ensures Accounted(Lines(w.trail.parts))
  {
    var lines := Lines(w.trail.parts);
    ReadableAll(lines);
    forall i | 0 <= i < |lines| && lines[i].Record? && lines[i].event.content.marker.Some?
      ensures AccountedFor(lines, lines[i].event.content)
    {
      var c := lines[i].event.content;
      assert Sealed(Readable(lines)[i]);
      forall f | f in c.marker.value ensures Covered(lines, c.seqNo, f) {
        assert CoveredAfter(lines, i, c.seqNo, f);
        var q :| i < q < |lines| && (lines[q].Unreadable? || Explains(lines[q], c.seqNo, f));
      }
      CoveredIsAccounted(lines, c);
    }
  }

  lemma {:induction false} RedactionsAreMarks(lines: seq<Line>)
    requires AllReadable(lines)
    ensures forall r :: r in Redactions(lines) <==>
              0 <= r.at < |lines| && lines[r.at].event.content.marker == Some(r.fields) &&
              lines[r.at].event.content.seqNo == r.seqNo
  {
    if lines != [] {
      var n := |lines| - 1;
      var front := lines[..n];
      RedactionsAreMarks(front);
      assert forall i :: 0 <= i < n ==> front[i] == lines[i];
      var added := if lines[n].event.content.marker.Some?
                   then [Redaction(n, lines[n].event.content.seqNo, lines[n].event.content.marker.value)] else [];
      assert Redactions(lines) == Redactions(front) + added;
      forall r ensures r in Redactions(lines) <==> r in Redactions(front) || r in added {
      }
    }
  }

  /** With no write torn, no redaction and no trim half done, `verify` passes after any run:
      sequence numbers run on from the checkpoint without a gap, the reported redactions are
      exactly the emptied events, and every other event still carries what was hashed. */
  lemma QuietRunsVerify(actions: seq<Action>)
    requires var w := Run(START, actions);
             AllReadable(Lines(w.trail.parts)) && Aligned(w.trail) && w.half == {}
    ensures Verified(Run(START, actions).trail).ok
    ensures Faithful(Run(START, actions).trail)
    ensures ReportsMarks(Run(START, actions).trail)
  {
    var w := Run(START, actions);
    RunKeeps(START, actions);
    QuietMeansAccounted(w);
    VerifyOverRuns(actions);
    RedactionsAreMarks(Lines(w.trail.parts));
    QuietIsFaithful(w);
  }

  /** Numbered without a gap from the checkpoint, and each event is what was hashed except for
      its emptied fields. */
  ghost predicate Faithful(t: Trail) {
    var lines := Lines(t.parts);
    forall i :: 0 <= i < |lines| ==>
      && lines[i].Record?
      && var e := lines[i].event;
         && e.content.seqNo == Base(t.checkpoint).seqNo + 1 + i
         && e.hash.Some? && e.hash.value.Sha?
         && e.content == match e.content.marker
                         case None => e.hash.value.content
                         case Some(fields) => Emptied(e.hash.value.content, fields)
  }

  /** The reported redactions are the marked events, no more and no fewer. */
  ghost predicate ReportsMarks(t: Trail) {
    var lines := Lines(t.parts);
    forall r :: r in Verified(t).redactions <==>
      && 0 <= r.at < |lines| && lines[r.at].Record?
      && lines[r.at].event.content.marker == Some(r.fields)
      && lines[r.at].event.content.seqNo == r.seqNo
  }

  lemma QuietIsFaithful(w: World)
    requires Inv(w) && AllReadable(Lines(w.trail.parts)) && Aligned(w.trail)
    ensures Faithful(w.trail)
  {
    var lines := Lines(w.trail.parts);
    ReadableAll(lines);
    forall i | 0 <= i < |lines|
      ensures lines[i].event.content.seqNo == Base(w.trail.checkpoint).seqNo + 1 + i && Sealed(lines[i].event)
    {
      ContiguousFrom(Readable(lines), i);
      assert Sealed(Readable(lines)[i]);
    }
  }

  // ----- the half-done redaction

  lemma ExplainsAfterRewrite(line: Line, fields: set<string>, n: int, f: string)
    requires line.Record? && fields !! Protected(line.event.content)
    ensures var after := Record(Event(Emptied(line.event.content, fields), line.event.hash));
            (Explains(after, n, f) <==> Explains(line, n, f)) && (HasRecord(after, n) <==> HasRecord(line, n))
  {
    if line.event.content.kind == REDACTED_EVENT {
      assert "redacted_seq" !in fields && "fields" !in fields;
    }
  }

  lemma AccountedAfterUpdate(lines: seq<Line>, i: nat, after: Line, c: Content)
    requires i < |lines| && c.marker.Some?
    requires forall n, f :: Explains(after, n, f) <==> Explains(lines[i], n, f)
    requires forall n :: HasRecord(after, n) <==> HasRecord(lines[i], n)
    ensures AccountedFor(lines[i := after], c) <==> AccountedFor(lines, c)
  {
    var all := lines[i := after];
    CoverAfterUpdate(lines, i, after, c.seqNo, "");
    forall f ensures Covered(all, c.seqNo, f) <==> Covered(lines, c.seqNo, f) {
      CoverAfterUpdate(lines, i, after, c.seqNo, f);
    }
  }

  lemma CoverAfterUpdate(lines: seq<Line>, i: nat, after: Line, n: int, f: string)
    requires i < |lines|
    requires Explains(after, n, f) <==> Explains(lines[i], n, f)
    requires HasRecord(after, n) <==> HasRecord(lines[i], n)
    ensures Covered(lines[i := after], n, f) <==> Covered(lines, n, f)
    ensures Known(lines[i := after], n) <==> Known(lines, n)
  {
    var all := lines[i := after];
    if q :| 0 <= q < |all| && Explains(all[q], n, f) { assert Explains(lines[q], n, f); }
    if q :| 0 <= q < |lines| && Explains(lines[q], n, f) { assert Explains(all[q], n, f); }
    if q :| 0 <= q < |all| && HasRecord(all[q], n) { assert HasRecord(lines[q], n); }
    if q :| 0 <= q < |lines| && HasRecord(lines[q], n) { assert HasRecord(all[q], n); }
  }

  /** A crash between emptying and recording: `verify` still passes exactly when it passed
      before and an earlier record already accounts for every field that was emptied. */
  lemma HalfDoneRedaction(w: World, seqNo: int, fields: set<string>)
    requires Inv(w) && RedactRefusal(w.trail.parts, seqNo, fields).None?
    ensures var after := Next(w, RedactRewrite(seqNo, fields));
            Verified(after.trail).ok <==>
              Verified(w.trail).ok &&
              seqNo in Recorded(Lines(w.trail.parts)) && fields <= Recorded(Lines(w.trail.parts))[seqNo]
  {
    var after := Next(w, RedactRewrite(seqNo, fields));
    var recorded := Recorded(Lines(w.trail.parts));
    RewriteKeeps(w, seqNo, fields);
    RewriteVerdict(w, seqNo, fields);
    VerdictsFollow(w, after, seqNo in recorded && fields <= recorded[seqNo]);
  }

  /** What `verify` comes down to on a trail that a run has left. */
  ghost predicate Sound(t: Trail) {
    AllReadable(Lines(t.parts)) && Aligned(t) && Accounted(Lines(t.parts))
  }

  lemma VerdictsFollow(w: World, after: World, explained: bool)
    requires Inv(w) && Inv(after) && (Sound(after.trail) <==> Sound(w.trail) && explained)
    ensures Verified(after.trail).ok <==> Verified(w.trail).ok && explained
  {
    VerifyOfInv(w);
    VerifyOfInv(after);
  }

  lemma RewriteVerdict(w: World, seqNo: int, fields: set<string>)
    requires RedactRefusal(w.trail.parts, seqNo, fields).None?
    ensures var recorded := Recorded(Lines(w.trail.parts));
            Sound(Next(w, RedactRewrite(seqNo, fields)).trail) <==>
              Sound(w.trail) && seqNo in recorded && fields <= recorded[seqNo]
  {
    var i, line := RewriteInLines(w, seqNo, fields);
    AlignedAfterRewrite(w, Next(w, RedactRewrite(seqNo, fields)), i, line);
  }

  lemma RewriteInLines(w: World, seqNo: int, fields: set<string>) returns (i: nat, line: Line)
    requires RedactRefusal(w.trail.parts, seqNo, fields).None?
    ensures var lines, after := Lines(w.trail.parts), Lines(Next(w, RedactRewrite(seqNo, fields)).trail.parts);
            && i < |lines| && lines[i].Record? && line.Record?
            && line.event.content.seqNo == lines[i].event.content.seqNo
            && after == lines[i := line]
            && (Accounted(after) <==>
                  Accounted(lines) && seqNo in Recorded(lines) && fields <= Recorded(lines)[seqNo])
  {
    var lines := Lines(w.trail.parts);
    i := LinesAfterRewrite(w.trail.parts, seqNo, fields);
    line := Record(Event(Emptied(lines[i].event.content, fields), lines[i].event.hash));
    assert fields !! Protected(lines[i].event.content);
    RewriteLeavesRecords(lines[i], line, fields);
    RewriteAccounts(lines, i, line, fields);
    RecordedAsSet(lines, seqNo, fields);
  }

  lemma RewriteLeavesRecords(before: Line, line: Line, fields: set<string>)
    requires before.Record? && fields !! Protected(before.event.content)
    requires line == Record(Event(Emptied(before.event.content, fields), before.event.hash))
    ensures forall n, f :: Explains(line, n, f) <==> Explains(before, n, f)
    ensures forall n :: HasRecord(line, n) <==> HasRecord(before, n)
  {
    forall n, f ensures (Explains(line, n, f) <==> Explains(before, n, f)) && (HasRecord(line, n) <==> HasRecord(before, n)) {
      ExplainsAfterRewrite(before, fields, n, f);
    }
    forall n ensures HasRecord(line, n) <==> HasRecord(before, n) {
      ExplainsAfterRewrite(before, fields, n, "");
    }
  }

  lemma AlignedAfterRewrite(w: World, after: World, i: nat, line: Line)
    requires i < |Lines(w.trail.parts)| && Lines(w.trail.parts)[i].Record? && line.Record?
    requires line.event.content.seqNo == Lines(w.trail.parts)[i].event.content.seqNo
    requires Lines(after.trail.parts) == Lines(w.trail.parts)[i := line] && after.trail.checkpoint == w.trail.checkpoint
    ensures Aligned(after.trail) <==> Aligned(w.trail)
    ensures AllReadable(Lines(after.trail.parts)) <==> AllReadable(Lines(w.trail.parts))
  {
    var lines := Lines(w.trail.parts);
    ReadableUpdate(lines, i, line.event);
    if AllReadable(lines[i := line]) {
      forall j | 0 <= j < |lines| ensures lines[j].Record? { assert lines[i := line][j].Record?; }
    }
  }

  lemma RecordedAsSet(lines: seq<Line>, seqNo: int, fields: set<string>)
    requires fields != {}
    ensures (seqNo in Recorded(lines) && fields <= Recorded(lines)[seqNo]) <==>
            (forall f :: f in fields ==> Covered(lines, seqNo, f))
  {
    RecordedMeans(lines, seqNo);
    if forall f :: f in fields ==> Covered(lines, seqNo, f) {
      var f :| f in fields;
      var q :| 0 <= q < |lines| && Explains(lines[q], seqNo, f);
      assert HasRecord(lines[q], seqNo);
    }
  }

  lemma RewriteAccounts(lines: seq<Line>, i: nat, line: Line, fields: set<string>)
    requires i < |lines| && lines[i].Record? && fields != {}
    requires line == Record(Event(Emptied(lines[i].event.content, fields), lines[i].event.hash))
    requires forall n, f :: Explains(line, n, f) <==> Explains(lines[i], n, f)
    requires forall n :: HasRecord(line, n) <==> HasRecord(lines[i], n)
    ensures Accounted(lines[i := line]) <==>
              Accounted(lines) &&
              forall f :: f in fields ==> Covered(lines, line.event.content.seqNo, f)
  {
    var all := lines[i := line];
    var c, c' := lines[i].event.content, line.event.content;
    AccountedAfterUpdate(lines, i, line, c');
    if Accounted(all) {
      assert AccountedFor(all, all[i].event.content);
      assert AccountedFor(lines, c');
      forall p | 0 <= p < |lines| && lines[p].Record? && lines[p].event.content.marker.Some?
        ensures AccountedFor(lines, lines[p].event.content)
      {
        if p != i {
          assert AccountedFor(all, all[p].event.content);
          AccountedAfterUpdate(lines, i, line, lines[p].event.content);
        }
      }
    }
    if Accounted(lines) && forall f :: f in fields ==> Covered(lines, c'.seqNo, f) {
      if c.marker.Some? { assert AccountedFor(lines, c); }
      CoveredIsAccounted(lines, c');
      forall p | 0 <= p < |all| && all[p].Record? && all[p].event.content.marker.Some?
        ensures AccountedFor(all, all[p].event.content)
      {
        if p != i {
          assert AccountedFor(lines, lines[p].event.content);
          AccountedAfterUpdate(lines, i, line, lines[p].event.content);
        }
      }
    }
  }

  // ----- the trim, however often it was interrupted

  /** A trim that ran to its end: the checkpoint, then every eligible partition gone. */
  function Trimmed(w: World, cutoff: int): World {
    var begun := Next(w, BeginTrim(cutoff));
    begun.(trail := begun.trail.(parts := w.trail.parts[Eligible(w.trail.parts, cutoff)..]))
  }

  function Deletes(k: nat): seq<Action> {
    if k == 0 then [] else [DeleteOldest] + Deletes(k - 1)
  }

  lemma {:induction false} DeletesRunOut(w: World, k: nat)
    requires k <= |w.trail.parts| && forall i :: 0 <= i < k ==> w.trail.parts[i].day < w.cut
    decreases k
    ensures Run(w, Deletes(k)) == w.(trail := w.trail.(parts := w.trail.parts[k..]))
  {
    if k > 0 {
      var w' := Next(w, DeleteOldest);
      assert Deletes(k)[1..] == Deletes(k - 1);
      assert w'.trail.parts[k - 1..] == w.trail.parts[k..];
      DeletesRunOut(w', k - 1);
    }
  }

  function TrimActions(cutoff: int, count: nat): seq<Action> {
    [BeginTrim(cutoff)] + Deletes(count)
  }

  /** The completed trim is one of the runs. */
  lemma TrimIsARun(w: World, cutoff: int)
    requires cutoff <= w.today && Eligible(w.trail.parts, cutoff) > 0
    ensures Run(w, TrimActions(cutoff, Eligible(w.trail.parts, cutoff))) == Trimmed(w, cutoff)
  {
    var k := Eligible(w.trail.parts, cutoff);
    assert TrimActions(cutoff, k)[1..] == Deletes(k);
    DeletesRunOut(Next(w, BeginTrim(cutoff)), k);
  }

  lemma TrimmedKeeps(w: World, cutoff: int)
    requires Inv(w) && cutoff <= w.today && Eligible(w.trail.parts, cutoff) > 0
    ensures Inv(Trimmed(w, cutoff))
  {
    TrimIsARun(w, cutoff);
    RunKeeps(w, TrimActions(cutoff, Eligible(w.trail.parts, cutoff)));
  }

  /** A trim whose newest partition holds a readable event puts the chain back in order,
      whatever earlier trims with no later cutoff left behind when they were interrupted. */
  lemma TrimRestores(w: World, cutoff: int)
    requires Inv(w) && w.cut <= cutoff <= w.today
    requires Eligible(w.trail.parts, cutoff) > 0
    requires LastReadable(w.trail.parts[Eligible(w.trail.parts, cutoff) - 1].lines).Some?
    ensures Aligned(Trimmed(w, cutoff).trail)
  {
    var parts := w.trail.parts;
    var k := Eligible(parts, cutoff);
    var events := Readable(Lines(parts));
    var m := NewestTrimmed(parts, k);
    SplitAt(parts, k);
    var rest := Readable(Lines(parts[k..]));
    var base := Base(Trimmed(w, cutoff).trail.checkpoint);
    CheckpointReaches(w, cutoff, m);
    if rest != [] {
      assert rest[0] == events[m + 1];
      assert Follows(events[m], events[m + 1]);
    }
  }

  lemma CheckpointReaches(w: World, cutoff: int, m: nat)
    requires Inv(w) && w.cut <= cutoff <= w.today
    requires Eligible(w.trail.parts, cutoff) > 0
    requires LastReadable(w.trail.parts[Eligible(w.trail.parts, cutoff) - 1].lines).Some?
    requires var events, k := Readable(Lines(w.trail.parts)), Eligible(w.trail.parts, cutoff);
             m < |events| && m + 1 == |Readable(Lines(w.trail.parts[..k]))| &&
             events[m] == LastReadable(w.trail.parts[k - 1].lines).value
    ensures Base(Trimmed(w, cutoff).trail.checkpoint).seqNo == Readable(Lines(w.trail.parts))[m].content.seqNo
  {
    var k := Eligible(w.trail.parts, cutoff);
    CheckpointBehind(w, k, m);
  }

  /** The checkpoint a trim starts from is never ahead of the newest event it removes. */
  lemma CheckpointBehind(w: World, k: nat, m: nat)
    requires Inv(w) && k <= |w.trail.parts| && (k < |w.trail.parts| ==> w.trail.parts[k].day >= w.cut)
    requires m < |Readable(Lines(w.trail.parts))| && m + 1 == |Readable(Lines(w.trail.parts[..k]))|
    ensures Base(w.trail.checkpoint).seqNo <= Readable(Lines(w.trail.parts))[m].content.seqNo
  {
    var events := Readable(Lines(w.trail.parts));
    var covered := Base(w.trail.checkpoint).seqNo;
    ContiguousFrom(events, m);
    ContiguousFrom(events, |events| - 1);
    if covered > events[m].content.seqNo {
      // It would name an event that survives, but it only covers older partitions.
      var n := covered - events[0].content.seqNo;
      ContiguousFrom(events, n);
      CoveredIsOld(w, k, n);
      assert false;
    }
  }

  /** What the checkpoint covers lies in partitions older than any later cutoff. */
  lemma CoveredIsOld(w: World, k: nat, n: nat)
    requires Inv(w) && k <= |w.trail.parts| && n < |Readable(Lines(w.trail.parts))|
    requires k < |w.trail.parts| ==> w.trail.parts[k].day >= w.cut
    requires Readable(Lines(w.trail.parts))[n].content.seqNo <= Base(w.trail.checkpoint).seqNo
    ensures n < |Readable(Lines(w.trail.parts[..k]))|
  {
    var parts := w.trail.parts;
    var i, j := PartHolding(parts, n);
    assert parts[i].day < w.cut;
    assert i < k;
    PrefixShorter(parts, i + 1, k);
  }

  lemma ReadableOfPrefix(parts: seq<Part>, i: nat)
    requires 0 < i < |parts|
    ensures Readable(Lines(parts[..i + 1])) == Readable(parts[0].lines) + Readable(Lines(parts[1..][..i]))
  {
    var rest := parts[1..][..i];
    assert parts[..i + 1][0] == parts[0] && parts[..i + 1][1..] == rest;
    ReadableConcat(parts[0].lines, Lines(rest));
  }

  lemma PartHolding(parts: seq<Part>, n: nat) returns (i: nat, j: nat)
    requires n < |Readable(Lines(parts))|
    ensures i < |parts| && j < |parts[i].lines| && parts[i].lines[j] == Record(Readable(Lines(parts))[n])
    ensures n < |Readable(Lines(parts[..i + 1]))|
  {
    var first := Readable(parts[0].lines);
    ReadableConcat(parts[0].lines, Lines(parts[1..]));
    if n < |first| {
      i := 0;
      j := ReadableIsRecorded(parts[0].lines, n);
      assert parts[..1] == [parts[0]];
      LinesOfOne(parts[0]);
    } else {
      var i', j' := PartHolding(parts[1..], n - |first|);
      i, j := i' + 1, j';
      ReadableOfPrefix(parts, i);
    }
  }

  /** Without a readable event in the newest partition no checkpoint is written, and the chain
      stays in order exactly when nothing readable was removed or nothing readable is left. */
  lemma TrimWithoutCheckpoint(w: World, cutoff: int)
    requires Inv(w) && Aligned(w.trail) && w.cut <= cutoff <= w.today
    requires Eligible(w.trail.parts, cutoff) > 0
    requires LastReadable(w.trail.parts[Eligible(w.trail.parts, cutoff) - 1].lines).None?
    ensures var k := Eligible(w.trail.parts, cutoff);
            Aligned(Trimmed(w, cutoff).trail) <==>
              Readable(Lines(w.trail.parts[..k])) == [] || Readable(Lines(w.trail.parts[k..])) == []
  {
    var parts := w.trail.parts;
    var k := Eligible(parts, cutoff);
    SplitAt(parts, k);
    var removed, rest := Readable(Lines(parts[..k])), Readable(Lines(parts[k..]));
    if removed != [] && rest != [] {
      var events := Readable(Lines(parts));
      ContiguousFrom(events, |removed|);
      assert events[|removed|] == rest[0];
    }
  }

  /** A finished trim never orphans a surviving redaction: the record of a removal is always
      newer than the event it explains. */
  lemma TrimNeverOrphans(w: World, cutoff: int)
    requires Inv(w) && w.cut <= cutoff <= w.today && w.half == {}
    requires Eligible(w.trail.parts, cutoff) > 0
    requires LastReadable(w.trail.parts[Eligible(w.trail.parts, cutoff) - 1].lines).Some?
    requires AllReadable(Lines(w.trail.parts[Eligible(w.trail.parts, cutoff)..]))
    ensures Verified(Trimmed(w, cutoff).trail).ok
  {
    var w' := Trimmed(w, cutoff);
    TrimmedKeeps(w, cutoff);
    TrimRestores(w, cutoff);
    QuietMeansAccounted(w');
    VerifiedExactly(w'.trail);
    ChainIsIntact(w');
  }

  /** One event, a day whose file was created but never written, another event. */
  function ThreeDays(): seq<Action> {
    [Append("t", "a", map[]), NextDay(1), EmptyPartition, NextDay(2), Append("u", "b", map[])]
  }

  lemma OneDay(e1: Event)
    requires e1 == NewEvent(Position(0, None), true, "t", "a", map[])
    ensures Next(START, Append("t", "a", map[])) == World(Trail([Part(0, [Record(e1)], false)], None), 0, 0, {})
  {
    var none: map<string, Value> := map[];
    assert none.Keys == {};
    assert Tail(START.trail) == Position(0, None);
    assert [] + [Part(0, [Record(e1)], false)] == [Part(0, [Record(e1)], false)];
  }

  lemma LastDay(e1: Event, e2: Event)
    requires e1 == NewEvent(Position(0, None), true, "t", "a", map[])
    requires e2 == NewEvent(Position(1, e1.hash), true, "u", "b", map[])
    ensures var p0, p1, p2 := Part(0, [Record(e1)], false), Part(1, [], false), Part(2, [Record(e2)], false);
            Next(World(Trail([p0, p1], None), 2, 0, {}), Append("u", "b", map[])) == World(Trail([p0, p1, p2], None), 2, 0, {})
  {
    var none: map<string, Value> := map[];
    var p0, p1, p2 := Part(0, [Record(e1)], false), Part(1, [], false), Part(2, [Record(e2)], false);
    assert none.Keys == {};
    LinesOfOne(p0);
    assert [p0] + [p1] == [p0, p1];
    LinesOfLast([p0], p1);
    ReadableOfOne(Record(e1));
    assert Lines([p0, p1]) == [Record(e1)];
    assert Tail(Trail([p0, p1], None)) == Position(1, e1.hash);
    assert [p0, p1] + [p2] == [p0, p1, p2];
  }

  lemma ThreeDaysRun(e1: Event, e2: Event)
    requires e1 == NewEvent(Position(0, None), true, "t", "a", map[])
    requires e2 == NewEvent(Position(1, e1.hash), true, "u", "b", map[])
    ensures Run(START, ThreeDays()) ==
            World(Trail([Part(0, [Record(e1)], false), Part(1, [], false), Part(2, [Record(e2)], false)], None), 2, 0, {})
  {
    var a := ThreeDays();
    var p0, p1 := Part(0, [Record(e1)], false), Part(1, [], false);
    OneDay(e1);
    var w1 := Next(START, a[0]);
    assert [p0] + [p1] == [p0, p1];
    var w4 := World(Trail([p0, p1], None), 2, 0, {});
    assert Next(Next(Next(w1, a[1]), a[2]), a[3]) == w4;
    LastDay(e1, e2);
    RunOfFive(START, a);
  }

  lemma RunOfFive(w: World, a: seq<Action>)
    requires |a| == 5
    ensures Run(w, a) == Next(Next(Next(Next(Next(w, a[0]), a[1]), a[2]), a[3]), a[4])
  {
    var w1 := Next(w, a[0]);
    var w2 := Next(w1, a[1]);
    var w3 := Next(w2, a[2]);
    var w4 := Next(w3, a[3]);
    assert a[1..][1..] == a[2..] && a[2..][1..] == a[3..] && a[3..][1..] == a[4..] && a[4..][1..] == [];
    assert Run(w, a) == Run(w1, a[1..]);
    assert Run(w1, a[1..]) == Run(w2, a[2..]);
    assert Run(w2, a[2..]) == Run(w3, a[3..]);
    assert Run(w3, a[3..]) == Run(w4, a[4..]);
    assert Run(w4, a[4..]) == Next(w4, a[4]);
  }

  /** Trimming the first two of these days leaves no checkpoint, and `verify` fails from then on. */
  lemma TrimWithoutCheckpointFails()
    ensures var w := Run(START, ThreeDays());
            && Eligible(w.trail.parts, 2) == 2
            && Verified(w.trail).ok && !Verified(Run(w, TrimActions(2, 2)).trail).ok
  {
    var e1 := NewEvent(Position(0, None), true, "t", "a", map[]);
    var e2 := NewEvent(Position(1, e1.hash), true, "u", "b", map[]);
    ThreeDaysRun(e1, e2);
    var w := Run(START, ThreeDays());
    TwoEventsVerify(e1, e2, w.trail);
    TrimmedFails(w, e1, e2);
    TrimIsARun(w, 2);
  }

  lemma TrimmedFails(w: World, e1: Event, e2: Event)
    requires e2 == NewEvent(Position(1, e1.hash), true, "u", "b", map[]) && e1.hash.Some?
    requires w == World(Trail([Part(0, [Record(e1)], false), Part(1, [], false), Part(2, [Record(e2)], false)], None), 2, 0, {})
    ensures Eligible(w.trail.parts, 2) == 2 && !Verified(Trimmed(w, 2).trail).ok
  {
    var parts, p2 := w.trail.parts, Part(2, [Record(e2)], false);
    assert parts[0].day == 0 && parts[1].day == 1 && parts[2] == p2;
    assert parts[2..] == [p2] && LastReadable(parts[1].lines) == None;
    var t := Trimmed(w, 2).trail;
    assert t == Trail([p2], None);
    LinesOfOne(p2);
    ReadableOfOne(Record(e2));
    VerifiedExactly(t);
    assert [e2][0].content.prev != HashBefore([e2], 0, None);
  }

  lemma TwoEventsVerify(e1: Event, e2: Event, t: Trail)
    requires e1 == NewEvent(Position(0, None), true, "t", "a", map[])
    requires e2 == NewEvent(Position(1, e1.hash), true, "u", "b", map[])
    requires t == Trail([Part(0, [Record(e1)], false), Part(1, [], false), Part(2, [Record(e2)], false)], None)
    ensures Verified(t).ok
  {
    var p0, p1, p2 := Part(0, [Record(e1)], false), Part(1, [], false), Part(2, [Record(e2)], false);
    ThreeParts(p0, p1, p2);
    var lines := [Record(e1), Record(e2)];
    assert p0.lines + p1.lines + p2.lines == lines;
    assert Lines(t.parts) == lines;
    assert Readable(lines) == [e1, e2] by {
      ReadableOfOne(Record(e1));
      ReadableSnoc([Record(e1)], Record(e2));
      assert [Record(e1)] + [Record(e2)] == lines && [e1] + [e2] == [e1, e2];
    }
    TwoLinked(e1, e2);
    VerifiedExactly(t);
  }

  lemma TwoLinked(e1: Event, e2: Event)
    requires e1 == NewEvent(Position(0, None), true, "t", "a", map[])
    requires e2 == NewEvent(Position(1, e1.hash), true, "u", "b", map[])
    ensures Linked([e1, e2], None) && Attested([e1, e2])
  {
    assert HashBefore([e1, e2], 0, None) == None && HashBefore([e1, e2], 1, None) == e1.hash;
  }

  lemma ThreeParts(a: Part, b: Part, c: Part)
    ensures Lines([a, b, c]) == a.lines + b.lines + c.lines
  {
    LinesOfOne(a);
    assert [a] + [b] == [a, b] && [a, b] + [c] == [a, b, c];
    LinesOfLast([a], b);
    LinesOfLast([a, b], c);
  }

  // ----- runs whose trims were finished

  // One step other than a trim's, or a whole trim.
  datatype Operation = Single(action: Action) | WholeTrim(cutoff: int)

  function Operated(w: World, o: Operation): World {
    match o
    case Single(a) => Next(w, a)
    case WholeTrim(cutoff) =>
      if cutoff > w.today || Eligible(w.trail.parts, cutoff) == 0 then w else Trimmed(w, cutoff)
  }

  function Operations(w: World, os: seq<Operation>): World
    decreases |os|
  {
    if os == [] then w else Operations(Operated(w, os[0]), os[1..])
  }

  /** A trim finds a readable event in the newest partition it removes. */
  ghost predicate Sensible(w: World, o: Operation) {
    match o
    case Single(a) => !a.BeginTrim? && !a.DeleteOldest?
    case WholeTrim(cutoff) =>
      cutoff <= w.today && Eligible(w.trail.parts, cutoff) > 0 ==>
        LastReadable(w.trail.parts[Eligible(w.trail.parts, cutoff) - 1].lines).Some?
  }

  ghost predicate AllSensible(w: World, os: seq<Operation>)
    decreases |os|
  {
    os == [] || (Sensible(w, os[0]) && AllSensible(Operated(w, os[0]), os[1..]))
  }

  ghost predicate Settled(w: World) {
    Inv(w) && Aligned(w.trail) && NothingStale(w)
  }

  /** The first event follows the base. */
  ghost predicate FirstFollows(lines: seq<Line>, base: int) {
    Readable(lines) != [] ==> Readable(lines)[0].content.seqNo == base + 1
  }

  lemma FirstAfterSnoc(lines: seq<Line>, line: Line, base: int)
    requires FirstFollows(lines, base)
    requires line.Record? && Readable(lines) == [] ==> line.event.content.seqNo == base + 1
    ensures FirstFollows(lines + [line], base)
  {
    ReadableSnoc(lines, line);
  }

  lemma FirstAfterSpoil(lines: seq<Line>, base: int)
    requires lines != [] && FirstFollows(lines, base)
    ensures FirstFollows(lines[..|lines| - 1] + [Unreadable], base)
  {
    var front, last := lines[..|lines| - 1], lines[|lines| - 1];
    assert lines == front + [last];
    ReadableSnoc(front, last);
    ReadableSnoc(front, Unreadable);
  }

  lemma AlignedAfterAdd(w: World, ts: string, kind: string, body: map<string, Value>, line: Line, terminated: bool)
    requires Inv(w) && Aligned(w.trail)
    requires line == Record(NewEvent(Tail(w.trail), true, ts, kind, body)) || line == Unreadable
    ensures Aligned(w.trail.(parts := AddLine(w.trail.parts, w.today, line, terminated)))
  {
    var before, base := Lines(w.trail.parts), Base(w.trail.checkpoint).seqNo;
    LinesAfterAdd(w.trail.parts, w.today, line, terminated);
    TailOfReadable(w.trail);
    FirstAfterSnoc(before, line, base);
    if before != [] { FirstAfterSpoil(before, base); }
  }

  lemma RewriteStaysAligned(w: World, seqNo: int, fields: set<string>)
    requires Inv(w) && Aligned(w.trail)
    ensures Aligned(Next(w, RedactRewrite(seqNo, fields)).trail)
  {
    if RedactRefusal(w.trail.parts, seqNo, fields).None? {
      var i, line := RewriteInLines(w, seqNo, fields);
      AlignedAfterRewrite(w, Next(w, RedactRewrite(seqNo, fields)), i, line);
    }
  }

  lemma SingleStaysAligned(w: World, a: Action)
    requires Inv(w) && Aligned(w.trail) && !a.BeginTrim? && !a.DeleteOldest?
    ensures Aligned(Next(w, a).trail)
  {
    match a
    case Append(ts, kind, body) =>
      AlignedAfterAdd(w, ts, kind, body, Record(NewEvent(Tail(w.trail), true, ts, kind, body)), true);
    case TornAppend(ts, kind, body, whole) =>
      AlignedAfterAdd(w, ts, kind, body,
                      if whole then Record(NewEvent(Tail(w.trail), true, ts, kind, body)) else Unreadable, false);
    case EmptyPartition =>
      LinesOfLast(w.trail.parts, Part(w.today, [], false));
      assert Lines(w.trail.parts) + [] == Lines(w.trail.parts);
    case NextDay(_) =>
    case RedactRewrite(seqNo, fields) => RewriteStaysAligned(w, seqNo, fields);
    case RedactRecord(seqNo, fields, ts, reason, actor) =>
      var body := RecordBody(seqNo, fields, reason, actor);
      AlignedAfterAdd(w, ts, REDACTED_EVENT, body, Record(NewEvent(Tail(w.trail), true, ts, REDACTED_EVENT, body)), true);
  }

  ghost predicate NothingStale(w: World) {
    forall i :: 0 <= i < |w.trail.parts| ==> w.trail.parts[i].day >= w.cut
  }

  lemma NothingStaleAfterAdd(parts: seq<Part>, day: int, line: Line, terminated: bool, cut: int)
    requires cut <= day && Recent(parts, day) && forall i :: 0 <= i < |parts| ==> parts[i].day >= cut
    ensures forall i :: 0 <= i < |AddLine(parts, day, line, terminated)| ==> AddLine(parts, day, line, terminated)[i].day >= cut
  {
  }

  lemma SingleKeepsDays(w: World, a: Action)
    requires DaysKept(w) && NothingStale(w) && !a.BeginTrim? && !a.DeleteOldest?
    ensures NothingStale(Next(w, a))
  {
    match a
    case Append(ts, kind, body) =>
      NothingStaleAfterAdd(w.trail.parts, w.today, Record(NewEvent(Tail(w.trail), true, ts, kind, body)), true, w.cut);
    case TornAppend(ts, kind, body, whole) =>
      var line := if whole then Record(NewEvent(Tail(w.trail), true, ts, kind, body)) else Unreadable;
      NothingStaleAfterAdd(w.trail.parts, w.today, line, false, w.cut);
    case RedactRecord(seqNo, fields, ts, reason, actor) =>
      var body := RecordBody(seqNo, fields, reason, actor);
      NothingStaleAfterAdd(w.trail.parts, w.today, Record(NewEvent(Tail(w.trail), true, ts, REDACTED_EVENT, body)), true, w.cut);
    case _ =>
  }

  lemma TrimLeavesNothingStale(w: World, cutoff: int)
    requires DaysKept(w) && NothingStale(w) && cutoff <= w.today && Eligible(w.trail.parts, cutoff) > 0
    ensures w.cut < cutoff && NothingStale(Trimmed(w, cutoff))
  {
    var parts := w.trail.parts;
    var k := Eligible(parts, cutoff);
    assert w.cut <= parts[0].day < cutoff;
    forall i | k <= i < |parts| ensures parts[i].day >= cutoff {
      if i > k { assert parts[k].day < parts[i].day; }
    }
    assert forall i :: 0 <= i < |parts| - k ==> parts[k..][i] == parts[k + i];
  }

  lemma WholeTrimSettles(w: World, cutoff: int)
    requires Settled(w) && cutoff <= w.today && Eligible(w.trail.parts, cutoff) > 0
    requires LastReadable(w.trail.parts[Eligible(w.trail.parts, cutoff) - 1].lines).Some?
    ensures Settled(Trimmed(w, cutoff))
  {
    TrimLeavesNothingStale(w, cutoff);
    TrimmedKeeps(w, cutoff);
    TrimRestores(w, cutoff);
  }

  lemma OperationSettles(w: World, o: Operation)
    requires Settled(w) && Sensible(w, o)
    ensures Settled(Operated(w, o))
  {
    match o
    case Single(a) =>
      StepKeeps(w, a);
      SingleStaysAligned(w, a);
      SingleKeepsDays(w, a);
    case WholeTrim(cutoff) =>
      if cutoff <= w.today && Eligible(w.trail.parts, cutoff) > 0 { WholeTrimSettles(w, cutoff); }
  }

  lemma {:induction false} OperationsSettle(w: World, os: seq<Operation>)
    requires Settled(w) && AllSensible(w, os)
    ensures Settled(Operations(w, os))
    decreases |os|
  {
    if os != [] {
      OperationSettles(w, os[0]);
      OperationsSettle(Operated(w, os[0]), os[1..]);
    }
  }

  /** Any appends, crashes, redactions and whole trims, in any order, as long as each trim finds a
      readable event in the newest partition it removes: once every removal has its record,
      `verify` passes exactly when no write was torn. */
  lemma FinishedTrimsVerify(os: seq<Operation>)
    requires AllSensible(START, os) && Operations(START, os).half == {}
    ensures var t := Operations(START, os).trail;
            Verified(t).ok <==> AllReadable(Lines(t.parts))
  {
    var w := Operations(START, os);
    OperationsSettle(START, os);
    VerifyOfInv(w);
    if AllReadable(Lines(w.trail.parts)) { QuietMeansAccounted(w); }
  }
}
