/**
 The audit log itself: writers that keep a sequence number and a hash in memory, re-read the
 chain from disk before every append, rewrite a partition to redact, and walk everything to
 verify. Each method is proved against the trail functions of `AuditLedger`.
 */
module AuditStore {
  import opened Wrappers
  import opened AuditLedger
  import LedgerRuns
  import LedgerVerdicts

  /** The audit directory, shared by every process that writes to it. */
  class AuditDirectory {
    var trail: Trail

    constructor ()
      ensures trail == Trail([], None)
    {
      trail := Trail([], None);
    }
  }

  /** What one whole retention run does to the audit store. */
  function RetentionBody(count: nat): map<string, Value> {
    map["store" := Text("audit"), "count" := Number(count)]
  }

  function WithoutOldest(t: Trail, chained: bool, count: nat): Trail {
    if count > |t.parts| then t
    else Trail(t.parts[count..], if chained then TrimCheckpoint(t, count) else t.checkpoint)
  }

  function RetentionApplied(t: Trail, chained: bool, cutoff: int, day: int, ts: string): Trail {
    var k := Eligible(t.parts, cutoff);
    if k == 0 then t
    else
      var started := Appended(t, chained, day, ts, "retention.started", RetentionBody(k));
      Appended(WithoutOldest(started, chained, k), chained, day, ts, "retention.applied", RetentionBody(k))
  }

  lemma LastOfConcat(a: seq<Line>, b: seq<Line>)
    ensures LastReadable(a + b) == if LastReadable(b).Some? then LastReadable(b) else LastReadable(a)
  {
    LedgerRuns.ReadableConcat(a, b);
  }

  lemma LinesSnoc(parts: seq<Part>, i: nat)
    requires i < |parts|
    ensures Lines(parts[..i + 1]) == Lines(parts[..i]) + parts[i].lines
  {
    assert parts[..i + 1] == parts[..i] + [parts[i]];
    LedgerRuns.LinesConcat(parts[..i], [parts[i]]);
    LedgerRuns.LinesOfOne(parts[i]);
  }

  /** What one more line adds to everything the verifier carries along. */
  lemma SeenOneMore(seen: seq<Line>, line: Line, start: Option<Hash>)
    ensures WalkBreaks(seen + [line], start) == WalkBreaks(seen, start) + LineBreaks(|seen|, line, RunningHash(seen, start))
    ensures Recorded(seen + [line]) == AddRecord(Recorded(seen), line)
    ensures Redactions(seen + [line]) ==
              Redactions(seen) + if line.Record? && line.event.content.marker.Some?
                                 then [Redaction(|seen|, line.event.content.seqNo, line.event.content.marker.value)] else []
    ensures RunningHash(seen + [line], start) == if line.Record? then line.event.hash else RunningHash(seen, start)
  {
    assert (seen + [line])[..|seen|] == seen;
  }

  lemma TakeOneMore(before: seq<Line>, lines: seq<Line>, j: nat)
    requires j < |lines|
    ensures before + lines[..j + 1] == (before + lines[..j]) + [lines[j]]
    ensures before + lines[..|lines|] == before + lines
  {
  }

  class AuditLog {
    const root: AuditDirectory
    const chained: bool
    var seqNo: int
    var prevHash: Option<Hash>

    constructor (root: AuditDirectory, chained: bool)
      ensures this.root == root && this.chained == chained
      ensures Position(seqNo, prevHash) == Tail(root.trail)
    {
      this.root := root;
      this.chained := chained;
      new;
      var tail := Resume();
      seqNo, prevHash := tail.seqNo, tail.hash;
    }

    /** The newest record of one partition that can be read. */
    method LastParseable(lines: seq<Line>) returns (e: Option<Event>)
      ensures e == LastReadable(lines)
    {
      var i := |lines|;
      assert lines[..|lines|] == lines;
      while i > 0
        invariant 0 <= i <= |lines|
        invariant LastReadable(lines) == LastReadable(lines[..i])
      {
        i := i - 1;
        assert lines[..i + 1] == lines[..i] + [lines[i]];
        LedgerRuns.ReadableSnoc(lines[..i], lines[i]);
        match lines[i]
        case Record(event) => return Some(event);
        case Unreadable =>
      }
      e := None;
    }

    /** Walk back over the partitions until some record can be read. */
    method Resume() returns (tail: Position)
      ensures tail == Tail(root.trail)
    {
      var parts := root.trail.parts;
      assert parts[..|parts|] == parts;
      var i := |parts|;
      while i > 0
        invariant 0 <= i <= |parts|
        invariant LastReadable(Lines(parts)) == LastReadable(Lines(parts[..i]))
      {
        i := i - 1;
        LinesSnoc(parts, i);
        LastOfConcat(Lines(parts[..i]), parts[i].lines);
        var e := LastParseable(parts[i].lines);
        if e.Some? {
          return Position(e.value.content.seqNo, e.value.hash);
        }
      }
      tail := Base(root.trail.checkpoint);
    }

    /** Append one event. What another process wrote since the last call is the chain's real
        tail, so it is read again before the event is built. */
    method Append(day: int, ts: string, kind: string, body: map<string, Value>) returns (e: Event)
      requires body.Keys * RESERVED == {}
      modifies this, root
      ensures e == NewEvent(Tail(old(root.trail)), chained, ts, kind, body)
      ensures var tail := Tail(old(root.trail));
              && e.content == Content(tail.seqNo + 1, ts, kind, body, None, if chained then tail.hash else None)
              && e.hash == if chained then Some(Sha(e.content)) else None
      ensures root.trail == Appended(old(root.trail), chained, day, ts, kind, body)
      ensures seqNo == e.content.seqNo
      ensures chained ==> prevHash == e.hash
    {
      var tail := Resume();
      seqNo, prevHash := tail.seqNo, tail.hash;
      seqNo := seqNo + 1;
      var content := Content(seqNo, ts, kind, body, None, None);
      if chained {
        content := content.(prev := prevHash);
        e := Event(content, Some(Sha(content)));
        prevHash := e.hash;
      } else {
        e := Event(content, None);
      }
      root.trail := root.trail.(parts := AddLine(root.trail.parts, day, Record(e), true));
    }

    /** The first event with this sequence number: its partition and its line. */
    method FindEvent(seqNo: int) returns (found: Option<(nat, nat)>)
      ensures found.None? <==> PartOf(root.trail.parts, seqNo).None?
      ensures found.Some? ==>
                PartOf(root.trail.parts, seqNo) == Some(found.value.0) &&
                IndexOf(root.trail.parts[found.value.0].lines, seqNo) == Some(found.value.1)
    {
      var parts := root.trail.parts;
      for p := 0 to |parts|
        invariant forall i :: 0 <= i < p ==> IndexOf(parts[i].lines, seqNo).None?
      {
        var lines := parts[p].lines;
        for i := 0 to |lines|
          invariant forall j :: 0 <= j < i ==> !(lines[j].Record? && lines[j].event.content.seqNo == seqNo)
        {
          if lines[i].Record? && lines[i].event.content.seqNo == seqNo {
            assert IndexOf(lines, seqNo).Some?;
            return Some((p, i));
          }
        }
      }
      found := None;
    }

    /** Empty fields of one event in place, then append the record of having done so. A refusal
        leaves the trail as it was. */
    method Redact(target: int, fields: set<string>, day: int, ts: string, reason: string, actor: string)
      returns (r: Result<Event, RedactError>)
      modifies this, root
      ensures var refusal := RedactRefusal(old(root.trail).parts, target, fields);
              match refusal
              case Some(error) => r == Err(error) && root.trail == old(root.trail)
              case None =>
                var e := Found(old(root.trail).parts, target);
                var rewritten := old(root.trail).(parts := Rewritten(old(root.trail).parts, target, fields));
                && r == Ok(Event(Emptied(e.content, fields), e.hash))
                && root.trail == Appended(rewritten, chained, day, ts, REDACTED_EVENT, RecordBody(target, fields, reason, actor))
      ensures r.Ok? ==>
                var p := PartOf(old(root.trail).parts, target).value;
                var part := old(root.trail).parts[p];
                var i := IndexOf(part.lines, target).value;
                && Blanked(part.lines[i].event, r.value, fields)
                && root.trail ==
                     Appended(Trail(old(root.trail).parts[p := Part(part.day, part.lines[i := Record(r.value)], false)],
                                    old(root.trail).checkpoint),
                              chained, day, ts, "audit.redacted",
                              map["redacted_seq" := Number(target), "fields" := Names(fields),
                                  "reason" := Text(reason), "actor" := Text(actor)])
    {
      if fields == {} { return Err(NoFieldsNamed); }
      var found := FindEvent(target);
      if found.None? { return Err(NoSuchEvent); }
      var (p, i) := found.value;
      var part := root.trail.parts[p];
      var e := part.lines[i].event;
      if fields * Protected(e.content) != {} { return Err(Unredactable(fields * Protected(e.content))); }
      if fields - e.content.body.Keys != {} { return Err(Absent(fields - e.content.body.Keys)); }
      var emptied := Event(Emptied(e.content, fields), e.hash);
      root.trail := root.trail.(parts := root.trail.parts[p := Part(part.day, part.lines[i := Record(emptied)], false)]);
      var _ := Append(day, ts, REDACTED_EVENT, RecordBody(target, fields, reason, actor));
      r := Ok(emptied);
    }

    /** Record, before the first `count` partitions are deleted, where the chain will start. */
    method WriteTrimCheckpoint(count: nat)
      requires count <= |root.trail.parts|
      modifies root
      ensures root.trail ==
                old(root.trail).(checkpoint := if chained then TrimCheckpoint(old(root.trail), count)
                                               else old(root.trail).checkpoint)
    {
      if !chained || count == 0 { return; }
      var newest := root.trail.parts[count - 1].lines;
      var last: Option<Event> := None;
      for i := 0 to |newest|
        invariant root.trail == old(root.trail)
        invariant last == LastReadable(newest[..i])
      {
        assert newest[..i + 1] == newest[..i] + [newest[i]];
        LedgerRuns.ReadableSnoc(newest[..i], newest[i]);
        if newest[i].Record? { last := Some(newest[i].event); }
      }
      assert newest[..|newest|] == newest;
      assert last == LastReadable(root.trail.parts[count - 1].lines);
      if last.None? { return; }
      var existing := root.trail.checkpoint;
      if existing.Some? && existing.value.seqNo >= last.value.content.seqNo { return; }
      root.trail := root.trail.(checkpoint := Some(Checkpoint(last.value.content.seqNo, last.value.hash)));
    }

    /** Walk every line once, with the hash the next event must name, then hold each emptied
        event against the records of removal. */
    method Verify() returns (r: VerifyResult)
      ensures r == if chained then Verified(root.trail) else VerifyResult(true, [], [])
    {
      if !chained { return VerifyResult(true, [], []); }
      var parts, start := root.trail.parts, Base(root.trail.checkpoint).hash;
      var breaks: seq<Break>, redactions: seq<Redaction>, explained: map<int, set<string>> := [], [], map[];
      var prevHash, at := start, 0;
      ghost var seen: seq<Line> := [];
      for p := 0 to |parts|
        invariant seen == Lines(parts[..p]) && at == |seen| && prevHash == RunningHash(seen, start)
        invariant breaks == WalkBreaks(seen, start)
        invariant redactions == Redactions(seen) && explained == Recorded(seen)
      {
        var lines := parts[p].lines;
        LinesSnoc(parts, p);
        ghost var before := seen;
        for j := 0 to |lines|
          invariant seen == before + lines[..j] && at == |seen| && prevHash == RunningHash(seen, start)
          invariant breaks == WalkBreaks(seen, start)
          invariant redactions == Redactions(seen) && explained == Recorded(seen)
        {
          SeenOneMore(seen, lines[j], start);
          match lines[j] {
            case Unreadable =>
              breaks := breaks + [Break(at, UnreadableRecord)];
            case Record(e) =>
              var found := CheckRecord(at, e, prevHash);
              breaks := breaks + found;
              if e.content.kind == REDACTED_EVENT {
                var n := RecordedSeq(e.content);
                explained := explained[n := (if n in explained then explained[n] else {}) + RecordedFields(e.content)];
              }
              if e.content.marker.Some? {
                redactions := redactions + [Redaction(at, e.content.seqNo, e.content.marker.value)];
              }
              prevHash := e.hash;
          }
          TakeOneMore(before, lines, j);
          seen := seen + [lines[j]];
          at := at + 1;
        }
      }
      assert parts[..|parts|] == parts;
      var unexplained := CheckAccounts(redactions, explained);
      breaks := breaks + unexplained;
      r := VerifyResult(breaks == [], breaks, redactions);
    }

    /** The link to the event before, and the digest of an event that is not redacted. */
    method CheckRecord(at: nat, e: Event, prevHash: Option<Hash>) returns (found: seq<Break>)
      ensures found == LineBreaks(at, Record(e), prevHash)
    {
      found := [];
      if e.content.prev != prevHash { found := found + [Break(at, WrongPrev)]; }
      if e.content.marker.None? && e.hash != Some(Sha(e.content)) { found := found + [Break(at, WrongHash)]; }
    }

    /** An emptied event that nothing accounts for, or not for every field, is a break. */
    method CheckAccounts(redactions: seq<Redaction>, explained: map<int, set<string>>) returns (breaks: seq<Break>)
      ensures breaks == AccountBreaks(redactions, explained)
    {
      breaks := [];
      for k := 0 to |redactions|
        invariant breaks == AccountBreaks(redactions[..k], explained)
      {
        assert redactions[..k + 1][..k] == redactions[..k];
        var redaction := redactions[k];
        if redaction.seqNo !in explained {
          breaks := breaks + [Break(redaction.at, Unexplained)];
        } else {
          var unaccounted := redaction.fields - explained[redaction.seqNo];
          if unaccounted != {} { breaks := breaks + [Break(redaction.at, Unaccounted(unaccounted))]; }
        }
      }
      assert redactions[..|redactions|] == redactions;
    }
  }

  /** Delete every audit partition older than the cutoff, saying so before and after. */
  method ApplyRetention(audit: AuditLog, cutoff: int, day: int, ts: string) returns (removed: nat)
    requires cutoff <= day
    modifies audit, audit.root
    ensures removed == Eligible(old(audit.root.trail).parts, cutoff)
    ensures audit.root.trail == RetentionApplied(old(audit.root.trail), audit.chained, cutoff, day, ts)
  {
    ghost var before := audit.root.trail;
    var k := Eligible(audit.root.trail.parts, cutoff);
    removed := 0;
    if k == 0 { return; }
    var started := audit.Append(day, ts, "retention.started", RetentionBody(k));
    EligibleAfterAdd(before.parts, cutoff, day, Record(started));
    audit.WriteTrimCheckpoint(k);
    ghost var marked := audit.root.trail;
    while removed < k
      invariant 0 <= removed <= k <= |marked.parts|
      invariant audit.root.trail == marked.(parts := marked.parts[removed..])
    {
      audit.root.trail := audit.root.trail.(parts := audit.root.trail.parts[1..]);
      removed := removed + 1;
    }
    var _ := audit.Append(day, ts, "retention.applied", RetentionBody(k));
  }

  /** What a retention run leaves, store by store: its two events with the count, the partitions
      from the cutoff on, and a chain that starts where the newest trimmed event left it. */
  lemma RetentionLeaves(t: Trail, chained: bool, cutoff: int, day: int, ts: string, k: nat) returns (started: Event, applied: Event)
    requires cutoff <= day && 0 < k <= |t.parts|
    requires (forall i :: 0 <= i < k ==> t.parts[i].day < cutoff) && (k < |t.parts| ==> t.parts[k].day >= cutoff)
    ensures var body := map["store" := Text("audit"), "count" := Number(k)];
            && started.content == Content(Tail(t).seqNo + 1, ts, "retention.started", body, None, if chained then Tail(t).hash else None)
            && applied.content.ts == ts && applied.content.kind == "retention.applied" && applied.content.body == body
            && applied.content.marker == None
    ensures var after := RetentionApplied(t, chained, cutoff, day, ts);
            var begun := AddLine(t.parts, day, Record(started), true);
            && |begun| >= k && after.parts == AddLine(begun[k..], day, Record(applied), true)
            && var newest := LastReadable(begun[k - 1].lines);
               after.checkpoint == if chained && newest.Some? &&
                                      (t.checkpoint.None? || newest.value.content.seqNo > t.checkpoint.value.seqNo)
                                   then Some(Checkpoint(newest.value.content.seqNo, newest.value.hash))
                                   else t.checkpoint
  {
    var body := RetentionBody(k);
    EligibleIs(t.parts, cutoff, k);
    started := NewEvent(Tail(t), chained, ts, "retention.started", body);
    var begun := Appended(t, chained, day, ts, "retention.started", body);
    EligibleAfterAdd(t.parts, cutoff, day, Record(started));
    applied := NewEvent(Tail(WithoutOldest(begun, chained, k)), chained, ts, "retention.applied", body);
  }

  lemma EligibleIs(parts: seq<Part>, cutoff: int, k: nat)
    requires k <= |parts| && (forall i :: 0 <= i < k ==> parts[i].day < cutoff) && (k < |parts| ==> parts[k].day >= cutoff)
    ensures Eligible(parts, cutoff) == k
  {
  }

  lemma {:induction false} EligibleSnoc(parts: seq<Part>, last: Part, cutoff: int)
    ensures Eligible(parts + [last], cutoff) ==
            if Eligible(parts, cutoff) == |parts| && last.day < cutoff then |parts| + 1 else Eligible(parts, cutoff)
  {
    var k, k' := Eligible(parts, cutoff), Eligible(parts + [last], cutoff);
    var all := parts + [last];
    if k < |parts| { assert all[k] == parts[k]; }
    if k' < |parts| { assert all[k'] == parts[k']; }
    assert all[|parts|] == last;
  }

  lemma {:induction false} EligibleAfterAdd(parts: seq<Part>, cutoff: int, day: int, line: Line)
    requires cutoff <= day
    ensures Eligible(AddLine(parts, day, line, true), cutoff) == Eligible(parts, cutoff)
    decreases |parts|
  {
    if parts == [] || parts[|parts| - 1].day < day {
      EligibleSnoc(parts, Part(day, [line], false), cutoff);
    } else {
      var front, last := parts[..|parts| - 1], parts[|parts| - 1];
      assert parts == front + [last];
      EligibleSnoc(front, last, cutoff);
      if last.day == day {
        EligibleSnoc(front, Part(day, Extended(last, line), false), cutoff);
      } else {
        EligibleAfterAdd(front, cutoff, day, line);
        EligibleSnoc(AddLine(front, day, line, true), last, cutoff);
      }
    }
  }

  function RetentionActions(count: nat, cutoff: int, ts: string): seq<LedgerRuns.Action> {
    [LedgerRuns.Append(ts, "retention.started", RetentionBody(count))]
    + LedgerVerdicts.TrimActions(cutoff, count)
    + [LedgerRuns.Append(ts, "retention.applied", RetentionBody(count))]
  }

  /** A retention run is an append, a trim with all its deletions, and an append: everything
      proved about runs of the trail holds of it. */
  lemma RetentionIsARun(w: LedgerRuns.World, cutoff: int, ts: string)
    requires cutoff <= w.today && Eligible(w.trail.parts, cutoff) > 0
    ensures LedgerRuns.Run(w, RetentionActions(Eligible(w.trail.parts, cutoff), cutoff, ts)).trail ==
            RetentionApplied(w.trail, true, cutoff, w.today, ts)
  {
    var k := Eligible(w.trail.parts, cutoff);
    var first := LedgerRuns.Append(ts, "retention.started", RetentionBody(k));
    var w1 := LedgerRuns.Next(w, first);
    AppendStep(w, ts, "retention.started", k);
    EligibleAfterAdd(w.trail.parts, cutoff, w.today,
                     Record(NewEvent(Tail(w.trail), true, ts, "retention.started", RetentionBody(k))));
    AppendStep(LedgerVerdicts.Trimmed(w1, cutoff), ts, "retention.applied", k);
    RunAround(w, first, LedgerVerdicts.TrimActions(cutoff, k),
              LedgerRuns.Append(ts, "retention.applied", RetentionBody(k)));
    LedgerVerdicts.TrimIsARun(w1, cutoff);
    TrimmedTrail(w1, cutoff);
  }

  lemma TrimmedTrail(w: LedgerRuns.World, cutoff: int)
    requires cutoff <= w.today && Eligible(w.trail.parts, cutoff) > 0
    ensures LedgerVerdicts.Trimmed(w, cutoff).trail == WithoutOldest(w.trail, true, Eligible(w.trail.parts, cutoff))
    ensures LedgerVerdicts.Trimmed(w, cutoff).today == w.today
  {
  }

  lemma AppendStep(w: LedgerRuns.World, ts: string, kind: string, count: nat)
    ensures LedgerRuns.Next(w, LedgerRuns.Append(ts, kind, RetentionBody(count))) ==
            w.(trail := Appended(w.trail, true, w.today, ts, kind, RetentionBody(count)))
  {
    assert RetentionBody(count).Keys == {"store", "count"};
  }

  lemma RunAround(w: LedgerRuns.World, a: LedgerRuns.Action, middle: seq<LedgerRuns.Action>, z: LedgerRuns.Action)
    ensures LedgerRuns.Run(w, [a] + middle + [z]) == LedgerRuns.Next(LedgerRuns.Run(LedgerRuns.Next(w, a), middle), z)
  {
    RunConcat(w, [a] + middle, [z]);
    RunConcat(w, [a], middle);
    assert [a][1..] == [] && [z][1..] == [];
  }

  lemma {:induction false} RunConcat(w: LedgerRuns.World, a: seq<LedgerRuns.Action>, b: seq<LedgerRuns.Action>)
    ensures LedgerRuns.Run(w, a + b) == LedgerRuns.Run(LedgerRuns.Run(w, a), b)
    decreases |a|
  {
    if a == [] {
      assert a + b == b;
    } else {
      assert (a + b)[0] == a[0] && (a + b)[1..] == a[1..] + b;
      RunConcat(LedgerRuns.Next(w, a[0]), a[1..], b);
    }
  }
}
